/** When `Compact` ends how, and what its decisions and counts say. */
module Statuses {
  import opened Transcript
  import opened Groups
  import opened Scores
  import opened Representations
  import opened Greedy
  import opened Assembly
  import opened Evaluations
  import opened Selection
  import opened Engine
  import opened Guarantees

  // ----- decisions -----

  /** What a decision says: its group, the ids of the members in order, what was done and why. */
  ghost predicate Reports(messages: seq<Message>, g: Group, c: Choice, scores: map<string, Score>, d: Decision)
    requires InRange(g.indices, |messages|)
  {
    && d.groupID == g.id && d.action == c.action
    && |d.messageIDs| == |g.indices|
    && (forall k :: 0 <= k < |g.indices| ==> d.messageIDs[k] == messages[g.indices[k]].id)
    && if g.protected then d.score == None && d.reason == g.reason
       else
         && d.score == Some(if g.id in scores then scores[g.id] else Score(None, 0.0, 0.0, None))
         && d.reason ==
              match (d.score.value.keep, d.score.value.loss)
              case (Some(_), _) => "call/result retention scores with 0.5 threshold"
              case (None, Some(_)) => "budget selection using per-action loss estimates"
              case (None, None) => "budget selection using legacy probability gates"
  }

  lemma DecisionsReport(messages: seq<Message>, groups: seq<Group>, sel: seq<Choice>, scores: map<string, Score>)
    requires |sel| == |groups| && AllInRange(groups, |messages|)
    ensures var decisions := Decisions(messages, groups, sel, scores);
      |decisions| == |groups|
      && forall g :: 0 <= g < |groups| ==> Reports(messages, groups[g], sel[g], scores, decisions[g])
  {
    var decisions := Decisions(messages, groups, sel, scores);
    forall g | 0 <= g < |groups|
      ensures Reports(messages, groups[g], sel[g], scores, decisions[g])
    {
      DecisionFields(messages, groups, sel, scores, g);
      OneReports(messages, groups[g], sel[g], scores);
    }
  }

  lemma OneReports(messages: seq<Message>, g: Group, c: Choice, scores: map<string, Score>)
    requires InRange(g.indices, |messages|)
    ensures Reports(messages, g, c, scores, DecisionFor(messages, g, c, ScoreOf(scores, g.id)))
  {
  }

  // ----- counts -----

  function HowMany(decisions: seq<Decision>, of: Decision -> bool): nat {
    if decisions == [] then 0
    else HowMany(decisions[..|decisions| - 1], of) + if of(decisions[|decisions| - 1]) then 1 else 0
  }

  /** Some candidate of the decided group has a proposal that its score permits. */
  predicate HasWayOut(candidates: seq<Candidate>, d: Decision) {
    exists c, v :: c in candidates && c.id == d.groupID && v in c.variants
      && d.score.Some? && ActionLoss(d.score.value, v.action).Some?
  }

  lemma WayOutIsAllowed(candidates: seq<Candidate>, d: Decision)
    requires d.score.Some?
    ensures HasWayOut(candidates, d) <==> AllowsAny(d.score.value, d.groupID, candidates)
  {
    if HasWayOut(candidates, d) {
      var c, v :| c in candidates && c.id == d.groupID && v in c.variants && ActionLoss(d.score.value, v.action).Some?;
      var i :| 0 <= i < |candidates| && candidates[i] == c;
      var k :| 0 <= k < |c.variants| && c.variants[k] == v;
      assert AllowsOne(d.score.value, candidates[i]);
    }
    if AllowsAny(d.score.value, d.groupID, candidates) {
      var i :| 0 <= i < |candidates| && candidates[i].id == d.groupID && AllowsOne(d.score.value, candidates[i]);
      var k :| 0 <= k < |candidates[i].variants| && ActionLoss(d.score.value, candidates[i].variants[k].action).Some?;
      assert candidates[i] in candidates && candidates[i].variants[k] in candidates[i].variants;
    }
  }

  predicate IsKept(d: Decision) {
    d.score.Some? && d.action == "keep"
  }

  predicate IsDropped(d: Decision) {
    d.score.Some? && d.action == "drop"
  }

  predicate IsReduced(d: Decision) {
    d.score.Some? && d.action != "keep" && d.action != "drop"
  }

  /** Each scored decision is counted once, as what it is; rejected are the kept ones without a way out. */
  lemma {:induction false} TallyCounts(decisions: seq<Decision>, candidates: seq<Candidate>)
    ensures var t := TallyOf(decisions, candidates);
      && t.kept == HowMany(decisions, IsKept) && t.dropped == HowMany(decisions, IsDropped)
      && t.reduced == HowMany(decisions, IsReduced)
      && t.rejected == HowMany(decisions, d => IsKept(d) && !HasWayOut(candidates, d))
  {
    if decisions != [] {
      var last := decisions[|decisions| - 1];
      TallyCounts(decisions[..|decisions| - 1], candidates);
      if last.score.Some? {
        WayOutIsAllowed(candidates, last);
      }
    }
  }

  /** What the protected ones of the first `h` groups cost. */
  function ProtectedCost(env: Env, messages: seq<Message>, groups: seq<Group>, h: nat): nat
    requires h <= |groups| && AllInRange(groups, |messages|)
  {
    if h == 0 then 0
    else if groups[h - 1].protected
    then ProtectedCost(env, messages, groups, h - 1) + Count(env, GroupMessages(messages, groups[h - 1].indices))
    else ProtectedCost(env, messages, groups, h - 1)
  }

  lemma {:induction false} ProtectedIsCounted(env: Env, messages: seq<Message>, groups: seq<Group>, h: nat)
    requires h <= |groups| && AllInRange(groups, |messages|)
    ensures Count(env, ProtectedMessages(messages, groups, h)) == ProtectedCost(env, messages, groups, h)
  {
    if h > 0 {
      ProtectedIsCounted(env, messages, groups, h - 1);
      CountConcat(env, ProtectedMessages(messages, groups, h - 1), GroupMessages(messages, groups[h - 1].indices));
    }
  }

  lemma {:induction false} ProtectedAreMany(groups: seq<Group>, h: nat)
    requires h <= |groups|
    ensures ProtectedGroups(groups, h) == |set g | 0 <= g < h && groups[g].protected|
  {
    if h > 0 {
      ProtectedAreMany(groups, h - 1);
      var before := set g | 0 <= g < h - 1 && groups[g].protected;
      assert (set g | 0 <= g < h && groups[g].protected) == before + if groups[h - 1].protected then {h - 1} else {};
    }
  }

  // ----- the five endings -----

  /** The request is over its target, what is protected does not rule the target out, and some group is open. */
  ghost predicate GetsToScoring(env: Env, clone: Request, groups: seq<Group>)
    requires AllInRange(groups, |clone.messages|)
  {
    && Count(env, clone.messages) > clone.target
    && (ProtectedCost(env, clone.messages, groups, |groups|) <= clone.target || clone.allowPartial)
    && exists g :: 0 <= g < |groups| && !groups[g].protected
  }

  lemma OpenMeansCandidates(groups: seq<Group>, make: Group --> Candidate)
    requires forall k :: 0 <= k < |groups| ==> make.requires(groups[k])
    ensures Made(groups, make, |groups|) != [] <==> exists g :: 0 <= g < |groups| && !groups[g].protected
  {
    if g :| 0 <= g < |groups| && !groups[g].protected {
      MadeHolds(groups, make, |groups|, g);
    }
    if Made(groups, make, |groups|) != [] {
      var g := MadeFrom(groups, make, |groups|, Made(groups, make, |groups|)[0]);
    }
  }

  lemma ScoringIsReached(env: Env, clone: Request, groups: seq<Group>, snapshot: string)
    requires AllInRange(groups, |clone.messages|)
    ensures GetsToScoring(env, clone, groups) <==>
      && Count(env, clone.messages) > clone.target
      && (Count(env, ProtectedMessages(clone.messages, groups, |groups|)) <= clone.target || clone.allowPartial)
      && Candidates(env, clone, groups, snapshot) != []
  {
    ProtectedIsCounted(env, clone.messages, groups, |groups|);
    OpenMeansCandidates(groups, Maker(env, clone, snapshot));
  }

  /** What selection starts from: every group in full, with its own proposals and score. */
  lemma BoardIsOriginal(env: Env, req: Request, groups: seq<Group>, snapshot: string, scores: map<string, Score>,
                        g: int)
    requires AllInRange(groups, |req.messages|) && 0 <= g < |groups|
    ensures var b := BoardFor(env, req, groups, snapshot, scores);
      && b.locked[g] == groups[g].protected && b.offers[g] == Offered(env, req, groups[g], snapshot)
      && b.scores[g] == (if groups[g].id in scores then scores[groups[g].id] else Score(None, 0.0, 0.0, None))
      && b.base[g].action == "keep" && b.base[g].loss == 0.0 && b.base[g].tokens == Count(env, b.base[g].messages)
      && |b.base[g].messages| == |groups[g].indices|
      && forall k :: 0 <= k < |groups[g].indices| ==> b.base[g].messages[k] == req.messages[groups[g].indices[k]]
  {
  }

  /** Scores count only when the scorer gave them and they are valid for what it was asked. */
  lemma ScoredExactly(scorer: Scorer, eval: Evaluation, scores: map<string, Score>)
    ensures Scored(scorer, eval) == Some(scores) <==> scorer(eval) == Some(scores) && ValidScores(eval.candidates, scores)
  {
  }

  /** Over the target, no assignment of originals and permitted proposals costs less than what was selected. */
  lemma SelectedIsLeast(env: Env, req: Request, groups: seq<Group>, snapshot: string, scores: map<string, Score>,
                        sel: seq<Choice>, pick: seq<int>)
    requires Laid(req.messages, groups) && AllInRange(groups, |req.messages|)
    requires RanTo(env, req, groups, snapshot, scores, sel) && Count(env, Output(req.messages, sel)) > req.target
    requires IsAssignment(BoardFor(env, req, groups, snapshot, scores), pick)
    ensures Count(env, Output(req.messages, sel))
      <= Total(Assigned(BoardFor(env, req, groups, snapshot, scores), pick))
  {
    OutputTokens(env, req, groups, snapshot, scores, sel);
    OverTargetIsStuck(env, req, groups, snapshot, scores, sel);
    StuckIsMinimal(BoardFor(env, req, groups, snapshot, scores), sel, pick);
  }

  /** How a pass ends that selected `out`. */
  ghost predicate EndsWith(env: Env, clone: Request, out: seq<Message>, decisions: seq<Decision>, r: CompactResult) {
    var before, after := Count(env, clone.messages), Count(env, out);
    && r.stats.candidateOutputTokens == after
    && if after <= clone.target || (clone.allowPartial && after < before)
       then
         && r.status == (if after <= clone.target then "compacted" else "partial")
         && r.applied && r.messages == out && r.decisions == decisions && r.stats.outputTokens == after
         && r.stats.reduction * before as real == (before - after) as real
       else
         && r.status == "budget_unmet" && !r.applied && r.messages == clone.messages && r.decisions == []
         && r.stats.outputTokens == before && r.stats.reduction == 0.0
  }

  /** How a pass that has selected ends. */
  ghost predicate EndsSelected(env: Env, clone: Request, groups: seq<Group>, scores: map<string, Score>,
                               sel: seq<Choice>, r: CompactResult)
    requires AllInRange(groups, |clone.messages|) && |sel| == |groups|
  {
    && r.scores == Some(scores)
    && EndsWith(env, clone, Output(clone.messages, sel), Decisions(clone.messages, groups, sel, scores), r)
  }

  lemma ConcludedEnds(env: Env, clone: Request, start: CompactResult, out: seq<Message>, decisions: seq<Decision>)
    requires Count(env, clone.messages) > clone.target >= 1
    requires start.status == "unchanged" && !start.applied && start.messages == clone.messages && start.decisions == []
    requires start.stats.outputTokens == Count(env, clone.messages) && start.stats.reduction == 0.0
    ensures EndsWith(env, clone, out, decisions, Concluded(env, clone, start, out, decisions))
    ensures Concluded(env, clone, start, out, decisions).scores == start.scores
    ensures Concluded(env, clone, start, out, decisions).snapshotID == start.snapshotID
  {
    FractionOf(Count(env, clone.messages), Count(env, out));
  }

  lemma DecidedEnds(env: Env, clone: Request, groups: seq<Group>, snapshot: string, scores: map<string, Score>,
                    sel: seq<Choice>, r: CompactResult)
    requires AllInRange(groups, |clone.messages|) && Count(env, clone.messages) > clone.target >= 1
    requires Decided(env, clone, groups, snapshot, scores, sel, r)
    ensures |sel| == |groups| && EndsSelected(env, clone, groups, scores, sel, r) && r.snapshotID == snapshot
  {
    var decisions := Decisions(clone.messages, groups, sel, scores);
    var start := WithProtected(env, clone, groups, Unchanged(env, clone, snapshot)).(scores := Some(scores));
    var t := TallyOf(decisions, Candidates(env, clone, groups, snapshot));
    ConcludedEnds(env, clone, WithTally(start, t), Output(clone.messages, sel), decisions);
  }

  /** The counts of a result, in terms of its decisions and groups. */
  ghost predicate CountsAre(env: Env, clone: Request, groups: seq<Group>, candidates: seq<Candidate>,
                            decisions: seq<Decision>, stats: Stats)
    requires AllInRange(groups, |clone.messages|)
  {
    && stats.kept == HowMany(decisions, IsKept) && stats.dropped == HowMany(decisions, IsDropped)
    && stats.reduced == HowMany(decisions, IsReduced)
    && stats.rejected == HowMany(decisions, d => IsKept(d) && !HasWayOut(candidates, d))
    && stats.protectedGroups == |set g | 0 <= g < |groups| && groups[g].protected|
    && stats.protectedTokens == ProtectedCost(env, clone.messages, groups, |groups|)
    && stats.inputTokens == Count(env, clone.messages)
  }

  lemma TalliedCounts(env: Env, clone: Request, groups: seq<Group>, snapshot: string, candidates: seq<Candidate>,
                      decisions: seq<Decision>)
    requires AllInRange(groups, |clone.messages|)
    ensures var start := WithProtected(env, clone, groups, Unchanged(env, clone, snapshot));
      CountsAre(env, clone, groups, candidates, decisions, WithTally(start, TallyOf(decisions, candidates)).stats)
  {
    TallyCounts(decisions, candidates);
    ProtectedIsCounted(env, clone.messages, groups, |groups|);
    ProtectedAreMany(groups, |groups|);
  }

  lemma ConcludedKeepsCounts(env: Env, clone: Request, start: CompactResult, out: seq<Message>,
                             decisions: seq<Decision>, groups: seq<Group>, candidates: seq<Candidate>,
                             counted: seq<Decision>)
    requires Count(env, clone.messages) > clone.target >= 1 && AllInRange(groups, |clone.messages|)
    requires CountsAre(env, clone, groups, candidates, counted, start.stats)
    ensures CountsAre(env, clone, groups, candidates, counted, Concluded(env, clone, start, out, decisions).stats)
  {
  }

  /** Once selection has run, every count of the result is that of its decisions and groups. */
  lemma CountsAreExact(env: Env, clone: Request, groups: seq<Group>, snapshot: string, scores: map<string, Score>,
                       sel: seq<Choice>, r: CompactResult)
    requires AllInRange(groups, |clone.messages|) && Count(env, clone.messages) > clone.target >= 1
    requires Decided(env, clone, groups, snapshot, scores, sel, r)
    ensures |sel| == |groups|
    ensures CountsAre(env, clone, groups, Candidates(env, clone, groups, snapshot),
                      Decisions(clone.messages, groups, sel, scores), r.stats)
  {
    var decisions := Decisions(clone.messages, groups, sel, scores);
    var candidates := Candidates(env, clone, groups, snapshot);
    var start := WithProtected(env, clone, groups, Unchanged(env, clone, snapshot)).(scores := Some(scores));
    TalliedCounts(env, clone, groups, snapshot, candidates, decisions);
    ConcludedKeepsCounts(env, clone, WithTally(start, TallyOf(decisions, candidates)), Output(clone.messages, sel),
                         decisions, groups, candidates, decisions);
  }

  lemma FractionOf(before: nat, after: nat)
    requires before > 0
    ensures (1.0 - after as real / before as real) * before as real == (before - after) as real
  {
  }

  /** Before selection nothing is counted but the input and, over the target, what is protected. */
  ghost predicate NothingDecided(env: Env, clone: Request, groups: seq<Group>, r: CompactResult)
    requires AllInRange(groups, |clone.messages|)
  {
    var before := Count(env, clone.messages);
    && r.decisions == [] && r.stats.candidateOutputTokens == r.stats.inputTokens == before
    && r.stats.kept == r.stats.reduced == r.stats.dropped == r.stats.rejected == 0
    && (before > clone.target ==>
          && r.stats.protectedGroups == ProtectedGroups(groups, |groups|)
          && r.stats.protectedTokens == ProtectedCost(env, clone.messages, groups, |groups|))
  }

  /**
   How a pass ends.  Unchanged: the request is within its target.  Scoring failed: the
   scorer was reached and gave no valid scores.  Otherwise the scorer either was not
   reached, and the budget is unmet, or the selection decides.
   */
  lemma EndingIsExact(env: Env, req: Request, groups: seq<Group>, snapshot: string, scorer: Scorer,
                      sel: seq<Choice>, r: CompactResult)
    requires Accepts(env.validJson, req) && AllInRange(groups, |req.messages|)
    requires Outcome(env, req, groups, snapshot, scorer, sel, r)
    ensures var clone := Clone(env, req);
      var scored := Scored(scorer, EvaluationOf(env, clone, groups, snapshot));
      && r.snapshotID == snapshot
      && (r.status == "unchanged" <==> Count(env, clone.messages) <= req.target)
      && (r.status == "scoring_failed" <==> GetsToScoring(env, clone, groups) && scored.None?)
      && (GetsToScoring(env, clone, groups) && scored.Some? ==>
            |sel| == |groups| && EndsSelected(env, clone, groups, scored.value, sel, r))
      && (Count(env, clone.messages) > req.target && !GetsToScoring(env, clone, groups) ==>
            r.status == "budget_unmet" && !r.applied && r.messages == clone.messages)
      && (!GetsToScoring(env, clone, groups) || scored.None? ==>
            r.scores == None && NothingDecided(env, clone, groups, r))
  {
    var clone := Clone(env, req);
    ScoringIsReached(env, clone, groups, snapshot);
    ProtectedIsCounted(env, clone.messages, groups, |groups|);
    if GetsToScoring(env, clone, groups) {
      var scored := Scored(scorer, EvaluationOf(env, clone, groups, snapshot));
      if scored.Some? {
        DecidedEnds(env, clone, groups, snapshot, scored.value, sel, r);
      }
    }
  }
}
