/** `Compact` of compact/engine.go: one request to one of five outcomes. */
module Engine {
  import opened Transcript
  import opened Groups
  import opened GroupCollection
  import opened Scores
  import opened Representations
  import opened Greedy
  import opened Assembly
  import opened Evaluations
  import opened Selection

  datatype Stats = Stats(
    protectedGroups: nat,
    kept: nat,
    reduced: nat,
    dropped: nat,
    rejected: nat,
    protectedTokens: nat,
    candidateOutputTokens: nat,
    inputTokens: nat,
    outputTokens: nat,
    reduction: real)

  datatype CompactResult = CompactResult(
    status: string,
    applied: bool,
    budgetMet: bool,
    snapshotID: string,
    messages: seq<Message>,
    decisions: seq<Decision>,
    scores: Option<map<string, Score>>,
    stats: Stats)

  datatype CompactError = InvalidRequest | ArchiveFailed | Cancelled

  type Scorer = Evaluation -> Option<map<string, Score>>

  // ----- statistics -----

  function ProtectedMessages(messages: seq<Message>, groups: seq<Group>, h: nat): seq<Message>
    requires h <= |groups| && AllInRange(groups, |messages|)
  {
    if h == 0 then []
    else if groups[h - 1].protected
    then ProtectedMessages(messages, groups, h - 1) + GroupMessages(messages, groups[h - 1].indices)
    else ProtectedMessages(messages, groups, h - 1)
  }

  function ProtectedGroups(groups: seq<Group>, h: nat): nat
    requires h <= |groups|
  {
    if h == 0 then 0 else ProtectedGroups(groups, h - 1) + if groups[h - 1].protected then 1 else 0
  }

  datatype Tally = Tally(kept: nat, reduced: nat, dropped: nat, rejected: nat)

  predicate AllowsOne(score: Score, c: Candidate) {
    exists k :: 0 <= k < |c.variants| && ActionLoss(score, c.variants[k].action).Some?
  }

  /** The policy allows some proposal of the candidate with this id. */
  predicate AllowsAny(score: Score, id: string, candidates: seq<Candidate>) {
    exists i :: 0 <= i < |candidates| && candidates[i].id == id && AllowsOne(score, candidates[i])
  }

  function Tallied(t: Tally, d: Decision, candidates: seq<Candidate>): Tally {
    if d.score.None? then t
    else if d.action == "drop" then t.(dropped := t.dropped + 1)
    else if d.action != "keep" then t.(reduced := t.reduced + 1)
    else t.(kept := t.kept + 1,
            rejected := if AllowsAny(d.score.value, d.groupID, candidates) then t.rejected else t.rejected + 1)
  }

  function TallyOf(decisions: seq<Decision>, candidates: seq<Candidate>): Tally {
    if decisions == [] then Tally(0, 0, 0, 0)
    else Tallied(TallyOf(decisions[..|decisions| - 1], candidates), decisions[|decisions| - 1], candidates)
  }

  // ----- the five outcomes -----

  /** The result as it stands before any reduction: the history unchanged. */
  function Unchanged(env: Env, clone: Request, snapshot: string): CompactResult {
    var before := Count(env, clone.messages);
    CompactResult("unchanged", false, false, snapshot, clone.messages, [], None,
                  Stats(0, 0, 0, 0, 0, 0, before, before, before, 0.0))
  }

  function WithProtected(env: Env, clone: Request, groups: seq<Group>, r: CompactResult): CompactResult
    requires AllInRange(groups, |clone.messages|)
  {
    r.(stats := r.stats.(protectedGroups := ProtectedGroups(groups, |groups|),
                         protectedTokens := Count(env, ProtectedMessages(clone.messages, groups, |groups|))))
  }

  function WithTally(r: CompactResult, t: Tally): CompactResult {
    r.(stats := r.stats.(kept := t.kept, reduced := t.reduced, dropped := t.dropped, rejected := t.rejected))
  }

  /** What is returned once a transcript has been selected. */
  function Concluded(env: Env, clone: Request, r: CompactResult, out: seq<Message>,
                     decisions: seq<Decision>): CompactResult
    requires Count(env, clone.messages) > clone.target >= 1
  {
    var before, after := Count(env, clone.messages), Count(env, out);
    var counted := r.(stats := r.stats.(candidateOutputTokens := after));
    if after > clone.target && (!clone.allowPartial || after >= before) then counted.(status := "budget_unmet")
    else counted.(
      status := if after <= clone.target then "compacted" else "partial",
      applied := true,
      budgetMet := after <= clone.target,
      messages := out,
      decisions := decisions,
      stats := counted.stats.(outputTokens := after, reduction := 1.0 - after as real / before as real))
  }

  /** The scores of a pass when the scorer answered and every answer is valid. */
  function Scored(scorer: Scorer, eval: Evaluation): Option<map<string, Score>> {
    var answer := scorer(eval);
    if answer.Some? && ValidScores(eval.candidates, answer.value) then answer else None
  }

  /** How a selection ends: `sel` is what the finished greedy run chose. */
  ghost predicate Decided(env: Env, clone: Request, groups: seq<Group>, snapshot: string, scores: map<string, Score>,
                          sel: seq<Choice>, r: CompactResult)
    requires AllInRange(groups, |clone.messages|) && Count(env, clone.messages) > clone.target >= 1
  {
    && |sel| == |groups| && RanTo(env, clone, groups, snapshot, scores, sel)
    && var decisions := Decisions(clone.messages, groups, sel, scores);
       var start := WithProtected(env, clone, groups, Unchanged(env, clone, snapshot)).(scores := Some(scores));
       r == Concluded(env, clone, WithTally(start, TallyOf(decisions, Candidates(env, clone, groups, snapshot))),
                      Output(clone.messages, sel), decisions)
  }

  /** Every field of a result without error, case by case. */
  ghost predicate Outcome(env: Env, req: Request, groups: seq<Group>, snapshot: string, scorer: Scorer,
                          sel: seq<Choice>, r: CompactResult)
    requires Accepts(env.validJson, req) && AllInRange(groups, |req.messages|)
  {
    var clone := Clone(env, req);
    var start := Unchanged(env, clone, snapshot);
    var counted := WithProtected(env, clone, groups, start);
    var eval := EvaluationOf(env, clone, groups, snapshot);
    if Count(env, clone.messages) <= req.target then r == start.(budgetMet := true)
    else if (counted.stats.protectedTokens > req.target && !req.allowPartial) || eval.candidates == []
    then r == counted.(status := "budget_unmet")
    else if Scored(scorer, eval).None? then r == counted.(status := "scoring_failed")
    else Decided(env, clone, groups, snapshot, Scored(scorer, eval).value, sel, r)
  }

  // ----- the code -----

  method AnyAllowed(score: Score, id: string, candidates: seq<Candidate>) returns (allowed: bool)
    ensures allowed == AllowsAny(score, id, candidates)
  {
    allowed := false;
    for i := 0 to |candidates|
      invariant allowed <==> exists j :: 0 <= j < i && candidates[j].id == id && AllowsOne(score, candidates[j])
    {
      var c := candidates[i];
      if c.id != id {
        continue;
      }
      var one := false;
      for k := 0 to |c.variants|
        invariant one <==> exists l :: 0 <= l < k && ActionLoss(score, c.variants[l].action).Some?
      {
        one := one || ActionLoss(score, c.variants[k].action).Some?;
      }
      allowed := allowed || one;
    }
  }

  method CountDecisions(decisions: seq<Decision>, candidates: seq<Candidate>) returns (t: Tally)
    ensures t == TallyOf(decisions, candidates)
  {
    t := Tally(0, 0, 0, 0);
    for i := 0 to |decisions|
      invariant t == TallyOf(decisions[..i], candidates)
    {
      assert decisions[..i + 1][..i] == decisions[..i];
      var d := decisions[i];
      if d.score.Some? {
        if d.action == "drop" {
          t := t.(dropped := t.dropped + 1);
        } else if d.action != "keep" {
          t := t.(reduced := t.reduced + 1);
        } else {
          var allowed := AnyAllowed(d.score.value, d.groupID, candidates);
          t := t.(kept := t.kept + 1, rejected := if allowed then t.rejected else t.rejected + 1);
        }
      }
    }
    assert decisions[..|decisions|] == decisions;
  }

  method CountProtected(env: Env, messages: seq<Message>, groups: seq<Group>) returns (tokens: nat, n: nat)
    requires AllInRange(groups, |messages|)
    ensures tokens == Count(env, ProtectedMessages(messages, groups, |groups|))
    ensures n == ProtectedGroups(groups, |groups|)
  {
    var protected := [];
    n := 0;
    for i := 0 to |groups|
      invariant protected == ProtectedMessages(messages, groups, i) && n == ProtectedGroups(groups, i)
    {
      if groups[i].protected {
        protected := protected + GroupMessages(messages, groups[i].indices);
        n := n + 1;
      }
    }
    tokens := Count(env, protected);
  }

  lemma GroupsInRange(req: Request, groups: seq<Group>)
    requires IsGrouping(req, groups)
    ensures AllInRange(groups, |req.messages|)
  {
    forall g | 0 <= g < |groups|
      ensures InRange(groups[g].indices, |req.messages|)
    {
      assert GroupOk(req, groups[g]);
    }
  }

  /** From the scores to the result. */
  method Conclude(env: Env, clone: Request, groups: seq<Group>, snapshot: string, eval: Evaluation,
                  scores: map<string, Score>, start: CompactResult, ctx: Context)
    returns (r: Result<CompactResult, CompactError>, ghost sel: seq<Choice>)
    requires Laid(clone.messages, groups) && AllInRange(groups, |clone.messages|)
    requires Count(env, clone.messages) > clone.target >= 1
    requires eval == EvaluationOf(env, clone, groups, snapshot)
    requires start == WithProtected(env, clone, groups, Unchanged(env, clone, snapshot))
    modifies ctx
    ensures r.Failure? ==> r.error == Cancelled && ctx.cancelled
    ensures r.Success? ==> Decided(env, clone, groups, snapshot, scores, sel, r.value)
  {
    var selected;
    selected, sel := SelectMessages(env, clone, groups, snapshot, scores, eval, ctx);
    if selected.None? {
      return Failure(Cancelled), sel;
    }
    var (out, decisions) := selected.value;
    var cancelled := ctx.Err();
    if cancelled {
      return Failure(Cancelled), sel;
    }
    var t := CountDecisions(decisions, eval.candidates);
    var counted := WithTally(start.(scores := Some(scores)), t);
    r := Success(Concluded(env, clone, counted, out, decisions));
  }

  /** After counting: protected content, evaluation, scoring, selection. */
  method Shrink(env: Env, clone: Request, groups: seq<Group>, snapshot: string, scorer: Scorer, ctx: Context)
    returns (r: Result<CompactResult, CompactError>, ghost sel: seq<Choice>)
    requires Laid(clone.messages, groups) && AllInRange(groups, |clone.messages|)
    requires Count(env, clone.messages) > clone.target >= 1
    modifies ctx
    ensures r.Failure? ==> r.error == Cancelled && ctx.cancelled
    ensures r.Success? ==>
      var counted := WithProtected(env, clone, groups, Unchanged(env, clone, snapshot));
      var eval := EvaluationOf(env, clone, groups, snapshot);
      if (counted.stats.protectedTokens > clone.target && !clone.allowPartial) || eval.candidates == []
      then r.value == counted.(status := "budget_unmet")
      else if Scored(scorer, eval).None? then r.value == counted.(status := "scoring_failed")
      else Decided(env, clone, groups, snapshot, Scored(scorer, eval).value, sel, r.value)
  {
    sel := [];
    var result := Unchanged(env, clone, snapshot);
    var minimum, n := CountProtected(env, clone.messages, groups);
    result := result.(stats := result.stats.(protectedGroups := n, protectedTokens := minimum));
    if minimum > clone.target && !clone.allowPartial {
      return Success(result.(status := "budget_unmet")), sel;
    }
    var eval := Evaluate(env, clone, groups, snapshot);
    if eval.candidates == [] {
      return Success(result.(status := "budget_unmet")), sel;
    }
    var scores := scorer(eval);
    var cancelled := ctx.Err();
    if cancelled {
      return Failure(Cancelled), sel;
    }
    var ok := false;
    if scores.Some? {
      ok := ValidateScores(eval.candidates, scores.value);
    }
    if !ok {
      return Success(result.(status := "scoring_failed")), sel;
    }
    r, sel := Conclude(env, clone, groups, snapshot, eval, scores.value, result, ctx);
  }

  /**
   `Compact`.  `cloned` tells whether the JSON round trip of `cloneRequest` went through, and
   `saved` is the archive's answer: the snapshot id, or None when saving failed.  An error
   carries no transcript.
   */
  method Compact(env: Env, req: Request, cloned: bool, saved: Option<string>, scorer: Scorer, ctx: Context)
    returns (r: Result<CompactResult, CompactError>, ghost groups: seq<Group>, ghost sel: seq<Choice>)
    modifies ctx
    ensures r.Failure? && r.error == Cancelled ==> ctx.cancelled
    ensures r.Failure? && r.error == InvalidRequest ==> !Accepts(env.validJson, req) || !cloned
    ensures r.Failure? && r.error == ArchiveFailed ==> Accepts(env.validJson, req) && cloned && saved.None?
    ensures r.Success? ==> Accepts(env.validJson, req) && cloned && saved.Some?
    ensures r.Success? ==> IsGrouping(req, groups) && AllInRange(groups, |req.messages|)
    ensures r.Success? ==> Outcome(env, req, groups, saved.value, scorer, sel, r.value)
  {
    groups, sel := [], [];
    var cancelled := ctx.Err();
    if cancelled {
      return Failure(Cancelled), groups, sel;
    }
    var collected := CollectGroups(env.validJson, req);
    if collected.None? {
      return Failure(InvalidRequest), groups, sel;
    }
    groups := collected.value;
    if !cloned {
      return Failure(InvalidRequest), groups, sel;
    }
    GroupsInRange(req, groups);
    GroupingLays(env, req, groups);
    var clone := Clone(env, req);
    var before := Count(env, clone.messages);
    if saved.None? {
      return Failure(ArchiveFailed), groups, sel;
    }
    if before <= req.target {
      return Success(Unchanged(env, clone, saved.value).(budgetMet := true)), groups, sel;
    }
    r, sel := Shrink(env, clone, collected.value, saved.value, scorer, ctx);
  }
}
