/** What every result of `Compact` guarantees about budget, diagnostics and content. */
module Guarantees {
  import opened Transcript
  import opened Groups
  import opened Scores
  import opened Representations
  import opened Greedy
  import opened Assembly
  import opened Evaluations
  import opened Selection
  import opened Engine

  /** A pass that got as far as selecting. */
  ghost predicate Selected(env: Env, req: Request, groups: seq<Group>, snapshot: string, scorer: Scorer,
                           scores: map<string, Score>)
    requires AllInRange(groups, |req.messages|)
  {
    var clone := Clone(env, req);
    var eval := EvaluationOf(env, clone, groups, snapshot);
    && Count(env, clone.messages) > req.target
    && (Count(env, ProtectedMessages(clone.messages, groups, |groups|)) <= req.target || req.allowPartial)
    && eval.candidates != [] && Scored(scorer, eval) == Some(scores)
  }

  // ----- the budget -----

  /** The result tells the truth about the budget, in every outcome. */
  lemma BudgetIsTold(env: Env, req: Request, groups: seq<Group>, snapshot: string, scorer: Scorer, sel: seq<Choice>,
                     r: CompactResult)
    requires Accepts(env.validJson, req) && AllInRange(groups, |req.messages|)
    requires Outcome(env, req, groups, snapshot, scorer, sel, r)
    ensures r.budgetMet <==> Count(env, r.messages) <= req.target
    ensures r.stats.outputTokens == Count(env, r.messages)
    ensures Count(env, r.messages) <= r.stats.inputTokens == Count(env, Clone(env, req).messages)
    ensures r.applied <==> r.status == "compacted" || r.status == "partial"
    ensures !r.applied ==> r.messages == Clone(env, req).messages && r.decisions == []
    ensures r.status == "partial" ==> req.allowPartial && !r.budgetMet && r.stats.outputTokens < r.stats.inputTokens
    ensures r.status == "compacted" ==> r.budgetMet
    ensures r.status == "unchanged" <==> Count(env, Clone(env, req).messages) <= req.target
    ensures r.status == "budget_unmet" || r.status == "scoring_failed" ==> !r.budgetMet
  {
  }

  lemma {:induction false} TotalSnoc(sel: seq<Choice>, c: Choice)
    ensures Total(sel + [c]) == Total(sel) + c.tokens
  {
    if sel != [] {
      assert (sel + [c])[1..] == sel[1..] + [c];
      TotalSnoc(sel[1..], c);
    }
  }

  /** Protected groups alone cost as much in every assignment. */
  lemma {:induction false} ProtectedAreCounted(env: Env, messages: seq<Message>, groups: seq<Group>, sel: seq<Choice>,
                                               h: nat)
    requires AllInRange(groups, |messages|) && |sel| == |groups| && h <= |groups|
    requires forall g :: 0 <= g < |groups| && groups[g].protected ==> sel[g] == KeepChoice(env, messages, groups[g])
    ensures Count(env, ProtectedMessages(messages, groups, h)) <= Total(sel[..h])
  {
    if h > 0 {
      ProtectedAreCounted(env, messages, groups, sel, h - 1);
      assert sel[..h] == sel[..h - 1] + [sel[h - 1]];
      TotalSnoc(sel[..h - 1], sel[h - 1]);
      if groups[h - 1].protected {
        CountConcat(env, ProtectedMessages(messages, groups, h - 1), GroupMessages(messages, groups[h - 1].indices));
      }
    }
  }

  /** The atomic early exit rejects nothing that a selection could have satisfied, whatever the scores. */
  lemma EarlyExitIsSound(env: Env, req: Request, groups: seq<Group>, snapshot: string, scores: map<string, Score>)
    requires AllInRange(groups, |req.messages|)
    requires Count(env, ProtectedMessages(req.messages, groups, |groups|)) > req.target
    ensures !Feasible(BoardFor(env, req, groups, snapshot, scores), req.target)
  {
    var b := BoardFor(env, req, groups, snapshot, scores);
    forall pick | IsAssignment(b, pick)
      ensures Total(Assigned(b, pick)) > req.target
    {
      var sel := Assigned(b, pick);
      forall g | 0 <= g < |groups| && groups[g].protected
        ensures sel[g] == KeepChoice(env, req.messages, groups[g])
      {
        assert b.locked[g];
      }
      ProtectedAreCounted(env, req.messages, groups, sel, |groups|);
      assert sel[..|groups|] == sel;
    }
  }

  lemma BaseIsAssembled(env: Env, req: Request, groups: seq<Group>, snapshot: string, scores: map<string, Score>)
    requires Laid(req.messages, groups) && AllInRange(groups, |req.messages|)
    ensures var base := BoardFor(env, req, groups, snapshot, scores).base;
      && Assemblable(req.messages, groups, base)
      && Spliced(groups, base, Whole(req.messages))
      && forall g :: 0 <= g < |base| ==> base[g].tokens == Count(env, base[g].messages)
  {
    var base := BoardFor(env, req, groups, snapshot, scores).base;
    assert forall g :: 0 <= g < |groups| ==> base[g] == KeepChoice(env, req.messages, groups[g]);
    forall g | 0 <= g < |groups|
      ensures Replaces(req.messages, groups[g].indices, base[g])
    {
    }
    forall g, k | 0 <= g < |groups| && 0 <= k < |groups[g].indices|
      ensures 0 <= groups[g].indices[k] < |req.messages|
      ensures base[g].messages != [] ==> k < |base[g].messages|
      ensures Whole(req.messages)[groups[g].indices[k]] == Slot(base[g], k)
    {
      assert InRange(groups[g].indices, |req.messages|);
    }
  }

  function Whole(messages: seq<Message>): (picked: seq<Option<Message>>)
    ensures |picked| == |messages|
  {
    seq(|messages|, i requires 0 <= i < |messages| => Some(messages[i]))
  }

  lemma {:induction false} WholeIsPresent(messages: seq<Message>)
    ensures Present(Whole(messages)) == messages
  {
    if messages != [] {
      WholeIsPresent(messages[..|messages| - 1]);
      assert Whole(messages)[..|messages| - 1] == Whole(messages[..|messages| - 1]);
    }
  }

  /** Keeping every group costs what the input costs. */
  lemma BaseTokens(env: Env, req: Request, groups: seq<Group>, snapshot: string, scores: map<string, Score>)
    requires Laid(req.messages, groups) && AllInRange(groups, |req.messages|)
    ensures Total(BoardFor(env, req, groups, snapshot, scores).base) == Count(env, req.messages)
  {
    BaseIsAssembled(env, req, groups, snapshot, scores);
    WholeIsPresent(req.messages);
    TokensConserved(env, req.messages, groups, BoardFor(env, req, groups, snapshot, scores).base, Whole(req.messages));
  }

  /** Without candidates every group is protected, and nothing can be saved. */
  lemma NoCandidatesNoSaving(env: Env, req: Request, groups: seq<Group>, snapshot: string, scores: map<string, Score>)
    requires Laid(req.messages, groups) && AllInRange(groups, |req.messages|)
    requires Candidates(env, req, groups, snapshot) == [] && Count(env, req.messages) > req.target
    ensures !Feasible(BoardFor(env, req, groups, snapshot, scores), req.target)
  {
    var b := BoardFor(env, req, groups, snapshot, scores);
    forall g | 0 <= g < |groups|
      ensures groups[g].protected
    {
      if !groups[g].protected {
        MadeHolds(groups, Maker(env, req, snapshot), |groups|, g);
      }
    }
    BaseTokens(env, req, groups, snapshot, scores);
    forall pick | IsAssignment(b, pick)
      ensures Assigned(b, pick) == b.base
    {
      assert forall g :: 0 <= g < |groups| ==> b.locked[g];
    }
  }

  /**
   Completeness of the whole pass: with valid scores, an over-budget request is compacted
   exactly when some assignment of originals and permitted proposals meets the target.
   */
  lemma CompactedIffFeasible(env: Env, req: Request, groups: seq<Group>, snapshot: string, scorer: Scorer,
                             sel: seq<Choice>, r: CompactResult, scores: map<string, Score>)
    requires Accepts(env.validJson, req) && IsGrouping(req, groups) && AllInRange(groups, |req.messages|)
    requires Outcome(env, req, groups, snapshot, scorer, sel, r)
    requires Count(env, Clone(env, req).messages) > req.target
    requires Scored(scorer, EvaluationOf(env, Clone(env, req), groups, snapshot)) == Some(scores)
    ensures r.status == "compacted" <==> Feasible(BoardFor(env, Clone(env, req), groups, snapshot, scores), req.target)
  {
    var clone := Clone(env, req);
    GroupingLays(env, req, groups);
    if Count(env, ProtectedMessages(clone.messages, groups, |groups|)) > req.target {
      EarlyExitIsSound(env, clone, groups, snapshot, scores);
    }
    if EvaluationOf(env, clone, groups, snapshot).candidates == [] {
      NoCandidatesNoSaving(env, clone, groups, snapshot, scores);
    } else if Count(env, ProtectedMessages(clone.messages, groups, |groups|)) <= req.target || req.allowPartial {
      SelectionIsComplete(env, clone, groups, snapshot, scores, sel);
    }
  }

  // ----- diagnostics -----

  lemma {:induction false} TallySums(groups: seq<Group>, decisions: seq<Decision>, candidates: seq<Candidate>)
    requires |decisions| <= |groups|
    requires forall g :: 0 <= g < |decisions| ==> (decisions[g].score.None? <==> groups[g].protected)
    ensures var t := TallyOf(decisions, candidates);
      ProtectedGroups(groups, |decisions|) + t.kept + t.reduced + t.dropped == |decisions|
  {
    if decisions != [] {
      TallySums(groups, decisions[..|decisions| - 1], candidates);
    }
  }

  lemma DecisionFields(messages: seq<Message>, groups: seq<Group>, sel: seq<Choice>, scores: map<string, Score>, g: nat)
    requires |sel| == |groups| && AllInRange(groups, |messages|) && g < |groups|
    ensures var d := Decisions(messages, groups, sel, scores)[g];
      && d.groupID == groups[g].id && d.action == sel[g].action
      && d.score == if groups[g].protected then None else Some(ScoreOf(scores, groups[g].id))
  {
  }

  lemma {:induction false} TallyRejects(decisions: seq<Decision>, candidates: seq<Candidate>)
    requires forall d :: d in decisions && d.score.Some? && d.action == "keep" ==>
      !AllowsAny(d.score.value, d.groupID, candidates)
    ensures TallyOf(decisions, candidates).kept == TallyOf(decisions, candidates).rejected
  {
    if decisions != [] {
      TallyRejects(decisions[..|decisions| - 1], candidates);
    }
  }

  /** Where no move is left, a group whose proposals are all cheaper than its choice has none allowed. */
  lemma StuckAllowsNothing(b: Board, groups: seq<Group>, make: Group --> Candidate, sel: seq<Choice>, g: nat)
    requires Sized(b) && |sel| == |b.locked| == |groups| && g < |groups|
    requires DistinctIds(groups)
    requires forall k :: 0 <= k < |groups| ==> make.requires(groups[k]) && make(groups[k]).id == groups[k].id
    requires Stuck(b, sel) && !b.locked[g] && b.offers[g] == make(groups[g]).variants
    requires forall k :: 0 <= k < |b.offers[g]| ==> b.offers[g][k].tokens < sel[g].tokens
    ensures !AllowsAny(b.scores[g], groups[g].id, Made(groups, make, |groups|))
  {
    var candidates := Made(groups, make, |groups|);
    forall i | 0 <= i < |candidates| && candidates[i].id == groups[g].id
      ensures !AllowsOne(b.scores[g], candidates[i])
    {
      assert candidates[i] in candidates;
      var h := MadeFrom(groups, make, |groups|, candidates[i]);
      assert h == g;
      forall k | 0 <= k < |b.offers[g]|
        ensures ActionLoss(b.scores[g], b.offers[g][k].action).None?
      {
        assert !Move(b, sel, g, k);
      }
    }
  }

  lemma KeptCostsMost(env: Env, req: Request, groups: seq<Group>, snapshot: string, scores: map<string, Score>, g: nat,
                      c: Choice)
    requires AllInRange(groups, |req.messages|) && g < |groups|
    requires Legal(BoardFor(env, req, groups, snapshot, scores), g, c) && c.action == "keep"
    ensures forall v :: v in Offered(env, req, groups[g], snapshot) ==> v.tokens < c.tokens
  {
    LegalIsHonest(env, req, groups, snapshot, scores, g, c);
    OffersHonest(env, req, groups[g], snapshot);
  }

  lemma MakerFields(env: Env, req: Request, groups: seq<Group>, snapshot: string, g: nat)
    requires AllInRange(groups, |req.messages|) && g < |groups|
    ensures Maker(env, req, snapshot).requires(groups[g])
    ensures Maker(env, req, snapshot)(groups[g]).id == groups[g].id
    ensures Maker(env, req, snapshot)(groups[g]).variants == Offered(env, req, groups[g], snapshot)
  {
    CandidateVariants(env, req, groups[g], snapshot);
  }

  /** In a stuck run a group that was kept has no allowed proposal at all. */
  lemma KeptIsRejected(env: Env, req: Request, groups: seq<Group>, snapshot: string, scores: map<string, Score>,
                       sel: seq<Choice>, g: nat)
    requires DistinctIds(groups) && AllInRange(groups, |req.messages|) && g < |groups| == |sel|
    requires Legal(BoardFor(env, req, groups, snapshot, scores), g, sel[g])
    requires Stuck(BoardFor(env, req, groups, snapshot, scores), sel)
    requires !groups[g].protected && sel[g].action == "keep"
    ensures !AllowsAny(ScoreOf(scores, groups[g].id), groups[g].id, Candidates(env, req, groups, snapshot))
  {
    var b := BoardFor(env, req, groups, snapshot, scores);
    var make := Maker(env, req, snapshot);
    KeptCostsMost(env, req, groups, snapshot, scores, g, sel[g]);
    forall k | 0 <= k < |groups|
      ensures make.requires(groups[k]) && make(groups[k]).id == groups[k].id
    {
      MakerFields(env, req, groups, snapshot, k);
    }
    MakerFields(env, req, groups, snapshot, g);
    StuckAllowsNothing(b, groups, make, sel, g);
  }

  lemma TallyIsExact(env: Env, clone: Request, groups: seq<Group>, snapshot: string, scores: map<string, Score>,
                     sel: seq<Choice>)
    requires Laid(clone.messages, groups) && AllInRange(groups, |clone.messages|) && |sel| == |groups|
    requires RanTo(env, clone, groups, snapshot, scores, sel)
    ensures var t := TallyOf(Decisions(clone.messages, groups, sel, scores), Candidates(env, clone, groups, snapshot));
      && ProtectedGroups(groups, |groups|) + t.kept + t.reduced + t.dropped == |groups|
      && (Count(env, Output(clone.messages, sel)) > clone.target ==> t.kept == t.rejected)
  {
    var decisions := Decisions(clone.messages, groups, sel, scores);
    forall g | 0 <= g < |groups|
      ensures decisions[g].score.None? <==> groups[g].protected
    {
      DecisionFields(clone.messages, groups, sel, scores, g);
    }
    TallySums(groups, decisions, Candidates(env, clone, groups, snapshot));
    if Count(env, Output(clone.messages, sel)) > clone.target {
      OverTargetRejected(env, clone, groups, snapshot, scores, sel);
    }
  }

  /** The counts add up to the groups; over the target, every kept group was rejected by the policy. */
  lemma DiagnosticsAreExact(env: Env, req: Request, groups: seq<Group>, snapshot: string, scorer: Scorer,
                            sel: seq<Choice>, r: CompactResult, scores: map<string, Score>)
    requires Accepts(env.validJson, req) && IsGrouping(req, groups) && AllInRange(groups, |req.messages|)
    requires Outcome(env, req, groups, snapshot, scorer, sel, r)
    requires Selected(env, req, groups, snapshot, scorer, scores)
    ensures r.stats.protectedGroups + r.stats.kept + r.stats.reduced + r.stats.dropped == |groups|
    ensures r.stats.candidateOutputTokens > req.target ==> r.stats.kept == r.stats.rejected
  {
    GroupingLays(env, req, groups);
    assert Decided(env, Clone(env, req), groups, snapshot, scores, sel, r);
    TallyIsExact(env, Clone(env, req), groups, snapshot, scores, sel);
  }

  lemma OverTargetIsStuck(env: Env, req: Request, groups: seq<Group>, snapshot: string, scores: map<string, Score>,
                          sel: seq<Choice>)
    requires Laid(req.messages, groups) && AllInRange(groups, |req.messages|)
    requires RanTo(env, req, groups, snapshot, scores, sel)
    requires Count(env, Output(req.messages, sel)) > req.target
    ensures AllLegal(BoardFor(env, req, groups, snapshot, scores), sel)
    ensures Stuck(BoardFor(env, req, groups, snapshot, scores), sel)
  {
    OutputTokens(env, req, groups, snapshot, scores, sel);
    RanToIsLegal(env, req, groups, snapshot, scores, sel);
  }

  lemma OverTargetRejected(env: Env, req: Request, groups: seq<Group>, snapshot: string, scores: map<string, Score>,
                           sel: seq<Choice>)
    requires Laid(req.messages, groups) && AllInRange(groups, |req.messages|) && |sel| == |groups|
    requires RanTo(env, req, groups, snapshot, scores, sel)
    requires Count(env, Output(req.messages, sel)) > req.target
    ensures var t := TallyOf(Decisions(req.messages, groups, sel, scores), Candidates(env, req, groups, snapshot));
      t.kept == t.rejected
  {
    var decisions := Decisions(req.messages, groups, sel, scores);
    OverTargetIsStuck(env, req, groups, snapshot, scores, sel);
    GroupIdsAreDistinct(req.messages, groups);
    forall d | d in decisions && d.score.Some? && d.action == "keep"
      ensures !AllowsAny(d.score.value, d.groupID, Candidates(env, req, groups, snapshot))
    {
      var g :| 0 <= g < |decisions| && decisions[g] == d;
      DecisionFields(req.messages, groups, sel, scores, g);
      KeptIsRejected(env, req, groups, snapshot, scores, sel, g);
    }
    TallyRejects(decisions, Candidates(env, req, groups, snapshot));
  }
}
