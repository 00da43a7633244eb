/** `selectMessages` of compact/selection.go around the greedy loop. */
module Selection {
  import opened Transcript
  import opened Groups
  import opened Scores
  import opened Representations
  import opened Greedy
  import opened Assembly
  import opened Evaluations

  /** `proposals`: the variants of each candidate under its id. */
  function ProposalMap(candidates: seq<Candidate>): map<string, seq<Variant>> {
    if candidates == [] then map[]
    else
      var last := |candidates| - 1;
      ProposalMap(candidates[..last])[candidates[last].id := candidates[last].variants]
  }

  /** What Go reads from the map of proposals: nothing under an absent id. */
  function ProposalsOf(proposals: map<string, seq<Variant>>, id: string): seq<Variant> {
    if id in proposals then proposals[id] else []
  }

  lemma GroupIdsDiffer(messages: seq<Message>, groups: seq<Group>, g: int, h: int)
    requires Laid(messages, groups) && 0 <= g < |groups| && 0 <= h < |groups| && g != h
    ensures groups[g].id != groups[h].id
  {
    var lists := IndexLists(groups);
    var i, j := groups[g].indices[0], groups[h].indices[0];
    assert i in lists[g] && j in lists[h];
    assert i != j;
  }

  ghost predicate DistinctIds(groups: seq<Group>) {
    forall g, h :: 0 <= g < h < |groups| ==> groups[g].id != groups[h].id
  }

  lemma GroupIdsAreDistinct(messages: seq<Message>, groups: seq<Group>)
    requires Laid(messages, groups)
    ensures DistinctIds(groups)
  {
    forall g, h | 0 <= g < h < |groups|
      ensures groups[g].id != groups[h].id
    {
      GroupIdsDiffer(messages, groups, g, h);
    }
  }

  // ----- the candidate list -----

  lemma {:induction false} MadeHolds(groups: seq<Group>, make: Group --> Candidate, h: nat, g: nat)
    requires forall k :: 0 <= k < |groups| ==> make.requires(groups[k])
    requires g < h <= |groups| && !groups[g].protected
    ensures make(groups[g]) in Made(groups, make, h)
  {
    if g == h - 1 {
      var all := Made(groups, make, h);
      assert all[|all| - 1] == make(groups[g]);
    } else {
      MadeHolds(groups, make, h - 1, g);
    }
  }

  /** The group a candidate was made for. */
  lemma {:induction false} MadeFrom(groups: seq<Group>, make: Group --> Candidate, h: nat, c: Candidate)
    returns (g: nat)
    requires forall k :: 0 <= k < |groups| ==> make.requires(groups[k])
    requires h <= |groups| && c in Made(groups, make, h)
    ensures g < h && !groups[g].protected && c == make(groups[g])
  {
    if !groups[h - 1].protected && c == make(groups[h - 1]) {
      g := h - 1;
    } else {
      g := MadeFrom(groups, make, h - 1, c);
    }
  }

  lemma {:induction false} ProposalsByCandidate(candidates: seq<Candidate>, id: string)
    ensures (forall c :: c in candidates ==> c.id != id) ==> ProposalsOf(ProposalMap(candidates), id) == []
    ensures (exists c :: c in candidates && c.id == id) ==>
      exists c :: c in candidates && c.id == id && ProposalsOf(ProposalMap(candidates), id) == c.variants
  {
    if candidates != [] {
      var front, last := candidates[..|candidates| - 1], candidates[|candidates| - 1];
      assert candidates == front + [last];
      ProposalsByCandidate(front, id);
      assert last in candidates;
    }
  }

  lemma CandidateVariants(env: Env, req: Request, g: Group, snapshot: string)
    requires InRange(g.indices, |req.messages|)
    ensures CandidateFor(env, req, g, snapshot).id == g.id
    ensures CandidateFor(env, req, g, snapshot).variants == Offered(env, req, g, snapshot)
  {
  }

  /** Reading the map under a group's id gives that group's variants. */
  lemma ProposalLookup(groups: seq<Group>, make: Group --> Candidate, g: nat)
    requires DistinctIds(groups) && g < |groups|
    requires forall k :: 0 <= k < |groups| ==> make.requires(groups[k]) && make(groups[k]).id == groups[k].id
    ensures ProposalsOf(ProposalMap(Made(groups, make, |groups|)), groups[g].id)
      == if groups[g].protected then [] else make(groups[g]).variants
  {
    var candidates := Made(groups, make, |groups|);
    ProposalsByCandidate(candidates, groups[g].id);
    forall c | c in candidates && c.id == groups[g].id
      ensures !groups[g].protected && c == make(groups[g])
    {
      var h := MadeFrom(groups, make, |groups|, c);
      assert h == g;
    }
    if !groups[g].protected {
      MadeHolds(groups, make, |groups|, g);
    }
  }

  method MakeProposals(candidates: seq<Candidate>) returns (proposals: map<string, seq<Variant>>)
    ensures proposals == ProposalMap(candidates)
  {
    proposals := map[];
    for i := 0 to |candidates|
      invariant proposals == ProposalMap(candidates[..i])
    {
      assert candidates[..i + 1][..i] == candidates[..i];
      proposals := proposals[candidates[i].id := candidates[i].variants];
    }
    assert candidates[..|candidates|] == candidates;
  }

  lemma ProposalsAreOffers(env: Env, req: Request, groups: seq<Group>, snapshot: string, g: nat)
    requires Laid(req.messages, groups) && AllInRange(groups, |req.messages|) && g < |groups|
    ensures ProposalsOf(ProposalMap(Candidates(env, req, groups, snapshot)), groups[g].id)
      == Offered(env, req, groups[g], snapshot)
  {
    GroupIdsAreDistinct(req.messages, groups);
    ProposalLookup(groups, Maker(env, req, snapshot), g);
  }

  /** What is on the board for each group, read through the maps. */
  ghost predicate ReadsAs(env: Env, messages: seq<Message>, groups: seq<Group>,
                          proposals: map<string, seq<Variant>>, scores: map<string, Score>, b: Board)
    requires AllInRange(groups, |messages|)
  {
    && Sized(b) && |b.locked| == |groups|
    && forall g :: 0 <= g < |groups| ==>
         && b.locked[g] == groups[g].protected && b.base[g] == KeepChoice(env, messages, groups[g])
         && b.offers[g] == ProposalsOf(proposals, groups[g].id) && b.scores[g] == ScoreOf(scores, groups[g].id)
  }

  method FillBoard(env: Env, messages: seq<Message>, groups: seq<Group>,
                   proposals: map<string, seq<Variant>>, scores: map<string, Score>)
    returns (b: Board)
    requires AllInRange(groups, |messages|)
    ensures ReadsAs(env, messages, groups, proposals, scores, b)
  {
    b := Board([], [], [], []);
    for i := 0 to |groups|
      invariant ReadsAs(env, messages, groups[..i], proposals, scores, b)
    {
      var g := groups[i];
      var members := GroupMessages(messages, g.indices);
      var count := Count(env, members);
      b := Board(b.locked + [g.protected], b.base + [Choice(members, count, "keep", 0.0)],
                 b.offers + [ProposalsOf(proposals, g.id)], b.scores + [ScoreOf(scores, g.id)]);
    }
    assert groups[..|groups|] == groups;
  }

  lemma BoardIsRead(env: Env, req: Request, groups: seq<Group>, snapshot: string, scores: map<string, Score>, b: Board)
    requires Laid(req.messages, groups) && AllInRange(groups, |req.messages|)
    requires ReadsAs(env, req.messages, groups, ProposalMap(Candidates(env, req, groups, snapshot)), scores, b)
    ensures b == BoardFor(env, req, groups, snapshot, scores)
  {
    forall g | 0 <= g < |groups|
      ensures b.offers[g] == Offered(env, req, groups[g], snapshot)
    {
      ProposalsAreOffers(env, req, groups, snapshot, g);
    }
    var board := BoardFor(env, req, groups, snapshot, scores);
    assert b.locked == board.locked && b.base == board.base && b.offers == board.offers && b.scores == board.scores;
  }

  /** What the loops read through the maps, group by group, is the board of the groups. */
  method MakeBoard(env: Env, req: Request, groups: seq<Group>, snapshot: string, scores: map<string, Score>,
                   eval: Evaluation)
    returns (b: Board)
    requires Laid(req.messages, groups) && AllInRange(groups, |req.messages|)
    requires eval == EvaluationOf(env, req, groups, snapshot)
    ensures b == BoardFor(env, req, groups, snapshot, scores)
  {
    var proposals := MakeProposals(eval.candidates);
    b := FillBoard(env, req.messages, groups, proposals, scores);
    BoardIsRead(env, req, groups, snapshot, scores, b);
  }

  /** The outcome of a finished run on the board of the groups. */
  ghost predicate RanTo(env: Env, req: Request, groups: seq<Group>, snapshot: string, scores: map<string, Score>,
                        sel: seq<Choice>)
    requires AllInRange(groups, |req.messages|)
  {
    RunsTo(BoardFor(env, req, groups, snapshot, scores), req.target, sel)
  }

  function Output(messages: seq<Message>, sel: seq<Choice>): seq<Message> {
    Present(Picked(messages, ByGroups(sel, |sel|)))
  }

  method SelectMessages(env: Env, req: Request, groups: seq<Group>, snapshot: string, scores: map<string, Score>,
                        eval: Evaluation, ctx: Context)
    returns (r: Option<(seq<Message>, seq<Decision>)>, ghost sel: seq<Choice>)
    requires Laid(req.messages, groups) && AllInRange(groups, |req.messages|)
    requires eval == EvaluationOf(env, req, groups, snapshot)
    modifies ctx
    ensures r.None? ==> ctx.cancelled
    ensures old(ctx.cancelled) ==> ctx.cancelled
    ensures r.Some? ==> RanTo(env, req, groups, snapshot, scores, sel)
    ensures r.Some? ==>
      |sel| == |groups| && r.value == (Output(req.messages, sel), Decisions(req.messages, groups, sel, scores))
  {
    var b := MakeBoard(env, req, groups, snapshot, scores, eval);
    var selected;
    ghost var trace;
    selected, trace := Reduce(b, req.target, ctx);
    if selected.None? {
      return None, [];
    }
    sel := selected.value;
    assert EndsAt(b, req.target, trace, sel);
    var messages, decisions := Assemble(req.messages, groups, selected.value, scores);
    r := Some((messages, decisions));
  }

  // ----- what a finished selection is -----

  lemma RanToIsLegal(env: Env, req: Request, groups: seq<Group>, snapshot: string, scores: map<string, Score>,
                     sel: seq<Choice>)
    requires AllInRange(groups, |req.messages|) && RanTo(env, req, groups, snapshot, scores, sel)
    ensures AllLegal(BoardFor(env, req, groups, snapshot, scores), sel)
  {
    RunsToIsLegal(BoardFor(env, req, groups, snapshot, scores), req.target, sel);
  }

  /** The recount of the selected transcript is the total the loop stopped at. */
  lemma OutputTokens(env: Env, req: Request, groups: seq<Group>, snapshot: string, scores: map<string, Score>,
                     sel: seq<Choice>)
    requires Laid(req.messages, groups) && AllInRange(groups, |req.messages|)
    requires RanTo(env, req, groups, snapshot, scores, sel)
    ensures Count(env, Output(req.messages, sel)) == Total(sel)
  {
    RanToIsLegal(env, req, groups, snapshot, scores, sel);
    LegalAssembles(env, req, groups, snapshot, scores, sel);
    PickedIsSpliced(req.messages, groups, sel);
    TokensConserved(env, req.messages, groups, sel, Picked(req.messages, ByGroups(sel, |sel|)));
  }

  /**
   Feasibility completeness: the selected transcript meets the target exactly when some
   assignment of originals and permitted proposals does.
   */
  lemma SelectionIsComplete(env: Env, req: Request, groups: seq<Group>, snapshot: string, scores: map<string, Score>,
                            sel: seq<Choice>)
    requires Laid(req.messages, groups) && AllInRange(groups, |req.messages|)
    requires RanTo(env, req, groups, snapshot, scores, sel)
    ensures Count(env, Output(req.messages, sel)) <= req.target
      <==> Feasible(BoardFor(env, req, groups, snapshot, scores), req.target)
  {
    OutputTokens(env, req, groups, snapshot, scores, sel);
    RunsToIsComplete(BoardFor(env, req, groups, snapshot, scores), req.target, sel);
  }

  /** At most four steps for every unprotected group. */
  lemma SelectionSteps(env: Env, req: Request, groups: seq<Group>, snapshot: string, scores: map<string, Score>,
                       trace: seq<seq<Choice>>)
    requires AllInRange(groups, |req.messages|)
    requires IsRun(BoardFor(env, req, groups, snapshot, scores), req.target, trace)
    ensures var locked := BoardFor(env, req, groups, snapshot, scores).locked;
      |trace| - 1 <= 4 * Unlocked(locked, |locked|)
  {
    var b := BoardFor(env, req, groups, snapshot, scores);
    forall g | 0 <= g < |groups|
      ensures |b.offers[g]| <= 4
    {
      OffersHonest(env, req, groups[g], snapshot);
    }
    RunLength(b, req.target, trace, 4);
  }
}
