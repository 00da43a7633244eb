/** `cloneRequest`, `evaluate` and the choices open to the selection (compact/engine.go, compact/selection.go). */
module Evaluations {
  import opened Text
  import opened Transcript
  import opened UnionFind
  import opened Groups
  import opened Partitions
  import opened Excerpts
  import opened Scores
  import opened Representations
  import opened Greedy
  import opened Assembly

  // ----- cloneRequest -----

  function CloneCall(env: Env, c: ToolCall): ToolCall {
    c.(arguments := env.canonical(c.arguments))
  }

  function CloneMessage(env: Env, m: Message): Message {
    m.(toolCalls := seq(|m.toolCalls|, k requires 0 <= k < |m.toolCalls| => CloneCall(env, m.toolCalls[k])))
  }

  function CloneMessages(env: Env, messages: seq<Message>): (clones: seq<Message>)
    ensures |clones| == |messages|
  {
    seq(|messages|, i requires 0 <= i < |messages| => CloneMessage(env, messages[i]))
  }

  /** The JSON round trip of an accepted request rewrites the call arguments and nothing else. */
  function Clone(env: Env, req: Request): Request {
    req.(messages := CloneMessages(env, req.messages))
  }

  // ----- a transcript laid out in groups -----

  ghost predicate Laid(messages: seq<Message>, groups: seq<Group>) {
    && (forall i, j :: 0 <= i < j < |messages| ==> messages[i].id != messages[j].id)
    && IsPartition(IndexLists(groups), |messages|)
    && (forall g :: 0 <= g < |groups| ==> groups[g].indices != [] && InRange(groups[g].indices, |messages|))
    && (forall g :: 0 <= g < |groups| ==> groups[g].id == messages[groups[g].indices[0]].id)
  }

  lemma GroupingPartitions(req: Request, groups: seq<Group>)
    requires IsGrouping(req, groups)
    ensures IsPartition(IndexLists(groups), |req.messages|)
  {
    var lists := IndexLists(groups);
    forall g | 0 <= g < |lists|
      ensures Ascending(lists[g]) && forall i :: i in lists[g] ==> 0 <= i < |req.messages|
    {
      assert GroupOk(req, groups[g]);
    }
    forall i | 0 <= i < |req.messages|
      ensures InSome(lists, i)
    {
      assert Covered(groups, i);
      var g :| 0 <= g < |groups| && i in groups[g].indices;
      assert i in lists[g];
    }
    forall g, h, i | 0 <= g < |lists| && 0 <= h < |lists| && i in lists[g] && i in lists[h]
      ensures g == h
    {
      assert i in groups[g].indices && i in groups[h].indices;
      LinkedIsEquivalence(|req.messages|, Edges(req));
      assert Together(req, i, i);
    }
  }

  lemma GroupingLays(env: Env, req: Request, groups: seq<Group>)
    requires Accepts(env.validJson, req) && IsGrouping(req, groups)
    ensures Laid(Clone(env, req).messages, groups)
  {
    GroupingPartitions(req, groups);
    var clones := Clone(env, req).messages;
    forall i, j | 0 <= i < j < |clones|
      ensures clones[i].id != clones[j].id
    {
      assert MessageFits(env.validJson, req.messages, j);
    }
    forall g | 0 <= g < |groups|
      ensures groups[g].indices != [] && InRange(groups[g].indices, |clones|)
      ensures groups[g].id == clones[groups[g].indices[0]].id
    {
      assert GroupOk(req, groups[g]);
    }
  }

  // ----- candidates -----

  /** The variants offered for a group; a protected group has none. */
  function Offered(env: Env, req: Request, g: Group, snapshot: string): (variants: seq<Variant>)
    requires InRange(g.indices, |req.messages|)
  {
    if g.protected then []
    else
      var variants := Variants(env, GroupMessages(req.messages, g.indices), req.goal, snapshot);
      if req.individually then WithoutDrop(variants) else variants
  }

  function CallTable(messages: seq<Message>): map<string, ToolCall> {
    if messages == [] then map[]
    else
      var m := messages[|messages| - 1];
      CallTable(messages[..|messages| - 1]) + CallsById(m.toolCalls)
  }

  function CallsById(calls: seq<ToolCall>): map<string, ToolCall> {
    if calls == [] then map[]
    else CallsById(calls[..|calls| - 1])[calls[|calls| - 1].id := calls[|calls| - 1]]
  }

  function CallLine(c: ToolCall): string {
    "tool=" + c.name + " arguments=" + c.arguments + "\n"
  }

  function CallLines(calls: seq<ToolCall>): string {
    if calls == [] then "" else CallLine(calls[0]) + CallLines(calls[1..])
  }

  /** One message as the scorer sees it. */
  function MessageText(m: Message, individually: bool, calls: map<string, ToolCall>): string {
    "[" + m.id + " " + m.role + " call=" + m.toolCallID + "]\n"
    + CallLines(m.toolCalls)
    + (if individually && m.toolCallID != ""
       then CallLine(if m.toolCallID in calls then calls[m.toolCallID] else ToolCall("", "", "", false))
       else "")
    + m.text + "\n"
  }

  function FullText(messages: seq<Message>, individually: bool, calls: map<string, ToolCall>): string {
    if messages == [] then ""
    else MessageText(messages[0], individually, calls) + FullText(messages[1..], individually, calls)
  }

  function GroupText(req: Request, g: Group): string
    requires InRange(g.indices, |req.messages|)
  {
    FullText(GroupMessages(req.messages, g.indices), req.individually, CallTable(req.messages))
  }

  function CandidateFor(env: Env, req: Request, g: Group, snapshot: string): Candidate
    requires InRange(g.indices, |req.messages|)
  {
    var full := GroupText(req, g);
    Candidate(g.id, Excerpt(env.keyword, full, req.goal, 16000), |full| <= 16000,
              Count(env, GroupMessages(req.messages, g.indices)), Offered(env, req, g, snapshot))
  }

  /** A candidate is marked complete exactly when its preview is the whole text of the group. */
  lemma CompleteMeansWhole(env: Env, req: Request, g: Group, snapshot: string)
    requires InRange(g.indices, |req.messages|) && |GroupText(req, g)| + 1 < Pow10(28)
    ensures var c := CandidateFor(env, req, g, snapshot);
      && (c.complete <==> c.preview == GroupText(req, g))
      && |c.preview| <= 16000
  {
    ExcerptBound(env.keyword, GroupText(req, g), req.goal, 16000);
  }

  ghost predicate AllInRange(groups: seq<Group>, n: int) {
    forall g :: 0 <= g < |groups| ==> InRange(groups[g].indices, n)
  }

  /** What `make` gives for the unprotected ones of the first `h` groups. */
  function Made(groups: seq<Group>, make: Group --> Candidate, h: nat): seq<Candidate>
    requires h <= |groups| && forall k :: 0 <= k < |groups| ==> make.requires(groups[k])
  {
    if h == 0 then []
    else if groups[h - 1].protected then Made(groups, make, h - 1)
    else Made(groups, make, h - 1) + [make(groups[h - 1])]
  }

  function Maker(env: Env, req: Request, snapshot: string): (make: Group --> Candidate)
    ensures forall g: Group :: InRange(g.indices, |req.messages|) ==> make.requires(g)
  {
    (g: Group) requires InRange(g.indices, |req.messages|) => CandidateFor(env, req, g, snapshot)
  }

  /** The candidates of all groups, in group order. */
  function Candidates(env: Env, req: Request, groups: seq<Group>, snapshot: string): seq<Candidate>
    requires AllInRange(groups, |req.messages|)
  {
    Made(groups, Maker(env, req, snapshot), |groups|)
  }

  function EvaluationOf(env: Env, req: Request, groups: seq<Group>, snapshot: string): Evaluation
    requires AllInRange(groups, |req.messages|)
  {
    Evaluation(req.goal, env.context(req.messages, req.goal), Candidates(env, req, groups, snapshot))
  }

  method FilterDrops(variants: seq<Variant>) returns (filtered: seq<Variant>)
    ensures filtered == WithoutDrop(variants)
  {
    filtered := [];
    for i := 0 to |variants|
      invariant filtered == WithoutDrop(variants[..i])
    {
      assert variants[..i + 1][..i] == variants[..i];
      if variants[i].action != "drop" {
        filtered := filtered + [variants[i]];
      }
    }
    assert variants[..|variants|] == variants;
  }

  method CollectCalls(messages: seq<Message>) returns (calls: map<string, ToolCall>)
    ensures calls == CallTable(messages)
  {
    calls := map[];
    for i := 0 to |messages|
      invariant calls == CallTable(messages[..i])
    {
      assert messages[..i + 1][..i] == messages[..i];
      var tool := messages[i].toolCalls;
      ghost var before := calls;
      for k := 0 to |tool|
        invariant calls == before + CallsById(tool[..k])
      {
        assert tool[..k + 1][..k] == tool[..k];
        calls := calls[tool[k].id := tool[k]];
      }
      assert tool[..|tool|] == tool;
    }
    assert messages[..|messages|] == messages;
  }

  /** The loop body of `evaluate` for an unprotected group. */
  method MakeCandidate(env: Env, req: Request, g: Group, snapshot: string, calls: map<string, ToolCall>)
    returns (c: Candidate)
    requires InRange(g.indices, |req.messages|) && !g.protected && calls == CallTable(req.messages)
    ensures c == CandidateFor(env, req, g, snapshot)
  {
    var messages := GroupMessages(req.messages, g.indices);
    var count := Count(env, messages);
    var full := FullText(messages, req.individually, calls);
    var variants := MakeVariants(env, messages, req.goal, snapshot, count);
    if req.individually {
      variants := FilterDrops(variants);
    }
    var preview := MakeExcerpt(env.keyword, full, req.goal, 16000);
    c := Candidate(g.id, preview, |full| <= 16000, count, variants);
  }

  method Evaluate(env: Env, req: Request, groups: seq<Group>, snapshot: string) returns (eval: Evaluation)
    requires AllInRange(groups, |req.messages|)
    ensures eval == EvaluationOf(env, req, groups, snapshot)
  {
    var candidates := MakeCandidates(env, req, groups, snapshot, Maker(env, req, snapshot));
    eval := Evaluation(req.goal, env.context(req.messages, req.goal), candidates);
  }

  method MakeCandidates(env: Env, req: Request, groups: seq<Group>, snapshot: string, ghost make: Group --> Candidate)
    returns (candidates: seq<Candidate>)
    requires AllInRange(groups, |req.messages|) && make == Maker(env, req, snapshot)
    ensures candidates == Made(groups, make, |groups|)
  {
    candidates := [];
    var calls := CollectCalls(req.messages);
    for i := 0 to |groups|
      invariant candidates == Made(groups, make, i)
    {
      if !groups[i].protected {
        var c := MakeCandidate(env, req, groups[i], snapshot, calls);
        candidates := candidates + [c];
      }
    }
  }

  // ----- the board the selection works on -----

  function KeepChoice(env: Env, messages: seq<Message>, g: Group): Choice
    requires InRange(g.indices, |messages|)
  {
    var members := GroupMessages(messages, g.indices);
    Choice(members, Count(env, members), "keep", 0.0)
  }

  function BoardFor(env: Env, req: Request, groups: seq<Group>, snapshot: string,
                    scores: map<string, Score>): (b: Board)
    requires AllInRange(groups, |req.messages|)
    ensures Sized(b) && |b.locked| == |groups|
  {
    Board(
      seq(|groups|, g requires 0 <= g < |groups| => groups[g].protected),
      seq(|groups|, g requires 0 <= g < |groups| => KeepChoice(env, req.messages, groups[g])),
      seq(|groups|, g requires 0 <= g < |groups| => Offered(env, req, groups[g], snapshot)),
      seq(|groups|, g requires 0 <= g < |groups| => ScoreOf(scores, groups[g].id)))
  }

  /** Every offer is an honest proposal that saves tokens; at most four, none twice. */
  lemma OffersHonest(env: Env, req: Request, g: Group, snapshot: string)
    requires InRange(g.indices, |req.messages|)
    ensures |Offered(env, req, g, snapshot)| <= 4 && DistinctActions(Offered(env, req, g, snapshot))
    ensures forall v :: v in Offered(env, req, g, snapshot) ==>
      && !g.protected
      && Honest(env, GroupMessages(req.messages, g.indices), req.goal, snapshot, v)
      && v.tokens < Count(env, GroupMessages(req.messages, g.indices))
      && (req.individually ==> v.action != "drop")
  {
    var messages := GroupMessages(req.messages, g.indices);
    ProposalsHonest(env, messages, req.goal, snapshot, Count(env, messages), ACTIONS);
    ProposalsDistinct(env, messages, req.goal, snapshot, Count(env, messages), ACTIONS);
    WithoutDropDistinct(Variants(env, messages, req.goal, snapshot));
  }

  /** A legal choice is the original group or one of its honest proposals. */
  lemma LegalIsHonest(env: Env, req: Request, groups: seq<Group>, snapshot: string, scores: map<string, Score>, g: int,
                      c: Choice)
    requires AllInRange(groups, |req.messages|) && 0 <= g < |groups|
    requires Legal(BoardFor(env, req, groups, snapshot, scores), g, c)
    ensures
      var messages := GroupMessages(req.messages, groups[g].indices);
      || c == KeepChoice(env, req.messages, groups[g])
      || (!groups[g].protected && Honest(env, messages, req.goal, snapshot, Variant(c.action, c.messages, c.tokens))
          && (req.individually ==> c.action != "drop"))
    ensures c.tokens == Count(env, c.messages)
  {
    var b := BoardFor(env, req, groups, snapshot, scores);
    OffersHonest(env, req, groups[g], snapshot);
    if c != b.base[g] {
      var k :| Permitted(b, g, k) && c == Taken(b, g, k);
      assert b.offers[g][k] in Offered(env, req, groups[g], snapshot);
    }
  }

  lemma LegalReplaces(env: Env, req: Request, groups: seq<Group>, snapshot: string, scores: map<string, Score>, g: int,
                      c: Choice)
    requires AllInRange(groups, |req.messages|) && 0 <= g < |groups|
    requires Legal(BoardFor(env, req, groups, snapshot, scores), g, c)
    ensures Replaces(req.messages, groups[g].indices, c)
  {
    LegalIsHonest(env, req, groups, snapshot, scores, g, c);
  }

  lemma LegalAssembles(env: Env, req: Request, groups: seq<Group>, snapshot: string, scores: map<string, Score>,
                       sel: seq<Choice>)
    requires Laid(req.messages, groups) && AllInRange(groups, |req.messages|)
    requires AllLegal(BoardFor(env, req, groups, snapshot, scores), sel)
    ensures Assemblable(req.messages, groups, sel)
    ensures forall g :: 0 <= g < |sel| ==> sel[g].tokens == Count(env, sel[g].messages)
  {
    forall g | 0 <= g < |sel|
      ensures Replaces(req.messages, groups[g].indices, sel[g]) && sel[g].tokens == Count(env, sel[g].messages)
    {
      LegalReplaces(env, req, groups, snapshot, scores, g, sel[g]);
      LegalIsHonest(env, req, groups, snapshot, scores, g, sel[g]);
    }
  }
}
