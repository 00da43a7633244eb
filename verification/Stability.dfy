/**
 Stability of the group analysis: what `Compact` returns is again an accepted transcript,
 and its groups are exactly the retained groups.
 */
module Stability {
  import opened Text
  import opened Transcript
  import opened UnionFind
  import opened Groups

  // ----- positions in the kept list -----

  /** Where `i` stands in the kept list; -1 when it was dropped. */
  function Position(kept: seq<int>, i: int): (k: int)
    ensures -1 <= k < |kept|
    ensures i in kept <==> k >= 0
    ensures k >= 0 ==> kept[k] == i
  {
    if kept == [] then -1
    else if kept[|kept| - 1] == i then |kept| - 1
    else Position(kept[..|kept| - 1], i)
  }

  lemma PositionOf(kept: seq<int>, k: int)
    requires Ascending(kept) && 0 <= k < |kept|
    ensures Position(kept, kept[k]) == k
  {
  }

  lemma PositionsAscend(kept: seq<int>, i: int, j: int)
    requires Ascending(kept) && i in kept && j in kept
    ensures i < j <==> Position(kept, i) < Position(kept, j)
  {
  }

  function Positions(kept: seq<int>, indices: seq<int>): (renamed: seq<int>)
    ensures |renamed| == |indices|
  {
    seq(|indices|, p requires 0 <= p < |indices| => Position(kept, indices[p]))
  }

  // ----- a retained part of a transcript -----

  ghost predicate AllKept(indices: seq<int>, kept: seq<int>) {
    forall i :: i in indices ==> i in kept
  }

  ghost predicate NoneKept(indices: seq<int>, kept: seq<int>) {
    forall i :: i in indices ==> i !in kept
  }

  /** The text and the arguments of the message are valid. */
  ghost predicate ValidContent(validJson: string -> bool, m: Message) {
    ValidUtf8(m.text) && forall c :: c in m.toolCalls ==> validJson(c.arguments) && ValidUtf8(c.arguments)
  }

  /**
   `out` holds kin of the messages at `kept`; groups are kept or dropped as a whole, no
   protected group is dropped, and none at all in the result-only mode.
   */
  ghost predicate Sub(validJson: string -> bool, req: Request, groups: seq<Group>, out: seq<Message>, kept: seq<int>) {
    && |out| == |kept| && Ascending(kept) && InRange(kept, |req.messages|)
    && (forall k :: 0 <= k < |kept| ==> Kin(out[k], req.messages[kept[k]]) && ValidContent(validJson, out[k]))
    && (forall g :: 0 <= g < |groups| ==> AllKept(groups[g].indices, kept) || NoneKept(groups[g].indices, kept))
    && (forall g :: 0 <= g < |groups| && (groups[g].protected || req.individually) ==> AllKept(groups[g].indices, kept))
  }

  lemma GroupWith(req: Request, groups: seq<Group>, i: int) returns (g: nat)
    requires IsGrouping(req, groups) && 0 <= i < |req.messages|
    ensures g < |groups| && i in groups[g].indices
  {
    assert Covered(groups, i);
    g :| 0 <= g < |groups| && i in groups[g].indices;
  }

  /** Linked messages are kept or dropped together. */
  lemma EdgeStays(validJson: string -> bool, req: Request, groups: seq<Group>, out: seq<Message>, kept: seq<int>,
                  i: int, j: int)
    requires IsGrouping(req, groups) && Sub(validJson, req, groups, out, kept)
    requires 0 <= i < |req.messages| && 0 <= j < |req.messages|
    requires Edge(req, i, j)
    ensures i in kept <==> j in kept
  {
    var g := GroupWith(req, groups, i);
    assert (i, j) in Edges(req);
    LinkedIsEquivalence(|req.messages|, Edges(req));
    assert Together(req, i, j);
    GroupIsClass(req, groups, g, i, j);
  }

  lemma EverythingIsKept(validJson: string -> bool, req: Request, groups: seq<Group>, out: seq<Message>,
                         kept: seq<int>, i: int)
    requires IsGrouping(req, groups) && Sub(validJson, req, groups, out, kept)
    requires req.individually && 0 <= i < |req.messages|
    ensures i in kept
  {
    var g := GroupWith(req, groups, i);
    assert AllKept(groups[g].indices, kept);
  }

  // ----- the edges, and so the classes, are the same -----

  lemma KinCalls(a: seq<ToolCall>, b: seq<ToolCall>)
    requires SameCalls(a, b)
    ensures CallIds(a) == CallIds(b)
  {
    forall id
      ensures id in CallIds(a) <==> id in CallIds(b)
    {
      if id in CallIds(a) {
        var k :| 0 <= k < |a| && a[k].id == id;
        assert SameCall(a[k], b[k]) && b[k] in b;
      }
      if id in CallIds(b) {
        var k :| 0 <= k < |b| && b[k].id == id;
        assert SameCall(a[k], b[k]) && a[k] in a;
      }
    }
  }

  lemma EdgeSame(validJson: string -> bool, req: Request, groups: seq<Group>, out: seq<Message>, kept: seq<int>,
                 k: int, l: int)
    requires Sub(validJson, req, groups, out, kept) && 0 <= k < |kept| && 0 <= l < |kept|
    ensures Edge(req.(messages := out), k, l) <==> Edge(req, kept[k], kept[l])
  {
    assert Kin(out[k], req.messages[kept[k]]) && Kin(out[l], req.messages[kept[l]]);
    KinCalls(out[k].toolCalls, req.messages[kept[k]].toolCalls);
  }

  /** A colouring of the output, carried over to the whole transcript. */
  ghost function Spread(colour: seq<int>, kept: seq<int>, n: nat): (wide: seq<int>)
    requires |colour| == |kept|
    ensures |wide| == n
  {
    seq(n, i requires 0 <= i < n => if Position(kept, i) >= 0 then colour[Position(kept, i)] else 0)
  }

  lemma SpreadRespects(validJson: string -> bool, req: Request, groups: seq<Group>, out: seq<Message>, kept: seq<int>,
                       colour: seq<int>)
    requires IsGrouping(req, groups) && Sub(validJson, req, groups, out, kept)
    requires |colour| == |out| && Respects(colour, Edges(req.(messages := out)))
    ensures Respects(Spread(colour, kept, |req.messages|), Edges(req))
  {
    var wide := Spread(colour, kept, |req.messages|);
    forall e | e in Edges(req) && 0 <= e.0 < |wide| && 0 <= e.1 < |wide|
      ensures wide[e.0] == wide[e.1]
    {
      EdgeStays(validJson, req, groups, out, kept, e.0, e.1);
      if e.0 in kept {
        var k, l := Position(kept, e.0), Position(kept, e.1);
        EdgeSame(validJson, req, groups, out, kept, k, l);
        assert (k, l) in Edges(req.(messages := out));
        assert colour[(k, l).0] == colour[(k, l).1];
      }
    }
  }

  lemma NarrowRespects(validJson: string -> bool, req: Request, groups: seq<Group>, out: seq<Message>, kept: seq<int>,
                       colour: seq<int>)
    requires Sub(validJson, req, groups, out, kept)
    requires |colour| == |req.messages| && Respects(colour, Edges(req))
    ensures Respects(seq(|kept|, k requires 0 <= k < |kept| => if 0 <= kept[k] < |colour| then colour[kept[k]] else 0),
                     Edges(req.(messages := out)))
  {
    forall e | e in Edges(req.(messages := out))
      ensures colour[kept[e.0]] == colour[kept[e.1]]
    {
      EdgeSame(validJson, req, groups, out, kept, e.0, e.1);
      assert (kept[e.0], kept[e.1]) in Edges(req);
      assert colour[(kept[e.0], kept[e.1]).0] == colour[(kept[e.0], kept[e.1]).1];
    }
  }

  /** Two retained messages are linked in the output exactly when they were in the input. */
  lemma TogetherSame(validJson: string -> bool, req: Request, groups: seq<Group>, out: seq<Message>, kept: seq<int>,
                     k: int, l: int)
    requires IsGrouping(req, groups) && Sub(validJson, req, groups, out, kept)
    requires 0 <= k < |kept| && 0 <= l < |kept|
    ensures Together(req.(messages := out), k, l) <==> Together(req, kept[k], kept[l])
  {
    var edges, edges' := Edges(req), Edges(req.(messages := out));
    if Together(req.(messages := out), k, l) {
      forall colour | |colour| == |req.messages| && Respects(colour, edges)
        ensures colour[kept[k]] == colour[kept[l]]
      {
        NarrowRespects(validJson, req, groups, out, kept, colour);
        var narrow := seq(|kept|, m requires 0 <= m < |kept| => if 0 <= kept[m] < |colour| then colour[kept[m]] else 0);
        assert narrow[k] == narrow[l];
      }
    }
    if Together(req, kept[k], kept[l]) {
      forall colour | |colour| == |out| && Respects(colour, edges')
        ensures colour[k] == colour[l]
      {
        SpreadRespects(validJson, req, groups, out, kept, colour);
        var wide := Spread(colour, kept, |req.messages|);
        PositionOf(kept, k);
        PositionOf(kept, l);
        assert wide[kept[k]] == wide[kept[l]];
      }
    }
  }

  // ----- recency, although positions shift -----

  lemma {:induction false} TailIsKept(kept: seq<int>, n: nat, d: nat)
    requires Ascending(kept) && InRange(kept, n) && d <= n
    requires forall i :: n - d <= i < n ==> i in kept
    ensures d <= |kept| && forall p :: |kept| - d <= p < |kept| ==> kept[p] == n - (|kept| - p)
  {
    if d > 0 {
      TailIsKept(kept, n, d - 1);
      assert n - d in kept;
      var p :| 0 <= p < |kept| && kept[p] == n - d;
      assert p < |kept| - (d - 1);
      AscendingGap(kept, n, |kept| - d);
    }
  }

  /** With every recent message kept, a message is recent after the cut exactly when it was before. */
  lemma RecentSame(req: Request, out: seq<Message>, kept: seq<int>, k: int)
    requires |out| == |kept| && Ascending(kept) && InRange(kept, |req.messages|) && 0 <= k < |kept|
    requires RecentCount(req) >= 0
    requires forall i :: 0 <= i < |req.messages| && IsRecent(req, i) ==> i in kept
    ensures IsRecent(req.(messages := out), k) <==> IsRecent(req, kept[k])
  {
    var n, r := |req.messages|, RecentCount(req);
    var d := if r < n then r else n;
    TailIsKept(kept, n, d);
    if d < n {
      assert d > 0 ==> kept[|kept| - d] == n - d;
    }
    assert kept[k] <= n - (|kept| - k) by {
      AscendingGap(kept, n, k);
    }
  }

  lemma {:induction false} AscendingGap(kept: seq<int>, n: nat, k: nat)
    requires Ascending(kept) && InRange(kept, n) && k < |kept|
    ensures kept[k] <= n - (|kept| - k)
    decreases |kept| - k
  {
    if k < |kept| - 1 {
      AscendingGap(kept, n, k + 1);
    }
  }

  lemma RecentIsKept(validJson: string -> bool, req: Request, groups: seq<Group>, out: seq<Message>, kept: seq<int>,
                     i: int)
    requires IsGrouping(req, groups) && Sub(validJson, req, groups, out, kept)
    requires 0 <= i < |req.messages| && IsRecent(req, i)
    ensures i in kept
  {
    var g := GroupWith(req, groups, i);
    assert GroupOk(req, groups[g]);
    var p :| 0 <= p < |groups[g].indices| && groups[g].indices[p] == i;
    MemberReasonCounts(req, groups[g].indices, p);
    assert AllKept(groups[g].indices, kept);
  }

  // ----- the protection of a message is the same -----

  lemma AnsweredSame(validJson: string -> bool, req: Request, groups: seq<Group>, out: seq<Message>, kept: seq<int>,
                     k: int, id: string)
    requires IsGrouping(req, groups) && Sub(validJson, req, groups, out, kept) && 0 <= k < |kept|
    requires HasCall(req.messages[kept[k]], id)
    ensures id in Answered(out) <==> id in Answered(req.messages)
  {
    if id in Answered(out) {
      var m :| m in out && m.toolCallID != "" && m.toolCallID == id;
      var l :| 0 <= l < |out| && out[l] == m;
      assert Kin(out[l], req.messages[kept[l]]) && req.messages[kept[l]] in req.messages;
    }
    if id in Answered(req.messages) {
      var m :| m in req.messages && m.toolCallID != "" && m.toolCallID == id;
      var j :| 0 <= j < |req.messages| && req.messages[j] == m;
      if req.individually {
        EverythingIsKept(validJson, req, groups, out, kept, j);
      } else {
        EdgeStays(validJson, req, groups, out, kept, kept[k], j);
      }
      var l := Position(kept, j);
      assert Kin(out[l], req.messages[kept[l]]) && out[l] in out;
    }
  }

  lemma {:induction false} CallReasonSame(a: seq<ToolCall>, b: seq<ToolCall>, answeredA: set<string>,
                                          answeredB: set<string>)
    requires SameCalls(a, b)
    requires forall c :: c in b ==> (c.id in answeredA <==> c.id in answeredB)
    ensures CallReason(a, answeredA) == CallReason(b, answeredB)
  {
    if a != [] {
      assert SameCall(a[0], b[0]) && b[0] in b;
      CallReasonSame(a[1..], b[1..], answeredA, answeredB);
    }
  }

  lemma ProtectionSame(validJson: string -> bool, req: Request, groups: seq<Group>, out: seq<Message>, kept: seq<int>,
                       k: int)
    requires IsGrouping(req, groups) && Sub(validJson, req, groups, out, kept) && 0 <= k < |kept|
    requires RecentCount(req) >= 0
    ensures var req' := req.(messages := out);
      Protection(out[k], IsRecent(req', k), Answered(out))
      == Protection(req.messages[kept[k]], IsRecent(req, kept[k]), Answered(req.messages))
  {
    var m := req.messages[kept[k]];
    assert Kin(out[k], m);
    forall i | 0 <= i < |req.messages| && IsRecent(req, i)
      ensures i in kept
    {
      RecentIsKept(validJson, req, groups, out, kept, i);
    }
    RecentSame(req, out, kept, k);
    forall c | c in m.toolCalls
      ensures c.id in Answered(out) <==> c.id in Answered(req.messages)
    {
      assert HasCall(m, c.id);
      AnsweredSame(validJson, req, groups, out, kept, k, c.id);
    }
    CallReasonSame(out[k].toolCalls, m.toolCalls, Answered(out), Answered(req.messages));
  }
}
