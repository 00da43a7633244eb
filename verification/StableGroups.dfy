/** The two halves of stability: the output is accepted, and its groups are the retained ones. */
module StableGroups {
  import opened Text
  import opened Transcript
  import opened Groups
  import opened Stability

  // ----- the reasons are the same -----

  lemma {:induction false} CallerSame(a: seq<Message>, b: seq<Message>, id: string)
    requires |a| == |b| && forall i :: 0 <= i < |a| ==> Kin(a[i], b[i])
    ensures CallerOf(a, id) == CallerOf(b, id)
  {
    if a != [] {
      var last := |a| - 1;
      assert Kin(a[last], b[last]);
      KinCalls(a[last].toolCalls, b[last].toolCalls);
      CallerSame(a[..last], b[..last], id);
    }
  }

  lemma DependedSame(a: seq<Message>, b: seq<Message>)
    requires |a| == |b| && forall i :: 0 <= i < |a| ==> Kin(a[i], b[i])
    ensures Depended(a) == Depended(b)
  {
    forall d
      ensures d in Depended(a) <==> d in Depended(b)
    {
      if d in Depended(a) {
        var m :| m in a && d in m.dependsOn;
        var i :| 0 <= i < |a| && a[i] == m;
        assert Kin(a[i], b[i]) && b[i] in b;
      }
      if d in Depended(b) {
        var m :| m in b && d in m.dependsOn;
        var i :| 0 <= i < |b| && b[i] == m;
        assert Kin(a[i], b[i]) && a[i] in a;
      }
    }
  }

  lemma {:induction false} FirstCallSame(a: seq<ToolCall>, b: seq<ToolCall>, id: string)
    requires SameCalls(a, b)
    ensures SameCalls(FirstCall(a, id), FirstCall(b, id))
    ensures forall c :: c in FirstCall(b, id) ==> c in b
  {
    if a != [] {
      assert SameCall(a[0], b[0]);
      FirstCallSame(a[1..], b[1..], id);
    }
  }

  /** In the result-only mode nothing is dropped, so positions do not shift. */
  lemma KeptIsIdentity(validJson: string -> bool, req: Request, groups: seq<Group>, out: seq<Message>, kept: seq<int>)
    requires IsGrouping(req, groups) && Sub(validJson, req, groups, out, kept) && req.individually
    ensures |out| == |req.messages| && forall k :: 0 <= k < |kept| ==> kept[k] == k
    ensures forall i :: 0 <= i < |out| ==> Kin(out[i], req.messages[i])
  {
    forall i | 0 <= i < |req.messages|
      ensures i in kept
    {
      EverythingIsKept(validJson, req, groups, out, kept, i);
    }
    TailIsKept(kept, |req.messages|, |req.messages|);
    if |kept| > 0 {
      AscendingGap(kept, |req.messages|, 0);
    }
  }

  lemma FirstCallReasonSame(validJson: string -> bool, req: Request, groups: seq<Group>, out: seq<Message>,
                            kept: seq<int>, j: int, id: string)
    requires IsGrouping(req, groups) && Sub(validJson, req, groups, out, kept) && 0 <= j < |kept|
    ensures CallReason(FirstCall(out[j].toolCalls, id), Answered(out))
      == CallReason(FirstCall(req.messages[kept[j]].toolCalls, id), Answered(req.messages))
  {
    var a, b := out[j].toolCalls, req.messages[kept[j]].toolCalls;
    assert Kin(out[j], req.messages[kept[j]]);
    FirstCallSame(a, b, id);
    forall c | c in FirstCall(b, id)
      ensures c.id in Answered(out) <==> c.id in Answered(req.messages)
    {
      assert HasCall(req.messages[kept[j]], c.id);
      AnsweredSame(validJson, req, groups, out, kept, j, c.id);
    }
    CallReasonSame(FirstCall(a, id), FirstCall(b, id), Answered(out), Answered(req.messages));
  }

  lemma CallerProtectionSame(validJson: string -> bool, req: Request, groups: seq<Group>, out: seq<Message>,
                             kept: seq<int>, j: int, id: string)
    requires IsGrouping(req, groups) && Sub(validJson, req, groups, out, kept) && 0 <= j < |kept|
    requires |out| == |req.messages| && kept[j] == j && Depended(out) == Depended(req.messages)
    ensures ResultProtection(req.(messages := out), j, id, Answered(out), Depended(out))
      == ResultProtection(req, j, id, Answered(req.messages), Depended(req.messages))
  {
    assert Kin(out[j], req.messages[j]);
    FirstCallReasonSame(validJson, req, groups, out, kept, j, id);
  }

  lemma ResultProtectionSame(validJson: string -> bool, req: Request, groups: seq<Group>, out: seq<Message>,
                             kept: seq<int>, id: string)
    requires IsGrouping(req, groups) && Sub(validJson, req, groups, out, kept)
    requires req.individually && out != []
    ensures |out| == |req.messages|
    ensures ResultProtection(req.(messages := out), CallerOf(out, id), id, Answered(out), Depended(out))
      == ResultProtection(req, CallerOf(req.messages, id), id, Answered(req.messages), Depended(req.messages))
  {
    KeptIsIdentity(validJson, req, groups, out, kept);
    CallerSame(out, req.messages, id);
    DependedSame(out, req.messages);
    CallerProtectionSame(validJson, req, groups, out, kept, CallerOf(req.messages, id), id);
  }

  lemma MessageReasonSame(validJson: string -> bool, req: Request, groups: seq<Group>, out: seq<Message>,
                          kept: seq<int>, k: int)
    requires IsGrouping(req, groups) && Sub(validJson, req, groups, out, kept) && 0 <= k < |kept|
    requires RecentCount(req) >= 0
    ensures MessageReason(req.(messages := out), k) == MessageReason(req, kept[k])
  {
    assert Kin(out[k], req.messages[kept[k]]);
    ProtectionSame(validJson, req, groups, out, kept, k);
    if req.individually {
      ResultProtectionSame(validJson, req, groups, out, kept, out[k].toolCallID);
    }
  }

  lemma {:induction false} MembersReasonSame(validJson: string -> bool, req: Request, groups: seq<Group>,
                                             out: seq<Message>, kept: seq<int>, indices: seq<int>)
    requires IsGrouping(req, groups) && Sub(validJson, req, groups, out, kept)
    requires RecentCount(req) >= 0 && InRange(indices, |req.messages|) && AllKept(indices, kept)
    ensures InRange(Positions(kept, indices), |out|)
    ensures MembersReason(req.(messages := out), Positions(kept, indices)) == MembersReason(req, indices)
  {
    assert forall p :: 0 <= p < |indices| ==> indices[p] in kept;
    if indices != [] {
      var last := |indices| - 1;
      assert Positions(kept, indices)[..last] == Positions(kept, indices[..last]);
      MembersReasonSame(validJson, req, groups, out, kept, indices[..last]);
      MessageReasonSame(validJson, req, groups, out, kept, Position(kept, indices[last]));
    }
  }

  lemma HasToolResultSame(validJson: string -> bool, req: Request, groups: seq<Group>, out: seq<Message>,
                          kept: seq<int>, indices: seq<int>)
    requires Sub(validJson, req, groups, out, kept)
    requires InRange(indices, |req.messages|) && AllKept(indices, kept) && InRange(Positions(kept, indices), |out|)
    ensures HasToolResult(out, Positions(kept, indices)) <==> HasToolResult(req.messages, indices)
  {
    forall p | 0 <= p < |indices|
      ensures IsTool(out[Positions(kept, indices)[p]]) <==> IsTool(req.messages[indices[p]])
    {
      assert indices[p] in kept;
      assert Kin(out[Position(kept, indices[p])], req.messages[indices[p]]);
    }
  }

  // ----- the retained groups -----

  function Renumbered(kept: seq<int>, g: Group): Group {
    g.(indices := Positions(kept, g.indices))
  }

  /** The positions of the groups, among the first `h`, that were not dropped. */
  function RetainedAt(groups: seq<Group>, kept: seq<int>, h: nat): (at: seq<int>)
    requires h <= |groups|
    ensures InRange(at, h)
  {
    if h == 0 then []
    else
      var g := groups[h - 1];
      if g.indices != [] && g.indices[0] in kept then RetainedAt(groups, kept, h - 1) + [h - 1]
      else RetainedAt(groups, kept, h - 1)
  }

  lemma {:induction false} RetainedAtAscends(groups: seq<Group>, kept: seq<int>, h: nat)
    requires h <= |groups|
    ensures Ascending(RetainedAt(groups, kept, h))
    ensures forall g ::
      g in RetainedAt(groups, kept, h) <==> 0 <= g < h && groups[g].indices != [] && groups[g].indices[0] in kept
  {
    if h > 0 {
      RetainedAtAscends(groups, kept, h - 1);
      var front := RetainedAt(groups, kept, h - 1);
      assert forall g :: g in front + [h - 1] <==> g in front || g == h - 1;
    }
  }

  /** The groups that were not dropped, with the same ids, members, flags and reasons. */
  function Retained(groups: seq<Group>, kept: seq<int>): (retained: seq<Group>)
    ensures |retained| == |RetainedAt(groups, kept, |groups|)|
  {
    var at := RetainedAt(groups, kept, |groups|);
    seq(|at|, a requires 0 <= a < |at| => Renumbered(kept, groups[at[a]]))
  }

  lemma RenumberedOk(validJson: string -> bool, req: Request, groups: seq<Group>, out: seq<Message>, kept: seq<int>,
                     g: nat)
    requires IsGrouping(req, groups) && Sub(validJson, req, groups, out, kept)
    requires RecentCount(req) >= 0 && g < |groups| && groups[g].indices[0] in kept
    ensures GroupOk(req.(messages := out), Renumbered(kept, groups[g]))
    ensures AllKept(groups[g].indices, kept)
  {
    assert GroupOk(req, groups[g]);
    var indices := groups[g].indices;
    assert indices[0] in indices;
    assert AllKept(indices, kept);
    MembersReasonSame(validJson, req, groups, out, kept, indices);
    HasToolResultSame(validJson, req, groups, out, kept, indices);
    var renamed := Positions(kept, indices);
    forall p, q | 0 <= p < q < |indices|
      ensures renamed[p] < renamed[q]
    {
      assert indices[p] in kept && indices[q] in kept;
      PositionsAscend(kept, indices[p], indices[q]);
    }
    assert Kin(out[renamed[0]], req.messages[indices[0]]);
  }

  lemma MemberBack(kept: seq<int>, indices: seq<int>, k: int)
    requires AllKept(indices, kept) && Ascending(kept) && 0 <= k < |kept|
    ensures k in Positions(kept, indices) <==> kept[k] in indices
  {
    if kept[k] in indices {
      var p :| 0 <= p < |indices| && indices[p] == kept[k];
      PositionOf(kept, k);
      assert Positions(kept, indices)[p] == k;
    }
    if k in Positions(kept, indices) {
      var p :| 0 <= p < |indices| && Positions(kept, indices)[p] == k;
      assert indices[p] in kept;
    }
  }

  lemma RetainedCovers(validJson: string -> bool, req: Request, groups: seq<Group>, out: seq<Message>, kept: seq<int>,
                       k: int)
    requires IsGrouping(req, groups) && Sub(validJson, req, groups, out, kept)
    requires RecentCount(req) >= 0 && 0 <= k < |out|
    ensures Covered(Retained(groups, kept), k)
  {
    var g := GroupWith(req, groups, kept[k]);
    assert GroupOk(req, groups[g]) && kept[k] in kept;
    assert AllKept(groups[g].indices, kept) && groups[g].indices[0] in groups[g].indices;
    RetainedAtAscends(groups, kept, |groups|);
    var at := RetainedAt(groups, kept, |groups|);
    assert g in at;
    var a :| 0 <= a < |at| && at[a] == g;
    MemberBack(kept, groups[g].indices, k);
    assert k in Retained(groups, kept)[a].indices;
  }

  lemma RetainedSeparate(validJson: string -> bool, req: Request, groups: seq<Group>, out: seq<Message>, kept: seq<int>,
                         a: nat, b: nat, k: int, l: int)
    requires IsGrouping(req, groups) && Sub(validJson, req, groups, out, kept) && RecentCount(req) >= 0
    requires a < |Retained(groups, kept)| && b < |Retained(groups, kept)|
    requires k in Retained(groups, kept)[a].indices && l in Retained(groups, kept)[b].indices
    ensures a == b <==> Together(req.(messages := out), k, l)
  {
    var at := RetainedAt(groups, kept, |groups|);
    RetainedAtAscends(groups, kept, |groups|);
    assert at[a] in at && at[b] in at;
    RenumberedOk(validJson, req, groups, out, kept, at[a]);
    RenumberedOk(validJson, req, groups, out, kept, at[b]);
    var ga, gb := groups[at[a]].indices, groups[at[b]].indices;
    assert GroupOk(req.(messages := out), Renumbered(kept, groups[at[a]]))
      && GroupOk(req.(messages := out), Renumbered(kept, groups[at[b]]));
    assert k in Positions(kept, ga) && l in Positions(kept, gb);
    assert 0 <= k < |kept| && 0 <= l < |kept|;
    MemberBack(kept, ga, k);
    MemberBack(kept, gb, l);
    TogetherSame(validJson, req, groups, out, kept, k, l);
    assert at[a] == at[b] <==> Together(req, kept[k], kept[l]);
  }

  lemma RetainedOk(validJson: string -> bool, req: Request, groups: seq<Group>, out: seq<Message>, kept: seq<int>,
                   a: nat)
    requires IsGrouping(req, groups) && Sub(validJson, req, groups, out, kept) && RecentCount(req) >= 0
    requires a < |Retained(groups, kept)|
    ensures GroupOk(req.(messages := out), Retained(groups, kept)[a])
  {
    var at := RetainedAt(groups, kept, |groups|);
    RetainedAtAscends(groups, kept, |groups|);
    assert at[a] in at;
    RenumberedOk(validJson, req, groups, out, kept, at[a]);
  }

  lemma RetainedFirsts(groups: seq<Group>, kept: seq<int>)
    requires Ascending(kept)
    requires forall g :: 0 <= g < |groups| ==> groups[g].indices != []
    requires FirstsAscend(groups)
    ensures forall a :: 0 <= a < |Retained(groups, kept)| ==> Retained(groups, kept)[a].indices != []
    ensures FirstsAscend(Retained(groups, kept))
  {
    var at, retained := RetainedAt(groups, kept, |groups|), Retained(groups, kept);
    RetainedAtAscends(groups, kept, |groups|);
    forall a, b | 0 <= a < b < |retained|
      ensures retained[a].indices[0] < retained[b].indices[0]
    {
      assert at[a] in at && at[b] in at;
      PositionsAscend(kept, groups[at[a]].indices[0], groups[at[b]].indices[0]);
    }
  }

  /** The retained groups are the grouping of the output. */
  lemma RetainedIsGrouping(validJson: string -> bool, req: Request, groups: seq<Group>, out: seq<Message>,
                           kept: seq<int>)
    requires IsGrouping(req, groups) && Sub(validJson, req, groups, out, kept) && RecentCount(req) >= 0
    ensures IsGrouping(req.(messages := out), Retained(groups, kept))
  {
    var retained, req' := Retained(groups, kept), req.(messages := out);
    RetainedFirsts(groups, kept);
    forall a | 0 <= a < |retained|
      ensures GroupOk(req', retained[a])
    {
      RetainedOk(validJson, req, groups, out, kept, a);
    }
    forall k | 0 <= k < |out|
      ensures Covered(retained, k)
    {
      RetainedCovers(validJson, req, groups, out, kept, k);
    }
    forall a, b, k, l | 0 <= a < |retained| && 0 <= b < |retained|
      && k in retained[a].indices && l in retained[b].indices
      ensures a == b <==> Together(req', k, l)
    {
      RetainedSeparate(validJson, req, groups, out, kept, a, b, k, l);
    }
  }

  // ----- the output is accepted -----

  lemma CalledShrinks(validJson: string -> bool, req: Request, groups: seq<Group>, out: seq<Message>, kept: seq<int>,
                      k: int)
    requires Sub(validJson, req, groups, out, kept) && 0 <= k < |kept|
    ensures Called(out[..k]) <= Called(req.messages[..kept[k]])
  {
    forall id | id in Called(out[..k])
      ensures id in Called(req.messages[..kept[k]])
    {
      var m :| m in out[..k] && id in CallIds(m.toolCalls);
      var l :| 0 <= l < k && out[l] == m;
      assert Kin(out[l], req.messages[kept[l]]);
      KinCalls(out[l].toolCalls, req.messages[kept[l]].toolCalls);
      assert req.messages[..kept[k]][kept[l]] in req.messages[..kept[k]];
    }
  }

  lemma CallsStayFresh(validJson: string -> bool, a: seq<ToolCall>, b: seq<ToolCall>, takenA: set<string>,
                       takenB: set<string>)
    requires SameCalls(a, b) && FreshCalls(validJson, b, takenB) && takenA <= takenB
    requires forall c :: c in a ==> validJson(c.arguments) && ValidUtf8(c.arguments)
    ensures FreshCalls(validJson, a, takenA)
  {
    forall k | 0 <= k < |a|
      ensures FreshCall(validJson, a, k, takenA)
    {
      assert FreshCall(validJson, b, k, takenB) && SameCall(a[k], b[k]) && a[k] in a;
      forall j | 0 <= j < k
        ensures SameCall(a[..k][j], b[..k][j])
      {
        assert SameCall(a[j], b[j]);
      }
      KinCalls(a[..k], b[..k]);
    }
  }

  lemma FitsAgain(validJson: string -> bool, req: Request, groups: seq<Group>, out: seq<Message>, kept: seq<int>,
                  k: int)
    requires Sub(validJson, req, groups, out, kept) && 0 <= k < |kept|
    requires AllFit(validJson, req.messages, |req.messages|)
    ensures MessageFits(validJson, out, k)
  {
    var i := kept[k];
    assert MessageFits(validJson, req.messages, i) && Kin(out[k], req.messages[i]) && ValidContent(validJson, out[k]);
    forall l | 0 <= l < k
      ensures out[l].id != out[k].id
      ensures out[k].toolCallID != "" ==> out[l].toolCallID != out[k].toolCallID
    {
      assert Kin(out[l], req.messages[kept[l]]) && kept[l] < i;
    }
    CalledShrinks(validJson, req, groups, out, kept, k);
    CallsStayFresh(validJson, out[k].toolCalls, req.messages[i].toolCalls, Called(out[..k]), Called(req.messages[..i]));
  }

  lemma ResolvesAgain(validJson: string -> bool, req: Request, groups: seq<Group>, out: seq<Message>, kept: seq<int>,
                      k: int)
    requires IsGrouping(req, groups) && Sub(validJson, req, groups, out, kept) && 0 <= k < |kept|
    requires DependenciesResolve(req.messages, kept[k])
    ensures DependenciesResolve(out, k)
  {
    assert Kin(out[k], req.messages[kept[k]]);
    forall d | d in out[k].dependsOn
      ensures exists l :: 0 <= l < |out| && out[l].id == d
    {
      var j :| 0 <= j < |req.messages| && req.messages[j].id == d;
      EdgeStays(validJson, req, groups, out, kept, kept[k], j);
      var l := Position(kept, j);
      assert Kin(out[l], req.messages[kept[l]]);
      assert out[l].id == d;
    }
  }

  lemma FollowsAgain(validJson: string -> bool, req: Request, groups: seq<Group>, out: seq<Message>, kept: seq<int>,
                     k: int)
    requires IsGrouping(req, groups) && Sub(validJson, req, groups, out, kept) && 0 <= k < |kept|
    requires FollowsCall(req.messages, kept[k])
    ensures FollowsCall(out, k)
  {
    assert Kin(out[k], req.messages[kept[k]]);
    var id := out[k].toolCallID;
    if id != "" {
      var j :| 0 <= j < kept[k] && HasCall(req.messages[j], id);
      if req.individually {
        EverythingIsKept(validJson, req, groups, out, kept, j);
      } else {
        EdgeStays(validJson, req, groups, out, kept, j, kept[k]);
      }
      var l := Position(kept, j);
      PositionsAscend(kept, j, kept[k]);
      PositionOf(kept, k);
      assert Kin(out[l], req.messages[kept[l]]);
      KinCalls(out[l].toolCalls, req.messages[kept[l]].toolCalls);
      assert HasCall(out[l], id);
    }
  }

  /** A retained part of an accepted transcript is accepted under the same settings. */
  lemma AcceptedAgain(validJson: string -> bool, req: Request, groups: seq<Group>, out: seq<Message>, kept: seq<int>)
    requires Accepts(validJson, req) && IsGrouping(req, groups) && Sub(validJson, req, groups, out, kept)
    requires out != []
    ensures Accepts(validJson, req.(messages := out))
  {
    AscendingGap(kept, |req.messages|, 0);
    forall k | 0 <= k < |out|
      ensures MessageFits(validJson, out, k) && DependenciesResolve(out, k) && FollowsCall(out, k)
    {
      FitsAgain(validJson, req, groups, out, kept, k);
      ResolvesAgain(validJson, req, groups, out, kept, k);
      FollowsAgain(validJson, req, groups, out, kept, k);
    }
  }
}
