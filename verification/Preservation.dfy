/** What `Compact` keeps of the transcript, in every outcome. */
module Preservation {
  import opened Text
  import opened Transcript
  import opened Groups
  import opened Partitions
  import opened Scores
  import opened Representations
  import opened Greedy
  import opened Assembly
  import opened Evaluations
  import opened Selection
  import opened Engine
  import opened Guarantees

  const REDUCTIONS: set<string> := {"extract", "brief", "reference"}

  /** `i` is a member of a group that is not protected. */
  ghost predicate OpenMember(groups: seq<Group>, i: int) {
    exists g :: 0 <= g < |groups| && !groups[g].protected && i in groups[g].indices
  }

  /** Message `i` came through as `m`: unchanged, or with the text of an open tool result reduced. */
  ghost predicate Survives(env: Env, req: Request, groups: seq<Group>, snapshot: string, i: int, m: Message)
    requires 0 <= i < |req.messages|
  {
    || m == req.messages[i]
    || (IsTool(req.messages[i]) && OpenMember(groups, i)
        && exists a :: a in REDUCTIONS && m == ReducedMessage(env, req.messages[i], a, req.goal, snapshot))
  }

  /** All members of the group are kept, or the whole group was droppable and is gone. */
  ghost predicate WholeOrGone(req: Request, g: Group, kept: seq<int>)
    requires InRange(g.indices, |req.messages|)
  {
    || (forall i :: i in g.indices ==> i in kept)
    || (!g.protected && !req.individually && !ContainsAssistantText(GroupMessages(req.messages, g.indices))
        && forall i :: i in g.indices ==> i !in kept)
  }

  /**
   `out` holds the messages at `kept`, in the original order and under their ids; only
   whole unprotected groups are missing, and only texts of open tool results differ.
   */
  ghost predicate Retains(env: Env, req: Request, groups: seq<Group>, snapshot: string, out: seq<Message>,
                          kept: seq<int>)
  {
    && |out| == |kept| && Ascending(kept) && InRange(kept, |req.messages|)
    && (forall k :: 0 <= k < |kept| ==> Survives(env, req, groups, snapshot, kept[k], out[k]))
    && (forall g :: 0 <= g < |groups| ==>
          InRange(groups[g].indices, |req.messages|) && WholeOrGone(req, groups[g], kept))
  }

  // ----- from the picked slots to the kept positions -----

  function KeptIndices(picked: seq<Option<Message>>): seq<int> {
    if picked == [] then []
    else
      var front := KeptIndices(picked[..|picked| - 1]);
      if picked[|picked| - 1].Some? then front + [|picked| - 1] else front
  }

  lemma {:induction false} PresentIndices(picked: seq<Option<Message>>)
    ensures var kept := KeptIndices(picked);
      && |kept| == |Present(picked)| && Ascending(kept)
      && forall k :: 0 <= k < |kept| ==> 0 <= kept[k] < |picked| && picked[kept[k]] == Some(Present(picked)[k])
  {
    if picked != [] {
      PresentIndices(picked[..|picked| - 1]);
    }
  }

  lemma {:induction false} KeptIsPresent(picked: seq<Option<Message>>, i: int)
    ensures i in KeptIndices(picked) <==> 0 <= i < |picked| && picked[i].Some?
  {
    if picked != [] {
      KeptIsPresent(picked[..|picked| - 1], i);
    }
  }

  lemma SlotSurvives(env: Env, req: Request, groups: seq<Group>, snapshot: string, scores: map<string, Score>,
                     c: Choice, g: nat, p: nat)
    requires AllInRange(groups, |req.messages|) && g < |groups| && p < |groups[g].indices|
    requires Legal(BoardFor(env, req, groups, snapshot, scores), g, c)
    requires c.messages != []
    ensures |c.messages| == |groups[g].indices|
    ensures Survives(env, req, groups, snapshot, groups[g].indices[p], c.messages[p])
  {
    var i := groups[g].indices[p];
    LegalReplaces(env, req, groups, snapshot, scores, g, c);
    LegalIsHonest(env, req, groups, snapshot, scores, g, c);
    if c != KeepChoice(env, req.messages, groups[g]) {
      assert c.messages == Represent(env, GroupMessages(req.messages, groups[g].indices), c.action, req.goal, snapshot);
      assert c.messages[p] == ReducedMessage(env, req.messages[i], c.action, req.goal, snapshot);
      assert i in groups[g].indices;
    }
  }

  lemma DroppedIsDroppable(env: Env, req: Request, groups: seq<Group>, snapshot: string, scores: map<string, Score>,
                           c: Choice, g: nat)
    requires AllInRange(groups, |req.messages|) && g < |groups| && groups[g].indices != []
    requires Legal(BoardFor(env, req, groups, snapshot, scores), g, c)
    requires c.messages == []
    ensures !groups[g].protected && !req.individually
    ensures !ContainsAssistantText(GroupMessages(req.messages, groups[g].indices))
  {
    LegalIsHonest(env, req, groups, snapshot, scores, g, c);
  }

  lemma PickedRetains(env: Env, req: Request, groups: seq<Group>, snapshot: string, scores: map<string, Score>,
                      sel: seq<Choice>, picked: seq<Option<Message>>)
    requires Laid(req.messages, groups) && AllInRange(groups, |req.messages|)
    requires AllLegal(BoardFor(env, req, groups, snapshot, scores), sel)
    requires Spliced(groups, sel, picked) && |picked| == |req.messages|
    ensures Retains(env, req, groups, snapshot, Present(picked), KeptIndices(picked))
  {
    var kept, out := KeptIndices(picked), Present(picked);
    PresentIndices(picked);
    forall k | 0 <= k < |kept|
      ensures Survives(env, req, groups, snapshot, kept[k], out[k])
    {
      var g, p := MemberAt(req.messages, groups, kept[k]);
      SlotSurvives(env, req, groups, snapshot, scores, sel[g], g, p);
    }
    forall g | 0 <= g < |groups|
      ensures WholeOrGone(req, groups[g], kept)
    {
      forall i
        ensures i in kept <==> 0 <= i < |picked| && picked[i].Some?
      {
        KeptIsPresent(picked, i);
      }
      GroupWholeOrGone(env, req, groups, snapshot, scores, sel, picked, g, kept);
    }
  }

  lemma MemberAt(messages: seq<Message>, groups: seq<Group>, i: int) returns (g: nat, p: nat)
    requires Laid(messages, groups) && 0 <= i < |messages|
    ensures g < |groups| && p < |groups[g].indices| && groups[g].indices[p] == i
  {
    assert InSome(IndexLists(groups), i);
    g :| 0 <= g < |groups| && i in IndexLists(groups)[g];
    p :| 0 <= p < |groups[g].indices| && groups[g].indices[p] == i;
  }

  lemma GroupWholeOrGone(env: Env, req: Request, groups: seq<Group>, snapshot: string, scores: map<string, Score>,
                         sel: seq<Choice>, picked: seq<Option<Message>>, g: nat, kept: seq<int>)
    requires AllInRange(groups, |req.messages|) && g < |groups| && groups[g].indices != []
    requires AllLegal(BoardFor(env, req, groups, snapshot, scores), sel)
    requires Spliced(groups, sel, picked)
    requires forall i :: i in kept <==> 0 <= i < |picked| && picked[i].Some?
    ensures WholeOrGone(req, groups[g], kept)
  {
    forall i | i in groups[g].indices
      ensures i in kept <==> sel[g].messages != []
    {
      var p :| 0 <= p < |groups[g].indices| && groups[g].indices[p] == i;
      assert picked[groups[g].indices[p]] == Slot(sel[g], p);
    }
    if sel[g].messages == [] {
      DroppedIsDroppable(env, req, groups, snapshot, scores, sel[g], g);
    }
  }

  function Everything(n: nat): (all: seq<int>)
    ensures |all| == n && forall k :: 0 <= k < n ==> all[k] == k
  {
    seq(n, k => k)
  }

  lemma NothingChanged(env: Env, req: Request, groups: seq<Group>, snapshot: string)
    requires AllInRange(groups, |req.messages|)
    ensures Retains(env, req, groups, snapshot, req.messages, Everything(|req.messages|))
  {
    var all := Everything(|req.messages|);
    forall g, i | 0 <= g < |groups| && i in groups[g].indices
      ensures i in all
    {
      assert InRange(groups[g].indices, |req.messages|);
      assert all[i] == i;
    }
  }

  lemma AppliedWasSelected(env: Env, req: Request, groups: seq<Group>, snapshot: string, scorer: Scorer,
                           sel: seq<Choice>, r: CompactResult) returns (scores: map<string, Score>)
    requires Accepts(env.validJson, req) && AllInRange(groups, |req.messages|)
    requires Outcome(env, req, groups, snapshot, scorer, sel, r) && r.applied
    ensures |sel| == |groups| && RanTo(env, Clone(env, req), groups, snapshot, scores, sel)
    ensures r.messages == Output(Clone(env, req).messages, sel)
  {
    scores := Scored(scorer, EvaluationOf(env, Clone(env, req), groups, snapshot)).value;
    assert Decided(env, Clone(env, req), groups, snapshot, scores, sel, r);
  }

  /** Preservation, in all five outcomes. */
  lemma ResultRetains(env: Env, req: Request, groups: seq<Group>, snapshot: string, scorer: Scorer,
                      sel: seq<Choice>, r: CompactResult) returns (kept: seq<int>)
    requires Accepts(env.validJson, req) && IsGrouping(req, groups) && AllInRange(groups, |req.messages|)
    requires Outcome(env, req, groups, snapshot, scorer, sel, r)
    ensures Retains(env, Clone(env, req), groups, snapshot, r.messages, kept)
    ensures !r.applied ==> kept == Everything(|req.messages|)
  {
    if r.applied {
      GroupingLays(env, req, groups);
      var scores := AppliedWasSelected(env, req, groups, snapshot, scorer, sel, r);
      kept := SelectionRetains(env, Clone(env, req), groups, snapshot, scores, sel);
    } else {
      BudgetIsTold(env, req, groups, snapshot, scorer, sel, r);
      NothingChanged(env, Clone(env, req), groups, snapshot);
      kept := Everything(|req.messages|);
    }
  }

  lemma SelectionRetains(env: Env, req: Request, groups: seq<Group>, snapshot: string, scores: map<string, Score>,
                         sel: seq<Choice>)
    returns (kept: seq<int>)
    requires Laid(req.messages, groups) && AllInRange(groups, |req.messages|) && |sel| == |groups|
    requires RanTo(env, req, groups, snapshot, scores, sel)
    ensures Retains(env, req, groups, snapshot, Output(req.messages, sel), kept)
  {
    RanToIsLegal(env, req, groups, snapshot, scores, sel);
    LegalAssembles(env, req, groups, snapshot, scores, sel);
    PickedIsSpliced(req.messages, groups, sel);
    var picked := Picked(req.messages, ByGroups(sel, |sel|));
    PickedRetains(env, req, groups, snapshot, scores, sel, picked);
    kept := KeptIndices(picked);
  }

  // ----- which messages stay verbatim -----

  ghost predicate Verbatim(req: Request, out: seq<Message>, kept: seq<int>, i: int)
    requires |out| == |kept| && 0 <= i < |req.messages|
  {
    exists k :: 0 <= k < |kept| && kept[k] == i && out[k] == req.messages[i]
  }

  lemma ProtectedIsVerbatim(env: Env, req: Request, groups: seq<Group>, snapshot: string, out: seq<Message>,
                            kept: seq<int>, g: nat, i: int)
    requires Laid(req.messages, groups) && Retains(env, req, groups, snapshot, out, kept)
    requires g < |groups| && groups[g].protected && i in groups[g].indices
    ensures 0 <= i < |req.messages| && Verbatim(req, out, kept, i)
  {
    assert WholeOrGone(req, groups[g], kept) && InRange(groups[g].indices, |req.messages|);
    assert groups[g].indices[0] in groups[g].indices && i in kept;
    var k :| 0 <= k < |kept| && kept[k] == i;
    assert Survives(env, req, groups, snapshot, kept[k], out[k]);
    NotOpen(req.messages, groups, g, i);
  }

  lemma NotOpen(messages: seq<Message>, groups: seq<Group>, g: nat, i: int)
    requires Laid(messages, groups) && g < |groups| && groups[g].protected && i in groups[g].indices
    ensures !OpenMember(groups, i)
  {
    forall h | 0 <= h < |groups| && i in groups[h].indices
      ensures h == g
    {
      assert i in IndexLists(groups)[g] && i in IndexLists(groups)[h];
    }
  }

  /** Assistant messages with non-blank text stay, whatever their group. */
  lemma AssistantTextIsVerbatim(env: Env, req: Request, groups: seq<Group>, snapshot: string, out: seq<Message>,
                                kept: seq<int>, i: int)
    requires Laid(req.messages, groups) && Retains(env, req, groups, snapshot, out, kept)
    requires 0 <= i < |req.messages| && req.messages[i].role == "assistant" && !Blank(req.messages[i].text)
    ensures Verbatim(req, out, kept, i)
  {
    var g, p := MemberAt(req.messages, groups, i);
    assert WholeOrGone(req, groups[g], kept);
    assert GroupMessages(req.messages, groups[g].indices)[p] == req.messages[i];
    assert i in groups[g].indices && i in kept;
    var k :| 0 <= k < |kept| && kept[k] == i;
    assert Survives(env, req, groups, snapshot, kept[k], out[k]);
  }

  // ----- which groups are protected -----

  /** One of the last messages, by default of the last four. */
  ghost predicate Late(req: Request, i: int) {
    i >= |req.messages| - match req.recent case Some(n) => n case None => 4
  }

  /** Some message is the result of the call. */
  ghost predicate HasResult(req: Request, c: ToolCall) {
    exists i :: 0 <= i < |req.messages| && req.messages[i].toolCallID == c.id && c.id != ""
  }

  /** What an unprotected group cannot hold. */
  ghost predicate Unremarkable(req: Request, i: int)
    requires 0 <= i < |req.messages|
  {
    var m := req.messages[i];
    && !m.pinned && !m.unresolved && !Late(req, i)
    && m.role != "system" && m.role != "developer" && m.role != "user"
    && forall c :: c in m.toolCalls ==> !c.sideEffect && HasResult(req, c)
  }

  lemma AnsweredHasResult(req: Request, c: ToolCall)
    ensures c.id in Answered(req.messages) <==> HasResult(req, c)
  {
    if c.id in Answered(req.messages) {
      var m :| m in req.messages && m.toolCallID == c.id && m.toolCallID != "";
      var i :| 0 <= i < |req.messages| && req.messages[i] == m;
    }
    if HasResult(req, c) {
      var i :| 0 <= i < |req.messages| && req.messages[i].toolCallID == c.id && c.id != "";
      assert req.messages[i] in req.messages;
    }
  }

  /**
   Every member of an unprotected group is neither pinned nor unresolved nor recent nor an
   instruction, and its calls are answered and free of side effects.
   */
  lemma OpenIsUnremarkable(req: Request, g: Group, p: nat)
    requires GroupOk(req, g) && !g.protected && p < |g.indices|
    ensures Unremarkable(req, g.indices[p]) && HasToolResult(req.messages, g.indices)
  {
    MembersReasonEmpty(req, g.indices);
    assert MessageReason(req, g.indices[p]) == "";
    var calls := req.messages[g.indices[p]].toolCalls;
    CallReasonEmpty(calls, Answered(req.messages));
    forall c | c in calls
      ensures HasResult(req, c)
    {
      AnsweredHasResult(req, c);
    }
  }

  /**
   Pinned, unresolved and recent messages, instructions, and calls that are pending or have
   side effects come through unchanged, in every outcome.
   */
  lemma MarkedIsVerbatim(env: Env, req: Request, groups: seq<Group>, snapshot: string, out: seq<Message>,
                         kept: seq<int>, i: int)
    requires Accepts(env.validJson, req) && IsGrouping(req, groups)
    requires Retains(env, Clone(env, req), groups, snapshot, out, kept)
    requires 0 <= i < |req.messages| && !Unremarkable(req, i)
    ensures Verbatim(Clone(env, req), out, kept, i)
  {
    GroupingLays(env, req, groups);
    var g, p := MemberAt(Clone(env, req).messages, groups, i);
    assert GroupOk(req, groups[g]);
    if !groups[g].protected {
      OpenIsUnremarkable(req, groups[g], p);
    }
    assert i in groups[g].indices;
    ProtectedIsVerbatim(env, Clone(env, req), groups, snapshot, out, kept, g, i);
  }

  // ----- the result-only mode -----

  /** No message declares a dependency on this one. */
  ghost predicate NotDependedOn(req: Request, id: string) {
    forall k :: 0 <= k < |req.messages| ==> id !in req.messages[k].dependsOn
  }

  /** Result `i` answers call `k` of message `j`, which is neither protected nor linked by a declaration. */
  ghost predicate FreeCall(req: Request, i: int, j: int, k: int)
    requires 0 <= i < |req.messages|
  {
    && 0 <= j < |req.messages| && 0 <= k < |req.messages[j].toolCalls|
    && var parent := req.messages[j];
       && parent.toolCalls[k].id == req.messages[i].toolCallID && !parent.toolCalls[k].sideEffect
       && parent.group == "" && parent.dependsOn == [] && NotDependedOn(req, parent.id)
       && !parent.pinned && !parent.unresolved && !Late(req, j)
       && parent.role != "system" && parent.role != "developer" && parent.role != "user"
  }

  ghost predicate CallerIsFree(req: Request, i: int)
    requires 0 <= i < |req.messages|
  {
    exists j, k :: FreeCall(req, i, j, k)
  }

  lemma DependedIsNamed(req: Request, id: string)
    ensures id !in Depended(req.messages) <==> NotDependedOn(req, id)
  {
    if id in Depended(req.messages) {
      var m :| m in req.messages && id in m.dependsOn;
      var k :| 0 <= k < |req.messages| && req.messages[k] == m;
      assert id in req.messages[k].dependsOn;
    } else {
      forall k | 0 <= k < |req.messages|
        ensures id !in req.messages[k].dependsOn
      {
        assert req.messages[k] in req.messages;
      }
    }
  }

  lemma {:induction false} CallerHasCall(messages: seq<Message>, id: string, j: int)
    requires 0 <= j < |messages| && HasCall(messages[j], id)
    ensures HasCall(messages[CallerOf(messages, id)], id)
  {
    if !HasCall(messages[|messages| - 1], id) {
      CallerHasCall(messages[..|messages| - 1], id, j);
    }
  }

  lemma {:induction false} FirstCallFound(calls: seq<ToolCall>, id: string)
    requires id in CallIds(calls)
    ensures |FirstCall(calls, id)| == 1 && FirstCall(calls, id)[0] in calls && FirstCall(calls, id)[0].id == id
  {
    if calls[0].id != id {
      assert calls == [calls[0]] + calls[1..];
      FirstCallFound(calls[1..], id);
    }
  }

  lemma ReducedResultIsFree(req: Request, g: Group, p: nat)
    requires GroupOk(req, g) && !g.protected && p < |g.indices|
    requires req.individually && IsTool(req.messages[g.indices[p]])
    requires FollowsCall(req.messages, g.indices[p]) && req.messages[g.indices[p]].toolCallID != ""
    ensures CallerIsFree(req, g.indices[p])
  {
    var i := g.indices[p];
    var id := req.messages[i].toolCallID;
    var j :| 0 <= j < i && HasCall(req.messages[j], id);
    CallerHasCall(req.messages, id, j);
    var at := CallerOf(req.messages, id);
    var calls := req.messages[at].toolCalls;
    FirstCallFound(calls, id);
    MembersReasonEmpty(req, g.indices);
    assert MessageReason(req, i) == "";
    CallReasonEmpty(FirstCall(calls, id), Answered(req.messages));
    DependedIsNamed(req, req.messages[at].id);
    var k :| 0 <= k < |calls| && calls[k] == FirstCall(calls, id)[0];
    assert FreeCall(req, i, at, k);
  }

  lemma {:induction false} AscendingFull(kept: seq<int>, n: nat)
    requires Ascending(kept) && InRange(kept, n) && forall i :: 0 <= i < n ==> i in kept
    ensures kept == Everything(n)
  {
    forall x
      ensures x in kept <==> x in Everything(n)
    {
      if 0 <= x < n {
        assert Everything(n)[x] == x;
      }
    }
    AscendingUnique(kept, Everything(n));
  }

  /**
   Result-only mode: every message survives in its place, and a result whose text changed
   is itself unremarkable and answers a call that is free of side effects and of links.
   */
  lemma IndividualResults(env: Env, req: Request, groups: seq<Group>, snapshot: string, out: seq<Message>,
                          kept: seq<int>)
    requires Accepts(env.validJson, req) && IsGrouping(req, groups) && req.individually
    requires Retains(env, Clone(env, req), groups, snapshot, out, kept)
    ensures |out| == |req.messages|
    ensures forall i :: 0 <= i < |out| && out[i] != Clone(env, req).messages[i] ==>
      IsTool(req.messages[i]) && Unremarkable(req, i) && CallerIsFree(req, i)
      && exists a ::
           a in REDUCTIONS && out[i] == ReducedMessage(env, Clone(env, req).messages[i], a, req.goal, snapshot)
  {
    var clone := Clone(env, req);
    GroupingLays(env, req, groups);
    forall i | 0 <= i < |req.messages|
      ensures i in kept
    {
      var g, p := MemberAt(clone.messages, groups, i);
      assert WholeOrGone(clone, groups[g], kept);
    }
    AscendingFull(kept, |req.messages|);
    forall i | 0 <= i < |out| && out[i] != clone.messages[i]
      ensures IsTool(req.messages[i]) && Unremarkable(req, i) && CallerIsFree(req, i)
      ensures exists a :: a in REDUCTIONS && out[i] == ReducedMessage(env, clone.messages[i], a, req.goal, snapshot)
    {
      assert Survives(env, clone, groups, snapshot, kept[i], out[i]);
      var g :| 0 <= g < |groups| && !groups[g].protected && i in groups[g].indices;
      var p :| 0 <= p < |groups[g].indices| && groups[g].indices[p] == i;
      assert GroupOk(req, groups[g]) && MessageFits(env.validJson, req.messages, i);
      OpenIsUnremarkable(req, groups[g], p);
      ReducedResultIsFree(req, groups[g], p);
    }
  }
}
