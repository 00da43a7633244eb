/** Which messages belong together and which groups may be reduced, in terms of the messages alone. */
module Openness {
  import opened Transcript
  import opened UnionFind
  import opened Groups
  import opened Preservation

  // ----- what belongs together -----

  /** Nodes that a declaration ties to each other have one colour. */
  ghost predicate KeepsTies(req: Request, colour: seq<int>)
    requires |colour| == |req.messages|
  {
    forall i, j :: 0 <= i < |colour| && 0 <= j < |colour| ==>
      var a, b := req.messages[i], req.messages[j];
      && (b.id in a.dependsOn ==> colour[i] == colour[j])
      && (a.group == b.group && b.group != "" ==> colour[i] == colour[j])
      && (!req.individually && Calls(a, b.toolCallID) && b.toolCallID != "" ==> colour[i] == colour[j])
  }

  ghost predicate Calls(m: Message, id: string) {
    exists k :: 0 <= k < |m.toolCalls| && m.toolCalls[k].id == id
  }

  lemma CallsIsHasCall(m: Message, id: string)
    ensures Calls(m, id) <==> HasCall(m, id)
  {
    if HasCall(m, id) {
      var c :| c in m.toolCalls && c.id == id;
      var k :| 0 <= k < |m.toolCalls| && m.toolCalls[k] == c;
    }
    if Calls(m, id) {
      var k :| 0 <= k < |m.toolCalls| && m.toolCalls[k].id == id;
      assert m.toolCalls[k] in m.toolCalls;
    }
  }

  lemma TiesAreEdges(req: Request, colour: seq<int>)
    requires |colour| == |req.messages|
    ensures KeepsTies(req, colour) <==> Respects(colour, Edges(req))
  {
    forall i, j | 0 <= i < |colour| && 0 <= j < |colour|
      ensures Calls(req.messages[i], req.messages[j].toolCallID)
        <==> HasCall(req.messages[i], req.messages[j].toolCallID)
      ensures Edge(req, i, j) <==> (i, j) in Edges(req)
    {
      CallsIsHasCall(req.messages[i], req.messages[j].toolCallID);
    }
    if Respects(colour, Edges(req)) {
      forall i, j | 0 <= i < |colour| && 0 <= j < |colour| && Edge(req, i, j)
        ensures colour[i] == colour[j]
      {
        assert (i, j) in Edges(req);
      }
    }
  }

  /**
   Two messages belong together exactly when no colouring that keeps declared dependencies,
   shared labels and, by default, calls with their results can tell them apart.
   */
  lemma TogetherIsTied(req: Request, i: int, j: int)
    requires 0 <= i < |req.messages| && 0 <= j < |req.messages|
    ensures Together(req, i, j)
      <==> forall colour :: |colour| == |req.messages| && KeepsTies(req, colour) ==> colour[i] == colour[j]
  {
    forall colour | |colour| == |req.messages|
      ensures KeepsTies(req, colour) <==> Respects(colour, Edges(req))
    {
      TiesAreEdges(req, colour);
    }
  }

  /** In the result-only mode a message without declared links is a group of its own. */
  lemma UnlinkedStandsAlone(req: Request, i: int, j: int)
    requires req.individually && Together(req, i, j)
    requires req.messages[i].group == "" && req.messages[i].dependsOn == []
    requires forall k :: 0 <= k < |req.messages| ==> req.messages[i].id !in req.messages[k].dependsOn
    ensures i == j
  {
    var colour := seq(|req.messages|, k => if k == i then 1 else 0);
    assert KeepsTies(req, colour);
    TogetherIsTied(req, i, j);
  }

  // ----- which groups are open -----

  lemma {:induction false} CallReasonFree(calls: seq<ToolCall>, answered: set<string>)
    requires forall c :: c in calls ==> !c.sideEffect && c.id in answered
    ensures CallReason(calls, answered) == ""
  {
    if calls != [] {
      assert calls[0] in calls;
      CallReasonFree(calls[1..], answered);
    }
  }

  lemma UnremarkableIsFree(req: Request, i: int)
    requires 0 <= i < |req.messages| && Unremarkable(req, i)
    ensures Protection(req.messages[i], IsRecent(req, i), Answered(req.messages)) == ""
  {
    forall c | c in req.messages[i].toolCalls
      ensures c.id in Answered(req.messages)
    {
      AnsweredHasResult(req, c);
    }
    CallReasonFree(req.messages[i].toolCalls, Answered(req.messages));
  }

  /** Call ids are unique in an accepted request, so a result has one caller. */
  lemma OneCaller(validJson: string -> bool, req: Request, j: int, k: int, l: int, m: int)
    requires Accepts(validJson, req)
    requires 0 <= j < |req.messages| && 0 <= k < |req.messages[j].toolCalls|
    requires 0 <= l < |req.messages| && 0 <= m < |req.messages[l].toolCalls|
    requires req.messages[j].toolCalls[k].id == req.messages[l].toolCalls[m].id
    ensures j == l && k == m
  {
    if j < l {
      NoReuse(validJson, req, j, k, l, m);
    } else if l < j {
      NoReuse(validJson, req, l, m, j, k);
    } else if k < m {
      NoRepeat(validJson, req, j, k, m);
    } else if m < k {
      NoRepeat(validJson, req, j, m, k);
    }
  }

  lemma NoReuse(validJson: string -> bool, req: Request, j: int, k: int, l: int, m: int)
    requires Accepts(validJson, req)
    requires 0 <= j < l < |req.messages|
    requires 0 <= k < |req.messages[j].toolCalls| && 0 <= m < |req.messages[l].toolCalls|
    ensures req.messages[j].toolCalls[k].id != req.messages[l].toolCalls[m].id
  {
    var early := req.messages[..l];
    assert MessageFits(validJson, req.messages, l);
    assert FreshCall(validJson, req.messages[l].toolCalls, m, Called(early));
    assert early[j] in early && early[j].toolCalls[k] in early[j].toolCalls;
    assert early[j].toolCalls[k].id in CallIds(early[j].toolCalls);
  }

  lemma NoRepeat(validJson: string -> bool, req: Request, j: int, k: int, m: int)
    requires Accepts(validJson, req)
    requires 0 <= j < |req.messages| && 0 <= k < m < |req.messages[j].toolCalls|
    ensures req.messages[j].toolCalls[k].id != req.messages[j].toolCalls[m].id
  {
    var calls := req.messages[j].toolCalls;
    assert MessageFits(validJson, req.messages, j);
    assert FreshCall(validJson, calls, m, Called(req.messages[..j]));
    assert calls[..m][k] in calls[..m];
  }

  lemma CallerIsThis(validJson: string -> bool, req: Request, i: int, j: int, k: int)
    requires Accepts(validJson, req) && 0 <= i < |req.messages|
    requires 0 <= j < |req.messages| && 0 <= k < |req.messages[j].toolCalls|
    requires req.messages[j].toolCalls[k].id == req.messages[i].toolCallID
    ensures CallerOf(req.messages, req.messages[i].toolCallID) == j
    ensures FirstCall(req.messages[j].toolCalls, req.messages[i].toolCallID) == [req.messages[j].toolCalls[k]]
  {
    var id := req.messages[i].toolCallID;
    CallsIsHasCall(req.messages[j], id);
    CallerHasCall(req.messages, id, j);
    var at := CallerOf(req.messages, id);
    CallsIsHasCall(req.messages[at], id);
    var m :| 0 <= m < |req.messages[at].toolCalls| && req.messages[at].toolCalls[m].id == id;
    OneCaller(validJson, req, j, k, at, m);
    var calls := req.messages[j].toolCalls;
    FirstCallFound(calls, id);
    var l :| 0 <= l < |calls| && calls[l] == FirstCall(calls, id)[0];
    OneCaller(validJson, req, j, k, j, l);
  }

  lemma FreeCallIsFree(validJson: string -> bool, req: Request, i: int)
    requires Accepts(validJson, req) && 0 <= i < |req.messages|
    requires req.messages[i].toolCallID != "" && CallerIsFree(req, i)
    ensures var id := req.messages[i].toolCallID;
      ResultProtection(req, CallerOf(req.messages, id), id, Answered(req.messages), Depended(req.messages)) == ""
  {
    var j, k :| FreeCall(req, i, j, k);
    CallerIsThis(validJson, req, i, j, k);
    DependedIsNamed(req, req.messages[j].id);
    var c := req.messages[j].toolCalls[k];
    assert HasResult(req, c);
    AnsweredHasResult(req, c);
    CallReasonFree([c], Answered(req.messages));
  }

  /** What makes one message no obstacle to reducing its group. */
  ghost predicate NoObstacle(req: Request, i: int)
    requires 0 <= i < |req.messages|
  {
    Unremarkable(req, i) && (req.individually && req.messages[i].role == "tool" ==> CallerIsFree(req, i))
  }

  lemma NoObstacleNoReason(validJson: string -> bool, req: Request, i: int)
    requires Accepts(validJson, req) && 0 <= i < |req.messages| && NoObstacle(req, i)
    ensures MessageReason(req, i) == ""
  {
    UnremarkableIsFree(req, i);
    assert MessageFits(validJson, req.messages, i);
    if req.individually && IsTool(req.messages[i]) {
      FreeCallIsFree(validJson, req, i);
    }
  }

  lemma {:induction false} NoMemberReason(validJson: string -> bool, req: Request, indices: seq<int>)
    requires Accepts(validJson, req) && InRange(indices, |req.messages|)
    requires forall p :: 0 <= p < |indices| ==> NoObstacle(req, indices[p])
    ensures MembersReason(req, indices) == ""
  {
    if indices != [] {
      NoObstacleNoReason(validJson, req, indices[|indices| - 1]);
      NoMemberReason(validJson, req, indices[..|indices| - 1]);
    }
  }

  /**
   A group may be reduced exactly when it holds a tool result, none of its members is
   pinned, unresolved, late, an instruction, or makes a call that is pending or has a side
   effect, and in the result-only mode its results answer free calls.
   */
  lemma OpenExactly(validJson: string -> bool, req: Request, groups: seq<Group>, g: int)
    requires Accepts(validJson, req) && IsGrouping(req, groups) && 0 <= g < |groups|
    requires InRange(groups[g].indices, |req.messages|)
    ensures !groups[g].protected <==>
      && (exists p :: 0 <= p < |groups[g].indices| && req.messages[groups[g].indices[p]].role == "tool")
      && (forall p :: 0 <= p < |groups[g].indices| ==> NoObstacle(req, groups[g].indices[p]))
  {
    var indices := groups[g].indices;
    assert GroupOk(req, groups[g]);
    if !groups[g].protected {
      forall p | 0 <= p < |indices|
        ensures NoObstacle(req, indices[p])
      {
        OpenIsUnremarkable(req, groups[g], p);
        assert MessageFits(validJson, req.messages, indices[p]) && FollowsCall(req.messages, indices[p]);
        if req.individually && req.messages[indices[p]].role == "tool" {
          ReducedResultIsFree(req, groups[g], p);
        }
      }
      OpenIsUnremarkable(req, groups[g], 0);
    } else if forall p :: 0 <= p < |indices| ==> NoObstacle(req, indices[p]) {
      NoMemberReason(validJson, req, indices);
    }
  }

  // ----- the reason that is given -----

  /** The reason names something that is true of the message. */
  ghost predicate Cause(req: Request, i: int, reason: string)
    requires 0 <= i < |req.messages|
  {
    var m := req.messages[i];
    match reason
    case "explicitly pinned" => m.pinned
    case "unresolved work" => m.unresolved
    case "instruction or user message" => m.role == "system" || m.role == "developer" || m.role == "user"
    case "recent message" => Late(req, i)
    case "side effect" => exists c :: c in m.toolCalls && c.sideEffect
    case "pending tool call" => exists c :: c in m.toolCalls && !HasResult(req, c)
    case _ => false
  }

  /** The call of result `i` is tied to other messages by a declaration. */
  ghost predicate CallIsTied(req: Request, i: int)
    requires 0 <= i < |req.messages|
  {
    exists j :: 0 <= j < |req.messages| && Calls(req.messages[j], req.messages[i].toolCallID)
      && (req.messages[j].group != "" || req.messages[j].dependsOn != [] || !NotDependedOn(req, req.messages[j].id))
  }

  /** The caller of result `i` has a cause for protection. */
  ghost predicate CallerCause(req: Request, i: int, reason: string)
    requires 0 <= i < |req.messages|
  {
    exists j :: 0 <= j < |req.messages| && Calls(req.messages[j], req.messages[i].toolCallID) && Cause(req, j, reason)
  }

  lemma {:induction false} CallReasonIsCause(calls: seq<ToolCall>, answered: set<string>)
    ensures var reason := CallReason(calls, answered);
      || reason == ""
      || (reason == "side effect" && exists c :: c in calls && c.sideEffect)
      || (reason == "pending tool call" && exists c :: c in calls && c.id !in answered)
  {
    if calls != [] {
      assert calls[0] in calls;
      CallReasonIsCause(calls[1..], answered);
    }
  }

  lemma ProtectionIsCause(req: Request, i: int, m: Message)
    requires 0 <= i < |req.messages|
    requires m == req.messages[i].(toolCalls := m.toolCalls)
    requires forall c :: c in m.toolCalls ==> c in req.messages[i].toolCalls
    ensures var reason := Protection(m, IsRecent(req, i), Answered(req.messages));
      reason == "" || Cause(req, i, reason)
  {
    CallReasonIsCause(m.toolCalls, Answered(req.messages));
    forall c | c in m.toolCalls
      ensures c.id in Answered(req.messages) <==> HasResult(req, c)
    {
      AnsweredHasResult(req, c);
    }
  }

  lemma ResultReasonIsCause(req: Request, i: int)
    requires 0 <= i < |req.messages| && FollowsCall(req.messages, i) && req.messages[i].toolCallID != ""
    ensures var id, answered := req.messages[i].toolCallID, Answered(req.messages);
      var reason := ResultProtection(req, CallerOf(req.messages, id), id, answered, Depended(req.messages));
      || reason == "" || CallerCause(req, i, reason)
      || (reason == "explicit call dependency" && CallIsTied(req, i))
  {
    var id := req.messages[i].toolCallID;
    var first :| 0 <= first < i && HasCall(req.messages[first], id);
    CallerHasCall(req.messages, id, first);
    var j := CallerOf(req.messages, id);
    CallsIsHasCall(req.messages[j], id);
    var calls := req.messages[j].toolCalls;
    FirstCallFound(calls, id);
    DependedIsNamed(req, req.messages[j].id);
    ProtectionIsCause(req, j, req.messages[j].(toolCalls := FirstCall(calls, id)));
  }

  /** The reason of one message, its own or that of the call it answers. */
  ghost predicate Explains(req: Request, i: int, reason: string)
    requires 0 <= i < |req.messages|
  {
    || Cause(req, i, reason)
    || (req.individually && req.messages[i].role == "tool"
        && (CallerCause(req, i, reason) || (reason == "explicit call dependency" && CallIsTied(req, i))))
  }

  lemma MessageReasonExplains(validJson: string -> bool, req: Request, i: int)
    requires Accepts(validJson, req) && 0 <= i < |req.messages| && MessageReason(req, i) != ""
    ensures Explains(req, i, MessageReason(req, i))
  {
    ProtectionIsCause(req, i, req.messages[i]);
    assert MessageFits(validJson, req.messages, i) && FollowsCall(req.messages, i);
    if req.messages[i].toolCallID != "" {
      ResultReasonIsCause(req, i);
    }
  }

  /** The last member with an obstacle gives the reason. */
  lemma {:induction false} ReasonOfMember(req: Request, indices: seq<int>) returns (p: int)
    requires InRange(indices, |req.messages|) && MembersReason(req, indices) != ""
    ensures 0 <= p < |indices| && MessageReason(req, indices[p]) == MembersReason(req, indices)
  {
    var last := |indices| - 1;
    if MessageReason(req, indices[last]) != "" {
      p := last;
    } else {
      p := ReasonOfMember(req, indices[..last]);
    }
  }

  /**
   The reason given for a protected group is true: it is that of a member, or, when no
   member has an obstacle, that the group is conversation without a tool result.
   */
  lemma ReasonIsTrue(validJson: string -> bool, req: Request, groups: seq<Group>, g: int)
    requires Accepts(validJson, req) && IsGrouping(req, groups) && 0 <= g < |groups| && groups[g].protected
    requires InRange(groups[g].indices, |req.messages|)
    ensures
      || (exists p :: 0 <= p < |groups[g].indices| && Explains(req, groups[g].indices[p], groups[g].reason))
      || (groups[g].reason == "conversation text preserved"
          && forall p :: 0 <= p < |groups[g].indices| ==> req.messages[groups[g].indices[p]].role != "tool")
  {
    var indices := groups[g].indices;
    assert GroupOk(req, groups[g]);
    if MembersReason(req, indices) != "" {
      var p := ReasonOfMember(req, indices);
      MessageReasonExplains(validJson, req, indices[p]);
    }
  }
}
