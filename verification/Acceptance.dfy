/** Which requests are accepted, in one statement about the whole request. */
module Acceptance {
  import opened Text
  import opened Transcript
  import opened Groups
  import opened Openness

  /** The settings are within their limits. */
  ghost predicate SettingsFit(req: Request) {
    && !Blank(req.goal) && |req.goal| <= 16000 && ValidUtf8(req.goal) && req.target > 0
    && 0 < |req.messages| <= 10000
    && (req.recent == None || req.recent.value >= 0)
  }

  ghost predicate PlainID(id: string) {
    && id != "" && |id| <= 128
    && forall c :: c in id ==> 'a' <= c <= 'z' || 'A' <= c <= 'Z' || '0' <= c <= '9' || c in "-_."
  }

  /** One message is well formed by itself. */
  ghost predicate WellFormed(validJson: string -> bool, m: Message) {
    && PlainID(m.id) && m.role in {"system", "developer", "user", "assistant", "tool"}
    && ValidUtf8(m.text) && ValidUtf8(m.group) && ValidUtf8(m.toolCallID)
    && (m.role == "tool") == (m.toolCallID != "")
    && (m.role != "assistant" ==> m.toolCalls == [])
    && forall c :: c in m.toolCalls ==>
         && c.id != "" && c.name != "" && validJson(c.arguments)
         && ValidUtf8(c.id) && ValidUtf8(c.name) && ValidUtf8(c.arguments)
  }

  /** No message, result or call has the id of another one. */
  ghost predicate IdsDiffer(messages: seq<Message>) {
    && (forall i, j :: 0 <= i < j < |messages| ==> messages[i].id != messages[j].id)
    && (forall i, j :: 0 <= i < j < |messages| && messages[i].toolCallID == messages[j].toolCallID ==>
          messages[i].toolCallID == "")
    && CallsDiffer(messages)
  }

  ghost predicate CallsDiffer(messages: seq<Message>) {
    forall i, k, j, l ::
      && 0 <= i < |messages| && 0 <= k < |messages[i].toolCalls|
      && 0 <= j < |messages| && 0 <= l < |messages[j].toolCalls|
      && messages[i].toolCalls[k].id == messages[j].toolCalls[l].id
      ==> i == j && k == l
  }

  /** Dependencies name messages, and every result comes after its call. */
  ghost predicate RefersBack(messages: seq<Message>) {
    && (forall i, d :: 0 <= i < |messages| && d in messages[i].dependsOn ==>
          exists j :: 0 <= j < |messages| && messages[j].id == d)
    && (forall i :: 0 <= i < |messages| && messages[i].toolCallID != "" ==>
          exists j :: 0 <= j < i && Calls(messages[j], messages[i].toolCallID))
  }

  lemma SettingsAgree(req: Request)
    ensures ValidSettings(req) <==> SettingsFit(req)
  {
  }

  lemma IdsAgree(id: string)
    ensures ValidMessageID(id) <==> PlainID(id)
  {
    assert forall c :: c in "-_." <==> c == '-' || c == '_' || c == '.';
    if PlainID(id) {
      assert forall k :: 0 <= k < |id| ==> id[k] in id;
    }
  }

  lemma HeadersAgree(validJson: string -> bool, m: Message)
    ensures WellFormed(validJson, m)
      <==> ValidHeader(m) && forall k :: 0 <= k < |m.toolCalls| ==> ValidCall(validJson, m.toolCalls[k])
  {
    IdsAgree(m.id);
    if WellFormed(validJson, m) {
      forall k | 0 <= k < |m.toolCalls|
        ensures ValidCall(validJson, m.toolCalls[k])
      {
        assert m.toolCalls[k] in m.toolCalls;
      }
    }
  }

  lemma CalledIsMade(messages: seq<Message>, id: string)
    ensures id in Called(messages) <==> exists j :: 0 <= j < |messages| && Calls(messages[j], id)
  {
    if id in Called(messages) {
      var m :| m in messages && id in CallIds(m.toolCalls);
      var j :| 0 <= j < |messages| && messages[j] == m;
      CallsIsHasCall(messages[j], id);
    }
    if j :| 0 <= j < |messages| && Calls(messages[j], id) {
      CallsIsHasCall(messages[j], id);
      assert messages[j] in messages && id in CallIds(messages[j].toolCalls);
    }
  }

  /** Accepting one message at a time: the calls of message `i` are new. */
  lemma FreshWhenDifferent(validJson: string -> bool, messages: seq<Message>, i: int)
    requires 0 <= i < |messages| && CallsDiffer(messages) && WellFormed(validJson, messages[i])
    ensures FreshCalls(validJson, messages[i].toolCalls, Called(messages[..i]))
  {
    var calls := messages[i].toolCalls;
    HeadersAgree(validJson, messages[i]);
    forall k | 0 <= k < |calls|
      ensures FreshCall(validJson, calls, k, Called(messages[..i]))
    {
      CalledIsMade(messages[..i], calls[k].id);
      forall j, l | 0 <= j < i && 0 <= l < |messages[..i][j].toolCalls|
        ensures messages[..i][j].toolCalls[l].id != calls[k].id
      {
        assert messages[..i][j] == messages[j];
      }
      forall c | c in calls[..k]
        ensures c.id != calls[k].id
      {
        var l :| 0 <= l < k && calls[..k][l] == c;
      }
    }
  }

  lemma FittingIsWellFormed(validJson: string -> bool, messages: seq<Message>, i: int)
    requires 0 <= i < |messages| && MessageFits(validJson, messages, i)
    ensures WellFormed(validJson, messages[i])
  {
    var m := messages[i];
    forall k | 0 <= k < |m.toolCalls|
      ensures ValidCall(validJson, m.toolCalls[k])
    {
      assert FreshCall(validJson, m.toolCalls, k, Called(messages[..i]));
    }
    HeadersAgree(validJson, m);
  }

  lemma AcceptedIsWhole(validJson: string -> bool, req: Request)
    requires Accepts(validJson, req)
    ensures forall m :: m in req.messages ==> WellFormed(validJson, m)
    ensures IdsDiffer(req.messages) && RefersBack(req.messages)
  {
    forall i | 0 <= i < |req.messages|
      ensures WellFormed(validJson, req.messages[i])
    {
      FittingIsWellFormed(validJson, req.messages, i);
    }
    forall m | m in req.messages
      ensures WellFormed(validJson, m)
    {
      var i :| 0 <= i < |req.messages| && req.messages[i] == m;
    }
    forall i, j | 0 <= i < j < |req.messages|
      ensures req.messages[i].id != req.messages[j].id
      ensures req.messages[i].toolCallID == req.messages[j].toolCallID ==> req.messages[i].toolCallID == ""
    {
      assert MessageFits(validJson, req.messages, j);
    }
    forall i, k, j, l | 0 <= i < |req.messages| && 0 <= k < |req.messages[i].toolCalls|
      && 0 <= j < |req.messages| && 0 <= l < |req.messages[j].toolCalls|
      && req.messages[i].toolCalls[k].id == req.messages[j].toolCalls[l].id
      ensures i == j && k == l
    {
      OneCaller(validJson, req, i, k, j, l);
    }
    AcceptedRefers(validJson, req);
  }

  lemma AcceptedRefers(validJson: string -> bool, req: Request)
    requires Accepts(validJson, req)
    ensures RefersBack(req.messages)
  {
    forall i, d | 0 <= i < |req.messages| && d in req.messages[i].dependsOn
      ensures exists j :: 0 <= j < |req.messages| && req.messages[j].id == d
    {
      assert DependenciesResolve(req.messages, i);
    }
    forall i | 0 <= i < |req.messages| && req.messages[i].toolCallID != ""
      ensures exists j :: 0 <= j < i && Calls(req.messages[j], req.messages[i].toolCallID)
    {
      assert FollowsCall(req.messages, i);
      var j :| 0 <= j < i && HasCall(req.messages[j], req.messages[i].toolCallID);
      CallsIsHasCall(req.messages[j], req.messages[i].toolCallID);
    }
  }

  lemma WholeFits(validJson: string -> bool, messages: seq<Message>, i: int)
    requires 0 <= i < |messages| && IdsDiffer(messages)
    requires forall m :: m in messages ==> WellFormed(validJson, m)
    ensures MessageFits(validJson, messages, i)
  {
    assert messages[i] in messages;
    HeadersAgree(validJson, messages[i]);
    FreshWhenDifferent(validJson, messages, i);
  }

  lemma WholeRefers(messages: seq<Message>, i: int)
    requires 0 <= i < |messages| && RefersBack(messages)
    ensures DependenciesResolve(messages, i) && FollowsCall(messages, i)
  {
    if messages[i].toolCallID != "" {
      var j :| 0 <= j < i && Calls(messages[j], messages[i].toolCallID);
      CallsIsHasCall(messages[j], messages[i].toolCallID);
    }
  }

  /**
   A request is accepted exactly when its settings are within their limits, every message
   is well formed, no id occurs twice, and all references resolve.
   */
  lemma AcceptedExactly(validJson: string -> bool, req: Request)
    ensures Accepts(validJson, req)
      <==> (&& SettingsFit(req) && (forall m :: m in req.messages ==> WellFormed(validJson, m))
            && IdsDiffer(req.messages) && RefersBack(req.messages))
  {
    SettingsAgree(req);
    if Accepts(validJson, req) {
      AcceptedIsWhole(validJson, req);
    }
    var whole := forall m :: m in req.messages ==> WellFormed(validJson, m);
    if IdsDiffer(req.messages) && RefersBack(req.messages) && whole {
      forall i | 0 <= i < |req.messages|
        ensures MessageFits(validJson, req.messages, i)
        ensures DependenciesResolve(req.messages, i) && FollowsCall(req.messages, i)
      {
        WholeFits(validJson, req.messages, i);
        WholeRefers(req.messages, i);
      }
    }
  }
}
