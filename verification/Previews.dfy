/** What the scorer is shown of a group, and what the engine tells it besides. */
module Previews {
  import opened Transcript
  import opened Groups
  import opened Excerpts
  import opened Scores
  import opened Representations
  import opened Assembly
  import opened Evaluations
  import opened Openness
  import opened Acceptance

  // ----- the text of a group -----

  function Joined(pieces: seq<string>): string {
    if pieces == [] then "" else pieces[0] + Joined(pieces[1..])
  }

  function Lengths(pieces: seq<string>): nat {
    if pieces == [] then 0 else |pieces[0]| + Lengths(pieces[1..])
  }

  lemma {:induction false} JoinedLength(pieces: seq<string>)
    ensures |Joined(pieces)| == Lengths(pieces)
  {
    if pieces != [] {
      JoinedLength(pieces[1..]);
    }
  }

  /** One call as the scorer reads it. */
  ghost predicate ShowsCall(line: string, c: ToolCall) {
    line == "tool=" + c.name + " arguments=" + c.arguments + "\n"
  }

  /** Call `c` of some message is the one with this id. */
  ghost predicate IsCall(messages: seq<Message>, id: string, c: ToolCall) {
    c.id == id && exists j :: 0 <= j < |messages| && c in messages[j].toolCalls
  }

  /** One line for each call the message makes and, in the result-only mode, for the call it answers. */
  ghost predicate ShowsCalls(req: Request, m: Message, lines: seq<string>) {
    var n := |m.toolCalls|;
    && (forall k :: 0 <= k < n && k < |lines| ==> ShowsCall(lines[k], m.toolCalls[k]))
    && if req.individually && m.toolCallID != ""
       then |lines| == n + 1 && exists c :: IsCall(req.messages, m.toolCallID, c) && ShowsCall(lines[n], c)
       else |lines| == n
  }

  /** Id, role and call id in brackets, the lines of the calls, the text and a line break. */
  ghost predicate ShowsMessage(req: Request, m: Message, piece: string) {
    exists lines: seq<string> ::
      && ShowsCalls(req, m, lines)
      && piece == "[" + m.id + " " + m.role + " call=" + m.toolCallID + "]\n" + Joined(lines) + m.text + "\n"
  }

  function LinesOf(calls: seq<ToolCall>): (lines: seq<string>)
    ensures |lines| == |calls| && forall k :: 0 <= k < |calls| ==> lines[k] == CallLine(calls[k])
  {
    seq(|calls|, k requires 0 <= k < |calls| => CallLine(calls[k]))
  }

  lemma {:induction false} CallLinesJoin(calls: seq<ToolCall>)
    ensures CallLines(calls) == Joined(LinesOf(calls))
  {
    if calls != [] {
      CallLinesJoin(calls[1..]);
      assert LinesOf(calls)[1..] == LinesOf(calls[1..]);
    }
  }

  lemma {:induction false} JoinedSnoc(pieces: seq<string>, last: string)
    ensures Joined(pieces + [last]) == Joined(pieces) + last
  {
    if pieces == [] {
      assert Joined([last]) == last;
    } else {
      assert (pieces + [last])[1..] == pieces[1..] + [last];
      JoinedSnoc(pieces[1..], last);
    }
  }

  /** The table of calls holds, under the id of a call that was made, a call with this id. */
  lemma {:induction false} TableFinds(messages: seq<Message>, id: string, j: int)
    requires 0 <= j < |messages| && Calls(messages[j], id)
    ensures id in CallTable(messages) && IsCall(messages, id, CallTable(messages)[id])
  {
    var last := |messages| - 1;
    if Calls(messages[last], id) {
      CallsAreFound(messages[last].toolCalls, id);
    } else {
      NoCallNoEntry(messages[last].toolCalls, id);
      TableFinds(messages[..last], id, j);
      var k :| 0 <= k < last && CallTable(messages)[id] in messages[..last][k].toolCalls;
      assert messages[k] == messages[..last][k];
    }
  }

  lemma {:induction false} CallsAreFound(calls: seq<ToolCall>, id: string)
    requires exists k :: 0 <= k < |calls| && calls[k].id == id
    ensures id in CallsById(calls) && CallsById(calls)[id].id == id && CallsById(calls)[id] in calls
  {
    var last := |calls| - 1;
    if calls[last].id != id {
      var k :| 0 <= k < |calls| && calls[k].id == id;
      assert calls[..last][k].id == id;
      CallsAreFound(calls[..last], id);
    }
  }

  lemma {:induction false} NoCallNoEntry(calls: seq<ToolCall>, id: string)
    requires forall k :: 0 <= k < |calls| ==> calls[k].id != id
    ensures id !in CallsById(calls)
  {
    if calls != [] {
      NoCallNoEntry(calls[..|calls| - 1], id);
    }
  }

  lemma MessageIsShown(req: Request, i: int)
    requires 0 <= i < |req.messages| && RefersBack(req.messages)
    ensures var m := req.messages[i];
      ShowsMessage(req, m, MessageText(m, req.individually, CallTable(req.messages)))
  {
    var m, calls := req.messages[i], CallTable(req.messages);
    CallLinesJoin(m.toolCalls);
    var lines := LinesOf(m.toolCalls);
    if req.individually && m.toolCallID != "" {
      var j :| 0 <= j < i && Calls(req.messages[j], m.toolCallID);
      TableFinds(req.messages, m.toolCallID, j);
      var line := CallLine(calls[m.toolCallID]);
      JoinedSnoc(lines, line);
      AnsweredIsShown(req, m, calls, lines, line);
    } else {
      OwnCallsAreShown(req, m, calls, lines);
    }
  }

  lemma AnsweredIsShown(req: Request, m: Message, calls: map<string, ToolCall>, lines: seq<string>, line: string)
    requires req.individually && m.toolCallID != "" && m.toolCallID in calls
    requires IsCall(req.messages, m.toolCallID, calls[m.toolCallID]) && line == CallLine(calls[m.toolCallID])
    requires lines == LinesOf(m.toolCalls) && CallLines(m.toolCalls) == Joined(lines)
    requires Joined(lines + [line]) == Joined(lines) + line
    ensures ShowsMessage(req, m, MessageText(m, true, calls))
  {
    assert ShowsCall(line, calls[m.toolCallID]);
    assert ShowsCalls(req, m, lines + [line]);
    assert MessageText(m, true, calls)
      == "[" + m.id + " " + m.role + " call=" + m.toolCallID + "]\n" + Joined(lines + [line]) + m.text + "\n";
  }

  lemma OwnCallsAreShown(req: Request, m: Message, calls: map<string, ToolCall>, lines: seq<string>)
    requires !req.individually || m.toolCallID == ""
    requires lines == LinesOf(m.toolCalls) && CallLines(m.toolCalls) == Joined(lines)
    ensures ShowsMessage(req, m, MessageText(m, req.individually, calls))
  {
    assert ShowsCalls(req, m, lines);
    assert Joined(lines) + "" == Joined(lines);
    assert MessageText(m, req.individually, calls)
      == "[" + m.id + " " + m.role + " call=" + m.toolCallID + "]\n" + Joined(lines) + m.text + "\n";
  }

  ghost predicate ShowsMembers(req: Request, indices: seq<int>, pieces: seq<string>)
    requires InRange(indices, |req.messages|)
  {
    |pieces| == |indices| && forall p :: 0 <= p < |indices| ==> ShowsMessage(req, req.messages[indices[p]], pieces[p])
  }

  /** The text of a group is one piece a member, in order. */
  lemma {:induction false} TextIsPieces(req: Request, indices: seq<int>) returns (pieces: seq<string>)
    requires InRange(indices, |req.messages|) && RefersBack(req.messages)
    ensures ShowsMembers(req, indices, pieces)
    ensures FullText(GroupMessages(req.messages, indices), req.individually, CallTable(req.messages)) == Joined(pieces)
  {
    if indices == [] {
      pieces := [];
    } else {
      MessageIsShown(req, indices[0]);
      var rest := TextIsPieces(req, indices[1..]);
      pieces := [MessageText(req.messages[indices[0]], req.individually, CallTable(req.messages))] + rest;
      assert GroupMessages(req.messages, indices)[1..] == GroupMessages(req.messages, indices[1..]);
    }
  }

  ghost predicate Contains(text: string, part: string) {
    exists a, z: string :: text == a + part + z
  }

  lemma {:induction false} JoinedContains(pieces: seq<string>, p: nat) returns (a: string, z: string)
    requires p < |pieces|
    ensures Joined(pieces) == a + pieces[p] + z
  {
    if p == 0 {
      a, z := "", Joined(pieces[1..]);
      assert "" + pieces[0] + z == Joined(pieces);
    } else {
      a, z := JoinedContains(pieces[1..], p - 1);
      a := pieces[0] + a;
    }
  }

  lemma PieceContains(req: Request, m: Message, piece: string, a: string, z: string)
    requires ShowsMessage(req, m, piece)
    ensures Contains(a + piece + z, m.text)
  {
    var lines :| ShowsCalls(req, m, lines)
      && piece == "[" + m.id + " " + m.role + " call=" + m.toolCallID + "]\n" + Joined(lines) + m.text + "\n";
    var front := "[" + m.id + " " + m.role + " call=" + m.toolCallID + "]\n" + Joined(lines);
    assert a + piece + z == (a + front) + m.text + ("\n" + z);
  }

  /**
   What a candidate shows.  The pieces are one a member, in order; a preview that is marked
   complete is exactly the pieces, one after the other, and so contains the text of every
   member, and any other preview is an excerpt of them.
   */
  lemma PreviewShowsMembers(env: Env, req: Request, g: Group, snapshot: string) returns (pieces: seq<string>)
    requires InRange(g.indices, |req.messages|) && RefersBack(req.messages)
    ensures ShowsMembers(req, g.indices, pieces)
    ensures var c := CandidateFor(env, req, g, snapshot);
      && c.complete == (Lengths(pieces) <= 16000)
      && (c.complete ==> c.preview == Joined(pieces) && |c.preview| == Lengths(pieces))
      && (!c.complete ==> c.preview == Excerpt(env.keyword, Joined(pieces), req.goal, 16000))
      && (c.complete ==> forall p :: 0 <= p < |g.indices| ==> Contains(c.preview, req.messages[g.indices[p]].text))
  {
    pieces := TextIsPieces(req, g.indices);
    JoinedLength(pieces);
    forall p | 0 <= p < |g.indices|
      ensures Contains(Joined(pieces), req.messages[g.indices[p]].text)
    {
      var a, z := JoinedContains(pieces, p);
      PieceContains(req, req.messages[g.indices[p]], pieces[p], a, z);
    }
  }

  // ----- the whole evaluation -----

  /** The clone differs from the request in the written form of call arguments alone. */
  lemma CloneIsExact(env: Env, req: Request)
    ensures var clone := Clone(env, req);
      && clone == req.(messages := clone.messages) && |clone.messages| == |req.messages|
      && (forall i :: 0 <= i < |req.messages| ==>
            var m, c := req.messages[i], clone.messages[i];
            c == m.(toolCalls := c.toolCalls) && |c.toolCalls| == |m.toolCalls|)
      && (forall i, k :: 0 <= i < |req.messages| && 0 <= k < |req.messages[i].toolCalls| ==>
            var call := req.messages[i].toolCalls[k];
            clone.messages[i].toolCalls[k] == call.(arguments := env.canonical(call.arguments)))
  {
  }

  lemma CloneRefersBack(env: Env, req: Request)
    requires RefersBack(req.messages)
    ensures RefersBack(Clone(env, req).messages)
  {
    var clones := Clone(env, req).messages;
    CloneIsExact(env, req);
    forall i, d | 0 <= i < |clones| && d in clones[i].dependsOn
      ensures exists j :: 0 <= j < |clones| && clones[j].id == d
    {
      var j :| 0 <= j < |req.messages| && req.messages[j].id == d;
      assert clones[j].id == d;
    }
    forall i | 0 <= i < |clones| && clones[i].toolCallID != ""
      ensures exists j :: 0 <= j < i && Calls(clones[j], clones[i].toolCallID)
    {
      var j :| 0 <= j < i && Calls(req.messages[j], req.messages[i].toolCallID);
      var k :| 0 <= k < |req.messages[j].toolCalls| && req.messages[j].toolCalls[k].id == req.messages[i].toolCallID;
      assert clones[j].toolCalls[k].id == clones[i].toolCallID;
    }
  }

  /** The unprotected ones among the first `h` groups. */
  function OpenGroups(groups: seq<Group>, h: nat): (open: seq<int>)
    requires h <= |groups|
    ensures forall k :: 0 <= k < |open| ==> 0 <= open[k] < h && !groups[open[k]].protected
    ensures forall g :: 0 <= g < h && !groups[g].protected ==> g in open
    ensures Ascending(open)
  {
    if h == 0 then []
    else if groups[h - 1].protected then OpenGroups(groups, h - 1)
    else OpenGroups(groups, h - 1) + [h - 1]
  }

  lemma {:induction false} MadeCount(groups: seq<Group>, make: Group --> Candidate, h: nat)
    requires h <= |groups| && forall k :: 0 <= k < |groups| ==> make.requires(groups[k])
    ensures |Made(groups, make, h)| == |OpenGroups(groups, h)|
  {
    if h > 0 {
      MadeCount(groups, make, h - 1);
    }
  }

  lemma {:induction false} MadeForOpen(groups: seq<Group>, make: Group --> Candidate, h: nat, k: nat)
    requires h <= |groups| && forall l :: 0 <= l < |groups| ==> make.requires(groups[l])
    requires k < |OpenGroups(groups, h)| == |Made(groups, make, h)|
    ensures Made(groups, make, h)[k] == make(groups[OpenGroups(groups, h)[k]])
  {
    MadeCount(groups, make, h - 1);
    if k < |OpenGroups(groups, h - 1)| {
      MadeForOpen(groups, make, h - 1, k);
    }
  }

  /** What a candidate says of its group: its id, its cost, its pieces and what is offered. */
  ghost predicate Tells(env: Env, req: Request, g: Group, snapshot: string, c: Candidate)
    requires InRange(g.indices, |req.messages|)
  {
    && c.id == g.id && c.tokens == Count(env, GroupMessages(req.messages, g.indices))
    && c.variants == Offered(env, req, g, snapshot)
    && exists pieces: seq<string> ::
         && ShowsMembers(req, g.indices, pieces)
         && c.complete == (Lengths(pieces) <= 16000)
         && c.preview == if c.complete then Joined(pieces) else Excerpt(env.keyword, Joined(pieces), req.goal, 16000)
  }

  lemma CandidateTells(env: Env, req: Request, g: Group, snapshot: string)
    requires InRange(g.indices, |req.messages|) && RefersBack(req.messages)
    ensures Tells(env, req, g, snapshot, CandidateFor(env, req, g, snapshot))
  {
    var pieces := PreviewShowsMembers(env, req, g, snapshot);
    var c := CandidateFor(env, req, g, snapshot);
    assert c.complete == (Lengths(pieces) <= 16000);
    assert c.preview == if c.complete then Joined(pieces) else Excerpt(env.keyword, Joined(pieces), req.goal, 16000);
  }

  /** The candidates are those of the open groups, in order. */
  ghost predicate TellsAll(env: Env, req: Request, groups: seq<Group>, snapshot: string, open: seq<int>,
                           candidates: seq<Candidate>)
    requires AllInRange(groups, |req.messages|) && forall k :: 0 <= k < |open| ==> 0 <= open[k] < |groups|
  {
    |candidates| == |open| && forall k :: 0 <= k < |open| ==> Tells(env, req, groups[open[k]], snapshot, candidates[k])
  }

  lemma CandidatesTell(env: Env, req: Request, groups: seq<Group>, snapshot: string, make: Group --> Candidate)
    requires AllInRange(groups, |req.messages|) && RefersBack(req.messages)
    requires make == Maker(env, req, snapshot)
    ensures TellsAll(env, req, groups, snapshot, OpenGroups(groups, |groups|), Made(groups, make, |groups|))
  {
    var open := OpenGroups(groups, |groups|);
    MadeCount(groups, make, |groups|);
    forall k | 0 <= k < |open|
      ensures Tells(env, req, groups[open[k]], snapshot, Made(groups, make, |groups|)[k])
    {
      MadeForOpen(groups, make, |groups|, k);
      CandidateTells(env, req, groups[open[k]], snapshot);
    }
  }

  /** Goal, conversation and candidates of an evaluation. */
  ghost predicate Evaluates(env: Env, req: Request, groups: seq<Group>, snapshot: string, open: seq<int>,
                            eval: Evaluation)
    requires AllInRange(groups, |req.messages|)
  {
    && Ascending(open) && (forall g :: g in open <==> 0 <= g < |groups| && !groups[g].protected)
    && eval.goal == req.goal && eval.context == env.context(req.messages, req.goal)
    && (forall k :: 0 <= k < |open| ==> open[k] in open)
    && TellsAll(env, req, groups, snapshot, open, eval.candidates)
  }

  lemma EvaluatesWith(env: Env, req: Request, groups: seq<Group>, snapshot: string, eval: Evaluation)
    requires AllInRange(groups, |req.messages|)
    requires eval.goal == req.goal && eval.context == env.context(req.messages, req.goal)
    requires TellsAll(env, req, groups, snapshot, OpenGroups(groups, |groups|), eval.candidates)
    ensures Evaluates(env, req, groups, snapshot, OpenGroups(groups, |groups|), eval)
  {
  }

  /**
   What the scorer is told: the goal, the sampled conversation and one candidate for each
   open group, in the order of the groups, each with what its group is.
   */
  lemma EvaluationTells(env: Env, req: Request, groups: seq<Group>, snapshot: string, eval: Evaluation)
    requires AllInRange(groups, |req.messages|) && RefersBack(req.messages)
    requires eval == EvaluationOf(env, req, groups, snapshot)
    ensures Evaluates(env, req, groups, snapshot, OpenGroups(groups, |groups|), eval)
  {
    var make := Maker(env, req, snapshot);
    CandidatesTell(env, req, groups, snapshot, make);
    assert eval.candidates == Made(groups, make, |groups|);
    EvaluatesWith(env, req, groups, snapshot, eval);
  }

  /** What the scorer is told about an accepted request. */
  lemma AcceptedIsTold(env: Env, req: Request, groups: seq<Group>, snapshot: string, eval: Evaluation)
    requires Accepts(env.validJson, req) && AllInRange(groups, |req.messages|)
    requires eval == EvaluationOf(env, Clone(env, req), groups, snapshot)
    ensures Evaluates(env, Clone(env, req), groups, snapshot, OpenGroups(groups, |groups|), eval)
  {
    AcceptedExactly(env.validJson, req);
    CloneRefersBack(env, req);
    EvaluationTells(env, Clone(env, req), groups, snapshot, eval);
  }
}
