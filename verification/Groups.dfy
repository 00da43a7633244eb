/**
 Validation of a transcript and its partition into dependency groups: the specification.
 `GroupCollection` holds the code that has to meet it.
 */
module Groups {
  import opened Text
  import opened Transcript
  import opened UnionFind

  // ----- which requests are accepted -----

  predicate IsIdChar(c: char) {
    'a' <= c <= 'z' || 'A' <= c <= 'Z' || '0' <= c <= '9' || c == '-' || c == '_' || c == '.'
  }

  predicate ValidMessageID(id: string) {
    0 < |id| <= 128 && forall k :: 0 <= k < |id| ==> IsIdChar(id[k])
  }

  predicate KnownRole(role: string) {
    role == "system" || role == "developer" || role == "user" || role == "assistant" || role == "tool"
  }

  predicate ValidCall(validJson: string -> bool, c: ToolCall) {
    && c.id != "" && c.name != "" && validJson(c.arguments)
    && ValidUtf8(c.arguments) && ValidUtf8(c.id) && ValidUtf8(c.name)
  }

  predicate ValidHeader(m: Message) {
    && ValidMessageID(m.id)
    && ValidUtf8(m.text) && ValidUtf8(m.group) && ValidUtf8(m.toolCallID)
    && KnownRole(m.role)
    && (IsTool(m) <==> m.toolCallID != "")
    && (m.toolCalls != [] ==> m.role == "assistant")
  }

  function CallIds(calls: seq<ToolCall>): set<string> {
    set c | c in calls :: c.id
  }

  predicate HasCall(m: Message, id: string) {
    id in CallIds(m.toolCalls)
  }

  predicate FreshCall(validJson: string -> bool, calls: seq<ToolCall>, k: int, taken: set<string>)
    requires 0 <= k < |calls|
  {
    ValidCall(validJson, calls[k]) && calls[k].id !in taken && calls[k].id !in CallIds(calls[..k])
  }

  /** The calls are valid, and their ids are new and pairwise different. */
  predicate FreshCalls(validJson: string -> bool, calls: seq<ToolCall>, taken: set<string>) {
    forall k :: 0 <= k < |calls| ==> FreshCall(validJson, calls, k, taken)
  }

  /** The call ids of a list of messages. */
  function Called(messages: seq<Message>): set<string> {
    set m, id | m in messages && id in CallIds(m.toolCalls) :: id
  }

  /** Message `i` is valid by itself and reuses no id of an earlier one. */
  predicate MessageFits(validJson: string -> bool, messages: seq<Message>, i: int)
    requires 0 <= i < |messages|
  {
    var m := messages[i];
    && ValidHeader(m)
    && (forall j :: 0 <= j < i ==> messages[j].id != m.id)
    && (m.toolCallID != "" ==> forall j :: 0 <= j < i ==> messages[j].toolCallID != m.toolCallID)
    && FreshCalls(validJson, m.toolCalls, Called(messages[..i]))
  }

  predicate DependenciesResolve(messages: seq<Message>, i: int)
    requires 0 <= i < |messages|
  {
    forall d :: d in messages[i].dependsOn ==> exists j :: 0 <= j < |messages| && messages[j].id == d
  }

  /** A tool result needs an earlier call. */
  predicate FollowsCall(messages: seq<Message>, i: int)
    requires 0 <= i < |messages|
  {
    messages[i].toolCallID != "" ==> exists j :: 0 <= j < i && HasCall(messages[j], messages[i].toolCallID)
  }

  predicate ValidSettings(req: Request) {
    && !Blank(req.goal) && |req.goal| <= 16000 && req.target >= 1
    && 1 <= |req.messages| <= 10000 && ValidUtf8(req.goal)
    && (req.recent.Some? ==> req.recent.value >= 0)
  }

  predicate AllFit(validJson: string -> bool, messages: seq<Message>, n: int)
    requires 0 <= n <= |messages|
  {
    forall i :: 0 <= i < n ==> MessageFits(validJson, messages, i)
  }

  predicate Accepts(validJson: string -> bool, req: Request) {
    && ValidSettings(req)
    && AllFit(validJson, req.messages, |req.messages|)
    && (forall i :: 0 <= i < |req.messages| ==> DependenciesResolve(req.messages, i))
    && (forall i :: 0 <= i < |req.messages| ==> FollowsCall(req.messages, i))
  }

  // ----- which messages belong together -----

  /** A declared dependency, a shared label, or (by default only) a call and its result. */
  predicate Edge(req: Request, i: int, j: int)
    requires 0 <= i < |req.messages| && 0 <= j < |req.messages|
  {
    var a, b := req.messages[i], req.messages[j];
    || b.id in a.dependsOn
    || (a.group != "" && a.group == b.group)
    || (!req.individually && b.toolCallID != "" && HasCall(a, b.toolCallID))
  }

  ghost function Edges(req: Request): set<(int, int)> {
    set i, j | 0 <= i < |req.messages| && 0 <= j < |req.messages| && Edge(req, i, j) :: (i, j)
  }

  ghost predicate Together(req: Request, i: int, j: int) {
    Linked(|req.messages|, Edges(req), i, j)
  }

  // ----- what protects a message -----

  /** The ids of the calls that have a result. */
  function Answered(messages: seq<Message>): set<string> {
    set m | m in messages && m.toolCallID != "" :: m.toolCallID
  }

  function Depended(messages: seq<Message>): set<string> {
    set m, d | m in messages && d in m.dependsOn :: d
  }

  function RecentCount(req: Request): int {
    if req.recent.Some? then req.recent.value else 4
  }

  predicate IsRecent(req: Request, i: int) {
    i >= |req.messages| - RecentCount(req)
  }

  function CallReason(calls: seq<ToolCall>, answered: set<string>): string {
    if calls == [] then ""
    else if calls[0].sideEffect then "side effect"
    else if calls[0].id !in answered then "pending tool call"
    else CallReason(calls[1..], answered)
  }

  function Protection(m: Message, isRecent: bool, answered: set<string>): string {
    if m.pinned then "explicitly pinned"
    else if m.unresolved then "unresolved work"
    else if m.role == "system" || m.role == "developer" || m.role == "user" then "instruction or user message"
    else if isRecent then "recent message"
    else CallReason(m.toolCalls, answered)
  }

  /** The position of the message that makes a call; the zero value 0 when there is none. */
  function CallerOf(messages: seq<Message>, id: string): (j: int)
    ensures messages != [] ==> 0 <= j < |messages|
  {
    if messages == [] then 0
    else if HasCall(messages[|messages| - 1], id) then |messages| - 1
    else CallerOf(messages[..|messages| - 1], id)
  }

  function FirstCall(calls: seq<ToolCall>, id: string): seq<ToolCall> {
    if calls == [] then []
    else if calls[0].id == id then [calls[0]]
    else FirstCall(calls[1..], id)
  }

  function ResultProtection(req: Request, caller: int, callID: string, answered: set<string>,
                            depended: set<string>): string
    requires 0 <= caller < |req.messages|
  {
    var parent := req.messages[caller];
    if parent.group != "" || parent.dependsOn != [] || parent.id in depended then "explicit call dependency"
    else Protection(parent.(toolCalls := FirstCall(parent.toolCalls, callID)), IsRecent(req, caller), answered)
  }

  function MessageReason(req: Request, i: int): string
    requires 0 <= i < |req.messages|
  {
    var m := req.messages[i];
    var reason := Protection(m, IsRecent(req, i), Answered(req.messages));
    if req.individually && IsTool(m) && reason == ""
    then ResultProtection(req, CallerOf(req.messages, m.toolCallID), m.toolCallID,
                          Answered(req.messages), Depended(req.messages))
    else reason
  }

  predicate InRange(indices: seq<int>, n: int) {
    forall k :: 0 <= k < |indices| ==> 0 <= indices[k] < n
  }

  /** The reason of the last protected member; "" when no member is protected. */
  function MembersReason(req: Request, indices: seq<int>): string
    requires InRange(indices, |req.messages|)
  {
    if indices == [] then ""
    else
      var reason := MessageReason(req, indices[|indices| - 1]);
      if reason != "" then reason else MembersReason(req, indices[..|indices| - 1])
  }

  predicate HasToolResult(messages: seq<Message>, indices: seq<int>)
    requires InRange(indices, |messages|)
  {
    exists k :: 0 <= k < |indices| && IsTool(messages[indices[k]])
  }

  function GroupReason(req: Request, indices: seq<int>): string
    requires InRange(indices, |req.messages|)
  {
    var reason := MembersReason(req, indices);
    if reason == "" && !HasToolResult(req.messages, indices) then "conversation text preserved" else reason
  }

  // ----- the groups of a request -----

  datatype Group = Group(id: string, indices: seq<int>, protected: bool, reason: string)

  predicate GroupOk(req: Request, g: Group) {
    && g.indices != [] && Ascending(g.indices) && InRange(g.indices, |req.messages|)
    && g.id == req.messages[g.indices[0]].id
    && g.reason == GroupReason(req, g.indices)
    && g.protected == (g.reason != "")
  }

  predicate FirstsAscend(groups: seq<Group>)
    requires forall g :: 0 <= g < |groups| ==> groups[g].indices != []
  {
    forall g, h :: 0 <= g < h < |groups| ==> groups[g].indices[0] < groups[h].indices[0]
  }

  ghost predicate Covered(groups: seq<Group>, i: int) {
    exists g :: 0 <= g < |groups| && i in groups[g].indices
  }

  ghost predicate Separate(req: Request, groups: seq<Group>) {
    forall g, h, i, j :: 0 <= g < |groups| && 0 <= h < |groups| && i in groups[g].indices && j in groups[h].indices ==>
      (g == h <==> Together(req, i, j))
  }

  /**
   The groups are the classes of the least equivalence over the edges, each class in
   transcript order, the classes ordered by their first message.
   */
  ghost predicate IsGrouping(req: Request, groups: seq<Group>) {
    && (forall g :: 0 <= g < |groups| ==> GroupOk(req, groups[g]))
    && FirstsAscend(groups)
    && (forall i :: 0 <= i < |req.messages| ==> Covered(groups, i))
    && Separate(req, groups)
  }

  // ----- there is only one such list -----

  function Firsts(groups: seq<Group>): (firsts: seq<int>)
    requires forall g :: 0 <= g < |groups| ==> groups[g].indices != []
    ensures |firsts| == |groups| && forall g :: 0 <= g < |groups| ==> firsts[g] == groups[g].indices[0]
  {
    seq(|groups|, g requires 0 <= g < |groups| => groups[g].indices[0])
  }

  /** A group holds all that is linked to one of its members. */
  lemma GroupIsClass(req: Request, groups: seq<Group>, g: int, i: int, j: int)
    requires IsGrouping(req, groups) && 0 <= g < |groups| && i in groups[g].indices
    ensures j in groups[g].indices <==> Together(req, i, j)
  {
    if Together(req, i, j) {
      assert Covered(groups, j);
      var h :| 0 <= h < |groups| && j in groups[h].indices;
      assert g == h;
    }
  }

  lemma FirstsAgree(req: Request, a: seq<Group>, b: seq<Group>, i: int)
    requires IsGrouping(req, a) && IsGrouping(req, b)
    requires i in Firsts(a)
    ensures i in Firsts(b)
  {
    var g :| 0 <= g < |a| && Firsts(a)[g] == i;
    assert GroupOk(req, a[g]) && i == a[g].indices[0];
    assert Covered(b, i);
    var h :| 0 <= h < |b| && i in b[h].indices;
    assert GroupOk(req, b[h]);
    var j := b[h].indices[0];
    GroupIsClass(req, b, h, i, j);
    GroupIsClass(req, a, g, i, j);
    assert j in b[h].indices && j in a[g].indices;
    assert Firsts(b)[h] == i;
  }

  lemma SameGroup(req: Request, a: seq<Group>, b: seq<Group>, g: int)
    requires IsGrouping(req, a) && IsGrouping(req, b)
    requires 0 <= g < |a| && g < |b| && a[g].indices[0] == b[g].indices[0]
    ensures a[g] == b[g]
  {
    assert GroupOk(req, a[g]) && GroupOk(req, b[g]);
    var i := a[g].indices[0];
    assert i in a[g].indices && i in b[g].indices;
    forall j
      ensures j in a[g].indices <==> j in b[g].indices
    {
      GroupIsClass(req, a, g, i, j);
      GroupIsClass(req, b, g, i, j);
    }
    AscendingUnique(a[g].indices, b[g].indices);
  }

  /** A request has one grouping: the order in which edges are joined cannot show in it. */
  lemma GroupingUnique(req: Request, a: seq<Group>, b: seq<Group>)
    requires IsGrouping(req, a) && IsGrouping(req, b)
    ensures a == b
  {
    forall i
      ensures i in Firsts(a) <==> i in Firsts(b)
    {
      if i in Firsts(a) { FirstsAgree(req, a, b, i); }
      if i in Firsts(b) { FirstsAgree(req, b, a, i); }
    }
    assert Ascending(Firsts(a)) && Ascending(Firsts(b));
    AscendingUnique(Firsts(a), Firsts(b));
    forall g | 0 <= g < |a|
      ensures a[g] == b[g]
    {
      assert Firsts(a)[g] == Firsts(b)[g];
      SameGroup(req, a, b, g);
    }
  }

  // ----- one protected member protects the group -----

  lemma {:induction false} MemberReasonCounts(req: Request, indices: seq<int>, p: nat)
    requires InRange(indices, |req.messages|) && p < |indices| && MessageReason(req, indices[p]) != ""
    ensures MembersReason(req, indices) != ""
  {
    if p < |indices| - 1 {
      MemberReasonCounts(req, indices[..|indices| - 1], p);
    }
  }

  lemma {:induction false} CallReasonEmpty(calls: seq<ToolCall>, answered: set<string>)
    requires CallReason(calls, answered) == ""
    ensures forall c :: c in calls ==> !c.sideEffect && c.id in answered
  {
    if calls != [] {
      CallReasonEmpty(calls[1..], answered);
    }
  }

  lemma {:induction false} MembersReasonEmpty(req: Request, indices: seq<int>)
    requires InRange(indices, |req.messages|) && MembersReason(req, indices) == ""
    ensures forall p :: 0 <= p < |indices| ==> MessageReason(req, indices[p]) == ""
  {
    forall p | 0 <= p < |indices|
      ensures MessageReason(req, indices[p]) == ""
    {
      if MessageReason(req, indices[p]) != "" {
        MemberReasonCounts(req, indices, p);
      }
    }
  }
}
