/** The transcript and request types of compact/types.go. */
module Transcript {

  datatype Option<+T> = None | Some(value: T)

  datatype Result<+T, +E> = Success(value: T) | Failure(error: E)

  datatype ToolCall = ToolCall(id: string, name: string, arguments: string, sideEffect: bool)

  datatype Message = Message(
    id: string,
    role: string,
    text: string,
    toolCalls: seq<ToolCall>,
    toolCallID: string,
    pinned: bool,
    unresolved: bool,
    group: string,
    dependsOn: seq<string>)

  datatype Request = Request(
    individually: bool,
    goal: string,
    messages: seq<Message>,
    target: int,
    recent: Option<int>,
    allowPartial: bool)

  predicate IsTool(m: Message) {
    m.role == "tool"
  }

  predicate SameCall(a: ToolCall, b: ToolCall) {
    a.id == b.id && a.name == b.name && a.sideEffect == b.sideEffect
  }

  predicate SameCalls(a: seq<ToolCall>, b: seq<ToolCall>) {
    |a| == |b| && forall k :: 0 <= k < |a| ==> SameCall(a[k], b[k])
  }

  /** Two messages that differ at most in their text and in how their call arguments are written. */
  predicate Kin(a: Message, b: Message) {
    a == b.(text := a.text, toolCalls := a.toolCalls) && SameCalls(a.toolCalls, b.toolCalls)
  }

  predicate Ascending(s: seq<int>) {
    forall j, k :: 0 <= j < k < |s| ==> s[j] < s[k]
  }

  /** Two ascending sequences with the same elements are the same sequence. */
  lemma {:induction false} AscendingUnique(a: seq<int>, b: seq<int>)
    requires Ascending(a) && Ascending(b)
    requires forall x :: x in a <==> x in b
    ensures a == b
  {
    if a == [] {
      assert forall k :: 0 <= k < |b| ==> b[k] in b;
    } else {
      assert a[0] in b && b != [] && b[0] in a;
      assert a[0] == b[0];
      forall x
        ensures x in a[1..] <==> x in b[1..]
      {
        assert x in a <==> x == a[0] || x in a[1..];
        assert x in b <==> x == b[0] || x in b[1..];
      }
      AscendingUnique(a[1..], b[1..]);
    }
  }
}
