/** `represent` and `variants` of compact/selection.go: the reduced forms a group can take. */
module Representations {
  import opened Text
  import opened Transcript
  import opened Excerpts
  import opened Wording
  import opened Scores

  /**
   The parts that come from other libraries or are not modelled: the token cost of one
   message, json.Valid, how json.Marshal rewrites call arguments, the keyword score of a
   line, and the sampled conversation shown to the scorer.
   */
  datatype Env = Env(
    cost: Message -> nat,
    validJson: string -> bool,
    canonical: string -> string,
    keyword: KeywordScore,
    context: (seq<Message>, string) -> string)

  /** `Counter.Count`: additive across messages. */
  function Count(env: Env, messages: seq<Message>): nat {
    if messages == [] then 0 else env.cost(messages[0]) + Count(env, messages[1..])
  }

  lemma CountOne(env: Env, m: Message)
    ensures Count(env, []) == 0 && Count(env, [m]) == env.cost(m)
  {
    assert [m][1..] == [];
  }

  lemma {:induction false} CountConcat(env: Env, a: seq<Message>, b: seq<Message>)
    ensures Count(env, a + b) == Count(env, a) + Count(env, b)
  {
    if a == [] {
      assert a + b == b;
    } else {
      assert (a + b)[1..] == a[1..] + b;
      CountConcat(env, a[1..], b);
    }
  }

  const ACTIONS: seq<string> := ["extract", "brief", "reference", "drop"]

  /** The replacement for the text of a tool result. */
  function ReducedText(env: Env, text: string, action: string, goal: string, reference: string): string {
    if action == "extract" then Excerpt(env.keyword, text, goal, 1600) + "\n" + reference
    else if action == "brief" then BriefHead(text) + Excerpt(env.keyword, text, goal, 320) + "\n" + reference
    else if action == "reference" then reference
    else text
  }

  function ReducedMessage(env: Env, m: Message, action: string, goal: string, snapshot: string): Message {
    if IsTool(m) then m.(text := ReducedText(env, m.text, action, goal, Reference(snapshot, m.id))) else m
  }

  function Represent(env: Env, messages: seq<Message>, action: string, goal: string, snapshot: string): seq<Message> {
    if action == "drop" then []
    else seq(|messages|, i requires 0 <= i < |messages| => ReducedMessage(env, messages[i], action, goal, snapshot))
  }

  method RepresentMessages(env: Env, messages: seq<Message>, action: string, goal: string, snapshot: string)
    returns (output: seq<Message>)
    ensures output == Represent(env, messages, action, goal, snapshot)
  {
    if action == "drop" {
      return [];
    }
    output := messages;
    for i := 0 to |messages|
      invariant |output| == |messages|
      invariant forall j :: 0 <= j < i ==> output[j] == ReducedMessage(env, messages[j], action, goal, snapshot)
      invariant forall j :: i <= j < |messages| ==> output[j] == messages[j]
    {
      var m := messages[i];
      if IsTool(m) {
        var ref := Reference(snapshot, m.id);
        if action == "extract" {
          var evidence := MakeExcerpt(env.keyword, m.text, goal, 1600);
          output := output[i := m.(text := evidence + "\n" + ref)];
        } else if action == "brief" {
          var evidence := MakeExcerpt(env.keyword, m.text, goal, 320);
          output := output[i := m.(text := BriefHead(m.text) + evidence + "\n" + ref)];
        } else if action == "reference" {
          output := output[i := m.(text := ref)];
        }
      }
    }
  }

  predicate ContainsAssistantText(messages: seq<Message>) {
    exists i :: 0 <= i < |messages| && messages[i].role == "assistant" && !Blank(messages[i].text)
  }

  /** The proposals for the given actions that are allowed for the text and save tokens. */
  function Proposals(env: Env, messages: seq<Message>, goal: string, snapshot: string, original: nat,
                     actions: seq<string>): seq<Variant>
  {
    if actions == [] then []
    else
      var rest := Proposals(env, messages, goal, snapshot, original, actions[1..]);
      var replacement := Represent(env, messages, actions[0], goal, snapshot);
      if (actions[0] == "drop" && ContainsAssistantText(messages)) || Count(env, replacement) >= original then rest
      else [Variant(actions[0], replacement, Count(env, replacement))] + rest
  }

  function Variants(env: Env, messages: seq<Message>, goal: string, snapshot: string): seq<Variant> {
    Proposals(env, messages, goal, snapshot, Count(env, messages), ACTIONS)
  }

  method MakeVariants(env: Env, messages: seq<Message>, goal: string, snapshot: string, originalTokens: nat)
    returns (variants: seq<Variant>)
    ensures variants == Proposals(env, messages, goal, snapshot, originalTokens, ACTIONS)
  {
    variants := [];
    for i := 0 to |ACTIONS|
      invariant variants + Proposals(env, messages, goal, snapshot, originalTokens, ACTIONS[i..])
        == Proposals(env, messages, goal, snapshot, originalTokens, ACTIONS)
    {
      var action := ACTIONS[i];
      assert ACTIONS[i..][0] == action && ACTIONS[i..][1..] == ACTIONS[i + 1..];
      ghost var rest := Proposals(env, messages, goal, snapshot, originalTokens, ACTIONS[i + 1..]);
      if action == "drop" && ContainsAssistantText(messages) {
        continue;
      }
      var replacement := RepresentMessages(env, messages, action, goal, snapshot);
      var count := Count(env, replacement);
      if count < originalTokens {
        assert variants + ([Variant(action, replacement, count)] + rest)
          == variants + [Variant(action, replacement, count)] + rest;
        variants := variants + [Variant(action, replacement, count)];
      }
    }
  }

  /** What every proposal is: the exact representation, its exact count, and cheaper than the original. */
  ghost predicate Honest(env: Env, messages: seq<Message>, goal: string, snapshot: string, v: Variant) {
    && v.action in ACTIONS
    && v.messages == Represent(env, messages, v.action, goal, snapshot)
    && v.tokens == Count(env, v.messages)
    && (v.action == "drop" ==> !ContainsAssistantText(messages))
  }

  lemma {:induction false} ProposalsHonest(env: Env, messages: seq<Message>, goal: string, snapshot: string,
                                           original: nat, actions: seq<string>)
    requires forall a :: a in actions ==> a in ACTIONS
    ensures |Proposals(env, messages, goal, snapshot, original, actions)| <= |actions|
    ensures forall v :: v in Proposals(env, messages, goal, snapshot, original, actions) ==>
      Honest(env, messages, goal, snapshot, v) && v.tokens < original && v.action in actions
  {
    if actions != [] {
      ProposalsHonest(env, messages, goal, snapshot, original, actions[1..]);
    }
  }

  ghost predicate NoRepeats(actions: seq<string>) {
    forall j, k :: 0 <= j < k < |actions| ==> actions[j] != actions[k]
  }

  lemma {:induction false} ProposalsDistinct(env: Env, messages: seq<Message>, goal: string, snapshot: string,
                                             original: nat, actions: seq<string>)
    requires NoRepeats(actions) && forall a :: a in actions ==> a in ACTIONS
    ensures DistinctActions(Proposals(env, messages, goal, snapshot, original, actions))
  {
    if actions != [] {
      ProposalsDistinct(env, messages, goal, snapshot, original, actions[1..]);
      ProposalsHonest(env, messages, goal, snapshot, original, actions[1..]);
      var rest := Proposals(env, messages, goal, snapshot, original, actions[1..]);
      forall k | 0 <= k < |rest|
        ensures rest[k].action != actions[0]
      {
        assert rest[k] in rest;
        var j :| 0 <= j < |actions[1..]| && actions[1..][j] == rest[k].action;
        assert actions[j + 1] != actions[0];
      }
    }
  }

  /** The filter of the result-only mode, which never removes a group. */
  function WithoutDrop(variants: seq<Variant>): (kept: seq<Variant>)
    ensures |kept| <= |variants|
    ensures forall v :: v in kept ==> v in variants && v.action != "drop"
  {
    if variants == [] then []
    else
      var front, last := variants[..|variants| - 1], variants[|variants| - 1];
      if last.action != "drop" then WithoutDrop(front) + [last] else WithoutDrop(front)
  }

  lemma {:induction false} WithoutDropDistinct(variants: seq<Variant>)
    requires DistinctActions(variants)
    ensures DistinctActions(WithoutDrop(variants))
  {
    if variants != [] {
      var front, last := variants[..|variants| - 1], variants[|variants| - 1];
      WithoutDropDistinct(front);
      forall v | v in front
        ensures v.action != last.action
      {
        var k :| 0 <= k < |front| && front[k] == v;
        assert variants[k] == v;
      }
      assert forall k :: 0 <= k < |WithoutDrop(front)| ==> WithoutDrop(front)[k] in WithoutDrop(front);
    }
  }

  // ----- what a reduction keeps -----

  lemma ReducedTextValid(env: Env, text: string, action: string, goal: string, reference: string)
    requires ValidUtf8(text) && ValidUtf8(reference)
    ensures ValidUtf8(ReducedText(env, text, action, goal, reference))
  {
    if action == "extract" {
      ExcerptValid(env.keyword, text, goal, 1600);
      AsciiAppend(Excerpt(env.keyword, text, goal, 1600), "\n");
      ValidConcat(Excerpt(env.keyword, text, goal, 1600) + "\n", reference);
    } else if action == "brief" {
      BriefHeadAscii(text);
      ExcerptValid(env.keyword, text, goal, 320);
      AsciiPrepend(BriefHead(text), Excerpt(env.keyword, text, goal, 320));
      AsciiAppend(BriefHead(text) + Excerpt(env.keyword, text, goal, 320), "\n");
      ValidConcat(BriefHead(text) + Excerpt(env.keyword, text, goal, 320) + "\n", reference);
    }
  }

  /** A changed text ends in the reference under which the original is archived. */
  lemma ReducedTextEnds(env: Env, text: string, action: string, goal: string, reference: string)
    requires action in ACTIONS && action != "drop"
    ensures |reference| <= |ReducedText(env, text, action, goal, reference)|
    ensures var t := ReducedText(env, text, action, goal, reference); t[|t| - |reference|..] == reference
  {
  }
}
