/** What each action makes of a group, when it is offered, and how its original is found again. */
module Offers {
  import opened Text
  import opened Transcript
  import opened Groups
  import opened Excerpts
  import opened ExcerptContents
  import opened Wording
  import opened Scores
  import opened Representations
  import opened Assembly
  import opened Evaluations

  // ----- the wording -----

  lemma ReferenceReads(snapshot: string, id: string)
    ensures Reference(snapshot, id) == "[archived original: snapshot=" + snapshot + " message=" + id + "]"
  {
    assert ARCHIVED + (snapshot + (OF_MESSAGE + (id + "]"))) == ARCHIVED + snapshot + OF_MESSAGE + id + "]";
  }

  lemma NoBracket(snapshot: string, id: string, k: nat)
    requires '[' !in snapshot && '[' !in id && 0 < k < |Reference(snapshot, id)|
    ensures Reference(snapshot, id)[k] != '['
  {
    var tail := snapshot + (OF_MESSAGE + (id + "]"));
    OneBracket(ARCHIVED);
    assert '[' !in OF_MESSAGE && '[' !in "]";
    assert '[' !in tail;
    if k >= |ARCHIVED| {
      assert Reference(snapshot, id)[k] == tail[k - |ARCHIVED|];
    }
  }

  lemma OneBracket(archived: string)
    requires archived == ARCHIVED
    ensures forall k :: 0 < k < |archived| ==> archived[k] != '['
  {
  }

  /** A reference names one snapshot and one message. */
  lemma ReferenceNames(s: string, a: string, t: string, b: string)
    requires Reference(s, a) == Reference(t, b) && ' ' !in s && ' ' !in t
    ensures s == t && a == b
  {
    var rest, other := "message=" + (a + "]"), "message=" + (b + "]");
    ReferenceCuts(s, a);
    ReferenceCuts(t, b);
    SeparatorSplits(s, rest, t, other, ' ');
    assert rest[8..] == a + "]" && other[8..] == b + "]";
    assert (a + "]")[..|a|] == a && (b + "]")[..|b|] == b;
  }

  lemma ReferenceCuts(s: string, a: string)
    ensures Reference(s, a)[|ARCHIVED|..] == s + [' '] + ("message=" + (a + "]"))
  {
    assert OF_MESSAGE == [' '] + "message=";
    assert s + (OF_MESSAGE + (a + "]")) == s + [' '] + ("message=" + (a + "]"));
  }

  /** A text ends in one reference at most: it can be read off its end. */
  lemma OneReferenceAtTheEnd(text: string, s: string, a: string, t: string, b: string)
    requires '[' !in s && '[' !in a && '[' !in t && '[' !in b && ' ' !in s && ' ' !in t
    requires |Reference(s, a)| <= |text| && text[|text| - |Reference(s, a)|..] == Reference(s, a)
    requires |Reference(t, b)| <= |text| && text[|text| - |Reference(t, b)|..] == Reference(t, b)
    ensures s == t && a == b
  {
    if |Reference(s, a)| < |Reference(t, b)| {
      NotLonger(text, s, a, t, b);
    } else if |Reference(t, b)| < |Reference(s, a)| {
      NotLonger(text, t, b, s, a);
    }
    ReferenceNames(s, a, t, b);
  }

  lemma NotLonger(text: string, s: string, a: string, t: string, b: string)
    requires '[' !in t && '[' !in b
    requires |Reference(s, a)| <= |text| && text[|text| - |Reference(s, a)|..] == Reference(s, a)
    requires |Reference(t, b)| <= |text| && text[|text| - |Reference(t, b)|..] == Reference(t, b)
    ensures |Reference(t, b)| <= |Reference(s, a)|
  {
    var short, long := Reference(s, a), Reference(t, b);
    var start := |text| - |long|;
    forall i | start < i < |text|
      ensures text[i] != '['
    {
      NoBracket(t, b, i - start);
      assert text[start..][i - start] == text[i];
    }
    assert short[0] == '[' && text[|text| - |short|..][0] == text[|text| - |short|];
  }

  lemma {:induction false} BreaksAreLines(text: string)
    ensures Breaks(text) + 1 == |Split(text)|
  {
    if text != "" {
      BreaksAreLines(text[1..]);
    }
  }

  lemma HeadReads(text: string)
    ensures BriefHead(text) == "[output: " + Decimal(|text|) + " bytes, " + Decimal(|Split(text)|)
      + " lines; selected literal evidence]\n"
  {
    BreaksAreLines(text);
    FivePieces(OUTPUT, Decimal(|text|), BYTES, Decimal(|Split(text)|), LINES);
  }

  lemma FivePieces(a: string, b: string, c: string, d: string, e: string)
    ensures a + (b + (c + (d + e))) == a + b + c + d + e
  {
  }

  // ----- what each action makes of a tool result -----

  /** The evidence is the text itself or, when that is too long, an excerpt that shows all it can. */
  ghost predicate IsEvidence(keyword: KeywordScore, text: string, goal: string, limit: int, evidence: string) {
    if |text| <= limit then evidence == text
    else
      && (|text| + 1 < Pow10(28) ==> |evidence| <= limit)
      && exists shown :: ExcerptShows(keyword, Split(text), goal, limit, Split(evidence), shown)
  }

  lemma ExcerptIsEvidence(keyword: KeywordScore, text: string, goal: string, limit: int)
    requires limit >= 39
    ensures IsEvidence(keyword, text, goal, limit, Excerpt(keyword, text, goal, limit))
  {
    if |text| > limit {
      var shown := ExcerptShowsAll(keyword, text, goal, limit);
      if |text| + 1 < Pow10(28) {
        ExcerptBound(keyword, text, goal, limit);
      }
    }
  }

  /** The form of one tool result: the evidence of the action, then the reference to the original. */
  ghost predicate ReducedTo(keyword: KeywordScore, text: string, action: string, goal: string, reference: string,
                            reduced: string)
  {
    match action
    case "extract" => exists evidence ::
      IsEvidence(keyword, text, goal, 1600, evidence) && reduced == evidence + "\n" + reference
    case "brief" => exists evidence ::
      IsEvidence(keyword, text, goal, 320, evidence) && reduced == BriefHead(text) + evidence + "\n" + reference
    case "reference" => reduced == reference
    case _ => reduced == text
  }

  lemma TextIsReduced(env: Env, text: string, action: string, goal: string, reference: string)
    ensures ReducedTo(env.keyword, text, action, goal, reference, ReducedText(env, text, action, goal, reference))
  {
    if action == "extract" {
      ExcerptIsEvidence(env.keyword, text, goal, 1600);
      assert ReducedText(env, text, action, goal, reference)
        == Excerpt(env.keyword, text, goal, 1600) + "\n" + reference;
    } else if action == "brief" {
      ExcerptIsEvidence(env.keyword, text, goal, 320);
      assert ReducedText(env, text, action, goal, reference)
        == BriefHead(text) + Excerpt(env.keyword, text, goal, 320) + "\n" + reference;
    }
  }

  /** Dropping leaves nothing; every other action changes texts of tool results, to the form above. */
  lemma RepresentIsExact(env: Env, messages: seq<Message>, action: string, goal: string, snapshot: string)
    ensures action == "drop" ==> Represent(env, messages, action, goal, snapshot) == []
    ensures action != "drop" ==>
      var out := Represent(env, messages, action, goal, snapshot);
      && |out| == |messages|
      && forall i :: 0 <= i < |messages| ==>
           var m := messages[i];
           if m.role == "tool"
           then out[i] == m.(text := out[i].text)
                && ReducedTo(env.keyword, m.text, action, goal, Reference(snapshot, m.id), out[i].text)
           else out[i] == m
  {
    if action != "drop" {
      forall i | 0 <= i < |messages|
        ensures ReducedTo(env.keyword, messages[i].text, action, goal, Reference(snapshot, messages[i].id),
                          ReducedText(env, messages[i].text, action, goal, Reference(snapshot, messages[i].id)))
      {
        TextIsReduced(env, messages[i].text, action, goal, Reference(snapshot, messages[i].id));
      }
    }
  }

  // ----- when an action is offered -----

  /** The place of an action among the four. */
  function Place(action: string): int {
    match action
    case "extract" => 0
    case "brief" => 1
    case "reference" => 2
    case "drop" => 3
    case _ => 4
  }

  /** Someone says something in these messages that removal would lose. */
  ghost predicate Narrates(messages: seq<Message>) {
    exists m :: m in messages && m.role == "assistant" && !Blank(m.text)
  }

  lemma NarrationIsText(messages: seq<Message>)
    ensures ContainsAssistantText(messages) <==> Narrates(messages)
  {
    if ContainsAssistantText(messages) {
      var i :| 0 <= i < |messages| && messages[i].role == "assistant" && !Blank(messages[i].text);
      assert messages[i] in messages;
    }
  }

  /** An action is worth proposing when it saves tokens and, for removal, loses no narration. */
  ghost predicate Worth(env: Env, messages: seq<Message>, goal: string, snapshot: string, action: string) {
    && Count(env, Represent(env, messages, action, goal, snapshot)) < Count(env, messages)
    && (action == "drop" ==> !Narrates(messages))
  }

  ghost predicate Proposed(variants: seq<Variant>, action: string) {
    exists v :: v in variants && v.action == action
  }

  lemma {:induction false} ProposedExactly(env: Env, messages: seq<Message>, goal: string, snapshot: string,
                                           actions: seq<string>, a: string)
    ensures Proposed(Proposals(env, messages, goal, snapshot, Count(env, messages), actions), a)
      <==> a in actions && Worth(env, messages, goal, snapshot, a)
  {
    NarrationIsText(messages);
    if actions != [] {
      ProposedExactly(env, messages, goal, snapshot, actions[1..], a);
      var all := Proposals(env, messages, goal, snapshot, Count(env, messages), actions);
      var rest := Proposals(env, messages, goal, snapshot, Count(env, messages), actions[1..]);
      if all != rest {
        assert all[0] in all && forall v :: v in rest ==> v in all;
      }
    }
  }

  ghost predicate PlacesRise(variants: seq<Variant>) {
    forall j, k :: 0 <= j < k < |variants| ==> Place(variants[j].action) < Place(variants[k].action)
  }

  ghost predicate Falling(actions: seq<string>) {
    forall j, k :: 0 <= j < k < |actions| ==> Place(actions[j]) < Place(actions[k])
  }

  lemma {:induction false} ProposalsRise(env: Env, messages: seq<Message>, goal: string, snapshot: string,
                                         original: nat, actions: seq<string>)
    requires Falling(actions) && forall a :: a in actions ==> a in ACTIONS
    ensures PlacesRise(Proposals(env, messages, goal, snapshot, original, actions))
  {
    if actions != [] {
      ProposalsRise(env, messages, goal, snapshot, original, actions[1..]);
      ProposalsHonest(env, messages, goal, snapshot, original, actions[1..]);
      var rest := Proposals(env, messages, goal, snapshot, original, actions[1..]);
      forall k | 0 <= k < |rest|
        ensures Place(actions[0]) < Place(rest[k].action)
      {
        assert rest[k] in rest;
        var j :| 0 <= j < |actions[1..]| && actions[1..][j] == rest[k].action;
        assert actions[j + 1] == rest[k].action;
      }
    }
  }

  lemma {:induction false} WithoutDropKeeps(variants: seq<Variant>, v: Variant)
    ensures v in WithoutDrop(variants) <==> v in variants && v.action != "drop"
  {
    if variants != [] {
      var front, last := variants[..|variants| - 1], variants[|variants| - 1];
      WithoutDropKeeps(front, v);
      assert variants == front + [last];
    }
  }

  lemma WithoutDropProposes(variants: seq<Variant>, a: string)
    ensures Proposed(WithoutDrop(variants), a) <==> a != "drop" && Proposed(variants, a)
  {
    forall v
      ensures v in WithoutDrop(variants) <==> v in variants && v.action != "drop"
    {
      WithoutDropKeeps(variants, v);
    }
  }

  lemma {:induction false} WithoutDropRises(variants: seq<Variant>)
    requires PlacesRise(variants)
    ensures PlacesRise(WithoutDrop(variants))
  {
    if variants != [] {
      var front, last := variants[..|variants| - 1], variants[|variants| - 1];
      WithoutDropRises(front);
      forall v | v in WithoutDrop(front)
        ensures Place(v.action) < Place(last.action)
      {
        assert v in front;
        var k :| 0 <= k < |front| && front[k] == v;
        assert variants[k] == v;
      }
      assert forall k :: 0 <= k < |WithoutDrop(front)| ==> WithoutDrop(front)[k] in WithoutDrop(front);
    }
  }

  /**
   To an open group each of the four actions is offered exactly when it saves tokens and,
   for removal, loses no narration and the whole group may go; in the order extract, brief,
   reference, drop.
   */
  lemma OfferedExactly(env: Env, req: Request, g: Group, snapshot: string, a: string)
    requires InRange(g.indices, |req.messages|)
    ensures Proposed(Offered(env, req, g, snapshot), a) <==>
      && !g.protected && a in {"extract", "brief", "reference", "drop"}
      && Worth(env, GroupMessages(req.messages, g.indices), req.goal, snapshot, a)
      && (a == "drop" ==> !req.individually)
    ensures PlacesRise(Offered(env, req, g, snapshot))
  {
    var messages := GroupMessages(req.messages, g.indices);
    ProposedExactly(env, messages, req.goal, snapshot, ACTIONS, a);
    ProposalsRise(env, messages, req.goal, snapshot, Count(env, messages), ACTIONS);
    WithoutDropProposes(Variants(env, messages, req.goal, snapshot), a);
    WithoutDropRises(Variants(env, messages, req.goal, snapshot));
  }
}
