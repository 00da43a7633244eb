/** Stability of the group analysis for every transcript `Compact` returns. */
module StableResult {
  import opened Text
  import opened Transcript
  import opened Groups
  import opened Wording
  import opened Representations
  import opened Greedy
  import opened Evaluations
  import opened Engine
  import opened Guarantees
  import opened Preservation
  import opened Stability
  import opened StableGroups

  /** Rewriting valid JSON gives valid JSON, and valid UTF-8 stays valid. */
  ghost predicate RewritesJson(env: Env) {
    forall a: string :: env.validJson(a) && ValidUtf8(a) ==>
      env.validJson(env.canonical(a)) && ValidUtf8(env.canonical(a))
  }

  lemma CloneIsKin(env: Env, m: Message)
    ensures Kin(CloneMessage(env, m), m)
  {
    var clone := CloneMessage(env, m);
    assert forall k :: 0 <= k < |m.toolCalls| ==> SameCall(clone.toolCalls[k], m.toolCalls[k]);
  }

  lemma CloneCallsValid(env: Env, m: Message, taken: set<string>)
    requires RewritesJson(env) && FreshCalls(env.validJson, m.toolCalls, taken)
    ensures forall c :: c in CloneMessage(env, m).toolCalls ==> env.validJson(c.arguments) && ValidUtf8(c.arguments)
  {
    var clone := CloneMessage(env, m);
    forall c | c in clone.toolCalls
      ensures env.validJson(c.arguments) && ValidUtf8(c.arguments)
    {
      var k :| 0 <= k < |clone.toolCalls| && clone.toolCalls[k] == c;
      assert FreshCall(env.validJson, m.toolCalls, k, taken);
    }
  }

  lemma MessageIDIsValid(id: string)
    requires ValidMessageID(id)
    ensures ValidUtf8(id)
  {
    forall k | 0 <= k < |id|
      ensures id[k] as int < 0x80
    {
      assert IsIdChar(id[k]);
    }
    AsciiValid(id);
  }

  /** A surviving message is kin of the original, with valid content. */
  lemma SurvivorIsKin(env: Env, req: Request, groups: seq<Group>, snapshot: string, i: int, m: Message)
    requires 0 <= i < |req.messages| && MessageFits(env.validJson, req.messages, i)
    requires RewritesJson(env) && ValidUtf8(snapshot)
    requires Survives(env, Clone(env, req), groups, snapshot, i, m)
    ensures Kin(m, req.messages[i]) && ValidContent(env.validJson, m)
  {
    var original := req.messages[i];
    var clone := CloneMessage(env, original);
    CloneIsKin(env, original);
    CloneCallsValid(env, original, Called(req.messages[..i]));
    if m != clone {
      var a :| a in REDUCTIONS && m == ReducedMessage(env, clone, a, req.goal, snapshot);
      MessageIDIsValid(original.id);
      ReferenceValid(snapshot, original.id);
      ReducedTextValid(env, original.text, a, req.goal, Reference(snapshot, original.id));
    }
  }

  lemma RetainsIsSub(env: Env, req: Request, groups: seq<Group>, snapshot: string, out: seq<Message>, kept: seq<int>)
    requires Accepts(env.validJson, req) && RewritesJson(env) && ValidUtf8(snapshot)
    requires Retains(env, Clone(env, req), groups, snapshot, out, kept)
    ensures Sub(env.validJson, req, groups, out, kept)
  {
    forall k | 0 <= k < |kept|
      ensures Kin(out[k], req.messages[kept[k]]) && ValidContent(env.validJson, out[k])
    {
      assert MessageFits(env.validJson, req.messages, kept[k]);
      SurvivorIsKin(env, req, groups, snapshot, kept[k], out[k]);
    }
    forall g | 0 <= g < |groups|
      ensures AllKept(groups[g].indices, kept)
        || (NoneKept(groups[g].indices, kept) && !groups[g].protected && !req.individually)
    {
      assert WholeOrGone(Clone(env, req), groups[g], kept);
    }
  }

  /**
   Every non-empty transcript that is returned, under whatever status, is accepted again
   under the same settings, and its one grouping is the list of retained groups: same
   order, ids, members, flags and reasons.
   */
  lemma AnalysisIsStable(env: Env, req: Request, groups: seq<Group>, snapshot: string, scorer: Scorer,
                         sel: seq<Choice>, r: CompactResult) returns (kept: seq<int>)
    requires Accepts(env.validJson, req) && IsGrouping(req, groups) && AllInRange(groups, |req.messages|)
    requires Outcome(env, req, groups, snapshot, scorer, sel, r)
    requires RewritesJson(env) && ValidUtf8(snapshot) && r.messages != []
    ensures Retains(env, Clone(env, req), groups, snapshot, r.messages, kept)
    ensures Accepts(env.validJson, req.(messages := r.messages))
    ensures forall found :: IsGrouping(req.(messages := r.messages), found) <==> found == Retained(groups, kept)
  {
    kept := ResultRetains(env, req, groups, snapshot, scorer, sel, r);
    RetainsIsSub(env, req, groups, snapshot, r.messages, kept);
    AcceptedAgain(env.validJson, req, groups, r.messages, kept);
    RetainedIsGrouping(env.validJson, req, groups, r.messages, kept);
    forall found | IsGrouping(req.(messages := r.messages), found)
      ensures found == Retained(groups, kept)
    {
      GroupingUnique(req.(messages := r.messages), found, Retained(groups, kept));
    }
  }

  // ----- compacting again -----

  lemma SurvivorIsCanonical(env: Env, req: Request, groups: seq<Group>, snapshot: string, i: int, m: Message)
    requires 0 <= i < |req.messages| && Survives(env, Clone(env, req), groups, snapshot, i, m)
    requires forall a: string :: env.canonical(env.canonical(a)) == env.canonical(a)
    ensures CloneMessage(env, m) == m
  {
    var calls := req.messages[i].toolCalls;
    assert m.toolCalls == CloneMessage(env, req.messages[i]).toolCalls;
    assert forall k :: 0 <= k < |calls| ==> CloneCall(env, m.toolCalls[k]) == m.toolCalls[k];
    assert CloneMessage(env, m).toolCalls == m.toolCalls;
  }

  /** A compacted transcript is left alone by any later pass under the same settings. */
  lemma CompactedIsFinal(env: Env, req: Request, groups: seq<Group>, snapshot: string, scorer: Scorer,
                         sel: seq<Choice>, r: CompactResult,
                         groups': seq<Group>, snapshot': string, scorer': Scorer, sel': seq<Choice>, r': CompactResult)
    requires Accepts(env.validJson, req) && IsGrouping(req, groups) && AllInRange(groups, |req.messages|)
    requires Outcome(env, req, groups, snapshot, scorer, sel, r) && r.status == "compacted"
    requires forall a: string :: env.canonical(env.canonical(a)) == env.canonical(a)
    requires Accepts(env.validJson, req.(messages := r.messages)) && AllInRange(groups', |r.messages|)
    requires Outcome(env, req.(messages := r.messages), groups', snapshot', scorer', sel', r')
    ensures r'.status == "unchanged" && r'.budgetMet && r'.messages == r.messages
  {
    var kept := ResultRetains(env, req, groups, snapshot, scorer, sel, r);
    BudgetIsTold(env, req, groups, snapshot, scorer, sel, r);
    forall k | 0 <= k < |r.messages|
      ensures CloneMessage(env, r.messages[k]) == r.messages[k]
    {
      SurvivorIsCanonical(env, req, groups, snapshot, kept[k], r.messages[k]);
    }
    assert CloneMessages(env, r.messages) == r.messages;
  }
}
