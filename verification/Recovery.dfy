/** What `Compact` reduced or dropped can be recalled from the archive. */
module Recovery {
  import opened Text
  import opened Transcript
  import opened Groups
  import opened Wording
  import opened Offers
  import opened Representations
  import opened Greedy
  import opened Evaluations
  import opened Engine
  import opened Preservation
  import opened StableGroups
  import opened StableResult
  import Archive
  import opened ArchiveHistory

  predicate EndsIn(text: string, suffix: string) {
    |suffix| <= |text| && text[|text| - |suffix|..] == suffix
  }

  /** An identifier the archive makes is ASCII, so it can stand in a transcript. */
  lemma SnapshotIsText(id: string)
    requires Archive.ValidID(id)
    ensures ValidUtf8(id)
  {
    AsciiValid(id);
  }

  /** The call of Save numbered `k` returned `snapshot` for this request by time `t`. */
  ghost predicate SavedAs(hash: string -> string, decode: Decoder, trace: seq<Archive.State>, t: nat, k: nat,
                          req: Request, snapshot: string)
  {
    && IsHistory(hash, trace) && IsOrderly(hash, trace) && t < |trace| && k < |trace[t].savers|
    && trace[t].savers[k].stage == Archive.Finished(true)
    && snapshot == hash(trace[t].savers[k].data)
    && decode(trace[t].savers[k].data) == Some(req)
  }

  /** Every message of an archived request is recalled exactly, at any later time. */
  lemma OriginalIsRecalled(hash: string -> string, decode: Decoder, trace: seq<Archive.State>, t: nat, u: nat, k: nat,
                           req: Request, snapshot: string, i: nat)
    requires Archive.Hashes(hash) && SavedAs(hash, decode, trace, t, k, req, snapshot)
    requires t <= u < |trace| && CollisionFree(hash, trace[u].savers)
    requires forall j, l :: 0 <= j < l < |req.messages| ==> req.messages[j].id != req.messages[l].id
    requires i < |req.messages|
    ensures Recall(hash, decode, trace[u], snapshot, req.messages[i].id) == Success(req.messages[i])
  {
    SavedIsLoaded(hash, decode, trace, t, u, k);
    FindMessageExact(req.messages, i);
  }

  /** A changed message ends in the reference to its original. */
  lemma ChangeIsReferenced(env: Env, req: Request, groups: seq<Group>, snapshot: string, i: int, m: Message)
    requires 0 <= i < |req.messages| && Survives(env, req, groups, snapshot, i, m) && m != req.messages[i]
    ensures m.id == req.messages[i].id && EndsIn(m.text, Reference(snapshot, m.id))
  {
    var a :| a in REDUCTIONS && m == ReducedMessage(env, req.messages[i], a, req.goal, snapshot);
    ReducedTextEnds(env, req.messages[i].text, a, req.goal, Reference(snapshot, m.id));
  }

  /** No hexadecimal digit and no character of a message id is a bracket or a space. */
  lemma NoMarks(snapshot: string, id: string)
    requires Archive.ValidID(snapshot) && ValidMessageID(id)
    ensures '[' !in snapshot && ' ' !in snapshot && '[' !in id
  {
    forall c | c in id
      ensures c != '['
    {
      var k :| 0 <= k < |id| && id[k] == c;
      assert IsIdChar(id[k]);
    }
  }

  /** Whoever reads a reference off the end of a text reads the one that was put there. */
  lemma ReferenceIsRead(text: string, snapshot: string, id: string, s: string, a: string)
    requires Archive.ValidID(snapshot) && ValidMessageID(id) && EndsIn(text, Reference(snapshot, id))
    requires Archive.ValidID(s) && ValidMessageID(a) && EndsIn(text, Reference(s, a))
    ensures s == snapshot && a == id
  {
    NoMarks(snapshot, id);
    NoMarks(s, a);
    OneReferenceAtTheEnd(text, s, a, snapshot, id);
  }

  /**
   Recoverability.  When the archive has the clone under the snapshot of the result, every
   message of the input is recalled exactly, the dropped ones included, and every changed
   message in the result ends in the reference that recalls its own original.
   */
  lemma EverythingIsRecoverable(env: Env, req: Request, groups: seq<Group>, snapshot: string, scorer: Scorer,
                                sel: seq<Choice>, r: CompactResult,
                                hash: string -> string, decode: Decoder, trace: seq<Archive.State>,
                                t: nat, u: nat, k: nat)
    returns (kept: seq<int>)
    requires Accepts(env.validJson, req) && IsGrouping(req, groups) && AllInRange(groups, |req.messages|)
    requires Outcome(env, req, groups, snapshot, scorer, sel, r)
    requires Archive.Hashes(hash) && SavedAs(hash, decode, trace, t, k, Clone(env, req), snapshot)
    requires t <= u < |trace| && CollisionFree(hash, trace[u].savers)
    ensures Retains(env, Clone(env, req), groups, snapshot, r.messages, kept)
    ensures forall i :: 0 <= i < |req.messages| ==>
      Recall(hash, decode, trace[u], snapshot, req.messages[i].id) == Success(Clone(env, req).messages[i])
    ensures forall p :: 0 <= p < |kept| && r.messages[p] != Clone(env, req).messages[kept[p]] ==>
      && EndsIn(r.messages[p].text, Reference(snapshot, r.messages[p].id))
      && Recall(hash, decode, trace[u], snapshot, r.messages[p].id) == Success(Clone(env, req).messages[kept[p]])
  {
    var clone := Clone(env, req);
    GroupingLays(env, req, groups);
    kept := ResultRetains(env, req, groups, snapshot, scorer, sel, r);
    forall i | 0 <= i < |req.messages|
      ensures Recall(hash, decode, trace[u], snapshot, req.messages[i].id) == Success(clone.messages[i])
    {
      OriginalIsRecalled(hash, decode, trace, t, u, k, clone, snapshot, i);
    }
    forall p | 0 <= p < |kept| && r.messages[p] != clone.messages[kept[p]]
      ensures EndsIn(r.messages[p].text, Reference(snapshot, r.messages[p].id))
      ensures Recall(hash, decode, trace[u], snapshot, r.messages[p].id) == Success(clone.messages[kept[p]])
    {
      assert Survives(env, clone, groups, snapshot, kept[p], r.messages[p]);
      ChangeIsReferenced(env, clone, groups, snapshot, kept[p], r.messages[p]);
    }
  }

  /** The analysis is stable whenever this store has the clone: its ids can stand in a transcript. */
  lemma StoredAnalysisIsStable(env: Env, req: Request, groups: seq<Group>, snapshot: string, scorer: Scorer,
                               sel: seq<Choice>, r: CompactResult,
                               hash: string -> string, decode: Decoder, trace: seq<Archive.State>, t: nat, k: nat)
    returns (kept: seq<int>)
    requires Accepts(env.validJson, req) && IsGrouping(req, groups) && AllInRange(groups, |req.messages|)
    requires Outcome(env, req, groups, snapshot, scorer, sel, r)
    requires RewritesJson(env) && r.messages != []
    requires Archive.Hashes(hash) && SavedAs(hash, decode, trace, t, k, Clone(env, req), snapshot)
    ensures Accepts(env.validJson, req.(messages := r.messages))
    ensures forall found :: IsGrouping(req.(messages := r.messages), found) <==> found == Retained(groups, kept)
  {
    SnapshotIsText(snapshot);
    kept := AnalysisIsStable(env, req, groups, snapshot, scorer, sel, r);
  }
}
