/** Whole histories of the snapshot store, and when exactly its files stay whole and saved. */
module ArchiveHistory {
  import opened Transcript
  import opened Archive

  // ----- histories -----

  ghost predicate StepsAt(hash: string -> string, trace: seq<State>, t: nat)
    requires t + 1 < |trace|
  {
    exists a :: Enabled(trace[t], a) && trace[t + 1] == Do(hash, trace[t], a)
  }

  ghost predicate OrderlyAt(hash: string -> string, trace: seq<State>, t: nat)
    requires t + 1 < |trace|
  {
    exists a :: Enabled(trace[t], a) && Orderly(trace[t], a) && trace[t + 1] == Do(hash, trace[t], a)
  }

  /** Any interleaving of savers, disk writes and crashes, from an empty directory. */
  ghost predicate IsHistory(hash: string -> string, trace: seq<State>) {
    && |trace| > 0 && trace[0] == EMPTY
    && forall t: nat :: t + 1 < |trace| ==> StepsAt(hash, trace, t)
  }

  /** No temporary name was handed out while a saver between create and rename held it. */
  ghost predicate IsOrderly(hash: string -> string, trace: seq<State>) {
    forall t: nat :: t + 1 < |trace| ==> OrderlyAt(hash, trace, t)
  }

  lemma {:induction false} OrderlyInv(hash: string -> string, trace: seq<State>, t: nat)
    requires Hashes(hash) && t < |trace| && Inv(hash, trace[0])
    requires forall i: nat :: i < t ==> OrderlyAt(hash, trace, i)
    ensures Inv(hash, trace[t])
  {
    if t > 0 {
      OrderlyInv(hash, trace, t - 1);
      assert OrderlyAt(hash, trace, t - 1);
      var s := trace[t - 1];
      var a :| Enabled(s, a) && Orderly(s, a) && trace[t] == Do(hash, s, a);
      StepKeeps(hash, s, a);
    }
  }

  /** A call that has returned keeps its answer, whatever crashes. */
  lemma {:induction false} FinishedStays(hash: string -> string, trace: seq<State>, t: nat, u: nat, k: nat)
    requires IsHistory(hash, trace) && t <= u < |trace|
    requires k < |trace[t].savers| && trace[t].savers[k].stage.Finished?
    ensures k < |trace[u].savers| && trace[u].savers[k] == trace[t].savers[k]
    decreases u
  {
    if t < u {
      FinishedStays(hash, trace, t, u - 1, k);
      assert StepsAt(hash, trace, u - 1);
      var a :| Enabled(trace[u - 1], a) && trace[u] == Do(hash, trace[u - 1], a);
      FinishedNext(hash, trace[u - 1], a, k);
    }
  }

  lemma FinishedNext(hash: string -> string, s: State, a: Action, k: nat)
    requires Enabled(s, a) && k < |s.savers| && s.savers[k].stage.Finished?
    ensures k < |Do(hash, s, a).savers| && Do(hash, s, a).savers[k] == s.savers[k]
  {
  }

  // ----- loading -----

  datatype LoadError = NotFound | IntegrityFailed | Undecodable

  type Decoder = string -> Option<Request>

  /** `Load` */
  function Load(hash: string -> string, decode: Decoder, s: State, id: string): Result<Request, LoadError> {
    if !ValidID(id) then Failure(NotFound)
    else if id + ".json" !in s.names || s.names[id + ".json"] !in s.content then Failure(NotFound)
    else
      var data := s.content[s.names[id + ".json"]];
      if hash(data) != id then Failure(IntegrityFailed)
      else match decode(data) case Some(req) => Success(req) case None => Failure(Undecodable)
  }

  /** The file under this id is there and has the hash that was asked for. */
  predicate Loads(hash: string -> string, decode: Decoder, s: State, id: string) {
    var loaded := Load(hash, decode, s, id);
    loaded.Failure? ==> loaded.error == Undecodable
  }

  lemma FinalInjective(hash: string -> string, a: string, b: string)
    requires Hashes(hash) && Final(hash, a) == Final(hash, b)
    ensures hash(a) == hash(b)
  {
    assert ValidID(hash(a)) && ValidID(hash(b));
    assert Final(hash, a)[..64] == hash(a) && Final(hash, b)[..64] == hash(b);
  }

  // ----- what can still happen -----

  /** `u` can follow `s` without another name being handed out too early. */
  ghost predicate Leads(hash: string -> string, s: State, u: State) {
    exists trace :: IsOrderly(hash, trace) && |trace| > 0 && trace[0] == s && trace[|trace| - 1] == u
  }

  /** No orderly continuation shows a snapshot file that is not whole. */
  ghost predicate Safe(hash: string -> string, s: State) {
    forall u :: Leads(hash, s, u) ==> Integrity(hash, u)
  }

  /** Every Save that has returned an id can be loaded under it. */
  ghost predicate AllLoad(hash: string -> string, decode: Decoder, s: State) {
    forall k :: 0 <= k < |s.savers| && s.savers[k].stage == Finished(true) ==>
      Loads(hash, decode, s, hash(s.savers[k].data))
  }

  /** No orderly continuation loses a snapshot that was saved. */
  ghost predicate Lasting(hash: string -> string, decode: Decoder, s: State) {
    forall u :: Leads(hash, s, u) ==> AllLoad(hash, decode, u)
  }

  lemma LeadsHere(hash: string -> string, s: State)
    ensures Leads(hash, s, s)
  {
    assert IsOrderly(hash, [s]);
  }

  lemma LeadsOn(hash: string -> string, s: State, a: Action, u: State)
    requires Enabled(s, a) && Orderly(s, a) && Leads(hash, Do(hash, s, a), u)
    ensures Leads(hash, s, u)
  {
    var trace :| IsOrderly(hash, trace) && |trace| > 0 && trace[0] == Do(hash, s, a) && trace[|trace| - 1] == u;
    var longer := [s] + trace;
    forall t: nat | t + 1 < |longer|
      ensures OrderlyAt(hash, longer, t)
    {
      if t > 0 {
        assert OrderlyAt(hash, trace, t - 1);
        assert longer[t] == trace[t - 1] && longer[t + 1] == trace[t];
      } else {
        assert longer[0] == s && longer[1] == Do(hash, s, a);
      }
    }
    assert longer[|longer| - 1] == u;
  }

  lemma InvLoads(hash: string -> string, decode: Decoder, s: State, k: nat)
    requires Hashes(hash) && Inv(hash, s) && k < |s.savers| && s.savers[k].stage == Finished(true)
    ensures Loads(hash, decode, s, hash(s.savers[k].data))
  {
    var data := s.savers[k].data;
    assert Durable(hash, s, k) && ValidID(hash(data));
    FinalIsNotTemp(hash, data);
    var name := Final(hash, data);
    assert Intact(hash, s, name, s.names[name]);
    FinalInjective(hash, data, s.content[s.names[name]]);
  }

  lemma InvIsSafe(hash: string -> string, decode: Decoder, s: State)
    requires Hashes(hash) && Inv(hash, s)
    ensures Safe(hash, s) && Lasting(hash, decode, s)
  {
    forall u | Leads(hash, s, u)
      ensures Integrity(hash, u) && AllLoad(hash, decode, u)
    {
      var trace :| IsOrderly(hash, trace) && |trace| > 0 && trace[0] == s && trace[|trace| - 1] == u;
      OrderlyInv(hash, trace, |trace| - 1);
      forall k | 0 <= k < |u.savers| && u.savers[k].stage == Finished(true)
        ensures Loads(hash, decode, u, hash(u.savers[k].data))
      {
        InvLoads(hash, decode, u, k);
      }
    }
  }

  // ----- a name handed out while its saver is at work -----

  /** Saver `j` is at work on its own file, but the name it will rename denotes the unfinished file `i`. */
  ghost predicate Crossed(s: State, j: nat, i: nat) {
    && j < |s.savers| && Pending(s.savers[j]) && SaverFile(s, s.savers[j])
    && s.savers[j].temp in s.names && s.names[s.savers[j].temp] == i && s.savers[j].inode != i
    && i in s.content && s.content[i] == "" && i !in s.synced
  }

  /** What a saver has written so far. */
  ghost predicate SaverFile(s: State, saver: Saver) {
    && saver.inode in s.content
    && (saver.stage.Writing? ==> s.content[saver.inode] <= saver.data)
    && (saver.stage.Written? ==> s.content[saver.inode] == saver.data)
  }

  /** The snapshot of saver `j` was committed with the wrong, unfinished file. */
  ghost predicate Miscommitted(hash: string -> string, s: State, j: nat, i: nat) {
    && j < |s.savers| && s.savers[j].stage.Renamed?
    && Final(hash, s.savers[j].data) in s.names && s.names[Final(hash, s.savers[j].data)] == i
    && i in s.content && i !in s.synced
  }

  function Ahead(stage: Stage): nat {
    match stage
    case Writing => 4
    case Written => 3
    case Synced => 2
    case Closed => 1
    case _ => 0
  }

  lemma WriteOn(hash: string -> string, s: State, j: nat, i: nat) returns (t: State)
    requires Crossed(s, j, i) && s.savers[j].stage.Writing?
    ensures Crossed(t, j, i) && t.savers[j] == s.savers[j].(stage := Written)
    ensures forall u :: Leads(hash, t, u) ==> Leads(hash, s, u)
  {
    var write := Write(j, |s.savers[j].data|);
    var m := Do(hash, s, write);
    assert m.content[s.savers[j].inode] == s.savers[j].data;
    t := Do(hash, m, EndWrite(j));
    forall u | Leads(hash, t, u)
      ensures Leads(hash, s, u)
    {
      LeadsOn(hash, m, EndWrite(j), u);
      LeadsOn(hash, s, write, u);
    }
  }

  lemma WorkOn(hash: string -> string, s: State, a: Action, j: nat, i: nat) returns (t: State)
    requires Crossed(s, j, i)
    requires (a == SyncFile(j) && s.savers[j].stage.Written?) || (a == CloseFile(j) && s.savers[j].stage.Synced?)
    ensures Crossed(t, j, i) && Ahead(t.savers[j].stage) < Ahead(s.savers[j].stage)
    ensures t.savers[j].data == s.savers[j].data
    ensures forall u :: Leads(hash, t, u) ==> Leads(hash, s, u)
  {
    t := Do(hash, s, a);
    forall u | Leads(hash, t, u)
      ensures Leads(hash, s, u)
    {
      LeadsOn(hash, s, a, u);
    }
  }

  /** The saver goes on with its own file and then commits the other one. */
  lemma {:induction false} Miscommits(hash: string -> string, s: State, j: nat, i: nat) returns (t: State)
    requires Hashes(hash) && Crossed(s, j, i)
    ensures Leads(hash, s, t) && Miscommitted(hash, t, j, i)
    decreases Ahead(s.savers[j].stage)
  {
    if s.savers[j].stage.Closed? {
      t := Do(hash, s, Rename(j));
      LeadsHere(hash, t);
      LeadsOn(hash, s, Rename(j), t);
    } else if s.savers[j].stage.Writing? {
      var next := WriteOn(hash, s, j, i);
      t := Miscommits(hash, next, j, i);
    } else {
      var next := WorkOn(hash, s, if s.savers[j].stage.Written? then SyncFile(j) else CloseFile(j), j, i);
      t := Miscommits(hash, next, j, i);
    }
  }

  lemma CreateCrosses(hash: string -> string, s: State, k: nat, name: string) returns (j: nat)
    requires Inv(hash, s) && Enabled(s, Create(k, name)) && HeldName(s.savers, name)
    ensures Crossed(Do(hash, s, Create(k, name)), j, s.nextInode)
  {
    j :| j < |s.savers| && Pending(s.savers[j]) && s.savers[j].temp == name;
    assert SaverOk(s, j);
  }

  lemma MiscommittedIsBroken(hash: string -> string, s: State, j: nat, i: nat)
    requires Hashes(hash) && Miscommitted(hash, s, j, i)
    ensures !Integrity(hash, s)
  {
    FinalIsNotTemp(hash, s.savers[j].data);
  }

  /** The miscommitted Save returns its id. */
  lemma MiscommittedReturns(hash: string -> string, s: State, j: nat, i: nat) returns (t: State)
    requires Miscommitted(hash, s, j, i)
    ensures j < |t.savers| && t.savers[j] == s.savers[j].(stage := Finished(true))
    ensures Final(hash, s.savers[j].data) in t.disk && t.disk[Final(hash, s.savers[j].data)] == i
    ensures i in t.content && i !in t.synced
    ensures forall u :: Leads(hash, t, u) ==> Leads(hash, s, u)
  {
    var synced := Do(hash, s, SyncDir(j));
    t := Do(hash, synced, Cleanup(j, false));
    forall u | Leads(hash, t, u)
      ensures Leads(hash, s, u)
    {
      LeadsOn(hash, synced, Cleanup(j, false), u);
      LeadsOn(hash, s, SyncDir(j), u);
    }
  }

  /** After a power loss other bytes stand under the id. */
  lemma MiscommittedIsLost(hash: string -> string, decode: Decoder, s: State, j: nat, i: nat, other: string)
    returns (t: State)
    requires Hashes(hash) && Miscommitted(hash, s, j, i) && hash(other) != hash(s.savers[j].data)
    ensures Leads(hash, s, t) && !AllLoad(hash, decode, t)
  {
    var data := s.savers[j].data;
    var returned := MiscommittedReturns(hash, s, j, i);
    var loss := PowerLoss(returned.content[i := other]);
    t := Do(hash, returned, loss);
    LeadsHere(hash, t);
    LeadsOn(hash, returned, loss, t);
    assert ValidID(hash(data));
    assert t.savers[j].stage == Finished(true) && t.savers[j].data == data;
    assert t.names[Final(hash, data)] == i && t.content[i] == other;
  }

  // ----- the exact condition -----

  /**
   After an orderly history every step keeps the files of all continuations whole, except
   the one case: CreateTemp hands out a name that a saver between create and rename holds.
   */
  lemma StepIsSafeIffOrderly(hash: string -> string, s: State, a: Action)
    requires Hashes(hash) && Inv(hash, s) && Enabled(s, a)
    ensures Safe(hash, Do(hash, s, a)) <==> Orderly(s, a)
  {
    var t := Do(hash, s, a);
    if Orderly(s, a) {
      StepKeeps(hash, s, a);
      InvIsSafe(hash, _ => None, t);
    } else {
      var j := CreateCrosses(hash, s, a.k, a.name);
      var u := Miscommits(hash, t, j, s.nextInode);
      MiscommittedIsBroken(hash, u, j, s.nextInode);
    }
  }

  /** The same for the snapshots that were saved: only such a step lets one be lost. */
  lemma StepIsLastingIffOrderly(hash: string -> string, decode: Decoder, s: State, a: Action, x: string, y: string)
    requires Hashes(hash) && Inv(hash, s) && Enabled(s, a) && hash(x) != hash(y)
    ensures Lasting(hash, decode, Do(hash, s, a)) <==> Orderly(s, a)
  {
    var t := Do(hash, s, a);
    if Orderly(s, a) {
      StepKeeps(hash, s, a);
      InvIsSafe(hash, decode, t);
    } else {
      var j := CreateCrosses(hash, s, a.k, a.name);
      var u := Miscommits(hash, t, j, s.nextInode);
      var other := if hash(x) == hash(u.savers[j].data) then y else x;
      var lost := MiscommittedIsLost(hash, decode, u, j, s.nextInode, other);
      LeadsThrough(hash, t, u, lost);
    }
  }

  lemma LeadsThrough(hash: string -> string, s: State, t: State, u: State)
    requires Leads(hash, s, t) && Leads(hash, t, u)
    ensures Leads(hash, s, u)
  {
    var front :| IsOrderly(hash, front) && |front| > 0 && front[0] == s && front[|front| - 1] == t;
    LeadsAlong(hash, front, 0, u);
  }

  lemma {:induction false} LeadsAlong(hash: string -> string, trace: seq<State>, t: nat, u: State)
    requires IsOrderly(hash, trace) && t < |trace| && Leads(hash, trace[|trace| - 1], u)
    ensures Leads(hash, trace[t], u)
    decreases |trace| - t
  {
    if t + 1 < |trace| {
      LeadsAlong(hash, trace, t + 1, u);
      assert OrderlyAt(hash, trace, t);
      var a :| Enabled(trace[t], a) && Orderly(trace[t], a) && trace[t + 1] == Do(hash, trace[t], a);
      LeadsOn(hash, trace[t], a, u);
    }
  }

  /** A history keeps every file whole, whatever follows, if and only if it is orderly. */
  lemma SafeIffOrderly(hash: string -> string, trace: seq<State>)
    requires Hashes(hash) && IsHistory(hash, trace)
    ensures (forall t :: 0 <= t < |trace| ==> Safe(hash, trace[t])) <==> IsOrderly(hash, trace)
  {
    if IsOrderly(hash, trace) {
      forall t | 0 <= t < |trace|
        ensures Safe(hash, trace[t])
      {
        OrderlyInv(hash, trace, t);
        InvIsSafe(hash, _ => None, trace[t]);
      }
    } else {
      var t := FirstDisorder(hash, trace);
      OrderlyInv(hash, trace, t);
      assert StepsAt(hash, trace, t);
      var a :| Enabled(trace[t], a) && trace[t + 1] == Do(hash, trace[t], a);
      StepIsSafeIffOrderly(hash, trace[t], a);
      assert !Safe(hash, trace[t + 1]);
    }
  }

  /** A history keeps every saved snapshot, whatever follows, if and only if it is orderly. */
  lemma LastingIffOrderly(hash: string -> string, decode: Decoder, trace: seq<State>, x: string, y: string)
    requires Hashes(hash) && IsHistory(hash, trace) && hash(x) != hash(y)
    ensures (forall t :: 0 <= t < |trace| ==> Lasting(hash, decode, trace[t])) <==> IsOrderly(hash, trace)
  {
    if IsOrderly(hash, trace) {
      forall t | 0 <= t < |trace|
        ensures Lasting(hash, decode, trace[t])
      {
        OrderlyInv(hash, trace, t);
        InvIsSafe(hash, decode, trace[t]);
      }
    } else {
      var t := FirstDisorder(hash, trace);
      OrderlyInv(hash, trace, t);
      assert StepsAt(hash, trace, t);
      var a :| Enabled(trace[t], a) && trace[t + 1] == Do(hash, trace[t], a);
      StepIsLastingIffOrderly(hash, decode, trace[t], a, x, y);
      assert !Lasting(hash, decode, trace[t + 1]);
    }
  }

  lemma FirstDisorder(hash: string -> string, trace: seq<State>) returns (t: nat)
    requires !IsOrderly(hash, trace)
    ensures t + 1 < |trace| && !OrderlyAt(hash, trace, t)
    ensures forall i: nat :: i < t ==> OrderlyAt(hash, trace, i)
  {
    t := 0;
    while OrderlyAt(hash, trace, t)
      invariant t + 1 < |trace|
      invariant forall i: nat :: i < t ==> OrderlyAt(hash, trace, i)
      decreases |trace| - t
    {
      assert exists i: nat :: i + 1 < |trace| && !OrderlyAt(hash, trace, i);
      t := t + 1;
    }
  }

  /** What a caller can do about it: with one saver at a time every history is orderly. */
  lemma OneSaverIsOrderly(hash: string -> string, trace: seq<State>)
    requires IsHistory(hash, trace)
    requires forall t :: 0 <= t < |trace| ==> AtMostOne(trace[t].savers)
    ensures IsOrderly(hash, trace)
  {
    forall t: nat | t + 1 < |trace|
      ensures OrderlyAt(hash, trace, t)
    {
      assert StepsAt(hash, trace, t);
      var s := trace[t];
      var a :| Enabled(s, a) && trace[t + 1] == Do(hash, s, a);
      assert AtMostOne(trace[t + 1].savers);
      if a.Create? {
        OnlyOneIsOrderly(hash, s, a.k, a.name);
      }
    }
  }

  lemma OnlyOneIsOrderly(hash: string -> string, s: State, k: nat, name: string)
    requires Enabled(s, Create(k, name)) && AtMostOne(Do(hash, s, Create(k, name)).savers)
    ensures Orderly(s, Create(k, name))
  {
    var t := Do(hash, s, Create(k, name));
    forall j | 0 <= j < |s.savers|
      ensures !Pending(s.savers[j])
    {
      assert Live(t.savers[k]) && (j != k ==> t.savers[j] == s.savers[j]);
    }
  }

  ghost predicate AtMostOne(savers: seq<Saver>) {
    forall j, k :: 0 <= j < k < |savers| ==> !(Live(savers[j]) && Live(savers[k]))
  }

  // ----- a history that loses a saved snapshot -----

  ghost predicate Reachable(hash: string -> string, s: State) {
    exists trace :: IsHistory(hash, trace) && s == trace[|trace| - 1]
  }

  lemma ReachStart(hash: string -> string)
    ensures Reachable(hash, EMPTY)
  {
    assert IsHistory(hash, [EMPTY]);
  }

  lemma ReachStep(hash: string -> string, s: State, a: Action) returns (t: State)
    requires Reachable(hash, s) && Enabled(s, a)
    ensures Reachable(hash, t) && t == Do(hash, s, a)
  {
    t := Do(hash, s, a);
    var trace :| IsHistory(hash, trace) && s == trace[|trace| - 1];
    var longer := trace + [t];
    forall i: nat | i + 1 < |longer|
      ensures StepsAt(hash, longer, i)
    {
      if i + 1 < |trace| {
        assert StepsAt(hash, trace, i);
        assert longer[i] == trace[i] && longer[i + 1] == trace[i + 1];
      } else {
        assert longer[i] == s && longer[i + 1] == t;
      }
    }
    assert IsHistory(hash, longer);
  }

  const NAME := ".snapshot-0"
  const DATA := "{}"

  /** Three calls save the same request. */
  lemma ThreeBegin(hash: string -> string) returns (s: State)
    ensures Reachable(hash, s)
    ensures s == EMPTY.(savers := [Saver(DATA, Start, "", 0), Saver(DATA, Start, "", 0), Saver(DATA, Start, "", 0)])
  {
    ReachStart(hash);
    s := ReachStep(hash, EMPTY, Begin(DATA));
    s := ReachStep(hash, s, Begin(DATA));
    s := ReachStep(hash, s, Begin(DATA));
  }

  /** One saver takes the name and writes, synchronizes and closes its file. */
  lemma FileClosed(hash: string -> string, s: State, k: nat) returns (t: State)
    requires Reachable(hash, s) && k < |s.savers| && s.savers[k] == Saver(DATA, Start, "", 0) && NAME !in s.names
    ensures Reachable(hash, t)
    ensures t.names == s.names[NAME := s.nextInode] && t.nextInode == s.nextInode + 1
    ensures t.synced == s.synced + {s.nextInode}
    ensures t.savers == s.savers[k := Saver(DATA, Closed, NAME, s.nextInode)]
  {
    var i := s.nextInode;
    t := ReachStep(hash, s, Create(k, NAME));
    assert t.savers[k] == Saver(DATA, Writing, NAME, i) && t.content[i] == "";
    t := ReachStep(hash, t, Write(k, |DATA|));
    assert t.savers[k] == Saver(DATA, Writing, NAME, i) && t.content[i] == DATA;
    t := ReachStep(hash, t, EndWrite(k));
    assert t.savers[k] == Saver(DATA, Written, NAME, i);
    t := ReachStep(hash, t, SyncFile(k));
    assert t.savers[k] == Saver(DATA, Synced, NAME, i);
    t := ReachStep(hash, t, CloseFile(k));
  }

  /** The first saver commits but has not cleaned up yet; the second gets the same name. */
  lemma NameTakenAgain(hash: string -> string) returns (s: State)
    requires Hashes(hash)
    ensures Reachable(hash, s) && |s.savers| == 3
    ensures s.savers[0] == Saver(DATA, Renamed, NAME, 0) && s.savers[1] == Saver(DATA, Closed, NAME, 1)
    ensures s.savers[2] == Saver(DATA, Start, "", 0)
    ensures s.nextInode == 2 && s.synced == {0, 1}
  {
    s := ThreeBegin(hash);
    s := FileClosed(hash, s, 0);
    s := ReachStep(hash, s, Rename(0));
    FinalIsNotTemp(hash, DATA);
    assert NAME !in s.names;
    s := FileClosed(hash, s, 1);
  }

  /**
   A concrete history with such a name.  The first Save has returned its id, and what is
   loaded under this id now is the empty file of a third saver.
   */
  lemma SavedSnapshotIsLost(hash: string -> string, decode: Decoder) returns (s: State)
    requires Hashes(hash) && hash("") != hash(DATA)
    ensures Reachable(hash, s) && !Integrity(hash, s)
    ensures |s.savers| == 3 && s.savers[0] == Saver(DATA, Finished(true), NAME, 0)
    ensures Load(hash, decode, s, hash(DATA)) == Failure(IntegrityFailed)
  {
    s := NameTakenAgain(hash);
    s := ReachStep(hash, s, SyncDir(0));
    s := ReachStep(hash, s, Cleanup(0, true));
    assert NAME !in s.names && s.savers[1] == Saver(DATA, Closed, NAME, 1);
    s := ReachStep(hash, s, Create(2, NAME));
    assert s.names[NAME] == 2 && 2 !in s.synced && s.savers[1] == Saver(DATA, Closed, NAME, 1);
    s := ReachStep(hash, s, Rename(1));
    FinalIsNotTemp(hash, DATA);
    assert s.names[Final(hash, DATA)] == 2 && s.content[2] == "";
    assert ValidID(hash(DATA));
  }

  /** The bytes of the snapshot file with this id, when the id is one and the file is there. */
  ghost predicate Holds(s: State, id: string, data: string) {
    && |id| == 64 && (forall c :: c in id ==> '0' <= c <= '9' || 'a' <= c <= 'f')
    && exists inode :: id + ".json" in s.names && s.names[id + ".json"] == inode
         && inode in s.content && s.content[inode] == data
  }

  /** The file with this id has the hash of its id and decodes to the request. */
  ghost predicate HoldsRequest(hash: string -> string, decode: Decoder, s: State, id: string, req: Request) {
    exists data :: Holds(s, id, data) && hash(data) == id && decode(data) == Some(req)
  }

  lemma HoldsWhatIsRead(s: State, id: string)
    ensures (ValidID(id) && id + ".json" in s.names && s.names[id + ".json"] in s.content)
      <==> exists data :: Holds(s, id, data)
  {
    if ValidID(id) && id + ".json" in s.names && s.names[id + ".json"] in s.content {
      assert Holds(s, id, s.content[s.names[id + ".json"]]);
    }
    if data :| Holds(s, id, data) {
      assert forall k :: 0 <= k < |id| ==> id[k] in id;
    }
  }

  /**
   Loading succeeds exactly with the decoded bytes of the file that carries the id, when
   their hash is the id; the errors tell which of this is missing.
   */
  lemma LoadIsExact(hash: string -> string, decode: Decoder, s: State, id: string)
    ensures Load(hash, decode, s, id) == Failure(NotFound) <==> forall data :: !Holds(s, id, data)
    ensures Load(hash, decode, s, id) == Failure(IntegrityFailed)
      <==> exists data :: Holds(s, id, data) && hash(data) != id
    ensures forall req :: Load(hash, decode, s, id) == Success(req) <==> HoldsRequest(hash, decode, s, id, req)
  {
    HoldsWhatIsRead(s, id);
    if data :| Holds(s, id, data) {
      assert data == s.content[s.names[id + ".json"]];
    }
  }

  /** No two documents that were saved have the same hash. */
  ghost predicate CollisionFree(hash: string -> string, savers: seq<Saver>) {
    forall j, k :: 0 <= j < |savers| && 0 <= k < |savers| && hash(savers[j].data) == hash(savers[k].data) ==>
      savers[j].data == savers[k].data
  }

  /**
   Once Save has returned, its snapshot loads in every later state of an orderly history,
   through other savers, killed processes and power losses.
   */
  lemma SavedIsLoaded(hash: string -> string, decode: Decoder, trace: seq<State>, t: nat, u: nat, k: nat)
    requires Hashes(hash) && IsHistory(hash, trace) && IsOrderly(hash, trace) && t <= u < |trace|
    requires k < |trace[t].savers| && trace[t].savers[k].stage == Finished(true)
    requires CollisionFree(hash, trace[u].savers)
    ensures var data := trace[t].savers[k].data;
      Load(hash, decode, trace[u], hash(data))
      == match decode(data) case Some(req) => Success(req) case None => Failure(Undecodable)
  {
    var s, data := trace[u], trace[t].savers[k].data;
    FinishedStays(hash, trace, t, u, k);
    OrderlyInv(hash, trace, u);
    assert Durable(hash, s, k) && ValidID(hash(data));
    FinalIsNotTemp(hash, data);
    var name := Final(hash, data);
    assert Intact(hash, s, name, s.names[name]);
    var found := s.content[s.names[name]];
    FinalInjective(hash, data, found);
    var j :| 0 <= j < |s.savers| && s.savers[j].data == found;
    assert s.savers[k].data == data;
  }

  /** Until the directory is synchronized, a power loss can take a committed snapshot away. */
  lemma RenamedCanBeLost(hash: string -> string, decode: Decoder, s: State, k: nat)
    requires Hashes(hash) && k < |s.savers| && s.savers[k].stage.Renamed?
    requires Final(hash, s.savers[k].data) !in s.disk
    ensures Enabled(s, PowerLoss(s.content)) && Orderly(s, PowerLoss(s.content))
    ensures Load(hash, decode, Do(hash, s, PowerLoss(s.content)), hash(s.savers[k].data)) == Failure(NotFound)
  {
    assert ValidID(hash(s.savers[k].data));
  }

  /** Until a file is synchronized, a power loss can leave any bytes in it. */
  lemma UnsyncedCanChange(hash: string -> string, s: State, inode: nat, other: string)
    requires inode in s.content && inode !in s.synced
    ensures Enabled(s, PowerLoss(s.content[inode := other])) && Orderly(s, PowerLoss(s.content[inode := other]))
    ensures Do(hash, s, PowerLoss(s.content[inode := other])).content[inode] == other
  {
  }

  // ----- recalling one message -----

  function FindMessage(messages: seq<Message>, id: string): Option<Message> {
    if messages == [] then None
    else if messages[0].id == id then Some(messages[0])
    else FindMessage(messages[1..], id)
  }

  function Recall(hash: string -> string, decode: Decoder, s: State, snapshot: string,
                  id: string): Result<Message, LoadError>
  {
    match Load(hash, decode, s, snapshot)
    case Failure(error) => Failure(error)
    case Success(req) =>
      match FindMessage(req.messages, id)
      case Some(m) => Success(m)
      case None => Failure(NotFound)
  }

  method RecallMessage(hash: string -> string, decode: Decoder, s: State, snapshot: string, id: string)
    returns (r: Result<Message, LoadError>)
    ensures r == Recall(hash, decode, s, snapshot, id)
  {
    var loaded := Load(hash, decode, s, snapshot);
    if loaded.Failure? {
      return Failure(loaded.error);
    }
    var messages := loaded.value.messages;
    for i := 0 to |messages|
      invariant FindMessage(messages[i..], id) == FindMessage(messages, id)
    {
      assert messages[i..][1..] == messages[i + 1..];
      if messages[i].id == id {
        return Success(messages[i]);
      }
    }
    return Failure(NotFound);
  }

  ghost predicate IsFirst(messages: seq<Message>, id: string, m: Message, i: int) {
    && 0 <= i < |messages| && messages[i] == m && m.id == id
    && forall j :: 0 <= j < i ==> messages[j].id != id
  }

  /** What is found is the first message with the id, and nothing is found only when there is none. */
  lemma {:induction false} FindMessageFirst(messages: seq<Message>, id: string) returns (i: int)
    ensures FindMessage(messages, id).None? ==> forall m :: m in messages ==> m.id != id
    ensures FindMessage(messages, id).Some? ==> IsFirst(messages, id, FindMessage(messages, id).value, i)
  {
    i := 0;
    if messages != [] && messages[0].id != id {
      var j := FindMessageFirst(messages[1..], id);
      i := j + 1;
      assert forall k :: 1 <= k < |messages| ==> messages[k] == messages[1..][k - 1];
    }
  }

  lemma {:induction false} FindMessageExact(messages: seq<Message>, i: nat)
    requires i < |messages|
    requires forall j, k :: 0 <= j < k < |messages| ==> messages[j].id != messages[k].id
    ensures FindMessage(messages, messages[i].id) == Some(messages[i])
  {
    if i > 0 {
      FindMessageExact(messages[1..], i - 1);
    }
  }
}
