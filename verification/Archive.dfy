/**
 The snapshot store of archive/store.go as a step machine: savers, crashes and a directory
 whose entries and file contents reach the disk only when they are synchronized.
 */
module Archive {
  // ----- names -----

  /** `validID`: 64 lower-case hexadecimal digits. */
  predicate ValidID(id: string) {
    |id| == 64 && forall k :: 0 <= k < |id| ==> '0' <= id[k] <= '9' || 'a' <= id[k] <= 'f'
  }

  /** The names os.CreateTemp makes for the pattern ".snapshot-*". */
  predicate IsTemp(name: string) {
    ".snapshot-" <= name
  }

  /** The name a snapshot is stored under: its SHA-256 in hexadecimal. */
  function Final(hash: string -> string, data: string): string {
    hash(data) + ".json"
  }

  ghost predicate Hashes(hash: string -> string) {
    forall data: string :: ValidID(hash(data))
  }

  lemma FinalIsNotTemp(hash: string -> string, data: string)
    requires Hashes(hash)
    ensures !IsTemp(Final(hash, data))
  {
    assert ValidID(hash(data));
    assert Final(hash, data)[0] == hash(data)[0] && ".snapshot-"[0] == '.';
  }

  // ----- the machine -----

  /** How far a call of `Save` has come. */
  datatype Stage =
    | Start
    | Writing     // the temporary file exists
    | Written
    | Synced
    | Closed
    | Renamed     // committed under its final name
    | DirSynced   // the directory is synchronized; the deferred cleanup is next
    | Failed      // an error is being returned; the deferred cleanup is next
    | Finished(ok: bool)
    | Dead        // the process or the machine crashed

  datatype Saver = Saver(data: string, stage: Stage, temp: string, inode: nat)

  /**
   `names` is the directory as processes see it and `disk` what survives a power loss;
   `synced` are the files whose content has reached the disk.
   */
  datatype State = State(
    names: map<string, nat>,
    disk: map<string, nat>,
    content: map<nat, string>,
    synced: set<nat>,
    savers: seq<Saver>,
    nextInode: nat)

  const EMPTY := State(map[], map[], map[], {}, [], 0)

  datatype Action =
    | Begin(data: string)
    | Create(k: nat, name: string)
    | Write(k: nat, n: nat)
    | EndWrite(k: nat)
    | SyncFile(k: nat)
    | CloseFile(k: nat)
    | Rename(k: nat)
    | SyncDir(k: nat)
    | Fail(k: nat)
    | Cleanup(k: nat, removed: bool)
    | Kill(k: nat)
    | Flush(name: string)
    | PowerLoss(content: map<nat, string>)

  /** A saver that may still remove its temporary name. */
  predicate Live(s: Saver) {
    !s.stage.Start? && !s.stage.Finished? && !s.stage.Dead?
  }

  /** The saver is between creating and renaming its temporary file. */
  predicate Pending(s: Saver) {
    s.stage.Writing? || s.stage.Written? || s.stage.Synced? || s.stage.Closed?
  }

  /** Some saver between creating and renaming its file holds this temporary name. */
  predicate HeldName(savers: seq<Saver>, name: string) {
    exists k :: 0 <= k < |savers| && Pending(savers[k]) && savers[k].temp == name
  }

  predicate SaverCan(s: State, a: Action, k: nat) {
    k < |s.savers| &&
    var saver := s.savers[k];
    match a
    case Create(_, name) => saver.stage.Start? && IsTemp(name) && name !in s.names
    case Write(_, n) =>
      saver.stage.Writing? && n <= |saver.data| && saver.inode in s.content && |s.content[saver.inode]| <= n
    case EndWrite(_) =>
      saver.stage.Writing? && saver.inode in s.content && s.content[saver.inode] == saver.data
    case SyncFile(_) => saver.stage.Written?
    case CloseFile(_) => saver.stage.Synced?
    case Rename(_) => saver.stage.Closed? && saver.temp in s.names
    case SyncDir(_) => saver.stage.Renamed?
    case Fail(_) => Pending(saver) || saver.stage.Renamed?
    case Cleanup(_, _) => saver.stage.DirSynced? || saver.stage.Failed?
    case Kill(_) => !saver.stage.Finished?
    case _ => false
  }

  predicate Enabled(s: State, a: Action) {
    match a
    case Begin(_) => true
    case Flush(_) => true
    case PowerLoss(content) =>
      content.Keys == s.content.Keys && forall i :: i in s.synced && i in content ==> content[i] == s.content[i]
    case _ => SaverCan(s, a, a.k)
  }

  /**
   CreateTemp hands out only names that no file has.  An orderly step does not, besides,
   hand out the name of a saver that has created its file and not yet renamed it; that can
   only come up when somebody else has removed that file.
   */
  predicate Orderly(s: State, a: Action) {
    a.Create? ==> !HeldName(s.savers, a.name)
  }

  function At(s: State, k: nat, stage: Stage): State
    requires k < |s.savers|
  {
    s.(savers := s.savers[k := s.savers[k].(stage := stage)])
  }

  function Crashed(savers: seq<Saver>): (after: seq<Saver>)
    ensures |after| == |savers|
  {
    seq(|savers|, k requires 0 <= k < |savers| =>
      if savers[k].stage.Finished? then savers[k] else savers[k].(stage := Dead))
  }

  function Do(hash: string -> string, s: State, a: Action): State
    requires Enabled(s, a)
  {
    match a
    case Begin(data) => s.(savers := s.savers + [Saver(data, Start, "", 0)])
    case Create(k, name) =>
      s.(names := s.names[name := s.nextInode], content := s.content[s.nextInode := ""], nextInode := s.nextInode + 1,
         savers := s.savers[k := s.savers[k].(stage := Writing, temp := name, inode := s.nextInode)])
    case Write(k, n) => s.(content := s.content[s.savers[k].inode := s.savers[k].data[..n]])
    case EndWrite(k) => At(s, k, Written)
    case SyncFile(k) => At(s, k, Synced).(synced := s.synced + {s.savers[k].inode})
    case CloseFile(k) => At(s, k, Closed)
    case Rename(k) =>
      At(s, k, Renamed).(
        names := (s.names - {s.savers[k].temp})[Final(hash, s.savers[k].data) := s.names[s.savers[k].temp]])
    case SyncDir(k) => At(s, k, DirSynced).(disk := s.names)
    case Fail(k) => At(s, k, Failed)
    case Cleanup(k, removed) =>
      At(s, k, Finished(s.savers[k].stage.DirSynced?)).(
        names := if removed then s.names - {s.savers[k].temp} else s.names)
    case Kill(k) => At(s, k, Dead)
    case Flush(name) => s.(disk := if name in s.names then s.disk[name := s.names[name]] else s.disk - {name})
    case PowerLoss(content) => s.(names := s.disk, content := content, savers := Crashed(s.savers))
  }

  // ----- integrity -----

  predicate Saved(savers: seq<Saver>, data: string) {
    exists k :: 0 <= k < |savers| && savers[k].data == data
  }

  /** The file is, whole and synchronized, the data of some call of Save, under the name of its hash. */
  ghost predicate Intact(hash: string -> string, s: State, name: string, inode: nat) {
    && inode in s.synced && inode in s.content
    && name == Final(hash, s.content[inode]) && Saved(s.savers, s.content[inode])
  }

  /** Every snapshot that can be seen, now or after a power loss, is intact. */
  ghost predicate Integrity(hash: string -> string, s: State) {
    && (forall name :: name in s.names && !IsTemp(name) ==> Intact(hash, s, name, s.names[name]))
    && (forall name :: name in s.disk && !IsTemp(name) ==> Intact(hash, s, name, s.disk[name]))
  }

  ghost predicate SaverOk(s: State, k: nat)
    requires k < |s.savers|
  {
    var saver := s.savers[k];
    && (Live(saver) ==> IsTemp(saver.temp))
    && (Pending(saver) ==>
          saver.inode in s.content && (saver.temp in s.names ==> s.names[saver.temp] == saver.inode))
    && (saver.stage.Writing? ==> saver.inode !in s.synced && s.content[saver.inode] <= saver.data)
    && (saver.stage.Written? ==> s.content[saver.inode] == saver.data)
    && (saver.stage.Synced? || saver.stage.Closed? ==> saver.inode in s.synced && s.content[saver.inode] == saver.data)
  }

  /** No two unfinished files have an inode in common. */
  ghost predicate Apart(savers: seq<Saver>) {
    forall j, k :: 0 <= j < k < |savers| && Pending(savers[j]) && Pending(savers[k]) ==>
      savers[j].inode != savers[k].inode
  }

  /** A saver that reported success, or is about to, has its snapshot in the directory and on disk. */
  ghost predicate Durable(hash: string -> string, s: State, k: nat)
    requires k < |s.savers|
  {
    var saver := s.savers[k];
    && (saver.stage.Renamed? ==> Final(hash, saver.data) in s.names)
    && (saver.stage.DirSynced? || saver.stage == Finished(true) ==>
          Final(hash, saver.data) in s.names && Final(hash, saver.data) in s.disk)
  }

  ghost predicate Inv(hash: string -> string, s: State) {
    && Integrity(hash, s)
    && (forall k :: 0 <= k < |s.savers| ==> SaverOk(s, k))
    && (forall k :: 0 <= k < |s.savers| ==> Durable(hash, s, k))
    && Apart(s.savers)
    && (forall i :: i in s.content || i in s.synced ==> i < s.nextInode)
  }

  // ----- every step keeps the invariant when CreateTemp is orderly -----

  /** Intact files stay intact when savers keep their data and synchronized contents stay. */
  lemma IntactStays(hash: string -> string, s: State, t: State, name: string, inode: nat)
    requires Intact(hash, s, name, inode)
    requires s.synced <= t.synced && |s.savers| <= |t.savers|
    requires forall k :: 0 <= k < |s.savers| ==> t.savers[k].data == s.savers[k].data
    requires forall i :: i in s.synced && i in s.content ==> i in t.content && t.content[i] == s.content[i]
    ensures Intact(hash, t, name, inode)
  {
    var k :| 0 <= k < |s.savers| && s.savers[k].data == s.content[inode];
    assert t.savers[k].data == t.content[inode];
  }

  /** The same for the whole directory, when final names were only kept, or copied between memory and disk. */
  lemma IntegrityStays(hash: string -> string, s: State, t: State)
    requires Integrity(hash, s)
    requires s.synced <= t.synced && |s.savers| <= |t.savers|
    requires forall k :: 0 <= k < |s.savers| ==> t.savers[k].data == s.savers[k].data
    requires forall i :: i in s.synced && i in s.content ==> i in t.content && t.content[i] == s.content[i]
    requires forall name :: name in t.names && !IsTemp(name) ==>
      (name in s.names && s.names[name] == t.names[name]) || (name in s.disk && s.disk[name] == t.names[name])
    requires forall name :: name in t.disk && !IsTemp(name) ==>
      (name in s.names && s.names[name] == t.disk[name]) || (name in s.disk && s.disk[name] == t.disk[name])
    ensures Integrity(hash, t)
  {
    forall name | name in t.names && !IsTemp(name)
      ensures Intact(hash, t, name, t.names[name])
    {
      assert Intact(hash, s, name, t.names[name]);
      IntactStays(hash, s, t, name, t.names[name]);
    }
    forall name | name in t.disk && !IsTemp(name)
      ensures Intact(hash, t, name, t.disk[name])
    {
      assert Intact(hash, s, name, t.disk[name]);
      IntactStays(hash, s, t, name, t.disk[name]);
    }
  }

  /** What saver `j` works on is the same before and after. */
  ghost predicate Untouched(s: State, t: State, j: nat)
    requires j < |s.savers|
  {
    var i, name := s.savers[j].inode, s.savers[j].temp;
    Pending(s.savers[j]) ==>
      && i in s.content && i in t.content && t.content[i] == s.content[i] && (i in t.synced <==> i in s.synced)
      && (name in t.names ==> name in s.names && t.names[name] == s.names[name])
  }

  /** No committed snapshot disappears from the directory, nor from the disk. */
  ghost predicate KeepsFinals(hash: string -> string, s: State, t: State) {
    && (forall data :: Final(hash, data) in s.names ==> Final(hash, data) in t.names)
    && (forall data :: Final(hash, data) in s.names && Final(hash, data) in s.disk ==> Final(hash, data) in t.disk)
  }

  lemma OtherStays(hash: string -> string, s: State, t: State, j: nat)
    requires j < |s.savers| && j < |t.savers| && t.savers[j] == s.savers[j]
    requires SaverOk(s, j) && Durable(hash, s, j) && Untouched(s, t, j) && KeepsFinals(hash, s, t)
    ensures SaverOk(t, j) && Durable(hash, t, j)
  {
  }

  /** A step in which only saver `k` moves, and keeps its name and file, leaves the rest of the invariant alone. */
  lemma StepOf(hash: string -> string, s: State, t: State, k: nat)
    requires Inv(hash, s) && k < |s.savers| == |t.savers|
    requires forall j :: 0 <= j < |s.savers| && j != k ==> t.savers[j] == s.savers[j] && Untouched(s, t, j)
    requires t.savers[k].data == s.savers[k].data
    requires t.savers[k].temp == s.savers[k].temp && t.savers[k].inode == s.savers[k].inode
    requires Live(t.savers[k]) ==> Live(s.savers[k])
    requires Pending(t.savers[k]) ==> Pending(s.savers[k])
    requires SaverOk(t, k) && Durable(hash, t, k) && KeepsFinals(hash, s, t)
    ensures forall j :: 0 <= j < |t.savers| ==> SaverOk(t, j)
    ensures forall j :: 0 <= j < |t.savers| ==> Durable(hash, t, j)
    ensures Apart(t.savers)
    ensures forall j :: 0 <= j < |s.savers| ==> t.savers[j].data == s.savers[j].data
  {
    forall j | 0 <= j < |t.savers|
      ensures SaverOk(t, j) && Durable(hash, t, j)
    {
      if j != k {
        OtherStays(hash, s, t, j);
      }
    }
  }

  lemma PendingUntouched(hash: string -> string, s: State, t: State, k: nat, j: nat)
    requires Inv(hash, s) && k < |s.savers| && j < |s.savers| && j != k
    requires t.names == s.names
    requires forall i :: i in s.content && i != s.savers[k].inode ==> i in t.content && t.content[i] == s.content[i]
    requires forall i :: i != s.savers[k].inode ==> (i in t.synced <==> i in s.synced)
    requires Pending(s.savers[k]) || (t.content == s.content && t.synced == s.synced)
    ensures Untouched(s, t, j)
  {
    assert SaverOk(s, j) && SaverOk(s, k);
  }

  lemma BeginKeeps(hash: string -> string, s: State, data: string)
    requires Inv(hash, s)
    ensures Inv(hash, Do(hash, s, Begin(data)))
  {
    var t := Do(hash, s, Begin(data));
    forall k | 0 <= k < |t.savers|
      ensures SaverOk(t, k) && Durable(hash, t, k)
    {
      if k < |s.savers| {
        assert SaverOk(s, k) && Durable(hash, s, k);
      }
    }
    IntegrityStays(hash, s, t);
  }

  lemma CreateKeeps(hash: string -> string, s: State, k: nat, name: string)
    requires Hashes(hash) && Inv(hash, s) && Enabled(s, Create(k, name))
    requires !HeldName(s.savers, name)
    ensures Inv(hash, Do(hash, s, Create(k, name)))
  {
    var t := Do(hash, s, Create(k, name));
    NoFinalIsTemp(hash, name);
    forall j | 0 <= j < |s.savers|
      ensures SaverOk(t, j) && Durable(hash, t, j)
    {
      assert SaverOk(s, j) && Durable(hash, s, j);
      if j != k {
        OtherStays(hash, s, t, j);
      }
    }
    CreatedApart(hash, s, k, name);
    IntegrityStays(hash, s, t);
  }

  lemma NoFinalIsTemp(hash: string -> string, name: string)
    requires Hashes(hash) && IsTemp(name)
    ensures forall data :: Final(hash, data) != name
  {
    forall data
      ensures Final(hash, data) != name
    {
      FinalIsNotTemp(hash, data);
    }
  }

  lemma CreatedApart(hash: string -> string, s: State, k: nat, name: string)
    requires Inv(hash, s) && Enabled(s, Create(k, name))
    ensures Apart(Do(hash, s, Create(k, name)).savers)
  {
    forall j | 0 <= j < |s.savers| && j != k
      ensures Pending(s.savers[j]) ==> s.savers[j].inode != s.nextInode
    {
      assert SaverOk(s, j);
    }
  }

  lemma WriteKeeps(hash: string -> string, s: State, k: nat, n: nat)
    requires Inv(hash, s) && Enabled(s, Write(k, n))
    ensures Inv(hash, Do(hash, s, Write(k, n)))
  {
    var t := Do(hash, s, Write(k, n));
    assert SaverOk(s, k);
    forall j | 0 <= j < |s.savers| && j != k
      ensures Untouched(s, t, j)
    {
      PendingUntouched(hash, s, t, k, j);
    }
    StepOf(hash, s, t, k);
    IntegrityStays(hash, s, t);
  }

  /** Moving on without touching the directory or a file. */
  lemma StageKeeps(hash: string -> string, s: State, a: Action)
    requires Inv(hash, s) && Enabled(s, a)
    requires a.EndWrite? || a.CloseFile? || a.Fail? || a.Kill?
    ensures Inv(hash, Do(hash, s, a))
  {
    var t := Do(hash, s, a);
    assert SaverOk(s, a.k) && Durable(hash, s, a.k);
    forall j | 0 <= j < |s.savers| && j != a.k
      ensures Untouched(s, t, j)
    {
      PendingUntouched(hash, s, t, a.k, j);
    }
    StepOf(hash, s, t, a.k);
    IntegrityStays(hash, s, t);
  }

  lemma SyncFileKeeps(hash: string -> string, s: State, k: nat)
    requires Inv(hash, s) && Enabled(s, SyncFile(k))
    ensures Inv(hash, Do(hash, s, SyncFile(k)))
  {
    var t := Do(hash, s, SyncFile(k));
    assert SaverOk(s, k);
    forall j | 0 <= j < |s.savers| && j != k
      ensures Untouched(s, t, j)
    {
      PendingUntouched(hash, s, t, k, j);
    }
    StepOf(hash, s, t, k);
    IntegrityStays(hash, s, t);
  }

  lemma RenameUntouched(hash: string -> string, s: State, k: nat, j: nat)
    requires Hashes(hash) && Inv(hash, s) && Enabled(s, Rename(k)) && j < |s.savers| && j != k
    ensures Untouched(s, Do(hash, s, Rename(k)), j)
  {
    assert SaverOk(s, j) && SaverOk(s, k);
    FinalIsNotTemp(hash, s.savers[k].data);
  }

  lemma RenameIntegrity(hash: string -> string, s: State, k: nat)
    requires Hashes(hash) && Inv(hash, s) && Enabled(s, Rename(k))
    ensures Integrity(hash, Do(hash, s, Rename(k)))
  {
    var t := Do(hash, s, Rename(k));
    var saver := s.savers[k];
    assert SaverOk(s, k);
    assert t.savers[k].data == saver.data;
    forall name | name in t.names && !IsTemp(name)
      ensures Intact(hash, t, name, t.names[name])
    {
      if name == Final(hash, saver.data) {
        assert Saved(t.savers, saver.data);
      } else {
        assert Intact(hash, s, name, s.names[name]);
        IntactStays(hash, s, t, name, s.names[name]);
      }
    }
    forall name | name in t.disk && !IsTemp(name)
      ensures Intact(hash, t, name, t.disk[name])
    {
      assert Intact(hash, s, name, s.disk[name]);
      IntactStays(hash, s, t, name, s.disk[name]);
    }
  }

  lemma RenameKeeps(hash: string -> string, s: State, k: nat)
    requires Hashes(hash) && Inv(hash, s) && Enabled(s, Rename(k))
    ensures Inv(hash, Do(hash, s, Rename(k)))
  {
    var t := Do(hash, s, Rename(k));
    assert SaverOk(s, k) && Durable(hash, s, k);
    NoFinalIsTemp(hash, s.savers[k].temp);
    forall j | 0 <= j < |s.savers| && j != k
      ensures Untouched(s, t, j)
    {
      RenameUntouched(hash, s, k, j);
    }
    StepOf(hash, s, t, k);
    RenameIntegrity(hash, s, k);
  }

  lemma SyncDirKeeps(hash: string -> string, s: State, k: nat)
    requires Inv(hash, s) && Enabled(s, SyncDir(k))
    ensures Inv(hash, Do(hash, s, SyncDir(k)))
  {
    var t := Do(hash, s, SyncDir(k));
    assert SaverOk(s, k) && Durable(hash, s, k);
    forall j | 0 <= j < |s.savers| && j != k
      ensures Untouched(s, t, j)
    {
      PendingUntouched(hash, s, t, k, j);
    }
    StepOf(hash, s, t, k);
    IntegrityStays(hash, s, t);
  }

  lemma CleanupKeeps(hash: string -> string, s: State, k: nat, removed: bool)
    requires Hashes(hash) && Inv(hash, s) && Enabled(s, Cleanup(k, removed))
    ensures Inv(hash, Do(hash, s, Cleanup(k, removed)))
  {
    var t := Do(hash, s, Cleanup(k, removed));
    assert SaverOk(s, k) && Durable(hash, s, k);
    NoFinalIsTemp(hash, s.savers[k].temp);
    forall j | 0 <= j < |s.savers| && j != k
      ensures Untouched(s, t, j)
    {
      assert SaverOk(s, j);
    }
    StepOf(hash, s, t, k);
    IntegrityStays(hash, s, t);
  }

  lemma FlushKeeps(hash: string -> string, s: State, name: string)
    requires Inv(hash, s)
    ensures Inv(hash, Do(hash, s, Flush(name)))
  {
    var t := Do(hash, s, Flush(name));
    forall k | 0 <= k < |t.savers|
      ensures SaverOk(t, k) && Durable(hash, t, k)
    {
      assert SaverOk(s, k) && Durable(hash, s, k);
    }
    IntegrityStays(hash, s, t);
  }

  lemma PowerLossKeeps(hash: string -> string, s: State, content: map<nat, string>)
    requires Inv(hash, s) && Enabled(s, PowerLoss(content))
    ensures Inv(hash, Do(hash, s, PowerLoss(content)))
  {
    var t := Do(hash, s, PowerLoss(content));
    forall k | 0 <= k < |t.savers|
      ensures SaverOk(t, k) && Durable(hash, t, k)
      ensures t.savers[k].data == s.savers[k].data && !Live(t.savers[k]) && !Pending(t.savers[k])
    {
      assert SaverOk(s, k) && Durable(hash, s, k);
    }
    IntegrityStays(hash, s, t);
  }

  /** Every orderly step of every saver, of the kernel and of a crash keeps the invariant. */
  lemma StepKeeps(hash: string -> string, s: State, a: Action)
    requires Hashes(hash) && Inv(hash, s) && Enabled(s, a) && Orderly(s, a)
    ensures Inv(hash, Do(hash, s, a))
  {
    match a
    case Begin(data) => BeginKeeps(hash, s, data);
    case Create(k, name) => CreateKeeps(hash, s, k, name);
    case Write(k, n) => WriteKeeps(hash, s, k, n);
    case SyncFile(k) => SyncFileKeeps(hash, s, k);
    case Rename(k) => RenameKeeps(hash, s, k);
    case SyncDir(k) => SyncDirKeeps(hash, s, k);
    case Cleanup(k, removed) => CleanupKeeps(hash, s, k, removed);
    case Flush(name) => FlushKeeps(hash, s, name);
    case PowerLoss(content) => PowerLossKeeps(hash, s, content);
    case _ => StageKeeps(hash, s, a);
  }
}
