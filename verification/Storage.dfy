/**
 The part of a file system that the census publication depends on: one chain of
 directories that ends in the digest directory, the entries of that directory,
 and the files they name.  Every directory has a live copy, which processes see,
 and a durable copy, which is what a power loss leaves behind.
 */
module Storage {
  import opened Options

  type Bytes = string
  type Ino = nat
  type Dir = map<Name, Ino>

  datatype Member = CensusJson | CensusMarkdown | CensusSha256

  /** `Temp` is the emitter's own `.<member>.<32 hex>.tmp`; `Foreign` is every other name. */
  datatype Name = Final(member: Member) | Temp(member: Member, token: nat) | Foreign(other: string)

  /** `synced` says that the data has reached the disk since it was last written. */
  datatype File = File(regular: bool, data: Bytes, synced: bool, links: nat)

  /** What the durable copy of out_root says about the digest directory.  `Stale` names an
      earlier directory that has been removed since, with the entries it had on disk. */
  datatype DigestEntry = Absent | Current | Stale(entries: Dir)

  /** Components are numbered 1..depth from the outside in; `depth` is the digest directory and
      `present` says how many of them exist.  `committed` holds the outer components whose entry
      is durable in their parent; `live` and `disk` are the two copies of the digest directory. */
  datatype Fs = Fs(depth: nat, present: nat, committed: set<nat>, digest: DigestEntry,
                   live: Dir, disk: Dir, files: map<Ino, File>, nextIno: Ino)

  datatype Rendering = Rendering(json: Bytes, markdown: Bytes, sha256: Bytes) {
    function Of(m: Member): Bytes {
      match m
      case CensusJson => json
      case CensusMarkdown => markdown
      case CensusSha256 => sha256
    }
  }

  function Lookup(d: Dir, n: Name): Option<Ino> {
    if n in d then Some(d[n]) else None
  }

  ghost predicate Backed(d: Dir, files: map<Ino, File>) {
    forall n :: n in d ==> d[n] in files
  }

  ghost predicate Wf(fs: Fs) {
    && 1 <= fs.depth && fs.present <= fs.depth
    && (forall k :: k in fs.committed ==> 1 <= k < fs.depth && k <= fs.present)
    && (forall i :: i in fs.files ==> i < fs.nextIno)
    && Backed(fs.live, fs.files) && Backed(fs.disk, fs.files)
    && (fs.digest.Stale? ==> Backed(fs.digest.entries, fs.files))
    && (fs.digest.Current? ==> fs.present == fs.depth)
    && (fs.present < fs.depth ==> fs.live == map[] && fs.disk == map[])
  }

  /** Every entry is a final name that holds exactly the rendered bytes, on disk, or a temp. */
  ghost predicate Residue(d: Dir, files: map<Ino, File>, r: Rendering) {
    forall n :: n in d ==>
      && d[n] in files && files[d[n]].regular
      && !n.Foreign?
      && (n.Final? ==> files[d[n]].data == r.Of(n.member) && files[d[n]].synced)
  }

  /** The crash invariant: both copies of the digest directory, and a removed one that a power
      loss could bring back, hold nothing but residue of this rendering. */
  ghost predicate Recoverable(fs: Fs, r: Rendering) {
    && Residue(fs.live, fs.files, r)
    && Residue(fs.disk, fs.files, r)
    && (fs.digest.Stale? ==> Residue(fs.digest.entries, fs.files, r))
  }

  /** No final name, in any copy, reaches file `i`. */
  ghost predicate Unpublished(fs: Fs, i: Ino) {
    && (forall n :: n in fs.live && fs.live[n] == i ==> n.Temp?)
    && (forall n :: n in fs.disk && fs.disk[n] == i ==> n.Temp?)
    && (fs.digest.Stale? ==> forall n :: n in fs.digest.entries && fs.digest.entries[n] == i ==> n.Temp?)
  }

  /** The kernel may write back any directory entries at any moment. */
  datatype Writeback = Writeback(names: set<Name>, components: set<nat>)

  function WriteBack(fs: Fs, wb: Writeback): Fs {
    fs.(
      disk := (fs.disk - wb.names) + (map n | n in fs.live && n in wb.names :: fs.live[n]),
      committed := fs.committed + (set k | k in wb.components && 1 <= k <= fs.present && k < fs.depth),
      digest := if fs.depth !in wb.components then fs.digest
                else if fs.present == fs.depth then Current else Absent)
  }

  /** The kernel writes back exactly the entries and components it picked, as far as they exist. */
  lemma {:induction false} WriteBackIs(fs: Fs, wb: Writeback)
    ensures var b := WriteBack(fs, wb);
      && (forall n :: Lookup(b.disk, n) == if n in wb.names then Lookup(fs.live, n) else Lookup(fs.disk, n))
      && (forall k :: k in b.committed <==>
            k in fs.committed || (k in wb.components && 0 < k < fs.depth && k <= fs.present))
      && b.digest == (if fs.depth in wb.components then (if fs.present == fs.depth then Current else Absent)
                      else fs.digest)
      && b == fs.(disk := b.disk, committed := b.committed, digest := b.digest)
  {}

  /** What `WriteBack` can change, without saying which entries it chose. */
  ghost predicate Drifted(a: Fs, b: Fs) {
    && b.depth == a.depth && b.present == a.present
    && b.live == a.live && b.files == a.files && b.nextIno == a.nextIno
    && a.committed <= b.committed
    && (b.digest == a.digest || b.digest == if a.present == a.depth then Current else Absent)
    && (forall n :: Lookup(b.disk, n) == Lookup(a.disk, n) || Lookup(b.disk, n) == Lookup(a.live, n))
  }

  lemma WriteBackDrifts(fs: Fs, wb: Writeback)
    requires Wf(fs)
    ensures Drifted(fs, WriteBack(fs, wb)) && Wf(WriteBack(fs, wb))
  {
    var b := WriteBack(fs, wb);
    forall n ensures Lookup(b.disk, n) == Lookup(fs.disk, n) || Lookup(b.disk, n) == Lookup(fs.live, n) {}
    forall n | n in b.disk ensures b.disk[n] in b.files {
      assert Lookup(b.disk, n) == Some(b.disk[n]);
    }
  }

  lemma DriftKeeps(a: Fs, b: Fs, r: Rendering)
    requires Wf(a) && Drifted(a, b)
    ensures Recoverable(a, r) ==> Recoverable(b, r)
    ensures forall i :: Unpublished(a, i) ==> Unpublished(b, i)
    ensures a.disk == a.live ==> b.disk == b.live
  {
    forall n | n in b.disk
      ensures (n in a.disk && a.disk[n] == b.disk[n]) || (n in a.live && a.live[n] == b.disk[n])
    {
      assert Lookup(b.disk, n) == Some(b.disk[n]);
    }
    if a.disk == a.live {
      forall n ensures Lookup(b.disk, n) == Lookup(a.live, n) {}
      SameLookups(b.disk, a.live);
    }
  }

  lemma SameLookups(d: Dir, e: Dir)
    requires forall n :: Lookup(d, n) == Lookup(e, n)
    ensures d == e
  {
    forall n ensures n in d <==> n in e {
      assert Lookup(d, n) == Lookup(e, n);
    }
    forall n | n in d ensures d[n] == e[n] {
      assert Lookup(d, n) == Lookup(e, n);
    }
  }

  /* ---- the effects of single system calls ---- */

  function Created(fs: Fs, n: Name): Fs {
    fs.(live := fs.live[n := fs.nextIno],
        files := fs.files[fs.nextIno := File(true, "", false, 1)],
        nextIno := fs.nextIno + 1)
  }

  /** A new temp is a file of its own that no final name reaches. */
  lemma CreatedIsPrivate(fs: Fs, n: Name, r: Rendering)
    requires Wf(fs) && fs.present == fs.depth && n.Temp?
    ensures Wf(Created(fs, n))
    ensures Recoverable(fs, r) ==> Recoverable(Created(fs, n), r)
    ensures Unpublished(Created(fs, n), fs.nextIno)
  {}

  function Written(fs: Fs, i: Ino, data: Bytes): Fs
    requires i in fs.files
  {
    fs.(files := fs.files[i := fs.files[i].(data := data, synced := false)])
  }

  /** Writing a file that no final name reaches endangers nothing. */
  lemma WrittenKeeps(fs: Fs, i: Ino, data: Bytes, r: Rendering)
    requires Wf(fs) && i in fs.files && Unpublished(fs, i)
    ensures Wf(Written(fs, i, data)) && Unpublished(Written(fs, i, data), i)
    ensures Recoverable(fs, r) ==> Recoverable(Written(fs, i, data), r)
  {}

  function Synced(fs: Fs, i: Ino): Fs
    requires i in fs.files
  {
    fs.(files := fs.files[i := fs.files[i].(synced := true)])
  }

  lemma SyncedKeeps(fs: Fs, i: Ino, r: Rendering)
    requires Wf(fs) && i in fs.files
    ensures Wf(Synced(fs, i))
    ensures Recoverable(fs, r) ==> Recoverable(Synced(fs, i), r)
    ensures Unpublished(fs, i) ==> Unpublished(Synced(fs, i), i)
  {}

  function Renamed(fs: Fs, from: Name, to: Name): Fs
    requires from in fs.live
  {
    fs.(live := (fs.live - {from})[to := fs.live[from]])
  }

  function Unlinked(fs: Fs, n: Name): Fs {
    fs.(live := fs.live - {n})
  }

  /** fsync of the digest directory. */
  function EntriesSynced(fs: Fs): Fs {
    fs.(disk := fs.live)
  }

  /** fsync of the directory that holds component `k`. */
  function ParentSynced(fs: Fs, k: nat): Fs {
    if k == fs.depth then fs.(digest := if fs.present == fs.depth then Current else Absent)
    else if 1 <= k <= fs.present && k < fs.depth then fs.(committed := fs.committed + {k})
    else fs
  }

  /** One directory is made durable in its parent, and nothing else: the digest directory as it is now, or
      an outer component that exists. */
  lemma {:induction false} ParentSyncedIs(fs: Fs, k: nat)
    requires 1 <= k <= fs.present <= fs.depth
    ensures ParentSynced(fs, k) ==
      if k == fs.depth then fs.(digest := Current) else fs.(committed := fs.committed + {k})
  {}

  function NextComponentMade(fs: Fs): Fs
    requires fs.present < fs.depth
  {
    fs.(present := fs.present + 1)
  }

  /** rmdir of the empty digest directory: only the live copy of out_root forgets it. */
  function DigestRemoved(fs: Fs): Fs
    requires 1 <= fs.depth
  {
    fs.(present := fs.depth - 1, live := map[], disk := map[],
        digest := if fs.digest.Current? then Stale(fs.disk) else fs.digest)
  }

  /** A removed digest directory can come back, with what it had on disk, exactly when its entry had
      reached the disk. */
  lemma {:induction false} RemovalCanReturn(fs: Fs)
    requires 1 <= fs.depth
    ensures var b := DigestRemoved(fs);
      && b.present == fs.depth - 1 && b.live == map[] && b.files == fs.files && b.committed == fs.committed
      && (fs.digest.Current? ==> b.digest == Stale(fs.disk)) && (!fs.digest.Current? ==> b.digest == fs.digest)
  {}

  /* ---- power loss ---- */

  function CommittedPrefix(committed: set<nat>, k: nat, limit: nat): (p: nat)
    requires k <= limit
    ensures k <= p <= limit
    ensures forall j :: k < j <= p ==> j in committed
    ensures p < limit ==> p + 1 !in committed
    decreases limit - k
  {
    if k < limit && k + 1 in committed then CommittedPrefix(committed, k + 1, limit) else k
  }

  function Reread(files: map<Ino, File>, garbage: map<Ino, Bytes>): map<Ino, File> {
    map i | i in files ::
      if files[i].synced then files[i]
      else files[i].(data := if i in garbage then garbage[i] else "", synced := true)
  }

  /** Only durable entries survive, a directory whose ancestors are not all durable is gone with
      everything below it, and data that was never synced may read back as anything. */
  function AfterPowerLoss(fs: Fs, garbage: map<Ino, Bytes>): Fs
    requires 1 <= fs.depth
  {
    var p := CommittedPrefix(fs.committed, 0, fs.depth - 1);
    var outer := set k | k in fs.committed && k <= p;
    if p < fs.depth - 1 || fs.digest.Absent? then
      fs.(present := p, committed := outer, digest := Absent, live := map[], disk := map[],
          files := Reread(fs.files, garbage))
    else
      var entries := if fs.digest.Current? then fs.disk else fs.digest.entries;
      fs.(present := fs.depth, committed := outer, digest := Current, live := entries, disk := entries,
          files := Reread(fs.files, garbage))
  }

  lemma {:induction false} RereadIs(files: map<Ino, File>, garbage: map<Ino, Bytes>, i: Ino)
    requires i in files
    ensures i in Reread(files, garbage)
    ensures files[i].synced ==> Reread(files, garbage)[i] == files[i]
    ensures !files[i].synced && i in garbage ==> Reread(files, garbage)[i].data == garbage[i]
    ensures Reread(files, garbage)[i].synced
  {}

  /** After a power loss the chain reaches as far as its outer components were all durable; the digest directory
      is there with its durable entries, or with those of a removed one that comes back, or it is gone. */
  lemma {:induction false} PowerLossIs(fs: Fs, garbage: map<Ino, Bytes>)
    requires 1 <= fs.depth
    ensures var b := AfterPowerLoss(fs, garbage);
      && b.files == Reread(fs.files, garbage) && b.disk == b.live
      && (forall k :: 1 <= k < fs.depth && k <= b.present ==> k in fs.committed)
      && (b.present < fs.depth - 1 ==> b.present + 1 !in fs.committed)
      && (b.present == fs.depth <==> (forall k :: 1 <= k < fs.depth ==> k in fs.committed) && !fs.digest.Absent?)
      && (b.present < fs.depth ==> b.live == map[] && b.digest == Absent)
      && (b.present == fs.depth ==>
            b.digest == Current && b.live == if fs.digest.Current? then fs.disk else fs.digest.entries)
  {
    var p := CommittedPrefix(fs.committed, 0, fs.depth - 1);
    if p < fs.depth - 1 {
      assert p + 1 !in fs.committed;
    }
  }

  /** Power loss at any moment leaves residue that a retry can classify. */
  lemma PowerLossIsRecoverable(fs: Fs, garbage: map<Ino, Bytes>, r: Rendering)
    requires Wf(fs) && Recoverable(fs, r)
    ensures Wf(AfterPowerLoss(fs, garbage)) && Recoverable(AfterPowerLoss(fs, garbage), r)
  {
    var files := Reread(fs.files, garbage);
    forall i | i in fs.files && fs.files[i].synced ensures files[i] == fs.files[i] {}
  }

  /** Every component, the digest directory's own entry and exactly the rendered members are in
      the durable copies. */
  ghost predicate Durable(fs: Fs, r: Rendering) {
    && fs.present == fs.depth
    && (forall k :: 1 <= k < fs.depth ==> k in fs.committed)
    && fs.digest == Current
    && fs.disk == fs.live
    && Complete(fs, r)
  }

  ghost predicate MemberHolds(live: Dir, files: map<Ino, File>, r: Rendering, m: Member) {
    && Final(m) in live
    && live[Final(m)] in files
    && files[live[Final(m)]].regular
    && files[live[Final(m)]].data == r.Of(m)
  }

  ghost predicate Complete(fs: Fs, r: Rendering) {
    && (forall n :: n in fs.live <==> n.Final?)
    && forall m :: MemberHolds(fs.live, fs.files, r, m)
  }

  /** An attested publication is still there, byte for byte, after a power loss. */
  lemma AttestedSurvivesPowerLoss(fs: Fs, garbage: map<Ino, Bytes>, r: Rendering)
    requires Wf(fs) && Recoverable(fs, r) && Durable(fs, r)
    ensures AfterPowerLoss(fs, garbage).live == fs.live
    ensures Durable(AfterPowerLoss(fs, garbage), r)
  {
    var b := AfterPowerLoss(fs, garbage);
    var p := CommittedPrefix(fs.committed, 0, fs.depth - 1);
    assert p == fs.depth - 1;
    forall m ensures MemberHolds(b.live, b.files, r, m) {
      assert MemberHolds(fs.live, fs.files, r, m);
    }
  }

  /** Attestation makes names durable; the bytes behind them survive every power loss exactly when
      each member file was itself synced, as every file the emitter writes is. */
  lemma BytesSurviveIffSynced(fs: Fs, r: Rendering)
    requires Wf(fs) && Durable(fs, r)
    ensures (forall garbage :: Durable(AfterPowerLoss(fs, garbage), r))
            <==> forall m :: MemberHolds(fs.live, fs.files, r, m) && fs.files[fs.live[Final(m)]].synced
  {
    if forall m :: MemberHolds(fs.live, fs.files, r, m) && fs.files[fs.live[Final(m)]].synced {
      forall garbage ensures Durable(AfterPowerLoss(fs, garbage), r) {
        var b := AfterPowerLoss(fs, garbage);
        forall m ensures MemberHolds(b.live, b.files, r, m) {
          assert MemberHolds(fs.live, fs.files, r, m);
        }
      }
    } else {
      var m :| !fs.files[fs.live[Final(m)]].synced;
      var garbage := map[fs.live[Final(m)] := if r.Of(m) == "" then "?" else ""];
      assert !MemberHolds(AfterPowerLoss(fs, garbage).live, AfterPowerLoss(fs, garbage).files, r, m);
    }
  }
}
