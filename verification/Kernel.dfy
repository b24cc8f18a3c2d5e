/**
 The system calls of the census publication as methods on one machine.  Two plans decide the
 fate of every call: it goes through, it fails with an OSError, or the process is killed at
 it.  One plan is for the calls that take names away again, unlink and the lstat before a
 rollback's unlink, the other for all the rest.  Between any two calls the kernel may write
 back directory entries.
 */
module Kernel {
  import opened Storage
  import opened Options

  /** `kept` is how much of an interrupted write reached the file. */
  datatype Act = Go | Fail(kept: nat) | Kill(kept: nat)
  datatype Fate = Fate(act: Act, writeBack: Writeback)

  /** How a piece of the program ended: normally, by raising, or by being killed. */
  datatype Status = Ok | Raised | Killed

  ghost predicate AllGo(plan: seq<Fate>) {
    forall i :: 0 <= i < |plan| ==> plan[i].act.Go?
  }

  /** The fate of the next call; when a plan has run out, every call goes through undisturbed. */
  function Coming(plan: seq<Fate>): Act {
    if plan == [] then Go else plan[0].act
  }

  function Later(plan: seq<Fate>): seq<Fate> {
    if plan == [] then [] else plan[1..]
  }

  function Drift(fs: Fs, plan: seq<Fate>): Fs {
    if plan == [] then fs else WriteBack(fs, plan[0].writeBack)
  }

  function Ended(act: Act): Status {
    match act
    case Go => Ok
    case Fail(_) => Raised
    case Kill(_) => Killed
  }

  /** How much of a write reaches the file: all of it, or as much as the fate says. */
  ghost predicate Reaches(written: Bytes, data: Bytes, act: Act) {
    && written <= data
    && (act.Go? ==> written == data)
    && (!act.Go? && act.kept <= |data| ==> |written| == act.kept)
  }

  class Machine {
    const rendering: Rendering
    var fs: Fs
    var plan: seq<Fate>     // the fates of the coming calls; when it runs out, every call goes through
    var removals: seq<Fate> // likewise for the calls that take names away
    var entropy: seq<nat>   // the random tokens to come
    var dead: bool          // the process was killed, and makes no more calls

    constructor (rendering: Rendering, fs: Fs, plan: seq<Fate>, removals: seq<Fate>, entropy: seq<nat>)
      ensures this.rendering == rendering && this.fs == fs && this.entropy == entropy
      ensures this.plan == plan && this.removals == removals && !dead
    {
      dead := false;
      this.rendering, this.fs, this.plan, this.removals, this.entropy := rendering, fs, plan, removals, entropy;
    }

    ghost predicate Running() reads this {
      Wf(fs) && !dead
    }

    /** No call that takes a name away will fail or be killed. */
    ghost predicate Tidy() reads this {
      AllGo(removals)
    }

    /** No call that is still to come will fail or be killed. */
    ghost predicate Calm() reads this {
      AllGo(plan) && Tidy()
    }

    ghost predicate Safe() reads this {
      Recoverable(fs, rendering)
    }

    /** What every system call keeps, whatever its fate. */
    twostate predicate Kept() reads this {
      && Wf(fs)
      && fs.depth == old(fs.depth)
      && (old(Safe()) ==> Safe())
      && (old(Calm()) ==> Calm())
      && (old(Tidy()) ==> Tidy())
    }

    twostate predicate ChainKept() reads this {
      && fs.present == old(fs.present)
      && old(fs.committed) <= fs.committed
      && (old(fs.digest.Current?) && fs.present == fs.depth ==> fs.digest.Current?)
    }

    /** The call took the next fate of its plan, and ended as that says. */
    twostate predicate Fated(st: Status) reads this {
      plan == Later(old(plan)) && st == Ended(Coming(old(plan)))
    }

    /** The call took the next fate of its plan; only one that is to go through can end otherwise. */
    twostate predicate FatedAtBest(st: Status) reads this {
      plan == Later(old(plan)) && (Ended(Coming(old(plan))).Ok? || st == Ended(Coming(old(plan))))
    }

    twostate predicate FatedRemoval(st: Status) reads this {
      removals == Later(old(removals)) && st == Ended(Coming(old(removals)))
    }

    /** The entry to every system call: background write-back, then the planned fate. */
    method Enter() returns (act: Act)
      requires Running()
      modifies this`fs, this`plan, this`dead
      ensures dead == act.Kill? && act == Coming(old(plan)) && plan == Later(old(plan))
      ensures fs == Drift(old(fs), old(plan))
      ensures Kept() && Drifted(old(fs), fs) && ChainKept()
      ensures old(Calm()) ==> act.Go?
      ensures old(fs.disk == fs.live) ==> fs.disk == fs.live
      ensures forall i :: old(Unpublished(fs, i)) ==> Unpublished(fs, i)
    {
      if plan == [] {
        return Go;
      }
      act := plan[0].act;
      dead := act.Kill?;
      WriteBackDrifts(fs, plan[0].writeBack);
      DriftKeeps(fs, WriteBack(fs, plan[0].writeBack), rendering);
      fs, plan := WriteBack(fs, plan[0].writeBack), plan[1..];
    }

    /** The entry to a call that takes a name away. */
    method EnterRemoval() returns (act: Act)
      requires Running()
      modifies this`fs, this`removals, this`dead
      ensures dead == act.Kill? && act == Coming(old(removals)) && removals == Later(old(removals))
      ensures fs == Drift(old(fs), old(removals))
      ensures Kept() && Drifted(old(fs), fs) && ChainKept()
      ensures old(Tidy()) ==> act.Go?
      ensures old(fs.disk == fs.live) ==> fs.disk == fs.live
    {
      if removals == [] {
        return Go;
      }
      act := removals[0].act;
      dead := act.Kill?;
      WriteBackDrifts(fs, removals[0].writeBack);
      DriftKeeps(fs, WriteBack(fs, removals[0].writeBack), rendering);
      fs, removals := WriteBack(fs, removals[0].writeBack), removals[1..];
    }

    /** A call whose success changes nothing, such as fchmod. */
    method Touch() returns (st: Status)
      requires Running()
      modifies this`fs, this`plan, this`dead
      ensures dead == st.Killed? && Fated(st) && Kept() && ChainKept() && fs.live == old(fs.live)
      ensures fs.files == old(fs.files)
      ensures old(fs.disk == fs.live) ==> fs.disk == fs.live
      ensures old(Calm()) ==> st.Ok?
      ensures forall i :: old(Unpublished(fs, i)) ==> Unpublished(fs, i)
    {
      var act := Enter();
      st := Ended(act);
    }

    /** open with O_CREAT | O_EXCL: an existing name is refused. */
    method CreateTemp(m: Member) returns (st: Status, token: nat, ino: Ino)
      requires Running() && fs.present == fs.depth
      modifies this
      ensures dead == st.Killed? && FatedAtBest(st) && Kept() && ChainKept()
      ensures st.Ok? ==>
        && Temp(m, token) !in old(fs.live)
        && ino !in old(fs.files)
        && fs.live == old(fs.live)[Temp(m, token) := ino]
        && fs.files == old(fs.files)[ino := File(true, "", false, 1)]
        && Unpublished(fs, ino)
      ensures !st.Ok? ==> fs.live == old(fs.live) && fs.files == old(fs.files)
      ensures token == (if old(entropy) == [] then 0 else old(entropy)[0])
      ensures entropy == if old(entropy) == [] then [] else old(entropy)[1..]
      ensures Coming(old(plan)).Go? ==> (st.Ok? <==> Temp(m, token) !in old(fs.live)) && !st.Killed?
      ensures old(Calm()) && (forall t :: Temp(m, t) !in old(fs.live)) ==> st.Ok?
      ensures old(Calm()) ==> !st.Killed?
    {
      token, ino := 0, 0;
      if entropy != [] {
        token, entropy := entropy[0], entropy[1..];
      }
      var act := Enter();
      st := Ended(act);
      if st.Ok? {
        if Temp(m, token) in fs.live {
          return Raised, token, ino;
        }
        ino := fs.nextIno;
        assert ino !in fs.files;
        CreatedIsPrivate(fs, Temp(m, token), rendering);
        fs := Created(fs, Temp(m, token));
      }
    }

    /** write: an interrupted write leaves a prefix of the data behind. */
    method Write(ino: Ino, data: Bytes) returns (st: Status)
      requires Running() && ino in fs.files && Unpublished(fs, ino)
      modifies this`fs, this`plan, this`dead
      ensures dead == st.Killed? && Fated(st) && Kept() && ChainKept() && fs.live == old(fs.live)
      ensures Unpublished(fs, ino)
      ensures fs.files.Keys == old(fs.files.Keys)
      ensures forall i :: i in fs.files && i != ino ==> fs.files[i] == old(fs.files)[i]
      ensures fs.files[ino] == old(fs.files)[ino].(data := fs.files[ino].data, synced := false)
      ensures Reaches(fs.files[ino].data, data, Coming(old(plan)))
      ensures st.Ok? ==> fs.files[ino] == old(fs.files)[ino].(data := data, synced := false)
      ensures old(Calm()) ==> st.Ok?
    {
      var act := Enter();
      st := Ended(act);
      var kept := match act case Go => |data| case Fail(k) => k case Kill(k) => k;
      var left := data[..if kept <= |data| then kept else |data|];
      WrittenKeeps(fs, ino, left, rendering);
      fs := Written(fs, ino, left);
      if st.Ok? {
        assert data[..|data|] == data;
      }
    }

    method Fsync(ino: Ino) returns (st: Status)
      requires Running() && ino in fs.files
      modifies this`fs, this`plan, this`dead
      ensures dead == st.Killed? && Fated(st) && Kept() && ChainKept() && fs.live == old(fs.live)
      ensures fs.files.Keys == old(fs.files.Keys)
      ensures forall i :: i in fs.files && i != ino ==> fs.files[i] == old(fs.files)[i]
      ensures st.Ok? ==> fs.files[ino] == old(fs.files)[ino].(synced := true)
      ensures !st.Ok? ==> fs.files == old(fs.files)
      ensures old(Calm()) ==> st.Ok?
      ensures old(Unpublished(fs, ino)) ==> Unpublished(fs, ino)
    {
      var act := Enter();
      st := Ended(act);
      if st.Ok? {
        SyncedKeeps(fs, ino, rendering);
        fs := Synced(fs, ino);
      }
    }

    /** lstat of a name in the digest directory; absence is an answer, not a failure. */
    method Lstat(n: Name) returns (st: Status, found: Option<Ino>)
      requires Running()
      modifies this`fs, this`plan, this`dead
      ensures dead == st.Killed? && Fated(st) && Kept() && ChainKept() && fs.live == old(fs.live)
      ensures fs.files == old(fs.files)
      ensures st.Ok? ==> found == Lookup(fs.live, n)
      ensures old(fs.disk == fs.live) ==> fs.disk == fs.live
      ensures old(Calm()) ==> st.Ok?
    {
      st := Touch();
      found := Lookup(fs.live, n);
    }

    /** A full read of a name without following links: only a regular file can be read. */
    method ReadBack(n: Name) returns (st: Status, data: Bytes)
      requires Running()
      modifies this`fs, this`plan, this`dead
      ensures dead == st.Killed? && FatedAtBest(st) && Kept() && ChainKept() && fs.live == old(fs.live)
      ensures fs.files == old(fs.files)
      ensures st.Ok? ==> n in fs.live && fs.files[fs.live[n]].regular && data == fs.files[fs.live[n]].data
      ensures old(fs.disk == fs.live) ==> fs.disk == fs.live
      ensures Coming(old(plan)).Go? ==> (st.Ok? <==> n in fs.live && fs.files[fs.live[n]].regular) && !st.Killed?
      ensures old(Calm()) && n in fs.live && fs.files[fs.live[n]].regular ==> st.Ok?
      ensures old(Calm()) ==> !st.Killed?
      ensures forall i :: old(Unpublished(fs, i)) ==> Unpublished(fs, i)
    {
      st := Touch();
      data := "";
      if st.Ok? {
        if n !in fs.live || !fs.files[fs.live[n]].regular {
          return Raised, data;
        }
        data := fs.files[fs.live[n]].data;
      }
    }

    /** os.replace of a finished temp over the final name of its member. */
    method Publish(m: Member, token: nat) returns (st: Status)
      requires Running() && Temp(m, token) in fs.live
      requires fs.files[fs.live[Temp(m, token)]] == File(true, rendering.Of(m), true, 1)
      modifies this`fs, this`plan, this`dead
      ensures dead == st.Killed? && Fated(st) && Kept() && ChainKept() && fs.files == old(fs.files)
      ensures st.Ok? ==> fs.live == (old(fs.live) - {Temp(m, token)})[Final(m) := old(fs.live)[Temp(m, token)]]
      ensures !st.Ok? ==> fs.live == old(fs.live)
      ensures old(Calm()) ==> st.Ok?
    {
      var act := Enter();
      st := Ended(act);
      if st.Ok? {
        fs := Renamed(fs, Temp(m, token), Final(m));
      }
    }

    /** The lstat that decides whether a rollback may unlink a name. */
    method Restat(n: Name) returns (st: Status, found: Option<Ino>)
      requires Running()
      modifies this`fs, this`removals, this`dead
      ensures dead == st.Killed? && FatedRemoval(st) && Kept() && ChainKept() && fs.live == old(fs.live)
      ensures fs.files == old(fs.files)
      ensures st.Ok? ==> found == Lookup(fs.live, n)
      ensures old(Tidy()) ==> st.Ok?
    {
      var act := EnterRemoval();
      st, found := Ended(act), Lookup(fs.live, n);
    }

    /** unlink; an absent name is suppressed by every caller. */
    method Unlink(n: Name) returns (st: Status)
      requires Running()
      modifies this`fs, this`removals, this`dead
      ensures dead == st.Killed? && FatedRemoval(st) && Kept() && ChainKept() && fs.files == old(fs.files)
      ensures st.Ok? ==> fs.live == old(fs.live) - {n}
      ensures !st.Ok? ==> fs.live == old(fs.live)
      ensures old(fs.disk == fs.live) && n !in old(fs.live) ==> fs.disk == fs.live
      ensures old(Tidy()) ==> st.Ok?
    {
      var act := EnterRemoval();
      st := Ended(act);
      if st.Ok? {
        assert n !in fs.live ==> fs.live - {n} == fs.live;
        fs := Unlinked(fs, n);
      }
    }

    method FsyncEntries() returns (st: Status)
      requires Running()
      modifies this`fs, this`plan, this`dead
      ensures dead == st.Killed? && Fated(st) && Kept() && ChainKept() && fs.live == old(fs.live)
      ensures fs.files == old(fs.files)
      ensures st.Ok? ==> fs.disk == fs.live
      ensures !st.Ok? ==> fs == Drift(old(fs), old(plan))
      ensures old(Calm()) ==> st.Ok?
    {
      var act := Enter();
      st := Ended(act);
      if st.Ok? {
        fs := EntriesSynced(fs);
      }
    }

    /** fsync of the directory that holds component `k` of the chain. */
    method FsyncParent(k: nat) returns (st: Status)
      requires Running() && 1 <= k <= fs.present
      modifies this`fs, this`plan, this`dead
      ensures dead == st.Killed? && Fated(st) && Kept() && ChainKept() && fs.live == old(fs.live)
      ensures fs.files == old(fs.files)
      ensures st.Ok? ==> if k == fs.depth then fs.digest.Current? else k in fs.committed
      ensures !st.Ok? ==> fs == Drift(old(fs), old(plan))
      ensures old(Calm()) ==> st.Ok?
    {
      var act := Enter();
      st := Ended(act);
      if st.Ok? {
        fs := ParentSynced(fs, k);
      }
    }

    /** mkdir of the outermost missing component. */
    method MakeComponent() returns (st: Status)
      requires Running() && fs.present < fs.depth
      modifies this`fs, this`plan, this`dead
      ensures dead == st.Killed? && Fated(st) && Kept() && fs.live == map[] && fs.files == old(fs.files)
      ensures fs.present == old(fs.present) + if st.Ok? then 1 else 0
      ensures old(Calm()) ==> st.Ok?
    {
      var act := Enter();
      st := Ended(act);
      if st.Ok? {
        fs := NextComponentMade(fs);
      }
    }

    /** rmdir of the digest directory, which only succeeds when it is empty. */
    method RemoveDigest() returns (st: Status)
      requires Running() && fs.present == fs.depth
      modifies this`fs, this`plan, this`dead
      ensures dead == st.Killed? && FatedAtBest(st) && Kept() && fs.live == old(fs.live) && fs.files == old(fs.files)
      ensures st.Ok? ==> fs.present == fs.depth - 1
      ensures !st.Ok? ==> fs.present == fs.depth
      ensures Coming(old(plan)).Go? ==> (st.Ok? <==> old(fs.live) == map[]) && !st.Killed?
      ensures old(Calm()) && old(fs.live) == map[] ==> st.Ok?
    {
      var act := Enter();
      st := Ended(act);
      if st.Ok? {
        if fs.live != map[] {
          return Raised;
        }
        fs := DigestRemoved(fs);
      }
    }
  }
}
