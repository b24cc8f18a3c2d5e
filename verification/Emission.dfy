/**
 `_emit_census_set`: write every output to a temp, publish the set by rename, verify it, and
 roll back on any failure.
 */
module Emission {
  import opened Storage
  import opened Kernel
  import opened Options

  /** A finished temp: its random token and the inode that was written. */
  datatype Held = Held(token: nat, ino: Ino)

  ghost predicate FilesKept(a: map<Ino, File>, b: map<Ino, File>) {
    forall i :: i in a ==> i in b && b[i] == a[i]
  }

  ghost predicate NoTemps(d: Dir) {
    forall n :: n in d ==> !n.Temp?
  }

  ghost function MembersOf(s: seq<Member>): set<Member> {
    set m | m in s
  }

  ghost predicate Distinct(s: seq<Member>) {
    forall i, j :: 0 <= i < j < |s| ==> s[i] != s[j]
  }

  /** Where each name points when `held` temps exist and those in `published` have been renamed. */
  ghost function Planned(before: Dir, held: map<Member, Held>, published: set<Member>, n: Name): Option<Ino> {
    match n
    case Final(m) => if m in held && m in published then Some(held[m].ino) else Lookup(before, n)
    case Temp(m, t) =>
      if m in held && m !in published && held[m].token == t then Some(held[m].ino) else Lookup(before, n)
    case Foreign(_) => Lookup(before, n)
  }

  ghost predicate Layout(live: Dir, before: Dir, held: map<Member, Held>, published: set<Member>) {
    forall n :: Lookup(live, n) == Planned(before, held, published, n)
  }

  /** The temps are this run's own: new names, new inodes, exactly the rendered bytes. */
  ghost predicate Ours(held: map<Member, Held>, before: Fs, files: map<Ino, File>, r: Rendering) {
    forall m :: m in held ==>
      && Temp(m, held[m].token) !in before.live
      && held[m].ino !in before.files
      && held[m].ino in files
      && files[held[m].ino] == File(true, r.Of(m), true, 1)
  }

  /** Whatever became of this run: every name it found is still there and unchanged, unless it is an
      output name being published, and every other name is one of its own, for a file it created. */
  ghost predicate Spared(before: Fs, live: Dir, outputs: set<Member>) {
    && (forall n: Name :: n in before.live && !(n.Final? && n.member in outputs) ==>
         Lookup(live, n) == Lookup(before.live, n))
    && forall n: Name :: n in live ==>
      Lookup(live, n) == Lookup(before.live, n) || (!n.Foreign? && n.member in outputs && live[n] !in before.files)
  }

  lemma SparedOnwards(a: Fs, b: Fs, live: Dir, outputs: set<Member>, m: Member)
    requires Spared(a, b.live, outputs) && FilesKept(a.files, b.files) && Spared(b, live, {m}) && m in outputs
    ensures Spared(a, live, outputs)
  {}

  /** The name of an output is taken by something that is not a regular file. */
  ghost predicate Planted(fs: Fs, m: Member) {
    Final(m) in fs.live && fs.live[Final(m)] in fs.files && !fs.files[fs.live[Final(m)]].regular
  }

  /** The next `n` calls all go through. */
  ghost predicate GoThrough(plan: seq<Fate>, n: nat) {
    n == 0 || (Coming(plan).Go? && GoThrough(Later(plan), n - 1))
  }

  /** The body of the inner try: fchmod, write, fsync, the link count and the read-back. */
  method FillTemp(k: Machine, m: Member, token: nat, ino: Ino) returns (st: Status)
    requires k.Running() && Unpublished(k.fs, ino)
    requires Temp(m, token) in k.fs.live && k.fs.live[Temp(m, token)] == ino && ino in k.fs.files
    requires k.fs.files[ino] == File(true, "", false, 1)
    modifies k
    ensures k.dead == st.Killed? && k.Kept() && k.ChainKept() && k.fs.live == old(k.fs.live)
    ensures k.fs.files.Keys == old(k.fs.files.Keys)
    ensures forall i :: i in k.fs.files && i != ino ==> k.fs.files[i] == old(k.fs.files)[i]
    ensures st.Ok? ==> k.fs.files[ino] == File(true, k.rendering.Of(m), true, 1)
    ensures st.Ok? <==> GoThrough(old(k.plan), 5)
    ensures old(k.Calm()) ==> st.Ok?
  {
    st := k.Touch();
    assert GoThrough(old(k.plan), 5) <==> st.Ok? && GoThrough(k.plan, 4);
    if !st.Ok? { return; }
    st := k.Write(ino, k.rendering.Of(m));
    assert GoThrough(old(k.plan), 5) <==> st.Ok? && GoThrough(k.plan, 3);
    if !st.Ok? { return; }
    st := k.Fsync(ino);
    assert GoThrough(old(k.plan), 5) <==> st.Ok? && GoThrough(k.plan, 2);
    if !st.Ok? { return; }
    st := k.Touch();
    assert GoThrough(old(k.plan), 5) <==> st.Ok? && GoThrough(k.plan, 1);
    if !st.Ok? { return; }
    if k.fs.files[ino].links != 1 {
      return Raised;
    }
    ghost var p := k.plan;
    var data;
    st, data := k.ReadBack(Temp(m, token));
    assert GoThrough(p, 1) <==> Coming(p).Go? && GoThrough(Later(p), 0);
    if st.Ok? && data != k.rendering.Of(m) {
      return Raised;
    }
  }

  lemma SparedTemp(before: Fs, m: Member, token: nat, ino: Ino)
    requires Temp(m, token) !in before.live && ino !in before.files
    ensures Spared(before, before.live, {m}) && Spared(before, before.live[Temp(m, token) := ino], {m})
    ensures before.live[Temp(m, token) := ino] - {Temp(m, token)} == before.live
  {}

  /** A temp that failed is unlinked again. */
  method DropTemp(k: Machine, m: Member, token: nat) returns (st: Status)
    requires k.Running()
    modifies k
    ensures k.dead == st.Killed? && k.Kept() && k.ChainKept() && k.fs.files == old(k.fs.files) && !st.Ok?
    ensures k.fs.live == old(k.fs.live) || k.fs.live == old(k.fs.live) - {Temp(m, token)}
    ensures old(k.Tidy()) ==> st.Raised? && k.fs.live == old(k.fs.live) - {Temp(m, token)}
  {
    st := k.Unlink(Temp(m, token));
    st := if st.Killed? then Killed else Raised;
  }

  /** What a temp looks like when it is ready to be renamed. */
  ghost predicate Ready(before: Fs, after: Fs, m: Member, held: Held, r: Rendering) {
    && Temp(m, held.token) !in before.live
    && held.ino !in before.files
    && after.live == before.live[Temp(m, held.token) := held.ino]
    && held.ino in after.files
    && after.files[held.ino] == File(true, r.Of(m), true, 1)
  }

  method MakeTemp(k: Machine, m: Member) returns (st: Status, held: Held)
    requires k.Running() && k.fs.present == k.fs.depth
    modifies k
    ensures k.dead == st.Killed? && k.Kept() && k.ChainKept() && FilesKept(old(k.fs.files), k.fs.files)
    ensures st.Ok? ==> Ready(old(k.fs), k.fs, m, held, k.rendering)
    ensures Spared(old(k.fs), k.fs.live, {m})
    ensures st.Raised? && old(k.Tidy()) ==> k.fs.live == old(k.fs.live)
    ensures (old(k.Calm()) && forall t :: Temp(m, t) !in old(k.fs.live)) ==> st.Ok?
    ensures old(k.Calm()) ==> !st.Killed?
  {
    var token, ino;
    st, token, ino := k.CreateTemp(m);
    held := Held(token, ino);
    if !st.Ok? { return; }
    SparedTemp(old(k.fs), m, token, ino);
    st := FillTemp(k, m, token, ino);
    if st.Raised? {
      st := DropTemp(k, m, token);
    }
  }

  method WriteTemp(k: Machine, m: Member) returns (st: Status, held: Held)
    requires k.Running() && k.fs.present == k.fs.depth
    modifies k
    ensures k.dead == st.Killed? && k.Kept() && k.ChainKept() && FilesKept(old(k.fs.files), k.fs.files)
    ensures st.Ok? ==> Ready(old(k.fs), k.fs, m, held, k.rendering)
    ensures Spared(old(k.fs), k.fs.live, {m})
    ensures st.Raised? && old(k.Tidy()) ==> k.fs.live == old(k.fs.live)
    ensures Planted(old(k.fs), m) ==> !st.Ok?
    ensures (old(k.Calm()) && Final(m) !in old(k.fs.live) && forall t :: Temp(m, t) !in old(k.fs.live)) ==> st.Ok?
    ensures old(k.Calm()) ==> !st.Killed?
  {
    held := Held(0, 0);
    var existing;
    st, existing := k.Lstat(Final(m));
    if !st.Ok? { return; }
    if existing.Some? && !k.fs.files[existing.value].regular {
      return Raised, held;
    }
    st, held := MakeTemp(k, m);
  }

  lemma LayoutWithTemp(live: Dir, before: Dir, held: map<Member, Held>, m: Member, temp: Held)
    requires Layout(live, before, held, {}) && m !in held && Temp(m, temp.token) !in live
    ensures Layout(live[Temp(m, temp.token) := temp.ino], before, held[m := temp], {})
    ensures Temp(m, temp.token) !in before
  {
    var after := live[Temp(m, temp.token) := temp.ino];
    forall n ensures Lookup(after, n) == Planned(before, held[m := temp], {}, n) {
      assert Lookup(live, n) == Planned(before, held, {}, n);
    }
    assert Lookup(live, Temp(m, temp.token)) == Planned(before, held, {}, Temp(m, temp.token));
  }

  lemma LayoutLeaves(live: Dir, before: Dir, held: map<Member, Held>, m: Member)
    requires Layout(live, before, held, {}) && m !in held
    ensures Lookup(live, Final(m)) == Lookup(before, Final(m))
    ensures NoTemps(before) ==> forall t :: Temp(m, t) !in live
  {
    assert Lookup(live, Final(m)) == Planned(before, held, {}, Final(m));
    forall t | NoTemps(before) ensures Temp(m, t) !in live {
      assert Lookup(live, Temp(m, t)) == Planned(before, held, {}, Temp(m, t));
    }
  }

  lemma OursWithTemp(held: map<Member, Held>, before: Fs, was: Fs, now: Fs, r: Rendering, m: Member, temp: Held)
    requires Ours(held, before, was.files, r) && FilesKept(before.files, was.files) && FilesKept(was.files, now.files)
    requires Layout(was.live, before.live, held, {}) && m !in held && Ready(was, now, m, temp, r)
    ensures FilesKept(before.files, now.files) && Ours(held, before, now.files, r)
    ensures Ours(held[m := temp], before, now.files, r) && Layout(now.live, before.live, held[m := temp], {})
  {
    LayoutWithTemp(was.live, before.live, held, m, temp);
  }

  /** The temp of one more output. */
  method WriteNext(k: Machine, m: Member, held: map<Member, Held>, ghost before: Fs, ghost outputs: set<Member>)
    returns (st: Status, more: map<Member, Held>)
    requires k.Running() && k.fs.present == k.fs.depth && m !in held && m in outputs
    requires FilesKept(before.files, k.fs.files) && Ours(held, before, k.fs.files, k.rendering)
    requires Layout(k.fs.live, before.live, held, {}) && Spared(before, k.fs.live, outputs)
    modifies k
    ensures k.dead == st.Killed? && k.Kept() && k.ChainKept() && FilesKept(before.files, k.fs.files)
    ensures Ours(more, before, k.fs.files, k.rendering) && Spared(before, k.fs.live, outputs)
    ensures more.Keys == if st.Ok? then held.Keys + {m} else held.Keys
    ensures Planted(before, m) ==> !st.Ok?
    ensures st.Ok? || (st.Raised? && old(k.Tidy())) ==> Layout(k.fs.live, before.live, more, {})
    ensures (old(k.Calm()) && NoTemps(before.live) && Final(m) !in before.live) ==> st.Ok?
    ensures old(k.Calm()) ==> !st.Killed?
  {
    LayoutLeaves(k.fs.live, before.live, held, m);
    more := held;
    var temp;
    st, temp := WriteTemp(k, m);
    SparedOnwards(before, old(k.fs), k.fs.live, outputs, m);
    if st.Ok? {
      OursWithTemp(held, before, old(k.fs), k.fs, k.rendering, m, temp);
      more := held[m := temp];
    }
  }

  /** Phase (a): every output is vetted, written and read back under its temp name. */
  method WriteSet(k: Machine, publish: seq<Member>)
    returns (st: Status, written: nat, held: map<Member, Held>)
    requires k.Running() && k.fs.present == k.fs.depth && Distinct(publish)
    modifies k
    ensures k.dead == st.Killed? && k.Kept() && k.ChainKept() && FilesKept(old(k.fs.files), k.fs.files)
    ensures Ours(held, old(k.fs), k.fs.files, k.rendering)
    ensures written <= |publish| && held.Keys == MembersOf(publish[..written])
    ensures st.Ok? ==> written == |publish| && forall m :: m in publish ==> !Planted(old(k.fs), m)
    ensures st.Ok? || (st.Raised? && old(k.Tidy())) ==> Layout(k.fs.live, old(k.fs.live), held, {})
    ensures Spared(old(k.fs), k.fs.live, MembersOf(publish))
    ensures (old(k.Calm()) && NoTemps(old(k.fs.live)) && forall m :: m in publish ==> Final(m) !in old(k.fs.live))
            ==> st.Ok?
    ensures old(k.Calm()) ==> !st.Killed?
  {
    st, written, held := Ok, 0, map[];
    while written < |publish|
      invariant st.Ok? && !k.dead && k.Kept() && k.ChainKept() && FilesKept(old(k.fs.files), k.fs.files)
      invariant Ours(held, old(k.fs), k.fs.files, k.rendering)
      invariant Layout(k.fs.live, old(k.fs.live), held, {})
      invariant written <= |publish| && held.Keys == MembersOf(publish[..written])
      invariant forall m :: m in publish[..written] ==> !Planted(old(k.fs), m)
      invariant Spared(old(k.fs), k.fs.live, MembersOf(publish))
    {
      RemainderStep(publish, written);
      st, held := WriteNext(k, publish[written], held, old(k.fs), MembersOf(publish));
      if !st.Ok? {
        return;
      }
      written := written + 1;
    }
  }

  lemma LayoutRenamed(live: Dir, before: Dir, held: map<Member, Held>, done: set<Member>, m: Member)
    requires Layout(live, before, held, done) && m in held && m !in done
    requires Temp(m, held[m].token) !in before
    ensures Lookup(live, Temp(m, held[m].token)) == Some(held[m].ino)
    ensures Layout((live - {Temp(m, held[m].token)})[Final(m) := held[m].ino], before, held, done + {m})
  {
    assert Lookup(live, Temp(m, held[m].token)) == Planned(before, held, done, Temp(m, held[m].token));
    var after := (live - {Temp(m, held[m].token)})[Final(m) := held[m].ino];
    forall n ensures Lookup(after, n) == Planned(before, held, done + {m}, n) {
      assert Lookup(live, n) == Planned(before, held, done, n);
    }
  }

  /** Undoing one rename whose target name was free removes the member from the plan. */
  lemma LayoutRolledBack(live: Dir, before: Dir, held: map<Member, Held>, done: set<Member>, m: Member)
    requires Layout(live, before, held, done) && m in held && m in done
    requires Temp(m, held[m].token) !in before
    ensures Lookup(live, Final(m)) == Some(held[m].ino)
    ensures Final(m) !in before ==> Layout(live - {Final(m)}, before, held - {m}, done - {m})
  {
    assert Lookup(live, Final(m)) == Planned(before, held, done, Final(m));
    if Final(m) !in before {
      var after := live - {Final(m)};
      forall n ensures Lookup(after, n) == Planned(before, held - {m}, done - {m}, n) {
        assert Lookup(live, n) == Planned(before, held, done, n);
      }
    }
  }

  /** Removing a temp name forgets an unpublished member and leaves a published one alone. */
  lemma LayoutSwept(live: Dir, before: Dir, held: map<Member, Held>, done: set<Member>, m: Member, token: nat)
    requires Layout(live, before, held, done) && Temp(m, token) !in before
    requires m in held ==> held[m].token == token
    ensures Layout(live - {Temp(m, token)}, before, if m in done then held else held - {m}, done)
  {
    var after := live - {Temp(m, token)};
    var left := if m in done then held else held - {m};
    forall n ensures Lookup(after, n) == Planned(before, left, done, n) {
      assert Lookup(live, n) == Planned(before, held, done, n);
    }
  }

  lemma SparedRename(before: Fs, live: Dir, outputs: set<Member>, m: Member, token: nat)
    requires Spared(before, live, outputs) && m in outputs && Temp(m, token) !in before.live && Temp(m, token) in live
    ensures Spared(before, (live - {Temp(m, token)})[Final(m) := live[Temp(m, token)]], outputs)
  {
    assert Lookup(live, Temp(m, token)) == Some(live[Temp(m, token)]);
  }

  /** Taking away an output name, or a temp that was not there before, spares the rest. */
  lemma SparedRemoval(before: Fs, live: Dir, outputs: set<Member>, n: Name)
    requires Spared(before, live, outputs) && (n in before.live ==> n.Final? && n.member in outputs)
    ensures Spared(before, live - {n}, outputs)
  {
    forall x: Name | x in live - {n} ensures Lookup(live - {n}, x) == Lookup(live, x) {}
  }

  /** The rename of one finished temp. */
  method PublishOne(k: Machine, m: Member, held: map<Member, Held>, ghost before: Fs, ghost done: set<Member>,
                    ghost outputs: set<Member>)
    returns (st: Status)
    requires k.Running() && m in held && m !in done && held.Keys <= outputs
    requires Ours(held, before, k.fs.files, k.rendering) && Layout(k.fs.live, before.live, held, done)
    requires Spared(before, k.fs.live, outputs)
    modifies k
    ensures k.dead == st.Killed? && k.Kept() && k.ChainKept() && k.fs.files == old(k.fs.files)
    ensures Spared(before, k.fs.live, outputs)
    ensures Layout(k.fs.live, before.live, held, if st.Ok? then done + {m} else done)
    ensures old(k.Calm()) ==> st.Ok?
  {
    LayoutRenamed(k.fs.live, before.live, held, done, m);
    SparedRename(before, k.fs.live, outputs, m, held[m].token);
    st := k.Publish(m, held[m].token);
  }

  /** Phase (b): the renames, in order; `done` of them went through. */
  method PublishSet(k: Machine, publish: seq<Member>, held: map<Member, Held>, ghost before: Fs,
                    ghost outputs: set<Member>)
    returns (st: Status, done: nat)
    requires k.Running() && Distinct(publish) && forall m :: m in publish ==> m in held
    requires Ours(held, before, k.fs.files, k.rendering) && Layout(k.fs.live, before.live, held, {})
    requires Spared(before, k.fs.live, outputs) && held.Keys <= outputs
    modifies k
    ensures k.dead == st.Killed? && k.Kept() && k.ChainKept() && k.fs.files == old(k.fs.files)
    ensures Spared(before, k.fs.live, outputs)
    ensures done <= |publish| && Layout(k.fs.live, before.live, held, MembersOf(publish[..done]))
    ensures st.Ok? ==> done == |publish|
    ensures old(k.Calm()) ==> st.Ok?
  {
    st, done := Ok, 0;
    assert MembersOf(publish[..0]) == {};
    while done < |publish|
      invariant st.Ok? && !k.dead && k.Kept() && k.ChainKept() && k.fs.files == old(k.fs.files)
      invariant done <= |publish| && Layout(k.fs.live, before.live, held, MembersOf(publish[..done]))
      invariant Spared(before, k.fs.live, outputs)
    {
      RemainderStep(publish, done);
      st := PublishOne(k, publish[done], held, before, MembersOf(publish[..done]), outputs);
      if !st.Ok? {
        return;
      }
      done := done + 1;
    }
    assert publish[..done] == publish;
  }

  /** Phase (c): the complete set is verified through lstat, inode identity and a full read. */
  method VerifySet(k: Machine, verify: seq<Member>, held: map<Member, Held>) returns (st: Status)
    requires k.Running()
    modifies k
    ensures k.dead == st.Killed? && k.Kept() && k.ChainKept() && k.fs.live == old(k.fs.live)
    ensures k.fs.files == old(k.fs.files)
    ensures st.Ok? ==> forall m :: m in verify ==> MemberHolds(k.fs.live, k.fs.files, k.rendering, m)
    ensures old(k.fs.disk == k.fs.live) ==> k.fs.disk == k.fs.live
    ensures (old(k.Calm()) && forall m :: m in verify ==>
              MemberHolds(k.fs.live, k.fs.files, k.rendering, m) && (m in held ==> k.fs.live[Final(m)] == held[m].ino))
            ==> st.Ok?
    ensures old(k.Calm()) ==> !st.Killed?
  {
    st := Ok;
    for i := 0 to |verify|
      invariant st.Ok? && !k.dead && k.Kept() && k.ChainKept() && k.fs.live == old(k.fs.live)
      invariant k.fs.files == old(k.fs.files)
      invariant forall m :: m in verify[..i] ==> MemberHolds(k.fs.live, k.fs.files, k.rendering, m)
      invariant old(k.fs.disk == k.fs.live) ==> k.fs.disk == k.fs.live
    {
      var m := verify[i];
      var found;
      st, found := k.Lstat(Final(m));
      if !st.Ok? {
        return;
      }
      if found.None? || !k.fs.files[found.value].regular || (m in held && found.value != held[m].ino) {
        return Raised;
      }
      var data;
      st, data := k.ReadBack(Final(m));
      if !st.Ok? {
        return;
      }
      if data != k.rendering.Of(m) {
        return Raised;
      }
      assert verify[..i + 1] == verify[..i] + [m];
    }
  }

  /** `_unlink_published_if_ours`: whatever happens, the name only goes while it maps to the inode
      this run wrote.  Failures are suppressed. */
  method UnlinkIfOurs(k: Machine, m: Member, ino: Ino) returns (st: Status)
    requires k.Running()
    modifies k
    ensures k.dead == st.Killed? && k.Kept() && k.ChainKept() && k.fs.files == old(k.fs.files)
    ensures !st.Raised? && (old(k.Tidy()) ==> st.Ok?)
    ensures k.fs.live == old(k.fs.live)
      || (Lookup(old(k.fs.live), Final(m)) == Some(ino) && k.fs.live == old(k.fs.live) - {Final(m)})
    ensures old(k.Tidy()) && Lookup(old(k.fs.live), Final(m)) == Some(ino) ==> k.fs.live == old(k.fs.live) - {Final(m)}
  {
    var found;
    st, found := k.Restat(Final(m));
    if st.Ok? && found == Some(ino) {
      st := k.Unlink(Final(m));
    }
    st := if st.Raised? then Ok else st;
  }

  /** One step of the rollback.  `whole` says that the plan of the directory is still exact. */
  method RollBackOne(k: Machine, m: Member, ino: Ino, ghost before: Fs, ghost planned: map<Member, Held>,
                     ghost done: set<Member>, ghost outputs: set<Member>, ghost whole: bool)
    returns (st: Status)
    requires k.Running() && m in outputs && Spared(before, k.fs.live, outputs)
    requires whole ==> k.Tidy() && Layout(k.fs.live, before.live, planned, done) && Final(m) !in before.live
    requires whole ==> m in planned && m in done && planned[m].ino == ino && Temp(m, planned[m].token) !in before.live
    modifies k
    ensures k.dead == st.Killed? && k.Kept() && k.ChainKept() && k.fs.files == old(k.fs.files)
    ensures !st.Raised? && (old(k.Tidy()) ==> st.Ok?)
    ensures Spared(before, k.fs.live, outputs)
    ensures whole ==> Layout(k.fs.live, before.live, planned - {m}, done - {m})
  {
    SparedRemoval(before, k.fs.live, outputs, Final(m));
    if whole {
      LayoutRolledBack(k.fs.live, before.live, planned, done, m);
    }
    st := UnlinkIfOurs(k, m, ino);
  }

  /** The rollback of the members that were already renamed into place. */
  method RollBack(k: Machine, published: seq<Member>, held: map<Member, Held>, ghost before: Fs,
                  ghost outputs: set<Member>)
    returns (st: Status)
    requires k.Running() && Distinct(published) && forall m :: m in published ==> m in held
    requires Ours(held, before, k.fs.files, k.rendering) && Spared(before, k.fs.live, outputs) && held.Keys <= outputs
    requires Layout(k.fs.live, before.live, held, MembersOf(published))
    modifies k
    ensures k.dead == st.Killed? && k.Kept() && k.ChainKept() && k.fs.files == old(k.fs.files)
    ensures !st.Raised? && (old(k.Tidy()) ==> st.Ok?)
    ensures Spared(before, k.fs.live, outputs)
    ensures (old(k.Tidy()) && forall m :: m in published ==> Final(m) !in before.live)
            ==> Layout(k.fs.live, before.live, held - MembersOf(published), {})
  {
    st := Ok;
    ghost var whole := k.Tidy() && forall m :: m in published ==> Final(m) !in before.live;
    assert published[0..] == published && MembersOf(published[..0]) == {};
    for i := 0 to |published|
      invariant st.Ok? && !k.dead && k.Kept() && k.ChainKept() && k.fs.files == old(k.fs.files)
      invariant Spared(before, k.fs.live, outputs)
      invariant whole ==>
        Layout(k.fs.live, before.live, held - MembersOf(published[..i]), MembersOf(published[i..]))
    {
      var m := published[i];
      RemainderStep(published, i);
      ghost var planned := held - MembersOf(published[..i]);
      assert planned - {m} == held - MembersOf(published[..i + 1]);
      st := RollBackOne(k, m, held[m].ino, before, planned, MembersOf(published[i..]), outputs, whole);
      if st.Killed? {
        return;
      }
    }
    assert published[..|published|] == published && published[|published|..] == [];
  }

  lemma RemainderStep(s: seq<Member>, i: nat)
    requires Distinct(s) && i < |s|
    ensures s[i] !in MembersOf(s[..i])
    ensures MembersOf(s[..i]) + {s[i]} == MembersOf(s[..i + 1])
    ensures MembersOf(s[i..]) - {s[i]} == MembersOf(s[i + 1..])
  {
    assert s[..i + 1] == s[..i] + [s[i]];
    assert s[i..] == [s[i]] + s[i + 1..];
  }

  /** One temp name of the sweep.  `exact` says that the plan of the directory is exact. */
  method SweepOne(k: Machine, m: Member, token: nat, ghost before: Fs, ghost left: map<Member, Held>,
                  ghost done: set<Member>, ghost outputs: set<Member>, ghost exact: bool)
    returns (st: Status)
    requires k.Running() && Spared(before, k.fs.live, outputs) && Temp(m, token) !in before.live
    requires exact ==> Layout(k.fs.live, before.live, left, done) && (m in left ==> left[m].token == token)
    modifies k
    ensures k.dead == st.Killed? && k.Kept() && k.ChainKept() && k.fs.files == old(k.fs.files)
    ensures Spared(before, k.fs.live, outputs)
    ensures st.Ok? && exact ==> Layout(k.fs.live, before.live, if m in done then left else left - {m}, done)
    ensures old(k.fs.disk == k.fs.live) && Temp(m, token) !in old(k.fs.live) ==> k.fs.disk == k.fs.live
    ensures forall n :: n !in old(k.fs.live) ==> n !in k.fs.live
    ensures old(k.Tidy()) ==> st.Ok?
  {
    if exact {
      LayoutSwept(k.fs.live, before.live, left, done, m, token);
    }
    SparedRemoval(before, k.fs.live, outputs, Temp(m, token));
    st := k.Unlink(Temp(m, token));
  }

  lemma {:induction false} SweptNext(planned: map<Member, Held>, temps: seq<Member>, i: nat, done: set<Member>)
    requires i < |temps|
    ensures var left := planned - (set m | m in temps[..i] && m !in done);
      planned - (set m | m in temps[..i + 1] && m !in done) == if temps[i] in done then left else left - {temps[i]}
  {
    assert temps[..i + 1] == temps[..i] + [temps[i]];
  }

  /** The finally clause: every temp name is unlinked; a failing unlink raises and ends the sweep. */
  method SweepTemps(k: Machine, temps: seq<Member>, held: map<Member, Held>, ghost before: Fs,
                    ghost planned: map<Member, Held>, ghost done: set<Member>, ghost outputs: set<Member>)
    returns (st: Status)
    requires k.Running() && forall m :: m in temps ==> m in held
    requires Ours(held, before, k.fs.files, k.rendering)
    requires forall m :: m in planned ==> m in held && planned[m] == held[m]
    requires Spared(before, k.fs.live, outputs)
    modifies k
    ensures k.dead == st.Killed? && k.Kept() && k.ChainKept() && k.fs.files == old(k.fs.files)
    ensures Spared(before, k.fs.live, outputs)
    ensures st.Ok? && old(Layout(k.fs.live, before.live, planned, done)) ==>
      Layout(k.fs.live, before.live, planned - (set m | m in temps && m !in done), done)
    ensures old(k.fs.disk == k.fs.live) && (forall m :: m in temps ==> Temp(m, held[m].token) !in old(k.fs.live)) ==>
      k.fs.disk == k.fs.live
    ensures old(k.Tidy()) ==> st.Ok?
  {
    st := Ok;
    ghost var left, exact := planned, Layout(k.fs.live, before.live, planned, done);
    for i := 0 to |temps|
      invariant st.Ok? && !k.dead && k.Kept() && k.ChainKept() && k.fs.files == old(k.fs.files)
      invariant left == planned - (set m | m in temps[..i] && m !in done)
      invariant Spared(before, k.fs.live, outputs)
      invariant exact ==> Layout(k.fs.live, before.live, left, done)
      invariant forall n :: n !in old(k.fs.live) ==> n !in k.fs.live
      invariant (old(k.fs.disk == k.fs.live)
                 && forall m :: m in temps ==> Temp(m, held[m].token) !in old(k.fs.live)) ==> k.fs.disk == k.fs.live
    {
      var m := temps[i];
      st := SweepOne(k, m, held[m].token, before, left, done, outputs, exact);
      if !st.Ok? {
        return;
      }
      SweptNext(planned, temps, i, done);
      left := if m in done then left else left - {m};
    }
    assert temps[..|temps|] == temps;
  }

  /** With nothing planned, the directory is the one the emitter found. */
  lemma LayoutUndone(live: Dir, before: Dir)
    requires Layout(live, before, map[], {})
    ensures live == before
  {
    forall n ensures Lookup(live, n) == Lookup(before, n) {
      assert Lookup(live, n) == Planned(before, map[], {}, n);
    }
    SameLookups(live, before);
  }

  lemma SameLayout(live: Dir, other: Dir, before: Dir, held: map<Member, Held>, done: set<Member>)
    requires Layout(live, before, held, done) && Layout(other, before, held, done)
    ensures live == other
  {
    forall n ensures Lookup(live, n) == Lookup(other, n) {
      assert Lookup(live, n) == Planned(before, held, done, n) == Lookup(other, n);
    }
    SameLookups(live, other);
  }

  /** After all renames, published members hold the rendering and everything else is as found. */
  lemma LayoutPublished(k: Fs, before: Fs, held: map<Member, Held>, done: set<Member>, r: Rendering)
    requires Layout(k.live, before.live, held, done) && held.Keys == done
    requires Ours(held, before, k.files, r) && FilesKept(before.files, k.files)
    ensures forall m :: m in done ==>
      Lookup(k.live, Final(m)) == Some(held[m].ino) && MemberHolds(k.live, k.files, r, m)
    ensures forall n: Name :: !(n.Final? && n.member in done) ==> Lookup(k.live, n) == Lookup(before.live, n)
    ensures forall m :: m !in done && MemberHolds(before.live, before.files, r, m) ==>
      MemberHolds(k.live, k.files, r, m)
  {
    forall m | m in done
      ensures Lookup(k.live, Final(m)) == Some(held[m].ino) && MemberHolds(k.live, k.files, r, m)
    {
      assert Lookup(k.live, Final(m)) == Planned(before.live, held, done, Final(m));
    }
    forall n: Name | !(n.Final? && n.member in done) ensures Lookup(k.live, n) == Lookup(before.live, n) {
      assert Lookup(k.live, n) == Planned(before.live, held, done, n);
    }
    forall m | m !in done && MemberHolds(before.live, before.files, r, m) ensures MemberHolds(k.live, k.files, r, m) {
      assert Lookup(k.live, Final(m)) == Lookup(before.live, Final(m));
    }
  }

  /** Publish, fsync the directory, verify: the part that is rolled back on failure. */
  method PublishAndVerify(k: Machine, publish: seq<Member>, verify: seq<Member>, held: map<Member, Held>,
                          ghost before: Fs, ghost outputs: set<Member>)
    returns (st: Status, renamed: nat)
    requires k.Running() && Distinct(publish) && held.Keys == MembersOf(publish)
    requires Ours(held, before, k.fs.files, k.rendering) && Layout(k.fs.live, before.live, held, {})
    requires FilesKept(before.files, k.fs.files) && Spared(before, k.fs.live, outputs) && held.Keys <= outputs
    modifies k
    ensures k.dead == st.Killed? && k.Kept() && k.ChainKept() && k.fs.files == old(k.fs.files)
    ensures Spared(before, k.fs.live, outputs)
    ensures renamed <= |publish| && Layout(k.fs.live, before.live, held, MembersOf(publish[..renamed]))
    ensures st.Ok? ==> renamed == |publish| && k.fs.disk == k.fs.live
    ensures st.Ok? ==> forall m :: m in verify ==> MemberHolds(k.fs.live, k.fs.files, k.rendering, m)
    ensures (old(k.Calm()) && forall m :: m in verify ==>
              m in publish || MemberHolds(before.live, before.files, k.rendering, m)) ==> st.Ok?
    ensures old(k.Calm()) ==> !st.Killed?
  {
    st, renamed := PublishSet(k, publish, held, before, outputs);
    assert publish[..|publish|] == publish;
    if st.Ok? {
      st := k.FsyncEntries();
      if st.Ok? {
        LayoutPublished(k.fs, before, held, MembersOf(publish), k.rendering);
        st := VerifySet(k, verify, held);
      }
    }
  }

  /** The set is published and verified, or rolled back.  `planned` and `done` describe the
      directory this leaves. */
  method PublishOrRollBack(k: Machine, publish: seq<Member>, verify: seq<Member>, held: map<Member, Held>,
                           ghost before: Fs, ghost outputs: set<Member>)
    returns (st: Status, ghost planned: map<Member, Held>, ghost done: set<Member>)
    requires k.Running() && Distinct(publish) && held.Keys == MembersOf(publish)
    requires Ours(held, before, k.fs.files, k.rendering) && Layout(k.fs.live, before.live, held, {})
    requires FilesKept(before.files, k.fs.files) && Spared(before, k.fs.live, outputs) && held.Keys <= outputs
    modifies k
    ensures k.dead == st.Killed? && k.Kept() && k.ChainKept() && k.fs.files == old(k.fs.files)
    ensures Spared(before, k.fs.live, outputs)
    ensures forall m :: m in planned ==> m in held && planned[m] == held[m]
    ensures st.Ok? ==> planned == held && done == MembersOf(publish) && Layout(k.fs.live, before.live, planned, done)
    ensures st.Ok? ==> k.fs.disk == k.fs.live
    ensures st.Ok? ==> forall m :: m in verify ==> MemberHolds(k.fs.live, k.fs.files, k.rendering, m)
    ensures (st.Raised? && old(k.Tidy()) && forall m :: m in publish ==> Final(m) !in before.live) ==>
      done == {} && Layout(k.fs.live, before.live, planned, done)
    ensures (old(k.Calm()) && forall m :: m in verify ==>
              m in publish || MemberHolds(before.live, before.files, k.rendering, m)) ==> st.Ok?
    ensures old(k.Calm()) ==> !st.Killed?
  {
    planned, done := held, MembersOf(publish);
    var renamed;
    st, renamed := PublishAndVerify(k, publish, verify, held, before, outputs);
    assert publish[..|publish|] == publish;
    if st.Raised? {
      planned, done := held - MembersOf(publish[..renamed]), {};
      assert Distinct(publish[..renamed]);
      var rolled := RollBack(k, publish[..renamed], held, before, outputs);
      st := if rolled.Killed? then Killed else Raised;
    }
  }

  lemma {:induction false} PublishedTempsAreGone(live: Dir, before: Fs, held: map<Member, Held>, files: map<Ino, File>,
                                                 r: Rendering)
    requires Ours(held, before, files, r) && Layout(live, before.live, held, held.Keys)
    ensures forall m :: m in held ==> Temp(m, held[m].token) !in live
  {
    forall m | m in held ensures Temp(m, held[m].token) !in live {
      assert Lookup(live, Temp(m, held[m].token)) == Planned(before.live, held, held.Keys, Temp(m, held[m].token));
    }
  }

  /** The finally clause as seen by the emitter: what is left of the temps after it. */
  method Finish(k: Machine, temps: seq<Member>, held: map<Member, Held>, ghost before: Fs,
                ghost planned: map<Member, Held>, ghost done: set<Member>, ghost outputs: set<Member>)
    returns (st: Status)
    requires k.Running() && held.Keys == MembersOf(temps)
    requires Ours(held, before, k.fs.files, k.rendering) && FilesKept(before.files, k.fs.files)
    requires forall m :: m in planned ==> m in held && planned[m] == held[m]
    requires Spared(before, k.fs.live, outputs) && held.Keys <= outputs
    modifies k
    ensures k.dead == st.Killed? && k.Kept() && k.ChainKept() && k.fs.files == old(k.fs.files)
    ensures Spared(before, k.fs.live, outputs)
    ensures st.Ok? && old(Layout(k.fs.live, before.live, planned, done)) && done == {} ==> k.fs.live == before.live
    ensures st.Ok? && old(Layout(k.fs.live, before.live, planned, done)) && planned == held && done == held.Keys ==>
      Layout(k.fs.live, before.live, held, done) && k.fs.live == old(k.fs.live)
      && (old(k.fs.disk == k.fs.live) ==> k.fs.disk == k.fs.live)
    ensures old(k.Tidy()) ==> st.Ok?
  {
    if Layout(k.fs.live, before.live, planned, done) && planned == held && done == held.Keys {
      PublishedTempsAreGone(k.fs.live, before, held, k.fs.files, k.rendering);
    }
    st := SweepTemps(k, temps, held, before, planned, done, outputs);
    if st.Ok? && old(Layout(k.fs.live, before.live, planned, done)) {
      if done == {} {
        assert planned - (set m | m in temps && m !in done) == map[];
        LayoutUndone(k.fs.live, before.live);
      }
      if planned == held && done == held.Keys {
        assert planned - (set m | m in temps && m !in done) == held;
        SameLayout(k.fs.live, old(k.fs.live), before.live, held, done);
      }
    }
  }

  /** `_emit_census_set`.  `manifestHolds` is the outcome of the manifest re-check at the write
      moment. */
  method EmitSet(k: Machine, publish: seq<Member>, verify: seq<Member>, manifestHolds: bool) returns (st: Status)
    requires k.Running() && k.fs.present == k.fs.depth && Distinct(publish)
    modifies k
    // a manifest that changed refuses before anything is written
    ensures !manifestHolds ==> st.Raised? && k.fs == old(k.fs)
    // a name taken by something that is no regular file is never published over
    ensures (exists m :: m in publish && Planted(old(k.fs), m)) ==> !st.Ok?
    // every name keeps being recoverable residue, whatever happens
    ensures k.dead == st.Killed? && k.Kept() && k.ChainKept() && FilesKept(old(k.fs.files), k.fs.files)
    // and however the run ends, no name and no file it did not create is taken away or changed
    ensures Spared(old(k.fs), k.fs.live, MembersOf(publish))
    // success publishes exactly the given members, makes their names durable and verifies the whole set
    ensures st.Ok? ==> k.fs.disk == k.fs.live
    ensures st.Ok? ==>
      && (forall m :: m in verify || m in publish ==> MemberHolds(k.fs.live, k.fs.files, k.rendering, m))
      && forall n: Name :: !(n.Final? && n.member in publish) ==> Lookup(k.fs.live, n) == Lookup(old(k.fs.live), n)
    // a failure over free names leaves the directory as it was found, unless a clean-up call fails
    ensures (st.Raised? && old(k.Tidy()) && forall m :: m in publish ==> Final(m) !in old(k.fs.live))
            ==> k.fs.live == old(k.fs.live)
    // an undisturbed run over free names succeeds
    ensures (old(k.Calm()) && manifestHolds && NoTemps(old(k.fs.live))
             && (forall m :: m in publish ==> Final(m) !in old(k.fs.live))
             && forall m :: m in verify ==> m in publish || old(MemberHolds(k.fs.live, k.fs.files, k.rendering, m)))
            ==> st.Ok?
    ensures old(k.Calm()) ==> !st.Killed?
  {
    if !manifestHolds {
      return Raised;
    }
    ghost var before := k.fs;
    var written, held;
    st, written, held := WriteSet(k, publish);
    assert publish[..|publish|] == publish;
    if st.Killed? {
      return;
    }
    assert (exists m :: m in publish && Planted(before, m)) ==> !st.Ok?;
    st := Conclude(k, publish, verify, st, written, held, before, old(k.Tidy()));
  }

  /** What follows the writing of the temps: publication or rollback, then the finally clause. */
  method Conclude(k: Machine, publish: seq<Member>, verify: seq<Member>, wrote: Status, written: nat,
                  held: map<Member, Held>, ghost before: Fs, ghost tidy: bool)
    returns (st: Status)
    requires k.Running() && Distinct(publish) && !wrote.Killed? && written <= |publish|
    requires held.Keys == MembersOf(publish[..written]) && (wrote.Ok? ==> written == |publish|)
    requires Ours(held, before, k.fs.files, k.rendering) && FilesKept(before.files, k.fs.files)
    requires Spared(before, k.fs.live, MembersOf(publish))
    requires (tidy ==> k.Tidy()) && (wrote.Ok? || tidy ==> Layout(k.fs.live, before.live, held, {}))
    modifies k
    ensures k.dead == st.Killed? && k.Kept() && k.ChainKept() && k.fs.files == old(k.fs.files)
    ensures Spared(before, k.fs.live, MembersOf(publish))
    ensures st.Ok? ==> k.fs.disk == k.fs.live
    ensures st.Ok? ==>
      && wrote.Ok?
      && (forall m :: m in verify || m in publish ==> MemberHolds(k.fs.live, k.fs.files, k.rendering, m))
      && forall n: Name :: !(n.Final? && n.member in publish) ==> Lookup(k.fs.live, n) == Lookup(before.live, n)
    ensures (st.Raised? && tidy && forall m :: m in publish ==> Final(m) !in before.live)
            ==> k.fs.live == before.live
    ensures (old(k.Calm()) && wrote.Ok?
             && forall m :: m in verify ==> m in publish || MemberHolds(before.live, before.files, k.rendering, m))
            ==> st.Ok?
    ensures old(k.Calm()) ==> !st.Killed?
  {
    st := wrote;
    assert publish[..|publish|] == publish;
    ghost var planned, done := held, {};
    if st.Ok? {
      st, planned, done := PublishOrRollBack(k, publish, verify, held, before, MembersOf(publish));
    }
    if st.Killed? {
      return;
    }
    var cleared := Finish(k, publish[..written], held, before, planned, done, MembersOf(publish));
    if st.Ok? && cleared.Ok? {
      LayoutPublished(k.fs, before, held, done, k.rendering);
    }
    st := if cleared.Ok? then st else cleared;
  }
}
