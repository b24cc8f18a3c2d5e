/**
 The publish flow of the census command: classify what an earlier run left, publish what is
 missing, commit the whole output chain, verify, attest.
 */
module Publication {
  import opened Storage
  import opened Kernel
  import opened Emission
  import opened Options

  const OUTPUTS: seq<Member> := [CensusJson, CensusMarkdown, CensusSha256]

  datatype Verdict = Idempotent | RollForward(missing: seq<Member>) | Refuse

  datatype Exit = Attested | Refused | Dead

  /** What the classifier accepts: no foreign name, only regular files, and no final name whose
      bytes differ from the rendering. */
  ghost predicate Recognisable(d: Dir, files: map<Ino, File>, r: Rendering) {
    forall n: Name :: n in d ==>
      && !n.Foreign? && d[n] in files && files[d[n]].regular
      && (n.Final? ==> files[d[n]].data == r.Of(n.member))
  }

  /** `b` is `a` without some of its temps. */
  ghost predicate TempsRemoved(a: Dir, b: Dir) {
    && (forall n :: n in b ==> n in a && b[n] == a[n])
    && (forall n :: n in a && !n.Temp? ==> n in b)
  }

  /** Every final name is still there, for the same file with the same bytes. */
  ghost predicate FinalsKept(a: Fs, b: Fs) {
    forall n :: n in a.live && n.Final? ==>
      Lookup(b.live, n) == Lookup(a.live, n) && (a.live[n] in a.files ==>
        a.live[n] in b.files && b.files[a.live[n]] == a.files[a.live[n]])
  }

  /** Every final name was there before, for the same file. */
  ghost predicate NoNewFinals(before: Dir, after: Dir) {
    forall n :: n in after && n.Final? ==> Lookup(after, n) == Lookup(before, n)
  }

  /** What is complete without some temps was complete before they were removed. */
  lemma {:induction false} HeldBefore(a: Dir, b: Dir, files: map<Ino, File>, r: Rendering)
    requires TempsRemoved(a, b) && forall m :: MemberHolds(b, files, r, m)
    ensures a != map[] && forall m :: MemberHolds(a, files, r, m)
  {
    assert MemberHolds(b, files, r, CensusJson);
    forall m ensures MemberHolds(a, files, r, m) {
      assert MemberHolds(b, files, r, m);
    }
  }

  lemma NothingToPublish(a: Dir, b: Dir, publish: seq<Member>)
    requires TempsRemoved(a, b) && forall n :: n in a <==> n.Final?
    ensures a == b
    ensures (forall m :: m in publish <==> Final(m) !in b) ==> publish == []
  {
    forall n ensures Lookup(a, n) == Lookup(b, n) {}
    SameLookups(a, b);
    if (forall m :: m in publish <==> Final(m) !in b) && publish != [] {
      assert publish[0] in publish && Final(publish[0]) in a;
    }
  }

  /** The member loop of the classifier. */
  method CompareMembers(k: Machine) returns (st: Status, refuse: bool, missing: seq<Member>)
    requires k.Running()
    modifies k
    ensures k.dead == st.Killed? && k.Kept() && k.ChainKept() && k.fs.live == old(k.fs.live)
    ensures k.fs.files == old(k.fs.files)
    ensures st.Ok? && !refuse ==> Distinct(missing) && forall m :: m in missing <==> Final(m) !in k.fs.live
    ensures st.Ok? && !refuse ==> forall m :: m !in missing ==> MemberHolds(k.fs.live, k.fs.files, k.rendering, m)
    ensures old(k.Calm()) ==> st.Ok?
    ensures old(k.Calm()) && refuse ==>
      exists m :: Final(m) in k.fs.live && !MemberHolds(k.fs.live, k.fs.files, k.rendering, m)
  {
    st, refuse, missing := Ok, false, [];
    for i := 0 to |OUTPUTS|
      invariant st.Ok? && !k.dead && k.Kept() && k.ChainKept() && k.fs.live == old(k.fs.live)
      invariant k.fs.files == old(k.fs.files)
      invariant Distinct(missing) && forall m :: m in missing <==> m in OUTPUTS[..i] && Final(m) !in k.fs.live
      invariant forall m :: m in OUTPUTS[..i] && m !in missing ==> MemberHolds(k.fs.live, k.fs.files, k.rendering, m)
    {
      var m := OUTPUTS[i];
      assert OUTPUTS[..i + 1] == OUTPUTS[..i] + [m] && m !in OUTPUTS[..i];
      var found;
      st, found := k.Lstat(Final(m));
      if !st.Ok? {
        return;
      }
      if found.None? {
        missing := missing + [m];
      } else {
        if !k.fs.files[found.value].regular {
          return Ok, true, missing;
        }
        var data;
        st, data := k.ReadBack(Final(m));
        if st.Killed? {
          return;
        }
        if st.Raised? || data != k.rendering.Of(m) {
          return Ok, true, missing;
        }
      }
    }
    assert OUTPUTS[..|OUTPUTS|] == OUTPUTS;
    forall m ensures m in OUTPUTS {
      assert m == OUTPUTS[0] || m == OUTPUTS[1] || m == OUTPUTS[2];
    }
  }

  /** The stale-temp loop of the classifier, with the fsync that follows it. */
  method RemoveStaleTemps(k: Machine, stale: set<Name>) returns (st: Status, refuse: bool)
    requires k.Running() && forall n :: n in stale <==> n in k.fs.live && n.Temp?
    modifies k
    ensures k.dead == st.Killed? && k.Kept() && k.ChainKept() && k.fs.files == old(k.fs.files)
    ensures TempsRemoved(old(k.fs.live), k.fs.live)
    ensures st.Ok? && !refuse ==>
      NoTemps(k.fs.live) && forall n :: n in stale ==> k.fs.files[old(k.fs.live)[n]].regular
    // the removal itself is made durable; without stale temps there is no call
    ensures st.Ok? && !refuse && stale != {} ==> k.fs.disk == k.fs.live
    ensures stale == {} ==> st.Ok? && !refuse && k.fs == old(k.fs) && k.plan == old(k.plan)
    ensures old(k.Calm()) ==> st.Ok?
    ensures old(k.Calm()) && refuse ==>
      exists n :: n in old(k.fs.live) && n.Temp? && !k.fs.files[old(k.fs.live)[n]].regular
  {
    st, refuse := Ok, false;
    var left := stale;
    while left != {}
      invariant st.Ok? && !k.dead && k.Kept() && k.ChainKept() && k.fs.files == old(k.fs.files)
      invariant TempsRemoved(old(k.fs.live), k.fs.live)
      invariant forall n :: n in left <==> n in k.fs.live && n.Temp?
      invariant forall n :: n in stale && n !in left ==> k.fs.files[old(k.fs.live)[n]].regular
      invariant stale == {} ==> k.fs == old(k.fs) && k.plan == old(k.plan)
      decreases left
    {
      var n :| n in left;
      var found;
      st, found := k.Lstat(n);
      if !st.Ok? {
        return if st.Raised? then Ok else st, true;
      }
      if !k.fs.files[k.fs.live[n]].regular {
        return Ok, true;
      }
      st := k.Unlink(n);
      if !st.Ok? {
        return;
      }
      left := left - {n};
    }
    if stale != {} {
      st := k.FsyncEntries();
    }
  }

  /** `classify_existing_publication`. */
  method Classify(k: Machine) returns (st: Status, verdict: Verdict)
    requires k.Running()
    modifies k
    ensures k.dead == st.Killed? && k.Kept() && k.ChainKept() && k.fs.files == old(k.fs.files)
    ensures TempsRemoved(old(k.fs.live), k.fs.live)
    ensures st.Ok? && !verdict.Refuse? ==>
      && (forall n :: n in k.fs.live ==> n.Final?)
      && var missing := if verdict.Idempotent? then [] else verdict.missing;
         && Distinct(missing) && (verdict.RollForward? ==> missing != [])
         && (forall m :: m in missing <==> Final(m) !in k.fs.live)
         && (forall m :: m !in missing ==> MemberHolds(k.fs.live, k.fs.files, k.rendering, m))
    // a directory that cannot be opened and listed is refused
    ensures !Coming(old(k.plan)).Go? || !Coming(Later(old(k.plan))).Go? ==> !st.Ok? || verdict.Refuse?
    // what it removed does not come back; a directory with foreign or diverging names is left alone
    ensures st.Ok? && !verdict.Refuse? && !old(NoTemps(k.fs.live)) ==> k.fs.disk == k.fs.live
    ensures (exists n :: n in old(k.fs.live) && n.Foreign?) ==> k.fs.live == old(k.fs.live)
    ensures (exists m :: Final(m) in old(k.fs.live) && !old(MemberHolds(k.fs.live, k.fs.files, k.rendering, m))) ==>
      k.fs.live == old(k.fs.live)
    // undisturbed, it refuses exactly what is not residue of this rendering
    ensures old(k.Calm()) ==> st.Ok?
    ensures old(k.Calm()) ==> (verdict.Refuse? <==> !old(Recognisable(k.fs.live, k.fs.files, k.rendering)))
  {
    verdict := Refuse;
    st := k.Touch();
    if st.Ok? {
      st := k.Touch();
    }
    if !st.Ok? {
      return if st.Raised? then Ok else st, Refuse;
    }
    var entries := k.fs.live.Keys;
    if exists n :: n in entries && n.Foreign? {
      return;
    }
    var refuse, missing;
    st, refuse, missing := CompareMembers(k);
    if !st.Ok? || refuse {
      return;
    }
    st, refuse := RemoveStaleTemps(k, set n | n in entries && n.Temp?);
    if !st.Ok? || refuse {
      return;
    }
    assert old(Recognisable(k.fs.live, k.fs.files, k.rendering)) by {
      forall n: Name | n in entries && n.Final? ensures MemberHolds(old(k.fs.live), k.fs.files, k.rendering, n.member) {
        assert n == Final(n.member) && n.member !in missing;
      }
    }
    verdict := if missing == [] then Idempotent else RollForward(missing);
    forall m | m !in missing ensures MemberHolds(k.fs.live, k.fs.files, k.rendering, m) {
      assert Final(m) in k.fs.live;
    }
  }

  /** mkdir with parents, then an fsync of the parent of every outer component it made. */
  method CreateChain(k: Machine) returns (st: Status)
    requires k.Running() && k.fs.present < k.fs.depth
    modifies k
    ensures k.dead == st.Killed? && k.Kept() && k.fs.live == map[] && k.fs.files == old(k.fs.files)
    ensures st.Ok? ==> k.fs.present == k.fs.depth
    // every outer component it made is durable in its parent
    ensures st.Ok? ==> forall i :: old(k.fs.present) < i < k.fs.depth ==> i in k.fs.committed
    ensures old(k.Calm()) ==> st.Ok?
  {
    var first := k.fs.present + 1;
    st := Ok;
    while k.fs.present < k.fs.depth
      invariant st.Ok? && !k.dead && k.Kept() && k.fs.live == map[] && k.fs.files == old(k.fs.files)
      decreases k.fs.depth - k.fs.present
    {
      st := k.MakeComponent();
      if !st.Ok? {
        return;
      }
    }
    var i := first;
    while i < k.fs.depth
      invariant st.Ok? && !k.dead && k.Kept() && k.fs.live == map[] && k.fs.files == old(k.fs.files)
      invariant first <= i && k.fs.present == k.fs.depth
      invariant forall j :: first <= j < i && j < k.fs.depth ==> j in k.fs.committed
      decreases k.fs.depth - i
    {
      st := k.FsyncParent(i);
      if !st.Ok? {
        return;
      }
      i := i + 1;
    }
  }

  /** `_commit_output_chain`: the parent of every component, outermost first. */
  method CommitOutputChain(k: Machine) returns (st: Status)
    requires k.Running() && k.fs.present == k.fs.depth
    modifies k
    ensures k.dead == st.Killed? && k.Kept() && k.fs.present == k.fs.depth
    ensures k.fs.live == old(k.fs.live) && k.fs.files == old(k.fs.files)
    ensures st.Ok? ==> k.fs.digest.Current? && forall i :: 1 <= i < k.fs.depth ==> i in k.fs.committed
    ensures old(k.Calm()) ==> st.Ok?
  {
    st := Ok;
    var i := 1;
    while i <= k.fs.depth
      invariant st.Ok? && !k.dead && k.Kept() && k.fs.present == k.fs.depth
      invariant k.fs.live == old(k.fs.live) && k.fs.files == old(k.fs.files)
      invariant 1 <= i <= k.fs.depth + 1
      invariant forall j :: 1 <= j < i && j < k.fs.depth ==> j in k.fs.committed
      invariant i == k.fs.depth + 1 ==> k.fs.digest.Current?
      decreases k.fs.depth - i
    {
      st := k.FsyncParent(i);
      if !st.Ok? {
        return;
      }
      i := i + 1;
    }
  }

  /** rmtree with errors ignored, on the digest directory this run created. */
  method RemoveTree(k: Machine) returns (st: Status)
    requires k.Running() && k.fs.present == k.fs.depth
    modifies k
    ensures k.dead == st.Killed? && k.Kept() && k.fs.files == old(k.fs.files)
    ensures forall n :: n in k.fs.live ==> Lookup(k.fs.live, n) == Lookup(old(k.fs.live), n)
    ensures old(k.Calm()) ==> !st.Killed? && k.fs.present < k.fs.depth
  {
    st := Ok;
    var left := k.fs.live.Keys;
    while left != {}
      invariant !k.dead && k.Kept() && k.fs.present == k.fs.depth && k.fs.files == old(k.fs.files)
      invariant forall n :: n in k.fs.live ==> Lookup(k.fs.live, n) == Lookup(old(k.fs.live), n)
      invariant old(k.Calm()) ==> k.fs.live.Keys == left
      decreases left
    {
      var n :| n in left;
      st := k.Unlink(n);
      if st.Killed? {
        return;
      }
      left := left - {n};
    }
    st := k.RemoveDigest();
  }

  /** The emission step of `main`: custody of the digest directory, the emitter, and for a refused
      fresh run the removal of the directory it made. */
  method EmitMissing(k: Machine, publish: seq<Member>, brandNew: bool, manifestHolds: bool) returns (st: Status)
    requires k.Running() && k.fs.present == k.fs.depth && Distinct(publish)
    requires forall n :: n in k.fs.live ==> n.Final?
    requires forall m :: m in publish <==> Final(m) !in k.fs.live
    modifies k
    ensures k.dead == st.Killed? && k.Kept()
    ensures !manifestHolds ==> !st.Ok? && NoNewFinals(old(k.fs.live), k.fs.live)
    ensures !Coming(old(k.plan)).Go? || !Coming(Later(old(k.plan))).Go? ==> !st.Ok?
    ensures st.Ok? ==> k.fs.present == k.fs.depth && Complete(k.fs, k.rendering)
    ensures !brandNew ==> FinalsKept(old(k.fs), k.fs)
    ensures !brandNew && st.Raised? && old(k.Tidy()) ==> k.fs.live == old(k.fs.live)
    ensures (old(k.Calm()) && manifestHolds
             && forall m :: m !in publish ==> old(MemberHolds(k.fs.live, k.fs.files, k.rendering, m))) ==> st.Ok?
    ensures old(k.Calm()) ==> !st.Killed?
    ensures old(k.Calm()) && brandNew && st.Raised? ==> k.fs.present < k.fs.depth
  {
    st := k.Touch(); // open of the digest directory
    if !st.Ok? {
      return;
    }
    st := k.Touch(); // fstat of the held directory
    if !st.Ok? {
      return;
    }
    st := EmitSet(k, publish, OUTPUTS, manifestHolds);
    if st.Ok? {
      forall m ensures MemberHolds(k.fs.live, k.fs.files, k.rendering, m) {
        assert m == OUTPUTS[0] || m == OUTPUTS[1] || m == OUTPUTS[2];
      }
      forall n ensures n in k.fs.live <==> n.Final? {
        if n.Final? {
          MemberIsPublished(k.fs.live, old(k.fs.live), publish, n.member);
        } else {
          assert Lookup(k.fs.live, n) == Lookup(old(k.fs.live), n);
        }
      }
    } else if st.Raised? && brandNew {
      st := k.Touch(); // lstat of the digest directory
      if st.Ok? {
        st := RemoveTree(k);
      }
      st := if st.Killed? then Killed else Raised;
    }
  }

  lemma MemberIsPublished(live: Dir, before: Dir, publish: seq<Member>, m: Member)
    requires m in publish ==> Final(m) in live
    requires m !in publish ==> Final(m) in before
    requires forall n: Name :: !(n.Final? && n.member in publish) ==> Lookup(live, n) == Lookup(before, n)
    ensures Final(m) in live
  {
    if m !in publish {
      assert Lookup(live, Final(m)) == Lookup(before, Final(m));
    }
  }

  /** The commits and the final read-through that every attesting path takes. */
  method CommitAndAttest(k: Machine) returns (exit: Exit)
    requires k.Running() && k.fs.present == k.fs.depth && forall n :: n in k.fs.live <==> n.Final?
    modifies k
    ensures k.dead == exit.Dead? && k.Kept() && k.fs.live == old(k.fs.live) && k.fs.files == old(k.fs.files)
    ensures k.fs.present == k.fs.depth
    ensures exit.Attested? ==> Durable(k.fs, k.rendering)
    ensures old(k.Calm()) && (forall m :: MemberHolds(k.fs.live, k.fs.files, k.rendering, m)) ==> exit.Attested?
    ensures old(k.Calm()) ==> !exit.Dead?
  {
    var st := CommitOutputChain(k);
    if !st.Ok? {
      return if st.Killed? then Dead else Refused;
    }
    st := k.FsyncEntries();
    if !st.Ok? {
      return if st.Killed? then Dead else Refused;
    }
    st := k.Touch(); // the name still resolves to the held directory
    if !st.Ok? {
      return if st.Killed? then Dead else Refused;
    }
    for i := 0 to |OUTPUTS|
      invariant !k.dead && k.Kept() && k.fs.live == old(k.fs.live) && k.fs.files == old(k.fs.files)
      invariant k.fs.present == k.fs.depth
      invariant k.fs.disk == k.fs.live && k.fs.digest.Current?
      invariant forall j :: 1 <= j < k.fs.depth ==> j in k.fs.committed
      invariant forall m :: m in OUTPUTS[..i] ==> MemberHolds(k.fs.live, k.fs.files, k.rendering, m)
    {
      assert old(MemberHolds(k.fs.live, k.fs.files, k.rendering, OUTPUTS[i])) <==>
             MemberHolds(k.fs.live, k.fs.files, k.rendering, OUTPUTS[i]);
      var data;
      st, data := k.ReadBack(Final(OUTPUTS[i]));
      if !st.Ok? || data != k.rendering.Of(OUTPUTS[i]) {
        return if st.Killed? then Dead else Refused;
      }
      assert OUTPUTS[..i + 1] == OUTPUTS[..i] + [OUTPUTS[i]];
    }
    assert OUTPUTS[..|OUTPUTS|] == OUTPUTS;
    forall m ensures MemberHolds(k.fs.live, k.fs.files, k.rendering, m) {
      assert m == OUTPUTS[0] || m == OUTPUTS[1] || m == OUTPUTS[2];
    }
    exit := Attested;
  }

  /** What `PublishCensus` found and made before it emits: the members still to publish, in a digest
      directory that holds nothing else.  `publish` is empty for an idempotent run. */
  method Prepare(k: Machine, gateHolds: bool) returns (st: Status, brandNew: bool, publish: seq<Member>)
    requires k.Running()
    modifies k
    ensures k.dead == st.Killed? && k.Kept() && k.fs.files == old(k.fs.files)
    ensures brandNew <==> old(k.fs.present < k.fs.depth)
    ensures TempsRemoved(old(k.fs.live), k.fs.live)
    ensures st.Ok? ==>
      && k.fs.present == k.fs.depth && Distinct(publish)
      && (forall n :: n in k.fs.live ==> n.Final?)
      && (forall m :: m in publish <==> Final(m) !in k.fs.live)
      && (forall m :: m !in publish ==> MemberHolds(k.fs.live, k.fs.files, k.rendering, m))
    ensures st.Ok? ==> gateHolds && Coming(old(k.plan)).Go?
    ensures old(k.Calm()) && gateHolds && old(Recognisable(k.fs.live, k.fs.files, k.rendering)) ==> st.Ok?
    ensures old(k.Calm()) ==> !st.Killed?
    ensures old(k.Calm()) && brandNew && !st.Ok? ==> k.fs.present < k.fs.depth
  {
    brandNew, publish := k.fs.present < k.fs.depth, OUTPUTS;
    st := k.Touch(); // does the digest directory exist?
    if !st.Ok? {
      return;
    }
    if !brandNew {
      var verdict;
      st, verdict := Classify(k);
      if !st.Ok? || verdict.Refuse? {
        return if st.Killed? then Killed else Raised, brandNew, publish;
      }
      publish := if verdict.Idempotent? then [] else verdict.missing;
    }
    if !gateHolds {
      return Raised, brandNew, publish;
    }
    if brandNew {
      st := CreateChain(k);
      forall m ensures m in publish {
        assert m == OUTPUTS[0] || m == OUTPUTS[1] || m == OUTPUTS[2];
      }
    }
  }

  /** `main`.  The two flags are the outcomes of the manifest gate before anything is written and
      of its repetition at the write moment. */
  method PublishCensus(k: Machine, gateHolds: bool, manifestHolds: bool) returns (exit: Exit)
    requires k.Running()
    modifies k
    // crash recovery: at whichever call the run stops, what it leaves is residue a retry accepts
    ensures k.dead == exit.Dead? && k.Kept()
    // durability at attestation, on the fresh, roll-forward and idempotent paths alike
    ensures exit.Attested? ==> Durable(k.fs, k.rendering)
    // nothing is attested or published without the manifest gate, and nothing is published when the
    // manifest has changed by the write moment; what was complete before is attested all the same
    ensures exit.Attested? ==> gateHolds
    ensures exit.Attested? && !manifestHolds ==>
      old(k.fs.present == k.fs.depth) && forall m :: old(MemberHolds(k.fs.live, k.fs.files, k.rendering, m))
    ensures !gateHolds || !manifestHolds ==> NoNewFinals(old(k.fs.live), k.fs.live)
    // an undisturbed run over residue, or over final names with the rendered bytes, is never refused
    ensures (old(k.Calm()) && gateHolds && manifestHolds
             && (old(k.Safe()) || old(Recognisable(k.fs.live, k.fs.files, k.rendering)))) ==> exit.Attested?
    // however a run ends, a final name it found is never taken away, replaced or changed
    ensures old(k.fs.present == k.fs.depth) ==> FinalsKept(old(k.fs), k.fs)
    // a complete publication is never rewritten
    ensures old(k.fs.present == k.fs.depth && Complete(k.fs, k.rendering)) ==>
      k.fs.live == old(k.fs.live) && k.fs.files == old(k.fs.files)
    // an undisturbed refusal of a fresh run leaves no digest directory behind
    ensures old(k.Calm()) && old(k.fs.present < k.fs.depth) && exit.Refused? ==> k.fs.present < k.fs.depth
    ensures old(k.Calm()) ==> !exit.Dead?
  {
    var st, brandNew, publish;
    st, brandNew, publish := Prepare(k, gateHolds);
    if old(k.fs.present == k.fs.depth && Complete(k.fs, k.rendering)) {
      NothingToPublish(old(k.fs.live), k.fs.live, publish);
    }
    if st.Ok? && publish == [] {
      HeldBefore(old(k.fs.live), k.fs.live, k.fs.files, k.rendering);
    }
    if st.Ok? && publish != [] {
      st := EmitMissing(k, publish, brandNew, manifestHolds);
    }
    if !st.Ok? {
      return if st.Killed? then Dead else Refused;
    }
    exit := CommitAndAttest(k);
  }

  /** A run that is interrupted: the fates of its calls, its manifest checks, and what unsynced
      data would read back as if the power fails at the end. */
  datatype Disaster = Disaster(plan: seq<Fate>, removals: seq<Fate>, entropy: seq<nat>, gateHolds: bool,
                               manifestHolds: bool, powerLoss: Option<map<Ino, Bytes>>)

  /** One run of a campaign: what it found, what it left and how it ended. */
  datatype Attempt = Attempt(before: Fs, after: Fs, exit: Exit)

  /** What is known of a run from the disaster that befell it. */
  ghost predicate Happened(r: Rendering, d: Disaster, a: Attempt) {
    && (a.exit.Attested? ==> d.gateHolds && Durable(a.after, r))
    && (AllGo(d.plan) && AllGo(d.removals) && d.gateHolds && d.manifestHolds ==> a.exit.Attested?)
    && (a.before.present == a.before.depth ==> FinalsKept(a.before, a.after))
    && (!d.gateHolds || !d.manifestHolds ==> NoNewFinals(a.before.live, a.after.live))
  }

  /** What the next run finds. */
  ghost predicate Handed(d: Disaster, a: Attempt, next: Fs) {
    1 <= a.after.depth && next == if d.powerLoss.Some? then AfterPowerLoss(a.after, d.powerLoss.value) else a.after
  }

  /** Crash recovery over whole campaigns: after any number of runs, each stopped or refused at any
      call, with or without a power loss, one undisturbed run attests exactly the rendered set. */
  method Campaign(k: Machine, disasters: seq<Disaster>) returns (exit: Exit, ghost attempts: seq<Attempt>)
    requires k.Running() && k.Safe()
    modifies k
    ensures exit.Attested? && k.Safe() && k.Running()
    ensures Durable(k.fs, k.rendering)
    // each disaster had its run, and each run found what the one before it left, or what a power loss
    // left of that
    ensures |attempts| == |disasters|
    ensures forall i :: 0 <= i < |disasters| ==> Happened(k.rendering, disasters[i], attempts[i])
    ensures disasters != [] ==> attempts[0].before == old(k.fs)
    ensures forall i :: 0 < i < |disasters| ==> Handed(disasters[i - 1], attempts[i - 1], attempts[i].before)
  {
    attempts := [];
    for i := 0 to |disasters|
      invariant k.Running() && k.Safe() && |attempts| == i
      invariant forall j :: 0 <= j < i ==> Happened(k.rendering, disasters[j], attempts[j])
      invariant i == 0 ==> k.fs == old(k.fs)
      invariant i > 0 ==> attempts[0].before == old(k.fs) && Handed(disasters[i - 1], attempts[i - 1], k.fs)
      invariant forall j :: 0 < j < i ==> Handed(disasters[j - 1], attempts[j - 1], attempts[j].before)
    {
      ghost var before := k.fs;
      k.plan, k.removals, k.entropy := disasters[i].plan, disasters[i].removals, disasters[i].entropy;
      exit := PublishCensus(k, disasters[i].gateHolds, disasters[i].manifestHolds);
      attempts := attempts + [Attempt(before, k.fs, exit)];
      k.dead := false;
      if disasters[i].powerLoss.Some? {
        PowerLossIsRecoverable(k.fs, disasters[i].powerLoss.value, k.rendering);
        k.fs := AfterPowerLoss(k.fs, disasters[i].powerLoss.value);
      }
    }
    k.plan, k.removals := [], [];
    exit := PublishCensus(k, true, true);
  }

  /** A complete set of final names that somebody else wrote, one of them never synced. */
  function Planted(r: Rendering, victim: Member): Fs {
    var live := map[Final(CensusJson) := 0, Final(CensusMarkdown) := 1, Final(CensusSha256) := 2];
    Fs(1, 1, {}, Current, live, live,
       map[0 := File(true, r.json, victim != CensusJson, 1),
           1 := File(true, r.markdown, victim != CensusMarkdown, 1),
           2 := File(true, r.sha256, victim != CensusSha256, 1)], 3)
  }

  lemma {:induction false} PlantedIsComplete(r: Rendering, victim: Member)
    ensures var fs := Planted(r, victim);
      && Wf(fs) && Complete(fs, r) && Recognisable(fs.live, fs.files, r)
      && !fs.files[fs.live[Final(victim)]].synced
  {
    var fs := Planted(r, victim);
    forall m: Member ensures Final(m) in fs.live && MemberHolds(fs.live, fs.files, r, m) {
      match m
      case CensusJson =>
      case CensusMarkdown =>
      case CensusSha256 =>
    }
  }

  /** An undisturbed run attests them, and the next power loss may take the bytes. */
  method AttestUnsynced(r: Rendering, victim: Member) returns (exit: Exit, ghost after: Fs)
    ensures exit.Attested? && Durable(after, r)
    ensures 1 <= after.depth && exists garbage :: !Durable(AfterPowerLoss(after, garbage), r)
  {
    PlantedIsComplete(r, victim);
    var k := new Machine(r, Planted(r, victim), [], [], []);
    exit := PublishCensus(k, true, true);
    after := k.fs;
    BytesSurviveIffSynced(after, r);
  }
}
