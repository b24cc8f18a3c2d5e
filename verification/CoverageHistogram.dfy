/**
 The coverage census: every (underlying, Friday) pair gets one class, the masters are re-read, and
 a master that contradicts the entry naming it demotes its pair.  The counters are a histogram of
 the classes before and after.
 */
module CoverageHistogram {
  import opened Options
  import opened Ordering

  datatype Pair = Pair(underlying: string, asOf: string)

  datatype Class = Complete | Truncated | Error | Missing | SpotMissingSession | SpotMissingHoliday

  predicate Incomplete(c: Class) {
    c.Missing? || c.Truncated? || c.Error? || c.SpotMissingSession?
  }

  datatype Universe = Universe(names: seq<string>, fridays: seq<string>)

  /** `load_universe` refuses a universe that lists a name or a Friday twice. */
  predicate Verified(u: Universe) {
    Unique(u.names) && Unique(u.fridays)
  }

  /** A manifest entry; `error` says that it carries a capture error. */
  datatype Entry = Entry(pair: Pair, rows: nat, file: Option<string>, complete: bool, truncated: bool, error: bool)

  datatype Envelope = Envelope(pair: Pair, complete: bool, contracts: seq<(string, string)>)

  /** What reading a master file yields: bytes that no longer match their pin, bytes that do not
      parse, or the masters that were parsed from it. */
  datatype Master = Drifted | Unreadable | Parsed(masters: seq<Envelope>)

  datatype Capture = Capture(entries: seq<Entry>, onDisk: set<string>, files: map<string, Master>,
                             pinnedMasters: set<string>)

  /** The closes the spot proxy holds; `flat` names cover every session. */
  datatype Spot = Spot(flat: set<string>, closes: set<Pair>)

  // Classes of pairs

  function ClassOf(entry: Option<Entry>, hasFile: bool, spotPresent: bool, isSession: bool): Class {
    if entry.None? || !hasFile then Missing
    else if entry.value.error then Error
    else if entry.value.truncated || !entry.value.complete then Truncated
    else if !spotPresent then (if isSession then SpotMissingSession else SpotMissingHoliday)
    else Complete
  }

  /** Which class a pair gets, class by class: nothing captured or on disk; a capture error; a capture that is
      cut short or not complete; a whole capture without a close, on a session or on a holiday; all there. */
  lemma {:induction false} ClassIs(entry: Option<Entry>, hasFile: bool, spotPresent: bool, isSession: bool)
    ensures var c, listed := ClassOf(entry, hasFile, spotPresent, isSession), entry.Some? && hasFile;
      && (c == Missing <==> !listed)
      && (c == Error <==> listed && entry.value.error)
      && (c == Truncated <==> listed && !entry.value.error && (entry.value.truncated || !entry.value.complete))
      && (c == Complete || c == SpotMissingSession || c == SpotMissingHoliday <==>
            listed && !entry.value.error && !entry.value.truncated && entry.value.complete)
      && (c == Complete ==> spotPresent)
      && (c == SpotMissingSession ==> !spotPresent && isSession)
      && (c == SpotMissingHoliday ==> !spotPresent && !isSession)
      // only a pair whose master is whole escapes the census's list of gaps, with its close or on a holiday
      && (Incomplete(c) <==> !listed || entry.value.error || entry.value.truncated || !entry.value.complete
                             || (!spotPresent && isSession))
  {}

  type Entries = map<Pair, Entry>
  type Classes = map<Pair, Class>
  type Counts = map<Class, int>

  function Lookup(entries: Entries, p: Pair): Option<Entry> {
    if p in entries then Some(entries[p]) else None
  }

  predicate HasFile(entry: Option<Entry>, onDisk: set<string>) {
    entry.Some? && entry.value.file.Some? && entry.value.file.value in onDisk
  }

  function BaseClass(p: Pair, entries: Entries, onDisk: set<string>, spot: Spot, sessions: set<string>): Class {
    var entry := Lookup(entries, p);
    ClassOf(entry, HasFile(entry, onDisk), p in spot.closes || p.underlying in spot.flat, p.asOf in sessions)
  }

  /** What a pair's class says of the manifest, the disk, the closes and the calendar. */
  lemma {:induction false} PairClassIs(p: Pair, entries: Entries, onDisk: set<string>, spot: Spot,
                                       sessions: set<string>)
    ensures var c := BaseClass(p, entries, onDisk, spot, sessions);
      var listed := p in entries && entries[p].file.Some? && entries[p].file.value in onDisk;
      var priced, session := p in spot.closes || p.underlying in spot.flat, p.asOf in sessions;
      && (c == Missing <==> !listed)
      && (c == Error <==> listed && entries[p].error)
      && (c == Truncated <==> listed && !entries[p].error && (entries[p].truncated || !entries[p].complete))
      && (c == SpotMissingSession <==> CleanEntry(p, entries) && listed && !priced && session)
      && (c == SpotMissingHoliday <==> CleanEntry(p, entries) && listed && !priced && !session)
      && (c == Complete <==> CleanEntry(p, entries) && listed && priced)
  {}

  /** The pair is listed as completely captured, without an error. */
  ghost predicate CleanEntry(p: Pair, entries: Entries) {
    p in entries && !entries[p].error && !entries[p].truncated && entries[p].complete
  }

  // Histograms

  ghost function Having(classes: Classes, c: Class): set<Pair> {
    set p | p in classes && classes[p] == c
  }

  ghost function Tally(classes: Classes, c: Class): nat {
    |Having(classes, c)|
  }

  /** The counters are the histogram of the classes. */
  ghost predicate IsHistogram(counts: Counts, classes: Classes) {
    forall c: Class :: c in counts && counts[c] == Tally(classes, c)
  }

  predicate AllCounters(counts: Counts) {
    Complete in counts && Truncated in counts && Error in counts && Missing in counts
    && SpotMissingSession in counts && SpotMissingHoliday in counts
  }

  function Sum(counts: Counts): int
    requires AllCounters(counts)
  {
    counts[Complete] + counts[Truncated] + counts[Error] + counts[Missing]
    + counts[SpotMissingSession] + counts[SpotMissingHoliday]
  }

  lemma {:induction false} TallyAdd(classes: Classes, p: Pair, k: Class, c: Class)
    requires p !in classes
    ensures Tally(classes[p := k], c) == Tally(classes, c) + if c == k then 1 else 0
  {
    assert Having(classes[p := k], c) == Having(classes, c) + if c == k then {p} else {};
  }

  lemma TallyMove(classes: Classes, p: Pair, k: Class, c: Class)
    requires p in classes
    ensures Tally(classes[p := k], c) ==
      Tally(classes, c) - (if classes[p] == c then 1 else 0) + if c == k then 1 else 0
  {
    var without := classes - {p};
    TallyAdd(without, p, k, c);
    TallyAdd(without, p, classes[p], c);
    assert without[p := k] == classes[p := k] && without[p := classes[p]] == classes;
  }

  // Reconciliation

  /** `_pair_entries`: one entry per pair, or a refusal. */
  method PairEntries(entries: seq<Entry>) returns (r: Option<Entries>)
    ensures r.Some? <==> Unique(Gather(entries, PairOf()))
    ensures r.Some? ==> r.value == EntryMap(entries)
  {
    var m: Entries := map[];
    for i := 0 to |entries|
      invariant forall p :: p in m <==> p in Onto([], entries, i, PairOf())
      invariant Unique(Onto([], entries, i, PairOf()))
      invariant m == EntryMapTo(entries, i)
    {
      if entries[i].pair in m {
        RepeatStays(entries, i);
        return None;
      }
      m := m[entries[i].pair := entries[i]];
    }
    return Some(m);
  }

  function PairOf(): Entry -> seq<Pair> { (e: Entry) => [e.pair] }

  function EntryMapTo(entries: seq<Entry>, n: nat): Entries
    requires n <= |entries|
  {
    if n == 0 then map[] else EntryMapTo(entries, n - 1)[entries[n - 1].pair := entries[n - 1]]
  }

  function EntryMap(entries: seq<Entry>): Entries { EntryMapTo(entries, |entries|) }

  lemma {:induction false} OntoIsPrefix<T, U>(s: seq<T>, k: nat, n: nat, f: T -> seq<U>)
    requires k <= n <= |s|
    ensures Onto([], s, k, f) <= Onto([], s, n, f)
  {
    if k < n {
      OntoIsPrefix(s, k, n - 1, f);
    }
  }

  lemma {:induction false} RepeatStays(entries: seq<Entry>, i: nat)
    requires i < |entries| && entries[i].pair in Onto([], entries, i, PairOf())
    ensures !Unique(Gather(entries, PairOf()))
  {
    var before := Onto([], entries, i, PairOf());
    var k :| 0 <= k < |before| && before[k] == entries[i].pair;
    OntoIsPrefix(entries, i + 1, |entries|, PairOf());
    var all := Gather(entries, PairOf());
    assert all[k] == all[|before|];
  }

  /** The pairs of the grid that come before name `j` of Friday `i`. */
  ghost predicate Before(u: Universe, p: Pair, i: nat, j: nat)
    requires i <= |u.fridays| && j <= |u.names|
  {
    p.underlying in u.names
    && (p.asOf in u.fridays[..i] || (i < |u.fridays| && p.asOf == u.fridays[i] && p.underlying in u.names[..j]))
  }

  ghost predicate InGrid(u: Universe, p: Pair) {
    p.underlying in u.names && p.asOf in u.fridays
  }

  /** Add one pair to the counters and the classes. */
  function Counted(counts: Counts, c: Class): Counts
    requires c in counts
  {
    counts[c := counts[c] + 1]
  }

  lemma CountedKeeps(counts: Counts, classes: Classes, p: Pair, k: Class)
    requires IsHistogram(counts, classes) && p !in classes
    ensures IsHistogram(Counted(counts, k), classes[p := k]) && Sum(Counted(counts, k)) == Sum(counts) + 1
  {
    forall c: Class ensures Counted(counts, k)[c] == Tally(classes[p := k], c) {
      TallyAdd(classes, p, k, c);
    }
  }

  const ZEROES: Counts := map[Complete := 0, Truncated := 0, Error := 0, Missing := 0,
                              SpotMissingSession := 0, SpotMissingHoliday := 0]

  lemma NothingCounted()
    ensures IsHistogram(ZEROES, map[])
  {
    forall c: Class ensures c in ZEROES && ZEROES[c] == Tally(map[], c) {
      assert Having(map[], c) == {};
      match c
      case Complete => case Truncated => case Error => case Missing =>
      case SpotMissingSession => case SpotMissingHoliday =>
    }
  }

  /** What is known of the pairs classified so far. */
  ghost predicate Classified(counts: Counts, classes: Classes, findings: seq<Pair>, entries: Entries,
                             onDisk: set<string>, spot: Spot, sessions: set<string>) {
    && (forall p :: p in classes ==> classes[p] == BaseClass(p, entries, onDisk, spot, sessions))
    && IsHistogram(counts, classes)
    && Unique(findings) && forall p :: p in findings <==> p in classes && !classes[p].Complete?
  }

  lemma ClassifiedNext(counts: Counts, classes: Classes, findings: seq<Pair>, entries: Entries,
                       onDisk: set<string>, spot: Spot, sessions: set<string>, p: Pair)
    requires Classified(counts, classes, findings, entries, onDisk, spot, sessions) && p !in classes
    ensures var c := BaseClass(p, entries, onDisk, spot, sessions);
      Classified(Counted(counts, c), classes[p := c], if c.Complete? then findings else findings + [p],
                 entries, onDisk, spot, sessions)
      && Sum(Counted(counts, c)) == Sum(counts) + 1
  {
    CountedKeeps(counts, classes, p, BaseClass(p, entries, onDisk, spot, sessions));
    UniqueNext(findings, p);
  }

  /** One Friday of the grid. */
  method ReconcileFriday(u: Universe, i: nat, entries: Entries, onDisk: set<string>, spot: Spot, sessions: set<string>,
                         counts0: Counts, classes0: Classes, findings0: seq<Pair>)
    returns (counts: Counts, classes: Classes, findings: seq<Pair>)
    requires Verified(u) && i < |u.fridays| && forall p :: p in classes0 <==> Before(u, p, i, 0)
    requires Classified(counts0, classes0, findings0, entries, onDisk, spot, sessions)
    ensures forall p :: p in classes <==> Before(u, p, i + 1, 0)
    ensures Classified(counts, classes, findings, entries, onDisk, spot, sessions)
    ensures Sum(counts) == Sum(counts0) + |u.names|
  {
    counts, classes, findings := counts0, classes0, findings0;
    for j := 0 to |u.names|
      invariant forall p :: p in classes <==> Before(u, p, i, j)
      invariant Classified(counts, classes, findings, entries, onDisk, spot, sessions)
      invariant Sum(counts) == Sum(counts0) + j
    {
      var p := Pair(u.names[j], u.fridays[i]);
      var c := BaseClass(p, entries, onDisk, spot, sessions);
      NextIsNew(u, i, j);
      ClassifiedNext(counts, classes, findings, entries, onDisk, spot, sessions, p);
      counts, classes := Counted(counts, c), classes[p := c];
      if !c.Complete? {
        findings := findings + [p];
      }
    }
    FridayDone(u, i);
  }

  /** How many pairs `fridays` Fridays have. */
  ghost function PairsOf(names: nat, fridays: nat): nat {
    if fridays == 0 then 0 else PairsOf(names, fridays - 1) + names
  }

  lemma {:induction false} PairsOfIsProduct(names: nat, fridays: nat)
    ensures PairsOf(names, fridays) == names * fridays
  {
    if fridays > 0 {
      PairsOfIsProduct(names, fridays - 1);
    }
  }

  /** `reconcile_pairs`: the classes of exactly the grid, their histogram, and a finding for every
      pair that is not complete. */
  method Reconcile(u: Universe, entries: Entries, onDisk: set<string>, spot: Spot, sessions: set<string>)
    returns (counts: Counts, classes: Classes, findings: seq<Pair>)
    requires Verified(u)
    ensures forall p :: p in classes <==> InGrid(u, p)
    ensures Classified(counts, classes, findings, entries, onDisk, spot, sessions)
    ensures Sum(counts) == |u.names| * |u.fridays|
  {
    counts, classes, findings := ZEROES, map[], [];
    NothingCounted();
    for i := 0 to |u.fridays|
      invariant forall p :: p in classes <==> Before(u, p, i, 0)
      invariant Classified(counts, classes, findings, entries, onDisk, spot, sessions)
      invariant Sum(counts) == PairsOf(|u.names|, i)
    {
      counts, classes, findings :=
        ReconcileFriday(u, i, entries, onDisk, spot, sessions, counts, classes, findings);
    }
    GridDone(u);
    PairsOfIsProduct(|u.names|, |u.fridays|);
  }

  lemma GridDone(u: Universe)
    ensures forall p :: Before(u, p, |u.fridays|, 0) <==> InGrid(u, p)
  {
    assert u.fridays[..|u.fridays|] == u.fridays;
  }

  lemma NextIsNew(u: Universe, i: nat, j: nat)
    requires Verified(u) && i < |u.fridays| && j < |u.names|
    ensures !Before(u, Pair(u.names[j], u.fridays[i]), i, j)
    ensures forall p :: Before(u, p, i, j + 1) <==> Before(u, p, i, j) || p == Pair(u.names[j], u.fridays[i])
  {
    assert u.names[..j + 1] == u.names[..j] + [u.names[j]];
  }

  lemma FridayDone(u: Universe, i: nat)
    requires i < |u.fridays|
    ensures forall p :: Before(u, p, i + 1, 0) <==> Before(u, p, i, |u.names|)
  {
    assert u.fridays[..i + 1] == u.fridays[..i] + [u.fridays[i]];
    assert u.names[..|u.names|] == u.names;
  }

  // Re-reading the masters

  datatype Kind = CaptureTruncated | IdentityMismatch

  datatype Finding = Finding(pair: Pair, kind: Kind)

  /** `SEMANTIC_DOWNGRADES` */
  function Downgrade(kind: Kind): Class {
    if kind.IdentityMismatch? then Missing else Truncated
  }

  function Reading(e: Entry, files: map<string, Master>): Master {
    if e.file.Some? && e.file.value in files then files[e.file.value] else Drifted
  }

  /** The entry's file holds one master. */
  predicate IsParsed(e: Entry, files: map<string, Master>) {
    e.file.Some? && Reading(e, files).Parsed? && |Reading(e, files).masters| == 1
  }

  /** At most one disagreement between an entry and the master parsed for it. */
  function Semantic(files: map<string, Master>): Entry -> seq<Finding> {
    (e: Entry) =>
      if !IsParsed(e, files) then []
      else if Reading(e, files).masters[0].pair != e.pair then [Finding(e.pair, IdentityMismatch)]
      else if !Reading(e, files).masters[0].complete then [Finding(e.pair, CaptureTruncated)]
      else []
  }

  function ParsedPair(files: map<string, Master>): Entry -> seq<Pair> {
    (e: Entry) => if IsParsed(e, files) then [e.pair] else []
  }

  function FileOf(): Entry -> seq<string> {
    (e: Entry) => if e.file.Some? then [e.file.value] else []
  }

  datatype Observed = Observed(masters: nat, unparseable: nat, semantic: seq<Finding>)

  /** `observe_masters`: refused on a drifted file or a pinned master that no entry names. */
  method Observe(c: Capture) returns (r: Option<Observed>)
    ensures r.Some? <==>
      && (forall e :: e in c.entries && e.file.Some? ==> !Reading(e, c.files).Drifted?)
      && (forall f :: f in c.pinnedMasters ==> f in Gather(c.entries, FileOf()))
    ensures r.Some? ==>
      && r.value.semantic == Gather(c.entries, Semantic(c.files))
      && r.value.masters == |Gather(c.entries, ParsedPair(c.files))|
      && r.value.masters + r.value.unparseable == |Gather(c.entries, FileOf())|
  {
    var parsed, unparseable, semantic, referenced := 0, 0, [], [];
    for i := 0 to |c.entries|
      invariant forall k :: 0 <= k < i && c.entries[k].file.Some? ==> !Reading(c.entries[k], c.files).Drifted?
      invariant semantic == Onto([], c.entries, i, Semantic(c.files))
      invariant referenced == Onto([], c.entries, i, FileOf())
      invariant parsed == |Onto([], c.entries, i, ParsedPair(c.files))|
      invariant parsed + unparseable == |referenced|
    {
      var e := c.entries[i];
      assert e in c.entries;
      if e.file.None? {
        continue;
      }
      referenced := referenced + [e.file.value];
      match Reading(e, c.files)
      case Drifted => return None;
      case Unreadable => unparseable := unparseable + 1;
      case Parsed(masters) =>
        if |masters| != 1 {
          unparseable := unparseable + 1;
        } else {
          parsed := parsed + 1;
          if masters[0].pair != e.pair {
            semantic := semantic + [Finding(e.pair, IdentityMismatch)];
          } else if !masters[0].complete {
            semantic := semantic + [Finding(e.pair, CaptureTruncated)];
          }
        }
    }
    if exists f :: f in c.pinnedMasters && f !in referenced {
      return None;
    }
    return Some(Observed(parsed, unparseable, semantic));
  }

  // The semantic join

  /** The pair a finding demotes: one that is not incomplete already. */
  function Demotes(classes: Classes): Finding -> seq<Pair> {
    (f: Finding) => if f.pair in classes && !Incomplete(classes[f.pair]) then [f.pair] else []
  }

  /** One finding of the join: the pair's first class is decremented, whatever was folded before. */
  function Demoted(counts: Counts, classes: Classes, f: Finding): (r: Counts)
    requires AllCounters(counts)
    ensures AllCounters(r)
  {
    if f.pair in classes && !Incomplete(classes[f.pair]) then
      var less := counts[classes[f.pair] := counts[classes[f.pair]] - 1];
      less[Downgrade(f.kind) := less[Downgrade(f.kind)] + 1]
    else counts
  }

  function CountsAfter(counts: Counts, classes: Classes, fs: seq<Finding>, n: nat): (r: Counts)
    requires AllCounters(counts) && n <= |fs|
    ensures AllCounters(r)
  {
    if n == 0 then counts else Demoted(CountsAfter(counts, classes, fs, n - 1), classes, fs[n - 1])
  }

  /** The classes a pair ends up with: its first finding demotes it for good. */
  function ClassesAfter(classes: Classes, fs: seq<Finding>, n: nat): (r: Classes)
    requires n <= |fs|
    ensures r.Keys == classes.Keys
  {
    if n == 0 then classes else
      var r := ClassesAfter(classes, fs, n - 1);
      var f := fs[n - 1];
      if f.pair in classes && !Incomplete(r[f.pair]) then r[f.pair := Downgrade(f.kind)] else r
  }

  predicate FindingOrder(a: Finding, b: Finding) {
    && Alphabetic(a.pair.underlying, b.pair.underlying)
    && (a.pair.underlying == b.pair.underlying ==> Alphabetic(a.pair.asOf, b.pair.asOf))
    && (a.pair == b.pair ==> a.kind.CaptureTruncated? || b.kind.IdentityMismatch?)
  }

  lemma FindingOrderIsPreorder()
    ensures Preorder(FindingOrder)
  {
    forall a, b ensures FindingOrder(a, b) || FindingOrder(b, a) {
      AlphabeticIsTotal(a.pair.underlying, b.pair.underlying);
      AlphabeticIsTotal(a.pair.asOf, b.pair.asOf);
    }
    forall a, b, c | FindingOrder(a, b) && FindingOrder(b, c) ensures FindingOrder(a, c) {
      AlphabeticIsTransitive(a.pair.underlying, b.pair.underlying, c.pair.underlying);
      AlphabeticIsTotal(a.pair.underlying, b.pair.underlying);
      if a.pair.underlying == b.pair.underlying == c.pair.underlying {
        AlphabeticIsTransitive(a.pair.asOf, b.pair.asOf, c.pair.asOf);
        AlphabeticIsTotal(a.pair.asOf, b.pair.asOf);
      }
    }
  }

  /** `apply_master_semantic_join` */
  method ApplyJoin(counts: Counts, classes: Classes, semantic: seq<Finding>) returns (joined: Counts)
    requires AllCounters(counts)
    ensures joined == CountsAfter(counts, classes, SortBy(semantic, FindingOrder), |SortBy(semantic, FindingOrder)|)
  {
    joined := counts;
    var fs := SortBy(semantic, FindingOrder);
    for i := 0 to |fs|
      invariant joined == CountsAfter(counts, classes, fs, i)
    {
      var f := fs[i];
      if f.pair in classes && !Incomplete(classes[f.pair]) {
        var current := classes[f.pair];
        joined := joined[current := joined[current] - 1];
        joined := joined[Downgrade(f.kind) := joined[Downgrade(f.kind)] + 1];
      }
    }
  }

  /** The join never changes how many pairs are counted. */
  lemma {:induction false} JoinKeepsSum(counts: Counts, classes: Classes, fs: seq<Finding>, n: nat)
    requires AllCounters(counts) && n <= |fs|
    ensures Sum(CountsAfter(counts, classes, fs, n)) == Sum(counts)
  {
    if n > 0 {
      JoinKeepsSum(counts, classes, fs, n - 1);
    }
  }

  /** The pairs the first `n` findings demote, as often as they do. */
  function Demotions(classes: Classes, fs: seq<Finding>, n: nat): seq<Pair>
    requires n <= |fs|
  {
    Onto([], fs, n, Demotes(classes))
  }

  lemma DemotionsNext(classes: Classes, fs: seq<Finding>, n: nat)
    requires n < |fs|
    ensures Demotions(classes, fs, n + 1) ==
      if Demotes(classes)(fs[n]) == [] then Demotions(classes, fs, n) else Demotions(classes, fs, n) + [fs[n].pair]
  {
    assert Demotions(classes, fs, n) + [] == Demotions(classes, fs, n);
  }

  lemma {:induction false} DemotedOnce(classes: Classes, fs: seq<Finding>, n: nat, p: Pair)
    requires n <= |fs| && p in classes
    ensures p !in Demotions(classes, fs, n) ==> ClassesAfter(classes, fs, n)[p] == classes[p]
    ensures p in Demotions(classes, fs, n) ==> Incomplete(ClassesAfter(classes, fs, n)[p]) && !Incomplete(classes[p])
  {
    if n > 0 {
      DemotedOnce(classes, fs, n - 1, p);
    }
  }

  lemma DemotedKeeps(counts: Counts, classes: Classes, now: Classes, f: Finding)
    requires IsHistogram(counts, now) && Demotes(classes)(f) != [] && f.pair in now && now[f.pair] == classes[f.pair]
    ensures IsHistogram(Demoted(counts, classes, f), now[f.pair := Downgrade(f.kind)])
  {
    var after := Demoted(counts, classes, f);
    forall c: Class ensures c in after && after[c] == Tally(now[f.pair := Downgrade(f.kind)], c) {
      TallyMove(now, f.pair, Downgrade(f.kind), c);
    }
  }

  /** A finding moves a class exactly when it is the first to demote its pair. */
  lemma {:induction false} ClassesNext(classes: Classes, fs: seq<Finding>, n: nat)
    requires n < |fs|
    ensures var first := Demotes(classes)(fs[n]) != [] && fs[n].pair !in Demotions(classes, fs, n);
      && (first ==> !Incomplete(ClassesAfter(classes, fs, n)[fs[n].pair]))
      && ClassesAfter(classes, fs, n + 1) ==
         if first then ClassesAfter(classes, fs, n)[fs[n].pair := Downgrade(fs[n].kind)]
           else ClassesAfter(classes, fs, n)
  {
    if fs[n].pair in classes {
      DemotedOnce(classes, fs, n, fs[n].pair);
    }
  }

  lemma {:induction false} AgreeNext(counts: Counts, classes: Classes, fs: seq<Finding>, n: nat)
    requires n < |fs| && AllCounters(counts) && fs[n].pair !in Demotions(classes, fs, n)
    requires IsHistogram(CountsAfter(counts, classes, fs, n), ClassesAfter(classes, fs, n))
    ensures IsHistogram(CountsAfter(counts, classes, fs, n + 1), ClassesAfter(classes, fs, n + 1))
  {
    ClassesNext(classes, fs, n);
    if Demotes(classes)(fs[n]) != [] {
      DemotedOnce(classes, fs, n, fs[n].pair);
      DemotedKeeps(CountsAfter(counts, classes, fs, n), classes, ClassesAfter(classes, fs, n), fs[n]);
    }
  }

  /** While no pair is demoted twice, the counters stay the histogram of the classes. */
  lemma {:induction false} DistinctDemotionsAgree(counts: Counts, classes: Classes, fs: seq<Finding>, n: nat)
    requires n <= |fs| && IsHistogram(counts, classes) && Unique(Demotions(classes, fs, n))
    ensures IsHistogram(CountsAfter(counts, classes, fs, n), ClassesAfter(classes, fs, n))
  {
    if n > 0 {
      DemotionsNext(classes, fs, n - 1);
      UniqueNext(Demotions(classes, fs, n - 1), fs[n - 1].pair);
      DistinctDemotionsAgree(counts, classes, fs, n - 1);
      if Demotes(classes)(fs[n - 1]) == [] {
        ClassesNext(classes, fs, n - 1);
      } else {
        AgreeNext(counts, classes, fs, n - 1);
      }
    }
  }

  ghost function Whole(classes: Classes): nat {
    Tally(classes, Complete) + Tally(classes, SpotMissingHoliday)
  }

  lemma OneLessWhole(classes: Classes, p: Pair, kind: Kind)
    requires p in classes && !Incomplete(classes[p])
    ensures Whole(classes[p := Downgrade(kind)]) == Whole(classes) - 1
  {
    TallyMove(classes, p, Downgrade(kind), Complete);
    TallyMove(classes, p, Downgrade(kind), SpotMissingHoliday);
  }

  /** How far the counters leave the classes that count as whole, and how far the histogram does. */
  lemma {:induction false} CountersFall(counts: Counts, classes: Classes, fs: seq<Finding>, n: nat)
    requires n <= |fs| && AllCounters(counts)
    ensures var after := CountsAfter(counts, classes, fs, n);
      after[Complete] + after[SpotMissingHoliday]
      == counts[Complete] + counts[SpotMissingHoliday] - |Demotions(classes, fs, n)|
  {
    if n > 0 {
      CountersFall(counts, classes, fs, n - 1);
      DemotionsNext(classes, fs, n - 1);
    }
  }

  lemma PairsDemotedNext(classes: Classes, fs: seq<Finding>, n: nat)
    requires n < |fs|
    ensures |Set(Demotions(classes, fs, n + 1))| == |Set(Demotions(classes, fs, n))| +
      if Demotes(classes)(fs[n]) != [] && fs[n].pair !in Demotions(classes, fs, n) then 1 else 0
  {
    var before, p := Demotions(classes, fs, n), fs[n].pair;
    DemotionsNext(classes, fs, n);
    assert Set(before + [p]) == Set(before) + {p};
    assert p in before ==> Set(before) + {p} == Set(before);
  }

  lemma {:induction false} ClassesFall(classes: Classes, fs: seq<Finding>, n: nat)
    requires n <= |fs|
    ensures Whole(ClassesAfter(classes, fs, n)) == Whole(classes) - |Set(Demotions(classes, fs, n))|
  {
    if n == 0 {
      assert Set(Demotions(classes, fs, 0)) == {};
    } else {
      var f := fs[n - 1];
      ClassesFall(classes, fs, n - 1);
      PairsDemotedNext(classes, fs, n - 1);
      ClassesNext(classes, fs, n - 1);
      if Demotes(classes)(f) != [] && f.pair !in Demotions(classes, fs, n - 1) {
        OneLessWhole(ClassesAfter(classes, fs, n - 1), f.pair, f.kind);
      }
    }
  }

  /** After the join the counters are the histogram of the joined classes exactly when no pair that
      is not incomplete already has two findings. */
  lemma {:induction false} JoinIsHistogramIff(counts: Counts, classes: Classes, semantic: seq<Finding>)
    requires IsHistogram(counts, classes)
    ensures var fs := SortBy(semantic, FindingOrder);
      IsHistogram(CountsAfter(counts, classes, fs, |fs|), ClassesAfter(classes, fs, |fs|))
      <==> Unique(Gather(semantic, Demotes(classes)))
  {
    var fs := SortBy(semantic, FindingOrder);
    FindingOrderIsPreorder();
    SortBySorts(semantic, FindingOrder);
    GatherIgnoresOrder(semantic, fs, Demotes(classes));
    var a, b := Gather(semantic, Demotes(classes)), Gather(fs, Demotes(classes));
    CountersFall(counts, classes, fs, |fs|);
    ClassesFall(classes, fs, |fs|);
    SizeOfSet(b);
    if Unique(a) {
      SameMultisetKeepsUnique(a, b);
      DistinctDemotionsAgree(counts, classes, fs, |fs|);
    } else {
      if Unique(b) {
        SameMultisetKeepsUnique(b, a);
      }
    }
  }

  /** With unique entries there is at most one finding for a pair. */
  lemma {:induction false} FindingsAreUnique(entries: seq<Entry>, n: nat, files: map<string, Master>, classes: Classes)
    requires n <= |entries| && Unique(Onto([], entries, n, PairOf()))
    ensures Unique(Gather(Onto([], entries, n, Semantic(files)), Demotes(classes)))
    ensures forall p :: p in Gather(Onto([], entries, n, Semantic(files)), Demotes(classes)) ==>
      p in Onto([], entries, n, PairOf())
  {
    if n > 0 {
      var before := Onto([], entries, n - 1, PairOf());
      assert Onto([], entries, n, PairOf()) == before + [entries[n - 1].pair];
      UniqueNext(before, entries[n - 1].pair);
      FindingsAreUnique(entries, n - 1, files, classes);
      var next := Semantic(files)(entries[n - 1]);
      GatherSplits(Onto([], entries, n - 1, Semantic(files)), next, Demotes(classes));
      assert Gather([], Demotes(classes)) == [];
      if next != [] {
        assert next == [next[0]] && next[0].pair == entries[n - 1].pair;
        assert Gather(next, Demotes(classes)) == Onto([], next, 0, Demotes(classes)) + Demotes(classes)(next[0]);
        UniqueNext(Gather(Onto([], entries, n - 1, Semantic(files)), Demotes(classes)), next[0].pair);
      }
    }
  }

  // The verdict

  /** What a pair of the grid finally counts as. */
  function FinalClass(p: Pair, entries: Entries, c: Capture, spot: Spot, sessions: set<string>): Class {
    var base := BaseClass(p, entries, c.onDisk, spot, sessions);
    if Incomplete(base) || p !in entries || Semantic(c.files)(entries[p]) == [] then base
    else Downgrade(Semantic(c.files)(entries[p])[0].kind)
  }

  /** What a pair finally counts as: a whole pair whose one master is another pair's is missing, one whose
      master stops short is truncated, and every other pair keeps its class. */
  lemma {:induction false} FinalClassIs(p: Pair, c: Capture, spot: Spot, sessions: set<string>)
    requires p in EntryMap(c.entries) && EntryMap(c.entries)[p].pair == p
    ensures var e := EntryMap(c.entries)[p];
      var base := BaseClass(p, EntryMap(c.entries), c.onDisk, spot, sessions);
      var final := FinalClass(p, EntryMap(c.entries), c, spot, sessions);
      if base != Complete && base != SpotMissingHoliday then final == base
      else if e.file.Some? && e.file.value in c.files && c.files[e.file.value].Parsed?
              && |c.files[e.file.value].masters| == 1 then
        var master := c.files[e.file.value].masters[0];
        final == if master.pair != p then Missing else if !master.complete then Truncated else base
      else final == base
  {}

  /** A finding that demotes its pair for the first time decides its class. */
  lemma {:induction false} ClassAtFinding(classes: Classes, fs: seq<Finding>, k: nat)
    requires k < |fs| && Unique(Demotions(classes, fs, k + 1)) && Demotes(classes)(fs[k]) != []
    ensures fs[k].pair !in Demotions(classes, fs, k) && fs[k].pair in Demotions(classes, fs, k + 1)
    ensures ClassesAfter(classes, fs, k + 1)[fs[k].pair] == Downgrade(fs[k].kind)
  {
    DemotionsNext(classes, fs, k);
    UniqueNext(Demotions(classes, fs, k), fs[k].pair);
    ClassesNext(classes, fs, k);
  }

  /** Another finding leaves the class of a demoted pair alone. */
  lemma {:induction false} ClassStays(classes: Classes, fs: seq<Finding>, n: nat, p: Pair)
    requires n < |fs| && Unique(Demotions(classes, fs, n + 1)) && p in Demotions(classes, fs, n) && p in classes
    ensures Unique(Demotions(classes, fs, n)) && p in Demotions(classes, fs, n + 1)
    ensures ClassesAfter(classes, fs, n + 1)[p] == ClassesAfter(classes, fs, n)[p]
  {
    DemotionsNext(classes, fs, n);
    UniqueNext(Demotions(classes, fs, n), fs[n].pair);
    ClassesNext(classes, fs, n);
  }

  lemma {:induction false} ClassAfterFinding(classes: Classes, fs: seq<Finding>, n: nat, k: nat)
    requires k < n <= |fs| && Unique(Demotions(classes, fs, n)) && Demotes(classes)(fs[k]) != []
    ensures fs[k].pair in Demotions(classes, fs, n)
    ensures ClassesAfter(classes, fs, n)[fs[k].pair] == Downgrade(fs[k].kind)
  {
    if k == n - 1 {
      ClassAtFinding(classes, fs, k);
    } else {
      DemotionsNext(classes, fs, n - 1);
      UniqueNext(Demotions(classes, fs, n - 1), fs[n - 1].pair);
      ClassAfterFinding(classes, fs, n - 1, k);
      ClassStays(classes, fs, n - 1, fs[k].pair);
    }
  }

  lemma {:induction false} EntryMapNames(entries: seq<Entry>, n: nat)
    requires n <= |entries|
    ensures forall p :: p in EntryMapTo(entries, n) <==> p in Onto([], entries, n, PairOf())
    ensures forall p :: p in EntryMapTo(entries, n) ==>
      EntryMapTo(entries, n)[p] in entries && EntryMapTo(entries, n)[p].pair == p
  {
    if n > 0 {
      EntryMapNames(entries, n - 1);
    }
  }

  lemma {:induction false} EntryMapHolds(entries: seq<Entry>, n: nat)
    requires n <= |entries| && Unique(Onto([], entries, n, PairOf()))
    ensures forall p :: p in EntryMapTo(entries, n) <==> p in Onto([], entries, n, PairOf())
    ensures forall p :: p in EntryMapTo(entries, n) ==>
      EntryMapTo(entries, n)[p] in entries && EntryMapTo(entries, n)[p].pair == p
    ensures forall k :: 0 <= k < n ==>
      entries[k].pair in EntryMapTo(entries, n) && EntryMapTo(entries, n)[entries[k].pair] == entries[k]
  {
    EntryMapNames(entries, n);
    if n > 0 {
      var e := entries[n - 1];
      UniqueNext(Onto([], entries, n - 1, PairOf()), e.pair);
      EntryMapHolds(entries, n - 1);
      forall k | 0 <= k < n - 1 ensures entries[k].pair != e.pair {
        assert entries[k].pair in EntryMapTo(entries, n - 1);
      }
    }
  }

  lemma EntryOf(entries: seq<Entry>, e: Entry)
    requires Unique(Gather(entries, PairOf())) && e in entries
    ensures e.pair in EntryMap(entries) && EntryMap(entries)[e.pair] == e
  {
    EntryMapHolds(entries, |entries|);
    var k :| 0 <= k < |entries| && entries[k] == e;
  }

  function SortedFindings(c: Capture): seq<Finding> {
    SortBy(Gather(c.entries, Semantic(c.files)), FindingOrder)
  }

  /** A finding is recorded exactly when the entry of its pair yields it. */
  lemma {:induction false} FindingIff(c: Capture, f: Finding)
    requires Unique(Gather(c.entries, PairOf()))
    ensures f in SortedFindings(c) <==>
      f.pair in EntryMap(c.entries) && f in Semantic(c.files)(EntryMap(c.entries)[f.pair])
  {
    var semantic := Gather(c.entries, Semantic(c.files));
    FindingOrderIsPreorder();
    SortBySorts(semantic, FindingOrder);
    SameElements(semantic, SortedFindings(c));
    GatherHolds(c.entries, Semantic(c.files), f);
    if f in semantic {
      var e :| e in c.entries && f in Semantic(c.files)(e);
      EntryOf(c.entries, e);
    }
    EntryMapHolds(c.entries, |c.entries|);
  }

  lemma {:induction false} SortedDemotionsAreUnique(c: Capture, classes: Classes)
    requires Unique(Gather(c.entries, PairOf()))
    ensures Unique(Demotions(classes, SortedFindings(c), |SortedFindings(c)|))
  {
    var semantic, fs := Gather(c.entries, Semantic(c.files)), SortedFindings(c);
    FindingOrderIsPreorder();
    SortBySorts(semantic, FindingOrder);
    FindingsAreUnique(c.entries, |c.entries|, c.files, classes);
    GatherIgnoresOrder(semantic, fs, Demotes(classes));
    SameMultisetKeepsUnique(Gather(semantic, Demotes(classes)), Demotions(classes, fs, |fs|));
  }

  /** The entry of a pair contradicts the master read for it. */
  ghost predicate Contradicted(c: Capture, p: Pair) {
    p in EntryMap(c.entries) && Semantic(c.files)(EntryMap(c.entries)[p]) != []
  }

  lemma {:induction false} ContradictedIsDemoted(classes: Classes, c: Capture, p: Pair)
    requires Unique(Gather(c.entries, PairOf())) && p in classes && !Incomplete(classes[p]) && Contradicted(c, p)
    ensures ClassesAfter(classes, SortedFindings(c), |SortedFindings(c)|)[p]
         == Downgrade(Semantic(c.files)(EntryMap(c.entries)[p])[0].kind)
  {
    var fs, f := SortedFindings(c), Semantic(c.files)(EntryMap(c.entries)[p])[0];
    EntryMapHolds(c.entries, |c.entries|);
    FindingIff(c, f);
    SortedDemotionsAreUnique(c, classes);
    var k :| 0 <= k < |fs| && fs[k] == f;
    ClassAfterFinding(classes, fs, |fs|, k);
  }

  lemma {:induction false} OthersAreKept(classes: Classes, c: Capture, p: Pair)
    requires Unique(Gather(c.entries, PairOf())) && p in classes && !Contradicted(c, p)
    ensures ClassesAfter(classes, SortedFindings(c), |SortedFindings(c)|)[p] == classes[p]
  {
    var fs := SortedFindings(c);
    DemotedOnce(classes, fs, |fs|, p);
    OntoHolds(fs, |fs|, Demotes(classes), p);
    forall k | 0 <= k < |fs| ensures p !in Demotes(classes)(fs[k]) {
      FindingIff(c, fs[k]);
    }
  }

  /** The join gives every pair of the grid its final class. */
  lemma {:induction false} JoinedClassIsFinal(classes: Classes, c: Capture, spot: Spot, sessions: set<string>, p: Pair)
    requires Unique(Gather(c.entries, PairOf())) && p in classes
    requires classes[p] == BaseClass(p, EntryMap(c.entries), c.onDisk, spot, sessions)
    ensures ClassesAfter(classes, SortedFindings(c), |SortedFindings(c)|)[p]
         == FinalClass(p, EntryMap(c.entries), c, spot, sessions)
  {
    if Incomplete(classes[p]) {
      DemotedOnce(classes, SortedFindings(c), |SortedFindings(c)|, p);
    } else if Contradicted(c, p) {
      ContradictedIsDemoted(classes, c, p);
    } else {
      OthersAreKept(classes, c, p);
    }
  }

  datatype Verdict = Verdict(counts: Counts, complete: bool)

  /** The census after its inputs were loaded: refused on a repeated entry, a drifted file or an
      unreferenced master; otherwise the counters are the histogram of the final classes. */
  method TakeCensus(u: Universe, c: Capture, spot: Spot, sessions: set<string>)
    returns (r: Option<Verdict>, ghost classes: Classes)
    requires Verified(u)
    ensures r.Some? <==>
      && Unique(Gather(c.entries, PairOf()))
      && (forall e :: e in c.entries && e.file.Some? ==> !Reading(e, c.files).Drifted?)
      && (forall f :: f in c.pinnedMasters ==> f in Gather(c.entries, FileOf()))
    ensures r.Some? ==>
      && (forall p :: p in classes <==> InGrid(u, p))
      && (forall p :: p in classes ==> classes[p] == FinalClass(p, EntryMap(c.entries), c, spot, sessions))
      && IsHistogram(r.value.counts, classes) && Sum(r.value.counts) == |u.names| * |u.fridays|
      && (r.value.complete <==>
            (forall p :: InGrid(u, p) ==> !Incomplete(FinalClass(p, EntryMap(c.entries), c, spot, sessions)))
            && |Gather(c.entries, ParsedPair(c.files))| == |u.names| * |u.fridays|)
  {
    classes := map[];
    var entries := PairEntries(c.entries);
    if entries.None? {
      return None, classes;
    }
    var counts, base, findings := Reconcile(u, entries.value, c.onDisk, spot, sessions);
    var observed := Observe(c);
    if observed.None? {
      return None, classes;
    }
    var joined := ApplyJoin(counts, base, observed.value.semantic);
    ghost var fs := SortedFindings(c);
    FindingsAreUnique(c.entries, |c.entries|, c.files, base);
    JoinIsHistogramIff(counts, base, observed.value.semantic);
    JoinKeepsSum(counts, base, fs, |fs|);
    classes := ClassesAfter(base, fs, |fs|);
    forall p | p in base ensures classes[p] == FinalClass(p, entries.value, c, spot, sessions) {
      JoinedClassIsFinal(base, c, spot, sessions, p);
    }
    NoneIncomplete(joined, classes);
    var incomplete := joined[Missing] + joined[Truncated] + joined[Error] + joined[SpotMissingSession];
    return Some(Verdict(joined, incomplete == 0 && observed.value.masters == |u.names| * |u.fridays|)), classes;
  }

  lemma NoneIncomplete(counts: Counts, classes: Classes)
    requires IsHistogram(counts, classes)
    ensures counts[Missing] + counts[Truncated] + counts[Error] + counts[SpotMissingSession] == 0
            <==> forall p :: p in classes ==> !Incomplete(classes[p])
  {
    forall c: Class ensures Tally(classes, c) == 0 <==> forall p :: p in classes ==> classes[p] != c {
      assert forall p :: p in Having(classes, c) <==> p in classes && classes[p] == c;
      if Tally(classes, c) == 0 {
        assert Having(classes, c) == {};
      } else {
        var p :| p in Having(classes, c);
      }
    }
    assert Tally(classes, Missing) >= 0;
  }

  // What a complete census says about the masters

  /** The pair's master was read and is the whole master of that pair. */
  ghost predicate Covered(p: Pair, entries: Entries, files: map<string, Master>) {
    && p in entries && IsParsed(entries[p], files)
    && Reading(entries[p], files).masters[0].pair == p && Reading(entries[p], files).masters[0].complete
  }

  ghost function Row(names: seq<string>, f: string): set<Pair> {
    set n | n in names :: Pair(n, f)
  }

  lemma {:induction false} RowSize(names: seq<string>, f: string)
    requires Unique(names)
    ensures |Row(names, f)| == |names|
  {
    if names == [] {
      assert Row(names, f) == {};
    } else {
      var init, last := names[..|names| - 1], names[|names| - 1];
      RowSize(init, f);
      assert names == init + [last];
      assert Row(names, f) == Row(init, f) + {Pair(last, f)};
    }
  }

  /** The pairs of the first `i` Fridays. */
  ghost function GridTo(u: Universe, i: nat): set<Pair>
    requires i <= |u.fridays|
  {
    if i == 0 then {} else GridTo(u, i - 1) + Row(u.names, u.fridays[i - 1])
  }

  lemma {:induction false} GridHolds(u: Universe, i: nat, p: Pair)
    requires i <= |u.fridays|
    ensures p in GridTo(u, i) <==> p.underlying in u.names && p.asOf in u.fridays[..i]
  {
    if i > 0 {
      GridHolds(u, i - 1, p);
      assert u.fridays[..i] == u.fridays[..i - 1] + [u.fridays[i - 1]];
    }
  }

  lemma {:induction false} RowIsNew(u: Universe, i: nat, p: Pair)
    requires Verified(u) && i < |u.fridays| && p in GridTo(u, i)
    ensures p !in Row(u.names, u.fridays[i])
  {
    GridHolds(u, i, p);
  }

  lemma DisjointSizes(a: set<Pair>, b: set<Pair>)
    requires forall p :: p in a ==> p !in b
    ensures |a + b| == |a| + |b|
  {
    assert a * b == {};
  }

  lemma {:induction false} GridGrows(u: Universe, i: nat)
    requires Verified(u) && 0 < i <= |u.fridays|
    ensures |GridTo(u, i)| == |GridTo(u, i - 1)| + |u.names|
  {
    var before, row := GridTo(u, i - 1), Row(u.names, u.fridays[i - 1]);
    RowSize(u.names, u.fridays[i - 1]);
    forall p | p in before ensures p !in row {
      RowIsNew(u, i - 1, p);
    }
    DisjointSizes(before, row);
  }

  lemma {:induction false} GridSize(u: Universe, i: nat)
    requires Verified(u) && i <= |u.fridays|
    ensures |GridTo(u, i)| == PairsOf(|u.names|, i)
  {
    if i > 0 {
      GridSize(u, i - 1);
      GridGrows(u, i);
    }
  }

  lemma ParsedOfComplete(p: Pair, c: Capture, spot: Spot, sessions: set<string>)
    requires Unique(Gather(c.entries, PairOf()))
    requires !Incomplete(FinalClass(p, EntryMap(c.entries), c, spot, sessions))
    ensures Covered(p, EntryMap(c.entries), c.files) <==> p in Gather(c.entries, ParsedPair(c.files))
  {
    ParsedIff(c, p);
    EntryMapHolds(c.entries, |c.entries|);
  }

  /** Exit 0 promises whole coverage.  A census that is complete has read the whole master of every
      pair of the grid exactly when no master was parsed for a pair outside the grid: such a master
      makes up for one that does not parse. */
  lemma CompleteMeansCoveredIff(u: Universe, c: Capture, spot: Spot, sessions: set<string>)
    requires Verified(u) && Unique(Gather(c.entries, PairOf()))
    requires forall p :: InGrid(u, p) ==> !Incomplete(FinalClass(p, EntryMap(c.entries), c, spot, sessions))
    requires |Gather(c.entries, ParsedPair(c.files))| == |u.names| * |u.fridays|
    ensures (forall p :: InGrid(u, p) ==> Covered(p, EntryMap(c.entries), c.files)) <==>
      (forall e :: e in c.entries && IsParsed(e, c.files) ==> InGrid(u, e.pair))
  {
    var pairs := Gather(c.entries, ParsedPair(c.files));
    var parsed, grid := Set(pairs), GridTo(u, |u.fridays|);
    ParsedPairsAreUnique(c.entries, |c.entries|, c.files);
    SizeOfSet(pairs);
    GridSize(u, |u.fridays|);
    PairsOfIsProduct(|u.names|, |u.fridays|);
    forall p ensures p in grid <==> InGrid(u, p) {
      GridHolds(u, |u.fridays|, p);
      assert u.fridays[..|u.fridays|] == u.fridays;
    }
    forall p | p in grid ensures Covered(p, EntryMap(c.entries), c.files) <==> p in parsed {
      ParsedOfComplete(p, c, spot, sessions);
    }
    assert parsed <= grid || grid <= parsed ==> parsed == grid by {
      if parsed <= grid { SameSizeSubset(parsed, grid); }
      if grid <= parsed { SameSizeSubset(grid, parsed); }
    }
    ParsedPairsOf(c);
  }

  /** A manifest whose census is complete though the only pair of the grid has a master nobody can
      parse: the master of a name outside the universe stands in for it. */
  function StandIn(name: string, other: string, friday: string): Capture {
    Capture([Entry(Pair(name, friday), 0, Some("one"), true, false, false),
             Entry(Pair(other, friday), 0, Some("two"), true, false, false)],
            {"one", "two"},
            map["one" := Unreadable, "two" := Parsed([Envelope(Pair(other, friday), true, [])])],
            {"one", "two"})
  }

  lemma {:induction false} GatherTwo<U>(a: Entry, b: Entry, f: Entry -> seq<U>)
    ensures Gather([a, b], f) == f(a) + f(b)
  {
    assert Onto([], [a, b], 1, f) == Onto([], [a, b], 0, f) + f(a);
  }

  lemma {:induction false} StandInEntries(name: string, other: string, friday: string)
    requires name != other
    ensures var c := StandIn(name, other, friday); var one, two := c.entries[0], c.entries[1];
      && Gather(c.entries, PairOf()) == [one.pair, two.pair] && Unique(Gather(c.entries, PairOf()))
      && Gather(c.entries, FileOf()) == ["one", "two"] && Gather(c.entries, ParsedPair(c.files)) == [two.pair]
      && Semantic(c.files)(one) == []
  {
    var c := StandIn(name, other, friday);
    GatherTwo(c.entries[0], c.entries[1], PairOf());
    GatherTwo(c.entries[0], c.entries[1], FileOf());
    GatherTwo(c.entries[0], c.entries[1], ParsedPair(c.files));
    assert "one" != "two" by {
      assert "one"[0] == 'o' && "two"[0] == 't';
    }
  }

  lemma {:induction false} StandInClass(name: string, other: string, friday: string, sessions: set<string>)
    requires name != other
    ensures var c := StandIn(name, other, friday); var entries := EntryMap(c.entries);
      && FinalClass(Pair(name, friday), entries, c, Spot({name}, {}), sessions) == Complete
      && !Covered(Pair(name, friday), entries, c.files)
  {
    var c := StandIn(name, other, friday);
    StandInEntries(name, other, friday);
    EntryOf(c.entries, c.entries[0]);
  }

  /** Its verdict is complete all the same. */
  method StandInCensus(name: string, other: string, friday: string, sessions: set<string>) returns (r: Option<Verdict>)
    requires name != other
    ensures r.Some? && r.value.complete
    ensures var c := StandIn(name, other, friday); !Covered(Pair(name, friday), EntryMap(c.entries), c.files)
  {
    StandInEntries(name, other, friday);
    StandInClass(name, other, friday, sessions);
    ghost var classes;
    r, classes := TakeCensus(Universe([name], [friday]), StandIn(name, other, friday), Spot({name}, {}), sessions);
  }

  lemma ParsedPairsOf(c: Capture)
    requires Unique(Gather(c.entries, PairOf()))
    ensures forall e :: e in c.entries && IsParsed(e, c.files) ==> e.pair in Gather(c.entries, ParsedPair(c.files))
    ensures forall p :: p in Gather(c.entries, ParsedPair(c.files)) ==>
      exists e :: e in c.entries && IsParsed(e, c.files) && e.pair == p
  {
    forall e | e in c.entries && IsParsed(e, c.files) ensures e.pair in Gather(c.entries, ParsedPair(c.files)) {
      GatherHolds(c.entries, ParsedPair(c.files), e.pair);
      assert e.pair in ParsedPair(c.files)(e);
    }
    forall p | p in Gather(c.entries, ParsedPair(c.files))
      ensures exists e :: e in c.entries && IsParsed(e, c.files) && e.pair == p
    {
      GatherHolds(c.entries, ParsedPair(c.files), p);
      var e :| e in c.entries && p in ParsedPair(c.files)(e);
    }
  }

  lemma SameSizeSubset(a: set<Pair>, b: set<Pair>)
    requires a <= b && |a| == |b|
    ensures a == b
  {
    assert b == a + (b - a);
    assert |b| == |a| + |b - a|;
  }

  lemma ParsedIff(c: Capture, p: Pair)
    requires Unique(Gather(c.entries, PairOf()))
    ensures p in Gather(c.entries, ParsedPair(c.files)) <==>
      p in EntryMap(c.entries) && IsParsed(EntryMap(c.entries)[p], c.files)
  {
    GatherHolds(c.entries, ParsedPair(c.files), p);
    if p in Gather(c.entries, ParsedPair(c.files)) {
      var e :| e in c.entries && p in ParsedPair(c.files)(e);
      EntryOf(c.entries, e);
    }
    EntryMapHolds(c.entries, |c.entries|);
    if p in EntryMap(c.entries) && IsParsed(EntryMap(c.entries)[p], c.files) {
      assert p in ParsedPair(c.files)(EntryMap(c.entries)[p]);
    }
  }

  lemma {:induction false} ParsedPairsAreUnique(entries: seq<Entry>, n: nat, files: map<string, Master>)
    requires n <= |entries| && Unique(Onto([], entries, n, PairOf()))
    ensures Unique(Onto([], entries, n, ParsedPair(files)))
    ensures forall p :: p in Onto([], entries, n, ParsedPair(files)) ==> p in Onto([], entries, n, PairOf())
  {
    if n > 0 {
      var before, e := Onto([], entries, n - 1, PairOf()), entries[n - 1];
      var parsed := Onto([], entries, n - 1, ParsedPair(files));
      assert Onto([], entries, n, PairOf()) == before + [e.pair];
      UniqueNext(before, e.pair);
      ParsedPairsAreUnique(entries, n - 1, files);
      UniqueNext(parsed, e.pair);
      assert parsed + [] == parsed;
    }
  }
}
