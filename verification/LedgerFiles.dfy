/**
 Reading the two hash-chained ledger files back: the strict reader of the holdout consumption
 ledger, and the replay of the seal ledger, which tolerates a torn final line.
 */
module LedgerFiles {
  import opened HashChain
  import opened Options

  /** The lines a reader looks at: blank ones are skipped. */
  function Significant<T>(lines: seq<Line<T>>): seq<Line<T>> {
    if lines == [] then []
    else
      var line := lines[|lines| - 1];
      Significant(lines[..|lines| - 1]) + if line.Blank? then [] else [line]
  }

  lemma {:induction false} SignificantAppend<T>(lines: seq<Line<T>>, line: Line<T>)
    ensures Significant(lines + [line]) == Significant(lines) + if line.Blank? then [] else [line]
  {
    assert (lines + [line])[..|lines|] == lines;
  }

  lemma {:induction false} StampPrefix<T>(bodies: seq<T>, k: nat)
    requires k <= |bodies|
    ensures Stamp(bodies)[..k] == Stamp(bodies[..k])
  {
    if k < |bodies| {
      var before := bodies[..|bodies| - 1];
      StampPrefix(before, k);
      assert before[..k] == bodies[..k];
      assert Stamp(bodies)[..k] == Stamp(before)[..k];
    } else {
      assert bodies[..k] == bodies;
    }
  }

  lemma {:induction false} StampInjective<T>(a: seq<T>, b: seq<T>)
    requires Stamp(a) == Stamp(b)
    ensures a == b
  {
    assert |Stamp(a)| == |a| && |Stamp(b)| == |b|;
    forall i | 0 <= i < |a| ensures a[i] == b[i] {
      StampAt(a, i);
      StampAt(b, i);
    }
  }

  /** A line that does not follow the records before it spoils every continuation. */
  lemma {:induction false} BadLineIsFatal<T>(lines: seq<Line<T>>, bodies: seq<T>, more: seq<Line<T>>, line: Line<T>)
    requires lines == Stamp(bodies) && !Follows(line, TailOf(bodies))
    ensures forall all :: lines + [line] + more != Stamp(all)
  {
    forall all | lines + [line] + more == Stamp(all) ensures false {
      var n := |bodies|;
      assert |Stamp(all)| == |all| && |lines| == n;
      assert Stamp(all)[n] == line && Stamp(all)[..n] == lines;
      StampPrefix(all, n);
      StampInjective(all[..n], bodies);
      StampAt(all, n);
    }
  }

  lemma {:induction false} SignificantSplits<T>(lines: seq<Line<T>>, more: seq<Line<T>>)
    ensures Significant(lines + more) == Significant(lines) + Significant(more)
  {
    if more == [] {
      assert lines + more == lines;
    } else {
      var before := more[..|more| - 1];
      SignificantSplits(lines, before);
      assert (lines + more)[..|lines + more| - 1] == lines + before;
    }
  }

  /** `_read_consumptions`: the records of an intact chain, or a refusal. */
  method ReadConsumptions<T(==)>(lines: seq<Line<T>>) returns (r: Option<seq<T>>)
    ensures r.Some? ==> Significant(lines) == Stamp(r.value)
    ensures r.None? ==> forall bodies :: Significant(lines) != Stamp(bodies)
  {
    var records: seq<T>, prev := [], Zeros;
    for i := 0 to |lines|
      invariant Significant(lines[..i]) == Stamp(records) && prev == TailOf(records)
    {
      var line := lines[i];
      assert lines[..i + 1] == lines[..i] + [line];
      SignificantAppend(lines[..i], line);
      if !line.Blank? {
        if !line.Stored? || line.entry.prev != prev || line.entry.sha != Sha(line.entry.prev, line.entry.body) {
          assert lines == lines[..i + 1] + lines[i + 1..];
          SignificantSplits(lines[..i + 1], lines[i + 1..]);
          BadLineIsFatal(Stamp(records), records, Significant(lines[i + 1..]), line);
          return None;
        }
        StampAppends(records, line.entry.body);
        records, prev := records + [line.entry.body], line.entry.sha;
      }
    }
    assert lines[..|lines|] == lines;
    r := Some(records);
  }

  /** The text of a ledger: its lines as a reader splits them, and whether it ends in a newline.
      Readers do not ask for that newline, and appenders do not look for it. */
  datatype File<T> = File(lines: seq<Line<T>>, terminated: bool)

  /** The last line is not finished: whatever is written next continues it. */
  predicate Loose<T>(file: File<T>) {
    !file.terminated && file.lines != [] && !file.lines[|file.lines| - 1].Blank?
  }

  /** Text written at the end of the file.  It continues a loose line, which nobody can decode then. */
  function WrittenTo<T>(file: File<T>, line: Line<T>, terminated: bool): File<T> {
    if Loose(file) then File(file.lines[..|file.lines| - 1] + [Garbled], terminated)
    else if file.terminated || file.lines == [] then File(file.lines + [line], terminated)
    else File(file.lines[..|file.lines| - 1] + [line], terminated)
  }

  ghost predicate Readable<T>(file: File<T>, bodies: seq<T>) {
    Significant(file.lines) == Stamp(bodies)
  }

  ghost predicate Unreadable<T(!new)>(file: File<T>) {
    forall bodies :: !Readable(file, bodies)
  }

  /** The line a writer adds after `bodies`. */
  function NextLine<T>(bodies: seq<T>, body: T): Line<T> {
    Stored(Entry(body, TailOf(bodies), Sha(TailOf(bodies), body)))
  }

  /** How much of an interrupted write reached the file: nothing, a part that does not decode, or all
      but the newline, which readers do not miss. */
  datatype Torn = Nothing | Fragment | AllButNewline

  /** A line written at the end, whole or cut short. */
  function WrittenBy<T>(file: File<T>, line: Line<T>, cut: Option<Torn>): File<T> {
    match cut
    case None => WrittenTo(file, line, true)
    case Some(Nothing) => file
    case Some(Fragment) => WrittenTo(file, Garbled, false)
    case Some(AllButNewline) => WrittenTo(file, line, false)
  }

  /** Every record whose bytes reached the file in full, also one that no reader can get at any more. */
  function GrownBy<T>(history: seq<T>, body: T, cut: Option<Torn>): seq<T> {
    if cut == None || cut == Some(AllButNewline) then history + [body] else history
  }

  lemma {:induction false} WrittenLines<T>(file: File<T>, line: Line<T>, terminated: bool)
    requires !Loose(file) && !line.Blank?
    ensures Significant(WrittenTo(file, line, terminated).lines) == Significant(file.lines) + [line]
  {
    if file.terminated || file.lines == [] {
      SignificantAppend(file.lines, line);
    } else {
      var last := |file.lines| - 1;
      SignificantAppend(file.lines[..last], file.lines[last]);
      SignificantAppend(file.lines[..last], line);
      assert file.lines == file.lines[..last] + [file.lines[last]];
    }
  }

  /** What is written onto a loose line spoils it, and with it the record it held. */
  lemma {:induction false} LooseIsSpoilt<T(!new)>(file: File<T>, bodies: seq<T>, line: Line<T>, terminated: bool)
    requires Readable(file, bodies) && Loose(file)
    ensures Unreadable(WrittenTo(file, line, terminated))
  {
    var last := |file.lines| - 1;
    var before := file.lines[..last];
    assert file.lines == before + [file.lines[last]];
    SignificantAppend(before, file.lines[last]);
    SignificantAppend(before, Garbled);
    var n := |bodies| - 1;
    assert |Stamp(bodies)| == |bodies| && Stamp(bodies)[..n] == Significant(before);
    StampPrefix(bodies, n);
    BadLineIsFatal(Significant(before), bodies[..n], [], Garbled);
    assert Significant(before) + [Garbled] + [] == Significant(before) + [Garbled];
  }

  /** A fragment that does not decode spoils the file whatever it is written onto. */
  lemma {:induction false} FragmentSpoils<T(!new)>(file: File<T>, bodies: seq<T>, terminated: bool)
    requires Readable(file, bodies)
    ensures Unreadable(WrittenTo(file, Garbled, terminated))
  {
    if Loose(file) {
      LooseIsSpoilt(file, bodies, Garbled, terminated);
    } else {
      WrittenLines(file, Garbled, terminated);
      BadLineIsFatal(Stamp(bodies), bodies, [], Garbled);
      assert Significant(file.lines) + [Garbled] + [] == Significant(file.lines) + [Garbled];
    }
  }

  /** `_append_consumption`: after an append to an accepted file the records read back with the new one
      last if and only if the file's last line was finished; otherwise nobody reads the file again. */
  lemma {:induction false} AppendIsReadBackIff<T(!new)>(file: File<T>, bodies: seq<T>, body: T, terminated: bool)
    requires Readable(file, bodies)
    ensures Readable(WrittenTo(file, NextLine(bodies, body), terminated), bodies + [body]) <==> !Loose(file)
    ensures Loose(file) ==> Unreadable(WrittenTo(file, NextLine(bodies, body), terminated))
  {
    if Loose(file) {
      LooseIsSpoilt(file, bodies, NextLine(bodies, body), terminated);
    } else {
      StampAppends(bodies, body);
      WrittenLines(file, NextLine(bodies, body), terminated);
    }
  }

  /** A write after an accepted read, whole or cut short: all records stay readable if and only if nothing
      was written, or no fragment and onto a finished line; otherwise nobody reads the file again. */
  lemma {:induction false} WriteIsReadBackIff<T(!new)>(file: File<T>, bodies: seq<T>, body: T, cut: Option<Torn>)
    requires Readable(file, bodies)
    ensures var next := WrittenBy(file, NextLine(bodies, body), cut);
      && (Readable(next, GrownBy(bodies, body, cut)) <==>
            cut == Some(Nothing) || (cut != Some(Fragment) && !Loose(file)))
      && (Readable(next, GrownBy(bodies, body, cut)) || Unreadable(next))
  {
    match cut
    case None => AppendIsReadBackIff(file, bodies, body, true);
    case Some(Nothing) =>
    case Some(Fragment) => FragmentSpoils(file, bodies, false);
    case Some(AllButNewline) => AppendIsReadBackIff(file, bodies, body, false);
  }

  /** Two accepted ledgers whose last records carry the same hash hold the same records. */
  lemma {:induction false} SameLastHashSameLedger<T>(a: seq<Line<T>>, b: seq<Line<T>>, x: seq<T>, y: seq<T>)
    requires Significant(a) == Stamp(x) && Significant(b) == Stamp(y) && x != [] && y != []
    requires var p, q := Significant(a), Significant(b); p[|p| - 1].entry.sha == q[|q| - 1].entry.sha
    ensures x == y
  {
    StampAt(x, |x| - 1);
    StampAt(y, |y| - 1);
    SameTailSameRecords(x, y);
  }

  // The seal ledger and the bars ledger: a damaged final line is left out, and refuses every append

  datatype View<T> = View(records: seq<T>, tail: Digest<T>, damaged: bool)

  /** What a replay makes of the lines: a bad line anywhere but at the end refuses. */
  function Replayed<T(==)>(lines: seq<Line<T>>): Option<View<T>> {
    if lines == [] then Some(View([], Zeros, false))
    else
      var last := |lines| - 1;
      match Replayed(lines[..last])
      case None => None
      case Some(v) =>
        if v.damaged then None
        else if !Follows(lines[last], v.tail) then Some(v.(damaged := true))
        else Some(View(v.records + [lines[last].entry.body], lines[last].entry.sha, false))
  }

  lemma {:induction false} ReplayedIs<T(!new)>(lines: seq<Line<T>>)
    ensures Replayed(lines).Some? ==> var v := Replayed(lines).value;
      && v.tail == TailOf(v.records)
      && (!v.damaged ==> lines == Stamp(v.records))
      && (v.damaged ==>
           lines != [] && lines[..|lines| - 1] == Stamp(v.records) && !Follows(lines[|lines| - 1], v.tail))
    ensures Replayed(lines).None? ==> lines != [] && forall bodies :: lines[..|lines| - 1] != Stamp(bodies)
  {
    if lines != [] {
      var before, line := lines[..|lines| - 1], lines[|lines| - 1];
      assert lines == before + [line];
      ReplayedIs(before);
      var v := Replayed(before);
      if v.Some? && !v.value.damaged && Follows(line, v.value.tail) {
        StampAppends(v.value.records, line.entry.body);
      }
      if v.None? {
        StampsGoOn(before);
      } else if v.value.damaged {
        var bad := before[|before| - 1];
        assert before == Stamp(v.value.records) + [bad] + [];
        BadLineIsFatal(Stamp(v.value.records), v.value.records, [], bad);
      }
    }
  }

  /** Lines that no records produce are not produced by more records either. */
  lemma {:induction false} StampsGoOn<T(!new)>(lines: seq<Line<T>>)
    requires lines != [] && forall bodies :: lines[..|lines| - 1] != Stamp(bodies)
    ensures forall bodies :: lines != Stamp(bodies)
  {
    forall bodies | lines == Stamp(bodies) ensures false {
      assert |Stamp(bodies)| == |bodies|;
      StampPrefix(bodies, |bodies| - 1);
    }
  }

  lemma {:induction false} ReplayedNext<T(!new)>(lines: seq<Line<T>>, line: Line<T>)
    requires Replayed(lines).Some? && !Replayed(lines).value.damaged
    ensures var v := Replayed(lines).value;
      Replayed(lines + [line]) == Some(
        if Follows(line, v.tail) then View(v.records + [line.entry.body], line.entry.sha, false)
        else v.(damaged := true))
  {
    assert (lines + [line])[..|lines|] == lines;
  }

  lemma {:induction false} ReplayedStamp<T(!new)>(bodies: seq<T>)
    ensures Replayed(Stamp(bodies)) == Some(View(bodies, TailOf(bodies), false))
  {
    if bodies != [] {
      var before, body := bodies[..|bodies| - 1], bodies[|bodies| - 1];
      assert bodies == before + [body];
      ReplayedStamp(before);
      StampAppends(before, body);
      ReplayedNext(Stamp(before), Stored(Entry(body, TailOf(before), Sha(TailOf(before), body))));
    }
  }

  /** `_replay_text`: a torn final line is left out and reported; damage anywhere else refuses. */
  method Replay<T(==, !new)>(lines: seq<Line<T>>) returns (r: Option<View<T>>)
    ensures r == Replayed(lines)
    ensures r.Some? ==> r.value.tail == TailOf(r.value.records)
    ensures r.Some? && !r.value.damaged ==> lines == Stamp(r.value.records)
    ensures r.Some? && r.value.damaged ==>
      lines != [] && lines[..|lines| - 1] == Stamp(r.value.records) && !Follows(lines[|lines| - 1], r.value.tail)
    ensures r.None? ==> lines != [] && forall bodies :: lines[..|lines| - 1] != Stamp(bodies)
  {
    ReplayedIs(lines);
    var records: seq<T>, prev, damaged := [], Zeros, false;
    for i := 0 to |lines|
      invariant Replayed(lines[..i]) == Some(View(records, prev, damaged))
      invariant damaged ==> i == |lines|
    {
      var line := lines[i];
      assert lines[..i + 1] == lines[..i] + [line];
      ReplayedNext(lines[..i], line);
      if !line.Stored? || line.entry.prev != prev || line.entry.sha != Sha(line.entry.prev, line.entry.body) {
        if i < |lines| - 1 {
          DamageRefuses(lines, i + 1);
          return None;
        }
        damaged := true;
      } else {
        records, prev := records + [line.entry.body], line.entry.sha;
      }
    }
    assert lines[..|lines|] == lines;
    r := Some(View(records, prev, damaged));
  }

  /** A replay that meets damage before the last line refuses. */
  lemma {:induction false} DamageRefuses<T(!new)>(lines: seq<Line<T>>, n: nat)
    requires n < |lines| && (Replayed(lines[..n]).None? || Replayed(lines[..n]).value.damaged)
    ensures Replayed(lines).None?
    decreases |lines| - n
  {
    assert lines[..n + 1][..n] == lines[..n];
    if n + 1 == |lines| {
      assert lines[..n + 1] == lines;
    } else {
      DamageRefuses(lines, n + 1);
    }
  }

  /** No line of the file is damaged: it can be appended to. */
  predicate Intact<T(==)>(file: File<T>) {
    Replayed(file.lines).Some? && !Replayed(file.lines).value.damaged
  }

  /** The records a reader gets, and their tail. */
  function Records<T(==)>(file: File<T>): seq<T> {
    if Replayed(file.lines).Some? then Replayed(file.lines).value.records else []
  }

  /** A reader gets all there ever was, unless the final line is damaged. */
  ghost predicate Tracks<T>(file: File<T>, history: seq<T>) {
    && Replayed(file.lines).Some?
    && Records(file) <= history
    && (Intact(file) ==> Records(file) == history)
  }

  /** What is written onto a loose line damages the file and takes the last record with it. */
  lemma {:induction false} LooseWrite<T(!new)>(file: File<T>, history: seq<T>, line: Line<T>, terminated: bool)
    requires Tracks(file, history) && Intact(file) && Loose(file)
    ensures history != []
    ensures var left := history[..|history| - 1];
      Replayed(WrittenTo(file, line, terminated).lines) == Some(View(left, TailOf(left), true))
  {
    ReplayedIs(file.lines);
    var last := |history| - 1;
    assert |Stamp(history)| == |history|;
    StampPrefix(history, last);
    ReplayedStamp(history[..last]);
    ReplayedNext(Stamp(history[..last]), Garbled);
  }

  /** What is written onto a finished line is a line of its own. */
  lemma {:induction false} FirmWrite<T(!new)>(file: File<T>, history: seq<T>, line: Line<T>, terminated: bool)
    requires Tracks(file, history) && Intact(file) && !Loose(file)
    ensures var next := WrittenTo(file, line, terminated);
      && next.terminated == terminated
      && Replayed(next.lines) == Some(
           if Follows(line, TailOf(history)) then View(history + [line.entry.body], line.entry.sha, false)
           else View(history, TailOf(history), true))
  {
    ReplayedIs(file.lines);
    ReplayedNext(file.lines, line);
    if file.lines != [] {
      StampAt(history, |history| - 1);
    }
  }

  /** A write, whole or cut short, keeps readers honest; the file stays intact if and only if nothing was
      written, or no fragment and onto a finished line. */
  lemma {:induction false} WriteTracks<T(!new)>(file: File<T>, history: seq<T>, body: T, cut: Option<Torn>)
    requires Tracks(file, history) && Intact(file)
    ensures var next := WrittenBy(file, NextLine(history, body), cut);
      && Tracks(next, GrownBy(history, body, cut))
      && (Intact(next) <==> cut == Some(Nothing) || (cut != Some(Fragment) && !Loose(file)))
  {
    match cut
    case None => OneWrite(file, history, body, true);
    case Some(Nothing) =>
    case Some(Fragment) => OneFragment(file, history);
    case Some(AllButNewline) => OneWrite(file, history, body, false);
  }

  lemma {:induction false} OneWrite<T(!new)>(file: File<T>, history: seq<T>, body: T, terminated: bool)
    requires Tracks(file, history) && Intact(file)
    ensures var next := WrittenTo(file, NextLine(history, body), terminated);
      && Tracks(next, history + [body])
      && (Intact(next) <==> !Loose(file))
  {
    if Loose(file) {
      LooseWrite(file, history, NextLine(history, body), terminated);
    } else {
      FirmWrite(file, history, NextLine(history, body), terminated);
    }
  }

  lemma {:induction false} OneFragment<T(!new)>(file: File<T>, history: seq<T>)
    requires Tracks(file, history) && Intact(file)
    ensures Tracks(WrittenTo(file, Garbled, false), history) && !Intact(WrittenTo(file, Garbled, false))
  {
    if Loose(file) {
      LooseWrite(file, history, Garbled, false);
    } else {
      FirmWrite(file, history, Garbled, false);
    }
  }

  /** The first `n` records can be read for good: what is still written cannot reach them. */
  predicate Firm<T(==)>(file: File<T>, n: nat) {
    n <= |Records(file)| && (Intact(file) && |Records(file)| == n ==> !Loose(file))
  }

  lemma {:induction false} WriteKeepsFirm<T(!new)>(file: File<T>, history: seq<T>, body: T, cut: Option<Torn>, n: nat)
    requires Tracks(file, history) && Intact(file) && Firm(file, n)
    ensures Firm(WrittenBy(file, NextLine(history, body), cut), n)
  {
    if Loose(file) {
      LooseWrite(file, history, NextLine(history, body), cut == None);
    } else {
      FirmWrite(file, history, NextLine(history, body), cut == None);
      FirmWrite(file, history, Garbled, false);
    }
  }

  /** A whole append makes its record firm if and only if the last line was finished. */
  lemma {:induction false} AppendIsFirmIff<T(!new)>(file: File<T>, history: seq<T>, body: T)
    requires Tracks(file, history) && Intact(file)
    ensures var next := WrittenTo(file, NextLine(history, body), true);
      && (!Loose(file) ==> Firm(next, |history| + 1))
      && (Loose(file) ==> !Intact(next) && |Records(next)| < |history|)
  {
    if Loose(file) {
      LooseWrite(file, history, NextLine(history, body), true);
    } else {
      FirmWrite(file, history, NextLine(history, body), true);
    }
  }
}
