/**
 Momentum rows: for every decision session and security, a score over the last 21 bars that were
 published by that session's close.
 */
module Momentum {
  import opened Options
  import opened Ordering

  datatype Bar = Bar(security: string, session: int, availableAt: int, close: real)

  /** The logarithm of a ratio of two closes, as a term. */
  datatype Score = LogRatio(last: real, first: real)

  datatype Row = Row(security: string, session: int, score: Score)

  const WINDOW := 21
  const LOOKBACK := 20

  // The dictionary of bars by session of one security, in insertion order

  function Put(book: seq<Bar>, b: Bar): seq<Bar> {
    if book == [] then [b]
    else if book[0].session == b.session then [b] + book[1..]
    else [book[0]] + Put(book[1..], b)
  }

  /** What the first `n` bars leave for a security. */
  function Book(bars: seq<Bar>, n: nat, security: string): seq<Bar>
    requires n <= |bars|
  {
    if n == 0 then []
    else if bars[n - 1].security == security then Put(Book(bars, n - 1, security), bars[n - 1])
    else Book(bars, n - 1, security)
  }

  function SecurityOf(): Bar -> seq<string> {
    (b: Bar) => [b.security]
  }

  function VisibleDate(closeAt: int): Bar -> seq<int> {
    (b: Bar) => if b.availableAt <= closeAt then [b.session] else []
  }

  function VisibleDates(book: seq<Bar>, closeAt: int): seq<int> {
    SortBy(Gather(book, VisibleDate(closeAt)), Earlier)
  }

  /** The close of the book's bar for a date. */
  function CloseAt(book: seq<Bar>, date: int): real {
    if book == [] then 0.0 else if book[0].session == date then book[0].close else CloseAt(book[1..], date)
  }

  /** The row of one security at one session, if it has one. */
  function RowOf(book: seq<Bar>, closeAt: int, security: string, session: int): seq<Row> {
    var visible := VisibleDates(book, closeAt);
    if |visible| < WINDOW then [] else
      var first, last := CloseAt(book, visible[|visible| - WINDOW]), CloseAt(book, visible[|visible| - 1]);
      if first <= 0.0 || last <= 0.0 then [] else [Row(security, session, LogRatio(last, first))]
  }

  function SecurityRow(bars: seq<Bar>, closeAt: int, session: int): string -> seq<Row> {
    (security: string) => RowOf(Book(bars, |bars|, security), closeAt, security, session)
  }

  function Securities(bars: seq<Bar>): seq<string> {
    SortBy(Distincts(Gather(bars, SecurityOf())), Alphabetic)
  }

  function SessionRows(bars: seq<Bar>, close: int -> int, holdout: set<int>, includeHoldout: bool): int -> seq<Row> {
    (session: int) =>
      if session in holdout && !includeHoldout then []
      else Gather(Securities(bars), SecurityRow(bars, close(session), session))
  }

  type Books = map<string, seq<Bar>>

  function BookOf(books: Books, security: string): seq<Bar> {
    if security in books then books[security] else []
  }

  function PutIn(books: Books, b: Bar): Books {
    books[b.security := Put(BookOf(books, b.security), b)]
  }

  /** The dictionaries after `n` bars. */
  ghost predicate Filed(order: seq<string>, books: Books, bars: seq<Bar>, n: nat)
    requires n <= |bars|
  {
    && order == Distincts(Onto([], bars, n, SecurityOf()))
    && (forall x :: x in order <==> x in books)
    && forall x :: BookOf(books, x) == Book(bars, n, x)
  }

  lemma {:induction false} BooksNext(books: Books, bars: seq<Bar>, n: nat)
    requires n < |bars| && forall x :: BookOf(books, x) == Book(bars, n, x)
    ensures forall x :: BookOf(PutIn(books, bars[n]), x) == Book(bars, n + 1, x)
  {
    forall x ensures BookOf(PutIn(books, bars[n]), x) == Book(bars, n + 1, x) {
      assert BookOf(books, x) == Book(bars, n, x);
    }
  }

  lemma {:induction false} FiledNext(order: seq<string>, books: Books, bars: seq<Bar>, n: nat)
    requires n < |bars| && Filed(order, books, bars, n)
    ensures var x := bars[n].security;
      Filed(if x in books then order else order + [x], PutIn(books, bars[n]), bars, n + 1)
  {
    DistinctsNext(Onto([], bars, n, SecurityOf()), bars[n].security);
    BooksNext(books, bars, n);
  }

  method FileBars(bars: seq<Bar>) returns (order: seq<string>, books: Books)
    ensures Filed(order, books, bars, |bars|)
  {
    order, books := [], map[];
    for i := 0 to |bars|
      invariant Filed(order, books, bars, i)
    {
      FiledNext(order, books, bars, i);
      if bars[i].security !in books {
        order := order + [bars[i].security];
      }
      books := PutIn(books, bars[i]);
    }
  }

  method ScoreOne(book: seq<Bar>, closeAt: int, security: string, session: int) returns (rows: seq<Row>)
    ensures rows == RowOf(book, closeAt, security, session)
  {
    var visible := VisibleDates(book, closeAt);
    if |visible| < WINDOW {
      return [];
    }
    var first, last := CloseAt(book, visible[|visible| - WINDOW]), CloseAt(book, visible[|visible| - 1]);
    if first <= 0.0 || last <= 0.0 {
      return [];
    }
    return [Row(security, session, LogRatio(last, first))];
  }

  /** The rows of one session, security by security. */
  method ScoreAll(ghost bars: seq<Bar>, securities: seq<string>, books: Books, closeAt: int, session: int,
                  before: seq<Row>)
    returns (rows: seq<Row>)
    requires forall x :: BookOf(books, x) == Book(bars, |bars|, x)
    ensures rows == before + Gather(securities, SecurityRow(bars, closeAt, session))
  {
    rows := before;
    for k := 0 to |securities|
      invariant rows == Onto(before, securities, k, SecurityRow(bars, closeAt, session))
    {
      ghost var next := SecurityRow(bars, closeAt, session)(securities[k]);
      var row := ScoreOne(BookOf(books, securities[k]), closeAt, securities[k], session);
      assert row == next;
      rows := rows + row;
    }
    OntoAppends(before, securities, |securities|, SecurityRow(bars, closeAt, session));
  }

  /** `momentum_scored_rows` */
  method ScoreRows(bars: seq<Bar>, close: int -> int, sessions: seq<int>, holdout: set<int>, includeHoldout: bool)
    returns (rows: seq<Row>)
    ensures rows == Gather(sessions, SessionRows(bars, close, holdout, includeHoldout))
  {
    var order, books := FileBars(bars);
    rows := [];
    for s := 0 to |sessions|
      invariant rows == Onto([], sessions, s, SessionRows(bars, close, holdout, includeHoldout))
    {
      ghost var next := SessionRows(bars, close, holdout, includeHoldout)(sessions[s]);
      if sessions[s] in holdout && !includeHoldout {
        assert next == [] && rows + [] == rows;
        continue;
      }
      rows := ScoreAll(bars, SortBy(order, Alphabetic), books, close(sessions[s]), sessions[s], rows);
    }
  }

  // Which rows there are

  lemma {:induction false} RowsOfSession(bars: seq<Bar>, close: int -> int, holdout: set<int>, includeHoldout: bool,
                                         session: int, row: Row)
    ensures row in SessionRows(bars, close, holdout, includeHoldout)(session) <==>
      && (includeHoldout || session !in holdout)
      && (exists b :: b in bars && b.security == row.security)
      && [row] == RowOf(Book(bars, |bars|, row.security), close(session), row.security, session)
  {
    SecuritiesAre(bars);
    GatherHolds(Securities(bars), SecurityRow(bars, close(session), session), row);
    forall x ensures row in SecurityRow(bars, close(session), session)(x) <==>
      x == row.security && [row] == RowOf(Book(bars, |bars|, x), close(session), x, session)
    {}
  }

  /** A row is scored exactly for the listed sessions that are not sealed, or not sealed for this caller, and
      for the securities with a bar that have a score there. */
  lemma {:induction false} ScoredIff(bars: seq<Bar>, close: int -> int, sessions: seq<int>, holdout: set<int>,
                                     includeHoldout: bool, row: Row)
    ensures row in Gather(sessions, SessionRows(bars, close, holdout, includeHoldout)) <==>
      && row.session in sessions && (includeHoldout || row.session !in holdout)
      && (exists b :: b in bars && b.security == row.security)
      && [row] == RowOf(Book(bars, |bars|, row.security), close(row.session), row.security, row.session)
  {
    GatherHolds(sessions, SessionRows(bars, close, holdout, includeHoldout), row);
    forall x ensures row in SessionRows(bars, close, holdout, includeHoldout)(x) ==> x == row.session {
      RowsOfSession(bars, close, holdout, includeHoldout, x, row);
    }
    RowsOfSession(bars, close, holdout, includeHoldout, row.session, row);
  }

  // No lookahead

  /** The loader's promise: one bar for a security and a session. */
  predicate OneBarEach(bars: seq<Bar>) {
    forall i, j :: 0 <= i < j < |bars| ==> bars[i].security != bars[j].security || bars[i].session != bars[j].session
  }

  predicate OneSessionEach(book: seq<Bar>) {
    forall i, j :: 0 <= i < j < |book| ==> book[i].session != book[j].session
  }

  lemma {:induction false} PutNew(book: seq<Bar>, b: Bar)
    requires forall k :: 0 <= k < |book| ==> book[k].session != b.session
    ensures Put(book, b) == book + [b]
  {
    if book != [] {
      PutNew(book[1..], b);
    }
  }

  /** With one bar each, the book of a security is its bars, with different sessions. */
  lemma {:induction false} BookIs(bars: seq<Bar>, n: nat, security: string)
    requires n <= |bars| && OneBarEach(bars)
    ensures OneSessionEach(Book(bars, n, security))
    ensures forall b :: b in Book(bars, n, security) <==> b in bars[..n] && b.security == security
  {
    if n > 0 {
      BookIs(bars, n - 1, security);
      var book, b := Book(bars, n - 1, security), bars[n - 1];
      assert bars[..n] == bars[..n - 1] + [b];
      if b.security == security {
        forall k | 0 <= k < |book| ensures book[k].session != b.session {
          assert book[k] in bars[..n - 1];
        }
        PutNew(book, b);
      }
    }
  }

  lemma {:induction false} CloseOf(book: seq<Bar>, b: Bar)
    requires OneSessionEach(book) && b in book
    ensures CloseAt(book, b.session) == b.close
  {
    if book[0] != b {
      var k :| 0 <= k < |book| && book[k] == b;
      assert book[0].session != book[k].session;
      assert b in book[1..] by {
        assert book[1..][k - 1] == b;
      }
      CloseOf(book[1..], b);
    }
  }

  lemma {:induction false} VisibleAreUnique(book: seq<Bar>, n: nat, closeAt: int)
    requires n <= |book| && OneSessionEach(book)
    ensures Unique(Onto([], book, n, VisibleDate(closeAt)))
    ensures forall d :: d in Onto([], book, n, VisibleDate(closeAt)) ==> exists k :: 0 <= k < n && book[k].session == d
  {
    if n > 0 {
      var before := Onto([], book, n - 1, VisibleDate(closeAt));
      VisibleAreUnique(book, n - 1, closeAt);
      UniqueNext(before, book[n - 1].session);
      assert before + [] == before;
    }
  }

  /** Two books agree on what was published by `closeAt`. */
  ghost predicate SameVisible(a: seq<Bar>, b: seq<Bar>, closeAt: int) {
    forall x: Bar :: x.availableAt <= closeAt ==> (x in a <==> x in b)
  }

  lemma VisibleIff(book: seq<Bar>, closeAt: int, date: int)
    ensures date in Gather(book, VisibleDate(closeAt)) <==>
      exists b :: b in book && b.availableAt <= closeAt && b.session == date
  {
    GatherHolds(book, VisibleDate(closeAt), date);
    if b :| b in book && b.availableAt <= closeAt && b.session == date {
      assert date in VisibleDate(closeAt)(b);
    }
  }

  lemma SameVisibleDates(a: seq<Bar>, b: seq<Bar>, closeAt: int)
    requires OneSessionEach(a) && OneSessionEach(b) && SameVisible(a, b, closeAt)
    ensures VisibleDates(a, closeAt) == VisibleDates(b, closeAt)
  {
    var s, t := Gather(a, VisibleDate(closeAt)), Gather(b, VisibleDate(closeAt));
    VisibleAreUnique(a, |a|, closeAt);
    VisibleAreUnique(b, |b|, closeAt);
    forall d ensures d in s <==> d in t {
      VisibleIff(a, closeAt, d);
      VisibleIff(b, closeAt, d);
    }
    SameSetSameMultiset(s, t);
    SortIgnoresOrder(s, t, Earlier);
  }

  lemma {:induction false} SameVisibleClose(a: seq<Bar>, b: seq<Bar>, closeAt: int, k: nat)
    requires OneSessionEach(a) && OneSessionEach(b) && SameVisible(a, b, closeAt) && k < |VisibleDates(a, closeAt)|
    ensures CloseAt(a, VisibleDates(a, closeAt)[k]) == CloseAt(b, VisibleDates(a, closeAt)[k])
  {
    var s := Gather(a, VisibleDate(closeAt));
    SortBySorts(s, Earlier);
    SameElements(s, VisibleDates(a, closeAt));
    var date := VisibleDates(a, closeAt)[k];
    assert date in VisibleDates(a, closeAt);
    VisibleIff(a, closeAt, date);
    var x :| x in a && x.availableAt <= closeAt && x.session == date;
    CloseOf(a, x);
    CloseOf(b, x);
  }

  lemma SameRow(a: seq<Bar>, b: seq<Bar>, closeAt: int, security: string, session: int)
    requires OneSessionEach(a) && OneSessionEach(b) && SameVisible(a, b, closeAt)
    ensures RowOf(a, closeAt, security, session) == RowOf(b, closeAt, security, session)
  {
    var visible := VisibleDates(a, closeAt);
    SameVisibleDates(a, b, closeAt);
    if |visible| >= WINDOW {
      SameVisibleClose(a, b, closeAt, |visible| - WINDOW);
      SameVisibleClose(a, b, closeAt, |visible| - 1);
    }
  }

  lemma {:induction false} SameSecurityRow(a: seq<Bar>, b: seq<Bar>, closeAt: int, security: string, session: int)
    requires OneBarEach(a) && OneBarEach(b) && SameVisible(a, b, closeAt)
    ensures SecurityRow(a, closeAt, session)(security) == SecurityRow(b, closeAt, session)(security)
  {
    BookIs(a, |a|, security);
    BookIs(b, |b|, security);
    assert a[..|a|] == a && b[..|b|] == b;
    SameRow(Book(a, |a|, security), Book(b, |b|, security), closeAt, security, session);
  }

  /** The securities with a bar published by `closeAt`. */
  ghost function Published(bars: seq<Bar>, closeAt: int): set<string> {
    set b | b in bars && b.availableAt <= closeAt :: b.security
  }

  ghost function Kept(keep: set<string>): string -> seq<string> {
    (x: string) => if x in keep then [x] else []
  }

  lemma {:induction false} GatherSkips<U>(s: seq<string>, n: nat, keep: set<string>, f: string -> seq<U>)
    requires n <= |s| && forall x :: x !in keep ==> f(x) == []
    ensures Onto([], s, n, f) == Gather(Onto([], s, n, Kept(keep)), f)
  {
    if n > 0 {
      var kept := Onto([], s, n - 1, Kept(keep));
      GatherSkips(s, n - 1, keep, f);
      if s[n - 1] in keep {
        GatherSplits(kept, [s[n - 1]], f);
        assert Gather([s[n - 1]], f) == Onto([], [s[n - 1]], 0, f) + f(s[n - 1]);
      } else {
        assert kept + [] == kept;
        assert Onto([], s, n - 1, f) + [] == Onto([], s, n - 1, f);
      }
    }
  }

  lemma {:induction false} KeptAre(s: seq<string>, n: nat, keep: set<string>)
    requires n <= |s|
    ensures forall x :: x in Onto([], s, n, Kept(keep)) <==> x in s[..n] && x in keep
  {
    if n > 0 {
      KeptAre(s, n - 1, keep);
      assert s[..n] == s[..n - 1] + [s[n - 1]];
    }
  }

  lemma {:induction false} KeptStaysSorted(s: seq<string>, n: nat, keep: set<string>)
    requires n <= |s| && Sorted(s, Alphabetic) && Unique(s)
    ensures Sorted(Onto([], s, n, Kept(keep)), Alphabetic) && Unique(Onto([], s, n, Kept(keep)))
  {
    if n > 0 {
      var kept := Onto([], s, n - 1, Kept(keep));
      KeptStaysSorted(s, n - 1, keep);
      KeptAre(s, n - 1, keep);
      if s[n - 1] in keep {
        UniqueNext(kept, s[n - 1]);
        forall i | 0 <= i < |kept| ensures Alphabetic(kept[i], s[n - 1]) {
          assert kept[i] in s[..n - 1];
        }
      } else {
        assert kept + [] == kept;
      }
    }
  }

  lemma {:induction false} SecuritiesAre(bars: seq<Bar>)
    ensures Sorted(Securities(bars), Alphabetic) && Unique(Securities(bars))
    ensures forall x :: x in Securities(bars) <==> exists b :: b in bars && b.security == x
  {
    var all := Gather(bars, SecurityOf());
    AlphabeticIsPreorder();
    SortBySorts(Distincts(all), Alphabetic);
    SameElements(Distincts(all), Securities(bars));
    SameMultisetKeepsUnique(Distincts(all), Securities(bars));
    forall x ensures x in all <==> exists b :: b in bars && b.security == x {
      GatherHolds(bars, SecurityOf(), x);
      if b :| b in bars && b.security == x {
        assert x in SecurityOf()(b);
      }
    }
  }

  /** The published securities in order, read off the securities of any list that has them. */
  lemma {:induction false} PublishedInOrder(a: seq<Bar>, b: seq<Bar>, keep: set<string>)
    requires forall x :: x in keep ==> x in Securities(a) && x in Securities(b)
    ensures Gather(Securities(a), Kept(keep)) == Gather(Securities(b), Kept(keep))
  {
    var s, t := Securities(a), Securities(b);
    SecuritiesAre(a);
    SecuritiesAre(b);
    KeptStaysSorted(s, |s|, keep);
    KeptStaysSorted(t, |t|, keep);
    KeptAre(s, |s|, keep);
    KeptAre(t, |t|, keep);
    assert s[..|s|] == s && t[..|t|] == t;
    SameSetSameMultiset(Gather(s, Kept(keep)), Gather(t, Kept(keep)));
    forall x: string, y: string | Alphabetic(x, y) && Alphabetic(y, x) ensures x == y {
      AlphabeticIsTotal(x, y);
    }
    SortedIsUnique(Gather(s, Kept(keep)), Gather(t, Kept(keep)), Alphabetic);
  }

  lemma {:induction false} NothingPublished(bars: seq<Bar>, closeAt: int, security: string, session: int)
    requires OneBarEach(bars) && security !in Published(bars, closeAt)
    ensures SecurityRow(bars, closeAt, session)(security) == []
  {
    var book := Book(bars, |bars|, security);
    BookIs(bars, |bars|, security);
    assert bars[..|bars|] == bars;
    var dates := Gather(book, VisibleDate(closeAt));
    forall d ensures d !in dates {
      VisibleIff(book, closeAt, d);
      assert forall b :: b in book && b.availableAt <= closeAt ==> b.security in Published(bars, closeAt);
    }
    assert Set(dates) == {};
    VisibleAreUnique(book, |book|, closeAt);
    SizeOfSet(dates);
  }

  /** No lookahead: two sets of bars that agree on what was published by a session's close give
      that session the same rows, whatever later bars either of them holds. */
  lemma {:induction false} NoLookahead(a: seq<Bar>, b: seq<Bar>, close: int -> int, holdout: set<int>,
                                       includeHoldout: bool, session: int)
    requires OneBarEach(a) && OneBarEach(b) && SameVisible(a, b, close(session))
    ensures SessionRows(a, close, holdout, includeHoldout)(session) ==
      SessionRows(b, close, holdout, includeHoldout)(session)
  {
    var closeAt := close(session);
    var f, g := SecurityRow(a, closeAt, session), SecurityRow(b, closeAt, session);
    var keep := Published(a, closeAt);
    assert keep == Published(b, closeAt);
    forall x | x !in keep ensures f(x) == [] && g(x) == [] {
      NothingPublished(a, closeAt, x, session);
      NothingPublished(b, closeAt, x, session);
    }
    SecuritiesAre(a);
    SecuritiesAre(b);
    GatherSkips(Securities(a), |Securities(a)|, keep, f);
    GatherSkips(Securities(b), |Securities(b)|, keep, g);
    PublishedInOrder(a, b, keep);
    var published := Gather(Securities(a), Kept(keep));
    forall k | 0 <= k < |published| ensures f(published[k]) == g(published[k]) {
      SameSecurityRow(a, b, closeAt, published[k], session);
    }
    GatherSame(published, f, g);
  }

  lemma {:induction false} PutHolds(book: seq<Bar>, b: Bar, x: Bar)
    requires OneSessionEach(book)
    ensures x in Put(book, b) <==> x == b || (x in book && x.session != b.session)
  {
    if book != [] {
      assert book == [book[0]] + book[1..];
      if book[0].session == b.session {
        assert forall k :: 0 < k < |book| ==> book[k].session != b.session;
      } else {
        PutHolds(book[1..], b, x);
      }
    }
  }

  /** Filing a bar that was published later leaves what a session could see unchanged exactly when
      it does not repeat the date of a bar the session could see: a repeated date replaces it. */
  lemma {:induction false} LateBarIsUnseenIff(book: seq<Bar>, late: Bar, closeAt: int)
    requires OneSessionEach(book) && late.availableAt > closeAt
    ensures SameVisible(book, Put(book, late), closeAt) <==>
      !exists b :: b in book && b.session == late.session && b.availableAt <= closeAt
  {
    forall x ensures x in Put(book, late) <==> x == late || (x in book && x.session != late.session) {
      PutHolds(book, late, x);
    }
  }

  /** The visible dates after `date`. */
  ghost function Later(book: seq<Bar>, closeAt: int, date: int): set<int> {
    set b | b in book && b.availableAt <= closeAt && b.session > date :: b.session
  }

  lemma {:induction false} DatesAreVisible(book: seq<Bar>, closeAt: int)
    requires OneSessionEach(book)
    ensures Ascending(VisibleDates(book, closeAt))
    ensures forall d :: d in VisibleDates(book, closeAt) <==>
      exists b :: b in book && b.availableAt <= closeAt && b.session == d
  {
    var dates := Gather(book, VisibleDate(closeAt));
    VisibleAreUnique(book, |book|, closeAt);
    SortBySorts(dates, Earlier);
    SameElements(dates, VisibleDates(book, closeAt));
    SameMultisetKeepsUnique(dates, VisibleDates(book, closeAt));
    forall d ensures d in dates <==> exists b :: b in book && b.availableAt <= closeAt && b.session == d {
      VisibleIff(book, closeAt, d);
    }
  }

  /** A bar's place among the visible dates is the number of visible dates after it. */
  lemma {:induction false} PlaceOf(book: seq<Bar>, closeAt: int, k: nat)
    requires OneSessionEach(book) && k < |VisibleDates(book, closeAt)|
    ensures |Later(book, closeAt, VisibleDates(book, closeAt)[k])| == |VisibleDates(book, closeAt)| - 1 - k
  {
    var dates := VisibleDates(book, closeAt);
    DatesAreVisible(book, closeAt);
    var rest := dates[k + 1..];
    SizeOfSet(rest);
    forall d ensures d in Later(book, closeAt, dates[k]) <==> d in rest {
      if d in dates && d > dates[k] {
        var i :| 0 <= i < |dates| && dates[i] == d;
        assert rest[i - k - 1] == d;
      }
    }
    assert Set(rest) == Later(book, closeAt, dates[k]);
  }

  /** The bar is visible and exactly `n` visible dates come after it. */
  ghost predicate IsFromLast(book: seq<Bar>, closeAt: int, b: Bar, n: nat) {
    b in book && b.availableAt <= closeAt && |Later(book, closeAt, b.session)| == n
  }

  lemma {:induction false} FromLastIff(book: seq<Bar>, closeAt: int, b: Bar, n: nat)
    requires OneSessionEach(book) && b in book && b.availableAt <= closeAt
    ensures |Later(book, closeAt, b.session)| == n <==>
      n < |VisibleDates(book, closeAt)|
        && VisibleDates(book, closeAt)[|VisibleDates(book, closeAt)| - 1 - n] == b.session
  {
    var dates := VisibleDates(book, closeAt);
    DatesAreVisible(book, closeAt);
    assert b.session in dates;
    var k :| 0 <= k < |dates| && dates[k] == b.session;
    PlaceOf(book, closeAt, k);
    assert forall i :: 0 <= i < |dates| && dates[i] == dates[k] ==> i == k;
  }

  /** A row is there exactly when the newest visible bar and the twentieth before it exist and have
      positive closes, and those two closes are all its score depends on. */
  lemma {:induction false} RowIff(book: seq<Bar>, closeAt: int, security: string, session: int, first: Bar, last: Bar)
    requires OneSessionEach(book)
    ensures IsFromLast(book, closeAt, first, LOOKBACK) && IsFromLast(book, closeAt, last, 0) ==>
      RowOf(book, closeAt, security, session) ==
        if first.close > 0.0 && last.close > 0.0 then [Row(security, session, LogRatio(last.close, first.close))]
        else []
    ensures RowOf(book, closeAt, security, session) != [] ==>
      (exists f :: IsFromLast(book, closeAt, f, LOOKBACK)) && exists l :: IsFromLast(book, closeAt, l, 0)
  {
    var dates := VisibleDates(book, closeAt);
    DatesAreVisible(book, closeAt);
    if IsFromLast(book, closeAt, first, LOOKBACK) && IsFromLast(book, closeAt, last, 0) {
      FromLastIff(book, closeAt, first, LOOKBACK);
      FromLastIff(book, closeAt, last, 0);
      CloseOf(book, first);
      CloseOf(book, last);
    }
    if |dates| >= WINDOW {
      assert dates[|dates| - WINDOW] in dates && dates[|dates| - 1] in dates;
      var f :| f in book && f.availableAt <= closeAt && f.session == dates[|dates| - WINDOW];
      var l :| l in book && l.availableAt <= closeAt && l.session == dates[|dates| - 1];
      FromLastIff(book, closeAt, f, LOOKBACK);
      FromLastIff(book, closeAt, l, 0);
      assert IsFromLast(book, closeAt, f, LOOKBACK) && IsFromLast(book, closeAt, l, 0);
    }
  }

  // What a repeated date does to a row

  /** Filing a bar replaces the bar of its date, or adds one. */
  lemma {:induction false} PutKeepsOneEach(book: seq<Bar>, b: Bar)
    requires OneSessionEach(book)
    ensures OneSessionEach(Put(book, b))
  {
    if book != [] && book[0].session != b.session {
      var rest := Put(book[1..], b);
      PutKeepsOneEach(book[1..], b);
      forall k | 0 <= k < |rest| ensures rest[k].session != book[0].session {
        PutHolds(book[1..], b, rest[k]);
      }
    }
  }

  /** The two dates a row is computed from, of the visible ones. */
  function Window(dates: seq<int>): Option<(int, int)> {
    if |dates| < WINDOW then None else Some((dates[|dates| - WINDOW], dates[|dates| - 1]))
  }

  /** The date is among the last 21. */
  predicate InWindow(dates: seq<int>, date: int) {
    |dates| >= WINDOW && date in dates && date >= dates[|dates| - WINDOW]
  }

  lemma {:induction false} SameDates(a: seq<int>, b: seq<int>)
    requires Ascending(a) && Ascending(b) && forall d :: d in a <==> d in b
    ensures a == b
  {
    forall d ensures d in a <==> d in b {}
    SameSetSameMultiset(a, b);
    SortedIsUnique(a, b, Earlier);
  }

  lemma {:induction false} WithoutDate(dates: seq<int>, k: nat)
    requires Ascending(dates) && k < |dates|
    ensures Ascending(Without(dates, k)) && forall d :: d in Without(dates, k) <==> d in dates && d != dates[k]
  {
    forall d | d in dates && d != dates[k] ensures d in Without(dates, k) {
      var i :| 0 <= i < |dates| && dates[i] == d;
      assert Without(dates, k)[if i < k then i else i - 1] == d;
    }
  }

  /** A late bar takes a visible date it repeats away, and leaves the other dates alone. */
  lemma {:induction false} LateTakesItsDate(book: seq<Bar>, late: Bar, closeAt: int, k: nat)
    requires OneSessionEach(book) && late.availableAt > closeAt
    requires k < |VisibleDates(book, closeAt)| && VisibleDates(book, closeAt)[k] == late.session
    ensures VisibleDates(Put(book, late), closeAt) == Without(VisibleDates(book, closeAt), k)
  {
    var dates, after := VisibleDates(book, closeAt), VisibleDates(Put(book, late), closeAt);
    PutKeepsOneEach(book, late);
    DatesAreVisible(book, closeAt);
    DatesAreVisible(Put(book, late), closeAt);
    WithoutDate(dates, k);
    forall d ensures d in after <==> d in dates && d != late.session {
      if b :| b in book && b.availableAt <= closeAt && b.session == d && d != late.session {
        PutHolds(book, late, b);
      }
      if b :| b in Put(book, late) && b.availableAt <= closeAt && b.session == d {
        PutHolds(book, late, b);
      }
    }
    SameDates(after, Without(dates, k));
  }

  lemma {:induction false} UnseenKeepsDates(book: seq<Bar>, late: Bar, closeAt: int)
    requires OneSessionEach(book) && late.availableAt > closeAt && late.session !in VisibleDates(book, closeAt)
    ensures SameVisible(book, Put(book, late), closeAt)
    ensures VisibleDates(Put(book, late), closeAt) == VisibleDates(book, closeAt)
  {
    DatesAreVisible(book, closeAt);
    LateBarIsUnseenIff(book, late, closeAt);
    PutKeepsOneEach(book, late);
    SameVisibleDates(book, Put(book, late), closeAt);
  }

  lemma {:induction false} WindowMovesIff(dates: seq<int>, k: nat)
    requires Ascending(dates) && k < |dates|
    ensures Window(Without(dates, k)) != Window(dates) <==> InWindow(dates, dates[k])
  {
    var n := |dates|;
    if n > WINDOW {
      assert Without(dates, k)[n - 1 - WINDOW] == dates[if k < n - WINDOW then n - WINDOW else n - 1 - WINDOW];
      assert k < n - 1 ==> Without(dates, k)[n - 2] == dates[n - 1];
    }
  }

  /** A bar published after a session's close moves the dates its row is computed from exactly when it
      repeats a date of the window. */
  lemma {:induction false} LateBarMovesWindowIff(book: seq<Bar>, late: Bar, closeAt: int)
    requires OneSessionEach(book) && late.availableAt > closeAt
    ensures Window(VisibleDates(Put(book, late), closeAt)) != Window(VisibleDates(book, closeAt)) <==>
            InWindow(VisibleDates(book, closeAt), late.session)
  {
    var dates := VisibleDates(book, closeAt);
    if late.session in dates {
      var k :| 0 <= k < |dates| && dates[k] == late.session;
      DatesAreVisible(book, closeAt);
      LateTakesItsDate(book, late, closeAt, k);
      WindowMovesIff(dates, k);
    } else {
      UnseenKeepsDates(book, late, closeAt);
    }
  }

  lemma {:induction false} OtherClosesStay(book: seq<Bar>, late: Bar, date: int)
    requires OneSessionEach(book) && date != late.session
    ensures CloseAt(Put(book, late), date) == CloseAt(book, date)
  {
    if book != [] && book[0].session != late.session {
      OtherClosesStay(book[1..], late, date);
    }
  }

  lemma {:induction false} EndsDiffer(dates: seq<int>, late: int)
    requires Ascending(dates) && |dates| >= WINDOW && !InWindow(dates, late) && late in dates
    ensures dates[|dates| - WINDOW] != late && dates[|dates| - 1] != late
  {
    assert dates[|dates| - WINDOW] in dates && dates[|dates| - 1] in dates;
  }

  lemma {:induction false} RowOfWindow(book: seq<Bar>, late: Bar, closeAt: int, security: string, session: int)
    requires var dates, after := VisibleDates(book, closeAt), VisibleDates(Put(book, late), closeAt);
      && Window(after) == Window(dates)
      && (|dates| >= WINDOW ==> dates[|dates| - WINDOW] != late.session && dates[|dates| - 1] != late.session)
    requires OneSessionEach(book)
    ensures RowOf(Put(book, late), closeAt, security, session) == RowOf(book, closeAt, security, session)
  {
    var dates := VisibleDates(book, closeAt);
    if |dates| >= WINDOW {
      OtherClosesStay(book, late, dates[|dates| - WINDOW]);
      OtherClosesStay(book, late, dates[|dates| - 1]);
    }
  }

  /** A row changes with a bar published after its session's close only if the bar repeats a date of
      the window. */
  lemma {:induction false} LateBarOutsideWindow(book: seq<Bar>, late: Bar, closeAt: int, security: string, session: int)
    requires OneSessionEach(book) && late.availableAt > closeAt && !InWindow(VisibleDates(book, closeAt), late.session)
    ensures RowOf(Put(book, late), closeAt, security, session) == RowOf(book, closeAt, security, session)
  {
    var dates := VisibleDates(book, closeAt);
    if late.session !in dates {
      UnseenKeepsDates(book, late, closeAt);
      PutKeepsOneEach(book, late);
      SameRow(book, Put(book, late), closeAt, security, session);
    } else {
      LateBarMovesWindowIff(book, late, closeAt);
      DatesAreVisible(book, closeAt);
      if |dates| >= WINDOW {
        EndsDiffer(dates, late.session);
      }
      RowOfWindow(book, late, closeAt, security, session);
    }
  }

  /** With no older visible date to step back to, a repeated date takes the row away. */
  lemma {:induction false} LateBarTakesTheLastRow(book: seq<Bar>, late: Bar, closeAt: int, security: string,
                                                  session: int)
    requires OneSessionEach(book) && late.availableAt > closeAt && InWindow(VisibleDates(book, closeAt), late.session)
    requires |VisibleDates(book, closeAt)| == WINDOW
    ensures RowOf(Put(book, late), closeAt, security, session) == []
  {
    var dates := VisibleDates(book, closeAt);
    var k :| 0 <= k < |dates| && dates[k] == late.session;
    LateTakesItsDate(book, late, closeAt, k);
  }

  lemma {:induction false} BookPrefix(bars: seq<Bar>, late: Bar, n: nat, security: string)
    requires n <= |bars|
    ensures Book(bars + [late], n, security) == Book(bars, n, security)
  {
    if n > 0 {
      BookPrefix(bars, late, n - 1, security);
    }
  }

  /** The same of the bars as they are given: one more bar, published after the close, leaves every
      security's row alone unless it repeats a date of its security's window. */
  lemma {:induction false} LateBarKeepsRows(bars: seq<Bar>, late: Bar, closeAt: int, session: int, security: string)
    requires OneBarEach(bars) && late.availableAt > closeAt
    requires security == late.security ==> !InWindow(VisibleDates(Book(bars, |bars|, security), closeAt), late.session)
    ensures SecurityRow(bars + [late], closeAt, session)(security) == SecurityRow(bars, closeAt, session)(security)
  {
    BookPrefix(bars, late, |bars|, security);
    BookIs(bars, |bars|, security);
    if security == late.security {
      LateBarOutsideWindow(Book(bars, |bars|, security), late, closeAt, security, session);
    }
  }

  /** One security with a bar for every day `0 .. n - 1`, each published at once. */
  function Daily(n: nat): seq<Bar> {
    if n == 0 then [] else Daily(n - 1) + [Bar("A", n - 1, n - 1, 1.0)]
  }

  lemma {:induction false} DailyBook(n: nat, m: nat)
    requires m <= n
    ensures |Daily(n)| == n && OneBarEach(Daily(n)) && Book(Daily(n), m, "A") == Daily(m)
    ensures forall k :: 0 <= k < n ==> Daily(n)[k] == Bar("A", k, k, 1.0)
  {
    if n > 0 {
      DailyBook(n - 1, if m == n then m - 1 else m);
      BookPrefix(Daily(n - 1), Bar("A", n - 1, n - 1, 1.0), if m == n then m - 1 else m, "A");
      if m == n {
        PutNew(Daily(n - 1), Bar("A", n - 1, n - 1, 1.0));
      }
    }
  }

  function Days(n: nat): seq<int> {
    if n == 0 then [] else Days(n - 1) + [n - 1]
  }

  lemma {:induction false} DaysAre(n: nat)
    ensures |Days(n)| == n && Ascending(Days(n)) && forall k :: 0 <= k < n ==> Days(n)[k] == k
  {
    if n > 0 {
      DaysAre(n - 1);
    }
  }

  lemma {:induction false} DailySessions(n: nat, d: int)
    ensures (exists b :: b in Daily(n) && b.availableAt <= n - 1 && b.session == d) <==> d in Days(n)
  {
    DailyBook(n, n);
    DaysAre(n);
    if b :| b in Daily(n) && b.session == d {
      var k :| 0 <= k < n && Daily(n)[k] == b;
      assert Days(n)[k] == d;
    }
    if d in Days(n) {
      assert Daily(n)[d] in Daily(n);
    }
  }

  lemma {:induction false} DailyIsOneEach(n: nat)
    ensures OneSessionEach(Daily(n))
  {
    DailyBook(n, n);
  }

  lemma {:induction false} DailyDates(n: nat)
    ensures VisibleDates(Daily(n), n - 1) == Days(n)
  {
    var dates := VisibleDates(Daily(n), n - 1);
    DailyIsOneEach(n);
    DatesAreVisible(Daily(n), n - 1);
    DaysAre(n);
    forall d ensures d in dates <==> d in Days(n) {
      DailySessions(n, d);
    }
    SameDates(dates, Days(n));
  }

  lemma {:induction false} DailyRow(n: nat)
    requires n == WINDOW
    ensures RowOf(Daily(n), n - 1, "A", n - 1) == [Row("A", n - 1, LogRatio(1.0, 1.0))]
  {
    var bars := Daily(n);
    DailyBook(n, n);
    BookIs(bars, n, "A");
    DailyDates(n);
    DaysAre(n);
    CloseOf(bars, bars[0]);
    CloseOf(bars, bars[n - 1]);
  }

  /** A look ahead: after 21 daily bars the security has its row at the last day; any later bar that
      repeats one of those days, and that nobody could see at that day's close, takes the row away. */
  lemma {:induction false} LateBarTakesRow(n: nat, day: int, availableAt: int, price: real)
    requires n == WINDOW && 0 <= day < n <= availableAt
    ensures SecurityRow(Daily(n), n - 1, n - 1)("A") == [Row("A", n - 1, LogRatio(1.0, 1.0))]
    ensures SecurityRow(Daily(n) + [Bar("A", day, availableAt, price)], n - 1, n - 1)("A") == []
  {
    var bars, late := Daily(n), Bar("A", day, availableAt, price);
    DailyBook(n, n);
    DailyRow(n);
    BookIs(bars, n, "A");
    DailyDates(n);
    DaysAre(n);
    assert Days(n)[day] in Days(n);
    BookPrefix(bars, late, n, "A");
    LateBarTakesTheLastRow(bars, late, n - 1, "A", n - 1);
  }
}
