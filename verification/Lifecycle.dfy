/**
 A series of point-in-time contract masters of one underlying: what is born and dies between two
 of them, and when and how often each contract is seen.
 */
module Lifecycle {
  import opened Options
  import opened Ordering

  datatype Contract = Contract(ticker: string, expiration: int)

  datatype Master = Master(asOf: int, contracts: seq<Contract>)

  function TickerOf(): Contract -> seq<string> {
    (c: Contract) => [c.ticker]
  }

  function Tickers(m: Master): seq<string> {
    Gather(m.contracts, TickerOf())
  }

  /** The loader refuses a master that lists a ticker twice. */
  predicate Loaded(m: Master) {
    Unique(Tickers(m))
  }

  /** Masters of one underlying, as the report sorts and checks them. */
  predicate Series(masters: seq<Master>) {
    && (forall k :: 0 <= k < |masters| ==> Loaded(masters[k]))
    && forall j, k :: 0 <= j < k < |masters| ==> masters[j].asOf < masters[k].asOf
  }

  predicate ByDate(a: Master, b: Master) {
    a.asOf <= b.asOf
  }

  /** The group is sorted by date, and refused when two masters share one. */
  method SortSeries(group: seq<Master>) returns (r: Option<seq<Master>>)
    requires forall m :: m in group ==> Loaded(m)
    ensures r.Some? <==> forall j, k :: 0 <= j < k < |group| ==> group[j].asOf != group[k].asOf
    ensures r.Some? ==> Series(r.value) && multiset(r.value) == multiset(group)
  {
    var sorted := SortBy(group, ByDate);
    SortBySorts(group, ByDate);
    SameElements(group, sorted);
    DatesOfSorted(group, sorted);
    var seen: set<int> := {};
    for i := 0 to |sorted|
      invariant Unique(Onto([], sorted, i, AsOf()))
      invariant forall d :: d in seen <==> d in Onto([], sorted, i, AsOf())
    {
      UniqueNext(Onto([], sorted, i, AsOf()), sorted[i].asOf);
      if sorted[i].asOf in seen {
        PrefixNotUnique(sorted, i + 1);
        return None;
      }
      seen := seen + {sorted[i].asOf};
    }
    AsOfIsAt(sorted, |sorted|);
    return Some(sorted);
  }

  function AsOf(): Master -> seq<int> {
    (m: Master) => [m.asOf]
  }

  lemma {:induction false} AsOfIsAt(masters: seq<Master>, n: nat)
    requires n <= |masters|
    ensures |Onto([], masters, n, AsOf())| == n
    ensures forall k :: 0 <= k < n ==> Onto([], masters, n, AsOf())[k] == masters[k].asOf
  {
    if n > 0 {
      AsOfIsAt(masters, n - 1);
    }
  }

  lemma {:induction false} PrefixNotUnique(masters: seq<Master>, n: nat)
    requires n <= |masters| && !Unique(Onto([], masters, n, AsOf()))
    ensures !Unique(Gather(masters, AsOf()))
  {
    AsOfIsAt(masters, n);
    AsOfIsAt(masters, |masters|);
    var part, all := Onto([], masters, n, AsOf()), Gather(masters, AsOf());
    var i, j :| 0 <= i < j < n && part[i] == part[j];
    assert all[i] == all[j];
  }

  lemma {:induction false} DatesOfSorted(group: seq<Master>, sorted: seq<Master>)
    requires multiset(group) == multiset(sorted)
    ensures Unique(Gather(sorted, AsOf())) <==> forall j, k :: 0 <= j < k < |group| ==> group[j].asOf != group[k].asOf
  {
    var a, b := Gather(group, AsOf()), Gather(sorted, AsOf());
    GatherIgnoresOrder(group, sorted, AsOf());
    AsOfIsAt(group, |group|);
    if Unique(a) { SameMultisetKeepsUnique(a, b); }
    if Unique(b) { SameMultisetKeepsUnique(b, a); }
    assert Unique(a) <==> forall j, k :: 0 <= j < k < |group| ==> group[j].asOf != group[k].asOf;
  }

  // Slices

  datatype Slice = Slice(size: nat, births: Option<nat>, deaths: Option<nat>, born: seq<string>,
                         diedExpired: seq<string>, diedActive: seq<string>)

  /** The tickers of contracts that `other` does not list. */
  function AbsentFrom(other: Master): Contract -> seq<string> {
    (c: Contract) => if c.ticker in Tickers(other) then [] else [c.ticker]
  }

  function Gone(other: Master, expired: bool): Contract -> seq<string> {
    (c: Contract) => if c.ticker !in Tickers(other) && (expired <==> c.expiration <= other.asOf) then [c.ticker] else []
  }

  /** `_slice`: births and deaths against the previous master. */
  function SliceOf(m: Master, previous: Option<Master>): Slice {
    match previous
    case None => Slice(|m.contracts|, None, None, [], [], [])
    case Some(prior) =>
      var born := SortBy(Gather(m.contracts, AbsentFrom(prior)), Alphabetic);
      var gone := SortBy(Gather(prior.contracts, AbsentFrom(m)), Alphabetic);
      Slice(|m.contracts|, Some(|born|), Some(|gone|), born,
            SortBy(Gather(prior.contracts, Gone(m, true)), Alphabetic),
            SortBy(Gather(prior.contracts, Gone(m, false)), Alphabetic))
  }

  /** The slice of master `k`, against the one before it. */
  function SliceAt(masters: seq<Master>, k: nat): Slice
    requires k < |masters|
  {
    SliceOf(masters[k], if k == 0 then None else Some(masters[k - 1]))
  }

  lemma {:induction false} TickersAreCounted(m: Master, n: nat)
    requires n <= |m.contracts|
    ensures |Onto([], m.contracts, n, TickerOf())| == n
    ensures forall k :: 0 <= k < n ==> Onto([], m.contracts, n, TickerOf())[k] == m.contracts[k].ticker
  {
    if n > 0 {
      TickersAreCounted(m, n - 1);
    }
  }

  lemma {:induction false} AbsentAre(m: Master, other: Master, n: nat)
    requires n <= |m.contracts| && Unique(Onto([], m.contracts, n, TickerOf()))
    ensures var absent := Onto([], m.contracts, n, AbsentFrom(other));
      Unique(absent) && Set(absent) == Set(Onto([], m.contracts, n, TickerOf())) - Set(Tickers(other))
  {
    if n > 0 {
      var c := m.contracts[n - 1];
      var before, absent := Onto([], m.contracts, n - 1, TickerOf()), Onto([], m.contracts, n - 1, AbsentFrom(other));
      UniqueNext(before, c.ticker);
      AbsentAre(m, other, n - 1);
      UniqueNext(absent, c.ticker);
      assert absent + [] == absent;
      assert Set(before + [c.ticker]) == Set(before) + {c.ticker};
      assert Set(absent + [c.ticker]) == Set(absent) + {c.ticker};
      assert c.ticker in absent ==> c.ticker in Set(absent);
    }
  }

  lemma SetSizes(a: set<string>, b: set<string>)
    ensures |a - b| == |a| - |a * b|
  {
    assert a == (a - b) + a * b;
  }

  lemma AbsentCount(m: Master, other: Master)
    requires Loaded(m)
    ensures |Gather(m.contracts, AbsentFrom(other))| == |m.contracts| - |Set(Tickers(m)) * Set(Tickers(other))|
  {
    AbsentAre(m, other, |m.contracts|);
    SizeOfSet(Gather(m.contracts, AbsentFrom(other)));
    SizeOfSet(Tickers(m));
    SetSizes(Set(Tickers(m)), Set(Tickers(other)));
    TickersAreCounted(m, |m.contracts|);
  }

  lemma {:induction false} SortKeeps(s: seq<string>)
    ensures |SortBy(s, Alphabetic)| == |s| && forall x :: x in SortBy(s, Alphabetic) <==> x in s
  {
    AlphabeticIsPreorder();
    SortBySorts(s, Alphabetic);
    SameElements(s, SortBy(s, Alphabetic));
  }

  /** The next universe is the last one plus the births minus the deaths. */
  lemma BirthsLessDeaths(m: Master, prior: Master)
    requires Loaded(m) && Loaded(prior)
    ensures var s := SliceOf(m, Some(prior));
      && s.births.Some? && s.deaths.Some? && s.size == |prior.contracts| + s.births.value - s.deaths.value
      && forall t :: t in s.born <==> t in Tickers(m) && t !in Tickers(prior)
  {
    AbsentAre(m, prior, |m.contracts|);
    assert forall t :: t in Gather(m.contracts, AbsentFrom(prior)) <==>
      t in Set(Gather(m.contracts, AbsentFrom(prior)));
    AbsentCount(m, prior);
    AbsentCount(prior, m);
    SortKeeps(Gather(m.contracts, AbsentFrom(prior)));
    SortKeeps(Gather(prior.contracts, AbsentFrom(m)));
    assert Set(Tickers(m)) * Set(Tickers(prior)) == Set(Tickers(prior)) * Set(Tickers(m));
  }

  lemma {:induction false} GoneSplit(prior: Master, m: Master, n: nat)
    requires n <= |prior.contracts|
    ensures |Onto([], prior.contracts, n, AbsentFrom(m))|
         == |Onto([], prior.contracts, n, Gone(m, true))| + |Onto([], prior.contracts, n, Gone(m, false))|
  {
    if n > 0 {
      GoneSplit(prior, m, n - 1);
    }
  }

  /** `m` no longer lists the ticker of a contract of `prior` that has expired by then, or has not. */
  ghost predicate Died(prior: Master, m: Master, ticker: string, expired: bool) {
    ticker !in Tickers(m)
    && exists c :: c in prior.contracts && c.ticker == ticker && (expired <==> c.expiration <= m.asOf)
  }

  /** Every death is either an expiry or an active delisting, and never both. */
  lemma DeathsSplit(m: Master, prior: Master, ticker: string)
    requires Loaded(m) && Loaded(prior)
    ensures var s := SliceOf(m, Some(prior));
      && s.deaths.value == |s.diedExpired| + |s.diedActive|
      && (ticker in s.diedExpired <==> Died(prior, m, ticker, true))
      && (ticker in s.diedActive <==> Died(prior, m, ticker, false))
      && !(ticker in s.diedExpired && ticker in s.diedActive)
  {
    SortKeeps(Gather(prior.contracts, AbsentFrom(m)));
    SortKeeps(Gather(prior.contracts, Gone(m, true)));
    SortKeeps(Gather(prior.contracts, Gone(m, false)));
    GoneSplit(prior, m, |prior.contracts|);
    GoneIff(prior, m, true, ticker);
    GoneIff(prior, m, false, ticker);
    forall c, d | c in prior.contracts && d in prior.contracts && c.ticker == d.ticker ensures c == d {
      SameTickerSameContract(prior, c, d);
    }
  }

  lemma GoneIff(prior: Master, m: Master, expired: bool, ticker: string)
    ensures ticker in Gather(prior.contracts, Gone(m, expired)) <==> Died(prior, m, ticker, expired)
  {
    GatherHolds(prior.contracts, Gone(m, expired), ticker);
    if Died(prior, m, ticker, expired) {
      var c :| c in prior.contracts && c.ticker == ticker && (expired <==> c.expiration <= m.asOf);
      assert ticker in Gone(m, expired)(c);
    }
  }

  lemma SameTickerSameContract(m: Master, c: Contract, d: Contract)
    requires Loaded(m) && c in m.contracts && d in m.contracts && c.ticker == d.ticker
    ensures c == d
  {
    TickersAreCounted(m, |m.contracts|);
    var i :| 0 <= i < |m.contracts| && m.contracts[i] == c;
    var j :| 0 <= j < |m.contracts| && m.contracts[j] == d;
    assert Tickers(m)[i] == Tickers(m)[j];
  }

  ghost function TotalBirths(masters: seq<Master>, n: nat): int
    requires 0 < n <= |masters|
  {
    if n == 1 then 0 else TotalBirths(masters, n - 1) + |SliceAt(masters, n - 1).born|
  }

  ghost function TotalDeaths(masters: seq<Master>, n: nat): int
    requires 0 < n <= |masters|
  {
    if n == 1 then 0 else
      TotalDeaths(masters, n - 1) + |SliceAt(masters, n - 1).diedExpired| + |SliceAt(masters, n - 1).diedActive|
  }

  /** Over a whole series the universe is the first one plus all births minus all deaths. */
  lemma {:induction false} UniverseBalance(masters: seq<Master>, n: nat)
    requires Series(masters) && 0 < n <= |masters|
    ensures SliceAt(masters, n - 1).size == SliceAt(masters, 0).size + TotalBirths(masters, n) - TotalDeaths(masters, n)
  {
    if n > 1 {
      UniverseBalance(masters, n - 1);
      BirthsLessDeaths(masters[n - 1], masters[n - 2]);
      DeathsSplit(masters[n - 1], masters[n - 2], "");
    }
  }

  // The lifecycle of a contract

  /** What the three dictionaries hold for a ticker. */
  datatype Seen = Seen(first: int, last: int, count: nat)

  datatype Entry = Entry(ticker: string, seen: Seen)

  type Book = map<string, Seen>

  function Lookup(book: Book, ticker: string): Option<Seen> {
    if ticker in book then Some(book[ticker]) else None
  }

  /** `setdefault` of the first date, assignment of the last, increment of the count. */
  function Extend(s: Option<Seen>, asOf: int): Seen {
    match s
    case None => Seen(asOf, asOf, 1)
    case Some(was) => Seen(was.first, asOf, was.count + 1)
  }

  /** What the first `n` masters leave for a ticker. */
  function Listed(masters: seq<Master>, n: nat, ticker: string): Option<Seen>
    requires n <= |masters|
  {
    if n == 0 then None
    else if ticker in Tickers(masters[n - 1]) then Some(Extend(Listed(masters, n - 1, ticker), masters[n - 1].asOf))
    else Listed(masters, n - 1, ticker)
  }

  /** How many of the first `n` masters list the ticker. */
  function Listings(masters: seq<Master>, n: nat, ticker: string): nat
    requires n <= |masters|
  {
    if n == 0 then 0 else Listings(masters, n - 1, ticker) + if ticker in Tickers(masters[n - 1]) then 1 else 0
  }

  /** A contract's entry counts the masters that list it, and spans exactly the least and the
      greatest of their dates. */
  lemma {:induction false} ListedSpans(masters: seq<Master>, n: nat, ticker: string)
    requires Series(masters) && n <= |masters|
    ensures Listed(masters, n, ticker).None? <==> Listings(masters, n, ticker) == 0
    ensures Listed(masters, n, ticker).Some? ==>
      var s := Listed(masters, n, ticker).value;
      && s.count == Listings(masters, n, ticker)
      && (exists k :: 0 <= k < n && ticker in Tickers(masters[k]) && masters[k].asOf == s.first)
      && (exists k :: 0 <= k < n && ticker in Tickers(masters[k]) && masters[k].asOf == s.last)
    ensures forall k :: 0 <= k < n && ticker in Tickers(masters[k]) ==>
      Listed(masters, n, ticker).Some?
      && Listed(masters, n, ticker).value.first <= masters[k].asOf <= Listed(masters, n, ticker).value.last
  {
    if n > 0 {
      ListedSpans(masters, n - 1, ticker);
    }
  }

  lemma {:induction false} NewTicker(m: Master, j: nat)
    requires Loaded(m) && j < |m.contracts|
    ensures m.contracts[j].ticker !in Onto([], m.contracts, j, TickerOf())
  {
    var done := Onto([], m.contracts, j, TickerOf());
    TickersAreCounted(m, j);
    TickersAreCounted(m, |m.contracts|);
    forall k | 0 <= k < j ensures done[k] != m.contracts[j].ticker {
      assert Tickers(m)[k] != Tickers(m)[j];
    }
  }

  /** What the first `n` masters and the first `j` contracts of the next one leave for a ticker. */
  function ListedSoFar(masters: seq<Master>, n: nat, j: nat, ticker: string): Option<Seen>
    requires n < |masters| && j <= |masters[n].contracts|
  {
    if ticker in Onto([], masters[n].contracts, j, TickerOf()) then
      Some(Extend(Listed(masters, n, ticker), masters[n].asOf))
    else Listed(masters, n, ticker)
  }

  lemma {:induction false} ListedNext(masters: seq<Master>, n: nat, j: nat)
    requires n < |masters| && Loaded(masters[n]) && j < |masters[n].contracts|
    ensures var u := masters[n].contracts[j].ticker;
      forall t :: ListedSoFar(masters, n, j + 1, t) ==
        (if t == u then Some(Extend(ListedSoFar(masters, n, j, t), masters[n].asOf)) else ListedSoFar(masters, n, j, t))
  {
    NewTicker(masters[n], j);
    assert Onto([], masters[n].contracts, j + 1, TickerOf())
      == Onto([], masters[n].contracts, j, TickerOf()) + [masters[n].contracts[j].ticker];
  }

  /** One master of `_lifecycle`'s loop. */
  method AddMaster(masters: seq<Master>, n: nat, before: Book, orderBefore: seq<string>)
    returns (book: Book, order: seq<string>)
    requires Series(masters) && n < |masters|
    requires Unique(orderBefore) && forall t :: t in orderBefore <==> t in before
    requires forall t :: Lookup(before, t) == Listed(masters, n, t)
    ensures Unique(order) && forall t :: t in order <==> t in book
    ensures forall t :: Lookup(book, t) == Listed(masters, n + 1, t)
  {
    book, order := before, orderBefore;
    var m := masters[n];
    for j := 0 to |m.contracts|
      invariant Unique(order) && forall t :: t in order <==> t in book
      invariant forall t :: Lookup(book, t) == ListedSoFar(masters, n, j, t)
    {
      var t := m.contracts[j].ticker;
      ListedNext(masters, n, j);
      if t !in book {
        UniqueNext(order, t);
        order := order + [t];
      }
      ghost var was := book;
      book := book[t := Extend(Lookup(book, t), m.asOf)];
      forall u ensures Lookup(book, u) == ListedSoFar(masters, n, j + 1, u) {
        assert Lookup(was, u) == ListedSoFar(masters, n, j, u);
      }
    }
  }

  datatype Lifecycle = Lifecycle(asOfs: nat, fullSpan: nat, entries: seq<Entry>)

  /** The entries whose contract every master lists. */
  ghost function FullSpan(entries: seq<Entry>, asOfs: nat): set<nat> {
    set k: nat | k < |entries| && entries[k].seen.count == asOfs
  }

  lemma FullSpanNext(entries: seq<Entry>, e: Entry, asOfs: nat)
    ensures |FullSpan(entries + [e], asOfs)| == |FullSpan(entries, asOfs)| + if e.seen.count == asOfs then 1 else 0
  {
    assert FullSpan(entries + [e], asOfs) ==
      FullSpan(entries, asOfs) + if e.seen.count == asOfs then {|entries|} else {};
  }

  /** One entry per ticker, and how many of them every master lists. */
  method MakeEntries(tickers: seq<string>, book: Book, asOfs: nat) returns (entries: seq<Entry>, fullSpan: nat)
    requires forall k :: 0 <= k < |tickers| ==> tickers[k] in book
    ensures |entries| == |tickers| && fullSpan == |FullSpan(entries, asOfs)|
    ensures forall k :: 0 <= k < |tickers| ==> entries[k] == Entry(tickers[k], book[tickers[k]])
  {
    entries, fullSpan := [], 0;
    for k := 0 to |tickers|
      invariant |entries| == k && fullSpan == |FullSpan(entries, asOfs)|
      invariant forall i :: 0 <= i < k ==> entries[i] == Entry(tickers[i], book[tickers[i]])
    {
      var e := Entry(tickers[k], book[tickers[k]]);
      FullSpanNext(entries, e, asOfs);
      if e.seen.count == asOfs {
        fullSpan := fullSpan + 1;
      }
      entries := entries + [e];
    }
  }

  /** `_lifecycle`: the dictionaries, then one entry for every ticker ever listed, sorted, and the
      number of contracts that every master lists. */
  method TraceLifecycle(masters: seq<Master>) returns (r: Lifecycle, ghost tickers: seq<string>)
    requires Series(masters)
    ensures r.asOfs == |masters| && |r.entries| == |tickers| && r.fullSpan == |FullSpan(r.entries, |masters|)|
    ensures Unique(tickers) && Sorted(tickers, Alphabetic)
    ensures forall t :: t in tickers <==> Listed(masters, |masters|, t).Some?
    ensures forall k :: 0 <= k < |tickers| ==>
      r.entries[k].ticker == tickers[k] && Some(r.entries[k].seen) == Listed(masters, |masters|, tickers[k])
  {
    var book: Book, order := map[], [];
    for n := 0 to |masters|
      invariant Unique(order) && forall t :: t in order <==> t in book
      invariant forall t :: Lookup(book, t) == Listed(masters, n, t)
    {
      book, order := AddMaster(masters, n, book, order);
    }
    var sorted := SortBy(order, Alphabetic);
    SortedOrder(order);
    var entries, fullSpan := MakeEntries(sorted, book, |masters|);
    forall k | 0 <= k < |sorted| ensures Some(entries[k].seen) == Listed(masters, |masters|, sorted[k]) {
      assert Lookup(book, sorted[k]) == Some(entries[k].seen);
    }
    forall t ensures t in sorted <==> Listed(masters, |masters|, t).Some? {
      assert Lookup(book, t).Some? <==> t in order;
    }
    r, tickers := Lifecycle(|masters|, fullSpan, entries), sorted;
  }

  lemma {:induction false} SortedOrder(order: seq<string>)
    requires Unique(order)
    ensures var sorted := SortBy(order, Alphabetic);
      Unique(sorted) && Sorted(sorted, Alphabetic) && (forall t :: t in sorted <==> t in order)
      && forall k :: 0 <= k < |sorted| ==> sorted[k] in order
  {
    SortKeeps(order);
    AlphabeticIsPreorder();
    SortBySorts(order, Alphabetic);
    SameMultisetKeepsUnique(order, SortBy(order, Alphabetic));
    forall k | 0 <= k < |SortBy(order, Alphabetic)| ensures SortBy(order, Alphabetic)[k] in order {
      assert SortBy(order, Alphabetic)[k] in SortBy(order, Alphabetic);
    }
  }

  // Counts add up to rows

  ghost function SumOfListings(masters: seq<Master>, n: nat, tickers: seq<string>, k: nat): nat
    requires n <= |masters| && k <= |tickers|
  {
    if k == 0 then 0 else SumOfListings(masters, n, tickers, k - 1) + Listings(masters, n, tickers[k - 1])
  }

  function Rows(masters: seq<Master>, n: nat): nat
    requires n <= |masters|
  {
    if n == 0 then 0 else Rows(masters, n - 1) + |masters[n - 1].contracts|
  }

  /** The elements of a list that lie in a set. */
  ghost function Within(tickers: seq<string>, k: nat, s: set<string>): nat
    requires k <= |tickers|
  {
    if k == 0 then 0 else Within(tickers, k - 1, s) + if tickers[k - 1] in s then 1 else 0
  }

  lemma {:induction false} WithinNext(tickers: seq<string>, k: nat, s: set<string>)
    requires 0 < k <= |tickers| && Unique(tickers)
    ensures |Set(tickers[..k]) * s| == |Set(tickers[..k - 1]) * s| + if tickers[k - 1] in s then 1 else 0
  {
    var t := tickers[k - 1];
    assert t !in Set(tickers[..k - 1]);
    assert tickers[..k] == tickers[..k - 1] + [t];
    assert Set(tickers[..k]) * s == Set(tickers[..k - 1]) * s + if t in s then {t} else {};
  }

  lemma {:induction false} WithinNone(tickers: seq<string>, s: set<string>)
    ensures |Set(tickers[..0]) * s| == 0
  {
    assert Set(tickers[..0]) * s == {};
  }

  lemma {:induction false} WithinSize(tickers: seq<string>, k: nat, s: set<string>)
    requires k <= |tickers| && Unique(tickers)
    ensures Within(tickers, k, s) == |Set(tickers[..k]) * s|
  {
    WithinNone(tickers, s);
    if k > 0 {
      WithinSize(tickers, k - 1, s);
      WithinNext(tickers, k, s);
    }
  }

  lemma {:induction false} SumSplits(masters: seq<Master>, n: nat, tickers: seq<string>, k: nat)
    requires n < |masters| && k <= |tickers|
    ensures SumOfListings(masters, n + 1, tickers, k)
         == SumOfListings(masters, n, tickers, k) + Within(tickers, k, Set(Tickers(masters[n])))
  {
    if k > 0 {
      SumSplits(masters, n, tickers, k - 1);
    }
  }

  lemma {:induction false} NoListings(masters: seq<Master>, tickers: seq<string>, k: nat)
    requires k <= |tickers|
    ensures SumOfListings(masters, 0, tickers, k) == 0
  {
    if k > 0 {
      NoListings(masters, tickers, k - 1);
    }
  }

  /** The per-ticker counts add up to the contract rows of the series. */
  lemma {:induction false} CountsAddUpToRows(masters: seq<Master>, n: nat, tickers: seq<string>)
    requires Series(masters) && n <= |masters| && Unique(tickers)
    requires forall k, t :: 0 <= k < n && t in Tickers(masters[k]) ==> t in tickers
    ensures SumOfListings(masters, n, tickers, |tickers|) == Rows(masters, n)
  {
    if n == 0 {
      NoListings(masters, tickers, |tickers|);
    } else {
      var listed := Tickers(masters[n - 1]);
      CountsAddUpToRows(masters, n - 1, tickers);
      SumSplits(masters, n - 1, tickers, |tickers|);
      WithinSize(tickers, |tickers|, Set(listed));
      assert tickers[..|tickers|] == tickers;
      assert Set(tickers) * Set(listed) == Set(listed);
      SizeOfSet(listed);
      TickersAreCounted(masters[n - 1], |masters[n - 1].contracts|);
    }
  }

  function TotalCount(entries: seq<Entry>, k: nat): nat
    requires k <= |entries|
  {
    if k == 0 then 0 else TotalCount(entries, k - 1) + entries[k - 1].seen.count
  }

  lemma {:induction false} TotalIsSum(entries: seq<Entry>, masters: seq<Master>, tickers: seq<string>, k: nat)
    requires Series(masters) && k <= |entries| == |tickers|
    requires forall i :: 0 <= i < |tickers| ==> Some(entries[i].seen) == Listed(masters, |masters|, tickers[i])
    ensures TotalCount(entries, k) == SumOfListings(masters, |masters|, tickers, k)
  {
    if k > 0 {
      TotalIsSum(entries, masters, tickers, k - 1);
      ListedSpans(masters, |masters|, tickers[k - 1]);
    }
  }

  /** Whatever lifecycle is traced, its counts add up to the contract rows of the series. */
  lemma {:induction false} LifecycleKeepsRows(masters: seq<Master>, entries: seq<Entry>, tickers: seq<string>)
    requires Series(masters) && Unique(tickers) && |entries| == |tickers|
    requires forall t :: t in tickers <==> Listed(masters, |masters|, t).Some?
    requires forall i :: 0 <= i < |tickers| ==> Some(entries[i].seen) == Listed(masters, |masters|, tickers[i])
    ensures TotalCount(entries, |entries|) == Rows(masters, |masters|)
  {
    TotalIsSum(entries, masters, tickers, |tickers|);
    forall k, t | 0 <= k < |masters| && t in Tickers(masters[k]) ensures t in tickers {
      ListedSpans(masters, |masters|, t);
    }
    CountsAddUpToRows(masters, |masters|, tickers);
  }
}
