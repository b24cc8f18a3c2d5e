/**
 The at-the-money grid: in every captured master and every expiry of the band, the contracts on
 the strikes nearest to spot, each ticker once over the whole run, cut to the cap.
 */
module AtmGrid {
  import opened Ordering
  import opened Options

  datatype Contract = Contract(strike: real, kind: string, ticker: string)

  /** A vendor row: an unreadable date or contract makes it a row that is skipped. */
  datatype Row = Row(expiration: Option<int>, contract: Option<Contract>)

  datatype Master = Master(underlying: string, asOf: int, pages: seq<seq<Row>>)

  datatype Pick = Pick(ticker: string, asOf: int, expiration: int)

  /** `wanted` decides which expiries are monthlies; `spot` holds the closes captured so far. */
  datatype Params = Params(dteMin: int, dteMax: int, band: nat, callsOnly: bool, wanted: int -> bool,
                           spot: map<(string, int), real>)

  // Orders

  /** Masters by name, then date. */
  predicate MasterOrder(a: Master, b: Master) {
    Alphabetic(a.underlying, b.underlying) && (a.underlying == b.underlying ==> a.asOf <= b.asOf)
  }

  function Distance(strike: real, anchor: real): real {
    if strike < anchor then anchor - strike else strike - anchor
  }

  predicate Closer(s: real, t: real, anchor: real) {
    Distance(s, anchor) < Distance(t, anchor) || (Distance(s, anchor) == Distance(t, anchor) && s <= t)
  }

  /** Strikes by distance from spot, then by strike. */
  function Nearest(anchor: real): (real, real) -> bool {
    (s, t) => Closer(s, t, anchor)
  }

  /** Contracts of one strike by kind, then ticker. */
  predicate ContractOrder(a: Contract, b: Contract) {
    Alphabetic(a.kind, b.kind) && (a.kind == b.kind ==> Alphabetic(a.ticker, b.ticker))
  }

  lemma MasterOrderIsPreorder()
    ensures Preorder(MasterOrder)
  {
    forall a, b ensures MasterOrder(a, b) || MasterOrder(b, a) {
      AlphabeticIsTotal(a.underlying, b.underlying);
    }
    forall a, b, c | MasterOrder(a, b) && MasterOrder(b, c) ensures MasterOrder(a, c) {
      AlphabeticIsTransitive(a.underlying, b.underlying, c.underlying);
      AlphabeticIsTotal(a.underlying, b.underlying);
    }
  }

  lemma ContractOrderIsPreorder()
    ensures Preorder(ContractOrder)
  {
    forall a, b ensures ContractOrder(a, b) || ContractOrder(b, a) {
      AlphabeticIsTotal(a.kind, b.kind);
      AlphabeticIsTotal(a.ticker, b.ticker);
    }
    forall a, b, c | ContractOrder(a, b) && ContractOrder(b, c) ensures ContractOrder(a, c) {
      AlphabeticIsTransitive(a.kind, b.kind, c.kind);
      AlphabeticIsTotal(a.kind, b.kind);
      if a.kind == b.kind == c.kind {
        AlphabeticIsTransitive(a.ticker, b.ticker, c.ticker);
      }
    }
  }

  // The selection

  function Same<T>(): T -> T { x => x }

  function Rows(m: Master): seq<Row> {
    Gather(m.pages, Same())
  }

  function DateOf(): Row -> seq<int> {
    (r: Row) => if r.expiration.Some? then [r.expiration.value] else []
  }

  function InBand(m: Master, p: Params): int -> seq<int> {
    e => if p.dteMin <= e - m.asOf <= p.dteMax && p.wanted(e) then [e] else []
  }

  /** The expiries of the band, ascending. */
  function Band(m: Master, p: Params): seq<int> {
    Gather(SortBy(Distincts(Gather(Rows(m), DateOf())), Earlier), InBand(m, p))
  }

  predicate WantedKind(kind: string, callsOnly: bool) {
    kind == "call" || (kind == "put" && !callsOnly)
  }

  function Rung(expiration: int, callsOnly: bool): Row -> seq<Contract> {
    (r: Row) => if r.expiration == Some(expiration) && r.contract.Some? && WantedKind(r.contract.value.kind, callsOnly)
         then [r.contract.value] else []
  }

  function Ladder(m: Master, expiration: int, callsOnly: bool): seq<Contract> {
    Gather(Rows(m), Rung(expiration, callsOnly))
  }

  function StrikeOf(): Contract -> seq<real> { (c: Contract) => [c.strike] }

  function OnStrike(strike: real): Contract -> seq<Contract> {
    (c: Contract) => if c.strike == strike then [c] else []
  }

  function Take<T>(s: seq<T>, n: nat): seq<T> {
    if n <= |s| then s[..n] else s
  }

  /** The distinct strikes of a ladder, nearest first, and the part of them that is kept. */
  function Ranked(ladder: seq<Contract>, anchor: real): seq<real> {
    SortBy(Distincts(Gather(ladder, StrikeOf())), Nearest(anchor))
  }

  function Closest(strikes: seq<real>, anchor: real, band: nat): seq<real> {
    Take(SortBy(strikes, Nearest(anchor)), 2 * band + 1)
  }

  function Kept(ladder: seq<Contract>, anchor: real, band: nat): seq<real> {
    Closest(Distincts(Gather(ladder, StrikeOf())), anchor, band)
  }

  function Named(asOf: int, expiration: int): Contract -> seq<Pick> {
    (c: Contract) => [Pick(c.ticker, asOf, expiration)]
  }

  function StrikeOffers(ladder: seq<Contract>, asOf: int, expiration: int): real -> seq<Pick> {
    s => Gather(SortBy(Gather(ladder, OnStrike(s)), ContractOrder), Named(asOf, expiration))
  }

  function ExpiryOffers(m: Master, anchor: real, p: Params): int -> seq<Pick> {
    e => var ladder := Ladder(m, e, p.callsOnly);
         Gather(Kept(ladder, anchor, p.band), StrikeOffers(ladder, m.asOf, e))
  }

  function MasterOffers(p: Params): Master -> seq<Pick> {
    (m: Master) => if m.pages == [] || (m.underlying, m.asOf) !in p.spot then []
         else Gather(Band(m, p), ExpiryOffers(m, p.spot[(m.underlying, m.asOf)], p))
  }

  /** Every contract that is offered, in the order of the walk. */
  function Offers(captures: seq<Master>, p: Params): seq<Pick> {
    Gather(SortBy(captures, MasterOrder), MasterOffers(p))
  }

  function Tickers(picks: seq<Pick>): set<string> {
    set p | p in picks :: p.ticker
  }

  lemma TickersNext(picks: seq<Pick>, p: Pick)
    ensures Tickers(picks + [p]) == Tickers(picks) + {p.ticker}
  {}

  /** The first offer of every ticker among the first `n` offers. */
  function FirstOffers(offers: seq<Pick>, n: nat): (r: seq<Pick>)
    requires n <= |offers|
  {
    if n == 0 then [] else
      var r := FirstOffers(offers, n - 1);
      if offers[n - 1].ticker in Tickers(r) then r else r + [offers[n - 1]]
  }

  function FirstPerTicker(offers: seq<Pick>): seq<Pick> {
    FirstOffers(offers, |offers|)
  }

  lemma {:induction false} FirstOffersOfPrefix(offers: seq<Pick>, p: Pick, n: nat)
    requires n <= |offers|
    ensures FirstOffers(offers + [p], n) == FirstOffers(offers, n)
  {
    if n > 0 {
      FirstOffersOfPrefix(offers, p, n - 1);
    }
  }

  lemma FirstPerTickerNext(offers: seq<Pick>, p: Pick)
    ensures FirstPerTicker(offers + [p]) ==
      if p.ticker in Tickers(FirstPerTicker(offers)) then FirstPerTicker(offers) else FirstPerTicker(offers) + [p]
  {
    FirstOffersOfPrefix(offers, p, |offers|);
  }

  lemma {:induction false} FirstOffersHold(offers: seq<Pick>, n: nat, ticker: string)
    requires n <= |offers|
    ensures ticker in Tickers(FirstOffers(offers, n)) <==> exists k :: 0 <= k < n && offers[k].ticker == ticker
  {
    if n > 0 {
      FirstOffersHold(offers, n - 1, ticker);
      FirstOffersHold(offers, n - 1, offers[n - 1].ticker);
      TickersNext(FirstOffers(offers, n - 1), offers[n - 1]);
    }
  }

  function Grid(captures: seq<Master>, p: Params): seq<Pick> {
    FirstPerTicker(Offers(captures, p))
  }

  /** `picks[:wanted]` where there are more picks than wanted: a negative bound counts from the end. */
  function Capped(picks: seq<Pick>, wanted: int): seq<Pick> {
    if |picks| <= wanted then picks
    else if wanted >= 0 then picks[..wanted]
    else if |picks| + wanted >= 0 then picks[..|picks| + wanted]
    else []
  }

  lemma NearestIsPreorder(anchor: real)
    ensures Preorder(Nearest(anchor))
  {}

  lemma KeptAreStrikes(strikes: seq<real>, anchor: real, band: nat)
    ensures forall k :: 0 <= k < |Closest(strikes, anchor, band)| ==> Closest(strikes, anchor, band)[k] in strikes
  {
    NearestIsPreorder(anchor);
    SortBySorts(strikes, Nearest(anchor));
    SameElements(strikes, SortBy(strikes, Nearest(anchor)));
  }

  // The loops

  method ReadLadder(rows: seq<Row>, expiration: int, callsOnly: bool) returns (ladder: seq<Contract>)
    ensures ladder == Gather(rows, Rung(expiration, callsOnly))
  {
    ladder := [];
    for i := 0 to |rows|
      invariant ladder == Onto([], rows, i, Rung(expiration, callsOnly))
    {
      var r := rows[i];
      if r.expiration == Some(expiration) && r.contract.Some? && WantedKind(r.contract.value.kind, callsOnly) {
        ladder := ladder + [r.contract.value];
      }
    }
  }

  /** `setdefault(strike, []).append(item)` */
  function AppendTo(byStrike: map<real, seq<Contract>>, item: Contract): map<real, seq<Contract>> {
    byStrike[item.strike := (if item.strike in byStrike then byStrike[item.strike] else []) + [item]]
  }

  ghost predicate Grouped(byStrike: map<real, seq<Contract>>, ladder: seq<Contract>, n: nat)
    requires n <= |ladder|
  {
    forall s :: Onto([], ladder, n, OnStrike(s)) == if s in byStrike then byStrike[s] else []
  }

  lemma GroupedNext(byStrike: map<real, seq<Contract>>, ladder: seq<Contract>, n: nat)
    requires n < |ladder| && Grouped(byStrike, ladder, n)
    ensures Grouped(AppendTo(byStrike, ladder[n]), ladder, n + 1)
  {
    var after := AppendTo(byStrike, ladder[n]);
    forall s ensures Onto([], ladder, n + 1, OnStrike(s)) == if s in after then after[s] else [] {
      assert Onto([], ladder, n + 1, OnStrike(s)) == Onto([], ladder, n, OnStrike(s)) + OnStrike(s)(ladder[n]);
    }
  }

  ghost predicate HoldsGroup(byStrike: map<real, seq<Contract>>, ladder: seq<Contract>, s: real) {
    s in byStrike && byStrike[s] == Gather(ladder, OnStrike(s))
  }

  /** A ladder grouped by strike, with the strikes in the order they first occur. */
  method GroupByStrike(ladder: seq<Contract>) returns (strikes: seq<real>, byStrike: map<real, seq<Contract>>)
    ensures strikes == Distincts(Gather(ladder, StrikeOf()))
    ensures forall s :: HoldsGroup(byStrike, ladder, s) <==> s in strikes
  {
    strikes, byStrike := [], map[];
    for i := 0 to |ladder|
      invariant strikes == Distincts(Onto([], ladder, i, StrikeOf()))
      invariant forall s :: s in byStrike <==> s in strikes
      invariant Grouped(byStrike, ladder, i)
    {
      DistinctsNext(Onto([], ladder, i, StrikeOf()), ladder[i].strike);
      GroupedNext(byStrike, ladder, i);
      if ladder[i].strike !in byStrike {
        strikes := strikes + [ladder[i].strike];
      }
      byStrike := AppendTo(byStrike, ladder[i]);
    }
  }

  /** Offer contracts one by one; `offers` is everything offered before. */
  method OfferAll(contracts: seq<Contract>, asOf: int, expiration: int, ghost offers: seq<Pick>,
                  before: seq<Pick>, seenBefore: set<string>)
    returns (picks: seq<Pick>, seen: set<string>)
    requires before == FirstPerTicker(offers) && seenBefore == Tickers(before)
    ensures picks == FirstPerTicker(offers + Gather(contracts, Named(asOf, expiration))) && seen == Tickers(picks)
  {
    picks, seen := before, seenBefore;
    for i := 0 to |contracts|
      invariant picks == FirstPerTicker(Onto(offers, contracts, i, Named(asOf, expiration))) && seen == Tickers(picks)
    {
      var pick := Pick(contracts[i].ticker, asOf, expiration);
      FirstPerTickerNext(Onto(offers, contracts, i, Named(asOf, expiration)), pick);
      if pick.ticker !in seen {
        TickersNext(picks, pick);
        seen, picks := seen + {pick.ticker}, picks + [pick];
      }
    }
    OntoAppends(offers, contracts, |contracts|, Named(asOf, expiration));
  }

  lemma StrikeOffersNext(offers: seq<Pick>, kept: seq<real>, i: nat, ladder: seq<Contract>, asOf: int, e: int)
    requires i < |kept|
    ensures Onto(offers, kept, i + 1, StrikeOffers(ladder, asOf, e)) ==
      Onto(offers, kept, i, StrikeOffers(ladder, asOf, e))
      + Gather(SortBy(Gather(ladder, OnStrike(kept[i])), ContractOrder), Named(asOf, e))
  {}

  method OfferStrikes(ladder: seq<Contract>, byStrike: map<real, seq<Contract>>, kept: seq<real>, asOf: int, e: int,
                      ghost offers: seq<Pick>, before: seq<Pick>, seenBefore: set<string>)
    returns (picks: seq<Pick>, seen: set<string>)
    requires forall k :: 0 <= k < |kept| ==> HoldsGroup(byStrike, ladder, kept[k])
    requires before == FirstPerTicker(offers) && seenBefore == Tickers(before)
    ensures picks == FirstPerTicker(offers + Gather(kept, StrikeOffers(ladder, asOf, e))) && seen == Tickers(picks)
  {
    picks, seen := before, seenBefore;
    for i := 0 to |kept|
      invariant picks == FirstPerTicker(Onto(offers, kept, i, StrikeOffers(ladder, asOf, e))) && seen == Tickers(picks)
    {
      var s := kept[i];
      assert HoldsGroup(byStrike, ladder, s);
      ghost var all := Onto(offers, kept, i, StrikeOffers(ladder, asOf, e));
      picks, seen := OfferAll(SortBy(byStrike[s], ContractOrder), asOf, e, all, picks, seen);
      StrikeOffersNext(offers, kept, i, ladder, asOf, e);
    }
    OntoAppends(offers, kept, |kept|, StrikeOffers(ladder, asOf, e));
  }

  method OfferExpiry(m: Master, anchor: real, expiration: int, p: Params, ghost offers: seq<Pick>,
                     before: seq<Pick>, seenBefore: set<string>)
    returns (picks: seq<Pick>, seen: set<string>)
    requires before == FirstPerTicker(offers) && seenBefore == Tickers(before)
    ensures picks == FirstPerTicker(offers + ExpiryOffers(m, anchor, p)(expiration)) && seen == Tickers(picks)
  {
    var ladder := ReadLadder(Rows(m), expiration, p.callsOnly);
    var strikes, byStrike := GroupByStrike(ladder);
    var kept := Closest(strikes, anchor, p.band);
    KeptAreStrikes(strikes, anchor, p.band);
    forall k | 0 <= k < |kept| ensures HoldsGroup(byStrike, ladder, kept[k]) {
      assert kept[k] in strikes;
    }
    picks, seen := OfferStrikes(ladder, byStrike, kept, m.asOf, expiration, offers, before, seenBefore);
  }

  /** Offer every expiry of a master's band. */
  method OfferMaster(m: Master, p: Params, ghost offers: seq<Pick>, before: seq<Pick>, seenBefore: set<string>)
    returns (picks: seq<Pick>, seen: set<string>)
    requires before == FirstPerTicker(offers) && seenBefore == Tickers(before)
    ensures picks == FirstPerTicker(offers + MasterOffers(p)(m)) && seen == Tickers(picks)
  {
    picks, seen := before, seenBefore;
    assert offers + [] == offers;
    if m.pages == [] || (m.underlying, m.asOf) !in p.spot {
      return;
    }
    var anchor, band := p.spot[(m.underlying, m.asOf)], Band(m, p);
    ghost var f := ExpiryOffers(m, anchor, p);
    for j := 0 to |band|
      invariant picks == FirstPerTicker(Onto(offers, band, j, f)) && seen == Tickers(picks)
    {
      picks, seen := OfferExpiry(m, anchor, band[j], p, Onto(offers, band, j, f), picks, seen);
    }
    OntoAppends(offers, band, |band|, f);
  }

  /** `select_atm_grid_bars` */
  method SelectAtmGrid(captures: seq<Master>, p: Params, wanted: int) returns (picks: seq<Pick>)
    ensures picks == Capped(Grid(captures, p), wanted)
  {
    picks := [];
    var seen: set<string> := {};
    var masters := SortBy(captures, MasterOrder);
    for i := 0 to |masters|
      invariant picks == FirstPerTicker(Onto([], masters, i, MasterOffers(p))) && seen == Tickers(picks)
    {
      picks, seen := OfferMaster(masters[i], p, Onto([], masters, i, MasterOffers(p)), picks, seen);
    }
    picks := Capped(picks, wanted);
  }

  // What is promised of it

  lemma {:induction false} FirstOffersAreDistinct(offers: seq<Pick>, n: nat, i: nat, j: nat)
    requires n <= |offers| && i < j < |FirstOffers(offers, n)|
    ensures FirstOffers(offers, n)[i].ticker != FirstOffers(offers, n)[j].ticker
  {
    if n > 0 {
      var r := FirstOffers(offers, n - 1);
      if j < |r| {
        FirstOffersAreDistinct(offers, n - 1, i, j);
      } else {
        assert r[i].ticker in Tickers(r);
      }
    }
  }

  /** No ticker is picked twice, and every cap keeps that. */
  lemma NoTickerTwice(captures: seq<Master>, p: Params, wanted: int, i: nat, j: nat)
    requires i < j < |Capped(Grid(captures, p), wanted)|
    ensures Capped(Grid(captures, p), wanted)[i].ticker != Capped(Grid(captures, p), wanted)[j].ticker
  {
    FirstOffersAreDistinct(Offers(captures, p), |Offers(captures, p)|, i, j);
  }

  /** A cap keeps the first picks: as many as it says, or all but as many from the end. */
  lemma {:induction false} CappedIs(picks: seq<Pick>, wanted: int)
    ensures Capped(picks, wanted) <= picks
    ensures wanted >= 0 ==> |Capped(picks, wanted)| == if wanted < |picks| then wanted else |picks|
    ensures wanted < 0 ==> |Capped(picks, wanted)| == if -wanted < |picks| then |picks| + wanted else 0
  {}

  /** Of two caps the smaller picks a prefix of what the larger picks, for all grids, exactly when
      they are equal or on the same side of zero: a negative cap counts from the end. */
  lemma SmallerCapIsPrefixIff(small: int, large: int)
    requires small <= large
    ensures (forall picks :: Capped(picks, small) <= Capped(picks, large)) <==> (small >= 0 || large < 0)
  {
    if small < 0 <= large {
      var picks := seq(large - small + 1, i => Pick("", 0, 0));
      assert !(Capped(picks, small) <= Capped(picks, large));
    }
  }

  /** The selection does not depend on the order of masters that are keyed uniquely. */
  lemma GridIgnoresCaptureOrder(a: seq<Master>, b: seq<Master>, p: Params)
    requires multiset(a) == multiset(b)
    requires forall x, y :: x in a && y in a && x.underlying == y.underlying && x.asOf == y.asOf ==> x == y
    ensures Grid(a, p) == Grid(b, p)
  {
    MasterOrderIsPreorder();
    forall x, y | x in a && y in a && MasterOrder(x, y) && MasterOrder(y, x) ensures x == y {
      AlphabeticIsTotal(x.underlying, y.underlying);
    }
    SortIgnoresOrder(a, b, MasterOrder);
  }

  /** Nor does a master's part depend on the order in which the vendor returned its rows. */
  lemma OffersIgnoreRowOrder(m: Master, n: Master, p: Params)
    requires m.underlying == n.underlying && m.asOf == n.asOf && (m.pages == [] <==> n.pages == [])
    requires multiset(Rows(m)) == multiset(Rows(n))
    ensures MasterOffers(p)(m) == MasterOffers(p)(n)
  {
    if m.pages != [] && (m.underlying, m.asOf) in p.spot {
      var anchor := p.spot[(m.underlying, m.asOf)];
      BandIgnoresRowOrder(m, n, p);
      forall e ensures ExpiryOffers(m, anchor, p)(e) == ExpiryOffers(n, anchor, p)(e) {
        GatherIgnoresOrder(Rows(m), Rows(n), Rung(e, p.callsOnly));
        LadderOrderIsIrrelevant(Ladder(m, e, p.callsOnly), Ladder(n, e, p.callsOnly), anchor, p.band, m.asOf, e);
      }
      GatherSame(Band(m, p), ExpiryOffers(m, anchor, p), ExpiryOffers(n, anchor, p));
    }
  }

  lemma BandIgnoresRowOrder(m: Master, n: Master, p: Params)
    requires m.asOf == n.asOf && multiset(Rows(m)) == multiset(Rows(n))
    ensures Band(m, p) == Band(n, p)
  {
    var a, b := Gather(Rows(m), DateOf()), Gather(Rows(n), DateOf());
    GatherIgnoresOrder(Rows(m), Rows(n), DateOf());
    SameElements(a, b);
    SameSetSameMultiset(Distincts(a), Distincts(b));
    SortIgnoresOrder(Distincts(a), Distincts(b), Earlier);
    var s := SortBy(Distincts(a), Earlier);
    GatherSame(s, InBand(m, p), InBand(n, p));
  }

  lemma LadderOrderIsIrrelevant(a: seq<Contract>, b: seq<Contract>, anchor: real, band: nat, asOf: int, e: int)
    requires multiset(a) == multiset(b)
    ensures Gather(Kept(a, anchor, band), StrikeOffers(a, asOf, e)) ==
      Gather(Kept(b, anchor, band), StrikeOffers(b, asOf, e))
  {
    GatherIgnoresOrder(a, b, StrikeOf());
    SameElements(Gather(a, StrikeOf()), Gather(b, StrikeOf()));
    var s, t := Distincts(Gather(a, StrikeOf())), Distincts(Gather(b, StrikeOf()));
    SameSetSameMultiset(s, t);
    NearestIsPreorder(anchor);
    SortIgnoresOrder(s, t, Nearest(anchor));
    forall strike ensures StrikeOffers(a, asOf, e)(strike) == StrikeOffers(b, asOf, e)(strike) {
      GatherIgnoresOrder(a, b, OnStrike(strike));
      StrikeSortIsUnique(a, b, strike);
    }
    GatherSame(Kept(a, anchor, band), StrikeOffers(a, asOf, e), StrikeOffers(b, asOf, e));
  }

  lemma StrikeSortIsUnique(a: seq<Contract>, b: seq<Contract>, strike: real)
    requires multiset(Gather(a, OnStrike(strike))) == multiset(Gather(b, OnStrike(strike)))
    ensures SortBy(Gather(a, OnStrike(strike)), ContractOrder) == SortBy(Gather(b, OnStrike(strike)), ContractOrder)
  {
    var here := Gather(a, OnStrike(strike));
    ContractOrderIsPreorder();
    forall c, d | c in here && d in here && ContractOrder(c, d) && ContractOrder(d, c) ensures c == d {
      GatherHolds(a, OnStrike(strike), c);
      GatherHolds(a, OnStrike(strike), d);
      AlphabeticIsTotal(c.kind, d.kind);
      AlphabeticIsTotal(c.ticker, d.ticker);
    }
    SortIgnoresOrder(here, Gather(b, OnStrike(strike)), ContractOrder);
  }

  // Which contracts are picked

  /** The strikes of a ladder that come before `s` by distance, then by strike. */
  ghost function Nearer(ladder: seq<Contract>, anchor: real, s: real): set<real> {
    set c | c in ladder && c.strike != s && Closer(c.strike, s, anchor) :: c.strike
  }

  lemma StrikesOfLadder(ladder: seq<Contract>, s: real)
    ensures s in Distincts(Gather(ladder, StrikeOf())) <==> exists c :: c in ladder && c.strike == s
  {
    GatherHolds(ladder, StrikeOf(), s);
    if exists c :: c in ladder && c.strike == s {
      var c :| c in ladder && c.strike == s;
      assert s in StrikeOf()(c);
    }
  }

  lemma {:induction false} SizeOfPrefix(s: seq<real>, n: nat)
    requires Unique(s) && n <= |s|
    ensures |set i | 0 <= i < n :: s[i]| == n
  {
    if n > 0 {
      SizeOfPrefix(s, n - 1);
      assert (set i | 0 <= i < n :: s[i]) == (set i | 0 <= i < n - 1 :: s[i]) + {s[n - 1]};
    }
  }

  lemma RankedLadder(ladder: seq<Contract>, anchor: real)
    ensures Unique(Ranked(ladder, anchor)) && Sorted(Ranked(ladder, anchor), Nearest(anchor))
    ensures forall s :: s in Ranked(ladder, anchor) <==> exists c :: c in ladder && c.strike == s
  {
    var strikes := Distincts(Gather(ladder, StrikeOf()));
    NearestIsPreorder(anchor);
    SortBySorts(strikes, Nearest(anchor));
    SameElements(strikes, Ranked(ladder, anchor));
    SameMultisetKeepsUnique(strikes, Ranked(ladder, anchor));
    forall s ensures s in Ranked(ladder, anchor) <==> exists c :: c in ladder && c.strike == s {
      StrikesOfLadder(ladder, s);
    }
  }

  /** A strike is kept exactly when the ladder holds it and at most `2 * band` of its other strikes
      are nearer to spot, ties going to the lower strike. */
  lemma KeptIff(ladder: seq<Contract>, anchor: real, band: nat, s: real)
    ensures s in Kept(ladder, anchor, band) <==>
      (exists c :: c in ladder && c.strike == s) && |Nearer(ladder, anchor, s)| <= 2 * band
  {
    var ranked := Ranked(ladder, anchor);
    RankedLadder(ladder, anchor);
    if s in ranked {
      var k :| 0 <= k < |ranked| && ranked[k] == s;
      var before := set i | 0 <= i < k :: ranked[i];
      SizeOfPrefix(ranked, k);
      assert before == Nearer(ladder, anchor, s) by {
        forall t ensures t in before <==> t in Nearer(ladder, anchor, s) {
          NearerIsBefore(ladder, anchor, k, t);
        }
      }
    }
  }

  lemma RankIsCloseness(ranked: seq<real>, anchor: real, i: nat, k: nat)
    requires Unique(ranked) && Sorted(ranked, Nearest(anchor)) && i < |ranked| && k < |ranked|
    ensures i < k <==> ranked[i] != ranked[k] && Closer(ranked[i], ranked[k], anchor)
  {
    assert i < k ==> Nearest(anchor)(ranked[i], ranked[k]);
    assert k < i ==> Nearest(anchor)(ranked[k], ranked[i]);
  }

  lemma NearerIsBefore(ladder: seq<Contract>, anchor: real, k: nat, t: real)
    requires k < |Ranked(ladder, anchor)|
    ensures (exists i :: 0 <= i < k && Ranked(ladder, anchor)[i] == t) <==>
      t in Nearer(ladder, anchor, Ranked(ladder, anchor)[k])
  {
    RankedLadder(ladder, anchor);
    var ranked := Ranked(ladder, anchor);
    assert t in Nearer(ladder, anchor, ranked[k]) ==> t in ranked;
    if t in ranked {
      var i :| 0 <= i < |ranked| && ranked[i] == t;
      var c :| c in ladder && c.strike == t;
      RankIsCloseness(ranked, anchor, i, k);
    }
  }

  /** How far two prices are apart. */
  ghost function Gap(x: real, y: real): real {
    if x < y then y - x else x - y
  }

  ghost predicate OnSide(kind: string, p: Params) {
    kind == "call" || (kind == "put" && !p.callsOnly)
  }

  /** The strikes of a master's expiry that are nearer to spot than `s`, or as near and lower. */
  ghost function NearerToSpot(m: Master, e: int, p: Params, s: real): set<real>
    requires (m.underlying, m.asOf) in p.spot
  {
    var anchor := p.spot[(m.underlying, m.asOf)];
    set r | r in Rows(m) && r.expiration == Some(e) && r.contract.Some? && OnSide(r.contract.value.kind, p)
            && (Gap(r.contract.value.strike, anchor) < Gap(s, anchor)
                || (Gap(r.contract.value.strike, anchor) == Gap(s, anchor) && r.contract.value.strike < s))
      :: r.contract.value.strike
  }

  lemma {:induction false} NearerIs(m: Master, e: int, p: Params, s: real)
    requires (m.underlying, m.asOf) in p.spot
    ensures Nearer(Ladder(m, e, p.callsOnly), p.spot[(m.underlying, m.asOf)], s) == NearerToSpot(m, e, p, s)
  {
    var anchor, ladder := p.spot[(m.underlying, m.asOf)], Ladder(m, e, p.callsOnly);
    LadderIff(m, e, p.callsOnly);
    forall t ensures t in Nearer(ladder, anchor, s) <==> t in NearerToSpot(m, e, p, s) {
      if t in Nearer(ladder, anchor, s) {
        var c :| c in ladder && c.strike == t && t != s && Closer(t, s, anchor);
        assert Row(Some(e), Some(c)) in Rows(m);
      }
      if t in NearerToSpot(m, e, p, s) {
        var r :| r in Rows(m) && r.expiration == Some(e) && r.contract.Some? && OnSide(r.contract.value.kind, p)
                 && r.contract.value.strike == t;
        assert r.contract.value in ladder;
      }
    }
  }

  /** The contract `c` of master `m` belongs on the grid. */
  ghost predicate Belongs(m: Master, e: int, c: Contract, captures: seq<Master>, p: Params) {
    && m in captures && m.pages != [] && (m.underlying, m.asOf) in p.spot
    && Row(Some(e), Some(c)) in Rows(m) && OnSide(c.kind, p)
    && p.dteMin <= e - m.asOf <= p.dteMax && p.wanted(e)
    && |NearerToSpot(m, e, p, c.strike)| <= 2 * p.band
  }

  /** The grid prices exactly the tickers of the contracts that belong on it. */
  lemma PickedIff(captures: seq<Master>, p: Params, ticker: string)
    ensures ticker in Tickers(Grid(captures, p)) <==>
      exists m, e, c :: Belongs(m, e, c, captures, p) && c.ticker == ticker
  {
    FirstOffersHold(Offers(captures, p), |Offers(captures, p)|, ticker);
    if ticker in Tickers(Grid(captures, p)) {
      var pick :| pick in Offers(captures, p) && pick.ticker == ticker;
      OfferedIff(captures, p, pick);
    }
    if m, e, c :| Belongs(m, e, c, captures, p) && c.ticker == ticker {
      OfferedIff(captures, p, Pick(ticker, m.asOf, e));
    }
  }

  lemma OfferedIff(captures: seq<Master>, p: Params, pick: Pick)
    ensures pick in Offers(captures, p) <==>
      exists m, c :: Belongs(m, pick.expiration, c, captures, p) && pick == Pick(c.ticker, m.asOf, pick.expiration)
  {
    MasterOrderIsPreorder();
    SortBySorts(captures, MasterOrder);
    SameElements(captures, SortBy(captures, MasterOrder));
    GatherHolds(SortBy(captures, MasterOrder), MasterOffers(p), pick);
    forall m ensures pick in MasterOffers(p)(m) && m in captures <==>
      exists c :: Belongs(m, pick.expiration, c, captures, p) && pick == Pick(c.ticker, m.asOf, pick.expiration)
    {
      MasterOffersIff(m, captures, p, pick);
    }
  }

  lemma InBandIff(m: Master, p: Params, e: int)
    ensures e in Band(m, p) <==>
      p.dteMin <= e - m.asOf <= p.dteMax && p.wanted(e) && exists r :: r in Rows(m) && r.expiration == Some(e)
  {
    var dates := Gather(Rows(m), DateOf());
    SortBySorts(Distincts(dates), Earlier);
    SameElements(Distincts(dates), SortBy(Distincts(dates), Earlier));
    GatherHolds(Rows(m), DateOf(), e);
    GatherHolds(SortBy(Distincts(dates), Earlier), InBand(m, p), e);
    if r :| r in Rows(m) && r.expiration == Some(e) {
      assert e in DateOf()(r);
    }
  }

  lemma {:induction false} OnGridIff(m: Master, p: Params, e: int, c: Contract, captures: seq<Master>)
    requires m.pages != [] && (m.underlying, m.asOf) in p.spot
    ensures Belongs(m, e, c, captures, p) <==>
      m in captures && e in Band(m, p) && OnGrid(m, p.spot[(m.underlying, m.asOf)], p, e, c)
  {
    InBandIff(m, p, e);
    NearerIs(m, e, p, c.strike);
  }

  lemma MasterOffersIff(m: Master, captures: seq<Master>, p: Params, pick: Pick)
    ensures pick in MasterOffers(p)(m) && m in captures <==>
      exists c :: Belongs(m, pick.expiration, c, captures, p) && pick == Pick(c.ticker, m.asOf, pick.expiration)
  {
    if m.pages != [] && (m.underlying, m.asOf) in p.spot {
      var anchor, e := p.spot[(m.underlying, m.asOf)], pick.expiration;
      GatherHolds(Band(m, p), ExpiryOffers(m, anchor, p), pick);
      forall f ensures pick in ExpiryOffers(m, anchor, p)(f) <==>
        f == e && exists c :: OnGrid(m, anchor, p, e, c) && pick == Pick(c.ticker, m.asOf, e)
      {
        ExpiryOffersIff(m, anchor, p, f, pick);
      }
      forall c ensures Belongs(m, e, c, captures, p) <==>
        m in captures && e in Band(m, p) && OnGrid(m, anchor, p, e, c)
      {
        OnGridIff(m, p, e, c, captures);
      }
    }
  }

  ghost predicate OnGrid(m: Master, anchor: real, p: Params, e: int, c: Contract) {
    && Row(Some(e), Some(c)) in Rows(m) && WantedKind(c.kind, p.callsOnly)
    && |Nearer(Ladder(m, e, p.callsOnly), anchor, c.strike)| <= 2 * p.band
  }

  lemma LadderIff(m: Master, e: int, callsOnly: bool)
    ensures forall c :: c in Ladder(m, e, callsOnly) <==>
      Row(Some(e), Some(c)) in Rows(m) && WantedKind(c.kind, callsOnly)
  {
    forall c ensures c in Ladder(m, e, callsOnly) <==>
      Row(Some(e), Some(c)) in Rows(m) && WantedKind(c.kind, callsOnly)
    {
      GatherHolds(Rows(m), Rung(e, callsOnly), c);
      assert WantedKind(c.kind, callsOnly) ==> c in Rung(e, callsOnly)(Row(Some(e), Some(c)));
    }
  }

  lemma ExpiryOffersIff(m: Master, anchor: real, p: Params, f: int, pick: Pick)
    ensures pick in ExpiryOffers(m, anchor, p)(f) <==>
      f == pick.expiration && exists c :: OnGrid(m, anchor, p, f, c) && pick == Pick(c.ticker, m.asOf, f)
  {
    var ladder := Ladder(m, f, p.callsOnly);
    GatherHolds(Kept(ladder, anchor, p.band), StrikeOffers(ladder, m.asOf, f), pick);
    forall s ensures pick in StrikeOffers(ladder, m.asOf, f)(s) <==>
      exists c :: c in ladder && c.strike == s && pick == Pick(c.ticker, m.asOf, f)
    {
      StrikeOffersIff(ladder, m.asOf, f, s, pick);
    }
    LadderIff(m, f, p.callsOnly);
    forall s ensures s in Kept(ladder, anchor, p.band) <==>
      (exists c :: c in ladder && c.strike == s) && |Nearer(ladder, anchor, s)| <= 2 * p.band
    {
      KeptIff(ladder, anchor, p.band, s);
    }
  }

  lemma StrikeOffersIff(ladder: seq<Contract>, asOf: int, e: int, s: real, pick: Pick)
    ensures pick in StrikeOffers(ladder, asOf, e)(s) <==>
      exists c :: c in ladder && c.strike == s && pick == Pick(c.ticker, asOf, e)
  {
    var here := Gather(ladder, OnStrike(s));
    ContractOrderIsPreorder();
    SortBySorts(here, ContractOrder);
    SameElements(here, SortBy(here, ContractOrder));
    GatherHolds(SortBy(here, ContractOrder), Named(asOf, e), pick);
    forall c ensures c in here <==> c in ladder && c.strike == s {
      GatherHolds(ladder, OnStrike(s), c);
      assert c.strike == s ==> c in OnStrike(s)(c);
    }
  }

  /** Within a strike no put is offered before a call. */
  lemma CallsBeforePuts(ladder: seq<Contract>, s: real, i: nat, j: nat)
    requires i < j < |SortBy(Gather(ladder, OnStrike(s)), ContractOrder)|
    requires SortBy(Gather(ladder, OnStrike(s)), ContractOrder)[j].kind == "call"
    ensures SortBy(Gather(ladder, OnStrike(s)), ContractOrder)[i].kind != "put"
  {
    ContractOrderIsPreorder();
    SortBySorts(Gather(ladder, OnStrike(s)), ContractOrder);
    assert !Alphabetic("put", "call");
  }

  /** A strike's contracts are offered by kind and then by ticker. */
  lemma {:induction false} ContractsInOrder(ladder: seq<Contract>, s: real, i: nat, j: nat)
    requires i < j < |SortBy(Gather(ladder, OnStrike(s)), ContractOrder)|
    ensures var here := SortBy(Gather(ladder, OnStrike(s)), ContractOrder);
      && Alphabetic(here[i].kind, here[j].kind)
      && (here[i].kind == here[j].kind ==> Alphabetic(here[i].ticker, here[j].ticker))
  {
    ContractOrderIsPreorder();
    SortBySorts(Gather(ladder, OnStrike(s)), ContractOrder);
  }

  // The order of the picks, which decides what a cap keeps

  lemma {:induction false} FirstOffersGrow(offers: seq<Pick>, a: nat, n: nat)
    requires a <= n <= |offers|
    ensures |FirstOffers(offers, a)| <= |FirstOffers(offers, n)|
  {
    if a < n {
      FirstOffersGrow(offers, a, n - 1);
    }
  }

  /** Pick `i` is offer `k`, the first offer of its ticker. */
  lemma {:induction false} PlaceOf(offers: seq<Pick>, n: nat, i: nat) returns (k: nat)
    requires n <= |offers| && i < |FirstOffers(offers, n)|
    ensures k < n && offers[k] == FirstOffers(offers, n)[i] && |FirstOffers(offers, k)| == i
    ensures forall h :: 0 <= h < k ==> offers[h].ticker != offers[k].ticker
  {
    if i < |FirstOffers(offers, n - 1)| {
      k := PlaceOf(offers, n - 1, i);
    } else {
      k := n - 1;
      FirstOffersHold(offers, k, offers[k].ticker);
    }
  }

  /** Master `m` offers the pick. */
  ghost predicate OfferedBy(m: Master, pick: Pick, captures: seq<Master>, p: Params) {
    exists c :: Belongs(m, pick.expiration, c, captures, p) && pick == Pick(c.ticker, m.asOf, pick.expiration)
  }

  /** Master `m` comes before `n`, or is as early: by name, then by date. */
  ghost predicate NoLater(m: Master, n: Master) {
    Alphabetic(m.underlying, n.underlying) && (m.underlying == n.underlying ==> m.asOf <= n.asOf)
  }

  lemma {:induction false} MastersInOrder(captures: seq<Master>, a: nat, b: nat)
    requires a <= b < |SortBy(captures, MasterOrder)|
    ensures var masters := SortBy(captures, MasterOrder);
      masters[a] in captures && masters[b] in captures && NoLater(masters[a], masters[b])
  {
    var masters := SortBy(captures, MasterOrder);
    MasterOrderIsPreorder();
    SortBySorts(captures, MasterOrder);
    SameElements(captures, masters);
    AlphabeticIsTotal(masters[a].underlying, masters[a].underlying);
    assert a < b ==> MasterOrder(masters[a], masters[b]);
    assert masters[a] in masters && masters[b] in masters;
  }

  lemma {:induction false} OfferOf(m: Master, captures: seq<Master>, p: Params, pick: Pick)
    requires m in captures && pick in MasterOffers(p)(m)
    ensures OfferedBy(m, pick, captures, p)
  {
    MasterOffersIff(m, captures, p, pick);
  }

  /** Of two offers the earlier one comes from a master that is no later. */
  lemma {:induction false} OffersInOrder(captures: seq<Master>, p: Params, i: nat, j: nat)
    returns (m: Master, n: Master)
    requires i <= j < |Offers(captures, p)|
    ensures OfferedBy(m, Offers(captures, p)[i], captures, p) && OfferedBy(n, Offers(captures, p)[j], captures, p)
    ensures NoLater(m, n)
  {
    var masters := SortBy(captures, MasterOrder);
    var a, b := GatherInOrder(masters, MasterOffers(p), i, j);
    m, n := masters[a], masters[b];
    MastersInOrder(captures, a, b);
    OfferOf(m, captures, p, Offers(captures, p)[i]);
    OfferOf(n, captures, p, Offers(captures, p)[j]);
  }

  /** The picks follow the masters: by name, then by date.  So a cap drops those of the last masters. */
  lemma {:induction false} PicksInOrder(captures: seq<Master>, p: Params, i: nat, j: nat) returns (m: Master, n: Master)
    requires i < j < |Grid(captures, p)|
    ensures OfferedBy(m, Grid(captures, p)[i], captures, p) && OfferedBy(n, Grid(captures, p)[j], captures, p)
    ensures NoLater(m, n)
  {
    var offers := Offers(captures, p);
    var h := PlaceOf(offers, |offers|, i);
    var k := PlaceOf(offers, |offers|, j);
    if k <= h {
      FirstOffersGrow(offers, k, h);
    }
    m, n := OffersInOrder(captures, p, h, k);
  }

  /** Offers of one master follow its expiries. */
  lemma {:induction false} ExpiriesInOrder(m: Master, p: Params, i: nat, j: nat)
    requires i <= j < |MasterOffers(p)(m)|
    ensures MasterOffers(p)(m)[i].expiration <= MasterOffers(p)(m)[j].expiration
  {
    var anchor, band := p.spot[(m.underlying, m.asOf)], Band(m, p);
    var a, b := GatherInOrder(band, ExpiryOffers(m, anchor, p), i, j);
    ExpiryOffersIff(m, anchor, p, band[a], MasterOffers(p)(m)[i]);
    ExpiryOffersIff(m, anchor, p, band[b], MasterOffers(p)(m)[j]);
    BandAscends(m, p, a, b);
  }

  lemma {:induction false} BandAscends(m: Master, p: Params, i: nat, j: nat)
    requires i <= j < |Band(m, p)|
    ensures Band(m, p)[i] <= Band(m, p)[j]
  {
    var dates := SortBy(Distincts(Gather(Rows(m), DateOf())), Earlier);
    SortBySorts(Distincts(Gather(Rows(m), DateOf())), Earlier);
    var a, b := GatherInOrder(dates, InBand(m, p), i, j);
    assert a < b ==> Earlier(dates[a], dates[b]);
  }

  lemma {:induction false} StrikeOffer(m: Master, p: Params, e: int, s: real, pick: Pick) returns (c: Contract)
    requires pick in StrikeOffers(Ladder(m, e, p.callsOnly), m.asOf, e)(s)
    ensures Row(Some(e), Some(c)) in Rows(m) && c.strike == s && pick == Pick(c.ticker, m.asOf, e)
  {
    var ladder := Ladder(m, e, p.callsOnly);
    StrikeOffersIff(ladder, m.asOf, e, s, pick);
    c :| c in ladder && c.strike == s && pick == Pick(c.ticker, m.asOf, e);
    LadderIff(m, e, p.callsOnly);
  }

  /** The kept strikes: the nearer to spot first, and of two as near the lower one. */
  lemma {:induction false} KeptInOrder(ladder: seq<Contract>, anchor: real, band: nat, a: nat, b: nat)
    requires a <= b < |Kept(ladder, anchor, band)|
    ensures var s, t := Kept(ladder, anchor, band)[a], Kept(ladder, anchor, band)[b];
      Gap(s, anchor) <= Gap(t, anchor) && (Gap(s, anchor) == Gap(t, anchor) ==> s <= t)
  {
    RankedLadder(ladder, anchor);
    assert a < b ==> Nearest(anchor)(Ranked(ladder, anchor)[a], Ranked(ladder, anchor)[b]);
  }

  /** Offers of one expiry go from strike to strike. */
  lemma {:induction false} StrikesInOrder(m: Master, anchor: real, p: Params, e: int, i: nat, j: nat)
    returns (c: Contract, d: Contract)
    requires i <= j < |ExpiryOffers(m, anchor, p)(e)|
    ensures Row(Some(e), Some(c)) in Rows(m) && Row(Some(e), Some(d)) in Rows(m)
    ensures ExpiryOffers(m, anchor, p)(e)[i] == Pick(c.ticker, m.asOf, e)
    ensures ExpiryOffers(m, anchor, p)(e)[j] == Pick(d.ticker, m.asOf, e)
    ensures Gap(c.strike, anchor) <= Gap(d.strike, anchor)
    ensures Gap(c.strike, anchor) == Gap(d.strike, anchor) ==> c.strike <= d.strike
  {
    var ladder := Ladder(m, e, p.callsOnly);
    var kept := Kept(ladder, anchor, p.band);
    var a, b := GatherInOrder(kept, StrikeOffers(ladder, m.asOf, e), i, j);
    c := StrikeOffer(m, p, e, kept[a], ExpiryOffers(m, anchor, p)(e)[i]);
    d := StrikeOffer(m, p, e, kept[b], ExpiryOffers(m, anchor, p)(e)[j]);
    KeptInOrder(ladder, anchor, p.band, a, b);
  }

  /** A ticker is picked for the earliest master that has it on its grid. */
  lemma {:induction false} EarliestMasterWins(captures: seq<Master>, p: Params, i: nat, other: Master, e: int,
                                              c: Contract)
    returns (m: Master)
    requires i < |Grid(captures, p)| && Belongs(other, e, c, captures, p) && c.ticker == Grid(captures, p)[i].ticker
    ensures OfferedBy(m, Grid(captures, p)[i], captures, p) && NoLater(m, other)
  {
    var offers, pick, masters := Offers(captures, p), Pick(c.ticker, other.asOf, e), SortBy(captures, MasterOrder);
    var k := PlaceOf(offers, |offers|, i);
    MasterOffersIff(other, captures, p, pick);
    InMasters(captures, other);
    var a, x := OriginIsNoLater(masters, MasterOffers(p), k, other, pick);
    m := masters[a];
    MastersInOrder(captures, a, x);
    OfferOf(m, captures, p, offers[k]);
  }

  lemma {:induction false} InMasters(captures: seq<Master>, m: Master)
    requires m in captures
    ensures m in SortBy(captures, MasterOrder)
  {
    MasterOrderIsPreorder();
    SortBySorts(captures, MasterOrder);
    SameElements(captures, SortBy(captures, MasterOrder));
  }
}
