/**
 Walking a contract master page by page, and deepening every truncated master by complete
 rounds: a round starts only when the budget covers its worst case in full.
 */
module Deepening {
  import opened CaptureBudget
  import opened Options

  class MasterCapture {
    var pages: seq<Option<nat>> // each page's own next cursor
    var truncated: bool
    var pending: bool
    var failed: bool
    var noted: bool             // a note says that deepening this capture failed

    constructor ()
      ensures pages == [] && !truncated && !pending && !failed && !noted
    {
      pages, truncated, pending, failed, noted := [], false, false, false, false;
    }

    /** A capture whose walk stopped early still names the cursor it would continue from. */
    ghost predicate Consistent() reads this {
      && pending == truncated
      && (pending && pages != [] ==> pages[|pages| - 1].Some?)
    }

    /** An upper bound on the fetches this capture can still absorb. */
    ghost function Owed(): nat reads this {
      if pages == [] || pages[|pages| - 1].None? then 1 else pages[|pages| - 1].value + 2
    }
  }

  /** The account still balances, no reserve moved, decodable hits stayed free, and no new trouble. */
  twostate predicate Settled(b: Budget, c: Client) reads b, c {
    && Accounted(b, c) && b.reserved == old(b.reserved)
    && (HitsDecode(old(c.replies)) ==> HitsDecode(c.replies) && c.unpaid == old(c.unpaid))
    && (Clean(old(c.replies)) ==> Clean(c.replies)) && (Warm(old(c.replies)) ==> Warm(c.replies))
  }

  /** The replies left are a tail of those there were. */
  ghost predicate Consumed(before: seq<Reply>, after: seq<Reply>) {
    |after| <= |before| && after == before[|before| - |after|..]
  }

  /** The last reply consumed failed or named another host. */
  ghost predicate Troubled(before: seq<Reply>, after: seq<Reply>) {
    && Consumed(before, after)
    && |after| < |before|
    && var last := before[|before| - |after| - 1]; !last.outcome.Answered? || last.foreignCursor
  }

  lemma ConsumedNext(first: seq<Reply>, before: seq<Reply>, after: seq<Reply>)
    requires Consumed(first, before) && Consumed(before, after)
    ensures Consumed(first, after)
    ensures Troubled(before, after) ==> Troubled(first, after)
  {}

  /** Nothing more will be fetched for this capture: its chain ended, or a note says why not. */
  ghost predicate Ended(m: MasterCapture) reads m {
    m.noted || (m.pages != [] && m.pages[|m.pages| - 1].None?)
  }

  datatype Walk = Walked | NotCaptured | WalkRejected

  /** Why a walk ended. */
  datatype WalkEnd = NoCursor | PageLimit | Unaffordable | BadReply | ForeignHost | KeyRejected

  /** The walk from a cursor: the pages it keeps, why it ends and the replies it leaves. */
  datatype Track = Track(pages: seq<Option<nat>>, end: WalkEnd, left: seq<Reply>)

  function TrackOf(available: int, maxAttempts: nat, cursor: nat, replies: seq<Reply>, room: nat, dryRun: bool): Track
    decreases room
  {
    var reply, left := NextReply(replies), Remaining(replies);
    if room == 0 then Track([], PageLimit, replies)
    else if !Asked(available, maxAttempts, reply, dryRun) then Track([], Unaffordable, left)
    else match reply.outcome
      case Failed => Track([], BadReply, left)
      case Rejected => Track([], KeyRejected, left)
      case Answered(next) =>
        var page := Onward(next, cursor);
        if !Affordable(available, reply) then Track([], Unaffordable, left)
        else if page.None? then Track([page], NoCursor, left)
        else if reply.foreignCursor then Track([page], ForeignHost, left)
        else
          var rest := TrackOf(available - Cost(available, maxAttempts, reply, dryRun), maxAttempts, page.value, left,
                              room - 1, dryRun);
          Track([page] + rest.pages, rest.end, rest.left)
  }

  function ReplyAt(replies: seq<Reply>, k: nat): Reply {
    if k < |replies| then replies[k] else NextReply([])
  }

  /** Every page of a walk carries the next cursor of its own reply, and all but the last one carry one. */
  lemma {:induction false} TrackFollowsReplies(available: int, maxAttempts: nat, cursor: nat, replies: seq<Reply>,
                                               room: nat, dryRun: bool, k: nat)
    requires k < |TrackOf(available, maxAttempts, cursor, replies, room, dryRun).pages|
    ensures var t := TrackOf(available, maxAttempts, cursor, replies, room, dryRun);
      && |t.pages| <= room && ReplyAt(replies, k).outcome.Answered?
      && (k > 0 ==> t.pages[k - 1].Some?)
      && t.pages[k] == Onward(ReplyAt(replies, k).outcome.next, if k == 0 then cursor else t.pages[k - 1].value)
      && (t.end.NoCursor? ==> (t.pages[k].None? <==> k == |t.pages| - 1))
    decreases room
  {
    var reply := NextReply(replies);
    if k > 0 {
      TrackFollowsReplies(available - Cost(available, maxAttempts, reply, dryRun), maxAttempts,
                          Onward(reply.outcome.next, cursor).value, Remaining(replies), room - 1, dryRun, k - 1);
    } else if |TrackOf(available, maxAttempts, cursor, replies, room, dryRun).pages| > 1 {
      TrackFollowsReplies(available - Cost(available, maxAttempts, reply, dryRun), maxAttempts,
                          Onward(reply.outcome.next, cursor).value, Remaining(replies), room - 1, dryRun, 0);
    }
  }

  lemma {:induction false} OneConsumed(replies: seq<Reply>)
    ensures Consumed(replies, Remaining(replies))
    ensures !NextReply(replies).outcome.Answered? || NextReply(replies).foreignCursor ==>
      Troubled(replies, Remaining(replies))
  {}

  /** The walk goes on after this reply. */
  predicate GoesOn(available: int, maxAttempts: nat, cursor: nat, replies: seq<Reply>, dryRun: bool) {
    var reply := NextReply(replies);
    && Asked(available, maxAttempts, reply, dryRun) && reply.outcome.Answered? && Affordable(available, reply)
    && Onward(reply.outcome.next, cursor).Some? && !reply.foreignCursor
  }

  /** The rest of a walk that goes on. */
  function RestOfTrack(available: int, maxAttempts: nat, cursor: nat, replies: seq<Reply>, room: nat,
                       dryRun: bool): Track
    requires room > 0 && GoesOn(available, maxAttempts, cursor, replies, dryRun)
  {
    var reply := NextReply(replies);
    TrackOf(available - Cost(available, maxAttempts, reply, dryRun), maxAttempts,
            Onward(reply.outcome.next, cursor).value, Remaining(replies), room - 1, dryRun)
  }

  lemma {:induction false} TrackStarts(available: int, maxAttempts: nat, cursor: nat, replies: seq<Reply>, room: nat,
                                       dryRun: bool)
    requires room > 0
    ensures var t, reply := TrackOf(available, maxAttempts, cursor, replies, room, dryRun), NextReply(replies);
      if GoesOn(available, maxAttempts, cursor, replies, dryRun) then
        var rest := RestOfTrack(available, maxAttempts, cursor, replies, room, dryRun);
        t == Track([Onward(reply.outcome.next, cursor)] + rest.pages, rest.end, rest.left)
      else
        && t.left == Remaining(replies) && |t.pages| <= 1 && !t.end.PageLimit?
        && (t.end.NoCursor? ==> t.pages == [None])
        && (t.end.ForeignHost? ==> reply.foreignCursor && |t.pages| == 1 && t.pages[0].Some?)
        && (t.end.BadReply? || t.end.KeyRejected? ==> !reply.outcome.Answered?)
        && (t.end.BadReply? || t.end.KeyRejected? || t.end.Unaffordable? ==> t.pages == [])
  {}

  lemma {:induction false} TrackShape(available: int, maxAttempts: nat, cursor: nat, replies: seq<Reply>, room: nat,
                                      dryRun: bool)
    ensures var t := TrackOf(available, maxAttempts, cursor, replies, room, dryRun);
      && |t.pages| <= room && (t.end.PageLimit? ==> |t.pages| == room)
      && (t.end.NoCursor? ==> t.pages != [] && t.pages[|t.pages| - 1].None?)
      && (t.pages != [] && !t.end.NoCursor? ==> t.pages[|t.pages| - 1].Some?)
    decreases room
  {
    if room > 0 {
      TrackStarts(available, maxAttempts, cursor, replies, room, dryRun);
      var reply := NextReply(replies);
      if GoesOn(available, maxAttempts, cursor, replies, dryRun) {
        TrackShape(available - Cost(available, maxAttempts, reply, dryRun), maxAttempts,
                   Onward(reply.outcome.next, cursor).value, Remaining(replies), room - 1, dryRun);
      }
    }
  }

  /** A walk fails only on a reply that failed or named another host. */
  lemma {:induction false} TrackTroubles(available: int, maxAttempts: nat, cursor: nat, replies: seq<Reply>, room: nat,
                                         dryRun: bool)
    ensures var t := TrackOf(available, maxAttempts, cursor, replies, room, dryRun);
      && Consumed(replies, t.left)
      && (t.end.BadReply? || t.end.KeyRejected? || t.end.ForeignHost? ==> Troubled(replies, t.left))
    decreases room
  {
    if room > 0 {
      OneConsumed(replies);
      TrackStarts(available, maxAttempts, cursor, replies, room, dryRun);
      var reply := NextReply(replies);
      if GoesOn(available, maxAttempts, cursor, replies, dryRun) {
        TrackTroubles(available - Cost(available, maxAttempts, reply, dryRun), maxAttempts,
                      Onward(reply.outcome.next, cursor).value, Remaining(replies), room - 1, dryRun);
        var left := RestOfTrack(available, maxAttempts, cursor, replies, room, dryRun).left;
        assert Consumed(Remaining(replies), left);
        ConsumedNext(replies, Remaining(replies), left);
      }
    }
  }

  /** One call's part of a walk with room for `room` pages, and the rest of it. */
  ghost predicate TrackStep(t: Track, page: Fetched, foreign: bool, rest: Track) {
    match page
    case Exhausted => t == Track([], Unaffordable, rest.left)
    case VendorError => t == Track([], BadReply, rest.left)
    case AuthRejected => t == Track([], KeyRejected, rest.left)
    case Page(next) =>
      if next.None? then t == Track([next], NoCursor, rest.left)
      else if foreign then t == Track([next], ForeignHost, rest.left)
      else t == Track([next] + rest.pages, rest.end, rest.left)
  }

  /** What is left of a walk after a call. */
  ghost function RestOf(available: int, maxAttempts: nat, page: Fetched, foreign: bool, replies: seq<Reply>, room: nat,
                        dryRun: bool): Track
  {
    if page.Page? && page.next.Some? && !foreign then
      TrackOf(available, maxAttempts, page.next.value, replies, room, dryRun)
    else Track([], NoCursor, replies)
  }

  /** The next page of a walk. */
  method FetchNext(c: Client, b: Budget, cursor: nat, dryRun: bool, ghost room: nat)
    returns (foreign: bool, page: Fetched)
    requires Accounted(b, c) && room > 0
    modifies b, c
    ensures Settled(b, c)
    ensures page.Exhausted? ==> dryRun || b.Available() < c.maxAttempts
    ensures page.Page? && page.next.Some? ==> page.next.value < cursor
    ensures TrackStep(TrackOf(old(b.Available()), c.maxAttempts, cursor, old(c.replies), room, dryRun), page, foreign,
                      RestOf(b.Available(), c.maxAttempts, page, foreign, c.replies, room - 1, dryRun))
  {
    var reply := c.Receive();
    page := FetchPage(c, b, cursor, reply, dryRun);
    foreign := reply.foreignCursor;
  }

  /** What is kept of a walk when a call has taken its part. */
  ghost predicate Kept(t: Track, pages: seq<Option<nat>>, rest: Track) {
    t == Track(pages + rest.pages, rest.end, rest.left)
  }

  lemma {:induction false} KeptOn(t: Track, pages: seq<Option<nat>>, now: Track, page: Fetched, foreign: bool,
                                  rest: Track)
    requires Kept(t, pages, now) && TrackStep(now, page, foreign, rest)
    ensures page.Exhausted? ==> t == Track(pages, Unaffordable, rest.left)
    ensures page.VendorError? ==> t == Track(pages, BadReply, rest.left)
    ensures page.AuthRejected? ==> t == Track(pages, KeyRejected, rest.left)
    ensures page.Page? && page.next.None? ==> t == Track(pages + [page.next], NoCursor, rest.left)
    ensures page.Page? && page.next.Some? && foreign ==> t == Track(pages + [page.next], ForeignHost, rest.left)
    ensures page.Page? && page.next.Some? && !foreign ==> Kept(t, pages + [page.next], rest)
  {
    assert pages + [] == pages;
    assert page.Page? ==> pages + ([page.next] + rest.pages) == (pages + [page.next]) + rest.pages;
  }

  /** The walk of `capture_master`: up to `maxPages` pages. */
  method WalkPages(c: Client, b: Budget, start: nat, maxPages: nat, dryRun: bool)
    returns (pages: seq<Option<nat>>, end: WalkEnd)
    requires Accounted(b, c)
    modifies b, c
    ensures Settled(b, c)
    ensures Track(pages, end, c.replies) ==
      TrackOf(old(b.Available()), c.maxAttempts, start, old(c.replies), maxPages, dryRun)
    ensures end.Unaffordable? ==> dryRun || b.Available() < c.maxAttempts
  {
    pages := [];
    var cursor := start;
    ghost var t := TrackOf(b.Available(), c.maxAttempts, start, c.replies, maxPages, dryRun);
    ghost var rest := t;
    while true
      invariant Settled(b, c) && |pages| <= maxPages
      invariant rest == TrackOf(b.Available(), c.maxAttempts, cursor, c.replies, maxPages - |pages|, dryRun)
      invariant Kept(t, pages, rest)
      decreases maxPages - |pages|
    {
      if |pages| >= maxPages {
        assert pages + [] == pages;
        return pages, PageLimit;
      }
      ghost var now, room := rest, maxPages - |pages|;
      var foreign, page := FetchNext(c, b, cursor, dryRun, room);
      rest := RestOf(b.Available(), c.maxAttempts, page, foreign, c.replies, room - 1, dryRun);
      KeptOn(t, pages, now, page, foreign, rest);
      match page {
        case Exhausted => return pages, Unaffordable;
        case AuthRejected => return pages, KeyRejected;
        case VendorError => return pages, BadReply;
        case Page(next) =>
          pages := pages + [next];
          if next.None? {
            return pages, NoCursor;
          }
          if foreign {
            return pages, ForeignHost;
          }
          cursor := next.value;
      }
    }
  }

  /** `capture_master`: walk, then stop and say so. */
  method CaptureMaster(c: Client, b: Budget, start: nat, maxPages: nat, dryRun: bool)
    returns (walk: Walk, capture: MasterCapture)
    requires Accounted(b, c)
    modifies b, c
    ensures Settled(b, c) && fresh(capture)
    // it keeps the pages of the walk, and says how the walk ended
    ensures var t := TrackOf(old(b.Available()), c.maxAttempts, start, old(c.replies), maxPages, dryRun);
      && capture.pages == t.pages && c.replies == t.left && !capture.noted
      && (walk.NotCaptured? <==> t.end.Unaffordable? && t.pages == []) && (walk.WalkRejected? <==> t.end.KeyRejected?)
      && (capture.failed <==> t.end.BadReply? || t.end.ForeignHost?)
      && (capture.truncated <==> t.end.PageLimit? || (t.end.Unaffordable? && t.pages != []))
    ensures capture.Consistent() && |capture.pages| <= maxPages
    // a walk stops early only at the page limit or at a call the balance forbids
    ensures walk.NotCaptured? ==> capture.pages == []
    ensures walk.NotCaptured? || (capture.truncated && |capture.pages| < maxPages) ==>
      dryRun || b.Available() < c.maxAttempts
    // and fails only on a reply that failed or named another host
    ensures capture.failed || walk.WalkRejected? ==> Troubled(old(c.replies), c.replies)
    // an untruncated, unfailed walk ended on a page without a next cursor
    ensures walk.Walked? && !capture.truncated && !capture.failed ==>
      capture.pages != [] && capture.pages[|capture.pages| - 1].None?
  {
    var pages, end := WalkPages(c, b, start, maxPages, dryRun);
    capture := new MasterCapture();
    capture.pages := pages;
    TrackShape(old(b.Available()), c.maxAttempts, start, old(c.replies), maxPages, dryRun);
    walk := Walked;
    if end.PageLimit? || (end.Unaffordable? && pages != []) {
      capture.truncated, capture.pending := true, true;
    } else if end.Unaffordable? {
      walk := NotCaptured;
    } else if !end.NoCursor? {
      TrackTroubles(old(b.Available()), c.maxAttempts, start, old(c.replies), maxPages, dryRun);
      if end.KeyRejected? {
        walk := WalkRejected;
      } else {
        capture.failed := true;
      }
    }
  }

  ghost predicate Distinct(s: seq<MasterCapture>) {
    forall i, j :: 0 <= i < j < |s| ==> s[i] != s[j]
  }

  ghost function TotalOwed(s: seq<MasterCapture>): nat
    reads s
  {
    if s == [] then 0 else s[0].Owed() + TotalOwed(s[1..])
  }

  lemma {:induction false} TotalOwedAppend(s: seq<MasterCapture>, m: MasterCapture)
    ensures TotalOwed(s + [m]) == TotalOwed(s) + m.Owed()
  {
    if s == [] {
      assert s + [m] == [m] && [m][1..] == [];
    } else {
      TotalOwedAppend(s[1..], m);
      assert (s + [m])[1..] == s[1..] + [m];
    }
  }

  twostate lemma {:induction false} TotalOwedUntouched(s: seq<MasterCapture>)
    requires forall m :: m in s ==> m.pages == old(m.pages)
    ensures TotalOwed(s) == old(TotalOwed(s))
  {
    if s != [] {
      TotalOwedUntouched(s[1..]);
    }
  }

  /** How one capture fares in a round. */
  datatype Turn = Deepened | Finished | Dropped | OutOfBudget | Auth

  /** One capture's turn: at most one page is added, and only to this capture. */
  method TakeTurn(c: Client, b: Budget, m: MasterCapture, dryRun: bool) returns (turn: Turn)
    requires Accounted(b, c) && m.pages != []
    modifies b, c, m
    ensures Settled(b, c) && (old(m.Consistent()) ==> m.Consistent())
    ensures |m.pages| == old(|m.pages|) + if turn.Deepened? then 1 else 0
    ensures old(m.pages) <= m.pages
    // what becomes of the reply decides the turn, and an added page carries that reply's next cursor
    ensures var reply := NextReply(old(c.replies));
      var asked := Asked(old(b.Available()), c.maxAttempts, reply, dryRun);
      && (turn.Finished? <==> old(m.pages[|m.pages| - 1].None?))
      && (turn.Deepened? ==> asked && reply.outcome.Answered? && !reply.foreignCursor)
      && (turn.Deepened? ==> m.pages[|m.pages| - 1] == Onward(reply.outcome.next, old(m.pages[|m.pages| - 1].value)))
      && (turn.Dropped? ==> reply.foreignCursor || (asked && reply.outcome.Failed?))
      && (turn.Auth? ==> asked && reply.outcome.Rejected?)
      && (turn.OutOfBudget? ==> !asked || !Affordable(old(b.Available()), reply))
    ensures turn.Deepened? && m.pending ==> m.Owed() < old(m.Owed())
    ensures !turn.Deepened? ==> m.Owed() == old(m.Owed())
    ensures turn.Deepened? ==> (m.pending <==> m.pages[|m.pages| - 1].Some?)
    ensures !dryRun && old(b.Available()) >= c.maxAttempts ==>
      !turn.OutOfBudget? && b.Available() >= old(b.Available()) - c.maxAttempts
    ensures turn.Finished? ==> b.spent == old(b.spent) && !m.pending && !m.truncated
    ensures turn.Finished? || turn.Dropped? || (turn.Deepened? && !m.pending) ==> Ended(m)
    ensures m.noted == (old(m.noted) || turn.Dropped?)
    ensures Consumed(old(c.replies), c.replies)
    ensures turn.Dropped? || turn.Auth? ==> Troubled(old(c.replies), c.replies)
    ensures Warm(old(c.replies)) ==> !turn.OutOfBudget?
    ensures Clean(old(c.replies)) ==> !turn.Dropped? && !turn.Auth?
  {
    var next := m.pages[|m.pages| - 1];
    if next.None? {
      m.pending, m.truncated := false, false;
      return Finished;
    }
    var reply := c.Receive();
    if reply.foreignCursor {
      m.noted := true;
      return Dropped; // split_url refuses a cursor on another host
    }
    var page := FetchPage(c, b, next.value, reply, dryRun);
    match page
    case Exhausted => turn := OutOfBudget;
    case AuthRejected => turn := Auth;
    case VendorError =>
      m.noted, turn := true, Dropped;
    case Page(following) =>
      m.pages := m.pages + [following];
      m.pending, m.truncated := following.Some?, following.Some?;
      turn := Deepened;
  }

  /** Captures of a round: distinct objects, each with a page to continue from. */
  ghost predicate Deepenable(s: seq<MasterCapture>)
    reads s
  {
    Distinct(s) && forall m :: m in s ==> m.pages != []
  }

  /** What the captures cost when every one of them uses all its attempts. */
  ghost function WorstCase<T>(s: seq<T>, maxAttempts: nat): nat {
    if s == [] then 0 else maxAttempts + WorstCase(s[1..], maxAttempts)
  }

  lemma {:induction false} WorstCaseIsProduct<T>(s: seq<T>, maxAttempts: nat)
    ensures WorstCase(s, maxAttempts) == |s| * maxAttempts
  {
    if s != [] {
      WorstCaseIsProduct(s[1..], maxAttempts);
    }
  }

  /** A turn, and the list of captures that stay pending after it. */
  method TakeTurnOf(c: Client, b: Budget, still: seq<MasterCapture>, m: MasterCapture,
                    ghost rest: seq<MasterCapture>, ghost owed: nat, dryRun: bool)
    returns (turn: Turn, left: seq<MasterCapture>)
    requires Accounted(b, c) && Deepenable(still) && m.pages != []
    requires m !in still && m !in rest && TotalOwed(still) + m.Owed() + TotalOwed(rest) <= owed
    modifies b, c, m
    ensures Settled(b, c)
    ensures Extended(m) && |m.pages| == old(|m.pages|) + if turn.Deepened? then 1 else 0
    ensures Deepenable(left)
    ensures Consumed(old(c.replies), c.replies) && (turn.Auth? ==> Troubled(old(c.replies), c.replies))
    ensures Warm(old(c.replies)) ==> !turn.OutOfBudget?
    ensures turn.Auth? || m in left || Ended(m)
    ensures Clean(old(c.replies)) ==> m.noted == old(m.noted) && !turn.Auth?
    ensures left == still || (left == still + [m] && (turn.OutOfBudget? || Deeper(m)))
    ensures turn.OutOfBudget? ==> left == still + [m]
    ensures !dryRun && old(b.Available()) >= c.maxAttempts ==>
      !turn.OutOfBudget? && b.Available() >= old(b.Available()) - c.maxAttempts
    ensures TotalOwed(left) + TotalOwed(rest) + (if turn.OutOfBudget? || turn.Auth? then 0 else 1) <= owed
  {
    turn := TakeTurn(c, b, m, dryRun);
    TotalOwedUntouched(still);
    TotalOwedUntouched(rest);
    TotalOwedAppend(still, m);
    left := still;
    if turn.OutOfBudget? || (turn.Deepened? && m.pending) {
      left := still + [m];
    }
  }

  /** The capture kept its pages and gained at most one. */
  twostate predicate Extended(m: MasterCapture) reads m {
    old(m.pages) <= m.pages && |m.pages| <= old(|m.pages|) + 1
  }

  /** The capture gained a page and can be deepened again. */
  twostate predicate Deeper(m: MasterCapture) reads m {
    m.pending && |m.pages| == old(|m.pages|) + 1
  }

  /** A capture as a round found it. */
  datatype Found = Found(pages: seq<Option<nat>>, noted: bool)

  /** The middle of a round: `rest` is still to come and `still` is what stays pending so far. */
  ghost predicate MidRound(pending: seq<MasterCapture>, rest: seq<MasterCapture>, still: seq<MasterCapture>,
                           exhausted: bool, rejected: bool, clean: bool, found: map<MasterCapture, Found>)
    requires forall m :: m in pending ==> m in found
    reads pending, rest, still
  {
    && Deepenable(still) && Deepenable(rest)
    && (forall m :: m in still ==> m in pending && m !in rest)
    && (forall m :: m in rest ==> m in pending && m.pages == found[m].pages && m.noted == found[m].noted)
    && (forall m :: m in pending && m !in rest ==>
          && found[m].pages <= m.pages && |m.pages| <= |found[m].pages| + 1
          && (rejected || m in still || Ended(m)) && (clean ==> m.noted == found[m].noted))
    && (!exhausted ==> forall m :: m in still ==> m.pending && |m.pages| == |found[m].pages| + 1)
  }

  /** No capture gained a page since the round found it. */
  ghost predicate NoneGained(pending: seq<MasterCapture>, found: map<MasterCapture, Found>)
    requires forall m :: m in pending ==> m in found
    reads pending
  {
    forall m :: m in pending ==> m.pages == found[m].pages
  }

  /** The turn of the next capture of a round. */
  method NextTurn(c: Client, b: Budget, ghost pending: seq<MasterCapture>, rest: seq<MasterCapture>,
                  still: seq<MasterCapture>, ghost exhausted: bool, ghost owed: nat, ghost clean: bool,
                  ghost found: map<MasterCapture, Found>, ghost first: seq<Reply>, dryRun: bool)
    returns (turn: Turn, left: seq<MasterCapture>)
    requires Accounted(b, c) && (clean ==> Clean(c.replies))
    requires rest != [] && forall m :: m in pending ==> m in found
    requires MidRound(pending, rest, still, exhausted, false, clean, found)
    requires TotalOwed(still) + TotalOwed(rest) <= owed && Consumed(first, c.replies)
    modifies b, c, rest[0]
    ensures Settled(b, c) && (clean ==> !turn.Auth?)
    ensures MidRound(pending, rest[1..], left, exhausted || turn.OutOfBudget?, turn.Auth?, clean, found)
    ensures NoneGained(pending, found) <==> old(NoneGained(pending, found)) && !turn.Deepened?
    ensures Consumed(first, c.replies) && (turn.Auth? ==> Troubled(first, c.replies))
    ensures Warm(old(c.replies)) ==> !turn.OutOfBudget?
    ensures |left| >= |still| + if turn.OutOfBudget? then 1 else 0
    ensures !dryRun && old(b.Available()) >= WorstCase(rest, c.maxAttempts) ==>
      !turn.OutOfBudget? && b.Available() >= WorstCase(rest[1..], c.maxAttempts)
    ensures TotalOwed(left) + TotalOwed(rest[1..]) + (if turn.OutOfBudget? || turn.Auth? then 0 else 1) <= owed
  {
    assert rest[0] !in rest[1..];
    ghost var replies := c.replies;
    turn, left := TakeTurnOf(c, b, still, rest[0], rest[1..], owed, dryRun);
    ConsumedNext(first, replies, c.replies);
  }

  /** One round of `_deepen`. */
  method Round(c: Client, b: Budget, pending: seq<MasterCapture>, dryRun: bool)
    returns (still: seq<MasterCapture>, deepened: nat, exhausted: bool, rejected: bool)
    requires Accounted(b, c) && Deepenable(pending)
    modifies b, c, set m | m in pending
    ensures Settled(b, c) && Deepenable(still)
    ensures forall m :: m in still ==> m in pending
    ensures forall m :: m in pending ==> Extended(m)
    // a capture leaves the rounds only when its chain ends or a note says why, which takes trouble
    ensures !rejected ==> forall m :: m in pending ==> m in still || Ended(m)
    ensures Clean(old(c.replies)) ==> !rejected && forall m :: m in pending ==> m.noted == old(m.noted)
    ensures Consumed(old(c.replies), c.replies) && (rejected ==> Troubled(old(c.replies), c.replies))
    // `deepened` says whether any capture gained a page
    ensures deepened == 0 <==> forall m :: m in pending ==> m.pages == old(m.pages)
    // a full cache is never exhausted, and what is refused stays pending
    ensures Warm(old(c.replies)) ==> !exhausted
    ensures exhausted ==> still != []
    // the pre-check covers every miss, forfeit and self-heal of a live round
    ensures !dryRun && old(b.Available()) >= |pending| * c.maxAttempts ==> !exhausted
    // a round without exhaustion adds exactly one page to everything it leaves pending
    ensures !exhausted && !rejected ==> forall m :: m in still ==> Deeper(m)
    // progress, unless the walk stops on exhaustion
    ensures TotalOwed(still) <= old(TotalOwed(pending))
    ensures pending != [] && !rejected && !(exhausted && deepened == 0) ==> TotalOwed(still) < old(TotalOwed(pending))
  {
    still, deepened, exhausted, rejected := [], 0, false, false;
    ghost var owed, clean, first := TotalOwed(pending), Clean(c.replies), c.replies;
    WorstCaseIsProduct(pending, c.maxAttempts);
    ghost var covered := !dryRun && b.Available() >= WorstCase(pending, c.maxAttempts);
    ghost var found := map m | m in pending :: Found(m.pages, m.noted);
    assert forall m :: m in pending ==> found[m] == Found(old(m.pages), old(m.noted));
    var rest := pending;
    while rest != [] && !rejected
      invariant Settled(b, c) && Consumed(first, c.replies) && (rejected ==> Troubled(first, c.replies) && !clean)
      invariant (Warm(first) ==> !exhausted) && (exhausted ==> still != [])
      invariant deepened == 0 <==> NoneGained(pending, found)
      invariant MidRound(pending, rest, still, exhausted, rejected, clean, found)
      invariant covered ==> !exhausted && b.Available() >= WorstCase(rest, c.maxAttempts)
      invariant TotalOwed(still) + TotalOwed(rest) <= owed <= old(TotalOwed(pending))
      invariant rest != pending && !exhausted && !rejected ==> owed < old(TotalOwed(pending))
      invariant deepened > 0 && !rejected ==> owed < old(TotalOwed(pending))
      decreases |rest|
    {
      var turn;
      turn, still := NextTurn(c, b, pending, rest, still, exhausted, owed, clean, found, first, dryRun);
      rest := rest[1..];
      deepened := deepened + if turn.Deepened? then 1 else 0;
      exhausted, rejected := exhausted || turn.OutOfBudget?, turn.Auth?;
      if !turn.OutOfBudget? && !rejected {
        owed := owed - 1;
      }
    }
  }

  /** The captures a deepening starts from, in their order. */
  function StillTruncated(captures: seq<MasterCapture>): seq<MasterCapture>
    reads captures
  {
    if captures == [] then []
    else
      (if captures[0].pending && captures[0].pages != [] then [captures[0]] else []) + StillTruncated(captures[1..])
  }

  lemma {:induction false} StillTruncatedIff(captures: seq<MasterCapture>)
    requires Distinct(captures)
    ensures forall m :: m in StillTruncated(captures) ==> m in captures && m.pending && m.pages != []
    ensures forall m :: m in captures && m.pending && m.pages != [] ==> m in StillTruncated(captures)
    ensures Deepenable(StillTruncated(captures))
  {
    if captures != [] {
      StillTruncatedIff(captures[1..]);
    }
  }

  /** `_deepen`: complete rounds until nothing is truncated or the budget cannot cover another. */
  method Deepen(c: Client, b: Budget, captures: seq<MasterCapture>, dryRun: bool)
    returns (pending: seq<MasterCapture>, rounds: nat, stuck: bool, rejected: bool)
    requires Accounted(b, c) && Distinct(captures)
    modifies b, c, set m | m in captures
    ensures Settled(b, c)
    ensures forall m :: m in captures ==> old(m.pages) <= m.pages && |m.pages| <= old(|m.pages|) + rounds
    ensures forall m :: m in captures && !old(m.pending) ==> unchanged(m)
    ensures forall m :: m in pending ==> m in captures && old(m.pending)
    // everything that was truncated is still pending, or ended; without trouble its chain ended
    ensures !rejected ==>
      forall m :: m in captures && old(m.pending) && old(m.pages) != [] ==> m in pending || Ended(m)
    ensures Clean(old(c.replies)) ==> !rejected && forall m :: m in captures ==> m.noted == old(m.noted)
    ensures rejected ==> Troubled(old(c.replies), c.replies)
    // it is stuck only after a dry round that added no page, which a full cache rules out
    ensures stuck ==> dryRun && pending != [] && rounds > 0 && !Warm(old(c.replies))
    ensures stuck ==> forall m :: m in captures ==> |m.pages| < old(|m.pages|) + rounds
    // live rounds leave everything still truncated equally deep
    ensures !dryRun && !rejected ==>
      forall m :: m in pending ==> m.pending && |m.pages| == old(|m.pages|) + rounds
    // the only ways to stop
    ensures !rejected && !stuck ==> pending == [] || b.Available() < |pending| * c.maxAttempts
  {
    pending, rounds, stuck, rejected := StillTruncated(captures), 0, false, false;
    StillTruncatedIff(captures);
    while pending != [] && b.Available() >= |pending| * c.maxAttempts
      invariant Settled(b, c) && Deepenable(pending) && !stuck && !rejected && Consumed(old(c.replies), c.replies)
      invariant forall m :: m in pending ==> m in captures && old(m.pending)
      invariant forall m :: m in captures ==> old(m.pages) <= m.pages && |m.pages| <= old(|m.pages|) + rounds
      invariant forall m :: m in captures && !old(m.pending) ==> unchanged(m)
      invariant forall m :: m in captures && old(m.pending) && old(m.pages) != [] ==> m in pending || Ended(m)
      invariant Clean(old(c.replies)) ==> forall m :: m in captures ==> m.noted == old(m.noted)
      invariant !dryRun ==> forall m :: m in pending ==> m.pending && |m.pages| == old(|m.pages|) + rounds
      decreases TotalOwed(pending)
    {
      ghost var replies := c.replies;
      var still, deepened, exhausted, refused := Round(c, b, pending, dryRun);
      ConsumedNext(old(c.replies), replies, c.replies);
      rounds, pending, rejected := rounds + 1, still, refused;
      stuck := !rejected && exhausted && deepened == 0;
      if rejected || stuck {
        break;
      }
    }
  }
}
