/**
 The capture's request budget and the calls it pays for: every miss is pre-charged its worst
 case and refunded, and a cache hit that no longer decodes is charged after the fact.
 */
module CaptureBudget {
  import opened Options

  datatype LogLine = Charged(what: string) | Refunded(what: string, unused: nat)

  /** What the log says was spent. */
  function Replay(entries: seq<LogLine>): int {
    if entries == [] then 0
    else Replay(entries[..|entries| - 1]) + Delta(entries[|entries| - 1])
  }

  function Delta(line: LogLine): int {
    match line
    case Charged(_) => 1
    case Refunded(_, n) => -(n as int)
  }

  lemma {:induction false} ReplayBlocks(entries: seq<LogLine>, what: string, blocks: nat)
    ensures Replay(entries + seq(blocks, _ => Charged(what))) == Replay(entries) + blocks
  {
    var more := seq(blocks, _ => Charged(what));
    if blocks == 0 {
      assert entries + more == entries;
    } else {
      ReplayBlocks(entries, what, blocks - 1);
      assert (entries + more)[..|entries + more| - 1] == entries + seq(blocks - 1, _ => Charged(what));
    }
  }

  class Budget {
    const limit: int
    var spent: int
    var reserved: int
    var entries: seq<LogLine>

    constructor (limit: int)
      ensures this.limit == limit && spent == 0 && reserved == 0 && entries == []
    {
      this.limit, spent, reserved, entries := limit, 0, 0, [];
    }

    function Available(): int reads this {
      limit - spent - reserved
    }

    /** The log replays to exactly the spend, and the spend respects the cap. */
    ghost predicate Sound() reads this {
      Replay(entries) == spent && 0 <= spent && (reserved >= 0 ==> spent <= limit)
    }

    method ChargeBlock(what: string, blocks: nat) returns (ok: bool)
      modifies this
      ensures reserved == old(reserved) && ok == old(Available() >= blocks)
      ensures spent == old(spent) + if ok then blocks else 0
      ensures entries == old(entries) + if ok then seq(blocks, _ => Charged(what)) else []
      ensures old(Sound()) ==> Sound()
    {
      ok := Available() >= blocks;
      if ok {
        ReplayBlocks(entries, what, blocks);
        spent := spent + blocks;
        entries := entries + seq(blocks, _ => Charged(what));
      }
    }

    method Refund(what: string, unused: int)
      modifies this
      ensures reserved == old(reserved) && spent == old(spent) - if unused < 1 then 0 else unused
      ensures entries == old(entries) + if unused < 1 then [] else [Refunded(what, unused)]
      ensures old(Sound()) && unused <= old(spent) ==> Sound()
    {
      if unused < 1 {
        return;
      }
      spent := spent - unused;
      entries := entries + [Refunded(what, unused)];
      assert entries[..|entries| - 1] == old(entries);
    }

    method Reserve(count: int)
      modifies this
      ensures spent == old(spent) && entries == old(entries) && reserved == old(reserved) + count
    {
      reserved := reserved + count;
    }

    method Release(count: int)
      modifies this
      ensures spent == old(spent) && entries == old(entries)
      ensures reserved == if old(reserved) < count then 0 else old(reserved) - count
    {
      reserved := if reserved - count > 0 then reserved - count else 0;
    }
  }

  /** How one `get_json` call goes.  `hit` says that the cache holds a body for the key, `wire` how
      many requests went out, and `outcome` how it ended. */
  datatype Outcome = Answered(next: Option<nat>) | Failed | Rejected
  datatype Reply = Reply(hit: bool, wire: nat, outcome: Outcome, foreignCursor: bool)
  /** What `fetch_page` hands back: a page with its next cursor, or one of the exceptions. */
  datatype Fetched = Page(next: Option<nat>) | Exhausted | VendorError | AuthRejected

  /** The call is made unless it is a miss that a dry run or the balance forbids. */
  predicate Asked(available: int, maxAttempts: nat, reply: Reply, dryRun: bool) {
    reply.hit || (!dryRun && available >= maxAttempts)
  }

  /** The balance can pay for what a hit sent after all. */
  predicate Affordable(available: int, reply: Reply) {
    reply.hit && reply.wire > 0 ==> available >= reply.wire
  }

  function Sent(available: int, maxAttempts: nat, reply: Reply, dryRun: bool): nat {
    if Asked(available, maxAttempts, reply, dryRun) then reply.wire else 0
  }

  /** What a call adds to the spend in the end: its wire requests when it is answered, and the whole
      block when a miss fails; a hit that fails or cannot be paid costs nothing. */
  function Cost(available: int, maxAttempts: nat, reply: Reply, dryRun: bool): nat {
    if !Asked(available, maxAttempts, reply, dryRun) then 0
    else if reply.outcome.Answered? then (if Affordable(available, reply) then reply.wire else 0)
    else if reply.hit then 0
    else maxAttempts
  }

  /** The next cursor of a page: the reply's own, which is nearer to the end of the chain. */
  function Onward(next: Option<nat>, cursor: nat): Option<nat> {
    if next.None? || cursor == 0 then None
    else if next.value < cursor then next
    else Some(cursor - 1)
  }

  /** A page has no next cursor exactly when its reply had none, or no page is left; a cursor that names
      a later page is kept as it is. */
  lemma {:induction false} OnwardIs(next: Option<nat>, cursor: nat)
    ensures Onward(next, cursor) == None <==> next == None || cursor == 0
    ensures next.Some? && next.value < cursor ==> Onward(next, cursor) == next
    ensures Onward(next, cursor).Some? ==> Onward(next, cursor).value < cursor
  {}

  /** The reply a call gets; when the replies run out, chains end. */
  function NextReply(replies: seq<Reply>): Reply {
    if replies == [] then Reply(true, 0, Answered(None), false) else replies[0]
  }

  function Remaining(replies: seq<Reply>): seq<Reply> {
    if replies == [] then [] else replies[1..]
  }

  datatype Tally = Tally(spent: int, sent: nat)

  /** The spend and the wire count after a run of calls. */
  function After(limit: int, reserved: int, maxAttempts: nat, t: Tally, replies: seq<Reply>, dryRun: bool): Tally
    decreases |replies|
  {
    if replies == [] then t
    else
      var available := limit - t.spent - reserved;
      After(limit, reserved, maxAttempts,
            Tally(t.spent + Cost(available, maxAttempts, replies[0], dryRun),
                  t.sent + Sent(available, maxAttempts, replies[0], dryRun)), replies[1..], dryRun)
  }

  predicate WithinAttempts(replies: seq<Reply>, maxAttempts: nat) {
    forall i :: 0 <= i < |replies| ==> replies[i].wire <= maxAttempts
  }

  lemma {:induction false} CapKept(limit: int, reserved: int, maxAttempts: nat, t: Tally, replies: seq<Reply>,
                                   dryRun: bool)
    requires reserved >= 0 && t.spent <= limit && WithinAttempts(replies, maxAttempts)
    ensures After(limit, reserved, maxAttempts, t, replies, dryRun).spent <= limit
    decreases |replies|
  {
    if replies != [] {
      var available, reply := limit - t.spent - reserved, replies[0];
      CapKept(limit, reserved, maxAttempts,
              Tally(t.spent + Cost(available, maxAttempts, reply, dryRun),
                    t.sent + Sent(available, maxAttempts, reply, dryRun)),
              replies[1..], dryRun);
    }
  }

  /** Calls of one request each, all of them affordable: misses, or in a dry run hits that no longer decode. */
  function OneEach(n: nat, dryRun: bool): seq<Reply> {
    seq(n, _ => Reply(dryRun, 1, Answered(None), false))
  }

  lemma {:induction false} OneEachSpends(limit: int, reserved: int, t: Tally, n: nat, dryRun: bool)
    requires n <= limit - t.spent - reserved
    ensures After(limit, reserved, 1, t, OneEach(n, dryRun), dryRun) == Tally(t.spent + n, t.sent + n)
    decreases n
  {
    if n > 0 {
      assert OneEach(n, dryRun)[1..] == OneEach(n - 1, dryRun);
      OneEachSpends(limit, reserved, Tally(t.spent + 1, t.sent + 1), n - 1, dryRun);
    }
  }

  /** Every run of calls keeps the spend within the cap if and only if the reserve it starts under is
      not negative; nothing in the capture keeps a caller from reserving a negative number of bars. */
  lemma {:induction false} CapHoldsIffReserveIsNotNegative(limit: int, reserved: int, t: Tally, dryRun: bool)
    requires t.spent <= limit
    ensures reserved >= 0 <==>
      forall maxAttempts: nat, replies | WithinAttempts(replies, maxAttempts) ::
        After(limit, reserved, maxAttempts, t, replies, dryRun).spent <= limit
  {
    if reserved >= 0 {
      forall maxAttempts: nat, replies | WithinAttempts(replies, maxAttempts)
        ensures After(limit, reserved, maxAttempts, t, replies, dryRun).spent <= limit
      {
        CapKept(limit, reserved, maxAttempts, t, replies, dryRun);
      }
    } else {
      var n := limit - t.spent - reserved;
      OneEachSpends(limit, reserved, t, n, dryRun);
      assert WithinAttempts(OneEach(n, dryRun), 1);
    }
  }

  /** Hits that no longer decode and whose refetch fails are never charged: under any cap, any number of
      requests goes out for nothing. */
  lemma {:induction false} FailedHealsAreFree(limit: int, reserved: int, t: Tally, n: nat, dryRun: bool)
    ensures After(limit, reserved, 1, t, seq(n, _ => Reply(true, 1, Failed, false)), dryRun) ==
      Tally(t.spent, t.sent + n)
    decreases n
  {
    if n > 0 {
      var heals := seq(n, _ => Reply(true, 1, Failed, false));
      assert heals[1..] == seq(n - 1, _ => Reply(true, 1, Failed, false));
      FailedHealsAreFree(limit, reserved, Tally(t.spent, t.sent + 1), n - 1, dryRun);
    }
  }

  /** Every body the cache still holds decodes, so no hit reaches the wire. */
  ghost predicate HitsDecode(replies: seq<Reply>) {
    replies != [] ==> (replies[0].hit ==> replies[0].wire == 0) && HitsDecode(replies[1..])
  }

  /** The cache holds every page there is to fetch. */
  ghost predicate Warm(replies: seq<Reply>) {
    replies != [] ==> replies[0].hit && replies[0].wire == 0 && Warm(replies[1..])
  }

  /** No call fails and no cursor names another host. */
  ghost predicate Clean(replies: seq<Reply>) {
    replies != [] ==> replies[0].outcome.Answered? && !replies[0].foreignCursor && Clean(replies[1..])
  }

  /** A cursor is the number of pages its chain can still have after the page it names: a finite
      chain is one along which that number drops. */
  class Client {
    const maxAttempts: nat
    var replies: seq<Reply>  // the replies to come; when they run out, chains end
    var requests: nat        // the client's own wire counter
    ghost var forfeited: nat // pre-charged and never sent, because the call raised
    ghost var unpaid: nat    // sent by a self-healing hit and never charged

    constructor (maxAttempts: nat, replies: seq<Reply>)
      requires WithinAttempts(replies, maxAttempts)
      ensures this.maxAttempts == maxAttempts && this.replies == replies
      ensures requests == 0 && forfeited == 0 && unpaid == 0 && Bounded()
    {
      this.maxAttempts, this.replies, requests, forfeited, unpaid := maxAttempts, replies, 0, 0, 0;
    }

    /** The client's contract: one call never sends more than the attempt limit. */
    ghost predicate Bounded() reads this {
      WithinAttempts(replies, maxAttempts)
    }

    method Receive() returns (r: Reply)
      requires Bounded()
      modifies this`replies
      ensures Bounded() && r.wire <= maxAttempts
      ensures r == NextReply(old(replies)) && replies == Remaining(old(replies))
      ensures Clean(old(replies)) ==> Clean(replies) && r.outcome.Answered? && !r.foreignCursor
      ensures HitsDecode(old(replies)) ==> HitsDecode(replies) && (r.hit ==> r.wire == 0)
      ensures Warm(old(replies)) ==> Warm(replies) && r.hit && r.wire == 0
    {
      r := Reply(true, 0, Answered(None), false);
      if replies != [] {
        r, replies := replies[0], replies[1..];
      }
    }
  }

  /** The exact account of a session: what was spent plus what was never charged is what went out
      plus what was paid for nothing. */
  ghost predicate Accounted(b: Budget, c: Client)
    reads b, c
  {
    b.Sound() && c.Bounded() && b.spent + c.unpaid == c.requests + c.forfeited
  }

  /** The books on a call that raised: a miss forfeits what it did not send, a hit is never charged. */
  ghost method WriteOff(c: Client, reply: Reply)
    requires reply.wire <= c.maxAttempts
    modifies c`forfeited, c`unpaid
    ensures c.unpaid == old(c.unpaid) + if reply.hit then reply.wire else 0
    ensures c.forfeited == old(c.forfeited) + if reply.hit then 0 else c.maxAttempts - reply.wire
  {
    if reply.hit {
      c.unpaid := c.unpaid + reply.wire;
    } else {
      c.forfeited := c.forfeited + c.maxAttempts - reply.wire;
    }
  }

  /** `fetch_page`, after the cursor was split; `reply` is how its one client call goes. */
  method FetchPage(c: Client, b: Budget, cursor: nat, reply: Reply, dryRun: bool) returns (f: Fetched)
    requires Accounted(b, c) && reply.wire <= c.maxAttempts
    modifies b, c`requests, c`forfeited, c`unpaid
    ensures Accounted(b, c) && b.reserved == old(b.reserved)
    // a page carries its reply's next cursor, which is nearer to the end of the chain
    ensures f.Page? ==> reply.outcome.Answered? && f.next == Onward(reply.outcome.next, cursor)
    ensures f.Page? && f.next.Some? ==> f.next.value < cursor
    // hits that decode are free, so nothing is left unpaid
    ensures (reply.hit ==> reply.wire == 0) ==> c.unpaid == old(c.unpaid)
    // a call that can pay its worst case is never refused, and costs no more than that
    ensures !dryRun && old(b.Available()) >= c.maxAttempts ==>
      !f.Exhausted? && b.Available() >= old(b.Available()) - c.maxAttempts
    // the exact charge, wire count and result
    ensures b.spent == old(b.spent) + Cost(old(b.Available()), c.maxAttempts, reply, dryRun)
    ensures c.requests == old(c.requests) + Sent(old(b.Available()), c.maxAttempts, reply, dryRun)
    ensures f.Exhausted? ==> b.spent == old(b.spent) && (dryRun || b.Available() < c.maxAttempts)
    ensures var asked := Asked(old(b.Available()), c.maxAttempts, reply, dryRun);
      && (f.VendorError? <==> asked && reply.outcome.Failed?) && (f.AuthRejected? <==> asked && reply.outcome.Rejected?)
      && (f.Page? <==> asked && reply.outcome.Answered? && Affordable(old(b.Available()), reply))
    // the wire stays within the spend exactly when no hit sends requests that fail or cannot be paid
    ensures c.requests - old(c.requests) <= b.spent - old(b.spent) <==>
            (reply.hit && reply.wire > 0 ==> reply.outcome.Answered? && old(b.Available()) >= reply.wire)
  {
    if !reply.hit {
      if dryRun {
        return Exhausted;
      }
      var ok := b.ChargeBlock("page", c.maxAttempts);
      if !ok {
        return Exhausted;
      }
    }
    c.requests := c.requests + reply.wire;
    match reply.outcome
    case Answered(next) =>
      if !reply.hit {
        b.Refund("page", c.maxAttempts - reply.wire);
      } else if reply.wire > 0 {
        var ok := b.ChargeBlock("page [self-heal refetch]", reply.wire);
        if !ok {
          c.unpaid := c.unpaid + reply.wire;
          return Exhausted;
        }
      }
      f := Page(if next.None? || cursor == 0 then None
                else Some(if next.value < cursor then next.value else cursor - 1));
    case Failed =>
      f := VendorError;
      WriteOff(c, reply);
    case Rejected =>
      f := AuthRejected;
      WriteOff(c, reply);
  }

  /** The run behind the negative reserve: before the bars are fetched their number is reserved, pages
      are fetched as long as the balance allows, and the reserve is released.  With a negative number
      more requests go out than the cap, and the balance ends below zero. */
  method Overspend(limit: nat, bars: int) returns (b: Budget, c: Client)
    requires bars < 0
    ensures b.limit == limit && b.spent > limit && c.requests > limit && b.Available() < 0
  {
    b := new Budget(limit);
    c := new Client(1, []);
    b.Reserve(bars);
    for i := 0 to limit - bars
      invariant fresh(b) && fresh(c) && b.limit == limit && c.maxAttempts == 1
      invariant Accounted(b, c) && b.spent == i && c.requests == i && b.reserved == bars
    {
      var page := FetchPage(c, b, 0, Reply(false, 1, Answered(None), false), false);
    }
    b.Release(bars);
  }
}
