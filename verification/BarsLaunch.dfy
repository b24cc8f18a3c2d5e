/**
 The bars-era launch: any number of launchers on any number of run stores share one authority
 ledger.  Each takes its store's lease, spends the work manifest under the ledger lock, moves its
 store to BARS_CAPTURING and starts the runner; each may crash anywhere, also in the middle of a
 write to the ledger.
 */
module BarsLaunch {
  import opened HashChain
  import opened LedgerFiles
  import opened Options

  datatype Kind = LaunchApproval | LaunchConsumed

  datatype LedgerRecord = LedgerRecord(kind: Kind, protocolHash: string, packet: string, census: string, work: string)

  datatype RunState = Planned | CapturingMasters | CaptureComplete | InspectionRunning | InspectionFailed | Inspected
                    | AmendmentPendingOwner | AmendmentReady | BarsReady | BarsCapturing | BarsComplete
                    | SealedPreflightReady | SealedRunning | SealedComplete | Failed

  /** The legal edges into BARS_CAPTURING: the forward edge and the retry edge. */
  predicate MayStartCapturing(s: RunState) {
    s.BarsReady? || s.Failed?
  }

  /** What a launcher was given: the verified hashes, and the packet when one is presented. */
  datatype Inputs = Inputs(protocolHash: string, packet: Option<string>, census: string, work: string)

  /* ---- the approval join ---- */

  predicate Binds(r: LedgerRecord, i: Inputs) {
    && r.kind.LaunchApproval?
    && r.protocolHash == i.protocolHash
    && r.work == i.work
    && (i.packet.Some? ==> r.packet == i.packet.value)
    && r.census == i.census
  }

  function ApprovalsBinding(view: seq<LedgerRecord>, protocolHash: string): seq<LedgerRecord> {
    if view == [] then []
    else (if view[0].kind.LaunchApproval? && view[0].protocolHash == protocolHash then [view[0]] else [])
         + ApprovalsBinding(view[1..], protocolHash)
  }

  function NarrowWork(rs: seq<LedgerRecord>, work: string): seq<LedgerRecord> {
    if rs == [] then [] else (if rs[0].work == work then [rs[0]] else []) + NarrowWork(rs[1..], work)
  }

  function NarrowPacket(rs: seq<LedgerRecord>, packet: Option<string>): seq<LedgerRecord> {
    if packet.None? || rs == [] then rs
    else (if rs[0].packet == packet.value then [rs[0]] else []) + NarrowPacket(rs[1..], packet)
  }

  function NarrowCensus(rs: seq<LedgerRecord>, census: string): seq<LedgerRecord> {
    if rs == [] then [] else (if rs[0].census == census then [rs[0]] else []) + NarrowCensus(rs[1..], census)
  }

  /** The four narrowings of `run_execute`, in its order; the first survivor is the approval. */
  function Join(view: seq<LedgerRecord>, i: Inputs): Option<LedgerRecord> {
    var byProtocol := ApprovalsBinding(view, i.protocolHash);
    var byWork := NarrowWork(byProtocol, i.work);
    var byPacket := NarrowPacket(byWork, i.packet);
    var byCensus := NarrowCensus(byPacket, i.census);
    if byCensus == [] then None else Some(byCensus[0])
  }

  ghost predicate NoneBindsBefore(view: seq<LedgerRecord>, k: nat, i: Inputs)
    requires k <= |view|
  {
    forall j :: 0 <= j < k ==> !Binds(view[j], i)
  }

  /** No approval is shadowed by an earlier one: the join finds the first record that binds every
      input, and finds none only when there is none. */
  lemma {:induction false} JoinFindsFirst(view: seq<LedgerRecord>, i: Inputs)
    ensures Join(view, i).None? <==> forall r :: r in view ==> !Binds(r, i)
    ensures Join(view, i).Some? ==>
      exists k :: 0 <= k < |view| && Join(view, i).value == view[k] && Binds(view[k], i) && NoneBindsBefore(view, k, i)
  {
    if view != [] {
      var rest := view[1..];
      JoinFindsFirst(rest, i);
      JoinSteps(view, i);
      if Binds(view[0], i) {
        assert Join(view, i).value == view[0];
      } else if Join(rest, i).Some? {
        var k :| 0 <= k < |rest| && Join(rest, i).value == rest[k] && Binds(rest[k], i) && NoneBindsBefore(rest, k, i);
        assert view[k + 1] == rest[k];
        forall j | 0 <= j < k + 1 ensures !Binds(view[j], i) {
          assert j > 0 ==> view[j] == rest[j - 1];
        }
      }
      forall r | r in view ensures r == view[0] || r in rest {}
    }
  }

  lemma JoinSteps(view: seq<LedgerRecord>, i: Inputs)
    requires view != []
    ensures Join(view, i) == if Binds(view[0], i) then Some(view[0]) else Join(view[1..], i)
  {
    var head := if view[0].kind.LaunchApproval? && view[0].protocolHash == i.protocolHash then [view[0]] else [];
    var tail := ApprovalsBinding(view[1..], i.protocolHash);
    NarrowWorkAdds(head, tail, i.work);
    var head2, tail2 := NarrowWork(head, i.work), NarrowWork(tail, i.work);
    NarrowPacketAdds(head2, tail2, i.packet);
    var head3, tail3 := NarrowPacket(head2, i.packet), NarrowPacket(tail2, i.packet);
    NarrowCensusAdds(head3, tail3, i.census);
  }

  lemma {:induction false} NarrowWorkAdds(a: seq<LedgerRecord>, b: seq<LedgerRecord>, work: string)
    requires |a| <= 1
    ensures NarrowWork(a + b, work) == NarrowWork(a, work) + NarrowWork(b, work)
  {
    if a != [] {
      assert (a + b)[1..] == b && a[1..] == [];
    } else {
      assert a + b == b;
    }
  }

  lemma {:induction false} NarrowPacketAdds(a: seq<LedgerRecord>, b: seq<LedgerRecord>, packet: Option<string>)
    requires |a| <= 1
    ensures NarrowPacket(a + b, packet) == NarrowPacket(a, packet) + NarrowPacket(b, packet)
  {
    if a != [] {
      assert (a + b)[1..] == b && a[1..] == [];
    } else {
      assert a + b == b;
    }
  }

  lemma {:induction false} NarrowCensusAdds(a: seq<LedgerRecord>, b: seq<LedgerRecord>, census: string)
    requires |a| <= 1
    ensures NarrowCensus(a + b, census) == NarrowCensus(a, census) + NarrowCensus(b, census)
  {
    if a != [] {
      assert (a + b)[1..] == b && a[1..] == [];
    } else {
      assert a + b == b;
    }
  }

  /* ---- the launch machine ---- */

  datatype Store = Store(state: RunState, lease: Option<nat>)

  datatype Pc =
    | Start
    | Opened                                                   // store BARS_READY, no lease
    | Viewed(view: seq<LedgerRecord>)
    | Joined(approval: LedgerRecord)                           // joins hold, no consumption in the view
    | Leased(approval: LedgerRecord)
    | TailRead(approval: LedgerRecord, tail: Digest<LedgerRecord>)
    | Consumed(at: nat)
    | Duplicate                                                // lost the race, lease not yet released
    | Capturing(at: nat)
    | RunnerStarted(at: nat)
    | Refused
    | Aborted                                                  // crashed or ended by an exception

  datatype Launcher = Launcher(store: nat, inputs: Inputs, pc: Pc)

  type Ledger = File<LedgerRecord>

  /** `history` lists every record whose bytes reached the file in full, also one that no reader can
      get at any more. */
  datatype World = World(file: Ledger, history: seq<LedgerRecord>, stores: seq<Store>, launchers: seq<Launcher>)

  /** `cut` says that the writer dies while it writes, and what of the write reached the file. */
  datatype Choice = Proceed(holds: bool, cut: Option<Torn>) | Crash

  datatype Event = Launch(who: nat, choice: Choice) | Approve(approval: LedgerRecord, cut: Option<Torn>)

  predicate ConsumedIn(ledger: seq<LedgerRecord>, work: string) {
    exists r :: r in ledger && r.kind.LaunchConsumed? && r.work == work
  }

  function Spend(i: Inputs, approval: LedgerRecord): LedgerRecord {
    LedgerRecord(LaunchConsumed, i.protocolHash, approval.packet, approval.census, i.work)
  }

  /** The locked append of a consumption: a damaged final line refuses first, and the duplicate guard
      comes before the tail comparison. */
  datatype AppendOutcome = Appended | DamagedTail | DuplicateRefused | StaleTail

  function LockedAppend(file: Ledger, tail: Digest<LedgerRecord>, work: string): AppendOutcome {
    if !Intact(file) then DamagedTail
    else if ConsumedIn(Records(file), work) then DuplicateRefused
    else if TailOf(Records(file)) != tail then StaleTail
    else Appended
  }

  /** The record an act appends, if it appends one. */
  function Appends(file: Ledger, l: Launcher, c: Choice): Option<LedgerRecord> {
    if c.Proceed? && l.pc.TailRead? && LockedAppend(file, l.pc.tail, l.inputs.work).Appended? then
      Some(Spend(l.inputs, l.pc.approval))
    else None
  }

  function CutOf(c: Choice): Option<Torn> {
    if c.Crash? then None else c.cut
  }

  /** One act of launcher `me` on its own store; an appended record is number `at`.  A crash leaves the
      lease behind; so does a damaged or a stale tail, whose exception `run_execute` does not catch. */
  function Act(file: Ledger, at: nat, s: Store, me: nat, l: Launcher, c: Choice): (Store, Pc) {
    if c.Crash? then (s, if l.pc.RunnerStarted? then l.pc else Aborted)
    else match l.pc
      case Start => (s, if s.state.BarsReady? && s.lease.None? then Opened else Refused)
      case Opened => (s, Viewed(Records(file)))
      case Viewed(view) =>
        (match Join(view, l.inputs)
         case Some(approval) => (s, if c.holds && !ConsumedIn(view, l.inputs.work) then Joined(approval) else Refused)
         case None => (s, Refused))
      case Joined(approval) =>
        if s.lease.Some? then (s, Refused) else (s.(lease := Some(me)), Leased(approval))
      case Leased(approval) => (s, TailRead(approval, TailOf(Records(file))))
      case TailRead(approval, tail) =>
        (match LockedAppend(file, tail, l.inputs.work)
         case Appended => (s, if c.cut.None? then Consumed(at) else Aborted)
         case DamagedTail => (s, Aborted)
         case DuplicateRefused => (s, Duplicate)
         case StaleTail => (s, Aborted))
      case Duplicate => (if s.lease == Some(me) then s.(lease := None) else s, Refused)
      case Consumed(at) =>
        if MayStartCapturing(s.state) then (s.(state := BarsCapturing), Capturing(at)) else (s, Aborted)
      case Capturing(at) => (s, RunnerStarted(at))
      case RunnerStarted(_) => (s, l.pc)
      case Refused => (s, l.pc)
      case Aborted => (s, l.pc)
  }

  function Append(w: World, r: LedgerRecord, cut: Option<Torn>): World {
    w.(file := WrittenBy(w.file, NextLine(Records(w.file), r), cut), history := GrownBy(w.history, r, cut))
  }

  function Step(w: World, e: Event): World {
    match e
    case Approve(r, cut) => if r.kind.LaunchApproval? && Intact(w.file) then Append(w, r, cut) else w
    case Launch(who, c) =>
      if who >= |w.launchers| || w.launchers[who].store >= |w.stores| then w
      else
        var l := w.launchers[who];
        var (s, pc) := Act(w.file, |w.history|, w.stores[l.store], who, l, c);
        var moved := w.(stores := w.stores[l.store := s], launchers := w.launchers[who := l.(pc := pc)]);
        match Appends(w.file, l, c)
        case Some(r) => Append(moved, r, CutOf(c))
        case None => moved
  }

  function Run(w: World, events: seq<Event>): World
    decreases |events|
  {
    if events == [] then w else Run(Step(w, events[0]), events[1..])
  }

  /* ---- what every reachable world satisfies ---- */

  ghost predicate EachWorkOnce(ledger: seq<LedgerRecord>) {
    forall i, j :: 0 <= i < j < |ledger| && ledger[i].kind.LaunchConsumed? && ledger[j].kind.LaunchConsumed? ==>
      ledger[i].work != ledger[j].work
  }

  ghost predicate EachSpendApproved(ledger: seq<LedgerRecord>) {
    forall i :: 0 <= i < |ledger| && ledger[i].kind.LaunchConsumed? ==>
      exists j :: 0 <= j < i && ledger[j] == ledger[i].(kind := LaunchApproval)
  }

  predicate HoldsLease(pc: Pc) {
    pc.Leased? || pc.TailRead? || pc.Consumed? || pc.Duplicate? || pc.Capturing? || pc.RunnerStarted?
  }

  function SpendIndex(pc: Pc): Option<nat> {
    match pc
    case Consumed(at) => Some(at)
    case Capturing(at) => Some(at)
    case RunnerStarted(at) => Some(at)
    case _ => None
  }

  ghost predicate ApprovalKnown(ledger: seq<LedgerRecord>, i: Inputs, approval: LedgerRecord) {
    approval in ledger && Binds(approval, i)
  }

  ghost predicate LauncherOk(ledger: seq<LedgerRecord>, s: Store, me: nat, l: Launcher) {
    && (l.pc.Opened? || l.pc.Viewed? || l.pc.Joined? ==> s.state.BarsReady? || s.lease.Some?)
    && (HoldsLease(l.pc) ==> s.lease == Some(me))
    && (HoldsLease(l.pc) && !l.pc.Capturing? && !l.pc.RunnerStarted? ==> s.state.BarsReady?)
    && (l.pc.Capturing? || l.pc.RunnerStarted? ==> s.state.BarsCapturing?)
    && (l.pc.Viewed? ==> l.pc.view <= ledger)
    && (l.pc.Joined? || l.pc.Leased? || l.pc.TailRead? ==> ApprovalKnown(ledger, l.inputs, l.pc.approval))
    && (SpendIndex(l.pc).Some? ==>
          && SpendIndex(l.pc).value < |ledger|
          && ledger[SpendIndex(l.pc).value].kind.LaunchConsumed?
          && Binds(ledger[SpendIndex(l.pc).value].(kind := LaunchApproval), l.inputs))
  }

  ghost predicate Invariant(w: World) {
    && EachWorkOnce(w.history) && EachSpendApproved(w.history) && Tracks(w.file, w.history)
    && (forall i :: 0 <= i < |w.launchers| && w.launchers[i].store < |w.stores| ==>
          LauncherOk(w.history, w.stores[w.launchers[i].store], i, w.launchers[i]))
    && (forall i :: 0 <= i < |w.launchers| && w.launchers[i].store >= |w.stores| ==> w.launchers[i].pc.Start?)
    && (forall i, j :: 0 <= i < j < |w.launchers| && SpendIndex(w.launchers[i].pc).Some? ==>
          SpendIndex(w.launchers[i].pc) != SpendIndex(w.launchers[j].pc))
  }

  ghost predicate Initial(w: World) {
    && EachWorkOnce(w.history) && EachSpendApproved(w.history) && Tracks(w.file, w.history)
    && forall i :: 0 <= i < |w.launchers| ==> w.launchers[i].pc.Start?
  }

  /** What an act appends consumes an unspent manifest after its approval. */
  lemma {:induction false} AppendIsSafe(file: Ledger, history: seq<LedgerRecord>, s: Store, me: nat, l: Launcher,
                                        c: Choice)
    requires EachWorkOnce(history) && EachSpendApproved(history) && Tracks(file, history)
    requires LauncherOk(history, s, me, l) && Appends(file, l, c).Some?
    ensures var grown := GrownBy(history, Appends(file, l, c).value, CutOf(c));
      Intact(file) && EachWorkOnce(grown) && EachSpendApproved(grown) && history <= grown
  {
    var r := Spend(l.inputs, l.pc.approval);
    assert r.(kind := LaunchApproval) == l.pc.approval;
    var j :| 0 <= j < |history| && history[j] == l.pc.approval;
    SpendsApproved(history, r);
  }

  /** Where an act leads is fine over the history as it is then. */
  lemma {:induction false} ActKeeps(file: Ledger, history: seq<LedgerRecord>, s: Store, me: nat, l: Launcher, c: Choice,
                                    grown: seq<LedgerRecord>)
    requires Tracks(file, history) && LauncherOk(history, s, me, l) && history <= grown
    requires Appends(file, l, c).Some? && CutOf(c).None? ==> grown == history + [Appends(file, l, c).value]
    ensures var (s', pc) := Act(file, |history|, s, me, l, c);
      && LauncherOk(grown, s', me, l.(pc := pc))
      && (SpendIndex(pc) == SpendIndex(l.pc) || SpendIndex(pc) == None || SpendIndex(pc) == Some(|history|))
      && StoreMoves(s, s', me)
  {
    if c.Proceed? && l.pc.Viewed? {
      JoinFindsFirst(l.pc.view, l.inputs);
    }
  }

  lemma SpendsApproved(ledger: seq<LedgerRecord>, r: LedgerRecord)
    requires EachSpendApproved(ledger)
    requires r.kind.LaunchConsumed? ==> exists j :: 0 <= j < |ledger| && ledger[j] == r.(kind := LaunchApproval)
    ensures EachSpendApproved(ledger + [r])
  {
    var grown := ledger + [r];
    forall i | 0 <= i < |grown| && grown[i].kind.LaunchConsumed?
      ensures exists j :: 0 <= j < i && grown[j] == grown[i].(kind := LaunchApproval)
    {
      if i < |ledger| {
        var j :| 0 <= j < i && ledger[j] == ledger[i].(kind := LaunchApproval);
        assert grown[j] == grown[i].(kind := LaunchApproval);
      } else {
        var j :| 0 <= j < |ledger| && ledger[j] == r.(kind := LaunchApproval);
        assert grown[j] == grown[i].(kind := LaunchApproval);
      }
    }
  }

  /** How a store can move under one act of `me`: nothing changes for a store held by another, a
      lease is taken or given back only while BARS_READY, and the state only moves under `me`. */
  ghost predicate StoreMoves(s: Store, s': Store, me: nat) {
    || s' == s
    || (s.lease == None && s' == s.(lease := Some(me)))
    || (s.lease == Some(me) && s.state.BarsReady? && (s' == s.(lease := None) || s' == s.(state := BarsCapturing)))
  }

  lemma {:induction false} ApproveKeeps(w: World, r: LedgerRecord, cut: Option<Torn>)
    requires Invariant(w) && r.kind.LaunchApproval? && Intact(w.file)
    ensures Invariant(Append(w, r, cut)) && w.history <= Append(w, r, cut).history
  {
    SpendsApproved(w.history, r);
    WriteTracks(w.file, w.history, r, cut);
    var next := Append(w, r, cut);
    forall i | 0 <= i < |next.launchers| && next.launchers[i].store < |next.stores|
      ensures LauncherOk(next.history, next.stores[next.launchers[i].store], i, next.launchers[i])
    {
      assert LauncherOk(w.history, w.stores[w.launchers[i].store], i, w.launchers[i]);
    }
  }

  /** One launcher moved, with its store; nobody else notices. */
  lemma {:induction false} OthersStayOk(w: World, who: nat, s: Store, pc: Pc, file: Ledger, history: seq<LedgerRecord>)
    requires Invariant(w) && who < |w.launchers| && w.launchers[who].store < |w.stores| && w.history <= history
    requires EachWorkOnce(history) && EachSpendApproved(history) && Tracks(file, history)
    requires LauncherOk(history, s, who, w.launchers[who].(pc := pc))
    requires StoreMoves(w.stores[w.launchers[who].store], s, who)
    requires SpendIndex(pc) == SpendIndex(w.launchers[who].pc) || SpendIndex(pc) == None
             || SpendIndex(pc) == Some(|w.history|)
    ensures var l := w.launchers[who];
      Invariant(World(file, history, w.stores[l.store := s], w.launchers[who := l.(pc := pc)]))
  {
    var l := w.launchers[who];
    var stores, launchers := w.stores[l.store := s], w.launchers[who := l.(pc := pc)];
    forall i | 0 <= i < |launchers| && launchers[i].store < |stores|
      ensures LauncherOk(history, stores[launchers[i].store], i, launchers[i])
    {
      if i != who {
        OtherStaysOk(w.history, history, w.stores[w.launchers[i].store], stores[w.launchers[i].store], i, who,
                     w.launchers[i]);
      }
    }
    forall i, j | 0 <= i < j < |launchers| && SpendIndex(launchers[i].pc).Some?
      ensures SpendIndex(launchers[i].pc) != SpendIndex(launchers[j].pc)
    {
      assert w.launchers[i].store < |w.stores| ==>
        LauncherOk(w.history, w.stores[w.launchers[i].store], i, w.launchers[i]);
      assert w.launchers[j].store < |w.stores| ==>
        LauncherOk(w.history, w.stores[w.launchers[j].store], j, w.launchers[j]);
    }
  }

  lemma {:induction false} StepKeeps(w: World, e: Event)
    requires Invariant(w)
    ensures Invariant(Step(w, e)) && w.history <= Step(w, e).history
  {
    match e
    case Approve(r, cut) =>
      if r.kind.LaunchApproval? && Intact(w.file) {
        ApproveKeeps(w, r, cut);
      }
    case Launch(who, c) =>
      if who < |w.launchers| && w.launchers[who].store < |w.stores| {
        var l, next := w.launchers[who], Step(w, e);
        var s := w.stores[l.store];
        if Appends(w.file, l, c).Some? {
          AppendIsSafe(w.file, w.history, s, who, l, c);
          WriteTracks(w.file, w.history, Appends(w.file, l, c).value, CutOf(c));
        }
        ActKeeps(w.file, w.history, s, who, l, c, next.history);
        var (s', pc) := Act(w.file, |w.history|, s, who, l, c);
        OthersStayOk(w, who, s', pc, next.file, next.history);
      }
  }

  lemma OtherStaysOk(ledger: seq<LedgerRecord>, grown: seq<LedgerRecord>, s: Store, s': Store, i: nat, who: nat,
                     l: Launcher)
    requires LauncherOk(ledger, s, i, l) && ledger <= grown && i != who
    requires s' == s || StoreMoves(s, s', who)
    ensures LauncherOk(grown, s', i, l)
  {}

  lemma {:induction false} RunKeeps(w: World, events: seq<Event>)
    requires Invariant(w)
    ensures Invariant(Run(w, events)) && w.history <= Run(w, events).history
    decreases |events|
  {
    if events != [] {
      StepKeeps(w, events[0]);
      RunKeeps(Step(w, events[0]), events[1..]);
    }
  }

  /** Under every interleaving: each work manifest is consumed at most once, each consumption
      follows an approval that binds the same hashes, and a started runner's store is
      BARS_CAPTURING under that launcher's own lease with its own consumption in the ledger. */
  lemma {:induction false} OneLaunch(w: World, events: seq<Event>)
    requires Initial(w)
    ensures var end := Run(w, events);
      && w.history <= end.history && Tracks(end.file, end.history)
      && EachWorkOnce(end.history) && EachSpendApproved(end.history)
      && (forall i :: 0 <= i < |end.launchers| && end.launchers[i].pc.RunnerStarted? ==>
            && end.launchers[i].store < |end.stores|
            && end.stores[end.launchers[i].store] == Store(BarsCapturing, Some(i))
            && end.launchers[i].pc.at < |end.history|
            && end.history[end.launchers[i].pc.at].kind.LaunchConsumed?
            && Binds(end.history[end.launchers[i].pc.at].(kind := LaunchApproval), end.launchers[i].inputs))
  {
    RunKeeps(w, events);
  }

  /** Two started runners never share a work manifest, nor a store. */
  lemma {:induction false} OneRunnerPerWork(w: World, events: seq<Event>, i: nat, j: nat)
    requires Initial(w)
    requires var ls := Run(w, events).launchers; i < j < |ls| && ls[i].pc.RunnerStarted? && ls[j].pc.RunnerStarted?
    ensures var ls := Run(w, events).launchers; ls[i].inputs.work != ls[j].inputs.work && ls[i].store != ls[j].store
  {
    RunKeeps(w, events);
    var end := Run(w, events);
    assert LauncherOk(end.history, end.stores[end.launchers[i].store], i, end.launchers[i]);
    assert LauncherOk(end.history, end.stores[end.launchers[j].store], j, end.launchers[j]);
    assert SpendIndex(end.launchers[i].pc) != SpendIndex(end.launchers[j].pc);
  }

  /** The append refuses a manifest exactly when one was consumed, as long as the ledger is intact. */
  lemma {:induction false} OutcomeIff(w: World, tail: Digest<LedgerRecord>, work: string)
    requires Invariant(w)
    ensures LockedAppend(w.file, tail, work).DuplicateRefused? <==> Intact(w.file) && ConsumedIn(w.history, work)
    ensures LockedAppend(w.file, tail, work).Appended? <==>
            Intact(w.file) && !ConsumedIn(w.history, work) && TailOf(w.history) == tail
  {}

  lemma {:induction false} FirstMove(w: World, i: nat)
    requires Invariant(w) && i < |w.launchers| && w.launchers[i].pc.TailRead? && w.launchers[i].store < |w.stores|
    ensures var l, one := w.launchers[i], Step(w, Launch(i, Proceed(true, None)));
      var outcome := LockedAppend(w.file, l.pc.tail, l.inputs.work);
      && w.stores[l.store] == Store(BarsReady, Some(i)) && one.stores == w.stores
      && one.launchers == w.launchers[i := l.(pc :=
           match outcome
           case Appended => Consumed(|w.history|)
           case DuplicateRefused => Duplicate
           case _ => Aborted)]
      && (!outcome.Appended? ==> one.history == w.history && one.file == w.file)
      && (outcome.Appended? ==> one.history == w.history + [Spend(l.inputs, l.pc.approval)])
  {
    assert LauncherOk(w.history, w.stores[w.launchers[i].store], i, w.launchers[i]);
  }

  lemma {:induction false} SecondMove(w: World, i: nat)
    requires i < |w.launchers| && w.launchers[i].store < |w.stores|
    requires w.stores[w.launchers[i].store] == Store(BarsReady, Some(i))
    ensures var l, two := w.launchers[i], Step(w, Launch(i, Proceed(true, None)));
      && (l.pc.Duplicate? ==> two.launchers[i].pc.Refused? && two.stores[l.store] == Store(BarsReady, None))
      && (l.pc.Consumed? ==> two.launchers[i].pc.Capturing? && two.stores[l.store] == Store(BarsCapturing, Some(i)))
      && (l.pc.Duplicate? || l.pc.Consumed? ==> two.history == w.history)
  {}

  /** In every reachable world: a launcher whose manifest was consumed meanwhile ends refused, with
      its lease released and its store's state as it was; one that meets a damaged line, or a tail moved
      by anything else, ends by an exception with its lease left behind; otherwise it spends, and the
      transition that follows is never illegal. */
  lemma {:induction false} AppendOutcomes(w: World, events: seq<Event>, i: nat)
    requires Initial(w)
    requires var end := Run(w, events);
      i < |end.launchers| && end.launchers[i].pc.TailRead? && end.launchers[i].store < |end.stores|
    ensures var end := Run(w, events);
      var l := end.launchers[i];
      var go := Launch(i, Proceed(true, None));
      var one, two := Step(end, go), Step(Step(end, go), go);
      var intact, consumed := Intact(end.file), ConsumedIn(end.history, l.inputs.work);
      && end.stores[l.store] == Store(BarsReady, Some(i))
      && (intact && consumed <==> one.launchers[i].pc.Duplicate?)
      && (intact && consumed ==>
            two.launchers[i].pc.Refused? && two.stores[l.store] == Store(BarsReady, None) && two.history == end.history)
      && (!intact || (!consumed && TailOf(end.history) != l.pc.tail) ==>
            one.launchers[i].pc.Aborted? && one.stores[l.store] == Store(BarsReady, Some(i))
            && one.history == end.history && one.file == end.file)
      && (intact && !consumed && TailOf(end.history) == l.pc.tail ==>
            two.launchers[i].pc.Capturing? && two.stores[l.store] == Store(BarsCapturing, Some(i))
            && two.history == end.history + [Spend(l.inputs, l.pc.approval)])
  {
    RunKeeps(w, events);
    var end := Run(w, events);
    OutcomeIff(end, end.launchers[i].pc.tail, end.launchers[i].inputs.work);
    FirstMove(end, i);
    SecondMove(Step(end, Launch(i, Proceed(true, None))), i);
  }

  /* ---- the gates of a launch ---- */

  /** The gates of `run_execute`, in its order. */
  datatype Gate = StoreReady | Authority | Lease | Spending | Transition

  ghost predicate Approved(ledger: seq<LedgerRecord>, i: Inputs) {
    exists r :: r in ledger && Binds(r, i)
  }

  /** The gate a move of launcher `i` passes, if it passes one. */
  ghost function Passes(w: World, i: nat, c: Choice): seq<Gate>
    requires i < |w.launchers| && w.launchers[i].store < |w.stores|
  {
    var l := w.launchers[i];
    var s := w.stores[l.store];
    if !c.Proceed? then []
    else match l.pc
      case Start => if s == Store(BarsReady, None) then [StoreReady] else []
      case Viewed(view) =>
        if c.holds && Approved(view, l.inputs) && !ConsumedIn(view, l.inputs.work) then [Authority] else []
      case Joined(_) => if s.lease.None? then [Lease] else []
      case TailRead(_, tail) =>
        var clear := Intact(w.file) && TailOf(Records(w.file)) == tail && !ConsumedIn(Records(w.file), l.inputs.work);
        if clear && c.cut.None? then [Spending] else []
      case Consumed(_) => if s.state.BarsReady? || s.state.Failed? then [Transition] else []
      case _ => []
  }

  ghost function PassedBy(w: World, e: Event, i: nat): seq<Gate>
    requires i < |w.launchers| && w.launchers[i].store < |w.stores|
  {
    if e.Launch? && e.who == i then Passes(w, i, e.choice) else []
  }

  ghost function Trail(w: World, events: seq<Event>, i: nat): seq<Gate>
    requires i < |w.launchers| && w.launchers[i].store < |w.stores|
    decreases |events|
  {
    if events == [] then []
    else PassedBy(w, events[0], i) + Trail(Step(w, events[0]), events[1..], i)
  }

  predicate Halted(pc: Pc) {
    pc.Duplicate? || pc.Refused? || pc.Aborted?
  }

  /** The gates behind a launcher that has not halted. */
  function Behind(pc: Pc): seq<Gate> {
    match pc
    case Start => []
    case Opened => [StoreReady]
    case Viewed(_) => [StoreReady]
    case Joined(_) => [StoreReady, Authority]
    case Leased(_) => [StoreReady, Authority, Lease]
    case TailRead(_, _) => [StoreReady, Authority, Lease]
    case Consumed(_) => [StoreReady, Authority, Lease, Spending]
    case Capturing(_) => [StoreReady, Authority, Lease, Spending, Transition]
    case RunnerStarted(_) => [StoreReady, Authority, Lease, Spending, Transition]
    case _ => []
  }

  lemma {:induction false} OwnStepPasses(w: World, i: nat, c: Choice)
    requires i < |w.launchers| && w.launchers[i].store < |w.stores|
    ensures var pc, next := w.launchers[i].pc, Step(w, Launch(i, c)).launchers[i].pc;
      && (!Halted(next) ==> !Halted(pc) && Behind(next) == Behind(pc) + Passes(w, i, c))
      && (Passes(w, i, c) != [] ==> !Halted(next))
  {
    match w.launchers[i].pc
    case Viewed(view) => JoinFindsFirst(view, w.launchers[i].inputs);
    case TailRead(_, _) =>
    case Consumed(_) =>
    case _ =>
  }

  lemma {:induction false} AnyStepPasses(w: World, e: Event, i: nat)
    requires i < |w.launchers| && w.launchers[i].store < |w.stores|
    ensures var after := Step(w, e);
      |after.launchers| == |w.launchers| && |after.stores| == |w.stores|
      && after.launchers[i].store == w.launchers[i].store && after.launchers[i].inputs == w.launchers[i].inputs
    ensures var pc, next := w.launchers[i].pc, Step(w, e).launchers[i].pc;
      !Halted(next) ==> !Halted(pc) && Behind(next) == Behind(pc) + PassedBy(w, e, i)
  {
    if e.Launch? && e.who == i {
      OwnStepPasses(w, i, e.choice);
    }
  }

  lemma {:induction false} Onwards(a: seq<Gate>, b: seq<Gate>, c: seq<Gate>, d: seq<Gate>, passed: seq<Gate>)
    requires b == a + passed && c == b + d
    ensures c == a + (passed + d)
  {}

  lemma {:induction false} GatesInOrder(w: World, events: seq<Event>, i: nat, end: World)
    requires i < |w.launchers| && w.launchers[i].store < |w.stores| && end == Run(w, events)
    ensures |end.launchers| == |w.launchers|
    ensures !Halted(end.launchers[i].pc) ==>
      && !Halted(w.launchers[i].pc)
      && Behind(end.launchers[i].pc) == Behind(w.launchers[i].pc) + Trail(w, events, i)
    decreases |events|
  {
    if events != [] {
      var next := Step(w, events[0]);
      AnyStepPasses(w, events[0], i);
      GatesInOrder(next, events[1..], i, end);
      if !Halted(end.launchers[i].pc) {
        Onwards(Behind(w.launchers[i].pc), Behind(next.launchers[i].pc), Behind(end.launchers[i].pc),
                Trail(next, events[1..], i), PassedBy(w, events[0], i));
      }
    }
  }

  /** A runner that started took every gate once and in order: its store was ready, its joins held with a
      binding approval and an unspent manifest, it got the lease, its spend landed, its store moved on. */
  lemma {:induction false} RunnerPassedEveryGate(w: World, events: seq<Event>, i: nat)
    requires Initial(w) && i < |w.launchers| && w.launchers[i].store < |w.stores|
    ensures i < |Run(w, events).launchers|
    ensures Run(w, events).launchers[i].pc.RunnerStarted? ==>
      Trail(w, events, i) == [StoreReady, Authority, Lease, Spending, Transition]
  {
    GatesInOrder(w, events, i, Run(w, events));
    assert Behind(w.launchers[i].pc) == [];
  }

  /** Before the lease, a gate that is not passed refuses the launch and changes nothing else. */
  lemma {:induction false} ClosedGateRefuses(w: World, i: nat, holds: bool, cut: Option<Torn>)
    requires i < |w.launchers| && w.launchers[i].store < |w.stores| && Passes(w, i, Proceed(holds, cut)) == []
    requires var pc := w.launchers[i].pc; pc.Start? || pc.Viewed? || pc.Joined?
    ensures Step(w, Launch(i, Proceed(holds, cut))) ==
      w.(launchers := w.launchers[i := w.launchers[i].(pc := Refused)])
  {
    var l := w.launchers[i];
    if l.pc.Viewed? {
      JoinFindsFirst(l.pc.view, l.inputs);
    }
    assert w.stores[l.store := w.stores[l.store]] == w.stores;
  }

  /** An owner's approval lands on an intact ledger and nowhere else, and touches nothing but the ledger. */
  lemma {:induction false} ApprovalLands(w: World, r: LedgerRecord)
    requires r.kind.LaunchApproval? && Tracks(w.file, w.history)
    ensures Step(w, Approve(r, None)) ==
      if Intact(w.file) then
        w.(file := WrittenTo(w.file, NextLine(w.history, r), true), history := w.history + [r])
      else w
  {}

  /** A crash stops a launcher whose runner has not started, and leaves its lease behind. */
  lemma {:induction false} CrashLeavesLease(w: World, i: nat)
    requires i < |w.launchers| && w.launchers[i].store < |w.stores|
    ensures var pc := w.launchers[i].pc;
      Step(w, Launch(i, Crash)) ==
      w.(launchers := w.launchers[i := w.launchers[i].(pc := if pc.RunnerStarted? then pc else Aborted)])
  {
    assert w.stores[w.launchers[i].store := w.stores[w.launchers[i].store]] == w.stores;
  }

  /** A refused launcher does nothing any more. */
  lemma {:induction false} RefusedDoesNothing(w: World, i: nat, c: Choice)
    requires i < |w.launchers| && w.launchers[i].store < |w.stores| && w.launchers[i].pc.Refused?
    ensures var after := Step(w, Launch(i, c));
      && after.file == w.file && after.history == w.history && after.stores == w.stores
      && (after.launchers[i].pc.Refused? || (c.Crash? && after.launchers[i].pc.Aborted?))
  {}

  /** `n` undisturbed moves of one launcher. */
  function Moves(i: nat, n: nat): seq<Event> {
    if n == 0 then [] else [Launch(i, Proceed(true, None))] + Moves(i, n - 1)
  }

  /** The world with one launcher and its store elsewhere. */
  function At(w: World, i: nat, s: Store, pc: Pc): World
    requires i < |w.launchers| && w.launchers[i].store < |w.stores|
  {
    w.(stores := w.stores[w.launchers[i].store := s], launchers := w.launchers[i := w.launchers[i].(pc := pc)])
  }

  lemma {:induction false} MovesOn(w: World, i: nat, next: World, n: nat)
    requires n > 0 && Step(w, Launch(i, Proceed(true, None))) == next
    ensures Run(w, Moves(i, n)) == Run(next, Moves(i, n - 1))
  {
    assert Moves(i, n)[1..] == Moves(i, n - 1);
  }

  /** The approval the launcher spends. */
  ghost function Found(w: World, i: nat): LedgerRecord
    requires i < |w.launchers| && Approved(w.history, w.launchers[i].inputs)
  {
    JoinFindsFirst(w.history, w.launchers[i].inputs);
    Join(w.history, w.launchers[i].inputs).value
  }

  /** The world after the launcher's spend. */
  ghost function SpentBy(w: World, i: nat): World
    requires i < |w.launchers| && Approved(w.history, w.launchers[i].inputs)
  {
    var r := Spend(w.launchers[i].inputs, Found(w, i));
    w.(file := WrittenTo(w.file, NextLine(w.history, r), true), history := w.history + [r])
  }

  /** The launcher can go ahead: nothing is damaged or held, it is approved and its manifest unspent. */
  ghost predicate CanLaunch(w: World, i: nat)
    requires i < |w.launchers| && w.launchers[i].store < |w.stores|
  {
    && w.stores[w.launchers[i].store] == Store(BarsReady, None)
    && Approved(w.history, w.launchers[i].inputs) && !ConsumedIn(w.history, w.launchers[i].inputs.work)
  }

  lemma {:induction false} MovesToView(w: World, i: nat)
    requires i < |w.launchers| && w.launchers[i].store < |w.stores| && Tracks(w.file, w.history) && Intact(w.file)
    requires CanLaunch(w, i) && w.launchers[i].pc.Start?
    ensures var go, free := Launch(i, Proceed(true, None)), Store(BarsReady, None);
      && Step(w, go) == At(w, i, free, Opened)
      && Step(At(w, i, free, Opened), go) == At(w, i, free, Viewed(w.history))
  {}

  lemma {:induction false} MovesToLease(w: World, i: nat)
    requires i < |w.launchers| && w.launchers[i].store < |w.stores| && CanLaunch(w, i)
    ensures var go, free := Launch(i, Proceed(true, None)), Store(BarsReady, None);
      && Step(At(w, i, free, Viewed(w.history)), go) == At(w, i, free, Joined(Found(w, i)))
      && Step(At(w, i, free, Joined(Found(w, i))), go) == At(w, i, Store(BarsReady, Some(i)), Leased(Found(w, i)))
  {
    JoinFindsFirst(w.history, w.launchers[i].inputs);
  }

  lemma {:induction false} MovesToSpend(w: World, i: nat)
    requires i < |w.launchers| && w.launchers[i].store < |w.stores| && Tracks(w.file, w.history) && Intact(w.file)
    requires CanLaunch(w, i)
    ensures var go, held := Launch(i, Proceed(true, None)), Store(BarsReady, Some(i));
      var read := TailRead(Found(w, i), TailOf(w.history));
      && Step(At(w, i, held, Leased(Found(w, i))), go) == At(w, i, held, read)
      && Step(At(w, i, held, read), go) == At(SpentBy(w, i), i, held, Consumed(|w.history|))
  {}

  lemma {:induction false} MovesToRunner(w: World, i: nat, at: nat)
    requires i < |w.launchers| && w.launchers[i].store < |w.stores|
    ensures var go := Launch(i, Proceed(true, None));
      var held, moved := Store(BarsReady, Some(i)), Store(BarsCapturing, Some(i));
      && Step(At(w, i, held, Consumed(at)), go) == At(w, i, moved, Capturing(at))
      && Step(At(w, i, moved, Capturing(at)), go) == At(w, i, moved, RunnerStarted(at))
  {}

  lemma {:induction false} TwoMoves(a: World, b: World, c: World, i: nat, n: nat)
    requires n >= 2
    requires Step(a, Launch(i, Proceed(true, None))) == b && Step(b, Launch(i, Proceed(true, None))) == c
    ensures Run(a, Moves(i, n)) == Run(c, Moves(i, n - 2))
  {
    MovesOn(a, i, b, n);
    MovesOn(b, i, c, n - 1);
  }

  /** A launch happens: left alone, a launcher that can go ahead spends its approval, moves its store and
      starts its runner. */
  lemma {:induction false} LaunchGoesThrough(w: World, i: nat, n: nat)
    requires i < |w.launchers| && w.launchers[i].store < |w.stores| && Tracks(w.file, w.history) && Intact(w.file)
    requires CanLaunch(w, i) && w.launchers[i].pc.Start? && n == 8
    ensures Run(w, Moves(i, n)) == At(SpentBy(w, i), i, Store(BarsCapturing, Some(i)), RunnerStarted(|w.history|))
  {
    var free, held, moved := Store(BarsReady, None), Store(BarsReady, Some(i)), Store(BarsCapturing, Some(i));
    var approval, spent, at := Found(w, i), SpentBy(w, i), |w.history|;
    MovesToView(w, i);
    MovesToLease(w, i);
    TwoMoves(w, At(w, i, free, Opened), At(w, i, free, Viewed(w.history)), i, n);
    TwoMoves(At(w, i, free, Viewed(w.history)), At(w, i, free, Joined(approval)), At(w, i, held, Leased(approval)),
             i, n - 2);
    MovesToSpend(w, i);
    TwoMoves(At(w, i, held, Leased(approval)), At(w, i, held, TailRead(approval, TailOf(w.history))),
             At(spent, i, held, Consumed(at)), i, n - 4);
    MovesToRunner(spent, i, at);
    TwoMoves(At(spent, i, held, Consumed(at)), At(spent, i, moved, Capturing(at)),
             At(spent, i, moved, RunnerStarted(at)), i, n - 6);
  }

  /* ---- which records stay readable ---- */

  lemma {:induction false} StepKeepsFirm(w: World, e: Event, n: nat)
    requires Tracks(w.file, w.history)
    ensures Firm(w.file, n) ==> Firm(Step(w, e).file, n)
    ensures !Intact(w.file) ==> Step(w, e).file == w.file
  {
    if Intact(w.file) && Firm(w.file, n) {
      match e
      case Approve(r, cut) => WriteKeepsFirm(w.file, w.history, r, cut, n);
      case Launch(who, c) =>
        if who < |w.launchers| && Appends(w.file, w.launchers[who], c).Some? {
          WriteKeepsFirm(w.file, w.history, Appends(w.file, w.launchers[who], c).value, CutOf(c), n);
        }
    }
  }

  lemma {:induction false} RunKeepsFirm(w: World, events: seq<Event>, n: nat)
    requires Invariant(w)
    ensures Firm(w.file, n) ==> Firm(Run(w, events).file, n)
    ensures !Intact(w.file) ==> Run(w, events).file == w.file
    decreases |events|
  {
    if events != [] {
      StepKeeps(w, events[0]);
      StepKeepsFirm(w, events[0], n);
      RunKeepsFirm(Step(w, events[0]), events[1..], n);
    }
  }

  /** A launcher spends.  Whatever happens afterwards, readers get its record if and only if the last
      line was finished when it appended; otherwise its runner starts on a record nobody can read. */
  lemma {:induction false} SpendStaysReadableIff(w: World, who: nat, c: Choice, events: seq<Event>)
    requires Invariant(w) && who < |w.launchers| && w.launchers[who].pc.TailRead?
    requires SpendIndex(Step(w, Launch(who, c)).launchers[who].pc).Some?
    ensures var l, end := w.launchers[who], Run(Step(w, Launch(who, c)), events);
      !Loose(w.file) <==>
        |w.history| < |Records(end.file)| && Records(end.file)[|w.history|] == Spend(l.inputs, l.pc.approval)
  {
    var next, r := Step(w, Launch(who, c)), Spend(w.launchers[who].inputs, w.launchers[who].pc.approval);
    StepKeeps(w, Launch(who, c));
    assert Appends(w.file, w.launchers[who], c) == Some(r) && CutOf(c) == None;
    AppendIsFirmIff(w.file, w.history, r);
    RunKeeps(next, events);
    RunKeepsFirm(next, events, |w.history| + 1);
  }
}
