/**
 Any number of sealed-run executors and owner processes interleaved over one authority ledger.
 Each step is one effect of `execute_sealed_run`, of an owner append, or a crash, also in the
 middle of a write; an append goes through only when no line is damaged and the tail hash it was
 built on is still the tail of the ledger.
 */
module SealMachine {
  import opened HashChain
  import opened LedgerFiles
  import opened SealAuthority
  import opened Options

  type Ledger = File<LedgerRecord>

  /** Where an executor stands; the load-bearing order of `execute_sealed_run`. */
  datatype Pc =
    | Start
    | FirstRead(view: seq<LedgerRecord>)
    | FirstCleared
    | Rebuilt                                   // packet and runner machinery re-verified
    | SecondRead(view: seq<LedgerRecord>)
    | SecondCleared(view: seq<LedgerRecord>)
    | Preflighted(view: seq<LedgerRecord>)
    | Spent(at: nat)
    | RunnerStarted(at: nat)                    // for good: a crash cannot unstart a runner
    | Stopped                                   // refused, or crashed before its runner started

  datatype OwnerPc = Idle | Checked(identity: Sealed)

  datatype Process = Executor(identity: Sealed, pc: Pc) | Owner(opc: OwnerPc)

  /** `history` lists every record whose bytes reached the file in full, also one that no reader can
      get at any more. */
  datatype World = World(file: Ledger, history: seq<LedgerRecord>, processes: seq<Process>)

  /** What the scheduler lets a process do.  `holds` carries the outcome of the checks that this model
      does not look into: the rebuilt packet, the runner binding, the preflight.  `cut` says that the
      process dies while it writes, and what of the write reached the file. */
  datatype Choice = Proceed(holds: bool, cut: Option<Torn>) | Crash
                  | Approve(identity: Sealed, cut: Option<Torn>) | LeaveNote(identity: Sealed, cut: Option<Torn>)
                  | CheckReconcile(identity: Sealed)

  /** The check of `append_reconciliation`: this exact identity was consumed, and some consumption
      of its content is not covered yet. */
  ghost predicate Outstanding(records: seq<LedgerRecord>, s: Sealed) {
    && (exists r :: r in records && r.kind.Consumption? && r.identity == s)
    && Count(records, Consumption, s) > Count(records, Reconciliation, s)
  }

  /** The record a step appends, if it appends one: `append_record` refuses a damaged final line and a
      moved tail.  Owners build their record on the tail they find; a reconciliation is checked on one
      view, and `_append_kind` then reads the ledger again and appends on the newer tail. */
  function Appends(file: Ledger, p: Process, c: Choice): Option<LedgerRecord> {
    if !Intact(file) then None
    else match p
      case Executor(s, pc) =>
        if c.Proceed? && pc.Preflighted? && TailOf(Records(file)) == TailOf(pc.view) then Some(Honest(Consumption, s))
        else None
      case Owner(opc) =>
        match c
        case Approve(s, _) => Some(Honest(Approval, s))
        case LeaveNote(s, _) => Some(Honest(Note, s))
        case Proceed(_, _) => if opc.Checked? then Some(Honest(Reconciliation, opc.identity)) else None
        case CheckReconcile(_) => None
        case Crash => None
  }

  function CutOf(c: Choice): Option<Torn> {
    if c.Crash? || c.CheckReconcile? then None else c.cut
  }

  /** Where an executor goes.  `records` is what it would read now, `appended` the place of its record
      in the history if its append went through. */
  ghost function ExecutorNext(records: seq<LedgerRecord>, appended: Option<nat>, s: Sealed, pc: Pc, c: Choice): Pc {
    if c.Crash? then (if pc.RunnerStarted? then pc else Stopped)
    else if !c.Proceed? then pc
    else match pc
      case Start => FirstRead(records)
      case FirstRead(view) => if Authorised(view, s) then FirstCleared else Stopped
      case FirstCleared => if c.holds then Rebuilt else Stopped
      case Rebuilt => SecondRead(records)
      case SecondRead(view) => if Authorised(view, s) then SecondCleared(view) else Stopped
      case SecondCleared(view) => if c.holds then Preflighted(view) else Stopped
      case Preflighted(view) => if appended.Some? && c.cut.None? then Spent(appended.value) else Stopped
      case Spent(at) => RunnerStarted(at)
      case RunnerStarted(_) => pc
      case Stopped => pc
  }

  ghost function OwnerNext(records: seq<LedgerRecord>, opc: OwnerPc, c: Choice): OwnerPc {
    match c
    case Approve(_, cut) => if cut.None? then opc else Idle
    case LeaveNote(_, cut) => if cut.None? then opc else Idle
    case CheckReconcile(s) => if Outstanding(records, s) then Checked(s) else Idle
    case Proceed(_, _) => Idle
    case Crash => Idle
  }

  ghost function Next(file: Ledger, history: seq<LedgerRecord>, p: Process, c: Choice): Process {
    match p
    case Executor(s, pc) =>
      var appended := if Appends(file, p, c).Some? then Some(|history|) else None;
      Executor(s, ExecutorNext(Records(file), appended, s, pc, c))
    case Owner(opc) => Owner(OwnerNext(Records(file), opc, c))
  }

  ghost function Step(w: World, who: nat, c: Choice): World {
    if who >= |w.processes| then w
    else
      var p := w.processes[who];
      var moved := w.processes[who := Next(w.file, w.history, p, c)];
      match Appends(w.file, p, c)
      case Some(r) =>
        World(WrittenBy(w.file, NextLine(Records(w.file), r), CutOf(c)), GrownBy(w.history, r, CutOf(c)), moved)
      case None => World(w.file, w.history, moved)
  }

  ghost function Run(w: World, schedule: seq<(nat, Choice)>): World
    decreases |schedule|
  {
    if schedule == [] then w else Run(Step(w, schedule[0].0, schedule[0].1), schedule[1..])
  }

  /* ---- what every reachable ledger satisfies ---- */

  ghost predicate NoRunConsumedTwice(ledger: seq<LedgerRecord>) {
    forall i, j :: 0 <= i < j < |ledger| && ledger[i].kind.Consumption? && ledger[j].kind.Consumption? ==>
      ledger[i].identity != ledger[j].identity
  }

  /** At every prefix, a content has been consumed at most once more than it has been re-armed. */
  ghost predicate BudgetKept(ledger: seq<LedgerRecord>) {
    forall k, content :: 0 <= k <= |ledger| ==>
      Count(ledger[..k], Consumption, content) <= Count(ledger[..k], Reconciliation, content) + 1
  }

  ghost predicate EveryConsumptionApproved(ledger: seq<LedgerRecord>) {
    forall i :: 0 <= i < |ledger| && ledger[i].kind.Consumption? ==>
      exists j :: 0 <= j < i && Approves(ledger[j], ledger[i].identity)
  }

  ghost predicate LedgerSafe(ledger: seq<LedgerRecord>) {
    && (forall r :: r in ledger ==> IdsMatch(r))
    && NoRunConsumedTwice(ledger)
    && BudgetKept(ledger)
    && EveryConsumptionApproved(ledger)
  }

  ghost predicate ProcessSafe(ledger: seq<LedgerRecord>, p: Process) {
    p.Executor? ==>
      && (p.pc.SecondCleared? || p.pc.Preflighted? ==> Authorised(p.pc.view, p.identity))
      && (p.pc.Spent? || p.pc.RunnerStarted? ==>
           p.pc.at < |ledger| && ledger[p.pc.at] == Honest(Consumption, p.identity))
  }

  ghost predicate Invariant(w: World) {
    && LedgerSafe(w.history) && Tracks(w.file, w.history)
    && (forall i :: 0 <= i < |w.processes| ==> ProcessSafe(w.history, w.processes[i]))
    && (forall i, j :: 0 <= i < j < |w.processes| ==> !SameSpend(w.processes[i], w.processes[j]))
  }

  /** The executor claims a consumption record as its own. */
  predicate Claims(p: Process) {
    p.Executor? && (p.pc.Spent? || p.pc.RunnerStarted?)
  }

  /** Two executors that both claim the same consumption record. */
  predicate SameSpend(p: Process, q: Process) {
    Claims(p) && Claims(q) && p.pc.at == q.pc.at
  }

  ghost predicate Initial(w: World) {
    && LedgerSafe(w.history) && Tracks(w.file, w.history)
    && forall i :: 0 <= i < |w.processes| ==>
         w.processes[i] == Owner(Idle) || (w.processes[i].Executor? && w.processes[i].pc.Start?)
  }

  /** Appending a record other than a consumption never endangers the ledger. */
  lemma SafeAppend(ledger: seq<LedgerRecord>, r: LedgerRecord)
    requires LedgerSafe(ledger) && IdsMatch(r)
    requires r.kind.Consumption? ==> Authorised(ledger, r.identity)
    ensures LedgerSafe(ledger + [r])
  {
    var grown := ledger + [r];
    assert ledger[..|ledger|] == ledger && grown[..|grown|] == grown;
    forall k, content | 0 <= k <= |grown|
      ensures Count(grown[..k], Consumption, content) <= Count(grown[..k], Reconciliation, content) + 1
    {
      if k <= |ledger| {
        assert grown[..k] == ledger[..k];
      } else {
        CountAppend(ledger, r, Consumption, content);
        CountAppend(ledger, r, Reconciliation, content);
        if SameContent(r.identity, content) {
          CountSame(ledger, Consumption, r.identity, content);
          CountSame(ledger, Reconciliation, r.identity, content);
        }
        assert Count(ledger[..|ledger|], Consumption, content) <=
          Count(ledger[..|ledger|], Reconciliation, content) + 1;
      }
    }
    forall i | 0 <= i < |ledger| && r.kind.Consumption? && ledger[i].kind.Consumption?
      ensures ledger[i].identity != r.identity
    {
      assert ledger[i] in ledger;
    }
    forall i | 0 <= i < |grown| && grown[i].kind.Consumption?
      ensures exists j :: 0 <= j < i && Approves(grown[j], grown[i].identity)
    {
      if i < |ledger| {
        var j :| 0 <= j < i && Approves(ledger[j], ledger[i].identity);
        assert Approves(grown[j], grown[i].identity);
      } else {
        var a :| a in ledger && Approves(a, r.identity);
        var j :| 0 <= j < |ledger| && ledger[j] == a;
        assert Approves(grown[j], grown[i].identity);
      }
    }
  }

  /** What a step writes is safe to write. */
  lemma {:induction false} AppendIsSafe(file: Ledger, history: seq<LedgerRecord>, p: Process, c: Choice)
    requires LedgerSafe(history) && Tracks(file, history) && ProcessSafe(history, p) && Appends(file, p, c).Some?
    ensures var r := Appends(file, p, c).value; Records(file) == history && LedgerSafe(GrownBy(history, r, CutOf(c)))
  {
    var r := Appends(file, p, c).value;
    if p.Executor? {
      SameTailSameRecords(Records(file), p.pc.view);
    }
    SafeAppend(history, r);
  }

  /** Where a process goes is safe over the history as it is then. */
  lemma {:induction false} NextIsSafe(file: Ledger, history: seq<LedgerRecord>, p: Process, c: Choice,
                                      grown: seq<LedgerRecord>)
    requires ProcessSafe(history, p) && history <= grown
    requires Appends(file, p, c).Some? && CutOf(c).None? ==> grown == history + [Appends(file, p, c).value]
    ensures var next := Next(file, history, p, c);
      && ProcessSafe(grown, next) && (p.Executor? <==> next.Executor?)
      && (Claims(next) ==> (Claims(p) && next.pc.at == p.pc.at) || next.pc.at == |history|)
  {
    match p
    case Owner(_) =>
    case Executor(_, pc) =>
      match pc
      case SecondRead(_) =>
      case Preflighted(_) =>
      case _ =>
  }

  lemma {:induction false} StepKeeps(w: World, who: nat, c: Choice)
    requires Invariant(w)
    ensures Invariant(Step(w, who, c))
    ensures w.history <= Step(w, who, c).history
  {
    if who < |w.processes| {
      var p, after := w.processes[who], Step(w, who, c);
      assert ProcessSafe(w.history, p);
      if Appends(w.file, p, c).Some? {
        AppendIsSafe(w.file, w.history, p, c);
        WriteTracks(w.file, w.history, Appends(w.file, p, c).value, CutOf(c));
      }
      NextIsSafe(w.file, w.history, p, c, after.history);
      OthersStaySafe(w, who, Next(w.file, w.history, p, c), after.file, after.history);
    }
  }

  lemma {:induction false} OthersStaySafe(w: World, who: nat, next: Process, file: Ledger, history: seq<LedgerRecord>)
    requires Invariant(w) && who < |w.processes| && w.history <= history && ProcessSafe(history, next)
    requires LedgerSafe(history) && Tracks(file, history)
    requires Claims(next) ==>
      (Claims(w.processes[who]) && next.pc.at == w.processes[who].pc.at) || next.pc.at == |w.history|
    ensures Invariant(World(file, history, w.processes[who := next]))
  {
    var after := w.processes[who := next];
    forall i | 0 <= i < |after| ensures ProcessSafe(history, after[i]) {
      assert ProcessSafe(w.history, w.processes[i]);
    }
    forall i, j | 0 <= i < j < |after| ensures !SameSpend(after[i], after[j]) {
      assert ProcessSafe(w.history, w.processes[i]) && ProcessSafe(w.history, w.processes[j]);
      assert !SameSpend(w.processes[i], w.processes[j]);
    }
  }

  lemma {:induction false} RunKeeps(w: World, schedule: seq<(nat, Choice)>)
    requires Invariant(w)
    ensures Invariant(Run(w, schedule)) && w.history <= Run(w, schedule).history
    decreases |schedule|
  {
    if schedule != [] {
      StepKeeps(w, schedule[0].0, schedule[0].1);
      RunKeeps(Step(w, schedule[0].0, schedule[0].1), schedule[1..]);
    }
  }

  /** Under every interleaving, crash and torn write: no sealed run is consumed twice, no content is consumed more than
      once beyond its re-arms at any prefix, every consumption was approved before it, a started
      runner has its own consumption record, and a reader gets everything ever recorded unless the
      final line is damaged, which refuses every append. */
  lemma {:induction false} OneShot(w: World, schedule: seq<(nat, Choice)>)
    requires Initial(w)
    ensures var end := Run(w, schedule);
      && w.history <= end.history && Tracks(end.file, end.history)
      && NoRunConsumedTwice(end.history) && BudgetKept(end.history) && EveryConsumptionApproved(end.history)
      && (forall i :: 0 <= i < |end.processes| && end.processes[i].Executor? && end.processes[i].pc.RunnerStarted? ==>
            end.processes[i].pc.at < |end.history|
            && end.history[end.processes[i].pc.at] == Honest(Consumption, end.processes[i].identity))
  {
    RunKeeps(w, schedule);
    var end := Run(w, schedule);
    forall i | 0 <= i < |end.processes| ensures ProcessSafe(end.history, end.processes[i]) {}
  }

  /** Two runners that have both started belong to different sealed runs. */
  lemma {:induction false} OneRunnerPerRun(w: World, schedule: seq<(nat, Choice)>, i: nat, j: nat)
    requires Initial(w)
    requires var p := Run(w, schedule).processes;
      i < j < |p| && p[i].Executor? && p[i].pc.RunnerStarted? && p[j].Executor? && p[j].pc.RunnerStarted?
    ensures Run(w, schedule).processes[i].identity != Run(w, schedule).processes[j].identity
  {
    RunKeeps(w, schedule);
    var end := Run(w, schedule);
    assert ProcessSafe(end.history, end.processes[i]) && ProcessSafe(end.history, end.processes[j]);
    assert !SameSpend(end.processes[i], end.processes[j]);
  }

  /* ---- a content is spent again only after a re-arm ---- */

  /** Every consumption from place `from` on was authorised by the records before it. */
  ghost predicate SpendsAuthorised(history: seq<LedgerRecord>, from: nat) {
    forall j :: from <= j < |history| && history[j].kind.Consumption? ==>
      Authorised(history[..j], history[j].identity)
  }

  lemma {:induction false} SpendsAppend(history: seq<LedgerRecord>, r: LedgerRecord, from: nat)
    requires SpendsAuthorised(history, from) && (r.kind.Consumption? ==> Authorised(history, r.identity))
    ensures SpendsAuthorised(history + [r], from)
  {
    var grown := history + [r];
    forall j | from <= j < |grown| && grown[j].kind.Consumption? ensures Authorised(grown[..j], grown[j].identity) {
      if j < |history| {
        assert grown[..j] == history[..j] && grown[j] == history[j];
      } else {
        assert grown[..j] == history;
      }
    }
  }

  lemma {:induction false} StepKeepsSpends(w: World, who: nat, c: Choice, from: nat)
    requires Invariant(w) && SpendsAuthorised(w.history, from)
    ensures SpendsAuthorised(Step(w, who, c).history, from)
  {
    if who < |w.processes| {
      var p := w.processes[who];
      assert ProcessSafe(w.history, p);
      if Appends(w.file, p, c).Some? {
        if p.Executor? {
          SameTailSameRecords(Records(w.file), p.pc.view);
        }
        SpendsAppend(w.history, Appends(w.file, p, c).value, from);
      }
    }
  }

  lemma {:induction false} RunKeepsSpends(w: World, schedule: seq<(nat, Choice)>, from: nat)
    requires Invariant(w) && SpendsAuthorised(w.history, from)
    ensures SpendsAuthorised(Run(w, schedule).history, from)
    decreases |schedule|
  {
    if schedule != [] {
      StepKeeps(w, schedule[0].0, schedule[0].1);
      StepKeepsSpends(w, schedule[0].0, schedule[0].1, from);
      RunKeepsSpends(Step(w, schedule[0].0, schedule[0].1), schedule[1..], from);
    }
  }

  /** Without a record of that kind and content from place `m` on, none is counted there. */
  lemma {:induction false} NoneCounted(records: seq<LedgerRecord>, m: nat, kind: Kind, s: Sealed)
    requires m <= |records|
    requires forall k :: m <= k < |records| ==> records[k].kind != kind || !SameContent(records[k].identity, s)
    ensures Count(records[..m], kind, s) == Count(records, kind, s)
  {
    if m < |records| {
      assert records[..|records| - 1][..m] == records[..m];
      NoneCounted(records[..|records| - 1], m, kind, s);
    } else {
      assert records[..m] == records;
    }
  }

  lemma {:induction false} ReArmedBetween(records: seq<LedgerRecord>, i: nat, s: Sealed)
    requires i < |records| && records[i].kind.Consumption? && SameContent(records[i].identity, s)
    requires Authorised(records, s)
    ensures exists k :: i < k < |records| && records[k].kind.Reconciliation? && SameContent(records[k].identity, s)
  {
    assert records[..i + 1] == records[..i] + [records[i]];
    assert records[..|records|] == records;
    CountAppend(records[..i], records[i], Consumption, s);
    CountAppend(records[..i], records[i], Reconciliation, s);
    CountGrows(records, i + 1, Consumption, s);
    if forall k :: i < k < |records| ==> !(records[k].kind.Reconciliation? && SameContent(records[k].identity, s)) {
      NoneCounted(records, i + 1, Reconciliation, s);
    }
  }

  lemma {:induction false} CountGrows(records: seq<LedgerRecord>, m: nat, kind: Kind, s: Sealed)
    requires m <= |records|
    ensures Count(records[..m], kind, s) <= Count(records, kind, s)
  {
    if m < |records| {
      assert records[..|records| - 1][..m] == records[..m];
      CountGrows(records[..|records| - 1], m, kind, s);
    } else {
      assert records[..m] == records;
    }
  }

  /** No fresh look: whatever was recorded before, a consumption of a run that shares its six content
      fields with an earlier one follows a reconciliation of that content in between. */
  lemma {:induction false} NoFreshLook(w: World, schedule: seq<(nat, Choice)>, i: nat, j: nat)
    requires Initial(w) && |w.history| <= j < |Run(w, schedule).history| && i < j
    requires var h := Run(w, schedule).history;
      h[i].kind.Consumption? && h[j].kind.Consumption? && SameContent(h[i].identity, h[j].identity)
    ensures var h := Run(w, schedule).history;
      exists k :: i < k < j && h[k].kind.Reconciliation? && SameContent(h[k].identity, h[j].identity)
  {
    var h := Run(w, schedule).history;
    RunKeepsSpends(w, schedule, |w.history|);
    assert h[..j][i] == h[i];
    ReArmedBetween(h[..j], i, h[j].identity);
    var k :| i < k < j && h[..j][k].kind.Reconciliation? && SameContent(h[..j][k].identity, h[j].identity);
    assert h[k] == h[..j][k];
  }

  /* ---- the order of the gates ---- */

  /** The checks of `execute_sealed_run`, in its order. */
  datatype Gate = FirstAuthority | Binding | SecondAuthority | Preflight | Spend

  /** The gate a move of executor `i` passes, if it passes one. */
  ghost function Passes(w: World, i: nat, c: Choice): seq<Gate>
    requires i < |w.processes| && w.processes[i].Executor?
  {
    var s := w.processes[i].identity;
    if !c.Proceed? then []
    else match w.processes[i].pc
      case FirstRead(view) => if Authorised(view, s) then [FirstAuthority] else []
      case FirstCleared => if c.holds then [Binding] else []
      case SecondRead(view) => if Authorised(view, s) then [SecondAuthority] else []
      case SecondCleared(_) => if c.holds then [Preflight] else []
      case Preflighted(view) =>
        if Intact(w.file) && Records(w.file) == view && c.cut.None? then [Spend] else []
      case _ => []
  }

  ghost function Trail(w: World, schedule: seq<(nat, Choice)>, i: nat): seq<Gate>
    requires i < |w.processes| && w.processes[i].Executor?
    decreases |schedule|
  {
    if schedule == [] then []
    else
      var (who, c) := schedule[0];
      PassedBy(w, who, c, i) + Trail(Step(w, who, c), schedule[1..], i)
  }

  ghost function PassedBy(w: World, who: nat, c: Choice, i: nat): seq<Gate>
    requires i < |w.processes| && w.processes[i].Executor?
  {
    if who == i then Passes(w, i, c) else []
  }

  /** The gates behind an executor that was not stopped. */
  function Behind(pc: Pc): seq<Gate> {
    match pc
    case Start => []
    case FirstRead(_) => []
    case FirstCleared => [FirstAuthority]
    case Rebuilt => [FirstAuthority, Binding]
    case SecondRead(_) => [FirstAuthority, Binding]
    case SecondCleared(_) => [FirstAuthority, Binding, SecondAuthority]
    case Preflighted(_) => [FirstAuthority, Binding, SecondAuthority, Preflight]
    case Spent(_) => [FirstAuthority, Binding, SecondAuthority, Preflight, Spend]
    case RunnerStarted(_) => [FirstAuthority, Binding, SecondAuthority, Preflight, Spend]
    case Stopped => []
  }

  lemma {:induction false} StepPasses(w: World, i: nat, c: Choice)
    requires i < |w.processes| && w.processes[i].Executor?
    ensures var pc, next := w.processes[i].pc, Step(w, i, c).processes[i].pc;
      && (!next.Stopped? ==> !pc.Stopped? && Behind(next) == Behind(pc) + Passes(w, i, c))
      && (c.Proceed? && Passes(w, i, c) != [] ==> !next.Stopped?)
  {
    if w.processes[i].pc.Preflighted? && TailOf(Records(w.file)) == TailOf(w.processes[i].pc.view) {
      SameTailSameRecords(Records(w.file), w.processes[i].pc.view);
    }
  }

  lemma {:induction false} AnyStepPasses(w: World, who: nat, c: Choice, i: nat)
    requires i < |w.processes| && w.processes[i].Executor?
    ensures |Step(w, who, c).processes| == |w.processes| && Step(w, who, c).processes[i].Executor?
    ensures var pc, next := w.processes[i].pc, Step(w, who, c).processes[i].pc;
      !next.Stopped? ==> !pc.Stopped? && Behind(next) == Behind(pc) + PassedBy(w, who, c, i)
  {
    if who == i {
      StepPasses(w, i, c);
    }
  }

  lemma {:induction false} RunKeepsKind(w: World, schedule: seq<(nat, Choice)>, i: nat)
    requires i < |w.processes| && w.processes[i].Executor?
    ensures |Run(w, schedule).processes| == |w.processes| && Run(w, schedule).processes[i].Executor?
    decreases |schedule|
  {
    if schedule != [] {
      AnyStepPasses(w, schedule[0].0, schedule[0].1, i);
      RunKeepsKind(Step(w, schedule[0].0, schedule[0].1), schedule[1..], i);
    }
  }

  lemma {:induction false} Onwards(a: seq<Gate>, b: seq<Gate>, c: seq<Gate>, d: seq<Gate>, passed: seq<Gate>)
    requires b == a + passed && c == b + d
    ensures c == a + (passed + d)
  {}

  /** An executor has passed exactly the gates behind it, in their order, unless it was stopped: a runner
      that started passed both authority checks, the binding, the preflight and the spend. */
  lemma {:induction false} GatesInOrder(w: World, schedule: seq<(nat, Choice)>, i: nat, end: World)
    requires i < |w.processes| && w.processes[i].Executor? && end == Run(w, schedule)
    ensures |end.processes| == |w.processes| && end.processes[i].Executor?
    ensures !end.processes[i].pc.Stopped? ==>
      && !w.processes[i].pc.Stopped?
      && Behind(end.processes[i].pc) == Behind(w.processes[i].pc) + Trail(w, schedule, i)
    decreases |schedule|
  {
    RunKeepsKind(w, schedule, i);
    if schedule != [] {
      var (who, c) := schedule[0];
      var next := Step(w, who, c);
      AnyStepPasses(w, who, c, i);
      GatesInOrder(next, schedule[1..], i, end);
      if !end.processes[i].pc.Stopped? {
        Onwards(Behind(w.processes[i].pc), Behind(next.processes[i].pc), Behind(end.processes[i].pc),
                Trail(next, schedule[1..], i), PassedBy(w, who, c, i));
      }
    }
  }

  /** A runner that started passed both authority checks, the binding, the preflight and the spend, in
      that order and once each. */
  lemma {:induction false} RunnerPassedEveryGate(w: World, schedule: seq<(nat, Choice)>, i: nat)
    requires Initial(w) && i < |w.processes| && w.processes[i].Executor?
    ensures i < |Run(w, schedule).processes| && Run(w, schedule).processes[i].Executor?
    ensures Run(w, schedule).processes[i].pc.RunnerStarted? ==>
      Trail(w, schedule, i) == [FirstAuthority, Binding, SecondAuthority, Preflight, Spend]
  {
    GatesInOrder(w, schedule, i, Run(w, schedule));
    assert Behind(w.processes[i].pc) == [];
  }

  /** A gate that is not passed stops the executor, and nothing is written. */
  lemma {:induction false} ClosedGateStops(w: World, i: nat, holds: bool)
    requires i < |w.processes| && w.processes[i].Executor? && Passes(w, i, Proceed(holds, None)) == []
    requires var pc := w.processes[i].pc;
      pc.FirstRead? || pc.FirstCleared? || pc.SecondRead? || pc.SecondCleared? || pc.Preflighted?
    ensures var next := Step(w, i, Proceed(holds, None));
      next.processes[i].pc.Stopped? && next.file == w.file && next.history == w.history
  {
    if w.processes[i].pc.Preflighted? && TailOf(Records(w.file)) == TailOf(w.processes[i].pc.view) {
      SameTailSameRecords(Records(w.file), w.processes[i].pc.view);
    }
  }

  /** A crash writes nothing and stops an executor for good, unless its runner has started. */
  lemma {:induction false} CrashStops(w: World, i: nat)
    requires i < |w.processes| && w.processes[i].Executor?
    ensures Step(w, i, Crash).file == w.file && Step(w, i, Crash).history == w.history
    ensures Step(w, i, Crash).processes[i].pc ==
      if w.processes[i].pc.RunnerStarted? then w.processes[i].pc else Stopped
  {}

  lemma {:induction false} StoppedForGood(w: World, who: nat, c: Choice, i: nat)
    requires i < |w.processes| && w.processes[i].Executor? && w.processes[i].pc.Stopped?
    ensures Step(w, who, c).processes[i] == w.processes[i]
    ensures who == i ==> Step(w, who, c).file == w.file && Step(w, who, c).history == w.history
  {}

  /** An owner that approved or left a note still holds the check it made; one whose write was cut short, or
      that crashed, or that reconciled, holds none. */
  lemma {:induction false} OwnerMoves(w: World, i: nat, c: Choice)
    requires i < |w.processes| && w.processes[i].Owner?
    ensures var opc := w.processes[i].opc;
      Step(w, i, c).processes[i] == Owner(
        if c.CheckReconcile? then (if Outstanding(Records(w.file), c.identity) then Checked(c.identity) else Idle)
        else if (c.Approve? || c.LeaveNote?) && c.cut.None? then opc
        else Idle)
  {}

  /* ---- causal order: never more reconciliations than consumptions ---- */

  /** A reconciliation keeps the causal order of its content exactly when a spend of that content is
      still uncovered at the moment it lands. */
  lemma {:induction false} ReconciliationKeepsOrderIff(ledger: seq<LedgerRecord>, s: Sealed)
    requires InCausalOrder(ledger, s)
    ensures InCausalOrder(ledger + [Honest(Reconciliation, s)], s) <==>
            Count(ledger, Consumption, s) > Count(ledger, Reconciliation, s)
  {
    OrderAppend(ledger, Honest(Reconciliation, s), s);
    CountAppend(ledger, Honest(Reconciliation, s), Consumption, s);
    CountAppend(ledger, Honest(Reconciliation, s), Reconciliation, s);
  }

  lemma {:induction false} OrderAppend(ledger: seq<LedgerRecord>, r: LedgerRecord, content: Sealed)
    requires InCausalOrder(ledger, content)
    ensures InCausalOrder(ledger + [r], content) <==>
            Count(ledger + [r], Reconciliation, content) <= Count(ledger + [r], Consumption, content)
  {
    var grown := ledger + [r];
    assert grown[..|grown|] == grown;
    forall k | 0 <= k <= |ledger| ensures grown[..k] == ledger[..k] {}
  }

  /** A content whose reconciliations ever outran its consumptions is refused forever. */
  lemma OverCreditedIsNeverAuthorised(ledger: seq<LedgerRecord>, more: seq<LedgerRecord>, s: Sealed)
    requires !InCausalOrder(ledger, s)
    ensures !Authorised(ledger + more, s)
  {
    var k :| 0 <= k <= |ledger|
             && Count(ledger[..k], Reconciliation, s) >
                Count(ledger[..k], Consumption, s);
    assert (ledger + more)[..k] == ledger[..k];
  }

  ghost predicate OneOwner(w: World) {
    forall i, j :: (0 <= i < |w.processes| && 0 <= j < |w.processes|
                    && w.processes[i].Owner? && w.processes[j].Owner?) ==> i == j
  }

  /** An owner's check still holds, unless the ledger refuses every append anyway. */
  ghost predicate CheckHolds(file: Ledger, history: seq<LedgerRecord>, p: Process) {
    p.Owner? && p.opc.Checked? && Intact(file) ==> Outstanding(history, p.opc.identity)
  }

  ghost predicate Orderly(w: World) {
    && OneOwner(w) && Tracks(w.file, w.history)
    && (forall content :: InCausalOrder(w.history, content))
    && (forall i :: 0 <= i < |w.processes| ==> CheckHolds(w.file, w.history, w.processes[i]))
  }

  lemma OrderlyAppend(ledger: seq<LedgerRecord>, r: LedgerRecord)
    requires forall content :: InCausalOrder(ledger, content)
    requires r.kind.Reconciliation? ==> Outstanding(ledger, r.identity)
    ensures forall content :: InCausalOrder(ledger + [r], content)
    ensures !r.kind.Reconciliation? ==> forall s :: Outstanding(ledger, s) ==> Outstanding(ledger + [r], s)
  {
    assert ledger[..|ledger|] == ledger;
    forall content ensures InCausalOrder(ledger + [r], content) {
      OrderAppend(ledger, r, content);
      CountAppend(ledger, r, Consumption, content);
      CountAppend(ledger, r, Reconciliation, content);
      if SameContent(r.identity, content) {
        CountSame(ledger, Consumption, r.identity, content);
        CountSame(ledger, Reconciliation, r.identity, content);
      }
      assert InCausalOrder(ledger, content);
      assert Count(ledger[..|ledger|], Reconciliation, content) <= Count(ledger[..|ledger|], Consumption, content);
    }
    forall s | !r.kind.Reconciliation? && Outstanding(ledger, s) ensures Outstanding(ledger + [r], s) {
      CountAppend(ledger, r, Consumption, s);
      CountAppend(ledger, r, Reconciliation, s);
      var spent :| spent in ledger && spent.kind.Consumption? && spent.identity == s;
      assert spent in ledger + [r];
    }
  }

  lemma {:induction false} OrderlyStep(w: World, who: nat, c: Choice)
    requires Orderly(w)
    ensures Orderly(Step(w, who, c))
  {
    if who < |w.processes| {
      var p, after := w.processes[who], Step(w, who, c);
      assert CheckHolds(w.file, w.history, p);
      if Appends(w.file, p, c).Some? {
        OrderlyAppend(w.history, Appends(w.file, p, c).value);
        WriteTracks(w.file, w.history, Appends(w.file, p, c).value, CutOf(c));
      }
      forall i | 0 <= i < |after.processes| ensures CheckHolds(after.file, after.history, after.processes[i]) {
        assert CheckHolds(w.file, w.history, w.processes[i]);
      }
    }
  }

  /** With a single owner process, authority is never granted ahead of the spend it names, whatever
      the executors do. */
  lemma {:induction false} OneOwnerKeepsCausalOrder(w: World, schedule: seq<(nat, Choice)>)
    requires Orderly(w)
    ensures Orderly(Run(w, schedule))
    decreases |schedule|
  {
    if schedule != [] {
      OrderlyStep(w, schedule[0].0, schedule[0].1);
      OneOwnerKeepsCausalOrder(Step(w, schedule[0].0, schedule[0].1), schedule[1..]);
    }
  }

  lemma {:induction false} RunCons(w: World, who: nat, c: Choice, rest: seq<(nat, Choice)>)
    ensures Run(w, [(who, c)] + rest) == Run(Step(w, who, c), rest)
  {
    assert ([(who, c)] + rest)[1..] == rest;
  }

  /** Both owners check, then both append. */
  ghost function BothReconcile(s: Sealed): seq<(nat, Choice)> {
    var go := Proceed(true, None);
    [(0, CheckReconcile(s))] + ([(1, CheckReconcile(s))] + ([(0, go)] + ([(1, go)] + [])))
  }

  /** The file after one more reconciliation. */
  function Credited(file: Ledger, history: seq<LedgerRecord>, s: Sealed): Ledger {
    WrittenTo(file, NextLine(history, Honest(Reconciliation, s)), true)
  }

  /** The file can be read in full, and its last line is finished. */
  ghost predicate Sealable(file: Ledger, history: seq<LedgerRecord>) {
    Tracks(file, history) && Intact(file) && !Loose(file)
  }

  lemma {:induction false} CreditedIsSealable(file: Ledger, history: seq<LedgerRecord>, s: Sealed)
    requires Sealable(file, history)
    ensures Sealable(Credited(file, history, s), history + [Honest(Reconciliation, s)])
  {
    WriteTracks(file, history, Honest(Reconciliation, s), None);
    FirmWrite(file, history, NextLine(history, Honest(Reconciliation, s)), true);
  }

  lemma {:induction false} OwnerChecks(file: Ledger, ledger: seq<LedgerRecord>, s: Sealed, p: OwnerPc, q: OwnerPc)
    requires Sealable(file, ledger) && Outstanding(ledger, s)
    ensures Step(World(file, ledger, [Owner(p), Owner(q)]), 0, CheckReconcile(s)) ==
            World(file, ledger, [Owner(Checked(s)), Owner(q)])
    ensures Step(World(file, ledger, [Owner(p), Owner(q)]), 1, CheckReconcile(s)) ==
            World(file, ledger, [Owner(p), Owner(Checked(s))])
  {}

  lemma {:induction false} OwnerCredits(file: Ledger, ledger: seq<LedgerRecord>, s: Sealed, other: OwnerPc)
    requires Sealable(file, ledger)
    ensures Step(World(file, ledger, [Owner(Checked(s)), Owner(other)]), 0, Proceed(true, None)) ==
            World(Credited(file, ledger, s), ledger + [Honest(Reconciliation, s)], [Owner(Idle), Owner(other)])
    ensures Step(World(file, ledger, [Owner(other), Owner(Checked(s))]), 1, Proceed(true, None)) ==
            World(Credited(file, ledger, s), ledger + [Honest(Reconciliation, s)], [Owner(other), Owner(Idle)])
  {}

  /** With two owners the check and the append are not one act: from every safe ledger with an
      uncovered spend, both pass the check on that same spend, both reconciliations land, and the
      content is locked for good. */
  lemma {:induction false} TwoOwnersOverCredit(file: Ledger, ledger: seq<LedgerRecord>, s: Sealed)
    requires LedgerSafe(ledger) && Outstanding(ledger, s) && Sealable(file, ledger)
    ensures Initial(World(file, ledger, [Owner(Idle), Owner(Idle)]))
    ensures var end := Run(World(file, ledger, [Owner(Idle), Owner(Idle)]), BothReconcile(s));
      && Intact(end.file) && Records(end.file) == end.history
      && !InCausalOrder(end.history, s) && forall more :: !Authorised(end.history + more, s)
  {
    var c, go, r := CheckReconcile(s), Proceed(true, None), Honest(Reconciliation, s);
    var once, twice := Credited(file, ledger, s), Credited(Credited(file, ledger, s), ledger + [r], s);
    CreditedIsSealable(file, ledger, s);
    CreditedIsSealable(once, ledger + [r], s);
    OwnerChecks(file, ledger, s, Idle, Idle);
    OwnerChecks(file, ledger, s, Checked(s), Idle);
    OwnerCredits(file, ledger, s, Checked(s));
    OwnerCredits(once, ledger + [r], s, Idle);
    RunCons(World(file, ledger, [Owner(Idle), Owner(Idle)]), 0, c, [(1, c)] + ([(0, go)] + ([(1, go)] + [])));
    RunCons(World(file, ledger, [Owner(Checked(s)), Owner(Idle)]), 1, c, [(0, go)] + ([(1, go)] + []));
    RunCons(World(file, ledger, [Owner(Checked(s)), Owner(Checked(s))]), 0, go, [(1, go)] + []);
    RunCons(World(once, ledger + [r], [Owner(Idle), Owner(Checked(s))]), 1, go, []);
    OverCreditsAfterTwo(ledger, s);
    forall more ensures !Authorised(ledger + [r] + [r] + more, s) {
      OverCreditedIsNeverAuthorised(ledger + [r] + [r], more, s);
    }
  }

  lemma OverCreditsAfterTwo(ledger: seq<LedgerRecord>, s: Sealed)
    requires BudgetKept(ledger)
    ensures !InCausalOrder(ledger + [Honest(Reconciliation, s)] + [Honest(Reconciliation, s)], s)
  {
    var r := Honest(Reconciliation, s);
    var grown := ledger + [r] + [r];
    CountAppend(ledger, r, Consumption, s);
    CountAppend(ledger, r, Reconciliation, s);
    CountAppend(ledger + [r], r, Consumption, s);
    CountAppend(ledger + [r], r, Reconciliation, s);
    assert grown[..|grown|] == grown && ledger[..|ledger|] == ledger;
    assert Count(ledger[..|ledger|], Consumption, s) <= Count(ledger[..|ledger|], Reconciliation, s) + 1;
  }

  /* ---- which records stay readable ---- */

  lemma {:induction false} StepKeepsFirm(w: World, who: nat, c: Choice, n: nat)
    requires Tracks(w.file, w.history)
    ensures Firm(w.file, n) ==> Firm(Step(w, who, c).file, n)
    ensures !Intact(w.file) ==> Step(w, who, c).file == w.file
  {
    if who < |w.processes| && Appends(w.file, w.processes[who], c).Some? && Firm(w.file, n) {
      WriteKeepsFirm(w.file, w.history, Appends(w.file, w.processes[who], c).value, CutOf(c), n);
    }
  }

  lemma {:induction false} RunKeepsFirm(w: World, schedule: seq<(nat, Choice)>, n: nat)
    requires Invariant(w)
    ensures Firm(w.file, n) ==> Firm(Run(w, schedule).file, n)
    ensures !Intact(w.file) ==> Run(w, schedule).file == w.file
    decreases |schedule|
  {
    if schedule != [] {
      StepKeeps(w, schedule[0].0, schedule[0].1);
      StepKeepsFirm(w, schedule[0].0, schedule[0].1, n);
      RunKeepsFirm(Step(w, schedule[0].0, schedule[0].1), schedule[1..], n);
    }
  }

  /** Only a whole append of its own record lets an executor claim one. */
  lemma {:induction false} ClaimTakesSpend(file: Ledger, history: seq<LedgerRecord>, p: Process, c: Choice)
    requires !Claims(p) && Claims(Next(file, history, p, c))
    ensures Intact(file) && Appends(file, p, c) == Some(Honest(Consumption, p.identity)) && CutOf(c) == None
  {}

  lemma {:induction false} SpendingStep(w: World, who: nat, c: Choice)
    requires Tracks(w.file, w.history) && who < |w.processes| && !Claims(w.processes[who])
    requires Claims(Step(w, who, c).processes[who])
    ensures var next, r := Step(w, who, c), Honest(Consumption, w.processes[who].identity);
      && Intact(w.file) && next.file == WrittenTo(w.file, NextLine(w.history, r), true)
      && next.history == w.history + [r]
  {
    ClaimTakesSpend(w.file, w.history, w.processes[who], c);
  }

  /** An executor spends.  Whatever happens afterwards, readers get its record if and only if the last
      line was finished when it appended; otherwise its runner starts on a record nobody can read. */
  lemma {:induction false} SpendStaysReadableIff(w: World, who: nat, c: Choice, schedule: seq<(nat, Choice)>)
    requires Invariant(w) && who < |w.processes| && !Claims(w.processes[who])
    requires Claims(Step(w, who, c).processes[who])
    ensures var end := Run(Step(w, who, c), schedule);
      !Loose(w.file) <==>
        |w.history| < |Records(end.file)|
        && Records(end.file)[|w.history|] == Honest(Consumption, w.processes[who].identity)
  {
    var next := Step(w, who, c);
    SpendingStep(w, who, c);
    StepKeeps(w, who, c);
    AppendIsFirmIff(w.file, w.history, Honest(Consumption, w.processes[who].identity));
    RunKeeps(next, schedule);
    RunKeepsFirm(next, schedule, |w.history| + 1);
  }

  /** `n` undisturbed moves of the executor beside one owner. */
  ghost function Moves(n: nat): seq<(nat, Choice)> {
    if n == 0 then [] else [(1, Proceed(true, None))] + Moves(n - 1)
  }

  ghost function Beside(file: Ledger, history: seq<LedgerRecord>, s: Sealed, pc: Pc): World {
    World(file, history, [Owner(Idle), Executor(s, pc)])
  }

  lemma {:induction false} BesideSteps(file: Ledger, history: seq<LedgerRecord>, s: Sealed, pc: Pc)
    requires Appends(file, Executor(s, pc), Proceed(true, None)).None?
    ensures Step(Beside(file, history, s, pc), 1, Proceed(true, None)) ==
      Beside(file, history, s, ExecutorNext(Records(file), None, s, pc, Proceed(true, None)))
  {}

  lemma {:induction false} Moved(file: Ledger, history: seq<LedgerRecord>, s: Sealed, pc: Pc, n: nat)
    requires Appends(file, Executor(s, pc), Proceed(true, None)).None? && n > 0
    ensures Run(Beside(file, history, s, pc), Moves(n)) ==
      Run(Beside(file, history, s, ExecutorNext(Records(file), None, s, pc, Proceed(true, None))), Moves(n - 1))
  {
    BesideSteps(file, history, s, pc);
    RunCons(Beside(file, history, s, pc), 1, Proceed(true, None), Moves(n - 1));
  }

  lemma {:induction false} ThreeMoves(w: World, x: World, y: World, end: World, n: nat)
    requires n >= 3
    requires Step(w, 1, Proceed(true, None)) == x && Step(x, 1, Proceed(true, None)) == y
    requires Step(y, 1, Proceed(true, None)) == end
    ensures Run(w, Moves(n)) == Run(end, Moves(n - 3))
  {
    RunCons(w, 1, Proceed(true, None), Moves(n - 1));
    RunCons(x, 1, Proceed(true, None), Moves(n - 2));
    RunCons(y, 1, Proceed(true, None), Moves(n - 3));
  }

  lemma {:induction false} MovesToRebuilt(file: Ledger, history: seq<LedgerRecord>, s: Sealed, n: nat)
    requires Records(file) == history && Authorised(history, s) && n >= 3
    ensures Run(Beside(file, history, s, Start), Moves(n)) == Run(Beside(file, history, s, Rebuilt), Moves(n - 3))
  {
    BesideSteps(file, history, s, Start);
    BesideSteps(file, history, s, FirstRead(history));
    BesideSteps(file, history, s, FirstCleared);
    ThreeMoves(Beside(file, history, s, Start), Beside(file, history, s, FirstRead(history)),
               Beside(file, history, s, FirstCleared), Beside(file, history, s, Rebuilt), n);
  }

  lemma {:induction false} MovesToPreflight(file: Ledger, history: seq<LedgerRecord>, s: Sealed, n: nat)
    requires Records(file) == history && Authorised(history, s) && n >= 3
    ensures Run(Beside(file, history, s, Rebuilt), Moves(n)) ==
      Run(Beside(file, history, s, Preflighted(history)), Moves(n - 3))
  {
    BesideSteps(file, history, s, Rebuilt);
    BesideSteps(file, history, s, SecondRead(history));
    BesideSteps(file, history, s, SecondCleared(history));
    ThreeMoves(Beside(file, history, s, Rebuilt), Beside(file, history, s, SecondRead(history)),
               Beside(file, history, s, SecondCleared(history)), Beside(file, history, s, Preflighted(history)), n);
  }

  lemma {:induction false} SpendsBeside(file: Ledger, history: seq<LedgerRecord>, s: Sealed)
    requires Tracks(file, history) && Intact(file)
    ensures Step(Beside(file, history, s, Preflighted(history)), 1, Proceed(true, None)) ==
      Beside(WrittenTo(file, NextLine(history, Honest(Consumption, s)), true), history + [Honest(Consumption, s)], s,
             Spent(|history|))
  {}

  lemma {:induction false} MovesToRunner(file: Ledger, history: seq<LedgerRecord>, s: Sealed, n: nat)
    requires Tracks(file, history) && Intact(file) && n == 2
    ensures Run(Beside(file, history, s, Preflighted(history)), Moves(n)) ==
      Beside(WrittenTo(file, NextLine(history, Honest(Consumption, s)), true), history + [Honest(Consumption, s)], s,
             RunnerStarted(|history|))
  {
    var next := WrittenTo(file, NextLine(history, Honest(Consumption, s)), true);
    SpendsBeside(file, history, s);
    RunCons(Beside(file, history, s, Preflighted(history)), 1, Proceed(true, None), Moves(n - 1));
    Moved(next, history + [Honest(Consumption, s)], s, Spent(|history|), n - 1);
  }

  lemma {:induction false} TornApproval(file: Ledger, ledger: seq<LedgerRecord>, s: Sealed)
    requires Sealable(file, ledger)
    ensures var torn := WrittenTo(file, NextLine(ledger, Honest(Approval, s)), false);
      Tracks(torn, ledger + [Honest(Approval, s)]) && Intact(torn) && Loose(torn)
  {
    WriteTracks(file, ledger, Honest(Approval, s), Some(AllButNewline));
    FirmWrite(file, ledger, NextLine(ledger, Honest(Approval, s)), false);
  }

  lemma {:induction false} ApprovalLosesNewline(file: Ledger, ledger: seq<LedgerRecord>, s: Sealed)
    requires Sealable(file, ledger)
    ensures Step(Beside(file, ledger, s, Start), 0, Approve(s, Some(AllButNewline))) ==
      Beside(WrittenTo(file, NextLine(ledger, Honest(Approval, s)), false), ledger + [Honest(Approval, s)], s, Start)
  {}

  /** An approval that loses only its newline is accepted, and the executor it lets through glues its
      spend onto it: the runner starts, and nobody can read either record. */
  lemma {:induction false} RunnerOnUnreadableSpend(file: Ledger, ledger: seq<LedgerRecord>, s: Sealed, n: nat)
    requires Sealable(file, ledger) && Authorised(ledger + [Honest(Approval, s)], s) && n == 8
    ensures var end := Run(Beside(file, ledger, s, Start), [(0, Approve(s, Some(AllButNewline)))] + Moves(n));
      && end.processes == [Owner(Idle), Executor(s, RunnerStarted(|ledger| + 1))]
      && end.history == ledger + [Honest(Approval, s)] + [Honest(Consumption, s)]
      && Records(end.file) == ledger && !Intact(end.file)
  {
    var grown := ledger + [Honest(Approval, s)];
    var torn := WrittenTo(file, NextLine(ledger, Honest(Approval, s)), false);
    TornApproval(file, ledger, s);
    ApprovalLosesNewline(file, ledger, s);
    RunCons(Beside(file, ledger, s, Start), 0, Approve(s, Some(AllButNewline)), Moves(n));
    MovesToRebuilt(torn, grown, s, n);
    MovesToPreflight(torn, grown, s, n - 3);
    MovesToRunner(torn, grown, s, n - 6);
    LooseWrite(torn, grown, NextLine(grown, Honest(Consumption, s)), true);
    assert grown[..|ledger|] == ledger;
  }
}
