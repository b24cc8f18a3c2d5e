/**
 The holdout window's one-shot spend: any number of executions of one window contend for the
 flock on its consumption ledger, each scanning, reading, refusing or appending, and each may
 crash anywhere, also in the middle of the write, after any part of it.
 */
module HoldoutLedger {
  import opened LedgerFiles
  import opened Options

  /** The approval record. */
  datatype Approval = Approval(kind: string, windowId: string, worldId: string, protocolHash: string,
                               manifestHash: string, registrationSha: string, permitted: seq<string>,
                               declaredHead: string, reason: string, atEpoch: int)

  datatype Content = Content(kind: string, windowId: string, worldId: string, protocolHash: string,
                             manifestHash: string, registrationSha: string, permitted: seq<string>)

  function ContentIdentity(a: Approval): Content {
    Content(a.kind, a.windowId, a.worldId, a.protocolHash, a.manifestHash, a.registrationSha, a.permitted)
  }

  /** The same look at the same window, whatever head, reason and time the approvals name. */
  predicate SameLook(a: Approval, b: Approval) {
    && a.kind == b.kind && a.windowId == b.windowId && a.worldId == b.worldId
    && a.protocolHash == b.protocolHash && a.manifestHash == b.manifestHash
    && a.registrationSha == b.registrationSha && a.permitted == b.permitted
  }

  lemma {:induction false} ContentTellsApart(a: Approval, b: Approval)
    ensures ContentIdentity(a) == ContentIdentity(b) <==> SameLook(a, b)
  {}

  datatype Consumption = Consumption(content: Content, approval: Approval, head: string, atEpoch: int)

  type Ledger = File<Consumption>

  /** What `ReadConsumptions` returns, as a function of the file. */
  ghost function Read(file: Ledger): Option<seq<Consumption>> {
    if exists records :: Readable(file, records) then
      var records :| Readable(file, records);
      Some(records)
    else None
  }

  lemma {:induction false} ReadReadable(file: Ledger, records: seq<Consumption>)
    requires Readable(file, records)
    ensures Read(file) == Some(records)
  {
    StampInjective(Read(file).value, records);
  }

  predicate Holds(records: seq<Consumption>, content: Content) {
    exists i :: 0 <= i < |records| && records[i].content == content
  }

  datatype Pc =
    | Start
    | Scanned                              // past the unlocked `_refuse_second_consumption`
    | Locked                               // holds the flock
    | Cleared(existing: seq<Consumption>)  // read and checked under the flock
    | Written(at: nat)                     // appended, flock still held
    | Evaluating(at: nat)                  // authority spent, trials may register
    | Stopped

  datatype Execution = Execution(approval: Approval, atEpoch: int, pc: Pc)

  /** `history` lists every consumption whose record reached the file in full, also one that no reader
      can get at any more. */
  datatype World = World(file: Ledger, history: seq<Consumption>, lock: Option<nat>, executions: seq<Execution>)

  /** A crash releases the flock. */
  datatype Choice = Proceed | Crash(torn: Torn)

  function Body(e: Execution): Consumption {
    Consumption(ContentIdentity(e.approval), e.approval, e.approval.declaredHead, e.atEpoch)
  }

  predicate Holding(pc: Pc) {
    pc.Locked? || pc.Cleared? || pc.Written?
  }

  function Cut(c: Choice): Option<Torn> {
    if c.Proceed? then None else Some(c.torn)
  }

  /** What the write of an execution that read `existing` makes of the file. */
  function Wrote(file: Ledger, existing: seq<Consumption>, e: Execution, c: Choice): Ledger {
    WrittenBy(file, NextLine(existing, Body(e)), Cut(c))
  }

  function Grown(history: seq<Consumption>, e: Execution, c: Choice): seq<Consumption> {
    GrownBy(history, Body(e), Cut(c))
  }

  /** One act of execution number `who`: the new file and history, lock holder and execution. */
  ghost function Act(file: Ledger, history: seq<Consumption>, lock: Option<nat>, who: nat, e: Execution, c: Choice)
    : (Ledger, seq<Consumption>, Option<nat>, Execution)
  {
    if e.pc.Cleared? then
      (Wrote(file, e.pc.existing, e, c), Grown(history, e, c), if c.Proceed? then lock else None,
       e.(pc := if c.Proceed? then Written(|e.pc.existing|) else Stopped))
    else if c.Crash? then
      if e.pc.Evaluating? then (file, history, lock, e)
      else (file, history, if Holding(e.pc) then None else lock, e.(pc := Stopped))
    else match e.pc
      case Start =>
        (match Read(file)
         case Some(records) =>
           (file, history, lock, e.(pc := if Holds(records, ContentIdentity(e.approval)) then Stopped else Scanned))
         case None => (file, history, lock, e.(pc := Stopped)))
      case Scanned =>
        if lock.Some? then (file, history, lock, e) else (file, history, Some(who), e.(pc := Locked))
      case Locked =>
        (match Read(file)
         case Some(records) =>
           if Holds(records, ContentIdentity(e.approval)) then (file, history, None, e.(pc := Stopped))
           else (file, history, lock, e.(pc := Cleared(records)))
         case None => (file, history, None, e.(pc := Stopped)))
      case Written(at) => (file, history, None, e.(pc := Evaluating(at)))
      case Evaluating(_) => (file, history, lock, e)
      case Stopped => (file, history, lock, e)
  }

  ghost function Step(w: World, who: nat, c: Choice): World {
    if who >= |w.executions| then w
    else
      Put(w, who, Act(w.file, w.history, w.lock, who, w.executions[who], c))
  }

  function Put(w: World, who: nat, after: (Ledger, seq<Consumption>, Option<nat>, Execution)): World
    requires who < |w.executions|
  {
    World(after.0, after.1, after.2, w.executions[who := after.3])
  }

  ghost function Run(w: World, schedule: seq<(nat, Choice)>): World
    decreases |schedule|
  {
    if schedule == [] then w else Run(Step(w, schedule[0].0, schedule[0].1), schedule[1..])
  }

  // What every reachable world satisfies

  /** The file reads back as the whole history, or no reader ever gets past it. */
  ghost predicate Honest(file: Ledger, history: seq<Consumption>) {
    Readable(file, history) || Unreadable(file)
  }

  ghost predicate AllDistinct(records: seq<Consumption>) {
    forall i, j :: 0 <= i < j < |records| ==> records[i].content != records[j].content
  }

  /** Where in the history an execution's own record is, once it has written it. */
  function SpendIndex(pc: Pc): Option<nat> {
    match pc
    case Written(at) => Some(at)
    case Evaluating(at) => Some(at)
    case _ => None
  }

  ghost predicate ExecutionOk(file: Ledger, history: seq<Consumption>, lock: Option<nat>, i: nat, e: Execution) {
    && (Holding(e.pc) <==> lock == Some(i))
    && (SpendIndex(e.pc).Some? ==>
          SpendIndex(e.pc).value < |history| && history[SpendIndex(e.pc).value] == Body(e))
    && (e.pc.Cleared? ==>
          Readable(file, history) && e.pc.existing == history && !Holds(history, ContentIdentity(e.approval)))
  }

  ghost predicate Invariant(w: World) {
    && Honest(w.file, w.history) && AllDistinct(w.history)
    && (forall i :: 0 <= i < |w.executions| ==> ExecutionOk(w.file, w.history, w.lock, i, w.executions[i]))
    && (forall i, j :: 0 <= i < j < |w.executions| && SpendIndex(w.executions[i].pc).Some? ==>
          SpendIndex(w.executions[i].pc) != SpendIndex(w.executions[j].pc))
  }

  ghost predicate Initial(w: World) {
    && Readable(w.file, w.history) && AllDistinct(w.history)
    && w.lock == None
    && forall i :: 0 <= i < |w.executions| ==> w.executions[i].pc.Start?
  }

  /** A reader gets the whole history or refuses. */
  lemma ReadIsHonest(file: Ledger, history: seq<Consumption>)
    requires Honest(file, history)
    ensures Read(file) == if Readable(file, history) then Some(history) else None
  {
    if Readable(file, history) {
      ReadReadable(file, history);
    }
  }

  /** The write of a cleared execution, whole or torn. */
  lemma {:induction false} WriteKeeps(file: Ledger, history: seq<Consumption>, e: Execution, c: Choice)
    requires Readable(file, history) && AllDistinct(history) && !Holds(history, ContentIdentity(e.approval))
    ensures Honest(Wrote(file, history, e, c), Grown(history, e, c)) && AllDistinct(Grown(history, e, c))
  {
    WriteIsReadBackIff(file, history, Body(e), Cut(c));
  }

  /** What one act may do to the rest of the world. */
  ghost predicate ActOk(file: Ledger, history: seq<Consumption>, lock: Option<nat>, who: nat, e: Execution,
                        after: (Ledger, seq<Consumption>, Option<nat>, Execution))
  {
    && Honest(after.0, after.1) && AllDistinct(after.1) && ExecutionOk(after.0, after.1, after.2, who, after.3)
    && (after.2 == lock || (lock == None && after.2 == Some(who)) || (lock == Some(who) && after.2 == None))
    && history <= after.1 && (lock != Some(who) ==> after.1 == history && after.0 == file)
    && (SpendIndex(after.3.pc) == SpendIndex(e.pc) || SpendIndex(after.3.pc) == None
        || SpendIndex(after.3.pc) == Some(|history|))
  }

  lemma {:induction false} LookingKeeps(file: Ledger, history: seq<Consumption>, lock: Option<nat>, who: nat,
                                        e: Execution, c: Choice)
    requires Honest(file, history) && AllDistinct(history) && ExecutionOk(file, history, lock, who, e)
    requires !e.pc.Cleared?
    ensures ActOk(file, history, lock, who, e, Act(file, history, lock, who, e, c))
  {
    match c
    case Crash(_) =>
    case Proceed =>
      match e.pc
      case Locked => ReadIsHonest(file, history);
      case _ =>
  }

  /** What a cleared execution leaves behind, whole or torn, is fine for the rest of the world. */
  lemma {:induction false} WrittenIsOk(file: Ledger, history: seq<Consumption>, lock: Option<nat>, who: nat,
                                       e: Execution, next: Ledger, grown: seq<Consumption>, pc: Pc)
    requires ExecutionOk(file, history, lock, who, e) && e.pc.Cleared?
    requires Honest(next, grown) && AllDistinct(grown)
    requires grown == history || grown == history + [Body(e)]
    requires pc.Stopped? || (pc == Written(|history|) && grown == history + [Body(e)])
    ensures ActOk(file, history, lock, who, e,
                  (next, grown, if Holding(pc) then lock else None, e.(pc := pc)))
  {}

  lemma {:induction false} ActWrites(file: Ledger, history: seq<Consumption>, lock: Option<nat>, who: nat, e: Execution,
                                     c: Choice)
    requires e.pc == Cleared(history)
    ensures Act(file, history, lock, who, e, c) ==
      (Wrote(file, history, e, c), Grown(history, e, c), if c.Proceed? then lock else None,
       e.(pc := if c.Proceed? then Written(|history|) else Stopped))
  {}

  lemma {:induction false} WritingKeeps(file: Ledger, history: seq<Consumption>, lock: Option<nat>, who: nat,
                                        e: Execution, c: Choice)
    requires Honest(file, history) && AllDistinct(history) && ExecutionOk(file, history, lock, who, e)
    requires e.pc.Cleared?
    ensures ActOk(file, history, lock, who, e, Act(file, history, lock, who, e, c))
  {
    WriteKeeps(file, history, e, c);
    ActWrites(file, history, lock, who, e, c);
    WrittenIsOk(file, history, lock, who, e, Wrote(file, history, e, c), Grown(history, e, c),
                if c.Proceed? then Written(|history|) else Stopped);
  }

  lemma {:induction false} PutKeeps(w: World, who: nat, after: (Ledger, seq<Consumption>, Option<nat>, Execution))
    requires Invariant(w) && who < |w.executions|
    requires ActOk(w.file, w.history, w.lock, who, w.executions[who], after)
    ensures Invariant(Put(w, who, after))
  {
    var next := Put(w, who, after);
    forall i | 0 <= i < |next.executions|
      ensures ExecutionOk(next.file, next.history, next.lock, i, next.executions[i])
    {
      assert ExecutionOk(w.file, w.history, w.lock, i, w.executions[i]);
    }
    forall i, j | 0 <= i < j < |next.executions| && SpendIndex(next.executions[i].pc).Some?
      ensures SpendIndex(next.executions[i].pc) != SpendIndex(next.executions[j].pc)
    {
      assert ExecutionOk(w.file, w.history, w.lock, i, w.executions[i]);
      assert ExecutionOk(w.file, w.history, w.lock, j, w.executions[j]);
    }
  }

  lemma {:induction false} StepKeeps(w: World, who: nat, c: Choice)
    requires Invariant(w)
    ensures Invariant(Step(w, who, c)) && w.history <= Step(w, who, c).history
  {
    if who < |w.executions| {
      var e := w.executions[who];
      assert ExecutionOk(w.file, w.history, w.lock, who, e);
      if e.pc.Cleared? {
        WritingKeeps(w.file, w.history, w.lock, who, e, c);
      } else {
        LookingKeeps(w.file, w.history, w.lock, who, e, c);
      }
      PutKeeps(w, who, Act(w.file, w.history, w.lock, who, e, c));
    }
  }

  lemma {:induction false} RunKeeps(w: World, schedule: seq<(nat, Choice)>)
    requires Invariant(w)
    ensures Invariant(Run(w, schedule)) && w.history <= Run(w, schedule).history
    decreases |schedule|
  {
    if schedule != [] {
      StepKeeps(w, schedule[0].0, schedule[0].1);
      RunKeeps(Step(w, schedule[0].0, schedule[0].1), schedule[1..]);
    }
  }

  /** Under every interleaving, crash and torn write: no content is ever consumed twice, an execution
      that evaluates consumed its own, two executions that both evaluate look at different windows,
      worlds, protocols, datasets, registrations or sessions, and a reader gets every consumption ever
      recorded or refuses. */
  lemma {:induction false} OneLook(w: World, schedule: seq<(nat, Choice)>)
    requires Initial(w)
    ensures var end := Run(w, schedule);
      && w.history <= end.history && AllDistinct(end.history)
      && (Read(end.file) == Some(end.history) || Read(end.file) == None)
      && (forall i :: 0 <= i < |end.executions| && end.executions[i].pc.Evaluating? ==>
            end.executions[i].pc.at < |end.history| && end.history[end.executions[i].pc.at] == Body(end.executions[i]))
      && (forall i, j :: (0 <= i < j < |end.executions|
                          && end.executions[i].pc.Evaluating? && end.executions[j].pc.Evaluating?) ==>
            !SameLook(end.executions[i].approval, end.executions[j].approval))
  {
    RunKeeps(w, schedule);
    var end := Run(w, schedule);
    ReadIsHonest(end.file, end.history);
    forall i | 0 <= i < |end.executions| ensures ExecutionOk(end.file, end.history, end.lock, i, end.executions[i]) {}
    forall i, j | 0 <= i < j < |end.executions| && end.executions[i].pc.Evaluating? && end.executions[j].pc.Evaluating?
      ensures !SameLook(end.executions[i].approval, end.executions[j].approval)
    {
      ContentTellsApart(end.executions[i].approval, end.executions[j].approval);
      assert ExecutionOk(end.file, end.history, end.lock, i, end.executions[i]);
      assert ExecutionOk(end.file, end.history, end.lock, j, end.executions[j]);
      assert SpendIndex(end.executions[i].pc) != SpendIndex(end.executions[j].pc);
    }
  }

  /** A crash releases the flock and stops an execution, unless it evaluates already; only one that was
      writing leaves anything behind. */
  lemma {:induction false} CrashStops(w: World, who: nat, torn: Torn)
    requires who < |w.executions| && !w.executions[who].pc.Cleared?
    ensures var e := w.executions[who];
      Step(w, who, Crash(torn)) ==
        if e.pc.Evaluating? then w
        else w.(lock := if Holding(e.pc) then None else w.lock, executions := w.executions[who := e.(pc := Stopped)])
  {}

  // Who gets through

  /** Every record carries the identity of the approval it was written for. */
  ghost predicate Genuine(records: seq<Consumption>) {
    forall r :: r in records ==> r.content == ContentIdentity(r.approval)
  }

  ghost predicate LookedAt(records: seq<Consumption>, a: Approval) {
    exists r :: r in records && SameLook(r.approval, a)
  }

  lemma {:induction false} HoldsIffLookedAt(records: seq<Consumption>, a: Approval)
    requires Genuine(records)
    ensures Holds(records, ContentIdentity(a)) <==> LookedAt(records, a)
  {
    forall i | 0 <= i < |records|
      ensures records[i].content == ContentIdentity(a) <==> SameLook(records[i].approval, a)
    {
      assert records[i] in records;
      ContentTellsApart(records[i].approval, a);
    }
    if r :| r in records && SameLook(r.approval, a) {
      var i :| 0 <= i < |records| && records[i] == r;
    }
  }

  lemma {:induction false} StepKeepsGenuine(w: World, who: nat, c: Choice)
    requires Genuine(w.history)
    ensures Genuine(Step(w, who, c).history)
  {}

  lemma {:induction false} RunKeepsGenuine(w: World, schedule: seq<(nat, Choice)>)
    requires Genuine(w.history)
    ensures Genuine(Run(w, schedule).history)
    decreases |schedule|
  {
    if schedule != [] {
      StepKeepsGenuine(w, schedule[0].0, schedule[0].1);
      RunKeepsGenuine(Step(w, schedule[0].0, schedule[0].1), schedule[1..]);
    }
  }

  /** Where every record was written for its own approval, no look is ever recorded twice. */
  lemma {:induction false} NoLookTwice(w: World, schedule: seq<(nat, Choice)>, i: nat, j: nat)
    requires Initial(w) && Genuine(w.history) && i < j < |Run(w, schedule).history|
    ensures var h := Run(w, schedule).history; !SameLook(h[i].approval, h[j].approval)
  {
    var h := Run(w, schedule).history;
    OneLook(w, schedule);
    RunKeepsGenuine(w, schedule);
    assert h[i] in h && h[j] in h;
    ContentTellsApart(h[i].approval, h[j].approval);
  }

  /** `n` undisturbed moves of one execution. */
  function Moves(who: nat, n: nat): seq<(nat, Choice)> {
    if n == 0 then [] else [(who, Proceed)] + Moves(who, n - 1)
  }

  /** The world with one execution elsewhere. */
  function At(w: World, who: nat, lock: Option<nat>, pc: Pc): World
    requires who < |w.executions|
  {
    w.(lock := lock, executions := w.executions[who := w.executions[who].(pc := pc)])
  }

  lemma {:induction false} MovesOn(w: World, who: nat, next: World, n: nat)
    requires n > 0 && Step(w, who, Proceed) == next
    ensures Run(w, Moves(who, n)) == Run(next, Moves(who, n - 1))
  {
    assert Moves(who, n)[1..] == Moves(who, n - 1);
  }

  lemma {:induction false} FirstLook(w: World, who: nat)
    requires Readable(w.file, w.history) && Genuine(w.history) && w.lock.None?
    requires who < |w.executions| && w.executions[who].pc.Start?
    ensures Step(w, who, Proceed) ==
      At(w, who, None, if LookedAt(w.history, w.executions[who].approval) then Stopped else Scanned)
  {
    ReadReadable(w.file, w.history);
    HoldsIffLookedAt(w.history, w.executions[who].approval);
  }

  lemma {:induction false} LockAndLook(w: World, who: nat)
    requires Readable(w.file, w.history) && Genuine(w.history) && w.lock.None?
    requires who < |w.executions| && !LookedAt(w.history, w.executions[who].approval)
    ensures Step(At(w, who, None, Scanned), who, Proceed) == At(w, who, Some(who), Locked)
    ensures Step(At(w, who, Some(who), Locked), who, Proceed) == At(w, who, Some(who), Cleared(w.history))
  {
    ReadReadable(w.file, w.history);
    HoldsIffLookedAt(w.history, w.executions[who].approval);
  }

  /** The world after the execution's record was written. */
  function Spent(w: World, who: nat): World
    requires who < |w.executions|
  {
    var body := Body(w.executions[who]);
    w.(file := WrittenTo(w.file, NextLine(w.history, body), true), history := w.history + [body])
  }

  lemma {:induction false} WriteAndEvaluate(w: World, who: nat)
    requires who < |w.executions|
    ensures Step(At(w, who, Some(who), Cleared(w.history)), who, Proceed) ==
      At(Spent(w, who), who, Some(who), Written(|w.history|))
    ensures Step(At(Spent(w, who), who, Some(who), Written(|w.history|)), who, Proceed) ==
      At(Spent(w, who), who, None, Evaluating(|w.history|))
  {}

  lemma {:induction false} StoppedStays(w: World, who: nat, n: nat)
    requires who < |w.executions|
    ensures Run(At(w, who, None, Stopped), Moves(who, n)) == At(w, who, None, Stopped)
  {
    if n > 0 {
      MovesOn(At(w, who, None, Stopped), who, At(w, who, None, Stopped), n);
      StoppedStays(w, who, n - 1);
    }
  }

  /** Left alone, an execution ends evaluating on its own record if and only if no recorded approval is
      for the same look; otherwise it stops and nothing is written. */
  lemma {:induction false} EvaluatesIffFresh(w: World, who: nat, n: nat)
    requires Readable(w.file, w.history) && Genuine(w.history) && w.lock.None? && n == 5
    requires who < |w.executions| && w.executions[who].pc.Start?
    ensures Run(w, Moves(who, n)) ==
      if LookedAt(w.history, w.executions[who].approval) then At(w, who, None, Stopped)
      else At(Spent(w, who), who, None, Evaluating(|w.history|))
  {
    FirstLook(w, who);
    if LookedAt(w.history, w.executions[who].approval) {
      MovesOn(w, who, At(w, who, None, Stopped), n);
      StoppedStays(w, who, n - 1);
    } else {
      LockAndLook(w, who);
      WriteAndEvaluate(w, who);
      MovesOn(w, who, At(w, who, None, Scanned), n);
      MovesOn(At(w, who, None, Scanned), who, At(w, who, Some(who), Locked), n - 1);
      MovesOn(At(w, who, Some(who), Locked), who, At(w, who, Some(who), Cleared(w.history)), n - 2);
      MovesOn(At(w, who, Some(who), Cleared(w.history)), who, At(Spent(w, who), who, Some(who), Written(|w.history|)),
              n - 3);
      MovesOn(At(Spent(w, who), who, Some(who), Written(|w.history|)), who,
              At(Spent(w, who), who, None, Evaluating(|w.history|)), n - 4);
    }
  }

  // When the records stay readable

  /** The step spoils the file: a fragment is written, or anything at all onto an unfinished line. */
  predicate Spoils(w: World, who: nat, c: Choice) {
    && who < |w.executions| && w.executions[who].pc.Cleared?
    && c != Crash(Nothing) && (c == Crash(Fragment) || Loose(w.file))
  }

  lemma {:induction false} WroteIsReadableIff(file: Ledger, history: seq<Consumption>, e: Execution, c: Choice)
    requires Readable(file, history)
    ensures Readable(Wrote(file, history, e, c), Grown(history, e, c)) <==>
            c == Crash(Nothing) || (c != Crash(Fragment) && !Loose(file))
  {
    WriteIsReadBackIff(file, history, Body(e), Cut(c));
  }

  lemma StepOutsideWrite(w: World, who: nat, c: Choice)
    requires who >= |w.executions| || !w.executions[who].pc.Cleared?
    ensures Step(w, who, c).file == w.file && Step(w, who, c).history == w.history
  {}

  lemma {:induction false} StepWrites(w: World, who: nat, c: Choice)
    requires who < |w.executions| && w.executions[who].pc == Cleared(w.history)
    ensures Step(w, who, c).file == Wrote(w.file, w.history, w.executions[who], c)
    ensures Step(w, who, c).history == Grown(w.history, w.executions[who], c)
  {
    ActWrites(w.file, w.history, w.lock, who, w.executions[who], c);
  }

  /** A step keeps every record readable if and only if it writes no fragment and does not write onto
      an unfinished last line. */
  lemma {:induction false} StaysReadableIff(w: World, who: nat, c: Choice)
    requires Invariant(w) && Readable(w.file, w.history)
    ensures Readable(Step(w, who, c).file, Step(w, who, c).history) <==> !Spoils(w, who, c)
  {
    if who < |w.executions| && w.executions[who].pc.Cleared? {
      assert ExecutionOk(w.file, w.history, w.lock, who, w.executions[who]);
      StepWrites(w, who, c);
      WroteIsReadableIff(w.file, w.history, w.executions[who], c);
    } else {
      StepOutsideWrite(w, who, c);
    }
  }

  /** Some step of the run spoils the file. */
  ghost predicate SpoiltIn(w: World, schedule: seq<(nat, Choice)>)
    decreases |schedule|
  {
    schedule != [] &&
    (Spoils(w, schedule[0].0, schedule[0].1) || SpoiltIn(Step(w, schedule[0].0, schedule[0].1), schedule[1..]))
  }

  /** Nobody clears a ledger that cannot be read, so nobody writes to it. */
  lemma {:induction false} SpoiltForGood(w: World, schedule: seq<(nat, Choice)>)
    requires Invariant(w) && !Readable(w.file, w.history)
    ensures Run(w, schedule).file == w.file && Run(w, schedule).history == w.history
    decreases |schedule|
  {
    if schedule != [] {
      var (who, c) := schedule[0];
      StepKeeps(w, who, c);
      if who < |w.executions| {
        assert ExecutionOk(w.file, w.history, w.lock, who, w.executions[who]);
      }
      StepOutsideWrite(w, who, c);
      SpoiltForGood(Step(w, who, c), schedule[1..]);
    }
  }

  /** The records are all readable at the end of a run if and only if no step of it spoils the file. */
  lemma {:induction false} RunStaysReadableIff(w: World, schedule: seq<(nat, Choice)>)
    requires Invariant(w) && Readable(w.file, w.history)
    ensures Readable(Run(w, schedule).file, Run(w, schedule).history) <==> !SpoiltIn(w, schedule)
    decreases |schedule|
  {
    if schedule != [] {
      var (who, c) := schedule[0];
      var next := Step(w, who, c);
      StepKeeps(w, who, c);
      StaysReadableIff(w, who, c);
      if Spoils(w, who, c) {
        SpoiltForGood(next, schedule[1..]);
      } else {
        RunStaysReadableIff(next, schedule[1..]);
      }
    }
  }

  /** From a file whose last line is finished, runs without a torn write lose nothing. */
  lemma {:induction false} WholeWritesLoseNothing(w: World, schedule: seq<(nat, Choice)>)
    requires Invariant(w) && Readable(w.file, w.history) && !Loose(w.file)
    requires forall i :: 0 <= i < |schedule| ==> schedule[i].1 == Proceed || schedule[i].1 == Crash(Nothing)
    ensures Readable(Run(w, schedule).file, Run(w, schedule).history) && !Loose(Run(w, schedule).file)
    decreases |schedule|
  {
    if schedule != [] {
      var next := Step(w, schedule[0].0, schedule[0].1);
      StepKeeps(w, schedule[0].0, schedule[0].1);
      StaysReadableIff(w, schedule[0].0, schedule[0].1);
      WholeWritesLoseNothing(next, schedule[1..]);
    }
  }

  /** The first execution loses only its newline; the second one goes through. */
  function LostNewline(): seq<(nat, Choice)> {
    [(0, Proceed), (0, Proceed), (0, Proceed), (0, Crash(AllButNewline)),
     (1, Proceed), (1, Proceed), (1, Proceed), (1, Proceed), (1, Proceed)]
  }

  ghost function Pair(file: Ledger, history: seq<Consumption>, lock: Option<nat>, a: Execution, p: Pc, b: Execution,
                      q: Pc)
    : World
  {
    World(file, history, lock, [a.(pc := p), b.(pc := q)])
  }

  lemma {:induction false} RunNext(w: World, schedule: seq<(nat, Choice)>)
    requires schedule != []
    ensures Run(w, schedule) == Run(Step(w, schedule[0].0, schedule[0].1), schedule[1..])
  {}

  lemma {:induction false} RunFour(w: World, end: World, x: World, y: World, z: World, s: seq<(nat, Choice)>)
    requires |s| >= 4 && Step(w, s[0].0, s[0].1) == x && Step(x, s[1].0, s[1].1) == y && Step(y, s[2].0, s[2].1) == z
    requires Step(z, s[3].0, s[3].1) == end
    ensures Run(w, s) == Run(end, s[4..])
  {
    assert s[1..][1..] == s[2..] && s[2..][1..] == s[3..] && s[3..][1..] == s[4..];
    RunNext(w, s);
    RunNext(x, s[1..]);
    RunNext(y, s[2..]);
    RunNext(z, s[3..]);
  }

  lemma {:induction false} RunFive(w: World, x: World, y: World, z: World, u: World, end: World, s: seq<(nat, Choice)>)
    requires |s| == 5 && Step(w, s[0].0, s[0].1) == x && Step(x, s[1].0, s[1].1) == y && Step(y, s[2].0, s[2].1) == z
    requires Step(z, s[3].0, s[3].1) == u && Step(u, s[4].0, s[4].1) == end
    ensures Run(w, s) == end
  {
    RunFour(w, u, x, y, z, s);
    RunNext(u, s[4..]);
    assert s[4..][1..] == [];
  }

  /** An execution that finds its content unspent clears the ledger in three steps. */
  lemma {:induction false} Clears(file: Ledger, history: seq<Consumption>, a: Execution, b: Execution)
    requires Readable(file, history)
    ensures !Holds(history, ContentIdentity(a.approval)) ==>
      && Step(Pair(file, history, None, a, Start, b, Start), 0, Proceed) ==
           Pair(file, history, None, a, Scanned, b, Start)
      && Step(Pair(file, history, None, a, Scanned, b, Start), 0, Proceed) ==
           Pair(file, history, Some(0), a, Locked, b, Start)
      && Step(Pair(file, history, Some(0), a, Locked, b, Start), 0, Proceed)
         == Pair(file, history, Some(0), a, Cleared(history), b, Start)
    ensures !Holds(history, ContentIdentity(b.approval)) ==>
      && Step(Pair(file, history, None, a, Stopped, b, Start), 1, Proceed) ==
           Pair(file, history, None, a, Stopped, b, Scanned)
      && Step(Pair(file, history, None, a, Stopped, b, Scanned), 1, Proceed)
         == Pair(file, history, Some(1), a, Stopped, b, Locked)
      && Step(Pair(file, history, Some(1), a, Stopped, b, Locked), 1, Proceed)
         == Pair(file, history, Some(1), a, Stopped, b, Cleared(history))
  {
    ReadReadable(file, history);
  }

  lemma {:induction false} FirstTears(file: Ledger, history: seq<Consumption>, a: Execution, b: Execution)
    ensures Step(Pair(file, history, Some(0), a, Cleared(history), b, Start), 0, Crash(AllButNewline))
         == Pair(WrittenTo(file, NextLine(history, Body(a)), false), history + [Body(a)], None, a, Stopped, b, Start)
  {}

  lemma {:induction false} SecondWrites(file: Ledger, history: seq<Consumption>, a: Execution, b: Execution)
    ensures Step(Pair(file, history, Some(1), a, Stopped, b, Cleared(history)), 1, Proceed)
         == Pair(WrittenTo(file, NextLine(history, Body(b)), true), history + [Body(b)], Some(1), a, Stopped,
                 b, Written(|history|))
    ensures Step(Pair(file, history, Some(1), a, Stopped, b, Written(|history|)), 1, Proceed)
         == Pair(file, history, None, a, Stopped, b, Evaluating(|history|))
  {}

  /** The first execution's part of the schedule. */
  lemma {:induction false} FirstPart(file: Ledger, history: seq<Consumption>, a: Execution, b: Execution,
                                     s: seq<(nat, Choice)>)
    requires Readable(file, history) && !Holds(history, ContentIdentity(a.approval)) && s == LostNewline()
    ensures Run(Pair(file, history, None, a, Start, b, Start), s) ==
      Run(Pair(WrittenTo(file, NextLine(history, Body(a)), false), history + [Body(a)], None, a, Stopped, b, Start),
        s[4..])
  {
    Clears(file, history, a, b);
    FirstTears(file, history, a, b);
    RunFour(Pair(file, history, None, a, Start, b, Start),
            Pair(WrittenTo(file, NextLine(history, Body(a)), false), history + [Body(a)], None, a, Stopped, b, Start),
            Pair(file, history, None, a, Scanned, b, Start), Pair(file, history, Some(0), a, Locked, b, Start),
            Pair(file, history, Some(0), a, Cleared(history), b, Start), s);
  }

  /** The second execution's part. */
  lemma {:induction false} SecondPart(file: Ledger, history: seq<Consumption>, a: Execution, b: Execution,
                                      s: seq<(nat, Choice)>)
    requires Readable(file, history) && !Holds(history, ContentIdentity(b.approval)) && s == LostNewline()[4..]
    ensures Run(Pair(file, history, None, a, Stopped, b, Start), s) ==
      Pair(WrittenTo(file, NextLine(history, Body(b)), true), history + [Body(b)], None, a, Stopped,
           b, Evaluating(|history|))
  {
    var twice, grown := WrittenTo(file, NextLine(history, Body(b)), true), history + [Body(b)];
    Clears(file, history, a, b);
    SecondWrites(file, history, a, b);
    assert Step(Pair(twice, grown, Some(1), a, Stopped, b, Written(|history|)), 1, Proceed)
        == Pair(twice, grown, None, a, Stopped, b, Evaluating(|history|));
    RunFive(Pair(file, history, None, a, Stopped, b, Start), Pair(file, history, None, a, Stopped, b, Scanned),
            Pair(file, history, Some(1), a, Stopped, b, Locked),
            Pair(file, history, Some(1), a, Stopped, b, Cleared(history)),
            Pair(twice, grown, Some(1), a, Stopped, b, Written(|history|)),
            Pair(twice, grown, None, a, Stopped, b, Evaluating(|history|)), s);
  }

  lemma {:induction false} NotHeldAfter(history: seq<Consumption>, body: Consumption, content: Content)
    requires !Holds(history, content) && body.content != content
    ensures !Holds(history + [body], content)
  {}

  /** From any readable file with a finished last line, two executions of unspent contents can end with
      the second evaluating while neither record can be read by anybody. */
  lemma {:induction false} LostNewlineLosesRecords(file: Ledger, history: seq<Consumption>, a: Execution, b: Execution,
                                                   s: seq<(nat, Choice)>)
    requires Readable(file, history) && !Loose(file) && s == LostNewline()
    requires !Holds(history, ContentIdentity(a.approval)) && !Holds(history, ContentIdentity(b.approval))
    requires ContentIdentity(a.approval) != ContentIdentity(b.approval)
    ensures var end := Run(Pair(file, history, None, a, Start, b, Start), s);
      && end.executions[1].pc.Evaluating? && end.history == history + [Body(a)] + [Body(b)]
      && Read(end.file) == None
  {
    var once, grown := WrittenTo(file, NextLine(history, Body(a)), false), history + [Body(a)];
    FirstPart(file, history, a, b, s);
    AppendIsReadBackIff(file, history, Body(a), false);
    NotHeldAfter(history, Body(a), ContentIdentity(b.approval));
    SecondPart(once, grown, a, b, s[4..]);
    AppendIsReadBackIff(once, grown, Body(b), true);
  }
}
