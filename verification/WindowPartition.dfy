/**
 Which sealed dates a holdout window may evaluate.  The base window takes the sealed dates that
 are label-complete on its world; the extension takes all the others, or refuses.
 */
module WindowPartition {
  import opened Options

  datatype Date = Date(year: int, month: int, day: int)

  predicate AtOrBefore(a: Date, b: Date) {
    a.year < b.year || (a.year == b.year && (a.month < b.month || (a.month == b.month && a.day <= b.day)))
  }

  const SEALED: seq<Date> := [
    Date(2026, 5, 8), Date(2026, 5, 15), Date(2026, 5, 22), Date(2026, 5, 29), Date(2026, 6, 5),
    Date(2026, 6, 12), Date(2026, 6, 26), Date(2026, 7, 10), Date(2026, 7, 17), Date(2026, 7, 24),
    Date(2026, 7, 31), Date(2026, 8, 7), Date(2026, 8, 14)]

  const BASE_PROGRAM := "p4-window-a"
  const BASE_WINDOW_ID := "final-holdout-window-a"
  const LABEL_HORIZON := 5

  /** A date's place in a common order: of two dates, the later one has the larger number. */
  ghost function Place(d: Date): int {
    (d.year * 16 + d.month) * 32 + d.day
  }

  ghost predicate Real(d: Date) {
    1 <= d.month <= 12 && 1 <= d.day <= 31
  }

  lemma {:induction false} DatesInOrder(a: Date, b: Date)
    requires Real(a) && Real(b)
    ensures AtOrBefore(a, b) <==> Place(a) <= Place(b)
    ensures Place(a) == Place(b) <==> a == b
  {}

  /** The day of 2026 of a date from May on. */
  ghost function DayOfYear(d: Date): int {
    (if d.month == 5 then 120 else if d.month == 6 then 151 else if d.month == 7 then 181 else 212) + d.day
  }

  /** The sealed dates are thirteen Fridays of 2026 (the first day of that year is a Thursday), from
      8 May to 14 August, every week but those of 19 June and 3 July. */
  lemma {:induction false} SealedAreFridays(i: nat)
    requires i < |SEALED|
    ensures |SEALED| == 13 && SEALED[0] == Date(2026, 5, 8) && SEALED[12] == Date(2026, 8, 14)
    ensures SEALED[i].year == 2026 && 5 <= SEALED[i].month <= 8 && DayOfYear(SEALED[i]) % 7 == 2
    ensures var step := if SEALED[i] == Date(2026, 6, 26) || SEALED[i] == Date(2026, 7, 10) then 14 else 7;
      i > 0 ==> DayOfYear(SEALED[i]) - DayOfYear(SEALED[i - 1]) == step
  {}

  datatype Window = Base | Extension

  datatype Registration = Registration(program: string, windowId: string, worldId: string, protocolHash: string,
                                       manifestHash: string, expected: seq<Date>)

  /** The registration hash is the term of the registration itself. */
  datatype Approval = Approval(windowId: string, worldId: string, protocolHash: string, manifestHash: string,
                               registration: Registration, declaredHead: string, permitted: seq<Date>)

  datatype Evidence = Evidence(program: string, permitted: seq<Date>)

  /** The built world: its decision grid in ascending order and the session of its last bar. */
  datatype World = World(worldId: string, protocolHash: string, manifestHash: string, grid: seq<Date>, last: Date)

  /** The tracked files of the base window, as the extension finds them. */
  datatype BaseRecords = BaseRecords(evidence: Option<Evidence>, registration: Option<Registration>,
                                     committed: Option<Registration>)

  function Dates(s: seq<Date>): set<Date> {
    set d | d in s
  }

  predicate Ascending(s: seq<Date>) {
    forall i, j :: 0 <= i < j < |s| ==> AtOrBefore(s[i], s[j]) && s[i] != s[j]
  }

  lemma DatesAppend(s: seq<Date>, d: Date)
    ensures Dates(s + [d]) == Dates(s) + {d}
  {}

  function Keep(s: seq<Date>, scope: set<Date>): (r: seq<Date>)
    ensures Dates(r) == Dates(s) * scope
  {
    if s == [] then [] else
      var rest := Keep(s[..|s| - 1], scope);
      DatesAppend(rest, s[|s| - 1]);
      DatesAppend(s[..|s| - 1], s[|s| - 1]);
      assert s == s[..|s| - 1] + [s[|s| - 1]];
      if s[|s| - 1] in scope then rest + [s[|s| - 1]] else rest
  }

  lemma {:induction false} KeepAscends(s: seq<Date>, scope: set<Date>)
    requires Ascending(s)
    ensures Ascending(Keep(s, scope))
  {
    if s != [] {
      var before := s[..|s| - 1];
      KeepAscends(before, scope);
      forall i | 0 <= i < |Keep(before, scope)| ensures Keep(before, scope)[i] in Dates(before) {
        assert Keep(before, scope)[i] in Dates(Keep(before, scope));
      }
    }
  }

  /** `_active_date_scope`: None is a refusal. */
  function ActiveScope(window: Window, base: BaseRecords): Option<set<Date>> {
    if window.Base? then Some(Dates(SEALED))
    else if base.evidence.None? || base.registration.None? || base.committed != base.registration then None
    else
      var r := base.registration.value;
      if r.program != BASE_PROGRAM || r.windowId != BASE_WINDOW_ID then None
      else if r.expected == [] then None
      else if base.evidence.value.program != BASE_PROGRAM || base.evidence.value.permitted != r.expected then None
      else if Dates(r.expected) - Dates(SEALED) != {} then None
      else Some(Dates(SEALED) - Dates(r.expected))
  }

  /** How many grid sessions are at or before the last bar. */
  function InWorld(grid: seq<Date>, last: Date): (n: nat)
    ensures n <= |grid|
  {
    if grid == [] then 0
    else InWorld(grid[..|grid| - 1], last) + if AtOrBefore(grid[|grid| - 1], last) then 1 else 0
  }

  /** `label_complete_permitted_sessions`: the sealed grid sessions with enough later ones in the world. */
  function LabelComplete(grid: seq<Date>, last: Date): Option<seq<Date>> {
    var n := InWorld(grid, last);
    if n == 0 then None
    else
      var permitted := if n > LABEL_HORIZON then Keep(grid[..n - LABEL_HORIZON], Dates(SEALED)) else [];
      if permitted == [] then None else Some(permitted)
  }

  /** `_world_permitted`: the extension takes its whole scope or nothing. */
  function WorldPermitted(window: Window, base: BaseRecords, world: World): Option<seq<Date>> {
    match LabelComplete(world.grid, world.last)
    case None => None
    case Some(permitted) =>
      match ActiveScope(window, base)
      case None => None
      case Some(scope) =>
        var scoped := Keep(permitted, scope);
        if window.Extension? && scope - Dates(scoped) != {} then None else Some(scoped)
  }

  /** The date checks of `_validate_approval_record`. */
  predicate ApprovalDatesValid(window: Window, base: BaseRecords, permitted: seq<Date>) {
    permitted != [] && ActiveScope(window, base).Some? && Dates(permitted) <= ActiveScope(window, base).value
  }

  /** The binding checks of `_execute` up to the spend: what a window is about to consume. */
  predicate Executes(window: Window, windowId: string, base: BaseRecords, registration: Registration,
                     recorded: Registration, approval: Approval, head: string, world: World) {
    && recorded == registration
    && approval.windowId == windowId && ApprovalDatesValid(window, base, approval.permitted)
    && approval.declaredHead == head
    && approval.registration == registration
    && approval.manifestHash == world.manifestHash
    && approval.protocolHash == world.protocolHash
    && approval.worldId == world.worldId
    && WorldPermitted(window, base, world) == Some(approval.permitted)
    && approval.permitted == registration.expected
  }

  /** What the base window's execution writes as tracked evidence. */
  function EvidenceOf(a: Approval): Evidence {
    Evidence(BASE_PROGRAM, a.permitted)
  }

  lemma {:induction false} NoneOutside(a: set<Date>, b: set<Date>)
    requires a - b == {}
    ensures a <= b
  {
    forall d | d in a ensures d in b {
      assert d in b || d in a - b;
    }
  }

  /** What the extension's scope is: every sealed date the base window did not consume, if and only if its
      evidence and its committed registration are those of the base program, agree on a non-empty set of
      sealed dates, and are there at all. */
  lemma {:induction false} ScopeIsUnspent(base: BaseRecords, scope: set<Date>)
    ensures ActiveScope(Extension, base) == Some(scope) <==>
      exists e, r :: base == BaseRecords(Some(e), Some(r), Some(r))
        && e.program == "p4-window-a" && r.program == "p4-window-a" && r.windowId == "final-holdout-window-a"
        && e.permitted == r.expected != [] && (forall d :: d in r.expected ==> d in SEALED)
        && (forall d :: d in scope <==> d in SEALED && d !in e.permitted)
    ensures ActiveScope(Base, base) == Some(scope) <==> forall d :: d in scope <==> d in SEALED
  {
    forall d ensures d in Dates(SEALED) <==> d in SEALED {}
    assert ActiveScope(Base, base) == Some(Dates(SEALED));
    if forall d :: d in scope <==> d in SEALED {
      assert scope == Dates(SEALED);
    }
    if ActiveScope(Extension, base) == Some(scope) {
      var e, r := base.evidence.value, base.registration.value;
      NoneOutside(Dates(r.expected), Dates(SEALED));
      assert forall d :: d in r.expected ==> d in Dates(r.expected);
      assert base == BaseRecords(Some(e), Some(r), Some(r));
    }
    if e, r :| base == BaseRecords(Some(e), Some(r), Some(r))
               && e.program == "p4-window-a" && r.program == "p4-window-a" && r.windowId == "final-holdout-window-a"
               && e.permitted == r.expected != [] && (forall d :: d in r.expected ==> d in SEALED)
               && (forall d :: d in scope <==> d in SEALED && d !in e.permitted) {
      assert Dates(r.expected) - Dates(SEALED) == {};
      assert scope == Dates(SEALED) - Dates(r.expected);
    }
  }

  /** What a window consumes is re-derived: given a registration, a world and a head, exactly one approval
      executes, and only when the registered dates are those the world permits. */
  lemma {:induction false} OneApprovalExecutes(window: Window, windowId: string, base: BaseRecords,
                                               registration: Registration, recorded: Registration, approval: Approval,
                                               head: string, world: World)
    ensures Executes(window, windowId, base, registration, recorded, approval, head, world) <==>
      && recorded == registration && registration.expected != []
      && WorldPermitted(window, base, world) == Some(registration.expected)
      && approval == Approval(windowId, world.worldId, world.protocolHash, world.manifestHash, registration, head,
                              registration.expected)
  {}

  /** A session is label-complete exactly when it is sealed and at least the label horizon of later
      grid sessions are in the world. */
  lemma LabelCompleteMeans(grid: seq<Date>, last: Date, i: nat)
    requires Ascending(grid) && i < |grid|
    ensures LabelComplete(grid, last).Some? ==> Ascending(LabelComplete(grid, last).value)
    ensures (LabelComplete(grid, last).Some? && grid[i] in LabelComplete(grid, last).value) <==>
            grid[i] in SEALED && i + 5 < |grid| && AtOrBefore(grid[i + 5], last)
  {
    var n := InWorld(grid, last);
    InWorldIsPrefix(grid, last);
    assert i + 5 < |grid| ==> (AtOrBefore(grid[i + 5], last) <==> i + 5 < n);
    if n > LABEL_HORIZON {
      KeepAscends(grid[..n - LABEL_HORIZON], Dates(SEALED));
      KeptIff(grid, n - LABEL_HORIZON, i);
    }
  }

  /** Of the first `n` sessions the sealed ones are kept. */
  lemma {:induction false} KeptIff(grid: seq<Date>, n: nat, i: nat)
    requires Ascending(grid) && n <= |grid| && i < |grid|
    ensures grid[i] in Keep(grid[..n], Dates(SEALED)) <==> grid[i] in SEALED && i < n
  {
    var kept := Keep(grid[..n], Dates(SEALED));
    assert grid[i] in kept <==> grid[i] in Dates(kept);
    assert i < n ==> grid[..n][i] == grid[i];
    if grid[i] in grid[..n] {
      var j :| 0 <= j < n && grid[j] == grid[i];
      assert j == i;
    }
  }

  /** There is a permitted set exactly when some session is label-complete; it is never empty. */
  lemma {:induction false} LabelCompleteIff(grid: seq<Date>, last: Date)
    requires Ascending(grid)
    ensures LabelComplete(grid, last).Some? <==>
      exists i :: 0 <= i < |grid| && grid[i] in SEALED && i + 5 < |grid| && AtOrBefore(grid[i + 5], last)
    ensures LabelComplete(grid, last).Some? ==> LabelComplete(grid, last).value != []
  {
    var complete := LabelComplete(grid, last);
    if i :| 0 <= i < |grid| && grid[i] in SEALED && i + 5 < |grid| && AtOrBefore(grid[i + 5], last) {
      LabelCompleteMeans(grid, last, i);
    }
    if complete.Some? {
      PermittedComeFromGrid(grid, last);
      var i: nat :| i < |grid| && grid[i] in complete.value;
      LabelCompleteMeans(grid, last, i);
    }
  }

  lemma {:induction false} PermittedComeFromGrid(grid: seq<Date>, last: Date)
    requires LabelComplete(grid, last).Some?
    ensures exists i: nat :: i < |grid| && grid[i] in LabelComplete(grid, last).value
  {
    var early := grid[..InWorld(grid, last) - LABEL_HORIZON];
    var kept := Keep(early, Dates(SEALED));
    assert kept[0] in Dates(kept);
    assert kept[0] in early;
    var i :| 0 <= i < |early| && early[i] == kept[0];
    assert grid[i] in kept;
  }

  lemma {:induction false} InWorldIsPrefix(grid: seq<Date>, last: Date)
    requires Ascending(grid)
    ensures forall i :: 0 <= i < |grid| ==> (AtOrBefore(grid[i], last) <==> i < InWorld(grid, last))
  {
    if grid != [] {
      var before := grid[..|grid| - 1];
      InWorldIsPrefix(before, last);
      forall i | 0 <= i < |before| ensures AtOrBefore(grid[i], last) <==> i < InWorld(before, last) {
        assert grid[i] == before[i];
      }
      if AtOrBefore(grid[|before|], last) {
        forall i | 0 <= i < |before| ensures AtOrBefore(before[i], last) {
          assert AtOrBefore(grid[i], grid[|before|]);
        }
        if before != [] {
          assert AtOrBefore(before[|before| - 1], last);
        }
      }
    }
  }

  /** The extension is accepted exactly when the base records verify, some sealed date is
      label-complete, and every sealed date outside the base window is; it then gets all of those. */
  lemma ExtensionIsAllOrNothing(base: BaseRecords, world: World)
    requires Ascending(world.grid)
    ensures var scope, complete := ActiveScope(Extension, base), LabelComplete(world.grid, world.last);
      && (WorldPermitted(Extension, base, world).Some? <==>
            scope.Some? && complete.Some? && scope.value <= Dates(complete.value))
      && (WorldPermitted(Extension, base, world).Some? ==>
            Dates(WorldPermitted(Extension, base, world).value) == scope.value
            && Ascending(WorldPermitted(Extension, base, world).value))
  {
    var scope, complete := ActiveScope(Extension, base), LabelComplete(world.grid, world.last);
    if scope.Some? && complete.Some? {
      if |world.grid| > 0 {
        LabelCompleteMeans(world.grid, world.last, 0);
      }
      KeepAscends(complete.value, scope.value);
    }
  }

  /** The windows never share a date and together cover the sealed enumeration.  It is enough that
      the evidence the extension reads is the one the base execution wrote; the registration may
      have been replaced and committed again in between. */
  lemma WindowsPartition(
    base: BaseRecords, noRecords: BaseRecords,
    idA: string, regA: Registration, recA: Registration, apprA: Approval, headA: string, worldA: World,
    idX: string, regX: Registration, recX: Registration, apprX: Approval, headX: string, worldX: World)
    requires Ascending(worldA.grid) && Ascending(worldX.grid)
    requires Executes(Base, idA, noRecords, regA, recA, apprA, headA, worldA)
    requires base.evidence == Some(EvidenceOf(apprA))
    requires Executes(Extension, idX, base, regX, recX, apprX, headX, worldX)
    ensures Dates(apprA.permitted) !! Dates(apprX.permitted)
    ensures Dates(apprA.permitted) + Dates(apprX.permitted) == Dates(SEALED)
    ensures Ascending(apprA.permitted) && Ascending(apprX.permitted)
  {
    ExtensionIsAllOrNothing(base, worldX);
    assert Dates(apprA.permitted) <= Dates(SEALED);
    if |worldA.grid| > 0 {
      LabelCompleteMeans(worldA.grid, worldA.last, 0);
    }
    var complete := LabelComplete(worldA.grid, worldA.last);
    KeepAscends(complete.value, Dates(SEALED));
  }

  /** Without that evidence the extension is refused, and so is an approval that names a spent date. */
  lemma SpentDatesRefuse(base: BaseRecords, permitted: seq<Date>, spent: Date)
    requires spent in permitted
    requires base.evidence.Some? ==> spent in base.evidence.value.permitted
    ensures !ApprovalDatesValid(Extension, base, permitted)
  {
    if ActiveScope(Extension, base).Some? {
      assert spent in Dates(permitted) && spent in Dates(base.evidence.value.permitted);
    }
  }
}
