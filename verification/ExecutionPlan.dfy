/**
 The execution plan of a wave: slots with equal parameters share one entry, one run index of their
 arm and one slot that executes.
 */
module ExecutionPlan {
  import opened Ordering

  /** `params_key`: the arm is part of it. */
  datatype Key = Key(arm: string, params: string)

  datatype Config = Config(slot: string, key: Key)

  datatype Row = Row(runIndex: nat, canonical: string, canonicalSlot: bool, aliases: seq<string>)

  /** The dictionary all slots of an alias group refer to. */
  class Entry {
    const runIndex: nat
    const canonical: string
    var aliases: seq<string>

    constructor (runIndex: nat, canonical: string)
      ensures this.runIndex == runIndex && this.canonical == canonical && aliases == [canonical]
    {
      this.runIndex, this.canonical, aliases := runIndex, canonical, [canonical];
    }
  }

  ghost predicate Appears(menu: seq<Config>, n: nat, key: Key)
    requires n <= |menu|
  {
    exists j :: 0 <= j < n && menu[j].key == key
  }

  /** The groups of an arm among the first `n` slots, in menu order. */
  ghost function Groups(menu: seq<Config>, n: nat, arm: string): seq<Key>
    requires n <= |menu|
  {
    if n == 0 then []
    else if menu[n - 1].key.arm == arm && !Appears(menu, n - 1, menu[n - 1].key) then
      Groups(menu, n - 1, arm) + [menu[n - 1].key]
    else Groups(menu, n - 1, arm)
  }

  /** The slots of a group among the first `n`. */
  ghost function Slots(menu: seq<Config>, n: nat, key: Key): seq<string>
    requires n <= |menu|
  {
    if n == 0 then []
    else if menu[n - 1].key == key then Slots(menu, n - 1, key) + [menu[n - 1].slot]
    else Slots(menu, n - 1, key)
  }

  lemma {:induction false} GroupsAreUnique(menu: seq<Config>, n: nat, arm: string)
    requires n <= |menu|
    ensures Unique(Groups(menu, n, arm))
    ensures forall k :: k in Groups(menu, n, arm) <==> k.arm == arm && Appears(menu, n, k)
  {
    if n > 0 {
      GroupsAreUnique(menu, n - 1, arm);
      UniqueNext(Groups(menu, n - 1, arm), menu[n - 1].key);
    }
  }

  /** The entry of a group: its place among the groups of its arm, its first slot, all its slots. */
  ghost predicate Represents(runIndex: nat, canonical: string, aliases: seq<string>, menu: seq<Config>, n: nat,
                             key: Key)
    requires n <= |menu|
  {
    && aliases == Slots(menu, n, key) && aliases != [] && canonical == aliases[0]
    && 1 <= runIndex <= |Groups(menu, n, key.arm)| && Groups(menu, n, key.arm)[runIndex - 1] == key
  }

  lemma {:induction false} RepresentsNext(runIndex: nat, canonical: string, aliases: seq<string>, menu: seq<Config>,
                                          n: nat, key: Key)
    requires n < |menu| && Represents(runIndex, canonical, aliases, menu, n, key)
    ensures var grown := if menu[n].key == key then aliases + [menu[n].slot] else aliases;
      Represents(runIndex, canonical, grown, menu, n + 1, key)
  {
  }

  lemma {:induction false} FirstRepresents(menu: seq<Config>, n: nat)
    requires n < |menu| && !Appears(menu, n, menu[n].key)
    ensures Represents(|Groups(menu, n, menu[n].key.arm)| + 1, menu[n].slot, [menu[n].slot], menu, n + 1, menu[n].key)
  {
    NoSlots(menu, n, menu[n].key);
  }

  lemma {:induction false} NoSlots(menu: seq<Config>, n: nat, key: Key)
    requires n <= |menu|
    ensures Slots(menu, n, key) == [] <==> !Appears(menu, n, key)
  {
    if n > 0 {
      NoSlots(menu, n - 1, key);
    }
  }

  /** No later slot of the menu has the name. */
  ghost predicate IsLast(menu: seq<Config>, n: nat, i: nat)
    requires i < n <= |menu|
  {
    forall j :: i < j < n ==> menu[j].slot != menu[i].slot
  }

  type Seen = map<Key, Entry>
  type Plan = map<string, Entry>

  datatype Contents = Contents(runIndex: nat, canonical: string, aliases: seq<string>)

  ghost function Read(seen: Seen): map<Key, Contents>
    reads seen.Values
  {
    map k | k in seen :: Contents(seen[k].runIndex, seen[k].canonical, seen[k].aliases)
  }

  ghost predicate AllRepresent(read: map<Key, Contents>, menu: seq<Config>, n: nat)
    requires n <= |menu|
  {
    && (forall k :: k in read <==> Appears(menu, n, k))
    && forall k :: k in read ==> Represents(read[k].runIndex, read[k].canonical, read[k].aliases, menu, n, k)
  }

  ghost function Joined(read: map<Key, Contents>, c: Config): map<Key, Contents>
    requires c.key in read
  {
    read[c.key := read[c.key].(aliases := read[c.key].aliases + [c.slot])]
  }

  lemma {:induction false} AllRepresentJoined(read: map<Key, Contents>, menu: seq<Config>, n: nat)
    requires n < |menu| && AllRepresent(read, menu, n) && menu[n].key in read
    ensures AllRepresent(Joined(read, menu[n]), menu, n + 1)
  {
    var after := Joined(read, menu[n]);
    forall k | k in after ensures Represents(after[k].runIndex, after[k].canonical, after[k].aliases, menu, n + 1, k) {
      RepresentsNext(read[k].runIndex, read[k].canonical, read[k].aliases, menu, n, k);
    }
    forall k ensures Appears(menu, n + 1, k) <==> Appears(menu, n, k) || k == menu[n].key {}
  }

  lemma {:induction false} AllRepresentOpened(read: map<Key, Contents>, menu: seq<Config>, n: nat)
    requires n < |menu| && AllRepresent(read, menu, n) && menu[n].key !in read
    ensures AllRepresent(
      read[menu[n].key := Contents(|Groups(menu, n, menu[n].key.arm)| + 1, menu[n].slot, [menu[n].slot])], menu, n + 1)
  {
    forall k | k in read ensures Represents(read[k].runIndex, read[k].canonical, read[k].aliases, menu, n + 1, k) {
      RepresentsNext(read[k].runIndex, read[k].canonical, read[k].aliases, menu, n, k);
    }
    FirstRepresents(menu, n);
  }

  /** Different groups have different entries, each of them the group's own. */
  ghost predicate Filed(seen: Seen, menu: seq<Config>, n: nat)
    requires n <= |menu|
    reads seen.Values
  {
    Separate(seen) && AllRepresent(Read(seen), menu, n)
  }

  ghost predicate Separate(seen: Seen) {
    forall k, l :: k in seen && l in seen && k != l ==> seen[k] != seen[l]
  }

  /** A slot refers to its group's entry, unless a later slot has its name. */
  ghost predicate Planned(plan: Plan, seen: Seen, menu: seq<Config>, n: nat)
    requires n <= |menu|
  {
    && (forall i :: 0 <= i < n ==> menu[i].slot in plan)
    && forall i :: 0 <= i < n && IsLast(menu, n, i) ==>
      menu[i].key in seen && menu[i].slot in plan && plan[menu[i].slot] == seen[menu[i].key]
  }

  lemma PlannedNext(plan: Plan, seen: Seen, after: Seen, menu: seq<Config>, n: nat)
    requires n < |menu| && Planned(plan, seen, menu, n)
    requires forall k :: k in seen ==> k in after && after[k] == seen[k]
    requires menu[n].key in after
    ensures Planned(plan[menu[n].slot := after[menu[n].key]], after, menu, n + 1)
  {
    var grown := plan[menu[n].slot := after[menu[n].key]];
    forall i | 0 <= i < n + 1 && IsLast(menu, n + 1, i)
      ensures menu[i].key in after && menu[i].slot in grown && grown[menu[i].slot] == after[menu[i].key]
    {
      if i < n {
        assert menu[n].slot != menu[i].slot && IsLast(menu, n, i);
      }
    }
  }

  /** A slot of a group seen before joins its entry. */
  method JoinGroup(ghost seen: Seen, menu: seq<Config>, n: nat, entry: Entry)
    requires n < |menu| && Filed(seen, menu, n) && menu[n].key in seen && entry == seen[menu[n].key]
    modifies entry
    ensures Filed(seen, menu, n + 1)
  {
    ghost var read := Read(seen);
    AllRepresentJoined(read, menu, n);
    entry.aliases := entry.aliases + [menu[n].slot];
    assert Read(seen) == Joined(read, menu[n]);
  }

  /** The first slot of a group opens its entry. */
  method OpenGroup(seen: Seen, menu: seq<Config>, n: nat, runIndex: nat) returns (after: Seen)
    requires n < |menu| && Filed(seen, menu, n) && menu[n].key !in seen
    requires runIndex == |Groups(menu, n, menu[n].key.arm)| + 1
    ensures Filed(after, menu, n + 1) && menu[n].key in after && fresh(after[menu[n].key])
    ensures after == seen[menu[n].key := after[menu[n].key]]
  {
    ghost var read := Read(seen);
    AllRepresentOpened(read, menu, n);
    var entry := new Entry(runIndex, menu[n].slot);
    assert forall k :: k in seen ==> seen[k] != entry;
    after := seen[menu[n].key := entry];
    assert Read(after) == read[menu[n].key := Contents(runIndex, menu[n].slot, [menu[n].slot])];
  }

  ghost predicate Numbered(perArm: map<string, nat>, menu: seq<Config>, n: nat)
    requires n <= |menu|
  {
    forall arm :: (if arm in perArm then perArm[arm] else 0) == |Groups(menu, n, arm)|
  }

  lemma {:induction false} NumberedNext(perArm: map<string, nat>, menu: seq<Config>, n: nat)
    requires n < |menu| && Numbered(perArm, menu, n)
    ensures Appears(menu, n, menu[n].key) ==> Numbered(perArm, menu, n + 1)
    ensures !Appears(menu, n, menu[n].key) ==>
      Numbered(perArm[menu[n].key.arm := |Groups(menu, n, menu[n].key.arm)| + 1], menu, n + 1)
  {
    forall arm ensures |Groups(menu, n + 1, arm)| == |Groups(menu, n, arm)|
      + if menu[n].key.arm == arm && !Appears(menu, n, menu[n].key) then 1 else 0
    {}
  }

  /** One slot: its group's entry, new or old. */
  method AssignSlot(menu: seq<Config>, n: nat, seen: Seen, perArm: map<string, nat>)
    returns (after: Seen, numbers: map<string, nat>)
    requires n < |menu| && Filed(seen, menu, n) && Numbered(perArm, menu, n)
    modifies set k | k in seen :: seen[k]
    ensures Filed(after, menu, n + 1) && Numbered(numbers, menu, n + 1) && menu[n].key in after
    ensures forall k :: k in seen ==> k in after && after[k] == seen[k]
    ensures forall k :: k in after && k !in seen ==> fresh(after[k])
  {
    var c := menu[n];
    NumberedNext(perArm, menu, n);
    if c.key !in seen {
      numbers := perArm[c.key.arm := (if c.key.arm in perArm then perArm[c.key.arm] else 0) + 1];
      after := OpenGroup(seen, menu, n, numbers[c.key.arm]);
    } else {
      after, numbers := seen, perArm;
      JoinGroup(seen, menu, n, seen[c.key]);
    }
  }

  /** The first loop of `execution_plan`. */
  method Assign(menu: seq<Config>) returns (plan: Plan, ghost seen: Seen)
    ensures (forall k :: k in seen ==> fresh(seen[k])) && Filed(seen, menu, |menu|)
    ensures Planned(plan, seen, menu, |menu|)
  {
    plan := map[];
    var table: Seen, perArm: map<string, nat> := map[], map[];
    for n := 0 to |menu|
      invariant (forall k :: k in table ==> fresh(table[k])) && Filed(table, menu, n)
      invariant Planned(plan, table, menu, n) && Numbered(perArm, menu, n)
    {
      ghost var before := table;
      table, perArm := AssignSlot(menu, n, table, perArm);
      PlannedNext(plan, before, table, menu, n);
      plan := plan[menu[n].slot := table[menu[n].key]];
    }
    seen := table;
  }

  /** The row of a slot of a group. */
  ghost predicate RowIs(row: Row, menu: seq<Config>, slot: string, key: Key) {
    var slots := Slots(menu, |menu|, key);
    && slots != [] && row.aliases == SortBy(slots, Alphabetic)
    && row.canonical == slots[0] && (row.canonicalSlot <==> slot == slots[0])
    && 1 <= row.runIndex <= |Groups(menu, |menu|, key.arm)| && Groups(menu, |menu|, key.arm)[row.runIndex - 1] == key
  }

  lemma RowOfEntry(read: map<Key, Contents>, menu: seq<Config>, slot: string, key: Key)
    requires AllRepresent(read, menu, |menu|) && key in read
    ensures var e := read[key];
      RowIs(Row(e.runIndex, e.canonical, slot == e.canonical, SortBy(e.aliases, Alphabetic)), menu, slot, key)
  {}

  /** The rows of the first `n` slots, as far as no later slot has their name. */
  ghost predicate RowsHold(rows: map<string, Row>, menu: seq<Config>, n: nat)
    requires n <= |menu|
  {
    forall i :: 0 <= i < n && IsLast(menu, |menu|, i) ==>
      menu[i].slot in rows && RowIs(rows[menu[i].slot], menu, menu[i].slot, menu[i].key)
  }

  lemma RowsNext(rows: map<string, Row>, menu: seq<Config>, n: nat, row: Row)
    requires n < |menu| && RowsHold(rows, menu, n)
    requires IsLast(menu, |menu|, n) ==> RowIs(row, menu, menu[n].slot, menu[n].key)
    ensures RowsHold(rows[menu[n].slot := row], menu, n + 1)
  {
    forall i | 0 <= i < n && IsLast(menu, |menu|, i) ensures menu[i].slot != menu[n].slot {}
  }

  /** `execution_plan`: every slot gets its group's run index, first slot and sorted aliases. */
  method MakePlan(menu: seq<Config>) returns (rows: map<string, Row>)
    ensures RowsHold(rows, menu, |menu|)
  {
    var plan, seen := Assign(menu);
    ghost var read := Read(seen);
    rows := map[];
    for n := 0 to |menu|
      invariant RowsHold(rows, menu, n) && Read(seen) == read
    {
      var slot := menu[n].slot;
      var entry := plan[slot];
      var row := Row(entry.runIndex, entry.canonical, slot == entry.canonical, SortBy(entry.aliases, Alphabetic));
      if IsLast(menu, |menu|, n) {
        assert read[menu[n].key] == Contents(entry.runIndex, entry.canonical, entry.aliases);
        RowOfEntry(read, menu, slot, menu[n].key);
      }
      RowsNext(rows, menu, n, row);
      rows := rows[slot := row];
    }
  }

  /** Within an arm, two slots have the same run index exactly when they are aliases. */
  lemma RunIndexIffAliases(menu: seq<Config>, row: Row, slot: string, key: Key, other: Row, otherSlot: string,
                           otherKey: Key)
    requires RowIs(row, menu, slot, key) && RowIs(other, menu, otherSlot, otherKey) && key.arm == otherKey.arm
    ensures row.runIndex == other.runIndex <==> key == otherKey
  {
    GroupsAreUnique(menu, |menu|, key.arm);
  }

  /** The run indexes of an arm are those from 1 to its number of groups, and each belongs to a group
      whose first slot executes. */
  lemma {:induction false} EveryIndexHasAGroup(menu: seq<Config>, arm: string, index: nat)
    requires 1 <= index <= |Groups(menu, |menu|, arm)|
    ensures var key := Groups(menu, |menu|, arm)[index - 1];
      key.arm == arm && Appears(menu, |menu|, key) && Slots(menu, |menu|, key) != []
  {
    GroupsAreUnique(menu, |menu|, arm);
    assert Groups(menu, |menu|, arm)[index - 1] in Groups(menu, |menu|, arm);
    NoSlots(menu, |menu|, Groups(menu, |menu|, arm)[index - 1]);
  }

  // The alias map

  lemma {:induction false} SlotIff(menu: seq<Config>, n: nat, key: Key, slot: string)
    requires n <= |menu|
    ensures slot in Slots(menu, n, key) <==> exists i :: 0 <= i < n && menu[i].key == key && menu[i].slot == slot
  {
    if n > 0 {
      SlotIff(menu, n - 1, key, slot);
    }
  }

  function GroupOf(groups: map<Key, seq<string>>, key: Key): seq<string> {
    if key in groups then groups[key] else []
  }

  /** The slot's name is used once in the menu. */
  ghost predicate NamedOnce(menu: seq<Config>, i: nat)
    requires i < |menu|
  {
    forall j :: 0 <= j < |menu| && menu[j].slot == menu[i].slot ==> j == i
  }

  /** The first loop of `alias_map`. */
  method GroupSlots(menu: seq<Config>) returns (order: seq<Key>, groups: map<Key, seq<string>>)
    ensures forall k :: GroupOf(groups, k) == Slots(menu, |menu|, k)
    ensures Unique(order) && forall k :: k in order <==> k in groups
  {
    order, groups := [], map[];
    for n := 0 to |menu|
      invariant forall k :: GroupOf(groups, k) == Slots(menu, n, k)
      invariant Unique(order) && forall k :: k in order <==> k in groups
    {
      var c := menu[n];
      ghost var was := groups;
      UniqueNext(order, c.key);
      if c.key !in groups {
        order := order + [c.key];
      }
      groups := groups[c.key := GroupOf(groups, c.key) + [c.slot]];
      forall k ensures GroupOf(groups, k) == Slots(menu, n + 1, k) {
        assert GroupOf(was, k) == Slots(menu, n, k);
      }
    }
  }

  /** Every uniquely named slot of the given groups has its group's sorted slots. */
  ghost predicate Mapped(aliases: map<string, seq<string>>, menu: seq<Config>, keys: seq<Key>) {
    forall i :: 0 <= i < |menu| && NamedOnce(menu, i) && menu[i].key in keys ==>
      menu[i].slot in aliases && aliases[menu[i].slot] == SortBy(Slots(menu, |menu|, menu[i].key), Alphabetic)
  }

  /** One group of the comprehension. */
  method MapGroup(menu: seq<Config>, keys: seq<Key>, key: Key, slots: seq<string>, before: map<string, seq<string>>)
    returns (aliases: map<string, seq<string>>)
    requires slots == Slots(menu, |menu|, key) && Mapped(before, menu, keys)
    ensures Mapped(aliases, menu, keys + [key])
  {
    aliases := before;
    for j := 0 to |slots|
      invariant Mapped(aliases, menu, keys)
      invariant forall s :: s in slots[..j] ==> s in aliases && aliases[s] == SortBy(slots, Alphabetic)
    {
      SlotIff(menu, |menu|, key, slots[j]);
      assert slots[j] in slots && slots[..j + 1] == slots[..j] + [slots[j]];
      aliases := aliases[slots[j] := SortBy(slots, Alphabetic)];
    }
    assert slots[..|slots|] == slots;
    forall i | 0 <= i < |menu| && menu[i].key == key ensures menu[i].slot in slots {
      SlotIff(menu, |menu|, key, menu[i].slot);
    }
  }

  /** `alias_map`: every uniquely named slot gets the sorted slots that share its parameters. */
  method AliasMap(menu: seq<Config>) returns (aliases: map<string, seq<string>>)
    ensures forall i :: 0 <= i < |menu| && NamedOnce(menu, i) ==>
      menu[i].slot in aliases && aliases[menu[i].slot] == SortBy(Slots(menu, |menu|, menu[i].key), Alphabetic)
  {
    var order, groups := GroupSlots(menu);
    aliases := map[];
    for g := 0 to |order|
      invariant Mapped(aliases, menu, order[..g])
    {
      assert order[g] in order && order[..g + 1] == order[..g] + [order[g]];
      assert GroupOf(groups, order[g]) == Slots(menu, |menu|, order[g]);
      aliases := MapGroup(menu, order[..g], order[g], groups[order[g]], aliases);
    }
    assert order[..|order|] == order;
    forall i | 0 <= i < |menu| ensures menu[i].key in order {
      SlotIff(menu, |menu|, menu[i].key, menu[i].slot);
      assert GroupOf(groups, menu[i].key) == Slots(menu, |menu|, menu[i].key);
    }
  }
}
