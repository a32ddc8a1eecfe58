/** The entity-component registry of ecs.h.
    An entity is a slot of a growable table holding a component bitmask and its own id;
    dead ids are recycled through a LIFO free list; each component type owns one bit,
    handed out by a process-wide counter, and a fixed array of 100 values indexed by id. */
module Ecs {
  datatype Option<T> = None | Some(value: T)

  const INIT_CAP: nat := 256   // ECS_DA_INIT_CAP
  const SLOTS: nat := 100      // length of every <name>_components array
  const MASK_BITS: nat := 32   // width of the `unsigned int` mask

  /** An `unsigned int` component mask, as the set of the positions of its
      1-bits: `m & r == r` is `r <= m`, `|` is union, 0 is the empty set. */
  type Mask = set<nat>

  /** Every bit position fits in the 32-bit word. */
  predicate InWord(m: Mask) {
    forall k :: k in m ==> k < MASK_BITS
  }

  /** `1 << k`, defined for the positions of the word. */
  function Bit(k: nat): (b: Mask)
    requires k < MASK_BITS
    ensures InWord(b) && |b| == 1 && k in b
  {
    {k}
  }

  /** Different positions give different masks with no bit in common. */
  lemma BitsDisjoint(i: nat, j: nat)
    requires i < MASK_BITS && j < MASK_BITS && i != j
    ensures Bit(i) * Bit(j) == {} && Bit(i) != Bit(j)
  {
  }

  /** An entry of the entity table: its component bitmask and its own id. */
  datatype Entity = Entity(mask: Mask, id: nat)

  /** has_components: `(e->mask & mask) == mask`, every requested bit is set. */
  predicate HasComponents(e: Entity, mask: Mask) {
    e.mask * mask == mask
  }

  /** The test holds exactly when no requested bit is missing from the entity. */
  lemma HasComponentsNoneMissing(e: Entity, mask: Mask)
    ensures HasComponents(e, mask) <==> mask - e.mask == {}
  {
    if mask - e.mask == {} {
      forall k | k in mask
        ensures k in e.mask
      {
        assert k !in mask - e.mask;
      }
    }
  }

  /** A request for several components matches exactly when each part matches. */
  lemma HasComponentsUnion(e: Entity, a: Mask, b: Mask)
    ensures HasComponents(e, a + b) <==> HasComponents(e, a) && HasComponents(e, b)
  {
  }

  /** For one component the test is that its bit is set. */
  lemma HasOneComponent(e: Entity, k: nat)
    requires k < MASK_BITS
    ensures HasComponents(e, Bit(k)) <==> k in e.mask
  {
  }

  /** The empty request matches every entity, a cleared entity matches nothing else. */
  lemma HasComponentsEmpty(e: Entity, mask: Mask)
    ensures HasComponents(e, {})
    ensures e.mask == {} ==> (HasComponents(e, mask) <==> mask == {})
  {
  }

  /** Adding components never loses a match, and the added ones match. */
  lemma HasComponentsMonotone(e: Entity, mask: Mask, extra: Mask)
    requires HasComponents(e, mask)
    ensures HasComponents(e.(mask := e.mask + extra), mask)
    ensures HasComponents(e.(mask := e.mask + extra), extra)
  {
  }

  // ----------------------------------------------------------------------
  // Growth rule of ecs_da_reserve
  // ----------------------------------------------------------------------

  function Pow2(k: nat): (p: nat)
    ensures p >= 1
  {
    if k == 0 then 1 else 2 * Pow2(k - 1)
  }

  /** Doubling `c` until it reaches `expected`: the while loop of ecs_da_reserve. */
  function Doubled(c: nat, expected: nat): (r: nat)
    requires c > 0
    ensures r >= expected && r >= c
    decreases if c < expected then expected - c else 0
  {
    if expected <= c then c else Doubled(2 * c, expected)
  }

  /** How many doublings Doubled performs. */
  function DoublingSteps(c: nat, expected: nat): nat
    requires c > 0
    decreases if c < expected then expected - c else 0
  {
    if expected <= c then 0 else 1 + DoublingSteps(2 * c, expected)
  }

  /** The capacity ecs_da_reserve(da, expected) leaves behind, from capacity `cap`. */
  function ReservedCapacity(cap: nat, expected: nat): (r: nat)
    ensures r >= cap && r >= expected
  {
    if expected <= cap then cap
    else Doubled(if cap == 0 then INIT_CAP else cap, expected)
  }

  /** c doubled k times. */
  function Scaled(c: nat, k: nat): (r: nat)
    ensures r >= c
  {
    if k == 0 then c else 2 * Scaled(c, k - 1)
  }

  /** Doubling k + 1 times is doubling once and then k times. */
  lemma {:induction false} ScaledShift(c: nat, k: nat)
    ensures Scaled(2 * c, k) == Scaled(c, k + 1)
  {
    if k > 0 {
      ScaledShift(c, k - 1);
    }
  }

  /** c doubled k times is c * 2^k. */
  lemma {:induction false} ScaledIsProduct(c: nat, k: nat)
    ensures Scaled(c, k) == c * Pow2(k)
  {
    if k > 0 {
      ScaledIsProduct(c, k - 1);
      assert c * (2 * Pow2(k - 1)) == 2 * (c * Pow2(k - 1));
    }
  }

  /** Doubling from c stops at the first c * 2^k that reaches `expected`. */
  lemma {:induction false} DoubledIsLeastScaled(c: nat, expected: nat)
    requires c > 0
    ensures Doubled(c, expected) == Scaled(c, DoublingSteps(c, expected))
    ensures DoublingSteps(c, expected) > 0 ==> Scaled(c, DoublingSteps(c, expected) - 1) < expected
    decreases if c < expected then expected - c else 0
  {
    if expected > c {
      DoubledIsLeastScaled(2 * c, expected);
      var k := DoublingSteps(2 * c, expected);
      ScaledShift(c, k);
      if k > 0 {
        ScaledShift(c, k - 1);
      }
    }
  }

  /** Doubling from c ends at c * 2^k for the least k that makes it large enough. */
  lemma DoubledIsLeastPower(c: nat, expected: nat)
    requires c > 0
    ensures Doubled(c, expected) == c * Pow2(DoublingSteps(c, expected))
    ensures DoublingSteps(c, expected) > 0 ==> c * Pow2(DoublingSteps(c, expected) - 1) < expected
  {
    DoubledIsLeastScaled(c, expected);
    var k := DoublingSteps(c, expected);
    ScaledIsProduct(c, k);
    if k > 0 {
      ScaledIsProduct(c, k - 1);
    }
  }

  /** ecs_da_reserve: nothing changes when the capacity already suffices; a
      zero capacity grows to 256 * 2^k, any other to cap * 2^k, for the least
      such k that reaches `expected`. */
  lemma ReservedCapacityShape(cap: nat, expected: nat)
    ensures expected <= cap ==> ReservedCapacity(cap, expected) == cap
    ensures expected > cap ==>
      var base := if cap == 0 then INIT_CAP else cap;
      var k := DoublingSteps(base, expected);
      && ReservedCapacity(cap, expected) == base * Pow2(k)
      && (k > 0 ==> base * Pow2(k - 1) < expected)
  {
    if expected > cap {
      DoubledIsLeastPower(if cap == 0 then INIT_CAP else cap, expected);
    }
  }

  /** Doubling towards a larger target continues the same chain. */
  lemma {:induction false} DoubledInSteps(c: nat, a: nat, b: nat)
    requires c > 0 && a <= b
    ensures Doubled(Doubled(c, a), b) == Doubled(c, b)
    decreases if c < a then a - c else 0
  {
    if a > c {
      DoubledInSteps(2 * c, a, b);
    }
  }

  /** Reserving for a, then for b >= a, leaves the capacity a single
      reservation for b leaves: growing one item at a time ends where
      growing at once does. */
  lemma ReservedInSteps(cap: nat, a: nat, b: nat)
    requires a <= b
    ensures ReservedCapacity(ReservedCapacity(cap, a), b) == ReservedCapacity(cap, b)
  {
    if a > cap {
      DoubledInSteps(if cap == 0 then INIT_CAP else cap, a, b);
    }
  }

  // ----------------------------------------------------------------------
  // The growable arrays `Entities` and `EntityIds` with the ecs_da_* macros
  // ----------------------------------------------------------------------

  class DynArray<T> {
    var items: seq<T>      // items[0 .. count)
    var capacity: nat

    ghost predicate Valid()
      reads this
    {
      |items| <= capacity
    }

    /** A zero-initialised static array: no items, no capacity. */
    constructor ()
      ensures Valid() && items == [] && capacity == 0
    {
      items := [];
      capacity := 0;
    }

    /** ecs_da_reserve */
    method Reserve(expected: nat)
      requires Valid()
      modifies this`capacity
      ensures Valid()
      ensures capacity == ReservedCapacity(old(capacity), expected)
    {
      if expected > capacity {
        if capacity == 0 {
          capacity := INIT_CAP;
        }
        while expected > capacity
          invariant capacity > 0
          invariant Doubled(capacity, expected) == ReservedCapacity(old(capacity), expected)
          decreases expected - capacity
        {
          capacity := capacity * 2;
        }
      }
    }

    /** ecs_da_append */
    method Append(x: T)
      requires Valid()
      modifies this
      ensures Valid()
      ensures items == old(items) + [x]
      ensures capacity == ReservedCapacity(old(capacity), old(|items|) + 1)
    {
      Reserve(|items| + 1);
      items := items + [x];
    }

    /** ecs_da_last: the last item, or None where the ECS_ASSERT on a positive count aborts. */
    function Last(): (r: Option<T>)
      reads this
      ensures r.Some? <==> items != []
      ensures r.Some? ==> r.value == items[|items| - 1]
    {
      if items == [] then None else Some(items[|items| - 1])
    }

    /** `da.count--` on a non-empty array, as spawn_entity does after reading the last id. */
    method DropLast()
      requires Valid() && items != []
      modifies this`items
      ensures Valid()
      ensures items == old(items)[..|old(items)| - 1]
    {
      items := items[..|items| - 1];
    }

    /** ecs_da_remove_unordered: the last item moves into position i and the
        count drops by one; `ok` is false where the ECS_ASSERT on i aborts. */
    method RemoveUnordered(i: nat) returns (ok: bool)
      requires Valid()
      modifies this`items
      ensures Valid()
      ensures ok == (i < |old(items)|)
      ensures !ok ==> items == old(items)
      ensures ok ==> items == old(items)[i := old(items)[|old(items)| - 1]][..|old(items)| - 1]
    {
      ok := i < |items|;
      if ok {
        var n := |items| - 1;
        items := items[i := items[n]][..n];
      }
    }

    /** The part of ecs_deinit that frees one array. */
    method Clear()
      modifies this
      ensures Valid() && items == [] && capacity == 0
    {
      items := [];
      capacity := 0;
    }
  }

  /** After remove_unordered the remaining items are the old ones minus the removed one. */
  lemma {:induction false} RemoveUnorderedKeepsRest<T>(s: seq<T>, i: nat)
    requires i < |s|
    ensures multiset(s[i := s[|s| - 1]][..|s| - 1]) == multiset(s) - multiset{s[i]}
  {
    var n := |s| - 1;
    var front := s[..n];
    assert s == front + [s[n]];
    assert multiset(s) == multiset(front) + multiset{s[n]};
    if i < n {
      assert s[i := s[n]][..n] == front[i := s[n]];
      assert front[i] == s[i];
      assert multiset(front[i := s[n]]) == multiset(front) - multiset{s[i]} + multiset{s[n]};
    } else {
      assert s[i := s[n]][..n] == front;
    }
  }

  // ----------------------------------------------------------------------
  // Queries
  // ----------------------------------------------------------------------

  predicate Increasing(s: seq<nat>) {
    forall i, j :: 0 <= i < j < |s| ==> s[i] < s[j]
  }

  /** The table slots a QueryByComponents loop visits, in scan order. */
  function Matching(table: seq<Entity>, mask: Mask): (ids: seq<nat>)
    ensures forall k :: 0 <= k < |ids| ==> ids[k] < |table|
  {
    if table == [] then []
    else
      var n := |table| - 1;
      Matching(table[..n], mask) + (if HasComponents(table[n], mask) then [n] else [])
  }

  /** The scan runs in increasing id order, so no slot is visited twice. */
  lemma {:induction false} MatchingIncreasing(table: seq<Entity>, mask: Mask)
    ensures Increasing(Matching(table, mask))
  {
    if table != [] {
      var n := |table| - 1;
      MatchingIncreasing(table[..n], mask);
    }
  }

  /** A slot is visited exactly when its entity has every requested component. */
  lemma {:induction false} MatchingExactly(table: seq<Entity>, mask: Mask)
    ensures forall i :: 0 <= i < |table| ==> (i in Matching(table, mask) <==> HasComponents(table[i], mask))
  {
    if table != [] {
      var n := |table| - 1;
      MatchingExactly(table[..n], mask);
    }
  }

  /** Appending an entity that lacks the requested components leaves the query unchanged. */
  lemma MatchingAppendOther(table: seq<Entity>, e: Entity, mask: Mask)
    requires !HasComponents(e, mask)
    ensures Matching(table + [e], mask) == Matching(table, mask)
  {
    assert (table + [e])[..|table|] == table;
  }

  /** Changing one slot between two masks that both fail the request leaves the query unchanged. */
  lemma {:induction false} MatchingUpdateOther(table: seq<Entity>, i: nat, e: Entity, mask: Mask)
    requires i < |table|
    requires !HasComponents(table[i], mask) && !HasComponents(e, mask)
    ensures Matching(table[i := e], mask) == Matching(table, mask)
  {
    var n := |table| - 1;
    if i < n {
      MatchingUpdateOther(table[..n], i, e, mask);
      assert table[i := e][..n] == table[..n][i := e];
    } else {
      assert table[i := e][..n] == table[..n];
    }
  }

  /** The table slots a QueryById loop visits. */
  function MatchingId(table: seq<Entity>, id: nat): (ids: seq<nat>)
    ensures forall k :: 0 <= k < |ids| ==> ids[k] < |table| && table[ids[k]].id == id
  {
    if table == [] then []
    else
      var n := |table| - 1;
      MatchingId(table[..n], id) + (if table[n].id == id then [n] else [])
  }

  predicate IdsMatchSlots(table: seq<Entity>) {
    forall i :: 0 <= i < |table| ==> table[i].id == i
  }

  /** Under the id invariant QueryById visits the one slot `id`, or none. */
  lemma {:induction false} MatchingIdAtMostOne(table: seq<Entity>, id: nat)
    requires IdsMatchSlots(table)
    ensures MatchingId(table, id) == if id < |table| then [id] else []
  {
    if table != [] {
      var n := |table| - 1;
      MatchingIdAtMostOne(table[..n], id);
    }
  }

  // ----------------------------------------------------------------------
  // The registry: `entities`, `dead_entities` and component_type_iota
  // ----------------------------------------------------------------------

  predicate FreeSlotsClearIn(table: seq<Entity>, dead: seq<nat>) {
    forall k :: 0 <= k < |dead| && dead[k] < |table| ==> table[dead[k]].mask == {}
  }

  /** add_<name> on a live slot keeps every recycled slot clear, and the
      entity keeps its other components and gains the new one. */
  lemma AddKeepsFreeSlotsClear(table: seq<Entity>, dead: seq<nat>, e: nat, comp: Mask, mask: Mask)
    requires FreeSlotsClearIn(table, dead) && e < |table| && e !in dead
    ensures FreeSlotsClearIn(table[e := table[e].(mask := table[e].mask + comp)], dead)
    ensures HasComponents(table[e], mask) ==> HasComponents(table[e].(mask := table[e].mask + comp), mask)
    ensures HasComponents(table[e].(mask := table[e].mask + comp), comp)
  {
    var t := table[e := table[e].(mask := table[e].mask + comp)];
    forall k | 0 <= k < |dead| && dead[k] < |t|
      ensures t[dead[k]].mask == {}
    {
      assert dead[k] != e;
    }
  }

  predicate Distinct(s: seq<nat>) {
    forall k, l :: 0 <= k < l < |s| ==> s[k] != s[l]
  }

  class World {
    const entities: DynArray<Entity>
    const deadEntities: DynArray<nat>
    var iota: nat   // the static counter of component_type_iota

    /** Slot i holds id i, and the free list holds distinct ids of existing slots. */
    ghost predicate Valid()
      reads entities, deadEntities
    {
      && entities.Valid()
      && deadEntities.Valid()
      && IdsMatchSlots(entities.items)
      && (forall i :: 0 <= i < |entities.items| ==> InWord(entities.items[i].mask))
      && (forall k :: 0 <= k < |deadEntities.items| ==> deadEntities.items[k] < |entities.items|)
      && Distinct(deadEntities.items)
    }

    /** Every recycled slot still has the mask 0 that despawn_entity gave it. */
    ghost predicate FreeSlotsClear()
      reads entities, deadEntities
    {
      FreeSlotsClearIn(entities.items, deadEntities.items)
    }

    constructor ()
      ensures Valid() && FreeSlotsClear()
      ensures fresh(entities) && fresh(deadEntities)
      ensures entities.items == [] && entities.capacity == 0
      ensures deadEntities.items == [] && deadEntities.capacity == 0
      ensures iota == 0
    {
      entities := new DynArray();
      deadEntities := new DynArray();
      iota := 0;
    }

    /** component_type_iota: returns the counter and increments it. */
    method ComponentTypeIota() returns (id: nat)
      modifies this`iota
      ensures id == old(iota) && iota == old(iota) + 1
    {
      id := iota;
      iota := iota + 1;
    }

    /** spawn_entity: pops the most recently freed id, or appends a fresh slot
        with id = count and mask 0. Returns the slot's index. */
    method Spawn() returns (id: nat)
      requires Valid()
      modifies entities, deadEntities
      ensures Valid()
      ensures id < |entities.items|
      ensures old(deadEntities.items) != [] ==>
        && id == old(deadEntities.items)[|old(deadEntities.items)| - 1]
        && deadEntities.items == old(deadEntities.items)[..|old(deadEntities.items)| - 1]
        && entities.items == old(entities.items)
        && entities.capacity == old(entities.capacity)
      ensures old(deadEntities.items) == [] ==>
        && id == old(|entities.items|)
        && entities.items == old(entities.items) + [Entity({}, id)]
        && entities.capacity == ReservedCapacity(old(entities.capacity), id + 1)
        && deadEntities.items == []
      ensures deadEntities.capacity == old(deadEntities.capacity)
      ensures old(FreeSlotsClear()) ==> FreeSlotsClear() && entities.items[id].mask == {}
    {
      if |deadEntities.items| > 0 {
        id := deadEntities.Last().value;
        deadEntities.DropLast();
      } else {
        id := |entities.items|;
        entities.Append(Entity({}, id));
      }
    }

    /** despawn_entity: clears the mask of slot e and pushes its id on the free
        list. Despawning an id already on the free list is not guarded by the
        source and is excluded here. */
    method Despawn(e: nat)
      requires Valid() && e < |entities.items| && e !in deadEntities.items
      modifies entities, deadEntities
      ensures Valid()
      ensures entities.items == old(entities.items)[e := Entity({}, e)]
      ensures entities.capacity == old(entities.capacity)
      ensures deadEntities.items == old(deadEntities.items) + [e]
      ensures deadEntities.capacity == ReservedCapacity(old(deadEntities.capacity), old(|deadEntities.items|) + 1)
      ensures old(FreeSlotsClear()) ==> FreeSlotsClear()
    {
      var ent := entities.items[e];
      entities.items := entities.items[e := ent.(mask := {})];
      deadEntities.Append(ent.id);
    }

    /** get_entity_with_id, which does not check its argument. */
    function EntityWithId(id: nat): (e: Entity)
      reads entities, deadEntities
      requires Valid() && id < |entities.items|
      ensures e.id == id && e in entities.items
    {
      entities.items[id]
    }

    /** QueryByComponents: the slots whose entity has every bit of `mask`, in id order. */
    method QueryByComponents(mask: Mask) returns (ids: seq<nat>)
      ensures ids == Matching(entities.items, mask)
    {
      ids := [];
      for i := 0 to |entities.items|
        invariant ids == Matching(entities.items[..i], mask)
      {
        if HasComponents(entities.items[i], mask) {
          ids := ids + [i];
        }
        assert entities.items[..i + 1][..i] == entities.items[..i];
      }
      assert entities.items[..|entities.items|] == entities.items;
    }

    /** QueryById: the slots whose entity carries id `id`. */
    method QueryById(id: nat) returns (ids: seq<nat>)
      ensures ids == MatchingId(entities.items, id)
    {
      ids := [];
      for i := 0 to |entities.items|
        invariant ids == MatchingId(entities.items[..i], id)
      {
        if entities.items[i].id == id {
          ids := ids + [i];
        }
        assert entities.items[..i + 1][..i] == entities.items[..i];
      }
      assert entities.items[..|entities.items|] == entities.items;
    }

    /** ecs_deinit: both arrays freed and emptied. The type counter, the
        COMP_<name> masks and the component arrays are left as they are. */
    method Deinit()
      modifies entities, deadEntities
      ensures Valid() && FreeSlotsClear()
      ensures entities.items == [] && entities.capacity == 0
      ensures deadEntities.items == [] && deadEntities.capacity == 0
    {
      entities.Clear();
      deadEntities.Clear();
    }
  }

  // ----------------------------------------------------------------------
  // One `Component(name, ...)` declaration: COMP_<name>, <name>_components,
  // register_<name>, get_<name> and add_<name>
  // ----------------------------------------------------------------------

  class ComponentStore<T(0)> {
    var comp: Mask            // COMP_<name>; 0 until registered
    const slots: array<T>     // <name>_components[100]

    /** COMP_<name> is 0 or one bit of the word; the array has 100 slots. */
    ghost predicate Valid()
      reads this
    {
      InWord(comp) && |comp| <= 1 && slots.Length == SLOTS
    }

    constructor ()
      ensures Valid() && comp == {} && fresh(slots) && slots.Length == SLOTS
    {
      comp := {};
      slots := new T[SLOTS];
    }

    /** register_<name>: the first call takes the next counter value k and
        sets COMP_<name> to 1 << k; later calls change nothing. 32 or more
        registrations overflow the mask and are excluded. */
    method Register(w: World)
      requires Valid() && (comp == {} ==> w.iota < MASK_BITS)
      modifies this`comp, w`iota
      ensures Valid()
      ensures old(comp) != {} ==> comp == old(comp) && w.iota == old(w.iota)
      ensures old(comp) == {} ==> comp == Bit(old(w.iota)) && w.iota == old(w.iota) + 1
    {
      if comp == {} {
        var k := w.ComponentTypeIota();
        comp := Bit(k);
      }
    }

    /** get_<name>: the value stored for the entity's id. */
    function Get(e: Entity): T
      reads slots
      requires e.id < slots.Length
    {
      slots[e.id]
    }

    /** A write through the pointer get_<name> returns. */
    method Set(e: Entity, value: T)
      requires e.id < slots.Length
      modifies slots
      ensures slots[..] == old(slots[..])[e.id := value]
      ensures Get(e) == value
    {
      slots[e.id] := value;
    }

    /** add_<name> on slot e: with the type registered, ORs COMP_<name> into
        the mask and stores the value at index id; `ok` is false where the
        source aborts because the type was never registered, and then nothing
        changes. The source indexes the 100-slot array unchecked, so the id
        must be below 100. */
    method Add(w: World, e: nat, value: T) returns (ok: bool)
      requires Valid() && w.Valid() && e < |w.entities.items| && e < SLOTS
      modifies w.entities`items, slots
      ensures w.Valid()
      ensures ok == (comp != {})
      ensures w.entities.items ==
        if ok then old(w.entities.items)[e := Entity(old(w.entities.items[e].mask) + comp, e)]
        else old(w.entities.items)
      ensures slots[..] == if ok then old(slots[..])[e := value] else old(slots[..])
    {
      if comp == {} {
        ok := false;
        return;
      }
      ok := true;
      var ent := w.entities.items[e];
      w.entities.items := w.entities.items[e := ent.(mask := ent.mask + comp)];
      slots[ent.id] := value;
    }
  }

  // ----------------------------------------------------------------------
  // Scenarios
  // ----------------------------------------------------------------------

  /** Spawn three entities, give the third a component, despawn id 1 and
      spawn again: the id comes back, and a query for the component finds
      the third entity alone. */
  method RecycleScenario() returns (again: nat, found: seq<nat>)
    ensures again == 1 && found == [2]
  {
    var w := new World();
    var tag := new ComponentStore<int>();
    tag.Register(w);
    var a := w.Spawn();
    var b := w.Spawn();
    var c := w.Spawn();
    var ok := tag.Add(w, c, 7);
    var t := [Entity({}, 0), Entity({}, 1), Entity({0}, 2)];
    assert w.entities.items == t;
    w.Despawn(b);
    assert w.entities.items == t;
    again := w.Spawn();
    found := w.QueryByComponents(tag.comp);
    OnlyThirdMatches();
  }

  /** The table of RecycleScenario: only slot 2 carries bit 0. */
  lemma OnlyThirdMatches()
    ensures Matching([Entity({}, 0), Entity({}, 1), Entity({0}, 2)], {0}) == [2]
  {
    var t := [Entity({}, 0), Entity({}, 1), Entity({0}, 2)];
    assert t[..2] == [Entity({}, 0), Entity({}, 1)] && t[..2][..1] == [Entity({}, 0)];
    assert [Entity({}, 0)][..0] == [];
  }

  /** Register A, then B, then A again: A keeps bit 0 and B gets bit 1. */
  method RegisterScenario() returns (maskA: Mask, maskB: Mask)
    ensures maskA == {0} && maskB == {1}
  {
    var w := new World();
    var a := new ComponentStore<int>();
    var b := new ComponentStore<bool>();
    a.Register(w);
    b.Register(w);
    a.Register(w);
    maskA, maskB := a.comp, b.comp;
  }

  /** Adding components with bits 0 and 1 to a fresh entity: it matches either
      bit alone and the pair, but not bit 2. */
  method AddScenario(a: ComponentStore<int>, b: ComponentStore<bool>) returns (both: Entity)
    requires a.Valid() && b.Valid() && a.comp == {0} && b.comp == {1}
    modifies a.slots, b.slots
    ensures both.mask == {0, 1}
    ensures HasComponents(both, {0}) && HasComponents(both, {1}) && HasComponents(both, {0, 1})
    ensures !HasComponents(both, {2})
  {
    var w := new World();
    var e := w.Spawn();
    var ok := a.Add(w, e, 7);
    ok := b.Add(w, e, true);
    both := w.entities.items[e];
  }
}
