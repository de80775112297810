/**
 * The scene: a list of objects, one component storage per component type, and on every
 * object a map from component type to the address of its component.
 *
 * The consistency between the objects' maps and the storages' slots is stated as a
 * predicate on values (`IndexConsistent`), so that what each operation does to it can be
 * proved once, on values, and reused by the methods.
 */
module SceneGraph {
  import opened Options
  import opened Storage

  // ----- the scene's bookkeeping as values -----

  /** Per registered type, its storage's slots; per object (by index), its component map. */
  type Index = map<TypeKey, seq<Slot>>
  type ComponentMaps = seq<map<TypeKey, Address>>

  /**
   * Every component an object records sits in that type's storage as a slot owned by the
   * object; every slot's owner is an object recording exactly that slot; and no object
   * owns two slots of one storage.
   */
  predicate IndexConsistent(index: Index, maps: ComponentMaps) {
    (forall i, k | 0 <= i < |maps| && k in maps[i] :: k in index && Slot(i, maps[i][k]) in index[k])
    && (forall k, j | k in index && 0 <= j < |index[k]| ::
          index[k][j].owner < |maps| && k in maps[index[k][j].owner]
          && maps[index[k][j].owner][k] == index[k][j].payload)
    && (forall k, j1, j2 | k in index && 0 <= j1 < j2 < |index[k]| :: index[k][j1].owner != index[k][j2].owner)
  }

  function SlotsOf(index: Index, k: TypeKey): seq<Slot> {
    if k in index then index[k] else []
  }

  /** The bookkeeping after object i gets a component of type k at `addr`. */
  lemma AddComponentKeepsConsistency(index: Index, maps: ComponentMaps, i: nat, k: TypeKey, addr: Address)
    requires IndexConsistent(index, maps)
    requires i < |maps| && k !in maps[i]
    ensures IndexConsistent(index[k := SlotsOf(index, k) + [Slot(i, addr)]], maps[i := maps[i][k := addr]])
  {
    var index' := index[k := SlotsOf(index, k) + [Slot(i, addr)]];
    var maps' := maps[i := maps[i][k := addr]];
    forall i2, k2 | 0 <= i2 < |maps'| && k2 in maps'[i2]
      ensures k2 in index' && Slot(i2, maps'[i2][k2]) in index'[k2]
    {
      if i2 == i && k2 == k {
        assert index'[k][|index'[k]| - 1] == Slot(i, addr);
      } else {
        assert k2 in maps[i2];
        var j :| 0 <= j < |index[k2]| && index[k2][j] == Slot(i2, maps[i2][k2]);
        assert index'[k2][j] == index[k2][j];
      }
    }
    forall k2, j | k2 in index' && 0 <= j < |index'[k2]|
      ensures index'[k2][j].owner < |maps'| && k2 in maps'[index'[k2][j].owner]
           && maps'[index'[k2][j].owner][k2] == index'[k2][j].payload
    {
      if k2 == k && j == |index'[k]| - 1 {
      } else {
        assert index'[k2][j] == index[k2][j];
      }
    }
    forall k2, j1, j2 | k2 in index' && 0 <= j1 < j2 < |index'[k2]|
      ensures index'[k2][j1].owner != index'[k2][j2].owner
    {
      if k2 == k && j2 == |index'[k]| - 1 {
        assert index'[k2][j1] == index[k][j1];
        assert k in maps[index[k][j1].owner];
      } else {
        assert index'[k2][j1] == index[k2][j1] && index'[k2][j2] == index[k2][j2];
      }
    }
  }

  /** The bookkeeping after an object with no component is appended. */
  lemma AddObjectKeepsConsistency(index: Index, maps: ComponentMaps)
    requires IndexConsistent(index, maps)
    ensures IndexConsistent(index, maps + [map[]])
  {
    var maps' := maps + [map[]];
    forall i, k | 0 <= i < |maps'| && k in maps'[i]
      ensures k in index && Slot(i, maps'[i][k]) in index[k]
    {
      assert maps'[i] == maps[i];
    }
  }

  /** The objects that hold a component of type k. */
  function Holders(maps: ComponentMaps, k: TypeKey): set<ObjectId> {
    set i | 0 <= i < |maps| && k in maps[i]
  }

  function Owners(slots: seq<Slot>): set<ObjectId> {
    set j | 0 <= j < |slots| :: slots[j].owner
  }

  lemma {:induction false} DistinctOwnersCount(slots: seq<Slot>)
    requires forall j1, j2 | 0 <= j1 < j2 < |slots| :: slots[j1].owner != slots[j2].owner
    ensures |Owners(slots)| == |slots|
  {
    if slots != [] {
      var init := slots[..|slots| - 1];
      var last := slots[|slots| - 1].owner;
      assert forall j | 0 <= j < |init| :: init[j] == slots[j];
      DistinctOwnersCount(init);
      OwnersSnoc(slots);
      assert last !in Owners(init);
    }
  }

  lemma OwnersSnoc(slots: seq<Slot>)
    requires slots != []
    ensures Owners(slots) == Owners(slots[..|slots| - 1]) + {slots[|slots| - 1].owner}
  {
    var init := slots[..|slots| - 1];
    forall o | o in Owners(slots) ensures o in Owners(init) + {slots[|slots| - 1].owner} {
      var j :| 0 <= j < |slots| && slots[j].owner == o;
      if j < |slots| - 1 {
        assert init[j] == slots[j];
      }
    }
    forall o | o in Owners(init) ensures o in Owners(slots) {
      var j :| 0 <= j < |init| && init[j].owner == o;
      assert slots[j] == init[j];
    }
  }

  /** A type's slot count is the number of objects holding a component of that type. */
  lemma SlotCountIsHolders(index: Index, maps: ComponentMaps, k: TypeKey)
    requires IndexConsistent(index, maps)
    ensures |SlotsOf(index, k)| == |Holders(maps, k)|
  {
    var slots := SlotsOf(index, k);
    if k in index {
      DistinctOwnersCount(slots);
      forall i | i in Holders(maps, k) ensures i in Owners(slots) {
        var j :| 0 <= j < |slots| && slots[j] == Slot(i, maps[i][k]);
      }
    } else {
      assert Holders(maps, k) == {};
    }
    assert Owners(slots) == Holders(maps, k);
  }

  // ----- the multi-type join -----

  /** One visitor call: the owner, its first-type component and its other components in order. */
  datatype JoinRow = JoinRow(owner: ObjectId, first: Address, rest: seq<Address>)

  predicate HoldsAll(m: map<TypeKey, Address>, keys: seq<TypeKey>) {
    forall i | 0 <= i < |keys| :: keys[i] in m
  }

  function Lookups(m: map<TypeKey, Address>, keys: seq<TypeKey>): (r: seq<Address>)
    requires HoldsAll(m, keys)
    ensures |r| == |keys| && forall i | 0 <= i < |keys| :: r[i] == m[keys[i]]
  {
    seq(|keys|, i requires 0 <= i < |keys| => m[keys[i]])
  }

  /** The row a slot contributes, if its owner holds every other type. */
  function RowOf(s: Slot, maps: ComponentMaps, others: seq<TypeKey>): seq<JoinRow> {
    if s.owner < |maps| && HoldsAll(maps[s.owner], others)
    then [JoinRow(s.owner, s.payload, Lookups(maps[s.owner], others))]
    else []
  }

  /** The visitor calls of `Scene::ForEach<T1, Ts...>`, in T1 storage order. */
  function Join(slots: seq<Slot>, maps: ComponentMaps, others: seq<TypeKey>): seq<JoinRow> {
    if slots == [] then []
    else Join(slots[..|slots| - 1], maps, others) + RowOf(slots[|slots| - 1], maps, others)
  }

  /** Every row comes from a slot whose owner holds all the other types, with those components. */
  lemma {:induction false} JoinSound(slots: seq<Slot>, maps: ComponentMaps, others: seq<TypeKey>, r: nat)
    requires r < |Join(slots, maps, others)|
    ensures var row := Join(slots, maps, others)[r];
      Slot(row.owner, row.first) in slots && row.owner < |maps| && HoldsAll(maps[row.owner], others)
      && row.rest == Lookups(maps[row.owner], others)
  {
    var init := slots[..|slots| - 1];
    if r < |Join(init, maps, others)| {
      JoinSound(init, maps, others, r);
      assert Join(slots, maps, others)[r] == Join(init, maps, others)[r];
      var row := Join(init, maps, others)[r];
      var j :| 0 <= j < |init| && init[j] == Slot(row.owner, row.first);
      assert slots[j] == init[j];
    } else {
      assert Join(slots, maps, others)[r] == RowOf(slots[|slots| - 1], maps, others)[0];
    }
  }

  /** Every slot whose owner holds all the other types contributes a row. */
  lemma {:induction false} JoinComplete(slots: seq<Slot>, maps: ComponentMaps, others: seq<TypeKey>, j: nat)
    requires j < |slots| && slots[j].owner < |maps| && HoldsAll(maps[slots[j].owner], others)
    ensures JoinRow(slots[j].owner, slots[j].payload, Lookups(maps[slots[j].owner], others)) in Join(slots, maps, others)
  {
    var init := slots[..|slots| - 1];
    if j < |slots| - 1 {
      assert init[j] == slots[j];
      JoinComplete(init, maps, others, j);
    } else {
      assert RowOf(slots[j], maps, others)[0] in Join(slots, maps, others);
    }
  }

  /** Rows come in slot order: the owners of any two rows are owners of slots in that order. */
  lemma {:induction false} JoinOrdered(slots: seq<Slot>, maps: ComponentMaps, others: seq<TypeKey>, r1: nat, r2: nat)
    requires r1 < r2 < |Join(slots, maps, others)|
    ensures exists j1, j2 | 0 <= j1 < j2 < |slots| ::
      slots[j1].owner == Join(slots, maps, others)[r1].owner && slots[j2].owner == Join(slots, maps, others)[r2].owner
  {
    var init := slots[..|slots| - 1];
    var rows := Join(slots, maps, others);
    if r2 < |Join(init, maps, others)| {
      JoinOrdered(init, maps, others, r1, r2);
      var j1, j2 :| 0 <= j1 < j2 < |init| &&
        init[j1].owner == Join(init, maps, others)[r1].owner && init[j2].owner == Join(init, maps, others)[r2].owner;
      assert slots[j1] == init[j1] && slots[j2] == init[j2];
      assert rows[r1] == Join(init, maps, others)[r1] && rows[r2] == Join(init, maps, others)[r2];
    } else {
      JoinSound(init, maps, others, r1);
      assert rows[r1] == Join(init, maps, others)[r1];
      var row := rows[r1];
      var j1 :| 0 <= j1 < |init| && init[j1] == Slot(row.owner, row.first);
      assert slots[j1] == init[j1];
      assert rows[r2] == RowOf(slots[|slots| - 1], maps, others)[0];
      assert slots[|slots| - 1].owner == rows[r2].owner;
    }
  }

  /**
   * On a consistent scene, object i gets a visitor call with its first-type component iff
   * it holds the first type and all the others.
   */
  lemma JoinExact(index: Index, maps: ComponentMaps, first: TypeKey, others: seq<TypeKey>, i: ObjectId)
    requires IndexConsistent(index, maps)
    ensures (exists r | 0 <= r < |Join(SlotsOf(index, first), maps, others)| :: Join(SlotsOf(index, first), maps, others)[r].owner == i)
        <==> (i < |maps| && first in maps[i] && HoldsAll(maps[i], others))
    ensures i < |maps| && first in maps[i] && HoldsAll(maps[i], others) ==>
      JoinRow(i, maps[i][first], Lookups(maps[i], others)) in Join(SlotsOf(index, first), maps, others)
  {
    var slots := SlotsOf(index, first);
    var rows := Join(slots, maps, others);
    if exists r | 0 <= r < |rows| :: rows[r].owner == i {
      var r :| 0 <= r < |rows| && rows[r].owner == i;
      JoinSound(slots, maps, others, r);
      var j :| 0 <= j < |slots| && slots[j] == Slot(i, rows[r].first);
    }
    if i < |maps| && first in maps[i] && HoldsAll(maps[i], others) {
      var j :| 0 <= j < |slots| && slots[j] == Slot(i, maps[i][first]);
      JoinComplete(slots, maps, others, j);
      var r :| 0 <= r < |rows| && rows[r] == JoinRow(i, maps[i][first], Lookups(maps[i], others));
      assert rows[r].owner == i;
    }
  }

  /** On a consistent scene, no object gets two visitor calls. */
  lemma JoinOncePerObject(index: Index, maps: ComponentMaps, first: TypeKey, others: seq<TypeKey>, r1: nat, r2: nat)
    requires IndexConsistent(index, maps)
    requires r1 < r2 < |Join(SlotsOf(index, first), maps, others)|
    ensures Join(SlotsOf(index, first), maps, others)[r1].owner != Join(SlotsOf(index, first), maps, others)[r2].owner
  {
    var slots := SlotsOf(index, first);
    JoinOrdered(slots, maps, others, r1, r2);
  }

  lemma JoinStep(slots: seq<Slot>, maps: ComponentMaps, others: seq<TypeKey>, i: nat)
    requires i < |slots|
    ensures Join(slots[..i + 1], maps, others) == Join(slots[..i], maps, others) + RowOf(slots[i], maps, others)
  {
    assert slots[..i + 1][..i] == slots[..i];
  }

  /** With only one type the join is every slot of that type's storage. */
  lemma {:induction false} JoinSingleType(slots: seq<Slot>, maps: ComponentMaps)
    requires forall j | 0 <= j < |slots| :: slots[j].owner < |maps|
    ensures |Join(slots, maps, [])| == |slots|
    ensures forall r | 0 <= r < |slots| :: Join(slots, maps, [])[r] == JoinRow(slots[r].owner, slots[r].payload, [])
  {
    if slots != [] {
      JoinSingleType(slots[..|slots| - 1], maps);
    }
  }

  /** `std::clamp<int>(next, 0, size - 1)` for a nonempty object list. */
  function ClampIndex(next: int, count: nat): (r: nat)
    requires count >= 1
    ensures r < count
    ensures 0 <= next < count ==> r == next
    ensures next < 0 ==> r == 0
    ensures next >= count ==> r == count - 1
  {
    if next < 0 then 0 else if next > count - 1 then count - 1 else next
  }

  // ----- the objects -----

  class SceneObject {
    /** The object's index in the scene's list. */
    const id: ObjectId
    const name: string
    /** components_: component type to the payload address in that type's storage. */
    var components: map<TypeKey, Address>

    constructor (id: ObjectId, name: string)
      ensures this.id == id && this.name == name && components == map[]
    {
      this.id := id;
      this.name := name;
      components := map[];
    }

    /** GetComponent<T>: the payload, or null (None) when the object has no T. */
    function GetComponent(key: TypeKey): (r: Option<Address>)
      reads this
      ensures r.Some? <==> key in components
      ensures r.Some? ==> r.value == components[key]
    {
      if key in components then Some(components[key]) else None
    }

    function HasComponent(key: TypeKey): (r: bool)
      reads this
      ensures r <==> key in components
    {
      key in components
    }

    /** HasComponents<T1, Ts...>: the conjunction, unrolled one type at a time. */
    function HasComponents(keys: seq<TypeKey>): (r: bool)
      reads this
      requires |keys| >= 1
      ensures r <==> HoldsAll(components, keys)
    {
      if |keys| == 1 then HasComponent(keys[0])
      else HasComponent(keys[0]) && HasComponents(keys[1..])
    }
  }

  // ----- the scene -----

  /** What ComponentStorage::Update hands to the update hook. */
  ghost function UpdatedBy(s: ComponentStorage): seq<Address>
    reads s
  {
    if s.updateHook then Payloads(Visits(s.Slots())) else []
  }

  lemma NonEmptyHasElement(s: set<TypeKey>)
    requires s != {}
    ensures exists k :: k in s
  {
    if forall k :: k !in s {
      assert false;
    }
  }

  /** The keys of an unordered map in an unspecified order, each exactly once. */
  method Enumerate(keys: set<TypeKey>) returns (order: seq<TypeKey>)
    ensures multiset(order) == multiset(keys)
  {
    order := [];
    var remaining := keys;
    while remaining != {}
      invariant remaining <= keys
      invariant multiset(order) + multiset(remaining) == multiset(keys)
      decreases remaining
    {
      NonEmptyHasElement(remaining);
      var k :| k in remaining;
      order := order + [k];
      assert multiset(remaining - {k}) + multiset{k} == multiset(remaining);
      remaining := remaining - {k};
    }
  }

  class Scene {
    /** objects_ */
    var objects: seq<SceneObject>
    /** components_: one storage per registered type. */
    var storages: map<TypeKey, ComponentStorage>
    /** curr_ui_object_ */
    var curUiObject: nat
    /** The objects' component maps, by index. */
    ghost var maps: ComponentMaps
    /** The registered storages' slots, by type. */
    ghost var index: Index

    /**
     * Objects are numbered by their index; every registered storage is valid, registered
     * under its own type, holds at least one block (registration is always followed by an
     * allocation) and belongs to no other type; the ghost views match the objects and the
     * storages; and the views are consistent with each other.
     */
    ghost predicate Valid()
      reads this, objects, storages.Values
    {
      ObjectsMatch() && StoragesMatch() && IndexConsistent(index, maps)
    }

    /** Objects are numbered by their index and `maps` is their component maps. */
    ghost predicate ObjectsMatch()
      reads this`objects, this`maps, objects
    {
      |maps| == |objects|
      && forall i | 0 <= i < |objects| :: objects[i].id == i && objects[i].components == maps[i]
    }

    /** The storages are valid, distinct, keyed by their own type, and `index` is their slots. */
    ghost predicate StoragesMatch()
      reads this`storages, this`index, storages.Values
    {
      index.Keys == storages.Keys
      && (forall k | k in storages ::
            storages[k].Valid() && storages[k].componentType.key == k && |storages[k].blocks| >= 1
            && storages[k].Slots() == index[k])
      && (forall k1, k2 | k1 in storages && k2 in storages && k1 != k2 :: storages[k1] != storages[k2])
    }

    constructor ()
      ensures Valid() && objects == [] && storages == map[] && curUiObject == 0
    {
      objects := [];
      storages := map[];
      curUiObject := 0;
      maps := [];
      index := map[];
    }

    /** AddObject: append one new object with no component and return it. */
    method AddObject(name: string) returns (obj: SceneObject)
      requires Valid()
      modifies this
      ensures Valid()
      ensures fresh(obj) && obj.id == old(|objects|) && obj.name == name && obj.components == map[]
      ensures objects == old(objects) + [obj]
      ensures storages == old(storages) && index == old(index) && maps == old(maps) + [map[]]
    {
      obj := new SceneObject(|objects|, name);
      AddObjectKeepsConsistency(index, maps);
      objects := objects + [obj];
      maps := maps + [map[]];
    }

    /** Count<T>: 0 for an unregistered type, otherwise the number of objects holding a T. */
    function Count(key: TypeKey): (r: nat)
      reads this, objects, storages.Values
      requires Valid()
      ensures key !in storages ==> r == 0
      ensures r == |Holders(maps, key)|
    {
      SlotCountIsHolders(index, maps, key);
      if key in storages then storages[key].Count() else 0
    }

    /**
     * SceneObject::AddComponent<T> with Scene::AddComponent<T>: null (None) if the object
     * already holds a T, leaving everything unchanged; otherwise register and initialise the
     * storage on first use of T, allocate one slot owned by the object, and record it.
     */
    method AddComponent(obj: ObjectId, t: ComponentType) returns (r: Option<Address>)
      requires Valid() && obj < |objects| && Storable(t)
      requires t.key in storages ==> storages[t.key].componentType == t
      modifies this, objects[obj], storages.Values
      ensures Valid()
      ensures objects == old(objects) && curUiObject == old(curUiObject)
      ensures old(t.key in objects[obj].components) ==>
        r == None && storages == old(storages) && index == old(index) && maps == old(maps)
      ensures old(t.key !in objects[obj].components) ==>
        r.Some? && storages.Keys == old(storages.Keys) + {t.key}
        && (old(t.key in storages) ==> storages == old(storages))
        && (old(t.key !in storages) ==> fresh(storages[t.key]))
        && index == old(index)[t.key := SlotsOf(old(index), t.key) + [Slot(obj, r.value)]]
        && maps == old(maps)[obj := old(maps)[obj][t.key := r.value]]
    {
      if t.key in objects[obj].components {
        return None;
      }
      var addr := Attach(obj, t);
      r := Some(addr);
    }

    /** Scene::AddComponent for an object that does not hold t yet, and the object's record of it. */
    method Attach(obj: ObjectId, t: ComponentType) returns (addr: Address)
      requires Valid() && obj < |objects| && Storable(t)
      requires t.key in storages ==> storages[t.key].componentType == t
      requires t.key !in objects[obj].components
      modifies this, objects[obj], storages.Values
      ensures Valid()
      ensures objects == old(objects) && curUiObject == old(curUiObject)
      ensures storages.Keys == old(storages.Keys) + {t.key}
      ensures old(t.key in storages) ==> storages == old(storages)
      ensures old(t.key !in storages) ==> fresh(storages[t.key])
      ensures index == old(index)[t.key := SlotsOf(old(index), t.key) + [Slot(obj, addr)]]
      ensures maps == old(maps)[obj := old(maps)[obj][t.key := addr]]
    {
      ghost var index0, maps0 := index, maps;
      addr := AttachStorage(obj, t);
      assert ObjectsMatch() && maps == maps0;
      AttachObject(obj, t.key, addr);
      AddComponentKeepsConsistency(index0, maps0, obj, t.key, addr);
    }

    /** Scene::AddComponent: the storage of t, registered on first use, gains one slot owned by obj. */
    method AttachStorage(obj: ObjectId, t: ComponentType) returns (addr: Address)
      requires StoragesMatch() && Storable(t)
      requires t.key in storages ==> storages[t.key].componentType == t
      modifies this`storages, this`index, storages.Values
      ensures StoragesMatch()
      ensures storages.Keys == old(storages.Keys) + {t.key}
      ensures old(t.key in storages) ==> storages == old(storages)
      ensures old(t.key !in storages) ==> fresh(storages[t.key])
      ensures index == old(index)[t.key := SlotsOf(old(index), t.key) + [Slot(obj, addr)]]
    {
      if t.key in storages {
        addr := GrowStorage(t.key, obj);
      } else {
        assert SlotsOf(index, t.key) == [];
        addr := AddStorage(t, obj);
        assert [] + [Slot(obj, addr)] == [Slot(obj, addr)];
      }
    }

    /** The storage of a registered type gains one slot; no other storage changes. */
    method GrowStorage(key: TypeKey, obj: ObjectId) returns (addr: Address)
      requires StoragesMatch() && key in storages
      modifies this`index, storages[key]
      ensures StoragesMatch() && storages == old(storages)
      ensures index == old(index)[key := old(index)[key] + [Slot(obj, addr)]]
    {
      var storage := storages[key];
      addr := storage.Allocate(obj);
      forall k | k in storages && k != key
        ensures storages[k].Slots() == index[k]
        ensures storages[k].Valid() && |storages[k].blocks| >= 1
      {
        assert storages[k] != storage;
      }
      index := index[key := index[key] + [Slot(obj, addr)]];
    }

    /** A first component of type t: its storage is created, initialised, and given one slot. */
    method AddStorage(t: ComponentType, obj: ObjectId) returns (addr: Address)
      requires StoragesMatch() && Storable(t) && t.key !in storages
      modifies this`storages, this`index
      ensures StoragesMatch()
      ensures storages.Keys == old(storages.Keys) + {t.key}
      ensures fresh(storages[t.key]) && storages == old(storages)[t.key := storages[t.key]]
      ensures index == old(index)[t.key := [Slot(obj, addr)]]
    {
      var storage := new ComponentStorage.Init(t);
      addr := storage.Allocate(obj);
      storages := storages[t.key := storage];
      index := index[t.key := [Slot(obj, addr)]];
    }

    /** SceneObject::AddComponent<T>: the object records the new component's address. */
    method AttachObject(obj: ObjectId, key: TypeKey, addr: Address)
      requires ObjectsMatch() && obj < |objects|
      modifies this`maps, objects[obj]
      ensures ObjectsMatch() && objects == old(objects) && storages == old(storages) && index == old(index)
      ensures maps == old(maps)[obj := old(maps)[obj][key := addr]]
    {
      var o := objects[obj];
      o.components := o.components[key := addr];
      maps := maps[obj := maps[obj][key := addr]];
    }

    /**
     * ForEach<T1, Ts...>: nothing when T1 is unregistered; otherwise, walking T1's storage,
     * one call per component whose owner holds every Ts, with that owner's components.
     */
    method ForEach(first: TypeKey, others: seq<TypeKey>) returns (rows: seq<JoinRow>)
      requires Valid()
      ensures first !in storages ==> rows == []
      ensures rows == Join(SlotsOf(index, first), maps, others)
    {
      rows := [];
      if first in storages {
        var visits := storages[first].ForEachInner();
        ghost var slots := index[first];
        var i := 0;
        while i < |visits|
          invariant 0 <= i <= |visits|
          invariant rows == Join(slots[..i], maps, others)
        {
          JoinStep(slots, maps, others, i);
          var owner := visits[i].owner.value;
          assert slots[i] == Slot(owner, visits[i].payload);
          assert owner < |maps| && objects[owner].components == maps[owner];
          var holder := objects[owner];
          if |others| == 0 || holder.HasComponents(others) {
            ghost var row := JoinRow(owner, visits[i].payload, Lookups(maps[owner], others));
            assert RowOf(slots[i], maps, others) == [row];
            rows := rows + [JoinRow(owner, visits[i].payload, Lookups(holder.components, others))];
          } else {
            assert RowOf(slots[i], maps, others) == [];
          }
          i := i + 1;
        }
        assert slots[..|visits|] == slots;
      }
    }

    /** Update: every registered storage updated exactly once, in the map's unspecified order. */
    method Update() returns (order: seq<TypeKey>, updated: seq<seq<Address>>)
      requires StoragesMatch()
      ensures multiset(order) == multiset(storages.Keys)
      ensures |order| == |updated|
      ensures forall i | 0 <= i < |order| :: order[i] in storages && updated[i] == UpdatedBy(storages[order[i]])
    {
      order := Enumerate(storages.Keys);
      forall j | 0 <= j < |order| ensures order[j] in storages {
        assert order[j] in multiset(order);
      }
      updated := [];
      var i := 0;
      while i < |order|
        invariant 0 <= i <= |order| && |updated| == i
        invariant forall j | 0 <= j < |order| :: order[j] in storages
        invariant forall j | 0 <= j < i :: updated[j] == UpdatedBy(storages[order[j]])
      {
        var key := order[i];
        assert key in storages;
        var storage := storages[key];
        assert storage.Valid() && |storage.blocks| >= 1;
        var u := storage.Update();
        updated := updated + [u];
        i := i + 1;
      }
    }

    /** The object-selection clamp of ShowUi: the selected index always names an object. */
    method SelectUiObject(next: int)
      requires |objects| >= 1
      modifies this`curUiObject
      ensures curUiObject < |objects|
      ensures 0 <= next < |objects| ==> curUiObject == next
      ensures next < 0 ==> curUiObject == 0
      ensures next >= |objects| ==> curUiObject == |objects| - 1
    {
      curUiObject := ClampIndex(next, |objects|);
    }
  }
}
