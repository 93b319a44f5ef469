/**
  The entity-component store the builder wraps, seen only through the five
  primitives the builder calls: reserve an entity, insert one component,
  insert a bundle, spawn from a bundle, spawn from a sequence of bundles.

  The store's internals (id allocation, archetypes, tables) are not modelled.
  Whenever the store chooses an entity id, that id is a parameter here (the
  store's answer), and the store's promise that it is fresh is a `requires`.
*/
module Store {
  import opened Wrappers

  /** Opaque entity handle. The builder never builds or inspects one. */
  datatype Entity = Entity(id: nat)

  /** A component type; at most one value per type is attached to an entity. */
  type Kind = nat

  /** One component value, distinguished by its type. */
  datatype Component = Component(kind: Kind, value: int)

  /** An ordered group of components attached or spawned as one unit. */
  type Bundle = seq<Component>

  /** The components attached to one entity, by type. */
  type Row = map<Kind, int>

  /** The store: every entity it knows, with the components attached to it. */
  datatype World = World(table: map<Entity, Row>)

  /** The only way the insertion primitives fail. */
  datatype NoSuchEntity = NoSuchEntity(entity: Entity)

  /** Reference meaning of a bundle: the value of the LAST component of type
      `k` in `b`, or None when `b` has no component of that type. */
  function LastOf(b: Bundle, k: Kind): Option<int>
    decreases |b|
  {
    if |b| == 0 then None
    else
      match LastOf(b[1..], k)
      case Some(v) => Some(v)
      case None => if b[0].kind == k then Some(b[0].value) else None
  }

  /** Attaches the components of `b` to `row` one after another; a later
      component overwrites an earlier one of the same type. */
  function Attach(row: Row, b: Bundle): (r: Row)
    ensures forall k :: LastOf(b, k).Some? ==> k in r && r[k] == LastOf(b, k).value
    ensures forall k :: LastOf(b, k).None? ==> (k in r <==> k in row)
    ensures forall k :: LastOf(b, k).None? && k in row ==> r[k] == row[k]
    decreases |b|
  {
    if |b| == 0 then row
    else Attach(row[b[0].kind := b[0].value], b[1..])
  }

  /** The ids in `spawned` are unknown to a store with entities `known`, and
      pairwise distinct: what the store promises of the ids it hands out. */
  predicate FreshIds(known: set<Entity>, spawned: seq<Entity>)
  {
    && (forall i :: 0 <= i < |spawned| ==> spawned[i] !in known)
    && (forall i, j :: 0 <= i < j < |spawned| ==> spawned[i] != spawned[j])
  }

  /** Store primitive `reserve_entity`: `reserved` is the store's answer, an
      id it did not know before, which it now knows with no components. */
  function Reserve(w: World, reserved: Entity): (w': World)
    requires reserved !in w.table
    ensures w'.table.Keys == w.table.Keys + {reserved}
    ensures w'.table[reserved] == map[]
    ensures forall e :: e in w.table ==> w'.table[e] == w.table[e]
  {
    World(w.table[reserved := map[]])
  }

  /** Store primitive `insert_one`: fails exactly when `e` is unknown;
      otherwise attaches or overwrites one component on `e` only. */
  function InsertOne(w: World, e: Entity, c: Component): (r: Result<World, NoSuchEntity>)
    ensures r.Failure? <==> e !in w.table
    ensures r.Failure? ==> r.error == NoSuchEntity(e)
    ensures r.Success? ==> r.value.table.Keys == w.table.Keys
    ensures r.Success? ==> r.value.table[e] == w.table[e][c.kind := c.value]
    ensures r.Success? ==> forall x :: x in w.table && x != e ==> r.value.table[x] == w.table[x]
  {
    if e !in w.table then Failure(NoSuchEntity(e))
    else
      var row: Row := w.table[e][c.kind := c.value];
      Success(World(w.table[e := row]))
  }

  /** Store primitive `insert`: like `InsertOne`, for a whole bundle at once. */
  function Insert(w: World, e: Entity, b: Bundle): (r: Result<World, NoSuchEntity>)
    ensures r.Failure? <==> e !in w.table
    ensures r.Failure? ==> r.error == NoSuchEntity(e)
    ensures r.Success? ==> r.value.table.Keys == w.table.Keys
    ensures r.Success? ==> r.value.table[e] == Attach(w.table[e], b)
    ensures r.Success? ==> forall x :: x in w.table && x != e ==> r.value.table[x] == w.table[x]
  {
    if e !in w.table then Failure(NoSuchEntity(e))
    else Success(World(w.table[e := Attach(w.table[e], b)]))
  }

  /** Store primitive `spawn`: `spawned` is the store's answer, a new entity
      that carries exactly the bundle's components. */
  function Spawn(w: World, spawned: Entity, b: Bundle): (w': World)
    requires spawned !in w.table
    ensures w'.table.Keys == w.table.Keys + {spawned}
    ensures w'.table[spawned] == Attach(map[], b)
    ensures forall e :: e in w.table ==> w'.table[e] == w.table[e]
  {
    World(w.table[spawned := Attach(map[], b)])
  }

  /** Store primitive `spawn_batch`: one `Spawn` per bundle, in order;
      `spawned[i]` is the store's answer for `bundles[i]`. */
  function SpawnBatch(w: World, spawned: seq<Entity>, bundles: seq<Bundle>): (w': World)
    requires |spawned| == |bundles|
    requires FreshIds(w.table.Keys, spawned)
    ensures forall e :: e in w'.table <==> e in w.table || e in spawned
    ensures forall e :: e in w.table ==> w'.table[e] == w.table[e]
    ensures forall i :: 0 <= i < |spawned| ==> w'.table[spawned[i]] == Attach(map[], bundles[i])
    decreases |bundles|
  {
    if |bundles| == 0 then w
    else
      var w1 := Spawn(w, spawned[0], bundles[0]);
      var rest := spawned[1..];
      assert forall i :: 0 <= i < |rest| ==> rest[i] == spawned[i + 1];
      SpawnBatch(w1, rest, bundles[1..])
  }

  /** Inserting one component is inserting the one-element bundle. */
  lemma InsertOneIsInsert(w: World, e: Entity, c: Component)
    ensures InsertOne(w, e, c) == Insert(w, e, [c])
  {
    if e in w.table {
      var r1 := InsertOne(w, e, c).value;
      var r2 := Insert(w, e, [c]).value;
      assert r1.table[e] == r2.table[e];
      assert r1.table == r2.table;
    }
  }

  /** Spawning is reserving a fresh id and inserting the bundle onto it. */
  lemma SpawnIsReserveThenInsert(w: World, spawned: Entity, b: Bundle)
    requires spawned !in w.table
    ensures Insert(Reserve(w, spawned), spawned, b) == Success(Spawn(w, spawned, b))
  {
    var r1 := Insert(Reserve(w, spawned), spawned, b).value;
    assert r1.table == Spawn(w, spawned, b).table;
  }
}
