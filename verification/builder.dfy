/**
  `WorldBuilder`: a fluent façade over the store with one piece of state, the
  cursor `current`, which names the entity that chained operations act upon.

  The cursor has two states, UNSET (`None`) and SET(e) (`Some(e)`):
  - `Entity`, `SetEntity` and `Spawn` move it, from either state, to SET;
  - `With`, `WithBundle` and `ForCurrentEntity` need SET and keep it;
  - `SpawnBatch` and `CurrentEntity` work in either state and keep it.
  A panic (`.expect` on an unset cursor, `.unwrap()` on a failed insertion)
  is an unmet `requires` here; `Chain.Step` models the same panics as values.
*/
module Builder {
  import opened Wrappers
  import Store

  /** The builder: the store it wraps, and the cursor. */
  datatype WorldBuilder = WorldBuilder(world: Store.World, current: Option<Store.Entity>)

  /** The cursor's entity is one the store knows, so an insertion there succeeds. */
  predicate CursorKnown(b: WorldBuilder)
  {
    b.current.Some? && b.current.value in b.world.table
  }

  /** `WorldBuilderSource::build` for `World`: wraps the store, cursor unset. */
  function Build(w: Store.World): (b: WorldBuilder)
    ensures b.world == w
    ensures b.current == None
  {
    WorldBuilder(w, None)
  }

  /** `entity()`: the store reserves an id (`reserved`, its answer) and the
      cursor points at exactly that id, whatever it pointed at before. */
  function Entity(b: WorldBuilder, reserved: Store.Entity): (b': WorldBuilder)
    requires reserved !in b.world.table
    ensures b'.current == Some(reserved)
    ensures b'.world == Store.Reserve(b.world, reserved)
    ensures b'.world.table.Keys == b.world.table.Keys + {reserved}
    ensures b'.world.table[reserved] == map[]
    ensures forall e :: e in b.world.table ==> b'.world.table[e] == b.world.table[e]
  {
    b.(world := Store.Reserve(b.world, reserved), current := Some(reserved))
  }

  /** `set_entity(e)`: the cursor points at `e`; no validation, store untouched. */
  function SetEntity(b: WorldBuilder, e: Store.Entity): (b': WorldBuilder)
    ensures b'.current == Some(e)
    ensures b'.world == b.world
  {
    b.(current := Some(e))
  }

  /** `with(c)`: needs a set cursor whose entity the store knows (otherwise the
      source panics); inserts `c` at the cursor's entity and nowhere else. */
  function With(b: WorldBuilder, c: Store.Component): (b': WorldBuilder)
    requires b.current.Some?
    requires b.current.value in b.world.table
    ensures b'.current == b.current
    ensures Store.InsertOne(b.world, b.current.value, c) == Success(b'.world)
    ensures b'.world.table.Keys == b.world.table.Keys
    ensures b'.world.table[b.current.value] == b.world.table[b.current.value][c.kind := c.value]
    ensures forall x :: x in b.world.table && x != b.current.value ==> b'.world.table[x] == b.world.table[x]
  {
    b.(world := Store.InsertOne(b.world, b.current.value, c).value)
  }

  /** `with_bundle(bundle)`: as `With`, attaching a whole bundle at once. */
  function WithBundle(b: WorldBuilder, bundle: Store.Bundle): (b': WorldBuilder)
    requires b.current.Some?
    requires b.current.value in b.world.table
    ensures b'.current == b.current
    ensures Store.Insert(b.world, b.current.value, bundle) == Success(b'.world)
    ensures b'.world.table.Keys == b.world.table.Keys
    ensures b'.world.table[b.current.value] == Store.Attach(b.world.table[b.current.value], bundle)
    ensures forall x :: x in b.world.table && x != b.current.value ==> b'.world.table[x] == b.world.table[x]
  {
    b.(world := Store.Insert(b.world, b.current.value, bundle).value)
  }

  /** `spawn_batch(bundles)`: the whole sequence goes to the store (`spawned`
      holds its answers, one per bundle); the cursor is not touched. */
  function SpawnBatch(b: WorldBuilder, spawned: seq<Store.Entity>, bundles: seq<Store.Bundle>): (b': WorldBuilder)
    requires |spawned| == |bundles|
    requires Store.FreshIds(b.world.table.Keys, spawned)
    ensures b'.current == b.current
    ensures b'.world == Store.SpawnBatch(b.world, spawned, bundles)
    ensures forall e :: e in b'.world.table <==> e in b.world.table || e in spawned
    ensures forall i :: 0 <= i < |spawned| ==> b'.world.table[spawned[i]] == Store.Attach(map[], bundles[i])
    ensures forall e :: e in b.world.table ==> b'.world.table[e] == b.world.table[e]
  {
    b.(world := Store.SpawnBatch(b.world, spawned, bundles))
  }

  /** `spawn(bundle)`: the store creates a new entity (`spawned`, its answer)
      carrying the bundle, and the cursor points at it, whatever it was before. */
  function Spawn(b: WorldBuilder, spawned: Store.Entity, bundle: Store.Bundle): (b': WorldBuilder)
    requires spawned !in b.world.table
    ensures b'.current == Some(spawned)
    ensures b'.world == Store.Spawn(b.world, spawned, bundle)
    ensures b'.world.table.Keys == b.world.table.Keys + {spawned}
    ensures b'.world.table[spawned] == Store.Attach(map[], bundle)
    ensures forall e :: e in b.world.table ==> b'.world.table[e] == b.world.table[e]
  {
    b.(world := Store.Spawn(b.world, spawned, bundle), current := Some(spawned))
  }

  /** `current_entity()`: the cursor as it is, in either state. */
  function CurrentEntity(b: WorldBuilder): (r: Option<Store.Entity>)
    ensures r == b.current
  {
    b.current
  }

  /** `for_current_entity(f)`: needs a set cursor; `f` receives the cursor's
      entity (its result stands for what it observed), and the builder, store
      included, is returned unchanged. */
  function ForCurrentEntity<R>(b: WorldBuilder, f: Store.Entity -> R): (r: (WorldBuilder, R))
    requires b.current.Some?
    ensures r.0 == b
    ensures r.1 == f(b.current.value)
  {
    (b, f(b.current.value))
  }

  /** Attaching two components of different types gives the same entity
      whichever is attached first. */
  lemma WithCommutes(b: WorldBuilder, c1: Store.Component, c2: Store.Component)
    requires CursorKnown(b)
    requires c1.kind != c2.kind
    ensures With(With(b, c1), c2) == With(With(b, c2), c1)
  {
    var e := b.current.value;
    var t := b.world.table;
    var r12: Store.Row := t[e][c1.kind := c1.value][c2.kind := c2.value];
    var r21: Store.Row := t[e][c2.kind := c2.value][c1.kind := c1.value];
    assert r12 == r21;
    assert With(With(b, c1), c2).world.table == t[e := r12];
    assert With(With(b, c2), c1).world.table == t[e := r21];
  }

  /** `with(c)` is `with_bundle` of the one-component bundle `[c]`. */
  lemma WithIsWithBundle(b: WorldBuilder, c: Store.Component)
    requires CursorKnown(b)
    ensures With(b, c) == WithBundle(b, [c])
  {
    Store.InsertOneIsInsert(b.world, b.current.value, c);
  }

  /** `entity()` followed by `with_bundle(bundle)` builds the same store and
      cursor as `spawn(bundle)` given the same id. */
  lemma EntityWithBundleIsSpawn(b: WorldBuilder, id: Store.Entity, bundle: Store.Bundle)
    requires id !in b.world.table
    ensures WithBundle(Entity(b, id), bundle) == Spawn(b, id, bundle)
  {
  }

  /** `entity().with(a).with(c)` yields one new entity carrying exactly `a`
      and `c`, with the cursor on it; for components of different types the
      order of the two `with` calls does not matter. */
  lemma EntityWithWith(b: WorldBuilder, r: Store.Entity, a: Store.Component, c: Store.Component)
    requires r !in b.world.table
    ensures With(With(Entity(b, r), a), c).current == Some(r)
    ensures With(With(Entity(b, r), a), c).world.table[r] == map[a.kind := a.value, c.kind := c.value]
    ensures With(With(Entity(b, r), a), c).world.table.Keys == b.world.table.Keys + {r}
    ensures a.kind != c.kind ==> With(With(Entity(b, r), a), c) == With(With(Entity(b, r), c), a)
  {
    if a.kind != c.kind {
      WithCommutes(Entity(b, r), a, c);
    }
  }
}
