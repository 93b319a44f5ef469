# WorldBuilder: a Dafny model of bevy_ecs's fluent world builder

`WorldBuilder` (crates/bevy_ecs/src/core/world_builder.rs) is a chainable
façade over a bevy `World`. It holds the world and one piece of state, the
cursor `current_entity: Option<Entity>`. Every method either moves the cursor
(`entity`, `set_entity`, `spawn`), acts on the world at the cursor's entity
(`with`, `with_bundle`, `for_current_entity`), or acts on the world without
touching the cursor (`spawn_batch`). `current_entity` reads the cursor.

The model has four modules:

- `Wrappers` (wrappers.dfy): `Option` and `Result`.
- `Store` (store.dfy): the `World`, seen only through the five primitives
  the builder calls. A world is a map from entity to its row of components,
  keyed by component type. Ids the world chooses (`reserve_entity`, `spawn`,
  `spawn_batch`) are parameters: the world's answers. The world's promise
  that they are fresh is a `requires`; it is assumed and never proved. A
  bundle is a sequence of components attached left to right. `LastOf` is the
  reference meaning of a bundle, and `Attach`'s contract ties the row it
  builds to that meaning.
- `Builder` (builder.dfy): the builder as an immutable record
  `WorldBuilder(world, current)`, with one pure function per source method.
  A panic is an unmet `requires`: `.expect` on an unset cursor, and
  `.unwrap()` on an insertion at an entity the world does not know.
- `Chain` (chain.dfy): whole call chains. `Step` is total and returns a
  `Panic` value where the source panics. `Run` runs a chain until it ends or
  panics. The lemmas state the cursor state machine over any chain.

Cursor state machine (UNSET = `None`, SET(e) = `Some(e)`): `entity`,
`set_entity` and `spawn` go from either state to SET. `with`, `with_bundle`
and `for_current_entity` need SET and keep it. `spawn_batch` and
`current_entity` work in either state and keep it. Nothing returns the cursor
to UNSET.

## Model

| member | source | states |
|---|---|---|
| Builder.Build | crates/bevy_ecs/src/core/world_builder.rs:8-15 | a new builder wraps the given world and its cursor is unset |
| Builder.Entity | crates/bevy_ecs/src/core/world_builder.rs:25-28 | the cursor becomes exactly the id the world reserved, from either state; the world gains that id with no components and nothing else changes |
| Builder.SetEntity | crates/bevy_ecs/src/core/world_builder.rs:30-33 | the cursor becomes the given id unconditionally, with no validation; the world is unchanged |
| Builder.With | crates/bevy_ecs/src/core/world_builder.rs:35-43 | needs a set cursor on an entity the world knows (else the source panics); the world's insert at the cursor's entity succeeds and is the new world; only that entity's row changes, by that one component; the cursor is unchanged |
| Builder.WithBundle | crates/bevy_ecs/src/core/world_builder.rs:45-50 | as `With`, for a whole bundle inserted at the cursor's entity |
| Builder.SpawnBatch | crates/bevy_ecs/src/core/world_builder.rs:52-59 | the whole bundle sequence goes to the world; the i-th new entity carries the i-th bundle; existing entities keep their rows; the cursor is unchanged |
| Builder.Spawn | crates/bevy_ecs/src/core/world_builder.rs:61-64 | the cursor becomes the id the world spawned, whatever it was before; that entity carries exactly the bundle's components; existing entities keep their rows |
| Builder.CurrentEntity | crates/bevy_ecs/src/core/world_builder.rs:66-69 | returns the cursor in either state, with no effect |
| Builder.ForCurrentEntity | crates/bevy_ecs/src/core/world_builder.rs:71-77 | needs a set cursor; the callback gets the cursor's entity; the builder and its world come back unchanged |
| Builder.WithCommutes | crates/bevy_ecs/src/core/world_builder.rs:35-43 | two `with` calls with components of different types give the same builder in either order |
| Builder.WithIsWithBundle | crates/bevy_ecs/src/core/world_builder.rs:35-50 | `with(c)` has the same effect as `with_bundle` of the one-component bundle |
| Builder.EntityWithBundleIsSpawn | crates/bevy_ecs/src/core/world_builder.rs:25-64 | `entity()` then `with_bundle(b)` gives the same builder as `spawn(b)` when the world hands out the same id |
| Builder.EntityWithWith | crates/bevy_ecs/src/core/world_builder.rs:25-43 | `entity().with(a).with(c)` leaves one new entity carrying exactly `a` and `c`, the cursor on it, and the same result in either order when the types differ |
| Store.Attach | crates/bevy_ecs/src/core/world_builder.rs:45-48 | attaching a bundle gives each type the value of the bundle's last component of that type, and keeps every other type of the row as it was |
| Store.Reserve | crates/bevy_ecs/src/core/world_builder.rs:26 | the world's `reserve_entity`, as assumed: the fresh id becomes known with no components, and other rows are untouched |
| Store.InsertOne | crates/bevy_ecs/src/core/world_builder.rs:39-41 | the world's `insert_one`, as assumed: fails exactly when the entity is unknown, with that entity in the error; otherwise changes only that entity's row |
| Store.Insert | crates/bevy_ecs/src/core/world_builder.rs:46-48 | the world's `insert`, as assumed: fails exactly when the entity is unknown; otherwise attaches the bundle to that entity's row only |
| Store.Spawn | crates/bevy_ecs/src/core/world_builder.rs:62 | the world's `spawn`, as assumed: one new entity carrying the bundle, other rows untouched |
| Store.SpawnBatch | crates/bevy_ecs/src/core/world_builder.rs:57 | the world's `spawn_batch`, as assumed: one new entity per bundle, the i-th carrying the i-th bundle, existing rows untouched |
| Store.InsertOneIsInsert | crates/bevy_ecs/src/core/world_builder.rs:39-48 | inserting one component is inserting the one-element bundle |
| Store.SpawnIsReserveThenInsert | crates/bevy_ecs/src/core/world_builder.rs:26-62 | spawning a bundle is reserving the id and then inserting the bundle there |
| Chain.Step | crates/bevy_ecs/src/core/world_builder.rs:25-77 | a call panics exactly when it needs the cursor and the cursor is unset, or when it inserts at an entity the world does not know; the panic says which; otherwise the cursor follows the transition table and the known entities grow by exactly what the call reserves or spawns |
| Chain.Run | crates/bevy_ecs/src/core/world_builder.rs:24-78 | a chain only panics at a call that needs the cursor; a chain that completes leaves the world knowing exactly the entities it reserved or spawned |
| Chain.RunCursor | crates/bevy_ecs/src/core/world_builder.rs:24-78 | after any chain that completes, the cursor is the id set by the most recent `entity`, `set_entity` or `spawn`, or its value before the chain when there was none |
| Chain.MostRecentIsLastMove | crates/bevy_ecs/src/core/world_builder.rs:24-78 | when call `i` moves the cursor and no later call does, the most recent cursor value is the id call `i` names |
| Chain.MostRecentWithoutMoves | crates/bevy_ecs/src/core/world_builder.rs:24-78 | a chain with no cursor move keeps the starting cursor; from an unset start, the result is unset exactly when no call moves the cursor |
| Chain.BuiltChainCursor | crates/bevy_ecs/src/core/world_builder.rs:8-78 | on a freshly built builder, after a completed chain, `current_entity()` is unset exactly when no `entity`, `set_entity` or `spawn` was called, and otherwise is the id named by the last of them |
| Chain.MostRecentKeepsSet | crates/bevy_ecs/src/core/world_builder.rs:24-78 | once set, the cursor stays set after any chain |
| Chain.UnsetCursorPanics | crates/bevy_ecs/src/core/world_builder.rs:35-77 | with an unset cursor, the first `with`, `with_bundle` or `for_current_entity` before any cursor move halts the chain there with the unset-cursor panic, and no row of an entity the world already knew has changed |
| Chain.EntityTwice | crates/bevy_ecs/src/core/world_builder.rs:25-28 | `entity()` twice yields two distinct ids and the cursor ends on the second |
| Chain.UnknownEntityFails | crates/bevy_ecs/src/core/world_builder.rs:30-50 | `set_entity(e)` with an unknown id followed by `with` or `with_bundle` halts at the insertion with the world's "no such entity" failure for `e`, and the world is unchanged |

## Left out

- `World` internals: id allocation, archetypes, tables, and the bodies of `reserve_entity`, `insert_one`, `insert`, `spawn` and `spawn_batch`. The `Store` module states the contract the builder relies on. The freshness of the ids the world hands out is a precondition, not a proved fact.
- Store.Attach: a bundle with two components of the same type is modelled as "the later one wins". The real bundle machinery may reject such a bundle; that is a `World` concern outside this model.
- Store.SpawnBatch: the source takes any `IntoIterator` of bundles. It is modelled as a finite sequence, with the world's answers as a sequence of ids of the same length.
- Builder.ForCurrentEntity: the callback's side effects are not modelled. It is a pure function, so the contract shows which entity it receives, not that it runs exactly once. `Chain.Step` drops the callback's result.
- Rust lifetimes and the exclusive `&'a mut World` borrow are not modelled. The builder holds the world by value, and each operation returns the new builder. `#[derive(Debug)]` and `#[inline]` are not modelled either.
- The `Component`, `Bundle` and `DynamicBundle` trait machinery and generics are not modelled. A component is a (type, integer value) pair, and a bundle is a sequence of them.
- Panic messages are not modelled. `Chain.Panic` only says which of the two panics occurred.
- Store-reported failures are not returned to the caller as error values. The code calls `.unwrap()` on them, so they become a panic (world_builder.rs:41, 48). The model follows the code: `Builder.With` and `Builder.WithBundle` require a known entity, and `Chain.Step` reports `InsertFailed`.
