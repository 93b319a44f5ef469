/**
  Call chains on a `WorldBuilder`: a sequence of builder operations run one
  after another, where a panic is a value instead of an unmet `requires`.
  This states the builder's cursor state machine over whole chains: what the
  cursor is after any chain, and where and why a chain halts.
*/
module Chain {
  import opened Wrappers
  import Store
  import Builder

  /** One chained call. Operations for which the store chooses ids carry the
      store's answers (`reserved`, `spawned`). */
  datatype Op =
    | EntityOp(reserved: Store.Entity)
    | SetEntityOp(entity: Store.Entity)
    | WithOp(component: Store.Component)
    | WithBundleOp(bundle: Store.Bundle)
    | SpawnBatchOp(batch: seq<Store.Entity>, bundles: seq<Store.Bundle>)
    | SpawnOp(spawned: Store.Entity, bundle: Store.Bundle)
    | ForCurrentEntityOp

  /** Why a chain halts: `.expect` on an unset cursor, or `.unwrap()` on the
      store's insertion failure. */
  datatype Panic = CursorUnset | InsertFailed(cause: Store.NoSuchEntity)

  /** How a chain ends: every call returned, or call number `at` panicked
      while the store was `world` (the panicking call changed nothing). */
  datatype Outcome =
    | Done(builder: Builder.WorldBuilder)
    | Panicked(at: nat, reason: Panic, world: Store.World)

  /** The entity an operation points the cursor at, if it moves the cursor. */
  function SetsTo(op: Op): Option<Store.Entity>
  {
    match op
    case EntityOp(r) => Some(r)
    case SetEntityOp(e) => Some(e)
    case SpawnOp(s, _) => Some(s)
    case _ => None
  }

  /** The operations that panic on an unset cursor. */
  predicate NeedsCursor(op: Op)
  {
    op.WithOp? || op.WithBundleOp? || op.ForCurrentEntityOp?
  }

  /** The operations that insert at the cursor's entity. */
  predicate InsertsAtCursor(op: Op)
  {
    op.WithOp? || op.WithBundleOp?
  }

  /** The state machine's transition table for the cursor. */
  function CursorAfter(cur: Option<Store.Entity>, op: Op): Option<Store.Entity>
  {
    if SetsTo(op).Some? then SetsTo(op) else cur
  }

  /** Reference definition: the entity named by the most recent cursor-moving
      operation of `ops`, or `cur` when there is none. */
  function MostRecent(cur: Option<Store.Entity>, ops: seq<Op>): Option<Store.Entity>
    decreases |ops|
  {
    if |ops| == 0 then cur
    else if SetsTo(ops[|ops| - 1]).Some? then SetsTo(ops[|ops| - 1])
    else MostRecent(cur, ops[..|ops| - 1])
  }

  /** The store's answers in `op` are fresh for a store that knows `known`. */
  predicate AnswersFresh(known: set<Store.Entity>, op: Op)
  {
    match op
    case EntityOp(r) => r !in known
    case SpawnOp(s, _) => s !in known
    case SpawnBatchOp(ss, bs) => |ss| == |bs| && Store.FreshIds(known, ss)
    case _ => true
  }

  /** The entities the store knows after `op` returns normally. */
  function KnownAfter(known: set<Store.Entity>, op: Op): set<Store.Entity>
  {
    match op
    case EntityOp(r) => known + {r}
    case SpawnOp(s, _) => known + {s}
    case SpawnBatchOp(ss, _) => known + set e | e in ss
    case _ => known
  }

  /** Every store answer in the chain is fresh when it is given. */
  predicate Honest(known: set<Store.Entity>, ops: seq<Op>)
    decreases |ops|
  {
    |ops| == 0 || (AnswersFresh(known, ops[0]) && Honest(KnownAfter(known, ops[0]), ops[1..]))
  }

  /** The entities the store knows after the whole chain returns normally. */
  function KnownAlong(known: set<Store.Entity>, ops: seq<Op>): set<Store.Entity>
    decreases |ops|
  {
    if |ops| == 0 then known else KnownAlong(KnownAfter(known, ops[0]), ops[1..])
  }

  /** One chained call, panics included. It panics exactly when it needs the
      cursor and the cursor is unset, or when it inserts at an entity the
      store does not know; otherwise the cursor follows the transition table
      and the store gains exactly the entities the call spawns or reserves. */
  function Step(b: Builder.WorldBuilder, op: Op): (r: Result<Builder.WorldBuilder, Panic>)
    requires AnswersFresh(b.world.table.Keys, op)
    ensures r.Failure? <==>
      NeedsCursor(op) && (b.current.None? || (InsertsAtCursor(op) && b.current.value !in b.world.table))
    ensures r.Failure? && b.current.None? ==> r.error == CursorUnset
    ensures r.Failure? && b.current.Some? ==> r.error == InsertFailed(Store.NoSuchEntity(b.current.value))
    ensures r.Success? ==> r.value.current == CursorAfter(b.current, op)
    ensures r.Success? ==> r.value.world.table.Keys == KnownAfter(b.world.table.Keys, op)
    ensures r.Success? ==> forall e :: e in b.world.table && !(InsertsAtCursor(op) && Some(e) == b.current) ==>
      r.value.world.table[e] == b.world.table[e]
  {
    match op
    case EntityOp(r) => Success(Builder.Entity(b, r))
    case SetEntityOp(e) => Success(Builder.SetEntity(b, e))
    case WithOp(c) =>
      if b.current.None? then Failure(CursorUnset)
      else if Store.InsertOne(b.world, b.current.value, c).Failure? then
        Failure(InsertFailed(Store.InsertOne(b.world, b.current.value, c).error))
      else Success(Builder.With(b, c))
    case WithBundleOp(bundle) =>
      if b.current.None? then Failure(CursorUnset)
      else if Store.Insert(b.world, b.current.value, bundle).Failure? then
        Failure(InsertFailed(Store.Insert(b.world, b.current.value, bundle).error))
      else Success(Builder.WithBundle(b, bundle))
    case SpawnBatchOp(ss, bs) => Success(Builder.SpawnBatch(b, ss, bs))
    case SpawnOp(s, bundle) => Success(Builder.Spawn(b, s, bundle))
    case ForCurrentEntityOp =>
      if b.current.None? then Failure(CursorUnset)
      else Success(Builder.ForCurrentEntity(b, (e: Store.Entity) => e).0)
  }

  /** Runs a chain until it ends or a call panics. A panic only ever comes
      from a call that needs the cursor, and a chain that completes leaves
      the store knowing exactly the entities it reserved or spawned. */
  function Run(b: Builder.WorldBuilder, ops: seq<Op>): (o: Outcome)
    requires Honest(b.world.table.Keys, ops)
    ensures o.Panicked? ==> o.at < |ops| && NeedsCursor(ops[o.at])
    ensures o.Done? ==> o.builder.world.table.Keys == KnownAlong(b.world.table.Keys, ops)
    decreases |ops|
  {
    if |ops| == 0 then Done(b)
    else
      match Step(b, ops[0])
      case Failure(p) => Panicked(0, p, b.world)
      case Success(b1) => Later(Run(b1, ops[1..]))
  }

  /** The outcome of the rest of a chain, seen from one call earlier. */
  function Later(o: Outcome): Outcome
  {
    if o.Done? then o else o.(at := o.at + 1)
  }

  /** Moving the cursor before a chain is the same as prefixing the chain
      with that operation, as far as the most recent cursor move goes. */
  lemma {:induction false} MostRecentCons(cur: Option<Store.Entity>, op: Op, rest: seq<Op>)
    ensures MostRecent(CursorAfter(cur, op), rest) == MostRecent(cur, [op] + rest)
    decreases |rest|
  {
    var whole := [op] + rest;
    if |rest| == 0 {
      assert whole == [op];
      assert whole[..0] == [];
    } else {
      var n := |rest| - 1;
      assert whole[|whole| - 1] == rest[n];
      assert whole[..|whole| - 1] == [op] + rest[..n];
      MostRecentCons(cur, op, rest[..n]);
    }
  }

  /** After any chain that completes, the cursor is the entity set by the most
      recent `entity`, `set_entity` or `spawn`, or what it was before the
      chain when there was none: no other call changes it. */
  lemma {:induction false} RunCursor(b: Builder.WorldBuilder, ops: seq<Op>)
    requires Honest(b.world.table.Keys, ops)
    ensures Run(b, ops).Done? ==> Run(b, ops).builder.current == MostRecent(b.current, ops)
    decreases |ops|
  {
    if |ops| > 0 {
      var s := Step(b, ops[0]);
      if s.Success? {
        RunCursor(s.value, ops[1..]);
        MostRecentCons(b.current, ops[0], ops[1..]);
        assert [ops[0]] + ops[1..] == ops;
      }
    }
  }

  /** Call `i` is the last call of `ops` that moves the cursor. */
  predicate IsLastMove(ops: seq<Op>, i: int)
  {
    0 <= i < |ops| && SetsTo(ops[i]).Some? && forall j :: i < j < |ops| ==> SetsTo(ops[j]).None?
  }

  /** `MostRecent` names the last cursor move: when call `i` moves the cursor
      and no later call does, the result is the entity call `i` names. */
  lemma {:induction false} MostRecentIsLastMove(cur: Option<Store.Entity>, ops: seq<Op>, i: nat)
    requires IsLastMove(ops, i)
    ensures MostRecent(cur, ops) == SetsTo(ops[i])
    decreases |ops|
  {
    var n := |ops| - 1;
    if i < n {
      var front := ops[..n];
      assert front[i] == ops[i];
      assert forall j :: i < j < |front| ==> front[j] == ops[j];
      MostRecentIsLastMove(cur, front, i);
    }
  }

  /** Without any cursor move, `MostRecent` is the starting cursor; with an
      unset start, the result is unset exactly when no call moves the cursor. */
  lemma {:induction false} MostRecentWithoutMoves(cur: Option<Store.Entity>, ops: seq<Op>)
    ensures (forall i :: 0 <= i < |ops| ==> SetsTo(ops[i]).None?) ==> MostRecent(cur, ops) == cur
    ensures MostRecent(None, ops).None? <==> forall i :: 0 <= i < |ops| ==> SetsTo(ops[i]).None?
    decreases |ops|
  {
    if |ops| > 0 {
      var n := |ops| - 1;
      var front := ops[..n];
      assert forall i :: 0 <= i < |front| ==> front[i] == ops[i];
      MostRecentWithoutMoves(cur, front);
      MostRecentWithoutMoves(None, front);
      if SetsTo(ops[n]).None? && MostRecent(None, ops).None? {
        assert forall i :: 0 <= i < |ops| ==> SetsTo(ops[i]).None? by {
          forall i | 0 <= i < |ops|
            ensures SetsTo(ops[i]).None?
          {
            if i < n { assert front[i] == ops[i]; }
          }
        }
      }
    }
  }

  /** On a freshly built builder, the cursor after a completed chain, as
      `current_entity()` reports it, is unset exactly when no call of the
      chain moved it, and otherwise names the last call that did. */
  lemma BuiltChainCursor(w: Store.World, ops: seq<Op>)
    requires Honest(w.table.Keys, ops)
    requires Run(Builder.Build(w), ops).Done?
    ensures Builder.CurrentEntity(Run(Builder.Build(w), ops).builder).None? <==>
      forall i :: 0 <= i < |ops| ==> SetsTo(ops[i]).None?
    ensures forall i :: IsLastMove(ops, i) ==>
      Builder.CurrentEntity(Run(Builder.Build(w), ops).builder) == SetsTo(ops[i])
  {
    RunCursor(Builder.Build(w), ops);
    MostRecentWithoutMoves(None, ops);
    forall i | IsLastMove(ops, i)
      ensures MostRecent(None, ops) == SetsTo(ops[i])
    {
      MostRecentIsLastMove(None, ops, i as nat);
    }
  }

  /** A cursor once set is never cleared by any chain. */
  lemma {:induction false} MostRecentKeepsSet(cur: Option<Store.Entity>, ops: seq<Op>)
    requires cur.Some?
    ensures MostRecent(cur, ops).Some?
    decreases |ops|
  {
    if |ops| > 0 && SetsTo(ops[|ops| - 1]).None? {
      MostRecentKeepsSet(cur, ops[..|ops| - 1]);
    }
  }

  /** On a fresh builder (or any with an unset cursor), a chain whose first
      cursor-needing call comes before any cursor move (only batch spawns
      before it) halts at that call with `CursorUnset`, and no component of
      any entity the store knew was changed. */
  lemma {:induction false} UnsetCursorPanics(b: Builder.WorldBuilder, ops: seq<Op>, i: nat)
    requires Honest(b.world.table.Keys, ops)
    requires b.current.None?
    requires i < |ops| && NeedsCursor(ops[i])
    requires forall j :: 0 <= j < i ==> ops[j].SpawnBatchOp?
    ensures Run(b, ops).Panicked?
    ensures Run(b, ops).at == i && Run(b, ops).reason == CursorUnset
    ensures b.world.table.Keys <= Run(b, ops).world.table.Keys
    ensures forall e :: e in b.world.table ==> Run(b, ops).world.table[e] == b.world.table[e]
    decreases i
  {
    if i == 0 {
      UnsetCursorFirstPanics(b, ops);
    } else {
      BatchFirst(b, ops);
      var b1 := Builder.SpawnBatch(b, ops[0].batch, ops[0].bundles);
      var rest := ops[1..];
      assert forall j :: 0 <= j < i - 1 ==> rest[j] == ops[j + 1];
      UnsetCursorPanics(b1, rest, i - 1);
    }
  }

  /** A chain on an unset cursor whose first call needs the cursor halts at
      once, with the store as it was. */
  lemma UnsetCursorFirstPanics(b: Builder.WorldBuilder, ops: seq<Op>)
    requires Honest(b.world.table.Keys, ops)
    requires b.current.None?
    requires 0 < |ops| && NeedsCursor(ops[0])
    ensures Run(b, ops) == Panicked(0, CursorUnset, b.world)
  {
  }

  /** A chain that starts with `spawn_batch` never halts there: the rest of
      the chain runs on the builder `spawn_batch` returned. */
  lemma BatchFirst(b: Builder.WorldBuilder, ops: seq<Op>)
    requires Honest(b.world.table.Keys, ops)
    requires 0 < |ops| && ops[0].SpawnBatchOp?
    ensures |ops[0].batch| == |ops[0].bundles| && Store.FreshIds(b.world.table.Keys, ops[0].batch)
    ensures Honest(Builder.SpawnBatch(b, ops[0].batch, ops[0].bundles).world.table.Keys, ops[1..])
    ensures Run(b, ops) == Later(Run(Builder.SpawnBatch(b, ops[0].batch, ops[0].bundles), ops[1..]))
  {
    var b1 := Builder.SpawnBatch(b, ops[0].batch, ops[0].bundles);
    assert Step(b, ops[0]) == Success(b1);
  }

  /** `entity()` twice: two distinct ids, and the cursor ends at the second. */
  lemma EntityTwice(b: Builder.WorldBuilder, r1: Store.Entity, r2: Store.Entity)
    requires Honest(b.world.table.Keys, [EntityOp(r1), EntityOp(r2)])
    ensures r1 != r2
    ensures Run(b, [EntityOp(r1), EntityOp(r2)]).Done?
    ensures Run(b, [EntityOp(r1), EntityOp(r2)]).builder.current == Some(r2)
  {
    var ops := [EntityOp(r1), EntityOp(r2)];
    assert ops[1..] == [EntityOp(r2)];
    assert ops[1..][1..] == [];
    var b1 := Builder.Entity(b, r1);
    var b2 := Builder.Entity(b1, r2);
    assert Step(b, ops[0]) == Success(b1);
    assert Step(b1, ops[1..][0]) == Success(b2);
    assert Run(b2, ops[1..][1..]) == Done(b2);
    assert Run(b1, ops[1..]) == Done(b2);
  }

  /** `set_entity(e)` with an id the store does not know, then `with(c)` or
      `with_bundle(bundle)`: the store's "no such entity" failure halts the
      chain at the insertion; it does not succeed silently. */
  lemma UnknownEntityFails(b: Builder.WorldBuilder, e: Store.Entity, c: Store.Component, bundle: Store.Bundle)
    requires e !in b.world.table
    ensures Run(b, [SetEntityOp(e), WithOp(c)]) == Panicked(1, InsertFailed(Store.NoSuchEntity(e)), b.world)
    ensures Run(b, [SetEntityOp(e), WithBundleOp(bundle)]) == Panicked(1, InsertFailed(Store.NoSuchEntity(e)), b.world)
  {
  }
}
