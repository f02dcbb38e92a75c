/** The simulator: a resident set kept as a vector with an index over it,
    above a real arena, and the replay loop that drives it. */
module Simulator {
  import opened Basics
  import opened Abi
  import opened MetaModel
  import opened Holes
  import opened ArenaModel
  import opened PolicyModel
  import opened StreamModel
  import opened Conservation
  import S = Simulation

  type Entries = seq<(ObjectId, Meta)>

  /** `index` says where each resident sits in `held`, and nothing else. */
  ghost predicate Indexed(held: Entries, index: map<ObjectId, nat>) {
    && (forall id :: id in index ==> index[id] < |held| && held[index[id]].0 == id)
    && (forall i :: 0 <= i < |held| ==> held[i].0 in index && index[held[i].0] == i)
  }

  ghost function AsMap(held: Entries, index: map<ObjectId, nat>): map<ObjectId, Meta>
    requires Indexed(held, index)
  {
    map id | id in index :: held[index[id]].1
  }

  /** `swap_remove`: the last entry takes the place of the one removed. */
  function SwapRemove(held: Entries, at: nat): Entries
    requires at < |held|
  {
    held[at := held[|held| - 1]][..|held| - 1]
  }

  /** The index after it: one id forgotten, the moved one pointed at. */
  function Reindexed(held: Entries, index: map<ObjectId, nat>, at: nat): map<ObjectId, nat>
    requires at < |held|
  {
    var rest := index - {held[at].0};
    if at + 1 < |held| then rest[held[|held| - 1].0 := at] else rest
  }

  lemma SwapRemoves(held: Entries, index: map<ObjectId, nat>, at: nat)
    requires Indexed(held, index) && at < |held|
    ensures Indexed(SwapRemove(held, at), Reindexed(held, index, at))
    ensures AsMap(SwapRemove(held, at), Reindexed(held, index, at)) == AsMap(held, index) - {held[at].0}
  {
    var last := |held| - 1;
    var after, where := SwapRemove(held, at), Reindexed(held, index, at);
    assert index[held[last].0] == last && index[held[at].0] == at;
    forall id | id in where ensures where[id] < |after| && after[where[id]] == held[index[id]] {}
    forall i | 0 <= i < |after| ensures after[i].0 in where && where[after[i].0] == i {
      assert after[i] == if i == at then held[last] else held[i];
    }
  }

  lemma Appends(held: Entries, index: map<ObjectId, nat>, id: ObjectId, m: Meta)
    requires Indexed(held, index) && id !in index
    ensures Indexed(held + [(id, m)], index[id := |held|])
    ensures AsMap(held + [(id, m)], index[id := |held|]) == AsMap(held, index)[id := m]
  {}

  lemma Writes(held: Entries, index: map<ObjectId, nat>, id: ObjectId, m: Meta)
    requires Indexed(held, index) && id in index
    ensures Indexed(held[index[id] := (id, m)], index)
    ensures AsMap(held[index[id] := (id, m)], index) == AsMap(held, index)[id := m]
  {}

  class Resident {
    var held: Entries
    var index: map<ObjectId, nat>
    const arena: Arena
    var cursor: nat

    ghost predicate Valid()
      reads this, arena, arena.free
    {
      arena.Valid() && Indexed(held, index) && Extents(arena.View(), AsMap(held, index)) && AllPlaced(AsMap(held, index))
    }

    ghost function View(): S.Residence
      reads this, arena, arena.free
      requires Indexed(held, index) && arena.free.Length == HOLES && arena.holes <= HOLES
    {
      S.Residence(AsMap(held, index), arena.View(), cursor)
    }

    constructor (base: nat, budget: nat)
      requires base > 0
      ensures Valid() && fresh(arena) && fresh(arena.free) && View() == S.Nothing(base, budget)
    {
      held, index, cursor := [], map[], 0;
      arena := new Arena(base, budget);
      new;
      EmptyValid(base, budget);
    }

    /** The policy's window: every entry, in vector order. */
    function Listed(): Listing
      reads this
    {
      seq(|held|, i requires 0 <= i < |held| reads this => Some(held[i]))
    }

    lemma ListedShows()
      requires Indexed(held, index)
      ensures Shows(Listed(), S.Window(AsMap(held, index)))
    {
      var w := S.Window(AsMap(held, index));
      forall id | id in w ensures exists i :: 0 <= i < |Listed()| && Listed()[i].Some? && Listed()[i].value.0 == id {
        assert Listed()[index[id]] == Some(held[index[id]]);
      }
    }

    /** A held object is marked used and its next use rewritten. */
    method Touch(id: ObjectId, now: nat, next: NextUse) returns (hit: bool)
      requires Valid()
      modifies this
      ensures Valid()
      ensures (View(), hit) == S.Touch(old(View()), id, now, next)
    {
      hide Extents, Region.Valid, Canonical;
      cursor := now;
      if id !in index {
        return false;
      }
      var at := index[id];
      var m := held[at].1;
      var touched := m.(usedTick := now, reuseCount := SatAdd(m.reuseCount, 1, U16_MAX), nextUse := next);
      Writes(held, index, id, touched);
      LayoutSame(arena.View(), AsMap(held, index), id, touched);
      held := held[at := (id, touched)];
      return true;
    }

    /** A new resident, or false if there is no run for it. */
    method Insert(id: ObjectId, meta: Meta, now: nat, next: NextUse) returns (placed: bool)
      requires Valid() && id !in View().held && meta.size > 0
      modifies this, arena, arena.free
      ensures Valid()
      ensures (View(), placed) == S.Insert(old(View()), id, meta, now, next)
    {
      hide Extents, Region.Valid, Canonical;
      ghost var was := View();
      cursor := now;
      var address := arena.Place(meta.size);
      if address.None? {
        return false;
      }
      var arrived := meta.(residentAt := address.value, placedTick := now, usedTick := now, nextUse := next,
                           reuseCount := SatAdd(meta.reuseCount, 1, U16_MAX));
      Appends(held, index, id, arrived);
      LayoutPlaced(was.region, was.held, id, arrived);
      index := index[id := |held|];
      held := held + [(id, arrived)];
      return true;
    }

    /** A resident leaves; on an error everything is as it was. */
    method Remove(id: ObjectId) returns (r: Result<nat>)
      requires Valid()
      modifies this, arena, arena.free
      ensures Valid()
      ensures match S.Remove(old(View()), id)
        case Ok(after) => r == Ok(old(View()).held[id].size) && View() == after
        case Err(why) => r == Err(why) && View() == old(View())
    {
      hide Extents, Region.Valid, Canonical, Region.Release, Region.Owned;
      if id !in index {
        return Err(BadObject);
      }
      ghost var was := View();
      var at := index[id];
      var meta := held[at].1;
      Owns(was.region, was.held, id);
      var released := arena.Release(meta.residentAt, meta.size);
      if released.Err? {
        return Err(released.why);
      }
      Leaves(was.region, was.held, id);
      SwapRemoves(held, index, at);
      var last := held[|held| - 1].0;
      var moved := at + 1 < |held|;
      held := SwapRemove(held, at);
      index := index - {id};
      if moved {
        index := index[last := at];
      }
      return Ok(meta.size);
    }

    /** One turn of the loop: evicts a victim, or says why there is none to
        evict -- the bytes fit, the policy names none, or it is refused. */
    method EvictOne(policy: Rule, size: nat) returns (evicted: bool)
      requires Valid()
      modifies this, arena, arena.free
      ensures Valid()
      ensures !evicted ==> View() == old(View()) && S.MakeRoom(View(), PickOf(policy), size) == (View(), 0)
      ensures evicted ==> |View().held| < |old(View()).held|
      ensures evicted ==> var (t, n) := S.MakeRoom(View(), PickOf(policy), size);
        S.MakeRoom(old(View()), PickOf(policy), size) == (t, n + 1)
    {
      hide Extents, Region.Valid, Canonical, S.Remove, Indexed, AllPlaced;
      ghost var was := View();
      var largest := arena.LargestRun();
      if largest >= Round(size) {
        return false;
      }
      ListedShows();
      var victim := Choose(policy, Listed(), S.Window(AsMap(held, index)), cursor, size);
      if victim.None? {
        return false;
      }
      var removed := Remove(victim.value);
      if removed.Err? {
        return false;
      }
      S.RemoveShrinks(was, victim.value);
      return true;
    }

    /** The simulator's loop of victims, and how many there were. */
    method MakeRoom(policy: Rule, size: nat) returns (evicted: nat)
      requires Valid()
      modifies this, arena, arena.free
      ensures Valid()
      ensures (View(), evicted) == S.MakeRoom(old(View()), PickOf(policy), size)
    {
      hide Extents, Region.Valid, Canonical, S.MakeRoom, Indexed, AllPlaced;
      evicted := 0;
      while true
        invariant Valid()
        invariant var (t, n) := S.MakeRoom(View(), PickOf(policy), size);
          (t, n + evicted) == S.MakeRoom(old(View()), PickOf(policy), size)
        decreases |View().held|
      {
        var one := EvictOne(policy, size);
        if !one {
          return;
        }
        evicted := evicted + 1;
      }
    }
  }

  ghost predicate AllPlaced(objects: Objects) { forall id :: id in objects ==> objects[id].Resident() }

  lemma Owns(r: Region, objects: Objects, id: ObjectId)
    requires Extents(r, objects) && id in objects && objects[id].Resident()
    ensures r.Owned(objects[id].residentAt, objects[id].size)
  {}

  /** A resident that leaves the set altogether. */
  lemma Leaves(r: Region, objects: Objects, id: ObjectId)
    requires Extents(r, objects) && id in objects && objects[id].Resident()
    requires r.Release(objects[id].residentAt, objects[id].size).Ok?
    ensures Extents(r.Release(objects[id].residentAt, objects[id].size).value, objects - {id})
  {
    var gone := objects[id].(residentAt := 0);
    assert objects[id].size > 0;
    LayoutEvicted(r, objects, id, gone);
    LayoutForgotten(r.Release(objects[id].residentAt, objects[id].size).value, objects[id := gone], id);
    assert objects[id := gone] - {id} == objects - {id};
  }

  // ----- one replay -----

  /** Chains the whole trace; its own buffers are always large enough. */
  method Foresee(objects: seq<ObjectId>) returns (next: seq<nat>)
    requires |objects| <= U32_MAX
    ensures Chained(objects, next)
  {
    var into := new nat[|objects|](_ => NEVER);
    var seen := new (ObjectId, nat)[|objects|](_ => (0, 0));
    DistinctAtMost(objects, 0);
    var r := Chain(objects, into, seen);
    next := into[..];
  }

  lemma {:induction false} DistinctAtMost(objects: seq<ObjectId>, from: nat)
    requires from <= |objects|
    ensures |Distinct(objects, from)| <= |objects| - from
    decreases |objects| - from
  {
    if from < |objects| {
      DistinctAtMost(objects, from + 1);
      DistinctGrows(objects, from);
    } else {
      assert Distinct(objects, from) == {};
    }
  }

  /** One access: a hit, or room made and the object placed, or a refusal. */
  method Step(resident: Resident, out: S.Outcome, model: ObjectId -> Option<Meta>, policy: Rule, next: seq<nat>,
              id: ObjectId, now: nat) returns (counted: S.Outcome)
    requires resident.Valid() && (model(id).Some? ==> model(id).value.size > 0)
    modifies resident, resident.arena, resident.arena.free
    ensures resident.Valid()
    ensures (resident.View(), counted)
      == S.Step(old(resident.View()), out, S.Setting(model, PickOf(policy), next), id, now)
  {
    hide Extents, Region.Valid, Canonical, S.Fetch, Indexed, AllPlaced;
    var found := model(id);
    if found.None? {
      return out.(mismatched := out.mismatched + 1);
    }
    var wanted := S.WantedAt(next, now);
    var hit := resident.Touch(id, now, wanted);
    if hit {
      return out.(hits := out.hits + 1);
    }
    counted := Fetch(resident, out, policy, id, found.value, now, wanted);
  }

  /** An object that is not held: victims first, then a placement or a refusal. */
  method Fetch(resident: Resident, out: S.Outcome, policy: Rule, id: ObjectId, meta: Meta, now: nat, next: NextUse)
    returns (counted: S.Outcome)
    requires resident.Valid() && id !in resident.View().held && meta.size > 0
    modifies resident, resident.arena, resident.arena.free
    ensures resident.Valid()
    ensures (resident.View(), counted) == S.Fetch(old(resident.View()), out, PickOf(policy), id, meta, now, next)
  {
    hide Extents, Region.Valid, Canonical, S.MakeRoom, S.Insert, Indexed, AllPlaced;
    MakeRoomOnlyRemoves(resident.View(), PickOf(policy), meta.size);
    var evicted := resident.MakeRoom(policy, meta.size);
    counted := out.(evicted := out.evicted + evicted);
    var placed := resident.Insert(id, meta, now, next);
    if !placed {
      return counted.(refused := counted.refused + 1);
    }
    return counted.(fetches := counted.fetches + 1, bytes := counted.bytes + meta.size,
                    cost := counted.cost + meta.reloadCost);
  }

  lemma {:induction false} MakeRoomOnlyRemoves(r: S.Residence, pick: Pick, size: nat)
    ensures S.MakeRoom(r, pick, size).0.held.Keys <= r.held.Keys
    decreases |r.held|
  {
    var v := pick(S.Window(r.held), r.cursor, size);
    if !r.region.Fits(size) && v.Some? && S.Remove(r, v.value).Ok? {
      S.RemoveShrinks(r, v.value);
      MakeRoomOnlyRemoves(S.Remove(r, v.value).value, pick, size);
    }
  }

  /** The whole trace, from an empty arena of `budget` bytes. */
  method Replay(objects: seq<ObjectId>, model: ObjectId -> Option<Meta>, policy: Rule, base: nat, budget: nat)
    returns (out: S.Outcome, ghost next: seq<nat>)
    requires |objects| <= U32_MAX && base > 0
    requires forall id: ObjectId :: model(id).Some? ==> model(id).value.size > 0
    ensures Chained(objects, next)
    ensures out == S.Replay(S.Setting(model, PickOf(policy), next), objects, base, budget)
  {
    var chain := Foresee(objects);
    next := chain;
    ghost var run := S.Setting(model, PickOf(policy), chain);
    var resident := new Resident(base, budget);
    out := S.NOTHING;
    var at := 0;
    while at < |objects|
      invariant at <= |objects| && resident.Valid() && fresh(resident) && fresh(resident.arena) && fresh(resident.arena.free)
      invariant S.ReplayFrom(resident.View(), out, run, objects, at).1 == S.Replay(run, objects, base, budget)
    {
      out := Step(resident, out, model, policy, chain, objects[at], at + 1);
      at := at + 1;
    }
  }
}
