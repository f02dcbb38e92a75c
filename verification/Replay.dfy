/** Replaying a declared order inside the kernel, counting only what the
    manager did. */
module Replay {
  import opened Basics
  import opened Abi
  import opened MetaModel
  import opened ArenaModel
  import opened TableModel
  import opened StreamModel
  import opened Conservation
  import opened ManagerModel
  import K = Kernel
  import R = KernelReplay
  import Simulator

  /** `Report::total_faults`. */
  method TotalFaults(faults: seq<nat>) returns (total: nat)
    ensures total == R.TotalFaults(faults)
  {
    total := 0;
    for at := 0 to |faults|
      invariant total == R.TotalFaults(faults[..at])
    {
      assert faults[..at + 1][..at] == faults[..at];
      total := SatAdd(total, faults[at], U32_MAX);
    }
    assert faults[..|faults|] == faults;
  }

  /** An entry for `id`, unless the table has one. */
  method Known(held: Manager, model: ObjectId -> Meta, id: ObjectId) returns (known: bool)
    requires held.Valid() && NoTombstones(held.table.slots[..])
    requires model(id).size > 0 && !model(id).Resident()
    modifies held.table, held.table.slots
    ensures held.Valid() && NoTombstones(held.table.slots[..])
    ensures known <==> id in old(held.table.contents) || old(Vacancies(held.table.slots[..])) > 0
    ensures !known || id in old(held.table.contents) ==>
      held.View() == old(held.View()) && Vacancies(held.table.slots[..]) == old(Vacancies(held.table.slots[..]))
    ensures known && id !in old(held.table.contents) ==>
      held.View() == K.Register(old(held.View()), id, model(id))
      && Vacancies(held.table.slots[..]) == old(Vacancies(held.table.slots[..])) - 1
  {
    hide Extents, Represents, Region.Valid;
    ghost var was := held.table.slots[..];
    var found := held.table.Get(id);
    if found.Some? {
      return true;
    }
    var registered := held.Register(id, model(id));
    assert registered.Err? ==> held.table.slots[..] == was;
    return registered.Ok?;
  }

  /** One access; whether it read, and how many it evicted, is how far the
      manager's counters moved. */
  method Step(held: Manager, out: R.Replayed, model: ObjectId -> Meta, id: ObjectId) returns (counted: R.Replayed)
    requires held.Valid() && NoTombstones(held.table.slots[..])
    requires model(id).size > 0 && !model(id).Resident()
    modifies held.Footprint()
    ensures held.Valid() && NoTombstones(held.table.slots[..]) && held.policy == old(held.policy)
    ensures (held.View(), Vacancies(held.table.slots[..]), counted)
      == R.Step(old(held.View()), old(Vacancies(held.table.slots[..])), out, old(held.Outside()), model, id,
           WantedAfter(held.stream.declared, held.stream.cursor, id))
  {
    hide Extents, Represents, Region.Valid, K.Consume, Decodes, SameFrom, NoTombstones, R.TotalFaults, K.Register;
    var known := Known(held, model, id);
    if !known {
      return out.(refused := out.refused + 1);
    }
    ghost var slots := held.table.slots[..];
    var faults := TotalFaults(held.faults);
    var evictions := held.evictions;
    var outcome := held.Consume(id);
    SameVacancies(slots, held.table.slots[..]);
    var faultsNow := TotalFaults(held.faults);
    counted := out.(evicted := out.evicted + SatSub(held.evictions, evictions));
    match outcome {
      case Ok(handle) =>
        if faultsNow > faults {
          counted := counted.(fetches := counted.fetches + 1, bytes := counted.bytes + handle.size);
        } else {
          counted := counted.(hits := counted.hits + 1);
        }
      case Err(_) =>
        counted := counted.(refused := counted.refused + 1);
    }
  }

  /** A whole trace through the manager, its future declared beforehand. */
  method Replay(held: Manager, objects: seq<ObjectId>, model: ObjectId -> Meta) returns (out: R.Replayed)
    requires held.Valid() && NoTombstones(held.table.slots[..]) && |objects| < U32_MAX
    requires forall id: ObjectId :: model(id).size > 0 && !model(id).Resident()
    modifies held.Footprint(), held.stream
    ensures held.Valid() && held.policy == old(held.policy)
    ensures (held.View(), out)
      == R.ReplayFrom(old(held.View()), old(Vacancies(held.table.slots[..])), R.NOTHING, old(held.Outside()), model, objects, 0)
  {
    hide Extents, Represents, Region.Valid, Decodes, R.Step;
    var next := Simulator.Foresee(objects);
    var declared := held.stream.Declare(objects, next);
    out := R.NOTHING;
    var at := 0;
    while at < |objects|
      invariant at <= |objects| && held.Valid() && NoTombstones(held.table.slots[..])
      invariant held.policy == old(held.policy)
      invariant held.stream.declared == objects && held.stream.cursor == at
      invariant R.ReplayFrom(held.View(), Vacancies(held.table.slots[..]), out, held.Outside(), model, objects, at)
        == R.ReplayFrom(old(held.View()), old(Vacancies(held.table.slots[..])), R.NOTHING, old(held.Outside()), model, objects, 0)
    {
      out := Step(held, out, model, objects[at]);
      held.stream.Advance(1);
      at := at + 1;
    }
  }
}
