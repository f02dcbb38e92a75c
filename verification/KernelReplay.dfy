/** The kernel's side of the comparison as a value: the trace replayed
    through the object manager, every count read off the manager. */
module KernelReplay {
  import opened Basics
  import opened Abi
  import opened MetaModel
  import opened StreamModel
  import opened Kernel

  datatype Replayed = Replayed(hits: nat, fetches: nat, bytes: nat, evicted: nat, refused: nat)

  const NOTHING := Replayed(0, 0, 0, 0, 0)

  /** `Report::total_faults`, saturating as it sums. */
  function TotalFaults(faults: seq<nat>): nat {
    if faults == [] then 0
    else SatAdd(TotalFaults(faults[..|faults| - 1]), faults[|faults| - 1], U32_MAX)
  }

  /** `step`: registers the object if the table has not heard of it and a
      slot is vacant, then consumes it once, counting by difference. */
  ghost function Step(s: State, vacant: nat, out: Replayed, w: World, model: ObjectId -> Meta, id: ObjectId, wanted: NextUse)
    : (r: (State, nat, Replayed))
    requires Counted(s)
    ensures Counted(r.0)
  {
    if id !in s.objects && vacant == 0 then (s, vacant, out.(refused := out.refused + 1))
    else
      var known := if id in s.objects then s else Register(s, id, model(id));
      var left := if id in s.objects then vacant else vacant - 1;
      var (t, got) := Consume(known, w, id, wanted);
      var counted := out.(evicted := out.evicted + SatSub(t.evictions, s.evictions));
      match got
      case Err(_) => (t, left, counted.(refused := out.refused + 1))
      case Ok(handle) =>
        if TotalFaults(t.faults) > TotalFaults(s.faults)
        then (t, left, counted.(fetches := out.fetches + 1, bytes := out.bytes + handle.size))
        else (t, left, counted.(hits := out.hits + 1))
  }

  /** The replay loop from position `at` on: the stream declared over the
      whole order, advanced by one an access. */
  ghost function ReplayFrom(s: State, vacant: nat, out: Replayed, w: World, model: ObjectId -> Meta,
                            objects: seq<ObjectId>, at: nat): (r: (State, Replayed))
    requires Counted(s)
    ensures Counted(r.0)
    decreases |objects| - at
  {
    if at >= |objects| then (s, out)
    else
      var (t, left, counted) := Step(s, vacant, out, w, model, objects[at], WantedAfter(objects, at, objects[at]));
      ReplayFrom(t, left, counted, w, model, objects, at + 1)
  }

  /** The first `n` accesses. */
  ghost function ReplayTo(s: State, vacant: nat, out: Replayed, w: World, model: ObjectId -> Meta,
                          objects: seq<ObjectId>, n: nat): (r: (State, nat, Replayed))
    requires Counted(s) && n <= |objects|
    ensures Counted(r.0)
  {
    if n == 0 then (s, vacant, out)
    else
      var (t, left, counted) := ReplayTo(s, vacant, out, w, model, objects, n - 1);
      Step(t, left, counted, w, model, objects[n - 1], WantedAfter(objects, n - 1, objects[n - 1]))
  }

  /** What is left of a replay after its first `n` accesses. */
  lemma {:induction false} ReplayedTo(s: State, vacant: nat, out: Replayed, w: World, model: ObjectId -> Meta,
                                      objects: seq<ObjectId>, n: nat)
    requires Counted(s) && n <= |objects|
    ensures var (t, left, counted) := ReplayTo(s, vacant, out, w, model, objects, n);
      ReplayFrom(t, left, counted, w, model, objects, n) == ReplayFrom(s, vacant, out, w, model, objects, 0)
  {
    hide Step, WantedAfter;
    if n > 0 { ReplayedTo(s, vacant, out, w, model, objects, n - 1); }
  }
}
