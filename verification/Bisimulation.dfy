/** Two implementations of one machine: the kernel's replay and the simulator's
    keep in step, and so count alike, for every trace, policy and budget. */
module Bisimulation {
  import opened Basics
  import opened Abi
  import opened MetaModel
  import opened ArenaModel
  import opened SessionModel
  import opened PolicyModel
  import opened StreamModel
  import K = Kernel
  import S = Simulation
  import R = KernelReplay

  /** The two arenas hold the same runs free, each from its own base. */
  ghost predicate SameRegion(k: Region, s: Region) {
    k.free == s.free && k.capacity == s.capacity && k.used == s.used
  }

  /** A resident as the kernel records it and as the simulator does: alike in
      everything a policy sees, at the same offset. */
  ghost predicate SameResident(kb: nat, m: Meta, sb: nat, n: Meta) {
    && See(m) == See(n) && m.residentAt >= kb && n.residentAt >= sb && m.residentAt - kb == n.residentAt - sb
  }

  /** Free list, resident set, ticks and next uses agree. */
  ghost predicate Agree(k: K.State, s: S.Residence) {
    && K.Counted(k) && k.region.base > 0
    && SameRegion(k.region, s.region)
    && (forall id :: id in s.held <==> id in k.objects && k.objects[id].Resident())
    && forall id :: id in s.held ==> SameResident(k.region.base, k.objects[id], s.region.base, s.held[id])
  }

  lemma WindowsAgree(k: K.State, s: S.Residence)
    requires Agree(k, s)
    ensures Residents(k.objects) == S.Window(s.held)
  {}

  // ----- eviction -----

  lemma EvictAgrees(k: K.State, s: S.Residence, id: ObjectId)
    requires Agree(k, s) && (id in s.held ==> ClassOf(id).Some?)
    ensures K.Evict(k, id).1.Ok? <==> S.Remove(s, id).Ok?
    ensures S.Remove(s, id).Ok? ==> Agree(K.Evict(k, id).0, S.Remove(s, id).value)
    ensures S.Remove(s, id).Ok? ==> var t := K.Evict(k, id).0; t.evictions == k.evictions + 1 && t.clock == k.clock
    ensures S.Remove(s, id).Err? ==> K.Evict(k, id).0 == k
  {}

  lemma FitsAgree(k: K.State, s: S.Residence, size: nat)
    requires Agree(k, s)
    ensures K.Counted(k) && k.region.Fits(size) == s.region.Fits(size)
  {}

  /** Both loops evict the same victims, stop for the same reason and leave
      the same arena. */
  lemma {:induction false} MakeRoomAgrees(k: K.State, s: S.Residence, pick: Pick, size: nat)
    requires Agree(k, s) && k.clock == s.cursor && forall id :: id in s.held ==> ClassOf(id).Some?
    ensures var t := K.MakeRoom(k, pick, size);
      var (u, n) := S.MakeRoom(s, pick, size);
      && Agree(t, u) && t.evictions == k.evictions + n && u.cursor == s.cursor
      && forall id :: id in u.held ==> id in s.held
    decreases |s.held|
  {
    hide Agree, K.Evict;
    FitsAgree(k, s, size);
    WindowsAgree(k, s);
    var v := pick(S.Window(s.held), s.cursor, size);
    if !s.region.Fits(size) && v.Some? {
      EvictAgrees(k, s, v.value);
      if S.Remove(s, v.value).Ok? {
        S.RemoveShrinks(s, v.value);
        K.EvictShrinks(k, v.value);
        MakeRoomAgrees(K.Evict(k, v.value).0, S.Remove(s, v.value).value, pick, size);
      }
    }
  }

  // ----- one access -----

  /** What the model says of an object, as the kernel registers it: sized,
      nowhere, held by nobody. */
  ghost predicate Blank(m: Meta) { m.size > 0 && !m.Resident() && m.shareCount == 0 }

  /** The table's entry for an object still is the model's in all that
      registration fixed. */
  ghost predicate Modelled(m: Meta, n: Meta) {
    && m.size == n.size && m.reloadCost == n.reloadCost && m.recomputeCost == n.recomputeCost
    && m.provider == n.provider && m.owner == n.owner && m.shareCount == 0
  }

  /** What the comparison assumes of the machine around the two: classes that
      decode, providers attached and readable. */
  ghost predicate Served(w: K.World, model: ObjectId -> Meta, id: ObjectId) {
    Blank(model(id)) && ClassOf(id).Some? && model(id).provider in w.attached && w.read(id).Ok?
  }

  /** No session has a ceiling: what a replayed trace runs under. */
  ghost predicate NoCeilings(slots: Slots) {
    forall i :: 0 <= i < |slots| && slots[i].Some? ==> slots[i].value.contract.residentCeiling == 0
  }

  /** The invariant of the comparison. */
  ghost predicate InStep(k: K.State, s: S.Residence, w: K.World, model: ObjectId -> Meta) {
    && Agree(k, s) && k.clock == s.cursor && NoCeilings(k.sessions)
    && (forall id :: id in k.objects ==> Modelled(k.objects[id], model(id)) && Served(w, model, id))
    && SumSeq(k.faults) <= k.clock
  }

  lemma NoCeilingsCharge(slots: Slots, owner: SessionId, size: nat, precision: Precision)
    requires NoCeilings(slots)
    ensures Charge(slots, owner, size, precision).Ok?
    ensures NoCeilings(Charge(slots, owner, size, precision).value)
  {}

  lemma NoCeilingsEvict(k: K.State, id: ObjectId)
    requires K.Counted(k) && NoCeilings(k.sessions)
    ensures NoCeilings(K.Evict(k, id).0.sessions)
  {}

  lemma EvictLeaves(k: K.State, id: ObjectId, model: ObjectId -> Meta)
    requires K.Counted(k) && NoCeilings(k.sessions)
    requires forall j :: j in k.objects ==> Modelled(k.objects[j], model(j))
    ensures var t := K.Evict(k, id).0;
      && NoCeilings(t.sessions) && t.objects.Keys == k.objects.Keys
      && (forall j :: j in t.objects ==> Modelled(t.objects[j], model(j)))
      && t.faults == k.faults && t.clock == k.clock && t.region.base == k.region.base
  {
    NoCeilingsEvict(k, id);
  }

  /** What making room leaves as it was in the kernel. */
  lemma {:induction false} MakeRoomLeaves(k: K.State, pick: Pick, size: nat, model: ObjectId -> Meta)
    requires K.Counted(k) && NoCeilings(k.sessions)
    requires forall id :: id in k.objects ==> Modelled(k.objects[id], model(id))
    ensures var t := K.MakeRoom(k, pick, size);
      && NoCeilings(t.sessions) && t.objects.Keys == k.objects.Keys
      && (forall id :: id in t.objects ==> Modelled(t.objects[id], model(id)))
      && t.faults == k.faults && t.clock == k.clock && t.region.base == k.region.base
    decreases |K.ResidentIds(k.objects)|
  {
    hide K.Evict, Modelled, NoCeilings;
    var v := pick(Residents(k.objects), k.clock, size);
    if !k.region.Fits(size) && v.Some? {
      EvictLeaves(k, v.value, model);
      if K.Evict(k, v.value).1.Ok? {
        K.EvictShrinks(k, v.value);
        MakeRoomLeaves(K.Evict(k, v.value).0, pick, size, model);
      }
    }
  }

  /** A hit, with the lease taken and given back. */
  lemma HitAgrees(k: K.State, s: S.Residence, w: K.World, model: ObjectId -> Meta, id: ObjectId, wanted: NextUse)
    requires InStep(k, s, w, model) && id in s.held && k.clock < U32_MAX
    ensures var (t, r) := K.Consume(k, w, id, wanted);
      && r.Ok? && InStep(t, S.Touch(s, id, s.cursor + 1, wanted).0, w, model)
      && t.evictions == k.evictions && t.faults == k.faults && t.objects.Keys == k.objects.Keys
  {
    var m := k.objects[id];
    var t := K.Consume(k, w, id, wanted).0;
    var u := S.Touch(s, id, s.cursor + 1, wanted).0;
    assert t.objects == k.objects[id := K.Touched(m, k.clock + 1, K.Streaming, wanted).(shareCount := 0)];
    forall j | j in u.held ensures SameResident(t.region.base, t.objects[j], u.region.base, u.held[j]) {
      assert SameResident(k.region.base, k.objects[j], s.region.base, s.held[j]);
    }
  }

  /** The simulator's side of a miss. */
  ghost function Fetch(s: S.Residence, pick: Pick, id: ObjectId, meta: Meta, now: nat, next: NextUse)
    : (S.Residence, bool, nat)
  {
    var (roomy, n) := S.MakeRoom(s.(cursor := now), pick, meta.size);
    var (u, placed) := S.Insert(roomy, id, meta, now, next);
    (u, placed, n)
  }

  /** The kernel once a miss has been charged and room made for it. */
  ghost function Roomy(k: K.State, w: K.World, m: Meta): K.State
    requires K.Counted(k) && NoCeilings(k.sessions)
    ensures K.Counted(Roomy(k, w, m))
  {
    NoCeilingsCharge(k.sessions, m.owner, m.size, m.precision);
    K.MakeRoom(K.Tick(k).(sessions := Charge(k.sessions, m.owner, m.size, m.precision).value), w.pick, m.size)
  }

  /** Charging and making room keep the two in step, the tick apart. */
  lemma RoomyAgrees(k: K.State, s: S.Residence, w: K.World, model: ObjectId -> Meta, id: ObjectId)
    requires InStep(k, s, w, model) && k.clock < U32_MAX && id in k.objects && !k.objects[id].Resident()
    ensures var m := k.objects[id];
      var t := Roomy(k, w, m);
      var (u, n) := S.MakeRoom(s.(cursor := s.cursor + 1), w.pick, m.size);
      && InStep(t, u, w, model) && id in t.objects && id !in u.held
      && t.evictions == k.evictions + n && t.objects.Keys == k.objects.Keys
      && t.faults == k.faults && t.clock == k.clock + 1
  {
    var m := k.objects[id];
    NoCeilingsCharge(k.sessions, m.owner, m.size, m.precision);
    var paid := K.Tick(k).(sessions := Charge(k.sessions, m.owner, m.size, m.precision).value);
    var ticked := s.(cursor := s.cursor + 1);
    assert Agree(paid, ticked);
    MakeRoomAgrees(paid, ticked, w.pick, m.size);
    MakeRoomLeaves(paid, w.pick, m.size, model);
  }

  /** The manager with `id` placed at `address`, its lease taken and given
      back. */
  function Arrive(t: K.State, id: ObjectId, address: nat, region: Region, wanted: NextUse): K.State
    requires K.Counted(t) && id in t.objects && ClassOf(id).Some?
  {
    t.(region := region, held := K.HeldPlus(t.held, ClassOf(id).value, t.objects[id].size),
       objects := t.objects[id := K.Arrived(t.objects[id], address, t.clock, K.Speculative, wanted)])
  }

  /** The two placements agree, and what they record. */
  lemma PlacementAgrees(t: K.State, u: S.Residence, w: K.World, model: ObjectId -> Meta, id: ObjectId, wanted: NextUse)
    requires InStep(t, u, w, model) && id in t.objects && id !in u.held
    ensures t.region.Place(model(id).size).Some? <==> S.Insert(u, id, model(id), u.cursor, wanted).1
    ensures !S.Insert(u, id, model(id), u.cursor, wanted).1 ==> S.Insert(u, id, model(id), u.cursor, wanted).0 == u
    ensures t.region.Place(model(id).size).Some? ==>
      var (address, region) := t.region.Place(model(id).size).value;
      InStep(Arrive(t, id, address, region, wanted), S.Insert(u, id, model(id), u.cursor, wanted).0, w, model)
  {
    if t.region.Place(model(id).size).Some? {
      var (address, region) := t.region.Place(model(id).size).value;
      var c := Arrive(t, id, address, region, wanted);
      var b := S.Insert(u, id, model(id), u.cursor, wanted).0;
      ArrivalAgrees(t, u, w, model, id, wanted);
      forall j | j in b.held ensures SameResident(c.region.base, c.objects[j], b.region.base, b.held[j]) {
        if j != id { assert SameResident(t.region.base, t.objects[j], u.region.base, u.held[j]); }
      }
    }
  }

  lemma ArrivalAgrees(t: K.State, u: S.Residence, w: K.World, model: ObjectId -> Meta, id: ObjectId, wanted: NextUse)
    requires InStep(t, u, w, model) && id in t.objects && id !in u.held
    requires t.region.Place(model(id).size).Some?
    ensures var (address, region) := t.region.Place(model(id).size).value;
      var c := Arrive(t, id, address, region, wanted);
      var b := S.Insert(u, id, model(id), u.cursor, wanted).0;
      && id in b.held && SameRegion(c.region, b.region) && c.region.base == t.region.base && b.region.base == u.region.base
      && SameResident(c.region.base, c.objects[id], b.region.base, b.held[id]) && c.objects[id].Resident()
  {}

  lemma {:induction false} TotalIsSum(faults: seq<nat>)
    ensures R.TotalFaults(faults) == Min(SumSeq(faults), U32_MAX)
    ensures SumSeq(faults) >= 0
  {
    if faults != [] {
      var n := |faults| - 1;
      TotalIsSum(faults[..n]);
      assert faults == faults[..n] + [faults[n]];
      SumSeqAppend(faults[..n], [faults[n]]);
      assert SumSeq([faults[n]]) == faults[n] by { assert [faults[n]][1..] == []; }
    }
  }

  lemma {:induction false} EachAtMostSum(faults: seq<nat>, i: nat)
    requires i < |faults|
    ensures faults[i] <= SumSeq(faults)
  {
    TotalIsSum(faults[1..]);
    if i > 0 { EachAtMostSum(faults[1..], i - 1); }
  }

  /** The miss path, spelled out for an object that is not resident. */
  lemma ConsumeIs(k: K.State, s: S.Residence, w: K.World, model: ObjectId -> Meta, id: ObjectId, wanted: NextUse)
    requires InStep(k, s, w, model) && k.clock < U32_MAX && id in k.objects && id !in s.held
    requires var t := Roomy(k, w, k.objects[id]);
      id in t.objects && t.objects[id].size == k.objects[id].size && t.region.base > 0
    ensures var m := k.objects[id];
      var t := Roomy(k, w, m);
      K.Consume(k, w, id, wanted) ==
        match t.region.Place(m.size)
        case None => (t.(sessions := Credit(t.sessions, m.owner, m.size)), Err(NoBudget))
        case Some((address, region)) =>
          var a, i := Arrive(t, id, address, region, wanted), Index(ClassOf(id).value);
          (a.(faults := a.faults[i := SatAdd(a.faults[i], 1, U32_MAX)]), Ok(K.Handle(id, address, m.size)))
  {
    hide Credit, K.MakeRoom;
    var m := k.objects[id];
    NoCeilingsCharge(k.sessions, m.owner, m.size, m.precision);
    var t := Roomy(k, w, m);
    if t.region.Place(m.size).Some? {
      var (address, region) := t.region.Place(m.size).value;
      var a := Arrive(t, id, address, region, wanted);
      assert a.objects == t.objects[id := K.Arrived(t.objects[id], address, t.clock, K.Streaming, wanted)]
                                   [id := K.Arrived(t.objects[id], address, t.clock, K.Speculative, wanted)];
    }
  }

  /** Counting a fault, and giving a charge back, keep the two in step. */
  lemma CountingKeeps(k: K.State, s: S.Residence, w: K.World, model: ObjectId -> Meta, i: nat, owner: SessionId, size: nat)
    requires InStep(k, s, w, model) && i < CLASSES && SumSeq(k.faults) < k.clock <= U32_MAX
    ensures K.Counted(k)
    ensures SatAdd(k.faults[i], 1, U32_MAX) == k.faults[i] + 1
    ensures SumSeq(k.faults[i := k.faults[i] + 1]) == SumSeq(k.faults) + 1
    ensures InStep(k.(faults := k.faults[i := k.faults[i] + 1]), s, w, model)
    ensures InStep(k.(sessions := Credit(k.sessions, owner, size)), s, w, model)
  {
    EachAtMostSum(k.faults, i);
    SumSeqUpdate(k.faults, i, k.faults[i] + 1);
  }

  /** What the two being in step says of an object that is not resident. */
  lemma Missing(k: K.State, s: S.Residence, w: K.World, model: ObjectId -> Meta, id: ObjectId)
    requires InStep(k, s, w, model) && id in k.objects && id !in s.held
    ensures K.Counted(k) && !k.objects[id].Resident() && ClassOf(id).Some? && NoCeilings(k.sessions)
    ensures k.objects[id].size == model(id).size && k.objects[id].owner == model(id).owner
    ensures SumSeq(k.faults) <= k.clock && k.region.base > 0 && k.clock == s.cursor
  {}

  /** A miss: the same victims, the same outcome, and one more fault counted
      exactly when it was served. */
  lemma MissAgrees(k: K.State, s: S.Residence, w: K.World, model: ObjectId -> Meta, id: ObjectId, wanted: NextUse)
    requires K.Counted(k)
    requires InStep(k, s, w, model) && k.clock < U32_MAX && id in k.objects && id !in s.held
    ensures var (t, r) := K.Consume(k, w, id, wanted);
      var (u, placed, n) := Fetch(s, w.pick, id, model(id), s.cursor + 1, wanted);
      && InStep(t, u, w, model) && (r.Ok? <==> placed) && t.evictions == k.evictions + n
      && t.objects.Keys == k.objects.Keys
      && (placed ==> r.value.size == model(id).size && SumSeq(t.faults) == SumSeq(k.faults) + 1)
      && (!placed ==> t.faults == k.faults)
  {
    hide InStep, K.Consume, S.MakeRoom, S.Insert, Roomy;
    Missing(k, s, w, model, id);
    RoomyAgrees(k, s, w, model, id);
    var m := k.objects[id];
    var roomy := Roomy(k, w, m);
    var (v, n) := S.MakeRoom(s.(cursor := s.cursor + 1), w.pick, m.size);
    Missing(roomy, v, w, model, id);
    PlacementAgrees(roomy, v, w, model, id, wanted);
    ConsumeIs(k, s, w, model, id, wanted);
    if roomy.region.Place(m.size).Some? {
      var (address, region) := roomy.region.Place(m.size).value;
      var b := S.Insert(v, id, model(id), v.cursor, wanted).0;
      CountingKeeps(Arrive(roomy, id, address, region, wanted), b, w, model, Index(ClassOf(id).value), m.owner, m.size);
    } else {
      CountingKeeps(roomy, v, w, model, 0, m.owner, m.size);
    }
  }

  // ----- the whole trace -----

  /** One access: the same outcome on both sides, the kernel registering the
      object if its table had not heard of it. */
  lemma StepAgrees(k: K.State, s: S.Residence, w: K.World, model: ObjectId -> Meta, vacant: nat,
                   a: R.Replayed, b: S.Outcome, run: S.Setting, id: ObjectId, wanted: NextUse)
    requires K.Counted(k) && InStep(k, s, w, model) && k.clock < U32_MAX && Served(w, model, id)
    requires (id in k.objects || vacant > 0) && SameCounts(a, b)
    requires run.model(id) == Some(model(id)) && run.pick == w.pick && S.WantedAt(run.next, s.cursor + 1) == wanted
    ensures var (t, left, counted) := R.Step(k, vacant, a, w, model, id, wanted);
      var (u, out) := S.Step(s, b, run, id, s.cursor + 1);
      && InStep(t, u, w, model) && SameCounts(counted, out)
      && t.objects.Keys == k.objects.Keys + {id}
      && left == vacant - (if id in k.objects then 0 else 1)
  {
    hide InStep, K.Consume, S.MakeRoom, S.Insert, Served;
    KnownAgrees(k, s, w, model, id);
    var known := if id in k.objects then k else K.Register(k, id, model(id));
    TotalIsSum(known.faults);
    var t := K.Consume(known, w, id, wanted).0;
    TotalIsSum(t.faults);
    if id in s.held {
      HitAgrees(known, s, w, model, id, wanted);
    } else {
      Missing(known, s, w, model, id);
      MissAgrees(known, s, w, model, id, wanted);
    }
  }

  ghost predicate SameCounts(a: R.Replayed, b: S.Outcome) {
    a.hits == b.hits && a.fetches == b.fetches && a.bytes == b.bytes && a.evicted == b.evicted && a.refused == b.refused
  }

  /** Registering an object nobody asked for yet keeps the two in step. */
  lemma KnownAgrees(k: K.State, s: S.Residence, w: K.World, model: ObjectId -> Meta, id: ObjectId)
    requires K.Counted(k) && InStep(k, s, w, model) && Served(w, model, id)
    ensures SumSeq(k.faults) <= k.clock && (id !in k.objects ==> id !in s.held) && k.clock == s.cursor
    ensures id !in k.objects ==> InStep(K.Register(k, id, model(id)), s, w, model)
  {
    if id !in k.objects {
      var t := K.Register(k, id, model(id));
      forall j | j in s.held ensures SameResident(t.region.base, t.objects[j], s.region.base, s.held[j]) {
        assert SameResident(k.region.base, k.objects[j], s.region.base, s.held[j]);
      }
    }
  }

  /** The objects from `at` on that the table has not heard of. */
  ghost function Unheard(known: set<ObjectId>, objects: seq<ObjectId>, at: nat): set<ObjectId> {
    Distinct(objects, at) - known
  }

  lemma UnheardFewer(known: set<ObjectId>, objects: seq<ObjectId>, at: nat)
    requires at < |objects|
    ensures objects[at] !in known ==> |Unheard(known, objects, at)| > 0
    ensures |Unheard(known + {objects[at]}, objects, at + 1)| + (if objects[at] in known then 0 else 1)
         <= |Unheard(known, objects, at)|
  {
    DistinctGrows(objects, at);
    assert objects[at] !in known ==> objects[at] in Unheard(known, objects, at);
    var before, after := Unheard(known, objects, at), Unheard(known + {objects[at]}, objects, at + 1);
    assert after <= before - {objects[at]};
    assert before - {objects[at]} == after + (before - {objects[at]} - after);
  }

  lemma {:induction false} ReplaysAgree(k: K.State, s: S.Residence, w: K.World, model: ObjectId -> Meta, vacant: nat,
                                        a: R.Replayed, b: S.Outcome, run: S.Setting, objects: seq<ObjectId>, at: nat)
    requires K.Counted(k) && InStep(k, s, w, model) && at <= |objects| < U32_MAX && s.cursor == k.clock == at
    requires SameCounts(a, b) && run.pick == w.pick && Chained(objects, run.next)
    requires forall id :: id in objects ==> Served(w, model, id) && run.model(id) == Some(model(id))
    requires |Unheard(k.objects.Keys, objects, at)| <= vacant
    ensures SameCounts(R.ReplayFrom(k, vacant, a, w, model, objects, at).1, S.ReplayFrom(s, b, run, objects, at).1)
    decreases |objects| - at
  {
    hide InStep, Served, R.Step, S.Step, Unheard, SameCounts, Chained, WantedAfter, R.ReplayFrom, S.ReplayFrom;
    Unrolled(k, s, w, model, vacant, a, b, run, objects, at);
    if at < |objects| {
      TraceStep(k, s, w, model, vacant, a, b, run, objects, at);
      var (t, left, counted) := R.Step(k, vacant, a, w, model, objects[at], WantedAfter(objects, at, objects[at]));
      var (u, out) := S.Step(s, b, run, objects[at], at + 1);
      ReplaysAgree(t, u, w, model, left, counted, out, run, objects, at + 1);
    }
  }

  /** Both loops, one turn. */
  lemma Unrolled(k: K.State, s: S.Residence, w: K.World, model: ObjectId -> Meta, vacant: nat,
                 a: R.Replayed, b: S.Outcome, run: S.Setting, objects: seq<ObjectId>, at: nat)
    requires K.Counted(k) && at <= |objects|
    ensures at == |objects| ==>
      R.ReplayFrom(k, vacant, a, w, model, objects, at).1 == a && S.ReplayFrom(s, b, run, objects, at).1 == b
    ensures at < |objects| ==>
      var (t, left, counted) := R.Step(k, vacant, a, w, model, objects[at], WantedAfter(objects, at, objects[at]));
      R.ReplayFrom(k, vacant, a, w, model, objects, at) == R.ReplayFrom(t, left, counted, w, model, objects, at + 1)
    ensures at < |objects| ==>
      var (u, out) := S.Step(s, b, run, objects[at], at + 1);
      S.ReplayFrom(s, b, run, objects, at) == S.ReplayFrom(u, out, run, objects, at + 1)
  {
    hide R.Step, S.Step, WantedAfter;
  }

  /** One access of the trace, ready for the next. */
  lemma TraceStep(k: K.State, s: S.Residence, w: K.World, model: ObjectId -> Meta, vacant: nat,
                  a: R.Replayed, b: S.Outcome, run: S.Setting, objects: seq<ObjectId>, at: nat)
    requires K.Counted(k) && InStep(k, s, w, model) && at < |objects| < U32_MAX && s.cursor == k.clock == at
    requires SameCounts(a, b) && run.pick == w.pick && Chained(objects, run.next)
    requires Served(w, model, objects[at]) && run.model(objects[at]) == Some(model(objects[at]))
    requires |Unheard(k.objects.Keys, objects, at)| <= vacant
    ensures var (t, left, counted) := R.Step(k, vacant, a, w, model, objects[at], WantedAfter(objects, at, objects[at]));
      var (u, out) := S.Step(s, b, run, objects[at], at + 1);
      && InStep(t, u, w, model) && u.cursor == t.clock == at + 1 && SameCounts(counted, out)
      && |Unheard(t.objects.Keys, objects, at + 1)| <= left
  {
    hide InStep, Served, R.Step, S.Step, SameCounts, WantedAfter, S.WantedAt, Chained, Unheard;
    var id := objects[at];
    var wanted := WantedAfter(objects, at, id);
    WantedIsChained(objects, run.next, at);
    UnheardFewer(k.objects.Keys, objects, at);
    StepAgrees(k, s, w, model, vacant, a, b, run, id, wanted);
    StepClock(s, b, run, id, at + 1);
    ClockInStep(R.Step(k, vacant, a, w, model, id, wanted).0, S.Step(s, b, run, id, at + 1).0, w, model);
  }

  lemma ClockInStep(k: K.State, s: S.Residence, w: K.World, model: ObjectId -> Meta)
    requires InStep(k, s, w, model)
    ensures k.clock == s.cursor
  {}

  lemma StepClock(s: S.Residence, out: S.Outcome, run: S.Setting, id: ObjectId, now: nat)
    requires run.model(id).Some?
    ensures S.Step(s, out, run, id, now).0.cursor == now
  {}

  /** The stream's answer at the cursor is the simulator's chain at the tick. */
  lemma WantedIsChained(objects: seq<ObjectId>, next: seq<nat>, at: nat)
    requires Chained(objects, next) && at < |objects| < U32_MAX
    ensures WantedAfter(objects, at, objects[at]) == S.WantedAt(next, at + 1)
  {
    assert next[at] == Link(FirstFrom(objects, objects[at], at + 1));
  }

  /** The kernel equals the simulator: for every access sequence, policy and
      budget, a fresh manager without ceilings and with a table slot for each
      distinct object counts the same hits, reads, bytes, evictions and
      refusals, wherever the two arenas happen to begin. */
  lemma KernelEqualsSimulator(k: K.State, objects: seq<ObjectId>, next: seq<nat>, w: K.World,
                              model: ObjectId -> Meta, vacant: nat, budget: nat, kb: nat, sb: nat)
    requires k == K.Start(kb, budget).(sessions := k.sessions) && kb > 0 && NoCeilings(k.sessions)
    requires |objects| < U32_MAX && Chained(objects, next) && |Distinct(objects, 0)| <= vacant
    requires forall id :: id in objects ==> Served(w, model, id)
    ensures var run := S.Setting((id: ObjectId) => Some(model(id)), w.pick, next);
      SameCounts(R.ReplayFrom(k, vacant, R.NOTHING, w, model, objects, 0).1, S.Replay(run, objects, sb, budget))
  {
    var run := S.Setting((id: ObjectId) => Some(model(id)), w.pick, next);
    TotalIsSum(k.faults);
    ZeroSum(CLASSES);
    assert Unheard(k.objects.Keys, objects, 0) == Distinct(objects, 0);
    ReplaysAgree(k, S.Nothing(sb, budget), w, model, vacant, R.NOTHING, S.NOTHING, run, objects, 0);
  }

  lemma {:induction false} ZeroSum(n: nat)
    ensures SumSeq(seq(n, _ => 0)) == 0
  {
    if n > 0 {
      assert seq(n, _ => 0)[1..] == seq(n - 1, _ => 0);
      ZeroSum(n - 1);
    }
  }
}
