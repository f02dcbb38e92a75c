/** Conservation over every run, and progress: when an acquire cannot fail. */
module Runs {
  import opened Basics
  import opened Abi
  import opened MetaModel
  import opened Holes
  import opened ArenaModel
  import opened SessionModel
  import opened PolicyModel
  import opened Kernel
  import opened Conservation

  // ----- every run -----

  datatype Op =
    | DoRegister(id: ObjectId, meta: Meta)
    | DoAcquire(id: ObjectId, lease: Lease, wanted: NextUse)
    | DoRelease(id: ObjectId, lease: Lease)
    | DoEvict(id: ObjectId)
    | DoAdopt(session: SessionId, contract: SessionModel.Contract)
    | DoCreate(contract: SessionModel.Contract)
    | DoDestroy(session: SessionId, order: seq<ObjectId>)

  /** The state after one operation, in a world that may differ each time. */
  ghost function Step(s: State, w: World, op: Op): (t: State)
    requires Counted(s)
    ensures Counted(t)
  {
    match op
    case DoRegister(id, meta) => Register(s, id, meta)
    case DoAcquire(id, lease, wanted) => Acquire(s, w, id, lease, wanted).0
    case DoRelease(id, lease) => Release(s, id, lease).0
    case DoEvict(id) => Evict(s, id).0
    case DoAdopt(id, contract) =>
      (match Adopt(s.sessions, id, contract) case Ok(after) => s.(sessions := after) case Err(_) => s)
    case DoCreate(contract) => CreateSession(s, contract).0
    case DoDestroy(id, order) => DestroySession(s, id, order).0
  }

  /** What the code demands of its callers: registrations that fit, and a walk
      over the whole table. */
  ghost predicate Lawful(s: State, op: Op) {
    match op
    case DoRegister(id, meta) => Registrable(s, id, meta)
    case DoDestroy(_, order) => forall id :: id in s.objects ==> id in order
    case _ => true
  }

  /** The bytes an operation leaves placed for nobody: those of an acquire
      whose read fails. */
  ghost function Loses(s: State, w: World, op: Op): nat
    requires Counted(s)
  {
    match op
    case DoAcquire(id, _, _) => if ReachesRead(s, w, id) && w.read(id).Err? then Round(s.objects[id].size) else 0
    case _ => 0
  }

  /** Lawful, and its reads succeed. */
  ghost predicate Legal(s: State, w: World, op: Op)
    requires Counted(s)
  {
    Lawful(s, op) && (op.DoAcquire? && ReachesRead(s, w, op.id) ==> w.read(op.id).Ok?)
  }

  ghost function Run(s: State, ops: seq<(World, Op)>): (t: State)
    requires Counted(s)
    ensures Counted(t)
    decreases |ops|
  {
    if ops == [] then s else Run(Step(s, ops[0].0, ops[0].1), ops[1..])
  }

  ghost predicate LegalRun(s: State, ops: seq<(World, Op)>)
    requires Counted(s)
    decreases |ops|
  {
    ops == [] || (Legal(s, ops[0].0, ops[0].1) && LegalRun(Step(s, ops[0].0, ops[0].1), ops[1..]))
  }

  ghost predicate LawfulRun(s: State, ops: seq<(World, Op)>)
    requires Counted(s)
    decreases |ops|
  {
    ops == [] || (Lawful(s, ops[0].1) && LawfulRun(Step(s, ops[0].0, ops[0].1), ops[1..]))
  }

  /** The bytes of all the reads that failed. */
  ghost function Lost(s: State, ops: seq<(World, Op)>): nat
    requires Counted(s)
    decreases |ops|
  {
    if ops == [] then 0 else Loses(s, ops[0].0, ops[0].1) + Lost(Step(s, ops[0].0, ops[0].1), ops[1..])
  }

  lemma StepKeeps(s: State, w: World, op: Op, lost: nat)
    requires Counted(s) && Kept(s, lost) && Lawful(s, op)
    ensures Kept(Step(s, w, op), lost + Loses(s, w, op))
  {
    hide Charged, ReachesRead;
    match op
    case DoRegister(id, meta) => RegisterKeeps(s, id, meta, lost);
    case DoAcquire(id, lease, wanted) => AcquireKeeps(s, w, id, lease, wanted, lost);
    case DoRelease(id, lease) => ReleaseKeeps(s, id, lease, lost);
    case DoEvict(id) => EvictKeeps(s, id, 0, 0, lost);
    case DoAdopt(id, contract) =>
      if Adopt(s.sessions, id, contract).Ok? { AdoptKeeps(s, id, contract, lost); }
    case DoCreate(contract) => CreateKeeps(s, contract, lost);
    case DoDestroy(id, order) => DestroyKeeps(s, id, order, lost);
  }

  /** After every run, whatever its reads did: every class counter and session
      account equals its sum, no session has passed a ceiling, live extents are
      apart, and `used` is the residents' rounded bytes and exactly those of
      the reads that failed. */
  lemma {:induction false} EveryRunKeeps(s: State, ops: seq<(World, Op)>, lost: nat)
    requires Counted(s) && Kept(s, lost) && LawfulRun(s, ops)
    ensures Kept(Run(s, ops), lost + Lost(s, ops))
    decreases |ops|
  {
    hide Charged, Lawful, Loses;
    if ops != [] {
      StepKeeps(s, ops[0].0, ops[0].1, lost);
      EveryRunKeeps(Step(s, ops[0].0, ops[0].1), ops[1..], lost + Loses(s, ops[0].0, ops[0].1));
    }
  }

  lemma {:induction false} LegalLosesNothing(s: State, ops: seq<(World, Op)>)
    requires Counted(s)
    ensures LegalRun(s, ops) ==> LawfulRun(s, ops) && Lost(s, ops) == 0
    decreases |ops|
  {
    hide ReachesRead, Lawful;
    if ops != [] { LegalLosesNothing(Step(s, ops[0].0, ops[0].1), ops[1..]); }
  }

  /** After every run whose reads succeed: the arena's extents are the
      residents' and tile what is not free, `used` and every class counter and
      session account equal their sums, and no session has passed a ceiling. */
  lemma EveryRunConserves(s: State, ops: seq<(World, Op)>)
    requires Counted(s) && Conserved(s) && LegalRun(s, ops)
    ensures Conserved(Run(s, ops))
  {
    hide Charged, LegalRun, LawfulRun;
    LegalLosesNothing(s, ops);
    EveryRunKeeps(s, ops, 0);
  }

  /** So from a new manager on. */
  lemma NewManagerConserves(base: nat, bytes: nat, ops: seq<(World, Op)>)
    requires base > 0 && bytes <= U64_MAX
    ensures LawfulRun(Start(base, bytes), ops) ==> Kept(Run(Start(base, bytes), ops), Lost(Start(base, bytes), ops))
    ensures LegalRun(Start(base, bytes), ops) ==> Conserved(Run(Start(base, bytes), ops))
  {
    hide Charged, LegalRun, LawfulRun;
    var s := Start(base, bytes);
    StartConserved(base, bytes);
    if LawfulRun(s, ops) { EveryRunKeeps(s, ops, 0); }
    if LegalRun(s, ops) { EveryRunConserves(s, ops); }
  }

  // ----- a read that fails -----

  lemma NothingUsed(objects: Objects, id: ObjectId)
    requires objects.Keys == {id} && !objects[id].Resident()
    ensures UsedBy(objects) == 0
  {
    SumZero(Rounded(objects));
  }

  /** An acquire of the one object there is, into an empty arena. */
  lemma LeakIs(s: State, w: World, id: ObjectId)
    requires Counted(s) && s.objects.Keys == {id} && !s.objects[id].Resident() && s.objects[id].size == 16
    requires s.region.free == Fresh(s.region.capacity) && s.region.capacity >= 16 && s.region.Valid() && s.region.base > 0
    requires s.objects[id].owner == 0 && !Known(s.sessions, 0) && w.attached == {s.objects[id].provider}
    requires ClassOf(id).Some? && w.read(id).Err?
    ensures ReachesRead(s, w, id)
    ensures Acquire(s, w, id, Pin, Never).0.objects == s.objects
    ensures Acquire(s, w, id, Pin, Never).0.region.used == s.region.used + 16
  {
    hide ClassOf;
    PlaceFailsExactly(s.region, 16);
    PlaceTakes(s.region, 16);
    assert s.region.Fits(16);
  }

  lemma TwoSteps(s: State, ops: seq<(World, Op)>)
    requires Counted(s) && |ops| == 2
    ensures var t := Step(s, ops[0].0, ops[0].1);
      && Run(s, ops) == Step(t, ops[1].0, ops[1].1)
      && Lost(s, ops) == Loses(s, ops[0].0, ops[0].1) + Loses(t, ops[1].0, ops[1].1)
      && (LawfulRun(s, ops) <==> Lawful(s, ops[0].1) && Lawful(t, ops[1].1))
  {
    hide Step, Loses, Lawful;
    var t, rest := Step(s, ops[0].0, ops[0].1), ops[1..];
    assert rest[0] == ops[1] && rest[1..] == [];
    var u := Step(t, rest[0].0, rest[0].1);
    assert Run(t, rest) == Run(u, []) == u && Lost(u, []) == 0 && LawfulRun(u, []);
  }

  /** Bytes in use that the table accounts for nowhere, from a new manager: a
      sixteen-byte object registered and acquired, its provider's read failing. */
  lemma FailedReadLeaks(base: nat, bytes: nat, id: ObjectId, m: Meta, pick: Pick, why: Error)
    requires base > 0 && 16 <= bytes <= U64_MAX && ClassOf(id).Some?
    requires m.size == 16 && !m.Resident() && m.owner == 0
    ensures var w := World(pick, {m.provider}, (id: ObjectId) => Err(why));
      var ops := [(w, DoRegister(id, m)), (w, DoAcquire(id, Pin, Never))];
      var t := Run(Start(base, bytes), ops);
      && LawfulRun(Start(base, bytes), ops) && Lost(Start(base, bytes), ops) == 16
      && t.region.used == 16 && UsedBy(t.objects) == 0 && !Conserved(t)
  {
    hide Charged, Acquire, ReachesRead, ClassOf;
    var w := World(pick, {m.provider}, (id: ObjectId) => Err(why));
    var ops: seq<(World, Op)> := [(w, DoRegister(id, m)), (w, DoAcquire(id, Pin, Never))];
    var s := Start(base, bytes);
    StartConserved(base, bytes);
    RegisterKeeps(s, id, m);
    var r := Register(s, id, m);
    TwoSteps(s, ops);
    EmptyValid(base, bytes);
    NobodyIsZero(r);
    LeakIs(r, w, id);
    AcquireKeeps(r, w, id, Pin, Never);
    NothingUsed(map[id := m], id);
  }

  // ----- holes against residents -----

  /** The byte after a hole that is not the last is some resident's, whose
      bytes begin after that hole and before the next. */
  lemma GapOwner(r: Region, objects: Objects, n: nat) returns (id: ObjectId)
    requires Layout(r, objects) && r.capacity > 0 && n + 1 < |r.free|
    ensures id in ResidentIds(objects)
    ensures r.free[n].at < Low(r, objects[id]) < r.free[n + 1].at
  {
    ProperByPosition(r.free, r.capacity);
    var gap := r.free[n].End();
    assert r.free[n].End() < r.free[n + 1].at && r.free[n + 1].End() <= r.capacity;
    FreeByPosition(r.free, gap);
    assert Covered(r, objects, gap);
    id :| id in objects && Covers(r, objects[id], gap);
    FreeByPosition(r.free, r.free[n].at);
    assert Free(r.free, r.free[n].at);
  }

  /** Between two holes lies a resident; one each for the first `n` gaps. */
  lemma {:induction false} GapOwners(r: Region, objects: Objects, n: nat) returns (ids: set<ObjectId>)
    requires Layout(r, objects) && r.capacity > 0 && n < |r.free|
    ensures |ids| == n && ids <= ResidentIds(objects)
    ensures forall id :: id in ids ==> Low(r, objects[id]) < r.free[n].at
    decreases n
  {
    hide Layout;
    if n == 0 {
      ids := {};
    } else {
      var before := GapOwners(r, objects, n - 1);
      var id := GapOwner(r, objects, n - 1);
      ids := before + {id};
    }
  }

  /** There are never more holes than residents and one. */
  lemma HolesBounded(s: State)
    requires Conserved(s)
    ensures |s.region.free| <= |ResidentIds(s.objects)| + 1
  {
    if s.region.capacity > 0 && |s.region.free| > 0 {
      var ids := GapOwners(s.region, s.objects, |s.region.free| - 1);
      assert ResidentIds(s.objects) == ids + (ResidentIds(s.objects) - ids);
    }
  }

  /** With at most `HOLES - 2` residents no eviction is ever refused. */
  lemma FewResidentsEvict(s: State, id: ObjectId, who: SessionId, pending: nat)
    requires Counted(s) && Charged(s, who, pending) && id in ResidentIds(s.objects)
    requires |ResidentIds(s.objects)| <= HOLES - 2
    ensures Evict(s, id).1.Ok?
  {
    if s.region.capacity > 0 && |s.region.free| > 0 {
      var ids := GapOwners(s.region, s.objects, |s.region.free| - 1);
      assert ResidentIds(s.objects) == ids + (ResidentIds(s.objects) - ids);
    }
    EvictKeeps(s, id, who, pending);
  }

  /** Nothing resident, nothing placed: the list is one run. */
  lemma NothingResident(r: Region, objects: Objects)
    requires Layout(r, objects) && ResidentIds(objects) == {}
    ensures r.free == Fresh(r.capacity)
  {
    forall b | 0 <= b < r.capacity ensures Free(r.free, b) {
      assert !Covered(r, objects, b) by {
        assert forall id :: id in objects ==> id !in ResidentIds(objects);
      }
    }
    if r.capacity > 0 {
      assert Fresh(r.capacity)[1..] == [];
      forall b ensures Free(r.free, b) <==> Free(Fresh(r.capacity), b) {
        FreeByPosition(r.free, b);
        ProperByPosition(r.free, r.capacity);
      }
      ProperUnique(r.free, Fresh(r.capacity), r.capacity);
    }
  }

  /** However fragmented the arena, a policy that always names a resident
      makes room for anything the arena could hold empty. */
  lemma {:induction false} RoomIsMade(s: State, pick: Pick, size: nat, who: SessionId, pending: nat)
    requires Counted(s) && Charged(s, who, pending) && AlwaysNames(pick)
    requires |ResidentIds(s.objects)| <= HOLES - 2 && size > 0 && Round(size) <= s.region.capacity
    ensures MakeRoom(s, pick, size).region.Fits(size)
    decreases |ResidentIds(s.objects)|
  {
    if !s.region.Fits(size) {
      assert ResidentIds(s.objects) != {} by {
        if ResidentIds(s.objects) == {} { NothingResident(s.region, s.objects); }
      }
      hide Charged;
      var window := Residents(s.objects);
      assert window != map[] by { var id :| id in ResidentIds(s.objects); assert id in window; }
      var v := pick(window, s.clock, size);
      assert v.Some? && v.value in window;
      FewResidentsEvict(s, v.value, who, pending);
      EvictKeeps(s, v.value, who, pending);
      EvictShrinks(s, v.value);
      MakeRoomKeeps(s, pick, size, who, pending);
      EvictOnlyEvicts(s, v.value, who, pending);
      RoomIsMade(Evict(s, v.value).0, pick, size, who, pending);
    }
  }

  /** The owner has room for the object under its ceiling, or has none. */
  ghost predicate UnderCeiling(s: State, id: ObjectId)
    requires id in s.objects
  {
    var m := s.objects[id];
    Known(s.sessions, m.owner) ==>
      var owner := Get(s.sessions, m.owner);
      owner.contract.residentCeiling == 0 || owner.resident + m.size <= owner.contract.residentCeiling
  }

  /** Under FIFO, LRU or next-use, with at most `HOLES - 2` residents, every
      acquire of a registered object whose class decodes, whose provider is
      attached and readable, which the arena could hold empty and its owner
      may hold, succeeds and leaves it resident. */
  lemma AcquireSucceeds(s: State, w: World, id: ObjectId, lease: Lease, wanted: NextUse)
    requires Counted(s) && Conserved(s) && AlwaysNames(w.pick)
    requires id in s.objects && ClassOf(id).Some? && s.objects[id].provider in w.attached && w.read(id).Ok?
    requires Round(s.objects[id].size) <= s.region.capacity && UnderCeiling(s, id)
    requires |ResidentIds(s.objects)| <= HOLES - 2
    ensures Acquire(s, w, id, lease, wanted).1.Ok?
    ensures Hits(Acquire(s, w, id, lease, wanted).0, id)
  {
    var t := Tick(s);
    assert Conserved(t);
    if !s.objects[id].Resident() {
      RoomyFits(t, w.pick, id);
      AdmitKeeps(t, w, id, lease, wanted);
      hide Charged, Admit, Kernel.MakeRoom;
    }
  }

  /** Once charged and room made, the object can be placed. */
  lemma RoomyFits(s: State, pick: Pick, id: ObjectId)
    requires Counted(s) && Conserved(s) && AlwaysNames(pick) && id in s.objects && !s.objects[id].Resident()
    requires Round(s.objects[id].size) <= s.region.capacity && UnderCeiling(s, id)
    requires |ResidentIds(s.objects)| <= HOLES - 2
    ensures var m := s.objects[id];
      var charged := Charge(s.sessions, m.owner, m.size, m.precision);
      charged.Ok? && Kernel.MakeRoom(s.(sessions := charged.value), pick, m.size).region.Place(m.size).Some?
  {
    var m := s.objects[id];
    assert m.size > 0;
    var charged := Charge(s.sessions, m.owner, m.size, m.precision);
    ChargeKeeps(s, m.owner, m.size, m.precision);
    var paid := s.(sessions := charged.value);
    MakeRoomKeeps(paid, pick, m.size, m.owner, m.size);
    RoomIsMade(paid, pick, m.size, m.owner, m.size);
    PlaceFailsExactly(Kernel.MakeRoom(paid, pick, m.size).region, m.size);
  }
}
