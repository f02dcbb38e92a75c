/** What the manager answers: the handles it gives, the reasons it refuses for,
    and what it counts. */
module Answers {
  import opened Basics
  import opened Abi
  import opened MetaModel
  import opened Holes
  import opened ArenaModel
  import opened SessionModel
  import opened Kernel
  import opened Conservation

  // ----- acquiring -----

  /** The handle is to this object, and to its own bytes: as many as it is
      registered with, where the table has it, nobody else's and none free. */
  ghost predicate Honest(t: State, id: ObjectId, h: Handle) {
    && h.id == id && Hits(t, id)
    && h.address == t.objects[id].residentAt && h.size == t.objects[id].size
    && t.region.Owned(h.address, h.size)
    && forall k :: k in t.objects && k != id && t.objects[k].Resident() ==> Apart(t.region, t.objects[id], t.objects[k])
  }

  /** What registering fixed. */
  ghost predicate SameMake(m: Meta, n: Meta) {
    && m.size == n.size && m.precision == n.precision && m.home == n.home && m.provider == n.provider
    && m.reloadCost == n.reloadCost && m.recomputeCost == n.recomputeCost && m.owner == n.owner
  }

  /** An entry acquired at this tick, from a hit or from a fault. */
  ghost predicate Claimed(m: Meta, n: Meta, now: nat, lease: Lease, wanted: NextUse) {
    && SameMake(m, n) && n.usedTick == now && n.nextUse == wanted
    && n.reuseCount == Min(m.reuseCount + 1, U16_MAX)
    && (if m.Resident()
        then n.residentAt == m.residentAt && n.placedTick == m.placedTick && n.tier == m.tier
             && n.shareCount == Min(m.shareCount + (if lease.Speculative? then 0 else 1), U16_MAX)
        else n.placedTick == now && n.tier == Warm && n.shareCount == if lease.Speculative? then 0 else 1)
  }

  /** One fault more of this class, unless it was a hit. */
  ghost predicate FaultCounted(s: State, t: State, id: ObjectId)
    requires Counted(s) && Counted(t)
  {
    forall c: Class :: t.faults[Index(c)] ==
      if !Hits(s, id) && ClassOf(id) == Some(c) then Min(s.faults[Index(c)] + 1, U32_MAX) else s.faults[Index(c)]
  }

  lemma HonestKept(t: State, id: ObjectId, lost: nat)
    requires Kept(t, lost) && Hits(t, id)
    ensures Honest(t, id, Handle(id, t.objects[id].residentAt, t.objects[id].size))
  {}

  lemma HitAnswers(s: State, w: World, id: ObjectId, lease: Lease, wanted: NextUse)
    requires Counted(s) && Hits(s, id) && ClassOf(id).Some?
    ensures var (t, r) := Acquire(s, w, id, lease, wanted);
      && id in t.objects && t.objects == s.objects[id := t.objects[id]]
      && r == Ok(Handle(id, s.objects[id].residentAt, s.objects[id].size))
      && Claimed(s.objects[id], t.objects[id], t.clock, lease, wanted)
      && t.region == s.region && t.sessions == s.sessions && t.evictions == s.evictions && FaultCounted(s, t, id)
  {}

  lemma MissAnswers(s: State, w: World, id: ObjectId, lease: Lease, wanted: NextUse)
    requires Counted(s) && id in s.objects && !s.objects[id].Resident() && Acquire(s, w, id, lease, wanted).1.Ok?
    requires var m := s.objects[id];
      var charged := Charge(s.sessions, m.owner, m.size, m.precision);
      charged.Ok? && OnlyEvicts(Tick(s).(sessions := charged.value), MakeRoom(Tick(s).(sessions := charged.value), w.pick, m.size))
    ensures var (t, r) := Acquire(s, w, id, lease, wanted);
      && id in t.objects && r == Ok(Handle(id, t.objects[id].residentAt, s.objects[id].size))
      && (t.objects[id].Resident() ==> Claimed(s.objects[id], t.objects[id], t.clock, lease, wanted))
      && (forall k :: k in s.objects && k != id ==> k in t.objects && (t.objects[k] == s.objects[k] || t.objects[k] == Gone(s.objects[k])))
      && FaultCounted(s, t, id)
  {
    hide MakeRoom, Region.Place, ClassOf;
  }

  /** Its owner is live, has a ceiling, and would pass it. */
  ghost predicate PastCeiling(s: State, m: Meta) {
    Known(s.sessions, m.owner) &&
    var owner := Get(s.sessions, m.owner);
    0 < owner.contract.residentCeiling < owner.resident + m.size
  }

  lemma ChargeRefuses(s: State, m: Meta)
    ensures var r := Charge(s.sessions, m.owner, m.size, m.precision); if PastCeiling(s, m) then r == Err(Refused) else r.Ok?
  {}

  lemma KeptDecodes(s: State, id: ObjectId, lost: nat)
    requires Kept(s, lost) && Hits(s, id)
    ensures ClassOf(id).Some?
  {}

  /** An acquire of an object that is not resident is its admission, unless it
      is refused before. */
  lemma MissIs(s: State, w: World, id: ObjectId, lease: Lease, wanted: NextUse)
    requires Counted(s) && !Hits(s, id)
    ensures Acquire(s, w, id, lease, wanted) ==
      if id !in s.objects then (Tick(s), Err(BadObject))
      else if s.objects[id].provider !in w.attached then (Tick(s), Err(NoProvider))
      else if ClassOf(id).None? then (Tick(s), Err(BadClass))
      else Admit(Tick(s), w, id, lease, wanted)
  {
    hide Admit, ClassOf;
  }

  lemma AdmitRefuses(s: State, w: World, id: ObjectId, lease: Lease, wanted: NextUse)
    requires Counted(s) && id in s.objects
    ensures var m := s.objects[id];
      match Charge(s.sessions, m.owner, m.size, m.precision)
      case Err(why) => Admit(s, w, id, lease, wanted) == (s, Err(why))
      case Ok(charged) =>
        var roomy := MakeRoom(s.(sessions := charged), w.pick, m.size);
        var r := Admit(s, w, id, lease, wanted).1;
        && (roomy.region.Place(m.size).None? ==> r == Err(NoBudget))
        && (roomy.region.Place(m.size).Some? && w.read(id).Err? ==> r == Err(w.read(id).why))
  {
    hide Charge, Credit, MakeRoom, Region.Place, ClassOf;
  }

  /** Exactly when an acquire succeeds, and for what it is refused: in this
      order, an object that was never registered, no provider, a class that
      does not decode, its owner's ceiling, no run of bytes however many are
      evicted, and what the provider's read says. A hit is never refused. */
  lemma AcquireRefusesExactly(s: State, w: World, id: ObjectId, lease: Lease, wanted: NextUse, lost: nat)
    requires Counted(s) && Kept(s, lost)
    ensures var (t, r) := Acquire(s, w, id, lease, wanted);
      if id !in s.objects then r == Err(BadObject)
      else if s.objects[id].Resident() then r.Ok?
      else if s.objects[id].provider !in w.attached then r == Err(NoProvider)
      else if ClassOf(id).None? then r == Err(BadClass)
      else if PastCeiling(s, s.objects[id]) then r == Err(Refused)
      else if !ReachesRead(s, w, id) then r == Err(NoBudget)
      else if w.read(id).Err? then r == Err(w.read(id).why)
      else r.Ok? && Hits(t, id)
  {
    hide Charged, MakeRoom, Charge, Admit, PastCeiling, ClassOf;
    if Hits(s, id) {
      KeptDecodes(s, id, lost);
      HitAnswers(s, w, id, lease, wanted);
    } else {
      MissIs(s, w, id, lease, wanted);
      if id in s.objects && s.objects[id].provider in w.attached && ClassOf(id).Some? {
        ChargeRefuses(s, s.objects[id]);
        AdmitRefuses(Tick(s), w, id, lease, wanted);
        TickKeeps(s, lost);
        if !PastCeiling(s, s.objects[id]) { AdmitKeeps(Tick(s), w, id, lease, wanted, lost); }
      }
    }
  }

  lemma RoomOnlyEvicts(s: State, w: World, m: Meta, lost: nat)
    requires Kept(s, lost) && Charge(s.sessions, m.owner, m.size, m.precision).Ok?
    ensures Counted(s)
    ensures var charged := Charge(s.sessions, m.owner, m.size, m.precision).value;
      OnlyEvicts(Tick(s).(sessions := charged), MakeRoom(Tick(s).(sessions := charged), w.pick, m.size))
  {
    hide Charged, Charge, MakeRoom;
    TickKeeps(s, lost);
    ChargeKeeps(Tick(s), m.owner, m.size, m.precision, lost);
    var charged := Charge(s.sessions, m.owner, m.size, m.precision).value;
    MakeRoomKeeps(Tick(s).(sessions := charged), w.pick, m.size, m.owner, m.size, lost);
  }

  /** An acquire that succeeds, hit or fault, hands out the object's own bytes
      and no other's; a hit's are where they were. It leaves the entry claimed,
      the other objects as they were or thrown out, and one fault counted of
      this class unless it was a hit. */
  lemma AcquireAnswers(s: State, w: World, id: ObjectId, lease: Lease, wanted: NextUse, lost: nat)
    requires Counted(s) && Kept(s, lost) && Acquire(s, w, id, lease, wanted).1.Ok?
    ensures var (t, r) := Acquire(s, w, id, lease, wanted);
      && id in s.objects && Honest(t, id, r.value) && r.value.size == s.objects[id].size
      && (Hits(s, id) ==> r.value.address == s.objects[id].residentAt && t.region == s.region && t.sessions == s.sessions)
      && Claimed(s.objects[id], t.objects[id], t.clock, lease, wanted)
      && (forall k :: k in s.objects && k != id ==>
            k in t.objects && (t.objects[k] == s.objects[k] || (!Hits(s, id) && t.objects[k] == Gone(s.objects[k]))))
      && FaultCounted(s, t, id)
  {
    hide Charged, MakeRoom, Charge, FaultCounted, Acquire, PastCeiling, Honest;
    AcquireKeeps(s, w, id, lease, wanted, lost);
    AcquireRefusesExactly(s, w, id, lease, wanted, lost);
    var (t, r) := Acquire(s, w, id, lease, wanted);
    if Hits(s, id) {
      KeptDecodes(s, id, lost);
      HitAnswers(s, w, id, lease, wanted);
    } else {
      ChargeRefuses(s, s.objects[id]);
      RoomOnlyEvicts(s, w, s.objects[id], lost);
      MissAnswers(s, w, id, lease, wanted);
    }
    HonestKept(t, id, lost);
  }

  // ----- leases -----

  /** A claim of an entry, given back. */
  predicate Unclaimed(m: Meta, n: Meta, lease: Lease) {
    n == m.(shareCount := if lease.Speculative? || !m.Resident() then m.shareCount else Max(m.shareCount - 1, 0))
  }

  /** Releasing gives back one claim on one object, if the lease was counted and
      the object is still there, and is refused exactly of an unknown object. */
  lemma ReleaseAnswers(s: State, id: ObjectId, lease: Lease)
    ensures var (t, r) := Release(s, id, lease);
      && (r.Ok? <==> id in s.objects) && (r.Err? ==> r == Err(BadObject) && t == s)
      && (r.Ok? ==> id in t.objects && t == s.(objects := s.objects[id := t.objects[id]])
                    && Unclaimed(s.objects[id], t.objects[id], lease))
  {
    if id in s.objects { assert s.objects == s.objects[id := s.objects[id]]; }
  }

  /** Acquiring and releasing under one lease leaves an object's share count as
      it was exactly if it was resident and not claimed as often as can be
      counted, or was not resident and had none. */
  lemma SharesBalance(s: State, w: World, id: ObjectId, lease: Lease, wanted: NextUse, lost: nat)
    requires Counted(s) && Kept(s, lost) && Acquire(s, w, id, lease, wanted).1.Ok?
    ensures var t := Acquire(s, w, id, lease, wanted).0;
      var (u, r) := Release(t, id, lease);
      && r.Ok? && id in s.objects && id in u.objects
      && var m := s.objects[id];
         (m.shareCount <= U16_MAX ==>
            (u.objects[id].shareCount == m.shareCount <==>
               if m.Resident() then lease.Speculative? || m.shareCount < U16_MAX else m.shareCount == 0))
  {
    hide Charged, Acquire, Honest, FaultCounted;
    AcquireAnswers(s, w, id, lease, wanted, lost);
    var t := Acquire(s, w, id, lease, wanted).0;
    HonestHits(t, id, Acquire(s, w, id, lease, wanted).1.value);
    ReleaseAnswers(t, id, lease);
  }

  lemma HonestHits(t: State, id: ObjectId, h: Handle)
    requires Honest(t, id, h)
    ensures Hits(t, id) && h.id == id && h.address == t.objects[id].residentAt && h.size == t.objects[id].size
  {}

  /** A pass over an object hands out what acquiring it does, and so honestly
      after its claim is given back. */
  lemma ConsumeAnswers(s: State, w: World, id: ObjectId, wanted: NextUse, lost: nat)
    requires Counted(s) && Kept(s, lost)
    ensures Consume(s, w, id, wanted).1 == Acquire(s, w, id, Streaming, wanted).1
    ensures Consume(s, w, id, wanted).1.Ok? ==> Honest(Consume(s, w, id, wanted).0, id, Consume(s, w, id, wanted).1.value)
  {
    hide Charged, Acquire, FaultCounted, Claimed, Release;
    if Acquire(s, w, id, Streaming, wanted).1.Ok? {
      AcquireKeeps(s, w, id, Streaming, wanted, lost);
      AcquireRefusesExactly(s, w, id, Streaming, wanted, lost);
      AcquireAnswers(s, w, id, Streaming, wanted, lost);
      var t := Acquire(s, w, id, Streaming, wanted).0;
      ReleaseAnswers(t, id, Streaming);
      ReleaseKeeps(t, id, Streaming, lost);
      HonestKept(Release(t, id, Streaming).0, id, lost);
    }
  }

  // ----- eviction and endings -----

  /** An eviction gives back exactly the object's bytes, counts itself, and
      sends the entry home: no address, no claims. */
  lemma EvictAnswers(s: State, id: ObjectId, lost: nat)
    requires Counted(s) && Kept(s, lost)
    ensures var (t, r) := Evict(s, id);
      && (r == Err(BadObject) <==> id !in s.objects)
      && (r == Err(NotResident) <==> id in s.objects && !s.objects[id].Resident())
      && (r == Err(NoBudget) <==> Hits(s, id) && |s.region.free| == HOLES)
      && (r.Ok? ==>
            var m := s.objects[id];
            && r.value == m.size && t.evictions == s.evictions + 1 && t.clock == s.clock && t.faults == s.faults
            && t.objects == s.objects[id := m.(residentAt := 0, shareCount := 0, tier := m.home)]
            && t.region.used == s.region.used - Round(m.size)
            && forall b :: Free(t.region.free, b) <==> Free(s.region.free, b) || (Low(s.region, m) <= b < High(s.region, m)))
  {
    EvictKeeps(s, id, 0, 0, lost);
    if Hits(s, id) { ReleaseFrees(s.region, s.objects[id].residentAt, s.objects[id].size); }
  }

  lemma ForgottenResidents(objects: Objects, id: ObjectId)
    requires id !in ResidentIds(objects)
    ensures ResidentIds(objects - {id}) == ResidentIds(objects)
  {}

  lemma {:induction false} DestroyCounts(s: State, owner: SessionId, order: seq<ObjectId>, evicted: nat)
    requires Counted(s)
    ensures var (t, r) := DestroyWalk(s, owner, order, evicted);
      r.Ok? ==> r.value == evicted + |ResidentIds(s.objects)| - |ResidentIds(t.objects)|
    decreases |order|
  {
    hide Evict, ResidentIds;
    if order != [] {
      var id := order[0];
      if id !in s.objects || s.objects[id].owner != owner || owner == 0 {
        DestroyCounts(s, owner, order[1..], evicted);
      } else if s.objects[id].Resident() {
        var (t, r) := Evict(s, id);
        if r.Ok? {
          EvictShrinks(s, id);
          ForgottenResidents(t.objects, id);
          DestroyCounts(t.(objects := t.objects - {id}), owner, order[1..], evicted + 1);
        }
      } else {
        HasNoAddress(s.objects, id);
        ForgottenResidents(s.objects, id);
        DestroyCounts(s.(objects := s.objects - {id}), owner, order[1..], evicted);
      }
    }
  }

  lemma HasNoAddress(objects: Objects, id: ObjectId)
    requires id in objects && !objects[id].Resident()
    ensures id !in ResidentIds(objects)
  {}

  ghost function ResidentsOf(objects: Objects, owner: SessionId): set<ObjectId> {
    set id | id in objects && objects[id].Resident() && objects[id].owner == owner
  }

  lemma OwnGone(a: Objects, b: Objects, owner: SessionId)
    requires forall id :: id in b ==> b[id].owner != owner && id in a && a[id].owner == b[id].owner
    requires forall id :: id in a && a[id].owner != owner ==> id in b && b[id] == a[id]
    ensures |ResidentIds(a)| - |ResidentIds(b)| == |ResidentsOf(a, owner)|
  {
    var own := ResidentsOf(a, owner);
    assert ResidentIds(a) == ResidentIds(b) + own && ResidentIds(b) !! own;
  }

  /** Ending a session says how many residents were its own. */
  lemma DestroyAnswers(s: State, owner: SessionId, order: seq<ObjectId>, lost: nat)
    requires Counted(s) && Kept(s, lost) && forall id :: id in s.objects ==> id in order
    ensures var (t, r) := DestroySession(s, owner, order);
      r.Ok? ==> r.value == |ResidentsOf(s.objects, owner)|
  {
    hide Charged, DestroyWalk, ResidentIds, ResidentsOf;
    DestroyKeeps(s, owner, order, lost);
    DestroyWalkKeeps(s, owner, order, 0, lost);
    DestroyCounts(s, owner, order, 0);
    var (t, r) := DestroySession(s, owner, order);
    if r.Ok? {
      OwnGone(s.objects, t.objects, owner);
    }
  }

  /** A new manager has no object, no session, nothing counted, and every byte
      free. */
  lemma StartsWithNothing(base: nat, bytes: nat)
    ensures var s := Start(base, bytes);
      && s.objects == map[] && (forall id :: !Known(s.sessions, id)) && |s.sessions| == MAX_SESSIONS
      && s.clock == 0 && s.evictions == 0 && s.region.base == base && s.region.used == 0
      && (forall c: Class :: s.held[Index(c)] == 0 && s.faults[Index(c)] == 0)
      && (forall b :: Free(s.region.free, b) <==> 0 <= b < bytes)
      && (forall k: SessionModel.Contract :: k.residentCeiling == 0 && k.latencyCeiling == 0 ==> CreateSession(s, k).1.Some?)
  {
    var s := Start(base, bytes);
    forall b: int ensures Free(s.region.free, b) <==> 0 <= b < bytes { FreeByPosition(s.region.free, b); }
    forall k: SessionModel.Contract | k.residentCeiling == 0 && k.latencyCeiling == 0 ensures CreateSession(s, k).1.Some? {
      CreateExactly(s.sessions, k);
      assert FreeSlot(s.sessions).Some?;
    }
  }
}
