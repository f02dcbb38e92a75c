/** The object manager as a value: what each of its operations makes of the
    table, the arena, the counters and the sessions. Manager.dfy is proved to
    compute these; everything said of runs is said of these. */
module Kernel {
  import opened Basics
  import opened Abi
  import opened MetaModel
  import opened ArenaModel
  import opened SessionModel
  import opened PolicyModel
  import Admission

  datatype State = State(
    objects: map<ObjectId, Meta>,
    region: Region,
    sessions: Slots,
    held: seq<nat>,
    faults: seq<nat>,
    clock: nat,
    evictions: nat,
    capacity: Admission.Capacity)

  /** What an operation finds outside the manager: the policy, which provider
      slots are filled, and how each object's read comes out. */
  datatype World = World(pick: Pick, attached: set<nat>, read: ObjectId -> Result<()>)

  datatype Handle = Handle(id: ObjectId, address: nat, size: nat)

  /** How a claim is held; only a guess is not counted. */
  datatype Lease = Pin | Borrow | Streaming | Speculative {
    function Count(): nat { if Speculative? then 0 else 1 }
  }

  /** `saturating_add_signed` on one class's held bytes. */
  function HeldPlus(held: seq<nat>, c: Class, size: nat): (h: seq<nat>)
    requires |held| == CLASSES
    ensures |h| == CLASSES
  {
    held[Index(c) := SatAdd(held[Index(c)], size, U64_MAX)]
  }

  function HeldMinus(held: seq<nat>, c: Class, size: nat): (h: seq<nat>)
    requires |held| == CLASSES
    ensures |h| == CLASSES
  {
    held[Index(c) := SatSub(held[Index(c)], size)]
  }

  /** Counters are arrays of one entry a class. */
  predicate Counted(s: State) { |s.held| == CLASSES && |s.faults| == CLASSES }

  /** A new manager over an empty arena. */
  function Start(base: nat, bytes: nat): State {
    State(map[], Empty(base, bytes), seq(MAX_SESSIONS, _ => None),
      seq(CLASSES, _ => 0), seq(CLASSES, _ => 0), 0, 0, Admission.Capacity(0, 0, 0, 0))
  }

  /** An object thrown out: its bytes back, its leases void, its tier home. */
  function Gone(m: Meta): Meta { m.(residentAt := 0, shareCount := 0, tier := m.home) }

  /** `Manager::evict`. */
  function Evict(s: State, id: ObjectId): (State, Result<nat>)
    requires Counted(s)
    ensures Counted(Evict(s, id).0)
  {
    if id !in s.objects then (s, Err(BadObject))
    else
      var meta := s.objects[id];
      if !meta.Resident() then (s, Err(NotResident))
      else match s.region.Release(meta.residentAt, meta.size)
        case Err(why) => (s, Err(why))
        case Ok(region) =>
          match ClassOf(id)
          case None => (s.(region := region), Err(BadClass))
          case Some(c) =>
            (s.(region := region,
                held := HeldMinus(s.held, c, meta.size),
                sessions := Credit(s.sessions, meta.owner, meta.size),
                evictions := s.evictions + 1,
                objects := s.objects[id := Gone(meta)]),
             Ok(meta.size))
  }

  ghost function ResidentIds(objects: map<ObjectId, Meta>): set<ObjectId> {
    set id | id in objects && objects[id].Resident()
  }

  /** Every eviction leaves one resident fewer. */
  lemma EvictShrinks(s: State, id: ObjectId)
    requires Counted(s) && Evict(s, id).1.Ok?
    ensures ResidentIds(Evict(s, id).0.objects) == ResidentIds(s.objects) - {id}
    ensures id in ResidentIds(s.objects)
    ensures |ResidentIds(Evict(s, id).0.objects)| == |ResidentIds(s.objects)| - 1
  {}

  /** `Manager::make_room`: victim after victim, until there is a run for `size`
      bytes, nobody is named, or an eviction is refused. */
  ghost function MakeRoom(s: State, pick: Pick, size: nat): (t: State)
    requires Counted(s)
    ensures Counted(t)
    decreases |ResidentIds(s.objects)|
  {
    if s.region.Fits(size) then s
    else match pick(Residents(s.objects), s.clock, size)
      case None => s
      case Some(victim) =>
        var (t, r) := Evict(s, victim);
        if r.Err? then t
        else
          EvictShrinks(s, victim);
          MakeRoom(t, pick, size)
  }

  /** `Manager::place`: bytes first, then the read, then the table; after a read
      that fails the bytes stay placed. */
  function Place(s: State, w: World, id: ObjectId, size: nat, lease: Lease, wanted: NextUse): (State, Result<Handle>)
    requires Counted(s)
    ensures Counted(Place(s, w, id, size, lease, wanted).0)
  {
    match s.region.Place(size)
    case None => (s, Err(NoBudget))
    case Some((address, region)) =>
      var placed := s.(region := region);
      match w.read(id)
      case Err(why) => (placed, Err(why))
      case Ok(_) =>
        match ClassOf(id)
        case None => (placed, Err(BadClass))
        case Some(c) =>
          var counted := placed.(held := HeldPlus(s.held, c, size));
          if id !in s.objects then (counted, Err(BadObject))
          else (counted.(objects := s.objects[id := Arrived(s.objects[id], address, s.clock, lease, wanted)]),
                Ok(Handle(id, address, size)))
  }

  /** An object that has just arrived at `address`. */
  function Arrived(m: Meta, address: nat, now: nat, lease: Lease, wanted: NextUse): Meta {
    m.(residentAt := address, nextUse := wanted, placedTick := now, usedTick := now,
       tier := Warm, shareCount := lease.Count(), reuseCount := SatAdd(m.reuseCount, 1, U16_MAX))
  }

  /** `Manager::admit`: charges the owner, makes room, places; a placement
      that fails gives the charge back. */
  ghost function Admit(s: State, w: World, id: ObjectId, lease: Lease, wanted: NextUse): (State, Result<Handle>)
    requires Counted(s)
    ensures Counted(Admit(s, w, id, lease, wanted).0)
  {
    if id !in s.objects then (s, Err(BadObject))
    else
      var meta := s.objects[id];
      match Charge(s.sessions, meta.owner, meta.size, meta.precision)
      case Err(why) => (s, Err(why))
      case Ok(charged) =>
        var roomy := MakeRoom(s.(sessions := charged), w.pick, meta.size);
        var (t, r) := Place(roomy, w, id, meta.size, lease, wanted);
        match r
        case Err(why) => (t.(sessions := Credit(t.sessions, meta.owner, meta.size)), r)
        case Ok(_) =>
          match ClassOf(id)
          case None => (t, Err(BadClass))
          case Some(c) => (t.(faults := t.faults[Index(c) := SatAdd(t.faults[Index(c)], 1, U32_MAX)]), r)
  }

  /** `Manager::service`: finds the provider and describes the fault before
      anything is attempted. */
  ghost function Service(s: State, w: World, id: ObjectId, lease: Lease, wanted: NextUse): (State, Result<Handle>)
    requires Counted(s)
    ensures Counted(Service(s, w, id, lease, wanted).0)
  {
    if id !in s.objects then (s, Err(BadObject))
    else if s.objects[id].provider !in w.attached then (s, Err(NoProvider))
    else if ClassOf(id).None? then (s, Err(BadClass))
    else Admit(s, w, id, lease, wanted)
  }

  /** A resident object wanted again. */
  function Touched(m: Meta, now: nat, lease: Lease, wanted: NextUse): Meta {
    m.(shareCount := SatAdd(m.shareCount, lease.Count(), U16_MAX),
       reuseCount := SatAdd(m.reuseCount, 1, U16_MAX), usedTick := now, nextUse := wanted)
  }

  predicate Hits(s: State, id: ObjectId) { id in s.objects && s.objects[id].Resident() }

  function Tick(s: State): State { s.(clock := SatAdd(s.clock, 1, U32_MAX)) }

  /** `Manager::acquire`. */
  ghost function Acquire(s: State, w: World, id: ObjectId, lease: Lease, wanted: NextUse): (State, Result<Handle>)
    requires Counted(s)
    ensures Counted(Acquire(s, w, id, lease, wanted).0)
  {
    var t := Tick(s);
    if Hits(t, id) then
      var meta := t.objects[id];
      if ClassOf(id).None? then (t, Err(BadClass))
      else (t.(objects := t.objects[id := Touched(meta, t.clock, lease, wanted)]),
            Ok(Handle(id, meta.residentAt, meta.size)))
    else Service(t, w, id, lease, wanted)
  }

  /** `Manager::release`. */
  function Release(s: State, id: ObjectId, lease: Lease): (State, Result<()>)
  {
    if id !in s.objects then (s, Err(BadObject))
    else
      var meta := s.objects[id];
      if lease.Count() == 1 && meta.Resident()
      then (s.(objects := s.objects[id := meta.(shareCount := SatSub(meta.shareCount, 1))]), Ok(()))
      else (s, Ok(()))
  }

  /** `Manager::consume`: acquired under a streaming lease, released at once. */
  ghost function Consume(s: State, w: World, id: ObjectId, wanted: NextUse): (State, Result<Handle>)
    requires Counted(s)
    ensures Counted(Consume(s, w, id, wanted).0)
  {
    var (t, r) := Acquire(s, w, id, Streaming, wanted);
    match r
    case Err(_) => (t, r)
    case Ok(handle) =>
      var (u, released) := Release(t, id, Streaming);
      (u, match released case Ok(_) => Ok(handle) case Err(why) => Err(why))
  }

  /** `Manager::register`, once the table has taken the entry. */
  function Register(s: State, id: ObjectId, meta: Meta): State { s.(objects := s.objects[id := meta]) }

  /** `Manager::create_session`. */
  function CreateSession(s: State, contract: Contract): (State, Option<SessionId>) {
    match Admission.CreateSession(s.capacity, s.sessions, contract)
    case None => (s, None)
    case Some((id, after)) => (s.(sessions := after), Some(id))
  }

  /** The table walk of `destroy_session`, over the ids in slot order:
      evicts what the session owns and forgets it, stopping at a refusal. */
  function DestroyWalk(s: State, owner: SessionId, order: seq<ObjectId>, evicted: nat): (State, Result<nat>)
    requires Counted(s)
    ensures Counted(DestroyWalk(s, owner, order, evicted).0)
    decreases |order|
  {
    if order == [] then (s, Ok(evicted))
    else
      var id := order[0];
      if id !in s.objects || s.objects[id].owner != owner || owner == 0
      then DestroyWalk(s, owner, order[1..], evicted)
      else if s.objects[id].Resident() then
        var (t, r) := Evict(s, id);
        match r
        case Err(why) => (t, Err(why))
        case Ok(_) => DestroyWalk(t.(objects := t.objects - {id}), owner, order[1..], evicted + 1)
      else DestroyWalk(s.(objects := s.objects - {id}), owner, order[1..], evicted)
  }

  /** `Manager::destroy_session`. */
  function DestroySession(s: State, owner: SessionId, order: seq<ObjectId>): (State, Result<nat>)
    requires Counted(s)
    ensures Counted(DestroySession(s, owner, order).0)
  {
    var (t, r) := DestroyWalk(s, owner, order, 0);
    match r
    case Err(_) => (t, r)
    case Ok(evicted) =>
      match Destroy(t.sessions, owner)
      case Err(why) => (t, Err(why))
      case Ok(after) => (t.(sessions := after), Ok(evicted))
  }
}
