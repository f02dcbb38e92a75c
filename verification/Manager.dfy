/** The manager as the kernel holds it: table, arena, sessions and counters,
    each updated in place and in the kernel's order. Every
    method is proved to compute what Kernel.dfy says of the manager as a
    value, whether the manager's accounts are in step or not. */
module ManagerModel {
  import opened Basics
  import opened Abi
  import opened MetaModel
  import opened Holes
  import opened ArenaModel
  import opened TableModel
  import opened SessionModel
  import opened SessionTable
  import opened PolicyModel
  import opened StreamModel
  import opened Kernel
  import opened Conservation
  import Admission

  /** The number of provider slots. */
  const MAX_PROVIDERS: nat := 8

  /** The live ids of a table, in slot order, from slot `from` on. */
  function IdsFrom(slots: seq<Slot>, from: nat): seq<ObjectId>
    requires from <= |slots|
    decreases |slots| - from
  {
    if from == |slots| then []
    else if slots[from].Live? then [slots[from].id] + IdsFrom(slots, from + 1)
    else IdsFrom(slots, from + 1)
  }

  /** Two tables alike from slot `from` on, but for what is recorded of the
      objects: vacant, removed and live slots the same, and the ids. */
  ghost predicate SameFrom(a: seq<Slot>, b: seq<Slot>, from: nat) {
    |a| == |b| && forall i :: from <= i < |a| ==> a[i] == b[i] || SameId(a[i], b[i])
  }

  /** Two tables alike but for what is recorded of the objects, and for some
      that are gone. */
  ghost predicate Thinned(a: seq<Slot>, b: seq<Slot>) {
    |a| == |b| && forall i :: 0 <= i < |a| && b[i].Live? ==> a[i].Live? && a[i].id == b[i].id
  }

  lemma ThinnedTwice(a: seq<Slot>, b: seq<Slot>, c: seq<Slot>)
    ensures Thinned(a, a)
    ensures SameFrom(a, b, 0) ==> Thinned(a, b)
    ensures Thinned(a, b) && Thinned(b, c) ==> Thinned(a, c)
  {}

  /** Forgetting one object, its slot aside, thins the table. */
  lemma ForgottenThins(a: seq<Slot>, b: seq<Slot>, contents: map<ObjectId, Meta>, after: map<ObjectId, Meta>, id: ObjectId)
    requires Represents(a, contents) && Represents(b, after) && |a| == |b| && after.Keys == contents.Keys - {id}
    requires forall i :: 0 <= i < |a| && (a[i].Live? ==> a[i].id != id) ==> b[i] == a[i] || SameId(b[i], a[i])
    ensures Thinned(a, b)
  {
    hide NoVacancyBefore;
    forall i | 0 <= i < |a| && b[i].Live? ensures a[i].Live? && a[i].id == b[i].id {
      var k := b[i].id;
      assert k in after && k in contents && k != id;
      var j :| 0 <= j < |a| && a[j] == Live(k, contents[k]);
      assert SameId(b[j], b[i]);
    }
  }

  lemma SameFromTwice(a: seq<Slot>, b: seq<Slot>, c: seq<Slot>)
    ensures SameFrom(a, a, 0)
    ensures SameFrom(a, b, 0) && SameFrom(b, c, 0) ==> SameFrom(a, c, 0)
  {}

  ghost predicate NoTombstones(slots: seq<Slot>) { forall i :: 0 <= i < |slots| ==> slots[i] != Removed }

  lemma {:induction false} SameVacancies(a: seq<Slot>, b: seq<Slot>)
    requires SameFrom(a, b, 0)
    ensures Vacancies(a) == Vacancies(b)
    ensures NoTombstones(a) ==> NoTombstones(b)
  {
    if a != [] {
      assert SameFrom(a[1..], b[1..], 0);
      SameVacancies(a[1..], b[1..]);
    }
  }

  lemma {:induction false} IdsAreAll(slots: seq<Slot>, from: nat)
    requires from <= |slots|
    ensures forall i :: from <= i < |slots| && slots[i].Live? ==> slots[i].id in IdsFrom(slots, from)
    decreases |slots| - from
  {
    if from < |slots| { IdsAreAll(slots, from + 1); }
  }

  /** The walk over a whole table meets every object. */
  lemma WalkMeetsAll(slots: seq<Slot>, contents: map<ObjectId, Meta>)
    requires Represents(slots, contents)
    ensures forall id :: id in contents ==> id in IdsFrom(slots, 0)
  {
    hide NoVacancyBefore;
    IdsAreAll(slots, 0);
  }

  lemma ResidentOwned(r: Region, objects: Objects, id: ObjectId)
    requires Extents(r, objects) && Decodes(objects) && id in objects && objects[id].Resident()
    ensures r.Owned(objects[id].residentAt, objects[id].size)
    ensures objects[id].size > 0 && ClassOf(id).Some?
  {}

  lemma GoneLayout(r: Region, objects: Objects, id: ObjectId)
    requires Extents(r, objects) && id in objects && objects[id].Resident()
    requires r.Release(objects[id].residentAt, objects[id].size).Ok?
    ensures Extents(r.Release(objects[id].residentAt, objects[id].size).value, objects[id := Gone(objects[id])])
  {
    LayoutEvicted(r, objects, id, Gone(objects[id]));
  }

  /** The three ways an admission goes on from a charge. */
  lemma AdmitIs(s: State, w: World, id: ObjectId, lease: Lease, wanted: NextUse)
    requires Counted(s) && id in s.objects
    ensures var m := s.objects[id];
      match Charge(s.sessions, m.owner, m.size, m.precision)
      case Err(why) => Kernel.Admit(s, w, id, lease, wanted) == (s, Err(why))
      case Ok(charged) =>
        var (t, r) := Kernel.Place(Kernel.MakeRoom(s.(sessions := charged), w.pick, m.size), w, id, m.size, lease, wanted);
        Kernel.Admit(s, w, id, lease, wanted) ==
          if r.Err? then (t.(sessions := Credit(t.sessions, m.owner, m.size)), r)
          else if ClassOf(id).None? then (t, Err(BadClass))
          else (t.(faults := t.faults[Index(ClassOf(id).value) := SatAdd(t.faults[Index(ClassOf(id).value)], 1, U32_MAX)]), r)
  {
    hide Charge, Credit, Kernel.MakeRoom, Kernel.Place, ClassOf;
  }

  lemma TouchedLayout(r: Region, objects: Objects, id: ObjectId, m: Meta)
    requires Extents(r, objects) && Decodes(objects) && id in objects
    requires m.residentAt == objects[id].residentAt && m.size == objects[id].size
    ensures Extents(r, objects[id := m]) && Decodes(objects[id := m])
  {
    LayoutSame(r, objects, id, m);
  }

  lemma ArrivedLayout(r: Region, objects: Objects, id: ObjectId, m: Meta)
    requires Extents(r, objects) && Decodes(objects) && (id in objects ==> !objects[id].Resident()) && ClassOf(id).Some?
    requires m.size > 0 && r.Place(m.size).Some? && m.residentAt == r.Place(m.size).value.0
    ensures Extents(r.Place(m.size).value.1, objects[id := m]) && Decodes(objects[id := m])
  {
    LayoutPlaced(r, objects, id, m);
  }

  class Manager {
    const table: Table
    const arena: Arena
    const sessions: Sessions
    const stream: Stream
    const providers: array<bool>
    const read: ObjectId -> Result<()>
    var policy: Rule
    var held: seq<nat>
    var faults: seq<nat>
    var clock: nat
    var evictions: nat
    var capacity: Admission.Capacity

    /** The parts are in shape and every resident entry owns its bytes. */
    ghost predicate Valid()
      reads this, table, table.slots, arena, arena.free, sessions, sessions.slots, stream, providers
    {
      && table.Valid() && arena.Valid() && stream.Valid()
      && sessions.slots.Length == MAX_SESSIONS && providers.Length == MAX_PROVIDERS
      && Counted(View())
      && Extents(arena.View(), table.contents) && Decodes(table.contents)
    }

    /** The manager as a value. */
    ghost function View(): State
      reads this, table, arena, arena.free, sessions, sessions.slots
      requires arena.free.Length == HOLES && arena.holes <= HOLES
    {
      State(table.contents, arena.View(), sessions.slots[..], held, faults, clock, evictions, capacity)
    }

    ghost function Outside(): World
      reads this`policy, providers
    {
      World(PickOf(policy), (set p | 0 <= p < providers.Length && providers[p]), read)
    }

    ghost function Footprint(): set<object> {
      {this, table, table.slots, arena, arena.free, sessions.slots}
    }

    constructor (base: nat, bytes: nat, slots: nat, read: ObjectId -> Result<()>)
      requires base > 0 && slots > 0
      ensures Valid() && View() == Kernel.Start(base, bytes)
      ensures fresh(Footprint()) && fresh(stream) && fresh(providers)
      ensures policy == Demand && stream.declared == [] && stream.cursor == 0
      ensures forall i :: 0 <= i < table.slots.Length ==> table.slots[i] == Vacant
      ensures table.slots.Length == slots
    {
      table := new Table(slots);
      arena := new Arena(base, bytes);
      sessions := new Sessions(MAX_SESSIONS);
      stream := new Stream();
      providers := new bool[MAX_PROVIDERS](_ => false);
      this.read := read;
      policy := Demand;
      held := seq(CLASSES, _ => 0);
      faults := seq(CLASSES, _ => 0);
      clock, evictions := 0, 0;
      capacity := Admission.Capacity(0, 0, 0, 0);
      new;
      EmptyValid(base, bytes);
      assert sessions.slots[..] == seq(MAX_SESSIONS, _ => None);
    }

    /** The resident set as a policy enumerates it: every slot, in order. */
    function Held(): (listing: Listing)
      reads this, table, table.slots
    {
      var e := table.Entries();
      seq(|e|, i requires 0 <= i < |e| =>
        if e[i].Some? && e[i].value.1.Resident() then e[i] else None)
    }

    lemma HeldShows()
      requires table.Valid()
      ensures Shows(Held(), Residents(table.contents))
    {
      var held, slots := Held(), table.slots[..];
      forall i | 0 <= i < |held| && held[i].Some?
        ensures held[i].value.0 in Residents(table.contents)
        ensures Residents(table.contents)[held[i].value.0] == See(held[i].value.1)
      {
        assert slots[i] == Live(held[i].value.0, held[i].value.1);
      }
      forall id | id in Residents(table.contents)
        ensures exists i :: 0 <= i < |held| && held[i].Some? && held[i].value.0 == id
      {
        var i :| 0 <= i < |slots| && slots[i] == Live(id, table.contents[id]);
        assert held[i] == Some((id, table.contents[id]));
      }
    }

    /** One resident out of the arena, its tier as it was registered. */
    method Evict(id: ObjectId) returns (r: Result<nat>)
      requires Valid()
      modifies Footprint()
      ensures Valid()
      ensures (View(), r) == Kernel.Evict(old(View()), id)
      ensures SameFrom(old(table.slots[..]), table.slots[..], 0)
      ensures policy == old(policy)
    {
      hide Extents, Represents, Region.Valid, Credit, Gone, HeldMinus, Round, Region.Release, Region.Owned;
      ghost var was := View();
      var found := table.Get(id);
      if found.None? {
        return Err(BadObject);
      }
      var meta := found.value;
      if !meta.Resident() {
        return Err(NotResident);
      }
      ResidentOwned(was.region, was.objects, id);
      var released := arena.Release(meta.residentAt, meta.size);
      if released.Err? {
        return Err(released.why);
      }
      GoneLayout(was.region, was.objects, id);
      held := HeldMinus(held, ClassOf(id).value, meta.size);
      sessions.Credit(meta.owner, meta.size);
      evictions := evictions + 1;
      var ok := table.Update(id, Gone(meta));
      return Ok(meta.size);
    }

    /** Victim after victim, while the bytes have nowhere to go, somebody is
        named and evictions are not refused. */
    method MakeRoom(size: nat)
      requires Valid()
      modifies Footprint()
      ensures Valid()
      ensures View() == Kernel.MakeRoom(old(View()), PickOf(policy), size)
      ensures SameFrom(old(table.slots[..]), table.slots[..], 0)
      ensures policy == old(policy)
    {
      hide Extents, Represents, Region.Valid, SameFrom, Decodes, Kernel.Evict;
      SameFromTwice(table.slots[..], table.slots[..], table.slots[..]);
      while true
        invariant Valid() && policy == old(policy)
        invariant SameFrom(old(table.slots[..]), table.slots[..], 0)
        invariant Kernel.MakeRoom(View(), PickOf(policy), size) == Kernel.MakeRoom(old(View()), PickOf(policy), size)
        decreases |ResidentIds(table.contents)|
      {
        ghost var was, slots := View(), table.slots[..];
        var largest := arena.LargestRun();
        if largest >= Round(size) {
          return;
        }
        HeldShows();
        var victim := Choose(policy, Held(), Residents(table.contents), clock, size);
        if victim.None? {
          return;
        }
        var evicted := Evict(victim.value);
        SameFromTwice(old(table.slots[..]), slots, table.slots[..]);
        if evicted.Err? {
          return;
        }
        EvictShrinks(was, victim.value);
      }
    }

    /** Bytes, then the read, then the record. */
    method Place(id: ObjectId, size: nat, lease: Lease, wanted: NextUse) returns (r: Result<Handle>)
      requires Valid() && size > 0
      requires id in table.contents ==> table.contents[id].size == size && !table.contents[id].Resident()
      modifies Footprint()
      ensures Valid()
      ensures (View(), r) == Kernel.Place(old(View()), old(Outside()), id, size, lease, wanted)
      ensures SameFrom(old(table.slots[..]), table.slots[..], 0)
      ensures policy == old(policy)
    {
      hide Extents, Decodes, Represents, Region.Valid, Region.Place;
      ghost var was := View();
      var address := arena.Place(size);
      if address.None? {
        return Err(NoBudget);
      }
      ExtentsTaken(was.region, was.objects, size);
      var fetched := read(id);
      if fetched.Err? {
        return Err(fetched.why);
      }
      var kind := ClassOf(id);
      if kind.None? {
        return Err(BadClass);
      }
      held := HeldPlus(held, kind.value, size);
      var now := clock;
      var found := table.Get(id);
      if found.None? {
        return Err(BadObject);
      }
      var placed := found.value;
      ghost var arrived := Arrived(placed, address.value, now, lease, wanted);
      ArrivedLayout(was.region, was.objects, id, arrived);
      var ok := table.Update(id, placed.(
        residentAt := address.value,
        nextUse := wanted,
        placedTick := now,
        usedTick := now,
        tier := Warm,
        shareCount := lease.Count(),
        reuseCount := SatAdd(placed.reuseCount, 1, U16_MAX)));
      return Ok(Handle(id, address.value, size));
    }

    /** Charges the owner, makes room, places; a placement that fails gives
        the charge back. */
    method Admit(id: ObjectId, lease: Lease, wanted: NextUse) returns (r: Result<Handle>)
      requires Valid() && id in table.contents && !table.contents[id].Resident()
      modifies Footprint()
      ensures Valid()
      ensures (View(), r) == Kernel.Admit(old(View()), old(Outside()), id, lease, wanted)
      ensures SameFrom(old(table.slots[..]), table.slots[..], 0)
      ensures policy == old(policy)
    {
      hide Extents, Represents, Region.Valid, Decodes, SameFrom, Kernel.MakeRoom, Kernel.Place, Charge, Credit, Kernel.Admit, ClassOf;
      AdmitIs(View(), Outside(), id, lease, wanted);
      ghost var first := table.slots[..];
      var found := table.Get(id);
      var meta := found.value;
      SizePositive(arena.View(), table.contents, id);
      var charged := sessions.Charge(meta.owner, meta.size, meta.precision);
      SameFromTwice(first, first, first);
      if charged.Err? {
        return Err(charged.why);
      }
      ghost var paid := View();
      MakeRoom(meta.size);
      MakeRoomSpares(paid, PickOf(policy), meta.size, id);
      ghost var roomy := table.slots[..];
      r := Place(id, meta.size, lease, wanted);
      SameFromTwice(first, roomy, table.slots[..]);
      match r {
        case Ok(_) =>
          var kind := ClassOf(id);
          if kind.None? {
            return Err(BadClass);
          }
          faults := faults[Index(kind.value) := SatAdd(faults[Index(kind.value)], 1, U32_MAX)];
        case Err(_) =>
          sessions.Credit(meta.owner, meta.size);
      }
    }

    /** Services a miss: finds the provider, describes the fault, admits. */
    method Service(id: ObjectId, lease: Lease, wanted: NextUse) returns (r: Result<Handle>)
      requires Valid() && (id in table.contents ==> !table.contents[id].Resident())
      modifies Footprint()
      ensures Valid()
      ensures (View(), r) == Kernel.Service(old(View()), old(Outside()), id, lease, wanted)
      ensures SameFrom(old(table.slots[..]), table.slots[..], 0)
      ensures policy == old(policy)
    {
      hide Extents, Represents, Region.Valid, Kernel.Admit;
      var found := table.Get(id);
      if found.None? {
        return Err(BadObject);
      }
      var slot := found.value.provider;
      if slot >= MAX_PROVIDERS || !providers[slot] {
        return Err(NoProvider);
      }
      if ClassOf(id).None? {
        return Err(BadClass);
      }
      r := Admit(id, lease, wanted);
    }

    /** A hit or a fault; the stream is asked once, before either path. */
    method Acquire(id: ObjectId, lease: Lease) returns (r: Result<Handle>)
      requires Valid()
      modifies Footprint()
      ensures Valid()
      ensures (View(), r) == Kernel.Acquire(old(View()), old(Outside()), id, lease,
                               WantedAfter(stream.declared, stream.cursor, id))
      ensures SameFrom(old(table.slots[..]), table.slots[..], 0)
      ensures policy == old(policy)
    {
      hide Extents, Decodes, Represents, Region.Valid, Kernel.Service, WantedAfter;
      clock := SatAdd(clock, 1, U32_MAX);
      var wanted := stream.NextAfter(id);
      var found := table.Get(id);
      if found.Some? && found.value.Resident() {
        var meta := found.value;
        if ClassOf(id).None? {
          return Err(BadClass);
        }
        TouchedLayout(arena.View(), table.contents, id, Touched(meta, clock, lease, wanted));
        var ok := table.Update(id, meta.(
          shareCount := SatAdd(meta.shareCount, lease.Count(), U16_MAX),
          reuseCount := SatAdd(meta.reuseCount, 1, U16_MAX),
          usedTick := clock,
          nextUse := wanted));
        return Ok(Handle(id, meta.residentAt, meta.size));
      }
      r := Service(id, lease, wanted);
    }

    /** A claim given back; a lease that was never counted gives back nothing. */
    method Release(id: ObjectId, lease: Lease) returns (r: Result<()>)
      requires Valid()
      modifies table, table.slots
      ensures Valid()
      ensures (View(), r) == Kernel.Release(old(View()), id, lease)
      ensures SameFrom(old(table.slots[..]), table.slots[..], 0)
    {
      hide Extents, Represents, Region.Valid;
      var found := table.Get(id);
      if found.None? {
        return Err(BadObject);
      }
      var meta := found.value;
      if lease.Count() == 1 && meta.Resident() {
        LayoutSame(arena.View(), table.contents, id, meta.(shareCount := SatSub(meta.shareCount, 1)));
        var ok := table.Update(id, meta.(shareCount := SatSub(meta.shareCount, 1)));
      }
      return Ok(());
    }

    /** One pass over an object: claimed, then given back. */
    method Consume(id: ObjectId) returns (r: Result<Handle>)
      requires Valid()
      modifies Footprint()
      ensures Valid()
      ensures (View(), r) == Kernel.Consume(old(View()), old(Outside()), id,
                               WantedAfter(stream.declared, stream.cursor, id))
      ensures SameFrom(old(table.slots[..]), table.slots[..], 0)
      ensures policy == old(policy)
    {
      hide Extents, Represents, Region.Valid, Kernel.Acquire;
      r := Acquire(id, Streaming);
      if r.Err? {
        return;
      }
      var released := Release(id, Streaming);
      if released.Err? {
        r := Err(released.why);
      }
    }

    /** An entry for an object; an error exactly when it is new and the table
        has no vacant slot for it. */
    method Register(id: ObjectId, meta: Meta) returns (r: Result<()>)
      requires Valid() && meta.size > 0 && !meta.Resident()
      requires id in table.contents ==> !table.contents[id].Resident()
      modifies table, table.slots
      ensures Valid()
      ensures r.Ok? <==> id in old(table.contents) || old(Vacancies(table.slots[..])) > 0
      ensures r.Ok? ==> View() == Kernel.Register(old(View()), id, meta)
      ensures r.Err? ==> r == Err(NoBudget) && View() == old(View()) && table.slots[..] == old(table.slots[..])
      ensures r.Ok? && id !in old(table.contents) && NoTombstones(old(table.slots[..])) ==>
        NoTombstones(table.slots[..]) && Vacancies(table.slots[..]) == old(Vacancies(table.slots[..])) - 1
    {
      hide Extents, Represents, Region.Valid;
      LayoutAbsent(arena.View(), table.contents, id, meta);
      var ok := table.Insert(id, meta);
      return if ok then Ok(()) else Err(NoBudget);
    }

    /** A new session, once admission has agreed. */
    method CreateSession(contract: SessionModel.Contract) returns (r: Option<SessionId>)
      requires Valid()
      modifies sessions.slots
      ensures Valid()
      ensures (View(), r) == Kernel.CreateSession(old(View()), contract)
    {
      hide Extents, Represents, Region.Valid;
      if Admission.Admit(capacity, sessions.slots[..], contract).Declined? {
        return None;
      }
      var made := sessions.Create(contract);
      return match made case Ok(id) => Some(id) case Err(_) => None;
    }

    /** Forgets one object, evicting it first if it is resident. */
    method EvictAndForget(id: ObjectId) returns (r: Result<nat>)
      requires Valid() && id in table.contents
      modifies Footprint()
      ensures Valid()
      ensures var was := old(View());
        if was.objects[id].Resident() then
          var (t, e) := Kernel.Evict(was, id);
          (View(), r) == if e.Err? then (t, e) else (t.(objects := t.objects - {id}), Ok(1))
        else (View(), r) == (was.(objects := was.objects - {id}), Ok(0))
      ensures forall i :: 0 <= i < table.slots.Length && (old(table.slots[i]).Live? ==> old(table.slots[i]).id != id) ==>
        table.slots[i] == old(table.slots[i]) || SameId(table.slots[i], old(table.slots[i]))
      ensures Thinned(old(table.slots[..]), table.slots[..])
      ensures policy == old(policy)
    {
      hide Extents, Represents, Region.Valid, Kernel.Evict;
      ghost var first, contents := table.slots[..], table.contents;
      ThinnedTwice(first, first, first);
      var found := table.Get(id);
      var evicted := 0;
      if found.value.Resident() {
        var e := Evict(id);
        ThinnedTwice(first, table.slots[..], first);
        if e.Err? {
          return e;
        }
        EvictedAbsent(old(View()), id);
        evicted := 1;
      }
      LayoutForgotten(arena.View(), table.contents, id);
      ghost var absent := table.slots[..];
      ghost var left := table.contents;
      var ok := table.Remove(id);
      ForgottenThins(absent, table.slots[..], left, table.contents, id);
      ThinnedTwice(first, absent, table.slots[..]);
      return Ok(evicted);
    }

    /** One slot of the walk: evicts and forgets what it holds if the
        session owns it. */
    method DestroyAt(slot: nat, id: SessionId) returns (r: Result<nat>)
      requires Valid() && slot < table.slots.Length
      modifies Footprint()
      ensures Valid() && policy == old(policy)
      ensures SameFrom(old(table.slots[..]), table.slots[..], slot + 1)
      ensures WalkedAt(old(View()), View(), old(table.slots[slot]), id, r)
      ensures Thinned(old(table.slots[..]), table.slots[..])
    {
      hide Extents, Represents, Region.Valid, Kernel.Evict;
      ThinnedTwice(table.slots[..], table.slots[..], table.slots[..]);
      var entry := table.slots[slot];
      if entry.Live? {
        OthersElsewhere(table.slots[..], table.contents, slot);
        if entry.meta.owner == id && id != 0 {
          r := EvictAndForget(entry.id);
          return;
        }
      }
      return Ok(0);
    }

    /** Ends a session: in slot order, whatever it owns leaves the arena and
        the table, and at last its own slot is cleared; it survives a walk cut
        short by the arena. */
    method DestroySession(id: SessionId) returns (r: Result<nat>)
      requires Valid()
      modifies Footprint()
      ensures Valid()
      ensures forall k :: k in old(table.contents) ==> k in IdsFrom(old(table.slots[..]), 0)
      ensures (View(), r) == Kernel.DestroySession(old(View()), id, IdsFrom(old(table.slots[..]), 0))
      ensures Conserved(old(View())) ==> Conserved(View())
      ensures Thinned(old(table.slots[..]), table.slots[..])
      ensures policy == old(policy)
    {
      hide Charged, Extents, Represents, Region.Valid, Kernel.Evict, Destroy, DestroyWalk, WalkedAt, Thinned;
      ghost var was, first := View(), table.slots[..];
      WalkMeetsAll(first, table.contents);
      if Conserved(was) { DestroyKeeps(was, id, IdsFrom(first, 0)); }
      ThinnedTwice(first, first, first);
      var evicted := 0;
      var slot := 0;
      while slot < table.slots.Length
        invariant slot <= table.slots.Length
        invariant Valid() && policy == old(policy)
        invariant SameFrom(first, table.slots[..], slot) && Thinned(first, table.slots[..])
        invariant DestroyWalk(View(), id, IdsFrom(first, slot), evicted) == DestroyWalk(was, id, IdsFrom(first, 0), 0)
      {
        ghost var before, entry := View(), table.slots[slot];
        ghost var standing := table.slots[..];
        var forgotten := DestroyAt(slot, id);
        ThinnedTwice(first, standing, table.slots[..]);
        assert first[slot].Live? <==> entry.Live?;
        assert entry.Live? ==> first[slot].id == entry.id;
        WalkStep(before, View(), entry, id, forgotten, IdsFrom(first, slot + 1), evicted);
        if forgotten.Err? {
          return forgotten;
        }
        evicted := evicted + forgotten.value;
        slot := slot + 1;
      }
      WalkDone(View(), id, evicted);
      var ended := sessions.Destroy(id);
      return match ended case Ok(_) => Ok(evicted) case Err(why) => Err(why);
    }
  }

  /** What one slot of the walk does to the manager. */
  ghost predicate WalkedAt(s: State, t: State, entry: Slot, owner: SessionId, r: Result<nat>) {
    Counted(s) &&
    if !entry.Live? then t == s && r == Ok(0)
    else
      && entry.id in s.objects && s.objects[entry.id] == entry.meta
      && if entry.meta.owner != owner || owner == 0 then t == s && r == Ok(0)
         else if entry.meta.Resident() then
           var (u, e) := Kernel.Evict(s, entry.id);
           (t, r) == if e.Err? then (u, e) else (u.(objects := u.objects - {entry.id}), Ok(1))
         else (t, r) == (s.(objects := s.objects - {entry.id}), Ok(0))
  }

  /** It is the next step of the walk over ids. */
  lemma WalkStep(s: State, t: State, entry: Slot, owner: SessionId, r: Result<nat>, rest: seq<ObjectId>, evicted: nat)
    requires Counted(s) && Counted(t) && WalkedAt(s, t, entry, owner, r)
    ensures var order := if entry.Live? then [entry.id] + rest else rest;
      DestroyWalk(s, owner, order, evicted) == if r.Err? then (t, r) else DestroyWalk(t, owner, rest, evicted + r.value)
  {
    if entry.Live? { assert ([entry.id] + rest)[1..] == rest; }
  }

  lemma WalkDone(s: State, owner: SessionId, evicted: nat)
    requires Counted(s)
    ensures DestroyWalk(s, owner, [], evicted) == (s, Ok(evicted))
  {}

  lemma EvictedAbsent(s: State, id: ObjectId)
    requires Counted(s) && Kernel.Evict(s, id).1.Ok?
    ensures id in Kernel.Evict(s, id).0.objects && !Kernel.Evict(s, id).0.objects[id].Resident()
  {}

  /** A live id is in no other slot. */
  lemma OthersElsewhere(slots: seq<Slot>, contents: map<ObjectId, Meta>, at: nat)
    requires Represents(slots, contents) && at < |slots| && slots[at].Live?
    ensures slots[at].id in contents && contents[slots[at].id] == slots[at].meta
    ensures forall i :: 0 <= i < |slots| && i != at && slots[i].Live? ==> slots[i].id != slots[at].id
  {
    assert forall i :: 0 <= i < |slots| && i != at && slots[i].Live? ==> !SameId(slots[i], slots[at]);
  }

  lemma SizePositive(r: Region, objects: Objects, id: ObjectId)
    requires Extents(r, objects) && id in objects
    ensures objects[id].size > 0
  {}

  /** Making room touches nothing that is not resident. */
  lemma {:induction false} MakeRoomSpares(s: State, pick: Pick, size: nat, id: ObjectId)
    requires Counted(s) && id in s.objects && !s.objects[id].Resident()
    ensures id in Kernel.MakeRoom(s, pick, size).objects
    ensures Kernel.MakeRoom(s, pick, size).objects[id] == s.objects[id]
    decreases |ResidentIds(s.objects)|
  {
    var v := pick(Residents(s.objects), s.clock, size);
    if !s.region.Fits(size) && v.Some? && Evict(s, v.value).1.Ok? {
      EvictShrinks(s, v.value);
      MakeRoomSpares(Evict(s, v.value).0, pick, size, id);
    }
  }
}
