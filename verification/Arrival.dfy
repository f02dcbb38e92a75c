/** Arrivals: a session is admitted, and its whole context prefilled, every
    position and layer a block of its own. */
module Arrival {
  import opened Basics
  import opened Abi
  import opened MetaModel
  import opened SessionModel
  import opened PolicyModel
  import opened Kernel
  import opened Conservation
  import opened LadderModel
  import opened SqueezeModel
  import opened LadderedModel

  /** What arrives: a contract, and the blocks it is cached in. */
  datatype Guest = Guest(contract: SessionModel.Contract, layers: nat, template: Meta)

  /** The entry of block `at`, full precision at its position's size. */
  function BlockMeta(shape: Shape, g: Guest, id: SessionId, at: nat): Meta {
    g.template.(owner := id, size := Min(shape.Full(at, g.contract.context, g.template.size), U32_MAX))
  }

  /** It is its template's but for its owner and its size: its tokens, a whole
      block of them or a last block's fewer. */
  lemma BlockEntry(shape: Shape, g: Guest, id: SessionId, at: nat)
    requires g.contract.context <= U32_MAX && at < shape.Blocks(g.contract.context)
    ensures var m, tokens := BlockMeta(shape, g, id, at), Min(shape.Per(), SatSub(g.contract.context, at * shape.Per()));
      m == g.template.(owner := id, size := Min(tokens * g.template.size, U32_MAX)) && tokens > 0
  {
    BlockStarts(shape, g.contract.context, at);
  }

  function BlockName(id: SessionId, layer: nat, at: nat): ObjectId
    requires id <= U16_MAX && layer <= U16_MAX
  {
    BlockId(id, layer, at % (U16_MAX + 1))
  }

  /** Register, while a slot of the table is vacant, then consume. */
  ghost function Cached(s: State, vacant: nat, w: World, id: ObjectId, meta: Meta, wanted: NextUse): (r: (State, nat, bool))
    requires Counted(s)
    ensures Counted(r.0)
  {
    if id !in s.objects && vacant == 0 then (s, vacant, false)
    else
      var (t, got) := Consume(Register(s, id, meta), w, id, wanted);
      (t, if id in s.objects then vacant else vacant - 1, got.Ok?)
  }

  /** The prefill of `arrive` from layer `l` of block `at` on: what it leaves,
      and how many it placed before anything refused. */
  ghost function Prefill(s: State, vacant: nat, w: World, shape: Shape, g: Guest, id: SessionId, wanted: ObjectId -> NextUse,
                         at: nat, l: nat, placed: nat): (r: (State, nat))
    requires Counted(s) && id <= U16_MAX && g.layers <= U16_MAX
    ensures Counted(r.0)
    decreases shape.Blocks(g.contract.context) - at, g.layers - l
  {
    if at >= shape.Blocks(g.contract.context) then (s, placed)
    else if l >= g.layers then Prefill(s, vacant, w, shape, g, id, wanted, at + 1, 0, placed)
    else
      var name := BlockName(id, l, at);
      var (t, left, cached) := Cached(s, vacant, w, name, BlockMeta(shape, g, id, at), wanted(name));
      if cached then Prefill(t, left, w, shape, g, id, wanted, at, l + 1, placed + 1) else (t, placed)
  }

  /** `arrive`: the session and how many blocks it got, or a refusal. */
  ghost function Arrive(s: State, vacant: nat, w: World, shape: Shape, g: Guest, wanted: ObjectId -> NextUse)
    : (r: (State, Option<(SessionId, nat)>))
    requires Counted(s) && g.layers <= U16_MAX && |s.sessions| < U16_MAX
    ensures Counted(r.0)
  {
    var (t, made) := CreateSession(s, g.contract);
    match made
    case None => (t, None)
    case Some(id) =>
      CreatedSmall(s, g.contract);
      var (u, placed) := Prefill(t, vacant, w, shape, g, id, wanted, 0, 0, 0);
      (u, Some((id, placed)))
  }

  /** A new id is a 16-bit one. */
  lemma CreatedSmall(s: State, contract: SessionModel.Contract)
    requires Counted(s)
    ensures CreateSession(s, contract).1.Some? ==> CreateSession(s, contract).1.value <= U16_MAX
    ensures Counted(CreateSession(s, contract).0)
  {}

  // ----- what an acquire leaves of a cache -----

  /** The same objects, the same sizes, precisions and owners. */
  ghost predicate SameBlocks(a: Objects, b: Objects) {
    a.Keys == b.Keys
    && forall k :: k in a ==> a[k].size == b[k].size && a[k].precision == b[k].precision && a[k].owner == b[k].owner
  }

  lemma SameBlocksTwice(a: Objects, b: Objects, c: Objects)
    ensures SameBlocks(a, a)
    ensures SameBlocks(a, b) && SameBlocks(b, c) ==> SameBlocks(a, c)
  {}

  lemma EvictBlocks(s: State, id: ObjectId)
    requires Counted(s)
    ensures SameBlocks(s.objects, Evict(s, id).0.objects) && Evict(s, id).0.capacity == s.capacity
  {}

  lemma {:induction false} MakeRoomBlocks(s: State, pick: Pick, size: nat)
    requires Counted(s)
    ensures SameBlocks(s.objects, MakeRoom(s, pick, size).objects)
    ensures SameRungs(s.sessions, MakeRoom(s, pick, size).sessions)
    ensures MakeRoom(s, pick, size).capacity == s.capacity
    decreases |ResidentIds(s.objects)|
  {
    hide Evict, SameBlocks, SameRungs;
    SameBlocksTwice(s.objects, s.objects, s.objects);
    SameRungsTwice(s.sessions, s.sessions, s.sessions);
    var v := pick(Residents(s.objects), s.clock, size);
    if !s.region.Fits(size) && v.Some? {
      EvictBlocks(s, v.value);
      EvictRungs(s, v.value);
      var t := Evict(s, v.value).0;
      if Evict(s, v.value).1.Ok? {
        EvictShrinks(s, v.value);
        MakeRoomBlocks(t, pick, size);
        SameBlocksTwice(s.objects, t.objects, MakeRoom(t, pick, size).objects);
        SameRungsTwice(s.sessions, t.sessions, MakeRoom(t, pick, size).sessions);
      }
    }
  }

  lemma PlaceBlocks(s: State, w: World, id: ObjectId, size: nat, lease: Lease, wanted: NextUse)
    requires Counted(s)
    ensures SameBlocks(s.objects, Place(s, w, id, size, lease, wanted).0.objects)
    ensures Place(s, w, id, size, lease, wanted).0.sessions == s.sessions
    ensures Place(s, w, id, size, lease, wanted).0.capacity == s.capacity
  {}

  lemma ChargeRungs(slots: Slots, owner: SessionId, size: nat, precision: Precision)
    ensures Charge(slots, owner, size, precision).Ok? ==> SameRungs(slots, Charge(slots, owner, size, precision).value)
  {}

  lemma AdmitBlocks(s: State, w: World, id: ObjectId, lease: Lease, wanted: NextUse)
    requires Counted(s)
    ensures SameBlocks(s.objects, Admit(s, w, id, lease, wanted).0.objects)
    ensures SameRungs(s.sessions, Admit(s, w, id, lease, wanted).0.sessions)
    ensures Admit(s, w, id, lease, wanted).0.capacity == s.capacity
  {
    hide Place, MakeRoom, Charge, Credit, SameBlocks, SameRungs;
    SameBlocksTwice(s.objects, s.objects, s.objects);
    SameRungsTwice(s.sessions, s.sessions, s.sessions);
    if id in s.objects {
      var m := s.objects[id];
      ChargeRungs(s.sessions, m.owner, m.size, m.precision);
      var charged := Charge(s.sessions, m.owner, m.size, m.precision);
      if charged.Ok? {
        var paid := s.(sessions := charged.value);
        MakeRoomBlocks(paid, w.pick, m.size);
        var roomy := MakeRoom(paid, w.pick, m.size);
        PlaceBlocks(roomy, w, id, m.size, lease, wanted);
        var t := Place(roomy, w, id, m.size, lease, wanted).0;
        CreditRungs(t.sessions, m.owner, m.size);
        SameBlocksTwice(s.objects, roomy.objects, t.objects);
        SameRungsTwice(s.sessions, paid.sessions, roomy.sessions);
        SameRungsTwice(s.sessions, roomy.sessions, Credit(t.sessions, m.owner, m.size));
      }
    }
  }

  lemma TouchedBlocks(objects: Objects, id: ObjectId, now: nat, lease: Lease, wanted: NextUse)
    requires id in objects
    ensures SameBlocks(objects, objects[id := Touched(objects[id], now, lease, wanted)])
  {}

  lemma AcquireBlocks(s: State, w: World, id: ObjectId, lease: Lease, wanted: NextUse)
    requires Counted(s)
    ensures SameBlocks(s.objects, Acquire(s, w, id, lease, wanted).0.objects)
    ensures SameRungs(s.sessions, Acquire(s, w, id, lease, wanted).0.sessions)
    ensures Acquire(s, w, id, lease, wanted).0.capacity == s.capacity
  {
    hide Admit, SameRungs, SameBlocks, Touched;
    SameRungsTwice(s.sessions, s.sessions, s.sessions);
    SameBlocksTwice(s.objects, s.objects, s.objects);
    var t := Tick(s);
    if Hits(t, id) { TouchedBlocks(t.objects, id, t.clock, lease, wanted); }
    AdmitBlocks(t, w, id, lease, wanted);
  }

  lemma ReleaseBlocks(s: State, id: ObjectId, lease: Lease)
    ensures SameBlocks(s.objects, Release(s, id, lease).0.objects) && Release(s, id, lease).0.sessions == s.sessions
    ensures Release(s, id, lease).0.capacity == s.capacity
  {}

  /** Consuming an object changes no size, precision, owner or rung. */
  lemma ConsumeBlocks(s: State, w: World, id: ObjectId, wanted: NextUse)
    requires Counted(s)
    ensures SameBlocks(s.objects, Consume(s, w, id, wanted).0.objects)
    ensures SameRungs(s.sessions, Consume(s, w, id, wanted).0.sessions)
    ensures Consume(s, w, id, wanted).0.capacity == s.capacity
  {
    hide Acquire, Release, SameRungs, SameBlocks;
    AcquireBlocks(s, w, id, Streaming, wanted);
    var t := Acquire(s, w, id, Streaming, wanted).0;
    ReleaseBlocks(t, id, Streaming);
    SameBlocksTwice(s.objects, t.objects, Release(t, id, Streaming).0.objects);
  }

  /** A consume that succeeds keeps every account. */
  lemma ConsumeKeeps(s: State, w: World, id: ObjectId, wanted: NextUse)
    requires Counted(s) && Conserved(s) && Consume(s, w, id, wanted).1.Ok?
    ensures Conserved(Consume(s, w, id, wanted).0)
  {
    hide Charged, Acquire;
    AcquireKeeps(s, w, id, Streaming, wanted);
    ServedRead(s, w, id, Streaming, wanted);
    ReleaseKeeps(Acquire(s, w, id, Streaming, wanted).0, id, Streaming);
  }

  lemma ServedRead(s: State, w: World, id: ObjectId, lease: Lease, wanted: NextUse)
    requires Counted(s) && Conserved(s) && Acquire(s, w, id, lease, wanted).1.Ok?
    ensures !(ReachesRead(s, w, id) && w.read(id).Err?)
  {
    hide Charged, MakeRoom, Charge;
  }
}
