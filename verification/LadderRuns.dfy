/** The ladder over whole runs: arrivals and squeezes in any order, and when
    nothing can be refused. */
module LadderRuns {
  import opened Basics
  import opened Abi
  import opened MetaModel
  import opened Holes
  import opened SessionModel
  import opened Kernel
  import opened Conservation
  import opened LadderModel
  import opened WalkModel
  import opened SqueezeModel
  import opened Shrink
  import opened LadderedModel
  import opened LadderExact
  import opened SqueezeExact
  import opened LadderSum
  import opened Arrival
  import opened ArrivalLadder
  import Admission
  import Runs

  // ----- owners -----

  /** Nobody new in the table, and nobody's owner changed. */
  ghost predicate SameOwners(a: Objects, b: Objects) { forall k :: k in b ==> k in a && b[k].owner == a[k].owner }

  /** Everything in the table is a block of somebody's cache. */
  ghost predicate OnlyCaches(objects: Objects) { forall k :: k in objects ==> ClassOf(k) == Some(KvBlock) }

  lemma SameOwnersTwice(a: Objects, b: Objects, c: Objects)
    ensures SameOwners(a, a)
    ensures SameOwners(a, b) && SameOwners(b, c) ==> SameOwners(a, c)
    ensures SameOwners(a, b) && KvNamed(a) ==> KvNamed(b)
    ensures SameOwners(a, b) && OnlyCaches(a) ==> OnlyCaches(b)
  {}

  lemma {:induction false} RewritesOwners(s: State, shape: Shape, owner: SessionId, rung: Rung, blocks: nat,
                                          order: seq<ObjectId>, coarsest: Precision)
    requires Counted(s)
    ensures SameOwners(s.objects, Rewrites(s, shape, owner, rung, blocks, order, coarsest).0.objects)
    decreases |order|
  {
    hide Rewrite, SameOwners;
    SameOwnersTwice(s.objects, s.objects, s.objects);
    if order != [] {
      if !OwnBlock(s, order[0], owner) {
        RewritesOwners(s, shape, owner, rung, blocks, order[1..], coarsest);
      } else {
        var fate := shape.FateOf(rung, TensorOf(order[0]), blocks);
        var (t, done) := Rewrite(s, order[0], fate);
        var next := if done.Ok? then Coarser(coarsest, fate) else coarsest;
        RewriteTouches(s, order[0], fate);
        TouchesOwners(s.objects, t.objects, order[0]);
        RewritesOwners(t, shape, owner, rung, blocks, order[1..], next);
        SameOwnersTwice(s.objects, t.objects, Rewrites(t, shape, owner, rung, blocks, order[1..], next).0.objects);
      }
    }
  }

  lemma TouchesOwners(a: Objects, b: Objects, id: ObjectId)
    requires OnlyTouches(a, b, id)
    ensures SameOwners(a, b)
  {}

  lemma {:induction false} DeepenOwners(s: State, shape: Shape, rung: Rung, from: nat, order: seq<ObjectId>)
    requires Counted(s)
    ensures SameOwners(s.objects, DeepenAll(s, shape, rung, from, order).0.objects)
    decreases MAX_SESSIONS - from
  {
    hide Rewrites, SameOwners;
    SameOwnersTwice(s.objects, s.objects, s.objects);
    if from < MAX_SESSIONS {
      if from < |s.sessions| && s.sessions[from].Some? && Movable(s.sessions[from].value, rung) {
        var who := s.sessions[from].value;
        RewritesOwners(s, shape, who.id, rung, shape.Blocks(who.contract.context), order, who.delivered.coarsest);
        var t := SqueezeModel.Step(s, shape, who, rung, order).0;
        DeepenOwners(t, shape, rung, from + 1, order);
        SameOwnersTwice(s.objects, t.objects, DeepenAll(t, shape, rung, from + 1, order).0.objects);
      } else {
        DeepenOwners(s, shape, rung, from + 1, order);
      }
    }
  }

  lemma DestroyOwners(s: State, id: SessionId, order: seq<ObjectId>)
    requires Counted(s)
    ensures SameOwners(s.objects, DestroySession(s, id, order).0.objects)
  {
    DestroyWalkOwners(s, id, order, 0);
    Ended(s, id, order);
  }

  lemma {:induction false} SqueezeOwners(s: State, shape: Shape, order: seq<ObjectId>, done: Squeezed)
    requires Ready(s)
    ensures SameOwners(s.objects, Squeeze(s, shape, order, done).0.objects)
    decreases Left(s.sessions)
  {
    hide DeepenAll, DestroySession, Next, Left, DistinctIds, OneFewer, DeeperOf, SameOwners;
    SameOwnersTwice(s.objects, s.objects, s.objects);
    match Next(s.capacity, shape, s.sessions)
    case Fits =>
    case Exhausted =>
    case Deepen(rung) =>
      NextDeepens(s.capacity, shape, s.sessions, rung);
      DeepenFalls(s, shape, rung, order);
      DeepenOwners(s, shape, rung, 0, order);
      var (t, read, calm) := DeepenAll(s, shape, rung, 0, order);
      var now := done.(reached := DeeperOf(done.reached, rung), recomputed := done.recomputed + read);
      SqueezeOwners(t, shape, order, now);
      SameOwnersTwice(s.objects, t.objects, Squeeze(t, shape, order, now).0.objects);
    case Terminate(id) =>
      DestroyOwners(s, id, order);
      var (t, r) := DestroySession(s, id, order);
      if r.Ok? {
        DestroyFalls(s, id, order);
        var now := done.(reached := DeeperOf(done.reached, L7), terminated := done.terminated + 1);
        SqueezeOwners(t, shape, order, now);
        SameOwnersTwice(s.objects, t.objects, Squeeze(t, shape, order, now).0.objects);
      }
  }

  // ----- runs -----

  datatype Event =
    | Declares(capacity: Admission.Capacity)
    | Arrives(vacant: nat, world: World, guest: Guest, wanted: ObjectId -> NextUse)
    | SqueezedTo(bytes: nat, order: seq<ObjectId>)
    | Manages(world: World, op: Runs.Op)

  /** A manager the ladder has been run on: every account kept, every cache
      exactly its rung's, and nothing else in the table. */
  ghost predicate Exact(c: Cache, s: State) {
    Ready(s) && Conserved(s) && KvNamed(s.objects) && OnlyCaches(s.objects) && AllLaddered(c, s)
  }

  /** The manager's own operations that a cache may meet: its blocks acquired,
      released and evicted, a session ended, and one begun that caches nothing. */
  predicate Managed(op: Runs.Op) {
    match op
    case DoAdopt(_, contract) => contract.context == 0
    case DoCreate(contract) => contract.context == 0
    case DoRegister(_, _) => false
    case _ => true
  }

  /** What an event makes of the manager, and whether it ran to its end: no
      prefill cut short, no squeeze or ending of a session refused. */
  ghost function After(c: Cache, s: State, e: Event): (r: (State, bool))
    requires Ready(s) && (e.Arrives? ==> e.guest.layers <= U16_MAX)
    ensures Counted(r.0)
  {
    match e
    case Declares(capacity) => (s.(capacity := capacity), true)
    case Arrives(vacant, w, g, wanted) =>
      var (t, made) := Arrive(s, vacant, w, c.shape, g, wanted);
      (t, made.None? || made.value.1 == c.shape.Blocks(g.contract.context) * g.layers)
    case SqueezedTo(bytes, order) =>
      var (t, done, smooth) := SqueezeTo(s, c.shape, bytes, order);
      (t, smooth)
    case Manages(w, op) =>
      (Runs.Step(s, w, op), op.DoDestroy? ==> DestroySession(s, op.session, op.order).1.Ok?)
  }

  /** Guests fit the cache, walks meet the whole table, and reads succeed. */
  ghost predicate Proper(c: Cache, s: State, e: Event)
    requires Counted(s)
  {
    match e
    case Declares(_) => true
    case Arrives(_, _, g, _) => Suits(c, g)
    case SqueezedTo(_, order) => Walked(s, order)
    case Manages(w, op) => Managed(op) && Runs.Legal(s, w, op)
  }

  lemma ProperLayers(c: Cache, s: State, e: Event)
    requires Counted(s) && Proper(c, s, e)
    ensures e.Arrives? ==> e.guest.layers <= U16_MAX
  {}

  lemma {:induction false} PrefillKinds(s: State, vacant: nat, w: World, shape: Shape, g: Guest, id: SessionId,
                                        wanted: ObjectId -> NextUse, at: nat, l: nat, placed: nat)
    requires Counted(s) && id <= U16_MAX && g.layers <= U16_MAX
    ensures |Prefill(s, vacant, w, shape, g, id, wanted, at, l, placed).0.sessions| == |s.sessions|
    ensures OnlyCaches(s.objects) ==> OnlyCaches(Prefill(s, vacant, w, shape, g, id, wanted, at, l, placed).0.objects)
    decreases shape.Blocks(g.contract.context) - at, g.layers - l
  {
    hide Consume, BlockName, BlockMeta;
    if at < shape.Blocks(g.contract.context) {
      if l >= g.layers {
        PrefillKinds(s, vacant, w, shape, g, id, wanted, at + 1, 0, placed);
      } else {
        var name, meta := BlockName(id, l, at), BlockMeta(shape, g, id, at);
        ConsumeBlocks(Register(s, name, meta), w, name, wanted(name));
        NameIsCache(id, l, at);
        var (t, left, cached) := Cached(s, vacant, w, name, meta, wanted(name));
        if cached { PrefillKinds(t, left, w, shape, g, id, wanted, at, l + 1, placed + 1); }
      }
    }
  }

  lemma NameIsCache(id: SessionId, layer: nat, at: nat)
    requires id <= U16_MAX && layer <= U16_MAX
    ensures ClassOf(BlockName(id, layer, at)) == Some(KvBlock)
  {
    IdRoundTrip(KvBlock, id, layer, at % (U16_MAX + 1), 0);
  }

  /** An arrival adds no slot, and nothing but its blocks. */
  lemma ArriveKinds(s: State, vacant: nat, w: World, shape: Shape, g: Guest, wanted: ObjectId -> NextUse)
    requires Counted(s) && g.layers <= U16_MAX && |s.sessions| < U16_MAX
    ensures |Arrive(s, vacant, w, shape, g, wanted).0.sessions| == |s.sessions|
    ensures OnlyCaches(s.objects) ==> OnlyCaches(Arrive(s, vacant, w, shape, g, wanted).0.objects)
  {
    hide Prefill;
    var (t, made) := CreateSession(s, g.contract);
    if made.Some? {
      CreatedSmall(s, g.contract);
      PrefillKinds(t, vacant, w, shape, g, made.value, wanted, 0, 0, 0);
    }
  }

  lemma ConservedDistinct(s: State)
    requires Conserved(s)
    ensures Counted(s) && DistinctIds(s.sessions)
  {}

  lemma StepExact(c: Cache, s: State, e: Event)
    requires Exact(c, s) && Proper(c, s, e)
    ensures e.Arrives? ==> e.guest.layers <= U16_MAX
    ensures After(c, s, e).1 ==> Exact(c, After(c, s, e).0)
  {
    hide Charged, AllLaddered, KvNamed, OnlyCaches, Arrive, Squeeze, DistinctIds;
    ProperLayers(c, s, e);
    match e {
      case Declares(capacity) => CapacityApart(c, s, s.(capacity := capacity));
      case Arrives(vacant, w, g, wanted) =>
        ArriveLadder(c, s, vacant, w, g, wanted);
        ArriveKinds(s, vacant, w, c.shape, g, wanted);
        if After(c, s, e).1 { ConservedDistinct(After(c, s, e).0); }
      case SqueezedTo(bytes, order) =>
        var asked := s.(capacity := s.capacity.(bytes := bytes));
        CapacityApart(c, s, asked);
        AllLadderedBehind(c, s);
        SqueezeLadder(c, asked, order, UNSQUEEZED);
        SqueezeReady(s, c.shape, bytes, order);
        SqueezeOwners(asked, c.shape, order, UNSQUEEZED);
        SameOwnersTwice(s.objects, After(c, s, e).0.objects, s.objects);
      case Manages(w, op) => if After(c, s, e).1 { ManagedExact(c, s, w, op); }
    }
  }

  /** Nothing moved but residency: the same blocks, the same rungs. */
  lemma BlocksExact(c: Cache, s: State, t: State)
    requires Exact(c, s) && Conserved(t) && SameBlocks(s.objects, t.objects) && SameRungs(s.sessions, t.sessions)
    ensures Exact(c, t)
  {
    hide Charged, Laddered;
    ConservedDistinct(t);
    forall i | 0 <= i < |t.sessions| && HoldsContext(t.sessions[i]) ensures Laddered(c, t.sessions[i].value, t.objects) {
      var a, b := s.sessions[i].value, t.sessions[i].value;
      assert Laddered(c, a, s.objects);
      BlocksLaddered(c, a, s.objects, t.objects);
      SameCache(c, a, b, b.rung, t.objects);
    }
  }

  lemma BlocksLaddered(c: Cache, s: Session, a: Objects, b: Objects)
    requires SameBlocks(a, b) && Laddered(c, s, a)
    ensures Laddered(c, s, b)
  {
    hide FateOn, Cache.Holds;
    forall k: ObjectId | IsBlock(c, s, k) ensures HeldOn(c, s, s.rung, b, k) { assert HeldOn(c, s, s.rung, a, k); }
  }

  /** A session that caches nothing is no cache. */
  lemma NewcomerExact(c: Cache, s: State, at: nat, who: Session)
    requires Exact(c, s) && at < |s.sessions| && s.sessions[at].None? && who.contract.context == 0
    requires Conserved(s.(sessions := s.sessions[at := Some(who)]))
    ensures Exact(c, s.(sessions := s.sessions[at := Some(who)]))
  {
    hide Charged, Laddered;
    var t := s.(sessions := s.sessions[at := Some(who)]);
    ConservedDistinct(t);
    forall i | 0 <= i < |t.sessions| && HoldsContext(t.sessions[i]) ensures Laddered(c, t.sessions[i].value, t.objects) {
      assert i != at && t.sessions[i] == s.sessions[i];
    }
  }

  /** One of the manager's own operations keeps every cache exact. */
  lemma ManagedExact(c: Cache, s: State, w: World, op: Runs.Op)
    requires Exact(c, s) && Managed(op) && Runs.Legal(s, w, op)
    requires op.DoDestroy? ==> DestroySession(s, op.session, op.order).1.Ok?
    ensures Exact(c, Runs.Step(s, w, op))
  {
    hide Charged, AllLaddered, KvNamed, OnlyCaches, Exact, Acquire, Release, Evict, SameBlocks, SameRungs, DestroySession, Runs.Legal;
    ExactConserved(c, s);
    LegalReads(s, w, op);
    match op
    case DoAcquire(id, lease, wanted) =>
      AcquireKeeps(s, w, id, lease, wanted);
      AcquireBlocks(s, w, id, lease, wanted);
      BlocksExact(c, s, Acquire(s, w, id, lease, wanted).0);
    case DoRelease(id, lease) =>
      ReleaseKeeps(s, id, lease);
      ReleaseBlocks(s, id, lease);
      SameRungsTwice(s.sessions, s.sessions, s.sessions);
      BlocksExact(c, s, Release(s, id, lease).0);
    case DoEvict(id) =>
      EvictKeeps(s, id, 0, 0);
      EvictBlocks(s, id);
      EvictRungs(s, id);
      BlocksExact(c, s, Evict(s, id).0);
    case DoAdopt(id, contract) =>
      if Adopt(s.sessions, id, contract).Ok? {
        AdoptKeeps(s, id, contract);
        NewcomerExact(c, s, FreeSlot(s.sessions).value, Newcomer(id, contract));
      }
    case DoCreate(contract) =>
      var made := CreateSession(s, contract).1;
      CreateKeeps(s, contract);
      if made.Some? { NewcomerExact(c, s, FreeSlot(s.sessions).value, Newcomer(made.value, contract)); }
    case DoDestroy(id, order) => EndedExact(c, s, id, order);
    case DoRegister(_, _) =>
  }

  lemma ExactConserved(c: Cache, s: State)
    requires Exact(c, s)
    ensures Counted(s) && Ready(s) && Conserved(s)
  {}

  lemma LegalReads(s: State, w: World, op: Runs.Op)
    requires Counted(s) && Runs.Legal(s, w, op)
    ensures op.DoAcquire? && ReachesRead(s, w, op.id) ==> w.read(op.id).Ok?
    ensures op.DoDestroy? ==> Walked(s, op.order)
  {}

  /** A session ended takes its cache with it, and leaves the others exact. */
  lemma EndedExact(c: Cache, s: State, id: SessionId, order: seq<ObjectId>)
    requires Exact(c, s) && Walked(s, order) && DestroySession(s, id, order).1.Ok?
    ensures Exact(c, DestroySession(s, id, order).0)
  {
    hide Charged, AllLaddered, AllBehind, KvNamed, OnlyCaches, DestroySession, DistinctIds;
    AllLadderedBehind(c, s);
    DestroyLadder(c, s, id, order);
    DestroyOwners(s, id, order);
    DestroyFalls(s, id, order);
    SameOwnersTwice(s.objects, DestroySession(s, id, order).0.objects, s.objects);
  }

  /** A run, event by event, each of them to its end. */
  ghost predicate RunsTo(c: Cache, s: State, es: seq<Event>, t: State)
    requires Ready(s)
    decreases |es|
  {
    if es == [] then t == s
    else
      && Proper(c, s, es[0]) && (es[0].Arrives? ==> es[0].guest.layers <= U16_MAX)
      && After(c, s, es[0]).1 && Ready(After(c, s, es[0]).0) && RunsTo(c, After(c, s, es[0]).0, es[1..], t)
  }

  lemma {:induction false} EveryRunExact(c: Cache, s: State, es: seq<Event>, t: State)
    requires Exact(c, s) && RunsTo(c, s, es, t)
    ensures Exact(c, t)
    decreases |es|
  {
    hide Charged, AllLaddered, KvNamed, After, Proper;
    if es != [] {
      StepExact(c, s, es[0]);
      EveryRunExact(c, After(c, s, es[0]).0, es[1..], t);
    }
  }

  lemma StartExact(c: Cache, base: nat, bytes: nat)
    requires base > 0 && bytes <= U64_MAX
    ensures Exact(c, Start(base, bytes))
  {
    StartConserved(base, bytes);
  }

  /** Ladder accounting is exact: from a new manager, after any capacities
      declared, any arrivals and squeezes run to their ends, and any of the
      manager's own operations between them, every session's blocks in the table add up to what its rung needs, and what it has
      resident is exactly the resident part of that sum. */
  lemma LadderAccountsExactly(c: Cache, base: nat, bytes: nat, es: seq<Event>, t: State, i: nat)
    requires base > 0 && bytes <= U64_MAX && RunsTo(c, Start(base, bytes), es, t)
    requires i < |t.sessions| && HoldsContext(t.sessions[i])
    ensures var s := t.sessions[i].value;
      && c.shape.Need(s.rung, s.contract.context, c.Kv()) == Min(CacheBytes(t.objects, s.id), U64_MAX)
      && s.resident == ResidentCache(t.objects, s.id)
  {
    hide Charged, Laddered, KvNamed, CacheBytes, ResidentCache, RunsTo;
    StartExact(c, base, bytes);
    EveryRunExact(c, Start(base, bytes), es, t);
    LadderIsExact(c, t.sessions[i].value, t.objects);
    ResidentIsCache(t, i);
  }

  // ----- when nothing is refused -----

  /** Few enough residents that the free list always has room for one more. */
  ghost predicate Few(s: State) { |ResidentIds(s.objects)| <= HOLES - 2 }

  ghost predicate FewerResident(a: Objects, b: Objects) { ResidentIds(b) <= ResidentIds(a) }

  lemma FewerTwice(a: Objects, b: Objects, c: Objects)
    ensures FewerResident(a, a)
    ensures FewerResident(a, b) && FewerResident(b, c) ==> FewerResident(a, c)
  {}

  lemma StillFew(s: State, t: State)
    requires Few(s) && FewerResident(s.objects, t.objects)
    ensures Few(t)
  {
    assert ResidentIds(s.objects) == ResidentIds(t.objects) + (ResidentIds(s.objects) - ResidentIds(t.objects));
  }

  lemma RewriteResidents(s: State, id: ObjectId, fate: Fate)
    requires Counted(s)
    ensures FewerResident(s.objects, Rewrite(s, id, fate).0.objects)
  {
    hide Resized;
  }

  lemma FewRoom(s: State)
    requires Conserved(s) && Few(s)
    ensures |s.region.free| < HOLES
  {
    Runs.HolesBounded(s);
  }

  /** With few residents a block is always rewritten. */
  lemma RewriteSmooth(c: Cache, s: State, who: Session, rung: Rung, id: ObjectId)
    requires Counted(s) && Conserved(s) && Few(s) && Behind(c, who, rung, s.objects) && OwnBlock(s, id, who.id)
    ensures Rewrite(s, id, FateOn(c, who, rung, id)).1.Ok?
  {
    hide Charged, HeldOn, Resized, Rewrite, FateOn;
    var fate := FateOn(c, who, rung, id);
    FewRoom(s);
    if fate.Precision().None? {
      DropKeeps(s, id, fate);
    } else {
      BlockSized(c, s, who, rung, id);
      if !s.objects[id].Resident() {
        AbsentKeeps(s, id, fate);
      } else if Round(Resized(s.objects[id], fate)) < Round(s.objects[id].size) {
        ShrunkKeeps(s, id, fate);
      } else {
        UntoldBreaks(s, id, fate);
      }
    }
  }

  lemma BlockSized(c: Cache, s: State, who: Session, rung: Rung, id: ObjectId)
    requires Counted(s) && Behind(c, who, rung, s.objects) && OwnBlock(s, id, who.id)
    requires FateOn(c, who, rung, id).Precision().Some?
    ensures Resized(s.objects[id], FateOn(c, who, rung, id)) > 0
  {
    hide Resized, FateOn;
    assert IsBlock(c, who, id) && HeldBehind(c, who, rung, s.objects, id);
    var r: Rung :| r.Depth() <= rung.Depth() && HeldOn(c, who, r, s.objects, id);
    FullIsUnits(c, who, id);
    FateIsOnLadder(c, who, r, id);
    FateIsOnLadder(c, who, rung, id);
    FateFalls(c, who, r, rung, id);
    RequantizedOnce(s.objects[id], FateOn(c, who, r, id), FateOn(c, who, rung, id), FullOf(c, who, id));
  }

  lemma {:induction false} RewritesSmooth(c: Cache, s: State, who: Session, rung: Rung, order: seq<ObjectId>, coarsest: Precision)
    requires Counted(s) && Conserved(s) && Few(s) && Behind(c, who, rung, s.objects)
    ensures var (t, worst, smooth) :=
        Rewrites(s, c.shape, who.id, rung, c.shape.Blocks(who.contract.context), order, coarsest);
      smooth && FewerResident(s.objects, t.objects)
    decreases |order|
  {
    hide Charged, Rewrite, Behind, OwnBlock, FewerResident, Few;
    var blocks := c.shape.Blocks(who.contract.context);
    FewerTwice(s.objects, s.objects, s.objects);
    if order != [] {
      if !OwnBlock(s, order[0], who.id) {
        RewritesSmooth(c, s, who, rung, order[1..], coarsest);
      } else {
        WalkOne(c, s, who, rung, order[0]);
        RewriteSmooth(c, s, who, rung, order[0]);
        var fate := FateOn(c, who, rung, order[0]);
        var (t, done) := Rewrite(s, order[0], fate);
        var next := if done.Ok? then Coarser(coarsest, fate) else coarsest;
        RewriteResidents(s, order[0], fate);
        StillFew(s, t);
        RewritesSmooth(c, t, who, rung, order[1..], next);
        FewerTwice(s.objects, t.objects, Rewrites(t, c.shape, who.id, rung, blocks, order[1..], next).0.objects);
      }
    }
  }

  lemma StepSmooth(c: Cache, s: State, at: nat, to: Rung, order: seq<ObjectId>)
    requires Ready(s) && Conserved(s) && Few(s) && AllBehind(c, s)
    requires at < |s.sessions| && HoldsContext(s.sessions[at]) && s.sessions[at].value.rung.Depth() <= to.Depth()
    ensures var (t, read, smooth) := SqueezeModel.Step(s, c.shape, s.sessions[at].value, to, order); smooth && Few(t)
  {
    hide Charged, Rewrites, Behind, AllBehind, FewerResident, Few;
    var who := s.sessions[at].value;
    BehindAt(c, s, at, to);
    RewritesSmooth(c, s, who, to, order, who.delivered.coarsest);
    StepIs(s, c.shape, at, to, order);
    StillFew(s, SqueezeModel.Step(s, c.shape, who, to, order).0);
  }

  lemma {:induction false} DeepenSmooth(c: Cache, s: State, rung: Rung, from: nat, order: seq<ObjectId>)
    requires Ready(s) && Conserved(s) && Few(s) && AllBehind(c, s) && Walked(s, order)
    ensures var (t, read, smooth) := DeepenAll(s, c.shape, rung, from, order); smooth && Few(t)
    decreases MAX_SESSIONS - from
  {
    hide Charged, AllBehind, AllLaddered, SqueezeModel.Step, DistinctIds, Few;
    if from < MAX_SESSIONS {
      if from < |s.sessions| && s.sessions[from].Some? && Movable(s.sessions[from].value, rung) {
        StepLadder(c, s, from, rung, order);
        StepMoves(s, c.shape, from, rung, order);
        StepSmooth(c, s, from, rung, order);
        DeepenSmooth(c, SqueezeModel.Step(s, c.shape, s.sessions[from].value, rung, order).0, rung, from + 1, order);
      } else {
        DeepenSmooth(c, s, rung, from + 1, order);
      }
    }
  }

  lemma {:induction false} DestroyWalkSmooth(s: State, owner: SessionId, order: seq<ObjectId>, evicted: nat)
    requires Counted(s) && Conserved(s) && Few(s)
    ensures var (t, r) := DestroyWalk(s, owner, order, evicted); r.Ok? && Few(t)
    decreases |order|
  {
    hide Charged, Few, Evict;
    if order != [] {
      var id := order[0];
      if id !in s.objects || s.objects[id].owner != owner || owner == 0 {
        DestroyWalkSmooth(s, owner, order[1..], evicted);
      } else {
        if s.objects[id].Resident() { EvictSmooth(s, id); }
        ForgetOneKeeps(s, id, owner);
        var t := if s.objects[id].Resident() then Evict(s, id).0 else s;
        var u := t.(objects := t.objects - {id});
        ForgotFew(s, t, id);
        DestroyWalkSmooth(u, owner, order[1..], if s.objects[id].Resident() then evicted + 1 else evicted);
      }
    }
  }

  lemma EvictSmooth(s: State, id: ObjectId)
    requires Counted(s) && Conserved(s) && Few(s) && id in s.objects && s.objects[id].Resident()
    ensures Evict(s, id).1.Ok? && FewerResident(s.objects, Evict(s, id).0.objects)
  {
    hide Charged, Evict;
    Runs.FewResidentsEvict(s, id, 0, 0);
    EvictShrinks(s, id);
  }

  lemma ForgotFew(s: State, t: State, id: ObjectId)
    requires Few(s) && FewerResident(s.objects, t.objects)
    ensures Few(t.(objects := t.objects - {id}))
  {
    var u := t.(objects := t.objects - {id});
    assert ResidentIds(u.objects) <= ResidentIds(t.objects);
    StillFew(s, u);
  }

  lemma DestroySmooth(s: State, id: SessionId, order: seq<ObjectId>)
    requires Ready(s) && Conserved(s) && Few(s) && Known(s.sessions, id) && Walked(s, order)
    ensures var (t, r) := DestroySession(s, id, order); r.Ok? && Few(t)
  {
    hide Charged, Few, DestroyWalk, DistinctIds;
    DestroyWalkSmooth(s, id, order, 0);
    DestroyKeeps(s, id, order);
    SameFew(DestroyWalk(s, id, order, 0).0, DestroySession(s, id, order).0);
  }

  lemma SameFew(s: State, t: State)
    requires Few(s) && t.objects == s.objects
    ensures Few(t)
  {}

  /** Whom the walk terminates is there to be ended. */
  lemma TerminatedKnown(s: State, shape: Shape, id: SessionId)
    requires DistinctIds(s.sessions) && Next(s.capacity, shape, s.sessions) == Terminate(id)
    ensures Known(s.sessions, id)
  {
    hide FitsBudget;
    var i :| 0 <= i < |s.sessions| && HoldsContext(s.sessions[i]) && s.sessions[i].value.id == id;
    FindIs(s.sessions, i);
  }

  /** With at most two residents fewer than the free list has entries, no
      squeeze ever meets a refusal, however fragmented the arena. */
  lemma {:induction false} SqueezeSmooth(c: Cache, s: State, order: seq<ObjectId>, done: Squeezed)
    requires Ready(s) && Conserved(s) && Few(s) && AllBehind(c, s) && Walked(s, order)
    ensures Squeeze(s, c.shape, order, done).2
    decreases Left(s.sessions)
  {
    hide Charged, AllBehind, AllLaddered, DeepenAll, DestroySession, Next, Left, DistinctIds, OneFewer, DeeperOf, Few;
    match Next(s.capacity, c.shape, s.sessions)
    case Fits =>
    case Exhausted =>
    case Deepen(rung) =>
      NextDeepens(s.capacity, c.shape, s.sessions, rung);
      DeepenFalls(s, c.shape, rung, order);
      DeepenLadder(c, s, rung, 0, order);
      DeepenSmooth(c, s, rung, 0, order);
      var (t, read, calm) := DeepenAll(s, c.shape, rung, 0, order);
      SqueezeSmooth(c, t, order, done.(reached := DeeperOf(done.reached, rung), recomputed := done.recomputed + read));
    case Terminate(id) =>
      TerminatedKnown(s, c.shape, id);
      DestroySmooth(s, id, order);
      DestroyLadder(c, s, id, order);
      DestroyFalls(s, id, order);
      var (t, r) := DestroySession(s, id, order);
      SqueezeSmooth(c, t, order, done.(reached := DeeperOf(done.reached, L7), terminated := done.terminated + 1));
  }
}
