/** An arrival that is not cut short leaves its cache on the top rung, exactly;
    and, with squeezes after it, keeps every cache exact for ever. */
module ArrivalLadder {
  import opened Basics
  import opened Abi
  import opened MetaModel
  import opened SessionModel
  import opened Kernel
  import opened Conservation
  import opened LadderModel
  import opened WalkModel
  import opened SqueezeModel
  import opened LadderedModel
  import opened LadderExact
  import opened LadderSum
  import opened Arrival

  /** A block's name carries its owner: the class is session-scoped. */
  ghost predicate KvNamed(objects: Objects) {
    forall k :: k in objects && ClassOf(k) == Some(KvBlock) ==> ModelOf(k) == objects[k].owner
  }

  /** What a guest must be cached in: full precision, nowhere yet, the cache's
      own size a token. */
  predicate Suits(c: Cache, g: Guest) {
    && c.Holds(g.contract.context) && g.contract.context != 0
    && g.layers == c.layers && g.template.size == c.unit && g.template.precision == Fp16 && !g.template.Resident()
  }

  /** Blocks placed so far are as the top rung has them, and are all there is
      of this session's. */
  ghost predicate Filled(c: Cache, who: Session, objects: Objects, at: nat, l: nat) {
    && (forall k: ObjectId :: IsBlock(c, who, k) && Earlier(k, at, l) ==> HeldOn(c, who, L0, objects, k))
    && (forall k :: k in objects && objects[k].owner == who.id && ClassOf(k) == Some(KvBlock) ==>
          IsBlock(c, who, k) && Earlier(k, at, l))
  }

  /** The session is there, on the top rung. */
  ghost predicate Present(s: State, who: Session) {
    && who.id <= U16_MAX && who.rung == L0 && Known(s.sessions, who.id)
    && Get(s.sessions, who.id).contract == who.contract && Get(s.sessions, who.id).rung == L0
  }

  /** Everybody else's cache is exactly their rung's. */
  ghost predicate OthersLaddered(c: Cache, s: State, id: SessionId) {
    forall i :: 0 <= i < |s.sessions| && HoldsContext(s.sessions[i]) && s.sessions[i].value.id != id ==>
      Laddered(c, s.sessions[i].value, s.objects)
  }

  /** The session on its way in. */
  ghost predicate Coming(c: Cache, s: State, who: Session, at: nat, l: nat) {
    Conserved(s) && KvNamed(s.objects) && Present(s, who) && Filled(c, who, s.objects, at, l)
  }

  ghost predicate Arriving(c: Cache, s: State, who: Session, at: nat, l: nat) {
    Coming(c, s, who, at, l) && OthersLaddered(c, s, who.id)
  }

  // ----- one block -----

  /** The table before and after a new entry of one owner, and a consume of it. */
  ghost predicate Grown(a: Objects, b: Objects, id: ObjectId, meta: Meta) {
    && id !in a && b.Keys == a.Keys + {id}
    && (forall k :: k in a ==> b[k].size == a[k].size && b[k].precision == a[k].precision && b[k].owner == a[k].owner)
    && b[id].size == meta.size && b[id].precision == meta.precision && b[id].owner == meta.owner
  }

  lemma CachedGrows(s: State, vacant: nat, w: World, id: ObjectId, meta: Meta, wanted: NextUse)
    requires Counted(s) && id !in s.objects && Cached(s, vacant, w, id, meta, wanted).2
    ensures var t := Cached(s, vacant, w, id, meta, wanted).0;
      Grown(s.objects, t.objects, id, meta) && SameRungs(s.sessions, t.sessions) && t.capacity == s.capacity
  {
    hide Consume;
    ConsumeBlocks(Register(s, id, meta), w, id, wanted);
  }

  lemma CachedKeeps(s: State, vacant: nat, w: World, id: ObjectId, meta: Meta, wanted: NextUse)
    requires Counted(s) && Conserved(s) && Registrable(s, id, meta) && Cached(s, vacant, w, id, meta, wanted).2
    ensures Conserved(Cached(s, vacant, w, id, meta, wanted).0)
  {
    hide Consume, Charged;
    RegisterKeeps(s, id, meta);
    ConsumeKeeps(Register(s, id, meta), w, id, wanted);
  }

  /** Somebody else's cache when a block of `who`'s joins the table. */
  lemma GrownOthers(c: Cache, s: Session, a: Objects, b: Objects, id: ObjectId, meta: Meta)
    requires Grown(a, b, id, meta) && meta.owner != s.id && ModelOf(id) == meta.owner && Laddered(c, s, a)
    ensures Laddered(c, s, b)
  {
    hide FateOn, Cache.Holds;
    forall k: ObjectId | IsBlock(c, s, k) ensures HeldOn(c, s, s.rung, b, k) {
      assert HeldOn(c, s, s.rung, a, k) && k != id;
    }
  }

  /** The name of a block says which it is. */
  lemma NamesBlock(c: Cache, g: Guest, who: Session, at: nat, l: nat)
    requires Suits(c, g) && who.contract == g.contract && who.id <= U16_MAX
    requires at < c.shape.Blocks(g.contract.context) && l < c.layers
    ensures var id := BlockName(who.id, l, at);
      id == BlockId(who.id, l, at) && IsBlock(c, who, id) && TensorOf(id) == at && LayerOf(id) == l
  {
    hide MakeId, ClassOf, ModelOf, LayerOf, TensorOf, TileOf, Shape.Blocks;
    IdRoundTrip(KvBlock, who.id, l, at, 0);
    assert at % (U16_MAX + 1) == at;
  }

  /** What the entry of a block says. */
  lemma NewBlock(c: Cache, g: Guest, who: Session, at: nat, l: nat)
    requires Suits(c, g) && who.contract == g.contract && who.id <= U16_MAX
    requires at < c.shape.Blocks(g.contract.context) && l < c.layers
    ensures var id, meta := BlockName(who.id, l, at), BlockMeta(c.shape, g, who.id, at);
      && id == BlockId(who.id, l, at) && IsBlock(c, who, id) && TensorOf(id) == at && LayerOf(id) == l
      && meta.size > 0 && meta.size == FateOn(c, who, L0, id).Bytes(FullOf(c, who, id))
      && FateOn(c, who, L0, id) == Keep(Fp16)
  {
    hide BlockName, BlockId, IsBlock, TensorOf, Shape.Blocks, Shape.Full;
    NamesBlock(c, g, who, at, l);
    FullIsUnits(c, who, BlockName(who.id, l, at));
  }

  /** The block joins the ones already placed. */
  lemma GrownFilled(c: Cache, g: Guest, who: Session, a: Objects, b: Objects, at: nat, l: nat)
    requires Suits(c, g) && who.contract == g.contract && who.id <= U16_MAX
    requires at < c.shape.Blocks(g.contract.context) && l < c.layers
    requires Grown(a, b, BlockName(who.id, l, at), BlockMeta(c.shape, g, who.id, at)) && Filled(c, who, a, at, l)
    ensures Filled(c, who, b, at, l + 1)
  {
    hide FateOn, Cache.Holds, BlockName, BlockId, FullOf, Fate.Bytes;
    NewBlock(c, g, who, at, l);
    var id := BlockName(who.id, l, at);
    forall k: ObjectId | IsBlock(c, who, k) && Earlier(k, at, l + 1) ensures HeldOn(c, who, L0, b, k) {
      if Earlier(k, at, l) {
        assert HeldOn(c, who, L0, a, k);
      } else {
        FieldsDetermine(k, who.id, l, at);
      }
    }
  }

  lemma GrownNamed(a: Objects, b: Objects, id: ObjectId, meta: Meta)
    requires Grown(a, b, id, meta) && KvNamed(a) && ModelOf(id) == meta.owner
    ensures KvNamed(b)
  {}

  /** The name is new to the table. */
  lemma NameIsNew(c: Cache, who: Session, objects: Objects, id: ObjectId, at: nat, l: nat)
    requires KvNamed(objects) && Filled(c, who, objects, at, l) && IsBlock(c, who, id)
    requires TensorOf(id) == at && LayerOf(id) == l
    ensures id !in objects
  {}

  lemma SamePresent(s: State, t: State, who: Session)
    requires Present(s, who) && SameRungs(s.sessions, t.sessions)
    ensures Present(t, who)
  {
    SameSessionsFind(s.sessions, t.sessions);
  }

  lemma GrownOthersLaddered(c: Cache, s: State, t: State, who: SessionId, id: ObjectId, meta: Meta)
    requires Grown(s.objects, t.objects, id, meta) && meta.owner == who && ModelOf(id) == who
    requires SameRungs(s.sessions, t.sessions) && OthersLaddered(c, s, who)
    ensures OthersLaddered(c, t, who)
  {
    hide Laddered, Grown;
    forall i | 0 <= i < |t.sessions| && HoldsContext(t.sessions[i]) && t.sessions[i].value.id != who
      ensures Laddered(c, t.sessions[i].value, t.objects)
    {
      GrownOthers(c, s.sessions[i].value, s.objects, t.objects, id, meta);
      SameCache(c, s.sessions[i].value, t.sessions[i].value, t.sessions[i].value.rung, t.objects);
    }
  }

  /** One block cached. */
  lemma BlockComes(c: Cache, s: State, vacant: nat, w: World, g: Guest, who: Session, at: nat, l: nat, wanted: NextUse)
    requires Counted(s) && Coming(c, s, who, at, l) && Suits(c, g) && who.contract == g.contract
    requires at < c.shape.Blocks(g.contract.context) && l < c.layers
    ensures var id, meta := BlockName(who.id, l, at), BlockMeta(c.shape, g, who.id, at);
      && id !in s.objects && meta.size > 0 && !meta.Resident()
      && (Cached(s, vacant, w, id, meta, wanted).2 ==>
            var t := Cached(s, vacant, w, id, meta, wanted).0;
            && Coming(c, t, who, at, l + 1) && Grown(s.objects, t.objects, id, meta) && SameRungs(s.sessions, t.sessions)
            && meta.owner == who.id == ModelOf(id))
  {
    hide Charged, Filled, Cached, Grown, SameRungs, KvNamed, BlockName;
    var id, meta := BlockName(who.id, l, at), BlockMeta(c.shape, g, who.id, at);
    NewBlock(c, g, who, at, l);
    NameIsNew(c, who, s.objects, id, at, l);
    if Cached(s, vacant, w, id, meta, wanted).2 {
      CachedKeeps(s, vacant, w, id, meta, wanted);
      CachedGrows(s, vacant, w, id, meta, wanted);
      var t := Cached(s, vacant, w, id, meta, wanted).0;
      GrownFilled(c, g, who, s.objects, t.objects, at, l);
      GrownNamed(s.objects, t.objects, id, meta);
      SamePresent(s, t, who);
    }
  }

  lemma BlockArrives(c: Cache, s: State, vacant: nat, w: World, g: Guest, who: Session, at: nat, l: nat, wanted: NextUse)
    requires Counted(s) && Arriving(c, s, who, at, l) && Suits(c, g) && who.contract == g.contract
    requires at < c.shape.Blocks(g.contract.context) && l < c.layers
    requires Cached(s, vacant, w, BlockName(who.id, l, at), BlockMeta(c.shape, g, who.id, at), wanted).2
    ensures Arriving(c, Cached(s, vacant, w, BlockName(who.id, l, at), BlockMeta(c.shape, g, who.id, at), wanted).0, who, at, l + 1)
  {
    hide Coming, OthersLaddered, Cached, Grown, SameRungs, BlockName;
    ComingKnown(c, s, who, at, l);
    var id, meta := BlockName(who.id, l, at), BlockMeta(c.shape, g, who.id, at);
    BlockComes(c, s, vacant, w, g, who, at, l, wanted);
    GrownOthersLaddered(c, s, Cached(s, vacant, w, id, meta, wanted).0, who.id, id, meta);
  }

  lemma ComingKnown(c: Cache, s: State, who: Session, at: nat, l: nat)
    requires Coming(c, s, who, at, l)
    ensures who.id <= U16_MAX
  {}

  // ----- the whole prefill -----

  /** How many blocks are left to place. */
  function ToPlace(blocks: nat, layers: nat, at: nat, l: nat): nat
    requires l <= layers
    decreases blocks - at
  {
    if at >= blocks then 0 else layers - l + ToPlace(blocks, layers, at + 1, 0)
  }

  lemma {:induction false} ToPlaceAll(blocks: nat, layers: nat, at: nat)
    requires at <= blocks
    ensures ToPlace(blocks, layers, at, 0) == (blocks - at) * layers
    decreases blocks - at
  {
    if at < blocks {
      ToPlaceAll(blocks, layers, at + 1);
      assert (blocks - at) * layers == (blocks - at - 1) * layers + layers;
    }
  }

  /** Every layer of a position is the next position's start. */
  lemma NextPosition(c: Cache, who: Session, objects: Objects, at: nat)
    requires Filled(c, who, objects, at, c.layers)
    ensures Filled(c, who, objects, at + 1, 0)
  {
    hide HeldOn;
    forall k: ObjectId | IsBlock(c, who, k) ensures Earlier(k, at, c.layers) <==> Earlier(k, at + 1, 0) {}
  }

  /** Every block of the context is there. */
  ghost predicate Arrived(c: Cache, s: State, who: Session) {
    && Conserved(s) && KvNamed(s.objects) && Present(s, who) && OthersLaddered(c, s, who.id)
    && Laddered(c, who, s.objects)
  }

  lemma AllArrived(c: Cache, s: State, who: Session, at: nat, l: nat)
    requires Arriving(c, s, who, at, l) && at >= c.shape.Blocks(who.contract.context) && c.Holds(who.contract.context)
    ensures Arrived(c, s, who)
  {
    hide HeldOn, Charged, KvNamed, OthersLaddered;
    forall k: ObjectId | IsBlock(c, who, k) ensures HeldOn(c, who, who.rung, s.objects, k) {
      assert Earlier(k, at, l);
    }
  }

  /** The prefill places no more than all of them, and if it places all of them
      every one is there. */
  lemma {:induction false} PrefillFills(c: Cache, s: State, vacant: nat, w: World, g: Guest, who: Session,
                                        wanted: ObjectId -> NextUse, at: nat, l: nat, placed: nat)
    requires Counted(s) && Arriving(c, s, who, at, l) && Suits(c, g) && who.contract == g.contract && l <= c.layers
    ensures g.layers <= U16_MAX
    ensures var (t, n) := Prefill(s, vacant, w, c.shape, g, who.id, wanted, at, l, placed);
      var all := placed + ToPlace(c.shape.Blocks(g.contract.context), c.layers, at, l);
      && n <= all
      && (n == all ==> Arrived(c, t, who))
    decreases c.shape.Blocks(g.contract.context) - at, g.layers - l
  {
    hide Charged, Filled, OthersLaddered, Cached, KvNamed, BlockName, BlockMeta;
    var blocks := c.shape.Blocks(g.contract.context);
    if at >= blocks {
      AllArrived(c, s, who, at, l);
    } else {
      if l >= g.layers {
        NextPosition(c, who, s.objects, at);
        PrefillFills(c, s, vacant, w, g, who, wanted, at + 1, 0, placed);
      } else {
        var name, meta := BlockName(who.id, l, at), BlockMeta(c.shape, g, who.id, at);
        var (t, left, cached) := Cached(s, vacant, w, name, meta, wanted(name));
        if cached {
          BlockArrives(c, s, vacant, w, g, who, at, l, wanted(name));
          PrefillFills(c, t, left, w, g, who, wanted, at, l + 1, placed + 1);
        }
      }
    }
  }

  /** A block not cached: not in the table, or in it and not placed. */
  lemma NotCached(s: State, vacant: nat, w: World, id: ObjectId, meta: Meta, wanted: NextUse)
    requires Counted(s) && id !in s.objects
    ensures var (t, left, cached) := Cached(s, vacant, w, id, meta, wanted);
      !cached ==> t.objects.Keys == s.objects.Keys + (if vacant == 0 then {} else {id})
  {
    hide Consume;
    if vacant > 0 { ConsumeBlocks(Register(s, id, meta), w, id, wanted); }
  }

  lemma KeysGrow(a: Objects, b: Objects, id: ObjectId)
    requires id !in a
    ensures b.Keys == a.Keys + {id} ==> |b| == |a| + 1
    ensures b.Keys == a.Keys ==> |b| == |a|
  {
    assert |a| == |a.Keys| && |b| == |b.Keys|;
  }

  /** The count is of the entries added, but for one that was registered last and
      not read; and placed in full, there is none. */
  lemma {:induction false} PrefillCounts(c: Cache, s: State, vacant: nat, w: World, g: Guest, who: Session,
                                         wanted: ObjectId -> NextUse, at: nat, l: nat, placed: nat)
    requires Counted(s) && Coming(c, s, who, at, l) && Suits(c, g) && who.contract == g.contract && l <= c.layers
    ensures who.id <= U16_MAX && g.layers <= U16_MAX
    ensures var (t, n) := Prefill(s, vacant, w, c.shape, g, who.id, wanted, at, l, placed);
      var all := placed + ToPlace(c.shape.Blocks(g.contract.context), c.layers, at, l);
      && n - placed <= |t.objects| - |s.objects| <= n - placed + 1
      && (n == all ==> |t.objects| - |s.objects| == n - placed)
    decreases c.shape.Blocks(g.contract.context) - at, g.layers - l
  {
    hide Charged, Filled, Cached, KvNamed, BlockName, BlockMeta, Grown;
    ComingKnown(c, s, who, at, l);
    if at < c.shape.Blocks(g.contract.context) {
      if l >= g.layers {
        NextPosition(c, who, s.objects, at);
        PrefillCounts(c, s, vacant, w, g, who, wanted, at + 1, 0, placed);
      } else {
        var name, meta := BlockName(who.id, l, at), BlockMeta(c.shape, g, who.id, at);
        var (t, left, cached) := Cached(s, vacant, w, name, meta, wanted(name));
        BlockComes(c, s, vacant, w, g, who, at, l, wanted(name));
        NotCached(s, vacant, w, name, meta, wanted(name));
        KeysGrow(s.objects, t.objects, name);
        if cached {
          GrownKeys(s.objects, t.objects, name, meta);
          PrefillCounts(c, t, left, w, g, who, wanted, at, l + 1, placed + 1);
        }
      }
    }
  }

  lemma GrownKeys(a: Objects, b: Objects, id: ObjectId, meta: Meta)
    requires Grown(a, b, id, meta)
    ensures b.Keys == a.Keys + {id}
  {}

  // ----- the whole arrival -----

  /** A new session has nothing in the table. */
  lemma NewcomerFilled(c: Cache, who: Session, objects: Objects)
    requires forall k :: k in objects ==> objects[k].owner != who.id
    ensures Filled(c, who, objects, 0, 0)
  {}

  lemma CreatedComing(c: Cache, s: State, contract: SessionModel.Contract)
    requires Counted(s) && Conserved(s) && KvNamed(s.objects) && |s.sessions| < U16_MAX
    requires CreateSession(s, contract).1.Some?
    ensures var (t, made) := CreateSession(s, contract);
      && t.objects == s.objects && made.value <= U16_MAX && !Known(s.sessions, made.value)
      && t.sessions == s.sessions[FreeSlot(s.sessions).value := Some(Newcomer(made.value, contract))]
      && Coming(c, t, Newcomer(made.value, contract), 0, 0)
  {
    hide HeldRight, Layout, LiveCount;
    var (t, made) := CreateSession(s, contract);
    CreateKeeps(s, contract);
    CreateExactly(s.sessions, contract);
    CreatedSmall(s, contract);
    var who := Newcomer(made.value, contract);
    FindIs(t.sessions, FreeSlot(s.sessions).value);
    NewcomerFilled(c, who, t.objects);
  }

  lemma CreatedArriving(c: Cache, s: State, g: Guest)
    requires Counted(s) && Conserved(s) && KvNamed(s.objects) && AllLaddered(c, s) && |s.sessions| < U16_MAX
    requires CreateSession(s, g.contract).1.Some?
    ensures var (t, made) := CreateSession(s, g.contract);
      made.value <= U16_MAX && Arriving(c, t, Newcomer(made.value, g.contract), 0, 0)
  {
    hide Laddered, Coming, Charged;
    var (t, made) := CreateSession(s, g.contract);
    CreatedComing(c, s, g.contract);
    forall i | 0 <= i < |t.sessions| && HoldsContext(t.sessions[i]) && t.sessions[i].value.id != made.value
      ensures Laddered(c, t.sessions[i].value, t.objects)
    {
      assert t.sessions[i] == s.sessions[i];
    }
  }

  lemma ArrivedLaddered(c: Cache, s: State, who: Session)
    requires Arrived(c, s, who)
    ensures AllLaddered(c, s)
  {
    hide Laddered, Layout, HeldRight;
    forall i | 0 <= i < |s.sessions| && HoldsContext(s.sessions[i]) ensures Laddered(c, s.sessions[i].value, s.objects) {
      FindIs(s.sessions, i);
      if s.sessions[i].value.id == who.id {
        SameCache(c, who, s.sessions[i].value, L0, s.objects);
      }
    }
  }

  /** An arrival places no more than its context's blocks; placed in full, its
      cache is exact on the top rung, and every other cache still is on its. */
  lemma ArriveLadder(c: Cache, s: State, vacant: nat, w: World, g: Guest, wanted: ObjectId -> NextUse)
    requires Counted(s) && Conserved(s) && KvNamed(s.objects) && AllLaddered(c, s) && |s.sessions| < U16_MAX
    requires Suits(c, g)
    ensures g.layers <= U16_MAX
    ensures var (t, made) := Arrive(s, vacant, w, c.shape, g, wanted);
      var all := c.shape.Blocks(g.contract.context) * g.layers;
      && (made.None? ==> t == s)
      && (made.Some? ==> made.value.1 <= all)
      && (made.Some? && made.value.1 == all ==> Conserved(t) && KvNamed(t.objects) && AllLaddered(c, t))
  {
    hide Charged, KvNamed, AllLaddered, Arriving, Prefill, Arrived;
    var (t, made) := CreateSession(s, g.contract);
    if made.Some? {
      CreatedArriving(c, s, g);
      var who := Newcomer(made.value, g.contract);
      ToPlaceAll(c.shape.Blocks(g.contract.context), c.layers, 0);
      PrefillFills(c, t, vacant, w, g, who, wanted, 0, 0, 0);
      var (u, n) := Prefill(t, vacant, w, c.shape, g, made.value, wanted, 0, 0, 0);
      if n == c.shape.Blocks(g.contract.context) * g.layers {
        ArrivedLaddered(c, u, who);
        ArrivedKeeps(c, u, who);
      }
    }
  }

  lemma ArrivedKeeps(c: Cache, s: State, who: Session)
    requires Arrived(c, s, who)
    ensures Conserved(s) && KvNamed(s.objects)
  {}

  /** An arrival says how many entries it added to the table, one registered last
      and not read aside. */
  lemma ArrivalCounts(c: Cache, s: State, vacant: nat, w: World, g: Guest, wanted: ObjectId -> NextUse)
    requires Counted(s) && Conserved(s) && KvNamed(s.objects) && |s.sessions| < U16_MAX && Suits(c, g)
    ensures g.layers <= U16_MAX
    ensures var (t, made) := Arrive(s, vacant, w, c.shape, g, wanted);
      made.Some? ==> made.value.1 <= |t.objects| - |s.objects| <= made.value.1 + 1
  {
    hide Charged, KvNamed, Coming, Prefill;
    var (t, made) := CreateSession(s, g.contract);
    if made.Some? {
      CreatedComing(c, s, g.contract);
      PrefillCounts(c, t, vacant, w, g, Newcomer(made.value, g.contract), wanted, 0, 0, 0);
    }
  }
}
