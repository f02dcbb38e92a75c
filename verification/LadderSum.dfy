/** A laddered cache, added up: the blocks in the table are what the ladder's
    arithmetic says the context needs. */
module LadderSum {
  import opened Basics
  import opened Abi
  import opened MetaModel
  import opened SessionModel
  import opened Kernel
  import opened Conservation
  import opened LadderModel
  import opened LadderedModel

  predicate Owns(objects: Objects, owner: SessionId, id: ObjectId) {
    id in objects && objects[id].owner == owner && ClassOf(id) == Some(KvBlock)
  }

  /** What each object holds of one session's cache. */
  ghost function CacheOf(objects: Objects, owner: SessionId): map<ObjectId, int> {
    map id | id in objects :: if Owns(objects, owner, id) then objects[id].size else 0
  }

  /** Bytes of a session's cache in the table, resident or not. */
  ghost function CacheBytes(objects: Objects, owner: SessionId): int { Sum(CacheOf(objects, owner)) }

  /** Blocks before layer `l` of position `at`. */
  predicate Earlier(id: ObjectId, at: nat, l: nat) {
    TensorOf(id) < at || (TensorOf(id) == at && LayerOf(id) < l)
  }

  /** The same, counting only those blocks. */
  ghost function CacheUpTo(objects: Objects, owner: SessionId, at: nat, l: nat): map<ObjectId, int> {
    map id | id in objects :: if Owns(objects, owner, id) && Earlier(id, at, l) then objects[id].size else 0
  }

  /** An id is its fields. */
  lemma FieldsDetermine(id: ObjectId, owner: SessionId, layer: nat, at: nat)
    requires owner <= U16_MAX && layer <= U16_MAX && at <= U16_MAX
    requires ClassOf(id) == Some(KvBlock) && ModelOf(id) == owner && LayerOf(id) == layer && TensorOf(id) == at && TileOf(id) == 0
    ensures id == BlockId(owner, layer, at)
  {
    var a, m, l := id / TENSOR_UNIT, id / MODEL_UNIT, id / LAYER_UNIT;
    Halves(id, TENSOR_UNIT);
    Quotients(id, TENSOR_UNIT, 0x1_0000, LAYER_UNIT);
    Quotients(id, LAYER_UNIT, 0x1_0000, MODEL_UNIT);
    Quotients(id, MODEL_UNIT, 0x1_0000, CLASS_UNIT);
    Halves(a, 0x1_0000);
    Halves(l, 0x1_0000);
    Halves(m, 0x1_0000);
    ClassIsByte(id);
  }

  lemma ClassIsByte(id: ObjectId)
    requires ClassOf(id) == Some(KvBlock)
    ensures id / CLASS_UNIT == Byte(KvBlock)
  {}

  lemma Halves(x: nat, unit: nat)
    requires unit > 0
    ensures x == x / unit * unit + x % unit
  {}

  /** Dividing twice is dividing by the product. */
  lemma Quotients(x: nat, u: nat, v: nat, w: nat)
    requires u > 0 && v > 0 && w == u * v && w > 0
    ensures x / w == x / u / v
  {
    var y := x / u;
    DivFloor(x, u);
    DivFloor(y, v);
    Bounds(x, y, y / v, u, v, w);
    QuotientIs(x, y / v, w);
  }

  lemma Bounds(x: nat, y: nat, q: nat, u: nat, v: nat, w: nat)
    requires w == u * v && y * u <= x < y * u + u && q * v <= y < q * v + v
    ensures q * w <= x < q * w + w
  {
    Regroup(q, v, u);
    Scaled(q * v, y, u);
    Scaled(y + 1, q * v + v, u);
    assert (y + 1) * u == y * u + u;
    assert (q * v + v) * u == q * v * u + v * u;
  }

  lemma Regroup(q: nat, v: nat, u: nat)
    ensures q * v * u == q * (u * v) && u * v == v * u
  {}

  lemma Scaled(a: nat, b: nat, u: nat)
    requires a <= b
    ensures a * u <= b * u
  {
    assert b * u == a * u + (b - a) * u;
  }

  // ----- adding up -----

  /** One block more: the block of layer `l` at position `at`. */
  lemma OneBlock(c: Cache, s: Session, objects: Objects, at: nat, l: nat)
    requires Laddered(c, s, objects) && at < c.shape.Blocks(s.contract.context) && l < c.layers
    ensures Sum(CacheUpTo(objects, s.id, at, l + 1))
      == Sum(CacheUpTo(objects, s.id, at, l)) + c.shape.Holds(s.rung, at, s.contract.context, c.unit)
  {
    var id := BlockId(s.id, l, at);
    IdRoundTrip(KvBlock, s.id, l, at, 0);
    assert IsBlock(c, s, id) && HeldOn(c, s, s.rung, objects, id);
    var a, b := CacheUpTo(objects, s.id, at, l), CacheUpTo(objects, s.id, at, l + 1);
    OnlyOneMore(c, s, objects, at, l);
    HeldBytes(c, s, objects, id);
    if id in objects {
      SumUpdate(a, id, objects[id].size);
      assert b == a[id := objects[id].size];
    } else {
      assert b == a;
    }
  }

  /** Nothing but that block is counted anew. */
  lemma OnlyOneMore(c: Cache, s: Session, objects: Objects, at: nat, l: nat)
    requires Laddered(c, s, objects) && at < c.shape.Blocks(s.contract.context) && l < c.layers
    ensures forall k :: k in objects && k != BlockId(s.id, l, at) ==>
      CacheUpTo(objects, s.id, at, l + 1)[k] == CacheUpTo(objects, s.id, at, l)[k]
  {
    hide HeldOn, BlockId;
    forall k | k in objects && k != BlockId(s.id, l, at)
      ensures CacheUpTo(objects, s.id, at, l + 1)[k] == CacheUpTo(objects, s.id, at, l)[k]
    {
      if Owns(objects, s.id, k) && TensorOf(k) == at && LayerOf(k) == l {
        assert IsBlock(c, s, k);
        FieldsDetermine(k, s.id, l, at);
      }
    }
  }

  /** What a block of the table holds, gone or not. */
  lemma HeldBytes(c: Cache, s: Session, objects: Objects, id: ObjectId)
    requires HeldOn(c, s, s.rung, objects, id)
    ensures (if id in objects then objects[id].size else 0) == c.shape.Holds(s.rung, TensorOf(id), s.contract.context, c.unit)
    ensures id in objects ==> objects[id].owner == s.id
  {}

  lemma {:induction false} OnePosition(c: Cache, s: Session, objects: Objects, at: nat, l: nat)
    requires Laddered(c, s, objects) && at < c.shape.Blocks(s.contract.context) && l <= c.layers
    ensures Sum(CacheUpTo(objects, s.id, at, l))
      == Sum(CacheUpTo(objects, s.id, at, 0)) + l * c.shape.Holds(s.rung, at, s.contract.context, c.unit)
  {
    hide Laddered, CacheUpTo, Shape.Holds;
    if l > 0 {
      OnePosition(c, s, objects, at, l - 1);
      OneBlock(c, s, objects, at, l - 1);
      OneMoreTimes(l, c.shape.Holds(s.rung, at, s.contract.context, c.unit));
    } else {
      assert 0 * c.shape.Holds(s.rung, at, s.contract.context, c.unit) == 0;
    }
  }

  lemma OneMoreTimes(l: nat, x: nat)
    requires l > 0
    ensures l * x == (l - 1) * x + x
  {}

  /** The blocks of the first `n` positions, over every layer. */
  function BlocksSum(c: Cache, s: Session, n: nat): nat {
    if n == 0 then 0
    else BlocksSum(c, s, n - 1) + c.layers * c.shape.Holds(s.rung, n - 1, s.contract.context, c.unit)
  }

  lemma {:induction false} PositionsSum(c: Cache, s: Session, objects: Objects, n: nat)
    requires Laddered(c, s, objects) && n <= c.shape.Blocks(s.contract.context)
    ensures Sum(CacheUpTo(objects, s.id, n, 0)) == BlocksSum(c, s, n)
  {
    hide HeldOn, Cache.Holds, IsBlock, Shape.Holds, OnlyBlocks;
    if n == 0 {
      SumZero(CacheUpTo(objects, s.id, 0, 0));
    } else {
      PositionsSum(c, s, objects, n - 1);
      OnePosition(c, s, objects, n - 1, c.layers);
      PositionEnds(c, s, objects, n - 1);
    }
  }

  /** Every layer of a position is the next position's start. */
  lemma PositionEnds(c: Cache, s: Session, objects: Objects, at: nat)
    requires OnlyBlocks(c, s, objects)
    ensures CacheUpTo(objects, s.id, at, c.layers) == CacheUpTo(objects, s.id, at + 1, 0)
  {
    forall k | k in objects
      ensures CacheUpTo(objects, s.id, at, c.layers)[k] == CacheUpTo(objects, s.id, at + 1, 0)[k]
    {
      if Owns(objects, s.id, k) { assert IsBlock(c, s, k); }
    }
  }

  /** All positions are the whole cache. */
  lemma CacheIsSum(c: Cache, s: Session, objects: Objects)
    requires Laddered(c, s, objects)
    ensures CacheBytes(objects, s.id) == BlocksSum(c, s, c.shape.Blocks(s.contract.context))
  {
    var n := c.shape.Blocks(s.contract.context);
    PositionsSum(c, s, objects, n);
    var a, b := CacheUpTo(objects, s.id, n, 0), CacheOf(objects, s.id);
    forall k | k in objects ensures a[k] == b[k] {
      if Owns(objects, s.id, k) { assert IsBlock(c, s, k); }
    }
    assert a == b;
  }

  /** A layer's share, times the layers, is what the arithmetic charges. */
  lemma LayersHold(c: Cache, s: Session, at: nat)
    requires c.Holds(s.contract.context) && at < c.shape.Blocks(s.contract.context)
    ensures c.shape.Holds(s.rung, at, s.contract.context, c.Kv())
      == c.layers * c.shape.Holds(s.rung, at, s.contract.context, c.unit)
  {
    var shape, context := c.shape, s.contract.context;
    BlockStarts(shape, context, at);
    var tokens := Min(context - at * shape.Per(), shape.Per());
    var full := shape.Full(at, context, c.unit);
    assert full == tokens * c.unit && shape.Full(at, context, c.Kv()) == tokens * (c.layers * c.unit);
    Shuffle(tokens, c.layers, c.unit);
    UnitsOf(tokens, c.unit);
    SixteenthsScale(full, c.layers, shape.FateOf(s.rung, at, shape.Blocks(context)).Bits());
  }

  lemma Shuffle(a: nat, b: nat, c: nat)
    ensures a * (b * c) == b * (a * c)
  {}

  lemma SixteenthsScale(full: nat, n: nat, bits: nat)
    requires full % 64 == 0
    ensures n * full * bits / 16 == n * (full * bits / 16)
  {
    var q := full / 64;
    assert full == 64 * q;
    assert full * bits == 16 * (4 * q * bits);
    assert n * full * bits == 16 * (n * (4 * q * bits));
  }

  lemma {:induction false} NeedIsSum(c: Cache, s: Session, n: nat)
    requires c.Holds(s.contract.context) && n <= c.shape.Blocks(s.contract.context)
    ensures c.shape.NeedUpTo(s.rung, s.contract.context, c.Kv(), n) == Min(BlocksSum(c, s, n), U64_MAX)
  {
    hide Shape.Holds, Cache.Holds;
    if n > 0 {
      NeedIsSum(c, s, n - 1);
      LayersHold(c, s, n - 1);
    }
  }

  /** The accounting is exact: the blocks in the table add up to what the
      ladder says the context needs on its rung, as far as 64 bits can say. */
  lemma LadderIsExact(c: Cache, s: Session, objects: Objects)
    requires Laddered(c, s, objects)
    ensures c.shape.Need(s.rung, s.contract.context, c.Kv()) == Min(CacheBytes(objects, s.id), U64_MAX)
  {
    CacheIsSum(c, s, objects);
    NeedIsSum(c, s, c.shape.Blocks(s.contract.context));
  }

  // ----- the resident part -----

  ghost function ResidentCache(objects: Objects, owner: SessionId): int {
    Sum(map id | id in objects :: if Owns(objects, owner, id) && objects[id].Resident() then objects[id].size else 0)
  }

  /** A session's account is exactly the resident part of its cache, when its
      cache is all it has resident. */
  lemma ResidentIsCache(s: State, i: nat)
    requires Conserved(s) && i < |s.sessions| && s.sessions[i].Some?
    requires forall id :: id in s.objects && s.objects[id].Resident() && s.objects[id].owner == s.sessions[i].value.id ==>
      ClassOf(id) == Some(KvBlock)
    ensures s.sessions[i].value.resident == ResidentCache(s.objects, s.sessions[i].value.id)
  {
    var owner := s.sessions[i].value.id;
    assert Account(s.sessions[i].value, s.objects, 0, 0);
    assert OfOwner(s.objects, owner)
      == map id | id in s.objects :: if Owns(s.objects, owner, id) && s.objects[id].Resident() then s.objects[id].size else 0;
  }
}
