/** What a session's cache is in the table, rung by rung: the blocks of its
    context, each what its rung makes of it, however many rungs it walked. */
module LadderedModel {
  import opened Basics
  import opened Abi
  import opened MetaModel
  import opened Holes
  import opened SessionModel
  import opened Kernel
  import opened Conservation
  import opened LadderModel
  import opened SqueezeModel
  import opened Shrink

  /** How contexts are cached: cut by a shape, a block a layer, `unit` bytes
      a token in each. */
  datatype Cache = Cache(shape: Shape, layers: nat, unit: nat) {

    /** What a token costs over every layer. */
    function Kv(): nat { layers * unit }

    /** Blocks this context is cut into can be named and sized, and halve
        down to the arena's alignment. */
    predicate Holds(context: nat) {
      && 0 < unit && unit % 64 == 0 && layers <= U16_MAX && context <= U32_MAX
      && shape.Blocks(context) <= U16_MAX + 1 && shape.Per() * unit <= U32_MAX
    }
  }

  /** One session's block for one layer and position. */
  function BlockId(owner: SessionId, layer: nat, at: nat): ObjectId
    requires owner <= U16_MAX && layer <= U16_MAX && at <= U16_MAX
  {
    MakeId(KvBlock, owner, layer, at, 0)
  }

  predicate IsBlock(c: Cache, s: Session, id: ObjectId) {
    && ClassOf(id) == Some(KvBlock) && ModelOf(id) == s.id && LayerOf(id) < c.layers
    && TensorOf(id) < c.shape.Blocks(s.contract.context) && TileOf(id) == 0
  }

  function FateOn(c: Cache, s: Session, rung: Rung, id: ObjectId): Fate {
    c.shape.FateOf(rung, TensorOf(id), c.shape.Blocks(s.contract.context))
  }

  function FullOf(c: Cache, s: Session, id: ObjectId): nat { c.shape.Full(TensorOf(id), s.contract.context, c.unit) }

  /** The block is in the table as `rung` has it: gone, or the session's, at
      that size and precision. */
  predicate HeldOn(c: Cache, s: Session, rung: Rung, objects: Objects, id: ObjectId) {
    match FateOn(c, s, rung, id).Precision()
    case None => id !in objects
    case Some(p) =>
      && id in objects && objects[id].owner == s.id && objects[id].precision == p
      && objects[id].size == FateOn(c, s, rung, id).Bytes(FullOf(c, s, id))
  }

  /** As the rung has it, or as some shallower one does. */
  ghost predicate HeldBehind(c: Cache, s: Session, rung: Rung, objects: Objects, id: ObjectId) {
    exists r: Rung :: r.Depth() <= rung.Depth() && HeldOn(c, s, r, objects, id)
  }

  /** Nothing else of the class is the session's. */
  ghost predicate OnlyBlocks(c: Cache, s: Session, objects: Objects) {
    forall id :: id in objects && objects[id].owner == s.id && ClassOf(id) == Some(KvBlock) ==> IsBlock(c, s, id)
  }

  /** The session's cache is exactly what its rung makes of its context. */
  ghost predicate Laddered(c: Cache, s: Session, objects: Objects) {
    && s.id <= U16_MAX && c.Holds(s.contract.context) && OnlyBlocks(c, s, objects)
    && forall id: ObjectId :: IsBlock(c, s, id) ==> HeldOn(c, s, s.rung, objects, id)
  }

  /** No block of it is past `rung`. */
  ghost predicate Behind(c: Cache, s: Session, rung: Rung, objects: Objects) {
    && s.id <= U16_MAX && c.Holds(s.contract.context) && OnlyBlocks(c, s, objects)
    && forall id: ObjectId :: IsBlock(c, s, id) ==> HeldBehind(c, s, rung, objects, id)
  }

  lemma LadderedBehind(c: Cache, s: Session, rung: Rung, objects: Objects)
    requires Laddered(c, s, objects) && s.rung.Depth() <= rung.Depth()
    ensures Behind(c, s, rung, objects)
  {
    hide HeldOn;
    forall id: ObjectId | IsBlock(c, s, id) ensures HeldBehind(c, s, rung, objects, id) {
      assert HeldOn(c, s, s.rung, objects, id);
    }
  }

  // ----- sizes -----

  /** A block's full size is some whole units of 64 bytes. */
  lemma FullIsUnits(c: Cache, s: Session, id: ObjectId)
    requires c.Holds(s.contract.context) && IsBlock(c, s, id)
    ensures 0 < FullOf(c, s, id) <= U32_MAX && FullOf(c, s, id) % 64 == 0
  {
    var per, at, context := c.shape.Per(), TensorOf(id), s.contract.context;
    BlockStarts(c.shape, context, at);
    var tokens := Min(context - at * per, per);
    assert FullOf(c, s, id) == tokens * c.unit;
    UnitsOf(tokens, c.unit);
    assert per * c.unit == tokens * c.unit + (per - tokens) * c.unit;
  }

  lemma UnitsOf(tokens: nat, unit: nat)
    requires tokens > 0 && unit > 0 && unit % 64 == 0
    ensures tokens * unit > 0 && tokens * unit % 64 == 0
  {
    var q := unit / 64;
    assert tokens * unit == 64 * (tokens * q);
  }

  /** A precision a rung uses. */
  predicate OnLadder(fate: Fate) { fate.Bits() == 16 || fate.Bits() == 8 || fate.Bits() == 4 }

  lemma FateIsOnLadder(c: Cache, s: Session, rung: Rung, id: ObjectId)
    ensures FateOn(c, s, rung, id).Precision().Some? ==> OnLadder(FateOn(c, s, rung, id))
    ensures FateOn(c, s, rung, id).Precision().Some? ==>
      BitsOf(FateOn(c, s, rung, id).Precision().value) == FateOn(c, s, rung, id).Bits()
    ensures FateOn(c, s, rung, id).Precision().None? <==> FateOn(c, s, rung, id).Bits() == 0
  {}

  /** Sixteenths of whole units, exactly. */
  lemma SixteenthsExact(full: nat, bits: nat)
    requires full % 64 == 0 && full > 0 && (bits == 16 || bits == 8 || bits == 4)
    ensures full * bits / 16 * 16 == full * bits && full * bits / 16 % ALIGN == 0 && full * bits / 16 > 0
    ensures 16 * (full * bits / 16) / bits == full
    ensures full * bits / 16 <= full
  {
    var q := full / 64;
    assert full == 64 * q;
    if bits == 16 {
      assert full * bits / 16 == 64 * q;
    } else if bits == 8 {
      assert full * bits / 16 == 32 * q;
    } else {
      assert full * bits / 16 == 16 * q;
    }
  }

  /** Requantizing from where a block is gives what quantizing once from its
      full size would: the rungs walked leave no trace. */
  lemma RequantizedOnce(m: Meta, was: Fate, fate: Fate, full: nat)
    requires full % 64 == 0 && 0 < full <= U32_MAX && OnLadder(was) && OnLadder(fate) && fate.Bits() <= was.Bits()
    requires was.Precision().Some? && m.precision == was.Precision().value && m.size == was.Bytes(full)
    ensures Resized(m, fate) == fate.Bytes(full)
    ensures Resized(m, fate) < m.size ==> Round(Resized(m, fate)) < Round(m.size)
    ensures Resized(m, fate) > 0
  {
    SixteenthsExact(full, was.Bits());
    SixteenthsExact(full, fate.Bits());
    MulLess(full, fate.Bits(), was.Bits());
    RoundMultiple(m.size);
    RoundMultiple(fate.Bytes(full));
  }

  // ----- one block -----

  /** What rewriting one of a session's blocks leaves alone. */
  ghost predicate OnlyTouches(a: Objects, b: Objects, id: ObjectId) {
    && (forall k :: k in b ==> k in a && b[k].owner == a[k].owner)
    && (forall k :: k in a && k != id ==> k in b && b[k] == a[k])
  }

  lemma RewriteTouches(s: State, id: ObjectId, fate: Fate)
    requires Counted(s)
    ensures OnlyTouches(s.objects, Rewrite(s, id, fate).0.objects, id)
  {
    hide Resized;
  }

  /** A block no further down than `rung`, rewritten as `rung` has it: every
      account kept, nothing changed if refused, and on the rung if not. */
  lemma BlockRewritten(c: Cache, s: State, who: Session, rung: Rung, id: ObjectId)
    requires Counted(s) && Conserved(s) && c.Holds(who.contract.context) && IsBlock(c, who, id)
    requires HeldBehind(c, who, rung, s.objects, id) && id in s.objects
    ensures var (t, r) := Rewrite(s, id, FateOn(c, who, rung, id));
      && Conserved(t) && (r.Err? ==> t == s) && (r.Ok? ==> HeldOn(c, who, rung, t.objects, id))
  {
    hide Charged, Rewrite, FateOn;
    var r: Rung :| r.Depth() <= rung.Depth() && HeldOn(c, who, r, s.objects, id);
    var was, fate := FateOn(c, who, r, id), FateOn(c, who, rung, id);
    FullIsUnits(c, who, id);
    FateIsOnLadder(c, who, r, id);
    FateIsOnLadder(c, who, rung, id);
    FateFalls(c, who, r, rung, id);
    if fate.Precision().Some? {
      RequantizedOnce(s.objects[id], was, fate, FullOf(c, who, id));
      RewriteResizes(s, id, fate);
    }
    RewriteKeeps(s, id, fate);
    RewriteDrops(s, id, fate);
  }

  lemma FateFalls(c: Cache, s: Session, from: Rung, to: Rung, id: ObjectId)
    requires from.Depth() <= to.Depth()
    ensures FateOn(c, s, to, id).Bits() <= FateOn(c, s, from, id).Bits()
    ensures FateOn(c, s, from, id).Precision().None? ==> FateOn(c, s, to, id).Precision().None?
  {
    BitsFall(c.shape, from, to, TensorOf(id), c.shape.Blocks(s.contract.context));
  }

  lemma RewriteResizes(s: State, id: ObjectId, fate: Fate)
    requires Counted(s) && id in s.objects && fate.Precision().Some?
    ensures var m := s.objects[id].(size := Resized(s.objects[id], fate), precision := fate.Precision().value);
      Rewrite(s, id, fate).1.Ok? ==> Rewrite(s, id, fate).0.objects == s.objects[id := m]
  {
    hide Resized;
  }

  lemma RewriteDrops(s: State, id: ObjectId, fate: Fate)
    requires Counted(s)
    ensures fate.Precision().None? && Rewrite(s, id, fate).1.Ok? ==> id !in Rewrite(s, id, fate).0.objects
  {}
}
