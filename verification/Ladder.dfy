/** The degradation ladder's arithmetic: the fate of each block rung by rung,
    the bytes a context holds there, and the bytes a descent reads. */
module LadderModel {
  import opened Basics
  import opened MetaModel
  import opened SessionModel
  import Admission

  /** A block's fate on a rung. */
  datatype Fate = Keep(at: Precision) | Summary | Dropped {
    function Precision(): Option<Precision> {
      match this
      case Keep(p) => Some(p)
      case Summary => Some(Q4)
      case Dropped => None
    }

    /** Sixteenths of full precision it holds. */
    function Bits(): (bits: nat)
      ensures bits <= 16
    {
      match Precision()
      case None => 0
      case Some(p) => BitsOf(p)
    }

    /** Its share of `full` bytes, rounded down. */
    function Bytes(full: nat): nat { full * Bits() / 16 }
  }

  function BitsOf(p: Precision): (bits: nat)
    ensures 2 <= bits <= 16
  {
    match p
    case Fp16 => 16
    case Bf16 => 16
    case Q8 => 8
    case Q4 => 4
    case Q3 => 3
    case Ternary => 2
  }

  /** How a context is cut into blocks, and how many of the newest are hot. */
  datatype Shape = Shape(perBlock: nat, hot: nat) {

    function Per(): (per: nat)
      ensures per > 0
    {
      if perBlock == 0 then 1 else perBlock
    }

    /** `context.div_ceil(per)`. */
    function Blocks(context: nat): nat { (context + Per() - 1) / Per() }

    /** The bytes of the tokens in block `at`, `kv` each, uncompressed. */
    function Full(at: nat, context: nat, kv: nat): nat {
      Min(SatSub(context, SatMul(at, Per(), U32_MAX)), Per()) * kv
    }

    function Cold(blocks: nat): nat { SatSub(blocks, hot) }

    /** How many of the oldest are summed up in one: half of what is cold,
        unless that is fewer than two. */
    function Span(blocks: nat): nat { if Cold(blocks) / 2 >= 2 then Cold(blocks) / 2 else 0 }

    /** How many cold blocks past the span L4 gives up: half, rounded up. */
    function Cut(blocks: nat): nat {
      var candidates := Cold(blocks) - Span(blocks);
      candidates - candidates / 2
    }

    /** What block `at` of `blocks`, zero the oldest, is on `rung`. */
    function FateOf(rung: Rung, at: nat, blocks: nat): Fate {
      if at >= Cold(blocks) then Keep(Fp16)
      else match rung
        case L0 => Keep(Fp16)
        case L1 => Keep(Q8)
        case L2 => Keep(Q4)
        case L3 | L4 =>
          if at == 0 && Span(blocks) != 0 then Summary
          else if at < Span(blocks) then Dropped
          else if rung == L4 && at < Span(blocks) + Cut(blocks) then Dropped
          else Keep(Q4)
        case _ => Dropped
    }

    /** Block `at` has to be read to go from one rung to the other. */
    predicate Reads(from: Rung, to: Rung, at: nat, blocks: nat) {
      match (FateOf(from, at, blocks), FateOf(to, at, blocks))
      case (Dropped, _) => false
      case (Keep(a), Keep(b)) => a.Rank() != b.Rank()
      case (Summary, Summary) => false
      case (_, Dropped) =>
        from.Depth() < L3.Depth() && to.Depth() < L5.Depth() && FateOf(L3, at, blocks) == Dropped
      case _ => true
    }

    /** Bytes block `at` holds on `rung`. */
    function Holds(rung: Rung, at: nat, context: nat, kv: nat): nat {
      FateOf(rung, at, Blocks(context)).Bytes(Full(at, context, kv))
    }

    /** Bytes of block `at` read on a move: what it held before, if at all. */
    function Spends(from: Rung, to: Rung, at: nat, context: nat, kv: nat): nat {
      if Reads(from, to, at, Blocks(context)) then Holds(from, at, context, kv) else 0
    }

    /** `need`: bytes a context holds on `rung`. */
    function Need(rung: Rung, context: nat, kv: nat): nat { NeedUpTo(rung, context, kv, Blocks(context)) }

    function NeedUpTo(rung: Rung, context: nat, kv: nat, n: nat): (r: nat)
      ensures r <= U64_MAX
    {
      if n == 0 then 0 else SatAdd(NeedUpTo(rung, context, kv, n - 1), Holds(rung, n - 1, context, kv), U64_MAX)
    }

    /** `cost`: what a descent between two rungs reads in all. */
    function Cost(from: Rung, to: Rung, context: nat, kv: nat): nat { CostUpTo(from, to, context, kv, Blocks(context)) }

    function CostUpTo(from: Rung, to: Rung, context: nat, kv: nat, n: nat): (r: nat)
      ensures r <= U64_MAX
    {
      if n == 0 then 0 else SatAdd(CostUpTo(from, to, context, kv, n - 1), Spends(from, to, n - 1, context, kv), U64_MAX)
    }
  }

  // ----- one block -----

  /** No rung touches a hot block. */
  lemma HotIsFull(shape: Shape, rung: Rung, at: nat, blocks: nat)
    requires at < blocks && at + shape.hot >= blocks
    ensures shape.FateOf(rung, at, blocks) == Keep(Fp16)
  {}

  /** What a rung drops every deeper rung drops. */
  lemma DroppedStays(shape: Shape, from: Rung, to: Rung, at: nat, blocks: nat)
    requires from.Depth() <= to.Depth() && shape.FateOf(from, at, blocks) == Dropped
    ensures shape.FateOf(to, at, blocks) == Dropped
  {}

  /** Deeper is never finer. */
  lemma BitsFall(shape: Shape, from: Rung, to: Rung, at: nat, blocks: nat)
    requires from.Depth() <= to.Depth()
    ensures shape.FateOf(to, at, blocks).Bits() <= shape.FateOf(from, at, blocks).Bits()
  {}

  lemma HoldsFall(shape: Shape, from: Rung, to: Rung, at: nat, context: nat, kv: nat)
    requires from.Depth() <= to.Depth()
    ensures shape.Holds(to, at, context, kv) <= shape.Holds(from, at, context, kv)
  {
    var full, blocks := shape.Full(at, context, kv), shape.Blocks(context);
    BitsFall(shape, from, to, at, blocks);
    MulLess(full, shape.FateOf(to, at, blocks).Bits(), shape.FateOf(from, at, blocks).Bits());
  }

  lemma MulLess(w: nat, a: nat, b: nat)
    requires a <= b
    ensures w * a <= w * b && w * a / 16 <= w * b / 16
  {
    assert w * b == w * a + w * (b - a);
  }

  /** A block read on the way from `a` to `c` is read on the way to `b`, or
      on the way from `b` in the form it had on `a`. */
  lemma ReadsTriangle(shape: Shape, a: Rung, b: Rung, c: Rung, at: nat, blocks: nat)
    requires a.Depth() <= b.Depth() <= c.Depth() <= L5.Depth()
    ensures shape.Reads(a, c, at, blocks) && !shape.Reads(a, b, at, blocks) ==> shape.Reads(b, c, at, blocks)
    ensures shape.Reads(a, c, at, blocks) && !shape.Reads(a, b, at, blocks) ==>
      shape.FateOf(a, at, blocks).Bits() == shape.FateOf(b, at, blocks).Bits()
  {}

  /** Going by way of a rung between reads a block no less. */
  lemma SpendsTriangle(shape: Shape, a: Rung, b: Rung, c: Rung, at: nat, context: nat, kv: nat)
    requires a.Depth() <= b.Depth() <= c.Depth() <= L5.Depth()
    ensures shape.Spends(a, c, at, context, kv) <= shape.Spends(a, b, at, context, kv) + shape.Spends(b, c, at, context, kv)
  {
    hide Shape.FateOf, Shape.Reads, Shape.Full, Fate.Bits;
    ReadsTriangle(shape, a, b, c, at, shape.Blocks(context));
  }

  // ----- the whole context -----

  /** One block more of tokens. */
  lemma TokensStep(shape: Shape, context: nat, kv: nat, n: nat)
    requires context <= U32_MAX && n < shape.Blocks(context)
    ensures Min((n + 1) * shape.Per(), context) == Min(n * shape.Per(), context) + Min(context - n * shape.Per(), shape.Per())
    ensures shape.Holds(L0, n, context, kv) == Min(context - n * shape.Per(), shape.Per()) * kv
    ensures context - n * shape.Per() > 0
  {
    BlockStarts(shape, context, n);
    WholeBytes(shape, context, kv, n);
    assert (n + 1) * shape.Per() == n * shape.Per() + shape.Per();
  }

  lemma SatSum(x: nat, y: nat, kv: nat)
    ensures SatAdd(Min(x * kv, U64_MAX), y * kv, U64_MAX) == Min((x + y) * kv, U64_MAX)
  {
    assert (x + y) * kv == x * kv + y * kv;
  }

  /** The blocks of a context hold its tokens, and no more. */
  lemma {:induction false} TokensUpTo(shape: Shape, context: nat, kv: nat, n: nat)
    requires context <= U32_MAX && n <= shape.Blocks(context)
    ensures shape.NeedUpTo(L0, context, kv, n) == Min(Min(n * shape.Per(), context) * kv, U64_MAX)
  {
    hide Shape.Holds, Shape.Blocks, Shape.Per;
    if n > 0 {
      TokensUpTo(shape, context, kv, n - 1);
      TokensStep(shape, context, kv, n - 1);
      SatSum(Min((n - 1) * shape.Per(), context), Min(context - (n - 1) * shape.Per(), shape.Per()), kv);
    } else {
      ZeroTimes(shape.Per(), kv);
    }
  }

  lemma ZeroTimes(a: nat, b: nat)
    ensures 0 * a == 0 && 0 * b == 0
  {}

  lemma WholeBytes(shape: Shape, context: nat, kv: nat, at: nat)
    ensures shape.Holds(L0, at, context, kv) == shape.Full(at, context, kv)
  {}

  /** A block of a context begins inside it. */
  lemma BlockStarts(shape: Shape, context: nat, at: nat)
    requires at < shape.Blocks(context)
    ensures at * shape.Per() < context
  {
    var per := shape.Per();
    DivFloor(context + per - 1, per);
    MulOrder(at, shape.Blocks(context), per);
  }

  /** On L0 a context needs exactly what admission charged for it. */
  lemma NeedIsCharged(shape: Shape, c: Admission.Capacity, contract: Contract)
    requires contract.context <= U32_MAX
    ensures shape.Need(L0, contract.context, c.kvPerToken) == Admission.Need(c, contract)
  {
    var context, n, per := contract.context, shape.Blocks(contract.context), shape.Per();
    TokensUpTo(shape, context, c.kvPerToken, n);
    DivFloor(context + per - 1, per);
    assert n * per >= context;
  }

  /** No rung needs more than the one above. */
  lemma {:induction false} NeedFalls(shape: Shape, from: Rung, to: Rung, context: nat, kv: nat, n: nat)
    requires from.Depth() <= to.Depth()
    ensures shape.NeedUpTo(to, context, kv, n) <= shape.NeedUpTo(from, context, kv, n)
    ensures n == shape.Blocks(context) ==> shape.Need(to, context, kv) <= shape.Need(from, context, kv)
  {
    hide Shape.Holds;
    if n > 0 {
      NeedFalls(shape, from, to, context, kv, n - 1);
      HoldsFall(shape, from, to, n - 1, context, kv);
    }
  }

  /** A move reads no more than was held. */
  lemma {:induction false} CostWithin(shape: Shape, from: Rung, to: Rung, context: nat, kv: nat, n: nat)
    ensures shape.CostUpTo(from, to, context, kv, n) <= shape.NeedUpTo(from, context, kv, n)
    ensures n == shape.Blocks(context) ==> shape.Cost(from, to, context, kv) <= shape.Need(from, context, kv)
  {
    hide Shape.Holds, Shape.Reads;
    if n > 0 { CostWithin(shape, from, to, context, kv, n - 1); }
  }

  /** Truncation reads nothing. */
  lemma {:induction false} TruncationIsFree(shape: Shape, from: Rung, context: nat, kv: nat, n: nat)
    ensures shape.CostUpTo(from, L5, context, kv, n) == 0
    ensures n == shape.Blocks(context) ==> shape.Cost(from, L5, context, kv) == 0
  {
    hide Shape.Holds;
    if n > 0 { TruncationIsFree(shape, from, context, kv, n - 1); }
  }

  /** Stopping on the way down is never cheaper than going straight there. */
  lemma {:induction false} CostTriangle(shape: Shape, a: Rung, b: Rung, c: Rung, context: nat, kv: nat, n: nat)
    requires a.Depth() <= b.Depth() <= c.Depth() <= L5.Depth()
    ensures shape.CostUpTo(a, c, context, kv, n) <= shape.CostUpTo(a, b, context, kv, n) + shape.CostUpTo(b, c, context, kv, n)
    ensures n == shape.Blocks(context) ==>
      shape.Cost(a, c, context, kv) <= shape.Cost(a, b, context, kv) + shape.Cost(b, c, context, kv)
  {
    hide Shape.Spends;
    if n > 0 {
      CostTriangle(shape, a, b, c, context, kv, n - 1);
      SpendsTriangle(shape, a, b, c, n - 1, context, kv);
    }
  }
}
