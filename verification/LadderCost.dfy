/** What the ladder's rungs give up and what a descent reads, said of the
    blocks themselves. */
module LadderCost {
  import opened Basics
  import opened MetaModel
  import opened LadderModel

  // ----- what a rung gives up -----

  /** Blocks older than `at` and newer, of those that count. */
  ghost function Older(counts: set<int>, at: int): set<int> { set i | i in counts && i < at }

  ghost function Newer(counts: set<int>, at: int): set<int> { set i | i in counts && i > at }

  /** All but the newest `hot` blocks. */
  ghost function ColdBlocks(shape: Shape, blocks: nat): set<int> { set i | 0 <= i < blocks && IsCold(shape, i, blocks) }

  predicate IsCold(shape: Shape, at: int, blocks: nat) { at + shape.hot < blocks }

  /** What L3 folds into its summary: half of what is cold, the older, if
      that is two or more. */
  ghost predicate InSpan(shape: Shape, at: int, blocks: nat) {
    && at in ColdBlocks(shape, blocks) && |ColdBlocks(shape, blocks)| >= 4
    && |Older(ColdBlocks(shape, blocks), at)| < |Newer(ColdBlocks(shape, blocks), at)|
  }

  /** The cold blocks that are in no summary. */
  ghost function Candidates(shape: Shape, blocks: nat): set<int> {
    set i | i in ColdBlocks(shape, blocks) && !InSpan(shape, i, blocks)
  }

  /** The older half of those, the middle one among them. */
  ghost predicate InOlderHalf(shape: Shape, at: int, blocks: nat) {
    at in Candidates(shape, blocks) && |Older(Candidates(shape, blocks), at)| <= |Newer(Candidates(shape, blocks), at)|
  }

  ghost function Interval(a: int, b: int): (r: set<int>)
    ensures forall i :: i in r <==> a <= i < b
    decreases b - a
  {
    if a >= b then {} else Interval(a, b - 1) + {b - 1}
  }

  lemma {:induction false} IntervalSize(a: int, b: int)
    ensures |Interval(a, b)| == if a <= b then b - a else 0
    decreases b - a
  {
    if a < b { IntervalSize(a, b - 1); }
  }

  lemma Around(counts: set<int>, a: int, b: int, at: int)
    requires counts == Interval(a, b) && at in counts
    ensures |Older(counts, at)| == at - a && |Newer(counts, at)| == b - 1 - at
  {
    assert Older(counts, at) == Interval(a, at);
    assert Newer(counts, at) == Interval(at + 1, b);
    IntervalSize(a, at);
    IntervalSize(at + 1, b);
  }

  lemma SpanIs(shape: Shape, at: int, blocks: nat)
    ensures ColdBlocks(shape, blocks) == Interval(0, shape.Cold(blocks)) && |ColdBlocks(shape, blocks)| == shape.Cold(blocks)
    ensures InSpan(shape, at, blocks) <==> 0 <= at < shape.Span(blocks)
  {
    var cold := ColdBlocks(shape, blocks);
    assert cold == Interval(0, shape.Cold(blocks));
    IntervalSize(0, shape.Cold(blocks));
    if at in cold { Around(cold, 0, shape.Cold(blocks), at); }
  }

  lemma SpanIsOldest(shape: Shape, at: nat, blocks: nat)
    ensures InSpan(shape, at, blocks) <==> at < shape.Span(blocks)
    ensures shape.Span(blocks) <= shape.Cold(blocks)
  {
    hide InSpan;
    SpanIs(shape, at, blocks);
  }

  lemma CutIs(shape: Shape, at: int, blocks: nat)
    ensures Candidates(shape, blocks) == Interval(shape.Span(blocks), shape.Cold(blocks))
    ensures InOlderHalf(shape, at, blocks) <==> shape.Span(blocks) <= at < shape.Span(blocks) + shape.Cut(blocks)
  {
    hide InSpan;
    forall i ensures InSpan(shape, i, blocks) <==> 0 <= i < shape.Span(blocks) { SpanIs(shape, i, blocks); }
    SpanIs(shape, at, blocks);
    var candidates := Candidates(shape, blocks);
    assert candidates == Interval(shape.Span(blocks), shape.Cold(blocks));
    if at in candidates { Around(candidates, shape.Span(blocks), shape.Cold(blocks), at); }
  }

  /** Every rung, block by block: hot ones untouched; L1 and L2 halve and
      quarter every cold one; L3 folds the older half into a quarter-size
      summary in the oldest's place; L4 drops the older half of the rest too;
      below that no cold block is left. */
  lemma RungsExactly(shape: Shape, rung: Rung, at: nat, blocks: nat)
    requires at < blocks
    ensures shape.FateOf(rung, at, blocks) ==
      if at !in ColdBlocks(shape, blocks) then Keep(Fp16)
      else if rung == L0 then Keep(Fp16)
      else if rung == L1 then Keep(Q8)
      else if rung == L2 then Keep(Q4)
      else if rung.Depth() > L4.Depth() then Dropped
      else if InSpan(shape, at, blocks) then (if at == 0 then Summary else Dropped)
      else if rung == L4 && InOlderHalf(shape, at, blocks) then Dropped
      else Keep(Q4)
  {
    hide InSpan, InOlderHalf;
    SpanIs(shape, at, blocks);
    CutIs(shape, at, blocks);
  }

  /** A precision's rank is its coarseness: of fewer bits, and only then, but for
      the two 16-bit forms, the brain float being the coarser. */
  lemma RanksByBits(a: Precision, b: Precision)
    ensures a.Rank() < b.Rank() <==> BitsOf(a) > BitsOf(b) || (a == Fp16 && b == Bf16)
    ensures BitsOf(Fp16) == BitsOf(Bf16) == 16 && BitsOf(Q8) == 8 && BitsOf(Q4) == 4 && BitsOf(Q3) == 3 && BitsOf(Ternary) == 2
  {}

  /** The quality a rung is said to serve is exactly the coarsest any of its
      blocks is left at while it forgets none; a rung that forgets is the
      coarsest there is. */
  lemma QualityIsServed(shape: Shape, rung: Rung)
    ensures rung.Depth() <= L2.Depth() ==>
      forall at: nat, blocks: nat :: at < blocks ==>
        shape.FateOf(rung, at, blocks) == Keep(Fp16) || shape.FateOf(rung, at, blocks) == Keep(rung.Quality())
    ensures rung.Depth() <= L2.Depth() ==> shape.FateOf(rung, 0, shape.hot + 1) == Keep(rung.Quality())
    ensures rung.Depth() > L2.Depth() ==> forall p: Precision :: p.Rank() <= rung.Quality().Rank()
    ensures rung.Depth() > L2.Depth() ==> exists at: nat, blocks: nat :: at < blocks && shape.FateOf(rung, at, blocks) == Dropped
  {
    if rung.Depth() > L2.Depth() { assert shape.FateOf(rung, 1, shape.hot + 4) == Dropped; }
  }

  // ----- what a descent reads -----

  /** Still held, and in another form. */
  predicate Changed(shape: Shape, from: Rung, to: Rung, at: nat, blocks: nat) {
    var a, b := shape.FateOf(from, at, blocks), shape.FateOf(to, at, blocks);
    a != Dropped && b != Dropped && a != b
  }

  /** Folded into the summary by a move from above L3 to L3 or L4. */
  ghost predicate Folded(shape: Shape, from: Rung, to: Rung, at: nat, blocks: nat) {
    from.Depth() < L3.Depth() && (to == L3 || to == L4) && at > 0 && InSpan(shape, at, blocks)
  }

  /** What block `at` held before, if it is one of those. */
  ghost function Rewritten(shape: Shape, from: Rung, to: Rung, at: nat, context: nat, kv: nat): nat {
    var blocks := shape.Blocks(context);
    if Changed(shape, from, to, at, blocks) || Folded(shape, from, to, at, blocks)
    then shape.FateOf(from, at, blocks).Bytes(shape.Full(at, context, kv)) else 0
  }

  /** What all of them held before, of the first `n`. */
  ghost function RewrittenBytes(shape: Shape, from: Rung, to: Rung, context: nat, kv: nat, n: nat): nat {
    if n == 0 then 0
    else RewrittenBytes(shape, from, to, context, kv, n - 1) + Rewritten(shape, from, to, n - 1, context, kv)
  }

  lemma BlockReads(shape: Shape, from: Rung, to: Rung, at: nat, blocks: nat)
    requires from.Depth() <= to.Depth()
    ensures shape.Reads(from, to, at, blocks) <==> Changed(shape, from, to, at, blocks) || Folded(shape, from, to, at, blocks)
  {
    hide InSpan, Shape.Cold, Shape.Span, Shape.Cut;
    SpanIsOldest(shape, at, blocks);
  }

  lemma BlockSpends(shape: Shape, from: Rung, to: Rung, at: nat, context: nat, kv: nat)
    requires from.Depth() <= to.Depth()
    ensures shape.Spends(from, to, at, context, kv) == Rewritten(shape, from, to, at, context, kv)
  {
    hide Shape.Full, Shape.Blocks, Shape.Reads, Shape.FateOf, Changed, Folded, Fate.Bytes;
    BlockReads(shape, from, to, at, shape.Blocks(context));
  }

  /** A descent reads what it rewrites and what it folds into a summary, each
      at its size before, and nothing else. */
  lemma {:induction false} CostIsRewritten(shape: Shape, from: Rung, to: Rung, context: nat, kv: nat, n: nat)
    requires from.Depth() <= to.Depth()
    ensures shape.CostUpTo(from, to, context, kv, n) == Min(RewrittenBytes(shape, from, to, context, kv, n), U64_MAX)
    ensures n == shape.Blocks(context) ==>
      shape.Cost(from, to, context, kv) == Min(RewrittenBytes(shape, from, to, context, kv, n), U64_MAX)
  {
    hide Shape.Spends, Rewritten, Shape.Blocks;
    if n > 0 {
      CostIsRewritten(shape, from, to, context, kv, n - 1);
      BlockSpends(shape, from, to, n - 1, context, kv);
    }
  }

  /** One block of a context: what it is read for, what it is left as. */
  lemma BlockQuantized(shape: Shape, from: Rung, to: Rung, at: nat, context: nat, kv: nat)
    requires (from == L0 && (to == L1 || to == L2)) || (from == L1 && to == L2)
    ensures shape.Spends(from, to, at, context, kv) + shape.Holds(L5, at, context, kv) == shape.Holds(from, at, context, kv)
  {
    hide Shape.Full, Shape.Blocks;
  }

  /** Requantizing reads all a context holds but its hot window: what the
      rung below which no cold block is left would hold. */
  lemma {:induction false} QuantizingCosts(shape: Shape, from: Rung, to: Rung, context: nat, kv: nat, n: nat)
    requires (from == L0 && (to == L1 || to == L2)) || (from == L1 && to == L2)
    requires shape.NeedUpTo(from, context, kv, n) < U64_MAX
    ensures shape.CostUpTo(from, to, context, kv, n) + shape.NeedUpTo(L5, context, kv, n) == shape.NeedUpTo(from, context, kv, n)
    ensures n == shape.Blocks(context) ==>
      shape.Cost(from, to, context, kv) + shape.Need(L5, context, kv) == shape.Need(from, context, kv)
  {
    hide Shape.Holds, Shape.Spends;
    if n > 0 {
      QuantizingCosts(shape, from, to, context, kv, n - 1);
      BlockQuantized(shape, from, to, n - 1, context, kv);
    }
  }

  lemma BlockSummarised(shape: Shape, at: nat, context: nat, kv: nat)
    ensures shape.Spends(L2, L3, at, context, kv) + shape.Holds(L3, at, context, kv)
      == shape.Holds(L2, at, context, kv) + (if at == 0 && InSpan(shape, 0, shape.Blocks(context)) then shape.Holds(L3, 0, context, kv) else 0)
    ensures shape.Spends(L3, L4, at, context, kv) == 0
  {
    hide Shape.Full, Shape.Blocks, InSpan, Fate.Bytes, Shape.Cold, Shape.Span, Shape.Cut;
    SpanIsOldest(shape, at, shape.Blocks(context));
    SpanIsOldest(shape, 0, shape.Blocks(context));
    NoBytes(shape.Full(at, context, kv));
  }

  lemma NoBytes(full: nat)
    ensures Dropped.Bytes(full) == 0 && Summary.Bytes(full) == Keep(Q4).Bytes(full)
  {}

  /** Summarising reads the span: the bytes the rung frees, and the summary's
      own. Dropping candidates reads nothing. */
  lemma {:induction false} SummarisingCosts(shape: Shape, context: nat, kv: nat, n: nat)
    requires n > 0 && shape.NeedUpTo(L2, context, kv, n) < U64_MAX
    requires shape.NeedUpTo(L2, context, kv, n) + shape.Holds(L3, 0, context, kv) < U64_MAX
    ensures shape.CostUpTo(L2, L3, context, kv, n) + shape.NeedUpTo(L3, context, kv, n)
      == shape.NeedUpTo(L2, context, kv, n) + (if InSpan(shape, 0, shape.Blocks(context)) then shape.Holds(L3, 0, context, kv) else 0)
    ensures shape.CostUpTo(L3, L4, context, kv, n) == 0
    ensures n == shape.Blocks(context) ==>
      && shape.Cost(L2, L3, context, kv) + shape.Need(L3, context, kv)
         == shape.Need(L2, context, kv) + (if InSpan(shape, 0, n) then shape.Holds(L3, 0, context, kv) else 0)
      && shape.Cost(L3, L4, context, kv) == 0
  {
    hide Shape.Holds, Shape.Spends, InSpan;
    BlockSummarised(shape, n - 1, context, kv);
    if n > 1 { SummarisingCosts(shape, context, kv, n - 1); } else {
      NothingYet(shape, L2, L3, context, kv);
      NothingYet(shape, L3, L4, context, kv);
    }
  }

  lemma NothingYet(shape: Shape, from: Rung, to: Rung, context: nat, kv: nat)
    ensures shape.CostUpTo(from, to, context, kv, 0) == shape.NeedUpTo(from, context, kv, 0) == shape.NeedUpTo(to, context, kv, 0) == 0
  {}
}
