/** The free list of an arena, as a value: runs of bytes nothing is using.

    `Take` and `Give` are the reference definitions of first-fit placement and
    of a coalescing release, by recursion over the list. The class in
    Arena.dfy, which shifts entries of a fixed array, is proved to compute
    them. */
module Holes {
  import opened Basics

  /** The free list's fixed length. */
  const HOLES: nat := 64

  /** Every extent is a multiple of this. */
  const ALIGN: nat := 16

  /** `size.next_multiple_of(ALIGN)`. */
  function Round(size: nat): (r: nat)
    ensures r % ALIGN == 0 && size <= r < size + ALIGN
    ensures size > 0 ==> r > 0
  {
    (size + ALIGN - 1) / ALIGN * ALIGN
  }

  datatype Hole = Hole(at: nat, len: nat) {
    function End(): nat { at + len }
  }

  /** Byte `b` lies in some hole. */
  ghost predicate Free(f: seq<Hole>, b: int) {
    f != [] && (f[0].at <= b < f[0].End() || Free(f[1..], b))
  }

  /** Sorted, non-empty, disjoint and never adjacent, inside `capacity`. */
  ghost predicate Proper(f: seq<Hole>, capacity: nat) {
    f != [] ==>
      && f[0].len > 0 && f[0].End() <= capacity
      && (|f| > 1 ==> f[0].End() < f[1].at)
      && Proper(f[1..], capacity)
  }

  /** What the free list of an arena looks like. A region of no bytes starts
      with one empty hole and never changes; any other is `Proper`. */
  ghost predicate Canonical(f: seq<Hole>, capacity: nat) {
    if capacity == 0 then f == [Hole(0, 0)] else Proper(f, capacity)
  }

  /** A hole begins on an aligned byte and ends on one, or at the region's end. */
  predicate HoleAligned(h: Hole, capacity: nat) {
    h.at % ALIGN == 0 && (h.End() % ALIGN == 0 || h.End() == capacity)
  }

  ghost predicate Aligned(f: seq<Hole>, capacity: nat) {
    f != [] ==> HoleAligned(f[0], capacity) && Aligned(f[1..], capacity)
  }

  /** The list of an entirely free region. */
  function Fresh(capacity: nat): seq<Hole> { [Hole(0, capacity)] }

  /** Bytes free in total. */
  function Total(f: seq<Hole>): nat { if f == [] then 0 else f[0].len + Total(f[1..]) }

  /** The longest run, or zero: `Occupancy::largest`. */
  function Largest(f: seq<Hole>): nat {
    if f == [] then 0 else Max(f[0].len, Largest(f[1..]))
  }

  /** First fit: the lowest run of at least `want` bytes gives its first
      `want`. `None` when no single run is long enough. */
  function Take(f: seq<Hole>, want: nat): Option<(nat, seq<Hole>)> {
    if f == [] then None
    else if f[0].len > want then Some((f[0].at, [Hole(f[0].at + want, f[0].len - want)] + f[1..]))
    else if f[0].len == want then Some((f[0].at, f[1..]))
    else match Take(f[1..], want)
      case None => None
      case Some(p) => Some((p.0, [f[0]] + p.1))
  }

  /** Gives `[at, at + len)` back, joining whatever it touches. */
  function Give(f: seq<Hole>, at: nat, len: nat): seq<Hole>
    decreases |f|
  {
    if f == [] || at + len < f[0].at then [Hole(at, len)] + f
    else if at + len == f[0].at then [Hole(at, len + f[0].len)] + f[1..]
    else if f[0].End() == at then Give(f[1..], f[0].at, f[0].len + len)
    else [f[0]] + Give(f[1..], at, len)
  }

  /** No byte of `[at, at + len)` is free. */
  ghost predicate Taken(f: seq<Hole>, at: nat, len: nat) {
    forall b :: at <= b < at + len ==> !Free(f, b)
  }

  // ----- coverage -----

  /** The same two notions by position. */
  lemma {:induction false} FreeByPosition(f: seq<Hole>, b: int)
    ensures Free(f, b) <==> exists i :: 0 <= i < |f| && f[i].at <= b < f[i].End()
  {
    if f != [] {
      FreeByPosition(f[1..], b);
      if i :| 0 <= i < |f| && f[i].at <= b < f[i].End() {
        assert i > 0 ==> f[1..][i - 1] == f[i];
      }
      if i :| 0 <= i < |f[1..]| && f[1..][i].at <= b < f[1..][i].End() {
        assert f[i + 1] == f[1..][i];
      }
    }
  }

  lemma {:induction false} ProperByPosition(f: seq<Hole>, capacity: nat)
    ensures Proper(f, capacity) <==>
      && (forall i :: 0 <= i < |f| ==> f[i].len > 0 && f[i].End() <= capacity)
      && (forall i, j :: 0 <= i < j < |f| ==> f[i].End() < f[j].at)
  {
    if f != [] {
      var g := f[1..];
      ProperByPosition(g, capacity);
      assert forall i :: 0 <= i < |g| ==> g[i] == f[i + 1];
      assert forall i :: 0 < i < |f| ==> f[i] == g[i - 1];
    }
  }

  lemma FreeSplit(f: seq<Hole>)
    requires f != []
    ensures forall b :: Free(f, b) <==> f[0].at <= b < f[0].End() || Free(f[1..], b)
  {}

  lemma {:induction false} ProperTail(f: seq<Hole>, capacity: nat)
    requires Proper(f, capacity) && f != []
    ensures forall b :: Free(f[1..], b) ==> b > f[0].End()
  {
    var g := f[1..];
    if g != [] {
      ProperTail(g, capacity);
    }
  }

  /** `g` is `f` with `[at, at + len)` given back: proper, freeing exactly
      those bytes, its total exactly that much larger. */
  ghost predicate Gave(f: seq<Hole>, at: nat, len: nat, capacity: nat, g: seq<Hole>) {
    && Proper(g, capacity)
    && (forall b :: Free(g, b) <==> Free(f, b) || at <= b < at + len)
    && Total(g) == Total(f) + len
    && g != [] && g[0].at == (if f == [] then at else Min(at, f[0].at))
  }

  lemma {:induction false} GiveFrees(f: seq<Hole>, at: nat, len: nat, capacity: nat)
    requires Proper(f, capacity) && len > 0 && at + len <= capacity && Taken(f, at, len)
    ensures Gave(f, at, len, capacity, Give(f, at, len))
    decreases |f|, 1
  {
    if f == [] || at + len < f[0].at {
      assert ([Hole(at, len)] + f)[1..] == f;
    } else if at + len == f[0].at {
      FreeSplit(f);
      assert ([Hole(at, len + f[0].len)] + f[1..])[1..] == f[1..];
    } else {
      assert f[0].at <= at < f[0].End() ==> Free(f, at);
      assert at < f[0].at ==> Free(f, f[0].at);
      if f[0].End() == at {
        GiveJoinsPrevious(f, at, len, capacity);
      } else {
        GivePasses(f, at, len, capacity);
      }
    }
  }

  lemma {:induction false} GiveJoinsPrevious(f: seq<Hole>, at: nat, len: nat, capacity: nat)
    requires Proper(f, capacity) && len > 0 && at + len <= capacity && Taken(f, at, len)
    requires f != [] && f[0].End() == at
    ensures Gave(f, at, len, capacity, Give(f, at, len))
    decreases |f|, 0
  {
    FreeSplit(f);
    ProperTail(f, capacity);
    GiveFrees(f[1..], f[0].at, f[0].len + len, capacity);
  }

  lemma {:induction false} GivePasses(f: seq<Hole>, at: nat, len: nat, capacity: nat)
    requires Proper(f, capacity) && len > 0 && at + len <= capacity && Taken(f, at, len)
    requires f != [] && f[0].End() < at
    ensures Gave(f, at, len, capacity, Give(f, at, len))
    decreases |f|, 0
  {
    FreeSplit(f);
    GiveFrees(f[1..], at, len, capacity);
    var given := Give(f[1..], at, len);
    assert ([f[0]] + given)[1..] == given;
    FreeSplit([f[0]] + given);
  }

  /** A placement keeps the list proper, takes exactly the first `want`
      bytes of one run, all of them free before, and nothing else. */
  lemma {:induction false} TakeTakes(f: seq<Hole>, want: nat, capacity: nat)
    requires Proper(f, capacity) && want > 0 && Take(f, want).Some?
    ensures var (at, g) := Take(f, want).value;
      && Proper(g, capacity) && at + want <= capacity
      && (forall b :: Free(f, b) <==> Free(g, b) || at <= b < at + want)
      && Taken(g, at, want)
      && Total(g) + want == Total(f)
      && f != [] && f[0].at <= at && (g != [] ==> f[0].at <= g[0].at)
  {
    var (at, g) := Take(f, want).value;
    var head, rest := f[0], f[1..];
    FreeSplit(f);
    ProperTail(f, capacity);
    if head.len > want {
      var left := Hole(head.at + want, head.len - want);
      assert ([left] + rest)[1..] == rest;
    } else if head.len < want {
      TakeTakes(rest, want, capacity);
      var taken := Take(rest, want).value.1;
      assert ([head] + taken)[1..] == taken;
      assert forall b :: at <= b < at + want ==> Free(rest, b);
    }
  }

  // ----- the list is determined by the bytes that are free -----

  /** Two proper lists over the same free bytes are the same list. */
  lemma {:induction false} ProperUnique(f: seq<Hole>, g: seq<Hole>, capacity: nat)
    requires Proper(f, capacity) && Proper(g, capacity)
    requires forall b :: Free(f, b) <==> Free(g, b)
    ensures f == g
  {
    assert g != [] ==> Free(g, g[0].at);
    assert f != [] ==> Free(f, f[0].at);
    if f != [] {
      ProperTail(f, capacity);
      ProperTail(g, capacity);
      FreeSplit(f);
      FreeSplit(g);
      assert f[0].at == g[0].at;
      assert !Free(f, f[0].End()) && !Free(g, g[0].End());
      assert f[0].End() == g[0].End();
      assert f[0] == g[0];
      ProperUnique(f[1..], g[1..], capacity);
      assert f == [f[0]] + f[1..] && g == [g[0]] + g[1..];
    }
  }

  /** The order of two releases does not matter. */
  lemma GiveCommutes(f: seq<Hole>, a: nat, m: nat, b: nat, n: nat, capacity: nat)
    requires Proper(f, capacity) && m > 0 && n > 0
    requires a + m <= capacity && b + n <= capacity && (a + m <= b || b + n <= a)
    requires Taken(f, a, m) && Taken(f, b, n)
    ensures Give(Give(f, a, m), b, n) == Give(Give(f, b, n), a, m)
  {
    GiveFrees(f, a, m, capacity);
    GiveFrees(f, b, n, capacity);
    GiveFrees(Give(f, a, m), b, n, capacity);
    GiveFrees(Give(f, b, n), a, m, capacity);
    ProperUnique(Give(Give(f, a, m), b, n), Give(Give(f, b, n), a, m), capacity);
  }

  // ----- when a placement fails -----

  /** `place` fails exactly when `fits` says it would, and exactly when no
      `want` consecutive bytes are free. */
  lemma {:induction false} TakeFailsExactly(f: seq<Hole>, want: nat, capacity: nat)
    requires Proper(f, capacity) && want > 0
    ensures Take(f, want).None? <==> Largest(f) < want
    ensures Take(f, want).None? <==> !exists at: nat :: RunOf(f, at, want)
  {
    TakeFailsLargest(f, want);
    LargestBounds(f);
    if Largest(f) >= want {
      var i :| 0 <= i < |f| && f[i].len == Largest(f);
      forall b | f[i].at <= b < f[i].at + want ensures Free(f, b) { FreeByPosition(f, b); }
      assert RunOf(f, f[i].at, want);
    }
    if at: nat :| RunOf(f, at, want) {
      RunInOneHole(f, at, want, capacity);
    }
  }

  /** All of `[at, at + want)` is free. */
  ghost predicate RunOf(f: seq<Hole>, at: nat, want: nat) {
    forall b :: at <= b < at + want ==> Free(f, b)
  }

  lemma {:induction false} TakeFailsLargest(f: seq<Hole>, want: nat)
    requires want > 0
    ensures Take(f, want).None? <==> Largest(f) < want
  {
    if f != [] { TakeFailsLargest(f[1..], want); }
  }

  lemma {:induction false} LargestBounds(f: seq<Hole>)
    ensures forall i :: 0 <= i < |f| ==> f[i].len <= Largest(f)
    ensures Largest(f) > 0 ==> exists i :: 0 <= i < |f| && f[i].len == Largest(f)
  {
    if f != [] {
      LargestBounds(f[1..]);
      assert forall i :: 0 < i < |f| ==> f[i] == f[1..][i - 1];
      if Largest(f) != f[0].len {
        var i :| 0 <= i < |f[1..]| && f[1..][i].len == Largest(f[1..]);
        assert f[i + 1].len == Largest(f);
      }
    }
  }

  /** Holes never touch, so a free run lies inside one of them. */
  lemma {:induction false} RunInOneHole(f: seq<Hole>, at: nat, want: nat, capacity: nat)
    requires Proper(f, capacity) && want > 0 && RunOf(f, at, want)
    ensures exists i :: 0 <= i < |f| && f[i].at <= at && at + want <= f[i].End()
    ensures Largest(f) >= want
  {
    assert Free(f, at);
    FreeByPosition(f, at);
    ProperByPosition(f, capacity);
    var i :| 0 <= i < |f| && f[i].at <= at < f[i].End();
    FreeByPosition(f, f[i].End());
    assert !Free(f, f[i].End());
    LargestBounds(f);
  }

  // ----- totals and alignment -----

  lemma {:induction false} GiveAligned(f: seq<Hole>, at: nat, len: nat, capacity: nat)
    requires Aligned(f, capacity) && at % ALIGN == 0 && len % ALIGN == 0
    ensures Aligned(Give(f, at, len), capacity)
    decreases |f|
  {
    if f == [] || at + len < f[0].at {
      assert ([Hole(at, len)] + f)[1..] == f;
    } else if at + len == f[0].at {
      assert ([Hole(at, len + f[0].len)] + f[1..])[1..] == f[1..];
    } else if f[0].End() == at {
      GiveAligned(f[1..], f[0].at, f[0].len + len, capacity);
    } else {
      GiveAligned(f[1..], at, len, capacity);
      assert ([f[0]] + Give(f[1..], at, len))[1..] == Give(f[1..], at, len);
    }
  }

  lemma {:induction false} TakeAligned(f: seq<Hole>, want: nat, capacity: nat)
    requires Aligned(f, capacity) && want % ALIGN == 0 && Take(f, want).Some?
    ensures Take(f, want).value.0 % ALIGN == 0
    ensures Aligned(Take(f, want).value.1, capacity)
  {
    if f[0].len > want {
      var left := Hole(f[0].at + want, f[0].len - want);
      assert HoleAligned(left, capacity) && ([left] + f[1..])[1..] == f[1..];
    } else if f[0].len < want {
      TakeAligned(f[1..], want, capacity);
      var left := Take(f[1..], want).value.1;
      assert ([f[0]] + left)[1..] == left;
    }
  }
}
