/** Machine widths, options, and finite sums: what every other module leans on. */
module Basics {

  datatype Option<+T> = None | Some(value: T)

  const U16_MAX: nat := 0xffff
  const U32_MAX: nat := 0xffff_ffff
  const U64_MAX: nat := 0xffff_ffff_ffff_ffff

  function Min(a: int, b: int): int { if a <= b then a else b }

  function Max(a: int, b: int): int { if a >= b then a else b }

  /** `a.saturating_add(b)` on an unsigned integer whose largest value is `top`. */
  function SatAdd(a: nat, b: nat, top: nat): nat { if a + b > top then top else a + b }

  /** `a.saturating_sub(b)` on an unsigned integer. */
  function SatSub(a: int, b: int): nat { if a >= b then a - b else 0 }

  /** `a.saturating_mul(b)` on an unsigned integer whose largest value is `top`. */
  function SatMul(a: nat, b: nat, top: nat): nat { if a * b > top then top else a * b }

  /** The sum of a finite map's values: how the per-class and per-session
      accounts are stated over the object table. */
  ghost function Sum<K(!new)>(m: map<K, int>): int
  {
    if m == map[] then 0 else
      var k :| k in m;
      m[k] + Sum(m - {k})
  }

  /** Any key may be taken out first. */
  lemma {:induction false} SumRemove<K(!new)>(m: map<K, int>, k: K)
    requires k in m
    ensures Sum(m) == m[k] + Sum(m - {k})
    decreases |m|
  {
    var j :| j in m && Sum(m) == m[j] + Sum(m - {j});
    if j != k {
      assert |m - {j}| < |m| by { assert m.Keys == (m - {j}).Keys + {j}; }
      assert |m - {k}| < |m| by { assert m.Keys == (m - {k}).Keys + {k}; }
      SumRemove(m - {j}, k);
      SumRemove(m - {k}, j);
      assert m - {j} - {k} == m - {k} - {j};
    }
  }

  /** Writing one key moves the sum by the difference. */
  lemma SumUpdate<K(!new)>(m: map<K, int>, k: K, v: int)
    ensures Sum(m[k := v]) == Sum(m) - (if k in m then m[k] else 0) + v
  {
    SumRemove(m[k := v], k);
    assert m[k := v] - {k} == m - {k};
    if k in m { SumRemove(m, k); } else { assert m - {k} == m; }
  }

  lemma {:induction false} SumNonNegative<K(!new)>(m: map<K, int>)
    requires forall k :: k in m ==> m[k] >= 0
    ensures Sum(m) >= 0
    ensures forall k :: k in m ==> Sum(m) >= m[k]
    decreases |m|
  {
    if m != map[] {
      forall k | k in m ensures Sum(m) >= m[k] {
        assert |m - {k}| < |m| by { assert m.Keys == (m - {k}).Keys + {k}; }
        SumRemove(m, k);
        SumNonNegative(m - {k});
      }
      var k :| k in m;
      assert Sum(m) >= m[k] >= 0;
    }
  }

  lemma {:induction false} SumZero<K(!new)>(m: map<K, int>)
    requires forall k :: k in m ==> m[k] == 0
    ensures Sum(m) == 0
    decreases |m|
  {
    if m != map[] {
      var k :| k in m;
      assert |m - {k}| < |m| by { assert m.Keys == (m - {k}).Keys + {k}; }
      SumRemove(m, k);
      SumZero(m - {k});
    }
  }

  /** The sum of a sequence. */
  function SumSeq(s: seq<int>): int { if s == [] then 0 else s[0] + SumSeq(s[1..]) }

  lemma {:induction false} SumSeqUpdate(s: seq<int>, i: nat, v: int)
    requires i < |s|
    ensures SumSeq(s[i := v]) == SumSeq(s) - s[i] + v
  {
    if i == 0 {
      assert s[i := v][1..] == s[1..];
    } else {
      assert s[i := v][1..] == s[1..][i - 1 := v];
      SumSeqUpdate(s[1..], i - 1, v);
    }
  }

  lemma {:induction false} SumSeqAppend(s: seq<int>, t: seq<int>)
    ensures SumSeq(s + t) == SumSeq(s) + SumSeq(t)
  {
    if s == [] {
      assert s + t == t;
    } else {
      assert (s + t)[1..] == s[1..] + t;
      SumSeqAppend(s[1..], t);
    }
  }

  // ----- multiples and quotients -----

  lemma MulOrder(i: int, j: int, w: nat)
    requires w > 0
    ensures i < j <==> i * w < j * w
    ensures i < j ==> i * w + w <= j * w
  {
    if i < j {
      var d := j - i;
      assert j * w == i * w + d * w;
      MulAtLeast(d, w);
    } else {
      var d := i - j;
      assert i * w == j * w + d * w;
    }
  }

  lemma MulAtLeast(d: int, w: nat)
    requires d >= 1
    ensures d * w >= w
  {
    assert d * w == (d - 1) * w + w;
  }

  lemma DivFloor(x: nat, w: nat)
    requires w > 0
    ensures x / w * w <= x < x / w * w + w
    ensures x % w == 0 ==> x == x / w * w
  {}

  lemma MulMod(i: nat, w: nat)
    requires w > 0
    ensures i * w % w == 0 && i * w / w == i
  {
    DivFloor(i * w, w);
    MulOrder(i * w / w, i, w);
    MulOrder(i, i * w / w, w);
  }

  lemma QuotientIs(x: nat, q: nat, w: nat)
    requires w > 0 && q * w <= x < q * w + w
    ensures x / w == q
  {
    DivFloor(x, w);
    MulOrder(x / w, q, w);
    MulOrder(q, x / w, w);
  }

  // ----- sets -----

  lemma SubsetSize<T>(a: set<T>, b: set<T>)
    requires a <= b
    ensures |a| <= |b|
  {
    assert b == a + (b - a);
  }
}
