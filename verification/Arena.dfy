/** The arena: one region of bytes, and the sorted list of its free runs.

    `Region` is the arena as a value; the class shifts the entries of a fixed
    array, as a kernel without an allocator must, and is proved to compute it. */
module ArenaModel {
  import opened Basics
  import opened Abi
  import opened Holes

  /** What an arena is: where it begins, how long it is, what is free. */
  datatype Region = Region(base: nat, capacity: nat, free: seq<Hole>, used: int) {

    ghost predicate Valid() {
      && Canonical(free, capacity)
      && Aligned(free, capacity)
      && used + Total(free) == capacity
      && |free| <= HOLES
    }

    /** `Occupancy::fits`. */
    function Fits(size: nat): bool { Largest(free) >= Round(size) }

    /** Reserves `size` bytes: the address, and the region left. */
    function Place(size: nat): Option<(nat, Region)> {
      match Take(free, Round(size))
      case None => None
      case Some((at, left)) => Some((base + at, this.(free := left, used := used + Round(size))))
    }

    /** The region with these bytes free again, or an error. */
    function Release(address: nat, size: nat): Result<Region> {
      if address < base then Err(BadObject)
      else if |free| == HOLES then Err(NoBudget)
      else Ok(this.(free := Give(free, address - base, Round(size)), used := used - Round(size)))
    }

    /** `size` bytes at `address` lie inside the region, on aligned bytes,
        and none of them is free: what a release demands of its caller. */
    ghost predicate Owned(address: nat, size: nat) {
      && address >= base && size > 0 && (address - base) % ALIGN == 0
      && address - base + Round(size) <= capacity
      && Taken(free, address - base, Round(size))
    }
  }

  /** A region with nothing placed in it. */
  function Empty(base: nat, capacity: nat): Region { Region(base, capacity, Fresh(capacity), 0) }

  lemma EmptyValid(base: nat, capacity: nat)
    ensures Empty(base, capacity).Valid()
  {
    assert Fresh(capacity)[1..] == [] && Proper([], capacity);
    assert HoleAligned(Hole(0, capacity), capacity);
  }

  /** What a placement does: an aligned run of bytes, all free before and
      none after, and nothing else; the accounts move by exactly its length. */
  lemma PlaceTakes(r: Region, size: nat)
    requires r.Valid() && size > 0 && r.Place(size).Some?
    ensures var (address, s) := r.Place(size).value;
      && s.Valid() && s.base == r.base && s.capacity == r.capacity
      && s.Owned(address, size) && s.used == r.used + Round(size)
      && forall b :: Free(r.free, b) <==> Free(s.free, b) || address - r.base <= b < address - r.base + Round(size)
  {
    assert r.capacity > 0 by { TakeFailsLargest(r.free, Round(size)); }
    TakeTakes(r.free, Round(size), r.capacity);
    TakeAligned(r.free, Round(size), r.capacity);
    TakeNoLonger(r.free, Round(size));
  }

  lemma {:induction false} TakeNoLonger(f: seq<Hole>, want: nat)
    requires Take(f, want).Some?
    ensures |Take(f, want).value.1| <= |f|
  {
    if f[0].len < want { TakeNoLonger(f[1..], want); }
  }

  /** A placement fails exactly when `Fits` is false, which is exactly when
      no free run is long enough. */
  lemma PlaceFailsExactly(r: Region, size: nat)
    requires r.Valid() && size > 0
    ensures r.Place(size).None? <==> !r.Fits(size)
    ensures r.Place(size).None? <==> !exists at: nat :: RunOf(r.free, at, Round(size))
  {
    if r.capacity == 0 {
      TakeFailsLargest(r.free, Round(size));
      forall at: nat ensures !RunOf(r.free, at, Round(size)) { assert !Free(r.free, at); }
    } else {
      TakeFailsExactly(r.free, Round(size), r.capacity);
    }
  }

  /** A release the list has room for frees exactly the bytes given. */
  lemma ReleaseFrees(r: Region, address: nat, size: nat)
    requires r.Valid() && r.Owned(address, size)
    ensures r.Release(address, size).Ok? <==> |r.free| < HOLES
    ensures r.Release(address, size).Err? ==> r.Release(address, size) == Err(NoBudget)
    ensures r.Release(address, size).Ok? ==> var s := r.Release(address, size).value;
      && s.Valid() && s.base == r.base && s.capacity == r.capacity
      && s.used == r.used - Round(size)
      && forall b :: Free(s.free, b) <==> Free(r.free, b) || address - r.base <= b < address - r.base + Round(size)
  {
    if |r.free| < HOLES {
      GiveFrees(r.free, address - r.base, Round(size), r.capacity);
      GiveAligned(r.free, address - r.base, Round(size), r.capacity);
      GiveOneMore(r.free, address - r.base, Round(size));
    }
  }

  lemma {:induction false} GiveOneMore(f: seq<Hole>, at: nat, len: nat)
    ensures |Give(f, at, len)| <= |f| + 1
    decreases |f|
  {
    if f != [] && at + len > f[0].at {
      if f[0].End() == at {
        GiveOneMore(f[1..], f[0].at, f[0].len + len);
      } else {
        GiveOneMore(f[1..], at, len);
      }
    }
  }

  /** Two valid regions of one size with the same bytes free are one value:
      no history shows in the list. */
  lemma RegionDetermined(r: Region, s: Region)
    requires r.Valid() && s.Valid() && r.base == s.base && r.capacity == s.capacity
    requires forall b :: Free(r.free, b) <==> Free(s.free, b)
    ensures r == s
  {
    if r.capacity > 0 {
      ProperUnique(r.free, s.free, r.capacity);
    }
  }

  /** Releasing a placement at once restores the region, unless the list
      was full after it. */
  lemma PlaceThenRelease(r: Region, size: nat)
    requires r.Valid() && size > 0 && r.Place(size).Some?
    requires |r.Place(size).value.1.free| < HOLES
    ensures var (address, s) := r.Place(size).value; s.Release(address, size) == Ok(r)
  {
    PlaceTakes(r, size);
    var (address, s) := r.Place(size).value;
    ReleaseFrees(s, address, size);
    RegionDetermined(s.Release(address, size).value, r);
  }

  /** The order of two releases does not matter. */
  lemma ReleasesCommute(r: Region, a: nat, m: nat, b: nat, n: nat)
    requires r.Valid() && r.Owned(a, m) && r.Owned(b, n)
    requires a + Round(m) <= b || b + Round(n) <= a
    requires |r.free| + 1 < HOLES
    ensures r.capacity > 0
    ensures r.Release(a, m).Ok? && r.Release(b, n).Ok?
    ensures r.Release(a, m).value.Release(b, n).Ok?
    ensures r.Release(a, m).value.Release(b, n) == r.Release(b, n).value.Release(a, m)
  {
    GiveCommutes(r.free, a - r.base, Round(m), b - r.base, Round(n), r.capacity);
    GiveOneMore(r.free, a - r.base, Round(m));
    GiveOneMore(r.free, b - r.base, Round(n));
  }

  /** A full list refuses even a release that would have joined two of its
      holes and left one entry fewer. */
  lemma FullListRefusesAJoin(base: nat) returns (r: Region, address: nat)
    ensures r.Valid() && r.base == base && r.Owned(address, ALIGN)
    ensures |Give(r.free, address - base, ALIGN)| < |r.free|
    ensures r.Release(address, ALIGN) == Err(NoBudget)
  {
    var f, rest := Comb(0, HOLES), Comb(2 * ALIGN, HOLES - 1);
    CombShape(0, HOLES);
    CombShape(2 * ALIGN, HOLES - 1);
    assert f[1..] == rest;
    FreeSplit(f);
    var capacity := 2 * ALIGN * HOLES;
    r := Region(base, capacity, f, capacity - Total(f));
    address := base + ALIGN;
    forall b | ALIGN <= b < 2 * ALIGN ensures !Free(f, b) { assert !Free(rest, b); }
    assert Give(rest, 0, 2 * ALIGN) == [Hole(0, 3 * ALIGN)] + rest[1..];
  }

  /** `n` holes of one unit each, a unit apart, from `at`. */
  ghost function Comb(at: nat, n: nat): seq<Hole>
    decreases n
  {
    if n == 0 then [] else [Hole(at, ALIGN)] + Comb(at + 2 * ALIGN, n - 1)
  }

  lemma {:induction false} CombShape(at: nat, n: nat)
    requires at % ALIGN == 0
    ensures |Comb(at, n)| == n
    ensures Proper(Comb(at, n), at + 2 * ALIGN * n)
    ensures forall c: nat :: c >= at + 2 * ALIGN * n ==> Proper(Comb(at, n), c) && Aligned(Comb(at, n), c)
    ensures n > 0 ==> Comb(at, n)[0].at == at
    ensures forall b :: b < at ==> !Free(Comb(at, n), b)
    decreases n
  {
    if n > 0 {
      var rest := Comb(at + 2 * ALIGN, n - 1);
      CombShape(at + 2 * ALIGN, n - 1);
      assert Comb(at, n)[1..] == rest;
      forall c: nat | c >= at + 2 * ALIGN * n ensures Proper(Comb(at, n), c) && Aligned(Comb(at, n), c) {
        assert Proper(rest, c) && Aligned(rest, c);
        assert HoleAligned(Hole(at, ALIGN), c);
        assert forall i :: 0 < i < n ==> Comb(at, n)[i] == rest[i - 1];
      }
    }
  }

  // ----- positions in the array -----

  /** The list once run `i` has given its first `want` bytes. */
  function Shortened(f: seq<Hole>, i: nat, want: nat): seq<Hole>
    requires i < |f| && f[i].len >= want
  {
    if f[i].len == want then f[..i] + f[i + 1..] else f[i := Hole(f[i].at + want, f[i].len - want)]
  }

  /** The first run long enough, at position `i`, is the one taken. */
  lemma {:induction false} TakeAt(f: seq<Hole>, i: nat, want: nat)
    requires i < |f| && f[i].len >= want && forall j :: 0 <= j < i ==> f[j].len < want
    ensures Take(f, want) == Some((f[i].at, Shortened(f, i, want)))
  {
    if i == 0 {
      assert Shortened(f, 0, want) == Take(f, want).value.1;
    } else {
      assert f[0].len < want;
      assert f[1..][i - 1] == f[i];
      TakeAt(f[1..], i - 1, want);
      ShortenedUnder(f, i, want);
    }
  }

  lemma ShortenedUnder(f: seq<Hole>, i: nat, want: nat)
    requires 0 < i < |f| && f[i].len >= want
    ensures f[1..][i - 1] == f[i] && [f[0]] + Shortened(f[1..], i - 1, want) == Shortened(f, i, want)
  {
    var g := f[1..];
    if f[i].len == want {
      assert g[..i - 1] == f[1..i] && g[i..] == f[i + 1..];
    } else {
      var left := Hole(f[i].at + want, f[i].len - want);
      assert [f[0]] + g[i - 1 := left] == f[i := left];
    }
  }

  lemma {:induction false} TakeNowhere(f: seq<Hole>, want: nat)
    requires forall j :: 0 <= j < |f| ==> f[j].len < want
    ensures Take(f, want) == None
  {
    if f != [] { TakeNowhere(f[1..], want); }
  }

  /** `merge`, later neighbour first. */
  function JoinNext(f: seq<Hole>, i: nat): seq<Hole>
    requires i < |f|
  {
    if i + 1 < |f| && f[i].End() == f[i + 1].at
    then f[..i] + [Hole(f[i].at, f[i].len + f[i + 1].len)] + f[i + 2..]
    else f
  }

  function JoinPrevious(f: seq<Hole>, i: nat): seq<Hole>
    requires i < |f|
  {
    if i > 0 && f[i - 1].End() == f[i].at
    then f[..i - 1] + [Hole(f[i - 1].at, f[i - 1].len + f[i].len)] + f[i + 1..]
    else f
  }

  function Joined(f: seq<Hole>, i: nat): seq<Hole>
    requires i < |f|
  {
    JoinPrevious(JoinNext(f, i), i)
  }

  /** Inserting in address order and joining both neighbours is `Give`. */
  lemma {:induction false} GiveAt(f: seq<Hole>, i: nat, at: nat, len: nat, capacity: nat)
    requires Proper(f, capacity) && len > 0 && Taken(f, at, len) && i <= |f|
    requires forall j :: 0 <= j < i ==> f[j].at <= at
    requires forall j :: i <= j < |f| ==> f[j].at > at
    ensures Give(f, at, len) == Joined(f[..i] + [Hole(at, len)] + f[i..], i)
    decreases |f|
  {
    if i == 0 {
      assert f != [] ==> Free(f, f[0].at);
      GiveAtFront(f, at, len);
    } else {
      assert f[0].at <= at < f[0].End() ==> Free(f, at);
      assert |f| > 1 ==> Free(f, f[1].at);
      var g := f[1..];
      assert forall j :: 0 <= j < |g| ==> g[j] == f[j + 1];
      if f[0].End() == at {
        GiveAtFront(g, f[0].at, f[0].len + len);
        JoinShift(f, at, len);
      } else {
        assert Taken(g, at, len) by { FreeSplit(f); }
        GiveAt(g, i - 1, at, len, capacity);
        GiveAtUnder(f, i, at, len);
      }
    }
  }

  /** The insertion lies beyond the first hole. */
  lemma GiveAtUnder(f: seq<Hole>, i: nat, at: nat, len: nat)
    requires 0 < i <= |f| && f[0].End() != at && (i > 1 ==> f[0].End() != f[1].at)
    ensures Joined(f[..i] + [Hole(at, len)] + f[i..], i)
      == [f[0]] + Joined(f[1..][..i - 1] + [Hole(at, len)] + f[1..][i - 1..], i - 1)
  {
    var h := f[1..][..i - 1] + [Hole(at, len)] + f[1..][i - 1..];
    assert f[..i] + [Hole(at, len)] + f[i..] == [f[0]] + h;
    assert i > 1 ==> h[0] == f[1];
    JoinUnder(f[0], h, i - 1);
  }

  lemma GiveAtFront(f: seq<Hole>, at: nat, len: nat)
    requires f != [] ==> at < f[0].at && at + len <= f[0].at
    ensures Give(f, at, len) == Joined([Hole(at, len)] + f, 0)
    ensures Joined([Hole(at, len)] + f, 0) == Joined(f[..0] + [Hole(at, len)] + f[0..], 0)
  {
    var g := [Hole(at, len)] + f;
    assert g == f[..0] + [Hole(at, len)] + f[0..];
    if f != [] {
      assert g[2..] == f[1..];
      assert g[..0] == [];
    }
  }

  /** Joining the first hole to an insertion that touches its end. */
  lemma JoinShift(f: seq<Hole>, at: nat, len: nat)
    requires f != [] && f[0].End() == at
    ensures Joined([Hole(f[0].at, f[0].len + len)] + f[1..], 0) == Joined(f[..1] + [Hole(at, len)] + f[1..], 1)
  {
    var g := f[..1] + [Hole(at, len)] + f[1..];
    var h := [Hole(f[0].at, f[0].len + len)] + f[1..];
    assert |f| > 1 ==> g[2] == f[1] && h[1] == f[1];
    var n := JoinNext(g, 1);
    assert n[0] == f[0] && n[1].at == at;
    assert JoinPrevious(n, 1) == [Hole(f[0].at, f[0].len + n[1].len)] + n[2..];
    if |f| > 1 && at + len == f[1].at {
      assert n[2..] == f[2..] == h[2..];
    } else {
      assert n[2..] == f[1..] == h[1..];
    }
  }

  lemma JoinUnder(head: Hole, h: seq<Hole>, i: nat)
    requires i < |h| && (i == 0 ==> head.End() != h[0].at)
    ensures Joined([head] + h, i + 1) == [head] + Joined(h, i)
  {
    var g := [head] + h;
    var n, m := JoinNext(g, i + 1), JoinNext(h, i);
    assert n == [head] + m;
    assert i < |m| && m[i].at == h[i].at;
    if i > 0 {
      assert n[i] == m[i - 1];
      assert JoinPrevious(n, i + 1) == [head] + JoinPrevious(m, i);
    }
  }

  class Arena {
    const base: nat
    const capacity: nat
    const free: array<Hole>
    var holes: nat
    var used: nat

    ghost predicate Valid()
      reads this, free
    {
      free.Length == HOLES && holes <= HOLES && View().Valid()
    }

    /** The arena as a value. */
    ghost function View(): Region
      reads this, free
      requires free.Length == HOLES && holes <= HOLES
    {
      Region(base, capacity, free[..holes], used)
    }

    constructor (base: nat, capacity: nat)
      ensures Valid() && fresh(free)
      ensures View() == Empty(base, capacity)
    {
      this.base := base;
      this.capacity := capacity;
      free := new Hole[HOLES](_ => Hole(0, 0));
      holes := 1;
      used := 0;
      new;
      free[0] := Hole(0, capacity);
      assert free[..holes] == Fresh(capacity);
      EmptyValid(base, capacity);
    }

    /** `copy_within`, closing the gap over entry `index`. */
    method DropEntry(index: nat)
      requires free.Length == HOLES && index < holes <= HOLES
      modifies this`holes, free
      ensures holes == old(holes) - 1
      ensures free[..holes] == old(free[..holes])[..index] + old(free[..holes])[index + 1..]
    {
      forall k | index <= k < holes - 1 { free[k] := free[k + 1]; }
      holes := holes - 1;
    }

    /** `copy_within`, opening entry `index` for `hole`. */
    method AddEntry(index: nat, hole: Hole)
      requires free.Length == HOLES && index <= holes < HOLES
      modifies this`holes, free
      ensures holes == old(holes) + 1
      ensures free[..holes] == old(free[..holes])[..index] + [hole] + old(free[..holes])[index..]
    {
      forall k | index < k <= holes { free[k] := free[k - 1]; }
      free[index] := hole;
      holes := holes + 1;
    }

    /** Overwrites entry `index`. */
    method SetEntry(index: nat, hole: Hole)
      requires free.Length == HOLES && index < holes <= HOLES
      modifies free
      ensures free[..holes] == old(free[..holes])[index := hole]
    {
      free[index] := hole;
    }

    /** The first run of at least `want` bytes, or `holes`. */
    method FirstFit(want: nat) returns (index: nat)
      requires free.Length == HOLES && holes <= HOLES
      ensures index <= holes
      ensures forall j :: 0 <= j < index ==> free[..holes][j].len < want
      ensures index < holes ==> free[..holes][index].len >= want
    {
      index := 0;
      while index < holes && free[index].len < want
        invariant index <= holes
        invariant forall j :: 0 <= j < index ==> free[j].len < want
      {
        index := index + 1;
      }
    }

    /** The first run that begins after `at`, or `holes`. */
    method FirstAfter(at: nat) returns (index: nat)
      requires free.Length == HOLES && holes <= HOLES && Proper(free[..holes], capacity)
      ensures index <= holes
      ensures forall j :: 0 <= j < index ==> free[..holes][j].at <= at
      ensures forall j :: index <= j < holes ==> free[..holes][j].at > at
    {
      index := 0;
      while index < holes && free[index].at <= at
        invariant index <= holes
        invariant forall j :: 0 <= j < index ==> free[j].at <= at
      {
        index := index + 1;
      }
      ProperByPosition(free[..holes], capacity);
    }

    /** First fit, from the low end of the first run that is long enough; the
        arena is as it was if there is none. */
    method Place(size: nat) returns (r: Option<nat>)
      requires Valid() && size > 0
      modifies this, free
      ensures Valid()
      ensures old(View()).Place(size) == None ==> r == None && View() == old(View())
      ensures old(View()).Place(size).Some? ==>
        r.Some? && old(View()).Place(size).value == (r.value, View())
    {
      ghost var was := View();
      var want := Round(size);
      var index := FirstFit(want);
      assert was.free == free[..holes];
      if index == holes {
        TakeNowhere(was.free, want);
        return None;
      }
      TakeAt(was.free, index, want);
      PlaceTakes(was, size);
      var found := free[index];
      assert found == was.free[index];
      SetEntry(index, Hole(found.at + want, found.len - want));
      if found.len == want {
        DropEntry(index);
        assert free[..holes] == was.free[..index] + was.free[index + 1..];
      }
      used := used + want;
      return Some(base + found.at);
    }

    /** The bytes go back into the list and join what they touch; a full list
        is an error, and then the arena is as it was. */
    method Release(address: nat, size: nat) returns (r: Result<()>)
      requires Valid() && (address >= base ==> View().Owned(address, size))
      modifies this, free
      ensures Valid()
      ensures old(View()).Release(address, size).Ok? ==>
        r == Ok(()) && View() == old(View()).Release(address, size).value
      ensures old(View()).Release(address, size).Err? ==>
        r == Err(old(View()).Release(address, size).why) && View() == old(View())
    {
      ghost var was := View();
      if address < base {
        return Err(BadObject);
      }
      if holes == HOLES {
        return Err(NoBudget);
      }
      ReleaseFrees(was, address, size);
      TotalNonNegative(was, address, size);
      Return(address - base, Round(size));
      used := used - Round(size);
      assert View() == was.Release(address, size).value;
      return Ok(());
    }

    /** Inserts `[at, at + len)` in address order and merges it. */
    method Return(at: nat, len: nat)
      requires free.Length == HOLES && holes < HOLES && len > 0
      requires Proper(free[..holes], capacity) && Taken(free[..holes], at, len)
      modifies this`holes, free
      ensures holes <= HOLES && free[..holes] == Give(old(free[..holes]), at, len)
    {
      ghost var was := free[..holes];
      var index := FirstAfter(at);
      assert was == free[..holes];
      GiveAt(was, index, at, len, capacity);
      AddEntry(index, Hole(at, len));
      Merge(index);
    }

    /** The two joins of a new entry: with the hole after it, then with the one
        before. */
    method Merge(index: nat)
      requires free.Length == HOLES && index < holes <= HOLES
      modifies this`holes, free
      ensures holes <= HOLES && free[..holes] == Joined(old(free[..holes]), index)
    {
      ghost var was := free[..holes];
      assert was[index] == free[index] && (index + 1 < holes ==> was[index + 1] == free[index + 1]);
      if index + 1 < holes && free[index].End() == free[index + 1].at {
        SetEntry(index, Hole(free[index].at, free[index].len + free[index + 1].len));
        DropEntry(index + 1);
        assert free[..holes] == JoinNext(was, index);
      }
      MergePrevious(index);
    }

    method MergePrevious(index: nat)
      requires free.Length == HOLES && index < holes <= HOLES
      modifies this`holes, free
      ensures holes <= HOLES && free[..holes] == JoinPrevious(old(free[..holes]), index)
    {
      ghost var was := free[..holes];
      assert was[index] == free[index] && (index > 0 ==> was[index - 1] == free[index - 1]);
      if index > 0 && free[index - 1].End() == free[index].at {
        SetEntry(index - 1, Hole(free[index - 1].at, free[index - 1].len + free[index].len));
        DropEntry(index);
        assert free[..holes] == JoinPrevious(was, index);
      }
    }

    /** The longest free run: `Occupancy::largest`. */
    method LargestRun() returns (largest: nat)
      requires Valid()
      ensures largest == Largest(View().free)
    {
      largest := 0;
      var i := holes;
      assert free[holes..holes] == [];
      while i > 0
        invariant 0 <= i <= holes <= free.Length
        invariant largest == Largest(free[i..holes])
      {
        i := i - 1;
        assert free[i..holes][1..] == free[i + 1..holes];
        largest := Max(free[i].len, largest);
      }
      assert free[0..holes] == free[..holes];
    }
  }

  /** What is owned is counted in `used`. */
  lemma TotalNonNegative(r: Region, address: nat, size: nat)
    requires r.Valid() && r.Owned(address, size)
    ensures r.used >= Round(size)
  {
    GiveFrees(r.free, address - r.base, Round(size), r.capacity);
    TotalInside(Give(r.free, address - r.base, Round(size)), 0, r.capacity);
  }

  lemma {:induction false} TotalInside(f: seq<Hole>, from: nat, capacity: nat)
    requires Proper(f, capacity) && (f != [] ==> from <= f[0].at) && from <= capacity
    ensures Total(f) <= capacity - from
  {
    if f != [] { TotalInside(f[1..], f[0].End(), capacity); }
  }
}
