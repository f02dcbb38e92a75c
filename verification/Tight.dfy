/** How many residents are few: with one more than 62 an eviction can be
    refused, and a run from a new manager gets there. */
module Tight {
  import opened Basics
  import opened Abi
  import opened MetaModel
  import opened Holes
  import opened SessionModel
  import opened PolicyModel
  import opened Kernel
  import opened Conservation
  import opened Runs

  /** One object between each two holes of a full list, and one in each hole. */
  const OBJECTS: nat := 2 * HOLES - 1

  const BYTES: nat := 16 * OBJECTS

  const SMALL := Meta(16, Fp16, Warm, Warm, 0, 0, Never, 0, 0, 0, 0, 0, 0, 0)

  ghost function Reading(): World { World(PickOf(Fifo), {0}, (id: ObjectId) => Ok(())) }

  function Name(i: nat): ObjectId
    requires i <= U16_MAX
  {
    MakeId(KvBlock, 1, 0, i, 0)
  }

  lemma NameIs(i: nat)
    requires i <= U16_MAX
    ensures ClassOf(Name(i)) == Some(KvBlock) && TensorOf(Name(i)) == i
  {
    IdRoundTrip(KvBlock, 1, 0, i, 0);
  }

  lemma NamesDiffer(i: nat, j: nat)
    requires i <= U16_MAX && j <= U16_MAX && i != j
    ensures Name(i) != Name(j)
  {
    NameIs(i);
    NameIs(j);
  }

  /** Thrown out, once every other object below `2 * m` is. */
  predicate Out(i: nat, m: nat) { i % 2 == 0 && i < 2 * m }

  /** Object `i`, as it lies. */
  ghost predicate Lies(s: State, base: nat, m: nat, i: nat)
    requires i <= U16_MAX
  {
    && Name(i) in s.objects && s.objects[Name(i)].size == 16
    && s.objects[Name(i)].residentAt == if Out(i, m) then 0 else base + 16 * i
  }

  /** The first `n` objects side by side, every other one of the first `2 * m`
      gone again. */
  ghost predicate Laid(s: State, base: nat, n: nat, m: nat) {
    && Conserved(s) && n <= OBJECTS && base > 0 && s.region.base == base && s.region.capacity == BYTES
    && (forall i :: 0 <= i < n ==> Lies(s, base, m, i))
    && forall id :: id in s.objects ==> TensorOf(id) < n && id == Name(TensorOf(id))
  }

  // ----- what is free -----

  lemma Sixteenth(b: nat, i: nat)
    ensures 16 * i <= b < 16 * i + 16 <==> i == b / 16
  {}

  lemma SixteenRounds()
    ensures Round(16) == 16
  {}

  predicate Spare(n: nat, m: nat, b: int) { 0 <= b < BYTES && (b >= 16 * n || Out(b / 16, m)) }

  lemma SpareIsFree(s: State, base: nat, n: nat, m: nat, b: int)
    requires Laid(s, base, n, m) && Spare(n, m, b)
    ensures Free(s.region.free, b)
  {
    hide Name;
    SixteenRounds();
    if !Free(s.region.free, b) {
      var id :| id in s.objects && Covers(s.region, s.objects[id], b);
      var i := TensorOf(id);
      assert Lies(s, base, m, i);
      Sixteenth(b, i);
    }
  }

  lemma FreeIsSpare(s: State, base: nat, n: nat, m: nat, b: int)
    requires Laid(s, base, n, m) && Free(s.region.free, b)
    ensures Spare(n, m, b)
  {
    hide Name;
    SixteenRounds();
    FreeByPosition(s.region.free, b);
    ProperByPosition(s.region.free, BYTES);
    if 0 <= b < 16 * n && !Out(b / 16, m) {
      var i := b / 16;
      assert Lies(s, base, m, i);
      assert s.region.Owned(base + 16 * i, 16);
      Sixteenth(b, i);
    }
  }

  /** A list over those bytes is the list there is. */
  lemma FreeIs(s: State, base: nat, n: nat, m: nat, f: seq<Hole>)
    requires Laid(s, base, n, m) && Proper(f, BYTES) && forall b :: Free(f, b) <==> Spare(n, m, b)
    ensures s.region.free == f
  {
    hide Spare, Laid;
    forall b: int ensures Free(s.region.free, b) <==> Free(f, b) {
      if Spare(n, m, b) { SpareIsFree(s, base, n, m, b); }
      if Free(s.region.free, b) { FreeIsSpare(s, base, n, m, b); }
    }
    LaidProper(s, base, n, m);
    ProperUnique(s.region.free, f, BYTES);
  }

  lemma LaidProper(s: State, base: nat, n: nat, m: nat)
    requires Laid(s, base, n, m)
    ensures Proper(s.region.free, BYTES) && s.region.Valid() && Counted(s)
  {}

  // ----- filling the arena -----

  lemma TailFree(s: State, base: nat, n: nat)
    requires Laid(s, base, n, 0) && n < OBJECTS
    ensures s.region.free == [Hole(16 * n, BYTES - 16 * n)]
  {
    var f := [Hole(16 * n, BYTES - 16 * n)];
    assert f[1..] == [];
    forall b: int ensures Free(f, b) <==> Spare(n, 0, b) {}
    FreeIs(s, base, n, 0, f);
  }

  /** The next one is placed at the end. */
  lemma AcquireIs(s: State, id: ObjectId)
    requires Counted(s) && id in s.objects && !s.objects[id].Resident() && s.objects[id] == SMALL && ClassOf(id).Some?
    requires |s.region.free| == 1 && s.region.free[0].len >= 16 && !Known(s.sessions, 0)
    ensures var t := Acquire(s, Reading(), id, Pin, Never).0;
      && t.region.base == s.region.base && t.region.capacity == s.region.capacity
      && t.objects == s.objects[id := t.objects[id]]
      && t.objects[id].size == 16 && t.objects[id].residentAt == s.region.base + s.region.free[0].at
  {
    hide ClassOf, PickOf;
    SixteenRounds();
    assert s.region.Fits(16);
  }

  lemma PlaceNext(s: State, base: nat, n: nat)
    requires Counted(s) && Laid(s, base, n, 0) && n < OBJECTS
    ensures Name(n) !in s.objects
    ensures var t := Register(s, Name(n), SMALL);
      Counted(t) && Laid(Acquire(t, Reading(), Name(n), Pin, Never).0, base, n + 1, 0)
  {
    hide Name, Charged, Acquire, ClassOf;
    NameIs(n);
    TailFree(s, base, n);
    NobodyIsZero(s);
    var t := Register(s, Name(n), SMALL);
    RegisterKeeps(s, Name(n), SMALL);
    ConservedValid(t);
    AcquireIs(t, Name(n));
    AcquireKeeps(t, Reading(), Name(n), Pin, Never);
    var u := Acquire(t, Reading(), Name(n), Pin, Never).0;
    forall i | 0 <= i < n + 1 ensures Lies(u, base, 0, i) {
      if i < n {
        NamesDiffer(i, n);
        assert Lies(s, base, 0, i);
      }
    }
  }

  lemma ConservedValid(s: State)
    requires Conserved(s)
    ensures Counted(s)
  {}

  // ----- emptying every other place -----

  function Gaps(m: nat): (f: seq<Hole>)
    ensures |f| == m && forall j :: 0 <= j < m ==> f[j] == Hole(32 * j, 16)
  {
    seq(m, j requires 0 <= j < m => Hole(32 * j, 16))
  }

  lemma GapsSpare(m: nat, b: int)
    requires m <= HOLES
    ensures Free(Gaps(m), b) <==> Spare(OBJECTS, m, b)
  {
    FreeByPosition(Gaps(m), b);
    if Spare(OBJECTS, m, b) {
      var j := b / 16 / 2;
      assert Gaps(m)[j].at <= b < Gaps(m)[j].End();
    }
    if j :| 0 <= j < m && Gaps(m)[j].at <= b < Gaps(m)[j].End() {
      Sixteenth(b, 2 * j);
    }
  }

  lemma GapsFree(s: State, base: nat, m: nat)
    requires Laid(s, base, OBJECTS, m) && m <= HOLES
    ensures s.region.free == Gaps(m) && |s.region.free| == m
  {
    ProperByPosition(Gaps(m), BYTES);
    forall b: int ensures Free(Gaps(m), b) <==> Spare(OBJECTS, m, b) { GapsSpare(m, b); }
    FreeIs(s, base, OBJECTS, m, Gaps(m));
  }

  lemma EvictNext(s: State, base: nat, m: nat)
    requires Counted(s) && Laid(s, base, OBJECTS, m) && m < HOLES
    ensures Laid(Evict(s, Name(2 * m)).0, base, OBJECTS, m + 1)
  {
    hide Name, Charged, Give, ClassOf;
    var next := m + 1;
    GapsFree(s, base, m);
    assert Lies(s, base, m, 2 * m);
    EvictKeeps(s, Name(2 * m), 0, 0);
    var t := Evict(s, Name(2 * m)).0;
    forall i | 0 <= i < OBJECTS ensures Lies(t, base, next, i) {
      assert Lies(s, base, m, i);
      if i != 2 * m { NamesDiffer(i, 2 * m); }
    }
  }

  // ----- the run -----

  lemma {:induction false} RunsOn(s: State, ops: seq<(World, Op)>, w: World, op: Op)
    requires Counted(s) && LegalRun(s, ops) && Legal(Run(s, ops), w, op)
    ensures LegalRun(s, ops + [(w, op)]) && Run(s, ops + [(w, op)]) == Step(Run(s, ops), w, op)
    decreases |ops|
  {
    hide Step, Legal;
    if ops == [] {
      assert ops + [(w, op)] == [(w, op)] && [(w, op)][1..] == [];
    } else {
      assert (ops + [(w, op)])[1..] == ops[1..] + [(w, op)];
      RunsOn(Step(s, ops[0].0, ops[0].1), ops[1..], w, op);
    }
  }

  lemma {:induction false} Filled(base: nat, n: nat) returns (ops: seq<(World, Op)>)
    requires base > 0 && n <= OBJECTS
    ensures LegalRun(Start(base, BYTES), ops) && Laid(Run(Start(base, BYTES), ops), base, n, 0)
  {
    hide Name, Legal, Acquire, Charged;
    var s := Start(base, BYTES);
    if n == 0 {
      ops := [];
      StartConserved(base, BYTES);
    } else {
      ops := Filled(base, n - 1);
      var t := Run(s, ops);
      PlaceNext(t, base, n - 1);
      var id := Name(n - 1);
      PlacingLegal(t, id);
      RunsOn(s, ops, Reading(), DoRegister(id, SMALL));
      ops := ops + [(Reading(), DoRegister(id, SMALL))];
      RunsOn(s, ops, Reading(), DoAcquire(id, Pin, Never));
      ops := ops + [(Reading(), DoAcquire(id, Pin, Never))];
    }
  }

  lemma PlacingLegal(s: State, id: ObjectId)
    requires Counted(s) && id !in s.objects
    ensures Legal(s, Reading(), DoRegister(id, SMALL))
    ensures forall t: State :: Counted(t) ==> Legal(t, Reading(), DoAcquire(id, Pin, Never)) && Legal(t, Reading(), DoEvict(id))
  {}

  lemma {:induction false} Emptied(base: nat, m: nat) returns (ops: seq<(World, Op)>)
    requires base > 0 && m <= HOLES
    ensures LegalRun(Start(base, BYTES), ops) && Laid(Run(Start(base, BYTES), ops), base, OBJECTS, m)
  {
    hide Name, Legal, Evict, Charged;
    var s := Start(base, BYTES);
    if m == 0 {
      ops := Filled(base, OBJECTS);
    } else {
      ops := Emptied(base, m - 1);
      var t := Run(s, ops);
      EvictNext(t, base, m - 1);
      var id := Name(2 * (m - 1));
      EvictLegal(t, id);
      RunsOn(s, ops, Reading(), DoEvict(id));
      ops := ops + [(Reading(), DoEvict(id))];
    }
  }

  lemma EvictLegal(s: State, id: ObjectId)
    requires Counted(s)
    ensures Legal(s, Reading(), DoEvict(id))
  {}

  // ----- the bound -----

  function Odd(k: nat): (names: set<ObjectId>)
    requires k < HOLES
  {
    if k == 0 then {} else Odd(k - 1) + {Name(2 * k - 1)}
  }

  /** An odd name below `2 * k`. */
  predicate IsOdd(id: ObjectId, k: nat) {
    TensorOf(id) % 2 == 1 && TensorOf(id) < 2 * k && TensorOf(id) <= U16_MAX && id == Name(TensorOf(id))
  }

  lemma OneMoreOdd(id: ObjectId, k: nat)
    requires 0 < k < HOLES
    ensures IsOdd(id, k) <==> IsOdd(id, k - 1) || id == Name(2 * k - 1)
    ensures !IsOdd(Name(2 * k - 1), k - 1)
  {
    hide Name, TensorOf, ClassOf;
    NameIs(2 * k - 1);
  }

  lemma {:induction false} OddIs(k: nat)
    requires k < HOLES
    ensures |Odd(k)| == k
    ensures forall id :: id in Odd(k) <==> IsOdd(id, k)
  {
    hide Name, IsOdd;
    if k > 0 {
      OddIs(k - 1);
      OneMoreOdd(0, k);
      forall id ensures id in Odd(k) <==> IsOdd(id, k) { OneMoreOdd(id, k); }
    } else {
      forall id ensures !IsOdd(id, 0) { NoneOdd(id); }
    }
  }

  lemma NoneOdd(id: ObjectId)
    ensures !IsOdd(id, 0)
  {}

  /** Every other place emptied, the residents are the odd ones. */
  lemma ResidentsAreOdd(s: State, base: nat)
    requires Laid(s, base, OBJECTS, HOLES)
    ensures ResidentIds(s.objects) == Odd(HOLES - 1)
  {
    hide Name, Charged;
    OddIs(HOLES - 1);
    forall id ensures id in ResidentIds(s.objects) <==> IsOdd(id, HOLES - 1) {
      if id in s.objects || IsOdd(id, HOLES - 1) { assert Lies(s, base, HOLES, TensorOf(id)); }
    }
  }

  /** The bound on residents below which no eviction is refused is exact: a run
      of legal operations from a new manager leaves one resident more, a full
      free list, and every eviction refused. */
  lemma OneMoreIsRefused(base: nat) returns (ops: seq<(World, Op)>)
    requires base > 0
    ensures var s := Start(base, BYTES);
      && LegalRun(s, ops)
      && var t := Run(s, ops);
         && |ResidentIds(t.objects)| == HOLES - 1 && |t.region.free| == HOLES
         && forall id :: id in ResidentIds(t.objects) ==> Evict(t, id) == (t, Err(NoBudget))
  {
    hide Name, Charged, Laid;
    ops := Emptied(base, HOLES);
    var t := Run(Start(base, BYTES), ops);
    GapsFree(t, base, HOLES);
    ResidentsAreOdd(t, base);
    OddIs(HOLES - 1);
    FullRefuses(t, base);
  }

  lemma FullRefuses(s: State, base: nat)
    requires Counted(s) && Laid(s, base, OBJECTS, HOLES) && |s.region.free| == HOLES
    ensures forall id :: id in ResidentIds(s.objects) ==> Evict(s, id) == (s, Err(NoBudget))
  {
    hide Name;
    forall id | id in ResidentIds(s.objects) ensures Evict(s, id) == (s, Err(NoBudget)) {
      assert s.region.Owned(s.objects[id].residentAt, s.objects[id].size);
    }
  }
}
