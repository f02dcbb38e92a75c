/** An arena of equal objects is a cache of `capacity / size` slots: it fits
    another exactly while a slot is free, and no release is ever refused. */
module Uniform {
  import opened Basics
  import opened Abi
  import opened MetaModel
  import opened Holes
  import opened ArenaModel
  import opened PolicyModel
  import opened Conservation
  import S = Simulation

  // ----- the invariant -----

  /** Equal residents, each on a multiple of the slot size, and every other
      byte free. */
  ghost predicate Slotted(r: S.Residence, size: nat) {
    && size > 0
    && Extents(r.region, r.held) && Tiled(r.region, r.held)
    && (forall id :: id in r.held ==> r.held[id].Resident() && r.held[id].size == size)
    && (forall id :: id in r.held ==> Low(r.region, r.held[id]) % Round(size) == 0)
  }

  /** How many slots a budget is. */
  function Slots(capacity: nat, size: nat): nat
    requires size > 0
  {
    capacity / Round(size)
  }

  /** The slot a resident is in. */
  function SlotOf(r: S.Residence, id: ObjectId, size: nat): int
    requires id in r.held && size > 0
  {
    Low(r.region, r.held[id]) / Round(size)
  }

  ghost function Occupied(r: S.Residence, size: nat): set<int>
    requires size > 0
  {
    set id | id in r.held :: SlotOf(r, id, size)
  }

  lemma SlotInside(r: S.Residence, id: ObjectId, size: nat)
    requires Slotted(r, size) && id in r.held
    ensures var q := SlotOf(r, id, size);
      0 <= q < Slots(r.region.capacity, size) && Low(r.region, r.held[id]) == q * Round(size)
  {
    var w, q := Round(size), SlotOf(r, id, size);
    DivFloor(Low(r.region, r.held[id]), w);
    DivFloor(r.region.capacity, w);
    MulOrder(Slots(r.region.capacity, size), q + 1, w);
    MulOrder(Slots(r.region.capacity, size), q, w);
  }

  /** A byte of slot `q` that some resident covers is covered by the one in
      that slot. */
  lemma CoveredSlot(r: S.Residence, size: nat, q: nat, b: int)
    requires Slotted(r, size) && q * Round(size) <= b < q * Round(size) + Round(size)
    ensures Covered(r.region, r.held, b) ==> q in Occupied(r, size)
  {
    if Covered(r.region, r.held, b) {
      var id :| id in r.held && Covers(r.region, r.held[id], b);
      SlotInside(r, id, size);
      var p := SlotOf(r, id, size);
      MulOrder(p, q, Round(size));
      MulOrder(q, p, Round(size));
      assert p == q;
    }
  }

  lemma OccupiedCovers(r: S.Residence, size: nat, q: nat)
    requires Slotted(r, size) && q in Occupied(r, size)
    ensures !Free(r.region.free, q * Round(size))
  {
    var id :| id in r.held && SlotOf(r, id, size) == q;
    SlotInside(r, id, size);
    assert r.region.Owned(r.held[id].residentAt, r.held[id].size);
  }

  lemma {:induction false} ImageSize(ids: set<ObjectId>, f: ObjectId -> int)
    requires forall a, b :: a in ids && b in ids && f(a) == f(b) ==> a == b
    ensures |set id | id in ids :: f(id)| == |ids|
    decreases ids
  {
    if ids != {} {
      var k :| k in ids;
      var rest := ids - {k};
      ImageSize(rest, f);
      assert (set id | id in ids :: f(id)) == (set id | id in rest :: f(id)) + {f(k)};
      assert f(k) !in (set id | id in rest :: f(id));
    }
  }

  /** One slot a resident. */
  lemma OccupiedSize(r: S.Residence, size: nat)
    requires Slotted(r, size)
    ensures |Occupied(r, size)| == |r.held|
    ensures forall q :: q in Occupied(r, size) ==> 0 <= q < Slots(r.region.capacity, size)
  {
    var f := (id: ObjectId) => if id in r.held then SlotOf(r, id, size) else -1;
    forall a, b | a in r.held && b in r.held && f(a) == f(b) ensures a == b {
      SlotInside(r, a, size);
      SlotInside(r, b, size);
      assert a != b ==> Apart(r.region, r.held[a], r.held[b]);
    }
    ImageSize(r.held.Keys, f);
    assert Occupied(r, size) == set id | id in r.held.Keys :: f(id);
    assert |r.held.Keys| == |r.held|;
    forall q | q in Occupied(r, size) ensures 0 <= q < Slots(r.region.capacity, size) {
      var id :| id in r.held && SlotOf(r, id, size) == q;
      SlotInside(r, id, size);
    }
  }

  ghost function Below(k: nat): (s: set<int>)
    ensures |s| == k && forall q :: q in s <==> 0 <= q < k
  {
    if k == 0 then {} else Below(k - 1) + {k - 1}
  }

  /** The byte before a hole is the last of some resident's. */
  lemma EndsBefore(r: Region, objects: Objects, i: nat) returns (id: ObjectId)
    requires Extents(r, objects) && Tiled(r, objects) && r.capacity > 0 && i < |r.free| && r.free[i].at > 0
    ensures id in objects && objects[id].Resident() && High(r, objects[id]) == r.free[i].at
  {
    var f, at := r.free, r.free[i].at;
    ProperByPosition(f, r.capacity);
    FreeByPosition(f, at - 1);
    FreeByPosition(f, at);
    assert Free(f, at) && !Free(f, at - 1);
    assert Covered(r, objects, at - 1);
    id :| id in objects && Covers(r, objects[id], at - 1);
    assert r.Owned(objects[id].residentAt, objects[id].size);
  }

  /** A hole begins on a slot boundary. */
  lemma HoleStarts(r: S.Residence, size: nat, i: nat)
    requires Slotted(r, size) && i < |r.region.free| && r.region.capacity > 0
    ensures r.region.free[i].at % Round(size) == 0
  {
    if r.region.free[i].at > 0 {
      var id := EndsBefore(r.region, r.held, i);
      SlotInside(r, id, size);
      MulMod(SlotOf(r, id, size) + 1, Round(size));
      assert r.region.free[i].at == (SlotOf(r, id, size) + 1) * Round(size);
    }
  }

  /** A hole's first slot is one of the arena's, if the hole holds a slot or
      is not the last. */
  lemma HoleIsSlot(r: S.Residence, size: nat, i: nat) returns (q: nat)
    requires Slotted(r, size) && i < |r.region.free| && r.region.capacity > 0
    requires r.region.free[i].len >= Round(size) || i + 1 < |r.region.free|
    ensures q < Slots(r.region.capacity, size) && q !in Occupied(r, size)
  {
    var f, w := r.region.free, Round(size);
    ProperByPosition(f, r.region.capacity);
    HoleStarts(r, size, i);
    DivFloor(f[i].at, w);
    q := f[i].at / w;
    var k := Slots(r.region.capacity, size);
    DivFloor(r.region.capacity, w);
    FreeByPosition(f, f[i].at);
    if q in Occupied(r, size) { OccupiedCovers(r, size, q); }
    if f[i].len < w {
      HoleStarts(r, size, i + 1);
      DivFloor(f[i + 1].at, w);
      MulOrder(q, f[i + 1].at / w, w);
    }
    MulOrder(k, q + 1, w);
    MulOrder(k, q, w);
  }

  /** The arena is a cache of its slots: never more residents than slots, room
      for another exactly while a slot is free, and a list of at most one run
      when none is. */
  lemma SlotsExactly(r: S.Residence, size: nat)
    requires size > 0 && Slotted(r, size)
    ensures |r.held| <= Slots(r.region.capacity, size)
    ensures r.region.Fits(size) <==> |r.held| < Slots(r.region.capacity, size)
    ensures |r.held| == Slots(r.region.capacity, size) ==> |r.region.free| <= 1
  {
    hide Slotted;
    OccupiedSize(r, size);
    SubsetSize(Occupied(r, size), Below(Slots(r.region.capacity, size)));
    if |r.held| < Slots(r.region.capacity, size) {
      RoomWhileFree(r, size);
    } else {
      FullFitsNone(r, size);
    }
  }

  lemma RoomWhileFree(r: S.Residence, size: nat)
    requires Slotted(r, size) && |r.held| < Slots(r.region.capacity, size)
    ensures r.region.Fits(size)
  {
    hide Slotted, Slots;
    SlottedValid(r, size);
    var k := Slots(r.region.capacity, size);
    OccupiedSize(r, size);
    var q := FreeSlot(Occupied(r, size), k);
    FreeSlotRuns(r, size, q);
    PlaceFailsExactly(r.region, size);
  }

  lemma SlottedValid(r: S.Residence, size: nat)
    requires Slotted(r, size)
    ensures r.region.Valid() && size > 0
  {}

  lemma FreeSlot(occupied: set<int>, k: nat) returns (q: nat)
    requires |occupied| < k
    ensures q < k && q !in occupied
  {
    assert exists q: nat :: q < k && q !in occupied by {
      if forall q: nat :: q < k ==> q in occupied { SubsetSize(Below(k), occupied); }
    }
    q :| q < k && q !in occupied;
  }

  lemma FullFitsNone(r: S.Residence, size: nat)
    requires size > 0 && Slotted(r, size) && |r.held| >= Slots(r.region.capacity, size)
    ensures !r.region.Fits(size) && |r.region.free| <= 1
  {
    hide Slotted, Extents, Tiled;
    if r.region.capacity > 0 {
      forall i | 0 <= i < |r.region.free| ensures r.region.free[i].len < Round(size) && i + 1 >= |r.region.free| {
        FullHoleShort(r, size, i);
      }
      if |r.region.free| > 1 { FullHoleShort(r, size, 0); }
      ShortFitsNone(r.region, size);
    } else {
      EmptyFitsNone(r, size);
    }
  }

  lemma ShortFitsNone(r: Region, size: nat)
    requires size > 0 && |r.free| <= 1 && forall i :: 0 <= i < |r.free| ==> r.free[i].len < Round(size)
    ensures !r.Fits(size)
  {
    LargestBounds(r.free);
  }

  lemma EmptyFitsNone(r: S.Residence, size: nat)
    requires size > 0 && Slotted(r, size) && r.region.capacity == 0
    ensures !r.region.Fits(size) && |r.region.free| <= 1
  {
    assert r.region.free == [Hole(0, 0)];
    ShortFitsNone(r.region, size);
  }

  /** With every slot occupied, a hole is the last and shorter than a slot. */
  lemma FullHoleShort(r: S.Residence, size: nat, i: nat)
    requires size > 0 && Slotted(r, size) && |r.held| >= Slots(r.region.capacity, size)
    requires i < |r.region.free| && r.region.capacity > 0
    ensures r.region.free[i].len < Round(size) && i + 1 >= |r.region.free|
  {
    hide Slotted, Extents, Tiled;
    if r.region.free[i].len >= Round(size) || i + 1 < |r.region.free| {
      OccupiedSize(r, size);
      var q := HoleIsSlot(r, size, i);
      SubsetSize(Occupied(r, size), Below(Slots(r.region.capacity, size)) - {q as int});
      assert false;
    }
  }

  lemma FreeSlotRuns(r: S.Residence, size: nat, q: nat)
    requires Slotted(r, size) && q < Slots(r.region.capacity, size) && q !in Occupied(r, size)
    ensures RunOf(r.region.free, q * Round(size), Round(size))
  {
    var w := Round(size);
    DivFloor(r.region.capacity, w);
    MulOrder(q, Slots(r.region.capacity, size), w);
    forall b | q * w <= b < q * w + w ensures Free(r.region.free, b) {
      CoveredSlot(r, size, q, b);
    }
  }

  // ----- what a step does to the slots -----

  lemma {:induction false} TakeStarts(f: seq<Hole>, want: nat)
    requires Take(f, want).Some?
    ensures exists i :: 0 <= i < |f| && f[i].at == Take(f, want).value.0
  {
    if f[0].len >= want {
      assert f[0].at == Take(f, want).value.0;
    } else {
      TakeStarts(f[1..], want);
      var i :| 0 <= i < |f[1..]| && f[1..][i].at == Take(f[1..], want).value.0;
      assert f[i + 1].at == Take(f, want).value.0;
    }
  }

  /** A placement while a slot is free. */
  lemma InsertSlots(r: S.Residence, id: ObjectId, meta: Meta, now: nat, next: NextUse)
    requires Slotted(r, meta.size) && id !in r.held && |r.held| < Slots(r.region.capacity, meta.size)
    ensures var (s, placed) := S.Insert(r, id, meta, now, next);
      placed && Slotted(s, meta.size) && s.held.Keys == r.held.Keys + {id} && s.region.capacity == r.region.capacity
  {
    var size := meta.size;
    SlotsExactly(r, size);
    PlaceFailsExactly(r.region, size);
    PlacedOnSlot(r, size);
    PlaceTakes(r.region, size);
    var s := S.Insert(r, id, meta, now, next).0;
    LayoutPlaced(r.region, r.held, id, s.held[id]);
    SlottedPlus(r, s, id, size);
  }

  lemma SlottedPlus(r: S.Residence, s: S.Residence, id: ObjectId, size: nat)
    requires Slotted(r, size) && id in s.held && s.held == r.held[id := s.held[id]] && s.region.base == r.region.base
    requires Extents(s.region, s.held) && Tiled(s.region, s.held)
    requires s.held[id].Resident() && s.held[id].size == size && Low(s.region, s.held[id]) % Round(size) == 0
    ensures Slotted(s, size)
  {
    hide Extents, Tiled;
  }

  lemma PlacedOnSlot(r: S.Residence, size: nat)
    requires Slotted(r, size) && r.region.Place(size).Some?
    ensures (r.region.Place(size).value.0 - r.region.base) % Round(size) == 0
  {
    TakeStarts(r.region.free, Round(size));
    TakeFailsLargest(r.region.free, Round(size));
    var i :| 0 <= i < |r.region.free| && r.region.free[i].at == Take(r.region.free, Round(size)).value.0;
    HoleStarts(r, size, i);
  }

  /** An eviction from a full cache: never refused. */
  lemma RemoveSlots(r: S.Residence, id: ObjectId, size: nat)
    requires Slotted(r, size) && id in r.held && |r.held| == Slots(r.region.capacity, size)
    ensures S.Remove(r, id).Ok?
    ensures Slotted(S.Remove(r, id).value, size)
    ensures S.Remove(r, id).value.region.capacity == r.region.capacity
  {
    hide Slotted, Region.Release, Slots;
    SlottedValid(r, size);
    SlotsExactly(r, size);
    RemoveLaidOut(r, id, size);
    SlottedMinus(r, S.Remove(r, id).value, id, size);
  }

  /** With so short a list the release is accepted, and the layout kept. */
  lemma RemoveLaidOut(r: S.Residence, id: ObjectId, size: nat)
    requires Slotted(r, size) && id in r.held && |r.region.free| <= 1
    ensures S.Remove(r, id).Ok?
    ensures var s := S.Remove(r, id).value;
      && s.held == r.held - {id} && s.region.base == r.region.base && s.region.capacity == r.region.capacity
      && Extents(s.region, s.held) && Tiled(s.region, s.held)
  {
    var m := r.held[id];
    var gone := m.(residentAt := 0);
    ReleasesOne(r.region, r.held, id);
    hide Extents, Tiled;
    var region := r.region.Release(m.residentAt, m.size).value;
    LayoutEvicted(r.region, r.held, id, gone);
    LayoutForgotten(region, r.held[id := gone], id);
    assert r.held[id := gone] - {id} == r.held - {id};
  }

  lemma ReleasesOne(r: Region, objects: Objects, id: ObjectId)
    requires Extents(r, objects) && id in objects && objects[id].Resident() && |r.free| <= 1
    ensures var released := r.Release(objects[id].residentAt, objects[id].size);
      released.Ok? && released.value.base == r.base && released.value.capacity == r.capacity
  {
    ReleaseFrees(r, objects[id].residentAt, objects[id].size);
  }

  lemma SlottedMinus(r: S.Residence, s: S.Residence, id: ObjectId, size: nat)
    requires Slotted(r, size) && id in r.held && s.held == r.held - {id} && s.region.base == r.region.base
    requires Extents(s.region, s.held) && Tiled(s.region, s.held)
    ensures Slotted(s, size)
  {
    hide Extents, Tiled;
  }

  /** Making room evicts one resident from a full cache, and nothing from any
      other. */
  lemma MakeRoomSlots(r: S.Residence, pick: Pick, size: nat)
    requires Slotted(r, size) && AlwaysNames(pick) && Slots(r.region.capacity, size) > 0
    ensures var k := Slots(r.region.capacity, size);
      && (|r.held| < k ==> S.MakeRoom(r, pick, size) == (r, 0))
      && (|r.held| == k ==>
            var v := pick(S.Window(r.held), r.cursor, size);
            v.Some? && v.value in r.held && S.Remove(r, v.value).Ok?
            && S.MakeRoom(r, pick, size) == (S.Remove(r, v.value).value, 1)
            && Slotted(S.Remove(r, v.value).value, size)
            && S.Remove(r, v.value).value.region.capacity == r.region.capacity)
  {
    SlotsExactly(r, size);
    var k := Slots(r.region.capacity, size);
    if |r.held| == k {
      var w := S.Window(r.held);
      assert w.Keys == r.held.Keys;
      assert w != map[] by { assert |w.Keys| == |r.held.Keys| > 0; }
      var v := pick(w, r.cursor, size);
      RemoveSlots(r, v.value, size);
      S.RemoveShrinks(r, v.value);
      SlotsExactly(S.Remove(r, v.value).value, size);
    }
  }
}
