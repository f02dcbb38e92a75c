/** What every step of the manager keeps: its arena, its counters and every
    session's account say what its table says, byte for byte. */
module Conservation {
  import opened Basics
  import opened Abi
  import opened MetaModel
  import opened Holes
  import opened ArenaModel
  import opened SessionModel
  import opened PolicyModel
  import opened Kernel
  import Admission

  type Objects = map<ObjectId, Meta>

  // ----- the arena and the table -----

  /** Where a resident object's bytes begin and end within the region. */
  function Low(r: Region, m: Meta): int { m.residentAt - r.base }

  function High(r: Region, m: Meta): int { Low(r, m) + Round(m.size) }

  predicate Covers(r: Region, m: Meta, b: int) { m.Resident() && Low(r, m) <= b < High(r, m) }

  predicate Apart(r: Region, m: Meta, n: Meta) { High(r, m) <= Low(r, n) || High(r, n) <= Low(r, m) }

  /** Each resident owns its rounded extent and no two overlap. */
  ghost predicate Extents(r: Region, objects: Objects) {
    && r.Valid() && r.base > 0
    && (forall id :: id in objects ==> objects[id].size > 0)
    && (forall id :: id in objects && objects[id].Resident() ==> r.Owned(objects[id].residentAt, objects[id].size))
    && (forall a, b :: a in objects && b in objects && a != b && objects[a].Resident() && objects[b].Resident() ==>
          Apart(r, objects[a], objects[b]))
  }

  /** Every byte of the region is free or some resident's. */
  ghost predicate Tiled(r: Region, objects: Objects) {
    forall b :: 0 <= b < r.capacity ==> Free(r.free, b) || Covered(r, objects, b)
  }

  ghost predicate Covered(r: Region, objects: Objects, b: int) {
    exists id :: id in objects && Covers(r, objects[id], b)
  }

  /** Every resident's class decodes. */
  ghost predicate Decodes(objects: Objects) {
    forall id :: id in objects && objects[id].Resident() ==> ClassOf(id).Some?
  }

  /** The arena's live extents are exactly the rounded extents of the
      resident entries, and every resident's class decodes. */
  ghost predicate Layout(r: Region, objects: Objects) {
    Extents(r, objects) && Tiled(r, objects) && Decodes(objects)
  }

  /** What residents cover, they cover while they keep their bytes. */
  lemma StillCovered(r: Region, s: Region, objects: Objects, after: Objects, b: int)
    requires Covered(r, objects, b) && s.base == r.base
    requires forall k :: k in objects && Covers(r, objects[k], b) ==>
      k in after && after[k].residentAt == objects[k].residentAt && after[k].size == objects[k].size
    ensures Covered(s, after, b)
  {
    var k :| k in objects && Covers(r, objects[k], b);
    assert Covers(s, after[k], b);
  }

  /** A write that moves no bytes keeps the layout. */
  lemma LayoutSame(r: Region, objects: Objects, id: ObjectId, m: Meta)
    requires Extents(r, objects) && id in objects
    requires m.residentAt == objects[id].residentAt && m.size == objects[id].size
    ensures Extents(r, objects[id := m])
    ensures Tiled(r, objects) ==> Tiled(r, objects[id := m])
  {
    var after := objects[id := m];
    if Tiled(r, objects) {
      forall b | 0 <= b < r.capacity && !Free(r.free, b) ensures Covered(r, after, b) {
        StillCovered(r, r, objects, after, b);
      }
    }
  }

  /** A new entry, or a changed one, that is not resident. */
  lemma LayoutAbsent(r: Region, objects: Objects, id: ObjectId, m: Meta)
    requires Extents(r, objects) && (id in objects ==> !objects[id].Resident())
    requires !m.Resident() && m.size > 0
    ensures Extents(r, objects[id := m])
    ensures Tiled(r, objects) ==> Tiled(r, objects[id := m])
  {
    var after := objects[id := m];
    if Tiled(r, objects) {
      forall b | 0 <= b < r.capacity && !Free(r.free, b) ensures Covered(r, after, b) {
        StillCovered(r, r, objects, after, b);
      }
    }
  }

  lemma LayoutForgotten(r: Region, objects: Objects, id: ObjectId)
    requires Extents(r, objects) && id in objects && !objects[id].Resident()
    ensures Extents(r, objects - {id})
    ensures Tiled(r, objects) ==> Tiled(r, objects - {id})
  {
    var after := objects - {id};
    if Tiled(r, objects) {
      forall b | 0 <= b < r.capacity && !Free(r.free, b) ensures Covered(r, after, b) {
        StillCovered(r, r, objects, after, b);
      }
    }
  }

  /** An eviction the list has room for. */
  lemma LayoutEvicted(r: Region, objects: Objects, id: ObjectId, m: Meta)
    requires Extents(r, objects) && id in objects && objects[id].Resident()
    requires r.Release(objects[id].residentAt, objects[id].size).Ok?
    requires !m.Resident() && m.size > 0
    ensures var s := r.Release(objects[id].residentAt, objects[id].size).value;
      Extents(s, objects[id := m]) && (Tiled(r, objects) ==> Tiled(s, objects[id := m]))
  {
    var was := objects[id];
    ReleaseFrees(r, was.residentAt, was.size);
    var s := r.Release(was.residentAt, was.size).value;
    var after := objects[id := m];
    forall k | k in after && after[k].Resident() ensures s.Owned(after[k].residentAt, after[k].size) {
      assert Apart(r, objects[k], was);
    }
    if Tiled(r, objects) {
      forall b | 0 <= b < s.capacity && !Free(s.free, b) ensures Covered(s, after, b) {
        StillCovered(r, s, objects, after, b);
      }
    }
  }

  /** A placement taken from the list leaves every extent as it was. */
  lemma ExtentsTaken(r: Region, objects: Objects, size: nat)
    requires Extents(r, objects) && size > 0 && r.Place(size).Some?
    ensures Extents(r.Place(size).value.1, objects)
  {
    PlaceTakes(r, size);
  }

  /** A placement. */
  lemma LayoutPlaced(r: Region, objects: Objects, id: ObjectId, m: Meta)
    requires Extents(r, objects) && (id in objects ==> !objects[id].Resident())
    requires m.size > 0 && r.Place(m.size).Some?
    requires m.residentAt == r.Place(m.size).value.0
    ensures var s := r.Place(m.size).value.1;
      m.Resident() && Extents(s, objects[id := m]) && (Tiled(r, objects) ==> Tiled(s, objects[id := m]))
  {
    PlaceTakes(r, m.size);
    var s := r.Place(m.size).value.1;
    var after := objects[id := m];
    assert m.residentAt >= r.base > 0;
    forall k | k in after && after[k].Resident() && k != id
      ensures s.Owned(after[k].residentAt, after[k].size) && Apart(s, after[k], m)
    {
      var n := objects[k];
      assert r.Owned(n.residentAt, n.size);
      TouchesOrApart(r, n, m);
      assert Free(r.free, Low(r, m)) && !Free(r.free, Low(r, n));
    }
    if Tiled(r, objects) {
      forall b | 0 <= b < s.capacity && !Free(s.free, b) ensures Covered(s, after, b) {
        if Low(s, m) <= b < High(s, m) {
          assert Covers(s, after[id], b);
        } else {
          StillCovered(r, s, objects, after, b);
        }
      }
    }
  }

  /** Two non-empty runs share a byte or lie apart. */
  lemma TouchesOrApart(r: Region, m: Meta, n: Meta)
    requires m.size > 0 && n.size > 0
    ensures Apart(r, m, n) || (Low(r, n) <= Low(r, m) < High(r, n)) || (Low(r, m) <= Low(r, n) < High(r, m))
  {}

  // ----- the sums -----

  function RoundedBytes(m: Meta): int { if m.Resident() then Round(m.size) else 0 }

  function ClassBytes(id: ObjectId, m: Meta, c: Class): int {
    if m.Resident() && ClassOf(id) == Some(c) then m.size else 0
  }

  function OwnerBytes(m: Meta, owner: SessionId): int {
    if m.Resident() && m.owner == owner then m.size else 0
  }

  ghost function Rounded(objects: Objects): map<ObjectId, int> {
    map id | id in objects :: RoundedBytes(objects[id])
  }

  ghost function OfClass(objects: Objects, c: Class): map<ObjectId, int> {
    map id | id in objects :: ClassBytes(id, objects[id], c)
  }

  ghost function OfOwner(objects: Objects, owner: SessionId): map<ObjectId, int> {
    map id | id in objects :: OwnerBytes(objects[id], owner)
  }

  /** Rounded bytes of every resident. */
  ghost function UsedBy(objects: Objects): int { Sum(Rounded(objects)) }

  /** Bytes of the residents of one class. */
  ghost function HeldBy(objects: Objects, c: Class): int { Sum(OfClass(objects, c)) }

  /** Bytes of the residents of one owner. */
  ghost function OwnedBy(objects: Objects, owner: SessionId): int { Sum(OfOwner(objects, owner)) }

  lemma UsedUpdate(objects: Objects, id: ObjectId, m: Meta)
    ensures UsedBy(objects[id := m])
      == UsedBy(objects) - (if id in objects then RoundedBytes(objects[id]) else 0) + RoundedBytes(m)
  {
    SumUpdate(Rounded(objects), id, RoundedBytes(m));
    assert Rounded(objects[id := m]) == Rounded(objects)[id := RoundedBytes(m)];
  }

  lemma HeldUpdate(objects: Objects, id: ObjectId, m: Meta, c: Class)
    ensures HeldBy(objects[id := m], c)
      == HeldBy(objects, c) - (if id in objects then ClassBytes(id, objects[id], c) else 0) + ClassBytes(id, m, c)
  {
    SumUpdate(OfClass(objects, c), id, ClassBytes(id, m, c));
    assert OfClass(objects[id := m], c) == OfClass(objects, c)[id := ClassBytes(id, m, c)];
  }

  lemma OwnedUpdate(objects: Objects, id: ObjectId, m: Meta, owner: SessionId)
    ensures OwnedBy(objects[id := m], owner)
      == OwnedBy(objects, owner) - (if id in objects then OwnerBytes(objects[id], owner) else 0) + OwnerBytes(m, owner)
  {
    SumUpdate(OfOwner(objects, owner), id, OwnerBytes(m, owner));
    assert OfOwner(objects[id := m], owner) == OfOwner(objects, owner)[id := OwnerBytes(m, owner)];
  }

  lemma SumsForget(objects: Objects, id: ObjectId, c: Class, owner: SessionId)
    requires id in objects && !objects[id].Resident()
    ensures UsedBy(objects - {id}) == UsedBy(objects)
    ensures HeldBy(objects - {id}, c) == HeldBy(objects, c)
    ensures OwnedBy(objects - {id}, owner) == OwnedBy(objects, owner)
  {
    SumRemove(Rounded(objects), id);
    SumRemove(OfClass(objects, c), id);
    SumRemove(OfOwner(objects, owner), id);
    assert Rounded(objects - {id}) == Rounded(objects) - {id};
    assert OfClass(objects - {id}, c) == OfClass(objects, c) - {id};
    assert OfOwner(objects - {id}, owner) == OfOwner(objects, owner) - {id};
  }

  lemma {:induction false} SumAtMost<K(!new)>(a: map<K, int>, b: map<K, int>)
    requires a.Keys == b.Keys && forall k :: k in a ==> a[k] <= b[k]
    ensures Sum(a) <= Sum(b)
    decreases |a|
  {
    if a != map[] {
      var k :| k in a;
      assert |a - {k}| < |a| by { assert a.Keys == (a - {k}).Keys + {k}; }
      SumRemove(a, k);
      SumRemove(b, k);
      SumAtMost(a - {k}, b - {k});
    }
  }

  /** No account can pass what the arena has used. */
  lemma SumsBounded(objects: Objects, c: Class, owner: SessionId)
    ensures 0 <= HeldBy(objects, c) <= UsedBy(objects)
    ensures 0 <= OwnedBy(objects, owner) <= UsedBy(objects)
    ensures forall id :: id in objects && objects[id].Resident() ==>
      (ClassOf(id) == Some(c) ==> objects[id].size <= HeldBy(objects, c))
      && (objects[id].owner == owner ==> objects[id].size <= OwnedBy(objects, owner))
  {
    SumAtMost(OfClass(objects, c), Rounded(objects));
    SumAtMost(OfOwner(objects, owner), Rounded(objects));
    SumNonNegative(OfClass(objects, c));
    SumNonNegative(OfOwner(objects, owner));
    forall id | id in objects && objects[id].Resident()
      ensures ClassOf(id) == Some(c) ==> objects[id].size <= HeldBy(objects, c)
      ensures objects[id].owner == owner ==> objects[id].size <= OwnedBy(objects, owner)
    {
      assert id in OfClass(objects, c) && id in OfOwner(objects, owner);
    }
  }

  // ----- the invariant -----

  /** Each live session's account is the bytes it owns that are resident,
      `pending` more for the one being charged, and within its ceiling. */
  ghost predicate Accounts(sessions: Slots, objects: Objects, who: SessionId, pending: nat) {
    && DistinctIds(sessions)
    && forall i :: 0 <= i < |sessions| && sessions[i].Some? ==>
         Account(sessions[i].value, objects, who, pending)
  }

  ghost predicate Account(s: Session, objects: Objects, who: SessionId, pending: nat) {
    && s.resident == OwnedBy(objects, s.id) + (if s.id == who then pending else 0)
    && (s.contract.residentCeiling != 0 ==> s.resident <= s.contract.residentCeiling)
  }

  ghost predicate Owners(sessions: Slots, objects: Objects) {
    forall id :: id in objects ==> objects[id].owner == 0 || Known(sessions, objects[id].owner)
  }

  ghost predicate HeldRight(held: seq<nat>, objects: Objects) {
    |held| == CLASSES && forall c: Class :: held[Index(c)] == HeldBy(objects, c)
  }

  /** The manager's invariant, while `who` is charged `pending` bytes that
      have not arrived and `lost` bytes are placed for nobody. */
  ghost predicate Charged(s: State, who: SessionId, pending: nat, lost: nat := 0) {
    && Counted(s)
    && s.region.capacity <= U64_MAX
    && Extents(s.region, s.objects) && Decodes(s.objects) && (lost == 0 ==> Tiled(s.region, s.objects))
    && s.region.used == UsedBy(s.objects) + lost
    && HeldRight(s.held, s.objects)
    && Accounts(s.sessions, s.objects, who, pending)
    && Owners(s.sessions, s.objects)
  }

  /** Every account kept, but for `lost` bytes of the arena that reads which
      failed have left placed. */
  ghost predicate Kept(s: State, lost: nat) { Charged(s, 0, 0, lost) }

  /** The manager's invariant. */
  ghost predicate Conserved(s: State) { Charged(s, 0, 0) }

  /** It holds of a new manager. */
  lemma StartConserved(base: nat, bytes: nat)
    requires base > 0 && bytes <= U64_MAX
    ensures Conserved(Start(base, bytes))
  {
    EmptyValid(base, bytes);
    var s := Start(base, bytes);
    forall b | 0 <= b < bytes ensures Free(s.region.free, b) {}
    assert Rounded(s.objects) == map[] && forall c: Class :: OfClass(s.objects, c) == map[];
  }

  /** A write that moves no bytes and no owner changes nothing that counts. */
  lemma SameKeeps(s: State, id: ObjectId, m: Meta, who: SessionId, pending: nat, lost: nat := 0)
    requires Charged(s, who, pending, lost) && id in s.objects
    requires m.residentAt == s.objects[id].residentAt && m.size == s.objects[id].size
    requires m.owner == s.objects[id].owner
    ensures Charged(s.(objects := s.objects[id := m]), who, pending, lost)
  {
    var after := s.objects[id := m];
    LayoutSame(s.region, s.objects, id, m);
    UsedUpdate(s.objects, id, m);
    forall c: Class ensures HeldBy(after, c) == HeldBy(s.objects, c) { HeldUpdate(s.objects, id, m, c); }
    forall o: SessionId ensures OwnedBy(after, o) == OwnedBy(s.objects, o) { OwnedUpdate(s.objects, id, m, o); }
    SameAccounts(s.sessions, s.objects, after, who, pending);
  }

  lemma SameAccounts(sessions: Slots, objects: Objects, after: Objects, who: SessionId, pending: nat)
    requires Accounts(sessions, objects, who, pending)
    requires forall o: SessionId :: OwnedBy(after, o) == OwnedBy(objects, o)
    ensures Accounts(sessions, after, who, pending)
  {
    forall i | 0 <= i < |sessions| && sessions[i].Some? ensures Account(sessions[i].value, after, who, pending) {
      assert Account(sessions[i].value, objects, who, pending);
    }
  }

  // ----- eviction -----

  /** The accounts after `size` bytes of `owner` leave. */
  lemma AccountsCredited(sessions: Slots, objects: Objects, id: ObjectId, m: Meta, who: SessionId, pending: nat)
    requires Accounts(sessions, objects, who, pending)
    requires id in objects && objects[id].Resident() && !m.Resident() && m.owner == objects[id].owner
    ensures Accounts(Credit(sessions, m.owner, objects[id].size), objects[id := m], who, pending)
    ensures SameSessions(sessions, Credit(sessions, m.owner, objects[id].size))
  {
    var after := Credit(sessions, m.owner, objects[id].size);
    SameSessionsFind(sessions, after);
    forall i | 0 <= i < |after| && after[i].Some? ensures Account(after[i].value, objects[id := m], who, pending) {
      var sid := after[i].value.id;
      assert Account(sessions[i].value, objects, who, pending);
      FindIs(sessions, i);
      OwnedUpdate(objects, id, m, sid);
      SumsBounded(objects, KvBlock, sid);
    }
  }

  lemma HeldLess(held: seq<nat>, objects: Objects, id: ObjectId, m: Meta, c: Class)
    requires HeldRight(held, objects) && id in objects && objects[id].Resident() && ClassOf(id) == Some(c)
    requires !m.Resident()
    ensures HeldRight(HeldMinus(held, c, objects[id].size), objects[id := m])
  {
    hide HeldBy, UsedBy, OwnedBy, ClassOf;
    forall d: Class ensures HeldMinus(held, c, objects[id].size)[Index(d)] == HeldBy(objects[id := m], d) {
      HeldUpdate(objects, id, m, d);
      SumsBounded(objects, d, 0);
      assert Index(c) == Index(d) ==> c == d;
    }
  }

  /** An eviction either changes nothing, because there was nothing to evict
      or the free list was full, or keeps every account; it never fails after
      the bytes were given back. */
  lemma EvictKeeps(s: State, id: ObjectId, who: SessionId, pending: nat, lost: nat := 0)
    requires Charged(s, who, pending, lost)
    ensures var (t, r) := Evict(s, id);
      && Charged(t, who, pending, lost)
      && SameSessions(s.sessions, t.sessions)
      && t.objects.Keys == s.objects.Keys
      && (r.Err? ==> t == s)
      && (r.Err? <==> id !in s.objects || !s.objects[id].Resident() || |s.region.free| == HOLES)
  {
    if id in s.objects && s.objects[id].Resident() {
      var m := s.objects[id];
      ReleaseFrees(s.region, m.residentAt, m.size);
      if |s.region.free| < HOLES {
        EvictedKeeps(s, id, who, pending, lost);
      }
    }
  }

  lemma EvictedKeeps(s: State, id: ObjectId, who: SessionId, pending: nat, lost: nat := 0)
    requires Charged(s, who, pending, lost)
    requires id in s.objects && s.objects[id].Resident() && |s.region.free| < HOLES
    ensures var (t, r) := Evict(s, id);
      && r.Ok? && Charged(t, who, pending, lost) && SameSessions(s.sessions, t.sessions)
      && t.objects == s.objects[id := Gone(s.objects[id])]
  {
    var m := s.objects[id];
    ReleaseFrees(s.region, m.residentAt, m.size);
    var c := ClassOf(id).value;
    LayoutEvicted(s.region, s.objects, id, Gone(m));
    UsedUpdate(s.objects, id, Gone(m));
    HeldLess(s.held, s.objects, id, Gone(m), c);
    AccountsCredited(s.sessions, s.objects, id, Gone(m), who, pending);
    SameSessionsFind(s.sessions, Credit(s.sessions, m.owner, m.size));
  }

  /** `t` is `s` with some residents evicted, and nothing else moved. */
  ghost predicate OnlyEvicts(s: State, t: State) {
    && SameSessions(s.sessions, t.sessions)
    && t.objects.Keys == s.objects.Keys
    && t.clock == s.clock && t.capacity == s.capacity && t.faults == s.faults
    && t.region.base == s.region.base && t.region.capacity == s.region.capacity
    && forall id :: id in s.objects ==> t.objects[id] == s.objects[id] || t.objects[id] == Gone(s.objects[id])
  }

  lemma EvictOnlyEvicts(s: State, id: ObjectId, who: SessionId, pending: nat, lost: nat := 0)
    requires Counted(s) && Charged(s, who, pending, lost)
    ensures Charged(Evict(s, id).0, who, pending, lost) && OnlyEvicts(s, Evict(s, id).0)
  {
    EvictKeeps(s, id, who, pending, lost);
  }

  /** Making room keeps everything but the residency of its victims. */
  lemma {:induction false} MakeRoomKeeps(s: State, pick: Pick, size: nat, who: SessionId, pending: nat, lost: nat := 0)
    requires Counted(s) && Charged(s, who, pending, lost)
    ensures Charged(MakeRoom(s, pick, size), who, pending, lost)
    ensures OnlyEvicts(s, MakeRoom(s, pick, size))
    decreases |ResidentIds(s.objects)|
  {
    hide Charged, OnlyEvicts, Counted;
    assert OnlyEvicts(s, s) by { OnlyEvictsNone(s); }
    var v := pick(Residents(s.objects), s.clock, size);
    if !s.region.Fits(size) && v.Some? {
      EvictOnlyEvicts(s, v.value, who, pending, lost);
      var (t, r) := Evict(s, v.value);
      if r.Ok? {
        EvictShrinks(s, v.value);
        MakeRoomKeeps(t, pick, size, who, pending, lost);
        OnlyEvictsTwice(s, t, MakeRoom(t, pick, size));
      }
    }
  }

  lemma OnlyEvictsNone(s: State)
    ensures OnlyEvicts(s, s)
  {}

  lemma OnlyEvictsTwice(s: State, t: State, u: State)
    requires OnlyEvicts(s, t) && OnlyEvicts(t, u)
    ensures OnlyEvicts(s, u)
  {}

  // ----- arrival -----

  lemma HeldMore(held: seq<nat>, objects: Objects, id: ObjectId, m: Meta, c: Class)
    requires HeldRight(held, objects) && id in objects && !objects[id].Resident() && ClassOf(id) == Some(c)
    requires m.Resident() && UsedBy(objects) + m.size <= U64_MAX
    ensures HeldRight(HeldPlus(held, c, m.size), objects[id := m])
  {
    hide HeldBy, UsedBy, OwnedBy, ClassOf;
    forall d: Class ensures HeldPlus(held, c, m.size)[Index(d)] == HeldBy(objects[id := m], d) {
      HeldUpdate(objects, id, m, d);
      SumsBounded(objects, d, 0);
      assert Index(c) == Index(d) ==> c == d;
    }
  }

  lemma AccountsArrived(sessions: Slots, objects: Objects, id: ObjectId, m: Meta)
    requires id in objects && !objects[id].Resident() && m.Resident() && m.owner == objects[id].owner
    requires Accounts(sessions, objects, m.owner, m.size)
    ensures Accounts(sessions, objects[id := m], 0, 0)
  {
    forall i | 0 <= i < |sessions| && sessions[i].Some? ensures Account(sessions[i].value, objects[id := m], 0, 0) {
      assert Account(sessions[i].value, objects, m.owner, m.size);
      OwnedUpdate(objects, id, m, sessions[i].value.id);
    }
  }

  /** A charge that has not arrived, given back. */
  lemma CreditKeeps(s: State, owner: SessionId, size: nat, lost: nat := 0)
    requires Charged(s, owner, size, lost)
    ensures Kept(s.(sessions := Credit(s.sessions, owner, size)), lost)
    ensures SameSessions(s.sessions, Credit(s.sessions, owner, size))
  {
    var after := Credit(s.sessions, owner, size);
    SameSessionsFind(s.sessions, after);
    forall i | 0 <= i < |after| && after[i].Some? ensures Account(after[i].value, s.objects, 0, 0) {
      assert Account(s.sessions[i].value, s.objects, owner, size);
      FindIs(s.sessions, i);
      SumsBounded(s.objects, KvBlock, after[i].value.id);
    }
  }

  lemma ChargeKeeps(s: State, owner: SessionId, size: nat, precision: Precision, lost: nat := 0)
    requires Kept(s, lost) && Charge(s.sessions, owner, size, precision).Ok?
    ensures var after := Charge(s.sessions, owner, size, precision).value;
      Charged(s.(sessions := after), owner, size, lost) && SameSessions(s.sessions, after)
  {
    var after := Charge(s.sessions, owner, size, precision).value;
    ChargeThenCredit(s.sessions, owner, size, precision);
    SameSessionsFind(s.sessions, after);
    forall i | 0 <= i < |after| && after[i].Some? ensures Account(after[i].value, s.objects, owner, size) {
      assert Account(s.sessions[i].value, s.objects, 0, 0);
      FindIs(s.sessions, i);
    }
  }

  /** A placement of a charged object whose read succeeds. */
  lemma PlaceKeeps(s: State, w: World, id: ObjectId, lease: Lease, wanted: NextUse, lost: nat := 0)
    requires id in s.objects && !s.objects[id].Resident() && ClassOf(id).Some?
    requires Charged(s, s.objects[id].owner, s.objects[id].size, lost)
    requires w.read(id).Ok? && s.region.Place(s.objects[id].size).Some?
    ensures var (t, r) := Place(s, w, id, s.objects[id].size, lease, wanted);
      && r.Ok? && Kept(t, lost) && t.sessions == s.sessions && Hits(t, id)
      && t.objects.Keys == s.objects.Keys
  {
    var meta := s.objects[id];
    var (address, region) := s.region.Place(meta.size).value;
    var m := Arrived(meta, address, s.clock, lease, wanted);
    PlaceTakes(s.region, meta.size);
    LayoutPlaced(s.region, s.objects, id, m);
    UsedUpdate(s.objects, id, m);
    UsedInside(region);
    HeldMore(s.held, s.objects, id, m, ClassOf(id).value);
    AccountsArrived(s.sessions, s.objects, id, m);
  }

  lemma UsedInside(r: Region)
    ensures r.Valid() ==> r.used <= r.capacity
  {}

  /** The miss gets as far as the provider's read. */
  ghost predicate ReachesRead(s: State, w: World, id: ObjectId)
    requires Counted(s)
  {
    && id in s.objects && !s.objects[id].Resident()
    && s.objects[id].provider in w.attached && ClassOf(id).Some?
    && var m := s.objects[id];
       var charged := Charge(s.sessions, m.owner, m.size, m.precision);
       charged.Ok? && MakeRoom(Tick(s).(sessions := charged.value), w.pick, m.size).region.Place(m.size).Some?
  }

  /** The miss path up to the read: everything kept, and the read reached
      exactly when a run of bytes was to be had. */
  lemma AdmitKeeps(s: State, w: World, id: ObjectId, lease: Lease, wanted: NextUse, lost: nat := 0)
    requires Kept(s, lost) && id in s.objects && !s.objects[id].Resident() && ClassOf(id).Some?
    requires Charge(s.sessions, s.objects[id].owner, s.objects[id].size, s.objects[id].precision).Ok?
    ensures var m := s.objects[id];
      m.size > 0 && var roomy := MakeRoom(s.(sessions := Charge(s.sessions, m.owner, m.size, m.precision).value), w.pick, m.size);
      var (t, r) := Admit(s, w, id, lease, wanted);
      && (r.Ok? <==> roomy.region.Place(m.size).Some? && w.read(id).Ok?) && (r.Ok? ==> Hits(t, id))
      && (roomy.region.Place(m.size).None? || w.read(id).Ok? ==> Kept(t, lost))
      && (roomy.region.Place(m.size).Some? && w.read(id).Err? ==>
            Kept(t, lost + Round(m.size)))
      && SameSessions(s.sessions, t.sessions) && t.objects.Keys == s.objects.Keys
  {
    hide Charged, Charge, Credit, MakeRoom;
    var m := s.objects[id];
    var charged := Charge(s.sessions, m.owner, m.size, m.precision).value;
    HasSize(s, id, lost);
    ChargeKeeps(s, m.owner, m.size, m.precision, lost);
    var paid := s.(sessions := charged);
    MakeRoomKeeps(paid, w.pick, m.size, m.owner, m.size, lost);
    var roomy := MakeRoom(paid, w.pick, m.size);
    assert roomy.objects[id].size == m.size && roomy.objects[id].owner == m.owner && !roomy.objects[id].Resident();
    CreditKeeps(roomy, m.owner, m.size, lost);
    if roomy.region.Place(m.size).Some? {
      if w.read(id).Ok? {
        PlaceKeeps(roomy, w, id, lease, wanted, lost);
        FaultsKeep(Place(roomy, w, id, m.size, lease, wanted).0, lost, Index(ClassOf(id).value));
      } else {
        PlacedLost(roomy, m.size, m.owner, lost);
        CreditKeeps(roomy.(region := roomy.region.Place(m.size).value.1), m.owner, m.size, lost + Round(m.size));
      }
    }
  }

  lemma FaultsKeep(s: State, lost: nat, i: nat)
    requires Kept(s, lost) && i < CLASSES
    ensures Counted(s) && Kept(s.(faults := s.faults[i := SatAdd(s.faults[i], 1, U32_MAX)]), lost)
  {}

  lemma HasSize(s: State, id: ObjectId, lost: nat)
    requires Kept(s, lost) && id in s.objects
    ensures Counted(s) && s.objects[id].size > 0
  {}

  /** Bytes placed that nothing in the table is told of. */
  lemma PlacedLost(s: State, size: nat, who: SessionId, lost: nat := 0)
    requires Charged(s, who, size, lost) && size > 0 && s.region.Place(size).Some?
    ensures Charged(s.(region := s.region.Place(size).value.1), who, size, lost + Round(size))
  {
    PlaceTakes(s.region, size);
    ExtentsTaken(s.region, s.objects, size);
  }

  lemma TickKeeps(s: State, lost: nat)
    requires Kept(s, lost)
    ensures Counted(s) && Counted(Tick(s)) && Kept(Tick(s), lost)
    ensures forall id :: Hits(Tick(s), id) ==> ClassOf(id).Some?
  {}

  /** What is placed for nobody is one number. */
  lemma LostOnce(s: State, a: nat, b: nat)
    ensures Kept(s, a) && a != b ==> !Kept(s, b)
  {}

  /** Every acquire keeps every account, exactly unless a provider's read
      failed after its bytes were placed: then just that many bytes are placed
      for nobody, and every other account is still kept. */
  lemma AcquireKeeps(s: State, w: World, id: ObjectId, lease: Lease, wanted: NextUse, lost: nat := 0)
    requires Kept(s, lost)
    ensures Kept(Acquire(s, w, id, lease, wanted).0, lost) <==> !(ReachesRead(s, w, id) && w.read(id).Err?)
    ensures ReachesRead(s, w, id) && w.read(id).Err? ==>
      Kept(Acquire(s, w, id, lease, wanted).0, lost + Round(s.objects[id].size))
    ensures SameSessions(s.sessions, Acquire(s, w, id, lease, wanted).0.sessions)
    ensures Acquire(s, w, id, lease, wanted).0.objects.Keys == s.objects.Keys
  {
    hide Charged, Place, Charge, Credit, MakeRoom;
    var t := Tick(s);
    TickKeeps(s, lost);
    if Hits(t, id) {
      SameKeeps(t, id, Touched(t.objects[id], t.clock, lease, wanted), 0, 0, lost);
    } else if id in t.objects && t.objects[id].provider in w.attached && ClassOf(id).Some? {
      var m := t.objects[id];
      if Charge(t.sessions, m.owner, m.size, m.precision).Ok? {
        AdmitKeeps(t, w, id, lease, wanted, lost);
        LostOnce(Admit(t, w, id, lease, wanted).0, lost, lost + Round(m.size));
      }
    }
  }

  /** An acquire its owner's ceiling refuses evicts nothing: only the clock
      has moved. */
  lemma CeilingRefusalEvictsNothing(s: State, w: World, id: ObjectId, lease: Lease, wanted: NextUse)
    requires Counted(s) && id in s.objects && !s.objects[id].Resident()
    requires s.objects[id].provider in w.attached && ClassOf(id).Some?
    requires Known(s.sessions, s.objects[id].owner)
    requires var owner := Get(s.sessions, s.objects[id].owner);
      0 < owner.contract.residentCeiling < owner.resident + s.objects[id].size
    ensures Acquire(s, w, id, lease, wanted) == (Tick(s), Err(Refused))
  {}

  // ----- the other operations -----

  lemma ReleaseKeeps(s: State, id: ObjectId, lease: Lease, lost: nat := 0)
    requires Kept(s, lost)
    ensures Kept(Release(s, id, lease).0, lost)
    ensures Release(s, id, lease).0.sessions == s.sessions
  {
    if id in s.objects {
      SameKeeps(s, id, s.objects[id].(shareCount := SatSub(s.objects[id].shareCount, 1)), 0, 0, lost);
    }
  }

  /** What registering demands of its caller: a size, no address, an owner
      that is nobody or live, and an id that is not resident already. */
  ghost predicate Registrable(s: State, id: ObjectId, m: Meta) {
    && m.size > 0 && !m.Resident() && (m.owner == 0 || Known(s.sessions, m.owner))
    && (id in s.objects ==> !s.objects[id].Resident())
  }

  lemma RegisterKeeps(s: State, id: ObjectId, m: Meta, lost: nat := 0)
    requires Kept(s, lost) && Registrable(s, id, m)
    ensures Kept(Register(s, id, m), lost)
  {
    LayoutAbsent(s.region, s.objects, id, m);
    UsedUpdate(s.objects, id, m);
    forall c: Class ensures HeldBy(s.objects[id := m], c) == HeldBy(s.objects, c) { HeldUpdate(s.objects, id, m, c); }
    forall o: SessionId ensures OwnedBy(s.objects[id := m], o) == OwnedBy(s.objects, o) {
      OwnedUpdate(s.objects, id, m, o);
    }
    SameAccounts(s.sessions, s.objects, s.objects[id := m], 0, 0);
  }

  lemma ForgetKeeps(s: State, id: ObjectId, lost: nat := 0)
    requires Kept(s, lost) && id in s.objects && !s.objects[id].Resident()
    ensures Kept(s.(objects := s.objects - {id}), lost)
  {
    LayoutForgotten(s.region, s.objects, id);
    SumsForget(s.objects, id, KvBlock, 0);
    forall c: Class ensures HeldBy(s.objects - {id}, c) == HeldBy(s.objects, c) { SumsForget(s.objects, id, c, 0); }
    forall o: SessionId ensures OwnedBy(s.objects - {id}, o) == OwnedBy(s.objects, o) {
      SumsForget(s.objects, id, KvBlock, o);
    }
    SameAccounts(s.sessions, s.objects, s.objects - {id}, 0, 0);
  }

  /** An owner nothing resident belongs to has no bytes. */
  lemma OwnsNothing(objects: Objects, owner: SessionId)
    requires forall id :: id in objects && objects[id].Resident() ==> objects[id].owner != owner
    ensures OwnedBy(objects, owner) == 0
  {
    SumZero(OfOwner(objects, owner));
  }

  /** Filling a free slot with a session under an id nobody owns by. */
  lemma NewcomerKeeps(s: State, at: nat, id: SessionId, contract: SessionModel.Contract, lost: nat := 0)
    requires Kept(s, lost) && FreeSlot(s.sessions) == Some(at) && id != 0 && FindAt(s.sessions, id).None?
    ensures Kept(s.(sessions := s.sessions[at := Some(Newcomer(id, contract))]), lost)
  {
    var after := s.sessions[at := Some(Newcomer(id, contract))];
    OwnsNothing(s.objects, id);
    forall i | 0 <= i < |after| && after[i].Some? ensures Account(after[i].value, s.objects, 0, 0) {
      if i != at { assert Account(s.sessions[i].value, s.objects, 0, 0); }
    }
    forall k | k in s.objects ensures s.objects[k].owner == 0 || Known(after, s.objects[k].owner) {
      if s.objects[k].owner != 0 {
        var i := FindAt(s.sessions, s.objects[k].owner).value;
        assert after[i] == s.sessions[i];
      }
    }
  }

  lemma AdoptKeeps(s: State, id: SessionId, contract: SessionModel.Contract, lost: nat := 0)
    requires Kept(s, lost) && Adopt(s.sessions, id, contract).Ok?
    ensures Kept(s.(sessions := Adopt(s.sessions, id, contract).value), lost)
  {
    NewcomerKeeps(s, FreeSlot(s.sessions).value, id, contract, lost);
  }

  lemma CreateKeeps(s: State, contract: SessionModel.Contract, lost: nat := 0)
    requires Kept(s, lost)
    ensures Kept(CreateSession(s, contract).0, lost)
  {
    var made := Admission.CreateSession(s.capacity, s.sessions, contract);
    if made.Some? {
      NewcomerKeeps(s, FreeSlot(s.sessions).value, made.value.0, contract, lost);
    }
  }

  // ----- ending a session -----

  /** `t` is `s` without some of what `owner` owned. */
  ghost predicate OnlyForgets(s: State, t: State, owner: SessionId) {
    && SameSessions(s.sessions, t.sessions)
    && (forall id :: id in t.objects ==> id in s.objects && (t.objects[id] == s.objects[id] || t.objects[id].owner == s.objects[id].owner == owner))
    && (forall id :: id in s.objects && s.objects[id].owner != owner ==> id in t.objects)
  }

  /** One owned object, gone. */
  lemma ForgetOneKeeps(s: State, id: ObjectId, owner: SessionId, lost: nat := 0)
    requires Kept(s, lost) && id in s.objects && s.objects[id].owner == owner
    requires s.objects[id].Resident() ==> Evict(s, id).1.Ok?
    ensures var t := if s.objects[id].Resident() then Evict(s, id).0 else s;
      Kept(t.(objects := t.objects - {id}), lost) && OnlyForgets(s, t.(objects := t.objects - {id}), owner)
  {
    if s.objects[id].Resident() {
      EvictKeeps(s, id, 0, 0, lost);
      ForgetKeeps(Evict(s, id).0, id, lost);
    } else {
      ForgetKeeps(s, id, lost);
    }
  }

  /** The walk keeps everything, stopped or not; if it finishes, nothing the
      session owned among the ids walked is left. */
  lemma {:induction false} DestroyWalkKeeps(s: State, owner: SessionId, order: seq<ObjectId>, evicted: nat, lost: nat := 0)
    requires Counted(s) && Kept(s, lost)
    ensures var (t, r) := DestroyWalk(s, owner, order, evicted);
      && Kept(t, lost) && OnlyForgets(s, t, owner)
      && (r.Ok? && owner != 0 ==> forall id :: id in order && id in t.objects ==> t.objects[id].owner != owner)
    decreases |order|
  {
    hide Charged;
    if order != [] {
      var id := order[0];
      if id !in s.objects || s.objects[id].owner != owner || owner == 0 {
        DestroyWalkKeeps(s, owner, order[1..], evicted, lost);
      } else {
        EvictKeeps(s, id, 0, 0, lost);
        var next := if s.objects[id].Resident() then Evict(s, id) else (s, Ok(0));
        if next.1.Ok? {
          ForgetOneKeeps(s, id, owner, lost);
          var t := next.0.(objects := next.0.objects - {id});
          DestroyWalkKeeps(t, owner, order[1..], if s.objects[id].Resident() then evicted + 1 else evicted, lost);
        }
      }
    }
  }

  /** A session that owns nothing leaves its slot. */
  lemma SlotFreed(s: State, owner: SessionId, lost: nat := 0)
    requires Kept(s, lost) && Known(s.sessions, owner)
    requires forall id :: id in s.objects ==> s.objects[id].owner != owner
    ensures Kept(s.(sessions := Destroy(s.sessions, owner).value), lost)
    ensures !Known(Destroy(s.sessions, owner).value, owner)
  {
    var i := FindAt(s.sessions, owner).value;
    var after := s.sessions[i := None];
    forall j | 0 <= j < |after| && after[j].Some? ensures Account(after[j].value, s.objects, 0, 0) {
      assert Account(s.sessions[j].value, s.objects, 0, 0);
    }
    forall id | id in s.objects ensures s.objects[id].owner == 0 || Known(after, s.objects[id].owner) {
      if s.objects[id].owner != 0 {
        var j := FindAt(s.sessions, s.objects[id].owner).value;
        assert after[j] == s.sessions[j];
      }
    }
  }

  lemma NobodyIsZero(s: State, lost: nat := 0)
    requires Kept(s, lost)
    ensures !Known(s.sessions, 0)
  {}

  /** Ending a session keeps everything conserved, whether or not it ends;
      when it ends, no object of its own is left in the table, and no other
      object has been touched. */
  lemma DestroyKeeps(s: State, owner: SessionId, order: seq<ObjectId>, lost: nat := 0)
    requires Counted(s) && Kept(s, lost) && forall id :: id in s.objects ==> id in order
    ensures var (t, r) := DestroySession(s, owner, order);
      && Kept(t, lost)
      && (forall id :: id in s.objects && s.objects[id].owner != owner ==> id in t.objects && t.objects[id] == s.objects[id])
      && (r.Ok? ==> (forall id :: id in t.objects ==> t.objects[id].owner != owner) && !Known(t.sessions, owner))
      && (r.Ok? <==> Known(s.sessions, owner) && DestroyWalk(s, owner, order, 0).1.Ok?)
  {
    hide Charged;
    DestroyWalkKeeps(s, owner, order, 0, lost);
    var (t, r) := DestroyWalk(s, owner, order, 0);
    SameSessionsFind(s.sessions, t.sessions);
    NobodyIsZero(t, lost);
    if r.Ok? && Known(t.sessions, owner) { SlotFreed(t, owner, lost); }
  }
}
