/** A block rewritten where it is: what the arena, the counters and the
    accounts make of a resident that gives its tail back. */
module Shrink {
  import opened Basics
  import opened Abi
  import opened MetaModel
  import opened Holes
  import opened ArenaModel
  import opened SessionModel
  import opened Kernel
  import opened Conservation
  import opened LadderModel
  import opened SqueezeModel

  /** Requantizing an entry scales its bytes by the bits it keeps, rounded down,
      and never adds any: for every size a table holds and every precision that
      divides sixteen bits. */
  lemma ResizedScales(m: Meta, fate: Fate)
    requires m.size <= U32_MAX && m.precision != Q3
    ensures Resized(m, fate) == Min(m.size, m.size * fate.Bits() / BitsOf(m.precision))
  {
    var bits, b := BitsOf(m.precision), fate.Bits();
    assert bits == 16 || bits == 8 || bits == 4 || bits == 2;
    var full := 16 * m.size / bits;
    assert full == m.size * (16 / bits);
    SameQuotient(m.size, b, bits);
  }

  lemma SameQuotient(size: nat, b: nat, bits: nat)
    requires bits == 16 || bits == 8 || bits == 4 || bits == 2
    ensures size * (16 / bits) * b / 16 == size * b / bits
  {
    var all := size * b;
    if bits == 16 {
      assert size * 1 * b == all;
    } else if bits == 8 {
      assert size * 2 * b == 2 * all;
    } else if bits == 4 {
      assert size * 4 * b == 4 * all;
    } else {
      assert size * 8 * b == 8 * all;
    }
  }

  /** A resident's tail is its own to give back. */
  lemma TailOwned(r: Region, m: Meta, size: nat)
    requires r.Owned(m.residentAt, m.size) && 0 < size && Round(size) < Round(m.size)
    ensures r.Owned(m.residentAt + Round(size), Round(m.size) - Round(size))
    ensures Round(Round(m.size) - Round(size)) == Round(m.size) - Round(size)
    ensures r.Owned(m.residentAt, size)
  {
    RoundMultiple(Round(m.size) - Round(size));
    assert (m.residentAt + Round(size) - r.base) % ALIGN == 0;
  }

  lemma RoundMultiple(n: nat)
    requires n % ALIGN == 0
    ensures Round(n) == n
  {}

  lemma ExtentsShrunk(r: Region, s: Region, objects: Objects, id: ObjectId, m: Meta)
    requires Extents(r, objects) && id in objects && objects[id].Resident()
    requires m.residentAt == objects[id].residentAt && 0 < m.size && Round(m.size) < Round(objects[id].size)
    requires s.Valid() && s.base == r.base && s.capacity == r.capacity
    requires forall b :: Free(s.free, b) <==> Free(r.free, b) || Low(r, objects[id]) + Round(m.size) <= b < High(r, objects[id])
    ensures Extents(s, objects[id := m])
  {
    hide Region.Valid, Round;
    var was := objects[id];
    var after := objects[id := m];
    assert m.size > 0;
    forall k | k in after && after[k].Resident() ensures s.Owned(after[k].residentAt, after[k].size) {
      if k != id { assert Apart(r, objects[k], was); } else { assert r.Owned(was.residentAt, was.size); }
    }
    forall a, b | a in after && b in after && a != b && after[a].Resident() && after[b].Resident()
      ensures Apart(s, after[a], after[b])
    {
      assert Apart(r, objects[a], objects[b]);
    }
  }

  lemma TiledShrunk(r: Region, s: Region, objects: Objects, id: ObjectId, m: Meta)
    requires Tiled(r, objects) && id in objects && objects[id].Resident()
    requires m.residentAt == objects[id].residentAt && Round(m.size) <= Round(objects[id].size)
    requires s.base == r.base && s.capacity == r.capacity
    requires forall b :: Free(s.free, b) <==> Free(r.free, b) || Low(r, objects[id]) + Round(m.size) <= b < High(r, objects[id])
    ensures Tiled(s, objects[id := m])
  {
    hide Covered, Round;
    forall b | 0 <= b < s.capacity && !Free(s.free, b) ensures Covered(s, objects[id := m], b) {
      ShrunkCovered(r, s, objects, id, m, b);
    }
  }

  /** The layout once `id` has given its tail back. */
  lemma LayoutShrunk(r: Region, objects: Objects, id: ObjectId, m: Meta)
    requires Extents(r, objects) && id in objects && objects[id].Resident()
    requires m.residentAt == objects[id].residentAt && 0 < m.size && Round(m.size) < Round(objects[id].size)
    requires r.Release(m.residentAt + Round(m.size), Round(objects[id].size) - Round(m.size)).Ok?
    ensures var s := r.Release(m.residentAt + Round(m.size), Round(objects[id].size) - Round(m.size)).value;
      && Extents(s, objects[id := m]) && (Tiled(r, objects) ==> Tiled(s, objects[id := m]))
      && s.used == r.used - (Round(objects[id].size) - Round(m.size)) && s.capacity == r.capacity
  {
    var was := objects[id];
    ExtentsOwned(r, objects, id);
    hide Extents, Tiled, Region.Valid, Region.Owned, Region.Release, Round;
    TailOwned(r, was, m.size);
    var tail := Round(was.size) - Round(m.size);
    ReleaseFrees(r, m.residentAt + Round(m.size), tail);
    var s := r.Release(m.residentAt + Round(m.size), tail).value;
    ExtentsShrunk(r, s, objects, id, m);
    if Tiled(r, objects) { TiledShrunk(r, s, objects, id, m); }
  }

  lemma ExtentsOwned(r: Region, objects: Objects, id: ObjectId)
    requires Extents(r, objects) && id in objects && objects[id].Resident()
    ensures r.Valid() && r.Owned(objects[id].residentAt, objects[id].size)
  {}

  /** A byte still taken is still covered. */
  lemma ShrunkCovered(r: Region, s: Region, objects: Objects, id: ObjectId, m: Meta, b: int)
    requires id in objects && objects[id].Resident() && Round(m.size) <= Round(objects[id].size)
    requires m.residentAt == objects[id].residentAt && s.base == r.base
    requires Covered(r, objects, b) && !(Low(r, objects[id]) + Round(m.size) <= b < High(r, objects[id]))
    ensures Covered(s, objects[id := m], b)
  {
    var k :| k in objects && Covers(r, objects[k], b);
    assert Covers(s, objects[id := m][k], b);
  }

  lemma HeldShrunk(held: seq<nat>, objects: Objects, id: ObjectId, m: Meta, c: Class)
    requires HeldRight(held, objects) && id in objects && objects[id].Resident() && ClassOf(id) == Some(c)
    requires m.Resident() && m.size <= objects[id].size
    ensures HeldRight(HeldMinus(held, c, objects[id].size - m.size), objects[id := m])
  {
    forall d: Class ensures HeldMinus(held, c, objects[id].size - m.size)[Index(d)] == HeldBy(objects[id := m], d) {
      HeldUpdate(objects, id, m, d);
      SumsBounded(objects, d, 0);
      assert Index(c) == Index(d) ==> c == d;
    }
  }

  lemma AccountsShrunk(sessions: Slots, objects: Objects, id: ObjectId, m: Meta)
    requires Accounts(sessions, objects, 0, 0) && id in objects && objects[id].Resident()
    requires m.Resident() && m.owner == objects[id].owner && m.size <= objects[id].size
    ensures Accounts(Credit(sessions, m.owner, objects[id].size - m.size), objects[id := m], 0, 0)
    ensures SameSessions(sessions, Credit(sessions, m.owner, objects[id].size - m.size))
  {
    var after := Credit(sessions, m.owner, objects[id].size - m.size);
    SameSessionsFind(sessions, after);
    forall i | 0 <= i < |after| && after[i].Some? ensures Account(after[i].value, objects[id := m], 0, 0) {
      assert Account(sessions[i].value, objects, 0, 0);
      FindIs(sessions, i);
      OwnedUpdate(objects, id, m, after[i].value.id);
      SumsBounded(objects, KvBlock, after[i].value.id);
    }
  }

  /** What a rewrite in place that frees bytes makes of the manager. */
  lemma ShrunkIs(s: State, id: ObjectId, fate: Fate)
    requires Counted(s) && id in s.objects && s.objects[id].Resident() && fate.Precision().Some?
    requires Round(Resized(s.objects[id], fate)) < Round(s.objects[id].size)
    ensures var was := s.objects[id];
      var m := was.(size := Resized(was, fate), precision := fate.Precision().value);
      var freed := s.region.Release(was.residentAt + Round(m.size), Round(was.size) - Round(m.size));
      Rewrite(s, id, fate) ==
        match freed
        case Err(why) => (s, Err(why))
        case Ok(region) =>
          (s.(region := region, held := HeldMinus(s.held, KvBlock, was.size - m.size),
              sessions := Credit(s.sessions, was.owner, was.size - m.size), objects := s.objects[id := m]), Ok(()))
  {
    hide Resized;
  }

  lemma ShrunkAll(s: State, id: ObjectId, m: Meta, region: Region)
    requires Counted(s) && Conserved(s) && id in s.objects && s.objects[id].Resident() && ClassOf(id) == Some(KvBlock)
    requires m == s.objects[id].(size := m.size, precision := m.precision)
    requires 0 < m.size && Round(m.size) < Round(s.objects[id].size)
    requires s.region.Release(m.residentAt + Round(m.size), Round(s.objects[id].size) - Round(m.size)) == Ok(region)
    ensures var was := s.objects[id];
      m.size <= was.size &&
      Conserved(s.(region := region, held := HeldMinus(s.held, KvBlock, was.size - m.size),
                   sessions := Credit(s.sessions, was.owner, was.size - m.size), objects := s.objects[id := m]))
  {
    hide Extents, Tiled, Decodes, Accounts, Owners, Region.Release, Credit, Round, HeldRight;
    var was := s.objects[id];
    Coarsens(m.size, was.size);
    SameDecodes(s.objects, id, m);
    LayoutShrunk(s.region, s.objects, id, m);
    UsedUpdate(s.objects, id, m);
    HeldShrunk(s.held, s.objects, id, m, KvBlock);
    AccountsShrunk(s.sessions, s.objects, id, m);
    OwnersSame(s.sessions, Credit(s.sessions, m.owner, was.size - m.size), s.objects, id, m);
  }

  lemma SameDecodes(objects: Objects, id: ObjectId, m: Meta)
    requires Decodes(objects) && id in objects && objects[id].Resident()
    ensures Decodes(objects[id := m])
  {}

  lemma Coarsens(a: nat, b: nat)
    requires Round(a) < Round(b)
    ensures a < b
  {
    if a >= b { RoundOrder(b, a); }
  }

  /** A rewrite in place that frees bytes keeps every account. */
  lemma ShrunkKeeps(s: State, id: ObjectId, fate: Fate)
    requires Counted(s) && Conserved(s) && id in s.objects && s.objects[id].Resident() && ClassOf(id) == Some(KvBlock)
    requires fate.Precision().Some? && 0 < Resized(s.objects[id], fate)
    requires Round(Resized(s.objects[id], fate)) < Round(s.objects[id].size)
    ensures var (t, r) := Rewrite(s, id, fate);
      (r.Ok? <==> |s.region.free| < HOLES) && Conserved(t) && (r.Err? ==> t == s)
  {
    hide Resized, Charged, Rewrite, Region.Release;
    var was := s.objects[id];
    var m := was.(size := Resized(was, fate), precision := fate.Precision().value);
    ResidentOwns(s, id);
    TailOwned(s.region, was, m.size);
    ReleaseFrees(s.region, m.residentAt + Round(m.size), Round(was.size) - Round(m.size));
    FreeListBounded(s);
    ShrunkIs(s, id, fate);
    if |s.region.free| < HOLES {
      ShrunkAll(s, id, m, s.region.Release(m.residentAt + Round(m.size), Round(was.size) - Round(m.size)).value);
    }
  }

  lemma ResidentOwns(s: State, id: ObjectId)
    requires Conserved(s) && id in s.objects && s.objects[id].Resident()
    ensures s.region.Valid() && s.region.Owned(s.objects[id].residentAt, s.objects[id].size)
  {}

  lemma OwnersSame(a: Slots, b: Slots, objects: Objects, id: ObjectId, m: Meta)
    requires Owners(a, objects) && SameSessions(a, b) && id in objects && m.owner == objects[id].owner
    ensures Owners(b, objects[id := m])
  {
    SameSessionsFind(a, b);
  }

  /** A block whose bytes go without an account being told: resized to nothing
      and not refused, or resident and smaller by less than the arena can tell. */
  predicate Untold(s: State, id: ObjectId, fate: Fate)
    requires id in s.objects
  {
    var m := s.objects[id];
    var size := Resized(m, fate);
    fate.Precision().Some? &&
      if size == 0 then !m.Resident() || |s.region.free| < HOLES
      else m.Resident() && size < m.size && Round(size) == Round(m.size)
  }

  /** A rewrite changes nothing if it is refused, and keeps every account
      exactly unless its block's bytes go untold. */
  lemma RewriteKeeps(s: State, id: ObjectId, fate: Fate)
    requires Counted(s) && Conserved(s) && id in s.objects && ClassOf(id) == Some(KvBlock)
    ensures var (t, r) := Rewrite(s, id, fate); (r.Err? ==> t == s) && (Conserved(t) <==> !Untold(s, id, fate))
  {
    hide Resized, Charged;
    var m := s.objects[id];
    if fate.Precision().None? {
      DropKeeps(s, id, fate);
    } else if Resized(m, fate) == 0 {
      NothingLeft(s, id, fate);
      FreeListBounded(s);
    } else if !m.Resident() {
      AbsentKeeps(s, id, fate);
    } else if Round(Resized(m, fate)) < Round(m.size) {
      ShrunkKeeps(s, id, fate);
    } else {
      UntoldBreaks(s, id, fate);
    }
  }

  /** Resized to nothing: a resident of no bytes, or an entry of none. */
  lemma NothingLeft(s: State, id: ObjectId, fate: Fate)
    requires Counted(s) && Conserved(s) && id in s.objects && fate.Precision().Some? && Resized(s.objects[id], fate) == 0
    ensures var (t, r) := Rewrite(s, id, fate);
      && (r.Err? <==> s.objects[id].Resident() && |s.region.free| == HOLES)
      && (if r.Err? then t == s else !Conserved(t))
  {
    hide Resized, Accounts, Owners, HeldRight, Tiled, Decodes;
    var m := s.objects[id];
    assert m.size > 0;
    RoundsUp(m.size);
    if m.Resident() {
      ShrunkIs(s, id, fate);
      WholeOwned(s.region, m);
      ReleaseFrees(s.region, m.residentAt, Round(m.size));
    }
    var (t, r) := Rewrite(s, id, fate);
    assert r.Ok? ==> id in t.objects && t.objects[id].size == 0;
  }

  lemma RoundsUp(n: nat)
    requires n > 0
    ensures Round(n) > 0 && Round(0) == 0
  {}

  lemma WholeOwned(r: Region, m: Meta)
    requires r.Owned(m.residentAt, m.size)
    ensures r.Owned(m.residentAt, Round(m.size))
  {}

  /** A sixteen-byte resident halved still rounds to sixteen: eight bytes go
      and nobody is told. */
  lemma SmallBlockLoses(s: State, id: ObjectId)
    requires Counted(s) && Conserved(s) && id in s.objects && s.objects[id].Resident() && ClassOf(id) == Some(KvBlock)
    requires s.objects[id].size == 16 && s.objects[id].precision == Fp16
    ensures var (t, r) := Rewrite(s, id, Keep(Q8)); r.Ok? && t.objects[id].size == 8 && t.region == s.region && !Conserved(t)
  {
    hide Charged;
    assert Resized(s.objects[id], Keep(Q8)) == 8;
    RewriteKeeps(s, id, Keep(Q8));
  }

  lemma DropKeeps(s: State, id: ObjectId, fate: Fate)
    requires Counted(s) && Conserved(s) && id in s.objects && fate.Precision().None?
    ensures var (t, r) := Rewrite(s, id, fate); (r.Err? ==> t == s) && Conserved(t)
    ensures Rewrite(s, id, fate).1.Ok? <==> !s.objects[id].Resident() || |s.region.free| < HOLES
  {
    hide Charged;
    EvictKeeps(s, id, 0, 0);
    FreeListBounded(s);
    var t := Rewrite(s, id, fate);
    if s.objects[id].Resident() {
      if t.1.Ok? { ForgetKeeps(Evict(s, id).0, id); }
    } else {
      ForgetKeeps(s, id);
    }
  }

  lemma FreeListBounded(s: State)
    requires Conserved(s)
    ensures |s.region.free| <= HOLES
  {}

  lemma AbsentKeeps(s: State, id: ObjectId, fate: Fate)
    requires Counted(s) && Conserved(s) && id in s.objects && !s.objects[id].Resident()
    requires fate.Precision().Some? && 0 < Resized(s.objects[id], fate)
    ensures Rewrite(s, id, fate).1.Ok? && Conserved(Rewrite(s, id, fate).0)
  {
    var m := s.objects[id].(size := Resized(s.objects[id], fate), precision := fate.Precision().value);
    RegisterKeeps(s, id, m);
  }

  /** A resident rewritten within the same rounded size. */
  lemma UntoldBreaks(s: State, id: ObjectId, fate: Fate)
    requires Counted(s) && Conserved(s) && id in s.objects && s.objects[id].Resident() && ClassOf(id) == Some(KvBlock)
    requires fate.Precision().Some? && Round(Resized(s.objects[id], fate)) >= Round(s.objects[id].size)
    ensures Rewrite(s, id, fate).1.Ok?
    ensures Conserved(Rewrite(s, id, fate).0) <==> Resized(s.objects[id], fate) == s.objects[id].size
    ensures Round(Resized(s.objects[id], fate)) == Round(s.objects[id].size)
  {
    var was := s.objects[id];
    var m := was.(size := Resized(was, fate), precision := fate.Precision().value);
    RoundOrder(m.size, was.size);
    if m.size == was.size {
      SameKeeps(s, id, m, 0, 0);
    } else {
      HeldUpdate(s.objects, id, m, KvBlock);
    }
  }

  lemma RoundOrder(a: nat, b: nat)
    requires a <= b
    ensures Round(a) <= Round(b)
  {}
}
