/** The ladder as the kernel runs it: blocks rewritten, sessions moved and
    ended, arrivals placed, all on the manager in place. Every method is
    proved to compute what Squeeze.dfy and Arrival.dfy say of a manager as a
    value. */
module LadderManager {
  import opened Basics
  import opened Abi
  import opened MetaModel
  import opened Holes
  import opened ArenaModel
  import opened TableModel
  import opened SessionModel
  import opened Conservation
  import opened ManagerModel
  import opened LadderModel
  import opened WalkModel
  import opened Shrink
  import opened LadderedModel
  import opened LadderExact
  import opened SqueezeExact
  import opened SqueezeModel
  import LadderRuns
  import K = Kernel

  // ----- one block -----

  /** Every other object is where it was, as far as the table's slots go. */
  ghost predicate OthersKept(a: seq<Slot>, b: seq<Slot>, id: ObjectId) {
    |a| == |b| && forall i :: 0 <= i < |a| && (a[i].Live? ==> a[i].id != id) ==> b[i] == a[i] || SameId(b[i], a[i])
  }

  lemma ShrunkLayout(r: Region, objects: Objects, id: ObjectId, m: Meta)
    requires Extents(r, objects) && Decodes(objects) && id in objects && m.residentAt == objects[id].residentAt && m.size > 0
    requires objects[id].Resident() ==> ClassOf(id).Some?
    ensures Decodes(objects[id := m])
    ensures !m.Resident() || Round(m.size) == Round(objects[id].size) ==> Extents(r, objects[id := m])
  {
    hide Round;
    var after := objects[id := m];
    if m.Resident() && Round(m.size) == Round(objects[id].size) {
      forall k | k in after && after[k].Resident() ensures r.Owned(after[k].residentAt, after[k].size) {
        assert r.Owned(objects[k].residentAt, objects[k].size);
      }
      forall a, b | a in after && b in after && a != b && after[a].Resident() && after[b].Resident()
        ensures Apart(r, after[a], after[b])
      {
        assert Apart(r, objects[a], objects[b]);
      }
    } else if !m.Resident() {
      LayoutAbsent(r, objects, id, m);
    }
  }

  /** Gives the tail of a resident of `from` bytes back, and tells the counters
      and its owner's account. */
  method GiveTail(held: Manager, meta: Meta, size: nat) returns (r: Result<()>)
    requires held.arena.Valid() && K.Counted(held.View()) && size <= meta.size && Round(size) <= Round(meta.size)
    requires held.arena.View().Owned(meta.residentAt + Round(size), Round(meta.size) - Round(size))
    modifies held`held, held.arena, held.arena.free, held.sessions.slots
    ensures held.arena.Valid()
    ensures var s := old(held.View());
      match s.region.Release(meta.residentAt + Round(size), Round(meta.size) - Round(size))
      case Err(why) => r == Err(why) && held.View() == s
      case Ok(region) =>
        r == Ok(()) && held.View() == s.(region := region, held := K.HeldMinus(s.held, KvBlock, meta.size - size),
                                         sessions := SessionModel.Credit(s.sessions, meta.owner, meta.size - size))
  {
    hide Region.Valid, Region.Owned, Region.Release, Round, SessionModel.Credit;
    r := held.arena.Release(meta.residentAt + Round(size), Round(meta.size) - Round(size));
    if r.Ok? {
      held.held := K.HeldMinus(held.held, KvBlock, meta.size - size);
      held.sessions.Credit(meta.owner, meta.size - size);
    }
  }

  /** A rewrite the arena has nothing to do with. */
  lemma PlainIs(s: K.State, id: ObjectId, fate: Fate)
    requires K.Counted(s) && id in s.objects && fate.Precision().Some?
    requires !s.objects[id].Resident() || Round(Resized(s.objects[id], fate)) >= Round(s.objects[id].size)
    ensures var m := s.objects[id].(size := Resized(s.objects[id], fate), precision := fate.Precision().value);
      SqueezeModel.Rewrite(s, id, fate) == (s.(objects := s.objects[id := m]), Ok(()))
  {
    hide Resized;
  }

  /** The keeping half of `rewrite`: the entry shrinks, and a resident's tail is freed. */
  method Coarsen(held: Manager, id: ObjectId, fate: Fate) returns (r: Result<()>)
    requires held.Valid() && ClassOf(id) == Some(KvBlock) && fate.Precision().Some?
    requires id in held.table.contents && 0 < Resized(held.table.contents[id], fate)
    modifies held.Footprint()
    ensures held.Valid() && held.policy == old(held.policy)
    ensures (held.View(), r) == SqueezeModel.Rewrite(old(held.View()), id, fate)
    ensures SameFrom(old(held.table.slots[..]), held.table.slots[..], 0)
  {
    hide Extents, Represents, Region.Valid, Decodes, Region.Release, Round, K.HeldMinus, SessionModel.Credit, Region.Owned,
      SqueezeModel.Rewrite;
    ghost var was := held.View();
    var found := held.table.Get(id);
    var meta := found.value;
    var full := 16 * meta.size / BitsOf(meta.precision);
    var size := if fate.Bytes(full) <= U32_MAX then Min(fate.Bytes(full), meta.size) else meta.size;
    assert size == Resized(meta, fate);
    hide Resized, BitsOf, Fate.Bytes;
    var after := meta.(size := size, precision := fate.Precision().value);
    ShrunkLayout(was.region, was.objects, id, after);
    RoundOrder(size, meta.size);
    if !meta.Resident() || Round(size) >= Round(meta.size) {
      PlainIs(was, id, fate);
    } else {
      ShrunkIs(was, id, fate);
      ExtentsOwned(was.region, was.objects, id);
      TailOwned(was.region, meta, size);
      r := GiveTail(held, meta, size);
      if r.Err? {
        return;
      }
      LayoutShrunk(was.region, was.objects, id, after);
    }
    var ok := held.table.Update(id, after);
    return Ok(());
  }

  /** One block's fate carried out on the manager, or an error with everything
      as it was. */
  method Rewrite(held: Manager, id: ObjectId, fate: Fate) returns (r: Result<()>)
    requires held.Valid() && ClassOf(id) == Some(KvBlock)
    requires id in held.table.contents && fate.Precision().Some? ==> 0 < Resized(held.table.contents[id], fate)
    modifies held.Footprint()
    ensures held.Valid() && held.policy == old(held.policy)
    ensures (held.View(), r) == SqueezeModel.Rewrite(old(held.View()), id, fate)
    ensures Thinned(old(held.table.slots[..]), held.table.slots[..])
    ensures OthersKept(old(held.table.slots[..]), held.table.slots[..], id)
  {
    hide Extents, Represents, Region.Valid, K.Evict, Decodes, Resized;
    ghost var first := held.table.slots[..];
    ThinnedTwice(first, first, first);
    var found := held.table.Get(id);
    if found.None? {
      return Err(BadObject);
    }
    if fate.Precision().Some? {
      r := Coarsen(held, id, fate);
      ThinnedTwice(first, held.table.slots[..], first);
      return;
    }
    var gone := held.EvictAndForget(id);
    r := match gone case Ok(_) => Ok(()) case Err(why) => Err(why);
  }

  // ----- one session -----

  /** Ids in no two slots. */
  ghost predicate UniqueIds(slots: seq<Slot>) {
    forall i, j :: 0 <= i < |slots| && 0 <= j < |slots| && SameId(slots[i], slots[j]) ==> i == j
  }

  /** An id gone from its slot is gone from the table. */
  lemma GoneFromSlot(first: seq<Slot>, now: seq<Slot>, contents: map<ObjectId, Meta>, i: nat)
    requires Represents(now, contents) && Thinned(first, now) && UniqueIds(first)
    requires i < |first| && first[i].Live? && !now[i].Live?
    ensures first[i].id !in contents
  {
    hide NoVacancyBefore;
    forall j | 0 <= j < |now| && now[j].Live? ensures now[j].id != first[i].id {
      assert SameId(first[j], first[i]) ==> j == i;
    }
  }

  lemma SlotIsEntry(now: seq<Slot>, contents: map<ObjectId, Meta>, i: nat)
    requires Represents(now, contents) && i < |now| && now[i].Live?
    ensures now[i].id in contents && contents[now[i].id] == now[i].meta
  {}

  /** One turn of the walk over ids, in the table or gone. */
  lemma WalkTurn(s: K.State, shape: Shape, owner: SessionId, rung: Rung, blocks: nat, first: Slot, rest: seq<ObjectId>,
                 coarsest: Precision)
    requires K.Counted(s)
    ensures var order := if first.Live? then [first.id] + rest else rest;
      Rewrites(s, shape, owner, rung, blocks, order, coarsest) ==
        if !first.Live? || !OwnBlock(s, first.id, owner) then Rewrites(s, shape, owner, rung, blocks, rest, coarsest)
        else
          var fate := shape.FateOf(rung, TensorOf(first.id), blocks);
          var (t, done) := SqueezeModel.Rewrite(s, first.id, fate);
          var (u, worst, smooth) :=
            Rewrites(t, shape, owner, rung, blocks, rest, if done.Ok? then Coarser(coarsest, fate) else coarsest);
          (u, worst, smooth && done.Ok?)
  {
    hide SqueezeModel.Rewrite, Coarser;
    if first.Live? { assert ([first.id] + rest)[1..] == rest; }
  }

  /** What is left of a cache that may be walked: every account kept, no block
      past the rung. */
  ghost predicate Walkable(c: Cache, s: K.State, who: Session, to: Rung) {
    K.Counted(s) && Conserved(s) && Behind(c, who, to, s.objects)
  }

  lemma WalkableTurn(c: Cache, s: K.State, who: Session, to: Rung, id: ObjectId)
    requires Walkable(c, s, who, to) && OwnBlock(s, id, who.id)
    ensures var fate := FateOn(c, who, to, id);
      && (fate.Precision().Some? ==> 0 < Resized(s.objects[id], fate))
      && Walkable(c, SqueezeModel.Rewrite(s, id, fate).0, who, to)
  {
    hide Charged, Behind, SqueezeModel.Rewrite, Resized, FateOn;
    WalkOne(c, s, who, to, id);
    if FateOn(c, who, to, id).Precision().Some? { LadderRuns.BlockSized(c, s, who, to, id); }
  }

  /** One slot of the walk: rewrites what it holds if it is the session's
      block, and keeps the coarsest precision left. */
  method RewriteAt(held: Manager, ghost c: Cache, shape: Shape, who: Session, to: Rung, slot: nat, coarsest: Precision,
                   ghost first: seq<Slot>, ghost rest: seq<ObjectId>)
    returns (worst: Precision, ghost calm: bool)
    requires held.Valid() && c.shape == shape && Walkable(c, held.View(), who, to)
    requires slot < held.table.slots.Length && Thinned(first, held.table.slots[..]) && UniqueIds(first)
    modifies held.Footprint()
    ensures held.Valid() && held.policy == old(held.policy) && Walkable(c, held.View(), who, to)
    ensures Thinned(first, held.table.slots[..])
    ensures var order := if first[slot].Live? then [first[slot].id] + rest else rest;
      var blocks := shape.Blocks(who.contract.context);
      var (u, last, smooth) := Rewrites(held.View(), shape, who.id, to, blocks, rest, worst);
      Rewrites(old(held.View()), shape, who.id, to, blocks, order, coarsest) == (u, last, smooth && calm)
  {
    hide Extents, Represents, Region.Valid, Decodes, Rewrites, SqueezeModel.Rewrite, Walkable, Resized, UniqueIds;
    var blocks := shape.Blocks(who.contract.context);
    ghost var now := held.table.slots[..];
    WalkTurn(held.View(), shape, who.id, to, blocks, first[slot], rest, coarsest);
    worst, calm := coarsest, true;
    var entry := held.table.slots[slot];
    if !entry.Live? {
      if first[slot].Live? { GoneFromSlot(first, now, held.table.contents, slot); }
      return;
    }
    SlotIsEntry(now, held.table.contents, slot);
    if entry.meta.owner == who.id && ClassOf(entry.id) == Some(KvBlock) {
      var fate := shape.FateOf(to, TensorOf(entry.id), blocks);
      WalkableTurn(c, held.View(), who, to, entry.id);
      var done := Rewrite(held, entry.id, fate);
      ThinnedTwice(first, now, held.table.slots[..]);
      calm := done.Ok?;
      if done.Ok? && fate.Precision().Some? && fate.Precision().value.Rank() > coarsest.Rank() {
        worst := fate.Precision().value;
      }
    }
  }

  /** Ids in slot order, one slot more. */
  lemma IdsStep(slots: seq<Slot>, slot: nat)
    requires slot < |slots|
    ensures IdsFrom(slots, slot) == if slots[slot].Live? then [slots[slot].id] + IdsFrom(slots, slot + 1) else IdsFrom(slots, slot + 1)
  {}

  lemma RewritesDone(s: K.State, shape: Shape, owner: SessionId, rung: Rung, blocks: nat, coarsest: Precision)
    requires K.Counted(s)
    ensures Rewrites(s, shape, owner, rung, blocks, [], coarsest) == (s, coarsest, true)
  {}

  /** One session's move: the walk over the table rewrites its blocks for
      `to`, and its record follows. `first` is the table as the walk began with
      it, and `calm` says nothing was refused. */
  method StepDown(held: Manager, ghost c: Cache, shape: Shape, who: Session, to: Rung, ghost first: seq<Slot>)
    returns (read: nat, ghost calm: bool)
    requires held.Valid() && c.shape == shape && Walkable(c, held.View(), who, to)
    requires Thinned(first, held.table.slots[..]) && UniqueIds(first)
    modifies held.Footprint()
    ensures held.Valid() && held.policy == old(held.policy) && Thinned(first, held.table.slots[..])
    ensures (held.View(), read, calm) == SqueezeModel.Step(old(held.View()), shape, who, to, IdsFrom(first, 0))
  {
    hide Extents, Represents, Region.Valid, Decodes, Rewrites, Walkable, UniqueIds, Thinned, IdsFrom, FindAt;
    var blocks, coarsest := shape.Blocks(who.contract.context), who.delivered.coarsest;
    ghost var all := Rewrites(held.View(), shape, who.id, to, blocks, IdsFrom(first, 0), coarsest);
    calm := true;
    ThinnedLength(first, held.table.slots[..]);
    for slot := 0 to held.table.slots.Length
      invariant held.Valid() && held.policy == old(held.policy) && Walkable(c, held.View(), who, to)
      invariant Thinned(first, held.table.slots[..])
      invariant var (u, last, smooth) := Rewrites(held.View(), shape, who.id, to, blocks, IdsFrom(first, slot), coarsest);
        all == (u, last, smooth && calm)
    {
      ghost var smooth: bool;
      IdsStep(first, slot);
      coarsest, smooth := RewriteAt(held, c, shape, who, to, slot, coarsest, first, IdsFrom(first, slot + 1));
      calm := calm && smooth;
    }
    NoIds(first);
    RewritesDone(held.View(), shape, who.id, to, blocks, coarsest);
    read := shape.Cost(who.rung, to, who.contract.context, held.capacity.kvPerToken);
    var at := held.sessions.Find(who.id);
    if at.Some? {
      var live := held.sessions.slots[at.value].value;
      held.sessions.slots[at.value] := Some(live.(rung := to, delivered := live.delivered.(
        coarsest := coarsest,
        deepest := if to.Depth() > live.delivered.deepest.Depth() then to else live.delivered.deepest,
        recomputed := SatAdd(live.delivered.recomputed, read, U64_MAX))));
    }
  }

  lemma ThinnedLength(a: seq<Slot>, b: seq<Slot>)
    requires Thinned(a, b)
    ensures |a| == |b|
  {}

  lemma NoIds(slots: seq<Slot>)
    ensures IdsFrom(slots, |slots|) == []
  {}

  // ----- every session -----

  /** What a walk over every session needs of the manager, and keeps. */
  ghost predicate Ladderable(c: Cache, s: K.State, order: seq<ObjectId>) {
    Ready(s) && Conserved(s) && AllBehind(c, s) && Walked(s, order)
  }

  lemma LadderableStep(c: Cache, s: K.State, at: nat, to: Rung, order: seq<ObjectId>)
    requires Ladderable(c, s, order) && at < |s.sessions| && s.sessions[at].Some? && Movable(s.sessions[at].value, to)
    ensures Walkable(c, s, s.sessions[at].value, to)
    ensures Ladderable(c, SqueezeModel.Step(s, c.shape, s.sessions[at].value, to, order).0, order)
  {
    hide Charged, Behind, AllBehind, AllLaddered, SqueezeModel.Step;
    BehindAt(c, s, at, to);
    StepLadder(c, s, at, to, order);
    StepMoves(s, c.shape, at, to, order);
  }

  lemma LadderableCounted(c: Cache, s: K.State, order: seq<ObjectId>)
    requires Ladderable(c, s, order)
    ensures K.Counted(s) && Ready(s)
  {}

  /** One turn of the walk over slots, as the value has it. */
  lemma DeepenTurn(s: K.State, shape: Shape, rung: Rung, slot: nat, order: seq<ObjectId>)
    requires K.Counted(s) && slot < |s.sessions| <= MAX_SESSIONS
    ensures DeepenAll(s, shape, rung, slot, order) ==
      if s.sessions[slot].Some? && Movable(s.sessions[slot].value, rung) then
        var (t, read, smooth) := SqueezeModel.Step(s, shape, s.sessions[slot].value, rung, order);
        var (u, more, calm) := DeepenAll(t, shape, rung, slot + 1, order);
        (u, read + more, smooth && calm)
      else DeepenAll(s, shape, rung, slot + 1, order)
  {
    hide SqueezeModel.Step, Movable;
  }

  lemma DeepenDone(s: K.State, shape: Shape, rung: Rung, order: seq<ObjectId>)
    requires K.Counted(s)
    ensures DeepenAll(s, shape, rung, MAX_SESSIONS, order) == (s, 0, true)
  {}

  /** One slot: moves its session, if `rung` would. */
  method DeepenAt(held: Manager, ghost c: Cache, shape: Shape, rung: Rung, slot: nat, ghost first: seq<Slot>)
    returns (read: nat, ghost calm: bool)
    requires held.Valid() && c.shape == shape && Ladderable(c, held.View(), IdsFrom(first, 0)) && slot < MAX_SESSIONS
    requires Thinned(first, held.table.slots[..]) && UniqueIds(first)
    modifies held.Footprint()
    ensures held.Valid() && held.policy == old(held.policy) && Thinned(first, held.table.slots[..])
    ensures Ladderable(c, held.View(), IdsFrom(first, 0)) && K.Counted(old(held.View()))
    ensures var (u, more, smooth) := DeepenAll(held.View(), shape, rung, slot + 1, IdsFrom(first, 0));
      DeepenAll(old(held.View()), shape, rung, slot, IdsFrom(first, 0)) == (u, read + more, calm && smooth)
  {
    hide Extents, Represents, Region.Valid, Decodes, Ladderable, Walkable, UniqueIds, Thinned, IdsFrom, SqueezeModel.Step,
      Movable, DeepenAll;
    ghost var order := IdsFrom(first, 0);
    LadderableCounted(c, held.View(), order);
    DeepenTurn(held.View(), shape, rung, slot, order);
    read, calm := 0, true;
    var session := held.sessions.slots[slot];
    if session.Some? && Movable(session.value, rung) {
      LadderableStep(c, held.View(), slot, rung, order);
      read, calm := StepDown(held, c, shape, session.value, rung, first);
    }
  }

  /** One pass over the session slots: who may go to `rung` is put there. */
  method DeepenEach(held: Manager, ghost c: Cache, shape: Shape, rung: Rung, ghost first: seq<Slot>)
    returns (read: nat, ghost calm: bool)
    requires held.Valid() && c.shape == shape && Ladderable(c, held.View(), IdsFrom(first, 0))
    requires Thinned(first, held.table.slots[..]) && UniqueIds(first)
    modifies held.Footprint()
    ensures held.Valid() && held.policy == old(held.policy) && Thinned(first, held.table.slots[..])
    ensures (held.View(), read, calm) == DeepenAll(old(held.View()), shape, rung, 0, IdsFrom(first, 0))
    ensures Ladderable(c, held.View(), IdsFrom(first, 0))
  {
    hide Extents, Represents, Region.Valid, Decodes, Ladderable, UniqueIds, Thinned, IdsFrom, DeepenAll;
    ghost var order := IdsFrom(first, 0);
    LadderableCounted(c, held.View(), order);
    ghost var all := DeepenAll(held.View(), shape, rung, 0, order);
    read, calm := 0, true;
    for slot := 0 to MAX_SESSIONS
      invariant held.Valid() && held.policy == old(held.policy) && Thinned(first, held.table.slots[..])
      invariant Ladderable(c, held.View(), order)
      invariant var (u, more, smooth) := DeepenAll(held.View(), shape, rung, slot, order);
        all == (u, read + more, calm && smooth)
    {
      var moved;
      ghost var smooth: bool;
      moved, smooth := DeepenAt(held, c, shape, rung, slot, first);
      read := read + moved;
      calm := calm && smooth;
    }
    DeepenDone(held.View(), shape, rung, order);
  }

  // ----- the walk -----

  /** Ending a session meets the same objects, the ones gone left out. */
  lemma {:induction false} DestroyThinned(s: K.State, owner: SessionId, first: seq<Slot>, now: seq<Slot>, from: nat, evicted: nat)
    requires K.Counted(s) && Thinned(first, now) && from <= |first|
    requires forall i :: from <= i < |first| && first[i].Live? && !now[i].Live? ==> first[i].id !in s.objects
    ensures K.DestroyWalk(s, owner, IdsFrom(first, from), evicted) == K.DestroyWalk(s, owner, IdsFrom(now, from), evicted)
    decreases |first| - from
  {
    hide K.Evict;
    if from < |first| {
      if !first[from].Live? || !now[from].Live? {
        DestroyThinned(s, owner, first, now, from + 1, evicted);
      } else {
        var id := first[from].id;
        if id !in s.objects || s.objects[id].owner != owner || owner == 0 {
          DestroyThinned(s, owner, first, now, from + 1, evicted);
        } else if s.objects[id].Resident() {
          EvictKeys(s, id);
          var (t, r) := K.Evict(s, id);
          DestroyThinned(t.(objects := t.objects - {id}), owner, first, now, from + 1, evicted + 1);
        } else {
          DestroyThinned(s.(objects := s.objects - {id}), owner, first, now, from + 1, evicted);
        }
      }
    }
  }

  lemma EvictKeys(s: K.State, id: ObjectId)
    requires K.Counted(s)
    ensures K.Evict(s, id).0.objects.Keys == s.objects.Keys
  {}

  lemma DestroySame(s: K.State, owner: SessionId, first: seq<Slot>, now: seq<Slot>)
    requires K.Counted(s) && Represents(now, s.objects) && Thinned(first, now) && UniqueIds(first)
    ensures K.DestroySession(s, owner, IdsFrom(first, 0)) == K.DestroySession(s, owner, IdsFrom(now, 0))
  {
    hide Represents, UniqueIds, K.DestroyWalk;
    forall i | 0 <= i < |first| && first[i].Live? && !now[i].Live? ensures first[i].id !in s.objects {
      GoneFromSlot(first, now, s.objects, i);
    }
    DestroyThinned(s, owner, first, now, 0, 0);
  }

  /** Where a session was ended, or could not be. */
  lemma LadderableEnd(c: Cache, s: K.State, id: SessionId, order: seq<ObjectId>)
    requires Ladderable(c, s, order)
    ensures var (t, r) := K.DestroySession(s, id, order);
      r.Ok? ==> Ladderable(c, t, order) && Left(t.sessions) < Left(s.sessions)
  {
    hide Charged, AllBehind, AllLaddered, K.DestroySession, Left;
    DestroyLadder(c, s, id, order);
    if K.DestroySession(s, id, order).1.Ok? { DestroyFalls(s, id, order); }
  }

  lemma LadderableDeepen(c: Cache, s: K.State, rung: Rung, order: seq<ObjectId>)
    requires Ladderable(c, s, order) && Next(s.capacity, c.shape, s.sessions) == Deepen(rung)
    ensures Left(DeepenAll(s, c.shape, rung, 0, order).0.sessions) < Left(s.sessions)
  {
    hide Charged, AllBehind, DeepenAll, Left, Next;
    NextDeepens(s.capacity, c.shape, s.sessions, rung);
    DeepenFalls(s, c.shape, rung, order);
  }

  /** One turn of the loop of `squeeze`, as the value has it. */
  lemma SqueezeTurn(c: Cache, s: K.State, order: seq<ObjectId>, done: Squeezed)
    requires Ladderable(c, s, order)
    ensures K.Counted(s) && Ready(s)
    ensures var (u, last, smooth) := Squeeze(s, c.shape, order, done);
      match Next(s.capacity, c.shape, s.sessions)
      case Fits => (u, last) == (s, done.(fits := true))
      case Exhausted => (u, last) == (s, done.(reached := DeeperOf(done.reached, L6)))
      case Deepen(rung) =>
        var (t, read, calm) := DeepenAll(s, c.shape, rung, 0, order);
        && Ready(t)
        && var again := Squeeze(t, c.shape, order,
             done.(reached := DeeperOf(done.reached, rung), recomputed := done.recomputed + read));
           (u, last) == (again.0, again.1)
      case Terminate(id) =>
        var (t, r) := K.DestroySession(s, id, order);
        if r.Ok? then
          && Ready(t)
          && var again := Squeeze(t, c.shape, order,
               done.(reached := DeeperOf(done.reached, L7), terminated := done.terminated + 1));
             (u, last) == (again.0, again.1)
        else (u, last) == (t, done.(reached := DeeperOf(done.reached, L6)))
  {
    hide Charged, AllBehind, DeepenAll, K.DestroySession, Left, Next, DeeperOf;
    match Next(s.capacity, c.shape, s.sessions)
    case Fits =>
    case Exhausted =>
    case Deepen(rung) =>
      NextDeepens(s.capacity, c.shape, s.sessions, rung);
      DeepenFalls(s, c.shape, rung, order);
    case Terminate(id) =>
      if K.DestroySession(s, id, order).1.Ok? { DestroyFalls(s, id, order); }
  }

  /** The whole squeeze, on the manager: the new budget, then one move after
      another to the end. */
  method SqueezeDown(held: Manager, ghost c: Cache, shape: Shape, bytes: nat) returns (done: Squeezed)
    requires held.Valid() && c.shape == shape && Conserved(held.View()) && AllBehind(c, held.View())
    modifies held.Footprint()
    ensures held.Valid() && held.policy == old(held.policy)
    ensures Walked(old(held.View()), IdsFrom(old(held.table.slots[..]), 0))
    ensures Ready(old(held.View()))
    ensures var (t, last, smooth) := SqueezeTo(old(held.View()), shape, bytes, IdsFrom(old(held.table.slots[..]), 0));
      && held.View() == t && done == last && Conserved(t)
      && (smooth ==> AllBehind(c, t) && (AllLaddered(c, old(held.View())) ==> AllLaddered(c, t)))
  {
    hide Extents, Represents, Region.Valid, Decodes, Ladderable, UniqueIds, Thinned, IdsFrom, Squeeze, DeepenAll,
      K.DestroySession, Left, Next, Charged, AllBehind, AllLaddered, Walked;
    ghost var first := held.table.slots[..];
    ghost var order := IdsFrom(first, 0);
    MetLadderable(c, held.View(), first);
    FirstUnique(first, held.table.contents);
    ThinnedTwice(first, first, first);
    LadderableCapacity(c, held.View(), bytes, order);
    SqueezeToKeeps(c, held.View(), bytes, order);
    held.capacity := held.capacity.(bytes := bytes);
    ghost var all := Squeeze(held.View(), shape, order, UNSQUEEZED);
    done := UNSQUEEZED;
    while true
      invariant held.Valid() && held.policy == old(held.policy) && Thinned(first, held.table.slots[..])
      invariant Ladderable(c, held.View(), order) && Ready(held.View())
      invariant var (u, last, smooth) := Squeeze(held.View(), shape, order, done); all.0 == u && all.1 == last
      decreases Left(held.View().sessions)
    {
      ghost var s := held.View();
      SqueezeTurn(c, s, order, done);
      match Next(held.capacity, shape, held.sessions.slots[..]) {
        case Fits =>
          done := done.(fits := true);
          return;
        case Exhausted =>
          done := done.(reached := DeeperOf(done.reached, L6));
          return;
        case Deepen(rung) =>
          LadderableDeepen(c, s, rung, order);
          var read;
          ghost var calm: bool;
          read, calm := DeepenEach(held, c, shape, rung, first);
          done := done.(reached := DeeperOf(done.reached, rung), recomputed := done.recomputed + read);
        case Terminate(id) =>
          LadderableEnd(c, s, id, order);
          DestroySame(s, id, first, held.table.slots[..]);
          ghost var now := held.table.slots[..];
          var ended := held.DestroySession(id);
          ThinnedTwice(first, now, held.table.slots[..]);
          if ended.Err? {
            done := done.(reached := DeeperOf(done.reached, L6));
            return;
          }
          done := done.(reached := DeeperOf(done.reached, L7), terminated := done.terminated + 1);
      }
    }
  }

  /** A walk over the whole table is one the ladder can be run by. */
  lemma MetLadderable(c: Cache, s: K.State, slots: seq<Slot>)
    requires Represents(slots, s.objects) && Conserved(s) && AllBehind(c, s) && |s.sessions| <= MAX_SESSIONS
    ensures Ladderable(c, s, IdsFrom(slots, 0)) && Walked(s, IdsFrom(slots, 0))
  {
    hide Represents, AllBehind;
    WalkMeetsAll(slots, s.objects);
  }

  /** What the squeeze as a value keeps. */
  lemma SqueezeToKeeps(c: Cache, s: K.State, bytes: nat, order: seq<ObjectId>)
    requires Ladderable(c, s, order)
    ensures Ready(s)
    ensures var (t, last, smooth) := SqueezeTo(s, c.shape, bytes, order);
      Conserved(t) && (smooth ==> AllBehind(c, t) && (AllLaddered(c, s) ==> AllLaddered(c, t)))
  {
    hide Charged, AllBehind, AllLaddered, Squeeze;
    var asked := s.(capacity := s.capacity.(bytes := bytes));
    CapacityApart(c, s, asked);
    SqueezeLadder(c, asked, order, UNSQUEEZED);
  }

  lemma FirstUnique(slots: seq<Slot>, contents: map<ObjectId, Meta>)
    requires Represents(slots, contents)
    ensures UniqueIds(slots)
  {}

  lemma LadderableCapacity(c: Cache, s: K.State, bytes: nat, order: seq<ObjectId>)
    requires Ladderable(c, s, order)
    ensures Ready(s)
    ensures Ladderable(c, s.(capacity := s.capacity.(bytes := bytes)), order)
    ensures Ready(s.(capacity := s.capacity.(bytes := bytes)))
  {
    hide Charged, AllBehind;
    CapacityApart(c, s, s.(capacity := s.capacity.(bytes := bytes)));
  }
}
