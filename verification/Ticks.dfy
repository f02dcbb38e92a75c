/** Two clocks in the table against two lists a conventional kernel would
    keep: arrival order for FIFO, recency for LRU. */
module Ticks {
  import opened Basics
  import opened Abi
  import opened MetaModel
  import opened SessionModel
  import opened PolicyModel
  import opened Kernel
  import opened Conservation
  import opened Runs

  /** The clock a rule reads. */
  function TickOf(rule: Rule, m: Meta): nat { if rule == Fifo then m.placedTick else m.usedTick }

  /** Each id's tick is below every later one's. */
  ghost predicate Rising(rule: Rule, objects: Objects, order: seq<ObjectId>) {
    order != [] ==>
      && order[0] in objects
      && (forall id :: id in order[1..] ==> id in objects && TickOf(rule, objects[order[0]]) < TickOf(rule, objects[id]))
      && Rising(rule, objects, order[1..])
  }

  /** `order` is the list a rule stands for: exactly the residents, once
      each, by strictly rising tick, none of them later than `clock`. */
  ghost predicate Lists(rule: Rule, objects: Objects, clock: nat, order: seq<ObjectId>) {
    && (forall id :: id in order <==> id in ResidentIds(objects))
    && Rising(rule, objects, order)
    && forall id :: id in order ==> objects[id].placedTick <= objects[id].usedTick <= clock
  }

  /** The list without what is no longer resident. */
  ghost function Kept(order: seq<ObjectId>, objects: Objects): (k: seq<ObjectId>)
    ensures forall id :: id in k <==> id in order && id in ResidentIds(objects)
  {
    if order == [] then []
    else if order[0] in ResidentIds(objects) then [order[0]] + Kept(order[1..], objects)
    else Kept(order[1..], objects)
  }

  ghost function Without(order: seq<ObjectId>, gone: ObjectId): (k: seq<ObjectId>)
    ensures forall id :: id in k <==> id in order && id != gone
  {
    if order == [] then []
    else if order[0] != gone then [order[0]] + Without(order[1..], gone)
    else Without(order[1..], gone)
  }

  /** Some residents gone, the rest with their ticks as they were. */
  ghost predicate Fewer(objects: Objects, after: Objects) {
    forall id :: id in ResidentIds(after) ==> Stayed(objects, after, id)
  }

  /** A resident then and now, its ticks unmoved. */
  ghost predicate Stayed(objects: Objects, after: Objects, id: ObjectId)
    requires id in after
  {
    && id in ResidentIds(objects)
    && after[id].placedTick == objects[id].placedTick && after[id].usedTick == objects[id].usedTick
  }

  lemma {:induction false} KeptRises(rule: Rule, objects: Objects, after: Objects, order: seq<ObjectId>)
    requires (forall id :: id in order ==> id in ResidentIds(objects)) && Rising(rule, objects, order)
    requires Fewer(objects, after)
    ensures Rising(rule, after, Kept(order, after))
  {
    if order != [] {
      KeptRises(rule, objects, after, order[1..]);
      if order[0] in ResidentIds(after) {
        assert ([order[0]] + Kept(order[1..], after))[1..] == Kept(order[1..], after);
      }
    }
  }

  lemma KeptLists(rule: Rule, objects: Objects, after: Objects, clock: nat, order: seq<ObjectId>)
    requires Lists(rule, objects, clock, order) && Fewer(objects, after)
    ensures Lists(rule, after, clock, Kept(order, after))
  {
    KeptRises(rule, objects, after, order);
  }

  /** An object whose tick has just become the latest goes to the end. */
  lemma {:induction false} LatestRises(rule: Rule, objects: Objects, after: Objects, order: seq<ObjectId>, id: ObjectId)
    requires (forall k :: k in order ==> k in objects) && Rising(rule, objects, order)
    requires id in after && forall k :: k in order && k != id ==>
      k in after && TickOf(rule, after[k]) == TickOf(rule, objects[k]) < TickOf(rule, after[id])
    ensures Rising(rule, after, Without(order, id) + [id])
  {
    var k := Without(order, id);
    if order == [] {
      assert k + [id] == [id];
    } else {
      LatestRises(rule, objects, after, order[1..], id);
      if order[0] != id {
        assert (k + [id])[1..] == Without(order[1..], id) + [id];
      }
    }
  }

  /** A change that moves no tick a rule reads. */
  lemma {:induction false} SameRises(rule: Rule, objects: Objects, after: Objects, order: seq<ObjectId>)
    requires (forall k :: k in order ==> k in objects) && Rising(rule, objects, order)
    requires forall k :: k in order ==> k in after && TickOf(rule, after[k]) == TickOf(rule, objects[k])
    ensures Rising(rule, after, order)
  {
    if order != [] { SameRises(rule, objects, after, order[1..]); }
  }

  // ----- the list a rule stands for, step by step -----

  /** What one operation does to the list: an acquired object joins its end
      -- under LRU every time, under FIFO only when it has just arrived --
      and what is no longer resident leaves it. */
  ghost function NextList(rule: Rule, s: State, t: State, op: Op, order: seq<ObjectId>): seq<ObjectId> {
    if op.DoAcquire? && op.id in ResidentIds(t.objects) && (rule == Lru || op.id !in ResidentIds(s.objects))
      && (op.id in ResidentIds(s.objects) ==> t.objects != s.objects)
    then Without(Kept(order, t.objects), op.id) + [op.id]
    else Kept(order, t.objects)
  }

  lemma EvictFewer(s: State, id: ObjectId)
    requires Counted(s)
    ensures Fewer(s.objects, Evict(s, id).0.objects) && Evict(s, id).0.clock == s.clock
    ensures Evict(s, id).0.objects.Keys == s.objects.Keys
    ensures forall k :: k in s.objects && !s.objects[k].Resident() ==> Evict(s, id).0.objects[k] == s.objects[k]
  {}

  lemma {:induction false} MakeRoomFewer(s: State, pick: Pick, size: nat)
    requires Counted(s)
    ensures var t := MakeRoom(s, pick, size);
      && Fewer(s.objects, t.objects) && t.clock == s.clock && t.objects.Keys == s.objects.Keys
      && forall k :: k in s.objects && !s.objects[k].Resident() ==> t.objects[k] == s.objects[k]
    decreases |ResidentIds(s.objects)|
  {
    var v := pick(Residents(s.objects), s.clock, size);
    if !s.region.Fits(size) && v.Some? {
      EvictFewer(s, v.value);
      if Evict(s, v.value).1.Ok? {
        EvictShrinks(s, v.value);
        MakeRoomFewer(Evict(s, v.value).0, pick, size);
      }
    }
  }

  lemma {:induction false} DestroyWalkFewer(s: State, owner: SessionId, order: seq<ObjectId>, evicted: nat)
    requires Counted(s)
    ensures Fewer(s.objects, DestroyWalk(s, owner, order, evicted).0.objects)
    ensures DestroyWalk(s, owner, order, evicted).0.clock == s.clock
    decreases |order|
  {
    if order != [] {
      var id := order[0];
      if id !in s.objects || s.objects[id].owner != owner || owner == 0 {
        DestroyWalkFewer(s, owner, order[1..], evicted);
      } else if s.objects[id].Resident() {
        EvictFewer(s, id);
        var (t, r) := Evict(s, id);
        if r.Ok? {
          DestroyWalkFewer(t.(objects := t.objects - {id}), owner, order[1..], evicted + 1);
        }
      } else {
        DestroyWalkFewer(s.(objects := s.objects - {id}), owner, order[1..], evicted);
      }
    }
  }

  /** An acquire of a resident object moves at most that object's use tick. */
  lemma HitTicks(s: State, w: World, id: ObjectId, lease: Lease, wanted: NextUse)
    requires Counted(s) && s.clock < U32_MAX && id in ResidentIds(s.objects)
    ensures var t := Acquire(s, w, id, lease, wanted).0;
      && t.clock == s.clock + 1
      && ResidentIds(t.objects) == ResidentIds(s.objects)
      && (t.objects == s.objects || t.objects == s.objects[id := Touched(s.objects[id], t.clock, lease, wanted)])
  {}

  /** A miss loses residents to make room and, if it is served, puts both of
      the arrival's ticks at this one. */
  ghost predicate Missed(s: State, t: State, id: ObjectId) {
    && t.clock == s.clock
    && Fewer(s.objects, t.objects - {id})
    && (id in ResidentIds(t.objects) ==> t.objects[id].placedTick == t.objects[id].usedTick == t.clock)
  }

  lemma MissTicks(s: State, w: World, id: ObjectId, lease: Lease, wanted: NextUse)
    requires Counted(s) && s.clock < U32_MAX && id !in ResidentIds(s.objects)
    ensures Missed(Tick(s), Acquire(s, w, id, lease, wanted).0, id)
  {
    var t := Tick(s);
    assert Missed(t, t, id);
    if id in s.objects {
      AdmitTicks(t, w, id, lease, wanted);
    }
  }

  lemma AdmitTicks(s: State, w: World, id: ObjectId, lease: Lease, wanted: NextUse)
    requires Counted(s) && id in s.objects && !s.objects[id].Resident()
    ensures Missed(s, Admit(s, w, id, lease, wanted).0, id)
  {
    var m := s.objects[id];
    var charged := Charge(s.sessions, m.owner, m.size, m.precision);
    if charged.Ok? {
      var paid := s.(sessions := charged.value);
      MakeRoomFewer(paid, w.pick, m.size);
      var roomy := MakeRoom(paid, w.pick, m.size);
      PlaceTicks(roomy, w, id, m.size, lease, wanted);
      var placed := Place(roomy, w, id, m.size, lease, wanted).0;
      assert placed.objects == Admit(s, w, id, lease, wanted).0.objects;
      assert placed.objects - {id} == roomy.objects - {id};
      forall k | k in ResidentIds(placed.objects - {id}) ensures Stayed(s.objects, placed.objects - {id}, k) {
        assert k in roomy.objects - {id} && k in ResidentIds(roomy.objects);
      }
    }
  }

  lemma PlaceTicks(s: State, w: World, id: ObjectId, size: nat, lease: Lease, wanted: NextUse)
    requires Counted(s) && id in s.objects && !s.objects[id].Resident()
    ensures var t := Place(s, w, id, size, lease, wanted).0;
      && t.clock == s.clock
      && t.objects - {id} == s.objects - {id}
      && (id in ResidentIds(t.objects) ==> t.objects[id].placedTick == t.objects[id].usedTick == t.clock)
  {}

  /** Every operation keeps the list. */
  lemma StepLists(rule: Rule, s: State, w: World, op: Op, order: seq<ObjectId>)
    requires Counted(s) && (rule == Fifo || rule == Lru) && s.clock < U32_MAX && Lawful(s, op)
    requires Lists(rule, s.objects, s.clock, order)
    ensures var t := Step(s, w, op);
      && s.clock <= t.clock <= s.clock + 1
      && Lists(rule, t.objects, t.clock, NextList(rule, s, t, op, order))
  {
    var t := Step(s, w, op);
    match op
    case DoAcquire(id, lease, wanted) => AcquireLists(rule, s, w, id, lease, wanted, order);
    case DoEvict(id) => EvictFewer(s, id); KeptLists(rule, s.objects, t.objects, s.clock, order);
    case DoDestroy(id, walk) => DestroyWalkFewer(s, id, walk, 0); KeptLists(rule, s.objects, t.objects, s.clock, order);
    case _ => KeptLists(rule, s.objects, t.objects, s.clock, order);
  }

  lemma {:induction false} KeptAll(order: seq<ObjectId>, objects: Objects)
    requires forall id :: id in order ==> id in ResidentIds(objects)
    ensures Kept(order, objects) == order
  {
    if order != [] { KeptAll(order[1..], objects); }
  }

  lemma AcquireLists(rule: Rule, s: State, w: World, id: ObjectId, lease: Lease, wanted: NextUse, order: seq<ObjectId>)
    requires Counted(s) && (rule == Fifo || rule == Lru) && s.clock < U32_MAX
    requires Lists(rule, s.objects, s.clock, order)
    ensures var t := Acquire(s, w, id, lease, wanted).0;
      t.clock == s.clock + 1 && Lists(rule, t.objects, t.clock, NextList(rule, s, t, DoAcquire(id, lease, wanted), order))
  {
    var t := Acquire(s, w, id, lease, wanted).0;
    if id in ResidentIds(s.objects) {
      HitTicks(s, w, id, lease, wanted);
      KeptAll(order, t.objects);
      if t.objects != s.objects && rule == Lru {
        LatestRises(rule, s.objects, t.objects, order, id);
      } else {
        SameRises(rule, s.objects, t.objects, order);
      }
    } else {
      MissTicks(s, w, id, lease, wanted);
      MissLists(rule, s, t, id, order);
    }
  }

  lemma MissLists(rule: Rule, s: State, t: State, id: ObjectId, order: seq<ObjectId>)
    requires (rule == Fifo || rule == Lru) && Lists(rule, s.objects, s.clock, order)
    requires id !in ResidentIds(s.objects) && s.clock < U32_MAX && Missed(Tick(s), t, id)
    ensures id in ResidentIds(t.objects) ==> Lists(rule, t.objects, t.clock, Without(Kept(order, t.objects), id) + [id])
    ensures id !in ResidentIds(t.objects) ==> Lists(rule, t.objects, t.clock, Kept(order, t.objects))
  {
    var without := t.objects - {id};
    assert ResidentIds(without) == ResidentIds(t.objects) - {id};
    var kept := Kept(order, t.objects);
    assert Lists(rule, without, s.clock, kept) by {
      KeptLists(rule, s.objects, without, s.clock, order);
      KeptSame(order, without, t.objects);
    }
    SameRises(rule, without, t.objects, kept);
    if id in ResidentIds(t.objects) {
      ArrivalLists(rule, t, id, kept);
    }
  }

  /** An arrival, its ticks later than every other's, joins the end. */
  lemma ArrivalLists(rule: Rule, t: State, id: ObjectId, kept: seq<ObjectId>)
    requires (rule == Fifo || rule == Lru) && Rising(rule, t.objects, kept)
    requires id in ResidentIds(t.objects) && t.objects[id].placedTick == t.objects[id].usedTick == t.clock
    requires forall k :: k in kept <==> k in ResidentIds(t.objects) && k != id
    requires forall k :: k in kept ==> t.objects[k].placedTick <= t.objects[k].usedTick < t.clock
    ensures Lists(rule, t.objects, t.clock, Without(kept, id) + [id])
  {
    LatestRises(rule, t.objects, t.objects, kept, id);
  }

  lemma {:induction false} KeptSame(order: seq<ObjectId>, a: Objects, b: Objects)
    requires forall id :: id in order ==> (id in ResidentIds(a) <==> id in ResidentIds(b))
    ensures Kept(order, a) == Kept(order, b)
  {
    if order != [] { KeptSame(order[1..], a, b); }
  }

  // ----- what the list decides -----

  /** The victim a rule finds by scanning ticks is the head of its list, and
      no other resident has that tick: the tie-break never fires. */
  lemma VictimIsHead(rule: Rule, objects: Objects, clock: nat, order: seq<ObjectId>, now: nat)
    requires (rule == Fifo || rule == Lru) && Lists(rule, objects, clock, order)
    ensures order == [] ==> Victim(rule, Residents(objects), now) == None
    ensures order != [] ==> Victim(rule, Residents(objects), now) == Some(order[0])
    ensures order != [] ==> forall id :: id in ResidentIds(objects) && id != order[0] ==>
      TickOf(rule, objects[id]) > TickOf(rule, objects[order[0]])
  {
    var w := Residents(objects);
    if order == [] {
      assert forall id :: id in w ==> id in ResidentIds(objects);
      assert w == map[];
    } else {
      assert order[0] in ResidentIds(objects);
      forall id | id in w && id != order[0] ensures TickOf(rule, objects[id]) > TickOf(rule, objects[order[0]]) {
        assert id in ResidentIds(objects);
        assert id in order[1..];
      }
      BestIsVictim(rule, w, now, order[0]);
    }
  }

  /** Making room under FIFO or LRU drops a prefix of the rule's list. */
  lemma {:induction false} MakeRoomDropsPrefix(rule: Rule, s: State, size: nat, order: seq<ObjectId>)
    returns (n: nat)
    requires Counted(s) && (rule == Fifo || rule == Lru) && Lists(rule, s.objects, s.clock, order)
    ensures n <= |order|
    ensures Lists(rule, MakeRoom(s, PickOf(rule), size).objects, s.clock, order[n..])
    decreases |ResidentIds(s.objects)|
  {
    hide Lists, Evict;
    n := 0;
    assert order[0..] == order;
    HeadIsPicked(rule, s, size, order);
    if !s.region.Fits(size) && order != [] {
      EvictHead(rule, s, order);
      if Evict(s, order[0]).1.Ok? {
        EvictShrinks(s, order[0]);
        var rest := MakeRoomDropsPrefix(rule, Evict(s, order[0]).0, size, order[1..]);
        n := rest + 1;
        assert order[1..][rest..] == order[n..];
      }
    }
  }

  lemma HeadIsPicked(rule: Rule, s: State, size: nat, order: seq<ObjectId>)
    requires (rule == Fifo || rule == Lru) && Lists(rule, s.objects, s.clock, order)
    ensures PickOf(rule)(Residents(s.objects), s.clock, size) == if order == [] then None else Some(order[0])
  {
    VictimIsHead(rule, s.objects, s.clock, order, s.clock);
  }

  lemma EvictHead(rule: Rule, s: State, order: seq<ObjectId>)
    requires Counted(s) && (rule == Fifo || rule == Lru) && Lists(rule, s.objects, s.clock, order) && order != []
    ensures var (t, r) := Evict(s, order[0]);
      t.clock == s.clock && (if r.Ok? then Lists(rule, t.objects, t.clock, order[1..]) else t.objects == s.objects)
  {
    var (t, r) := Evict(s, order[0]);
    if r.Ok? {
      EvictShrinks(s, order[0]);
      assert order[0] !in order[1..];
      assert forall id :: id in order <==> id == order[0] || id in order[1..];
      SameRises(rule, s.objects, t.objects, order[1..]);
    }
  }

  /** What the list rule makes of a list over a run. */
  ghost function ListAfter(rule: Rule, s: State, ops: seq<(World, Op)>, order: seq<ObjectId>): seq<ObjectId>
    requires Counted(s)
    decreases |ops|
  {
    if ops == [] then order
    else
      var t := Step(s, ops[0].0, ops[0].1);
      ListAfter(rule, t, ops[1..], NextList(rule, s, t, ops[0].1, order))
  }

  /** Over every run short of clock saturation both clocks stand for their
      lists, operation by operation: every resident has its own placed tick and its own used tick,
      and each scan's victim is the head of the list. */
  lemma {:induction false} EveryRunLists(rule: Rule, s: State, ops: seq<(World, Op)>, order: seq<ObjectId>)
    requires Counted(s) && (rule == Fifo || rule == Lru) && s.clock + |ops| <= U32_MAX && LawfulRun(s, ops)
    requires Lists(rule, s.objects, s.clock, order)
    ensures var t, after := Run(s, ops), ListAfter(rule, s, ops, order);
      && Lists(rule, t.objects, t.clock, after)
      && Victim(rule, Residents(t.objects), t.clock) == (if after == [] then None else Some(after[0]))
    decreases |ops|
  {
    if ops == [] {
      VictimIsHead(rule, s.objects, s.clock, order, s.clock);
    } else {
      StepLists(rule, s, ops[0].0, ops[0].1, order);
      var t := Step(s, ops[0].0, ops[0].1);
      EveryRunLists(rule, t, ops[1..], NextList(rule, s, t, ops[0].1, order));
    }
  }

  /** An empty manager stands for the empty lists. */
  lemma StartLists(rule: Rule, base: nat, bytes: nat)
    ensures Lists(rule, Start(base, bytes).objects, 0, [])
  {}
}
