/** Belady's rule on a uniform arena: next-use reads no more than any policy
    that always names a resident, exactly while one recovery costs no more
    than the fixed-point scale. */
module Belady {
  import opened Basics
  import opened Abi
  import opened MetaModel
  import opened Holes
  import opened ArenaModel
  import opened PolicyModel
  import opened StreamModel
  import opened Conservation
  import opened Cache
  import opened Foresight
  import opened Uniform
  import S = Simulation

  type Model = ObjectId -> Option<Meta>

  /** Every object of the trace has this size and this recovery cost, and
      nobody else holding it. */
  ghost predicate Equal(model: Model, objects: seq<ObjectId>, size: nat, cost: nat) {
    forall id :: id in objects ==> Sized(model, id, size) && Recovers(model(id).value, cost)
  }

  predicate Sized(model: Model, id: ObjectId, size: nat) { model(id).Some? && model(id).value.size == size }

  predicate Recovers(m: Meta, cost: nat) { m.shareCount <= 1 && cost == Max(Min(m.reloadCost, m.recomputeCost), 1) }

  /** The resident set is a cache of `k` slots. */
  ghost predicate Cached(r: S.Residence, size: nat, k: nat) {
    size > 0 && Slotted(r, size) && Slots(r.region.capacity, size) == k
  }

  // ----- one access on a cache of slots -----

  lemma Moved(r: S.Residence, size: nat, k: nat, now: nat)
    requires Cached(r, size, k)
    ensures Cached(r.(cursor := now), size, k)
  {}

  lemma HitSlots(r: S.Residence, id: ObjectId, size: nat, k: nat, now: nat, next: NextUse)
    requires Cached(r, size, k) && id in r.held
    ensures var s := S.Touch(r, id, now, next).0; Cached(s, size, k) && s.held.Keys == r.held.Keys
  {
    LayoutSame(r.region, r.held, id, S.Touch(r, id, now, next).0.held[id]);
  }

  lemma FillSlots(r: S.Residence, pick: Pick, id: ObjectId, meta: Meta, k: nat, now: nat, next: NextUse, out: S.Outcome)
    requires Cached(r, meta.size, k) && AlwaysNames(pick) && id !in r.held && |r.held| < k
    ensures var (s, o) := S.Fetch(r, out, pick, id, meta, now, next);
      Cached(s, meta.size, k) && s.held.Keys == r.held.Keys + {id} && o.fetches == out.fetches + 1
  {
    hide Slotted, S.MakeRoom, S.Insert, AlwaysNames;
    MakeRoomSlots(r, pick, meta.size);
    InsertSlots(r, id, meta, now, next);
  }

  /** A miss on a full cache evicts what the policy names, and nothing else. */
  lemma ExchangeSlots(r: S.Residence, pick: Pick, id: ObjectId, meta: Meta, k: nat, now: nat, next: NextUse, out: S.Outcome)
    requires Cached(r, meta.size, k) && AlwaysNames(pick) && id !in r.held && |r.held| >= k > 0
    ensures var (s, o) := S.Fetch(r, out, pick, id, meta, now, next);
      var v := pick(S.Window(r.held), r.cursor, meta.size);
      && v.Some? && v.value in r.held && Cached(s, meta.size, k)
      && s.held.Keys == Exchange(r.held.Keys, v.value, id) && o.fetches == out.fetches + 1
  {
    hide Slotted, S.MakeRoom, S.Insert, AlwaysNames;
    SlotsExactly(r, meta.size);
    MakeRoomSlots(r, pick, meta.size);
    var v := pick(S.Window(r.held), r.cursor, meta.size).value;
    S.RemoveShrinks(r, v);
    InsertSlots(S.Remove(r, v).value, id, meta, now, next);
  }

  /** A budget below one slot refuses everything. */
  lemma RefuseSlots(r: S.Residence, pick: Pick, id: ObjectId, meta: Meta, now: nat, next: NextUse, out: S.Outcome)
    requires Cached(r, meta.size, 0) && id !in r.held
    ensures var (s, o) := S.Fetch(r, out, pick, id, meta, now, next);
      Cached(s, meta.size, 0) && s.held.Keys == r.held.Keys && o.fetches == out.fetches
  {
    SlotsExactly(r, meta.size);
    PlaceFailsExactly(r.region, meta.size);
    assert r.held == map[];
    Moved(r, meta.size, 0, now);
  }

  /** One access: a hit changes nothing but the ticks, a miss takes a free
      slot or the victim's. */
  lemma StepCache(r: S.Residence, out: S.Outcome, run: S.Setting, id: ObjectId, now: nat, size: nat, k: nat)
    requires Cached(r, size, k) && AlwaysNames(run.pick) && Sized(run.model, id, size)
    ensures var (s, o) := S.Step(r, out, run, id, now);
      && Cached(s, size, k)
      && (id in r.held || k == 0 ==> s.held.Keys == r.held.Keys && o.fetches == out.fetches)
      && (id !in r.held && |r.held| < k ==> s.held.Keys == r.held.Keys + {id} && o.fetches == out.fetches + 1)
      && (id !in r.held && |r.held| >= k > 0 ==>
            var v := run.pick(S.Window(r.held), now, size);
            && v.Some? && v.value in r.held
            && s.held.Keys == Exchange(r.held.Keys, v.value, id) && o.fetches == out.fetches + 1)
  {
    hide Cached, S.Fetch, AlwaysNames, Exchange;
    var next := S.WantedAt(run.next, now);
    var meta := run.model(id).value;
    var c := r.(cursor := now);
    Moved(r, size, k, now);
    if id in r.held {
      HitSlots(r, id, size, k, now, next);
    } else if |r.held| < k {
      FillSlots(c, run.pick, id, meta, k, now, next, out);
    } else if k > 0 {
      ExchangeSlots(c, run.pick, id, meta, k, now, next, out);
    } else {
      RefuseSlots(c, run.pick, id, meta, now, next, out);
    }
  }

  /** An empty arena is a cache with nothing in it. */
  lemma StartCached(size: nat, base: nat, budget: nat)
    requires size > 0 && base > 0
    ensures Cached(S.Nothing(base, budget), size, Slots(budget, size))
  {
    EmptyValid(base, budget);
    forall b | 0 <= b < budget ensures Free(Empty(base, budget).free, b) {}
  }

  // ----- any policy's reads serve the trace -----

  ghost predicate AllSized(model: Model, objects: seq<ObjectId>, size: nat) {
    forall i :: 0 <= i < |objects| ==> Sized(model, objects[i], size)
  }

  /** Whatever a policy that always names a resident evicts, its reads are
      reads that serve the trace. */
  lemma {:induction false} AnyServes(r: S.Residence, out: S.Outcome, run: S.Setting, objects: seq<ObjectId>, at: nat,
                                     size: nat, k: nat)
    requires Cached(r, size, k) && k > 0 && AlwaysNames(run.pick) && AllSized(run.model, objects, size)
    ensures var o := S.ReplayFrom(r, out, run, objects, at).1;
      out.fetches <= o.fetches && CanServe(r.held.Keys, k, objects, at, o.fetches - out.fetches)
    decreases |objects| - at
  {
    hide Cached, S.Step, AlwaysNames, Exchange, CanServe;
    var n := S.ReplayFrom(r, out, run, objects, at).1.fetches;
    if at >= |objects| {
      DoneServes(r.held.Keys, k, objects, at, 0);
    } else {
      var id := objects[at];
      StepCache(r, out, run, id, at + 1, size, k);
      var (s, o) := S.Step(r, out, run, id, at + 1);
      AnyServes(s, o, run, objects, at + 1, size, k);
      if id in r.held {
        HitServes(r.held.Keys, k, objects, at, n - out.fetches);
      } else if |r.held.Keys| < k {
        FillServes(r.held.Keys, k, objects, at, n - out.fetches);
      } else {
        var v := run.pick(S.Window(r.held), at + 1, size).value;
        MissServes(r.held.Keys, k, objects, at, n - out.fetches, v);
      }
    }
  }

  /** A budget below one slot reads nothing, whatever the policy. */
  lemma {:induction false} NoSlots(r: S.Residence, out: S.Outcome, run: S.Setting, objects: seq<ObjectId>, at: nat, size: nat)
    requires Cached(r, size, 0) && AlwaysNames(run.pick) && AllSized(run.model, objects, size)
    ensures S.ReplayFrom(r, out, run, objects, at).1.fetches == out.fetches
    decreases |objects| - at
  {
    hide Cached, S.Step, AlwaysNames;
    if at < |objects| {
      StepCache(r, out, run, objects[at], at + 1, size, 0);
      var (s, o) := S.Step(r, out, run, objects[at], at + 1);
      NoSlots(s, o, run, objects, at + 1, size);
    }
  }

  // ----- next-use names the furthest -----

  /** Every resident recovers at the same cost, held by nobody else. */
  ghost predicate Alike(r: S.Residence, cost: nat) {
    forall id :: id in r.held ==> Recovers(r.held[id], cost)
  }

  /** Dividing by a cost no larger than the scale merges no two distances. */
  lemma ScaleTells(d: nat, e: nat, cost: nat)
    requires 0 < cost <= SCALE && d < e
    ensures d * SCALE / cost < e * SCALE / cost
  {
    MulOrder(d, e, SCALE);
    QuotientsApart(d * SCALE, e * SCALE, cost);
  }

  lemma QuotientsApart(a: nat, b: nat, w: nat)
    requires w > 0 && a + w <= b
    ensures a / w < b / w
  {
    var p, q := a / w, b / w;
    DivFloor(a, w);
    DivFloor(b, w);
    if q < p { MulOrder(q, p, w); }
  }

  /** How far away the next access of `id` is at tick `at + 1`. */
  function Away(objects: seq<ObjectId>, id: ObjectId, at: nat): nat {
    match FirstFrom(objects, id, at + 1)
    case None => UNDECLARED
    case Some(p) => p - at
  }

  /** A truthful resident's evictability is its distance over its cost,
      nothing saturating. */
  lemma EvictabilityIsDistance(r: S.Residence, objects: seq<ObjectId>, at: nat, id: ObjectId, cost: nat)
    requires Truthful(r, objects, at) && Alike(r, cost) && cost > 0 && id in r.held
    requires at < |objects| < U32_MAX && objects[at] != id
    ensures cost <= U64_MAX ==> Evictability(See(r.held[id]), at + 1) == Away(objects, id, at) * SCALE / cost
    ensures Away(objects, id, at) <= UNDECLARED
  {
    assert Recovers(r.held[id], cost);
    assert FirstFrom(objects, id, at) == FirstFrom(objects, id, at + 1);
    assert Horizon(r.held[id].nextUse, at + 1) == Away(objects, id, at);
  }

  /** The victim next-use names is the one wanted furthest away. */
  lemma BestIsFurthest(r: S.Residence, objects: seq<ObjectId>, at: nat, v: ObjectId, cost: nat)
    requires Truthful(r, objects, at) && Alike(r, cost) && 0 < cost <= SCALE
    requires at < |objects| < U32_MAX && objects[at] !in r.held
    requires IsBest(KnownNextUse, S.Window(r.held), at + 1, v)
    ensures Furthest(r.held.Keys, objects, at + 1, v)
  {
    hide Evictability, Away;
    EvictabilityIsDistance(r, objects, at, v, cost);
    forall c | c in r.held.Keys ensures NoSooner(objects, at + 1, v, c) {
      EvictabilityIsDistance(r, objects, at, c, cost);
      assert Before(KnownNextUse, at + 1, v, S.Window(r.held)[v], c, S.Window(r.held)[c]);
      var d, e := Away(objects, v, at), Away(objects, c, at);
      if d < e { ScaleTells(d, e, cost); }
      assert d >= e;
      FurtherIsNoSooner(objects, at, v, c);
    }
  }

  lemma FurtherIsNoSooner(objects: seq<ObjectId>, at: nat, v: ObjectId, c: ObjectId)
    requires at < |objects| < U32_MAX && Away(objects, v, at) >= Away(objects, c, at)
    ensures NoSooner(objects, at + 1, v, c)
  {}

  lemma VictimIsFurthest(r: S.Residence, objects: seq<ObjectId>, at: nat, size: nat, cost: nat)
    requires Truthful(r, objects, at) && Alike(r, cost) && 0 < cost <= SCALE
    requires at < |objects| < U32_MAX && objects[at] !in r.held && r.held != map[]
    ensures var v := PickOf(KnownNextUse)(S.Window(r.held), at + 1, size);
      v.Some? && Furthest(r.held.Keys, objects, at + 1, v.value)
  {
    var w := S.Window(r.held);
    var k :| k in r.held;
    assert k in w;
    var v := Victim(KnownNextUse, w, at + 1).value;
    BestExists(KnownNextUse, w, at + 1);
    var id :| IsBest(KnownNextUse, w, at + 1, id);
    BestIsVictim(KnownNextUse, w, at + 1, id);
    BestIsFurthest(r, objects, at, id, cost);
  }

  lemma StepAlike(r: S.Residence, out: S.Outcome, run: S.Setting, id: ObjectId, now: nat, cost: nat)
    requires Alike(r, cost) && run.model(id).Some? && Recovers(run.model(id).value, cost)
    ensures Alike(S.Step(r, out, run, id, now).0, cost)
  {
    hide S.MakeRoom, S.WantedAt;
    if id !in r.held {
      MakeRoomFewer(r.(cursor := now), run.pick, run.model(id).value.size);
    }
  }

  // ----- the theorem -----

  /** Next-use serves the trace in as few reads as any sequence of victims. */
  lemma {:induction false} NextUseServes(r: S.Residence, out: S.Outcome, run: S.Setting, objects: seq<ObjectId>, at: nat,
                                         size: nat, k: nat, cost: nat, n: nat)
    requires Cached(r, size, k) && k > 0 && AllSized(run.model, objects, size) && Equal(run.model, objects, size, cost)
    requires run.pick == PickOf(KnownNextUse) && 0 < cost <= SCALE
    requires Chained(objects, run.next) && |objects| < U32_MAX && Truthful(r, objects, at) && Alike(r, cost)
    requires CanServe(r.held.Keys, k, objects, at, n)
    ensures S.ReplayFrom(r, out, run, objects, at).1.fetches <= out.fetches + n
    decreases |objects| - at
  {
    hide Cached, S.Step, AlwaysNames, Exchange, CanServe, Truthful, Alike, Furthest, PickOf, Chained;
    if at < |objects| {
      var id := objects[at];
      RulesName(KnownNextUse);
      StepCache(r, out, run, id, at + 1, size, k);
      StepTruthful(r, out, run, objects, at);
      StepAlike(r, out, run, id, at + 1, cost);
      FullSize(r, size, k);
      var (s, o) := S.Step(r, out, run, id, at + 1);
      if id in r.held {
        HitServes(r.held.Keys, k, objects, at, n);
        NextUseServes(s, o, run, objects, at + 1, size, k, cost, n);
      } else if |r.held.Keys| < k {
        FillServes(r.held.Keys, k, objects, at, n);
        NextUseServes(s, o, run, objects, at + 1, size, k, cost, n - 1);
      } else {
        VictimIsFurthest(r, objects, at, size, cost);
        var v := run.pick(S.Window(r.held), at + 1, size).value;
        FurthestIsBest(r.held.Keys, k, objects, at, n, v);
        NextUseServes(s, o, run, objects, at + 1, size, k, cost, n - 1);
      }
    }
  }

  lemma FullSize(r: S.Residence, size: nat, k: nat)
    requires Cached(r, size, k)
    ensures |r.held.Keys| == |r.held| <= k
  {
    SlotsExactly(r, size);
  }

  /** Next-use reads no more than this policy does, on this trace and budget. */
  ghost predicate NoWorse(model: Model, next: seq<nat>, pick: Pick, objects: seq<ObjectId>, base: nat, budget: nat) {
    S.Replay(S.Setting(model, PickOf(KnownNextUse), next), objects, base, budget).fetches
      <= S.Replay(S.Setting(model, pick, next), objects, base, budget).fetches
  }

  /** Belady: with one size, and one recovery cost no larger than the scale,
      next-use does no more provider reads on any trace and budget than any
      policy that always names a resident. */
  lemma NextUseIsOptimal(model: Model, next: seq<nat>, pick: Pick, objects: seq<ObjectId>, base: nat, budget: nat,
                         size: nat, cost: nat)
    requires AlwaysNames(pick) && Chained(objects, next) && |objects| < U32_MAX && base > 0
    requires Equal(model, objects, size, cost) && size > 0 && 0 < cost <= SCALE
    ensures NoWorse(model, next, pick, objects, base, budget)
  {
    var r, k := S.Nothing(base, budget), Slots(budget, size);
    var best, other := S.Setting(model, PickOf(KnownNextUse), next), S.Setting(model, pick, next);
    hide Equal, AllSized, Cached, Truthful, Alike, CanServe, PickOf, AlwaysNames, Chained, Slots, S.ReplayFrom;
    StartCached(size, base, budget);
    EqualSized(model, objects, size, cost);
    NothingYet(r, objects, cost);
    RulesName(KnownNextUse);
    if k == 0 {
      NoSlots(r, S.NOTHING, best, objects, 0, size);
      NoSlots(r, S.NOTHING, other, objects, 0, size);
    } else {
      AnyServes(r, S.NOTHING, other, objects, 0, size, k);
      NextUseServes(r, S.NOTHING, best, objects, 0, size, k, cost, S.Replay(other, objects, base, budget).fetches);
    }
  }

  lemma EqualSized(model: Model, objects: seq<ObjectId>, size: nat, cost: nat)
    requires Equal(model, objects, size, cost)
    ensures AllSized(model, objects, size)
  {}

  lemma NothingYet(r: S.Residence, objects: seq<ObjectId>, cost: nat)
    requires r.held == map[]
    ensures Truthful(r, objects, 0) && Alike(r, cost)
  {}
}
