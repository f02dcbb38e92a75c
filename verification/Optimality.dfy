/** The two theorems together: the kernel itself reads no more under next-use
    than under any policy that always names a resident. */
module Optimality {
  import opened Basics
  import opened Abi
  import opened MetaModel
  import opened PolicyModel
  import opened StreamModel
  import K = Kernel
  import S = Simulation
  import R = KernelReplay
  import Bisimulation
  import Belady
  import Misled

  /** What a fresh manager reads replaying a trace under a policy. */
  ghost function Fetches(k: K.State, vacant: nat, w: K.World, pick: Pick, model: ObjectId -> Meta, objects: seq<ObjectId>): nat
    requires K.Counted(k)
  {
    R.ReplayFrom(k, vacant, R.NOTHING, w.(pick := pick), model, objects, 0).1.fetches
  }

  /** On equal objects that recover at no more than the scale, the kernel's
      provider reads under next-use are the fewest there can be. */
  lemma KernelReadsFewest(k: K.State, objects: seq<ObjectId>, next: seq<nat>, w: K.World, pick: Pick,
                          model: ObjectId -> Meta, vacant: nat, budget: nat, base: nat, size: nat, cost: nat)
    requires k == K.Start(base, budget).(sessions := k.sessions) && base > 0 && Bisimulation.NoCeilings(k.sessions)
    requires |objects| < U32_MAX && Chained(objects, next) && |Distinct(objects, 0)| <= vacant
    requires forall id :: id in objects ==> Bisimulation.Served(w, model, id)
    requires AlwaysNames(pick) && size > 0 && 0 < cost <= SCALE
    requires Belady.Equal((id: ObjectId) => Some(model(id)), objects, size, cost)
    ensures Fetches(k, vacant, w, PickOf(KnownNextUse), model, objects) <= Fetches(k, vacant, w, pick, model, objects)
  {
    hide AlwaysNames, Chained, Belady.Equal, R.ReplayFrom, S.Replay, Bisimulation.NoCeilings, PickOf;
    var best := w.(pick := PickOf(KnownNextUse));
    var other := w.(pick := pick);
    forall id | id in objects ensures Bisimulation.Served(best, model, id) && Bisimulation.Served(other, model, id) {
      assert Bisimulation.Served(w, model, id);
    }
    Bisimulation.KernelEqualsSimulator(k, objects, next, best, model, vacant, budget, base, base);
    Bisimulation.KernelEqualsSimulator(k, objects, next, other, model, vacant, budget, base, base);
    Belady.NextUseIsOptimal((id: ObjectId) => Some(model(id)), next, pick, objects, base, budget, size, cost);
  }

  // ----- exactly when -----

  /** A fresh manager over `budget` bytes without ceilings, a table slot for
      each distinct object, and every object served. */
  ghost predicate Ready(k: K.State, vacant: nat, w: K.World, model: ObjectId -> Meta, objects: seq<ObjectId>,
                        base: nat, budget: nat)
  {
    && k == K.Start(base, budget).(sessions := k.sessions) && base > 0 && Bisimulation.NoCeilings(k.sessions)
    && |objects| < U32_MAX && |Distinct(objects, 0)| <= vacant
    && forall id :: id in objects ==> Bisimulation.Served(w, model, id)
  }

  /** Objects of one size that cost the same to bring back. */
  ghost predicate Equal(model: ObjectId -> Meta, objects: seq<ObjectId>, size: nat, cost: nat) {
    Belady.Equal((id: ObjectId) => Some(model(id)), objects, size, cost)
  }

  /** Next-use reads no more than this policy. */
  ghost predicate NoWorse(k: K.State, vacant: nat, w: K.World, pick: Pick, model: ObjectId -> Meta, objects: seq<ObjectId>) {
    K.Counted(k) && Fetches(k, vacant, w, PickOf(KnownNextUse), model, objects) <= Fetches(k, vacant, w, pick, model, objects)
  }

  /** The kernel reads fewest under next-use, on every trace and budget of
      equal objects that cost this much to bring back. */
  ghost predicate Optimal(cost: nat) {
    forall k: K.State, vacant: nat, w: K.World, pick: Pick, model: ObjectId -> Meta, objects: seq<ObjectId>,
           base: nat, budget: nat, size: nat
      {:trigger Ready(k, vacant, w, model, objects, base, budget), NoWorse(k, vacant, w, pick, model, objects),
                Equal(model, objects, size, cost)} ::
      Ready(k, vacant, w, model, objects, base, budget) && AlwaysNames(pick) && size > 0 && Equal(model, objects, size, cost)
      ==> NoWorse(k, vacant, w, pick, model, objects)
  }

  function Dear(cost: nat): ObjectId -> Meta { (id: ObjectId) => Misled.Entry(cost) }

  ghost function Reading(): K.World { K.World(PickOf(KnownNextUse), {0}, (id: ObjectId) => Ok(())) }

  lemma DearServed(cost: nat, id: ObjectId)
    requires ClassOf(id).Some?
    ensures Bisimulation.Served(Reading(), Dear(cost), id)
  {}

  lemma TraceDecodes(cost: nat)
    requires cost > SCALE
    ensures forall id :: id in Misled.Trace(cost) ==> ClassOf(id).Some?
  {
    IdRoundTrip(KvBlock, 1, 0, 0, 0);
    IdRoundTrip(KvBlock, 1, 0, 1, 0);
    IdRoundTrip(KvBlock, 1, 0, 2, 0);
  }

  /** Only what a model says of each object matters. */
  lemma {:induction false} SameModel(r: S.Residence, out: S.Outcome, a: S.Setting, b: S.Setting, objects: seq<ObjectId>, at: nat)
    requires a.pick == b.pick && a.next == b.next && forall id :: a.model(id) == b.model(id)
    ensures S.ReplayFrom(r, out, a, objects, at) == S.ReplayFrom(r, out, b, objects, at)
    decreases |objects| - at
  {
    hide S.Fetch;
    if at < |objects| {
      var (s, o) := S.Step(r, out, a, objects[at], at + 1);
      SameModel(s, o, a, b, objects, at + 1);
    }
  }

  lemma DearReplays(cost: nat, pick: Pick, next: seq<nat>, objects: seq<ObjectId>, base: nat)
    ensures S.Replay(S.Setting((id: ObjectId) => Some(Dear(cost)(id)), pick, next), objects, base, Misled.TWO_SLOTS)
         == S.Replay(S.Setting(Misled.Dear(cost), pick, next), objects, base, Misled.TWO_SLOTS)
  {
    var of := (id: ObjectId) => Some(Dear(cost)(id));
    forall id: ObjectId ensures of(id) == Misled.Dear(cost)(id) { assert Dear(cost)(id) == Misled.Entry(cost); }
    SameModel(S.Nothing(base, Misled.TWO_SLOTS), S.NOTHING, S.Setting(of, pick, next),
      S.Setting(Misled.Dear(cost), pick, next), objects, 0);
  }

  /** Past the scale there is a policy the kernel reads less under. */
  lemma KernelMisled(cost: nat, base: nat)
    requires SCALE < cost <= U32_MAX && base > 0
    ensures var k, t := K.Start(base, Misled.TWO_SLOTS), Misled.Trace(cost);
      && Ready(k, |Distinct(t, 0)|, Reading(), Dear(cost), t, base, Misled.TWO_SLOTS)
      && Fetches(k, |Distinct(t, 0)|, Reading(), PickOf(KnownNextUse), Dear(cost), t) >= 5
      && Fetches(k, |Distinct(t, 0)|, Reading(), Misled.Knowing, Dear(cost), t) == 4
  {
    hide Chained, R.ReplayFrom, S.Replay, PickOf, Misled.Trace, Bisimulation.Served, Misled.Dear, Dear;
    var k, t, w := K.Start(base, Misled.TWO_SLOTS), Misled.Trace(cost), Reading();
    var next, vacant := Misled.ChainOf(t), |Distinct(t, 0)|;
    Misled.TraceAt(cost);
    TraceDecodes(cost);
    forall id | id in t
      ensures Bisimulation.Served(w, Dear(cost), id) && Bisimulation.Served(w.(pick := Misled.Knowing), Dear(cost), id)
    {
      DearServed(cost, id);
      AnyPick(w, Dear(cost), id, Misled.Knowing);
    }
    Bisimulation.KernelEqualsSimulator(k, t, next, w, Dear(cost), vacant, Misled.TWO_SLOTS, base, base);
    Bisimulation.KernelEqualsSimulator(k, t, next, w.(pick := Misled.Knowing), Dear(cost), vacant, Misled.TWO_SLOTS, base, base);
    DearReplays(cost, PickOf(KnownNextUse), next, t, base);
    DearReplays(cost, Misled.Knowing, next, t, base);
    Misled.NextUseReadsFive(S.Setting(Misled.Dear(cost), PickOf(KnownNextUse), next), cost, base);
    Misled.KnowingReadsFour(S.Setting(Misled.Dear(cost), Misled.Knowing, next), cost, base);
  }

  lemma DearEqual(objects: seq<ObjectId>, cost: nat)
    requires cost > 0
    ensures Equal(Dear(cost), objects, Misled.SIZE, cost)
  {}

  /** The kernel under next-use reads the fewest there can be, for every
      manager, trace, policy and budget of equal objects, exactly when one
      recovery costs no more than the scale. */
  lemma KernelOptimalExactly(cost: nat)
    requires 0 < cost <= U32_MAX
    ensures Optimal(cost) <==> cost <= SCALE
  {
    hide AlwaysNames, Fetches, Misled.Trace, Misled.Knowing, Dear, Belady.Equal;
    if cost <= SCALE {
      forall k: K.State, vacant: nat, w: K.World, pick: Pick, model: ObjectId -> Meta, objects: seq<ObjectId>,
             base: nat, budget: nat, size: nat
        | Ready(k, vacant, w, model, objects, base, budget) && AlwaysNames(pick) && size > 0 && Equal(model, objects, size, cost)
        ensures NoWorse(k, vacant, w, pick, model, objects)
      {
        KernelReadsFewest(k, objects, Misled.ChainOf(objects), w, pick, model, vacant, budget, base, size, cost);
      }
    } else {
      var k, t := K.Start(1, Misled.TWO_SLOTS), Misled.Trace(cost);
      KernelMisled(cost, 1);
      Misled.KnowingNames();
      DearEqual(t, cost);
      assert !NoWorse(k, |Distinct(t, 0)|, Reading(), Misled.Knowing, Dear(cost), t);
    }
  }

  lemma AnyPick(w: K.World, model: ObjectId -> Meta, id: ObjectId, pick: Pick)
    requires Bisimulation.Served(w, model, id)
    ensures Bisimulation.Served(w.(pick := pick), model, id)
  {}
}
