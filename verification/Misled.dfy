/** Where next-use stops being Belady's rule: one recovery dearer than the
    scale merges distances, and the tie goes to the wrong resident. */
module Misled {
  import opened Basics
  import opened Abi
  import opened MetaModel
  import opened PolicyModel
  import opened StreamModel
  import opened Cache
  import opened Foresight
  import opened Belady
  import S = Simulation

  const SIZE: nat := 16
  const TWO_SLOTS: nat := 32

  const A: ObjectId := MakeId(KvBlock, 1, 0, 0, 0)
  const B: ObjectId := MakeId(KvBlock, 1, 0, 1, 0)
  const C: ObjectId := MakeId(KvBlock, 1, 0, 2, 0)

  /** How long the third object is read for before the first two come back:
      long enough that one step more is lost in the division. */
  function Pause(cost: nat): nat
    requires cost > SCALE
  {
    if cost <= 2 * SCALE then cost - 1 else 0
  }

  /** The trace next-use loses on. */
  function Trace(cost: nat): seq<ObjectId>
    requires cost > SCALE
  {
    [A, B, C] + seq(Pause(cost), _ => C) + [A, B, C]
  }

  /** The trace's own chain. */
  ghost function ChainOf(objects: seq<ObjectId>): (next: seq<nat>)
    ensures Chained(objects, next)
  {
    seq(|objects|, i requires 0 <= i < |objects| => Link(FirstFrom(objects, objects[i], i + 1)))
  }

  function Entry(cost: nat): Meta { Meta(SIZE, Fp16, Warm, Warm, 0, 0, Never, 0, 0, 0, cost, cost, 0, 0) }

  /** Every object 16 bytes and `cost` to bring back. */
  function Dear(cost: nat): Model {
    (id: ObjectId) => Some(Entry(cost))
  }

  /** A policy that knows what is coming. */
  ghost function Knowing(w: Window, now: nat, wanted: nat): Option<ObjectId> {
    if B in w then Some(B) else if A in w then Some(A) else Victim(Fifo, w, now)
  }

  /** One step further away makes no difference. */
  lemma DistancesMerge(cost: nat)
    requires cost > SCALE
    ensures (Pause(cost) + 1) * SCALE / cost == (Pause(cost) + 2) * SCALE / cost
  {
    var q := if cost <= 2 * SCALE then SCALE else 0;
    QuotientIs((Pause(cost) + 1) * SCALE, q, cost);
    QuotientIs((Pause(cost) + 2) * SCALE, q, cost);
  }

  lemma {:induction false} SkipTo(objects: seq<ObjectId>, id: ObjectId, from: nat, to: nat)
    requires from <= to < |objects| && objects[to] == id
    requires forall i :: from <= i < to ==> objects[i] != id
    ensures FirstFrom(objects, id, from) == Some(to)
    decreases |objects| - from
  {
    if from < to { SkipTo(objects, id, from + 1, to); }
  }

  /** The trace, position by position. */
  lemma TraceAt(cost: nat)
    requires cost > SCALE
    ensures var t, p := Trace(cost), Pause(cost);
      && |t| == p + 6 && t[0] == A && t[1] == B && t[2] == C && t[p + 3] == A && t[p + 4] == B && t[p + 5] == C
      && (forall i :: 2 <= i < p + 3 ==> t[i] == C)
      && Away(t, A, 2) == p + 1 && Away(t, B, 2) == p + 2
  {
    var t, p := Trace(cost), Pause(cost);
    SkipTo(t, A, 3, p + 3);
    SkipTo(t, B, 3, p + 4);
  }

  /** Truthful and alike: what makes a policy's scores predictable. */
  ghost predicate Foreseen(r: S.Residence, run: S.Setting, objects: seq<ObjectId>, at: nat, cost: nat) {
    Alike(r, cost) && (Chained(objects, run.next) && |objects| < U32_MAX ==> Truthful(r, objects, at))
  }

  /** One access, and what is left of the replay after it. */
  lemma OneMore(r: S.Residence, out: S.Outcome, run: S.Setting, objects: seq<ObjectId>, at: nat, k: nat, cost: nat)
    returns (s: S.Residence, o: S.Outcome)
    requires Cached(r, SIZE, k) && k > 0 && AlwaysNames(run.pick) && cost > 0 && run.model == Dear(cost) && at < |objects|
    ensures Cached(s, SIZE, k) && S.ReplayFrom(r, out, run, objects, at) == S.ReplayFrom(s, o, run, objects, at + 1)
    ensures Foreseen(r, run, objects, at, cost) ==> Foreseen(s, run, objects, at + 1, cost)
    ensures objects[at] in r.held ==> s.held.Keys == r.held.Keys && o.fetches == out.fetches
    ensures objects[at] !in r.held ==> o.fetches == out.fetches + 1
    ensures objects[at] !in r.held && |r.held.Keys| < k ==> s.held.Keys == r.held.Keys + {objects[at]}
    ensures objects[at] !in r.held && |r.held.Keys| >= k ==>
      var v := run.pick(S.Window(r.held), at + 1, SIZE);
      v.Some? && v.value in r.held && s.held.Keys == r.held.Keys - {v.value} + {objects[at]}
  {
    hide Cached, AlwaysNames, S.Step, Truthful, Alike, Chained;
    StepCache(r, out, run, objects[at], at + 1, SIZE, k);
    if Foreseen(r, run, objects, at, cost) {
      StepAlike(r, out, run, objects[at], at + 1, cost);
      if Chained(objects, run.next) && |objects| < U32_MAX { StepTruthful(r, out, run, objects, at); }
    }
    var next := S.Step(r, out, run, objects[at], at + 1);
    s, o := next.0, next.1;
  }

  /** A run of hits reads nothing. */
  lemma {:induction false} HitRun(r: S.Residence, out: S.Outcome, run: S.Setting, objects: seq<ObjectId>, at: nat, to: nat,
                                  k: nat, cost: nat) returns (s: S.Residence, o: S.Outcome)
    requires Cached(r, SIZE, k) && k > 0 && AlwaysNames(run.pick) && cost > 0 && run.model == Dear(cost)
    requires at <= to <= |objects| && forall i :: at <= i < to ==> objects[i] in r.held
    ensures S.ReplayFrom(r, out, run, objects, at) == S.ReplayFrom(s, o, run, objects, to)
    ensures Cached(s, SIZE, k) && s.held.Keys == r.held.Keys && o.fetches == out.fetches
    decreases |objects| - at
  {
    hide Cached, AlwaysNames, S.ReplayFrom, Foreseen, Dear;
    s, o := r, out;
    if at < to {
      s, o := OneMore(r, out, run, objects, at, k, cost);
      s, o := HitRun(s, o, run, objects, at + 1, to, k, cost);
    }
  }

  /** The first two accesses fill the two slots. */
  lemma TwoFill(run: S.Setting, cost: nat, base: nat) returns (s: S.Residence, o: S.Outcome)
    requires cost > SCALE && base > 0 && AlwaysNames(run.pick) && run.model == Dear(cost)
    ensures S.Replay(run, Trace(cost), base, TWO_SLOTS) == S.ReplayFrom(s, o, run, Trace(cost), 2).1
    ensures Cached(s, SIZE, 2) && s.held.Keys == {A, B} && o.fetches == 2 && Foreseen(s, run, Trace(cost), 2, cost)
  {
    hide Cached, AlwaysNames, S.ReplayFrom, Foreseen, Trace, Dear;
    var t := Trace(cost);
    s, o := S.Nothing(base, TWO_SLOTS), S.NOTHING;
    TraceAt(cost);
    StartCached(SIZE, base, TWO_SLOTS);
    NothingForeseen(s, run, t, cost);
    s, o := OneMore(s, o, run, t, 0, 2, cost);
    s, o := OneMore(s, o, run, t, 1, 2, cost);
  }

  lemma NothingForeseen(r: S.Residence, run: S.Setting, objects: seq<ObjectId>, cost: nat)
    requires r.held == map[]
    ensures Foreseen(r, run, objects, 0, cost)
  {}

  /** Next-use gives up the first object, wanted sooner than the second. */
  lemma FirstGivenUp(s: S.Residence, run: S.Setting, cost: nat)
    requires SCALE < cost <= U32_MAX && s.held.Keys == {A, B} && Foreseen(s, run, Trace(cost), 2, cost)
    requires Chained(Trace(cost), run.next)
    ensures PickOf(KnownNextUse)(S.Window(s.held), 3, SIZE) == Some(A)
  {
    hide Evictability, Away, Alike, Truthful, Trace;
    var w := S.Window(s.held);
    TraceAt(cost);
    EvictabilityIsDistance(s, Trace(cost), 2, A, cost);
    EvictabilityIsDistance(s, Trace(cost), 2, B, cost);
    DistancesMerge(cost);
    assert IsBest(KnownNextUse, w, 3, A);
    BestIsVictim(KnownNextUse, w, 3, A);
  }

  /** With the first gone, the last three accesses cost two reads more,
      whatever goes next. */
  lemma LastThree(r: S.Residence, out: S.Outcome, run: S.Setting, cost: nat)
    requires cost > SCALE && AlwaysNames(run.pick) && run.model == Dear(cost)
    requires Cached(r, SIZE, 2) && r.held.Keys == {B, C}
    ensures S.ReplayFrom(r, out, run, Trace(cost), Pause(cost) + 3).1.fetches >= out.fetches + 2
  {
    hide Cached, AlwaysNames, S.ReplayFrom, Trace, CanServe, Foreseen, Dear;
    var t, p := Trace(cost), Pause(cost);
    TraceAt(cost);
    DearSized(t, cost);
    var s, o := OneMore(r, out, run, t, p + 3, 2, cost);
    FullSize(s, SIZE, 2);
    s, o := OneMore(s, o, run, t, p + 4, 2, cost);
    if o.fetches < out.fetches + 2 {
      assert C !in s.held.Keys;
      s, o := OneMore(s, o, run, t, p + 5, 2, cost);
      AnyServes(s, o, run, t, p + 6, SIZE, 2);
    } else {
      AnyServes(s, o, run, t, p + 5, SIZE, 2);
    }
  }

  lemma DearSized(objects: seq<ObjectId>, cost: nat)
    ensures AllSized(Dear(cost), objects, SIZE)
  {}

  /** Next-use reads at least five times. */
  lemma NextUseReadsFive(run: S.Setting, cost: nat, base: nat)
    requires SCALE < cost <= U32_MAX && base > 0 && run.model == Dear(cost) && run.pick == PickOf(KnownNextUse)
    requires Chained(Trace(cost), run.next)
    ensures S.Replay(run, Trace(cost), base, TWO_SLOTS).fetches >= 5
  {
    hide Cached, AlwaysNames, S.ReplayFrom, Trace, Foreseen, Dear, PickOf, Chained;
    var t, p := Trace(cost), Pause(cost);
    TraceAt(cost);
    RulesName(KnownNextUse);
    var s, o := TwoFill(run, cost, base);
    FirstGivenUp(s, run, cost);
    s, o := OneMore(s, o, run, t, 2, 2, cost);
    assert s.held.Keys == {B, C};
    s, o := HitRun(s, o, run, t, 3, p + 3, 2, cost);
    LastThree(s, o, run, cost);
  }

  lemma KnowingNames()
    ensures AlwaysNames(Knowing)
  {}

  /** With the second gone, the last three accesses cost one read more. */
  lemma LastThreeKnown(r: S.Residence, out: S.Outcome, run: S.Setting, cost: nat)
    requires cost > SCALE && run.model == Dear(cost) && run.pick == Knowing
    requires Cached(r, SIZE, 2) && r.held.Keys == {A, C}
    ensures S.ReplayFrom(r, out, run, Trace(cost), Pause(cost) + 3).1.fetches == out.fetches + 1
  {
    hide Cached, AlwaysNames, Trace, Foreseen, Dear;
    var t, p := Trace(cost), Pause(cost);
    TraceAt(cost);
    KnowingNames();
    var s, o := OneMore(r, out, run, t, p + 3, 2, cost);
    s, o := OneMore(s, o, run, t, p + 4, 2, cost);
    assert s.held.Keys == {C, B};
    s, o := OneMore(s, o, run, t, p + 5, 2, cost);
  }

  /** Knowing reads four times. */
  lemma KnowingReadsFour(run: S.Setting, cost: nat, base: nat)
    requires SCALE < cost && base > 0 && run.model == Dear(cost) && run.pick == Knowing
    ensures S.Replay(run, Trace(cost), base, TWO_SLOTS).fetches == 4
  {
    hide Cached, AlwaysNames, Trace, Foreseen, Dear;
    var t, p := Trace(cost), Pause(cost);
    TraceAt(cost);
    KnowingNames();
    var s, o := TwoFill(run, cost, base);
    s, o := OneMore(s, o, run, t, 2, 2, cost);
    assert s.held.Keys == {A, C};
    s, o := HitRun(s, o, run, t, 3, p + 3, 2, cost);
    LastThreeKnown(s, o, run, cost);
  }

  // ----- exactly when next-use is Belady's rule -----

  /** A policy that always names a resident, and a trace with its chain. */
  ghost predicate Fair(next: seq<nat>, pick: Pick, objects: seq<ObjectId>, base: nat, size: nat) {
    AlwaysNames(pick) && Chained(objects, next) && |objects| < U32_MAX && base > 0 && size > 0
  }

  /** Next-use is optimal on every trace and budget of equal objects that
      cost this much to bring back. */
  ghost predicate Optimal(cost: nat) {
    forall model: Model, next: seq<nat>, pick: Pick, objects: seq<ObjectId>, base: nat, budget: nat, size: nat
      {:trigger NoWorse(model, next, pick, objects, base, budget), Equal(model, objects, size, cost)} ::
      Fair(next, pick, objects, base, size) && Equal(model, objects, size, cost)
      ==> NoWorse(model, next, pick, objects, base, budget)
  }

  /** Next-use is Belady's rule exactly when one recovery costs no more than
      the scale the distances are divided at. */
  lemma OptimalExactly(cost: nat)
    requires 0 < cost <= U32_MAX
    ensures Optimal(cost) <==> cost <= SCALE
  {
    if cost <= SCALE {
      forall model: Model, next: seq<nat>, pick: Pick, objects: seq<ObjectId>, base: nat, budget: nat, size: nat
        | Fair(next, pick, objects, base, size) && Equal(model, objects, size, cost)
        ensures NoWorse(model, next, pick, objects, base, budget)
      {
        NextUseIsOptimal(model, next, pick, objects, base, budget, size, cost);
      }
    } else {
      Misleads(cost);
    }
  }

  /** The trace, and a policy that does better on it. */
  lemma Misleads(cost: nat)
    requires SCALE < cost <= U32_MAX
    ensures !Optimal(cost)
  {
    hide AlwaysNames, NoWorse, Chained, Equal;
    var t := Trace(cost);
    var next := ChainOf(t);
    TraceAt(cost);
    KnowingNames();
    DearEqual(t, cost);
    assert Fair(next, Knowing, t, 1, SIZE);
    KnowingBetter(cost, 1);
  }

  lemma DearEqual(objects: seq<ObjectId>, cost: nat)
    requires cost > 0
    ensures Equal(Dear(cost), objects, SIZE, cost)
  {}

  lemma KnowingBetter(cost: nat, base: nat)
    requires SCALE < cost <= U32_MAX && base > 0
    ensures !NoWorse(Dear(cost), ChainOf(Trace(cost)), Knowing, Trace(cost), base, TWO_SLOTS)
  {
    hide S.Replay;
    var t, next := Trace(cost), ChainOf(Trace(cost));
    NextUseReadsFive(S.Setting(Dear(cost), PickOf(KnownNextUse), next), cost, base);
    KnowingReadsFour(S.Setting(Dear(cost), Knowing, next), cost, base);
  }
}
