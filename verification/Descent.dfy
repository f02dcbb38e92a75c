/** The runs of LadderRuns do go down the ladder: a squeeze that must deepen
    moves or ends somebody, and one session's block is requantized twice and
    dropped. */
module Descent {
  import opened Basics
  import opened Abi
  import opened MetaModel
  import opened SessionModel
  import opened PolicyModel
  import opened Kernel
  import opened Conservation
  import opened LadderModel
  import opened WalkModel
  import opened SqueezeModel
  import opened Shrink
  import opened LadderedModel
  import opened LadderExact
  import opened SqueezeExact
  import opened Arrival
  import opened ArrivalLadder
  import opened LadderRuns
  import Admission
  import Runs

  // ----- every squeeze -----

  /** Somebody is moved by a pass to the shallowest next rung. */
  lemma DeepenGives(s: State, shape: Shape, rung: Rung, order: seq<ObjectId>) returns (i: nat)
    requires Ready(s) && Shallowest(s.sessions) == Some(rung)
    ensures var t := DeepenAll(s, shape, rung, 0, order).0;
      && |t.sessions| == |s.sessions| && i < |s.sessions| && s.sessions[i].Some? && t.sessions[i].Some?
      && t.sessions[i].value.rung.Depth() > s.sessions[i].value.rung.Depth()
  {
    hide DeepenAll;
    DeepenMoves(s, shape, rung, 0, order);
    i :| i < |s.sessions| && s.sessions[i].Some? && WalkModel.Deeper(s.sessions[i].value) == Some(rung);
  }

  /** A squeeze that has to deepen leaves somebody deeper, or gone. */
  lemma SqueezeGives(s: State, shape: Shape, order: seq<ObjectId>, done: Squeezed)
    requires Ready(s) && Next(s.capacity, shape, s.sessions).Deepen?
    ensures var t := Squeeze(s, shape, order, done).0;
      && |t.sessions| == |s.sessions|
      && exists i :: 0 <= i < |s.sessions| && s.sessions[i].Some?
           && (t.sessions[i].None? || t.sessions[i].value.rung.Depth() > s.sessions[i].value.rung.Depth())
  {
    hide DeepenAll, DestroySession, FitsBudget, Next, Left, DistinctIds, DeeperOf, Shallowest;
    var rung := Next(s.capacity, shape, s.sessions).rung;
    NextDeepens(s.capacity, shape, s.sessions, rung);
    DeepenFalls(s, shape, rung, order);
    var i := DeepenGives(s, shape, rung, order);
    var (t, read, calm) := DeepenAll(s, shape, rung, 0, order);
    var now := done.(reached := DeeperOf(done.reached, rung), recomputed := done.recomputed + read);
    SqueezeDescends(t, shape, order, now);
    assert Descends(t.sessions[i], Squeeze(t, shape, order, now).0.sessions[i]);
  }

  // ----- one session, one block -----

  const ONE := Cache(Shape(1, 0), 1, 64)

  const TOKEN := SessionModel.Contract(Ternary, 0, 0, 1)

  const GUEST := Guest(TOKEN, 1, Meta(64, Fp16, Warm, Warm, 0, 0, Never, 0, 0, 0, 0, 0, 0, 0))

  const ROOMY := Admission.Capacity(0, 0, 64, 0)

  /** What its one token holds on each rung. */
  function Holding(rung: Rung): nat {
    match rung
    case L0 => 64
    case L1 => 32
    case L2 | L3 => 16
    case _ => 0
  }

  lemma OneBlock()
    ensures ONE.shape.Blocks(1) == 1 && ONE.shape.Full(0, 1, 64) == 64
  {}

  lemma OneFate(rung: Rung)
    ensures 4 * ONE.shape.FateOf(rung, 0, 1).Bits() == Holding(rung)
  {}

  lemma OneHolds(rung: Rung)
    ensures ONE.shape.Holds(rung, 0, 1, 64) == Holding(rung)
  {
    hide Shape.Blocks, Shape.Full, Shape.FateOf, Fate.Bits, Holding;
    OneBlock();
    OneFate(rung);
  }

  lemma HoldingIs(rung: Rung)
    ensures ONE.shape.Need(rung, 1, 64) == Holding(rung)
  {
    hide Shape.Holds, Shape.Blocks, Holding;
    OneBlock();
    OneHolds(rung);
    assert ONE.shape.NeedUpTo(rung, 1, 64, 0) == 0;
    HoldingSmall(rung);
  }

  lemma HoldingSmall(rung: Rung)
    ensures Holding(rung) <= 64
  {}

  /** That session in the first slot, and nobody else. */
  ghost predicate Alone(live: Slots, rung: Rung) {
    && |live| == MAX_SESSIONS && live[0].Some? && live[0].value.contract == TOKEN && live[0].value.rung == rung
    && forall i :: 0 < i < |live| ==> live[i].None?
  }

  lemma {:induction false} NobodyOwes(c: Admission.Capacity, shape: Shape, live: Slots, from: nat)
    requires forall i :: 0 <= i < |live| ==> live[i].None?
    ensures WalkModel.Demand(c, shape, live, from) == from
  {
    if live != [] { NobodyOwes(c, shape, live[1..], from); }
  }

  lemma AloneNext(c: Admission.Capacity, live: Slots, rung: Rung)
    requires Alone(live, rung) && c.kvPerToken == 64 && c.reserved == 0 && c.bytes > 0 && rung.Depth() < L5.Depth()
    ensures Next(c, ONE.shape, live) == if Holding(rung) <= c.bytes then Fits else Deepen(rung.Deeper().value)
  {
    HoldingIs(rung);
    NobodyOwes(c, ONE.shape, live[1..], Holding(rung));
  }

  lemma AloneDeeper(a: Slots, b: Slots, rung: Rung, to: Rung)
    requires Alone(a, rung) && rung.Deeper() == Some(to) && to.Depth() <= L5.Depth() && Deepened(a, b, to, 0)
    ensures Alone(b, to)
  {}

  /** Squeezed, it goes down to the first rung that fits. */
  lemma {:induction false} AloneSqueezed(s: State, order: seq<ObjectId>, done: Squeezed, rung: Rung, goal: Rung)
    requires Ready(s) && Alone(s.sessions, rung) && s.capacity.kvPerToken == 64 && s.capacity.reserved == 0
    requires s.capacity.bytes > 0 && Holding(goal) <= s.capacity.bytes && rung.Depth() <= goal.Depth() < L5.Depth()
    requires forall r: Rung :: r.Depth() < goal.Depth() ==> Holding(r) > s.capacity.bytes
    ensures Alone(Squeeze(s, ONE.shape, order, done).0.sessions, goal)
    ensures Squeeze(s, ONE.shape, order, done).0.capacity == s.capacity
    decreases goal.Depth() - rung.Depth()
  {
    hide DeepenAll, DestroySession, FitsBudget, Next, Left, DistinctIds, DeeperOf, Alone, Holding, Deepened, Shallowest, OneFewer;
    AloneNext(s.capacity, s.sessions, rung);
    if rung != goal {
      var deeper := rung.Deeper().value;
      NextDeepens(s.capacity, ONE.shape, s.sessions, deeper);
      DeepenFalls(s, ONE.shape, deeper, order);
      DeepenMoves(s, ONE.shape, deeper, 0, order);
      var (t, read, calm) := DeepenAll(s, ONE.shape, deeper, 0, order);
      AloneDeeper(s.sessions, t.sessions, rung, deeper);
      AloneSqueezed(t, order, done.(reached := DeeperOf(done.reached, deeper), recomputed := done.recomputed + read), deeper, goal);
    }
  }

  // ----- its arrival -----

  ghost function Reading(): World { World(PickOf(Fifo), {0}, (id: ObjectId) => Ok(())) }

  function Unforeseen(): ObjectId -> NextUse { (id: ObjectId) => Never }

  ghost function Comes(): Event { Arrives(1, Reading(), GUEST, Unforeseen()) }

  /** Its block is all there is, and the capacity charges it 64 bytes. */
  ghost predicate Settled(s: State, rung: Rung) {
    && Exact(ONE, s) && Alone(s.sessions, rung) && s.objects.Keys <= {BlockName(1, 0, 0)}
    && s.capacity.kvPerToken == 64 && s.capacity.reserved == 0
  }

  ghost function Declared(base: nat, bytes: nat): State { Start(base, bytes).(capacity := ROOMY) }

  lemma Created(base: nat, bytes: nat)
    ensures var (t, made) := CreateSession(Declared(base, bytes), TOKEN);
      made == Some(1) && t == Declared(base, bytes).(sessions := Start(base, bytes).sessions[0 := Some(Newcomer(1, TOKEN))])
  {
    hide LiveCount;
    var live := Start(base, bytes).sessions;
    assert FreeSlot(live) == Some(0);
    assert LiveCount(live) < |live|;
    assert FindAt(live, 1).None?;
    CreateExactly(live, TOKEN);
  }

  /** Its one block is placed. */
  lemma BlockPlaced(s: State)
    requires Counted(s) && Conserved(s) && s.objects == map[] && s.region.capacity >= 64
    requires |s.sessions| > 0 && s.sessions[0] == Some(Newcomer(1, TOKEN))
    ensures Cached(s, 1, Reading(), BlockName(1, 0, 0), BlockMeta(ONE.shape, GUEST, 1, 0), Never).2
  {
    hide Charged, Acquire, BlockName, MakeId, ClassOf;
    var id, meta := BlockName(1, 0, 0), BlockMeta(ONE.shape, GUEST, 1, 0);
    NameIsCache(1, 0, 0);
    RegisterKeeps(s, id, meta);
    RulesName(Fifo);
    var t := Register(s, id, meta);
    assert ResidentIds(t.objects) == {};
    Runs.AcquireSucceeds(t, Reading(), id, Streaming, Never);
  }

  /** Which is all of them. */
  lemma OnePlaced(s: State)
    requires Counted(s)
    ensures var name, meta := BlockName(1, 0, 0), BlockMeta(ONE.shape, GUEST, 1, 0);
      var (t, left, cached) := Cached(s, 1, Reading(), name, meta, Never);
      cached ==> Prefill(s, 1, Reading(), ONE.shape, GUEST, 1, Unforeseen(), 0, 0, 0) == (t, 1)
  {
    hide Cached, BlockName, BlockMeta, Shape.Blocks;
    OneBlock();
  }

  lemma AloneStays(a: Slots, b: Slots)
    requires Alone(a, L0) && SameRungs(a, b)
    ensures Alone(b, L0)
  {}

  lemma ArrivalSettles(base: nat, bytes: nat)
    requires base > 0 && 64 <= bytes <= U64_MAX
    ensures var s := Declared(base, bytes);
      Ready(s) && Exact(ONE, s) && Proper(ONE, s, Comes()) && After(ONE, s, Comes()).1
      && Ready(After(ONE, s, Comes()).0) && Settled(After(ONE, s, Comes()).0, L0)
  {
    hide Charged, AllLaddered, Cached, BlockName, BlockMeta, Prefill;
    var s, w := Declared(base, bytes), Reading();
    StartExact(ONE, base, bytes);
    CapacityApart(ONE, Start(base, bytes), s);
    Created(base, bytes);
    var t := CreateSession(s, TOKEN).0;
    Conservation.CreateKeeps(s, TOKEN);
    BlockPlaced(t);
    var name, meta := BlockName(1, 0, 0), BlockMeta(ONE.shape, GUEST, 1, 0);
    CachedGrows(t, 1, w, name, meta, Never);
    StepExact(ONE, s, Comes());
    OnePlaced(t);
    AloneStays(t.sessions, Cached(t, 1, w, name, meta, Never).0.sessions);
  }

  // ----- what a rewrite can lose -----

  /** There is a manager, every account kept, that one rewrite to a rung's
      precision leaves out of step with its table. */
  lemma RewriteCanLose(base: nat, bytes: nat, id: ObjectId)
    requires base > 0 && 16 <= bytes <= U64_MAX && ClassOf(id) == Some(KvBlock)
    ensures exists s: State :: Counted(s) && Conserved(s) && !Conserved(Rewrite(s, id, Keep(Q8)).0)
  {
    hide Charged, Acquire, ClassOf, Rewrite;
    var meta := GUEST.template.(size := 16);
    var s := Start(base, bytes);
    StartConserved(base, bytes);
    RegisterKeeps(s, id, meta);
    RulesName(Fifo);
    var t := Register(s, id, meta);
    assert ResidentIds(t.objects) == {};
    Runs.AcquireSucceeds(t, Reading(), id, Streaming, Never);
    AcquireKeeps(t, Reading(), id, Streaming, Never);
    AcquireBlocks(t, Reading(), id, Streaming, Never);
    var u := Acquire(t, Reading(), id, Streaming, Never).0;
    assert Hits(u, id) && u.objects[id].size == 16 && u.objects[id].precision == Fp16;
    SmallBlockLoses(u, id);
  }

  // ----- the descent -----

  lemma FewBlocks(s: State, rung: Rung)
    requires Settled(s, rung)
    ensures Few(s) && Walked(s, [BlockName(1, 0, 0)])
  {
    SubsetSize(ResidentIds(s.objects), {BlockName(1, 0, 0)});
  }

  /** The first rung that fits `bytes`. */
  ghost predicate FirstToFit(bytes: nat, rung: Rung) {
    rung.Depth() < L5.Depth() && Holding(rung) <= bytes && forall r: Rung :: r.Depth() < rung.Depth() ==> Holding(r) > bytes
  }

  /** A squeeze of it to `bytes` runs to its end, on the first rung that fits. */
  lemma SqueezeSettles(s: State, rung: Rung, bytes: nat, goal: Rung)
    requires Settled(s, rung) && bytes > 0 && FirstToFit(bytes, goal) && rung.Depth() <= goal.Depth()
    ensures var e := SqueezedTo(bytes, [BlockName(1, 0, 0)]);
      Proper(ONE, s, e) && After(ONE, s, e).1 && Settled(After(ONE, s, e).0, goal)
  {
    hide Charged, AllLaddered, Squeeze, DistinctIds, Holding, BlockName, KvNamed, OnlyCaches;
    var order := [BlockName(1, 0, 0)];
    var asked := s.(capacity := s.capacity.(bytes := bytes));
    FewBlocks(s, rung);
    CapacityApart(ONE, s, asked);
    AllLadderedBehind(ONE, asked);
    SqueezeSmooth(ONE, asked, order, UNSQUEEZED);
    AloneSqueezed(asked, order, UNSQUEEZED, rung, goal);
    SqueezeOwners(asked, ONE.shape, order, UNSQUEEZED);
    StepExact(ONE, s, SqueezedTo(bytes, order));
  }

  /** One event more. */
  lemma {:induction false} RunsOn(c: Cache, s: State, es: seq<Event>, t: State, e: Event)
    requires Ready(s) && Ready(t) && RunsTo(c, s, es, t) && Proper(c, t, e)
    ensures e.Arrives? ==> e.guest.layers <= U16_MAX
    ensures After(c, t, e).1 && Ready(After(c, t, e).0) ==> RunsTo(c, s, es + [e], After(c, t, e).0)
    decreases |es|
  {
    hide After, Proper;
    ProperLayers(c, t, e);
    if es == [] {
      assert es + [e] == [e] && [e][1..] == [];
    } else {
      RunsOn(c, After(c, s, es[0]).0, es[1..], t, e);
      assert (es + [e])[1..] == es[1..] + [e];
    }
  }

  lemma FirstRungs()
    ensures FirstToFit(32, L1) && FirstToFit(16, L2) && FirstToFit(1, L4)
  {}

  /** One squeeze more of that session. */
  lemma SqueezedOn(s: State, es: seq<Event>, t: State, rung: Rung, bytes: nat, goal: Rung) returns (on: seq<Event>, u: State)
    requires Ready(s) && RunsTo(ONE, s, es, t) && Settled(t, rung)
    requires bytes > 0 && FirstToFit(bytes, goal) && rung.Depth() <= goal.Depth()
    ensures RunsTo(ONE, s, on, u) && Settled(u, goal)
  {
    hide After, Proper, RunsTo, FirstToFit;
    var e := SqueezedTo(bytes, [BlockName(1, 0, 0)]);
    SqueezeSettles(t, rung, bytes, goal);
    RunsOn(ONE, s, es, t, e);
    on, u := es + [e], After(ONE, t, e).0;
  }

  /** From a new manager: a capacity declared, a session cached, and squeezed
      to 32, 16 and one byte. Its block is requantized, requantized again and
      dropped, and all of these are runs. */
  lemma RungsAreWalked(base: nat, bytes: nat)
    requires base > 0 && 64 <= bytes <= U64_MAX
    ensures exists es, t :: RunsTo(ONE, Start(base, bytes), es, t) && Alone(t.sessions, L1)
    ensures exists es, t :: RunsTo(ONE, Start(base, bytes), es, t) && Alone(t.sessions, L2)
    ensures exists es, t :: RunsTo(ONE, Start(base, bytes), es, t) && Alone(t.sessions, L4)
  {
    hide After, Exact, Proper, Alone, FirstToFit;
    var s, d := Start(base, bytes), Declared(base, bytes);
    ArrivalSettles(base, bytes);
    var t := After(ONE, d, Comes()).0;
    FirstStep(base, bytes);
    assert RunsTo(ONE, s, [Declares(ROOMY)], d);
    RunsOn(ONE, s, [Declares(ROOMY)], d, Comes());
    FirstRungs();
    var es1, t1 := SqueezedOn(s, [Declares(ROOMY)] + [Comes()], t, L0, 32, L1);
    var es2, t2 := SqueezedOn(s, es1, t1, L1, 16, L2);
    var es3, t3 := SqueezedOn(s, es2, t2, L2, 1, L4);
  }

  lemma FirstStep(base: nat, bytes: nat)
    requires base > 0 && 64 <= bytes <= U64_MAX
    ensures Ready(Start(base, bytes)) && Ready(Declared(base, bytes))
    ensures RunsTo(ONE, Start(base, bytes), [Declares(ROOMY)], Declared(base, bytes))
  {
    assert [Declares(ROOMY)][1..] == [];
  }
}
