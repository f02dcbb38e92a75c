/** The walk applied to a manager as a value: sessions moved down rungs, their
    blocks rewritten where they are, and the latest promise ended. */
module SqueezeModel {
  import opened Basics
  import opened Abi
  import opened MetaModel
  import opened Holes
  import opened SessionModel
  import opened Kernel
  import opened LadderModel
  import opened WalkModel
  import Admission

  // ----- one block -----

  /** The size a block of this size and precision has as `fate`: back to full
      precision first, and never larger than it was. */
  function Resized(m: Meta, fate: Fate): (size: nat)
    ensures size <= m.size
  {
    var full := 16 * m.size / BitsOf(m.precision);
    if fate.Bytes(full) <= U32_MAX then Min(fate.Bytes(full), m.size) else m.size
  }

  /** `rewrite`: a block's fate carried out. */
  function Rewrite(s: State, id: ObjectId, fate: Fate): (r: (State, Result<()>))
    requires Counted(s)
    ensures Counted(r.0)
  {
    if id !in s.objects then (s, Err(BadObject))
    else
      var m := s.objects[id];
      match fate.Precision()
      case None =>
        if !m.Resident() then (s.(objects := s.objects - {id}), Ok(()))
        else
          var (t, e) := Evict(s, id);
          (match e case Err(why) => (t, Err(why)) case Ok(_) => (t.(objects := t.objects - {id}), Ok(())))
      case Some(p) =>
        var size := Resized(m, fate);
        var after := s.objects[id := m.(size := size, precision := p)];
        if m.Resident() && Round(size) < Round(m.size) then
          match s.region.Release(m.residentAt + Round(size), Round(m.size) - Round(size))
          case Err(why) => (s, Err(why))
          case Ok(region) =>
            (s.(region := region,
                held := HeldMinus(s.held, KvBlock, m.size - size),
                sessions := Credit(s.sessions, m.owner, m.size - size),
                objects := after),
             Ok(()))
        else (s.(objects := after), Ok(()))
  }

  // ----- one session -----

  predicate OwnBlock(s: State, id: ObjectId, owner: SessionId) {
    id in s.objects && s.objects[id].owner == owner && ClassOf(id) == Some(KvBlock)
  }

  /** The coarser of a precision and what a block has become. */
  function Coarser(coarsest: Precision, fate: Fate): Precision {
    match fate.Precision()
    case None => coarsest
    case Some(p) => if p.Rank() > coarsest.Rank() then p else coarsest
  }

  /** The table walk of `step`, over the ids in slot order: the manager, the
      coarsest precision left, and whether nothing refused. */
  function Rewrites(s: State, shape: Shape, owner: SessionId, rung: Rung, blocks: nat, order: seq<ObjectId>,
                    coarsest: Precision): (r: (State, Precision, bool))
    requires Counted(s)
    ensures Counted(r.0)
    decreases |order|
  {
    if order == [] then (s, coarsest, true)
    else if !OwnBlock(s, order[0], owner) then Rewrites(s, shape, owner, rung, blocks, order[1..], coarsest)
    else
      var fate := shape.FateOf(rung, TensorOf(order[0]), blocks);
      var (t, done) := Rewrite(s, order[0], fate);
      var (u, worst, smooth) :=
        Rewrites(t, shape, owner, rung, blocks, order[1..], if done.Ok? then Coarser(coarsest, fate) else coarsest);
      (u, worst, smooth && done.Ok?)
  }

  /** A session on `to`, with what the move delivered. */
  function Moved(s: Session, to: Rung, coarsest: Precision, read: nat): Session {
    s.(rung := to,
       delivered := s.delivered.(
         coarsest := coarsest,
         deepest := if to.Depth() > s.delivered.deepest.Depth() then to else s.delivered.deepest,
         recomputed := SatAdd(s.delivered.recomputed, read, U64_MAX)))
  }

  /** `step`: the manager, the bytes read, and whether nothing refused. */
  function Step(s: State, shape: Shape, who: Session, to: Rung, order: seq<ObjectId>): (r: (State, nat, bool))
    requires Counted(s)
    ensures Counted(r.0)
  {
    var (t, coarsest, smooth) :=
      Rewrites(s, shape, who.id, to, shape.Blocks(who.contract.context), order, who.delivered.coarsest);
    var read := shape.Cost(who.rung, to, who.contract.context, t.capacity.kvPerToken);
    match FindAt(t.sessions, who.id)
    case None => (t, read, smooth)
    case Some(i) => (t.(sessions := t.sessions[i := Some(Moved(t.sessions[i].value, to, coarsest, read))]), read, smooth)
  }

  // ----- every session -----

  /** `deepen`, from slot `from` on: every session `rung` would move. */
  function DeepenAll(s: State, shape: Shape, rung: Rung, from: nat, order: seq<ObjectId>): (r: (State, nat, bool))
    requires Counted(s)
    ensures Counted(r.0)
    decreases MAX_SESSIONS - from
  {
    if from >= MAX_SESSIONS then (s, 0, true)
    else if from < |s.sessions| && s.sessions[from].Some? && Movable(s.sessions[from].value, rung) then
      var (t, read, smooth) := Step(s, shape, s.sessions[from].value, rung, order);
      var (u, more, calm) := DeepenAll(t, shape, rung, from + 1, order);
      (u, read + more, smooth && calm)
    else DeepenAll(s, shape, rung, from + 1, order)
  }

  // ----- what moving leaves as it was -----

  /** The same sessions in the same slots, on the same rungs. */
  ghost predicate SameRungs(a: Slots, b: Slots) {
    SameSessions(a, b) && forall i :: 0 <= i < |a| && a[i].Some? ==> a[i].value.rung == b[i].value.rung
  }

  lemma SameRungsTwice(a: Slots, b: Slots, c: Slots)
    ensures SameRungs(a, a)
    ensures SameRungs(a, b) && SameRungs(b, c) ==> SameRungs(a, c)
  {}

  lemma CreditRungs(slots: Slots, owner: SessionId, size: nat)
    ensures SameRungs(slots, Credit(slots, owner, size))
  {}

  lemma EvictRungs(s: State, id: ObjectId)
    requires Counted(s)
    ensures SameRungs(s.sessions, Evict(s, id).0.sessions) && Evict(s, id).0.capacity == s.capacity
  {}

  lemma RewriteRungs(s: State, id: ObjectId, fate: Fate)
    requires Counted(s)
    ensures SameRungs(s.sessions, Rewrite(s, id, fate).0.sessions) && Rewrite(s, id, fate).0.capacity == s.capacity
  {
    hide Evict;
    EvictRungs(s, id);
  }

  lemma {:induction false} RewritesRungs(s: State, shape: Shape, owner: SessionId, rung: Rung, blocks: nat,
                                         order: seq<ObjectId>, coarsest: Precision)
    requires Counted(s)
    ensures var t := Rewrites(s, shape, owner, rung, blocks, order, coarsest).0;
      SameRungs(s.sessions, t.sessions) && t.capacity == s.capacity
    decreases |order|
  {
    hide Rewrite, SameRungs;
    SameRungsTwice(s.sessions, s.sessions, s.sessions);
    if order != [] {
      if !OwnBlock(s, order[0], owner) {
        RewritesRungs(s, shape, owner, rung, blocks, order[1..], coarsest);
      } else {
        var fate := shape.FateOf(rung, TensorOf(order[0]), blocks);
        var (t, done) := Rewrite(s, order[0], fate);
        var next := if done.Ok? then Coarser(coarsest, fate) else coarsest;
        RewriteRungs(s, order[0], fate);
        RewritesRungs(t, shape, owner, rung, blocks, order[1..], next);
        SameRungsTwice(s.sessions, t.sessions, Rewrites(t, shape, owner, rung, blocks, order[1..], next).0.sessions);
      }
    }
  }

  /** A step moves its own session to the rung, and nobody else anywhere. */
  lemma StepMoves(s: State, shape: Shape, at: nat, to: Rung, order: seq<ObjectId>)
    requires Counted(s) && DistinctIds(s.sessions) && at < |s.sessions| && s.sessions[at].Some?
    ensures var t := Step(s, shape, s.sessions[at].value, to, order).0;
      && SameSessions(s.sessions, t.sessions) && t.capacity == s.capacity && DistinctIds(t.sessions)
      && forall i :: 0 <= i < |s.sessions| && s.sessions[i].Some? ==>
           t.sessions[i].value.rung == if i == at then to else s.sessions[i].value.rung
  {
    hide Rewrites;
    var who := s.sessions[at].value;
    var t := Rewrites(s, shape, who.id, to, shape.Blocks(who.contract.context), order, who.delivered.coarsest).0;
    RewritesRungs(s, shape, who.id, to, shape.Blocks(who.contract.context), order, who.delivered.coarsest);
    SameSessionsFind(s.sessions, t.sessions);
    FindIs(t.sessions, at);
    SameSessionsFind(s.sessions, Step(s, shape, who, to, order).0.sessions);
  }

  /** Who is where once the slots from `from` on have been deepened. */
  ghost predicate Deepened(a: Slots, b: Slots, rung: Rung, from: nat) {
    && SameSessions(a, b)
    && forall i :: 0 <= i < |a| && a[i].Some? ==>
         b[i].value.rung == if from <= i && Movable(a[i].value, rung) then rung else a[i].value.rung
  }

  lemma DeepenedOneMore(a: Slots, b: Slots, c: Slots, rung: Rung, from: nat)
    requires SameSessions(a, b) && Deepened(b, c, rung, from + 1)
    requires forall i :: 0 <= i < |a| && a[i].Some? ==>
      b[i].value.rung == if i == from && Movable(a[i].value, rung) then rung else a[i].value.rung
    ensures Deepened(a, c, rung, from)
  {}

  /** Deepening puts every session the rung would move on it, and leaves the
      rest where they were. */
  lemma {:induction false} DeepenMoves(s: State, shape: Shape, rung: Rung, from: nat, order: seq<ObjectId>)
    requires Counted(s) && DistinctIds(s.sessions) && |s.sessions| <= MAX_SESSIONS
    ensures var t := DeepenAll(s, shape, rung, from, order).0;
      Deepened(s.sessions, t.sessions, rung, from) && t.capacity == s.capacity && DistinctIds(t.sessions)
    decreases MAX_SESSIONS - from
  {
    hide Step, DistinctIds, Movable;
    if from < MAX_SESSIONS {
      var t := s;
      if from < |s.sessions| && s.sessions[from].Some? && Movable(s.sessions[from].value, rung) {
        StepMoves(s, shape, from, rung, order);
        t := Step(s, shape, s.sessions[from].value, rung, order).0;
      }
      DeepenMoves(t, shape, rung, from + 1, order);
      DeepenedOneMore(s.sessions, t.sessions, DeepenAll(t, shape, rung, from + 1, order).0.sessions, rung, from);
    }
  }

  // ----- it ends -----

  /** How much there is to give up: rungs left to each live session, and the
      session itself. */
  function Left(live: Slots): nat {
    if live == [] then 0 else (if live[0].Some? then 8 - live[0].value.rung.Depth() else 0) + Left(live[1..])
  }

  predicate NoHigher(a: Slots, b: Slots, i: nat)
    requires i < |a| && i < |b|
  {
    && (b[i].Some? ==> a[i].Some? && b[i].value.rung.Depth() >= a[i].value.rung.Depth())
  }

  /** Nobody climbs and nobody joins; strictly less is left if anyone goes
      deeper or leaves. */
  lemma {:induction false} LeftFalls(a: Slots, b: Slots)
    requires |a| == |b| && forall i :: 0 <= i < |a| ==> NoHigher(a, b, i)
    ensures Left(b) <= Left(a)
    ensures forall i :: 0 <= i < |a| && a[i].Some? && (b[i].None? || b[i].value.rung.Depth() > a[i].value.rung.Depth()) ==>
      Left(b) < Left(a)
  {
    if a != [] {
      assert forall i :: 0 <= i < |a[1..]| ==> a[1..][i] == a[i + 1] && b[1..][i] == b[i + 1];
      forall i | 0 <= i < |a[1..]| ensures NoHigher(a[1..], b[1..], i) { assert NoHigher(a, b, i + 1); }
      assert NoHigher(a, b, 0);
      LeftFalls(a[1..], b[1..]);
    }
  }

  lemma DeepenFalls(s: State, shape: Shape, rung: Rung, order: seq<ObjectId>)
    requires Counted(s) && DistinctIds(s.sessions) && |s.sessions| <= MAX_SESSIONS
    requires Shallowest(s.sessions) == Some(rung)
    ensures var t := DeepenAll(s, shape, rung, 0, order).0;
      Left(t.sessions) < Left(s.sessions) && |t.sessions| == |s.sessions| && DistinctIds(t.sessions)
  {
    hide DeepenAll;
    DeepenMoves(s, shape, rung, 0, order);
    var t := DeepenAll(s, shape, rung, 0, order).0;
    var i :| 0 <= i < |s.sessions| && s.sessions[i].Some? && WalkModel.Deeper(s.sessions[i].value) == Some(rung);
    forall j | 0 <= j < |s.sessions| ensures NoHigher(s.sessions, t.sessions, j) {}
    LeftFalls(s.sessions, t.sessions);
  }

  lemma {:induction false} DestroyWalkRungs(s: State, owner: SessionId, order: seq<ObjectId>, evicted: nat)
    requires Counted(s)
    ensures var t := DestroyWalk(s, owner, order, evicted).0;
      SameRungs(s.sessions, t.sessions) && t.capacity == s.capacity
    decreases |order|
  {
    hide Evict, SameRungs;
    SameRungsTwice(s.sessions, s.sessions, s.sessions);
    if order != [] {
      var id := order[0];
      if id !in s.objects || s.objects[id].owner != owner || owner == 0 {
        DestroyWalkRungs(s, owner, order[1..], evicted);
      } else if !s.objects[id].Resident() {
        DestroyWalkRungs(s.(objects := s.objects - {id}), owner, order[1..], evicted);
      } else {
        EvictRungs(s, id);
        var (t, r) := Evict(s, id);
        if r.Ok? {
          var u := t.(objects := t.objects - {id});
          DestroyWalkRungs(u, owner, order[1..], evicted + 1);
          SameRungsTwice(s.sessions, t.sessions, DestroyWalk(u, owner, order[1..], evicted + 1).0.sessions);
        }
      }
    }
  }

  lemma DestroyFalls(s: State, id: SessionId, order: seq<ObjectId>)
    requires Counted(s) && DistinctIds(s.sessions) && DestroySession(s, id, order).1.Ok?
    ensures var t := DestroySession(s, id, order).0;
      && Left(t.sessions) < Left(s.sessions) && |t.sessions| == |s.sessions| && DistinctIds(t.sessions)
      && t.capacity == s.capacity && OneFewer(s.sessions, t.sessions, id)
  {
    DestroyWalkRungs(s, id, order, 0);
    var walked := DestroyWalk(s, id, order, 0).0;
    SameSessionsFind(s.sessions, walked.sessions);
    var t := DestroySession(s, id, order).0;
    forall j | 0 <= j < |s.sessions| ensures NoHigher(s.sessions, t.sessions, j) {}
    LeftFalls(s.sessions, t.sessions);
    var i := FindAt(walked.sessions, id).value;
    assert s.sessions[i].Some? && t.sessions[i].None?;
  }

  /** `b` is `a` without `id`, everybody else on the same rung. */
  ghost predicate OneFewer(a: Slots, b: Slots, id: SessionId) {
    |a| == |b| && forall i :: 0 <= i < |a| ==>
      if b[i].None? then a[i].None? || a[i].value.id == id
      else a[i].Some? && a[i].value.id == b[i].value.id && a[i].value.contract == b[i].value.contract
           && a[i].value.rung == b[i].value.rung
  }

  // ----- the walk -----

  datatype Squeezed = Squeezed(reached: Rung, recomputed: nat, terminated: nat, fits: bool)

  const UNSQUEEZED := Squeezed(L0, 0, 0, false)

  function DeeperOf(a: Rung, b: Rung): Rung { if b.Depth() > a.Depth() then b else a }

  /** A manager a walk can be run on. */
  ghost predicate Ready(s: State) { Counted(s) && DistinctIds(s.sessions) && |s.sessions| <= MAX_SESSIONS }

  /** The loop of `squeeze`: what it leaves, what it did, and whether nothing
      refused. It ends because each pass leaves less to give up. */
  ghost function Squeeze(s: State, shape: Shape, order: seq<ObjectId>, done: Squeezed): (r: (State, Squeezed, bool))
    requires Ready(s)
    ensures Counted(r.0)
    decreases Left(s.sessions)
  {
    match Next(s.capacity, shape, s.sessions)
    case Fits => (s, done.(fits := true), true)
    case Exhausted => (s, done.(reached := DeeperOf(done.reached, L6)), true)
    case Deepen(rung) =>
      DeepenFalls(s, shape, rung, order);
      var (t, read, calm) := DeepenAll(s, shape, rung, 0, order);
      var (u, last, smooth) :=
        Squeeze(t, shape, order, done.(reached := DeeperOf(done.reached, rung), recomputed := done.recomputed + read));
      (u, last, calm && smooth)
    case Terminate(id) =>
      var (t, r) := DestroySession(s, id, order);
      if r.Ok? then
        DestroyFalls(s, id, order);
        Squeeze(t, shape, order, done.(reached := DeeperOf(done.reached, L7), terminated := done.terminated + 1))
      else (t, done.(reached := DeeperOf(done.reached, L6)), false)
  }

  /** `squeeze`: sets the budget and walks. */
  ghost function SqueezeTo(s: State, shape: Shape, bytes: nat, order: seq<ObjectId>): (r: (State, Squeezed, bool))
    requires Ready(s)
    ensures Counted(r.0)
  {
    Squeeze(s.(capacity := s.capacity.(bytes := bytes)), shape, order, UNSQUEEZED)
  }

  // ----- what it promises -----

  /** Nobody new, nobody's contract changed, nobody higher; and nobody moved
      past a floor or onto the last two rungs. */
  ghost predicate Descended(a: Slots, b: Slots) {
    |a| == |b| && forall i :: 0 <= i < |a| ==> Descends(a[i], b[i])
  }

  predicate Descends(a: Option<Session>, b: Option<Session>) {
    b.Some? ==>
      && a.Some? && a.value.id == b.value.id && a.value.contract == b.value.contract
      && a.value.rung.Depth() <= b.value.rung.Depth()
      && (b.value.rung == a.value.rung
          || (b.value.rung.Depth() <= L5.Depth() && b.value.contract.Permits(b.value.rung.Quality())))
  }

  lemma DescendedTwice(a: Slots, b: Slots, c: Slots)
    requires Descended(a, b) && Descended(b, c)
    ensures Descended(a, c)
  {
    forall i | 0 <= i < |a| ensures Descends(a[i], c[i]) { assert Descends(a[i], b[i]) && Descends(b[i], c[i]); }
  }

  /** One pass moved this session one rung, or not at all. */
  predicate OneRung(a: Option<Session>, b: Option<Session>) {
    && (a.Some? <==> b.Some?)
    && (a.Some? ==> b.value.rung == a.value.rung || a.value.rung.Deeper() == Some(b.value.rung))
  }

  lemma PassIsOneRung(a: Slots, b: Slots, rung: Rung)
    requires Deepened(a, b, rung, 0) && Shallowest(a) == Some(rung)
    ensures Descended(a, b)
    ensures forall i :: 0 <= i < |a| ==> OneRung(a[i], b[i])
  {
    hide Shallowest;
    forall i | 0 <= i < |a| ensures OneRung(a[i], b[i]) && Descends(a[i], b[i]) {
      if a[i].Some? && Movable(a[i].value, rung) { OneRungAtATime(a, i, rung); }
    }
  }

  /** One pass: everyone it moves goes one rung, to one they may be on. */
  lemma PassMovesOneRung(s: State, shape: Shape, rung: Rung, order: seq<ObjectId>)
    requires Ready(s) && Shallowest(s.sessions) == Some(rung)
    ensures var t := DeepenAll(s, shape, rung, 0, order).0;
      && Descended(s.sessions, t.sessions)
      && forall i :: 0 <= i < |s.sessions| ==> OneRung(s.sessions[i], t.sessions[i])
  {
    hide DeepenAll, Shallowest, Descended;
    DeepenMoves(s, shape, rung, 0, order);
    PassIsOneRung(s.sessions, DeepenAll(s, shape, rung, 0, order).0.sessions, rung);
  }

  lemma FewerDescended(a: Slots, b: Slots, id: SessionId)
    requires OneFewer(a, b, id)
    ensures Descended(a, b)
  {}

  lemma SameDescended(a: Slots)
    ensures Descended(a, a)
  {}

  /** Safety over a whole squeeze: nobody climbs, passes its floor or is put on
      the last two rungs. */
  lemma {:induction false} SqueezeDescends(s: State, shape: Shape, order: seq<ObjectId>, done: Squeezed)
    requires Ready(s)
    ensures var t := Squeeze(s, shape, order, done).0; Descended(s.sessions, t.sessions) && t.capacity == s.capacity
    decreases Left(s.sessions)
  {
    hide DeepenAll, DestroySession, FitsBudget, Descended, Next, Left, OneFewer, DistinctIds, DeeperOf;
    match Next(s.capacity, shape, s.sessions)
    case Fits => SameDescended(s.sessions);
    case Exhausted => SameDescended(s.sessions);
    case Deepen(rung) =>
      NextDeepens(s.capacity, shape, s.sessions, rung);
      DeepenFalls(s, shape, rung, order);
      DeepenKeeps(s, shape, rung, order);
      PassMovesOneRung(s, shape, rung, order);
      var (t, read, calm) := DeepenAll(s, shape, rung, 0, order);
      var now := done.(reached := DeeperOf(done.reached, rung), recomputed := done.recomputed + read);
      SqueezeDescends(t, shape, order, now);
      DescendedTwice(s.sessions, t.sessions, Squeeze(t, shape, order, now).0.sessions);
    case Terminate(id) =>
      var (t, r) := DestroySession(s, id, order);
      if r.Ok? {
        DestroyFalls(s, id, order);
        FewerDescended(s.sessions, t.sessions, id);
        var now := done.(reached := DeeperOf(done.reached, L7), terminated := done.terminated + 1);
        SqueezeDescends(t, shape, order, now);
        DescendedTwice(s.sessions, t.sessions, Squeeze(t, shape, order, now).0.sessions);
      } else {
        RefusedLeaves(s, id, order);
      }
  }

  /** A squeeze stops only with the sessions fitting, with nothing left to
      give up, or at a release the arena refused; and says which. */
  lemma {:induction false} SqueezeStops(s: State, shape: Shape, order: seq<ObjectId>, done: Squeezed)
    requires Ready(s) && !done.fits
    ensures var (t, last, smooth) := Squeeze(s, shape, order, done);
      && (last.fits ==> FitsBudget(t.capacity, shape, t.sessions))
      && (!last.fits && smooth ==> Next(t.capacity, shape, t.sessions) == Exhausted)
    decreases Left(s.sessions)
  {
    hide DeepenAll, DestroySession, FitsBudget, Next, Left, OneFewer, DistinctIds, DeeperOf;
    NextFits(s.capacity, shape, s.sessions);
    match Next(s.capacity, shape, s.sessions)
    case Fits =>
    case Exhausted =>
    case Deepen(rung) =>
      NextDeepens(s.capacity, shape, s.sessions, rung);
      DeepenFalls(s, shape, rung, order);
      var (t, read, calm) := DeepenAll(s, shape, rung, 0, order);
      SqueezeStops(t, shape, order, done.(reached := DeeperOf(done.reached, rung), recomputed := done.recomputed + read));
    case Terminate(id) =>
      var (t, r) := DestroySession(s, id, order);
      if r.Ok? {
        DestroyFalls(s, id, order);
        SqueezeStops(t, shape, order, done.(reached := DeeperOf(done.reached, L7), terminated := done.terminated + 1));
      }
  }

  lemma DeepenKeeps(s: State, shape: Shape, rung: Rung, order: seq<ObjectId>)
    requires Ready(s)
    ensures DeepenAll(s, shape, rung, 0, order).0.capacity == s.capacity
  {
    DeepenMoves(s, shape, rung, 0, order);
  }

  lemma NextFits(c: Admission.Capacity, shape: Shape, live: Slots)
    ensures Next(c, shape, live) == Fits ==> FitsBudget(c, shape, live)
  {}

  lemma NextDeepens(c: Admission.Capacity, shape: Shape, live: Slots, rung: Rung)
    ensures Next(c, shape, live) == Move.Deepen(rung) ==> Shallowest(live) == Some(rung)
  {}

  /** A session that could not be ended is still there. */
  lemma RefusedLeaves(s: State, id: SessionId, order: seq<ObjectId>)
    requires Counted(s) && DestroySession(s, id, order).1.Err?
    ensures var t := DestroySession(s, id, order).0; Descended(s.sessions, t.sessions) && t.capacity == s.capacity
  {
    DestroyWalkRungs(s, id, order, 0);
  }
}
