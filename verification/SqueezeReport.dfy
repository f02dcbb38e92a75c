/** What a squeeze reports: how deep it went, whom it ended, what it read. */
module SqueezeReport {
  import opened Basics
  import opened Abi
  import opened MetaModel
  import opened SessionModel
  import opened Kernel
  import opened LadderModel
  import opened WalkModel
  import opened SqueezeModel

  // ----- what is read -----

  /** What walking from one rung to a deeper one reads, rung by rung. */
  function WalkCost(shape: Shape, from: Rung, to: Rung, context: nat, kv: nat): nat
    decreases 8 - from.Depth()
  {
    if from.Depth() >= to.Depth() then 0
    else shape.Cost(from, from.Deeper().value, context, kv) + WalkCost(shape, from.Deeper().value, to, context, kv)
  }

  /** What a session that is in both has been walked. */
  function Walked(shape: Shape, kv: nat, a: Option<Session>, b: Option<Session>): nat {
    if a.Some? && b.Some? then WalkCost(shape, a.value.rung, b.value.rung, a.value.contract.context, kv) else 0
  }

  function AllWalked(shape: Shape, kv: nat, a: Slots, b: Slots): nat
    requires |a| == |b|
  {
    if a == [] then 0 else Walked(shape, kv, a[0], b[0]) + AllWalked(shape, kv, a[1..], b[1..])
  }

  lemma {:induction false} WalkCostOn(shape: Shape, a: Rung, b: Rung, c: Rung, context: nat, kv: nat)
    requires a.Depth() <= b.Depth() <= c.Depth()
    ensures WalkCost(shape, a, c, context, kv) == WalkCost(shape, a, b, context, kv) + WalkCost(shape, b, c, context, kv)
    decreases 8 - a.Depth()
  {
    hide Shape.Cost;
    if a.Depth() < b.Depth() { WalkCostOn(shape, a.Deeper().value, b, c, context, kv); } else { SameDepth(a, b); }
  }

  lemma SameDepth(a: Rung, b: Rung)
    ensures a.Depth() == b.Depth() ==> a == b
  {}

  /** Descending in two goes is descending in one, for whoever is still there. */
  lemma {:induction false} AllWalkedOn(shape: Shape, kv: nat, a: Slots, b: Slots, c: Slots)
    requires Descended(a, b) && Descended(b, c)
    ensures |a| == |b| == |c|
    ensures AllWalked(shape, kv, a, c) <= AllWalked(shape, kv, a, b) + AllWalked(shape, kv, b, c)
    ensures (forall i :: 0 <= i < |a| && a[i].Some? ==> c[i].Some?) ==>
      AllWalked(shape, kv, a, c) == AllWalked(shape, kv, a, b) + AllWalked(shape, kv, b, c)
  {
    hide WalkCost;
    if a != [] {
      DescendedTail(a, b);
      DescendedTail(b, c);
      AllWalkedOn(shape, kv, a[1..], b[1..], c[1..]);
      assert Descends(a[0], b[0]) && Descends(b[0], c[0]);
      if c[0].Some? {
        WalkCostOn(shape, a[0].value.rung, b[0].value.rung, c[0].value.rung, a[0].value.contract.context, kv);
      }
      if forall i :: 0 <= i < |a| && a[i].Some? ==> c[i].Some? {
        forall i | 0 <= i < |a[1..]| && a[1..][i].Some? ensures c[1..][i].Some? { assert a[i + 1].Some?; }
      }
    }
  }

  lemma DescendedTail(a: Slots, b: Slots)
    requires Descended(a, b) && a != []
    ensures b != [] && Descended(a[1..], b[1..])
  {
    forall i | 0 <= i < |a[1..]| ensures Descends(a[1..][i], b[1..][i]) { assert Descends(a[i + 1], b[i + 1]); }
  }

  /** What a pass reads of the slots from `from` on. */
  function PassCost(shape: Shape, kv: nat, live: Slots, rung: Rung, from: nat): nat
    decreases |live| - from
  {
    if from >= |live| then 0
    else
      (if live[from].Some? && Movable(live[from].value, rung)
       then shape.Cost(live[from].value.rung, rung, live[from].value.contract.context, kv) else 0)
      + PassCost(shape, kv, live, rung, from + 1)
  }

  lemma {:induction false} SamePassCost(shape: Shape, kv: nat, a: Slots, b: Slots, rung: Rung, from: nat)
    requires SameSessions(a, b) && forall i :: from <= i < |a| && a[i].Some? ==> b[i].value.rung == a[i].value.rung
    ensures PassCost(shape, kv, a, rung, from) == PassCost(shape, kv, b, rung, from)
    decreases |a| - from
  {
    if from < |a| { SamePassCost(shape, kv, a, b, rung, from + 1); }
  }

  lemma {:induction false} PassReads(s: State, shape: Shape, rung: Rung, from: nat, order: seq<ObjectId>)
    requires Counted(s) && DistinctIds(s.sessions) && |s.sessions| <= MAX_SESSIONS
    ensures DeepenAll(s, shape, rung, from, order).1 == PassCost(shape, s.capacity.kvPerToken, s.sessions, rung, from)
    decreases MAX_SESSIONS - from
  {
    hide DistinctIds, Movable, Shape.Cost, Rewrites;
    if from < MAX_SESSIONS {
      if from < |s.sessions| && s.sessions[from].Some? && Movable(s.sessions[from].value, rung) {
        StepMoves(s, shape, from, rung, order);
        StepReads(s, shape, from, rung, order);
        var t := SqueezeModel.Step(s, shape, s.sessions[from].value, rung, order).0;
        PassReads(t, shape, rung, from + 1, order);
        SamePassCost(shape, s.capacity.kvPerToken, s.sessions, t.sessions, rung, from + 1);
      } else {
        PassReads(s, shape, rung, from + 1, order);
      }
    }
  }

  lemma StepReads(s: State, shape: Shape, at: nat, to: Rung, order: seq<ObjectId>)
    requires Counted(s) && at < |s.sessions| && s.sessions[at].Some?
    ensures var who := s.sessions[at].value;
      SqueezeModel.Step(s, shape, who, to, order).1
        == shape.Cost(who.rung, to, who.contract.context, s.capacity.kvPerToken)
  {
    hide Rewrites, Shape.Cost;
    var who := s.sessions[at].value;
    RewritesRungs(s, shape, who.id, to, shape.Blocks(who.contract.context), order, who.delivered.coarsest);
  }

  /** A pass reads what it walks. */
  lemma {:induction false} PassWalks(shape: Shape, kv: nat, a: Slots, b: Slots, rung: Rung)
    requires Deepened(a, b, rung, 0)
    requires forall i :: 0 <= i < |a| && a[i].Some? && Movable(a[i].value, rung) ==> a[i].value.rung.Deeper() == Some(rung)
    ensures PassCost(shape, kv, a, rung, 0) == AllWalked(shape, kv, a, b)
    decreases |a|
  {
    hide Movable, Shape.Cost, WalkCost;
    if a != [] {
      assert forall i :: 0 <= i < |a[1..]| ==> a[1..][i] == a[i + 1] && b[1..][i] == b[i + 1];
      PassWalks(shape, kv, a[1..], b[1..], rung);
      PassCostTail(shape, kv, a, rung, 0);
      if a[0].Some? {
        if Movable(a[0].value, rung) {
          OneRungWalk(shape, a[0].value.rung, rung, a[0].value.contract.context, kv);
        } else {
          NoWalk(shape, a[0].value.rung, a[0].value.contract.context, kv);
        }
      }
    }
  }

  lemma {:induction false} PassCostTail(shape: Shape, kv: nat, live: Slots, rung: Rung, from: nat)
    requires live != []
    ensures PassCost(shape, kv, live, rung, from + 1) == PassCost(shape, kv, live[1..], rung, from)
    decreases |live| - from
  {
    hide Movable, Shape.Cost;
    if from + 1 < |live| { PassCostTail(shape, kv, live, rung, from + 1); }
  }

  lemma OneRungWalk(shape: Shape, from: Rung, to: Rung, context: nat, kv: nat)
    requires from.Deeper() == Some(to)
    ensures WalkCost(shape, from, to, context, kv) == shape.Cost(from, to, context, kv)
  {
    hide Shape.Cost;
    NoWalk(shape, to, context, kv);
  }

  lemma NoWalk(shape: Shape, rung: Rung, context: nat, kv: nat)
    ensures WalkCost(shape, rung, rung, context, kv) == 0
  {}

  // ----- the report -----

  /** How many were live before and are not now. */
  ghost function Ended(a: Slots, b: Slots): int { LiveCount(a) - LiveCount(b) }

  /** A report so far: L7 says somebody was ended, and nothing says L6. */
  predicate Running(done: Squeezed) {
    !done.fits && done.reached != L6 && (done.reached == L7 <==> done.terminated > 0)
  }

  predicate MovedTo(a: Option<Session>, b: Option<Session>, rung: Rung) {
    a.Some? && b.Some? && a.value.rung != rung && b.value.rung == rung
  }

  /** Whoever was moved is on this rung or a shallower one. */
  predicate MovedWithin(a: Option<Session>, b: Option<Session>, rung: Rung) {
    a.Some? && b.Some? && a.value.rung != b.value.rung ==> b.value.rung.Depth() <= rung.Depth()
  }

  /** What a report says of the sessions before and after: as many ended as are
      gone; at least what the ones left were walked was read, and exactly that
      if none is gone; and where it reached. */
  ghost predicate Reports(shape: Shape, kv: nat, a: Slots, b: Slots, done: Squeezed, last: Squeezed) {
    && Descended(a, b)
    && last.terminated == done.terminated + Ended(a, b)
    && last.recomputed >= done.recomputed + AllWalked(shape, kv, a, b)
    && (Ended(a, b) == 0 ==> last.recomputed == done.recomputed + AllWalked(shape, kv, a, b))
    && last.reached.Depth() >= done.reached.Depth()
    && (forall i :: 0 <= i < |a| ==> MovedWithin(a[i], b[i], last.reached))
    && (last.reached == done.reached || last.reached.Depth() >= L6.Depth()
        || exists i :: 0 <= i < |a| && MovedTo(a[i], b[i], last.reached))
    && (last.reached.Depth() < L7.Depth() ==> Ended(a, b) == 0)
  }

  lemma {:induction false} LiveCountFalls(a: Slots, b: Slots)
    requires Descended(a, b)
    ensures |a| == |b| && Ended(a, b) >= 0
    ensures Ended(a, b) == 0 ==> forall i :: 0 <= i < |a| && a[i].Some? ==> b[i].Some?
  {
    if a != [] {
      DescendedTail(a, b);
      LiveCountFalls(a[1..], b[1..]);
      assert Descends(a[0], b[0]);
      if Ended(a, b) == 0 {
        forall i | 0 <= i < |a| && a[i].Some? ensures b[i].Some? { if i > 0 { assert a[1..][i - 1].Some?; } }
      }
    }
  }

  lemma {:induction false} NobodyWalked(shape: Shape, kv: nat, a: Slots, b: Slots)
    requires |a| == |b| && forall i :: 0 <= i < |a| && a[i].Some? && b[i].Some? ==> a[i].value.rung == b[i].value.rung
    ensures AllWalked(shape, kv, a, b) == 0
  {
    hide Shape.Cost;
    if a != [] {
      assert forall i :: 0 <= i < |a[1..]| ==> a[1..][i] == a[i + 1] && b[1..][i] == b[i + 1];
      NobodyWalked(shape, kv, a[1..], b[1..]);
    }
  }

  lemma {:induction false} SameLive(a: Slots, b: Slots)
    requires |a| == |b| && forall i :: 0 <= i < |a| ==> (a[i].Some? <==> b[i].Some?)
    ensures LiveCount(a) == LiveCount(b)
  {
    if a != [] {
      assert forall i :: 0 <= i < |a[1..]| ==> a[1..][i] == a[i + 1] && b[1..][i] == b[i + 1];
      SameLive(a[1..], b[1..]);
    }
  }

  /** Two stretches of a squeeze, put together. */
  lemma ReportsTwice(shape: Shape, kv: nat, a: Slots, b: Slots, c: Slots, done: Squeezed, mid: Squeezed, last: Squeezed)
    requires Reports(shape, kv, a, b, done, mid) && Reports(shape, kv, b, c, mid, last)
    ensures Reports(shape, kv, a, c, done, last)
  {
    hide AllWalked;
    DescendedTwice(a, b, c);
    LiveCountFalls(a, b);
    LiveCountFalls(b, c);
    AllWalkedOn(shape, kv, a, b, c);
    forall i | 0 <= i < |a| ensures MovedWithin(a[i], c[i], last.reached) {
      assert MovedWithin(a[i], b[i], mid.reached) && MovedWithin(b[i], c[i], last.reached);
      assert Descends(a[i], b[i]) && Descends(b[i], c[i]);
    }
    if last.reached != done.reached && last.reached.Depth() < L6.Depth() { StillReached(a, b, c, done, mid, last); }
  }

  /** Whoever is on the deepest rung reached stays there. */
  lemma StillReached(a: Slots, b: Slots, c: Slots, done: Squeezed, mid: Squeezed, last: Squeezed)
    requires Descended(a, b) && Descended(b, c) && Ended(a, b) == 0 && Ended(b, c) == 0
    requires forall i :: 0 <= i < |b| ==> MovedWithin(b[i], c[i], last.reached)
    requires last.reached != done.reached && last.reached.Depth() < L6.Depth() && mid.reached.Depth() <= last.reached.Depth()
    requires mid.reached == done.reached || mid.reached.Depth() >= L6.Depth()
      || exists i :: 0 <= i < |a| && MovedTo(a[i], b[i], mid.reached)
    requires last.reached == mid.reached || exists i :: 0 <= i < |b| && MovedTo(b[i], c[i], last.reached)
    ensures exists i :: 0 <= i < |a| && MovedTo(a[i], c[i], last.reached)
  {
    LiveCountFalls(a, b);
    LiveCountFalls(b, c);
    if last.reached == mid.reached {
      var i :| 0 <= i < |a| && MovedTo(a[i], b[i], mid.reached);
      assert Descends(b[i], c[i]) && MovedWithin(b[i], c[i], last.reached);
      SameDepth(b[i].value.rung, c[i].value.rung);
      assert MovedTo(a[i], c[i], last.reached);
    } else {
      var i :| 0 <= i < |b| && MovedTo(b[i], c[i], last.reached);
      assert Descends(a[i], b[i]) && Descends(b[i], c[i]);
      if a[i].value.rung == last.reached { SameDepth(b[i].value.rung, c[i].value.rung); }
      assert MovedTo(a[i], c[i], last.reached);
    }
  }

  // ----- each turn -----

  lemma PassReports(s: State, shape: Shape, rung: Rung, order: seq<ObjectId>, done: Squeezed)
    requires Ready(s) && Shallowest(s.sessions) == Some(rung)
    ensures var (t, read, calm) := DeepenAll(s, shape, rung, 0, order);
      Reports(shape, s.capacity.kvPerToken, s.sessions, t.sessions, done,
        done.(reached := DeeperOf(done.reached, rung), recomputed := done.recomputed + read))
  {
    hide DeepenAll, Shallowest, AllWalked, PassCost, Deepened, Descended, Reports, DeeperOf, DistinctIds, Movable;
    var (t, read, calm) := DeepenAll(s, shape, rung, 0, order);
    var kv := s.capacity.kvPerToken;
    DeepenMoves(s, shape, rung, 0, order);
    PassMovesOneRung(s, shape, rung, order);
    PassReads(s, shape, rung, 0, order);
    forall i | 0 <= i < |s.sessions| && s.sessions[i].Some? && Movable(s.sessions[i].value, rung)
      ensures s.sessions[i].value.rung.Deeper() == Some(rung)
    {
      OneRungAtATime(s.sessions, i, rung);
    }
    PassWalks(shape, kv, s.sessions, t.sessions, rung);
    OnePassReports(shape, kv, s.sessions, t.sessions, rung, done, read);
  }

  lemma OnePassReports(shape: Shape, kv: nat, a: Slots, b: Slots, rung: Rung, done: Squeezed, read: nat)
    requires Shallowest(a) == Some(rung) && Deepened(a, b, rung, 0) && Descended(a, b) && read == AllWalked(shape, kv, a, b)
    ensures Reports(shape, kv, a, b, done, done.(reached := DeeperOf(done.reached, rung), recomputed := done.recomputed + read))
  {
    hide Shallowest, AllWalked;
    SameLive(a, b);
    var reached := DeeperOf(done.reached, rung);
    forall i | 0 <= i < |a| ensures MovedWithin(a[i], b[i], reached) {}
    if reached != done.reached { SomebodyMoved(a, b, rung); }
  }

  lemma SomebodyMoved(a: Slots, b: Slots, rung: Rung)
    requires Shallowest(a) == Some(rung) && Deepened(a, b, rung, 0)
    ensures exists i :: 0 <= i < |a| && MovedTo(a[i], b[i], rung)
  {
    var i :| 0 <= i < |a| && a[i].Some? && WalkModel.Deeper(a[i].value) == Some(rung);
    assert MovedTo(a[i], b[i], rung);
  }

  /** Nobody moved and nobody left. */
  lemma StandingReports(shape: Shape, kv: nat, a: Slots, b: Slots, done: Squeezed, last: Squeezed)
    requires SameRungs(a, b) && last.terminated == done.terminated && last.recomputed == done.recomputed
    requires last.reached == done.reached || (last.reached.Depth() >= L6.Depth() && last.reached.Depth() >= done.reached.Depth())
    ensures Reports(shape, kv, a, b, done, last)
  {
    hide AllWalked;
    NobodyWalked(shape, kv, a, b);
    SameLive(a, b);
    forall i | 0 <= i < |a| ensures MovedWithin(a[i], b[i], last.reached) && Descends(a[i], b[i]) {}
  }

  lemma EndingReports(s: State, shape: Shape, id: SessionId, order: seq<ObjectId>, done: Squeezed)
    requires Ready(s) && DestroySession(s, id, order).1.Ok?
    ensures var t := DestroySession(s, id, order).0;
      Reports(shape, s.capacity.kvPerToken, s.sessions, t.sessions, done,
        done.(reached := DeeperOf(done.reached, L7), terminated := done.terminated + 1))
  {
    hide DestroyWalk, AllWalked, LiveCount, OneFewer;
    var t := DestroySession(s, id, order).0;
    DestroyFalls(s, id, order);
    FewerDescended(s.sessions, t.sessions, id);
    var walked := DestroyWalk(s, id, order, 0).0;
    DestroyWalkRungs(s, id, order, 0);
    SameLive(s.sessions, walked.sessions);
    LiveCountCleared(walked.sessions, FindAt(walked.sessions, id).value);
    OneFewerWalks(shape, s.capacity.kvPerToken, s.sessions, t.sessions, id, DeeperOf(done.reached, L7));
  }

  lemma OneFewerWalks(shape: Shape, kv: nat, a: Slots, b: Slots, id: SessionId, reached: Rung)
    requires OneFewer(a, b, id)
    ensures |a| == |b| && AllWalked(shape, kv, a, b) == 0
    ensures forall i :: 0 <= i < |a| ==> MovedWithin(a[i], b[i], reached)
  {
    hide AllWalked;
    NobodyWalked(shape, kv, a, b);
  }

  lemma {:induction false} LiveCountCleared(slots: Slots, i: nat)
    requires i < |slots| && slots[i].Some?
    ensures LiveCount(slots[i := None]) == LiveCount(slots) - 1
  {
    if i == 0 {
      assert slots[i := None][1..] == slots[1..];
    } else {
      assert slots[i := None][1..] == slots[1..][i - 1 := None];
      LiveCountCleared(slots[1..], i - 1);
    }
  }

  // ----- the whole squeeze -----

  /** Whatever a squeeze goes on from, what it reports is what it did; and it
      says L7 exactly if somebody was ended, and otherwise L6 exactly if what is
      held does not fit. */
  lemma {:induction false} SqueezeReports(s: State, shape: Shape, order: seq<ObjectId>, done: Squeezed)
    requires Ready(s) && Running(done)
    ensures var (t, last, smooth) := Squeeze(s, shape, order, done);
      && Reports(shape, s.capacity.kvPerToken, s.sessions, t.sessions, done, last)
      && (last.reached == L7 <==> last.terminated > 0)
      && (last.terminated == 0 ==> (last.reached == L6 <==> !last.fits))
    decreases Left(s.sessions)
  {
    hide DeepenAll, DestroySession, FitsBudget, Next, Left, OneFewer, DistinctIds, Reports, DeeperOf, Running, AllWalked;
    RunningOn(done);
    var kv := s.capacity.kvPerToken;
    SameRungsTwice(s.sessions, s.sessions, s.sessions);
    match Next(s.capacity, shape, s.sessions)
    case Fits => StandingReports(shape, kv, s.sessions, s.sessions, done, done.(fits := true));
    case Exhausted =>
      StandingReports(shape, kv, s.sessions, s.sessions, done, done.(reached := DeeperOf(done.reached, L6)));
    case Deepen(rung) =>
      NextDeepens(s.capacity, shape, s.sessions, rung);
      DeepenFalls(s, shape, rung, order);
      DeepenKeeps(s, shape, rung, order);
      PassReports(s, shape, rung, order, done);
      ShallowEnough(s.sessions, rung);
      var (t, read, calm) := DeepenAll(s, shape, rung, 0, order);
      var now := done.(reached := DeeperOf(done.reached, rung), recomputed := done.recomputed + read);
      RunsOn(done, rung, read);
      SqueezeReports(t, shape, order, now);
      var (u, last, smooth) := Squeeze(t, shape, order, now);
      ReportsTwice(shape, kv, s.sessions, t.sessions, u.sessions, done, now, last);
    case Terminate(id) =>
      var (t, r) := DestroySession(s, id, order);
      if r.Ok? {
        DestroyFalls(s, id, order);
        EndingReports(s, shape, id, order, done);
        var now := done.(reached := DeeperOf(done.reached, L7), terminated := done.terminated + 1);
        SqueezeReports(t, shape, order, now);
        var (u, last, smooth) := Squeeze(t, shape, order, now);
        ReportsTwice(shape, kv, s.sessions, t.sessions, u.sessions, done, now, last);
      } else {
        RefusedStands(s, id, order);
        StandingReports(shape, kv, s.sessions, t.sessions, done, done.(reached := DeeperOf(done.reached, L6)));
      }
  }

  /** What a report becomes, and what it says if it stops here. */
  lemma RunsOn(done: Squeezed, rung: Rung, read: nat)
    requires Running(done) && rung.Depth() <= L5.Depth()
    ensures Running(done.(reached := DeeperOf(done.reached, rung), recomputed := done.recomputed + read))
  {}

  lemma RunningOn(done: Squeezed)
    requires Running(done)
    ensures Running(done.(reached := DeeperOf(done.reached, L7), terminated := done.terminated + 1))
    ensures !done.fits && done.reached != L6 && (done.reached == L7 <==> done.terminated > 0)
    ensures DeeperOf(done.reached, L6) == if done.reached == L7 then L7 else L6
  {}

  lemma ShallowEnough(live: Slots, rung: Rung)
    requires Shallowest(live) == Some(rung)
    ensures rung.Depth() <= L5.Depth()
  {}

  lemma RefusedStands(s: State, id: SessionId, order: seq<ObjectId>)
    requires Counted(s) && DestroySession(s, id, order).1.Err?
    ensures SameRungs(s.sessions, DestroySession(s, id, order).0.sessions)
  {
    DestroyWalkRungs(s, id, order, 0);
  }

  /** A squeeze from the start: it says how many it ended; what it read, which is
      what walking each session from the rung it had to the rung it has reads,
      rung by rung, if none was ended, and at least that for those left if some
      were; and how deep it went: L7 if anybody was ended, L6 if nobody was and
      it does not fit, and else the deepest rung it moved anybody to, or L0. */
  lemma ReportIsTrue(s: State, shape: Shape, bytes: nat, order: seq<ObjectId>)
    requires Ready(s)
    ensures var (t, done, smooth) := SqueezeTo(s, shape, bytes, order);
      var a, b, kv := s.sessions, t.sessions, s.capacity.kvPerToken;
      && |a| == |b| && done.terminated == LiveCount(a) - LiveCount(b)
      && done.recomputed >= AllWalked(shape, kv, a, b)
      && (done.terminated == 0 ==> done.recomputed == AllWalked(shape, kv, a, b))
      && (done.reached == L7 <==> done.terminated > 0)
      && (done.terminated == 0 ==> (done.reached == L6 <==> !done.fits))
      && (done.terminated == 0 && done.fits ==>
            && (forall i :: 0 <= i < |a| ==> MovedWithin(a[i], b[i], done.reached))
            && (done.reached == L0 || exists i :: 0 <= i < |a| && MovedTo(a[i], b[i], done.reached)))
  {
    hide Squeeze, AllWalked, LiveCount;
    SqueezeReports(s.(capacity := s.capacity.(bytes := bytes)), shape, order, UNSQUEEZED);
  }

  // ----- what each session is told -----

  /** One of the session's blocks among these, and what a rung makes of it. */
  predicate Becomes(s: State, shape: Shape, owner: SessionId, rung: Rung, blocks: nat, id: ObjectId, p: Precision) {
    OwnBlock(s, id, owner) && shape.FateOf(rung, TensorOf(id), blocks).Precision() == Some(p)
  }

  ghost predicate NoneCoarser(s: State, shape: Shape, owner: SessionId, rung: Rung, blocks: nat, order: seq<ObjectId>,
                              worst: Precision)
  {
    forall id, p :: id in order && Becomes(s, shape, owner, rung, blocks, id, p) ==> p.Rank() <= worst.Rank()
  }

  /** The coarsest precision a walk leaves is what it was or what some block has
      become; and no block of a walk that is not refused is coarser. */
  lemma {:induction false} CoarsestIs(s: State, shape: Shape, owner: SessionId, rung: Rung, blocks: nat, order: seq<ObjectId>,
                                      coarsest: Precision)
    requires Counted(s)
    ensures var (t, worst, smooth) := Rewrites(s, shape, owner, rung, blocks, order, coarsest);
      && worst.Rank() >= coarsest.Rank()
      && (worst == coarsest || exists id :: id in order && Becomes(s, shape, owner, rung, blocks, id, worst))
      && (smooth ==> NoneCoarser(s, shape, owner, rung, blocks, order, worst))
    decreases |order|
  {
    hide Rewrite, Shape.FateOf, NoneCoarser, OwnBlock;
    NoneSoFar(s, shape, owner, rung, blocks, coarsest);
    if order != [] {
      var id, rest := order[0], order[1..];
      if !OwnBlock(s, id, owner) {
        CoarsestIs(s, shape, owner, rung, blocks, rest, coarsest);
        CoarsestOn(s, s, shape, owner, rung, blocks, order, Rewrites(s, shape, owner, rung, blocks, rest, coarsest).1);
      } else {
        var fate := shape.FateOf(rung, TensorOf(id), blocks);
        var (t, done) := Rewrite(s, id, fate);
        RewriteSpares(s, id, fate, owner);
        var next := if done.Ok? then Coarser(coarsest, fate) else coarsest;
        CoarsestIs(t, shape, owner, rung, blocks, rest, next);
        var (u, worst, smooth) := Rewrites(t, shape, owner, rung, blocks, rest, next);
        CoarsestOn(s, t, shape, owner, rung, blocks, order, worst);
        if worst == next && next != coarsest { assert Becomes(s, shape, owner, rung, blocks, id, worst); }
      }
    }
  }

  lemma NoneSoFar(s: State, shape: Shape, owner: SessionId, rung: Rung, blocks: nat, worst: Precision)
    ensures NoneCoarser(s, shape, owner, rung, blocks, [], worst)
  {}

  /** One block more, at the front. */
  lemma CoarsestOn(s: State, t: State, shape: Shape, owner: SessionId, rung: Rung, blocks: nat, order: seq<ObjectId>,
                   worst: Precision)
    requires order != []
    requires forall k :: OwnBlock(t, k, owner) ==> OwnBlock(s, k, owner)
    requires forall k :: k != order[0] && OwnBlock(s, k, owner) ==> OwnBlock(t, k, owner)
    ensures forall k, p :: Becomes(t, shape, owner, rung, blocks, k, p) ==> Becomes(s, shape, owner, rung, blocks, k, p)
    ensures var first := forall p :: Becomes(s, shape, owner, rung, blocks, order[0], p) ==> p.Rank() <= worst.Rank();
      first && NoneCoarser(t, shape, owner, rung, blocks, order[1..], worst) ==> NoneCoarser(s, shape, owner, rung, blocks, order, worst)
  {
    hide OwnBlock, Shape.FateOf;
    forall k, p | k in order && k != order[0] && Becomes(s, shape, owner, rung, blocks, k, p)
      ensures k in order[1..] && Becomes(t, shape, owner, rung, blocks, k, p) {}
  }

  /** A rewrite leaves every other block whose it was, and adds none. */
  lemma RewriteSpares(s: State, id: ObjectId, fate: Fate, owner: SessionId)
    requires Counted(s)
    ensures forall k :: OwnBlock(Rewrite(s, id, fate).0, k, owner) ==> OwnBlock(s, k, owner)
    ensures forall k :: k != id && OwnBlock(s, k, owner) ==> OwnBlock(Rewrite(s, id, fate).0, k, owner)
  {
    hide Resized, ClassOf;
  }

  /** What a step tells its session: the rung it is on, the deepest it has been
      on, what the move read on top of what it had, and the coarsest precision it
      has been left at; nothing else of its record changes but its account. */
  lemma StepDelivers(s: State, shape: Shape, at: nat, to: Rung, order: seq<ObjectId>)
    requires Counted(s) && DistinctIds(s.sessions) && at < |s.sessions| && s.sessions[at].Some?
    ensures var who := s.sessions[at].value;
      var (t, read, smooth) := SqueezeModel.Step(s, shape, who, to, order);
      && |t.sessions| == |s.sessions| && t.sessions[at].Some?
      && var now := t.sessions[at].value;
         && now.rung == to && now.id == who.id && now.contract == who.contract
         && now.delivered.deepest.Depth() == Max(who.delivered.deepest.Depth(), to.Depth())
         && now.delivered.recomputed == Min(who.delivered.recomputed + read, U64_MAX)
         && now.delivered.coarsest.Rank() >= who.delivered.coarsest.Rank()
         && (smooth ==> NoneCoarser(s, shape, who.id, to, shape.Blocks(who.contract.context), order, now.delivered.coarsest))
         && now.delivered.worstPeriod == who.delivered.worstPeriod
         && now.delivered.peakResident == who.delivered.peakResident
  {
    hide Rewrites, Shape.Cost, Becomes;
    var who := s.sessions[at].value;
    var blocks := shape.Blocks(who.contract.context);
    var t := Rewrites(s, shape, who.id, to, blocks, order, who.delivered.coarsest).0;
    RewritesRungs(s, shape, who.id, to, blocks, order, who.delivered.coarsest);
    RewritesDelivered(s, shape, who.id, to, blocks, order, who.delivered.coarsest);
    CoarsestIs(s, shape, who.id, to, blocks, order, who.delivered.coarsest);
    SameSessionsFind(s.sessions, t.sessions);
    FindIs(t.sessions, at);
  }

  /** The same sessions, told the same. */
  ghost predicate SameDelivered(a: Slots, b: Slots) {
    |a| == |b| && forall i :: 0 <= i < |a| ==>
      (a[i].Some? <==> b[i].Some?) && (a[i].Some? ==> a[i].value.delivered == b[i].value.delivered)
  }

  lemma RewriteDelivered(s: State, id: ObjectId, fate: Fate)
    requires Counted(s)
    ensures SameDelivered(s.sessions, Rewrite(s, id, fate).0.sessions)
  {
    hide Resized;
  }

  lemma {:induction false} RewritesDelivered(s: State, shape: Shape, owner: SessionId, rung: Rung, blocks: nat,
                                             order: seq<ObjectId>, coarsest: Precision)
    requires Counted(s)
    ensures SameDelivered(s.sessions, Rewrites(s, shape, owner, rung, blocks, order, coarsest).0.sessions)
    decreases |order|
  {
    hide Rewrite, OwnBlock, Shape.FateOf;
    if order != [] {
      if !OwnBlock(s, order[0], owner) {
        RewritesDelivered(s, shape, owner, rung, blocks, order[1..], coarsest);
      } else {
        var fate := shape.FateOf(rung, TensorOf(order[0]), blocks);
        RewriteDelivered(s, order[0], fate);
        var (t, done) := Rewrite(s, order[0], fate);
        RewritesDelivered(t, shape, owner, rung, blocks, order[1..], if done.Ok? then Coarser(coarsest, fate) else coarsest);
      }
    }
  }
}
