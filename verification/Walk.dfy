/** The ladder's next move, over a capacity and the live sessions alone. */
module WalkModel {
  import opened Basics
  import opened MetaModel
  import opened SessionModel
  import opened LadderModel
  import Admission

  datatype Move = Fits | Deepen(rung: Rung) | Terminate(id: SessionId) | Exhausted

  /** One `rung` would move: a declared context, shallower, a rung a session
      can be on, and a floor that permits its quality. */
  predicate Movable(s: Session, rung: Rung) {
    && s.contract.context != 0
    && s.rung.Depth() < rung.Depth() <= L5.Depth()
    && s.contract.Permits(rung.Quality())
  }

  /** What the live sessions hold on their rungs, in slot order, saturating. */
  function Demand(c: Admission.Capacity, shape: Shape, live: Slots, from: nat): nat
    decreases |live|
  {
    if live == [] then from
    else Demand(c, shape, live[1..],
      if live[0].Some? then SatAdd(from, Owes(c, shape, live[0].value), U64_MAX) else from)
  }

  function Owes(c: Admission.Capacity, shape: Shape, s: Session): (r: nat)
    ensures r <= U64_MAX
  {
    shape.Need(s.rung, s.contract.context, c.kvPerToken)
  }

  /** `fits`; no budget declared, no limit. */
  predicate FitsBudget(c: Admission.Capacity, shape: Shape, live: Slots) {
    c.bytes == 0 || Demand(c, shape, live, 0) <= SatSub(c.bytes, c.reserved)
  }

  /** The next rung down, if this session may go there. */
  function Deeper(s: Session): Option<Rung> {
    match s.rung.Deeper()
    case None => None
    case Some(r) => if Movable(s, r) then Some(r) else None
  }

  /** The shallowest rung any session can go one deeper to. */
  function Shallowest(live: Slots): (r: Option<Rung>)
    ensures r.Some? ==> exists i :: 0 <= i < |live| && live[i].Some? && Deeper(live[i].value) == r
    ensures r.Some? ==> forall i :: 0 <= i < |live| && live[i].Some? && Deeper(live[i].value).Some? ==>
      r.value.Depth() <= Deeper(live[i].value).value.Depth()
    ensures r.None? ==> forall i :: 0 <= i < |live| && live[i].Some? ==> Deeper(live[i].value).None?
  {
    if live == [] then None
    else
      var n := |live| - 1;
      var best := Shallowest(live[..n]);
      if live[n].None? || Deeper(live[n].value).None? then best
      else if best.None? || Deeper(live[n].value).value.Depth() < best.value.Depth() then Deeper(live[n].value)
      else best
  }

  predicate HoldsContext(s: Option<Session>) { s.Some? && s.value.contract.context != 0 }

  /** The highest id holding a context. */
  function Latest(live: Slots): (r: Option<SessionId>)
    ensures r.Some? ==> exists i :: 0 <= i < |live| && HoldsContext(live[i]) && live[i].value.id == r.value
    ensures r.Some? ==> forall i :: 0 <= i < |live| && HoldsContext(live[i]) ==> live[i].value.id <= r.value
    ensures r.None? ==> forall i :: 0 <= i < |live| ==> !HoldsContext(live[i])
  {
    if live == [] then None
    else
      var n := |live| - 1;
      var best := Latest(live[..n]);
      if !HoldsContext(live[n]) then best
      else if best.None? || live[n].value.id >= best.value then Some(live[n].value.id)
      else best
  }

  /** `next`. */
  function Next(c: Admission.Capacity, shape: Shape, live: Slots): Move {
    if FitsBudget(c, shape, live) then Fits
    else match Shallowest(live)
      case Some(rung) => Deepen(rung)
      case None => match Latest(live)
        case Some(id) => Terminate(id)
        case None => Exhausted
  }

  // ----- what the walk promises -----

  /** What the live sessions hold, unsaturated. */
  ghost function Needed(c: Admission.Capacity, shape: Shape, live: Slots): nat {
    if live == [] then 0
    else (if live[0].Some? then Owes(c, shape, live[0].value) else 0) + Needed(c, shape, live[1..])
  }

  lemma {:induction false} DemandIsNeeded(c: Admission.Capacity, shape: Shape, live: Slots, from: nat)
    requires from <= U64_MAX
    ensures Demand(c, shape, live, from) == Min(from + Needed(c, shape, live), U64_MAX)
  {
    if live != [] {
      DemandIsNeeded(c, shape, live[1..],
        if live[0].Some? then SatAdd(from, Owes(c, shape, live[0].value), U64_MAX) else from);
    }
  }

  /** Fitting means fitting: exactly when what is held is within what the
      reserve leaves, or what it leaves is the most 64 bits can count. */
  lemma FitsExactly(c: Admission.Capacity, shape: Shape, live: Slots)
    requires 0 < c.bytes <= U64_MAX
    ensures FitsBudget(c, shape, live) <==>
      Needed(c, shape, live) <= SatSub(c.bytes, c.reserved) || SatSub(c.bytes, c.reserved) == U64_MAX
  {
    DemandIsNeeded(c, shape, live, 0);
  }

  /** In that last room two sessions fit which need twice of it. */
  lemma SaturatedFits(shape: Shape)
    ensures var c := Admission.Capacity(U64_MAX, 0, U64_MAX, 0);
      var live := [Some(Newcomer(1, Contract(Ternary, 0, 0, 1))), Some(Newcomer(2, Contract(Ternary, 0, 0, 1)))];
      FitsBudget(c, shape, live) && Needed(c, shape, live) == 2 * U64_MAX
  {
    var c, contract := Admission.Capacity(U64_MAX, 0, U64_MAX, 0), Contract(Ternary, 0, 0, 1);
    NeedIsCharged(shape, c, contract);
    var one, two := Some(Newcomer(1, contract)), Some(Newcomer(2, contract));
    var live: Slots := [one, two];
    assert live[1..] == [two] && live[1..][1..] == [];
    assert Owes(c, shape, one.value) == U64_MAX == Owes(c, shape, two.value);
    assert Needed(c, shape, [two]) == U64_MAX;
    DemandIsNeeded(c, shape, [one, two], 0);
  }

  /** A rung a floor permits has every shallower rung's permission: a session
      that may go to a rung may go to the one below its own. */
  lemma StepPermitted(s: Session, rung: Rung)
    requires Movable(s, rung)
    ensures Deeper(s).Some? && Deeper(s).value.Depth() <= rung.Depth()
  {}

  /** Whoever the next rung would move, it moves by one: none is skipped. */
  lemma OneRungAtATime(live: Slots, i: nat, rung: Rung)
    requires i < |live| && live[i].Some? && Shallowest(live) == Some(rung) && Movable(live[i].value, rung)
    ensures live[i].value.rung.Deeper() == Some(rung)
  {
    StepPermitted(live[i].value, rung);
  }

  /** The walk terminates somebody exactly when what is held does not fit, no
      session may go to any deeper rung, and it is the latest promise holding
      a context. */
  lemma TerminatesExactly(c: Admission.Capacity, shape: Shape, live: Slots, id: SessionId)
    ensures Next(c, shape, live) == Terminate(id) <==>
      && !FitsBudget(c, shape, live)
      && (forall i, rung: Rung :: 0 <= i < |live| && live[i].Some? ==> !Movable(live[i].value, rung))
      && (exists i :: 0 <= i < |live| && HoldsContext(live[i]) && live[i].value.id == id)
      && (forall i :: 0 <= i < |live| && HoldsContext(live[i]) ==> live[i].value.id <= id)
  {
    forall i, rung: Rung | 0 <= i < |live| && live[i].Some? && Movable(live[i].value, rung)
      ensures Shallowest(live).Some?
    {
      StepPermitted(live[i].value, rung);
    }
    if Shallowest(live).Some? {
      var i :| 0 <= i < |live| && live[i].Some? && Deeper(live[i].value) == Shallowest(live);
      assert Movable(live[i].value, Shallowest(live).value);
    }
  }

  /** The session may go one rung down: it holds a context, the next rung is
      no deeper than L5, and its floor is no finer than what is served there. */
  predicate CanDescend(s: Session) {
    s.contract.context != 0 && s.rung.Depth() < L5.Depth()
    && s.rung.Deeper().value.Quality().Rank() <= s.contract.qualityFloor.Rank()
  }

  lemma DeeperExactly(s: Session)
    ensures Deeper(s) == if CanDescend(s) then s.rung.Deeper() else None
    ensures CanDescend(s) ==> Deeper(s).Some?
  {}

  lemma ShallowestExactly(live: Slots, rung: Rung)
    ensures Shallowest(live) == Some(rung) <==>
      && (exists i :: 0 <= i < |live| && Reaches(live[i], rung))
      && (forall i :: 0 <= i < |live| && live[i].Some? && CanDescend(live[i].value) ==>
            live[i].value.rung.Depth() + 1 >= rung.Depth())
    ensures Shallowest(live).None? <==> forall i :: 0 <= i < |live| && live[i].Some? ==> !CanDescend(live[i].value)
  {
    hide CanDescend, Deeper;
    forall i | 0 <= i < |live| && live[i].Some?
      ensures Deeper(live[i].value) == if CanDescend(live[i].value) then live[i].value.rung.Deeper() else None
      ensures CanDescend(live[i].value) ==> Deeper(live[i].value).Some?
    {
      DeeperExactly(live[i].value);
    }
    if Shallowest(live).Some? {
      var r := Shallowest(live).value;
      DepthsDiffer(r, rung);
      var j :| 0 <= j < |live| && live[j].Some? && Deeper(live[j].value) == Some(r);
      assert Reaches(live[j], r);
      if i :| 0 <= i < |live| && Reaches(live[i], rung) { assert Deeper(live[i].value) == Some(rung); }
    }
  }

  /** This session can go down, and this is the rung. */
  predicate Reaches(s: Option<Session>, rung: Rung) {
    s.Some? && CanDescend(s.value) && s.value.rung.Deeper() == Some(rung)
  }

  lemma DepthsDiffer(a: Rung, b: Rung)
    ensures a.Depth() == b.Depth() ==> a == b
  {}

  /** The next move, exactly: none while what is held fits; else the shallowest
      rung somebody can go down to; else, nobody being able to go down, the
      highest id that holds a context is ended; and if nobody holds one, nothing
      is left. */
  lemma NextExactly(c: Admission.Capacity, shape: Shape, live: Slots, rung: Rung, id: SessionId)
    ensures Next(c, shape, live) == Fits <==> FitsBudget(c, shape, live)
    ensures Next(c, shape, live) == Deepen(rung) <==>
      && !FitsBudget(c, shape, live)
      && (exists i :: 0 <= i < |live| && Reaches(live[i], rung))
      && (forall i :: 0 <= i < |live| && live[i].Some? && CanDescend(live[i].value) ==>
            live[i].value.rung.Depth() + 1 >= rung.Depth())
    ensures Next(c, shape, live) == Terminate(id) <==>
      && !FitsBudget(c, shape, live)
      && (forall i :: 0 <= i < |live| && live[i].Some? ==> !CanDescend(live[i].value))
      && (exists i :: 0 <= i < |live| && HoldsContext(live[i]) && live[i].value.id == id)
      && (forall i :: 0 <= i < |live| && HoldsContext(live[i]) ==> live[i].value.id <= id)
  {
    hide FitsBudget, CanDescend, Reaches, Shallowest;
    ShallowestExactly(live, rung);
  }
}
