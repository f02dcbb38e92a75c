/** What an empty token costs: exactly when the driver, which stops at one,
    has by then served everything there is. */
module Stops {
  import opened Basics
  import opened Abi
  import opened ScheduleModel
  import opened LanesModel
  import opened MergeModel
  import opened Rounds

  predicate IsToken(lanes: seq<Lane>, s: nat, t: nat) { s < |lanes| && t < |lanes[s].tokens| }

  predicate IsEmpty(lanes: seq<Lane>, s: nat, t: nat) { IsToken(lanes, s, t) && lanes[s].tokens[t] == [] }

  /** From token `t` on there is nothing but empty ones. */
  predicate EmptyFrom(tokens: seq<seq<ObjectId>>, t: nat) { forall u :: t <= u < |tokens| ==> tokens[u] == [] }

  lemma {:induction false} FlatEmpty(tokens: seq<seq<ObjectId>>, t: nat)
    requires t <= |tokens|
    ensures Flat(tokens[t..]) == [] <==> EmptyFrom(tokens, t)
    decreases |tokens| - t
  {
    if t < |tokens| {
      FlatEmpty(tokens, t + 1);
      assert tokens[t..][0] == tokens[t] && tokens[t..][1..] == tokens[t + 1..];
    }
  }

  /** What a lane has left, from its cursor. */
  lemma RestEmpty(b: Board, s: nat)
    requires b.Valid() && s < |b.lanes|
    ensures var (t, i) := b.cursors[s];
      b.Rest(s) == [] <==>
        t < |b.lanes[s].tokens| ==> |b.lanes[s].tokens[t]| <= i && EmptyFrom(b.lanes[s].tokens, t + 1)
  {
    assert b.Placed(s);
    if b.Live(s) { FlatEmpty(b.lanes[s].tokens, b.cursors[s].0 + 1); }
  }

  // ----- under every schedule -----

  /** A lane before or at its token `t`, at the start of it. */
  predicate NotPast(b: Board, s: nat, t: nat)
    requires b.Valid() && s < |b.lanes|
  {
    b.cursors[s].0 < t || b.cursors[s] == (t, 0)
  }

  /** No schedule takes a lane past its empty token. */
  lemma {:induction false} NeverPast(rule: Schedule, b: Board, s: nat, t: nat)
    requires b.Valid() && IsEmpty(b.lanes, s, t) && NotPast(b, s, t)
    ensures NotPast(Stop(rule, b), s, t)
    decreases Remaining(b)
  {
    hide Pick, Left;
    var (next, picked) := Pick(rule, b.Seen());
    if picked.Some? && b.NextOf(picked.value).Some? {
      LeftFewer(b, picked.value, |b.lanes|);
      NeverPast(next, b.Advance(picked.value), s, t);
    }
  }

  /** Whatever the schedule and whatever the other lanes: a lane with an empty
      token and anything after it is never served whole. */
  lemma EmptyTokenStrands(rule: Schedule, lanes: seq<Lane>, s: nat, t: nat, u: nat)
    requires IsEmpty(lanes, s, t) && IsToken(lanes, s, u) && t < u && lanes[s].tokens[u] != []
    ensures Of(Merge(rule, Over(lanes), Zeros(|lanes|)).0, s) != Flat(lanes[s].tokens)
    ensures !ServesAll(rule, lanes)
  {
    hide Merge, Stop, Of, Board.Rest;
    var f := Stop(rule, Over(lanes));
    NeverPast(rule, Over(lanes), s, t);
    RestEmpty(f, s);
    StopLeaves(rule, Over(lanes), Zeros(|lanes|), s);
    StartRest(lanes, s);
  }

  // ----- process-major -----

  /** Token `t` of session `s` comes before token `u` of session `r`. */
  predicate Before(t: nat, s: nat, u: nat, r: nat) { t < u || (t == u && s < r) }

  /** The first empty token from token `t`, session `s` on: by token number,
      then by session. */
  function FirstEmpty(lanes: seq<Lane>, t: nat, s: nat): Option<(nat, nat)>
    decreases MostTokens(lanes) - t, |lanes| - s
  {
    if t >= MostTokens(lanes) then None
    else if s >= |lanes| then FirstEmpty(lanes, t + 1, 0)
    else if IsEmpty(lanes, s, t) then Some((t, s))
    else FirstEmpty(lanes, t, s + 1)
  }

  lemma {:induction false} FirstEmptyIs(lanes: seq<Lane>, t: nat, s: nat, u: nat, r: nat)
    requires IsEmpty(lanes, r, u) && !Before(u, r, t, s)
    ensures var e := FirstEmpty(lanes, t, s);
      e.Some? && IsEmpty(lanes, e.value.1, e.value.0) && !Before(u, r, e.value.0, e.value.1)
    decreases MostTokens(lanes) - t, |lanes| - s
  {
    if s >= |lanes| {
      FirstEmptyIs(lanes, t + 1, 0, u, r);
    } else if !IsEmpty(lanes, s, t) {
      FirstEmptyIs(lanes, t, s + 1, u, r);
    }
  }

  lemma {:induction false} FirstIsEmpty(lanes: seq<Lane>, t: nat, s: nat)
    ensures var e := FirstEmpty(lanes, t, s); e.Some? ==> IsEmpty(lanes, e.value.1, e.value.0)
    decreases MostTokens(lanes) - t, |lanes| - s
  {
    if t < MostTokens(lanes) {
      if s >= |lanes| {
        FirstIsEmpty(lanes, t + 1, 0);
      } else if !IsEmpty(lanes, s, t) {
        FirstIsEmpty(lanes, t, s + 1);
      }
    }
  }

  /** The driver has stopped at the boundary before this token, or at the end. */
  ghost predicate StoppedAt(f: Board, e: Option<(nat, nat)>)
    requires f.Valid()
  {
    match e
    case None => forall j: nat :: !f.Live(j)
    case Some((t, s)) => s < |f.lanes| && Boundary(f, t, s)
  }

  lemma NobodyLeft(rule: Schedule, b: Board)
    requires b.Valid() && forall j: nat :: !b.Live(j)
    ensures Stop(rule, b) == b
  {
    PickNamesLive(rule, b.Seen());
  }

  lemma AtEmpty(rule: Schedule, b: Board, next: Schedule, s: nat, t: nat)
    requires b.Valid() && IsEmpty(b.lanes, s, t) && b.cursors[s] == (t, 0) && Pick(rule, b.Seen()) == (next, Some(s))
    ensures Stop(rule, b) == b
  {}

  /** From a boundary on it stops at the first empty token. */
  lemma {:induction false} RoundsStop(b: Board, t: nat, s: nat, c: nat)
    requires b.Valid() && s <= |b.lanes| && Boundary(b, t, s) && Ring(b, t, s, c)
    ensures StoppedAt(Stop(ProcessMajor(c, true), b), FirstEmpty(b.lanes, t, s))
    decreases MostTokens(b.lanes) - t, |b.lanes| - s
  {
    hide Pick, Merge, Stop, Tagged, Boundary, Ring;
    if t >= MostTokens(b.lanes) {
      AllDone(b, t, s);
      NobodyLeft(ProcessMajor(c, true), b);
    } else if s == |b.lanes| {
      NextRow(b, t, c);
      RoundsStop(b, t + 1, 0, c);
    } else if t >= |b.lanes[s].tokens| {
      NextLane(b, t, s, c);
      RoundsStop(b, t, s + 1, c);
    } else {
      RingPick(b, t, s, c);
      RingIsLane(b, t, s, c);
      if IsEmpty(b.lanes, s, t) {
        AtEmpty(ProcessMajor(c, true), b, ProcessMajor(s, true), s, t);
      } else {
        var d, w := TokenServed(ProcessMajor(c, true), b, Zeros(|b.lanes|), s);
        TokenDone(b, d, t, s);
        RoundsStop(d, t, s + 1, s);
      }
    }
  }

  lemma PassedOverStops(b: Board)
    requires b.Valid() && !b.Live(0)
    ensures Stop(ProcessMajor(0, false), b) == Stop(ProcessMajor(0, true), b)
  {
    assert !b.Seen().Live(0);
  }

  /** From the start it stops at the first empty token of all. */
  lemma ProcessMajorStops(lanes: seq<Lane>)
    ensures StoppedAt(Stop(ProcessMajor(0, false), Over(lanes)), FirstEmpty(lanes, 0, 0))
  {
    hide Stop, Merge, Pick, Tagged;
    var b := Over(lanes);
    if lanes == [] {
      NobodyLeft(ProcessMajor(0, false), b);
    } else if lanes[0].tokens == [] {
      PassedOverStops(b);
      RoundsStop(b, 0, 1, 0);
    } else {
      FirstPick(b);
      if IsEmpty(lanes, 0, 0) {
        AtEmpty(ProcessMajor(0, false), b, ProcessMajor(0, true), 0, 0);
      } else {
        var d, w := TokenServed(ProcessMajor(0, false), b, Zeros(|lanes|), 0);
        RoundsStop(d, 0, 1, 0);
      }
    }
  }

  /** Nothing that holds an access comes after an empty token. */
  ghost predicate EmptiesLast(lanes: seq<Lane>) {
    forall s: nat, t: nat, r: nat, u: nat :: IsEmpty(lanes, s, t) && IsToken(lanes, r, u) && Before(t, s, u, r) ==> IsEmpty(lanes, r, u)
  }

  ghost predicate OnlyEmptyAfter(lanes: seq<Lane>, t: nat, s: nat) {
    forall r: nat, u: nat :: IsToken(lanes, r, u) && Before(t, s, u, r) ==> IsEmpty(lanes, r, u)
  }

  /** What is left at the boundary before an empty token. */
  lemma LeftAtBoundary(f: Board, t: nat, s: nat)
    requires f.Valid() && s < |f.lanes| && Boundary(f, t, s) && IsEmpty(f.lanes, s, t)
    ensures Spent(f) <==> OnlyEmptyAfter(f.lanes, t, s)
  {
    hide Board.Rest;
    forall r | 0 <= r < |f.lanes|
      ensures f.Rest(r) == [] <==> EmptyFrom(f.lanes[r].tokens, if r < s then t + 1 else t)
    {
      RestEmpty(f, r);
    }
    if Spent(f) {
      forall r: nat, u: nat | IsToken(f.lanes, r, u) && Before(t, s, u, r) ensures IsEmpty(f.lanes, r, u) {
        assert f.Rest(r) == [];
      }
    }
    if OnlyEmptyAfter(f.lanes, t, s) {
      forall r | 0 <= r < |f.lanes| ensures f.Rest(r) == [] {
        forall u | (if r < s then t + 1 else t) <= u < |f.lanes[r].tokens| ensures f.lanes[r].tokens[u] == [] {
          assert IsToken(f.lanes, r, u);
        }
      }
    }
  }

  lemma NoneLeft(f: Board)
    requires f.Valid() && forall j: nat :: !f.Live(j)
    ensures Spent(f)
  {}

  /** Process-major serves every access of every lane if and only if nothing
      that holds one comes after an empty token, by token number and then by
      session. */
  lemma ProcessMajorServesExactly(lanes: seq<Lane>)
    ensures ServesAll(ProcessMajor(0, false), lanes) <==> EmptiesLast(lanes)
  {
    hide Stop, Spent, ServesAll, Boundary, FirstEmpty;
    ServesAllExactly(ProcessMajor(0, false), lanes);
    ProcessMajorStops(lanes);
    FirstIsEmpty(lanes, 0, 0);
    var f, e := Stop(ProcessMajor(0, false), Over(lanes)), FirstEmpty(lanes, 0, 0);
    forall s: nat, t: nat | IsEmpty(lanes, s, t) ensures e.Some? && !Before(t, s, e.value.0, e.value.1) {
      FirstEmptyIs(lanes, 0, 0, t, s);
    }
    if e.None? {
      NoneLeft(f);
    } else {
      LeftAtBoundary(f, e.value.0, e.value.1);
    }
  }

  // ----- parameter-major -----

  /** Where any lane's token is empty, no lane has more than one access of its
      own token of that number, nor any after it. */
  ghost predicate LastRow(lanes: seq<Lane>) {
    forall s: nat, t: nat, r: nat :: IsEmpty(lanes, s, t) && IsToken(lanes, r, t) ==>
      |lanes[r].tokens[t]| <= 1 && EmptyFrom(lanes[r].tokens, t + 1)
  }

  /** A lane that wants something is wanted by one at least. */
  lemma {:induction false} CountsItself(next: seq<Option<ObjectId>>, s: nat)
    requires s < |next| && next[s].Some?
    ensures Count(next, next[s].value) >= 1
  {
    if s > 0 { CountsItself(next[1..], s - 1); }
  }

  /** Stuck at an empty token, a lane is picked after everyone at or before
      the start of that token who wants something. */
  lemma StuckIsLast(b: Board, p: nat, s: nat)
    requires b.Valid() && NoCeilings(b.lanes) && ParameterPick(b.Seen()) == Some(p) && b.Live(p) && b.NextOf(p).None? && b.Live(s)
    ensures b.cursors[p].1 == 0 && IsEmpty(b.lanes, p, b.cursors[p].0)
    ensures b.cursors[s].0 > b.cursors[p].0 || (b.cursors[s].0 == b.cursors[p].0 && (b.cursors[s].1 > 0 || b.NextOf(s).None?))
  {
    hide Soonest, Count;
    var v := b.Seen();
    assert b.Placed(p) && b.Placed(s);
    assert forall j: nat :: !v.Overdue(j);
    assert v.Live(s) && Sooner(v, p, s);
    if b.NextOf(s).Some? { CountsItself(v.next, s); }
  }

  /** The board the driver stops at is one its schedule cannot go on from. */
  lemma {:induction false} ParameterStopped(b: Board)
    requires b.Valid()
    ensures var f := Stop(ParameterMajor, b);
      var p := ParameterPick(f.Seen());
      (p.None? ==> forall s: nat :: !f.Live(s)) && (p.Some? ==> f.Live(p.value) && f.NextOf(p.value).None?)
    decreases Remaining(b)
  {
    hide Board.Advance, Left, ParameterPick;
    PickNamesLive(ParameterMajor, b.Seen());
    var p := ParameterPick(b.Seen());
    if p.Some? && b.NextOf(p.value).Some? {
      LeftFewer(b, p.value, |b.lanes|);
      ParameterStopped(b.Advance(p.value));
    }
  }

  /** Then nothing is left, if empty tokens are the last row. */
  lemma LastRowSpent(f: Board, p: nat)
    requires f.Valid() && NoCeilings(f.lanes) && LastRow(f.lanes)
    requires ParameterPick(f.Seen()) == Some(p) && f.Live(p) && f.NextOf(p).None?
    ensures Spent(f)
  {
    hide ParameterPick;
    forall s | 0 <= s < |f.lanes| ensures f.Rest(s) == [] {
      RestEmpty(f, s);
      if f.Live(s) {
        StuckIsLast(f, p, s);
        assert f.Placed(s);
        assert IsToken(f.lanes, s, f.cursors[p].0);
      }
    }
  }

  /** Nobody is past the first access of token `t`, while some lane is stuck at
      or before its start. */
  ghost predicate Held(b: Board, t: nat)
    requires b.Valid()
  {
    forall r :: 0 <= r < |b.lanes| ==> HeldAt(b, r, t)
  }

  predicate HeldAt(b: Board, r: nat, t: nat)
    requires b.Valid() && r < |b.lanes|
  {
    var (u, i) := b.cursors[r];
    || u < t
    || (u == t && i <= 1)
    || (u == t + 1 && i == 0 && t < |b.lanes[r].tokens| && |b.lanes[r].tokens[t]| <= 1)
  }

  lemma HoldsOn(b: Board, s: nat, t: nat, p: nat)
    requires b.Valid() && NoCeilings(b.lanes) && IsEmpty(b.lanes, s, t) && NotPast(b, s, t) && Held(b, t)
    requires ParameterPick(b.Seen()) == Some(p) && b.NextOf(p).Some?
    ensures NotPast(b.Advance(p), s, t) && Held(b.Advance(p), t)
  {
    hide ParameterPick;
    PickIsLeast(b);
    assert b.Live(s) && b.Placed(p);
    var c := b.Advance(p);
    forall r | 0 <= r < |c.lanes| ensures HeldAt(c, r, t) { assert HeldAt(b, r, t); }
  }

  lemma {:induction false} HeldToTheEnd(b: Board, s: nat, t: nat)
    requires b.Valid() && NoCeilings(b.lanes) && IsEmpty(b.lanes, s, t) && NotPast(b, s, t) && Held(b, t)
    ensures Held(Stop(ParameterMajor, b), t)
    decreases Remaining(b)
  {
    hide Board.Advance, Left, ParameterPick, Held, NotPast;
    var p := ParameterPick(b.Seen());
    if p.Some? && b.NextOf(p.value).Some? {
      HoldsOn(b, s, t, p.value);
      LeftFewer(b, p.value, |b.lanes|);
      HeldToTheEnd(b.Advance(p.value), s, t);
    }
  }

  /** What a held lane has left, if it has nothing. */
  lemma HeldSpent(f: Board, r: nat, t: nat)
    requires f.Valid() && IsToken(f.lanes, r, t) && HeldAt(f, r, t) && f.Rest(r) == []
    ensures |f.lanes[r].tokens[t]| <= 1 && EmptyFrom(f.lanes[r].tokens, t + 1)
  {
    RestEmpty(f, r);
    assert f.Placed(r);
  }

  lemma StartHeld(lanes: seq<Lane>, s: nat, t: nat)
    requires IsEmpty(lanes, s, t)
    ensures NotPast(Over(lanes), s, t) && Held(Over(lanes), t)
  {}

  /** Parameter-major without ceilings serves every access of every lane if and
      only if, wherever a token is empty, nobody has more than one access at
      that token number or any after it. */
  lemma ParameterMajorServesExactly(lanes: seq<Lane>)
    requires NoCeilings(lanes)
    ensures ServesAll(ParameterMajor, lanes) <==> LastRow(lanes)
  {
    hide Stop, ServesAll, Board.Rest, ParameterPick, Held, HeldAt, NotPast;
    ServesAllExactly(ParameterMajor, lanes);
    var f := Stop(ParameterMajor, Over(lanes));
    ParameterStopped(Over(lanes));
    var p := ParameterPick(f.Seen());
    if p.None? { NoneLeft(f); } else if LastRow(lanes) { LastRowSpent(f, p.value); }
    if Spent(f) {
      forall s: nat, t: nat, r: nat | IsEmpty(lanes, s, t) && IsToken(lanes, r, t)
        ensures |lanes[r].tokens[t]| <= 1 && EmptyFrom(lanes[r].tokens, t + 1)
      {
        StartHeld(lanes, s, t);
        HeldToTheEnd(Over(lanes), s, t);
        AtHeld(f, r, t);
        assert f.Rest(r) == [];
        HeldSpent(f, r, t);
      }
    }
  }

  lemma AtHeld(f: Board, r: nat, t: nat)
    requires f.Valid() && Held(f, t) && r < |f.lanes|
    ensures HeldAt(f, r, t)
  {}
}
