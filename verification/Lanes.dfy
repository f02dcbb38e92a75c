/** The host driver: per-session lanes with cursors and a clock, and the one
    trace a schedule makes of them. */
module LanesModel {
  import opened Basics
  import opened Abi
  import opened MetaModel
  import opened ScheduleModel

  /** One session's request: tokens of accesses, under a ceiling or none. */
  datatype Lane = Lane(session: SessionId, ceiling: nat, tokens: seq<seq<ObjectId>>)

  datatype Access = Access(session: SessionId, wanted: ObjectId)

  /** A cursor at an access, at the start of a token or at the end, whose
      token was due early enough for what it has had of it. */
  predicate InLane(lane: Lane, cursor: (nat, nat), due: nat, clock: nat) {
    var (token, index) := cursor;
    && token <= |lane.tokens|
    && (index != 0 ==> token < |lane.tokens| && index < |lane.tokens[token]|)
    && due + index <= clock
  }

  /** Every lane's cursor, when its current token became due, and the clock. */
  datatype Board = Board(lanes: seq<Lane>, cursors: seq<(nat, nat)>, due: seq<nat>, clock: nat) {

    /** Cursors are at an access, at an empty token, or at the end; nothing
        is due later than the accesses served to it allow. */
    predicate Valid() {
      && |cursors| == |lanes| && |due| == |lanes|
      && forall s :: 0 <= s < |lanes| ==> InLane(lanes[s], cursors[s], due[s], clock)
    }

    predicate Placed(s: nat)
      requires |cursors| == |lanes| && |due| == |lanes| && s < |lanes|
    {
      InLane(lanes[s], cursors[s], due[s], clock)
    }

    predicate Live(s: nat)
      requires Valid()
    {
      s < |lanes| && cursors[s].0 < |lanes[s].tokens|
    }

    /** Acquires served to others since the token became due. */
    function Waited(s: nat): int
      requires Valid() && s < |lanes|
    {
      clock - due[s] - cursors[s].1
    }

    /** `Lanes::at`. */
    function At(s: nat): Option<Position>
      requires Valid()
    {
      if Live(s) then Some(Position(cursors[s].0, cursors[s].1, Waited(s), lanes[s].ceiling)) else None
    }

    /** `Lanes::next_of`. */
    function NextOf(s: nat): Option<ObjectId>
      requires Valid()
    {
      if !Live(s) then None
      else
        var token := lanes[s].tokens[cursors[s].0];
        if cursors[s].1 < |token| then Some(token[cursors[s].1]) else None
    }

    /** What the schedule sees. */
    function Seen(): (v: View)
      requires Valid()
      ensures v.Valid() && |v.at| == |lanes|
      ensures forall s :: 0 <= s < |lanes| ==> v.at[s] == At(s) && v.next[s] == NextOf(s)
      ensures forall s: nat :: v.Live(s) <==> Live(s)
    {
      View(seq(|lanes|, s requires 0 <= s < |lanes| => At(s)), seq(|lanes|, s requires 0 <= s < |lanes| => NextOf(s)))
    }

    /** Whether the access at the cursor ends its token. */
    predicate Ends(s: nat)
      requires Valid() && Live(s)
    {
      cursors[s].1 + 1 >= |lanes[s].tokens[cursors[s].0]|
    }

    /** `Lanes::advance`. */
    function Advance(s: nat): (b: Board)
      requires Valid() && Live(s)
      ensures b.Valid() && b.lanes == lanes && b.clock == clock + 1
    {
      var (token, index) := cursors[s];
      var next :=
        if Ends(s)
        then this.(clock := clock + 1, cursors := cursors[s := (token + 1, 0)], due := due[s := clock + 1])
        else this.(clock := clock + 1, cursors := cursors[s := (token, index + 1)]);
      assert InLane(lanes[s], cursors[s], due[s], clock);
      next
    }

    /** The period of the token it ends, if it ends one. */
    function Period(s: nat): Option<nat>
      requires Valid() && Live(s)
    {
      assert Placed(s);
      if Ends(s) then Some(clock + 1 - due[s]) else None
    }

    /** The accesses lane `s` has still to be served. */
    function Rest(s: nat): seq<ObjectId>
      requires Valid()
    {
      if Live(s) then (assert Placed(s); RestOf(lanes[s].tokens, cursors[s].0, cursors[s].1)) else []
    }
  }

  /** Tokens run together. */
  function Flat(tokens: seq<seq<ObjectId>>): seq<ObjectId> {
    if tokens == [] then [] else tokens[0] + Flat(tokens[1..])
  }

  /** What is left of a lane from a cursor. */
  function RestOf(tokens: seq<seq<ObjectId>>, token: nat, index: nat): seq<ObjectId>
    requires token < |tokens| ==> index <= |tokens[token]|
  {
    if token < |tokens| then tokens[token][index..] + Flat(tokens[token + 1..]) else []
  }

  lemma RestStep(tokens: seq<seq<ObjectId>>, token: nat, index: nat)
    requires token < |tokens| && index < |tokens[token]|
    ensures RestOf(tokens, token, index)
      == [tokens[token][index]]
         + (if index + 1 >= |tokens[token]| then RestOf(tokens, token + 1, 0) else RestOf(tokens, token, index + 1))
  {
    hide Flat;
    var row, later := tokens[token], Flat(tokens[token + 1..]);
    Behead(row, index);
    Regroup(row[index], row[index + 1..], later);
    if index + 1 >= |row| {
      Alone(row[index..], row[index]);
      if token + 1 < |tokens| { FlatTail(tokens, token + 1); } else { FlatNone(tokens[token + 1..]); }
    }
  }

  lemma Alone(row: seq<ObjectId>, x: ObjectId)
    requires |row| == 1 && row[0] == x
    ensures row == [x]
  {}

  lemma Regroup(x: ObjectId, a: seq<ObjectId>, b: seq<ObjectId>)
    ensures [x] + a + b == [x] + (a + b)
  {}

  lemma FlatNone(tokens: seq<seq<ObjectId>>)
    ensures tokens == [] ==> Flat(tokens) == []
  {}

  lemma Behead(row: seq<ObjectId>, index: nat)
    requires index < |row|
    ensures row[index..] == [row[index]] + row[index + 1..]
  {}

  lemma FlatTail(tokens: seq<seq<ObjectId>>, token: nat)
    requires token < |tokens|
    ensures Flat(tokens[token..]) == RestOf(tokens, token, 0)
  {
    assert tokens[token..][0] == tokens[token] == tokens[token][0..];
    assert tokens[token..][1..] == tokens[token + 1..];
  }

  /** `Lanes::over`: every lane at its start. */
  function Over(lanes: seq<Lane>): (b: Board)
    ensures b.Valid() && b.lanes == lanes
  {
    Board(lanes, seq(|lanes|, _ => (0, 0)), seq(|lanes|, _ => 0), 0)
  }

  ghost function Remaining(b: Board): nat
    requires b.Valid()
  {
    Left(b, |b.lanes|)
  }

  ghost function Left(b: Board, n: nat): nat
    requires b.Valid() && n <= |b.lanes|
  {
    if n == 0 then 0 else Left(b, n - 1) + |b.Rest(n - 1)|
  }

  /** Serving an access takes it off the front of its lane, and touches no
      other. */
  lemma {:induction false} AdvanceRest(b: Board, s: nat)
    requires b.Valid() && b.NextOf(s).Some?
    ensures b.Rest(s) == [b.NextOf(s).value] + b.Advance(s).Rest(s)
    ensures forall t :: t != s ==> b.Advance(s).Rest(t) == b.Rest(t)
  {
    var (token, index) := b.cursors[s];
    assert b.Placed(s);
    RestStep(b.lanes[s].tokens, token, index);
  }

  lemma {:induction false} LeftFewer(b: Board, s: nat, n: nat)
    requires b.Valid() && b.NextOf(s).Some? && n <= |b.lanes|
    ensures Left(b.Advance(s), n) == Left(b, n) - (if s < n then 1 else 0)
    decreases n
  {
    hide RestOf, Board.Advance;
    if n > 0 {
      LeftFewer(b, s, n - 1);
      AdvanceRest(b, s);
    }
  }

  // ----- the merge -----

  /** An access as served: whose, where in its lane, and what. */
  datatype Served = Served(lane: nat, token: nat, index: nat, wanted: ObjectId)

  function Serving(b: Board, s: nat): Served
    requires b.Valid() && b.NextOf(s).Some?
  {
    Served(s, b.cursors[s].0, b.cursors[s].1, b.NextOf(s).value)
  }

  /** The worst period of each lane once the access of `s` is served. */
  function Kept(b: Board, s: nat, worst: seq<nat>): (w: seq<nat>)
    requires b.Valid() && b.Live(s) && |worst| == |b.lanes|
    ensures |w| == |worst|
  {
    match b.Period(s) case None => worst case Some(p) => worst[s := Max(worst[s], p)]
  }

  /** `merge_timed` from here on: what is served, in turn, and the longest
      period of any token of each lane. It ends where nobody is named, or where
      the lane named is at an empty token. */
  ghost function Merge(rule: Schedule, b: Board, worst: seq<nat>): (r: (seq<Served>, seq<nat>))
    requires b.Valid() && |worst| == |b.lanes|
    ensures |r.1| == |worst|
    decreases Remaining(b)
  {
    var (next, picked) := Pick(rule, b.Seen());
    if picked.None? || b.NextOf(picked.value).None? then ([], worst)
    else
      var s := picked.value;
      LeftFewer(b, s, |b.lanes|);
      var (out, last) := Merge(next, b.Advance(s), Kept(b, s, worst));
      ([Serving(b, s)] + out, last)
  }

  function Zeros(n: nat): (z: seq<nat>)
    ensures |z| == n
  {
    seq(n, _ => 0)
  }

  /** One served access as the trace records it. */
  function Recorded(lanes: seq<Lane>, a: Served): Access {
    Access(if a.lane < |lanes| then lanes[a.lane].session else 0, a.wanted)
  }

  /** The trace, as the host hands it to a simulator. */
  function Trace(lanes: seq<Lane>, out: seq<Served>): (t: seq<Access>)
    ensures |t| == |out|
  {
    if out == [] then [] else [Recorded(lanes, out[0])] + Trace(lanes, out[1..])
  }

  /** The first access served, and the rest. */
  lemma MergeStep(rule: Schedule, b: Board, worst: seq<nat>)
    requires b.Valid() && |worst| == |b.lanes|
    ensures var (next, picked) := Pick(rule, b.Seen());
      && (picked.Some? ==> b.Live(picked.value))
      && (picked.None? ==> forall s: nat :: !b.Live(s))
      && (picked.None? || b.NextOf(picked.value).None? ==> Merge(rule, b, worst) == ([], worst))
      && (picked.Some? && b.NextOf(picked.value).Some? ==>
            var rest := Merge(next, b.Advance(picked.value), Kept(b, picked.value, worst));
            && Merge(rule, b, worst) == ([Serving(b, picked.value)] + rest.0, rest.1)
            && Remaining(b.Advance(picked.value)) < Remaining(b))
  {
    hide Pick, Board.Advance, Left;
    var (next, picked) := Pick(rule, b.Seen());
    PickNamesLive(rule, b.Seen());
    if picked.Some? {
      assert b.Seen().Live(picked.value);
      if b.NextOf(picked.value).Some? { LeftFewer(b, picked.value, |b.lanes|); }
    } else {
      forall s: nat ensures !b.Live(s) { assert !b.Seen().Live(s); }
    }
  }

  lemma TraceCons(lanes: seq<Lane>, a: Served, out: seq<Served>)
    ensures Trace(lanes, [a] + out) == [Recorded(lanes, a)] + Trace(lanes, out)
  {
    assert ([a] + out)[1..] == out;
  }

  lemma NothingTraced(lanes: seq<Lane>)
    ensures Trace(lanes, []) == []
  {}

  // ----- the driver -----

  class Lanes {
    const lanes: seq<Lane>
    var cursors: seq<(nat, nat)>
    var due: seq<nat>
    var clock: nat

    function View(): Board
      reads this
    {
      Board(lanes, cursors, due, clock)
    }

    /** Every lane at its start. */
    constructor (lanes: seq<Lane>)
      ensures View() == Over(lanes)
    {
      this.lanes := lanes;
      cursors := seq(|lanes|, _ => (0, 0));
      due := seq(|lanes|, _ => 0);
      clock := 0;
    }

    /** One access served to `session`; the period, if it ended a token. */
    method Advance(session: nat) returns (period: Option<nat>)
      requires View().Valid() && View().Live(session)
      modifies this
      ensures View() == old(View()).Advance(session)
      ensures period == old(View()).Period(session)
    {
      ghost var was := View();
      assert was.Placed(session);
      clock := clock + 1;
      var (token, index) := cursors[session];
      var done := index + 1 >= |lanes[session].tokens[token]|;
      cursors := cursors[session := if done then (token + 1, 0) else (token, index + 1)];
      if !done {
        return None;
      }
      period := Some(clock - due[session]);
      due := due[session := clock];
    }
  }

  /** The driver's loop over all lanes, from their starts. */
  method MergeTimed(schedule: Scheduler, lanes: seq<Lane>) returns (out: seq<Access>, worst: seq<nat>)
    modifies schedule
    ensures out == Trace(lanes, Merge(old(schedule.rule), Over(lanes), Zeros(|lanes|)).0)
    ensures worst == Merge(old(schedule.rule), Over(lanes), Zeros(|lanes|)).1
  {
    hide Remaining, Pick, Board.Advance, Merge, Trace;
    var held := new Lanes(lanes);
    out, worst := [], Zeros(|lanes|);
    ghost var all := Merge(schedule.rule, Over(lanes), Zeros(|lanes|));
    while true
      invariant held.lanes == lanes && held.View().Valid() && |worst| == |lanes| && fresh(held)
      invariant var rest := Merge(schedule.rule, held.View(), worst);
        Trace(lanes, all.0) == out + Trace(lanes, rest.0) && all.1 == rest.1
      decreases Remaining(held.View())
    {
      MergeStep(schedule.rule, held.View(), worst);
      NothingTraced(lanes);
      var picked := schedule.Next(held.View().Seen());
      if picked.None? {
        return;
      }
      var s := picked.value;
      var wanted := held.View().NextOf(s);
      if wanted.None? {
        return;
      }
      ghost var b := held.View();
      out := out + [Access(lanes[s].session, wanted.value)];
      var period := held.Advance(s);
      if period.Some? {
        worst := worst[s := Max(worst[s], period.value)];
      }
      TraceCons(lanes, Serving(b, s), Merge(schedule.rule, held.View(), worst).0);
    }
  }
}
