/** Process-major is whole tokens: token by token, session by session. */
module Rounds {
  import opened Basics
  import opened ScheduleModel
  import opened LanesModel
  import opened MergeModel

  /** One token of one lane, from an access on. */
  function Tagged(lanes: seq<Lane>, s: nat, t: nat, index: nat): seq<Served>
    requires s < |lanes| && t < |lanes[s].tokens|
    decreases |lanes[s].tokens[t]| - index
  {
    var row := lanes[s].tokens[t];
    if index >= |row| then [] else [Served(s, t, index, row[index])] + Tagged(lanes, s, t, index + 1)
  }

  /** Token `t` of lane `s`, if it has one. */
  function Whole(lanes: seq<Lane>, s: nat, t: nat): seq<Served> {
    if s < |lanes| && t < |lanes[s].tokens| then Tagged(lanes, s, t, 0) else []
  }

  function MostTokens(lanes: seq<Lane>): (n: nat)
    ensures forall s :: 0 <= s < |lanes| ==> |lanes[s].tokens| <= n
  {
    if lanes == [] then 0
    else
      var n := MostTokens(lanes[1..]);
      assert forall s :: 0 < s < |lanes| ==> lanes[s] == lanes[1..][s - 1];
      Max(|lanes[0].tokens|, n)
  }

  /** Every token of every lane from token `t`, session `s` on: by token
      number, then by session. */
  function ByToken(lanes: seq<Lane>, t: nat, s: nat): seq<Served>
    decreases MostTokens(lanes) - t, |lanes| - s
  {
    if t >= MostTokens(lanes) then []
    else if s >= |lanes| then ByToken(lanes, t + 1, 0)
    else Whole(lanes, s, t) + ByToken(lanes, t, s + 1)
  }

  // ----- between tokens -----

  /** Lanes below `s` are done with token `t`, the rest with the one before. */
  predicate Boundary(b: Board, t: nat, s: nat)
    requires b.Valid()
  {
    forall j {:trigger b.cursors[j]} :: 0 <= j < |b.lanes| ==>
      b.cursors[j] == (Min(if j < s then t + 1 else t, |b.lanes[j].tokens|), 0)
  }

  /** Round the ring from `c`, nobody before `s` has anything left. */
  predicate Ring(b: Board, t: nat, s: nat, c: nat) {
    && c < |b.lanes|
    && (c < s ==> forall j :: c < j < s && j < |b.lanes| ==> |b.lanes[j].tokens| <= t)
    && (c >= s ==> forall j :: 0 <= j < |b.lanes| && (j < s || c < j) ==> |b.lanes[j].tokens| <= t)
  }

  /** The lane `away` places round the ring. */
  lemma Round(c: nat, k: nat, n: nat)
    requires c < n && k <= n
    ensures (c + k) % n == if c + k < n then c + k else c + k - n
  {}

  /** The lane `k` places round from `c` has nothing left. */
  predicate Passed(v: View, c: nat, k: nat)
    requires |v.at| > 0
  {
    !v.Live((c + k) % |v.at|)
  }

  lemma {:induction false} RotateIs(v: View, c: nat, step: nat, away: nat, s: nat)
    requires c < |v.at| && step <= away <= |v.at| && v.Live(s) && (c + away) % |v.at| == s
    requires forall k :: step <= k < away ==> Passed(v, c, k)
    ensures Rotate(v, c, step) == Some(s)
    decreases away - step
  {
    if step < away {
      assert Passed(v, c, step);
      RotateIs(v, c, step + 1, away, s);
    }
  }

  /** Process-major goes on to lane `s`. */
  lemma RingPick(b: Board, t: nat, s: nat, c: nat)
    requires b.Valid() && Boundary(b, t, s) && Ring(b, t, s, c) && s < |b.lanes| && t < |b.lanes[s].tokens|
    ensures Pick(ProcessMajor(c, true), b.Seen()) == (ProcessMajor(s, true), Some(s))
  {
    hide Rotate, Ring, Boundary;
    var v, n := b.Seen(), |b.lanes|;
    var away := if c < s then s - c else s + n - c;
    RingIsLane(b, t, s, c);
    Round(c, away, n);
    forall k | 1 <= k < away ensures Passed(v, c, k) { PassedOn(b, t, s, c, k); }
    assert v.Live(s);
    RotateIs(v, c, 1, away, s);
    assert v.Live(c) ==> v.at[c] == b.At(c);
  }

  lemma RingIsLane(b: Board, t: nat, s: nat, c: nat)
    requires b.Valid() && Boundary(b, t, s) && Ring(b, t, s, c) && s < |b.lanes| && t < |b.lanes[s].tokens|
    ensures c < |b.lanes| && b.cursors[s] == (t, 0) && b.cursors[c].1 == 0
  {}

  /** Nobody between `c` and `s` has anything left. */
  lemma PassedOn(b: Board, t: nat, s: nat, c: nat, k: nat)
    requires b.Valid() && Boundary(b, t, s) && Ring(b, t, s, c) && s < |b.lanes|
    requires 1 <= k < if c < s then s - c else s + |b.lanes| - c
    ensures Passed(b.Seen(), c, k)
  {
    Round(c, k, |b.lanes|);
    var j := (c + k) % |b.lanes|;
    assert b.cursors[j].0 == |b.lanes[j].tokens|;
  }

  // ----- a token -----

  /** Once begun, a token is served to its end. */
  lemma {:induction false} TokenServed(rule: Schedule, b: Board, worst: seq<nat>, s: nat) returns (c: Board, w: seq<nat>)
    requires b.Valid() && |worst| == |b.lanes| && b.Live(s) && b.lanes[s].tokens[b.cursors[s].0] != []
    requires Pick(rule, b.Seen()) == (ProcessMajor(s, true), Some(s))
    ensures c.Valid() && c.lanes == b.lanes && |w| == |worst| && c.cursors == b.cursors[s := (b.cursors[s].0 + 1, 0)]
    ensures Merge(rule, b, worst).0
      == Tagged(b.lanes, s, b.cursors[s].0, b.cursors[s].1) + Merge(ProcessMajor(s, true), c, w).0
    ensures Stop(rule, b) == Stop(ProcessMajor(s, true), c)
    decreases Remaining(b)
  {
    hide Merge, Stop, Left;
    assert b.Placed(s);
    StopStep(rule, b);
    MergeStep(rule, b, worst);
    var (t, index) := b.cursors[s];
    c, w := b.Advance(s), Kept(b, s, worst);
    if b.Ends(s) {
      assert Tagged(b.lanes, s, t, index) == [Serving(b, s)];
    } else {
      assert c.Seen().at[s] == c.At(s);
      c, w := TokenServed(ProcessMajor(s, true), c, w, s);
    }
  }

  lemma NextRow(b: Board, t: nat, c: nat)
    requires b.Valid() && Boundary(b, t, |b.lanes|) && Ring(b, t, |b.lanes|, c)
    ensures Boundary(b, t + 1, 0) && Ring(b, t + 1, 0, c)
  {}

  lemma NextLane(b: Board, t: nat, s: nat, c: nat)
    requires b.Valid() && s < |b.lanes| && Boundary(b, t, s) && Ring(b, t, s, c) && t >= |b.lanes[s].tokens|
    ensures Boundary(b, t, s + 1) && Ring(b, t, s + 1, c)
  {}

  lemma TokenDone(b: Board, d: Board, t: nat, s: nat)
    requires b.Valid() && d.Valid() && d.lanes == b.lanes && s < |b.lanes| && t < |b.lanes[s].tokens| && Boundary(b, t, s)
    requires d.cursors == b.cursors[s := (t + 1, 0)]
    ensures Boundary(d, t, s + 1) && Ring(d, t, s + 1, s)
  {}

  lemma AllDone(b: Board, t: nat, s: nat)
    requires b.Valid() && Boundary(b, t, s) && t >= MostTokens(b.lanes)
    ensures forall j: nat :: !b.Live(j)
  {
    forall j: nat ensures !b.Live(j) { assert j < |b.lanes| ==> b.cursors[j].0 == |b.lanes[j].tokens|; }
  }

  /** From a boundary on, whole tokens in order. */
  lemma {:induction false} RoundsServed(b: Board, worst: seq<nat>, t: nat, s: nat, c: nat)
    requires b.Valid() && |worst| == |b.lanes| && NoEmptyTokens(b.lanes) && s <= |b.lanes|
    requires Boundary(b, t, s) && Ring(b, t, s, c)
    ensures Merge(ProcessMajor(c, true), b, worst).0 == ByToken(b.lanes, t, s)
    decreases MostTokens(b.lanes) - t, |b.lanes| - s
  {
    hide Pick, Merge, NoEmptyTokens, Tagged, Stop, Boundary, Ring;
    if t >= MostTokens(b.lanes) {
      AllDone(b, t, s);
      NothingLeft(ProcessMajor(c, true), b, worst);
    } else if s == |b.lanes| {
      NextRow(b, t, c);
      RoundsServed(b, worst, t + 1, 0, c);
    } else if t >= |b.lanes[s].tokens| {
      NextLane(b, t, s, c);
      RoundsServed(b, worst, t, s + 1, c);
    } else {
      RingPick(b, t, s, c);
      RingIsLane(b, t, s, c);
      LiveHasNext(b, s);
      var d, w := TokenServed(ProcessMajor(c, true), b, worst, s);
      TokenDone(b, d, t, s);
      RoundsServed(d, w, t, s + 1, s);
    }
  }

  lemma NothingLeft(rule: Schedule, b: Board, worst: seq<nat>)
    requires b.Valid() && |worst| == |b.lanes| && forall j: nat :: !b.Live(j)
    ensures Merge(rule, b, worst).0 == []
  {
    PickNamesLive(rule, b.Seen());
  }

  /** A first lane with nothing to ask for is passed over. */
  lemma PassedOver(b: Board, worst: seq<nat>)
    requires b.Valid() && |worst| == |b.lanes| && !b.Live(0)
    ensures Merge(ProcessMajor(0, false), b, worst).0 == Merge(ProcessMajor(0, true), b, worst).0
  {
    var v := b.Seen();
    assert !v.Live(0);
  }

  /** Process-major is the concatenation, over token number then session, of
      whole tokens. */
  lemma ProcessMajorIsByToken(lanes: seq<Lane>)
    requires NoEmptyTokens(lanes)
    ensures Merge(ProcessMajor(0, false), Over(lanes), Zeros(|lanes|)).0 == ByToken(lanes, 0, 0)
  {
    hide Merge, Pick, NoEmptyTokens, Tagged, Stop;
    var b, w := Over(lanes), Zeros(|lanes|);
    if lanes == [] {
      NothingLeft(ProcessMajor(0, false), b, w);
    } else if lanes[0].tokens == [] {
      PassedOver(b, w);
      RoundsServed(b, w, 0, 1, 0);
    } else {
      FirstPick(b);
      LiveHasNext(b, 0);
      var c, x := TokenServed(ProcessMajor(0, false), b, w, 0);
      RoundsServed(c, x, 0, 1, 0);
    }
  }

  lemma FirstPick(b: Board)
    requires b.Valid() && b.Live(0)
    ensures Pick(ProcessMajor(0, false), b.Seen()) == (ProcessMajor(0, true), Some(0))
  {
    assert b.Seen().Live(0);
  }
}
