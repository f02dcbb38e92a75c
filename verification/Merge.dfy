/** What a merged trace is: every access of every lane exactly once and in
    lane order, whichever the schedule; lockstep when it is parameter-major. */
module MergeModel {
  import opened Basics
  import opened Abi
  import opened ScheduleModel
  import opened LanesModel

  /** The accesses served to one lane, in the order served. */
  function Of(out: seq<Served>, s: nat): seq<ObjectId> {
    if out == [] then [] else (if out[0].lane == s then [out[0].wanted] else []) + Of(out[1..], s)
  }

  /** No lane has an empty token. */
  ghost predicate NoEmptyTokens(lanes: seq<Lane>) {
    forall s, t :: 0 <= s < |lanes| && 0 <= t < |lanes[s].tokens| ==> lanes[s].tokens[t] != []
  }

  /** Each served access is the one at its position in its lane. */
  predicate Is(lanes: seq<Lane>, a: Served) {
    && a.lane < |lanes| && a.token < |lanes[a.lane].tokens| && a.index < |lanes[a.lane].tokens[a.token]|
    && lanes[a.lane].tokens[a.token][a.index] == a.wanted
  }

  lemma LiveHasNext(b: Board, s: nat)
    requires b.Valid() && b.Live(s) && NoEmptyTokens(b.lanes)
    ensures b.NextOf(s).Some?
  {
    assert b.Placed(s);
  }

  lemma OfCons(a: Served, out: seq<Served>, s: nat)
    ensures Of([a] + out, s) == (if a.lane == s then [a.wanted] else []) + Of(out, s)
  {
    assert ([a] + out)[1..] == out;
  }

  /** Whatever the schedule, each lane is served a prefix of what it asks
      for, in its own order; and all of it, if no token is empty. */
  lemma {:induction false} EveryAccessInOrder(rule: Schedule, b: Board, worst: seq<nat>, s: nat)
    requires b.Valid() && |worst| == |b.lanes|
    ensures Of(Merge(rule, b, worst).0, s) <= b.Rest(s)
    ensures NoEmptyTokens(b.lanes) ==> Of(Merge(rule, b, worst).0, s) == b.Rest(s)
    decreases Remaining(b)
  {
    hide Pick, Board.Advance, RestOf, Remaining, Of;
    var (next, picked) := Pick(rule, b.Seen());
    MergeStep(rule, b, worst);
    OfNone(s);
    if picked.Some? && b.NextOf(picked.value).Some? {
      var p := picked.value;
      AdvanceRest(b, p);
      EveryAccessInOrder(next, b.Advance(p), Kept(b, p, worst), s);
      OfCons(Serving(b, p), Merge(next, b.Advance(p), Kept(b, p, worst)).0, s);
    } else if picked.Some? && NoEmptyTokens(b.lanes) {
      LiveHasNext(b, picked.value);
    }
  }

  lemma OfNone(s: nat)
    ensures Of([], s) == []
  {}

  /** Nothing is served that the lanes do not ask for. */
  lemma {:induction false} EveryAccessIs(rule: Schedule, b: Board, worst: seq<nat>)
    requires b.Valid() && |worst| == |b.lanes|
    ensures forall a :: a in Merge(rule, b, worst).0 ==> Is(b.lanes, a)
    decreases Remaining(b)
  {
    hide Pick, Board.Advance, Remaining;
    var (next, picked) := Pick(rule, b.Seen());
    MergeStep(rule, b, worst);
    if picked.Some? && b.NextOf(picked.value).Some? {
      EveryAccessIs(next, b.Advance(picked.value), Kept(b, picked.value, worst));
    }
  }

  /** Every access of every lane, exactly once and in lane order. */
  lemma MergeServesEveryAccess(rule: Schedule, lanes: seq<Lane>, s: nat)
    requires NoEmptyTokens(lanes) && s < |lanes|
    ensures Of(Merge(rule, Over(lanes), Zeros(|lanes|)).0, s) == Flat(lanes[s].tokens)
  {
    EveryAccessInOrder(rule, Over(lanes), Zeros(|lanes|), s);
    var tokens := lanes[s].tokens;
    if tokens != [] { assert tokens[0][0..] == tokens[0]; }
  }

  /** The trace records each access served, in turn: who asked and for what. */
  lemma {:induction false} TraceRecords(lanes: seq<Lane>, out: seq<Served>, i: nat)
    requires i < |out| && forall a :: a in out ==> Is(lanes, a)
    ensures |Trace(lanes, out)| == |out| && Is(lanes, out[i])
    ensures Trace(lanes, out)[i] == Access(lanes[out[i].lane].session, lanes[out[i].lane].tokens[out[i].token][out[i].index])
  {
    assert Is(lanes, out[i]);
    if i > 0 { TraceRecords(lanes, out[1..], i - 1); }
  }

  // ----- where it stops -----

  /** The board at which the driver stops. */
  ghost function Stop(rule: Schedule, b: Board): (f: Board)
    requires b.Valid()
    ensures f.Valid() && f.lanes == b.lanes
    decreases Remaining(b)
  {
    var (next, picked) := Pick(rule, b.Seen());
    if picked.None? || b.NextOf(picked.value).None? then b
    else
      LeftFewer(b, picked.value, |b.lanes|);
      Stop(next, b.Advance(picked.value))
  }

  lemma StopStep(rule: Schedule, b: Board)
    requires b.Valid()
    ensures var (next, picked) := Pick(rule, b.Seen());
      Stop(rule, b) ==
        if picked.None? || !b.Live(picked.value) || b.NextOf(picked.value).None? then b else Stop(next, b.Advance(picked.value))
  {
    hide Pick, Board.Advance, Left;
  }

  /** What has not been served is what the stopping board still has. */
  lemma {:induction false} StopLeaves(rule: Schedule, b: Board, worst: seq<nat>, s: nat)
    requires b.Valid() && |worst| == |b.lanes|
    ensures Of(Merge(rule, b, worst).0, s) + Stop(rule, b).Rest(s) == b.Rest(s)
    decreases Remaining(b)
  {
    hide Pick, Board.Advance, Board.Rest, Remaining, Of;
    var (next, picked) := Pick(rule, b.Seen());
    MergeStep(rule, b, worst);
    OfNone(s);
    if picked.Some? && b.NextOf(picked.value).Some? {
      var p := picked.value;
      AdvanceRest(b, p);
      StopLeaves(next, b.Advance(p), Kept(b, p, worst), s);
      OfCons(Serving(b, p), Merge(next, b.Advance(p), Kept(b, p, worst)).0, s);
    }
  }

  /** Every access of every lane served, and in lane order. */
  ghost predicate ServesAll(rule: Schedule, lanes: seq<Lane>) {
    forall s :: 0 <= s < |lanes| ==> Of(Merge(rule, Over(lanes), Zeros(|lanes|)).0, s) == Flat(lanes[s].tokens)
  }

  /** Nobody has anything left. */
  ghost predicate Spent(b: Board)
    requires b.Valid()
  {
    forall s :: 0 <= s < |b.lanes| ==> b.Rest(s) == []
  }

  /** Everything is served exactly when the driver stops with nothing left. */
  lemma ServesAllExactly(rule: Schedule, lanes: seq<Lane>)
    ensures ServesAll(rule, lanes) <==> Spent(Stop(rule, Over(lanes)))
  {
    hide Merge, Stop, Of, Board.Rest;
    var f := Stop(rule, Over(lanes));
    if ServesAll(rule, lanes) {
      forall s | 0 <= s < |lanes| ensures f.Rest(s) == [] { ServedExactly(rule, lanes, s); }
    }
    if Spent(f) {
      forall s | 0 <= s < |lanes| ensures Of(Merge(rule, Over(lanes), Zeros(|lanes|)).0, s) == Flat(lanes[s].tokens) {
        ServedExactly(rule, lanes, s);
      }
    }
  }

  lemma ServedExactly(rule: Schedule, lanes: seq<Lane>, s: nat)
    requires s < |lanes|
    ensures (Of(Merge(rule, Over(lanes), Zeros(|lanes|)).0, s) == Flat(lanes[s].tokens))
       <==> (Stop(rule, Over(lanes)).Rest(s) == [])
  {
    hide Merge, Stop, Of, Board.Rest;
    StopLeaves(rule, Over(lanes), Zeros(|lanes|), s);
    StartRest(lanes, s);
    NothingMore(Of(Merge(rule, Over(lanes), Zeros(|lanes|)).0, s), Stop(rule, Over(lanes)).Rest(s));
  }

  lemma NothingMore(a: seq<ObjectId>, b: seq<ObjectId>)
    ensures a == a + b <==> b == []
  {
    assert |a + b| == |a| + |b|;
  }

  lemma StartRest(lanes: seq<Lane>, s: nat)
    requires s < |lanes|
    ensures Over(lanes).Rest(s) == Flat(lanes[s].tokens)
  {
    var tokens := lanes[s].tokens;
    if tokens != [] { assert tokens[0][0..] == tokens[0]; }
  }

  /** With an empty token the driver stops there, whatever is left: the
      promise is kept for tokens that hold something. */
  lemma EmptyTokenStops(x: ObjectId, rule: Schedule)
    requires rule == ParameterMajor || rule == ProcessMajor(0, false)
    ensures var lanes := [Lane(1, 0, [[], [x]])];
      Merge(rule, Over(lanes), Zeros(1)).0 == [] && Flat(lanes[0].tokens) == [x]
  {
    var lanes := [Lane(1, 0, [[], [x]])];
    var v := Over(lanes).Seen();
    assert v.Live(0) && Soonest(v, 1) == Some(0);
    assert lanes[0].tokens[1..] == [[x]] && Flat([[x]]) == [x];
  }

  // ----- the worst period -----

  /** How many accesses each of a lane's tokens from the cursor on has left. */
  function Lengths(tokens: seq<seq<ObjectId>>, token: nat, index: nat): seq<int>
    decreases |tokens| - token
  {
    if token >= |tokens| then [] else [|tokens[token]| - index] + Lengths(tokens, token + 1, 0)
  }

  /** The longest stretch of a trace between the ends of two consecutive
      tokens of lane `s`, `since` accesses having been served to anyone since
      the last. */
  function Longest(out: seq<Served>, s: nat, lengths: seq<int>, since: nat): nat
    decreases |out|
  {
    if out == [] || lengths == [] then 0
    else if out[0].lane != s then Longest(out[1..], s, lengths, since + 1)
    else if lengths[0] <= 1 then Max(since + 1, Longest(out[1..], s, lengths[1..], 0))
    else Longest(out[1..], s, [lengths[0] - 1] + lengths[1..], since + 1)
  }

  lemma LengthsStep(b: Board, p: nat, s: nat)
    requires b.Valid() && b.NextOf(p).Some? && s < |b.lanes|
    ensures var c := b.Advance(p);
      var was, now := Lengths(b.lanes[s].tokens, b.cursors[s].0, b.cursors[s].1),
                      Lengths(b.lanes[s].tokens, c.cursors[s].0, c.cursors[s].1);
      && (p != s ==> now == was)
      && (p == s ==> was != [] && (b.Ends(s) <==> was[0] <= 1)
                     && now == if b.Ends(s) then was[1..] else [was[0] - 1] + was[1..])
  {}

  /** The worst period reported for a lane is the longest stretch of the
      trace itself between the ends of two of its tokens. */
  lemma {:induction false} WorstIsLongest(rule: Schedule, b: Board, worst: seq<nat>, s: nat)
    requires b.Valid() && |worst| == |b.lanes| && s < |b.lanes|
    ensures var (out, last) := Merge(rule, b, worst);
      last[s] == Max(worst[s], Longest(out, s, Lengths(b.lanes[s].tokens, b.cursors[s].0, b.cursors[s].1), b.clock - b.due[s]))
    decreases Remaining(b)
  {
    hide Pick, Lengths, Remaining, Merge, Longest, Board.Advance;
    MergeStep(rule, b, worst);
    var (next, picked) := Pick(rule, b.Seen());
    var was := Lengths(b.lanes[s].tokens, b.cursors[s].0, b.cursors[s].1);
    if picked.Some? && b.NextOf(picked.value).Some? {
      var p := picked.value;
      LengthsStep(b, p, s);
      var c := b.Advance(p);
      WorstIsLongest(next, c, Kept(b, p, worst), s);
      LongestCons(Serving(b, p), Merge(next, c, Kept(b, p, worst)).0, s, was, b.clock - b.due[s]);
      AdvanceDue(b, p, s);
    } else {
      LongestNone(s, was, b.clock - b.due[s]);
    }
  }

  lemma AdvanceDue(b: Board, p: nat, s: nat)
    requires b.Valid() && b.NextOf(p).Some? && s < |b.lanes|
    ensures b.Advance(p).due[s] == if p == s && b.Ends(s) then b.clock + 1 else b.due[s]
  {}

  lemma LongestNone(s: nat, lengths: seq<int>, since: nat)
    ensures Longest([], s, lengths, since) == 0
  {}

  lemma LongestCons(a: Served, out: seq<Served>, s: nat, lengths: seq<int>, since: nat)
    ensures Longest([a] + out, s, lengths, since) ==
      if lengths == [] then Longest(out, s, lengths, since + 1)
      else if a.lane != s then Longest(out, s, lengths, since + 1)
      else if lengths[0] <= 1 then Max(since + 1, Longest(out, s, lengths[1..], 0))
      else Longest(out, s, [lengths[0] - 1] + lengths[1..], since + 1)
  {
    assert ([a] + out)[1..] == out;
  }

  // ----- lockstep -----

  /** An earlier position in everyone's stream, or the same one. */
  predicate NoLater(a: Served, c: Served) { a.token < c.token || (a.token == c.token && a.index <= c.index) }

  /** Positions never go back. */
  ghost predicate Lockstep(out: seq<Served>) {
    forall i, j :: 0 <= i < j < |out| ==> NoLater(out[i], out[j])
  }

  ghost predicate NoCeilings(lanes: seq<Lane>) {
    forall s :: 0 <= s < |lanes| ==> lanes[s].ceiling == 0
  }

  /** Everyone still to be served is at this position or past it. */
  ghost predicate AllPast(b: Board, token: nat, index: nat)
    requires b.Valid()
  {
    forall s: nat :: b.Live(s) ==> token < b.cursors[s].0 || (token == b.cursors[s].0 && index <= b.cursors[s].1)
  }

  /** Without ceilings the session picked is at the least position. */
  lemma PickIsLeast(b: Board)
    requires b.Valid() && NoCeilings(b.lanes) && Pick(ParameterMajor, b.Seen()).1.Some?
    ensures var p := Pick(ParameterMajor, b.Seen()).1.value; b.Live(p) && AllPast(b, b.cursors[p].0, b.cursors[p].1)
  {
    var v := b.Seen();
    var p := Pick(ParameterMajor, v).1.value;
    assert !v.Overdue(p);
    forall s: nat | b.Live(s)
      ensures b.cursors[p].0 < b.cursors[s].0 || (b.cursors[p].0 == b.cursors[s].0 && b.cursors[p].1 <= b.cursors[s].1)
    {
      assert v.Live(s) && Sooner(v, p, s);
    }
  }

  lemma StaysParameterMajor(v: View)
    ensures Pick(ParameterMajor, v).0 == ParameterMajor
  {}

  lemma StillPast(b: Board, p: nat)
    requires b.Valid() && b.Live(p) && AllPast(b, b.cursors[p].0, b.cursors[p].1)
    ensures AllPast(b.Advance(p), b.cursors[p].0, b.cursors[p].1)
  {
    var c := b.Advance(p);
    forall s: nat | c.Live(s)
      ensures b.cursors[p].0 < c.cursors[s].0 || (b.cursors[p].0 == c.cursors[s].0 && b.cursors[p].1 <= c.cursors[s].1)
    {
      assert s != p ==> b.Live(s);
    }
  }

  lemma FromPast(b: Board, p: nat, token: nat, index: nat)
    requires b.Valid() && b.Live(p) && AllPast(b, token, index)
    ensures token < b.cursors[p].0 || (token == b.cursors[p].0 && index <= b.cursors[p].1)
  {}

  /** Parameter-major without ceilings: positions never go back, so a token
      is begun only when everyone alive is through with the one before it. */
  lemma {:induction false} ParameterMajorIsLockstep(b: Board, worst: seq<nat>, token: nat, index: nat)
    requires b.Valid() && |worst| == |b.lanes| && NoCeilings(b.lanes) && AllPast(b, token, index)
    ensures var out := Merge(ParameterMajor, b, worst).0;
      Lockstep(out) && forall a :: a in out ==> token < a.token || (token == a.token && index <= a.index)
    decreases Remaining(b)
  {
    hide Pick, Board.Advance, Remaining, AllPast;
    var picked := Pick(ParameterMajor, b.Seen()).1;
    StaysParameterMajor(b.Seen());
    MergeStep(ParameterMajor, b, worst);
    if picked.Some? && b.NextOf(picked.value).Some? {
      var p := picked.value;
      PickIsLeast(b);
      var (t, i) := b.cursors[p];
      StillPast(b, p);
      ParameterMajorIsLockstep(b.Advance(p), Kept(b, p, worst), t, i);
      FromPast(b, p, token, index);
    }
  }
}
