/** The latency escape's bound: with every ceiling covering the tokens that
    may run ahead of it, nobody waits past its ceiling by more than those. */
module Latency {
  import opened Basics
  import opened Abi
  import opened SessionModel
  import opened ScheduleModel
  import opened LanesModel
  import Admission

  /** One for each lane with a ceiling. */
  function Weights(lanes: seq<Lane>): (w: seq<int>)
    ensures |w| == |lanes|
  {
    seq(|lanes|, s requires 0 <= s < |lanes| => if lanes[s].ceiling == 0 then 0 else 1)
  }

  /** How many lanes have a ceiling. */
  function Contracted(lanes: seq<Lane>): int { SumSeq(Weights(lanes)) }

  predicate NoLonger(lane: Lane, most: nat) {
    forall t :: 0 <= t < |lane.tokens| ==> |lane.tokens[t]| <= most
  }

  /** No token is longer than `most`, and every ceiling covers one token of
      every other lane that has one. */
  ghost predicate Covering(lanes: seq<Lane>, most: nat) {
    forall s :: 0 <= s < |lanes| ==>
      NoLonger(lanes[s], most) && (lanes[s].ceiling != 0 ==> lanes[s].ceiling >= (Contracted(lanes) - 1) * most)
  }

  predicate Overdue(b: Board, s: nat)
    requires b.Valid()
  {
    b.Live(s) && b.lanes[s].ceiling != 0 && b.Waited(s) >= b.lanes[s].ceiling
  }

  // ----- who ran ahead of an overdue lane -----

  /** At most how many accesses lane `j` has had since lane `i` fell overdue
      at `since`: a whole token if it has ended one, else what it has had of
      the one it is on. */
  function Share(b: Board, i: nat, since: nat, most: nat, j: nat): nat
    requires b.Valid() && j < |b.lanes|
  {
    if j == i || b.lanes[j].ceiling == 0 then 0 else if b.due[j] > since then most else b.cursors[j].1
  }

  function Shares(b: Board, i: nat, since: nat, most: nat): (r: seq<int>)
    requires b.Valid()
    ensures |r| == |b.lanes| && forall j :: 0 <= j < |r| ==> r[j] == Share(b, i, since, most, j)
  {
    seq(|b.lanes|, j requires 0 <= j < |b.lanes| => Share(b, i, since, most, j))
  }

  lemma {:induction false} SumSeqScaled(s: seq<int>, w: seq<int>, most: nat)
    requires |s| == |w| && forall i :: 0 <= i < |s| ==> s[i] <= most * w[i]
    ensures SumSeq(s) <= most * SumSeq(w)
  {
    if s != [] {
      SumSeqScaled(s[1..], w[1..], most);
      assert most * SumSeq(w) == most * w[0] + most * SumSeq(w[1..]);
    }
  }

  lemma {:induction false} SumSeqPositive(s: seq<int>)
    requires forall i :: 0 <= i < |s| ==> s[i] >= 0
    ensures SumSeq(s) >= 0
  {
    if s != [] { SumSeqPositive(s[1..]); }
  }

  lemma ShareBound(b: Board, i: nat, since: nat, most: nat, j: nat)
    requires b.Valid() && j < |b.lanes| && NoLonger(b.lanes[j], most)
    ensures Share(b, i, since, most, j) <= most
  {
    assert b.Placed(j);
  }

  /** Everybody else's shares, and everybody's but one other's. */
  lemma SharesBound(b: Board, i: nat, since: nat, most: nat)
    requires b.Valid() && Covering(b.lanes, most) && i < |b.lanes| && b.lanes[i].ceiling != 0
    ensures SumSeq(Shares(b, i, since, most)) <= most * (Contracted(b.lanes) - 1)
    ensures forall j :: 0 <= j < |b.lanes| && j != i && b.lanes[j].ceiling != 0 ==>
      SumSeq(Shares(b, i, since, most)[j := 0]) <= most * (Contracted(b.lanes) - 2)
  {
    var w, r := Weights(b.lanes), Shares(b, i, since, most);
    SumSeqUpdate(w, i, 0);
    forall j | 0 <= j < |b.lanes| ensures r[j] <= most * w[i := 0][j] {
      ShareBound(b, i, since, most, j);
    }
    SumSeqScaled(r, w[i := 0], most);
    forall j | 0 <= j < |b.lanes| && j != i && b.lanes[j].ceiling != 0
      ensures SumSeq(r[j := 0]) <= most * (Contracted(b.lanes) - 2)
    {
      SumSeqUpdate(w[i := 0], j, 0);
      SumSeqScaled(r[j := 0], w[i := 0][j := 0], most);
    }
  }

  // ----- the invariant -----

  /** Since lane `i` fell overdue, others have had no more than their shares;
      and one that has ended a token since waits for the rest's. */
  ghost predicate Audited(b: Board, i: nat, since: nat, most: nat)
    requires b.Valid() && i < |b.lanes|
  {
    var r := Shares(b, i, since, most);
    && since <= b.clock
    && b.Waited(i) <= b.lanes[i].ceiling + SumSeq(r)
    && forall j :: 0 <= j < |b.lanes| && j != i && b.lanes[j].ceiling != 0 && b.Live(j) && b.due[j] > since ==>
         b.Waited(j) <= b.cursors[i].1 + SumSeq(r[j := 0])
  }

  ghost predicate Bounded(b: Board, since: seq<nat>, most: nat)
    requires b.Valid() && |since| == |b.lanes|
  {
    forall i :: 0 <= i < |b.lanes| && Overdue(b, i) ==> Audited(b, i, since[i], most)
  }

  /** When each lane fell overdue, once `p` has been served. */
  function SinceAfter(b: Board, since: seq<nat>): (r: seq<nat>)
    requires b.Valid() && |since| == |b.lanes|
    ensures |r| == |since|
  {
    seq(|since|, i requires 0 <= i < |since| => if Overdue(b, i) then since[i] else b.clock + 1)
  }

  lemma DueByNow(b: Board, j: nat)
    requires b.Valid() && j < |b.lanes|
    ensures b.due[j] <= b.clock
  {
    assert b.Placed(j);
    var (token, index) := b.cursors[j];
  }

  /** A lane that has only now reached its ceiling. */
  lemma JustOverdue(b: Board, p: nat, i: nat, most: nat)
    requires b.Valid() && b.Live(p) && i < |b.lanes| && !Overdue(b, i) && Overdue(b.Advance(p), i)
    ensures Audited(b.Advance(p), i, b.clock + 1, most)
  {
    var c := b.Advance(p);
    assert c.Placed(i) && b.Placed(i);
    forall j | 0 <= j < |c.lanes| ensures c.due[j] <= b.clock + 1 { DueByNow(c, j); }
    SumSeqPositive(Shares(c, i, b.clock + 1, most));
  }

  /** An overdue lane that is itself served. */
  lemma ServedOverdue(b: Board, i: nat, since: nat, most: nat)
    requires b.Valid() && Overdue(b, i) && Audited(b, i, since, most) && Overdue(b.Advance(i), i)
    ensures Audited(b.Advance(i), i, since, most)
  {
    var c := b.Advance(i);
    assert !b.Ends(i);
    assert Shares(c, i, since, most) == Shares(b, i, since, most);
  }

  /** One that has ended a token since `i` fell overdue is not overdue. */
  lemma EndedIsNotOverdue(b: Board, i: nat, p: nat, since: nat, most: nat)
    requires b.Valid() && Covering(b.lanes, most) && most > 0 && p != i
    requires Overdue(b, i) && Audited(b, i, since, most) && Overdue(b, p)
    ensures b.due[p] <= since
  {
    SharesBound(b, i, since, most);
    assert b.Placed(i) && b.cursors[i].1 < most;
    assert (Contracted(b.lanes) - 1) * most == most * (Contracted(b.lanes) - 2) + most;
  }

  /** Another overdue lane is served: its share grows by what it takes. */
  lemma OtherServed(b: Board, i: nat, p: nat, since: nat, most: nat)
    requires b.Valid() && p != i && i < |b.lanes| && b.NextOf(p).Some? && NoLonger(b.lanes[p], most)
    requires b.lanes[p].ceiling != 0 && b.due[p] <= since <= b.clock && Audited(b, i, since, most)
    ensures Audited(b.Advance(p), i, since, most)
  {
    var c := b.Advance(p);
    var r, q := Shares(b, i, since, most), Shares(c, i, since, most);
    assert b.Placed(p) && b.Placed(i);
    assert q == r[p := q[p]] && q[p] >= r[p] + 1;
    SumSeqUpdate(r, p, q[p]);
    forall j | 0 <= j < |c.lanes| && j != i && c.lanes[j].ceiling != 0 && c.Live(j) && c.due[j] > since
      ensures c.Waited(j) <= c.cursors[i].1 + SumSeq(q[j := 0])
    {
      if j == p {
        SumSeqPositive(q[j := 0]);
      } else {
        assert b.Placed(j);
        assert q[j := 0] == r[j := 0][p := q[p]];
        SumSeqUpdate(r[j := 0], p, q[p]);
      }
    }
  }

  /** One access served parameter-major keeps it so. */
  lemma StepBounded(b: Board, since: seq<nat>, most: nat)
    requires b.Valid() && |since| == |b.lanes| && Bounded(b, since, most) && Covering(b.lanes, most)
    requires ParameterPick(b.Seen()).Some? && b.NextOf(ParameterPick(b.Seen()).value).Some?
    ensures Bounded(b.Advance(ParameterPick(b.Seen()).value), SinceAfter(b, since), most)
  {
    hide Audited, Covering, ParameterPick, Board.Advance;
    var p := ParameterPick(b.Seen()).value;
    var c := b.Advance(p);
    forall i | 0 <= i < |c.lanes| && Overdue(c, i) ensures Audited(c, i, SinceAfter(b, since)[i], most) {
      if !Overdue(b, i) {
        JustOverdue(b, p, i, most);
      } else {
        PickIsOverdue(b, i);
        if p == i {
          ServedOverdue(b, i, since[i], most);
        } else {
          TokenBound(b, p, most);
          EndedIsNotOverdue(b, i, p, since[i], most);
          AuditedSince(b, i, since[i], most);
          OtherServed(b, i, p, since[i], most);
        }
      }
    }
  }

  lemma AuditedSince(b: Board, i: nat, since: nat, most: nat)
    requires b.Valid() && i < |b.lanes| && Audited(b, i, since, most)
    ensures since <= b.clock
  {}

  lemma TokenBound(b: Board, p: nat, most: nat)
    requires b.Valid() && b.NextOf(p).Some? && Covering(b.lanes, most)
    ensures most > 0 && NoLonger(b.lanes[p], most)
  {}

  /** While somebody is overdue, nobody else is served. */
  lemma PickIsOverdue(b: Board, i: nat)
    requires b.Valid() && i < |b.lanes| && Overdue(b, i)
    ensures ParameterPick(b.Seen()).Some? && Overdue(b, ParameterPick(b.Seen()).value)
  {
    assert b.Seen().Overdue(i);
    var p := FirstOverdue(b.Seen(), 0).value;
    assert b.Seen().Overdue(p);
  }

  /** What the invariant says of a wait. */
  lemma BoundedWaits(b: Board, since: seq<nat>, most: nat, i: nat)
    requires b.Valid() && |since| == |b.lanes| && Bounded(b, since, most) && Covering(b.lanes, most)
    requires b.Live(i) && b.lanes[i].ceiling != 0
    ensures 0 <= b.Waited(i) <= b.lanes[i].ceiling + (Contracted(b.lanes) - 1) * most
  {
    hide Covering;
    assert b.Placed(i);
    ContractedPositive(b.lanes, i);
    if Overdue(b, i) { SharesBound(b, i, since[i], most); }
  }

  lemma ContractedPositive(lanes: seq<Lane>, i: nat)
    requires i < |lanes| && lanes[i].ceiling != 0
    ensures Contracted(lanes) >= 1
  {
    var w := Weights(lanes);
    SumSeqUpdate(w, i, 0);
    SumSeqPositive(w[i := 0]);
  }

  // ----- every board of every run -----

  /** The board once `n` accesses have been served parameter-major, or the
      last one there is. */
  ghost function After(b: Board, n: nat): (c: Board)
    requires b.Valid()
    ensures c.Valid() && c.lanes == b.lanes
    decreases n
  {
    if n == 0 then b
    else
      var p := ParameterPick(b.Seen());
      if p.None? || b.NextOf(p.value).None? then b else After(b.Advance(p.value), n - 1)
  }

  lemma {:induction false} AfterBounded(b: Board, since: seq<nat>, most: nat, n: nat, i: nat)
    requires b.Valid() && |since| == |b.lanes| && Bounded(b, since, most) && Covering(b.lanes, most)
    ensures var c := After(b, n);
      c.Live(i) && c.lanes[i].ceiling != 0 ==>
        0 <= c.Waited(i) <= c.lanes[i].ceiling + (Contracted(c.lanes) - 1) * most
    decreases n
  {
    hide Bounded, Covering, ParameterPick, Board.Advance, SinceAfter;
    var p := ParameterPick(b.Seen());
    if n == 0 || p.None? || b.NextOf(p.value).None? {
      if b.Live(i) && b.lanes[i].ceiling != 0 { BoundedWaits(b, since, most, i); }
    } else {
      StepBounded(b, since, most);
      AfterBounded(b.Advance(p.value), SinceAfter(b, since), most, n - 1, i);
    }
  }

  lemma StartBounded(lanes: seq<Lane>, most: nat)
    ensures Bounded(Over(lanes), Zeros(|lanes|), most)
  {}

  /** Parameter-major, however long it has run: with `k` contracted sessions,
      tokens no longer than `most` and every ceiling at least `k - 1` of
      them, no wait passes its ceiling by more than `k - 1` tokens. */
  lemma WaitIsBounded(lanes: seq<Lane>, most: nat, n: nat, i: nat)
    requires Covering(lanes, most)
    ensures var b := After(Over(lanes), n);
      b.Live(i) && lanes[i].ceiling != 0 ==>
        0 <= b.Waited(i) <= lanes[i].ceiling + (Contracted(lanes) - 1) * most
  {
    hide After, Bounded, Covering;
    StartBounded(lanes, most);
    AfterBounded(Over(lanes), Zeros(|lanes|), most, n, i);
  }

  // ----- what is delivered -----

  /** The worst period over a whole merge, from a bounded board; `own` is the
      lane's own longest token. */
  lemma {:induction false} MergeBounded(b: Board, since: seq<nat>, most: nat, worst: seq<nat>, i: nat, own: nat, top: int)
    requires b.Valid() && |since| == |b.lanes| == |worst| && Bounded(b, since, most) && Covering(b.lanes, most)
    requires i < |b.lanes| && b.lanes[i].ceiling != 0 && worst[i] <= top && NoLonger(b.lanes[i], own)
    requires top >= own + b.lanes[i].ceiling + (Contracted(b.lanes) - 1) * most
    ensures Merge(ParameterMajor, b, worst).1[i] <= top
    decreases Remaining(b)
  {
    hide Bounded, Covering, ParameterPick, Board.Advance, SinceAfter, Remaining, NoLonger;
    MergeStep(ParameterMajor, b, worst);
    var p := ParameterPick(b.Seen());
    if p.Some? && b.NextOf(p.value).Some? {
      StepBounded(b, since, most);
      if p.value == i {
        BoundedWaits(b, since, most, i);
        PeriodIsWait(b, i, own);
      }
      MergeBounded(b.Advance(p.value), SinceAfter(b, since), most, Kept(b, p.value, worst), i, own, top);
    }
  }

  /** A token's period is its length and the wait around it. */
  lemma PeriodIsWait(b: Board, i: nat, own: nat)
    requires b.Valid() && b.NextOf(i).Some? && NoLonger(b.lanes[i], own)
    ensures b.Period(i).Some? ==> b.Period(i).value == |b.lanes[i].tokens[b.cursors[i].0]| + b.Waited(i)
    ensures b.Period(i).Some? ==> b.Period(i).value <= own + b.Waited(i)
  {
    assert b.Placed(i);
  }

  /** The worst period delivered to a contracted session is at most its own
      token, its ceiling, and a token of each other contracted session: so no
      more than its token and twice its ceiling, and with one contracted
      session no more than its token and its ceiling. */
  lemma WorstIsBounded(lanes: seq<Lane>, most: nat, i: nat, own: nat)
    requires Covering(lanes, most) && i < |lanes| && lanes[i].ceiling != 0 && NoLonger(lanes[i], own)
    ensures var worst := Merge(ParameterMajor, Over(lanes), Zeros(|lanes|)).1[i];
      && worst <= own + lanes[i].ceiling + (Contracted(lanes) - 1) * most
      && worst <= own + 2 * lanes[i].ceiling
      && (Contracted(lanes) == 1 ==> worst <= own + lanes[i].ceiling)
  {
    hide Merge, NoLonger;
    StartBounded(lanes, most);
    ContractedPositive(lanes, i);
    MulNonNegative(Contracted(lanes) - 1, most);
    MergeBounded(Over(lanes), Zeros(|lanes|), most, Zeros(|lanes|), i, own,
      own + lanes[i].ceiling + (Contracted(lanes) - 1) * most);
  }

  /** Three sessions with ceilings that do not cover each other's tokens. */
  function Crowded(x: ObjectId, y: ObjectId): seq<Lane> {
    [Lane(1, 1, [[x, x, x]]), Lane(2, 1, [[x, x, x]]), Lane(3, 1, [[y]])]
  }

  /** Without that cover twice the ceiling is no bound: the two sessions in
      front, always overdue, are always served first. */
  lemma UncoveredWaitsLonger(x: ObjectId, y: ObjectId)
    requires x != y
    ensures !Covering(Crowded(x, y), 3)
    ensures var b := After(Over(Crowded(x, y)), 3); b.Live(2) && b.Waited(2) > 2 * b.lanes[2].ceiling
  {
    var lanes := Crowded(x, y);
    assert Weights(lanes) == [1, 1, 1] && SumSeq([1, 1, 1]) == 3;
    assert lanes[0].ceiling < (Contracted(lanes) - 1) * 3;
    var b := Over(lanes);
    var c := b.Advance(0);
    var d := c.Advance(1);
    FirstPick(x, y);
    assert c.Seen().Overdue(1) && !c.Seen().Overdue(0);
    assert d.Seen().Overdue(0);
    assert After(b, 3) == After(c, 2) == After(d, 1) == d.Advance(0);
  }

  lemma FirstPick(x: ObjectId, y: ObjectId)
    requires x != y
    ensures ParameterPick(Over(Crowded(x, y)).Seen()) == Some(0)
  {
    var v := Over(Crowded(x, y)).Seen();
    assert v.next == [Some(x), Some(x), Some(y)];
    assert v.next[1..] == [Some(x), Some(y)] && [Some(x), Some(y)][1..] == [Some(y)] && [Some(y)][1..] == [];
    assert Count([Some(y)], x) == 0 && Count([Some(y)], y) == 1;
    assert Count([Some(x), Some(y)], x) == 1 && Count([Some(x), Some(y)], y) == 1;
    assert Count(v.next, x) == 2 && Count(v.next, y) == 1;
    assert Soonest(v, 1) == Some(0) && Soonest(v, 2) == Some(0);
  }

  lemma MulNonNegative(a: int, b: nat)
    requires a >= 0
    ensures a * b >= 0
  {}

  // ----- with admission -----

  /** One lane a slot: the session's contract, and nothing to ask for where
      there is no session. */
  ghost predicate LanesOf(slots: Slots, lanes: seq<Lane>) {
    |lanes| == |slots| && forall i :: 0 <= i < |slots| ==>
      lanes[i].ceiling == if slots[i].Some? then slots[i].value.contract.latencyCeiling else 0
  }

  lemma {:induction false} AheadIsContracted(slots: Slots, lanes: seq<Lane>)
    requires LanesOf(slots, lanes)
    ensures Admission.Ahead(slots) == Contracted(lanes)
  {
    if slots != [] {
      AheadIsContracted(slots[1..], lanes[1..]);
      assert Weights(lanes)[1..] == Weights(lanes[1..]);
    }
  }

  /** What admission promises is what the bound needs. */
  lemma AdmissionCovers(c: Admission.Capacity, slots: Slots, lanes: seq<Lane>)
    requires LanesOf(slots, lanes) && c.token != 0 && Admission.LatencyHonoured(c, slots)
    requires forall i :: 0 <= i < |lanes| ==> NoLonger(lanes[i], c.token)
    ensures Covering(lanes, c.token)
  {
    AheadIsContracted(slots, lanes);
    forall i | 0 <= i < |lanes| && lanes[i].ceiling != 0
      ensures lanes[i].ceiling >= (Contracted(lanes) - 1) * c.token
    {
      assert Admission.Contracted(slots[i]);
      assert c.token * (Admission.Ahead(slots) - 1) == (Contracted(lanes) - 1) * c.token;
    }
  }

  lemma CoveringBound(lanes: seq<Lane>, most: nat, i: nat)
    requires Covering(lanes, most) && i < |lanes|
    ensures NoLonger(lanes[i], most)
  {}

  /** End to end: after every run of sessions created and destroyed under a
      capacity whose whole tokens 32 bits can count, sessions scheduled
      parameter-major in tokens no longer than it promises are each delivered
      their ceiling, give or take a token a contracted session. */
  lemma AdmittedWorstIsBounded(c: Admission.Capacity, es: seq<Admission.Event>, lanes: seq<Lane>, i: nat)
    requires c.bytes <= U64_MAX && 0 < c.token <= U32_MAX && c.token * (MAX_SESSIONS - 1) <= U32_MAX
    requires LanesOf(Admission.AfterAll(c, Admission.Nobody(MAX_SESSIONS), es), lanes)
    requires forall j :: 0 <= j < |lanes| ==> NoLonger(lanes[j], c.token)
    requires i < |lanes| && lanes[i].ceiling != 0
    ensures var slots := Admission.AfterAll(c, Admission.Nobody(MAX_SESSIONS), es);
      Merge(ParameterMajor, Over(lanes), Zeros(|lanes|)).1[i]
        <= lanes[i].ceiling + Admission.Ahead(slots) * c.token
  {
    hide Merge, Admission.AfterAll, Admission.LatencyHonoured, LanesOf, NoLonger, Covering;
    var slots := Admission.AfterAll(c, Admission.Nobody(MAX_SESSIONS), es);
    Admission.AdmissionHonours(c);
    AheadIsContracted(slots, lanes);
    AdmissionCovers(c, slots, lanes);
    CoveringBound(lanes, c.token, i);
    WorstIsBounded(lanes, c.token, i, c.token);
    assert (Contracted(lanes) - 1) * c.token + c.token == Contracted(lanes) * c.token;
  }
}
