/** How far the latency escape reaches: with ceilings that do not cover each
    other's tokens, who can be kept waiting and who cannot. */
module Uncovered {
  import opened Basics
  import opened Abi
  import opened ScheduleModel
  import opened LanesModel
  import opened Latency

  // ----- who never waits -----

  /** Nobody below has a ceiling. */
  predicate First(lanes: seq<Lane>, i: nat) {
    i < |lanes| && lanes[i].ceiling != 0 && forall j :: 0 <= j < i ==> lanes[j].ceiling == 0
  }

  lemma StepPrompt(b: Board, i: nat, p: nat)
    requires b.Valid() && First(b.lanes, i) && ParameterPick(b.Seen()) == Some(p) && b.NextOf(p).Some?
    requires b.Live(i) ==> b.Waited(i) <= b.lanes[i].ceiling
    ensures b.Advance(p).Live(i) ==> b.Advance(p).Waited(i) <= b.lanes[i].ceiling
  {
    hide Soonest;
    if Overdue(b, i) { assert b.Seen().Overdue(i); }
  }

  lemma {:induction false} AfterPrompt(b: Board, n: nat, i: nat)
    requires b.Valid() && First(b.lanes, i) && (b.Live(i) ==> b.Waited(i) <= b.lanes[i].ceiling)
    ensures After(b, n).Live(i) ==> After(b, n).Waited(i) <= b.lanes[i].ceiling
    decreases n
  {
    hide First, ParameterPick, Board.Advance;
    var p := ParameterPick(b.Seen());
    if n > 0 && p.Some? && b.NextOf(p.value).Some? {
      StepPrompt(b, i, p.value);
      AfterPrompt(b.Advance(p.value), n - 1, i);
    }
  }

  /** Covered or not, the lowest session with a ceiling never waits past it. */
  lemma FirstIsPrompt(lanes: seq<Lane>, n: nat, i: nat)
    requires First(lanes, i)
    ensures var b := After(Over(lanes), n); b.Live(i) ==> b.Waited(i) <= lanes[i].ceiling
  {
    AfterPrompt(Over(lanes), n, i);
  }

  // ----- who does -----

  /** `k` sessions of one ceiling `c`, and tokens no longer than `most`. */
  ghost predicate Alike(lanes: seq<Lane>, k: nat, c: nat, most: nat) {
    Contracted(lanes) == k
    && forall s :: 0 <= s < |lanes| ==> NoLonger(lanes[s], most) && (lanes[s].ceiling == 0 || lanes[s].ceiling == c)
  }

  /** However long it runs, nobody waits past twice the ceiling. */
  ghost predicate WithinTwice(lanes: seq<Lane>, c: nat) {
    forall n: nat, i: nat :: i < |lanes| && lanes[i].ceiling != 0 && After(Over(lanes), n).Live(i) ==>
      After(Over(lanes), n).Waited(i) <= 2 * c
  }

  function Same(x: ObjectId, n: nat): (r: seq<ObjectId>)
    ensures |r| == n && forall i :: 0 <= i < n ==> r[i] == x
  {
    seq(n, _ => x)
  }

  /** `c` sessions of one access and no ceiling, and after them `k` of one
      token of `most` accesses and ceiling `c`, all wanting one object. */
  function Queued(x: ObjectId, k: nat, c: nat, most: nat): (lanes: seq<Lane>)
    ensures |lanes| == c + k
    ensures forall s :: 0 <= s < |lanes| ==>
      lanes[s].ceiling == (if s < c then 0 else c) && lanes[s].tokens == [Same(x, if s < c then 1 else most)]
  {
    seq(c + k, s requires 0 <= s < c + k => Lane(s + 1, if s < c then 0 else c, [Same(x, if s < c then 1 else most)]))
  }

  lemma {:induction false} SumSame(n: nat, v: int)
    ensures SumSeq(seq(n, _ => v)) == n * v
  {
    if n > 0 {
      assert seq(n, _ => v)[1..] == seq(n - 1, _ => v);
      SumSame(n - 1, v);
      assert n * v == (n - 1) * v + v;
    }
  }

  lemma QueuedAlike(x: ObjectId, k: nat, c: nat, most: nat)
    requires c > 0 && most > 0
    ensures Alike(Queued(x, k, c, most), k, c, most)
  {
    var lanes := Queued(x, k, c, most);
    assert Weights(lanes) == seq(c, _ => 0) + seq(k, _ => 1);
    SumSeqAppend(seq(c, _ => 0), seq(k, _ => 1));
    SumSame(c, 0);
    SumSame(k, 1);
    forall s | 0 <= s < |lanes| ensures NoLonger(lanes[s], most) {}
  }

  /** The first `m` are done, nobody else has begun. */
  ghost predicate Starting(b: Board, x: ObjectId, k: nat, c: nat, most: nat, m: nat) {
    && b.Valid() && b.lanes == Queued(x, k, c, most) && m <= c && b.clock == m
    && forall s :: 0 <= s < c + k ==> b.cursors[s] == (if s < m then (1, 0) else (0, 0)) && (s >= m ==> b.due[s] == 0)
  }

  /** The first `c + j` are done, the next has had `index` accesses. */
  ghost predicate Late(b: Board, x: ObjectId, k: nat, c: nat, most: nat, j: nat, index: nat) {
    && b.Valid() && b.lanes == Queued(x, k, c, most) && j < k && index < most && b.clock == c + j * most + index
    && forall s :: 0 <= s < c + k ==>
         && b.cursors[s] == (if s < c + j then (1, 0) else (0, if s == c + j then index else 0))
         && (s >= c + j ==> b.due[s] == 0)
  }

  /** Nobody is overdue yet: the lowest of those who want the same is served. */
  lemma StartingPick(b: Board, x: ObjectId, k: nat, c: nat, most: nat, m: nat)
    requires Starting(b, x, k, c, most, m) && m < c && most > 0
    ensures ParameterPick(b.Seen()) == Some(m) && b.Live(m) && b.NextOf(m) == Some(x)
    ensures Starting(b.Advance(m), x, k, c, most, m + 1)
  {
    hide Soonest, Count, Queued;
    var v := b.Seen();
    assert b.Live(m);
    assert forall s: nat :: !v.Overdue(s);
    var p := Soonest(v, |v.at|).value;
    assert Sooner(v, p, m);
    assert p >= m;
    assert v.next[p] == Some(x) == v.next[m];
  }

  lemma StartingPlace(b: Board, x: ObjectId, k: nat, c: nat, most: nat, m: nat)
    requires Starting(b, x, k, c, most, m)
    ensures b.Valid() && m <= c
  {}

  lemma {:induction false} StartingServed(b: Board, x: ObjectId, k: nat, c: nat, most: nat, m: nat, n: nat) returns (d: Board)
    requires Starting(b, x, k, c, most, m) && most > 0
    ensures Starting(d, x, k, c, most, c) && After(b, c - m + n) == After(d, n)
    decreases c - m
  {
    hide ParameterPick, Board.Advance, Starting;
    d := b;
    StartingPlace(b, x, k, c, most, m);
    if m < c {
      StartingPick(b, x, k, c, most, m);
      d := StartingServed(b.Advance(m), x, k, c, most, m + 1, n);
    }
  }

  /** From then on the lowest of them is served, token after token. */
  lemma LatePick(b: Board, x: ObjectId, k: nat, c: nat, most: nat, j: nat, index: nat)
    requires Late(b, x, k, c, most, j, index) && c > 0
    ensures b.Valid() && ParameterPick(b.Seen()) == Some(c + j) && b.Live(c + j) && b.NextOf(c + j) == Some(x)
  {
    hide Soonest, Queued;
    var v := b.Seen();
    LateWaits(b, x, k, c, most, j, index);
    assert v.at[c + j] == b.At(c + j);
    assert v.Overdue(c + j);
    forall s: nat | v.Overdue(s) ensures s >= c + j {}
  }

  lemma LateWaits(b: Board, x: ObjectId, k: nat, c: nat, most: nat, j: nat, index: nat)
    requires Late(b, x, k, c, most, j, index)
    ensures b.Valid() && b.Live(c + j) && b.Waited(c + j) >= c == b.lanes[c + j].ceiling && b.NextOf(c + j) == Some(x)
    ensures forall s :: 0 <= s < c + j ==> !b.Live(s)
  {
    hide Queued;
    MulNonNegative(j, most);
  }

  /** And so on to the end of its token, and the next one's. */
  lemma LateGoesOn(b: Board, x: ObjectId, k: nat, c: nat, most: nat, j: nat, index: nat)
    requires Late(b, x, k, c, most, j, index) && b.Live(c + j)
    ensures index + 1 < most ==> Late(b.Advance(c + j), x, k, c, most, j, index + 1)
    ensures index + 1 == most && j + 1 < k ==> Late(b.Advance(c + j), x, k, c, most, j + 1, 0)
  {
    hide Queued;
    var d := b.Advance(c + j);
    assert (j + 1) * most == j * most + most;
    assert b.Ends(c + j) <==> index + 1 == most;
    if index + 1 < most {
      assert d.cursors == b.cursors[c + j := (0, index + 1)];
    } else {
      assert d.cursors == b.cursors[c + j := (1, 0)];
    }
  }

  lemma {:induction false} LateServed(b: Board, x: ObjectId, k: nat, c: nat, most: nat, j: nat, index: nat, n: nat)
    returns (d: Board)
    requires Late(b, x, k, c, most, j, index) && c > 0 && n == (k - 1 - j) * most - index
    ensures Late(d, x, k, c, most, k - 1, 0) && After(b, n) == d
    decreases k - j, most - index
  {
    hide ParameterPick, Board.Advance, Late;
    if n == 0 {
      LateEnds(b, x, k, c, most, j, index, n);
      d := b;
    } else {
      LatePick(b, x, k, c, most, j, index);
      LateGoesOn(b, x, k, c, most, j, index);
      LateTime(b, x, k, c, most, j, index, n);
      if index + 1 < most {
        d := LateServed(b.Advance(c + j), x, k, c, most, j, index + 1, n - 1);
      } else {
        d := LateServed(b.Advance(c + j), x, k, c, most, j + 1, 0, n - 1);
      }
    }
  }

  lemma LateTime(b: Board, x: ObjectId, k: nat, c: nat, most: nat, j: nat, index: nat, n: nat)
    requires Late(b, x, k, c, most, j, index) && n == (k - 1 - j) * most - index > 0
    ensures j + 1 < k && index < most
    ensures n - 1 == (k - 1 - j) * most - (index + 1)
    ensures index + 1 == most ==> n - 1 == (k - 1 - (j + 1)) * most
  {
    assert (k - 1 - j) * most == (k - 1 - (j + 1)) * most + most;
  }

  lemma LateEnds(b: Board, x: ObjectId, k: nat, c: nat, most: nat, j: nat, index: nat, n: nat)
    requires Late(b, x, k, c, most, j, index) && n == (k - 1 - j) * most - index == 0
    ensures j == k - 1 && index == 0
  {
    if j < k - 1 { assert (k - 1 - j) * most == (k - 2 - j) * most + most; MulNonNegative(k - 2 - j, most); }
  }

  /** The last of them has waited for all the others. */
  lemma QueuedWaits(x: ObjectId, k: nat, c: nat, most: nat)
    requires k > 0 && c > 0 && most > 0
    ensures var b := After(Over(Queued(x, k, c, most)), c + (k - 1) * most);
      && b.Live(c + k - 1) && b.Waited(c + k - 1) == c + (k - 1) * most
      && Late(b, x, k, c, most, k - 1, 0)
  {
    hide After, Queued;
    var b := Over(Queued(x, k, c, most));
    MulNonNegative(k - 1, most);
    assert Starting(b, x, k, c, most, 0);
    var d := StartingServed(b, x, k, c, most, 0, (k - 1) * most);
    assert Late(d, x, k, c, most, 0, 0);
    var e := LateServed(d, x, k, c, most, 0, 0, (k - 1) * most);
  }

  // ----- what is delivered -----

  /** No contracted session's worst period passes the length of its own tokens
      and twice the ceiling. */
  ghost predicate PeriodsWithin(lanes: seq<Lane>, c: nat) {
    forall i: nat, own: nat :: i < |lanes| && lanes[i].ceiling != 0 && NoLonger(lanes[i], own) ==>
      Merge(ParameterMajor, Over(lanes), Zeros(|lanes|)).1[i] <= own + 2 * c
  }

  /** The worst periods of a merge are those of what is left of it. */
  lemma {:induction false} MergeAfter(b: Board, worst: seq<nat>, n: nat) returns (w: seq<nat>)
    requires b.Valid() && |worst| == |b.lanes|
    ensures |w| == |b.lanes| && Merge(ParameterMajor, b, worst).1 == Merge(ParameterMajor, After(b, n), w).1
    decreases n
  {
    hide Merge, ParameterPick, Board.Advance, Kept;
    w := worst;
    MergeStep(ParameterMajor, b, worst);
    var p := ParameterPick(b.Seen());
    if n > 0 && p.Some? && b.NextOf(p.value).Some? {
      w := MergeAfter(b.Advance(p.value), Kept(b, p.value, worst), n - 1);
    }
  }

  /** A worst period never falls. */
  lemma {:induction false} WorstGrows(b: Board, worst: seq<nat>, i: nat)
    requires b.Valid() && |worst| == |b.lanes| && i < |worst|
    ensures Merge(ParameterMajor, b, worst).1[i] >= worst[i]
    decreases Remaining(b)
  {
    hide Merge, ParameterPick, Board.Advance, Remaining;
    MergeStep(ParameterMajor, b, worst);
    var p := ParameterPick(b.Seen());
    if p.Some? && b.NextOf(p.value).Some? { WorstGrows(b.Advance(p.value), Kept(b, p.value, worst), i); }
  }

  /** Its turn come, the last of them is served to the end of its token. */
  lemma {:induction false} LastServed(b: Board, worst: seq<nat>, x: ObjectId, k: nat, c: nat, most: nat, index: nat)
    requires k > 0 && c > 0 && Late(b, x, k, c, most, k - 1, index) && |worst| == |b.lanes|
    ensures c + k - 1 < |worst| && Merge(ParameterMajor, b, worst).1[c + k - 1] >= c + k * most
    decreases most - index
  {
    hide Merge, ParameterPick, Board.Advance, Remaining, Kept, Late;
    LatePick(b, x, k, c, most, k - 1, index);
    LateGoesOn(b, x, k, c, most, k - 1, index);
    MergeStep(ParameterMajor, b, worst);
    LateIn(b, x, k, c, most, index);
    var d, w := b.Advance(c + k - 1), Kept(b, c + k - 1, worst);
    if index + 1 < most {
      LastServed(d, w, x, k, c, most, index + 1);
    } else {
      LastPeriod(b, worst, x, k, c, most, index);
      WorstGrows(d, w, c + k - 1);
    }
  }

  lemma LateIn(b: Board, x: ObjectId, k: nat, c: nat, most: nat, index: nat)
    requires k > 0 && Late(b, x, k, c, most, k - 1, index)
    ensures |b.lanes| == c + k && index < most
  {}

  /** What its period then is. */
  lemma LastPeriod(b: Board, worst: seq<nat>, x: ObjectId, k: nat, c: nat, most: nat, index: nat)
    requires k > 0 && Late(b, x, k, c, most, k - 1, index) && index + 1 == most && |worst| == |b.lanes|
    ensures b.Live(c + k - 1) && Kept(b, c + k - 1, worst)[c + k - 1] >= c + k * most
  {
    hide Queued;
    assert k * most == (k - 1) * most + most;
    assert b.Ends(c + k - 1);
  }

  lemma QueuedPeriod(x: ObjectId, k: nat, c: nat, most: nat)
    requires k > 0 && c > 0 && most > 0
    ensures var lanes := Queued(x, k, c, most);
      Merge(ParameterMajor, Over(lanes), Zeros(|lanes|)).1[c + k - 1] >= c + k * most
  {
    hide Merge, After, Late, Queued;
    var lanes := Queued(x, k, c, most);
    QueuedWaits(x, k, c, most);
    MulNonNegative(k - 1, most);
    var n := c + (k - 1) * most;
    var w := MergeAfter(Over(lanes), Zeros(|lanes|), n);
    LastServed(After(Over(lanes), n), w, x, k, c, most, 0);
  }

  // ----- the boundary -----

  lemma CoveredWithin(lanes: seq<Lane>, k: nat, c: nat, most: nat)
    requires k > 0 && Alike(lanes, k, c, most) && c >= (k - 1) * most
    ensures WithinTwice(lanes, c) && PeriodsWithin(lanes, c)
  {
    hide After, Merge;
    assert Covering(lanes, most);
    forall i: nat, own: nat | i < |lanes| && lanes[i].ceiling != 0 && NoLonger(lanes[i], own)
      ensures Merge(ParameterMajor, Over(lanes), Zeros(|lanes|)).1[i] <= own + 2 * c
    {
      WorstIsBounded(lanes, most, i, own);
    }
    forall n: nat, i: nat | i < |lanes| && lanes[i].ceiling != 0 && After(Over(lanes), n).Live(i)
      ensures After(Over(lanes), n).Waited(i) <= 2 * c
    {
      WaitIsBounded(lanes, most, n, i);
    }
  }

  /** The boundary, exactly: of every set of lanes of which `k` have the ceiling
      `c`, in tokens no longer than `most`, twice the ceiling bounds every wait,
      and a token and twice the ceiling every period, if and only if a ceiling
      covers a token of each of the others. */
  lemma TwiceTheCeilingExactly(k: nat, c: nat, most: nat)
    requires k > 0 && c > 0
    ensures (forall lanes: seq<Lane> :: Alike(lanes, k, c, most) ==> WithinTwice(lanes, c)) <==> c >= (k - 1) * most
    ensures (forall lanes: seq<Lane> :: Alike(lanes, k, c, most) ==> PeriodsWithin(lanes, c)) <==> c >= (k - 1) * most
  {
    hide Alike, WithinTwice, PeriodsWithin;
    if c >= (k - 1) * most {
      forall lanes: seq<Lane> | Alike(lanes, k, c, most) ensures WithinTwice(lanes, c) && PeriodsWithin(lanes, c) {
        CoveredWithin(lanes, k, c, most);
      }
    } else {
      NotCovered(k, c, most);
      QueuedAlike(0, k, c, most);
      QueuedBreaks(k, c, most);
      var lanes := Queued(0, k, c, most);
      assert Alike(lanes, k, c, most) && !WithinTwice(lanes, c) && !PeriodsWithin(lanes, c);
    }
  }

  lemma NotCovered(k: nat, c: nat, most: nat)
    requires k > 0 && c > 0 && c < (k - 1) * most
    ensures most > 0
  {
    assert most == 0 ==> (k - 1) * most == 0;
  }

  lemma QueuedBreaks(k: nat, c: nat, most: nat)
    requires k > 0 && c > 0 && most > 0 && c < (k - 1) * most
    ensures !WithinTwice(Queued(0, k, c, most), c) && !PeriodsWithin(Queued(0, k, c, most), c)
  {
    hide After, Merge;
    var lanes := Queued(0, k, c, most);
    QueuedWaits(0, k, c, most);
    QueuedPeriod(0, k, c, most);
    assert k * most == (k - 1) * most + most;
    assert NoLonger(lanes[c + k - 1], most);
  }
}
