/** The kernel's flat driver refines the host's: the same order and the same
    worst periods, for every trace, list of sessions and schedule. */
module FlatRefines {
  import opened Basics
  import opened Abi
  import opened ScheduleModel
  import opened LanesModel
  import opened MergeModel
  import opened FlatModel

  // ----- one lane and its twin -----

  /** The positions left of a lane from a cursor. */
  function RestPlaces(tokens: seq<seq<ObjectId>>, token: nat, index: nat): seq<(nat, nat)>
    requires token < |tokens| ==> index <= |tokens[token]|
  {
    if token < |tokens| then Places([tokens[token][index..]] + tokens[token + 1..], token, index) else []
  }

  lemma RestPlacesStep(tokens: seq<seq<ObjectId>>, token: nat, index: nat)
    requires token < |tokens| && index < |tokens[token]|
    ensures RestPlaces(tokens, token, index)
      == [(token, index)]
         + (if index + 1 >= |tokens[token]| then RestPlaces(tokens, token + 1, 0) else RestPlaces(tokens, token, index + 1))
  {
    var row := tokens[token][index..];
    var left := [row] + tokens[token + 1..];
    assert left[1..] == tokens[token + 1..] && left[0] == row;
    assert row[1..] == tokens[token][index + 1..];
    if index + 1 >= |tokens[token]| {
      assert row[1..] == [];
      PlacesOfDone(tokens[token + 1..], token, index + 1);
      if token + 1 < |tokens| {
        assert [tokens[token + 1][0..]] + tokens[token + 2..] == tokens[token + 1..];
      }
    }
  }

  lemma PlacesOfDone(rest: seq<seq<ObjectId>>, t: nat, i: nat)
    ensures Places([[]] + rest, t, i) == Places(rest, t + 1, 0)
  {
    assert ([[]] + rest)[1..] == rest;
  }

  /** What is left of a run is what is left of the lane. */
  ghost predicate Twin(k: Deck, b: Board, s: nat)
    requires k.Valid() && b.Valid() && s < |k.runs| == |b.lanes|
  {
    var r, c := k.runs[s], k.cursors[s];
    assert b.Placed(s);
    && r.session == b.lanes[s].session && r.ceiling == b.lanes[s].ceiling
    && k.objects[r.start + c..r.start + r.len] == b.Rest(s)
    && k.shape[r.start + c..r.start + r.len] == RestPlaces(b.lanes[s].tokens, b.cursors[s].0, b.cursors[s].1)
  }

  ghost predicate Mirrors(k: Deck, b: Board) {
    && k.Valid() && b.Valid() && |k.runs| == |b.lanes| && NoEmptyTokens(b.lanes)
    && k.clock == b.clock && k.due == b.due
    && forall s :: 0 <= s < |k.runs| ==> Twin(k, b, s)
  }

  /** A live lane's next access, first of what is left. */
  lemma RestOfLive(b: Board, s: nat)
    requires b.Valid() && NoEmptyTokens(b.lanes) && s < |b.lanes|
    ensures b.Placed(s)
    ensures b.Live(s) <==> b.Rest(s) != []
    ensures b.Live(s) ==> b.NextOf(s) == Some(b.Rest(s)[0])
    ensures b.Live(s) ==> var p := RestPlaces(b.lanes[s].tokens, b.cursors[s].0, b.cursors[s].1);
      p != [] && p[0] == b.cursors[s] && |p| > 0
  {
    assert b.Placed(s);
    if b.Live(s) {
      LiveHasNext(b, s);
      RestStep(b.lanes[s].tokens, b.cursors[s].0, b.cursors[s].1);
      RestPlacesStep(b.lanes[s].tokens, b.cursors[s].0, b.cursors[s].1);
    }
  }

  /** The schedule sees the same thing either way; the wait it reads never
      underflows. */
  lemma TwinsSeen(k: Deck, b: Board, s: nat)
    requires Mirrors(k, b) && s < |k.runs|
    ensures k.At(s) == b.At(s) && k.NextOf(s) == b.NextOf(s)
    ensures k.At(s).Some? ==> k.At(s).value.waited >= 0
  {
    hide RestPlaces, Board.Rest;
    assert Twin(k, b, s);
    RestOfLive(b, s);
    var r, c := k.runs[s], k.cursors[s];
    if b.Live(s) {
      assert k.objects[r.start + c] == k.objects[r.start + c..r.start + r.len][0];
      assert k.shape[r.start + c] == k.shape[r.start + c..r.start + r.len][0];
    }
  }

  lemma ViewsAgree(k: Deck, b: Board)
    requires Mirrors(k, b)
    ensures k.Seen() == b.Seen()
    ensures forall s: nat :: k.NextOf(s) == b.NextOf(s)
    ensures forall s: nat :: k.At(s) == b.At(s)
  {
    forall s: nat ensures k.At(s) == b.At(s) && k.NextOf(s) == b.NextOf(s) {
      if s < |k.runs| { TwinsSeen(k, b, s); }
    }
    assert k.Seen().at == b.Seen().at && k.Seen().next == b.Seen().next;
  }

  lemma DropOne<T>(x: seq<T>, i: nat, j: nat)
    requires i < j <= |x|
    ensures x[i..j] == [x[i]] + x[i + 1..j]
  {}

  /** What is left of the lane served, one access on. */
  lemma ServedRest(k: Deck, b: Board, s: nat)
    requires Mirrors(k, b) && b.NextOf(s).Some? && k.At(s).Some?
    ensures var r, c, d := k.runs[s], k.cursors[s] + 1, b.Advance(s);
      && c <= r.len && d.Placed(s)
      && k.objects[r.start + c..r.start + r.len] == d.Rest(s)
      && k.shape[r.start + c..r.start + r.len] == RestPlaces(d.lanes[s].tokens, d.cursors[s].0, d.cursors[s].1)
  {
    hide RestPlaces, Board.Rest, Board.Advance, NoEmptyTokens;
    assert Twin(k, b, s);
    var r, c := k.runs[s], k.cursors[s];
    DropOne(k.objects, r.start + c, r.start + r.len);
    DropOne(k.shape, r.start + c, r.start + r.len);
    AdvanceRest(b, s);
    AdvancePlaces(b, s);
    var d := b.Advance(s);
    SameTail(k.objects[r.start + c], k.objects[r.start + c + 1..r.start + r.len], b.NextOf(s).value, d.Rest(s));
    SameTail(k.shape[r.start + c], k.shape[r.start + c + 1..r.start + r.len],
      b.cursors[s], RestPlaces(d.lanes[s].tokens, d.cursors[s].0, d.cursors[s].1));
  }

  lemma SameTail<T>(x: T, a: seq<T>, y: T, b: seq<T>)
    requires [x] + a == [y] + b
    ensures a == b
  {
    assert a == ([x] + a)[1..] && b == ([y] + b)[1..];
  }

  /** Both drivers see the token end. */
  lemma EndsAgree(k: Deck, b: Board, s: nat)
    requires Mirrors(k, b) && b.NextOf(s).Some? && k.At(s).Some?
    ensures k.Ends(s) <==> b.Ends(s)
  {
    hide RestPlaces, Board.Rest, Board.Advance, NoEmptyTokens, Twin;
    ServedRest(k, b, s);
    NextStarts(b, s);
    var r, c := k.runs[s], k.cursors[s] + 1;
    if c < r.len { assert k.shape[r.start + c] == k.shape[r.start + c..r.start + r.len][0]; }
  }

  /** The lane served. */
  lemma ServedTwin(k: Deck, b: Board, s: nat)
    requires Mirrors(k, b) && b.NextOf(s).Some? && k.At(s).Some?
    ensures Twin(k.Advance(s), b.Advance(s), s)
  {
    hide RestPlaces, Board.Rest, NoEmptyTokens;
    assert Twin(k, b, s);
    ServedRest(k, b, s);
  }

  lemma AdvancePlaces(b: Board, s: nat)
    requires b.Valid() && b.NextOf(s).Some?
    ensures b.Placed(s) && b.Advance(s).Placed(s)
    ensures var d := b.Advance(s);
      RestPlaces(b.lanes[s].tokens, b.cursors[s].0, b.cursors[s].1)
      == [b.cursors[s]] + RestPlaces(d.lanes[s].tokens, d.cursors[s].0, d.cursors[s].1)
  {
    assert b.Placed(s) && b.Advance(s).Placed(s);
    RestPlacesStep(b.lanes[s].tokens, b.cursors[s].0, b.cursors[s].1);
  }

  /** A token has ended where the next access, if any, begins one. */
  lemma NextStarts(b: Board, s: nat)
    requires b.Valid() && b.NextOf(s).Some? && NoEmptyTokens(b.lanes)
    ensures var d := b.Advance(s);
      d.Placed(s) && var p := RestPlaces(d.lanes[s].tokens, d.cursors[s].0, d.cursors[s].1);
      b.Ends(s) <==> p == [] || p[0].1 == 0
  {
    var d := b.Advance(s);
    assert b.Placed(s);
    RestOfLive(d, s);
  }

  /** A lane not served. */
  lemma OtherTwin(k: Deck, b: Board, p: nat, s: nat)
    requires Mirrors(k, b) && b.NextOf(p).Some? && k.At(p).Some? && s < |k.runs| && s != p
    ensures Twin(k.Advance(p), b.Advance(p), s)
  {
    hide RestPlaces, Board.Rest, NoEmptyTokens;
    assert Twin(k, b, s) && b.Placed(s) && b.Advance(p).Placed(s);
    AdvanceRest(b, p);
  }

  lemma StepMirrors(k: Deck, b: Board, p: nat)
    requires Mirrors(k, b) && b.NextOf(p).Some?
    ensures k.At(p).Some? && Mirrors(k.Advance(p), b.Advance(p)) && k.Advance(p).worst == Kept(b, p, k.worst)
    ensures k.runs[p].session == b.lanes[p].session
  {
    hide Twin, RestPlaces, Board.Rest;
    TwinsSeen(k, b, p);
    ServedTwin(k, b, p);
    EndsAgree(k, b, p);
    SameSession(k, b, p);
    assert b.Placed(p);
    forall s | 0 <= s < |k.runs| ensures Twin(k.Advance(p), b.Advance(p), s) {
      if s != p { OtherTwin(k, b, p, s); }
    }
  }

  lemma SameSession(k: Deck, b: Board, p: nat)
    requires Mirrors(k, b) && p < |k.runs|
    ensures k.runs[p].session == b.lanes[p].session
  {
    assert Twin(k, b, p);
  }

  // ----- the two drivers -----

  /** From mirrored lanes both drivers write one order and one set of worst
      periods. */
  lemma {:induction false} OrderMirrors(rule: Schedule, k: Deck, b: Board)
    requires Mirrors(k, b)
    ensures Order(rule, k).0 == Trace(b.lanes, Merge(rule, b, k.worst).0)
    ensures Order(rule, k).1.worst == Merge(rule, b, k.worst).1
    decreases LanesModel.Remaining(b)
  {
    hide Mirrors, Pick, Board.Advance, Deck.Advance, LanesModel.Remaining, FlatModel.Unserved, Merge;
    MirrorsValid(k, b);
    ViewsAgree(k, b);
    MergeStep(rule, b, k.worst);
    var (next, picked) := Pick(rule, b.Seen());
    if picked.Some? && b.NextOf(picked.value).Some? {
      var p := picked.value;
      StepMirrors(k, b, p);
      UnservedFewer(k, p, |k.runs|);
      OrderMirrors(next, k.Advance(p), b.Advance(p));
      TraceCons(b.lanes, Serving(b, p), Merge(next, b.Advance(p), Kept(b, p, k.worst)).0);
    }
  }

  lemma MirrorsValid(k: Deck, b: Board)
    requires Mirrors(k, b)
    ensures k.Valid() && b.Valid() && |k.runs| == |b.lanes|
  {}

  /** The lanes a trace is cut into. */
  function CutLanes(trace: seq<Access>, first: ObjectId, runs: seq<Run>): (lanes: seq<Lane>)
    ensures |lanes| == |runs| && NoEmptyTokens(lanes)
  {
    seq(|runs|, s requires 0 <= s < |runs| =>
      Lane(runs[s].session, runs[s].ceiling, Cut(Mine(trace, runs[s].session), first)))
  }

  lemma RestPlacesStart(tokens: seq<seq<ObjectId>>)
    ensures RestPlaces(tokens, 0, 0) == Places(tokens, 0, 0) && RestOf(tokens, 0, 0) == Flat(tokens)
  {
    if tokens != [] {
      assert tokens[0][0..] == tokens[0];
      assert [tokens[0]] + tokens[1..] == tokens;
    }
  }

  lemma BuiltTwin(trace: seq<Access>, first: ObjectId, runs: seq<Run>, s: nat)
    requires s < |runs|
    ensures Twin(Built(trace, first, runs), Over(CutLanes(trace, first, runs)), s)
  {
    hide Grouped, Shapes, Mine, Shape, Cut, Places, RestPlaces, RestOf, Flat;
    var mine := Mine(trace, runs[s].session);
    RunIsMine(trace, runs, s);
    RunIsShaped(trace, first, runs, s);
    var tokens := Cut(mine, first);
    RestPlacesStart(tokens);
    CutStarts(mine, first);
    var b := Over(CutLanes(trace, first, runs));
    assert b.Placed(s) && b.lanes[s].tokens == tokens;
    NothingLeft(tokens);
  }

  lemma NothingLeft(tokens: seq<seq<ObjectId>>)
    ensures tokens == [] ==> Flat(tokens) == []
  {}

  lemma CutStarts(run: seq<ObjectId>, first: ObjectId)
    ensures Flat(Cut(run, first)) == run && Shape(run, first, None) == Places(Cut(run, first), 0, 0)
  {
    CutIsShape(run, first, None, 0, 0);
  }

  lemma BuiltMirrors(trace: seq<Access>, first: ObjectId, runs: seq<Run>)
    ensures Mirrors(Built(trace, first, runs), Over(CutLanes(trace, first, runs)))
  {
    hide Twin, Grouped, Shapes, Cut, NoEmptyTokens;
    forall s | 0 <= s < |runs| ensures Twin(Built(trace, first, runs), Over(CutLanes(trace, first, runs)), s) {
      BuiltTwin(trace, first, runs, s);
    }
  }

  /** The kernel's driver is the host's over the lanes the trace is cut into:
      for every trace, list of sessions and schedule, the same access
      sequence and the same worst period per lane. */
  lemma KernelOrdersAsHost(rule: Schedule, trace: seq<Access>, first: ObjectId, runs: seq<Run>)
    ensures var lanes := CutLanes(trace, first, runs);
      var (ordered, after) := Order(rule, Built(trace, first, runs));
      var (out, worst) := Merge(rule, Over(lanes), Zeros(|lanes|));
      ordered == Trace(lanes, out) && after.worst == worst
  {
    hide Mirrors, Order, Merge;
    BuiltMirrors(trace, first, runs);
    OrderMirrors(rule, Built(trace, first, runs), Over(CutLanes(trace, first, runs)));
  }

  // ----- a workload's own lanes -----

  ghost predicate DistinctSessions(lanes: seq<Lane>) {
    forall s, t :: 0 <= s < |lanes| && 0 <= t < |lanes| && lanes[s].session == lanes[t].session ==> s == t
  }

  /** A merged trace still holds each session's accesses in order. */
  lemma {:induction false} MineOfTrace(lanes: seq<Lane>, out: seq<Served>, s: nat)
    requires DistinctSessions(lanes) && s < |lanes| && forall a :: a in out ==> a.lane < |lanes|
    ensures Mine(Trace(lanes, out), lanes[s].session) == Of(out, s)
  {
    if out != [] {
      assert out[0] in out;
      MineOfTrace(lanes, out[1..], s);
    }
  }

  /** The sessions of some lanes, as the kernel is given them. */
  function Names(lanes: seq<Lane>): (runs: seq<Run>)
    ensures |runs| == |lanes|
  {
    seq(|lanes|, s requires 0 <= s < |lanes| => Run(lanes[s].session, 0, 0, lanes[s].ceiling))
  }

  ghost predicate AllHeaded(lanes: seq<Lane>, first: ObjectId) {
    forall s, t :: 0 <= s < |lanes| && 0 <= t < |lanes[s].tokens| ==> Headed(lanes[s].tokens[t], first)
  }

  lemma HeadedNotEmpty(lanes: seq<Lane>, first: ObjectId)
    requires AllHeaded(lanes, first)
    ensures NoEmptyTokens(lanes)
  {}

  /** The kernel recovers a workload's lanes from any merge of them. */
  lemma CutRecovers(lanes: seq<Lane>, first: ObjectId, written: Schedule)
    requires DistinctSessions(lanes) && AllHeaded(lanes, first)
    ensures CutLanes(Trace(lanes, Merge(written, Over(lanes), Zeros(|lanes|)).0), first, Names(lanes)) == lanes
  {
    hide Merge, Cut, Mine, Trace, NoEmptyTokens, Headed;
    var out := Merge(written, Over(lanes), Zeros(|lanes|)).0;
    var trace := Trace(lanes, out);
    HeadedNotEmpty(lanes, first);
    EveryAccessIs(written, Over(lanes), Zeros(|lanes|));
    forall s | 0 <= s < |lanes| ensures CutLanes(trace, first, Names(lanes))[s] == lanes[s] {
      MineOfTrace(lanes, out, s);
      MergeServesEveryAccess(written, lanes, s);
      CutOfFlat(lanes[s].tokens, first);
    }
  }

  /** The kernel refines the host driver: from the process-major trace of a
      workload whose tokens each begin with the model's first tile and hold it
      nowhere else, ordering with either schedule gives what `merge_timed`
      gives on the workload's own lanes. */
  lemma KernelRefinesHost(rule: Schedule, lanes: seq<Lane>, first: ObjectId, written: Schedule)
    requires DistinctSessions(lanes) && AllHeaded(lanes, first)
    ensures var trace := Trace(lanes, Merge(written, Over(lanes), Zeros(|lanes|)).0);
      var (ordered, after) := Order(rule, Built(trace, first, Names(lanes)));
      var (out, worst) := Merge(rule, Over(lanes), Zeros(|lanes|));
      ordered == Trace(lanes, out) && after.worst == worst
  {
    hide Merge, Order, AllHeaded, DistinctSessions;
    var trace := Trace(lanes, Merge(written, Over(lanes), Zeros(|lanes|)).0);
    CutRecovers(lanes, first, written);
    KernelOrdersAsHost(rule, trace, first, Names(lanes));
  }
}
