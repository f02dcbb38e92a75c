/** The kernel's lanes over its static buffers. */
module FlatLanesModel {
  import opened Basics
  import opened Abi
  import opened MetaModel
  import opened ScheduleModel
  import opened LanesModel
  import opened FlatModel

  lemma {:induction false} MineMore(trace: seq<Access>, a: Access, session: SessionId)
    ensures Mine(trace + [a], session) == Mine(trace, session) + (if a.session == session then [a.wanted] else [])
  {
    if trace == [] {
      assert trace + [a] == [a] && [a][1..] == [];
    } else {
      var head := if trace[0].session == session then [trace[0].wanted] else [];
      assert (trace + [a])[1..] == trace[1..] + [a] && (trace + [a])[0] == trace[0];
      MineMore(trace[1..], a, session);
      assert Mine(trace + [a], session) == head + Mine(trace[1..] + [a], session);
    }
  }

  lemma {:induction false} ShapeMore(run: seq<ObjectId>, x: ObjectId, first: ObjectId, last: Option<(nat, nat)>)
    ensures Shape(run + [x], first, last)
      == Shape(run, first, last)
         + [NextPlace(if run == [] then last else Some(Shape(run, first, last)[|run| - 1]), x == first)]
  {
    if run == [] {
      assert run + [x] == [x];
    } else {
      assert (run + [x])[1..] == run[1..] + [x];
      ShapeMore(run[1..], x, first, Some(NextPlace(last, run[0] == first)));
    }
  }

  /** A run's token and index counters are where the next access goes, if it
      does not begin a token. */
  predicate Counting(shape: seq<(nat, nat)>, token: nat, index: nat) {
    if shape == [] then token == 0 && index == 0
    else token == shape[|shape| - 1].0 && index == shape[|shape| - 1].1 + 1
  }

  /** One session's run, gathered from the trace: its objects and their places
      from `start` on, or an error once the buffers are full. */
  method Fill(trace: seq<Access>, run: Run, first: ObjectId, objects: array<ObjectId>, shape: array<(nat, nat)>, start: nat)
    returns (r: Result<(Run, nat)>)
    requires start <= objects.Length <= shape.Length && run.len == 0
    modifies objects, shape
    ensures r.Ok? <==> start + |Mine(trace, run.session)| <= objects.Length
    ensures r.Err? ==> r == Err(NoBudget)
    ensures r.Ok? ==> var mine := Mine(trace, run.session);
      && r.value == (run.(start := start, len := |mine|), start + |mine|)
      && objects[..start + |mine|] == old(objects[..start]) + mine
      && shape[..start + |mine|] == old(shape[..start]) + Shape(mine, first, None)
  {
    hide Mine, Shape;
    var filled, token, index, len := start, 0, 0, 0;
    NoneYet(run.session, first);
    for i := 0 to |trace|
      invariant filled == start + |Mine(trace[..i], run.session)| <= objects.Length && len == filled - start
      invariant objects[..filled] == old(objects[..start]) + Mine(trace[..i], run.session)
      invariant shape[..filled] == old(shape[..start]) + Shape(Mine(trace[..i], run.session), first, None)
      invariant Counting(Shape(Mine(trace[..i], run.session), first, None), token, index)
    {
      ghost var mine, placed := Mine(trace[..i], run.session), Shape(Mine(trace[..i], run.session), first, None);
      assert trace[..i + 1] == trace[..i] + [trace[i]];
      MineMore(trace[..i], trace[i], run.session);
      if trace[i].session == run.session {
        ghost var wasObjects, wasShape := objects[..filled], shape[..filled];
        ShapeMore(mine, trace[i].wanted, first, None);
        if trace[i].wanted == first && len != 0 {
          token, index := token + 1, 0;
        }
        if filled >= objects.Length {
          MineGrows(trace, i + 1, run.session);
          return Err(NoBudget);
        }
        objects[filled] := trace[i].wanted;
        shape[filled] := (token, index);
        assert objects[..filled + 1] == wasObjects + [trace[i].wanted];
        assert shape[..filled + 1] == wasShape + [(token, index)];
        assert Shape(Mine(trace[..i + 1], run.session), first, None) == placed + [(token, index)];
        filled, index, len := filled + 1, index + 1, len + 1;
      } else {
        assert Mine(trace[..i + 1], run.session) == mine;
      }
    }
    assert trace[..|trace|] == trace;
    return Ok((run.(start := start, len := len), filled));
  }

  lemma NoneYet(session: SessionId, first: ObjectId)
    ensures Mine([], session) == [] && Shape([], first, None) == []
  {}

  lemma {:induction false} MineGrows(trace: seq<Access>, i: nat, session: SessionId)
    requires i <= |trace|
    ensures |Mine(trace[..i], session)| <= |Mine(trace, session)|
    decreases |trace| - i
  {
    if i == |trace| {
      assert trace[..i] == trace;
    } else {
      assert trace[..i + 1] == trace[..i] + [trace[i]];
      MineMore(trace[..i], trace[i], session);
      MineGrows(trace, i + 1, session);
    }
  }

  lemma {:induction false} GroupedGrows(trace: seq<Access>, runs: seq<Run>, n: nat)
    requires n <= |runs|
    ensures |Grouped(trace, runs[..n])| <= |Grouped(trace, runs)|
    decreases |runs|
  {
    if n < |runs| {
      assert runs[..|runs| - 1][..n] == runs[..n];
      GroupedGrows(trace, runs[..|runs| - 1], n);
    } else {
      assert runs[..n] == runs;
    }
  }

  lemma NoneGrouped(trace: seq<Access>, first: ObjectId)
    ensures Grouped(trace, []) == [] && Shapes(trace, first, []) == []
  {}

  /** One run more. */
  lemma GroupedMore(trace: seq<Access>, first: ObjectId, runs: seq<Run>, s: nat)
    requires s < |runs|
    ensures Grouped(trace, runs[..s + 1]) == Grouped(trace, runs[..s]) + Mine(trace, runs[s].session)
    ensures Shapes(trace, first, runs[..s + 1])
      == Shapes(trace, first, runs[..s]) + Shape(Mine(trace, runs[s].session), first, None)
  {
    assert runs[..s + 1][..s] == runs[..s] && runs[..s + 1][s] == runs[s];
  }

  class FlatLanes {
    const objects: seq<ObjectId>
    const shape: seq<(nat, nat)>
    const runs: seq<Run>
    var cursors: seq<nat>
    var due: seq<nat>
    var clock: nat
    var worst: seq<nat>

    function View(): Deck
      reads this
    {
      Deck(objects, shape, runs, cursors, due, clock, worst)
    }

    constructor (objects: seq<ObjectId>, shape: seq<(nat, nat)>, runs: seq<Run>)
      ensures View() == Deck(objects, shape, runs, Zeros(|runs|), Zeros(|runs|), 0, Zeros(|runs|))
    {
      this.objects, this.shape, this.runs := objects, shape, runs;
      cursors, due, worst := Zeros(|runs|), Zeros(|runs|), Zeros(|runs|);
      clock := 0;
    }

    /** The driver's loop, into buffers long enough: how many accesses it put
        in order. */
    method Order(schedule: Scheduler, into: array<ObjectId>, sessions: array<SessionId>) returns (n: nat)
      requires View().Valid()
      requires Unserved(View(), |runs|) <= into.Length && into.Length == sessions.Length
      modifies this, schedule, into, sessions
      ensures var (out, after) := FlatModel.Order(old(schedule.rule), old(View()));
        View() == after && n == |out| <= into.Length
        && forall i :: 0 <= i < n ==> Access(sessions[i], into[i]) == out[i]
    {
      hide Unserved, Pick, FlatModel.Order, Deck.Advance;
      n := 0;
      ghost var all := FlatModel.Order(schedule.rule, View());
      ghost var written: seq<Access> := [];
      while true
        invariant View().Valid() && n + Unserved(View(), |runs|) <= into.Length && n == |written|
        invariant var (out, after) := FlatModel.Order(schedule.rule, View());
          all.1 == after && all.0 == written + out
        invariant forall i :: 0 <= i < n ==> Access(sessions[i], into[i]) == written[i]
        decreases Unserved(View(), |runs|)
      {
        OrderStep(schedule.rule, View());
        var picked := schedule.Next(View().Seen());
        if picked.None? {
          return;
        }
        var s := picked.value;
        var wanted := View().NextOf(s);
        if wanted.None? {
          return;
        }
        into[n], sessions[n] := wanted.value, runs[s].session;
        written := written + [Access(runs[s].session, wanted.value)];
        n := n + 1;
        Serve(s);
      }
    }

    /** One access served: the lane's cursor and the clock advance, and the end
        of a token settles its period and starts the next wait. */
    method Serve(s: nat)
      requires View().Valid() && View().At(s).Some?
      modifies this
      ensures View() == old(View()).Advance(s)
    {
      clock := clock + 1;
      var cursor := cursors[s] + 1;
      cursors := cursors[s := cursor];
      var done := cursor >= runs[s].len || shape[runs[s].start + cursor].1 == 0;
      if done {
        worst := worst[s := Max(worst[s], SatSub(clock, due[s]))];
        due := due[s := clock];
      }
    }
  }

  /** Groups `trace` into the first `count` runs named, cutting a token
      wherever a session touches `first`. Fails exactly when the buffers are
      too small. */
  method Build(trace: seq<Access>, first: ObjectId, objects: array<ObjectId>, shape: array<(nat, nat)>, runs: array<Run>,
               count: nat) returns (r: Result<FlatLanes>)
    requires count <= runs.Length && objects.Length <= shape.Length
    requires forall s :: 0 <= s < count ==> runs[s].len == 0
    modifies objects, shape, runs
    ensures r.Ok? <==> |Grouped(trace, old(runs[..count]))| <= objects.Length
    ensures r.Err? ==> r == Err(NoBudget)
    ensures r.Ok? ==> fresh(r.value) && r.value.View() == Built(trace, first, old(runs[..count]))
  {
    hide Mine, Shape, Grouped, Shapes;
    ghost var names := runs[..count];
    var filled := 0;
    NoneGrouped(trace, first);
    assert names[..0] == [];
    for s := 0 to count
      invariant filled == |Grouped(trace, names[..s])| <= objects.Length
      invariant objects[..filled] == Grouped(trace, names[..s])
      invariant shape[..filled] == Shapes(trace, first, names[..s])
      invariant forall j :: 0 <= j < s ==> runs[j] == PlacedRun(trace, names, j)
      invariant forall j :: s <= j < count ==> runs[j] == names[j]
    {
      GroupedMore(trace, first, names, s);
      var one := Fill(trace, runs[s], first, objects, shape, filled);
      if one.Err? {
        GroupedGrows(trace, names, s + 1);
        return Err(NoBudget);
      }
      runs[s] := one.value.0;
      filled := one.value.1;
    }
    assert names[..count] == names;
    var lanes := new FlatLanes(objects[..filled], shape[..filled], runs[..count]);
    assert runs[..count] == Placed(trace, names);
    return Ok(lanes);
  }
}
