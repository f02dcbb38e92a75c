/** The kernel's driver: lanes as runs of one flat buffer, where a token begins
    whenever the object accessed is the first tile. */
module FlatModel {
  import opened Basics
  import opened Abi
  import opened MetaModel
  import opened ScheduleModel
  import opened LanesModel

  /** One lane of the flat buffer: whose, from where, how long, and how patient. */
  datatype Run = Run(session: SessionId, start: nat, len: nat, ceiling: nat)

  /** The kernel's lanes as a value. */
  datatype Deck = Deck(
    objects: seq<ObjectId>,
    shape: seq<(nat, nat)>,
    runs: seq<Run>,
    cursors: seq<nat>,
    due: seq<nat>,
    clock: nat,
    worst: seq<nat>)
  {
    /** Runs lie inside the buffers and cursors inside their runs. */
    predicate Valid() {
      && |cursors| == |due| == |worst| == |runs| && |objects| == |shape|
      && forall s {:trigger runs[s]} :: 0 <= s < |runs| ==>
           runs[s].start + runs[s].len <= |objects| && cursors[s] <= runs[s].len
    }

    /** `Lanes::at`: `None` past the buffer, or past the run. */
    function At(s: nat): Option<Position>
      requires Valid()
    {
      if s >= |runs| || runs[s].start + cursors[s] >= |shape| || cursors[s] >= runs[s].len then None
      else
        var (token, index) := shape[runs[s].start + cursors[s]];
        Some(Position(token, index, clock - due[s] - index, runs[s].ceiling))
    }

    /** `Lanes::next_of`. */
    function NextOf(s: nat): Option<ObjectId>
      requires Valid()
    {
      if At(s).None? then None else Some(objects[runs[s].start + cursors[s]])
    }

    function Seen(): (v: View)
      requires Valid()
      ensures v.Valid() && |v.at| == |runs|
      ensures forall s :: 0 <= s < |runs| ==> v.at[s] == At(s) && v.next[s] == NextOf(s)
      ensures forall s: nat :: v.Live(s) <==> At(s).Some?
    {
      View(seq(|runs|, s requires 0 <= s < |runs| => At(s)), seq(|runs|, s requires 0 <= s < |runs| => NextOf(s)))
    }

    /** The access at the cursor is the last of its token. */
    predicate Ends(s: nat)
      requires Valid() && At(s).Some?
    {
      cursors[s] + 1 >= runs[s].len || shape[runs[s].start + cursors[s] + 1].1 == 0
    }

    /** One turn of the ordering loop. */
    function Advance(s: nat): (k: Deck)
      requires Valid() && At(s).Some?
      ensures k.Valid() && k.runs == runs && |k.worst| == |worst|
    {
      var moved := this.(clock := clock + 1, cursors := cursors[s := cursors[s] + 1]);
      if Ends(s)
      then moved.(worst := worst[s := Max(worst[s], SatSub(clock + 1, due[s]))], due := due[s := clock + 1])
      else moved
    }
  }

  ghost function Unserved(k: Deck, n: nat): nat
    requires k.Valid() && n <= |k.runs|
  {
    if n == 0 then 0 else Unserved(k, n - 1) + (k.runs[n - 1].len - k.cursors[n - 1])
  }

  lemma {:induction false} UnservedFewer(k: Deck, s: nat, n: nat)
    requires k.Valid() && k.At(s).Some? && n <= |k.runs|
    ensures Unserved(k.Advance(s), n) == Unserved(k, n) - (if s < n then 1 else 0)
    decreases n
  {
    if n > 0 { UnservedFewer(k, s, n - 1); }
  }

  /** `Lanes::order` from here on: what it writes, and the lanes after. */
  ghost function Order(rule: Schedule, k: Deck): (r: (seq<Access>, Deck))
    requires k.Valid()
    ensures r.1.Valid() && r.1.runs == k.runs && |r.0| <= Unserved(k, |k.runs|)
    decreases Unserved(k, |k.runs|)
  {
    var (next, picked) := Pick(rule, k.Seen());
    if picked.None? || k.NextOf(picked.value).None? then ([], k)
    else
      var s := picked.value;
      UnservedFewer(k, s, |k.runs|);
      var (out, last) := Order(next, k.Advance(s));
      ([Access(k.runs[s].session, k.NextOf(s).value)] + out, last)
  }

  /** The first access ordered, and the rest. */
  lemma OrderStep(rule: Schedule, k: Deck)
    requires k.Valid()
    ensures var (next, picked) := Pick(rule, k.Seen());
      if picked.None? || k.NextOf(picked.value).None? then Order(rule, k) == ([], k)
      else
        var s := picked.value;
        var rest := Order(next, k.Advance(s));
        && Order(rule, k) == ([Access(k.runs[s].session, k.NextOf(s).value)] + rest.0, rest.1)
        && Unserved(k.Advance(s), |k.runs|) == Unserved(k, |k.runs|) - 1
  {
    var (next, picked) := Pick(rule, k.Seen());
    if picked.Some? && k.NextOf(picked.value).Some? { UnservedFewer(k, picked.value, |k.runs|); }
  }

  // ----- grouping -----

  /** One session's objects, in trace order. */
  function Mine(trace: seq<Access>, session: SessionId): seq<ObjectId> {
    if trace == [] then []
    else (if trace[0].session == session then [trace[0].wanted] else []) + Mine(trace[1..], session)
  }

  /** Where an access is, after one at `last`: at the start, on to the next
      token where it touches the first tile, else one further in. */
  function NextPlace(last: Option<(nat, nat)>, begins: bool): (nat, nat) {
    match last
    case None => (0, 0)
    case Some((token, index)) => if begins then (token + 1, 0) else (token, index + 1)
  }

  /** The token and index of each access of a run. */
  function Shape(run: seq<ObjectId>, first: ObjectId, last: Option<(nat, nat)>): (r: seq<(nat, nat)>)
    ensures |r| == |run|
  {
    if run == [] then []
    else
      var p := NextPlace(last, run[0] == first);
      [p] + Shape(run[1..], first, Some(p))
  }

  /** Every named session's objects, one run after another. */
  function Grouped(trace: seq<Access>, runs: seq<Run>): seq<ObjectId> {
    if runs == [] then []
    else Grouped(trace, runs[..|runs| - 1]) + Mine(trace, runs[|runs| - 1].session)
  }

  function Shapes(trace: seq<Access>, first: ObjectId, runs: seq<Run>): (r: seq<(nat, nat)>)
    ensures |r| == |Grouped(trace, runs)|
  {
    if runs == [] then []
    else Shapes(trace, first, runs[..|runs| - 1]) + Shape(Mine(trace, runs[|runs| - 1].session), first, None)
  }

  /** A run, with where it starts and how long it is filled in. */
  function PlacedRun(trace: seq<Access>, runs: seq<Run>, s: nat): Run
    requires s < |runs|
  {
    runs[s].(start := |Grouped(trace, runs[..s])|, len := |Mine(trace, runs[s].session)|)
  }

  function Placed(trace: seq<Access>, runs: seq<Run>): (r: seq<Run>)
    ensures |r| == |runs|
    ensures forall s :: 0 <= s < |r| ==> r[s] == PlacedRun(trace, runs, s)
  {
    seq(|runs|, s requires 0 <= s < |runs| => PlacedRun(trace, runs, s))
  }

  lemma SliceBefore<T>(a: seq<T>, b: seq<T>, i: nat, j: nat)
    requires i <= j <= |a|
    ensures (a + b)[i..j] == a[i..j]
  {}

  lemma SliceAfter<T>(a: seq<T>, b: seq<T>)
    ensures (a + b)[|a|..|a| + |b|] == b
  {}

  /** A run's stretch of the buffers is its session's objects. */
  lemma {:induction false} RunIsMine(trace: seq<Access>, runs: seq<Run>, s: nat)
    requires s < |runs|
    ensures var r := PlacedRun(trace, runs, s);
      && r.start + r.len <= |Grouped(trace, runs)|
      && Grouped(trace, runs)[r.start..r.start + r.len] == Mine(trace, runs[s].session)
    decreases |runs|
  {
    hide Mine;
    var n := |runs| - 1;
    var r := PlacedRun(trace, runs, s);
    if s < n {
      RunIsMine(trace, runs[..n], s);
      assert runs[..n][..s] == runs[..s] && runs[..n][s] == runs[s];
      SliceBefore(Grouped(trace, runs[..n]), Mine(trace, runs[n].session), r.start, r.start + r.len);
    } else {
      SliceAfter(Grouped(trace, runs[..n]), Mine(trace, runs[n].session));
    }
  }

  /** And their places. */
  lemma {:induction false} RunIsShaped(trace: seq<Access>, first: ObjectId, runs: seq<Run>, s: nat)
    requires s < |runs|
    ensures var r := PlacedRun(trace, runs, s);
      && r.start + r.len <= |Shapes(trace, first, runs)|
      && Shapes(trace, first, runs)[r.start..r.start + r.len] == Shape(Mine(trace, runs[s].session), first, None)
    decreases |runs|
  {
    hide Mine, Shape, Grouped;
    var n := |runs| - 1;
    var r := PlacedRun(trace, runs, s);
    RunIsMine(trace, runs, s);
    if s < n {
      RunIsShaped(trace, first, runs[..n], s);
      assert runs[..n][..s] == runs[..s] && runs[..n][s] == runs[s];
      SliceBefore(Shapes(trace, first, runs[..n]), Shape(Mine(trace, runs[n].session), first, None), r.start, r.start + r.len);
    } else {
      SliceAfter(Shapes(trace, first, runs[..n]), Shape(Mine(trace, runs[n].session), first, None));
    }
  }

  /** What `build` makes of a trace and the sessions named. */
  function Built(trace: seq<Access>, first: ObjectId, runs: seq<Run>): (k: Deck)
    ensures k.Valid() && |k.runs| == |runs|
  {
    var none := Zeros(|runs|);
    var k := Deck(Grouped(trace, runs), Shapes(trace, first, runs), Placed(trace, runs), none, none, 0, none);
    assert forall s {:trigger k.runs[s]} :: 0 <= s < |runs| ==> k.runs[s].start + k.runs[s].len <= |k.objects| by {
      forall s | 0 <= s < |runs| ensures k.runs[s].start + k.runs[s].len <= |k.objects| { RunIsMine(trace, runs, s); }
    }
    k
  }

  // ----- tokens -----

  /** A run cut before each access of the first tile but the first. */
  function Cut(run: seq<ObjectId>, first: ObjectId): (tokens: seq<seq<ObjectId>>)
    ensures forall t :: 0 <= t < |tokens| ==> tokens[t] != []
    ensures run != [] <==> tokens != []
  {
    if run == [] then []
    else
      var rest := Cut(run[1..], first);
      if rest == [] || run[1] == first then [[run[0]]] + rest else [[run[0]] + rest[0]] + rest[1..]
  }

  /** The positions of tokens run together, the first of them token `t`,
      from its access `i` on. */
  function Places(tokens: seq<seq<ObjectId>>, t: nat, i: nat): seq<(nat, nat)>
    decreases |tokens|, if tokens == [] then 0 else |tokens[0]|
  {
    if tokens == [] then []
    else if tokens[0] == [] then Places(tokens[1..], t + 1, 0)
    else [(t, i)] + Places([tokens[0][1..]] + tokens[1..], t, i + 1)
  }

  lemma PlacesOne(x: ObjectId, rest: seq<seq<ObjectId>>, t: nat, i: nat)
    ensures Places([[x]] + rest, t, i) == [(t, i)] + Places(rest, t + 1, 0)
  {
    var row := [[x]] + rest;
    assert row[1..] == rest && row[0][1..] == [];
    var gone := [row[0][1..]] + row[1..];
    assert gone[1..] == rest;
  }

  lemma PlacesMore(x: ObjectId, tokens: seq<seq<ObjectId>>, t: nat, i: nat)
    requires tokens != []
    ensures Places([[x] + tokens[0]] + tokens[1..], t, i) == [(t, i)] + Places(tokens, t, i + 1)
  {
    var row := [[x] + tokens[0]] + tokens[1..];
    assert row[0][1..] == tokens[0] && [row[0][1..]] + row[1..] == tokens;
  }

  lemma FlatMore(x: ObjectId, tokens: seq<seq<ObjectId>>)
    ensures Flat([[x]] + tokens) == [x] + Flat(tokens)
    ensures tokens != [] ==> Flat([[x] + tokens[0]] + tokens[1..]) == [x] + Flat(tokens)
  {
    assert ([[x]] + tokens)[1..] == tokens;
    if tokens != [] {
      assert ([[x] + tokens[0]] + tokens[1..])[1..] == tokens[1..];
    }
  }

  /** Cutting a run loses nothing, and numbers it as `fill` does. */
  lemma {:induction false} CutIsShape(run: seq<ObjectId>, first: ObjectId, last: Option<(nat, nat)>, t: nat, i: nat)
    requires run != [] ==> NextPlace(last, run[0] == first) == (t, i)
    ensures Flat(Cut(run, first)) == run
    ensures Shape(run, first, last) == Places(Cut(run, first), t, i)
    decreases |run|
  {
    if run != [] {
      var rest := Cut(run[1..], first);
      FlatMore(run[0], rest);
      if rest == [] {
        CutIsShape(run[1..], first, Some((t, i)), t, i);
        PlacesOne(run[0], rest, t, i);
      } else if run[1] == first {
        CutIsShape(run[1..], first, Some((t, i)), t + 1, 0);
        PlacesOne(run[0], rest, t, i);
      } else {
        CutIsShape(run[1..], first, Some((t, i)), t, i + 1);
        PlacesMore(run[0], rest, t, i);
      }
    }
  }

  /** A token as a workload declares it: the first tile, then other things. */
  predicate Headed(token: seq<ObjectId>, first: ObjectId) {
    token != [] && token[0] == first && first !in token[1..]
  }

  lemma {:induction false} CutToken(token: seq<ObjectId>, rest: seq<seq<ObjectId>>, first: ObjectId)
    requires token != [] && first !in token[1..] && Cut(Flat(rest), first) == rest
    requires rest != [] ==> Headed(rest[0], first)
    ensures Cut(token + Flat(rest), first) == [token] + rest
    decreases |token|
  {
    var run := token + Flat(rest);
    assert run[1..] == token[1..] + Flat(rest);
    if |token| == 1 {
      assert run[1..] == Flat(rest) && token == [run[0]];
      if rest != [] { assert run[1] == rest[0][0]; }
    } else {
      CutToken(token[1..], rest, first);
      assert run[1] == token[1] && token[1] in token[1..];
      assert [run[0]] + token[1..] == token;
      assert ([token[1..]] + rest)[1..] == rest;
    }
  }

  /** Cutting tokens run together gives the tokens back, when each begins
      with the first tile and holds it nowhere else. */
  lemma {:induction false} CutOfFlat(tokens: seq<seq<ObjectId>>, first: ObjectId)
    requires forall t :: 0 <= t < |tokens| ==> Headed(tokens[t], first)
    ensures Cut(Flat(tokens), first) == tokens
  {
    if tokens != [] {
      CutOfFlat(tokens[1..], first);
      CutToken(tokens[0], tokens[1..], first);
    }
  }
}
