/** One read serves every session: lanes that ask for the same things, merged
    parameter-major, are read no more often than one of them alone. */
module OneRead {
  import opened Basics
  import opened Abi
  import opened ScheduleModel
  import opened LanesModel
  import opened MergeModel
  import S = Simulation

  // ----- at most a read a change of object -----

  /** How many times from `at` on the object asked for is not the one before. */
  function Turns(objects: seq<ObjectId>, at: nat): nat
    decreases |objects| - at
  {
    if at >= |objects| then 0
    else (if at == 0 || objects[at] != objects[at - 1] then 1 else 0) + Turns(objects, at + 1)
  }

  /** One access reads once at most, and what it reads is then held. */
  lemma StepReads(r: S.Residence, out: S.Outcome, run: S.Setting, id: ObjectId, now: nat)
    ensures var (s, o) := S.Step(r, out, run, id, now);
      && out.fetches <= o.fetches <= out.fetches + 1
      && (id in r.held ==> o.fetches == out.fetches && id in s.held)
      && (o.fetches > out.fetches ==> id in s.held)
  {
    hide S.MakeRoom;
  }

  /** The last access was refused: its run of equal accesses may yet read. */
  function Owed(r: S.Residence, objects: seq<ObjectId>, at: nat): nat {
    if 0 < at <= |objects| && objects[at - 1] !in r.held then 1 else 0
  }

  /** Whatever the policy and the budget, reads are no more than the runs of
      equal accesses. */
  lemma {:induction false} ReadsPerTurn(r: S.Residence, out: S.Outcome, run: S.Setting, objects: seq<ObjectId>, at: nat)
    ensures S.ReplayFrom(r, out, run, objects, at).1.fetches <= out.fetches + Turns(objects, at) + Owed(r, objects, at)
    decreases |objects| - at
  {
    hide S.Step;
    if at < |objects| {
      StepReads(r, out, run, objects[at], at + 1);
      var (s, o) := S.Step(r, out, run, objects[at], at + 1);
      ReadsPerTurn(s, o, run, objects, at + 1);
    }
  }

  // ----- identical lanes -----

  /** `n` of each in turn. */
  function Blocks(xs: seq<ObjectId>, n: nat): seq<ObjectId> {
    if xs == [] then [] else Copies(xs[0], n) + Blocks(xs[1..], n)
  }

  function Copies(x: ObjectId, n: nat): (r: seq<ObjectId>)
    ensures |r| == n
  {
    if n == 0 then [] else [x] + Copies(x, n - 1)
  }

  function Wanted(out: seq<Served>): seq<ObjectId> {
    if out == [] then [] else [out[0].wanted] + Wanted(out[1..])
  }

  /** Every lane asks for these tokens, and none has a ceiling. */
  ghost predicate Identical(lanes: seq<Lane>, tokens: seq<seq<ObjectId>>) {
    forall s :: 0 <= s < |lanes| ==> lanes[s].tokens == tokens && lanes[s].ceiling == 0
  }

  /** The position after this one. */
  function Following(tokens: seq<seq<ObjectId>>, t: nat, i: nat): (nat, nat)
    requires t < |tokens|
  {
    if i + 1 >= |tokens[t]| then (t + 1, 0) else (t, i + 1)
  }

  /** The first `m` lanes have had the access at `(t, i)`, the rest have it
      next. */
  ghost predicate InBlock(b: Board, tokens: seq<seq<ObjectId>>, t: nat, i: nat, m: nat) {
    && b.Valid() && Identical(b.lanes, tokens) && NoEmptyTokens(b.lanes) && m <= |b.lanes|
    && t < |tokens| && i < |tokens[t]|
    && forall s :: 0 <= s < |b.lanes| ==> b.cursors[s] == if s < m then Following(tokens, t, i) else (t, i)
  }

  /** The lowest lane still to have the access is served. */
  lemma BlockPick(b: Board, tokens: seq<seq<ObjectId>>, t: nat, i: nat, m: nat)
    requires InBlock(b, tokens, t, i, m) && m < |b.lanes|
    ensures ParameterPick(b.Seen()) == Some(m) && b.NextOf(m) == Some(tokens[t][i])
  {
    hide Soonest, Count, NoEmptyTokens;
    var v := b.Seen();
    assert forall s: nat :: !v.Overdue(s);
    assert v.Live(m) && Soonest(v, |v.at|).Some?;
    var p := Soonest(v, |v.at|).value;
    assert Sooner(v, p, m);
    assert p >= m;
    assert v.next[p] == Some(tokens[t][i]) == v.next[m];
  }

  /** Between blocks: the next one begins, or everyone is finished. */
  lemma BlockEnds(b: Board, tokens: seq<seq<ObjectId>>, t: nat, i: nat)
    requires InBlock(b, tokens, t, i, |b.lanes|) && |b.lanes| > 0
    ensures var (u, j) := Following(tokens, t, i);
      && (u < |tokens| ==> j < |tokens[u]| && InBlock(b, tokens, u, j, 0))
      && (u >= |tokens| ==> forall s: nat :: !b.Live(s))
  {
    var (u, j) := Following(tokens, t, i);
    assert b.lanes[0].tokens == tokens;
    if u < |tokens| { assert b.lanes[0].tokens[u] != []; }
  }

  lemma BlockGoesOn(b: Board, tokens: seq<seq<ObjectId>>, t: nat, i: nat, m: nat)
    requires InBlock(b, tokens, t, i, m) && m < |b.lanes| && b.NextOf(m).Some?
    ensures InBlock(b.Advance(m), tokens, t, i, m + 1)
  {
    hide NoEmptyTokens;
  }

  lemma NoneCopied(x: ObjectId)
    ensures Copies(x, 0) == []
  {}

  lemma OneCopied(x: ObjectId, n: nat, rest: seq<ObjectId>)
    ensures [x] + (Copies(x, n) + rest) == Copies(x, n + 1) + rest
  {}

  /** From inside a block on: the rest of it, then block after block. */
  lemma {:induction false} BlocksServed(b: Board, worst: seq<nat>, tokens: seq<seq<ObjectId>>, t: nat, i: nat, m: nat)
    requires InBlock(b, tokens, t, i, m) && |worst| == |b.lanes| > 0
    ensures var (u, j) := Following(tokens, t, i);
      && (u < |tokens| ==> j <= |tokens[u]|)
      && Wanted(Merge(ParameterMajor, b, worst).0)
         == Copies(tokens[t][i], |b.lanes| - m) + Blocks(RestOf(tokens, u, j), |b.lanes|)
    decreases |RestOf(tokens, t, i)|, |b.lanes| - m
  {
    hide Merge, ParameterPick, RestOf, Blocks, NoEmptyTokens, Copies, Board.Advance;
    var n, x := |b.lanes|, tokens[t][i];
    var (u, j) := Following(tokens, t, i);
    if m < n {
      BlockPick(b, tokens, t, i, m);
      MergeStep(ParameterMajor, b, worst);
      BlockGoesOn(b, tokens, t, i, m);
      var c := b.Advance(m);
      BlocksServed(c, Kept(b, m, worst), tokens, t, i, m + 1);
      WantedCons(Serving(b, m), Merge(ParameterMajor, c, Kept(b, m, worst)).0);
      OneCopied(x, n - m - 1, Blocks(RestOf(tokens, u, j), n));
    } else {
      BlockEnds(b, tokens, t, i);
      NoneCopied(x);
      if u < |tokens| {
        RestStep(tokens, t, i);
        RestStep(tokens, u, j);
        BlocksServed(b, worst, tokens, u, j, 0);
        BlocksCons(tokens[u][j], RestOf(tokens, Following(tokens, u, j).0, Following(tokens, u, j).1), n);
      } else {
        Finished(b, worst, tokens, u, j);
      }
    }
  }

  lemma Finished(b: Board, worst: seq<nat>, tokens: seq<seq<ObjectId>>, u: nat, j: nat)
    requires b.Valid() && |worst| == |b.lanes| && u >= |tokens| && forall s: nat :: !b.Live(s)
    ensures Wanted(Merge(ParameterMajor, b, worst).0) == [] && Blocks(RestOf(tokens, u, j), |b.lanes|) == []
  {
    PickNamesLive(ParameterMajor, b.Seen());
  }

  lemma BlocksCons(x: ObjectId, xs: seq<ObjectId>, n: nat)
    ensures Blocks([x] + xs, n) == Copies(x, n) + Blocks(xs, n)
  {
    assert ([x] + xs)[1..] == xs;
  }

  lemma WantedCons(a: Served, out: seq<Served>)
    ensures Wanted([a] + out) == [a.wanted] + Wanted(out)
  {
    assert ([a] + out)[1..] == out;
  }

  lemma RestOfStart(tokens: seq<seq<ObjectId>>)
    ensures RestOf(tokens, 0, 0) == Flat(tokens)
  {
    if tokens != [] { assert tokens[0][0..] == tokens[0]; }
  }

  /** Merged parameter-major, identical lanes take every access together. */
  lemma {:induction false} IdenticalLanesTakeTurns(lanes: seq<Lane>, tokens: seq<seq<ObjectId>>)
    requires Identical(lanes, tokens) && NoEmptyTokens(lanes) && lanes != []
    ensures Wanted(Merge(ParameterMajor, Over(lanes), Zeros(|lanes|)).0) == Blocks(Flat(tokens), |lanes|)
  {
    hide Merge, RestOf, Blocks, Copies;
    var b, w := Over(lanes), Zeros(|lanes|);
    RestOfStart(tokens);
    assert lanes[0].tokens == tokens;
    if tokens == [] {
      forall s: nat ensures !b.Live(s) {}
      Finished(b, w, tokens, 0, 0);
    } else {
      assert lanes[0].tokens[0] != [];
      assert InBlock(b, tokens, 0, 0, 0);
      BlocksServed(b, w, tokens, 0, 0, 0);
      RestStep(tokens, 0, 0);
      BlocksCons(tokens[0][0], RestOf(tokens, Following(tokens, 0, 0).0, Following(tokens, 0, 0).1), |lanes|);
    }
  }

  lemma CopiesCons(x: ObjectId, m: nat, rest: seq<ObjectId>)
    requires m > 0
    ensures Copies(x, m) + rest == [x] + (Copies(x, m - 1) + rest)
  {}

  lemma FirstBlock(x: ObjectId, xs: seq<ObjectId>, n: nat)
    requires xs != []
    ensures Copies(x, 0) + Blocks(xs, n) == Copies(xs[0], n) + Blocks(xs[1..], n)
  {}

  lemma Behead(objects: seq<ObjectId>, at: nat, x: ObjectId, rest: seq<ObjectId>)
    requires at <= |objects| && objects[at..] == [x] + rest
    ensures at < |objects| && objects[at] == x && objects[at + 1..] == rest
  {
    assert objects[at] == objects[at..][0];
    assert objects[at + 1..] == objects[at..][1..];
  }

  /** From `at` on, a block's turns: one, if what came before was not its
      object, then the rest's. */
  lemma {:induction false} TurnsOfBlocks(objects: seq<ObjectId>, at: nat, m: nat, x: ObjectId, xs: seq<ObjectId>, n: nat)
    requires at <= |objects| && objects[at..] == Copies(x, m) + Blocks(xs, n)
    requires (at > 0 && objects[at - 1] == x) || m > 0
    ensures Turns(objects, at) <= |xs| + (if at > 0 && objects[at - 1] == x then 0 else 1)
    decreases |objects| - at, |xs|
  {
    hide Copies, Blocks;
    if m > 0 {
      CopiesCons(x, m, Blocks(xs, n));
      Behead(objects, at, x, Copies(x, m - 1) + Blocks(xs, n));
      TurnsOfBlocks(objects, at + 1, m - 1, x, xs, n);
    } else if xs != [] && n > 0 {
      FirstBlock(x, xs, n);
      TurnsOfBlocks(objects, at, n, xs[0], xs[1..], n);
    } else {
      NoBlocks(xs, n);
      NoneCopied(x);
      assert objects[at..] == [];
    }
  }

  lemma {:induction false} NoBlocks(xs: seq<ObjectId>, n: nat)
    requires xs == [] || n == 0
    ensures Blocks(xs, n) == []
  {
    if xs != [] { NoBlocks(xs[1..], n); }
  }

  lemma TurnsBound(xs: seq<ObjectId>, n: nat)
    ensures Turns(Blocks(xs, n), 0) <= |xs|
  {
    var objects := Blocks(xs, n);
    if xs == [] || n == 0 {
      NoBlocks(xs, n);
    } else {
      assert objects[0..] == objects;
      TurnsOfBlocks(objects, 0, n, xs[0], xs[1..], n);
    }
  }

  /** One read serves N sessions: however many lanes ask for the same tokens,
      merged parameter-major without ceilings, under any policy and budget,
      the provider is read at most once an access of one lane. */
  lemma OneReadServesAll(lanes: seq<Lane>, tokens: seq<seq<ObjectId>>, run: S.Setting, base: nat, budget: nat)
    requires Identical(lanes, tokens) && NoEmptyTokens(lanes) && lanes != []
    ensures var objects := Wanted(Merge(ParameterMajor, Over(lanes), Zeros(|lanes|)).0);
      S.Replay(run, objects, base, budget).fetches <= |Flat(tokens)|
  {
    hide Merge, Blocks, S.ReplayFrom, Turns;
    IdenticalLanesTakeTurns(lanes, tokens);
    ReadsPerTurn(S.Nothing(base, budget), S.NOTHING, run, Blocks(Flat(tokens), |lanes|), 0);
    TurnsBound(Flat(tokens), |lanes|);
  }
}
