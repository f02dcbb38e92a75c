/** A declared sequence of objects, where the workload is in it, and the
    chain that says where each access turns up next. */
module StreamModel {
  import opened Basics
  import opened Abi
  import opened MetaModel

  /** The link of a last use. */
  const NEVER: nat := U32_MAX

  /** The first position from `from` on that holds `id`. */
  function FirstFrom(objects: seq<ObjectId>, id: ObjectId, from: nat): (r: Option<nat>)
    ensures r.Some? ==> from <= r.value < |objects| && objects[r.value] == id
    decreases |objects| - from
  {
    if from >= |objects| then None
    else if objects[from] == id then Some(from)
    else FirstFrom(objects, id, from + 1)
  }

  /** It is the first, and `None` says there is none. */
  lemma {:induction false} FirstFromLeast(objects: seq<ObjectId>, id: ObjectId, from: nat)
    ensures forall p :: from <= p < |objects| && objects[p] == id ==>
      FirstFrom(objects, id, from).Some? && FirstFrom(objects, id, from).value <= p
    decreases |objects| - from
  {
    if from < |objects| { FirstFromLeast(objects, id, from + 1); }
  }

  /** A position as the chain records it. */
  function Link(p: Option<nat>): nat { match p case None => NEVER case Some(at) => at }

  /** `next[i]` is the least later position of the same object, or `NEVER`. */
  ghost predicate Chained(objects: seq<ObjectId>, next: seq<nat>) {
    |next| >= |objects| && ChainedFrom(objects, next, 0)
  }

  ghost predicate ChainedFrom(objects: seq<ObjectId>, next: seq<nat>, from: nat)
    requires |next| >= |objects|
  {
    forall i {:trigger next[i]} :: from <= i < |objects| ==> next[i] == Link(FirstFrom(objects, objects[i], i + 1))
  }

  /** The distinct objects from `from` on. */
  ghost function Distinct(objects: seq<ObjectId>, from: nat): set<ObjectId> {
    set i | from <= i < |objects| :: objects[i]
  }

  /** `seen[..n]` names each object from `from` on once, with its first
      position there. */
  ghost predicate Tracks(objects: seq<ObjectId>, seen: seq<(ObjectId, nat)>, from: nat) {
    && |seen| == |Distinct(objects, from)|
    && (forall k :: 0 <= k < |seen| ==> FirstFrom(objects, seen[k].0, from) == Some(seen[k].1))
    && forall i :: from <= i < |objects| ==> exists k :: 0 <= k < |seen| && seen[k].0 == objects[i]
  }

  /** One pass from the end: `seen` keeps where each object was last met, and
      `into` gets that as the link. Too short a buffer is an error. */
  method Chain(objects: seq<ObjectId>, into: array<nat>, seen: array<(ObjectId, nat)>) returns (r: Result<()>)
    requires |objects| <= U32_MAX
    modifies into, seen
    ensures r.Ok? <==> |objects| <= into.Length && |Distinct(objects, 0)| <= seen.Length
    ensures r.Ok? ==> Chained(objects, into[..])
    ensures r.Err? ==> r == Err(NoBudget)
  {
    if into.Length < |objects| {
      return Err(NoBudget);
    }
    var distinct: nat := 0;
    var at := |objects|;
    assert Distinct(objects, at) == {};
    while at > 0
      invariant 0 <= at <= |objects| <= into.Length
      invariant 0 <= distinct <= seen.Length
      invariant Tracks(objects, seen[..distinct], at)
      invariant ChainedFrom(objects, into[..], at)
      decreases at
    {
      at := at - 1;
      DistinctBound(objects, at);
      var noted := LinkOne(objects, into, seen, distinct, at);
      if noted.None? {
        return Err(NoBudget);
      }
      distinct := noted.value;
    }
    return Ok(());
  }

  /** One step of the backward pass: links position `at` and moves its
      object's first position there. `None` when `seen` has no slot left for
      a new object. */
  method LinkOne(objects: seq<ObjectId>, into: array<nat>, seen: array<(ObjectId, nat)>, distinct: nat, at: nat)
    returns (r: Option<nat>)
    requires at < |objects| <= into.Length && distinct <= seen.Length
    requires Tracks(objects, seen[..distinct], at + 1) && ChainedFrom(objects, into[..], at + 1)
    modifies into, seen
    ensures r.None? ==> |Distinct(objects, at)| > seen.Length
    ensures r.Some? ==> r.value <= seen.Length && Tracks(objects, seen[..r.value], at)
    ensures r.Some? ==> ChainedFrom(objects, into[..], at)
  {
    var id := objects[at];
    var k := FindSeen(seen, distinct, id);
    ghost var linked, named := into[..], seen[..distinct];
    if k < distinct {
      TracksFound(objects, named, at, k);
      into[at] := seen[k].1;
      assert into[..] == linked[at := Link(FirstFrom(objects, id, at + 1))];
      seen[k] := (id, at);
      assert seen[..distinct] == named[k := (id, at)];
      return Some(distinct);
    }
    TracksNew(objects, named, at);
    into[at] := NEVER;
    assert into[..] == linked[at := Link(FirstFrom(objects, id, at + 1))];
    if distinct == seen.Length {
      return None;
    }
    seen[distinct] := (id, at);
    assert seen[..distinct + 1] == named + [(id, at)];
    return Some(distinct + 1);
  }

  method FindSeen(seen: array<(ObjectId, nat)>, distinct: nat, id: ObjectId) returns (k: nat)
    requires distinct <= seen.Length
    ensures k <= distinct
    ensures k < distinct ==> seen[..distinct][k].0 == id
    ensures k == distinct ==> forall j :: 0 <= j < distinct ==> seen[..distinct][j].0 != id
  {
    k := 0;
    while k < distinct && seen[k].0 != id
      invariant k <= distinct
      invariant forall j :: 0 <= j < k ==> seen[j].0 != id
    {
      k := k + 1;
    }
  }

  lemma DistinctGrows(objects: seq<ObjectId>, at: nat)
    requires at < |objects|
    ensures Distinct(objects, at) == Distinct(objects, at + 1) + {objects[at]}
    ensures objects[at] in Distinct(objects, at + 1) <==> FirstFrom(objects, objects[at], at + 1).Some?
  {
    FirstFromLeast(objects, objects[at], at + 1);
  }

  lemma DistinctBound(objects: seq<ObjectId>, at: nat)
    ensures |Distinct(objects, at)| <= |Distinct(objects, 0)|
  {
    assert Distinct(objects, 0) == Distinct(objects, at) + (Distinct(objects, 0) - Distinct(objects, at));
  }

  lemma TracksFound(objects: seq<ObjectId>, seen: seq<(ObjectId, nat)>, at: nat, k: nat)
    requires at < |objects| && k < |seen| && seen[k].0 == objects[at] && Tracks(objects, seen, at + 1)
    ensures Tracks(objects, seen[k := (objects[at], at)], at)
    ensures FirstFrom(objects, objects[at], at + 1) == Some(seen[k].1)
  {
    DistinctGrows(objects, at);
    assert Distinct(objects, at) == Distinct(objects, at + 1);
    var after := seen[k := (objects[at], at)];
    forall j | 0 <= j < |after| ensures FirstFrom(objects, after[j].0, at) == Some(after[j].1) {
      if j != k && seen[j].0 == objects[at] {
        SeenOnce(objects, seen, at + 1, j, k);
      }
    }
    forall i | at <= i < |objects| ensures exists j :: 0 <= j < |after| && after[j].0 == objects[i] {
      if i > at {
        var j :| 0 <= j < |seen| && seen[j].0 == objects[i];
        assert after[j].0 == objects[i];
      } else {
        assert after[k].0 == objects[i];
      }
    }
  }

  lemma TracksNew(objects: seq<ObjectId>, seen: seq<(ObjectId, nat)>, at: nat)
    requires at < |objects| && Tracks(objects, seen, at + 1)
    requires forall j :: 0 <= j < |seen| ==> seen[j].0 != objects[at]
    ensures Tracks(objects, seen + [(objects[at], at)], at)
    ensures FirstFrom(objects, objects[at], at + 1) == None
    ensures |Distinct(objects, at)| == |seen| + 1
  {
    DistinctGrows(objects, at);
    var after := seen + [(objects[at], at)];
    forall i | at <= i < |objects| ensures exists j :: 0 <= j < |after| && after[j].0 == objects[i] {
      if i > at {
        var j :| 0 <= j < |seen| && seen[j].0 == objects[i];
        assert after[j].0 == objects[i];
      } else {
        assert after[|seen|].0 == objects[i];
      }
    }
  }

  /** As many entries as objects, each object named: none is named twice. */
  lemma SeenOnce(objects: seq<ObjectId>, seen: seq<(ObjectId, nat)>, from: nat, j: nat, k: nat)
    requires Tracks(objects, seen, from) && j < |seen| && k < |seen| && seen[j].0 == seen[k].0
    ensures j == k
  {
    if j != k {
      var lo, hi := Min(j, k), Max(j, k);
      var short := seen[..hi] + seen[hi + 1..];
      NamesBound(short);
      forall id | id in Distinct(objects, from) ensures id in Names(short) {
        var i :| from <= i < |objects| && objects[i] == id;
        var n :| 0 <= n < |seen| && seen[n].0 == objects[i];
        if n == hi {
          assert short[lo].0 == id;
        } else if n < hi {
          assert short[n].0 == id;
        } else {
          assert short[n - 1].0 == id;
        }
      }
      SubsetSize(Distinct(objects, from), Names(short));
      assert false;
    }
  }

  ghost function Names(seen: seq<(ObjectId, nat)>): set<ObjectId> { set k | 0 <= k < |seen| :: seen[k].0 }

  lemma {:induction false} NamesBound(seen: seq<(ObjectId, nat)>)
    ensures |Names(seen)| <= |seen|
  {
    if seen != [] {
      var rest := seen[..|seen| - 1];
      NamesBound(rest);
      assert Names(seen) == Names(rest) + {seen[|seen| - 1].0};
    }
  }

  // ----- the stream -----

  /** When `id` is next wanted, strictly after `cursor`, as a one-based tick:
      the reference definition, a scan of what remains. */
  function WantedAfter(declared: seq<ObjectId>, cursor: nat, id: ObjectId): NextUse {
    match FirstFrom(declared, id, cursor + 1)
    case None => Never
    case Some(p) => At(p + 1)
  }

  class Stream {
    var declared: seq<ObjectId>
    var next: seq<nat>
    var cursor: nat

    /** The declaration fits 32-bit positions and `next` is its chain. */
    ghost predicate Valid()
      reads this
    {
      |declared| < U32_MAX && Chained(declared, next) && cursor <= U32_MAX
    }

    constructor ()
      ensures Valid() && declared == [] && cursor == 0
    {
      declared, next, cursor := [], [], 0;
    }

    /** `ml_stream_declare`: replaces any earlier declaration. `NoBudget`
        when `next` is shorter than the declaration. */
    method Declare(objects: seq<ObjectId>, next: seq<nat>) returns (r: Result<()>)
      requires Valid() && |objects| < U32_MAX && (|next| >= |objects| ==> Chained(objects, next))
      modifies this
      ensures Valid()
      ensures r.Ok? <==> |next| >= |objects|
      ensures r.Ok? ==> declared == objects && cursor == 0
      ensures r.Err? ==> r == Err(NoBudget) && unchanged(this)
    {
      if |next| < |objects| {
        return Err(NoBudget);
      }
      declared := objects;
      this.next := next;
      cursor := 0;
      return Ok(());
    }

    method Advance(steps: nat)
      requires Valid()
      modifies this`cursor
      ensures Valid() && cursor == SatAdd(old(cursor), steps, U32_MAX)
    {
      cursor := SatAdd(cursor, steps, U32_MAX);
    }

    /** One indexed read of the chain when the cursor is on `id`, a scan of
        what remains otherwise: the same answer either way. */
    method NextAfter(id: ObjectId) returns (r: NextUse)
      requires Valid()
      ensures r == WantedAfter(declared, cursor, id)
    {
      var at := cursor;
      if at < |declared| && declared[at] == id {
        var linked := next[at];
        return if linked == NEVER then Never else At(linked + 1);
      }
      var p := at + 1;
      while p < |declared| && declared[p] != id
        invariant at + 1 <= p
        invariant FirstFrom(declared, id, at + 1) == FirstFrom(declared, id, p)
      {
        p := p + 1;
      }
      return if p < |declared| then At(p + 1) else Never;
    }
  }
}
