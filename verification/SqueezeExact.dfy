/** The ladder end to end: a squeeze keeps every account whatever is refused,
    leaves every cache exactly its rung's when nothing is, and with few enough
    residents nothing is. */
module SqueezeExact {
  import opened Abi
  import opened MetaModel
  import opened SessionModel
  import opened Kernel
  import opened Conservation
  import opened LadderModel
  import opened WalkModel
  import opened SqueezeModel
  import opened LadderedModel
  import opened LadderExact

  ghost predicate Walked(s: State, order: seq<ObjectId>) { forall id :: id in s.objects ==> id in order }

  lemma {:induction false} DeepenLadder(c: Cache, s: State, rung: Rung, from: nat, order: seq<ObjectId>)
    requires Ready(s) && Conserved(s) && AllBehind(c, s) && Walked(s, order)
    ensures var (t, read, smooth) := DeepenAll(s, c.shape, rung, from, order);
      && Conserved(t) && AllBehind(c, t) && Walked(t, order)
      && (smooth && AllLaddered(c, s) ==> AllLaddered(c, t))
    decreases MAX_SESSIONS - from
  {
    hide Charged, AllBehind, AllLaddered, SqueezeModel.Step, DistinctIds;
    if from < MAX_SESSIONS {
      if from < |s.sessions| && s.sessions[from].Some? && Movable(s.sessions[from].value, rung) {
        StepLadder(c, s, from, rung, order);
        StepMoves(s, c.shape, from, rung, order);
        DeepenLadder(c, SqueezeModel.Step(s, c.shape, s.sessions[from].value, rung, order).0, rung, from + 1, order);
      } else {
        DeepenLadder(c, s, rung, from + 1, order);
      }
    }
  }

  /** The walk that ends a session changes nobody's owner. */
  lemma {:induction false} DestroyWalkOwners(s: State, owner: SessionId, order: seq<ObjectId>, evicted: nat)
    requires Counted(s)
    ensures OnlyOwned(s.objects, DestroyWalk(s, owner, order, evicted).0.objects, owner)
    decreases |order|
  {
    hide OnlyOwned, Evict;
    OnlyOwnedTwice(s.objects, s.objects, s.objects, owner);
    if order != [] {
      var id := order[0];
      if id !in s.objects || s.objects[id].owner != owner || owner == 0 {
        DestroyWalkOwners(s, owner, order[1..], evicted);
      } else {
        var (t, r) := if s.objects[id].Resident() then Evict(s, id) else (s, Ok(0));
        EvictOwners(s, id, owner);
        if r.Ok? {
          var u := t.(objects := t.objects - {id});
          var next := if s.objects[id].Resident() then evicted + 1 else evicted;
          RemovedOwned(s.objects, t.objects, id, owner);
          DestroyWalkOwners(u, owner, order[1..], next);
          OnlyOwnedTwice(s.objects, u.objects, DestroyWalk(u, owner, order[1..], next).0.objects, owner);
        }
      }
    }
  }

  lemma EvictOwners(s: State, id: ObjectId, owner: SessionId)
    requires Counted(s) && id in s.objects && s.objects[id].owner == owner
    ensures OnlyOwned(s.objects, Evict(s, id).0.objects, owner)
  {}

  lemma RemovedOwned(a: Objects, b: Objects, id: ObjectId, owner: SessionId)
    requires id in a && a[id].owner == owner && OnlyOwned(a, b, owner)
    ensures OnlyOwned(a, b - {id}, owner)
    ensures OnlyOwned(a, a - {id}, owner)
  {}

  /** Ending a session leaves every other cache as it was. */
  lemma DestroyLadder(c: Cache, s: State, id: SessionId, order: seq<ObjectId>)
    requires Ready(s) && Conserved(s) && AllBehind(c, s) && Walked(s, order)
    ensures var (t, r) := DestroySession(s, id, order);
      && Conserved(t) && Walked(t, order)
      && (r.Ok? ==> AllBehind(c, t) && (AllLaddered(c, s) ==> AllLaddered(c, t)))
  {
    hide Charged, Behind, Laddered, OnlyOwned, DestroyWalk, DistinctIds;
    DestroyKeeps(s, id, order);
    var (t, r) := DestroySession(s, id, order);
    DestroyWalkOwners(s, id, order, 0);
    Ended(s, id, order);
    OwnedKeys(s.objects, t.objects, id);
    if r.Ok? {
      DestroyFalls(s, id, order);
      forall i | 0 <= i < |t.sessions| && HoldsContext(t.sessions[i])
        ensures Behind(c, t.sessions[i].value, t.sessions[i].value.rung, t.objects)
        ensures AllLaddered(c, s) ==> Laddered(c, t.sessions[i].value, t.objects)
      {
        var before, after := s.sessions[i].value, t.sessions[i].value;
        SameCache(c, before, after, before.rung, t.objects);
        NotTheEnded(t, i, id);
        OthersCache(c, before, before.rung, s.objects, t.objects, id);
      }
    }
  }

  lemma Ended(s: State, id: SessionId, order: seq<ObjectId>)
    requires Counted(s)
    ensures DestroySession(s, id, order).0.objects == DestroyWalk(s, id, order, 0).0.objects
  {}

  lemma NotTheEnded(t: State, i: nat, id: SessionId)
    requires i < |t.sessions| && t.sessions[i].Some? && !Known(t.sessions, id)
    ensures t.sessions[i].value.id != id
  {}

  /** A squeeze keeps every account, whatever the arena refuses; and if it
      refuses nothing, leaves every cache exactly what its rung makes of it. */
  lemma {:induction false} SqueezeLadder(c: Cache, s: State, order: seq<ObjectId>, done: Squeezed)
    requires Ready(s) && Conserved(s) && AllBehind(c, s) && Walked(s, order)
    ensures var (t, last, smooth) := Squeeze(s, c.shape, order, done);
      && Conserved(t) && Walked(t, order) && (smooth ==> AllBehind(c, t))
      && (smooth && AllLaddered(c, s) ==> AllLaddered(c, t))
    decreases Left(s.sessions)
  {
    hide Charged, AllBehind, AllLaddered, DeepenAll, DestroySession, Next, Left, DistinctIds, OneFewer, DeeperOf;
    match Next(s.capacity, c.shape, s.sessions)
    case Fits =>
    case Exhausted =>
    case Deepen(rung) =>
      NextDeepens(s.capacity, c.shape, s.sessions, rung);
      DeepenFalls(s, c.shape, rung, order);
      DeepenLadder(c, s, rung, 0, order);
      var (t, read, calm) := DeepenAll(s, c.shape, rung, 0, order);
      SqueezeLadder(c, t, order, done.(reached := DeeperOf(done.reached, rung), recomputed := done.recomputed + read));
    case Terminate(id) =>
      DestroyLadder(c, s, id, order);
      var (t, r) := DestroySession(s, id, order);
      if r.Ok? {
        DestroyFalls(s, id, order);
        SqueezeLadder(c, t, order, done.(reached := DeeperOf(done.reached, L7), terminated := done.terminated + 1));
      }
  }

  // ----- what a squeeze leaves -----

  lemma SqueezeReady(s: State, shape: Shape, bytes: nat, order: seq<ObjectId>)
    requires Ready(s)
    ensures Ready(SqueezeTo(s, shape, bytes, order).0)
  {
    SqueezeStaysReady(s.(capacity := s.capacity.(bytes := bytes)), shape, order, UNSQUEEZED);
  }

  lemma {:induction false} SqueezeStaysReady(s: State, shape: Shape, order: seq<ObjectId>, done: Squeezed)
    requires Ready(s)
    ensures Ready(Squeeze(s, shape, order, done).0)
    decreases Left(s.sessions)
  {
    hide DeepenAll, DestroySession, Next, Left, DistinctIds, OneFewer, DeeperOf;
    match Next(s.capacity, shape, s.sessions)
    case Fits =>
    case Exhausted =>
    case Deepen(rung) =>
      NextDeepens(s.capacity, shape, s.sessions, rung);
      DeepenFalls(s, shape, rung, order);
      var (t, read, calm) := DeepenAll(s, shape, rung, 0, order);
      SqueezeStaysReady(t, shape, order, done.(reached := DeeperOf(done.reached, rung), recomputed := done.recomputed + read));
    case Terminate(id) =>
      var (t, r) := DestroySession(s, id, order);
      if r.Ok? {
        DestroyFalls(s, id, order);
        SqueezeStaysReady(t, shape, order, done.(reached := DeeperOf(done.reached, L7), terminated := done.terminated + 1));
      } else {
        RefusedReady(s, id, order);
      }
  }

  lemma RefusedReady(s: State, id: SessionId, order: seq<ObjectId>)
    requires Ready(s) && DestroySession(s, id, order).1.Err?
    ensures Ready(DestroySession(s, id, order).0)
  {
    DestroyWalkRungs(s, id, order, 0);
    SameSessionsFind(s.sessions, DestroyWalk(s, id, order, 0).0.sessions);
  }

  /** The capacity is nobody's account. */
  lemma CapacityApart(c: Cache, s: State, t: State)
    requires Counted(s) && t == s.(capacity := t.capacity)
    ensures Conserved(s) ==> Conserved(t)
    ensures AllBehind(c, s) == AllBehind(c, t) && AllLaddered(c, s) == AllLaddered(c, t)
  {}
}
