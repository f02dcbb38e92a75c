/** The ladder's accounting over a whole squeeze: every account kept whatever
    is refused, and every cache exactly its rung's when nothing is. */
module LadderExact {
  import opened Basics
  import opened Abi
  import opened MetaModel
  import opened SessionModel
  import opened Kernel
  import opened Conservation
  import opened LadderModel
  import opened WalkModel
  import opened SqueezeModel
  import opened LadderedModel

  // ----- one session's walk -----

  /** `b` is `a` with some of one owner's objects changed or gone. */
  ghost predicate OnlyOwned(a: Objects, b: Objects, owner: SessionId) {
    && (forall k :: k in b ==> k in a && b[k].owner == a[k].owner)
    && (forall k :: k in a && a[k].owner != owner ==> k in b && b[k] == a[k])
  }

  lemma OnlyOwnedTwice(a: Objects, b: Objects, c: Objects, owner: SessionId)
    ensures OnlyOwned(a, a, owner)
    ensures OnlyOwned(a, b, owner) && OnlyOwned(b, c, owner) ==> OnlyOwned(a, c, owner)
  {}

  lemma TouchesOwned(a: Objects, b: Objects, id: ObjectId, owner: SessionId)
    requires OnlyTouches(a, b, id) && (id in a ==> a[id].owner == owner)
    ensures OnlyOwned(a, b, owner)
  {}

  /** One block rewritten leaves every other where it was. */
  lemma OthersBehind(c: Cache, a: Objects, b: Objects, who: Session, rung: Rung, id: ObjectId)
    requires Behind(c, who, rung, a) && OnlyTouches(a, b, id)
    requires IsBlock(c, who, id) ==> HeldBehind(c, who, rung, b, id)
    ensures Behind(c, who, rung, b)
    ensures forall k: ObjectId, r: Rung :: IsBlock(c, who, k) && k != id && HeldOn(c, who, r, a, k) ==> HeldOn(c, who, r, b, k)
  {
    hide FateOn, Cache.Holds, IsBlock;
    forall k: ObjectId, r: Rung | k != id && HeldOn(c, who, r, a, k) ensures HeldOn(c, who, r, b, k) {
      assert k in a ==> k in b && b[k] == a[k];
    }
    forall k: ObjectId | IsBlock(c, who, k) ensures HeldBehind(c, who, rung, b, k) {
      if k != id {
        assert HeldBehind(c, who, rung, a, k);
        var r: Rung :| r.Depth() <= rung.Depth() && HeldOn(c, who, r, a, k);
        assert HeldOn(c, who, r, b, k);
      }
    }
  }

  /** Every block still to be walked or already on the rung. */
  ghost predicate Waiting(c: Cache, who: Session, rung: Rung, objects: Objects, order: seq<ObjectId>) {
    forall id: ObjectId :: IsBlock(c, who, id) && id !in order ==> HeldOn(c, who, rung, objects, id)
  }

  /** One turn of the walk: the accounts are kept, nobody else is touched, no
      block is past the rung, and this one is on it unless it was refused. */
  lemma WalkOne(c: Cache, s: State, who: Session, rung: Rung, id: ObjectId)
    requires Counted(s) && Conserved(s) && Behind(c, who, rung, s.objects) && OwnBlock(s, id, who.id)
    ensures var (t, r) := Rewrite(s, id, FateOn(c, who, rung, id));
      && Conserved(t) && Behind(c, who, rung, t.objects) && OnlyOwned(s.objects, t.objects, who.id)
      && (r.Ok? ==> HeldOn(c, who, rung, t.objects, id))
      && forall k: ObjectId, q: Rung :: IsBlock(c, who, k) && k != id && HeldOn(c, who, q, s.objects, k) ==>
           HeldOn(c, who, q, t.objects, k)
  {
    hide Charged, Rewrite, HeldOn;
    var (t, r) := Rewrite(s, id, FateOn(c, who, rung, id));
    assert IsBlock(c, who, id) && HeldBehind(c, who, rung, s.objects, id);
    BlockRewritten(c, s, who, rung, id);
    RewriteTouches(s, id, FateOn(c, who, rung, id));
    TouchesOwned(s.objects, t.objects, id, who.id);
    if r.Ok? { assert HeldBehind(c, who, rung, t.objects, id); }
    OthersBehind(c, s.objects, t.objects, who, rung, id);
  }

  /** The whole walk. */
  lemma {:induction false} RewritesLadder(c: Cache, s: State, who: Session, rung: Rung, order: seq<ObjectId>, coarsest: Precision)
    requires Counted(s) && Conserved(s) && Behind(c, who, rung, s.objects)
    ensures var (t, worst, smooth) :=
        Rewrites(s, c.shape, who.id, rung, c.shape.Blocks(who.contract.context), order, coarsest);
      && Conserved(t) && Behind(c, who, rung, t.objects) && OnlyOwned(s.objects, t.objects, who.id)
      && (smooth && Waiting(c, who, rung, s.objects, order) ==> Waiting(c, who, rung, t.objects, []))
    decreases |order|
  {
    hide Charged, Rewrite, HeldOn, Behind, OwnBlock, OnlyOwned;
    OnlyOwnedTwice(s.objects, s.objects, s.objects, who.id);
    var blocks := c.shape.Blocks(who.contract.context);
    if order != [] {
      if !OwnBlock(s, order[0], who.id) {
        NotOwnWaits(c, s, who, rung, order);
        RewritesLadder(c, s, who, rung, order[1..], coarsest);
      } else {
        WalkOne(c, s, who, rung, order[0]);
        var fate := FateOn(c, who, rung, order[0]);
        var (t, done) := Rewrite(s, order[0], fate);
        var next := if done.Ok? then Coarser(coarsest, fate) else coarsest;
        RewritesLadder(c, t, who, rung, order[1..], next);
        OnlyOwnedTwice(s.objects, t.objects, Rewrites(t, c.shape, who.id, rung, blocks, order[1..], next).0.objects, who.id);
        if done.Ok? && Waiting(c, who, rung, s.objects, order) {
          StillWaiting(c, who, rung, s.objects, t.objects, order);
        }
      }
    }
  }

  lemma StillWaiting(c: Cache, who: Session, rung: Rung, a: Objects, b: Objects, order: seq<ObjectId>)
    requires order != [] && Waiting(c, who, rung, a, order) && HeldOn(c, who, rung, b, order[0])
    requires forall k: ObjectId, q: Rung :: IsBlock(c, who, k) && k != order[0] && HeldOn(c, who, q, a, k) ==>
      HeldOn(c, who, q, b, k)
    ensures Waiting(c, who, rung, b, order[1..])
  {
    hide HeldOn, IsBlock;
    forall id: ObjectId | IsBlock(c, who, id) && id !in order[1..] ensures HeldOn(c, who, rung, b, id) {
      assert id != order[0] ==> id !in order;
    }
  }

  /** An id the walk passes over is no block of this session's in the table:
      if it names one, that one is gone, as the rung has it. */
  lemma NotOwnWaits(c: Cache, s: State, who: Session, rung: Rung, order: seq<ObjectId>)
    requires order != [] && !OwnBlock(s, order[0], who.id) && Behind(c, who, rung, s.objects)
    ensures Waiting(c, who, rung, s.objects, order) ==> Waiting(c, who, rung, s.objects, order[1..])
  {
    hide FateOn;
    var id := order[0];
    if IsBlock(c, who, id) {
      assert HeldBehind(c, who, rung, s.objects, id);
      var r: Rung :| r.Depth() <= rung.Depth() && HeldOn(c, who, r, s.objects, id);
      FateFalls(c, who, r, rung, id);
    }
    if Waiting(c, who, rung, s.objects, order) {
      forall k: ObjectId | IsBlock(c, who, k) && k !in order[1..] ensures HeldOn(c, who, rung, s.objects, k) {
        assert k != id ==> k !in order;
      }
    }
  }

  /** Before the walk nothing in the table is left out of it. */
  lemma AllWaiting(c: Cache, s: State, who: Session, rung: Rung, order: seq<ObjectId>)
    requires Behind(c, who, rung, s.objects) && forall id :: id in s.objects ==> id in order
    ensures Waiting(c, who, rung, s.objects, order)
  {
    hide FateOn;
    forall id: ObjectId | IsBlock(c, who, id) && id !in order ensures HeldOn(c, who, rung, s.objects, id) {
      assert HeldBehind(c, who, rung, s.objects, id);
      var r: Rung :| r.Depth() <= rung.Depth() && HeldOn(c, who, r, s.objects, id);
      FateFalls(c, who, r, rung, id);
    }
  }

  // ----- every session -----

  /** No session's cache is past its rung. */
  ghost predicate AllBehind(c: Cache, s: State) {
    forall i :: 0 <= i < |s.sessions| && HoldsContext(s.sessions[i]) ==>
      Behind(c, s.sessions[i].value, s.sessions[i].value.rung, s.objects)
  }

  /** Every session's cache is exactly what its rung makes of its context. */
  ghost predicate AllLaddered(c: Cache, s: State) {
    forall i :: 0 <= i < |s.sessions| && HoldsContext(s.sessions[i]) ==> Laddered(c, s.sessions[i].value, s.objects)
  }

  lemma AllLadderedBehind(c: Cache, s: State)
    requires AllLaddered(c, s)
    ensures AllBehind(c, s)
  {
    hide Laddered, Behind;
    forall i | 0 <= i < |s.sessions| && HoldsContext(s.sessions[i])
      ensures Behind(c, s.sessions[i].value, s.sessions[i].value.rung, s.objects)
    {
      LadderedBehind(c, s.sessions[i].value, s.sessions[i].value.rung, s.objects);
    }
  }

  /** Only who a session is and what it declared matter. */
  lemma SameCache(c: Cache, a: Session, b: Session, rung: Rung, objects: Objects)
    requires a.id == b.id && a.contract == b.contract
    ensures Behind(c, a, rung, objects) ==> Behind(c, b, rung, objects)
    ensures Laddered(c, a, objects) && a.rung == b.rung ==> Laddered(c, b, objects)
    ensures forall id: ObjectId :: IsBlock(c, a, id) == IsBlock(c, b, id)
    ensures forall id: ObjectId, r: Rung :: HeldOn(c, a, r, objects, id) == HeldOn(c, b, r, objects, id)
  {
    hide Cache.Holds;
    assert forall id: ObjectId, r: Rung :: HeldOn(c, a, r, objects, id) == HeldOn(c, b, r, objects, id);
    if Behind(c, a, rung, objects) {
      forall id: ObjectId | IsBlock(c, b, id) ensures HeldBehind(c, b, rung, objects, id) {
        assert IsBlock(c, a, id) && HeldBehind(c, a, rung, objects, id);
      }
    }
  }

  /** What one owner's objects become is nothing to another's cache. */
  lemma OthersCache(c: Cache, s: Session, rung: Rung, a: Objects, b: Objects, owner: SessionId)
    requires OnlyOwned(a, b, owner) && s.id != owner
    ensures Behind(c, s, rung, a) ==> Behind(c, s, rung, b)
    ensures Laddered(c, s, a) ==> Laddered(c, s, b)
  {
    hide FateOn, Cache.Holds, IsBlock;
    forall id: ObjectId, r: Rung | HeldOn(c, s, r, a, id) ensures HeldOn(c, s, r, b, id) {}
    if Behind(c, s, rung, a) {
      forall id: ObjectId | IsBlock(c, s, id) ensures HeldBehind(c, s, rung, b, id) {
        assert HeldBehind(c, s, rung, a, id);
      }
    }
  }

  /** On the rung, all of it: what a smooth walk leaves. */
  lemma NoneWaiting(c: Cache, s: Session, rung: Rung, objects: Objects)
    requires Behind(c, s, rung, objects) && Waiting(c, s, rung, objects, []) && s.rung == rung
    ensures Laddered(c, s, objects)
  {}

  lemma SessionMoved(s: State, i: nat, m: Session)
    requires Counted(s) && Conserved(s) && i < |s.sessions| && s.sessions[i].Some?
    requires m.id == s.sessions[i].value.id && m.contract == s.sessions[i].value.contract
    requires m.resident == s.sessions[i].value.resident
    ensures Conserved(s.(sessions := s.sessions[i := Some(m)]))
  {
    hide Layout, HeldRight;
    var after := s.sessions[i := Some(m)];
    assert SameSessions(s.sessions, after);
    SameSessionsFind(s.sessions, after);
    forall j | 0 <= j < |after| && after[j].Some? ensures Account(after[j].value, s.objects, 0, 0) {
      assert Account(s.sessions[j].value, s.objects, 0, 0);
    }
  }

  /** The slots a step leaves, but for its own session, are about the same
      caches. */
  lemma StepCaches(c: Cache, s: State, at: nat, to: Rung, u: State, who: Session)
    requires at < |s.sessions| && s.sessions[at] == Some(who) && DistinctIds(s.sessions)
    requires SameSessions(s.sessions, u.sessions) && OnlyOwned(s.objects, u.objects, who.id)
    requires forall i :: 0 <= i < |s.sessions| && s.sessions[i].Some? ==>
      u.sessions[i].value.rung == if i == at then to else s.sessions[i].value.rung
    requires AllBehind(c, s) && Behind(c, who, to, u.objects)
    ensures AllBehind(c, u)
    ensures AllLaddered(c, s) && Waiting(c, who, to, u.objects, []) ==> AllLaddered(c, u)
  {
    hide Behind, Laddered, OnlyOwned, Waiting;
    forall i | 0 <= i < |u.sessions| && HoldsContext(u.sessions[i])
      ensures Behind(c, u.sessions[i].value, u.sessions[i].value.rung, u.objects)
      ensures AllLaddered(c, s) && Waiting(c, who, to, u.objects, []) ==> Laddered(c, u.sessions[i].value, u.objects)
    {
      var before, after := s.sessions[i].value, u.sessions[i].value;
      SameCache(c, before, after, after.rung, u.objects);
      if i == at {
        if Waiting(c, who, to, u.objects, []) { MovedLaddered(c, who, after, to, u.objects); }
      } else {
        assert !SameSession(s.sessions[i], s.sessions[at]);
        OthersCache(c, before, before.rung, s.objects, u.objects, who.id);
      }
    }
  }

  lemma MovedLaddered(c: Cache, a: Session, b: Session, to: Rung, objects: Objects)
    requires a.id == b.id && a.contract == b.contract && b.rung == to
    requires Behind(c, a, to, objects) && Waiting(c, a, to, objects, [])
    ensures Laddered(c, b, objects)
  {
    hide Behind, HeldOn, IsBlock;
    SameCache(c, a, b, to, objects);
    NoneWaiting(c, b, to, objects);
  }

  /** A step keeps every account and every cache behind its rung; if nothing
      refused, every cache exactly on it. */
  lemma StepLadder(c: Cache, s: State, at: nat, to: Rung, order: seq<ObjectId>)
    requires Ready(s) && Conserved(s) && AllBehind(c, s) && forall id :: id in s.objects ==> id in order
    requires at < |s.sessions| && HoldsContext(s.sessions[at]) && s.sessions[at].value.rung.Depth() <= to.Depth()
    ensures var (t, read, smooth) := Step(s, c.shape, s.sessions[at].value, to, order);
      && Conserved(t) && AllBehind(c, t) && (smooth && AllLaddered(c, s) ==> AllLaddered(c, t))
      && t.objects.Keys <= s.objects.Keys
  {
    hide Charged, Behind, Laddered, Rewrites, Waiting, AllBehind, AllLaddered, OnlyOwned;
    var who := s.sessions[at].value;
    BehindAt(c, s, at, to);
    RewritesLadder(c, s, who, to, order, who.delivered.coarsest);
    AllWaiting(c, s, who, to, order);
    StepMoves(s, c.shape, at, to, order);
    var walked := Rewrites(s, c.shape, who.id, to, c.shape.Blocks(who.contract.context), order, who.delivered.coarsest);
    var u := Step(s, c.shape, who, to, order).0;
    RewritesRungs(s, c.shape, who.id, to, c.shape.Blocks(who.contract.context), order, who.delivered.coarsest);
    StepIs(s, c.shape, at, to, order);
    var i := u.sessions[at].value;
    SessionMoved(walked.0, at, i);
    StepCaches(c, s, at, to, u, who);
    OwnedKeys(s.objects, u.objects, who.id);
  }

  lemma OwnedKeys(a: Objects, b: Objects, owner: SessionId)
    requires OnlyOwned(a, b, owner)
    ensures b.Keys <= a.Keys
  {}

  lemma BehindAt(c: Cache, s: State, at: nat, to: Rung)
    requires AllBehind(c, s) && at < |s.sessions| && HoldsContext(s.sessions[at])
    requires s.sessions[at].value.rung.Depth() <= to.Depth()
    ensures Behind(c, s.sessions[at].value, to, s.objects)
  {
    hide HeldOn, IsBlock, Cache.Holds;
    var who := s.sessions[at].value;
    forall id: ObjectId | IsBlock(c, who, id) ensures HeldBehind(c, who, to, s.objects, id) {
      assert HeldBehind(c, who, who.rung, s.objects, id);
    }
  }

  /** A step is its walk, and its session's record. */
  lemma StepIs(s: State, shape: Shape, at: nat, to: Rung, order: seq<ObjectId>)
    requires Counted(s) && DistinctIds(s.sessions) && at < |s.sessions| && s.sessions[at].Some?
    ensures var who := s.sessions[at].value;
      var walked := Rewrites(s, shape, who.id, to, shape.Blocks(who.contract.context), order, who.delivered.coarsest);
      var (u, read, smooth) := Step(s, shape, who, to, order);
      && at < |walked.0.sessions| && walked.0.sessions[at].Some? && at < |u.sessions| && u.sessions[at].Some?
      && u == walked.0.(sessions := walked.0.sessions[at := u.sessions[at]]) && smooth == walked.2
      && u.sessions[at].value.id == walked.0.sessions[at].value.id
      && u.sessions[at].value.contract == walked.0.sessions[at].value.contract
      && u.sessions[at].value.resident == walked.0.sessions[at].value.resident
  {
    hide Rewrites;
    var who := s.sessions[at].value;
    var t := Rewrites(s, shape, who.id, to, shape.Blocks(who.contract.context), order, who.delivered.coarsest).0;
    RewritesRungs(s, shape, who.id, to, shape.Blocks(who.contract.context), order, who.delivered.coarsest);
    SameSessionsFind(s.sessions, t.sessions);
    FindIs(t.sessions, at);
  }
}
