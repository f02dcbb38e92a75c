/** A cache of `k` equal slots, and the exchange argument: evicting what is
    wanted furthest away never costs a read. */
module Cache {
  import opened Basics
  import opened Abi
  import opened StreamModel

  type Ids = set<ObjectId>

  /** Some sequence of victims serves the accesses from `at` on, starting
      from `cache`, with at most `n` reads. */
  ghost predicate CanServe(cache: Ids, k: nat, objects: seq<ObjectId>, at: nat, n: nat)
    decreases |objects| - at, 1
  {
    at < |objects| ==>
      if objects[at] in cache then CanServe(cache, k, objects, at + 1, n)
      else if |cache| < k then n > 0 && CanServe(cache + {objects[at]}, k, objects, at + 1, n - 1)
      else exists v :: CanEvict(cache, k, objects, at, n, v)
  }

  /** The same, the next miss evicting `v`. */
  ghost predicate CanEvict(cache: Ids, k: nat, objects: seq<ObjectId>, at: nat, n: nat, v: ObjectId)
    requires at < |objects|
    decreases |objects| - at, 0
  {
    n > 0 && v in cache && CanServe(Exchange(cache, v, objects[at]), k, objects, at + 1, n - 1)
  }

  ghost function Exchange(cache: Ids, v: ObjectId, x: ObjectId): Ids { cache - {v} + {x} }

  lemma DoneServes(c: Ids, k: nat, objects: seq<ObjectId>, at: nat, n: nat)
    requires at >= |objects|
    ensures CanServe(c, k, objects, at, n)
  {}

  /** A miss on a cache that is not full. */
  lemma FillServes(c: Ids, k: nat, objects: seq<ObjectId>, at: nat, n: nat)
    requires at < |objects| && objects[at] !in c && |c| < k
    ensures CanServe(c, k, objects, at, n) <==> n > 0 && CanServe(c + {objects[at]}, k, objects, at + 1, n - 1)
  {}

  /** A hit, and a miss on a full cache, in both directions. */
  lemma HitServes(c: Ids, k: nat, objects: seq<ObjectId>, at: nat, n: nat)
    requires at < |objects| && objects[at] in c
    ensures CanServe(c, k, objects, at, n) <==> CanServe(c, k, objects, at + 1, n)
  {}

  lemma MissServes(c: Ids, k: nat, objects: seq<ObjectId>, at: nat, n: nat, v: ObjectId)
    requires at < |objects| && objects[at] !in c && |c| >= k && v in c && n > 0
    requires CanServe(Exchange(c, v, objects[at]), k, objects, at + 1, n - 1)
    ensures CanServe(c, k, objects, at, n)
  {
    assert CanEvict(c, k, objects, at, n, v);
  }

  lemma MissEvicts(c: Ids, k: nat, objects: seq<ObjectId>, at: nat, n: nat) returns (v: ObjectId)
    requires at < |objects| && objects[at] !in c && |c| >= k && CanServe(c, k, objects, at, n)
    ensures n > 0 && v in c && CanServe(Exchange(c, v, objects[at]), k, objects, at + 1, n - 1)
    ensures |Exchange(c, v, objects[at])| == |c|
  {
    v :| CanEvict(c, k, objects, at, n, v);
  }

  /** `a` is next wanted no sooner than `b`, from position `at` on. */
  ghost predicate NoSooner(objects: seq<ObjectId>, at: nat, a: ObjectId, b: ObjectId) {
    var p, q := FirstFrom(objects, a, at), FirstFrom(objects, b, at);
    p.Some? ==> q.Some? && q.value <= p.value
  }

  /** `v` is in the cache, and nothing in it is wanted later. */
  ghost predicate Furthest(cache: Ids, objects: seq<ObjectId>, at: nat, v: ObjectId) {
    v in cache && forall c :: c in cache ==> NoSooner(objects, at, v, c)
  }

  /** Caches that differ by one object. */
  ghost predicate Swapped(c: Ids, a: ObjectId, d: Ids, b: ObjectId) {
    a in c && a !in d && b in d && b !in c && c - {a} == d - {b}
  }

  lemma SwappedSize(c: Ids, a: ObjectId, d: Ids, b: ObjectId)
    requires Swapped(c, a, d, b)
    ensures |c| == |d|
  {
    assert c == (c - {a}) + {a} && d == (d - {b}) + {b};
  }

  lemma SwappedHolds(c: Ids, a: ObjectId, d: Ids, b: ObjectId, x: ObjectId)
    requires Swapped(c, a, d, b)
    ensures a != b && (x in c && x != a <==> x in d && x != b)
  {
    assert x in c - {a} <==> x in d - {b};
  }

  /** How one exchange each leaves two swapped caches. */
  lemma ExchangeBoth(c: Ids, a: ObjectId, d: Ids, b: ObjectId, v: ObjectId, x: ObjectId)
    requires Swapped(c, a, d, b) && v in c && x !in c
    ensures x == b && v == a ==> Exchange(c, v, x) == d
    ensures x == b && v != a ==> Swapped(Exchange(c, v, x), a, d, v)
    ensures x != b && v == a ==> x !in d && Exchange(d, b, x) == Exchange(c, v, x)
    ensures x != b && v != a ==> x !in d && v in d && Swapped(Exchange(c, v, x), a, Exchange(d, v, x), b)
  {
    forall y ensures a != b && (y in c && y != a <==> y in d && y != b) { SwappedHolds(c, a, d, b, y); }
  }

  lemma {:induction false} MoreReads(c: Ids, k: nat, objects: seq<ObjectId>, at: nat, n: nat, m: nat)
    requires CanServe(c, k, objects, at, n) && n <= m
    ensures CanServe(c, k, objects, at, m)
    decreases |objects| - at
  {
    hide CanServe, Exchange;
    if at >= |objects| {
      DoneServes(c, k, objects, at, m);
    } else if objects[at] in c {
      HitServes(c, k, objects, at, n);
      MoreReads(c, k, objects, at + 1, n, m);
      HitServes(c, k, objects, at, m);
    } else if |c| < k {
      FillServes(c, k, objects, at, n);
      MoreReads(c + {objects[at]}, k, objects, at + 1, n - 1, m - 1);
      FillServes(c, k, objects, at, m);
    } else {
      var v := MissEvicts(c, k, objects, at, n);
      MoreReads(Exchange(c, v, objects[at]), k, objects, at + 1, n - 1, m - 1);
      MissServes(c, k, objects, at, m, v);
    }
  }

  /** Holding one object rather than another is never worse by more than one
      read. */
  lemma {:induction false} OneOff(c: Ids, a: ObjectId, d: Ids, b: ObjectId, k: nat, objects: seq<ObjectId>, at: nat, n: nat)
    requires Swapped(c, a, d, b) && |c| == k && CanServe(c, k, objects, at, n)
    ensures CanServe(d, k, objects, at, n + 1)
    decreases |objects| - at
  {
    hide CanServe, Swapped, Exchange;
    SwappedSize(c, a, d, b);
    if at >= |objects| {
      DoneServes(d, k, objects, at, n + 1);
    } else {
      var x := objects[at];
      SwappedHolds(c, a, d, b, x);
      SwapBack(c, a, d, b);
      if x in c {
        HitServes(c, k, objects, at, n);
        if x == a {
          MissServes(d, k, objects, at, n + 1, b);
        } else {
          OneOff(c, a, d, b, k, objects, at + 1, n);
          HitServes(d, k, objects, at, n + 1);
        }
      } else {
        var v := MissEvicts(c, k, objects, at, n);
        ExchangeBoth(c, a, d, b, v, x);
        if v == a {
          MoreReads(Exchange(c, v, x), k, objects, at + 1, n - 1, n + 1);
          if x == b {
            HitServes(d, k, objects, at, n + 1);
          } else {
            MoreReads(Exchange(c, v, x), k, objects, at + 1, n - 1, n);
            MissServes(d, k, objects, at, n + 1, b);
          }
        } else if x == b {
          OneOff(Exchange(c, v, x), a, d, v, k, objects, at + 1, n - 1);
          MoreReads(d, k, objects, at + 1, n, n + 1);
          HitServes(d, k, objects, at, n + 1);
        } else {
          OneOff(Exchange(c, v, x), a, Exchange(d, v, x), b, k, objects, at + 1, n - 1);
          MissServes(d, k, objects, at, n + 1, v);
        }
      }
    }
  }

  lemma SwapBack(c: Ids, a: ObjectId, d: Ids, b: ObjectId)
    requires Swapped(c, a, d, b)
    ensures a in c && a !in d && b in d && b !in c && Exchange(d, b, a) == c
  {}

  /** Holding what is wanted sooner is never worse at all. */
  lemma {:induction false} Sooner(c: Ids, a: ObjectId, d: Ids, b: ObjectId, k: nat, objects: seq<ObjectId>, at: nat, n: nat)
    requires Swapped(c, a, d, b) && |c| == k && CanServe(c, k, objects, at, n)
    requires NoSooner(objects, at, a, b)
    ensures CanServe(d, k, objects, at, n)
    decreases |objects| - at
  {
    hide CanServe, Swapped, Exchange, NoSooner;
    SwappedSize(c, a, d, b);
    if at >= |objects| {
      DoneServes(d, k, objects, at, n);
    } else {
      var x := objects[at];
      SwappedHolds(c, a, d, b, x);
      SwapBack(c, a, d, b);
      StillNoSooner(objects, at, a, b);
      if x in c {
        HitServes(c, k, objects, at, n);
        Sooner(c, a, d, b, k, objects, at + 1, n);
        HitServes(d, k, objects, at, n);
      } else {
        var v := MissEvicts(c, k, objects, at, n);
        ExchangeBoth(c, a, d, b, v, x);
        if v == a {
          if x == b {
            MoreReads(d, k, objects, at + 1, n - 1, n);
            HitServes(d, k, objects, at, n);
          } else {
            MissServes(d, k, objects, at, n, b);
          }
        } else if x == b {
          OneOff(Exchange(c, v, x), a, d, v, k, objects, at + 1, n - 1);
          HitServes(d, k, objects, at, n);
        } else {
          Sooner(Exchange(c, v, x), a, Exchange(d, v, x), b, k, objects, at + 1, n - 1);
          MissServes(d, k, objects, at, n, v);
        }
      }
    }
  }

  /** An access to neither leaves the order of the two as it was; the later
      of two different objects is not the one wanted now. */
  lemma StillNoSooner(objects: seq<ObjectId>, at: nat, a: ObjectId, b: ObjectId)
    requires NoSooner(objects, at, a, b) && at < |objects| && a != b
    ensures objects[at] != a
    ensures objects[at] != b ==> NoSooner(objects, at + 1, a, b)
  {}

  /** At a miss on a full cache, evicting the furthest is as good as the best
      there is. */
  lemma FurthestIsBest(c: Ids, k: nat, objects: seq<ObjectId>, at: nat, n: nat, v: ObjectId)
    requires at < |objects| && objects[at] !in c && |c| == k && CanServe(c, k, objects, at, n)
    requires Furthest(c, objects, at + 1, v)
    ensures n > 0 && CanServe(Exchange(c, v, objects[at]), k, objects, at + 1, n - 1)
  {
    var x := objects[at];
    var u := MissEvicts(c, k, objects, at, n);
    if u != v {
      assert Swapped(Exchange(c, u, x), v, Exchange(c, v, x), u);
      Sooner(Exchange(c, u, x), v, Exchange(c, v, x), u, k, objects, at + 1, n - 1);
    }
  }
}
