/** What the simulator's counts count. */
module Tally {
  import opened Basics
  import opened Abi
  import opened MetaModel
  import opened ArenaModel
  import opened PolicyModel
  import S = Simulation

  /** What making room counts is how many residents fewer it leaves, and it
      leaves the rest as they were. */
  lemma {:induction false} RoomTallies(r: S.Residence, pick: Pick, size: nat)
    ensures var (s, n) := S.MakeRoom(r, pick, size);
      && |r.held| == |s.held| + n && s.cursor == r.cursor
      && forall k :: k in s.held ==> k in r.held && s.held[k] == r.held[k]
    decreases |r.held|
  {
    hide S.Remove;
    var v := pick(S.Window(r.held), r.cursor, size);
    if !r.region.Fits(size) && v.Some? && S.Remove(r, v.value).Ok? {
      S.RemoveShrinks(r, v.value);
      RemoveSpares(r, v.value);
      RoomTallies(S.Remove(r, v.value).value, pick, size);
    }
  }

  lemma RemoveSpares(r: S.Residence, id: ObjectId)
    requires S.Remove(r, id).Ok?
    ensures var s := S.Remove(r, id).value;
      s.cursor == r.cursor && forall k :: k in s.held ==> k in r.held && s.held[k] == r.held[k]
  {}

  /** The entry of an object accessed at this tick, wanted again when the chain
      says. */
  predicate Accessed(m: Meta, n: Meta, now: nat, next: NextUse, placed: nat, address: nat) {
    n == m.(residentAt := address, placedTick := placed, usedTick := now, nextUse := next,
            reuseCount := Min(m.reuseCount + 1, U16_MAX))
  }

  /** The counts of one access: whether the object was held, whether it is, and
      how many residents fewer there are. */
  predicate Tallied(out: S.Outcome, o: S.Outcome, m: Meta, was: bool, held: bool, fewer: int) {
    && o.mismatched == out.mismatched
    && o.hits == out.hits + (if was then 1 else 0)
    && o.fetches == out.fetches + (if !was && held then 1 else 0)
    && o.refused == out.refused + (if !was && !held then 1 else 0)
    && o.bytes == out.bytes + (if !was && held then m.size else 0)
    && o.cost == out.cost + (if !was && held then m.reloadCost else 0)
    && o.evicted == out.evicted + fewer + (if !was && held then 1 else 0)
  }

  /** One access is one count: of an object nobody sized, a mismatch, and nothing
      else happens; of one held, a hit; of one held afterwards, a fetch, its
      bytes and its cost to read; else a refusal. Residents lost on the way are
      the evictions. */
  lemma StepTallies(r: S.Residence, out: S.Outcome, run: S.Setting, id: ObjectId, now: nat)
    ensures var (s, o) := S.Step(r, out, run, id, now);
      match run.model(id)
      case None => s == r && o == out.(mismatched := out.mismatched + 1)
      case Some(m) =>
        && s.cursor == now
        && (forall k :: k in s.held && k != id ==> k in r.held && s.held[k] == r.held[k])
        && (id in s.held ==>
              var was := if id in r.held then r.held[id] else m;
              var last := s.held[id];
              && Accessed(was, last, now, S.WantedAt(run.next, now), if id in r.held then was.placedTick else now, last.residentAt)
              && (id in r.held ==> last.residentAt == was.residentAt))
        && Tallied(out, o, m, id in r.held, id in s.held, |r.held| as int - |s.held|)
        && (id in r.held ==> id in s.held && s.held.Keys == r.held.Keys && s.region == r.region)
  {
    hide S.MakeRoom, S.WantedAt, Region.Place;
    if id !in r.held && run.model(id).Some? {
      var m := run.model(id).value;
      var touched := r.(cursor := now);
      RoomTallies(touched, run.pick, m.size);
      InsertTallies(S.MakeRoom(touched, run.pick, m.size).0, id, m, now, S.WantedAt(run.next, now));
    }
  }

  lemma InsertTallies(r: S.Residence, id: ObjectId, m: Meta, now: nat, next: NextUse)
    requires id !in r.held
    ensures var (s, placed) := S.Insert(r, id, m, now, next);
      && s.cursor == now && (placed <==> id in s.held) && |s.held| == |r.held| + (if placed then 1 else 0)
      && (forall k :: k in s.held && k != id ==> k in r.held && s.held[k] == r.held[k])
      && (placed ==> Accessed(m, s.held[id], now, next, now, s.held[id].residentAt))
  {
    hide Region.Place;
    var (s, placed) := S.Insert(r, id, m, now, next);
    if placed { assert s.held.Keys == r.held.Keys + {id}; } else { assert s.held == r.held; }
  }

  /** After `n` accesses every one of them has been counted once, and the
      residents are the fetched who were not evicted. */
  lemma {:induction false} ReplayTallies(run: S.Setting, objects: seq<ObjectId>, base: nat, budget: nat, n: nat)
    requires n <= |objects|
    ensures var (r, o) := S.ReplayTo(S.Nothing(base, budget), S.NOTHING, run, objects, n);
      && o.hits + o.fetches + o.refused + o.mismatched == n
      && |r.held| + o.evicted == o.fetches
  {
    hide S.Step;
    if n > 0 {
      ReplayTallies(run, objects, base, budget, n - 1);
      var (r, o) := S.ReplayTo(S.Nothing(base, budget), S.NOTHING, run, objects, n - 1);
      StepTallies(r, o, run, objects[n - 1], n);
      SameSize(r, S.Step(r, o, run, objects[n - 1], n).0);
    }
  }

  lemma SameSize(r: S.Residence, s: S.Residence)
    ensures r.held.Keys == s.held.Keys ==> |r.held| == |s.held|
  {
    assert |r.held| == |r.held.Keys| && |s.held| == |s.held.Keys|;
  }
}
