/** Policies: who is to go.

    A policy's answer is specified as the one best resident under a score,
    ties to the lower id, so it cannot depend on the order the residents are
    offered in; the scans are proved to find it. */
module PolicyModel {
  import opened Basics
  import opened Abi
  import opened MetaModel

  /** What the policies read of a resident object. */
  datatype Seen = Seen(
    size: nat,
    nextUse: NextUse,
    placedTick: nat,
    usedTick: nat,
    reloadCost: nat,
    recomputeCost: nat,
    holders: nat)

  function See(m: Meta): Seen {
    Seen(m.size, m.nextUse, m.placedTick, m.usedTick, m.reloadCost, m.recomputeCost, Max(m.shareCount, 1))
  }

  /** The residents, by id. */
  type Window = map<ObjectId, Seen>

  function Residents(objects: map<ObjectId, Meta>): Window {
    map id | id in objects && objects[id].Resident() :: See(objects[id])
  }

  /** A policy: the residents, the tick and the bytes wanted, to a victim or
      to none. Total, and a function of the set alone. */
  type Pick = (Window, nat, nat) -> Option<ObjectId>

  /** How far away an access is when nobody has declared one. */
  const UNDECLARED: nat := 0x100_0000_0000

  /** The discount of a probabilistic horizon against a known one. */
  const HINT: nat := 2

  /** Fixed-point scale of the distance-per-cost ratio. */
  const SCALE: nat := 1_000_000

  /** Steps until the next use, as a policy counts them. */
  function Horizon(next: NextUse, now: nat): nat {
    match next
    case Never => UNDECLARED
    case At(position) => SatSub(position, now)
    case Probability(chance) => if chance == 0 then UNDECLARED / HINT else U16_MAX / chance / HINT
  }

  /** The cheaper of reload and recompute, zero counting as one. */
  function Recovery(s: Seen): (r: nat)
    ensures r > 0
  {
    var cheaper := Min(s.reloadCost, s.recomputeCost);
    if cheaper == 0 then 1 else cheaper
  }

  /** The next-use score: steps away, scaled, over what recovery costs. */
  function Evictability(s: Seen, now: nat): nat
    requires s.holders > 0
  {
    var dear := SatMul(Recovery(s), s.holders, U64_MAX);
    assert Recovery(s) * s.holders > 0;
    SatMul(Horizon(s.nextUse, now), SCALE, U64_MAX) / dear
  }

  datatype Rule = Demand | Fifo | Lru | KnownNextUse

  /** What a rule minimises. */
  function Score(rule: Rule, s: Seen, now: nat): int {
    match rule
    case Demand => 0
    case Fifo => s.placedTick
    case Lru => s.usedTick
    case KnownNextUse => if s.holders > 0 then 0 as int - Evictability(s, now) as int else 0
  }

  /** `a` goes before `b`: a smaller score, or the same and a lower id. */
  predicate Before(rule: Rule, now: nat, a: ObjectId, s: Seen, b: ObjectId, t: Seen) {
    Score(rule, s, now) < Score(rule, t, now) || (Score(rule, s, now) == Score(rule, t, now) && a <= b)
  }

  ghost predicate IsBest(rule: Rule, w: Window, now: nat, id: ObjectId) {
    id in w && forall other :: other in w ==> Before(rule, now, id, w[id], other, w[other])
  }

  lemma {:induction false} BestExists(rule: Rule, w: Window, now: nat)
    requires w != map[]
    ensures exists id :: IsBest(rule, w, now, id)
    decreases |w|
  {
    var k :| k in w;
    var rest := w - {k};
    assert |rest| < |w| by { assert w.Keys == rest.Keys + {k}; }
    if rest == map[] {
      assert forall other :: other in w ==> other == k by {
        forall other | other in w ensures other == k { assert other != k ==> other in rest; }
      }
      assert IsBest(rule, w, now, k);
    } else {
      BestExists(rule, rest, now);
      var b :| IsBest(rule, rest, now, b);
      assert forall other :: other in w && other != k ==> other in rest;
      if Before(rule, now, b, w[b], k, w[k]) {
        assert IsBest(rule, w, now, b);
      } else {
        assert IsBest(rule, w, now, k);
      }
    }
  }

  /** The victim a rule names. */
  ghost function Victim(rule: Rule, w: Window, now: nat): (r: Option<ObjectId>)
    ensures r.Some? ==> r.value in w
  {
    if rule == Demand || w == map[] then None
    else
      BestExists(rule, w, now);
      var id :| IsBest(rule, w, now, id);
      Some(id)
  }

  ghost function PickOf(rule: Rule): Pick {
    (w: Window, now: nat, wanted: nat) => Victim(rule, w, now)
  }

  /** There is only one best resident, so no order of enumeration shows. */
  lemma BestIsVictim(rule: Rule, w: Window, now: nat, id: ObjectId)
    requires rule != Demand && IsBest(rule, w, now, id)
    ensures Victim(rule, w, now) == Some(id)
  {
    var other := Victim(rule, w, now).value;
    assert IsBest(rule, w, now, other);
    assert Before(rule, now, id, w[id], other, w[other]);
  }

  /** A policy that names a resident whenever there is one. */
  ghost predicate AlwaysNames(pick: Pick) {
    forall w: Window, now, wanted :: w != map[] ==> pick(w, now, wanted).Some? && pick(w, now, wanted).value in w
  }

  lemma RulesName(rule: Rule)
    requires rule != Demand
    ensures AlwaysNames(PickOf(rule))
  {
    forall w: Window, now, wanted | w != map[]
      ensures PickOf(rule)(w, now, wanted).Some? && PickOf(rule)(w, now, wanted).value in w
    {
      assert PickOf(rule)(w, now, wanted) == Victim(rule, w, now);
    }
  }

  // ----- what the victim is, on the entries themselves -----

  /** Fields as wide as the table holds them. */
  predicate Narrow(m: Meta) {
    && m.reloadCost <= U32_MAX && m.recomputeCost <= U32_MAX && m.shareCount <= U16_MAX
    && (m.nextUse.At? ==> m.nextUse.position <= U32_MAX)
  }

  /** How many steps away a next use is taken to be: what is left of a known
      one; half the expected wait of one that is only likely, its chance being
      out of 65535; 2^40 of none, and half of that of one with no chance. */
  predicate StepsAway(next: NextUse, now: nat, steps: nat) {
    match next
    case At(position) => steps == Max(position - now, 0)
    case Never => steps == 0x100_0000_0000
    case Probability(chance) =>
      if chance == 0 then 2 * steps == 0x100_0000_0000
      else 2 * chance * steps <= 65535 < 2 * chance * (steps + 1)
  }

  /** The lesser of the two ways to get an object back, or one. */
  predicate CheaperWay(m: Meta, cost: nat) {
    if cost == 1 then m.reloadCost <= 1 || m.recomputeCost <= 1
    else
      && 1 < cost <= m.reloadCost && cost <= m.recomputeCost
      && (cost == m.reloadCost || cost == m.recomputeCost)
  }

  /** Millionths of a step per unit of cost, once for each holder, rounded down. */
  predicate Rated(steps: nat, cost: nat, m: Meta, rate: nat) {
    var each := cost * Max(m.shareCount, 1);
    each * rate <= steps * 1_000_000 < each * (rate + 1)
  }

  ghost predicate Rates(m: Meta, now: nat, rate: nat) {
    exists steps: nat, cost: nat :: StepsAway(m.nextUse, now, steps) && CheaperWay(m, cost) && Rated(steps, cost, m, rate)
  }

  lemma HorizonIs(next: NextUse, now: nat, steps: nat)
    ensures StepsAway(next, now, steps) <==> steps == Horizon(next, now)
  {
    if next.Probability? && next.chance != 0 {
      var q, h := U16_MAX / next.chance, Horizon(next, now);
      QuotientWithin(U16_MAX, next.chance);
      QuotientWithin(q, 2);
      HalvedQuotient(next.chance, q, h, steps);
    }
  }

  lemma QuotientWithin(a: nat, b: nat)
    requires b > 0
    ensures b * (a / b) <= a < b * (a / b + 1)
  {}

  /** Halving a rounded quotient is dividing by twice as much. */
  lemma HalvedQuotient(c: nat, q: nat, h: nat, steps: nat)
    requires c > 0 && c * q <= U16_MAX < c * (q + 1) && 2 * h <= q < 2 * (h + 1)
    ensures 2 * c * steps <= U16_MAX < 2 * c * (steps + 1) <==> steps == h
  {
    if steps == h {
      ScaledOrder(c, 2 * h, q);
      ScaledOrder(c, q + 1, 2 * (h + 1));
    } else if steps < h {
      ScaledOrder(c, 2 * (steps + 1), q);
    } else {
      ScaledOrder(c, q + 1, 2 * steps);
    }
  }

  lemma ScaledOrder(c: nat, a: nat, b: nat)
    requires a <= b
    ensures c * a <= c * b
  {
    assert c * b == c * a + c * (b - a);
  }

  lemma RecoveryIs(m: Meta, cost: nat)
    ensures CheaperWay(m, cost) <==> cost == Recovery(See(m))
  {}

  lemma RatedOnce(steps: nat, cost: nat, m: Meta, rate: nat)
    requires cost > 0
    ensures cost * Max(m.shareCount, 1) > 0
    ensures Rated(steps, cost, m, rate) <==> rate == steps * 1_000_000 / (cost * Max(m.shareCount, 1))
  {
    var each, all := cost * Max(m.shareCount, 1), steps * 1_000_000;
    ScaledOrder(cost, 1, Max(m.shareCount, 1));
    QuotientWithin(all, each);
    if rate < all / each { ScaledOrder(each, rate + 1, all / each); }
    if rate > all / each { ScaledOrder(each, all / each + 1, rate); }
  }

  /** At the table's widths nothing saturates: the score is the rate. */
  lemma EvictabilityIs(m: Meta, now: nat, rate: nat)
    requires Narrow(m)
    ensures Rates(m, now, rate) <==> rate == Evictability(See(m), now)
  {
    hide StepsAway, CheaperWay, Rated, Horizon, Recovery;
    var steps, cost := Horizon(m.nextUse, now), Recovery(See(m));
    WidthsFit(m, now);
    HorizonIs(m.nextUse, now, steps);
    RecoveryIs(m, cost);
    RatedOnce(steps, cost, m, rate);
    if Rates(m, now, rate) {
      var s: nat, c: nat :| StepsAway(m.nextUse, now, s) && CheaperWay(m, c) && Rated(s, c, m, rate);
      HorizonIs(m.nextUse, now, s);
      RecoveryIs(m, c);
    }
  }

  lemma WidthsFit(m: Meta, now: nat)
    requires Narrow(m)
    ensures SatMul(Horizon(m.nextUse, now), SCALE, U64_MAX) == Horizon(m.nextUse, now) * 1_000_000
    ensures SatMul(Recovery(See(m)), See(m).holders, U64_MAX) == Recovery(See(m)) * Max(m.shareCount, 1)
  {
    assert Horizon(m.nextUse, now) <= 0x100_0000_0000 by {
      if m.nextUse.Probability? && m.nextUse.chance != 0 { QuotientWithin(U16_MAX, m.nextUse.chance); }
    }
    ProductFits(Recovery(See(m)), See(m).holders);
  }

  lemma ProductFits(a: nat, b: nat)
    requires a <= U32_MAX && b <= U16_MAX
    ensures a * b <= U64_MAX
  {
    ScaledOrder(a, b, U16_MAX);
    ScaledOrder(U16_MAX, a, U32_MAX);
  }

  /** `v` goes before `c`, on the fields of their entries. */
  ghost predicate GoesBefore(rule: Rule, now: nat, v: ObjectId, m: Meta, c: ObjectId, n: Meta) {
    match rule
    case Demand => false
    case Fifo => m.placedTick < n.placedTick || (m.placedTick == n.placedTick && v <= c)
    case Lru => m.usedTick < n.usedTick || (m.usedTick == n.usedTick && v <= c)
    case KnownNextUse => forall x, y :: Rates(m, now, x) && Rates(n, now, y) ==> x > y || (x == y && v <= c)
  }

  /** The victim, on the residents' own fields: placed first under FIFO, used
      longest ago under LRU, and under next-use the one wanted the most steps
      away for what it costs, by its cheaper way, to give back to all who hold
      it; of equals the lower id. Demand names nobody. */
  lemma VictimExactly(rule: Rule, objects: map<ObjectId, Meta>, now: nat, v: ObjectId)
    requires forall id :: id in objects && objects[id].Resident() ==> Narrow(objects[id])
    ensures Victim(rule, Residents(objects), now) == Some(v) <==>
      rule != Demand && v in objects && objects[v].Resident()
      && forall c :: c in objects && objects[c].Resident() ==> GoesBefore(rule, now, v, objects[v], c, objects[c])
  {
    hide Evictability, Rates;
    var w := Residents(objects);
    forall a, b | a in w && b in w
      ensures rule != Demand ==> (Before(rule, now, a, w[a], b, w[b]) <==> GoesBefore(rule, now, a, objects[a], b, objects[b]))
    {
      EvictabilityIs(objects[a], now, Evictability(w[a], now));
      EvictabilityIs(objects[b], now, Evictability(w[b], now));
      forall x, y ensures Rates(objects[a], now, x) && Rates(objects[b], now, y) ==>
        x == Evictability(w[a], now) && y == Evictability(w[b], now)
      {
        if x >= 0 { EvictabilityIs(objects[a], now, x); }
        if y >= 0 { EvictabilityIs(objects[b], now, y); }
      }
    }
    if rule != Demand && v in w && IsBest(rule, w, now, v) { BestIsVictim(rule, w, now, v); }
  }

  // ----- the scans -----

  /** An enumeration of the resident set: some slots empty, any order. */
  type Listing = seq<Option<(ObjectId, Meta)>>

  ghost predicate Shows(held: Listing, w: Window) {
    && (forall i :: 0 <= i < |held| && held[i].Some? ==>
          held[i].value.0 in w && w[held[i].value.0] == See(held[i].value.1))
    && forall id :: id in w ==> exists i :: 0 <= i < |held| && held[i].Some? && held[i].value.0 == id
  }

  /** The best of the first `n` entries, as a scan holds it. */
  ghost predicate BestSoFar(rule: Rule, held: Listing, now: nat, n: nat, best: Option<(ObjectId, int)>)
    requires n <= |held|
  {
    && (best.None? ==> forall i :: 0 <= i < n ==> held[i].None?)
    && (best.Some? ==>
          && (exists i :: 0 <= i < n && held[i].Some? && held[i].value.0 == best.value.0
                && Score(rule, See(held[i].value.1), now) == best.value.1)
          && forall i :: 0 <= i < n && held[i].Some? ==>
               var score := Score(rule, See(held[i].value.1), now);
               best.value.1 < score || (best.value.1 == score && best.value.0 <= held[i].value.0))
  }

  lemma BestSoFarIsVictim(rule: Rule, held: Listing, w: Window, now: nat, best: Option<(ObjectId, int)>)
    requires rule != Demand && Shows(held, w) && BestSoFar(rule, held, now, |held|, best)
    ensures Victim(rule, w, now) == match best case None => None case Some(b) => Some(b.0)
  {
    if best.None? {
      assert w == map[];
    } else {
      var i :| 0 <= i < |held| && held[i].Some? && held[i].value.0 == best.value.0
        && Score(rule, See(held[i].value.1), now) == best.value.1;
      forall other | other in w ensures Before(rule, now, best.value.0, w[best.value.0], other, w[other]) {
        var j :| 0 <= j < |held| && held[j].Some? && held[j].value.0 == other;
      }
      BestIsVictim(rule, w, now, best.value.0);
    }
  }

  /** The resident with the least tick: `Oldest::victim`, reading the
      placement clock for FIFO and the use clock for LRU. */
  method Oldest(rule: Rule, held: Listing, ghost w: Window, now: nat) returns (r: Option<ObjectId>)
    requires (rule == Fifo || rule == Lru) && Shows(held, w)
    ensures r == Victim(rule, w, now)
  {
    var oldest: Option<(ObjectId, nat)> := None;
    for index := 0 to |held|
      invariant BestSoFar(rule, held, now, index,
        match oldest case None => None case Some(b) => Some((b.0, b.1)))
    {
      if held[index].Some? {
        var (id, meta) := held[index].value;
        var tick := if rule == Fifo then meta.placedTick else meta.usedTick;
        if oldest.None? || tick < oldest.value.1 || (tick == oldest.value.1 && id < oldest.value.0) {
          oldest := Some((id, tick));
        }
      }
    }
    BestSoFarIsVictim(rule, held, w, now, match oldest case None => None case Some(b) => Some((b.0, b.1)));
    r := match oldest case None => None case Some(b) => Some(b.0);
  }

  /** The most evictable resident: `KnownNextUse::victim`. */
  method MostEvictable(held: Listing, ghost w: Window, now: nat) returns (r: Option<ObjectId>)
    requires Shows(held, w)
    ensures r == Victim(KnownNextUse, w, now)
  {
    var best: Option<(ObjectId, int)> := None;
    for index := 0 to |held|
      invariant BestSoFar(KnownNextUse, held, now, index,
        match best case None => None case Some(b) => Some((b.0, -b.1)))
    {
      if held[index].Some? {
        var (id, meta) := held[index].value;
        var score := Evictability(See(meta), now);
        if best.None? || score > best.value.1 || (score == best.value.1 && id < best.value.0) {
          best := Some((id, score));
        }
      }
    }
    BestSoFarIsVictim(KnownNextUse, held, w, now, match best case None => None case Some(b) => Some((b.0, -b.1)));
    r := match best case None => None case Some(b) => Some(b.0);
  }

  /** `Policy::victim`, whichever policy it is. */
  method Choose(rule: Rule, held: Listing, ghost w: Window, now: nat, wanted: nat) returns (r: Option<ObjectId>)
    requires Shows(held, w)
    ensures r == PickOf(rule)(w, now, wanted)
  {
    match rule {
      case Demand => r := None;
      case KnownNextUse => r := MostEvictable(held, w, now);
      case _ => r := Oldest(rule, held, w, now);
    }
  }
}
