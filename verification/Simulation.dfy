/** The simulator's machine as a value: what one replay in progress makes of
    its resident set and its counts. Simulator.dfy is proved to compute it. */
module Simulation {
  import opened Basics
  import opened Abi
  import opened MetaModel
  import opened ArenaModel
  import opened PolicyModel
  import opened StreamModel

  /** What is in memory, over a real arena, and where the replay has got to. */
  datatype Residence = Residence(held: map<ObjectId, Meta>, region: Region, cursor: nat)

  datatype Outcome = Outcome(
    hits: nat,
    fetches: nat,
    bytes: nat,
    evicted: nat,
    refused: nat,
    cost: nat,
    mismatched: nat)

  const NOTHING := Outcome(0, 0, 0, 0, 0, 0, 0)

  /** A replay's fixed part: what the objects are, who is to go, and the
      links of the trace. */
  datatype Setting = Setting(model: ObjectId -> Option<Meta>, pick: Pick, next: seq<nat>)

  function Nothing(base: nat, budget: nat): Residence { Residence(map[], Empty(base, budget), 0) }

  /** The whole resident set, as the policy's window. */
  function Window(held: map<ObjectId, Meta>): PolicyModel.Window { map id | id in held :: See(held[id]) }

  /** `wanted_at`: the chain read at a one-based tick. */
  function WantedAt(next: seq<nat>, tick: nat): NextUse {
    if tick == 0 || tick - 1 >= |next| || next[tick - 1] == NEVER then Never else At(next[tick - 1] + 1)
  }

  /** `Resident::touch`. */
  function Touch(r: Residence, id: ObjectId, now: nat, next: NextUse): (Residence, bool) {
    var s := r.(cursor := now);
    if id !in r.held then (s, false)
    else
      var m := r.held[id];
      (s.(held := r.held[id := m.(usedTick := now, reuseCount := SatAdd(m.reuseCount, 1, U16_MAX), nextUse := next)]),
       true)
  }

  /** `Resident::insert`. */
  function Insert(r: Residence, id: ObjectId, meta: Meta, now: nat, next: NextUse): (Residence, bool) {
    var s := r.(cursor := now);
    match r.region.Place(meta.size)
    case None => (s, false)
    case Some((address, region)) =>
      (s.(region := region,
          held := r.held[id := meta.(residentAt := address, placedTick := now, usedTick := now, nextUse := next,
                                     reuseCount := SatAdd(meta.reuseCount, 1, U16_MAX))]),
       true)
  }

  /** `Resident::remove`. */
  function Remove(r: Residence, id: ObjectId): Result<Residence> {
    if id !in r.held then Err(BadObject)
    else match r.region.Release(r.held[id].residentAt, r.held[id].size)
      case Err(why) => Err(why)
      case Ok(region) => Ok(r.(region := region, held := r.held - {id}))
  }

  lemma RemoveShrinks(r: Residence, id: ObjectId)
    requires Remove(r, id).Ok?
    ensures |Remove(r, id).value.held| == |r.held| - 1
  {
    assert r.held.Keys == Remove(r, id).value.held.Keys + {id};
  }

  /** `Run::make_room`, and how many it evicted. */
  ghost function MakeRoom(r: Residence, pick: Pick, size: nat): (Residence, nat)
    decreases |r.held|
  {
    if r.region.Fits(size) then (r, 0)
    else match pick(Window(r.held), r.cursor, size)
      case None => (r, 0)
      case Some(victim) =>
        match Remove(r, victim)
        case Err(_) => (r, 0)
        case Ok(s) =>
          RemoveShrinks(r, victim);
          var (t, n) := MakeRoom(s, pick, size);
          (t, n + 1)
  }

  /** `Run::fetch`: victims as long as they are needed and named, then a
      placement or a refusal. */
  ghost function Fetch(r: Residence, out: Outcome, pick: Pick, id: ObjectId, meta: Meta, now: nat, next: NextUse)
    : (Residence, Outcome)
  {
    var (roomy, evicted) := MakeRoom(r, pick, meta.size);
    var counted := out.(evicted := out.evicted + evicted);
    var (s, placed) := Insert(roomy, id, meta, now, next);
    if placed
    then (s, counted.(fetches := out.fetches + 1, bytes := out.bytes + meta.size, cost := out.cost + meta.reloadCost))
    else (s, counted.(refused := out.refused + 1))
  }

  /** `Run::step`: one access. */
  ghost function Step(r: Residence, out: Outcome, run: Setting, id: ObjectId, now: nat): (Residence, Outcome) {
    match run.model(id)
    case None => (r, out.(mismatched := out.mismatched + 1))
    case Some(meta) =>
      var next := WantedAt(run.next, now);
      var (touched, hit) := Touch(r, id, now, next);
      if hit then (touched, out.(hits := out.hits + 1))
      else Fetch(touched, out, run.pick, id, meta, now, next)
  }

  /** The accesses from position `at` on. */
  ghost function ReplayFrom(r: Residence, out: Outcome, run: Setting, objects: seq<ObjectId>, at: nat): (Residence, Outcome)
    decreases |objects| - at
  {
    if at >= |objects| then (r, out)
    else
      var (s, counted) := Step(r, out, run, objects[at], at + 1);
      ReplayFrom(s, counted, run, objects, at + 1)
  }

  /** The first `n` accesses. */
  ghost function ReplayTo(r: Residence, out: Outcome, run: Setting, objects: seq<ObjectId>, n: nat): (Residence, Outcome)
    requires n <= |objects|
  {
    if n == 0 then (r, out)
    else
      var (s, counted) := ReplayTo(r, out, run, objects, n - 1);
      Step(s, counted, run, objects[n - 1], n)
  }

  /** What is left of a replay after its first `n` accesses. */
  lemma {:induction false} ReplayedTo(r: Residence, out: Outcome, run: Setting, objects: seq<ObjectId>, n: nat)
    requires n <= |objects|
    ensures var (s, counted) := ReplayTo(r, out, run, objects, n);
      ReplayFrom(s, counted, run, objects, n) == ReplayFrom(r, out, run, objects, 0)
  {
    hide Step;
    if n > 0 { ReplayedTo(r, out, run, objects, n - 1); }
  }

  /** `replay`: the whole trace, from nothing, under `budget` bytes. */
  ghost function Replay(run: Setting, objects: seq<ObjectId>, base: nat, budget: nat): Outcome {
    ReplayFrom(Nothing(base, budget), NOTHING, run, objects, 0).1
  }
}
