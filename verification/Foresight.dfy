/** Next-use is the truth: after every access of a replay, the simulator's or
    the kernel's, each resident's stored next use is the tick of its next access
    in the trace. */
module Foresight {
  import opened Basics
  import opened Abi
  import opened MetaModel
  import opened SessionModel
  import opened PolicyModel
  import opened StreamModel
  import opened Kernel
  import S = Simulation
  import R = KernelReplay

  /** The tick of the first access to `id` at or after position `at`. */
  function NextAccess(objects: seq<ObjectId>, id: ObjectId, at: nat): NextUse {
    match FirstFrom(objects, id, at)
    case None => Never
    case Some(p) => At(p + 1)
  }

  /** Every resident's stored next use is its next access from `at` on. */
  ghost predicate Truthful(r: S.Residence, objects: seq<ObjectId>, at: nat) {
    forall id :: id in r.held ==> r.held[id].nextUse == NextAccess(objects, id, at)
  }

  /** `s` is `r` with some residents gone and the rest as they were. */
  ghost predicate Fewer(r: S.Residence, s: S.Residence) {
    && (forall id :: id in s.held ==> id in r.held && s.held[id] == r.held[id])
    && s.cursor == r.cursor
  }

  lemma {:induction false} MakeRoomFewer(r: S.Residence, pick: Pick, size: nat)
    ensures Fewer(r, S.MakeRoom(r, pick, size).0)
    decreases |r.held|
  {
    var v := pick(S.Window(r.held), r.cursor, size);
    if !r.region.Fits(size) && v.Some? && S.Remove(r, v.value).Ok? {
      S.RemoveShrinks(r, v.value);
      MakeRoomFewer(S.Remove(r, v.value).value, pick, size);
    }
  }

  lemma ChainIsTruth(objects: seq<ObjectId>, next: seq<nat>, at: nat)
    requires Chained(objects, next) && at < |objects| < U32_MAX
    ensures S.WantedAt(next, at + 1) == NextAccess(objects, objects[at], at + 1)
  {
    assert next[at] == Link(FirstFrom(objects, objects[at], at + 1));
  }

  /** One access, under any policy and budget, keeps it so. */
  lemma StepTruthful(r: S.Residence, out: S.Outcome, run: S.Setting, objects: seq<ObjectId>, at: nat)
    requires Chained(objects, run.next) && at < |objects| < U32_MAX && (objects[at] in r.held ==> run.model(objects[at]).Some?)
    requires Truthful(r, objects, at)
    ensures Truthful(S.Step(r, out, run, objects[at], at + 1).0, objects, at + 1)
  {
    var id := objects[at];
    ChainIsTruth(objects, run.next, at);
    forall other | other in r.held && other != id
      ensures NextAccess(objects, other, at) == NextAccess(objects, other, at + 1) {}
    hide NextAccess, S.MakeRoom, S.WantedAt;
    if id !in r.held && run.model(id).Some? {
      MakeRoomFewer(r.(cursor := at + 1), run.pick, run.model(id).value.size);
    }
  }

  /** Everything held was sized by the model. */
  ghost predicate Modelled(r: S.Residence, run: S.Setting) { forall id :: id in r.held ==> run.model(id).Some? }

  lemma StepModelled(r: S.Residence, out: S.Outcome, run: S.Setting, id: ObjectId, now: nat)
    requires Modelled(r, run)
    ensures Modelled(S.Step(r, out, run, id, now).0, run)
  {
    hide S.MakeRoom;
    if id !in r.held && run.model(id).Some? { MakeRoomFewer(r.(cursor := now), run.pick, run.model(id).value.size); }
  }

  /** For every trace, policy, budget and model, and every `n`: `n` accesses
      into a replay, each resident's stored next use is its next access in what
      is left of the trace. */
  lemma {:induction false} ReplayTruthful(run: S.Setting, objects: seq<ObjectId>, base: nat, budget: nat, n: nat)
    requires Chained(objects, run.next) && n <= |objects| < U32_MAX
    ensures var (r, out) := S.ReplayTo(S.Nothing(base, budget), S.NOTHING, run, objects, n);
      && Truthful(r, objects, n) && Modelled(r, run)
      && S.ReplayFrom(r, out, run, objects, n).1 == S.Replay(run, objects, base, budget)
  {
    hide S.Step, NextAccess, S.ReplayFrom;
    S.ReplayedTo(S.Nothing(base, budget), S.NOTHING, run, objects, n);
    if n > 0 {
      ReplayTruthful(run, objects, base, budget, n - 1);
      var (r, out) := S.ReplayTo(S.Nothing(base, budget), S.NOTHING, run, objects, n - 1);
      StepTruthful(r, out, run, objects, n - 1);
      StepModelled(r, out, run, objects[n - 1], n);
    }
  }

  // ----- the kernel -----

  type Objects = map<ObjectId, Meta>

  /** Every resident decodes, and its stored next use is its next access. */
  ghost predicate Foresees(table: Objects, objects: seq<ObjectId>, at: nat) {
    forall id :: id in table && table[id].Resident() ==>
      ClassOf(id).Some? && table[id].nextUse == NextAccess(objects, id, at)
  }

  /** Nobody newly resident, and nobody's next use rewritten. */
  ghost predicate NoneCame(a: Objects, b: Objects) {
    forall id :: id in b && b[id].Resident() ==> id in a && a[id].Resident() && b[id].nextUse == a[id].nextUse
  }

  lemma NoneCameTwice(a: Objects, b: Objects, c: Objects)
    ensures NoneCame(a, a)
    ensures NoneCame(a, b) && NoneCame(b, c) ==> NoneCame(a, c)
  {}

  lemma EvictNoneCame(s: State, id: ObjectId)
    requires Counted(s)
    ensures NoneCame(s.objects, Evict(s, id).0.objects)
  {}

  lemma {:induction false} RoomNoneCame(s: State, pick: Pick, size: nat)
    requires Counted(s)
    ensures NoneCame(s.objects, MakeRoom(s, pick, size).objects)
    decreases |ResidentIds(s.objects)|
  {
    hide Evict, NoneCame;
    NoneCameTwice(s.objects, s.objects, s.objects);
    var v := pick(Residents(s.objects), s.clock, size);
    if !s.region.Fits(size) && v.Some? {
      EvictNoneCame(s, v.value);
      var t := Evict(s, v.value).0;
      if Evict(s, v.value).1.Ok? {
        EvictShrinks(s, v.value);
        RoomNoneCame(t, pick, size);
        NoneCameTwice(s.objects, t.objects, MakeRoom(t, pick, size).objects);
      }
    }
  }

  /** At most `id` is newly resident or rewritten, and then wanted when told. */
  ghost predicate OneCame(a: Objects, b: Objects, id: ObjectId, wanted: NextUse) {
    && NoneCame(a, b - {id})
    && (id in b && b[id].Resident() ==> ClassOf(id).Some? && b[id].nextUse == wanted)
  }

  lemma PlaceCame(s: State, w: World, id: ObjectId, size: nat, lease: Lease, wanted: NextUse)
    requires Counted(s) && (id in s.objects ==> !s.objects[id].Resident())
    ensures OneCame(s.objects, Place(s, w, id, size, lease, wanted).0.objects, id, wanted)
  {}

  lemma AdmitCame(s: State, w: World, id: ObjectId, lease: Lease, wanted: NextUse)
    requires Counted(s) && (id in s.objects ==> !s.objects[id].Resident())
    ensures OneCame(s.objects, Admit(s, w, id, lease, wanted).0.objects, id, wanted)
  {
    hide MakeRoom, Place, Charge, Credit;
    if id in s.objects {
      var m := s.objects[id];
      var charged := Charge(s.sessions, m.owner, m.size, m.precision);
      if charged.Ok? {
        var paid := s.(sessions := charged.value);
        var roomy := MakeRoom(paid, w.pick, m.size);
        RoomNoneCame(paid, w.pick, m.size);
        PlaceCame(roomy, w, id, m.size, lease, wanted);
      }
    }
  }

  /** Whatever comes of consuming an object, nothing else becomes resident. */
  lemma ConsumeCame(s: State, w: World, id: ObjectId, wanted: NextUse)
    requires Counted(s) && (id in s.objects && s.objects[id].Resident() ==> ClassOf(id).Some?)
    ensures OneCame(s.objects, Consume(s, w, id, wanted).0.objects, id, wanted)
  {
    hide Admit;
    if id !in s.objects || !s.objects[id].Resident() { AdmitCame(Tick(s), w, id, Streaming, wanted); }
  }

  lemma CameForesees(a: Objects, b: Objects, objects: seq<ObjectId>, at: nat)
    requires at < |objects| && Foresees(a, objects, at)
    requires OneCame(a, b, objects[at], WantedAfter(objects, at, objects[at]))
    ensures Foresees(b, objects, at + 1)
  {
    forall id | id in b && b[id].Resident()
      ensures ClassOf(id).Some? && b[id].nextUse == NextAccess(objects, id, at + 1)
    {
      if id != objects[at] {
        assert id in b - {objects[at]};
        assert NextAccess(objects, id, at) == NextAccess(objects, id, at + 1);
      }
    }
  }

  /** One access through the manager, served or refused, keeps it so. */
  lemma KernelStepForesees(s: State, vacant: nat, out: R.Replayed, w: World, model: ObjectId -> Meta,
                           objects: seq<ObjectId>, at: nat)
    requires Counted(s) && at < |objects| && Foresees(s.objects, objects, at) && !model(objects[at]).Resident()
    ensures var t := R.Step(s, vacant, out, w, model, objects[at], WantedAfter(objects, at, objects[at])).0;
      Foresees(t.objects, objects, at + 1)
  {
    hide Consume, NextAccess, WantedAfter, ClassOf;
    var id := objects[at];
    var wanted := WantedAfter(objects, at, id);
    if id in s.objects || vacant > 0 {
      var known := if id in s.objects then s else Register(s, id, model(id));
      ConsumeCame(known, w, id, wanted);
      CameForesees(known.objects, Consume(known, w, id, wanted).0.objects, objects, at);
    } else {
      assert OneCame(s.objects, s.objects, id, wanted);
      CameForesees(s.objects, s.objects, objects, at);
    }
  }

  /** The same of the kernel: for every trace and every `n`, whatever the
      policy, the sessions' ceilings, the vacant slots, the providers attached
      and the reads that fail, `n` accesses into a replay each resident's next
      use in the table is its next access in what is left of the trace. */
  lemma {:induction false} KernelTruthful(s: State, vacant: nat, w: World, model: ObjectId -> Meta,
                                          objects: seq<ObjectId>, n: nat)
    requires Counted(s) && ResidentIds(s.objects) == {} && n <= |objects|
    requires forall id :: id in objects ==> !model(id).Resident()
    ensures var (t, left, out) := R.ReplayTo(s, vacant, R.NOTHING, w, model, objects, n);
      && (forall id :: id in t.objects && t.objects[id].Resident() ==> t.objects[id].nextUse == NextAccess(objects, id, n))
      && Foresees(t.objects, objects, n)
      && R.ReplayFrom(t, left, out, w, model, objects, n) == R.ReplayFrom(s, vacant, R.NOTHING, w, model, objects, 0)
  {
    hide R.Step, NextAccess, WantedAfter, R.ReplayFrom, ClassOf;
    R.ReplayedTo(s, vacant, R.NOTHING, w, model, objects, n);
    if n == 0 {
      forall id | id in s.objects ensures !s.objects[id].Resident() { assert id !in ResidentIds(s.objects); }
    } else {
      KernelTruthful(s, vacant, w, model, objects, n - 1);
      var (t, left, out) := R.ReplayTo(s, vacant, R.NOTHING, w, model, objects, n - 1);
      KernelStepForesees(t, left, out, w, model, objects, n - 1);
    }
  }
}
