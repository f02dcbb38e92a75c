/** The session slots as a value: who is live, under which contract, charged
    how much, and what was delivered. */
module SessionModel {
  import opened Basics
  import opened Abi
  import opened MetaModel

  /** The number of slots. */
  const MAX_SESSIONS: nat := 16

  datatype Contract = Contract(
    qualityFloor: Precision,
    latencyCeiling: nat,
    residentCeiling: nat,
    context: nat)
  {
    /** No coarser than the floor. */
    predicate Permits(p: Precision) { p.Rank() <= qualityFloor.Rank() }
  }

  datatype Delivered = Delivered(
    coarsest: Precision,
    worstPeriod: nat,
    peakResident: nat,
    deepest: Rung,
    recomputed: nat)

  const NOTHING_DELIVERED := Delivered(Fp16, 0, 0, L0, 0)

  datatype Session = Session(
    id: SessionId,
    contract: Contract,
    resident: nat,
    delivered: Delivered,
    rung: Rung)

  type Slots = seq<Option<Session>>

  /** The first slot holding `id`. */
  function FindAt(slots: Slots, id: SessionId): (r: Option<nat>)
    ensures r.Some? ==> r.value < |slots| && slots[r.value].Some? && slots[r.value].value.id == id
    ensures r.None? ==> forall i :: 0 <= i < |slots| && slots[i].Some? ==> slots[i].value.id != id
  {
    if slots == [] then None
    else if slots[0].Some? && slots[0].value.id == id then Some(0)
    else match FindAt(slots[1..], id)
      case None => assert forall i :: 0 < i < |slots| ==> slots[i] == slots[1..][i - 1]; None
      case Some(i) => Some(i + 1)
  }

  /** No two live sessions share an id, and zero is nobody's. */
  ghost predicate DistinctIds(slots: Slots) {
    && (forall i :: 0 <= i < |slots| && slots[i].Some? ==> slots[i].value.id != 0)
    && (forall i, j :: 0 <= i < |slots| && 0 <= j < |slots| && SameSession(slots[i], slots[j]) ==> i == j)
  }

  predicate SameSession(a: Option<Session>, b: Option<Session>) {
    a.Some? && b.Some? && a.value.id == b.value.id
  }

  lemma FindIs(slots: Slots, i: nat)
    requires DistinctIds(slots) && i < |slots| && slots[i].Some?
    ensures FindAt(slots, slots[i].value.id) == Some(i)
  {}

  ghost predicate Known(slots: Slots, id: SessionId) { FindAt(slots, id).Some? }

  /** The live session `id`. */
  function Get(slots: Slots, id: SessionId): Session
    requires FindAt(slots, id).Some?
  {
    slots[FindAt(slots, id).value].value
  }

  /** Counts `size` bytes at `precision` for `owner`, unless they would pass
      its ceiling. Unknown owners are allowed and uncounted. */
  function Charge(slots: Slots, owner: SessionId, size: nat, precision: Precision): Result<Slots> {
    match FindAt(slots, owner)
    case None => Ok(slots)
    case Some(i) =>
      var s := slots[i].value;
      var ceiling, after := s.contract.residentCeiling, s.resident + size;
      if ceiling != 0 && after > ceiling then Err(Refused)
      else Ok(slots[i := Some(s.(resident := after, delivered := s.delivered.(
        peakResident := Max(s.delivered.peakResident, after),
        coarsest := if precision.Rank() > s.delivered.coarsest.Rank() then precision else s.delivered.coarsest)))])
  }

  /** A session begun is charged nothing and has been delivered nothing: no rung
      down, no period, no bytes read, the finest precision there is; and its slot
      is the only one written. */
  lemma BegunAfresh(slots: Slots, contract: Contract)
    requires Create(slots, contract).Ok?
    ensures var (id, after) := Create(slots, contract).value;
      exists i :: 0 <= i < |slots| && slots[i].None? && after == slots[i := after[i]] && after[i].Some?
        && var s := after[i].value;
           && s.id == id && s.contract == contract && s.resident == 0 && s.rung == L0
           && s.delivered.peakResident == s.delivered.worstPeriod == s.delivered.recomputed == 0
           && s.delivered.deepest == L0 && forall p: Precision :: s.delivered.coarsest.Rank() <= p.Rank()
  {
    var after := Create(slots, contract).value.1;
    var i := FreeSlot(slots).value;
    assert slots[i].None? && after == slots[i := after[i]];
  }

  /** What a charge delivers: the peak is raised to the account if that is more,
      the coarsest precision to this one if it is coarser, and nothing else. */
  lemma ChargeDelivers(slots: Slots, owner: SessionId, size: nat, precision: Precision)
    requires FindAt(slots, owner).Some? && Charge(slots, owner, size, precision).Ok?
    ensures var i := FindAt(slots, owner).value;
      var s, after := slots[i].value, Charge(slots, owner, size, precision).value;
      && |after| == |slots| && (forall j :: 0 <= j < |slots| && j != i ==> after[j] == slots[j]) && after[i].Some?
      && var t := after[i].value;
         && t.id == s.id && t.contract == s.contract && t.rung == s.rung && t.resident == s.resident + size
         && t.delivered.peakResident == Max(s.delivered.peakResident, t.resident)
         && t.delivered.coarsest.Rank() == Max(s.delivered.coarsest.Rank(), precision.Rank())
         && t.delivered.worstPeriod == s.delivered.worstPeriod && t.delivered.deepest == s.delivered.deepest
         && t.delivered.recomputed == s.delivered.recomputed
  {}

  /** What a period delivers. */
  lemma TookDelivers(slots: Slots, owner: SessionId, period: nat)
    requires FindAt(slots, owner).Some?
    ensures var i := FindAt(slots, owner).value;
      var s, after := slots[i].value, Took(slots, owner, period);
      && |after| == |slots| && (forall j :: 0 <= j < |slots| && j != i ==> after[j] == slots[j]) && after[i].Some?
      && after[i].value.delivered.worstPeriod >= period && after[i].value.delivered.worstPeriod >= s.delivered.worstPeriod
      && (after[i].value.delivered.worstPeriod == period || after[i] == slots[i])
      && after[i].value == s.(delivered := s.delivered.(worstPeriod := after[i].value.delivered.worstPeriod))
  {}

  /** An account, `size` bytes less; saturating. */
  function Credit(slots: Slots, owner: SessionId, size: nat): Slots {
    match FindAt(slots, owner)
    case None => slots
    case Some(i) => slots[i := Some(slots[i].value.(resident := SatSub(slots[i].value.resident, size)))]
  }

  /** Keeps the worst token period. */
  function Took(slots: Slots, owner: SessionId, period: nat): Slots {
    match FindAt(slots, owner)
    case None => slots
    case Some(i) =>
      var s := slots[i].value;
      slots[i := Some(s.(delivered := s.delivered.(worstPeriod := Max(s.delivered.worstPeriod, period))))]
  }

  /** The first slot with no session in it. */
  function FreeSlot(slots: Slots): (r: Option<nat>)
    ensures r.Some? ==> r.value < |slots| && slots[r.value].None?
    ensures r.None? ==> forall i :: 0 <= i < |slots| ==> slots[i].Some?
  {
    if slots == [] then None
    else if slots[0].None? then Some(0)
    else match FreeSlot(slots[1..])
      case None => assert forall i :: 0 < i < |slots| ==> slots[i] == slots[1..][i - 1]; None
      case Some(i) => Some(i + 1)
  }

  function Newcomer(id: SessionId, contract: Contract): Session {
    Session(id, contract, 0, NOTHING_DELIVERED, L0)
  }

  /** A session under an id the caller chose. */
  function Adopt(slots: Slots, id: SessionId, contract: Contract): Result<Slots> {
    if id == 0 || FindAt(slots, id).Some? then Err(Refused)
    else match FreeSlot(slots)
      case None => Err(Refused)
      case Some(i) => Ok(slots[i := Some(Newcomer(id, contract))])
  }

  /** The lowest id from `from` up that no live session has. */
  function LowestFree(slots: Slots, from: nat): (r: Option<nat>)
    ensures r.Some? ==> from <= r.value <= U16_MAX && FindAt(slots, r.value).None?
    ensures r.Some? ==> forall id :: from <= id < r.value ==> FindAt(slots, id).Some?
    ensures r.None? ==> forall id :: from <= id <= U16_MAX ==> FindAt(slots, id).Some?
    decreases U16_MAX + 1 - from
  {
    if from > U16_MAX then None
    else if FindAt(slots, from).None? then Some(from)
    else LowestFree(slots, from + 1)
  }

  /** A session under the least id from one on that nobody has. */
  function Create(slots: Slots, contract: Contract): Result<(SessionId, Slots)> {
    match LowestFree(slots, 1)
    case None => Err(Refused)
    case Some(id) => match Adopt(slots, id, contract)
      case Err(why) => Err(why)
      case Ok(after) => Ok((id, after))
  }

  /** Forgets a session. */
  function Destroy(slots: Slots, id: SessionId): Result<Slots> {
    match FindAt(slots, id)
    case None => Err(BadObject)
    case Some(i) => Ok(slots[i := None])
  }

  /** How many sessions are live. */
  function LiveCount(slots: Slots): (n: nat)
    ensures n <= |slots|
    ensures n == |slots| <==> FreeSlot(slots).None?
  {
    if slots == [] then 0 else (if slots[0].Some? then 1 else 0) + LiveCount(slots[1..])
  }

  /** The ids in use, and no more of them than slots. */
  ghost function Ids(slots: Slots): (ids: set<SessionId>)
    ensures |ids| <= |slots|
    ensures forall id :: id in ids <==> FindAt(slots, id).Some?
  {
    if slots == [] then {}
    else (if slots[0].Some? then {slots[0].value.id} else {}) + Ids(slots[1..])
  }

  ghost function UpTo(n: nat): (s: set<nat>)
    ensures |s| == n && forall k :: k in s <==> 1 <= k <= n
  {
    if n == 0 then {} else UpTo(n - 1) + {n}
  }

  /** With fewer slots than ids, some id is free. */
  lemma AnIdIsFree(slots: Slots)
    requires |slots| < U16_MAX
    ensures LowestFree(slots, 1).Some?
  {
    hide FindAt;
    if LowestFree(slots, 1).None? {
      assert UpTo(U16_MAX) <= Ids(slots);
      SubsetSize(UpTo(U16_MAX), Ids(slots));
      assert false;
    }
  }

  /** A fresh id in a free slot keeps ids distinct. */
  lemma NewcomerDistinct(slots: Slots, at: nat, id: SessionId, contract: Contract)
    requires DistinctIds(slots) && at < |slots| && slots[at].None? && id != 0 && FindAt(slots, id).None?
    ensures DistinctIds(slots[at := Some(Newcomer(id, contract))])
  {}

  /** An id is always to be had: creation is refused exactly when no slot is
      free, and what it adds is a fresh session with the lowest free id. */
  lemma CreateExactly(slots: Slots, contract: Contract)
    requires |slots| < U16_MAX
    ensures Create(slots, contract).Ok? <==> LiveCount(slots) < |slots|
    ensures Create(slots, contract).Ok? ==> var (id, after) := Create(slots, contract).value;
      && id != 0 && !Known(slots, id) && (forall k :: 1 <= k < id ==> Known(slots, k))
      && after == slots[FreeSlot(slots).value := Some(Newcomer(id, contract))]
    ensures DistinctIds(slots) && Create(slots, contract).Ok? ==> DistinctIds(Create(slots, contract).value.1)
  {
    hide FindAt, FreeSlot, LiveCount, LowestFree, DistinctIds, Newcomer;
    AnIdIsFree(slots);
    if DistinctIds(slots) && FreeSlot(slots).Some? {
      NewcomerDistinct(slots, FreeSlot(slots).value, LowestFree(slots, 1).value, contract);
    }
  }

  /** `b` is `a` with the accounts of `owner`, and nothing else, moved: the
      same sessions under the same contracts in the same slots. */
  ghost predicate SameSessions(a: Slots, b: Slots) {
    && |a| == |b|
    && (forall i :: 0 <= i < |a| ==> a[i].Some? == b[i].Some?)
    && (forall i :: 0 <= i < |a| && a[i].Some? ==>
          a[i].value.id == b[i].value.id && a[i].value.contract == b[i].value.contract)
  }

  lemma SameSessionsFind(a: Slots, b: Slots)
    requires SameSessions(a, b)
    ensures forall id :: FindAt(a, id) == FindAt(b, id)
    ensures DistinctIds(a) ==> DistinctIds(b)
  {
    forall id ensures FindAt(a, id) == FindAt(b, id) { SameFind(a, b, id); }
    if DistinctIds(a) {
      assert forall i, j :: 0 <= i < |b| && 0 <= j < |b| && SameSession(b[i], b[j]) ==> SameSession(a[i], a[j]);
    }
  }

  /** A charge moves only the owner's account, by exactly the bytes, never
      past its ceiling, and the credit of the same bytes moves it back. */
  lemma ChargeThenCredit(slots: Slots, owner: SessionId, size: nat, precision: Precision)
    requires DistinctIds(slots) && Charge(slots, owner, size, precision).Ok?
    ensures var after := Charge(slots, owner, size, precision).value;
      && SameSessions(slots, after) && SameSessions(slots, Credit(after, owner, size))
      && (forall i :: 0 <= i < |slots| && slots[i].Some? ==>
            && Credit(after, owner, size)[i].value.resident == slots[i].value.resident
            && after[i].value.resident == slots[i].value.resident + (if slots[i].value.id == owner then size else 0))
      && (Known(after, owner) && Get(after, owner).contract.residentCeiling != 0 ==>
            Get(after, owner).resident <= Get(after, owner).contract.residentCeiling)
  {
    var after := Charge(slots, owner, size, precision).value;
    SameSessionsFind(slots, after);
    SameSessionsFind(after, Credit(after, owner, size));
  }

  /** Slots that hold the same ids in the same places answer `FindAt` alike. */
  lemma {:induction false} SameFind(a: Slots, b: Slots, id: SessionId)
    requires |a| == |b|
    requires forall i :: 0 <= i < |a| ==>
      (a[i].Some? <==> b[i].Some?) && (a[i].Some? ==> a[i].value.id == b[i].value.id)
    ensures FindAt(a, id) == FindAt(b, id)
  {
    if a != [] {
      assert forall i :: 0 < i < |a| ==> a[i] == a[1..][i - 1] && b[i] == b[1..][i - 1];
      SameFind(a[1..], b[1..], id);
    }
  }
}
