/** Admission: the tests a new contract has to pass beside the live ones, and
    what holds after every run of them. */
module Admission {
  import opened Basics
  import opened Abi
  import opened MetaModel
  import opened SessionModel

  /** What a budget has to give. Zero `bytes` or `token` turns that test off. */
  datatype Capacity = Capacity(bytes: nat, reserved: nat, kvPerToken: nat, token: nat)

  datatype Refusal =
    | NoSlot
    | Ceiling(ceiling: nat, need: nat)
    | Bytes(need: nat, free: nat)
    | Latency(ceiling: nat, least: nat)

  datatype Verdict = Admitted | Declined(why: Refusal)

  /** The bytes a contract will hold. */
  function Need(c: Capacity, contract: Contract): nat {
    SatMul(contract.context, c.kvPerToken, U64_MAX)
  }

  /** Bytes promised to the live sessions, in slot order, saturating. */
  function Promised(c: Capacity, live: Slots, from: nat): nat
    decreases |live|
  {
    if live == [] then from
    else Promised(c, live[1..],
      if live[0].Some? then SatAdd(from, Need(c, live[0].value.contract), U64_MAX) else from)
  }

  function FreeBytes(c: Capacity, live: Slots): nat {
    SatSub(SatSub(c.bytes, c.reserved), Promised(c, live, 0))
  }

  predicate Contracted(s: Option<Session>) { s.Some? && s.value.contract.latencyCeiling != 0 }

  /** The tightest ceiling promised, once `ceiling` joins them. */
  function Tightest(live: Slots, ceiling: nat): nat {
    if live == [] then ceiling
    else if Contracted(live[0]) then Min(live[0].value.contract.latencyCeiling, Tightest(live[1..], ceiling))
    else Tightest(live[1..], ceiling)
  }

  /** How many live sessions have a ceiling. */
  function Ahead(live: Slots): (n: nat)
    ensures n <= |live|
  {
    if live == [] then 0 else (if Contracted(live[0]) then 1 else 0) + Ahead(live[1..])
  }

  /** The latency half: a quarter token at least, and every ceiling able to
      cover the contracted sessions that may run ahead of it. */
  function Wait(c: Capacity, live: Slots, contract: Contract): Verdict {
    var ceiling := contract.latencyCeiling;
    if c.token == 0 || ceiling == 0 then Admitted
    else if ceiling < c.token / 4 then Declined(Latency(ceiling, c.token / 4))
    else
      var least := SatMul(c.token, Ahead(live), U32_MAX);
      if Tightest(live, ceiling) < least then Declined(Latency(Tightest(live, ceiling), least)) else Admitted
  }

  function Admit(c: Capacity, live: Slots, contract: Contract): Verdict {
    if LiveCount(live) >= |live| then Declined(NoSlot)
    else
      var need, ceiling := Need(c, contract), contract.residentCeiling;
      if ceiling != 0 && need > ceiling then Declined(Ceiling(ceiling, need))
      else if c.bytes != 0 && need > FreeBytes(c, live) then Declined(Bytes(need, FreeBytes(c, live)))
      else Wait(c, live, contract)
  }

  /** `Manager::create_session`: admission, then a slot. */
  function CreateSession(c: Capacity, live: Slots, contract: Contract): Option<(SessionId, Slots)> {
    match Admit(c, live, contract)
    case Declined(_) => None
    case Admitted => match Create(live, contract)
      case Ok(made) => Some(made)
      case Err(_) => None
  }

  // ----- what an admitted population satisfies -----

  /** What the live contracts need, unsaturated. */
  ghost function Demand(c: Capacity, live: Slots): nat {
    if live == [] then 0
    else (if live[0].Some? then Need(c, live[0].value.contract) else 0) + Demand(c, live[1..])
  }

  /** Every promised ceiling covers the contracted sessions that may run
      ahead of it, as far as 32-bit arithmetic can say so. */
  ghost predicate LatencyKept(c: Capacity, live: Slots) {
    c.token != 0 ==> forall i :: 0 <= i < |live| && Contracted(live[i]) ==>
      live[i].value.contract.latencyCeiling >= SatMul(c.token, SatSub(Ahead(live), 1), U32_MAX)
  }

  ghost predicate BytesKept(c: Capacity, live: Slots) {
    c.bytes != 0 ==> Demand(c, live) <= SatSub(c.bytes, c.reserved)
  }

  /** The same, without saturation: what the design promises. */
  ghost predicate LatencyHonoured(c: Capacity, live: Slots) {
    c.token != 0 ==> forall i :: 0 <= i < |live| && Contracted(live[i]) ==>
      live[i].value.contract.latencyCeiling >= c.token * (Ahead(live) - 1)
  }

  lemma {:induction false} AheadPositive(live: Slots)
    ensures (exists i :: 0 <= i < |live| && Contracted(live[i])) ==> Ahead(live) > 0
  {
    if live != [] {
      AheadPositive(live[1..]);
      if i :| 0 <= i < |live| && Contracted(live[i]) {
        assert i > 0 ==> Contracted(live[1..][i - 1]);
      }
    }
  }

  lemma {:induction false} TightestIsLeast(live: Slots, ceiling: nat)
    ensures Tightest(live, ceiling) <= ceiling
    ensures forall i :: 0 <= i < |live| && Contracted(live[i]) ==>
      Tightest(live, ceiling) <= live[i].value.contract.latencyCeiling
  {
    if live != [] {
      TightestIsLeast(live[1..], ceiling);
      assert forall i :: 0 < i < |live| ==> live[i] == live[1..][i - 1];
    }
  }

  lemma {:induction false} PromisedIsDemand(c: Capacity, live: Slots, from: nat)
    requires from <= U64_MAX
    ensures Promised(c, live, from) == Min(from + Demand(c, live), U64_MAX)
  {
    if live != [] {
      PromisedIsDemand(c, live[1..],
        if live[0].Some? then SatAdd(from, Need(c, live[0].value.contract), U64_MAX) else from);
    }
  }

  /** What filling or clearing one slot does to the two tallies. */
  lemma {:induction false} TalliesUpdate(c: Capacity, live: Slots, i: nat, s: Option<Session>)
    requires i < |live|
    ensures Ahead(live[i := s]) + (if Contracted(live[i]) then 1 else 0)
         == Ahead(live) + (if Contracted(s) then 1 else 0)
    ensures Demand(c, live[i := s]) + (if live[i].Some? then Need(c, live[i].value.contract) else 0)
         == Demand(c, live) + (if s.Some? then Need(c, s.value.contract) else 0)
  {
    if i == 0 {
      assert live[i := s][1..] == live[1..];
    } else {
      assert live[i := s][1..] == live[1..][i - 1 := s];
      TalliesUpdate(c, live[1..], i - 1, s);
    }
  }

  lemma SatMulMonotone(a: nat, b: nat, d: nat, top: nat)
    requires b <= d
    ensures SatMul(a, b, top) <= SatMul(a, d, top)
  {
    assert a * b <= a * d;
  }

  // ----- exactly who is admitted -----

  /** The four tests a contract has to pass, in unbounded arithmetic but for
      the two products, which saturate as the source's do. */
  ghost predicate HasSlot(live: Slots) { exists i :: 0 <= i < |live| && live[i].None? }

  ghost predicate UnderOwnCeiling(c: Capacity, k: Contract) {
    k.residentCeiling == 0 || Min(k.context * c.kvPerToken, U64_MAX) <= k.residentCeiling
  }

  ghost predicate BytesLeft(c: Capacity, live: Slots, k: Contract) {
    c.bytes == 0 || Demand(c, live) + Min(k.context * c.kvPerToken, U64_MAX) <= SatSub(c.bytes, c.reserved)
      || k.context * c.kvPerToken == 0
  }

  ghost predicate CanWait(c: Capacity, live: Slots, k: Contract) {
    c.token == 0 || k.latencyCeiling == 0
    || (k.latencyCeiling >= c.token / 4 && Covers(c, live, k.latencyCeiling)
        && forall i :: 0 <= i < |live| && Contracted(live[i]) ==> Covers(c, live, live[i].value.contract.latencyCeiling))
  }

  /** A ceiling long enough for a token of each session contracted so far. */
  ghost predicate Covers(c: Capacity, live: Slots, ceiling: nat) {
    ceiling >= Min(c.token * |WithCeilings(live)|, U32_MAX)
  }

  ghost function WithCeilings(live: Slots): set<int> {
    set i | 0 <= i < |live| && live[i].Some? && live[i].value.contract.latencyCeiling != 0
  }

  lemma {:induction false} AheadIsCount(live: Slots)
    ensures Ahead(live) == |WithCeilings(live)|
    decreases |live|
  {
    if live != [] {
      var n := |live| - 1;
      AheadAppend(live[..n], live[n]);
      assert live[..n] + [live[n]] == live;
      AheadIsCount(live[..n]);
      var before := WithCeilings(live[..n]);
      assert WithCeilings(live) == if Contracted(live[n]) then before + {n} else before;
    }
  }

  lemma {:induction false} AheadAppend(live: Slots, s: Option<Session>)
    ensures Ahead(live + [s]) == Ahead(live) + (if Contracted(s) then 1 else 0)
  {
    if live == [] {
      assert [] + [s] == [s] && [s][1..] == [];
    } else {
      assert (live + [s])[1..] == live[1..] + [s];
      AheadAppend(live[1..], s);
    }
  }

  /** The tightest ceiling is somebody's. */
  lemma {:induction false} TightestIsOne(live: Slots, ceiling: nat)
    ensures Tightest(live, ceiling) == ceiling
      || exists i :: 0 <= i < |live| && Contracted(live[i]) && live[i].value.contract.latencyCeiling == Tightest(live, ceiling)
  {
    if live != [] {
      TightestIsOne(live[1..], ceiling);
      if Contracted(live[0]) { assert live[0].value.contract.latencyCeiling >= Tightest(live, ceiling); }
      if Tightest(live[1..], ceiling) != ceiling {
        var i :| 0 <= i < |live[1..]| && Contracted(live[1..][i])
          && live[1..][i].value.contract.latencyCeiling == Tightest(live[1..], ceiling);
        assert live[i + 1] == live[1..][i];
      }
    }
  }

  lemma WaitExactly(c: Capacity, live: Slots, k: Contract)
    ensures Wait(c, live, k).Admitted? <==> CanWait(c, live, k)
    ensures Wait(c, live, k).Declined? ==> Wait(c, live, k).why.Latency?
  {
    AheadIsCount(live);
    TightestIsLeast(live, k.latencyCeiling);
    TightestIsOne(live, k.latencyCeiling);
  }

  lemma BytesExactly(c: Capacity, live: Slots, k: Contract)
    requires c.bytes <= U64_MAX
    ensures (c.bytes == 0 || Need(c, k) <= FreeBytes(c, live)) <==> BytesLeft(c, live, k)
  {
    PromisedIsDemand(c, live, 0);
  }

  /** A contract is admitted, and a session begun, exactly when a slot is free,
      its context is within its own ceiling and within the bytes nobody was
      promised, and every ceiling, its own included, covers the sessions
      contracted so far; refused, the reason is the first of these that fails. */
  lemma AdmitsExactly(c: Capacity, live: Slots, k: Contract)
    requires c.bytes <= U64_MAX && |live| < U16_MAX
    ensures CreateSession(c, live, k).Some? <==> Admit(c, live, k) == Admitted
    ensures Admit(c, live, k) == Admitted <==>
      HasSlot(live) && UnderOwnCeiling(c, k) && BytesLeft(c, live, k) && CanWait(c, live, k)
    ensures Admit(c, live, k) == Declined(NoSlot) <==> !HasSlot(live)
    ensures (exists x, y :: Admit(c, live, k) == Declined(Ceiling(x, y))) <==> HasSlot(live) && !UnderOwnCeiling(c, k)
    ensures (exists x, y :: Admit(c, live, k) == Declined(Bytes(x, y))) <==>
      HasSlot(live) && UnderOwnCeiling(c, k) && !BytesLeft(c, live, k)
    ensures (exists x, y :: Admit(c, live, k) == Declined(Latency(x, y))) <==>
      HasSlot(live) && UnderOwnCeiling(c, k) && BytesLeft(c, live, k) && !CanWait(c, live, k)
  {
    hide LiveCount, Wait, CanWait, BytesLeft, Create, FreeBytes;
    SlotsExactly(live);
    CreateExactly(live, k);
    WaitExactly(c, live, k);
    BytesExactly(c, live, k);
    var v := Admit(c, live, k);
    if v.Declined? {
      match v.why
      case NoSlot =>
      case Ceiling(x, y) =>
      case Bytes(x, y) =>
      case Latency(x, y) =>
    }
  }

  /** What a refusal says: the need and what there was for it. */
  lemma RefusalSays(c: Capacity, live: Slots, k: Contract)
    requires c.bytes <= U64_MAX
    ensures forall x, y :: Admit(c, live, k) == Declined(Ceiling(x, y)) ==>
      x == k.residentCeiling && y == Min(k.context * c.kvPerToken, U64_MAX) && x < y
    ensures forall x, y :: Admit(c, live, k) == Declined(Bytes(x, y)) ==>
      x == Min(k.context * c.kvPerToken, U64_MAX) && y == SatSub(SatSub(c.bytes, c.reserved), Demand(c, live)) && x > y
    ensures forall x, y :: Admit(c, live, k) == Declined(Latency(x, y)) ==>
      x < y && (y == c.token / 4 || y == Min(c.token * |WithCeilings(live)|, U32_MAX))
  {
    hide LiveCount, Ahead, Tightest, Demand, Promised;
    PromisedIsDemand(c, live, 0);
    AheadIsCount(live);
  }

  lemma SlotsExactly(live: Slots)
    ensures LiveCount(live) < |live| <==> HasSlot(live)
  {}

  /** An admitted contract leaves both promises kept. */
  lemma CreateKeeps(c: Capacity, live: Slots, contract: Contract)
    requires |live| <= MAX_SESSIONS && DistinctIds(live) && c.bytes <= U64_MAX
    requires LatencyKept(c, live) && BytesKept(c, live)
    requires CreateSession(c, live, contract).Some?
    ensures var after := CreateSession(c, live, contract).value.1;
      |after| == |live| && DistinctIds(after) && LatencyKept(c, after) && BytesKept(c, after)
  {
    var after := CreateSession(c, live, contract).value.1;
    CreateExactly(live, contract);
    var at := FreeSlot(live).value;
    var s := after[at];
    assert after == live[at := s];
    TalliesUpdate(c, live, at, s);
    PromisedIsDemand(c, live, 0);
    TightestIsLeast(live, contract.latencyCeiling);
    AheadPositive(live);
    if c.token != 0 && contract.latencyCeiling == 0 {
      assert Ahead(after) == Ahead(live);
    }
  }

  /** Ending a session can only loosen them. */
  lemma DestroyKeeps(c: Capacity, live: Slots, id: SessionId)
    requires DistinctIds(live) && LatencyKept(c, live) && BytesKept(c, live)
    requires Destroy(live, id).Ok?
    ensures var after := Destroy(live, id).value;
      |after| == |live| && DistinctIds(after) && LatencyKept(c, after) && BytesKept(c, after)
  {
    var after := Destroy(live, id).value;
    var at := FindAt(live, id).value;
    TalliesUpdate(c, live, at, None);
    AheadPositive(after);
    forall i | 0 <= i < |after| && Contracted(after[i])
      ensures c.token != 0 ==> after[i].value.contract.latencyCeiling >= SatMul(c.token, SatSub(Ahead(after), 1), U32_MAX)
    {
      assert Contracted(live[i]);
      SatMulMonotone(c.token, Ahead(after) - 1, Ahead(live) - 1, U32_MAX);
    }
  }

  // ----- every run -----

  datatype Event = Begin(contract: Contract) | End(id: SessionId)

  function After(c: Capacity, live: Slots, e: Event): Slots {
    match e
    case Begin(contract) =>
      (match CreateSession(c, live, contract) case Some(made) => made.1 case None => live)
    case End(id) =>
      (match Destroy(live, id) case Ok(after) => after case Err(_) => live)
  }

  function AfterAll(c: Capacity, live: Slots, es: seq<Event>): Slots
    decreases |es|
  {
    if es == [] then live else AfterAll(c, After(c, live, es[0]), es[1..])
  }

  function Nobody(n: nat): (slots: Slots)
    ensures |slots| == n && forall i :: 0 <= i < n ==> slots[i] == None
  {
    seq(n, _ => None)
  }

  /** Both promises hold after every run of creations and destructions. */
  lemma {:induction false} PromisesKept(c: Capacity, live: Slots, es: seq<Event>)
    requires |live| <= MAX_SESSIONS && DistinctIds(live) && c.bytes <= U64_MAX
    requires LatencyKept(c, live) && BytesKept(c, live)
    ensures var after := AfterAll(c, live, es);
      |after| == |live| && DistinctIds(after) && LatencyKept(c, after) && BytesKept(c, after)
    decreases |es|
  {
    if es != [] {
      match es[0] {
        case Begin(contract) =>
          if CreateSession(c, live, contract).Some? { CreateKeeps(c, live, contract); }
        case End(id) =>
          if Destroy(live, id).Ok? { DestroyKeeps(c, live, id); }
      }
      PromisesKept(c, After(c, live, es[0]), es[1..]);
    }
  }

  lemma {:induction false} NobodyIsPromised(c: Capacity, n: nat)
    ensures Ahead(Nobody(n)) == 0 && LiveCount(Nobody(n)) == 0 && Demand(c, Nobody(n)) == 0
    ensures LatencyKept(c, Nobody(n)) && BytesKept(c, Nobody(n)) && DistinctIds(Nobody(n))
  {
    if n > 0 {
      assert Nobody(n)[1..] == Nobody(n - 1);
      NobodyIsPromised(c, n - 1);
    }
  }

  /** From an empty table, the contexts admitted always fit the budget, and
      every ceiling promised covers the sessions ahead of it -- for every
      run exactly when a full table of tokens fits 32 bits. */
  lemma AdmissionHonours(c: Capacity)
    requires c.bytes <= U64_MAX && c.token <= U32_MAX
    ensures forall es: seq<Event> :: BytesKept(c, AfterAll(c, Nobody(MAX_SESSIONS), es))
    ensures (forall es: seq<Event> :: LatencyHonoured(c, AfterAll(c, Nobody(MAX_SESSIONS), es)))
       <==> c.token * (MAX_SESSIONS - 1) <= U32_MAX
  {
    forall es: seq<Event>
      ensures BytesKept(c, AfterAll(c, Nobody(MAX_SESSIONS), es))
      ensures c.token * (MAX_SESSIONS - 1) <= U32_MAX ==> LatencyHonoured(c, AfterAll(c, Nobody(MAX_SESSIONS), es))
    {
      HonouredAfter(c, es);
    }
    if c.token * (MAX_SESSIONS - 1) > U32_MAX {
      CrowdBreaks(c);
    }
  }

  lemma HonouredAfter(c: Capacity, es: seq<Event>)
    requires c.bytes <= U64_MAX
    ensures var after := AfterAll(c, Nobody(MAX_SESSIONS), es);
      BytesKept(c, after) && (c.token * (MAX_SESSIONS - 1) <= U32_MAX ==> LatencyHonoured(c, after))
  {
    var after := AfterAll(c, Nobody(MAX_SESSIONS), es);
    NobodyIsPromised(c, MAX_SESSIONS);
    PromisesKept(c, Nobody(MAX_SESSIONS), es);
    AheadPositive(after);
    if c.token * (MAX_SESSIONS - 1) <= U32_MAX && Ahead(after) > 0 {
      NotSaturated(c.token, Ahead(after) - 1, MAX_SESSIONS - 1, U32_MAX);
    }
  }

  lemma NotSaturated(a: nat, b: nat, d: nat, top: nat)
    requires b <= d && a * d <= top
    ensures SatMul(a, b, top) == a * b
  {
    assert a * b <= a * d;
  }

  // ----- the crowd that saturation lets in -----

  /** No bytes declared, the loosest ceiling there is. */
  const PATIENT := Contract(Ternary, U32_MAX, 0, 0)

  function Crowd(n: nat): seq<Event> {
    if n == 0 then [] else [Begin(PATIENT)] + Crowd(n - 1)
  }

  ghost predicate AllPatient(live: Slots) {
    && |live| == MAX_SESSIONS && DistinctIds(live) && Ahead(live) == LiveCount(live)
    && forall i :: 0 <= i < |live| && live[i].Some? ==> live[i].value.contract == PATIENT
  }

  /** One more patient session is always admitted while a slot is free. */
  lemma PatientAdmitted(c: Capacity, live: Slots)
    requires c.bytes <= U64_MAX && c.token <= U32_MAX
    requires AllPatient(live) && LiveCount(live) < MAX_SESSIONS
    ensures AllPatient(After(c, live, Begin(PATIENT)))
    ensures LiveCount(After(c, live, Begin(PATIENT))) == LiveCount(live) + 1
  {
    PatientTightest(live);
    assert Need(c, PATIENT) == 0;
    assert Admit(c, live, PATIENT) == Admitted;
    CreateExactly(live, PATIENT);
    var after := After(c, live, Begin(PATIENT));
    var at := FreeSlot(live).value;
    assert after == live[at := after[at]];
    TalliesUpdate(c, live, at, after[at]);
    LiveCountUpdate(live, at, after[at]);
  }

  /** `n` patient sessions all fit where `n` slots are free. */
  lemma {:induction false} CrowdAdmitted(c: Capacity, live: Slots, n: nat)
    requires c.bytes <= U64_MAX && c.token <= U32_MAX
    requires AllPatient(live) && LiveCount(live) + n == MAX_SESSIONS
    ensures AllPatient(AfterAll(c, live, Crowd(n)))
    ensures LiveCount(AfterAll(c, live, Crowd(n))) == MAX_SESSIONS
    decreases n
  {
    if n > 0 {
      PatientAdmitted(c, live);
      CrowdAdmitted(c, After(c, live, Begin(PATIENT)), n - 1);
      assert Crowd(n)[1..] == Crowd(n - 1);
    }
  }

  /** A full table of patient sessions, all promised the most 32 bits can
      say, which is less than the tokens ahead of each. */
  lemma CrowdBreaks(c: Capacity)
    requires c.bytes <= U64_MAX && c.token <= U32_MAX
    requires c.token * (MAX_SESSIONS - 1) > U32_MAX
    ensures !LatencyHonoured(c, AfterAll(c, Nobody(MAX_SESSIONS), Crowd(MAX_SESSIONS)))
  {
    NobodyIsPromised(c, MAX_SESSIONS);
    CrowdAdmitted(c, Nobody(MAX_SESSIONS), MAX_SESSIONS);
    var after := AfterAll(c, Nobody(MAX_SESSIONS), Crowd(MAX_SESSIONS));
    assert FreeSlot(after).None?;
    assert after[0].Some? && Contracted(after[0]);
  }

  lemma {:induction false} PatientTightest(live: Slots)
    requires forall i :: 0 <= i < |live| && live[i].Some? ==> live[i].value.contract == PATIENT
    ensures Tightest(live, U32_MAX) == U32_MAX
  {
    if live != [] {
      assert forall i :: 0 <= i < |live[1..]| ==> live[1..][i] == live[i + 1];
      PatientTightest(live[1..]);
    }
  }

  lemma {:induction false} LiveCountUpdate(live: Slots, i: nat, s: Option<Session>)
    requires i < |live|
    ensures LiveCount(live[i := s]) + (if live[i].Some? then 1 else 0) == LiveCount(live) + (if s.Some? then 1 else 0)
  {
    if i == 0 {
      assert live[i := s][1..] == live[1..];
    } else {
      assert live[i := s][1..] == live[1..][i - 1 := s];
      LiveCountUpdate(live[1..], i - 1, s);
    }
  }
}
