/** Whose turn it is: what a scheduler may see of the sessions, and the two
    rules that name the one to serve next. */
module ScheduleModel {
  import opened Basics
  import opened Abi

  /** A live session's place in its lane, its wait and its ceiling. */
  datatype Position = Position(token: nat, index: nat, waited: int, ceiling: nat)

  /** All that a rule decides from: a position for every lane not yet through,
      and the object each is waiting for. */
  datatype View = View(at: seq<Option<Position>>, next: seq<Option<ObjectId>>) {
    predicate Valid() { |at| == |next| }

    predicate Live(s: nat) { s < |at| && at[s].Some? }

    /** A live session that has waited its ceiling out. */
    predicate Overdue(s: nat) {
      Live(s) && at[s].value.ceiling != 0 && at[s].value.waited >= at[s].value.ceiling
    }
  }

  const USIZE_MAX: nat := U64_MAX

  // ----- parameter-major -----

  /** The lowest overdue session from `from` on. */
  function FirstOverdue(v: View, from: nat): (r: Option<nat>)
    ensures r.Some? ==> from <= r.value && v.Overdue(r.value) && forall s :: from <= s < r.value ==> !v.Overdue(s)
    ensures r.None? ==> forall s :: from <= s ==> !v.Overdue(s)
    decreases |v.at| - from
  {
    if from >= |v.at| then None else if v.Overdue(from) then Some(from) else FirstOverdue(v, from + 1)
  }

  /** How many entries are this one. */
  function Count(next: seq<Option<ObjectId>>, x: ObjectId): (n: nat)
    ensures n <= |next|
  {
    if next == [] then 0 else (if next[0] == Some(x) then 1 else 0) + Count(next[1..], x)
  }

  /** How many are waiting for what this lane is waiting for. */
  function Shared(v: View, s: nat): nat {
    if s >= |v.next| || v.next[s].None? then 0 else Count(v.next, v.next[s].value)
  }

  /** `a` is served before `b`: the lower token, then the lower index, then
      the object more sessions want, then the lower session. */
  predicate Sooner(v: View, a: nat, b: nat)
    requires v.Live(a) && v.Live(b)
  {
    var p, q := v.at[a].value, v.at[b].value;
    if p.token != q.token then p.token < q.token
    else if p.index != q.index then p.index < q.index
    else
      var x, y := USIZE_MAX - Shared(v, a), USIZE_MAX - Shared(v, b);
      if x != y then x < y else a <= b
  }

  /** The soonest of the first `n` sessions. */
  function Soonest(v: View, n: nat): (r: Option<nat>)
    requires n <= |v.at|
    ensures r.Some? ==> r.value < n && v.Live(r.value) && forall s :: 0 <= s < n && v.Live(s) ==> Sooner(v, r.value, s)
    ensures r.None? ==> forall s :: 0 <= s < n ==> !v.Live(s)
  {
    if n == 0 then None
    else
      var best := Soonest(v, n - 1);
      if v.at[n - 1].None? then best
      else if best.None? || !Sooner(v, best.value, n - 1) then Some(n - 1)
      else best
  }

  /** `ParameterMajor::pick`. */
  function ParameterPick(v: View): Option<nat> {
    match FirstOverdue(v, 0)
    case Some(late) => Some(late)
    case None => Soonest(v, |v.at|)
  }

  // ----- exactly who is picked -----

  /** The sessions waiting for what session `s` is waiting for. */
  ghost function WaitingWith(v: View, s: nat): set<int>
    requires s < |v.next|
  {
    set t | 0 <= t < |v.next| && v.next[t] == v.next[s] && v.next[t].Some?
  }

  lemma {:induction false} CountIsSet(next: seq<Option<ObjectId>>, x: ObjectId)
    ensures Count(next, x) == |set t | 0 <= t < |next| && next[t] == Some(x)|
    decreases |next|
  {
    if next != [] {
      var n := |next| - 1;
      CountAppend(next[..n], next[n], x);
      assert next[..n] + [next[n]] == next;
      CountIsSet(next[..n], x);
      var before := set t | 0 <= t < n && next[..n][t] == Some(x);
      assert (set t | 0 <= t < |next| && next[t] == Some(x)) == if next[n] == Some(x) then before + {n} else before;
    }
  }

  lemma {:induction false} CountAppend(next: seq<Option<ObjectId>>, last: Option<ObjectId>, x: ObjectId)
    ensures Count(next + [last], x) == Count(next, x) + (if last == Some(x) then 1 else 0)
  {
    if next == [] {
      assert [] + [last] == [last] && [last][1..] == [];
    } else {
      assert (next + [last])[1..] == next[1..] + [last];
      CountAppend(next[1..], last, x);
    }
  }

  lemma SharedIsSet(v: View, s: nat)
    requires s < |v.next|
    ensures Shared(v, s) == |WaitingWith(v, s)|
  {
    if v.next[s].Some? {
      CountIsSet(v.next, v.next[s].value);
      assert WaitingWith(v, s) == set t | 0 <= t < |v.next| && v.next[t] == Some(v.next[s].value);
    } else {
      assert WaitingWith(v, s) == {};
    }
  }

  /** Live, and waited as long as it said it would. */
  predicate PastCeiling(v: View, s: nat) {
    s < |v.at| && v.at[s].Some? && 0 < v.at[s].value.ceiling <= v.at[s].value.waited
  }

  /** Live session `p` goes before `s`, both lanes where they are: the token
      before the index, and at one position the object most are waiting for. */
  ghost predicate GoesFirst(v: View, p: nat, s: nat)
    requires v.Valid() && v.Live(p) && v.Live(s)
  {
    var a, b, x, y := v.at[p].value, v.at[s].value, |WaitingWith(v, p)|, |WaitingWith(v, s)|;
    || a.token < b.token
    || (a.token == b.token && a.index < b.index)
    || (a.token == b.token && a.index == b.index && x > y)
    || (a.token == b.token && a.index == b.index && x == y && p <= s)
  }

  ghost predicate IsTurnOf(v: View, p: nat)
    requires v.Valid()
  {
    if exists s :: PastCeiling(v, s) then PastCeiling(v, p) && forall s :: 0 <= s < p ==> !PastCeiling(v, s)
    else v.Live(p) && forall s: nat :: v.Live(s) ==> GoesFirst(v, p, s)
  }

  /** Parameter-major names the lowest session past its ceiling; if there is
      none, the session on the least token and index, among those the one whose
      object most are waiting for, and among those the lowest. */
  lemma PickExactly(v: View, p: nat)
    requires v.Valid()
    ensures ParameterPick(v) == Some(p) <==> IsTurnOf(v, p)
  {
    hide Soonest, Shared, WaitingWith;
    forall s: nat ensures PastCeiling(v, s) <==> v.Overdue(s) {}
    forall s: nat | s < |v.next| ensures Shared(v, s) == |WaitingWith(v, s)| { SharedIsSet(v, s); }
    if FirstOverdue(v, 0).None? && v.Live(p) {
      var q := Soonest(v, |v.at|).value;
      assert Sooner(v, q, p);
      assert IsTurnOf(v, p) ==> GoesFirst(v, p, q);
    }
  }

  /** With no ceiling passed, whoever is picked waits for what at least as many
      are waiting for as for anybody else's object at its position. */
  lemma PickIsMostWanted(v: View, p: nat, s: nat)
    requires v.Valid() && ParameterPick(v) == Some(p) && (forall t :: !PastCeiling(v, t)) && v.Live(s)
    requires v.at[s].value.token == v.at[p].value.token && v.at[s].value.index == v.at[p].value.index
    ensures v.Live(p) && |WaitingWith(v, p)| >= |WaitingWith(v, s)|
    ensures |WaitingWith(v, p)| == |WaitingWith(v, s)| ==> p <= s
  {
    PickExactly(v, p);
    assert GoesFirst(v, p, s);
  }

  // ----- process-major -----

  /** The next live session round the ring, from `step` places on. */
  function Rotate(v: View, current: nat, step: nat): (r: Option<nat>)
    ensures r.Some? ==> v.Live(r.value)
    decreases |v.at| - step
  {
    if step > |v.at| || |v.at| == 0 then None
    else if v.Live((current + step) % |v.at|) then Some((current + step) % |v.at|)
    else Rotate(v, current, step + 1)
  }

  /** A rule and what it remembers. */
  datatype Schedule = ParameterMajor | ProcessMajor(current: nat, started: bool)

  /** `Schedule::pick`, and the rule afterwards. */
  function Pick(rule: Schedule, v: View): (Schedule, Option<nat>) {
    match rule
    case ParameterMajor => (rule, ParameterPick(v))
    case ProcessMajor(current, started) =>
      if v.Live(current) && (v.at[current].value.index != 0 || !started)
      then (ProcessMajor(current, true), Some(current))
      else match Rotate(v, current, 1)
        case None => (rule, None)
        case Some(next) => (ProcessMajor(next, true), Some(next))
  }

  /** The ring reaches every session. */
  lemma {:induction false} RotateFinds(v: View, current: nat, step: nat, s: nat, away: nat)
    requires v.Live(s) && step <= away <= |v.at| && (current + away) % |v.at| == s
    ensures Rotate(v, current, step).Some?
    decreases away - step
  {
    if step < away && !v.Live((current + step) % |v.at|) { RotateFinds(v, current, step + 1, s, away); }
  }

  lemma RingReaches(n: nat, current: nat, s: nat) returns (away: nat)
    requires s < n
    ensures 1 <= away <= n && (current + away) % n == s
  {
    var c := current % n;
    away := if s > c then s - c else s + n - c;
    var q := current / n;
    assert current == q * n + c;
    if s > c {
      assert current + away == q * n + s;
      Split(q, s, n);
    } else {
      assert current + away == (q + 1) * n + s by { assert (q + 1) * n == q * n + n; }
      Split(q + 1, s, n);
    }
  }

  /** Either rule names a live session, and names one while there is one. */
  lemma PickNamesLive(rule: Schedule, v: View)
    ensures Pick(rule, v).1.Some? ==> v.Live(Pick(rule, v).1.value)
    ensures Pick(rule, v).1.None? <==> forall s: nat :: !v.Live(s)
  {
    if rule.ProcessMajor? {
      if s: nat :| v.Live(s) {
        var away := RingReaches(|v.at|, rule.current, s);
        RotateFinds(v, rule.current, 1, s, away);
      }
    } else {
      assert forall s: nat :: v.Live(s) ==> s < |v.at|;
    }
  }

  // ----- the rules as the drivers hold them -----

  /** A schedule in use: process-major keeps its place here. */
  class Scheduler {
    var rule: Schedule

    constructor (rule: Schedule)
      ensures this.rule == rule
    {
      this.rule := rule;
    }

    /** Whose turn it is, if anyone's. */
    method Next(v: View) returns (r: Option<nat>)
      modifies this
      ensures (rule, r) == Pick(old(rule), v)
    {
      match rule {
        case ParameterMajor => r := ParameterPick(v);
        case ProcessMajor(current, started) =>
          if v.Live(current) && (v.at[current].value.index != 0 || !started) {
            rule := ProcessMajor(current, true);
            return Some(current);
          }
          var step := 1;
          while step <= |v.at| && !v.Live((current + step) % |v.at|)
            invariant step >= 1 && Rotate(v, current, 1) == Rotate(v, current, step)
            decreases |v.at| + 1 - step
          {
            step := step + 1;
          }
          if step > |v.at| {
            return None;
          }
          r := Some((current + step) % |v.at|);
          rule := ProcessMajor(r.value, true);
      }
    }
  }
}
