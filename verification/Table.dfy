/** The object table: open addressing with linear probing and tombstones,
    proved to be a finite map. */
module TableModel {
  import opened Basics
  import opened Abi
  import opened MetaModel

  /** A slot never used ends a probe; one whose entry was removed does not. */
  datatype Slot = Vacant | Removed | Live(id: ObjectId, meta: Meta)

  const GOLDEN: nat := 0x9e37_79b9_7f4a_7c15

  /** Where an id's probe sequence begins. */
  function Start(id: ObjectId, capacity: nat): (at: nat)
    requires capacity > 0
    ensures at < capacity
  {
    id * GOLDEN % (U64_MAX + 1) / 0x1_0000_0000 % capacity
  }

  /** The slot tried at `step`. */
  function Probe(id: ObjectId, step: nat, capacity: nat): (at: nat)
    requires capacity > 0
    ensures at < capacity
  {
    (Start(id, capacity) + step) % capacity
  }

  /** The step of an id's probe sequence that tries slot `at`. */
  function StepTo(id: ObjectId, at: nat, capacity: nat): (step: nat)
    requires at < capacity
    ensures step < capacity && Probe(id, step, capacity) == at
  {
    var first := Start(id, capacity);
    var step := if at >= first then at - first else at + capacity - first;
    ModOnce(first + step, capacity);
    step
  }

  lemma ModOnce(x: nat, n: nat)
    requires 0 < n && x < 2 * n
    ensures x % n == if x < n then x else x - n
  {
    var q := x / n;
    assert x == n * q + x % n;
    assert q >= 2 ==> n * q >= 2 * n;
    assert q == 1 ==> n * q == n;
  }

  lemma StepUnique(id: ObjectId, step: nat, capacity: nat)
    requires step < capacity
    ensures StepTo(id, Probe(id, step, capacity), capacity) == step
  {
    ModOnce(Start(id, capacity) + step, capacity);
  }

  /** The table's invariant: the entries are those of `contents`, each id is
      in one slot, and no vacant slot lies on the way to a live one. */
  ghost predicate Represents(slots: seq<Slot>, contents: map<ObjectId, Meta>) {
    && |slots| > 0
    && (forall i :: 0 <= i < |slots| && slots[i].Live? ==>
          slots[i].id in contents && contents[slots[i].id] == slots[i].meta)
    && (forall id :: id in contents ==> exists i :: 0 <= i < |slots| && slots[i] == Live(id, contents[id]))
    && (forall i, j :: 0 <= i < |slots| && 0 <= j < |slots| && SameId(slots[i], slots[j]) ==> i == j)
    && (forall i :: 0 <= i < |slots| && slots[i].Live? ==> NoVacancyBefore(slots, slots[i].id, i))
  }

  predicate SameId(s: Slot, t: Slot) { s.Live? && t.Live? && s.id == t.id }

  /** Every slot tried for `id` before slot `at` is passed through. */
  ghost predicate NoVacancyBefore(slots: seq<Slot>, id: ObjectId, at: nat)
    requires at < |slots|
  {
    forall step :: 0 <= step < StepTo(id, at, |slots|) ==> !slots[Probe(id, step, |slots|)].Vacant?
  }

  /** How many slots have never been used. */
  ghost function Vacancies(slots: seq<Slot>): nat {
    if slots == [] then 0 else (if slots[0].Vacant? then 1 else 0) + Vacancies(slots[1..])
  }

  lemma {:induction false} VacanciesUpdate(slots: seq<Slot>, i: nat, s: Slot)
    requires i < |slots|
    ensures Vacancies(slots[i := s]) + (if slots[i].Vacant? then 1 else 0)
         == Vacancies(slots) + (if s.Vacant? then 1 else 0)
  {
    if i == 0 {
      assert slots[i := s][1..] == slots[1..];
    } else {
      assert slots[i := s][1..] == slots[1..][i - 1 := s];
      VacanciesUpdate(slots[1..], i - 1, s);
    }
  }

  lemma {:induction false} SomeVacancy(slots: seq<Slot>)
    ensures Vacancies(slots) > 0 <==> exists i :: 0 <= i < |slots| && slots[i].Vacant?
  {
    if slots != [] {
      SomeVacancy(slots[1..]);
      if i :| 0 <= i < |slots| && slots[i].Vacant? {
        assert i > 0 ==> slots[1..][i - 1].Vacant?;
      }
      if i :| 0 <= i < |slots[1..]| && slots[1..][i].Vacant? {
        assert slots[i + 1].Vacant?;
      }
    }
  }

  /** Writing a live entry over one for the same id keeps the invariant. */
  lemma ReplaceKeeps(slots: seq<Slot>, contents: map<ObjectId, Meta>, at: nat, meta: Meta)
    requires Represents(slots, contents) && at < |slots| && slots[at].Live?
    ensures Represents(slots[at := Live(slots[at].id, meta)], contents[slots[at].id := meta])
  {
    var id := slots[at].id;
    var t, c := slots[at := Live(id, meta)], contents[id := meta];
    forall k | k in c ensures exists i :: 0 <= i < |t| && t[i] == Live(k, c[k]) {
      if k == id { assert t[at] == Live(k, c[k]); } else {
        var i :| 0 <= i < |slots| && slots[i] == Live(k, contents[k]);
        assert t[i] == Live(k, c[k]);
      }
    }
    forall i | 0 <= i < |t| && t[i].Live? ensures NoVacancyBefore(t, t[i].id, i) {
      assert slots[i].Live? && slots[i].id == t[i].id;
      assert NoVacancyBefore(slots, t[i].id, i);
    }
  }

  /** Turning a live slot into a tombstone forgets that id and no other. */
  lemma RemoveKeeps(slots: seq<Slot>, contents: map<ObjectId, Meta>, at: nat)
    requires Represents(slots, contents) && at < |slots| && slots[at].Live?
    ensures Represents(slots[at := Removed], contents - {slots[at].id})
  {
    var id := slots[at].id;
    var t, c := slots[at := Removed], contents - {id};
    forall k | k in c ensures exists i :: 0 <= i < |t| && t[i] == Live(k, c[k]) {
      var i :| 0 <= i < |slots| && slots[i] == Live(k, contents[k]);
      assert t[i] == Live(k, c[k]);
    }
    forall i | 0 <= i < |t| && t[i].Live? ensures NoVacancyBefore(t, t[i].id, i) {
      assert NoVacancyBefore(slots, t[i].id, i);
    }
  }

  /** Filling a slot no probe for `id` passed a vacancy to reach. */
  lemma AddKeeps(slots: seq<Slot>, contents: map<ObjectId, Meta>, at: nat, id: ObjectId, meta: Meta)
    requires Represents(slots, contents) && at < |slots| && !slots[at].Live? && id !in contents
    requires NoVacancyBefore(slots, id, at)
    ensures Represents(slots[at := Live(id, meta)], contents[id := meta])
  {
    var t, c := slots[at := Live(id, meta)], contents[id := meta];
    forall k | k in c ensures exists i :: 0 <= i < |t| && t[i] == Live(k, c[k]) {
      if k == id { assert t[at] == Live(k, c[k]); } else {
        var i :| 0 <= i < |slots| && slots[i] == Live(k, contents[k]);
        assert t[i] == Live(k, c[k]);
      }
    }
    forall i | 0 <= i < |t| && t[i].Live? ensures NoVacancyBefore(t, t[i].id, i) {
      if i != at { assert NoVacancyBefore(slots, t[i].id, i); }
    }
  }

  /** A live id is met on its probe sequence before any vacancy. */
  lemma LiveIsMet(slots: seq<Slot>, contents: map<ObjectId, Meta>, id: ObjectId)
    requires Represents(slots, contents)
    ensures id in contents ==> exists step :: MetAt(slots, Live(id, contents[id]), step)
  {
    if id in contents {
      var i :| 0 <= i < |slots| && slots[i] == Live(id, contents[id]);
      assert NoVacancyBefore(slots, id, i);
      assert MetAt(slots, Live(id, contents[id]), StepTo(id, i, |slots|));
    }
  }

  /** The probe for a live slot's id reaches it at `step`, past no vacancy. */
  ghost predicate MetAt(slots: seq<Slot>, live: Slot, step: nat)
    requires live.Live?
  {
    && step < |slots|
    && slots[Probe(live.id, step, |slots|)] == live
    && forall s :: 0 <= s < step ==> !slots[Probe(live.id, s, |slots|)].Vacant?
  }

  class Table {
    const slots: array<Slot>
    ghost var contents: map<ObjectId, Meta>

    ghost predicate Valid()
      reads this, slots
    {
      Represents(slots[..], contents)
    }

    /** The live entries in slot order, as a policy enumerates them. */
    function Entries(): (e: seq<Option<(ObjectId, Meta)>>)
      reads this, slots
      ensures |e| == slots.Length
    {
      seq(slots.Length, i requires 0 <= i < slots.Length reads this, slots =>
        if slots[i].Live? then Some((slots[i].id, slots[i].meta)) else None)
    }

    constructor (capacity: nat)
      requires capacity > 0
      ensures Valid() && fresh(slots) && slots.Length == capacity
      ensures contents == map[]
      ensures forall i :: 0 <= i < capacity ==> slots[i] == Vacant
    {
      slots := new Slot[capacity](_ => Vacant);
      contents := map[];
    }

    /** The slot holding `id`, if it is here. */
    method Find(id: ObjectId) returns (r: Option<nat>)
      requires Valid()
      ensures r.Some? <==> id in contents
      ensures r.Some? ==> r.value < slots.Length && slots[r.value] == Live(id, contents[id])
    {
      var step := 0;
      while step < slots.Length
        invariant step <= slots.Length
        invariant forall s :: 0 <= s < step ==>
          var t := slots[Probe(id, s, slots.Length)]; !(t.Live? && t.id == id)
      {
        var at := Probe(id, step, slots.Length);
        if slots[at].Live? && slots[at].id == id {
          return Some(at);
        }
        if slots[at].Vacant? {
          LiveIsMet(slots[..], contents, id);
          return None;
        }
        step := step + 1;
      }
      LiveIsMet(slots[..], contents, id);
      return None;
    }

    /** The entry of an id, if it has one. */
    method Get(id: ObjectId) returns (r: Option<Meta>)
      requires Valid()
      ensures r == if id in contents then Some(contents[id]) else None
    {
      var at := Find(id);
      return if at.Some? then Some(slots[at.value].meta) else None;
    }

    /** The map's update. Refused, with everything as it was, exactly when the
        id is new and no slot is vacant: tombstones are not enough. */
    method Insert(id: ObjectId, meta: Meta) returns (ok: bool)
      requires Valid()
      modifies this, slots
      ensures Valid()
      ensures ok <==> id in old(contents) || old(Vacancies(slots[..])) > 0
      ensures ok ==> contents == old(contents)[id := meta]
      ensures !ok ==> contents == old(contents) && slots[..] == old(slots[..])
      ensures id in old(contents) ==> Vacancies(slots[..]) == old(Vacancies(slots[..]))
      ensures ok && id !in old(contents) && (forall i :: 0 <= i < slots.Length ==> old(slots[i]) != Removed) ==>
        Vacancies(slots[..]) == old(Vacancies(slots[..])) - 1
        && forall i :: 0 <= i < slots.Length ==> slots[i] != Removed
    {
      ghost var was := slots[..];
      var reusable: Option<nat> := None;
      var step := 0;
      while step < slots.Length
        invariant step <= slots.Length && slots[..] == was && contents == old(contents)
        invariant forall s :: 0 <= s < step ==>
          var t := was[Probe(id, s, |was|)]; !t.Vacant? && !(t.Live? && t.id == id)
        invariant reusable.Some? ==> reusable.value < |was| && was[reusable.value] == Removed
        invariant reusable.Some? ==> NoVacancyBefore(was, id, reusable.value)
      {
        var at := Probe(id, step, slots.Length);
        if slots[at].Live? && slots[at].id == id {
          ReplaceKeeps(was, contents, at, meta);
          VacanciesUpdate(was, at, Live(id, meta));
          slots[at] := Live(id, meta);
          contents := contents[id := meta];
          assert slots[..] == was[at := Live(id, meta)];
          return true;
        }
        if slots[at].Removed? && reusable.None? {
          StepUnique(id, step, slots.Length);
          reusable := Some(at);
        } else if slots[at].Vacant? {
          LiveIsMet(was, contents, id);
          SomeVacancy(was);
          StepUnique(id, step, slots.Length);
          var into := if reusable.Some? then reusable.value else at;
          AddKeeps(was, contents, into, id, meta);
          VacanciesUpdate(was, into, Live(id, meta));
          slots[into] := Live(id, meta);
          contents := contents[id := meta];
          assert slots[..] == was[into := Live(id, meta)];
          return true;
        }
        step := step + 1;
      }
      LiveIsMet(was, contents, id);
      NoVacancyAnywhere(was, id);
      return false;
    }

    /** `get_mut`, and the write made through it. */
    method Update(id: ObjectId, meta: Meta) returns (ok: bool)
      requires Valid()
      modifies this, slots
      ensures Valid()
      ensures ok <==> id in old(contents)
      ensures contents == if ok then old(contents)[id := meta] else old(contents)
      ensures Vacancies(slots[..]) == old(Vacancies(slots[..]))
      ensures forall i :: 0 <= i < slots.Length ==> slots[i] == old(slots[i]) || SameId(slots[i], old(slots[i]))
    {
      ghost var was := slots[..];
      var at := Find(id);
      if at.None? {
        return false;
      }
      ReplaceKeeps(was, contents, at.value, meta);
      VacanciesUpdate(was, at.value, Live(id, meta));
      slots[at.value] := Live(id, meta);
      contents := contents[id := meta];
      assert slots[..] == was[at.value := Live(id, meta)];
      return true;
    }

    /** Forgets an object, and no other. */
    method Remove(id: ObjectId) returns (ok: bool)
      requires Valid()
      modifies this, slots
      ensures Valid()
      ensures ok <==> id in old(contents)
      ensures contents == old(contents) - {id}
      ensures Vacancies(slots[..]) == old(Vacancies(slots[..]))
      ensures forall i :: 0 <= i < slots.Length && (old(slots[i]).Live? ==> old(slots[i]).id != id) ==>
        slots[i] == old(slots[i])
    {
      ghost var was := slots[..];
      var at := Find(id);
      if at.None? {
        return false;
      }
      RemoveKeeps(was, contents, at.value);
      VacanciesUpdate(was, at.value, Removed);
      slots[at.value] := Removed;
      contents := contents - {id};
      assert slots[..] == was[at.value := Removed];
      return true;
    }
  }

  /** A round that met no vacancy leaves none anywhere. */
  lemma NoVacancyAnywhere(slots: seq<Slot>, id: ObjectId)
    requires |slots| > 0
    requires forall s :: 0 <= s < |slots| ==> !slots[Probe(id, s, |slots|)].Vacant?
    ensures Vacancies(slots) == 0
  {
    SomeVacancy(slots);
    forall i | 0 <= i < |slots| ensures !slots[i].Vacant? {
      assert slots[Probe(id, StepTo(id, i, |slots|), |slots|)] == slots[i];
    }
  }
}
