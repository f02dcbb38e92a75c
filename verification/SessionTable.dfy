/** The session slots as an array, written in place. */
module SessionTable {
  import opened Basics
  import opened Abi
  import opened MetaModel
  import opened SessionModel

  class Sessions {
    const slots: array<Option<Session>>

    constructor (capacity: nat)
      ensures fresh(slots) && slots.Length == capacity
      ensures forall i :: 0 <= i < capacity ==> slots[i] == None
    {
      slots := new Option<Session>[capacity](_ => None);
    }

    method Find(id: SessionId) returns (r: Option<nat>)
      ensures r == FindAt(slots[..], id)
    {
      var i := 0;
      assert slots[0..] == slots[..];
      while i < slots.Length
        invariant i <= slots.Length
        invariant FindAt(slots[..], id)
          == match FindAt(slots[i..], id) case None => None case Some(k) => Some(k + i)
      {
        if slots[i].Some? && slots[i].value.id == id {
          return Some(i);
        }
        assert slots[i..][1..] == slots[i + 1..];
        i := i + 1;
      }
      return None;
    }

    method Charge(owner: SessionId, size: nat, precision: Precision) returns (r: Result<()>)
      modifies slots
      ensures match SessionModel.Charge(old(slots[..]), owner, size, precision)
        case Ok(after) => r == Ok(()) && slots[..] == after
        case Err(why) => r == Err(why) && slots[..] == old(slots[..])
    {
      var at := Find(owner);
      if at.None? {
        return Ok(());
      }
      var session := slots[at.value].value;
      var ceiling := session.contract.residentCeiling;
      var after := session.resident + size;
      if ceiling != 0 && after > ceiling {
        return Err(Refused);
      }
      var got := session.delivered.(peakResident := Max(session.delivered.peakResident, after));
      if precision.Rank() > got.coarsest.Rank() {
        got := got.(coarsest := precision);
      }
      slots[at.value] := Some(session.(resident := after, delivered := got));
      return Ok(());
    }

    method Credit(owner: SessionId, size: nat)
      modifies slots
      ensures slots[..] == SessionModel.Credit(old(slots[..]), owner, size)
    {
      var at := Find(owner);
      if at.Some? {
        var session := slots[at.value].value;
        slots[at.value] := Some(session.(resident := SatSub(session.resident, size)));
      }
    }

    method Adopt(id: SessionId, contract: Contract) returns (r: Result<()>)
      modifies slots
      ensures match SessionModel.Adopt(old(slots[..]), id, contract)
        case Ok(after) => r == Ok(()) && slots[..] == after
        case Err(why) => r == Err(why) && slots[..] == old(slots[..])
    {
      var at := Find(id);
      if id == 0 || at.Some? {
        return Err(Refused);
      }
      var i := 0;
      assert slots[0..] == slots[..];
      while i < slots.Length && slots[i].Some?
        invariant i <= slots.Length
        invariant FreeSlot(slots[..])
          == match FreeSlot(slots[i..]) case None => None case Some(k) => Some(k + i)
      {
        assert slots[i..][1..] == slots[i + 1..];
        i := i + 1;
      }
      if i == slots.Length {
        return Err(Refused);
      }
      slots[i] := Some(Newcomer(id, contract));
      return Ok(());
    }

    method Create(contract: Contract) returns (r: Result<SessionId>)
      modifies slots
      ensures match SessionModel.Create(old(slots[..]), contract)
        case Ok((id, after)) => r == Ok(id) && slots[..] == after
        case Err(why) => r == Err(why) && slots[..] == old(slots[..])
    {
      var id := 1;
      while id <= U16_MAX
        invariant id <= U16_MAX + 1
        invariant slots[..] == old(slots[..])
        invariant LowestFree(slots[..], 1) == LowestFree(slots[..], id)
      {
        var at := Find(id);
        if at.None? {
          var adopted := Adopt(id, contract);
          return match adopted case Ok(_) => Ok(id) case Err(why) => Err(why);
        }
        id := id + 1;
      }
      return Err(Refused);
    }

    method Destroy(id: SessionId) returns (r: Result<Session>)
      modifies slots
      ensures match SessionModel.Destroy(old(slots[..]), id)
        case Ok(after) => r == Ok(Get(old(slots[..]), id)) && slots[..] == after
        case Err(why) => r == Err(why) && slots[..] == old(slots[..])
    {
      var at := Find(id);
      if at.None? {
        return Err(BadObject);
      }
      var was := slots[at.value].value;
      slots[at.value] := None;
      return Ok(was);
    }

    method Took(owner: SessionId, period: nat)
      modifies slots
      ensures slots[..] == SessionModel.Took(old(slots[..]), owner, period)
    {
      var at := Find(owner);
      if at.Some? {
        var s := slots[at.value].value;
        slots[at.value] := Some(s.(delivered := s.delivered.(worstPeriod := Max(s.delivered.worstPeriod, period))));
      }
    }
  }
}
