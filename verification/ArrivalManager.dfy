/** A session arriving at the kernel with its context cached. */
module ArrivalManager {
  import opened Basics
  import opened Abi
  import opened MetaModel
  import opened ArenaModel
  import opened TableModel
  import opened SessionModel
  import opened StreamModel
  import opened Conservation
  import opened ManagerModel
  import opened LadderModel
  import opened LadderedModel
  import opened Arrival
  import opened ArrivalLadder
  import K = Kernel

  /** What the stream answers at its cursor. */
  function Answers(declared: seq<ObjectId>, cursor: nat): ObjectId -> NextUse {
    (id: ObjectId) => WantedAfter(declared, cursor, id)
  }

  /** Registers one block and consumes it. */
  method CacheBlock(held: Manager, id: ObjectId, meta: Meta) returns (cached: bool)
    requires held.Valid() && NoTombstones(held.table.slots[..]) && id !in held.table.contents
    requires meta.size > 0 && !meta.Resident()
    modifies held.Footprint()
    ensures held.Valid() && NoTombstones(held.table.slots[..]) && held.policy == old(held.policy)
    ensures (held.View(), Vacancies(held.table.slots[..]), cached)
      == Cached(old(held.View()), old(Vacancies(held.table.slots[..])), old(held.Outside()), id, meta,
           WantedAfter(held.stream.declared, held.stream.cursor, id))
  {
    hide Extents, Represents, Region.Valid, K.Consume, Decodes, SameFrom, NoTombstones, K.Register, WantedAfter;
    ghost var slots := held.table.slots[..];
    var registered := held.Register(id, meta);
    if registered.Err? {
      assert held.table.slots[..] == slots;
      return false;
    }
    ghost var known := held.table.slots[..];
    var handle := held.Consume(id);
    SameVacancies(known, held.table.slots[..]);
    return handle.Ok?;
  }

  /** One turn of the prefill, as the value has it. */
  lemma PrefillTurn(s: K.State, vacant: nat, w: K.World, shape: Shape, g: Guest, id: SessionId, wanted: ObjectId -> NextUse,
                    at: nat, l: nat, placed: nat)
    requires K.Counted(s) && id <= U16_MAX && g.layers <= U16_MAX && at < shape.Blocks(g.contract.context)
    ensures l >= g.layers ==>
      Prefill(s, vacant, w, shape, g, id, wanted, at, l, placed) == Prefill(s, vacant, w, shape, g, id, wanted, at + 1, 0, placed)
    ensures l < g.layers ==>
      var name := BlockName(id, l, at);
      var (t, left, cached) := Cached(s, vacant, w, name, BlockMeta(shape, g, id, at), wanted(name));
      Prefill(s, vacant, w, shape, g, id, wanted, at, l, placed)
        == if cached then Prefill(t, left, w, shape, g, id, wanted, at, l + 1, placed + 1) else (t, placed)
  {
    hide Cached, BlockName, BlockMeta;
  }

  lemma PrefillDone(s: K.State, vacant: nat, w: K.World, shape: Shape, g: Guest, id: SessionId, wanted: ObjectId -> NextUse,
                    at: nat, l: nat, placed: nat)
    requires K.Counted(s) && id <= U16_MAX && g.layers <= U16_MAX && at >= shape.Blocks(g.contract.context)
    ensures Prefill(s, vacant, w, shape, g, id, wanted, at, l, placed) == (s, placed)
  {}

  /** Every layer of one position. Says whether all of them were placed. */
  method PrefillPosition(held: Manager, ghost c: Cache, shape: Shape, g: Guest, ghost who: Session, id: SessionId, at: nat,
                         placed: nat) returns (count: nat, whole: bool)
    requires held.Valid() && NoTombstones(held.table.slots[..]) && c.shape == shape && Suits(c, g)
    requires who.id == id && who.contract == g.contract && at < shape.Blocks(g.contract.context)
    requires Coming(c, held.View(), who, at, 0)
    modifies held.Footprint()
    ensures held.Valid() && NoTombstones(held.table.slots[..]) && held.policy == old(held.policy)
    ensures whole ==> Coming(c, held.View(), who, at + 1, 0)
    ensures id <= U16_MAX && g.layers <= U16_MAX && K.Counted(old(held.View()))
    ensures var wanted := Answers(held.stream.declared, held.stream.cursor);
      Prefill(old(held.View()), old(Vacancies(held.table.slots[..])), old(held.Outside()), shape, g, id, wanted, at, 0, placed)
      == if whole
         then Prefill(held.View(), Vacancies(held.table.slots[..]), held.Outside(), shape, g, id, wanted, at + 1, 0, count)
         else (held.View(), count)
  {
    hide Extents, Represents, Region.Valid, Decodes, NoTombstones, Cached, Coming, Prefill, Charged, BlockName;
    ComingKnown(c, held.View(), who, at, 0);
    ghost var wanted := Answers(held.stream.declared, held.stream.cursor);
    ghost var all :=
      Prefill(held.View(), Vacancies(held.table.slots[..]), held.Outside(), shape, g, id, wanted, at, 0, placed);
    count := placed;
    for layer := 0 to g.layers
      invariant held.Valid() && NoTombstones(held.table.slots[..]) && held.policy == old(held.policy)
      invariant Coming(c, held.View(), who, at, layer)
      invariant all
        == Prefill(held.View(), Vacancies(held.table.slots[..]), held.Outside(), shape, g, id, wanted, at, layer, count)
    {
      var name := BlockName(id, layer, at);
      var meta := BlockMeta(shape, g, id, at);
      PrefillTurn(held.View(), Vacancies(held.table.slots[..]), held.Outside(), shape, g, id, wanted, at, layer, count);
      BlockComes(c, held.View(), Vacancies(held.table.slots[..]), held.Outside(), g, who, at, layer, wanted(name));
      var cached := CacheBlock(held, name, meta);
      if !cached {
        return count, false;
      }
      count := count + 1;
    }
    PrefillTurn(held.View(), Vacancies(held.table.slots[..]), held.Outside(), shape, g, id, wanted, at, g.layers, count);
    NextComing(c, held.View(), who, at);
    whole := true;
  }

  lemma NextComing(c: Cache, s: K.State, who: Session, at: nat)
    requires Coming(c, s, who, at, c.layers)
    ensures Coming(c, s, who, at + 1, 0)
  {
    hide Charged, KvNamed, Filled;
    NextPosition(c, who, s.objects, at);
  }

  /** The guest's session, if admission lets it in, and how far its prefill
      got. */
  method Arrive(held: Manager, ghost c: Cache, shape: Shape, g: Guest) returns (r: Option<(SessionId, nat)>)
    requires held.Valid() && NoTombstones(held.table.slots[..]) && c.shape == shape && Suits(c, g)
    requires Conserved(held.View()) && KvNamed(held.table.contents)
    modifies held.Footprint()
    ensures held.Valid() && held.policy == old(held.policy) && g.layers <= U16_MAX && K.Counted(old(held.View()))
    ensures (held.View(), r)
      == Arrival.Arrive(old(held.View()), old(Vacancies(held.table.slots[..])), old(held.Outside()), shape, g,
           Answers(held.stream.declared, held.stream.cursor))
  {
    hide Extents, Represents, Region.Valid, Decodes, NoTombstones, Coming, Prefill, Charged, KvNamed, K.CreateSession;
    ghost var wanted, was := Answers(held.stream.declared, held.stream.cursor), held.View();
    CreatedSmall(was, g.contract);
    var made := held.CreateSession(g.contract);
    if made.None? {
      return None;
    }
    var id := made.value;
    CreatedComing(c, was, g.contract);
    ghost var who := Newcomer(id, g.contract);
    ghost var all := Prefill(held.View(), Vacancies(held.table.slots[..]), held.Outside(), shape, g, id, wanted, 0, 0, 0);
    var placed := 0;
    for at := 0 to shape.Blocks(g.contract.context)
      invariant held.Valid() && NoTombstones(held.table.slots[..]) && held.policy == old(held.policy)
      invariant Coming(c, held.View(), who, at, 0)
      invariant all == Prefill(held.View(), Vacancies(held.table.slots[..]), held.Outside(), shape, g, id, wanted, at, 0, placed)
    {
      var whole;
      placed, whole := PrefillPosition(held, c, shape, g, who, id, at, placed);
      if !whole {
        return Some((id, placed));
      }
    }
    PrefillDone(held.View(), Vacancies(held.table.slots[..]), held.Outside(), shape, g, id, wanted,
      shape.Blocks(g.contract.context), 0, placed);
    return Some((id, placed));
  }
}
