/** Object ids, classes and the errors that cross the syscall boundary. */
module Abi {
  import opened Basics

  datatype Error =
    | BadObject | BadClass | NotResident | NoBudget | Refused | NoProvider | Revoked | Denied

  datatype Result<+T> = Ok(value: T) | Err(why: Error)

  /** Sixty-four bits that name one object. */
  type ObjectId = x: nat | x <= U64_MAX

  datatype Class =
    WeightTile | Scale | Expert | KvBlock | Activation | EmbedBlock | RagBlock | Adapter

  const CLASSES: nat := 8

  /** The discriminant of a class, which is its byte in an id. */
  function Byte(c: Class): nat {
    match c
    case WeightTile => 1
    case Scale => 2
    case Expert => 3
    case KvBlock => 4
    case Activation => 5
    case EmbedBlock => 6
    case RagBlock => 7
    case Adapter => 8
  }

  /** Its position in a per-class array. */
  function Index(c: Class): (i: nat)
    ensures i < CLASSES
  {
    Byte(c) - 1
  }

  function FromByte(b: nat): Option<Class> {
    match b
    case 1 => Some(WeightTile)
    case 2 => Some(Scale)
    case 3 => Some(Expert)
    case 4 => Some(KvBlock)
    case 5 => Some(Activation)
    case 6 => Some(EmbedBlock)
    case 7 => Some(RagBlock)
    case 8 => Some(Adapter)
    case _ => None
  }

  const CLASS_UNIT: nat := 0x100_0000_0000_0000
  const MODEL_UNIT: nat := 0x100_0000_0000
  const LAYER_UNIT: nat := 0x100_0000
  const TENSOR_UNIT: nat := 0x100

  /** Builds a well-formed id: class, model or session, layer, tensor, tile. */
  function MakeId(c: Class, model: nat, layer: nat, tensor: nat, tile: nat): (id: ObjectId)
    requires model <= U16_MAX && layer <= U16_MAX && tensor <= U16_MAX && tile <= 0xff
  {
    Byte(c) * CLASS_UNIT + model * MODEL_UNIT + layer * LAYER_UNIT + tensor * TENSOR_UNIT + tile
  }

  /** The class in the top byte, if that byte is one of the eight. */
  function ClassOf(id: ObjectId): Option<Class> { FromByte(id / CLASS_UNIT) }

  function ModelOf(id: ObjectId): nat { id / MODEL_UNIT % 0x1_0000 }

  function LayerOf(id: ObjectId): nat { id / LAYER_UNIT % 0x1_0000 }

  function TensorOf(id: ObjectId): nat { id / TENSOR_UNIT % 0x1_0000 }

  function TileOf(id: ObjectId): nat { id % 0x100 }

  /** The word decodes to exactly the fields it was built from. */
  lemma IdRoundTrip(c: Class, model: nat, layer: nat, tensor: nat, tile: nat)
    requires model <= U16_MAX && layer <= U16_MAX && tensor <= U16_MAX && tile <= 0xff
    ensures var id := MakeId(c, model, layer, tensor, tile);
      && ClassOf(id) == Some(c) && ModelOf(id) == model && LayerOf(id) == layer
      && TensorOf(id) == tensor && TileOf(id) == tile
  {
    var a := Byte(c);
    var m := a * 0x1_0000 + model;
    var l := m * 0x1_0000 + layer;
    var t := l * 0x1_0000 + tensor;
    Split(t, tile, TENSOR_UNIT);
    Split(l, tensor, 0x1_0000);
    Split(l, tensor * TENSOR_UNIT + tile, LAYER_UNIT);
    Split(m, layer, 0x1_0000);
    Split(m, layer * LAYER_UNIT + tensor * TENSOR_UNIT + tile, MODEL_UNIT);
    Split(a, model, 0x1_0000);
    Split(a, model * MODEL_UNIT + layer * LAYER_UNIT + tensor * TENSOR_UNIT + tile, CLASS_UNIT);
  }

  /** The two halves of a word, taken apart. */
  lemma Split(high: nat, low: nat, unit: nat)
    requires low < unit
    ensures (high * unit + low) / unit == high && (high * unit + low) % unit == low
  {
    QuotientIs(high * unit + low, high, unit);
  }
}
