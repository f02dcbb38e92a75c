/** The entry of an object: its size, its history and where it is. */
module MetaModel {
  import opened Basics

  datatype Precision = Fp16 | Bf16 | Q8 | Q4 | Q3 | Ternary {
    /** The discriminant: larger is coarser. */
    function Rank(): nat {
      match this
      case Fp16 => 1
      case Bf16 => 2
      case Q8 => 3
      case Q4 => 4
      case Q3 => 5
      case Ternary => 6
    }
  }

  datatype Tier = Hot | Warm | Cold | Stream | Archive

  /** What is known of the next access to an object. */
  datatype NextUse = Never | At(position: nat) | Probability(chance: nat)

  type SessionId = nat

  datatype Meta = Meta(
    size: nat,
    precision: Precision,
    tier: Tier,
    home: Tier,
    provider: nat,
    residentAt: nat,
    nextUse: NextUse,
    reuseCount: nat,
    placedTick: nat,
    usedTick: nat,
    reloadCost: nat,
    recomputeCost: nat,
    shareCount: nat,
    owner: SessionId)
  {
    /** Residency is an address, never the tier. */
    predicate Resident() { residentAt != 0 }
  }

  datatype Rung = L0 | L1 | L2 | L3 | L4 | L5 | L6 | L7 {
    function Depth(): nat {
      match this
      case L0 => 0
      case L1 => 1
      case L2 => 2
      case L3 => 3
      case L4 => 4
      case L5 => 5
      case L6 => 6
      case L7 => 7
    }

    /** One rung down, while there is one. */
    function Deeper(): (r: Option<Rung>)
      ensures r.Some? ==> r.value.Depth() == Depth() + 1
      ensures r.None? <==> this == L7
    {
      match this
      case L0 => Some(L1)
      case L1 => Some(L2)
      case L2 => Some(L3)
      case L3 => Some(L4)
      case L4 => Some(L5)
      case L5 => Some(L6)
      case L6 => Some(L7)
      case L7 => None
    }

    /** The quality this rung serves, on the scale a contract's floor uses. */
    function Quality(): Precision {
      match this
      case L0 => Fp16
      case L1 => Q8
      case L2 => Q4
      case _ => Ternary
    }
  }
}
