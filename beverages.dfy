/** The closed enumeration of sellable products (`Beverage`), with prices in cents. */
module Beverages {

  /** Declared in this order: Coke, Sprite, Water. */
  datatype Beverage = Coke | Sprite | Water

  /** The display name of a beverage. */
  function Name(b: Beverage): (s: string)
    ensures |s| > 0
  {
    match b
    case Coke => "Coke"
    case Sprite => "Sprite"
    case Water => "Water"
  }

  /** The price of a beverage, in cents (1.5 becomes 150). */
  function Price(b: Beverage): (p: nat)
    ensures p > 0
  {
    match b
    case Coke => 150
    case Sprite => 140
    case Water => 90
  }

  /** Position of a beverage in declaration order. */
  function Ordinal(b: Beverage): (i: nat)
    ensures i < 3
  {
    match b
    case Coke => 0
    case Sprite => 1
    case Water => 2
  }

  /** Every beverage, in declaration order (`getValidBeverages`, i.e. `Beverage.values()`). */
  function ValidBeverages(): (bs: seq<Beverage>)
    ensures |bs| == 3
    ensures forall b: Beverage :: b in bs && bs[Ordinal(b)] == b
    ensures forall i :: 0 <= i < |bs| ==> Ordinal(bs[i]) == i
  {
    var bs := [Coke, Sprite, Water];
    EveryBeverageIn(bs);
    bs
  }

  /** The three beverages listed in declaration order cover the enumeration. */
  lemma EveryBeverageIn(bs: seq<Beverage>)
    requires bs == [Coke, Sprite, Water]
    ensures forall b: Beverage :: b in bs && bs[Ordinal(b)] == b
  {
    forall b: Beverage ensures b in bs && bs[Ordinal(b)] == b {
      match b
      case Coke =>
      case Sprite =>
      case Water =>
    }
  }

  /** Names tell beverages apart. */
  lemma NameInjective(b: Beverage, d: Beverage)
    ensures Name(b) == Name(d) <==> b == d
  {
    if b != d {
      assert Name(b)[0] != Name(d)[0];
    }
  }
}
