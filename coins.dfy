/** The closed enumeration of accepted coins (`Coin`), with values in euro cents. */
module Coins {

  /** Declared in this order: five, ten, twenty and fifty cents, one and two euros. */
  datatype Coin = FiveCents | TenCents | TwentyCents | FiftyCents | One | Two

  /** The face value of a coin, in cents (0.05 becomes 5, 2 becomes 200). */
  function Value(c: Coin): (v: nat)
    ensures v > 0
    ensures v % 5 == 0
  {
    match c
    case FiveCents => 5
    case TenCents => 10
    case TwentyCents => 20
    case FiftyCents => 50
    case One => 100
    case Two => 200
  }

  /** Every coin, in declaration order (`getValidCoins`, i.e. `Coin.values()`). */
  function ValidCoins(): (cs: seq<Coin>)
    ensures |cs| == 6
    ensures forall c: Coin :: c in cs
    ensures forall i, j :: 0 <= i < j < |cs| ==> Value(cs[i]) < Value(cs[j])
  {
    var cs := [FiveCents, TenCents, TwentyCents, FiftyCents, One, Two];
    EveryCoinIn(cs);
    cs
  }

  /** Six specific coins listed at fixed positions cover the whole enumeration. */
  lemma EveryCoinIn(cs: seq<Coin>)
    requires cs == [FiveCents, TenCents, TwentyCents, FiftyCents, One, Two]
    ensures forall c: Coin :: c in cs
  {
    forall c: Coin ensures c in cs {
      match c
      case FiveCents => assert cs[0] == c;
      case TenCents => assert cs[1] == c;
      case TwentyCents => assert cs[2] == c;
      case FiftyCents => assert cs[3] == c;
      case One => assert cs[4] == c;
      case Two => assert cs[5] == c;
    }
  }

  /** Distinct values mean distinct coins: the value identifies the coin. */
  lemma ValueInjective(c: Coin, d: Coin)
    ensures Value(c) == Value(d) <==> c == d
  {
  }
}
