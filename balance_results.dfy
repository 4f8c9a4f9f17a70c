/** `BalanceResult`: how the running balance compares with a price. */
module BalanceResults {
  import opened Wrappers

  datatype BalanceResult = BelowAmount | ExactAmount | AboveAmount

  /** The integer each constant is declared with. */
  function Code(b: BalanceResult): (v: int)
    ensures -1 <= v <= 1
  {
    match b
    case BelowAmount => -1
    case ExactAmount => 0
    case AboveAmount => 1
  }

  /** The constants in declaration order (`BalanceResult.values()`). */
  function Values(): (bs: seq<BalanceResult>)
    ensures |bs| == 3
    ensures forall b: BalanceResult :: b in bs
    ensures forall i :: 0 <= i < |bs| ==> Code(bs[i]) == i - 1
  {
    var bs := [BelowAmount, ExactAmount, AboveAmount];
    EveryResultIn(bs);
    bs
  }

  /** The three constants listed at fixed positions cover the whole enumeration. */
  lemma EveryResultIn(bs: seq<BalanceResult>)
    requires bs == [BelowAmount, ExactAmount, AboveAmount]
    ensures forall b: BalanceResult :: b in bs
  {
    forall b: BalanceResult ensures b in bs {
      match b
      case BelowAmount => assert bs[0] == b;
      case ExactAmount => assert bs[1] == b;
      case AboveAmount => assert bs[2] == b;
    }
  }

  /** The first of `bs` whose code is `v`, or `None` once `bs` is exhausted. */
  function FindByCode(bs: seq<BalanceResult>, v: int): (r: Option<BalanceResult>)
    ensures r.Some? ==> r.value in bs && Code(r.value) == v
    ensures r.None? ==> forall b :: b in bs ==> Code(b) != v
    decreases |bs|
  {
    if bs == [] then None
    else if Code(bs[0]) == v then Some(bs[0])
    else FindByCode(bs[1..], v)
  }

  /** `getBalanceResultByValue`: a linear search over the declared constants. */
  function ByValue(v: int): (r: Option<BalanceResult>)
    ensures r.Some? <==> -1 <= v <= 1
    ensures r.Some? ==> Code(r.value) == v
  {
    var r := FindByCode(Values(), v);
    assert -1 <= v <= 1 ==> Code(Values()[v + 1]) == v;
    r
  }

  /** The lookup inverts `Code`: it is a bijection between {-1, 0, 1} and the constants. */
  lemma ByValueInvertsCode(b: BalanceResult)
    ensures ByValue(Code(b)) == Some(b)
  {
    match b
    case BelowAmount =>
    case ExactAmount =>
    case AboveAmount =>
  }

  /** The sign of `a - b`, as `BigDecimal.compareTo` returns it. */
  function CompareTo(a: int, b: int): (c: int)
    ensures c < 0 <==> a < b
    ensures c == 0 <==> a == b
    ensures -1 <= c <= 1
  {
    if a < b then -1 else if a == b then 0 else 1
  }
}
