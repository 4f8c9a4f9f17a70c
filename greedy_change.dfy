/**
 * `GreedyChangeProcessor.processChange`: change for an amount, taking coins
 * from the highest value down, each as often as it fits and stock remains,
 * without backtracking. `Run` and `GreedyChange` specify the algorithm;
 * `ProcessChange` is the loop, proved to compute `GreedyChange`.
 */
module GreedyChangeProcessor {
  import opened Wrappers
  import opened Coins
  import opened Stocks

  /** The coins in strictly descending value, the iteration order of the sorted map. */
  function Descending(): (cs: seq<Coin>)
    ensures |cs| == |ValidCoins()|
    ensures forall i :: 0 <= i < |cs| ==> cs[i] == ValidCoins()[|cs| - 1 - i]
    ensures forall i, j :: 0 <= i < j < |cs| ==> Value(cs[i]) > Value(cs[j])
  {
    [Two, One, FiftyCents, TwentyCents, TenCents, FiveCents]
  }

  /** The descending order lists every coin exactly once. */
  lemma DescendingListsEveryCoin()
    ensures forall c: Coin :: c in Descending()
    ensures Distinct(Descending())
  {
    EveryCoinIn(ValidCoins());
    assert forall c: Coin :: c in ValidCoins() ==> c in Descending();
  }

  /**
   * How many units of one coin the inner loop takes from `remaining`: one
   * more for as long as the coin's value fits and units are left.
   */
  function Take(quantity: int, value: nat, remaining: nat): (n: nat)
    requires value > 0
    decreases remaining
  {
    if value <= remaining && quantity > 0 then 1 + Take(quantity - 1, value, remaining - value) else 0
  }

  /** What the inner loop leaves of `remaining` once it stops. */
  function Rest(quantity: int, value: nat, remaining: nat): (r: nat)
    requires value > 0
    ensures r <= remaining
    decreases remaining
  {
    if value <= remaining && quantity > 0 then Rest(quantity - 1, value, remaining - value) else remaining
  }

  /**
   * The inner loop takes as many units as fit and as the stock holds, and
   * what it leaves is what it did not hand out: the greedy choice for one coin.
   */
  lemma {:induction false} TakeBounds(quantity: int, value: nat, remaining: nat)
    requires value > 0
    ensures Take(quantity, value, remaining) * value <= remaining
    ensures Rest(quantity, value, remaining) == remaining - Take(quantity, value, remaining) * value
    ensures quantity <= 0 ==> Take(quantity, value, remaining) == 0
    ensures quantity > 0 ==> Take(quantity, value, remaining) <= quantity
    ensures Take(quantity, value, remaining) < quantity ==> Rest(quantity, value, remaining) < value
    decreases remaining
  {
    if value <= remaining && quantity > 0 {
      TakeBounds(quantity - 1, value, remaining - value);
      var n := Take(quantity - 1, value, remaining - value);
      assert (1 + n) * value == value + n * value;
    }
  }

  /** The change built so far and the amount still to give. */
  datatype Progress = Progress(change: map<Coin, int>, remaining: nat)

  /** One pass of the inner loop: the coin `c` taken from `p.remaining` as often as fits and stock allows. */
  function Step(p: Progress, c: Coin, stock: map<Coin, int>): (r: Progress)
  {
    var n := Take(Quantity(stock, c), Value(c), p.remaining);
    Progress(if n > 0 then p.change[c := n] else p.change, Rest(Quantity(stock, c), Value(c), p.remaining))
  }

  /**
   * One pass of the inner loop either skips the coin, leaving everything as
   * it was, or hands it out at least once, changing no other coin's count.
   */
  lemma StepSkipsOrTakes(p: Progress, c: Coin, stock: map<Coin, int>)
    ensures Value(c) > p.remaining || Quantity(stock, c) <= 0 ==> Step(p, c, stock) == p
    ensures Value(c) <= p.remaining && Quantity(stock, c) > 0 ==>
      c in Step(p, c, stock).change && Step(p, c, stock).change[c] >= 1
    ensures forall d :: d != c ==> Quantity(Step(p, c, stock).change, d) == Quantity(p.change, d)
  {
  }

  /** The state of the greedy loop once it has processed `coins`, in order. */
  function Run(coins: seq<Coin>, stock: map<Coin, int>, amount: nat): (r: Progress)
    decreases |coins|
  {
    if coins == [] then Progress(map[], amount)
    else Step(Run(coins[..|coins| - 1], stock, amount), coins[|coins| - 1], stock)
  }

  /** The whole walk down the six coins, spelled out. */
  lemma RunDescending(stock: map<Coin, int>, amount: nat)
    ensures Run(Descending(), stock, amount)
      == Step(Step(Step(Step(Step(Step(Progress(map[], amount), Two, stock), One, stock),
           FiftyCents, stock), TwentyCents, stock), TenCents, stock), FiveCents, stock)
  {
    var cs := Descending();
    assert cs[..0] == [];
    RunStep(cs, stock, amount, 0);
    RunStep(cs, stock, amount, 1);
    RunStep(cs, stock, amount, 2);
    RunStep(cs, stock, amount, 3);
    RunStep(cs, stock, amount, 4);
    RunStep(cs, stock, amount, 5);
    assert cs[..6] == cs;
  }

  /** One more coin processed: `Run` over the next prefix, as the loop body computes it. */
  lemma RunStep(coins: seq<Coin>, stock: map<Coin, int>, amount: nat, i: nat)
    requires i < |coins|
    ensures
      var p := Run(coins[..i], stock, amount);
      var c := coins[i];
      Run(coins[..i + 1], stock, amount) == Step(p, c, stock)
  {
    assert coins[..i + 1][..i] == coins[..i];
  }

  /**
   * The guard on the stock: present and not empty, i.e. recording at least
   * one coin, even one with quantity zero.
   */
  predicate IsValidStock(cashStock: Option<map<Coin, int>>)
    ensures IsValidStock(cashStock) <==> cashStock.Some? && |cashStock.value| > 0
  {
    cashStock.Some? && cashStock.value != map[]
  }

  /** The guard on the amount: strictly positive, so at least one cent. */
  predicate IsValidAmount(amount: int)
    ensures IsValidAmount(amount) <==> amount >= 1
  {
    amount > 0
  }

  /** What `processChange` returns: the greedy change when it reaches the amount exactly, `None` otherwise. */
  function GreedyChange(cashStock: Option<map<Coin, int>>, amount: int): (r: Option<map<Coin, int>>)
    ensures cashStock.None? || cashStock.value == map[] || amount <= 0 ==> r.None?
  {
    if IsValidStock(cashStock) && IsValidAmount(amount) then
      var p := Run(Descending(), cashStock.value, amount);
      if p.remaining == 0 then Some(p.change) else None
    else None
  }

  /** The value of `change` counted over `cs`: the sum of value times count. */
  function ChangeValue(change: map<Coin, int>, cs: seq<Coin>): int
    decreases |cs|
  {
    if cs == [] then 0
    else ChangeValue(change, cs[..|cs| - 1]) + Value(cs[|cs| - 1]) * Quantity(change, cs[|cs| - 1])
  }

  /** The total value of a change map, over every coin. */
  function Total(change: map<Coin, int>): int
  {
    ChangeValue(change, Descending())
  }

  /** `Total` written out coin by coin. */
  lemma TotalSpelledOut(change: map<Coin, int>)
    ensures Total(change)
      == 200 * Quantity(change, Two) + 100 * Quantity(change, One) + 50 * Quantity(change, FiftyCents)
       + 20 * Quantity(change, TwentyCents) + 10 * Quantity(change, TenCents) + 5 * Quantity(change, FiveCents)
  {
    var cs := Descending();
    assert cs[..1][..0] == [];
    assert ChangeValue(change, cs[..1]) == 200 * Quantity(change, Two);
    assert cs[..2][..1] == cs[..1];
    assert ChangeValue(change, cs[..2]) == ChangeValue(change, cs[..1]) + 100 * Quantity(change, One);
    assert cs[..3][..2] == cs[..2];
    assert ChangeValue(change, cs[..3]) == ChangeValue(change, cs[..2]) + 50 * Quantity(change, FiftyCents);
    assert cs[..4][..3] == cs[..3];
    assert ChangeValue(change, cs[..4]) == ChangeValue(change, cs[..3]) + 20 * Quantity(change, TwentyCents);
    assert cs[..5][..4] == cs[..4];
    assert ChangeValue(change, cs[..5]) == ChangeValue(change, cs[..4]) + 10 * Quantity(change, TenCents);
    assert cs[..6][..5] == cs[..5];
    assert cs[..6] == cs;
  }

  predicate Distinct(cs: seq<Coin>)
  {
    forall i, j :: 0 <= i < j < |cs| ==> cs[i] != cs[j]
  }

  /** Taking a change out of a stock coin by coin lowers the stock's value by the change's value. */
  lemma TotalOfDifference(before: map<Coin, int>, after: map<Coin, int>, change: map<Coin, int>)
    requires forall c :: Quantity(after, c) == Quantity(before, c) - Quantity(change, c)
    ensures Total(after) == Total(before) - Total(change)
  {
    TotalSpelledOut(before);
    TotalSpelledOut(after);
    TotalSpelledOut(change);
  }

  /** One more coin in a stock raises its value by that coin's value. */
  lemma TotalOfAddedCoin(m: map<Coin, int>, c: Coin)
    ensures Total(Added(m, c, 1)) == Total(m) + Value(c)
  {
    TotalSpelledOut(m);
    TotalSpelledOut(Added(m, c, 1));
  }

  lemma {:induction false} ChangeValueAgree(m1: map<Coin, int>, m2: map<Coin, int>, cs: seq<Coin>)
    requires forall c :: c in cs ==> Quantity(m1, c) == Quantity(m2, c)
    ensures ChangeValue(m1, cs) == ChangeValue(m2, cs)
    decreases |cs|
  {
    if cs != [] {
      ChangeValueAgree(m1, m2, cs[..|cs| - 1]);
    }
  }

  /**
   * The loop invariant of the greedy algorithm: what has been handed out plus
   * what remains is the amount, and every coin in the change was processed,
   * is used at least once and at most as often as the stock holds it.
   */
  lemma {:induction false} RunInvariant(coins: seq<Coin>, stock: map<Coin, int>, amount: nat)
    requires Distinct(coins)
    ensures ChangeValue(Run(coins, stock, amount).change, coins) + Run(coins, stock, amount).remaining == amount
    ensures forall c :: c in Run(coins, stock, amount).change ==>
      c in coins && 1 <= Run(coins, stock, amount).change[c] <= Quantity(stock, c)
    decreases |coins|
  {
    if coins != [] {
      var init := coins[..|coins| - 1];
      var c := coins[|coins| - 1];
      RunInvariant(init, stock, amount);
      var p := Run(init, stock, amount);
      var n := Take(Quantity(stock, c), Value(c), p.remaining);
      TakeBounds(Quantity(stock, c), Value(c), p.remaining);
      var change := if n > 0 then p.change[c := n] else p.change;
      assert c !in init;
      assert c !in p.change;
      ChangeValueAgree(change, p.change, init);
      assert Quantity(change, c) == n;
    }
  }

  /** Once nothing remains, the later coins take nothing: the early exit does not change the result. */
  lemma {:induction false} RunSettled(coins: seq<Coin>, stock: map<Coin, int>, amount: nat, i: nat)
    requires i <= |coins|
    requires Run(coins[..i], stock, amount).remaining == 0
    ensures Run(coins, stock, amount) == Run(coins[..i], stock, amount)
    decreases |coins|
  {
    if i < |coins| {
      var init := coins[..|coins| - 1];
      assert init[..i] == coins[..i];
      RunSettled(init, stock, amount, i);
    } else {
      assert coins[..i] == coins;
    }
  }

  /** The count `Run` ends with for the coin at position `i` is what the loop took at that step. */
  lemma {:induction false} RunCount(coins: seq<Coin>, stock: map<Coin, int>, amount: nat, i: nat)
    requires Distinct(coins)
    requires i < |coins|
    ensures Quantity(Run(coins, stock, amount).change, coins[i])
      == Take(Quantity(stock, coins[i]), Value(coins[i]), Run(coins[..i], stock, amount).remaining)
    decreases |coins|
  {
    var init := coins[..|coins| - 1];
    if i < |coins| - 1 {
      assert init[..i] == coins[..i];
      assert coins[i] != coins[|coins| - 1];
      RunCount(init, stock, amount, i);
    } else {
      assert init == coins[..i];
      RunInvariant(init, stock, amount);
    }
  }

  /**
   * A returned change map pays the amount exactly, is not empty, and uses
   * each coin at least once and at most as often as the stock holds it.
   */
  lemma GreedyChangeCorrect(cashStock: Option<map<Coin, int>>, amount: int)
    ensures GreedyChange(cashStock, amount).Some? ==>
      var change := GreedyChange(cashStock, amount).value;
      && amount > 0
      && Total(change) == amount
      && change != map[]
      && forall c :: c in change ==> 1 <= change[c] <= Quantity(cashStock.value, c)
  {
    if GreedyChange(cashStock, amount).Some? {
      RunInvariant(Descending(), cashStock.value, amount);
      var change := GreedyChange(cashStock, amount).value;
      if change == map[] {
        ChangeValueAgree(change, map[], Descending());
        ZeroChangeValue(Descending());
      }
    }
  }

  lemma {:induction false} ZeroChangeValue(cs: seq<Coin>)
    ensures ChangeValue(map[], cs) == 0
    decreases |cs|
  {
    if cs != [] {
      ZeroChangeValue(cs[..|cs| - 1]);
    }
  }

  /**
   * The greedy choice: the coin at position `i` of the descending order is
   * taken as often as it fits into what remained before it, unless its
   * stock runs out first.
   */
  lemma GreedyChoice(stock: map<Coin, int>, amount: nat, i: nat)
    requires i < |Descending()|
    ensures
      var c := Descending()[i];
      var before := Run(Descending()[..i], stock, amount).remaining;
      var n := Quantity(Run(Descending(), stock, amount).change, c);
      && n * Value(c) <= before
      && (Quantity(stock, c) <= 0 ==> n == 0)
      && (Quantity(stock, c) > 0 ==> n <= Quantity(stock, c))
      && (n < Quantity(stock, c) ==> before - n * Value(c) < Value(c))
  {
    var c := Descending()[i];
    RunCount(Descending(), stock, amount, i);
    TakeBounds(Quantity(stock, c), Value(c), Run(Descending()[..i], stock, amount).remaining);
  }

  /** Stock with the given quantity of each coin, as the tests build it. */
  function StockOf(five: int, ten: int, twenty: int, fifty: int, one: int, two: int): map<Coin, int>
  {
    map[FiveCents := five, TenCents := ten, TwentyCents := twenty, FiftyCents := fifty, One := one, Two := two]
  }

  /** 10.00 against (2, 2, 5, 2, 4, 2) takes every two, one, fifty and twenty. */
  lemma TenEurosExample()
    ensures GreedyChange(Some(StockOf(2, 2, 5, 2, 4, 2)), 1000)
      == Some(map[TwentyCents := 5, FiftyCents := 2, One := 4, Two := 2])
  {
    var stock := StockOf(2, 2, 5, 2, 4, 2);
    RunDescending(stock, 1000);
    var p1 := Step(Progress(map[], 1000), Two, stock);
    assert p1 == Progress(map[Two := 2], 600);
    var p2 := Step(p1, One, stock);
    assert p2 == Progress(map[Two := 2, One := 4], 200);
    var p3 := Step(p2, FiftyCents, stock);
    assert p3 == Progress(map[Two := 2, One := 4, FiftyCents := 2], 100);
    var p4 := Step(p3, TwentyCents, stock);
    assert p4 == Progress(map[Two := 2, One := 4, FiftyCents := 2, TwentyCents := 5], 0);
    assert Step(Step(p4, TenCents, stock), FiveCents, stock) == p4;
    assert p4.change == map[TwentyCents := 5, FiftyCents := 2, One := 4, Two := 2];
  }

  /** 0.75 against (2, 2, 5, 2, 4, 2) is fifty, twenty and five; 0.10 is one ten. */
  lemma LowAmountExamples()
    ensures GreedyChange(Some(StockOf(2, 2, 5, 2, 4, 2)), 75) == Some(map[FiftyCents := 1, TwentyCents := 1, FiveCents := 1])
    ensures GreedyChange(Some(StockOf(2, 2, 5, 2, 4, 2)), 10) == Some(map[TenCents := 1])
  {
    RunDescending(StockOf(2, 2, 5, 2, 4, 2), 75);
    RunDescending(StockOf(2, 2, 5, 2, 4, 2), 10);
  }

  /** 8.00 against four twos is exactly the four twos. */
  lemma EightEurosExample()
    ensures GreedyChange(Some(StockOf(2, 2, 5, 2, 4, 4)), 800) == Some(map[Two := 4])
  {
    RunDescending(StockOf(2, 2, 5, 2, 4, 4), 800);
  }

  /** 0.60 against two of each coin is fifty plus ten; without fifties it is three twenties. */
  lemma SixtyCentsExamples()
    ensures GreedyChange(Some(StockOf(2, 2, 2, 2, 2, 2)), 60) == Some(map[FiftyCents := 1, TenCents := 1])
    ensures GreedyChange(Some(StockOf(2, 2, 3, 0, 2, 2)), 60) == Some(map[TwentyCents := 3])
  {
    RunDescending(StockOf(2, 2, 2, 2, 2, 2), 60);
    RunDescending(StockOf(2, 2, 3, 0, 2, 2), 60);
  }

  /** 0.10 against (1, 2, 2, 3, 1, 1) is one ten. */
  lemma TenCentsExample()
    ensures GreedyChange(Some(StockOf(1, 2, 2, 3, 1, 1)), 10) == Some(map[TenCents := 1])
  {
    RunDescending(StockOf(1, 2, 2, 3, 1, 1), 10);
  }

  /** 2.00 against (1, 2, 2, 1, 1, 2) is one two. */
  lemma TwoEurosExample()
    ensures GreedyChange(Some(StockOf(1, 2, 2, 1, 1, 2)), 200) == Some(map[Two := 1])
  {
    RunDescending(StockOf(1, 2, 2, 1, 1, 2), 200);
  }

  /** 0.50 against (1, 2, 2, 1, 3, 1) is one fifty. */
  lemma FiftyCentsExample()
    ensures GreedyChange(Some(StockOf(1, 2, 2, 1, 3, 1)), 50) == Some(map[FiftyCents := 1])
  {
    RunDescending(StockOf(1, 2, 2, 1, 3, 1), 50);
  }

  /** 0.60 against (1, 2, 2, 0, 5, 1), with no fifty, is two twenties and two tens. */
  lemma NoFiftyExample()
    ensures GreedyChange(Some(StockOf(1, 2, 2, 0, 5, 1)), 60) == Some(map[TwentyCents := 2, TenCents := 2])
  {
    var stock := StockOf(1, 2, 2, 0, 5, 1);
    RunDescending(stock, 60);
    var p3 := Step(Step(Step(Progress(map[], 60), Two, stock), One, stock), FiftyCents, stock);
    assert p3 == Progress(map[], 60);
    var p4 := Step(p3, TwentyCents, stock);
    assert p4 == Progress(map[TwentyCents := 2], 20);
    var p5 := Step(p4, TenCents, stock);
    assert p5 == Progress(map[TwentyCents := 2, TenCents := 2], 0);
    assert Step(p5, FiveCents, stock) == p5;
  }

  /** Two of each coin hold 7.70 in all: 20.00 and 300.00 cannot be paid. */
  lemma TooLargeExamples()
    ensures GreedyChange(Some(StockOf(2, 2, 2, 2, 2, 2)), 2000).None?
    ensures GreedyChange(Some(StockOf(2, 2, 2, 2, 2, 2)), 30000).None?
  {
    RunDescending(StockOf(2, 2, 2, 2, 2, 2), 2000);
    RunDescending(StockOf(2, 2, 2, 2, 2, 2), 30000);
  }

  /**
   * One fifty and three twenties: 0.60 is refused although three twenties,
   * all in stock, pay it, because the fifty is taken first and never given back.
   */
  lemma NoBacktracking()
    ensures GreedyChange(Some(StockOf(0, 0, 3, 1, 0, 0)), 60).None?
    ensures Total(map[TwentyCents := 3]) == 60
  {
    RunDescending(StockOf(0, 0, 3, 1, 0, 0), 60);
    TotalSpelledOut(map[TwentyCents := 3]);
  }

  /** An all-zero stock never gives change, whatever the amount. */
  lemma EmptyStockGivesNoChange(amount: int)
    ensures GreedyChange(Some(StockOf(0, 0, 0, 0, 0, 0)), amount).None?
  {
    if amount > 0 {
      NothingTakenFromZeroStock(Descending(), StockOf(0, 0, 0, 0, 0, 0), amount);
    }
  }

  lemma {:induction false} NothingTakenFromZeroStock(coins: seq<Coin>, stock: map<Coin, int>, amount: nat)
    requires forall c :: Quantity(stock, c) <= 0
    ensures Run(coins, stock, amount) == Progress(map[], amount)
    decreases |coins|
  {
    if coins != [] {
      NothingTakenFromZeroStock(coins[..|coins| - 1], stock, amount);
    }
  }

  /** `processChange`, with the sorted-map iteration as a walk down `Descending()`. */
  method ProcessChange(cashStock: Option<map<Coin, int>>, amount: int) returns (change: Option<map<Coin, int>>)
    ensures change == GreedyChange(cashStock, amount)
  {
    if IsValidStock(cashStock) && IsValidAmount(amount) {
      var stock := cashStock.value;
      var coins := Descending();
      var remaining: nat := amount;
      var result: map<Coin, int> := map[];
      var i := 0;
      while i < |coins|
        invariant 0 <= i <= |coins|
        invariant Progress(result, remaining) == Run(coins[..i], stock, amount)
      {
        var cashItem := coins[i];
        var cashValue := Value(cashItem);
        var quantity := Quantity(stock, cashItem);
        var cnt := 0;
        ghost var before, resultBefore := remaining, result;
        while cashValue <= remaining && quantity > 0
          invariant cnt + Take(quantity, cashValue, remaining) == Take(Quantity(stock, cashItem), cashValue, before)
          invariant Rest(quantity, cashValue, remaining) == Rest(Quantity(stock, cashItem), cashValue, before)
          invariant result == if cnt > 0 then resultBefore[cashItem := cnt] else resultBefore
          decreases remaining
        {
          remaining := remaining - cashValue;
          cnt := cnt + 1;
          result := result[cashItem := cnt];
          quantity := quantity - 1;
        }
        RunStep(coins, stock, amount, i);
        if remaining == 0 {
          RunSettled(coins, stock, amount, i + 1);
          break;
        }
        i := i + 1;
      }
      assert coins[..|coins|] == coins;
      change := if remaining == 0 then Some(result) else None;
    } else {
      change := None;
    }
  }
}
