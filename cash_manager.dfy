/**
 * The cash side of the machine: the coin stock, the balance of the
 * customer in front of it, and the change computed against the stock.
 * Amounts are whole cents.
 */
module CashManagement {
  import opened Wrappers
  import opened Coins
  import opened Stocks
  import opened Batches
  import opened BalanceResults
  import opened GreedyChangeProcessor

  /** The failures the cash manager reports, one per distinct error message. */
  datatype CashError =
    | NoCashItems      // an absent or empty batch of coins
    | InvalidCashItem  // an entry whose coin is absent
    | InvalidQuantity  // an entry whose quantity is not positive
    | InvalidCash      // an absent coin handed in by the customer
    | InvalidPrice     // an absent or negative price

  /** The manager's own error for a refused batch entry. */
  function FromEntryError(e: EntryError): (r: CashError)
    ensures r == InvalidCashItem <==> e == InvalidItem
    ensures r == InvalidQuantity <==> e == NonPositiveQuantity
  {
    match e
    case InvalidItem => InvalidCashItem
    case NonPositiveQuantity => InvalidQuantity
  }

  /** The change as a batch of removals, one entry per coin it holds, largest coin first. */
  function ChangeEntries(change: map<Coin, int>): (es: seq<Entry<Coin>>)
    ensures forall i :: 0 <= i < |es| ==> es[i].0.Some? && es[i].0.value in change && es[i].1 == change[es[i].0.value]
  {
    EntriesOf(change, Descending())
  }

  /**
   * Walking a change lists exactly its count for every coin, and yields no
   * entries exactly when the change is empty.
   */
  lemma ChangeEntriesListed(change: map<Coin, int>)
    ensures forall c :: Listed(ChangeEntries(change), c) == Quantity(change, c)
    ensures ChangeEntries(change) == [] <==> change == map[]
  {
    DescendingListsEveryCoin();
    forall c ensures Listed(ChangeEntries(change), c) == Quantity(change, c) {
      ListedEntriesOf(change, Descending(), c);
    }
    EntriesOfEmpty(change, Descending());
    if ChangeEntries(change) == [] {
      assert forall c :: c !in change;
    }
  }

  /**
   * Removing a non-empty change that the stock covers always succeeds, and
   * lowers each coin by exactly its count.
   */
  lemma CoveredChangeRemoval(stock: map<Coin, int>, change: map<Coin, int>)
    requires change != map[]
    requires forall c :: c in change ==> 1 <= change[c] <= Quantity(stock, c)
    ensures ChangeEntries(change) != []
    ensures ApplyEntries(stock, ChangeEntries(change), ValidCoins(), Delete).0.None?
    ensures forall c :: Quantity(ApplyEntries(stock, ChangeEntries(change), ValidCoins(), Delete).1, c)
                     == Quantity(stock, c) - Quantity(change, c)
    ensures ApplyEntries(stock, ChangeEntries(change), ValidCoins(), Delete).1.Keys == stock.Keys
  {
    ChangeEntriesListed(change);
    ApplyEntriesKeepsKeys(stock, ChangeEntries(change), ValidCoins(), Delete);
    var entries := ChangeEntries(change);
    assert forall i :: 0 <= i < |entries| ==> ValidEntry(entries[i], ValidCoins());
    var m := ApplyEntries(stock, entries, ValidCoins(), Delete).1;
    forall c ensures Quantity(m, c) == Quantity(stock, c) - Quantity(change, c) {
      ApplyValidEntries(stock, entries, ValidCoins(), Delete, c);
    }
    ApplyValidEntries(stock, entries, ValidCoins(), Delete, FiveCents);
  }

  /** The change the greedy processor produces can always be taken out of the stock it was computed on. */
  lemma GreedyChangeRemoval(stock: map<Coin, int>, amount: int, change: map<Coin, int>)
    requires GreedyChange(Some(stock), amount) == Some(change)
    ensures ChangeEntries(change) != []
    ensures ApplyEntries(stock, ChangeEntries(change), ValidCoins(), Delete).0.None?
    ensures forall c :: Quantity(ApplyEntries(stock, ChangeEntries(change), ValidCoins(), Delete).1, c)
                     == Quantity(stock, c) - Quantity(change, c)
    ensures ApplyEntries(stock, ChangeEntries(change), ValidCoins(), Delete).1.Keys == stock.Keys
  {
    GreedyChangeCorrect(Some(stock), amount);
    CoveredChangeRemoval(stock, change);
  }

  class CashManager {
    const cashStock: Stock<Coin>
    var currentBalance: int

    constructor (cashStock: Stock<Coin>)
      ensures this.cashStock == cashStock && currentBalance == 0
    {
      this.cashStock := cashStock;
      currentBalance := 0;
    }

    /** Every coin denomination is accepted, smallest first. */
    function GetValidCashItems(): (cs: seq<Coin>)
      ensures |cs| == 6 && forall c: Coin :: c in cs
      ensures forall i, j :: 0 <= i < j < |cs| ==> Value(cs[i]) < Value(cs[j])
    {
      ValidCoins()
    }

    /** A coin is accepted exactly when one is given. */
    predicate IsCashItemAllowed(cash: Option<Coin>)
      ensures IsCashItemAllowed(cash) <==> cash.Some?
    {
      cash.Some? && cash.value in GetValidCashItems()
    }

    function GetCashStock(): (m: map<Coin, int>)
      reads this, cashStock
      ensures m.Keys == cashStock.stockMap.Keys
      ensures forall c :: Quantity(m, c) == cashStock.GetQuantity(c)
    {
      cashStock.GetStockMap()
    }

    /** The coin is checked before the quantity. */
    function ValidateCashEntry(cash: Option<Coin>, quantity: int): (r: Option<CashError>)
      ensures r.None? <==> cash.Some? && quantity > 0
      ensures r == Some(InvalidCashItem) <==> cash.None?
      ensures r == Some(InvalidQuantity) <==> cash.Some? && quantity <= 0
    {
      if !IsCashItemAllowed(cash) then Some(InvalidCashItem)
      else if quantity <= 0 then Some(InvalidQuantity)
      else None
    }

    /**
     * Adds every entry of a non-empty batch to the stock. Entries are applied
     * one by one, so those before the first invalid entry stay applied.
     */
    method InsertCashItemsInStock(cashMap: Option<seq<Entry<Coin>>>) returns (r: Outcome<CashError>)
      modifies cashStock
      ensures cashMap.None? || cashMap.value == [] ==>
        r == Fail(NoCashItems) && cashStock.stockMap == old(cashStock.stockMap)
      ensures cashMap.Some? && cashMap.value != [] ==>
        var (err, m) := ApplyEntries(old(cashStock.stockMap), cashMap.value, ValidCoins(), Insert);
        r == ToOutcome(err, FromEntryError) && cashStock.stockMap == m
    {
      if cashMap.None? || |cashMap.value| == 0 {
        return Fail(NoCashItems);
      }
      var entries := cashMap.value;
      var i := 0;
      while i < |entries|
        invariant 0 <= i <= |entries|
        invariant ApplyEntries(cashStock.stockMap, entries[i..], ValidCoins(), Insert)
               == ApplyEntries(old(cashStock.stockMap), entries, ValidCoins(), Insert)
      {
        var (cash, quantity) := entries[i];
        assert entries[i..][1..] == entries[i + 1..];
        var invalid := ValidateCashEntry(cash, quantity);
        if invalid.Some? {
          return Fail(invalid.value);
        }
        cashStock.InsertItemQuantity(cash.value, quantity);
        i := i + 1;
      }
      return Pass;
    }

    /**
     * Takes every entry of a non-empty batch out of the stock, flooring each
     * quantity at zero. Entries before the first invalid one stay applied.
     */
    method RemoveCashItemsFromStock(cashMap: Option<seq<Entry<Coin>>>) returns (r: Outcome<CashError>)
      modifies cashStock
      ensures cashMap.None? || cashMap.value == [] ==>
        r == Fail(NoCashItems) && cashStock.stockMap == old(cashStock.stockMap)
      ensures cashMap.Some? && cashMap.value != [] ==>
        var (err, m) := ApplyEntries(old(cashStock.stockMap), cashMap.value, ValidCoins(), Delete);
        r == ToOutcome(err, FromEntryError) && cashStock.stockMap == m
    {
      if cashMap.None? || |cashMap.value| == 0 {
        return Fail(NoCashItems);
      }
      var entries := cashMap.value;
      var i := 0;
      while i < |entries|
        invariant 0 <= i <= |entries|
        invariant ApplyEntries(cashStock.stockMap, entries[i..], ValidCoins(), Delete)
               == ApplyEntries(old(cashStock.stockMap), entries, ValidCoins(), Delete)
      {
        var (cash, quantity) := entries[i];
        assert entries[i..][1..] == entries[i + 1..];
        var invalid := ValidateCashEntry(cash, quantity);
        if invalid.Some? {
          return Fail(invalid.value);
        }
        cashStock.DeleteItemQuantity(cash.value, quantity);
        i := i + 1;
      }
      return Pass;
    }

    /** The greedy change for `changeToRefund` against the current coin stock; nothing changes. */
    method GetCashItemsForChange(changeToRefund: int) returns (change: Option<map<Coin, int>>)
      ensures change == GreedyChange(Some(cashStock.stockMap), changeToRefund)
    {
      change := ProcessChange(Some(cashStock.GetStockMap()), changeToRefund);
    }

    /**
     * Pays the whole balance back. When change exists, its coins leave the
     * stock and the balance drops to zero; otherwise nothing changes.
     */
    method CalculateRefund() returns (refund: Option<map<Coin, int>>)
      modifies this, cashStock
      ensures refund == GreedyChange(Some(old(cashStock.stockMap)), old(currentBalance))
      ensures refund.None? ==>
        currentBalance == old(currentBalance) && cashStock.stockMap == old(cashStock.stockMap)
      ensures refund.Some? ==>
        currentBalance == 0 && Total(refund.value) == old(currentBalance) &&
        cashStock.stockMap.Keys == old(cashStock.stockMap).Keys &&
        forall c :: Quantity(cashStock.stockMap, c) == Quantity(old(cashStock.stockMap), c) - Quantity(refund.value, c)
    {
      refund := GetCashItemsForChange(currentBalance);
      if refund.Some? {
        GreedyChangeCorrect(Some(cashStock.stockMap), currentBalance);
        GreedyChangeRemoval(cashStock.stockMap, currentBalance, refund.value);
        var removed := RemoveCashItemsFromStock(Some(ChangeEntries(refund.value)));
        assert removed == Pass;
        ResetCurrentBalance();
      }
    }

    /** An accepted coin raises the balance by its value and joins the stock. */
    method ReceiveCash(cash: Option<Coin>) returns (r: Result<int, CashError>)
      modifies this, cashStock
      ensures cash.None? ==>
        r == Failure(InvalidCash) && currentBalance == old(currentBalance) &&
        cashStock.stockMap == old(cashStock.stockMap)
      ensures cash.Some? ==>
        currentBalance == old(currentBalance) + Value(cash.value) &&
        cashStock.stockMap == Added(old(cashStock.stockMap), cash.value, 1) &&
        r == Success(currentBalance)
    {
      if IsCashItemAllowed(cash) {
        IncrementCurrentBalance(Value(cash.value));
        cashStock.InsertItem(cash.value);
      } else {
        return Failure(InvalidCash);
      }
      return Success(currentBalance);
    }

    /** How the balance compares with a price; an absent or negative price is refused. */
    function IsPossibleToPurchaseProduct(productPrice: Option<int>): (r: Result<BalanceResult, CashError>)
      reads this
      ensures r == Failure(InvalidPrice) <==> productPrice.None? || productPrice.value < 0
      ensures r == Success(BelowAmount) <==> productPrice.Some? && 0 <= productPrice.value && currentBalance < productPrice.value
      ensures r == Success(ExactAmount) <==> productPrice.Some? && 0 <= productPrice.value && currentBalance == productPrice.value
      ensures r == Success(AboveAmount) <==> productPrice.Some? && 0 <= productPrice.value && currentBalance > productPrice.value
    {
      if productPrice.None? || productPrice.value < 0 then Failure(InvalidPrice)
      else
        var v := CompareTo(currentBalance, productPrice.value);
        var b := ByValue(v);
        assert b.Some? && Code(b.value) == v;
        Success(b.value)
    }

    /** The balance left once the price is paid; zero when there is no balance. */
    function CalculateRemainingChange(productPrice: Option<int>): (r: Result<int, CashError>)
      reads this
      ensures r == Failure(InvalidPrice) <==> productPrice.None? || productPrice.value < 0
      ensures productPrice.Some? && productPrice.value >= 0 && currentBalance > 0 ==>
        r == Success(currentBalance - productPrice.value)
      ensures productPrice.Some? && productPrice.value >= 0 && currentBalance <= 0 ==>
        r == Success(0)
    {
      if productPrice.None? || productPrice.value < 0 then Failure(InvalidPrice)
      else if HasCurrentBalance() then Success(currentBalance - productPrice.value)
      else Success(0)
    }

    predicate HasCurrentBalance()
      reads this
      ensures HasCurrentBalance() <==> currentBalance > 0
    {
      CompareTo(currentBalance, 0) > 0
    }

    /** The balance inserted so far, in cents; positive exactly when there is one to spend. */
    function GetCurrentBalance(): (b: int)
      reads this
      ensures b == currentBalance
      ensures b > 0 <==> HasCurrentBalance()
    {
      currentBalance
    }

    method IncrementCurrentBalance(amount: int)
      modifies this
      ensures currentBalance == old(currentBalance) + amount
    {
      currentBalance := currentBalance + amount;
    }

    method SetCurrentBalance(balance: int)
      modifies this
      ensures currentBalance == balance
    {
      currentBalance := balance;
    }

    method ResetCurrentBalance()
      modifies this
      ensures currentBalance == 0
    {
      SetCurrentBalance(0);
    }
  }
}
