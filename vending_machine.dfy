/**
 * The machine as its users and suppliers see it: refills, stock status,
 * product selection, coin insertion, refunds and the purchase itself. It
 * delegates to a product manager and a cash manager.
 */
module VendingMachine {
  import opened Wrappers
  import opened Coins
  import opened Beverages
  import opened Stocks
  import opened Batches
  import opened BalanceResults
  import opened GreedyChangeProcessor
  import opened CashManagement
  import opened ProductManagement

  /** The failures the machine reports to its users and suppliers. */
  datatype VendingError =
    | InvalidProductItem                  // no product given
    | ProductNotAvailable(product: Beverage)
    | InvalidCoin                         // no coin given
    | NoProductSelected                   // confirming before selecting
    | InsufficientBalance(product: Beverage)
    | InsufficientChange                  // the stock cannot pay the change back
    | ProductFailure(productCause: ProductError)
    | CashFailure(cashCause: CashError)

  /** A completed purchase: the product handed out and the coins given back. */
  type Purchase = (Beverage, map<Coin, int>)

  /**
   * What confirming a purchase should yield, from the selection, the balance
   * and the coin stock: refused without a selection or with too little
   * balance; the product with no change on an exact payment; otherwise the
   * product with the greedy change, refused when no such change exists.
   */
  function PurchaseDecision(selected: Option<Beverage>, balance: int, cash: map<Coin, int>): (r: Result<Purchase, VendingError>)
    ensures r == Failure(NoProductSelected) <==> selected.None?
    ensures selected.Some? ==>
      (r == Failure(InsufficientBalance(selected.value)) <==> balance < Price(selected.value))
    ensures selected.Some? && balance == Price(selected.value) ==> r == Success((selected.value, map[]))
    ensures r == Failure(InsufficientChange) <==>
      selected.Some? && balance > Price(selected.value) && GreedyChange(Some(cash), balance - Price(selected.value)).None?
    ensures (selected.Some? && balance > Price(selected.value) &&
             GreedyChange(Some(cash), balance - Price(selected.value)).Some?) ==>
      r == Success((selected.value, GreedyChange(Some(cash), balance - Price(selected.value)).value))
  {
    match selected
    case None => Failure(NoProductSelected)
    case Some(b) =>
      if balance < Price(b) then Failure(InsufficientBalance(b))
      else if balance == Price(b) then Success((b, map[]))
      else
        match GreedyChange(Some(cash), balance - Price(b))
        case None => Failure(InsufficientChange)
        case Some(change) => Success((b, change))
  }

  /**
   * A sale hands out the selected product, and the coins given back are
   * worth exactly the balance beyond its price, each one taken from the
   * stock; the change is empty exactly on an exact payment.
   */
  lemma PurchaseDecisionPaysPrice(selected: Option<Beverage>, balance: int, cash: map<Coin, int>)
    ensures PurchaseDecision(selected, balance, cash).Success? ==>
      var (b, change) := PurchaseDecision(selected, balance, cash).value;
      && selected == Some(b)
      && balance >= Price(b)
      && Total(change) == balance - Price(b)
      && (change == map[] <==> balance == Price(b))
      && forall c :: c in change ==> 1 <= change[c] <= Quantity(cash, c)
  {
    if selected.Some? {
      var b := selected.value;
      if balance == Price(b) {
        assert Total(map[]) == 0 by {
          ZeroChangeValue(Descending());
        }
      } else if balance > Price(b) {
        GreedyChangeCorrect(Some(cash), balance - Price(b));
      }
    }
  }

  /**
   * After a sale that hands back its change, the coin stock is worth what it
   * was worth less what the customer had paid in beyond the price.
   */
  lemma SaleKeepsThePrice(selected: Option<Beverage>, balance: int, cash: map<Coin, int>, after: map<Coin, int>)
    requires PurchaseDecision(selected, balance, cash).Success?
    requires forall c :: Quantity(after, c) == Quantity(cash, c) - Quantity(PurchaseDecision(selected, balance, cash).value.1, c)
    ensures Total(after) == Total(cash) - (balance - Price(selected.value))
  {
    PurchaseDecisionPaysPrice(selected, balance, cash);
    TotalOfDifference(cash, after, PurchaseDecision(selected, balance, cash).value.1);
  }

  class VendingMachineApi {
    const productManager: ProductManager
    const cashManager: CashManager

    constructor (productManager: ProductManager, cashManager: CashManager)
      ensures this.productManager == productManager && this.cashManager == cashManager
    {
      this.productManager := productManager;
      this.cashManager := cashManager;
    }

    // Supplier operations

    /** Adds a batch of products to the stock; a refused batch reports the product manager's reason. */
    method RefillProducts(productMap: Option<seq<Entry<Beverage>>>) returns (r: Outcome<VendingError>)
      modifies productManager.productStock
      ensures productMap.None? || productMap.value == [] ==>
        r == Fail(ProductFailure(NoProducts)) && productManager.productStock.stockMap == old(productManager.productStock.stockMap)
      ensures productMap.Some? && productMap.value != [] ==>
        var (err, m) := ApplyEntries(old(productManager.productStock.stockMap), productMap.value, ValidBeverages(), Insert);
        productManager.productStock.stockMap == m &&
        (err.None? ==> r == Pass) &&
        (err.Some? ==> r == Fail(ProductFailure(ProductManagement.FromEntryError(err.value))))
    {
      var inserted := productManager.InsertProductsInStock(productMap);
      r := if inserted.Fail? then Fail(ProductFailure(inserted.error)) else Pass;
    }

    /** Adds a batch of coins to the stock; a refused batch reports the cash manager's reason. */
    method RefillCash(cashMap: Option<seq<Entry<Coin>>>) returns (r: Outcome<VendingError>)
      modifies cashManager.cashStock
      ensures cashMap.None? || cashMap.value == [] ==>
        r == Fail(CashFailure(NoCashItems)) && cashManager.cashStock.stockMap == old(cashManager.cashStock.stockMap)
      ensures cashMap.Some? && cashMap.value != [] ==>
        var (err, m) := ApplyEntries(old(cashManager.cashStock.stockMap), cashMap.value, ValidCoins(), Insert);
        cashManager.cashStock.stockMap == m &&
        (err.None? ==> r == Pass) &&
        (err.Some? ==> r == Fail(CashFailure(CashManagement.FromEntryError(err.value))))
    {
      var inserted := cashManager.InsertCashItemsInStock(cashMap);
      r := if inserted.Fail? then Fail(CashFailure(inserted.error)) else Pass;
    }

    function GetProductStockStatus(): (m: map<Beverage, int>)
      reads this, productManager, productManager.productStock
      ensures m.Keys == productManager.productStock.stockMap.Keys
      ensures forall b :: Quantity(m, b) == productManager.productStock.GetQuantity(b)
    {
      productManager.GetProductStock()
    }

    function GetCashStockStatus(): (m: map<Coin, int>)
      reads this, cashManager, cashManager.cashStock
      ensures m.Keys == cashManager.cashStock.stockMap.Keys
      ensures forall c :: Quantity(m, c) == cashManager.cashStock.GetQuantity(c)
    {
      cashManager.GetCashStock()
    }

    // User operations

    /** Gives the whole balance back when there is one and the stock can pay it; otherwise nothing changes. */
    method Refund() returns (refund: Option<map<Coin, int>>)
      modifies cashManager, cashManager.cashStock
      ensures old(cashManager.currentBalance) <= 0 ==> refund.None?
      ensures refund == GreedyChange(Some(old(cashManager.cashStock.stockMap)), old(cashManager.currentBalance))
      ensures refund.None? ==>
        cashManager.currentBalance == old(cashManager.currentBalance) &&
        cashManager.cashStock.stockMap == old(cashManager.cashStock.stockMap)
      ensures refund.Some? ==>
        cashManager.currentBalance == 0 && Total(refund.value) == old(cashManager.currentBalance) &&
        cashManager.cashStock.stockMap.Keys == old(cashManager.cashStock.stockMap).Keys &&
        forall c :: Quantity(cashManager.cashStock.stockMap, c)
                 == Quantity(old(cashManager.cashStock.stockMap), c) - Quantity(refund.value, c)
    {
      refund := None;
      if cashManager.HasCurrentBalance() {
        refund := cashManager.CalculateRefund();
      }
    }

    /** Selects a given product that is in stock and quotes its price. */
    method SelectProduct(product: Option<Beverage>) returns (r: Result<nat, VendingError>)
      modifies productManager
      ensures product.None? ==>
        r == Failure(InvalidProductItem) && productManager.selectedProduct == old(productManager.selectedProduct)
      ensures product.Some? && Quantity(productManager.productStock.stockMap, product.value) <= 0 ==>
        r == Failure(ProductNotAvailable(product.value)) && productManager.selectedProduct == old(productManager.selectedProduct)
      ensures product.Some? && Quantity(productManager.productStock.stockMap, product.value) > 0 ==>
        r == Success(Price(product.value)) && productManager.selectedProduct == product
    {
      if !productManager.IsProductItemAllowed(product) {
        return Failure(InvalidProductItem);
      }
      if !productManager.IsProductItemAvailable(product) {
        return Failure(ProductNotAvailable(product.value));
      }
      productManager.SetSelectedProduct(product);
      return Success(productManager.GetPriceOfSelectedProduct());
    }

    /** Takes a coin from the customer and reports the new balance. */
    method InsertCash(cash: Option<Coin>) returns (r: Result<int, VendingError>)
      modifies cashManager, cashManager.cashStock
      ensures cash.None? ==>
        r == Failure(InvalidCoin) && cashManager.currentBalance == old(cashManager.currentBalance) &&
        cashManager.cashStock.stockMap == old(cashManager.cashStock.stockMap)
      ensures cash.Some? ==>
        cashManager.currentBalance == old(cashManager.currentBalance) + Value(cash.value) &&
        cashManager.cashStock.stockMap == Added(old(cashManager.cashStock.stockMap), cash.value, 1) &&
        r == Success(cashManager.currentBalance)
    {
      var received := cashManager.ReceiveCash(cash);
      r := if received.Failure? then Failure(InvalidCoin) else Success(received.value);
    }

    function GetAllowedCashItems(): (cs: seq<Coin>)
      reads this, cashManager
      ensures |cs| == 6 && forall c: Coin :: c in cs
      ensures forall i, j :: 0 <= i < j < |cs| ==> Value(cs[i]) < Value(cs[j])
    {
      cashManager.GetValidCashItems()
    }

    function GetAvailableProducts(): (bs: seq<Beverage>)
      reads this, productManager, productManager.productStock
      ensures forall b :: b in bs <==> Quantity(productManager.productStock.stockMap, b) > 0
      ensures InDeclarationOrder(bs)
    {
      productManager.GetAvailableProducts()
    }

    /**
     * Sells the selected product: one unit leaves the product stock, the
     * selection is cleared, the change leaves the coin stock and the balance
     * drops to zero. The change is removed as a batch, which the cash manager
     * refuses when it is empty; after that refusal the product is already
     * gone and the selection cleared, but the balance is kept.
     */
    method CreatePurchaseResponse(product: Beverage, change: map<Coin, int>) returns (r: Result<Purchase, VendingError>)
      modifies productManager, productManager.productStock, cashManager, cashManager.cashStock
      ensures productManager.productStock.stockMap == RemovedOne(old(productManager.productStock.stockMap), product)
      ensures productManager.selectedProduct.None?
      ensures change == map[] ==>
        r == Failure(CashFailure(NoCashItems)) &&
        cashManager.currentBalance == old(cashManager.currentBalance) &&
        cashManager.cashStock.stockMap == old(cashManager.cashStock.stockMap)
      ensures change != map[] ==>
        var (err, m) := ApplyEntries(old(cashManager.cashStock.stockMap), ChangeEntries(change), ValidCoins(), Delete);
        cashManager.cashStock.stockMap == m &&
        (err.Some? ==> r == Failure(CashFailure(CashManagement.FromEntryError(err.value))) &&
                       cashManager.currentBalance == old(cashManager.currentBalance)) &&
        (err.None? ==> r == Success((product, change)) && cashManager.currentBalance == 0)
    {
      ChangeEntriesListed(change);
      var removedProduct := productManager.RemoveProductItemFromStock(Some(product));
      productManager.ResetSelectedProduct();
      var removedCash := cashManager.RemoveCashItemsFromStock(Some(ChangeEntries(change)));
      if removedCash.Fail? {
        return Failure(CashFailure(removedCash.error));
      }
      cashManager.ResetCurrentBalance();
      return Success((product, change));
    }

    /**
     * Confirms the purchase of the selected product. A refused purchase
     * changes nothing. A sale with change takes the product and the change
     * out of the stocks and clears the selection and the balance. A sale on
     * an exact payment is refused for want of coins to remove, after the
     * product has left the stock and the selection was cleared.
     */
    method ConfirmPurchase() returns (r: Result<Purchase, VendingError>)
      modifies productManager, productManager.productStock, cashManager, cashManager.cashStock
      ensures var d := PurchaseDecision(old(productManager.selectedProduct), old(cashManager.currentBalance),
                                        old(cashManager.cashStock.stockMap));
        d.Failure? ==>
          r == d &&
          productManager.selectedProduct == old(productManager.selectedProduct) &&
          productManager.productStock.stockMap == old(productManager.productStock.stockMap) &&
          cashManager.currentBalance == old(cashManager.currentBalance) &&
          cashManager.cashStock.stockMap == old(cashManager.cashStock.stockMap)
      ensures var d := PurchaseDecision(old(productManager.selectedProduct), old(cashManager.currentBalance),
                                        old(cashManager.cashStock.stockMap));
        d.Success? && d.value.1 != map[] ==>
          r == d &&
          productManager.selectedProduct.None? &&
          productManager.productStock.stockMap == RemovedOne(old(productManager.productStock.stockMap), d.value.0) &&
          cashManager.currentBalance == 0 &&
          cashManager.cashStock.stockMap.Keys == old(cashManager.cashStock.stockMap).Keys &&
          forall c :: Quantity(cashManager.cashStock.stockMap, c)
                   == Quantity(old(cashManager.cashStock.stockMap), c) - Quantity(d.value.1, c)
      ensures var d := PurchaseDecision(old(productManager.selectedProduct), old(cashManager.currentBalance),
                                        old(cashManager.cashStock.stockMap));
        d.Success? && d.value.1 == map[] ==>
          r == Failure(CashFailure(NoCashItems)) &&
          productManager.selectedProduct.None? &&
          productManager.productStock.stockMap == RemovedOne(old(productManager.productStock.stockMap), d.value.0) &&
          cashManager.currentBalance == old(cashManager.currentBalance) &&
          cashManager.cashStock.stockMap == old(cashManager.cashStock.stockMap)
    {
      if !productManager.IsProductSelected() {
        return Failure(NoProductSelected);
      }
      var selected := productManager.selectedProduct.value;
      var price := Price(selected);
      var balanceResult := cashManager.IsPossibleToPurchaseProduct(Some(price));
      match balanceResult.value {
        case BelowAmount =>
          return Failure(InsufficientBalance(selected));
        case ExactAmount =>
          r := CreatePurchaseResponse(selected, map[]);
        case AboveAmount =>
          var changeToRefund := cashManager.CalculateRemainingChange(Some(price)).value;
          var change := cashManager.GetCashItemsForChange(changeToRefund);
          if change.None? {
            return Failure(InsufficientChange);
          }
          GreedyChangeRemoval(cashManager.cashStock.stockMap, changeToRefund, change.value);
          r := CreatePurchaseResponse(selected, change.value);
      }
    }

    /**
     * The purchase as its tests expect it: on an exact payment no coins are
     * removed, and the sale completes with empty change.
     */
    method ConfirmPurchaseCorrected() returns (r: Result<Purchase, VendingError>)
      modifies productManager, productManager.productStock, cashManager, cashManager.cashStock
      ensures var d := PurchaseDecision(old(productManager.selectedProduct), old(cashManager.currentBalance),
                                        old(cashManager.cashStock.stockMap));
        r == d &&
        (d.Failure? ==>
          productManager.selectedProduct == old(productManager.selectedProduct) &&
          productManager.productStock.stockMap == old(productManager.productStock.stockMap) &&
          cashManager.currentBalance == old(cashManager.currentBalance) &&
          cashManager.cashStock.stockMap == old(cashManager.cashStock.stockMap)) &&
        (d.Success? ==>
          productManager.selectedProduct.None? &&
          productManager.productStock.stockMap == RemovedOne(old(productManager.productStock.stockMap), d.value.0) &&
          cashManager.currentBalance == 0 &&
          cashManager.cashStock.stockMap.Keys == old(cashManager.cashStock.stockMap).Keys &&
          forall c :: Quantity(cashManager.cashStock.stockMap, c)
                   == Quantity(old(cashManager.cashStock.stockMap), c) - Quantity(d.value.1, c))
    {
      if !productManager.IsProductSelected() {
        return Failure(NoProductSelected);
      }
      var selected := productManager.selectedProduct.value;
      var price := Price(selected);
      var balanceResult := cashManager.IsPossibleToPurchaseProduct(Some(price));
      match balanceResult.value {
        case BelowAmount =>
          return Failure(InsufficientBalance(selected));
        case ExactAmount =>
          r := CreatePurchaseResponseCorrected(selected, map[]);
        case AboveAmount =>
          var changeToRefund := cashManager.CalculateRemainingChange(Some(price)).value;
          var change := cashManager.GetCashItemsForChange(changeToRefund);
          if change.None? {
            return Failure(InsufficientChange);
          }
          GreedyChangeRemoval(cashManager.cashStock.stockMap, changeToRefund, change.value);
          r := CreatePurchaseResponseCorrected(selected, change.value);
      }
    }

    /** As `CreatePurchaseResponse`, but an empty change removes no coins instead of being refused. */
    method CreatePurchaseResponseCorrected(product: Beverage, change: map<Coin, int>) returns (r: Result<Purchase, VendingError>)
      modifies productManager, productManager.productStock, cashManager, cashManager.cashStock
      ensures productManager.productStock.stockMap == RemovedOne(old(productManager.productStock.stockMap), product)
      ensures productManager.selectedProduct.None?
      ensures change == map[] ==>
        r == Success((product, change)) && cashManager.currentBalance == 0 &&
        cashManager.cashStock.stockMap == old(cashManager.cashStock.stockMap)
      ensures change != map[] ==>
        var (err, m) := ApplyEntries(old(cashManager.cashStock.stockMap), ChangeEntries(change), ValidCoins(), Delete);
        cashManager.cashStock.stockMap == m &&
        (err.Some? ==> r == Failure(CashFailure(CashManagement.FromEntryError(err.value))) &&
                       cashManager.currentBalance == old(cashManager.currentBalance)) &&
        (err.None? ==> r == Success((product, change)) && cashManager.currentBalance == 0)
    {
      ChangeEntriesListed(change);
      var removedProduct := productManager.RemoveProductItemFromStock(Some(product));
      productManager.ResetSelectedProduct();
      if change != map[] {
        var removedCash := cashManager.RemoveCashItemsFromStock(Some(ChangeEntries(change)));
        if removedCash.Fail? {
          return Failure(CashFailure(removedCash.error));
        }
      }
      cashManager.ResetCurrentBalance();
      return Success((product, change));
    }
  }
}
