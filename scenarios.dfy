/**
 * Customer sessions driven through the machine from a fresh setup, each
 * proved to end in a stated result and state.
 */
module Scenarios {
  import opened Wrappers
  import opened Coins
  import opened Beverages
  import opened Stocks
  import opened GreedyChangeProcessor
  import opened CashManagement
  import opened ProductManagement
  import opened VendingMachine

  /** A machine over the given stocks, with nothing selected and no balance. */
  method NewMachine(products: map<Beverage, int>, coins: map<Coin, int>) returns (api: VendingMachineApi)
    ensures fresh(api) && fresh(api.productManager) && fresh(api.productManager.productStock)
    ensures fresh(api.cashManager) && fresh(api.cashManager.cashStock)
    ensures api.productManager.productStock.stockMap == products && api.productManager.selectedProduct.None?
    ensures api.cashManager.cashStock.stockMap == coins && api.cashManager.currentBalance == 0
  {
    var productStock := new Stock<Beverage>(products);
    var cashStock := new Stock<Coin>(coins);
    var productManager := new ProductManager(productStock, None);
    var cashManager := new CashManager(cashStock);
    api := new VendingMachineApi(productManager, cashManager);
  }

  /**
   * Paying a coke with exactly 1.50 into an empty coin stock: the purchase is
   * refused for want of coins to remove, yet the coke has left the stock and
   * the 1.50 stays as balance.
   */
  method ExactPaymentScenario() returns (r: Result<Purchase, VendingError>, balance: int, cokesLeft: int, selected: Option<Beverage>)
    ensures r == Failure(CashFailure(NoCashItems))
    ensures balance == 150 && cokesLeft == 0 && selected.None?
  {
    var api := NewMachine(map[Coke := 1], map[]);
    var price := api.SelectProduct(Some(Coke));
    var b1 := api.InsertCash(Some(One));
    var b2 := api.InsertCash(Some(FiftyCents));
    assert api.cashManager.currentBalance == 150;
    r := api.ConfirmPurchase();
    balance := api.cashManager.currentBalance;
    cokesLeft := api.productManager.productStock.GetQuantity(Coke);
    selected := api.productManager.selectedProduct;
  }

  /** The same session with the corrected purchase: the coke is sold with no change and the balance cleared. */
  method ExactPaymentScenarioCorrected() returns (r: Result<Purchase, VendingError>, balance: int, cokesLeft: int, ones: int, fifties: int)
    ensures r == Success((Coke, map[]))
    ensures balance == 0 && cokesLeft == 0 && ones == 1 && fifties == 1
  {
    var api := NewMachine(map[Coke := 1], map[]);
    var price := api.SelectProduct(Some(Coke));
    var b1 := api.InsertCash(Some(One));
    var b2 := api.InsertCash(Some(FiftyCents));
    assert api.cashManager.currentBalance == 150;
    r := api.ConfirmPurchaseCorrected();
    balance := api.cashManager.currentBalance;
    cokesLeft := api.productManager.productStock.GetQuantity(Coke);
    ones := api.cashManager.cashStock.GetQuantity(One);
    fifties := api.cashManager.cashStock.GetQuantity(FiftyCents);
  }

  /**
   * Buying a water (0.90) with two fifties against a stock of one five, two
   * tens, two twenties, one fifty, one one and one two: the change is one ten.
   */
  method WaterWithChangeScenario() returns (r: Result<Purchase, VendingError>, balance: int, tens: int, fifties: int, watersLeft: int)
    ensures r == Success((Water, map[TenCents := 1]))
    ensures balance == 0 && tens == 1 && fifties == 3 && watersLeft == 0
  {
    var api := NewMachine(map[Sprite := 1, Coke := 1, Water := 1], StockOf(1, 2, 2, 1, 1, 1));
    var price := api.SelectProduct(Some(Water));
    var b1 := api.InsertCash(Some(FiftyCents));
    var b2 := api.InsertCash(Some(FiftyCents));
    assert api.cashManager.currentBalance == 100;
    assert api.cashManager.cashStock.stockMap == StockOf(1, 2, 2, 3, 1, 1);
    TenCentsExample();
    assert PurchaseDecision(Some(Water), 100, StockOf(1, 2, 2, 3, 1, 1)) == Success((Water, map[TenCents := 1]));
    assert api.productManager.selectedProduct == Some(Water);
    assert TenCents in map[TenCents := 1];
    r := api.ConfirmPurchase();
    balance := api.cashManager.currentBalance;
    tens := api.cashManager.cashStock.GetQuantity(TenCents);
    fifties := api.cashManager.cashStock.GetQuantity(FiftyCents);
    watersLeft := api.productManager.productStock.GetQuantity(Water);
  }

  /**
   * Misuse from a fresh setup: confirming with nothing selected and refunding
   * with no balance are refused; a two inserted and refunded comes back as
   * that two; confirming a water with no money is refused for balance.
   */
  method BadUsageScenario()
    returns (confirmEarly: Result<Purchase, VendingError>, refundEmpty: Option<map<Coin, int>>,
             refundTwo: Option<map<Coin, int>>, twos: int, confirmBroke: Result<Purchase, VendingError>)
    ensures confirmEarly == Failure(NoProductSelected)
    ensures refundEmpty.None?
    ensures refundTwo == Some(map[Two := 1]) && twos == 1
    ensures confirmBroke == Failure(InsufficientBalance(Water))
  {
    var api := NewMachine(map[Sprite := 1, Coke := 1, Water := 1], StockOf(1, 2, 2, 1, 1, 1));
    confirmEarly := api.ConfirmPurchase();
    refundEmpty := api.Refund();
    var balance := api.InsertCash(Some(Two));
    assert api.cashManager.cashStock.stockMap == StockOf(1, 2, 2, 1, 1, 2);
    TwoEurosExample();
    refundTwo := api.Refund();
    twos := api.cashManager.cashStock.GetQuantity(Two);
    var price := api.SelectProduct(Some(Water));
    confirmBroke := api.ConfirmPurchase();
  }
}
