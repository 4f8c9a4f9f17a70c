# Vending machine core in Dafny

A model of the transactional core of a coin-operated vending machine
(ajdafonte/vending-machine, Java), with proofs about it. The machine sells
three beverages (Coke 1.50, Sprite 1.40, Water 0.90). It accepts six coins
(0.05, 0.10, 0.20, 0.50, 1, 2) and gives change greedily from its own coin
stock.

All money is whole euro cents. Java `null` becomes `Option.None`, and a
thrown exception becomes a `Failure`/`Fail` value whose error datatype has
one constructor per distinct message. A map handed to a batch operation
becomes a sequence of `(key, quantity)` entries.

Modules, in dependency order:

- `Wrappers` (wrappers.dfy): `Option`, `Result`, `Outcome`.
- `Coins`, `Beverages`, `BalanceResults`: the closed enumerations.
- `Stocks` (stocks.dfy): the generic counting ledger `Stock<T>`. It is a class over a mutable `map`. The pure functions `Added`, `Removed` and `RemovedOne` describe each update, and the class methods are proved to perform exactly those updates.
- `Batches` (batches.dfy): validate-and-apply-as-you-go over a batch of entries. Both managers share it.
- `GreedyChangeProcessor` (greedy_change.dfy):
  - the specification `GreedyChange` (a `Run` over the coins in descending value);
  - its correctness lemmas;
  - the loop `ProcessChange`, proved equal to the specification.
- `CashManagement` (cash_manager.dfy): class `CashManager` holds the balance and the coin stock.
- `ProductManagement` (product_manager.dfy): class `ProductManager` holds the beverage stock and the selection.
- `VendingMachine` (vending_machine.dfy):
  - class `VendingMachineApi`;
  - the pure purchase decision `PurchaseDecision` and the lemmas about it.
- `Scenarios` (scenarios.dfy): customer sessions on freshly built machines, mirroring the integration tests.

## Model

| member | source | states |
|---|---|---|
| Coins.Value | src/main/java/com/dexma/hometest/domain/Coin.java:8-55 | every coin has a positive value that is a multiple of five cents (5, 10, 20, 50, 100, 200) |
| Coins.ValidCoins | src/main/java/com/dexma/hometest/domain/Coin.java:57-60 | six coins, every coin listed, values strictly increasing in declaration order |
| Coins.ValueInjective | src/main/java/com/dexma/hometest/domain/Coin.java:8-55 | two coins have the same value exactly when they are the same coin |
| Beverages.Name | src/main/java/com/dexma/hometest/domain/Beverage.java:8-49 | every beverage has a non-empty name ("Coke", "Sprite", "Water") |
| Beverages.Price | src/main/java/com/dexma/hometest/domain/Beverage.java:8-49 | every price is strictly positive (150, 140, 90) |
| Beverages.Ordinal | src/main/java/com/dexma/hometest/domain/Beverage.java:8-49 | a beverage's position in declaration order is below three; ValidBeverages lists each beverage at that position |
| Beverages.ValidBeverages | src/main/java/com/dexma/hometest/domain/Beverage.java:51-54 | three beverages, each listed at its declaration position |
| Beverages.NameInjective | src/main/java/com/dexma/hometest/domain/Beverage.java:8-49 | names tell beverages apart |
| BalanceResults.Code | src/main/java/com/dexma/hometest/domain/BalanceResult.java:8-15 | the integer each constant is declared with lies in -1..1; ByValueInvertsCode shows it tells the constants apart |
| BalanceResults.Values | src/main/java/com/dexma/hometest/domain/BalanceResult.java:8 | the three constants, each once, in declaration order with codes -1, 0, 1 |
| BalanceResults.FindByCode | src/main/java/com/dexma/hometest/domain/BalanceResult.java:17-28 | a found constant is in the list and carries the value; none found means no constant in the list carries it |
| BalanceResults.ByValue | src/main/java/com/dexma/hometest/domain/BalanceResult.java:17-28 | a result exists exactly for -1, 0 and 1, and it carries that value |
| BalanceResults.ByValueInvertsCode | src/main/java/com/dexma/hometest/domain/BalanceResult.java:8 | looking up a constant's own value gives that constant back (a bijection with {-1, 0, 1}) |
| BalanceResults.CompareTo | src/main/java/com/dexma/hometest/business/CashManager.java:155 | the comparison is negative, zero or positive exactly when the balance is below, equal to or above the price, and lies in -1..1 |
| Stocks.Quantity | src/main/java/com/dexma/hometest/domain/Stock.java:23-27 | an absent key counts as zero, a present key as its stored quantity |
| Stocks.Floor | src/main/java/com/dexma/hometest/domain/Stock.java:58-59 | the result is the difference when that is not negative and zero otherwise: never negative, never below the difference, and always one of the two |
| Stocks.Added | src/main/java/com/dexma/hometest/domain/Stock.java:40-44 | the key is present with old + q, every other key is unchanged, only the key may be added, and non-negative quantities stay non-negative for q >= 0 |
| Stocks.Removed | src/main/java/com/dexma/hometest/domain/Stock.java:56-60 | the key is always written, with max(0, old - q); other keys are unchanged; quantities never become negative |
| Stocks.RemovedOne | src/main/java/com/dexma/hometest/domain/Stock.java:46-54 | a positive quantity drops by one with the key set unchanged; otherwise the map is untouched and no key is added |
| Stocks.RemovedOneIsRemovedOfOne | src/main/java/com/dexma/hometest/domain/Stock.java:46-60 | the two delete overloads agree on a positive quantity but differ on an absent key, which only the quantity overload writes |
| Stocks.InsertThenDelete | src/main/java/com/dexma/hometest/domain/Stock.java:34-60 | deleting what was just inserted restores every quantity |
| Stocks.Stock.constructor | src/main/java/com/dexma/hometest/domain/Stock.java:13-16 | the stock starts from the given map |
| Stocks.Stock.GetQuantity | src/main/java/com/dexma/hometest/domain/Stock.java:23-27 | zero for an absent item, the stored quantity otherwise |
| Stocks.Stock.HasItem | src/main/java/com/dexma/hometest/domain/Stock.java:62-65 | holds exactly when the item is present with a positive quantity |
| Stocks.Stock.GetItem | src/main/java/com/dexma/hometest/domain/Stock.java:29-32 | returns the item exactly when it is in stock, none exactly when its quantity is not positive |
| Stocks.Stock.InsertItem | src/main/java/com/dexma/hometest/domain/Stock.java:34-38 | the new map is `Added(old, item, 1)` |
| Stocks.Stock.InsertItemQuantity | src/main/java/com/dexma/hometest/domain/Stock.java:40-44 | the new map is `Added(old, item, quantity)` |
| Stocks.Stock.DeleteItem | src/main/java/com/dexma/hometest/domain/Stock.java:46-54 | the new map is `RemovedOne(old, item)` |
| Stocks.Stock.DeleteItemQuantity | src/main/java/com/dexma/hometest/domain/Stock.java:56-60 | the new map is `Removed(old, item, quantity)` |
| Stocks.Stock.ClearAllItems | src/main/java/com/dexma/hometest/domain/Stock.java:67-70 | the ledger is empty and every quantity reads zero |
| Stocks.Stock.GetStockMap | src/main/java/com/dexma/hometest/domain/Stock.java:77-80 | the returned map has exactly the stock's keys, zero-quantity entries included, and the same quantity for every key |
| Batches.CheckEntry | src/main/java/com/dexma/hometest/business/CashManager.java:56-67 | the key is checked before the quantity: absent or disallowed key gives the item error, else a quantity <= 0 gives the quantity error, else no error (all three as iff) |
| Batches.ToOutcome | src/main/java/com/dexma/hometest/business/CashManager.java:58-67 | a batch passes exactly when no entry was refused, and otherwise fails with the refused entry's reason in the manager's own terms |
| Batches.ApplyEntries | src/main/java/com/dexma/hometest/business/CashManager.java:77-83 | the batch is accepted exactly when every entry is valid, and a reported error is the check result of one of its entries |
| Batches.ApplyValidEntries | src/main/java/com/dexma/hometest/business/CashManager.java:69-101 | a batch of valid entries is accepted; inserting raises each key by the total listed for it; deleting lowers it by that total, floored at zero |
| Batches.ApplyEntriesStopsAtFirstInvalid | src/main/java/com/dexma/hometest/business/CashManager.java:77-83 | the first invalid entry's error is reported, and the ledger keeps exactly the entries before it applied |
| Batches.ApplyEntriesKeepsKeys | src/main/java/com/dexma/hometest/business/CashManager.java:86-101 | a batch whose items are all recorded leaves the set of recorded items unchanged, so an item counted down to zero stays recorded with zero |
| Batches.ApplyEntriesKeepsNonNegative | src/main/java/com/dexma/hometest/business/CashManager.java:69-101 | a batch never makes a non-negative ledger negative, accepted or not |
| Batches.EntriesOf | src/main/java/com/dexma/hometest/business/CashManager.java:94-100 | every entry walked from a map names a key of the map with its quantity |
| Batches.ListedEntriesOf | src/main/java/com/dexma/hometest/business/CashManager.java:94-100 | walking distinct keys lists each walked key's quantity exactly once and nothing for the others |
| Batches.EntriesOfEmpty | src/main/java/com/dexma/hometest/business/CashManager.java:88-91 | the walk is empty exactly when no walked key is in the map |
| GreedyChangeProcessor.Descending | src/main/java/com/dexma/hometest/business/GreedyChangeProcessor.java:23 | the coins by strictly decreasing value, the reverse of declaration order |
| GreedyChangeProcessor.DescendingListsEveryCoin | src/main/java/com/dexma/hometest/business/GreedyChangeProcessor.java:23-24 | the descending order lists every coin once |
| GreedyChangeProcessor.Take | src/main/java/com/dexma/hometest/business/GreedyChangeProcessor.java:30-41 | how many units of one coin the inner loop hands out; it carries no contract of its own, and TakeBounds and GreedyChoice state its bounds |
| GreedyChangeProcessor.Rest | src/main/java/com/dexma/hometest/business/GreedyChangeProcessor.java:34-41 | the inner loop never leaves more than it started with |
| GreedyChangeProcessor.TakeBounds | src/main/java/com/dexma/hometest/business/GreedyChangeProcessor.java:34-41 | coins taken never exceed the remainder or the stock; what remains is the remainder less what was taken; stopping short of the stock means the coin no longer fits |
| GreedyChangeProcessor.Step | src/main/java/com/dexma/hometest/business/GreedyChangeProcessor.java:28-41 | one pass of the inner loop; it carries no contract of its own, and StepSkipsOrTakes states its two cases |
| GreedyChangeProcessor.StepSkipsOrTakes | src/main/java/com/dexma/hometest/business/GreedyChangeProcessor.java:34-41 | a coin that does not fit or is out of stock leaves the change and the remainder untouched; otherwise it is handed out at least once, and no other coin's count moves |
| GreedyChangeProcessor.Run | src/main/java/com/dexma/hometest/business/GreedyChangeProcessor.java:28-47 | the outer loop over a prefix of the coins; it carries no contract of its own, and RunInvariant, RunSettled and RunCount state what it computes |
| GreedyChangeProcessor.IsValidStock | src/main/java/com/dexma/hometest/business/GreedyChangeProcessor.java:56-59 | a stock passes exactly when it is present and records at least one coin, even one with quantity zero |
| GreedyChangeProcessor.IsValidAmount | src/main/java/com/dexma/hometest/business/GreedyChangeProcessor.java:61-64 | an amount passes exactly when it is at least one cent |
| GreedyChangeProcessor.GreedyChange | src/main/java/com/dexma/hometest/business/GreedyChangeProcessor.java:18-64 | no result for an absent or empty stock or a non-positive amount |
| GreedyChangeProcessor.RunInvariant | src/main/java/com/dexma/hometest/business/GreedyChangeProcessor.java:28-47 | at every step, value handed out plus remainder equals the amount, and each coin used is used 1..stock times |
| GreedyChangeProcessor.RunSettled | src/main/java/com/dexma/hometest/business/GreedyChangeProcessor.java:43-46 | once the remainder is zero, the later coins change nothing, so the early `break` does not alter the result |
| GreedyChangeProcessor.RunCount | src/main/java/com/dexma/hometest/business/GreedyChangeProcessor.java:30-41 | each coin's final count is what its own inner loop takes from the remainder left by the larger coins |
| GreedyChangeProcessor.GreedyChangeCorrect | src/main/java/com/dexma/hometest/business/GreedyChangeProcessor.java:18-54 | a returned change is for a positive amount, sums to it exactly, is not empty, and uses each listed coin at least once and at most its stock |
| GreedyChangeProcessor.GreedyChoice | src/main/java/com/dexma/hometest/business/GreedyChangeProcessor.java:23-41 | the coin at each position of the descending order is taken as often as it fits the remainder, unless its stock runs out |
| GreedyChangeProcessor.TotalSpelledOut | src/main/java/com/dexma/hometest/business/GreedyChangeProcessor.java:34-41 | the value of a change is the sum of value times count over the six coins |
| GreedyChangeProcessor.TotalOfDifference | src/main/java/com/dexma/hometest/business/CashManager.java:94-100 | removing a change coin by coin lowers a stock's value by the change's value |
| GreedyChangeProcessor.TotalOfAddedCoin | src/main/java/com/dexma/hometest/business/CashManager.java:130-144 | one more coin raises a stock's value by that coin's value |
| GreedyChangeProcessor.TenEurosExample | src/test/java/com/dexma/hometest/business/GreedyChangeProcessorTest.java:59-76 | 10.00 against (2, 2, 5, 2, 4, 2) is five twenties, two fifties, four ones and two twos |
| GreedyChangeProcessor.LowAmountExamples | src/test/java/com/dexma/hometest/business/GreedyChangeProcessorTest.java:79-111 | 0.75 is fifty, twenty and five; 0.10 is one ten |
| GreedyChangeProcessor.EightEurosExample | src/test/java/com/dexma/hometest/business/GreedyChangeProcessorTest.java:115-129 | 8.00 against four twos is the four twos |
| GreedyChangeProcessor.SixtyCentsExamples | src/test/java/com/dexma/hometest/business/GreedyChangeProcessorTest.java:132-165 | 0.60 is fifty plus ten, and three twenties when there is no fifty |
| GreedyChangeProcessor.TooLargeExamples | src/test/java/com/dexma/hometest/business/GreedyChangeProcessorTest.java:181-192 | 20.00 and 300.00 against two of each coin give no change |
| GreedyChangeProcessor.NoBacktracking | src/main/java/com/dexma/hometest/business/GreedyChangeProcessor.java:43-51 | 0.60 against one fifty and three twenties gives no change, although three twenties would pay it |
| GreedyChangeProcessor.EmptyStockGivesNoChange | src/test/java/com/dexma/hometest/business/GreedyChangeProcessorTest.java:213-221 | an all-zero stock never gives change |
| GreedyChangeProcessor.TenCentsExample | src/test/java/com/dexma/hometest/VendingMachineApiIntegrationTest.java:117-168 | 0.10 against (1, 2, 2, 3, 1, 1) is one ten |
| GreedyChangeProcessor.TwoEurosExample | src/test/java/com/dexma/hometest/VendingMachineApiIntegrationTest.java:171-195 | 2.00 against (1, 2, 2, 1, 1, 2) is one two |
| GreedyChangeProcessor.FiftyCentsExample | src/test/java/com/dexma/hometest/VendingMachineApiIntegrationTest.java:207-255 | 0.50 against (1, 2, 2, 1, 3, 1) is one fifty |
| GreedyChangeProcessor.NoFiftyExample | src/test/java/com/dexma/hometest/VendingMachineApiIntegrationTest.java:257-300 | 0.60 with no fifty in stock is two twenties and two tens |
| GreedyChangeProcessor.ProcessChange | src/main/java/com/dexma/hometest/business/GreedyChangeProcessor.java:18-54 | the nested loops with the early exit compute exactly `GreedyChange` |
| CashManagement.ChangeEntries | src/main/java/com/dexma/hometest/VendingMachineApi.java:175-180 | the change handed to the coin removal, as a batch: every entry names a coin of the change with its count |
| CashManagement.ChangeEntriesListed | src/main/java/com/dexma/hometest/business/CashManager.java:94-100 | a change walked as a batch lists exactly its count for every coin, and is empty exactly when the change is |
| CashManagement.FromEntryError | src/main/java/com/dexma/hometest/business/CashManager.java:56-67 | a refused coin entry is reported as an invalid cash item exactly when its coin was refused, and as an invalid quantity exactly when its quantity was |
| CashManagement.CoveredChangeRemoval | src/main/java/com/dexma/hometest/business/CashManager.java:86-101 | removing a non-empty change the stock covers succeeds, lowers each coin by exactly its count and keeps every coin recorded, spent ones with zero |
| CashManagement.GreedyChangeRemoval | src/main/java/com/dexma/hometest/business/CashManager.java:116-128 | the change the greedy processor returns can always be taken out of the stock it was computed on, with every coin staying recorded |
| CashManagement.CashManager.constructor | src/main/java/com/dexma/hometest/business/CashManager.java:24-30 | a new manager has a zero balance over the given stock |
| CashManagement.CashManager.GetValidCashItems | src/main/java/com/dexma/hometest/business/CashManager.java:44-47 | all six coins are accepted, listed by strictly increasing value |
| CashManagement.CashManager.IsCashItemAllowed | src/main/java/com/dexma/hometest/business/CashManager.java:39-42 | a coin is allowed exactly when one is given |
| CashManagement.CashManager.GetCashStock | src/main/java/com/dexma/hometest/business/CashManager.java:49-52 | reports the stock's exact key set, so a coin recorded with zero stays visible and an unrecorded one stays absent, with every coin's quantity |
| CashManagement.CashManager.ValidateCashEntry | src/main/java/com/dexma/hometest/business/CashManager.java:56-67 | an absent coin is an invalid cash item, else a quantity <= 0 is an invalid quantity, else the entry passes (each as iff) |
| CashManagement.CashManager.InsertCashItemsInStock | src/main/java/com/dexma/hometest/business/CashManager.java:69-84 | an absent or empty batch is refused with nothing changed; otherwise the stock and the outcome are those of applying the entries in order |
| CashManagement.CashManager.RemoveCashItemsFromStock | src/main/java/com/dexma/hometest/business/CashManager.java:86-101 | as insertion, with zero-floored removal |
| CashManagement.CashManager.GetCashItemsForChange | src/main/java/com/dexma/hometest/business/CashManager.java:110-114 | returns the greedy change over the current stock and changes nothing |
| CashManagement.CashManager.CalculateRefund | src/main/java/com/dexma/hometest/business/CashManager.java:116-128 | returns the greedy change for the whole balance; if it exists it is worth the balance, its coins leave the stock, every coin stays recorded (spent ones with zero) and the balance becomes zero; otherwise nothing changes |
| CashManagement.CashManager.ReceiveCash | src/main/java/com/dexma/hometest/business/CashManager.java:130-144 | an absent coin is refused with nothing changed; a coin raises the balance by its value, adds one to its stock, and the new balance is returned |
| CashManagement.CashManager.IsPossibleToPurchaseProduct | src/main/java/com/dexma/hometest/business/CashManager.java:148-156 | an absent or negative price is refused; otherwise below, exact or above exactly when the balance is <, = or > the price |
| CashManagement.CashManager.CalculateRemainingChange | src/main/java/com/dexma/hometest/business/CashManager.java:158-166 | an absent or negative price is refused; otherwise balance - price when there is a balance, else zero |
| CashManagement.CashManager.GetCurrentBalance | src/main/java/com/dexma/hometest/business/CashManager.java:173-176 | returns the balance held right now, which is positive exactly when the customer has a balance to spend |
| CashManagement.CashManager.HasCurrentBalance | src/main/java/com/dexma/hometest/business/CashManager.java:168-171 | holds exactly when the balance is positive |
| CashManagement.CashManager.IncrementCurrentBalance | src/main/java/com/dexma/hometest/business/CashManager.java:178-181 | the balance grows by the amount |
| CashManagement.CashManager.SetCurrentBalance | src/main/java/com/dexma/hometest/business/CashManager.java:183-186 | the balance is the given value |
| CashManagement.CashManager.ResetCurrentBalance | src/main/java/com/dexma/hometest/business/CashManager.java:188-191 | the balance is zero |
| ProductManagement.FromEntryError | src/main/java/com/dexma/hometest/business/ProductManager.java:64-75 | a refused product entry is reported as an invalid product exactly when its product was refused, and as an invalid quantity exactly when its quantity was |
| ProductManagement.ProductManager.constructor | src/main/java/com/dexma/hometest/business/ProductManager.java:23-27 | the manager starts from the given stock and selection |
| ProductManagement.ProductManager.IsProductItemAllowed | src/main/java/com/dexma/hometest/business/ProductManager.java:35-38 | a product is allowed exactly when one is given |
| ProductManagement.ProductManager.IsProductItemAvailable | src/main/java/com/dexma/hometest/business/ProductManager.java:40-43 | holds exactly for a given product whose quantity is positive |
| ProductManagement.ProductManager.GetAvailableProducts | src/main/java/com/dexma/hometest/business/ProductManager.java:45-50 | lists exactly the available beverages, in declaration order |
| ProductManagement.ProductManager.AvailableAmong | src/main/java/com/dexma/hometest/business/ProductManager.java:47-49 | the filter keeps exactly the available candidates, and keeps their order |
| ProductManagement.ProductManager.GetValidProductItems | src/main/java/com/dexma/hometest/business/ProductManager.java:52-55 | all three beverages are valid, listed in declaration order |
| ProductManagement.ProductManager.GetProductStock | src/main/java/com/dexma/hometest/business/ProductManager.java:57-60 | reports the stock's exact key set, so a beverage recorded with zero stays visible and an unrecorded one stays absent, with every beverage's quantity |
| ProductManagement.ProductManager.ValidateProductEntry | src/main/java/com/dexma/hometest/business/ProductManager.java:64-75 | an absent product is invalid, else a quantity <= 0 is invalid, else the entry passes (each as iff) |
| ProductManagement.ProductManager.InsertProductsInStock | src/main/java/com/dexma/hometest/business/ProductManager.java:77-92 | an absent or empty batch is refused with nothing changed; otherwise the stock and the outcome are those of applying the entries in order |
| ProductManagement.ProductManager.RemoveProductItemFromStock | src/main/java/com/dexma/hometest/business/ProductManager.java:94-101 | an absent product is refused with nothing changed; otherwise the stock loses one unit, floored at zero |
| ProductManagement.ProductManager.SetSelectedProduct | src/main/java/com/dexma/hometest/business/ProductManager.java:110-113 | the selection is the given product |
| ProductManagement.ProductManager.GetPriceOfSelectedProduct | src/main/java/com/dexma/hometest/business/ProductManager.java:115-118 | the selected product's (positive) price, or zero with no selection |
| ProductManagement.ProductManager.ResetSelectedProduct | src/main/java/com/dexma/hometest/business/ProductManager.java:120-123 | nothing is selected afterwards |
| ProductManagement.ProductManager.GetSelectedProduct | src/main/java/com/dexma/hometest/business/ProductManager.java:124-127 | returns the product currently selected, and one is returned exactly when a product is selected |
| ProductManagement.ProductManager.IsProductSelected | src/main/java/com/dexma/hometest/business/ProductManager.java:130-133 | holds exactly when a product is selected |
| VendingMachine.PurchaseDecision | src/main/java/com/dexma/hometest/VendingMachineApi.java:122-161 | no selection is refused exactly when nothing is selected; a balance below the price is refused exactly then; an exact balance sells with no change; above the price, the sale is refused for missing change exactly when greedy change fails, and otherwise hands out the product with exactly the greedy change |
| VendingMachine.PurchaseDecisionPaysPrice | src/main/java/com/dexma/hometest/VendingMachineApi.java:146-156 | a sale hands out the selected product with change worth exactly balance - price, empty exactly on an exact payment, each coin taken from the stock |
| VendingMachine.SaleKeepsThePrice | src/main/java/com/dexma/hometest/VendingMachineApi.java:175-184 | after a sale the coin stock is worth its old value less what was paid beyond the price |
| VendingMachine.VendingMachineApi.constructor | src/main/java/com/dexma/hometest/VendingMachineApi.java:28-32 | the machine uses the given managers |
| VendingMachine.VendingMachineApi.RefillProducts | src/main/java/com/dexma/hometest/VendingMachineApi.java:38-49 | the product batch insertion, its refusal reported as a product failure with the same reason |
| VendingMachine.VendingMachineApi.RefillCash | src/main/java/com/dexma/hometest/VendingMachineApi.java:51-62 | the coin batch insertion, its refusal reported as a cash failure with the same reason |
| VendingMachine.VendingMachineApi.GetProductStockStatus | src/main/java/com/dexma/hometest/VendingMachineApi.java:64-68 | reports the stock's exact key set, so a beverage recorded with zero stays visible and an unrecorded one stays absent, with every beverage's quantity |
| VendingMachine.VendingMachineApi.GetCashStockStatus | src/main/java/com/dexma/hometest/VendingMachineApi.java:70-74 | reports the stock's exact key set, so a coin recorded with zero stays visible and an unrecorded one stays absent, with every coin's quantity |
| VendingMachine.VendingMachineApi.Refund | src/main/java/com/dexma/hometest/VendingMachineApi.java:80-89 | no balance gives nothing and changes nothing; otherwise the refund is the greedy change for the balance, worth the balance and taken from the stock with every coin staying recorded, and the balance becomes zero; without such change nothing changes |
| VendingMachine.VendingMachineApi.SelectProduct | src/main/java/com/dexma/hometest/VendingMachineApi.java:91-106 | an absent product is refused, then an out-of-stock one, neither changing the selection; otherwise the product is selected and its price returned |
| VendingMachine.VendingMachineApi.InsertCash | src/main/java/com/dexma/hometest/VendingMachineApi.java:108-119 | an absent coin is refused with nothing changed; a coin raises the balance and the stock and the new balance is returned |
| VendingMachine.VendingMachineApi.GetAllowedCashItems | src/main/java/com/dexma/hometest/VendingMachineApi.java:163-167 | all six coins, smallest first |
| VendingMachine.VendingMachineApi.GetAvailableProducts | src/main/java/com/dexma/hometest/VendingMachineApi.java:169-173 | exactly the beverages in stock, in declaration order |
| VendingMachine.VendingMachineApi.CreatePurchaseResponse | src/main/java/com/dexma/hometest/VendingMachineApi.java:175-184 | one unit of the product leaves the stock and the selection is cleared; an empty change is then refused with balance and coins kept; otherwise the change leaves the coin stock and the balance becomes zero |
| VendingMachine.VendingMachineApi.ConfirmPurchase | src/main/java/com/dexma/hometest/VendingMachineApi.java:122-161 | a refused decision changes nothing; a sale with change completes with product, change and balance all settled, the spent coins staying recorded with zero; an exact payment is refused for want of coins after the product left and the selection was cleared, keeping the balance |
| VendingMachine.VendingMachineApi.ConfirmPurchaseCorrected | src/test/java/com/dexma/hometest/VendingMachineApiTest.java:336-359 | returns exactly the purchase decision; a refusal changes nothing; every sale, exact payments included, takes the product and the change, keeps every coin recorded, and clears the selection and the balance |
| VendingMachine.VendingMachineApi.CreatePurchaseResponseCorrected | src/main/java/com/dexma/hometest/VendingMachineApi.java:175-184 | as `CreatePurchaseResponse`, except that an empty change removes no coins and the sale completes |
| Scenarios.ExactPaymentScenario | src/main/java/com/dexma/hometest/VendingMachineApi.java:140-145 | a coke paid with exactly 1.50 is refused for want of coins, yet the coke is gone, the selection cleared and the 1.50 still counted as balance |
| Scenarios.ExactPaymentScenarioCorrected | src/test/java/com/dexma/hometest/VendingMachineApiTest.java:336-359 | the same session with the corrected purchase sells the coke with no change and clears the balance, keeping the two coins paid in |
| Scenarios.WaterWithChangeScenario | src/test/java/com/dexma/hometest/VendingMachineApiIntegrationTest.java:117-168 | a water bought with two fifties returns one ten; the stock then holds three fifties and one ten, no water, and no balance |
| Scenarios.BadUsageScenario | src/test/java/com/dexma/hometest/VendingMachineApiIntegrationTest.java:171-204 | confirming without selection and refunding without balance are refused; a two inserted and refunded comes back; a water with no money is refused for balance |

## Left out

- Money is integer cents. The `double`/`BigDecimal` values, their scale and decimal `equals` are not modelled. `BigDecimal.compareTo` becomes `CompareTo` on integers.
- Console output of the change processor is not modelled.
- `ChangeProcessorFactory` and the `ChangeProcessor` interface are not part of this model. The cash manager calls the greedy processor directly.
- Exception classes, message texts and the API's re-wrapping are not modelled. Each distinct message is an error constructor instead. A cash-manager exception escaping from the purchase is reported as `CashFailure`.
- `Cash` and `Product` are interfaces that only declare types. They are modelled as the closed `Coin` and `Beverage` enumerations, so a non-enum implementation cannot be passed. The operation interfaces and `Pair` (a tuple) are also type-only.
- `getStockMap` returns the live backing map. The model returns its current value instead, so later updates seen through that alias are not modelled.
- Java `null` is `Option.None` where the source handles it. Paths that would throw a `NullPointerException` are not modelled, such as a null quantity in a batch map or a null amount or price.
- `HashMap` iteration order is not modelled. A batch is a sequence applied in its own order. The change map is removed coin by coin in descending value. Neither order changes the final ledger when all entries are valid.
- Stock quantities are unbounded integers, so Java's 32-bit `int` overflow on a huge insertion is not modelled.
- Concurrency does not arise; the source has none.
- `VendingMachineApi.RefillProducts`: the source calls `insertProductItemsInStock`, which `ProductManager` does not declare. It is modelled as a call to the declared `insertProductsInStock`. Likewise the tests' one-argument `ProductManager` constructor does not exist, so only the two-argument one is modelled.
- Batch insertion and removal validate and apply each entry in turn. On a refused entry, the entries before it stay applied (CashManager.java:77-83, 94-100; ProductManager.java:85-91). The model follows this code, not a validate-first reading.
- CashManagement.CashManager.CalculateRemainingChange: returns `balance - price` even when that is negative, as the code does.

## Findings

| source | as written | input that shows it | evidently intended | confidence | as-written member | corrected member |
|---|---|---|---|---|---|---|
| src/main/java/com/dexma/hometest/VendingMachineApi.java:140-145 | On an exact payment, `createPurchaseResponse` passes an empty map to `removeCashItemsFromStock`. That method refuses an empty map (CashManager.java:88-91), after the product unit was removed and the selection cleared but before the balance is reset. | Coke in stock (1 unit), empty coin stock; insert 1 and 0.50, select Coke, confirm | sell the Coke with empty change and clear the balance, as VendingMachineApiTest.java:336-359 expects with a mocked cash manager | proved on the model, not executed | Scenarios.ExactPaymentScenario | VendingMachine.VendingMachineApi.ConfirmPurchaseCorrected |
