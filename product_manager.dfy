/**
 * The product side of the machine: the beverage stock and the product the
 * customer has selected.
 */
module ProductManagement {
  import opened Wrappers
  import opened Beverages
  import opened Stocks
  import opened Batches

  /** The failures the product manager reports, one per distinct error message. */
  datatype ProductError =
    | NoProducts       // an absent or empty batch of products
    | InvalidProduct   // an absent product
    | InvalidQuantity  // an entry whose quantity is not positive

  /** The manager's own error for a refused batch entry. */
  function FromEntryError(e: EntryError): (r: ProductError)
    ensures r == InvalidProduct <==> e == InvalidItem
    ensures r == InvalidQuantity <==> e == NonPositiveQuantity
  {
    match e
    case InvalidItem => InvalidProduct
    case NonPositiveQuantity => InvalidQuantity
  }

  /** Beverages listed in strictly increasing declaration order. */
  predicate InDeclarationOrder(bs: seq<Beverage>) {
    forall i, j :: 0 <= i < j < |bs| ==> Ordinal(bs[i]) < Ordinal(bs[j])
  }

  class ProductManager {
    const productStock: Stock<Beverage>
    var selectedProduct: Option<Beverage>

    constructor (productStock: Stock<Beverage>, selectedProduct: Option<Beverage>)
      ensures this.productStock == productStock && this.selectedProduct == selectedProduct
    {
      this.productStock := productStock;
      this.selectedProduct := selectedProduct;
    }

    /** A product is accepted exactly when one is given. */
    predicate IsProductItemAllowed(product: Option<Beverage>)
      ensures IsProductItemAllowed(product) <==> product.Some?
    {
      product.Some? && product.value in GetValidProductItems()
    }

    /** A product is available when it is given and at least one unit is in stock. */
    predicate IsProductItemAvailable(product: Option<Beverage>)
      reads this, productStock
      ensures IsProductItemAvailable(product) <==> product.Some? && Quantity(productStock.stockMap, product.value) > 0
    {
      product.Some? && productStock.HasItem(product.value)
    }

    /** The available products, in declaration order. */
    function GetAvailableProducts(): (bs: seq<Beverage>)
      reads this, productStock
      ensures forall b :: b in bs <==> IsProductItemAvailable(Some(b))
      ensures InDeclarationOrder(bs)
    {
      var valid := ValidBeverages();
      assert InDeclarationOrder(valid);
      AvailableAmong(valid)
    }

    /** The members of `candidates` that are available, keeping their order. */
    function AvailableAmong(candidates: seq<Beverage>): (bs: seq<Beverage>)
      reads this, productStock
      ensures forall b :: b in bs <==> b in candidates && IsProductItemAvailable(Some(b))
      ensures InDeclarationOrder(candidates) ==> InDeclarationOrder(bs)
      decreases |candidates|
    {
      if candidates == [] then []
      else
        var rest := AvailableAmong(candidates[1..]);
        assert InDeclarationOrder(candidates) ==>
          (InDeclarationOrder(candidates[1..]) && forall k :: 0 <= k < |rest| ==> Ordinal(candidates[0]) < Ordinal(rest[k])) by {
          if InDeclarationOrder(candidates) {
            forall k | 0 <= k < |rest| ensures Ordinal(candidates[0]) < Ordinal(rest[k]) {
              assert rest[k] in rest;
              assert rest[k] in candidates[1..];
              var j :| 0 <= j < |candidates[1..]| && candidates[1..][j] == rest[k];
              assert candidates[j + 1] == rest[k];
            }
          }
        }
        if IsProductItemAvailable(Some(candidates[0])) then [candidates[0]] + rest else rest
    }

    /** Every beverage is a valid product, in declaration order. */
    function GetValidProductItems(): (bs: seq<Beverage>)
      ensures |bs| == 3 && forall b: Beverage :: b in bs
      ensures InDeclarationOrder(bs)
    {
      ValidBeverages()
    }

    function GetProductStock(): (m: map<Beverage, int>)
      reads this, productStock
      ensures m.Keys == productStock.stockMap.Keys
      ensures forall b :: Quantity(m, b) == productStock.GetQuantity(b)
    {
      productStock.GetStockMap()
    }

    /** The product is checked before the quantity. */
    function ValidateProductEntry(product: Option<Beverage>, quantity: int): (r: Option<ProductError>)
      ensures r.None? <==> product.Some? && quantity > 0
      ensures r == Some(InvalidProduct) <==> product.None?
      ensures r == Some(InvalidQuantity) <==> product.Some? && quantity <= 0
    {
      if !IsProductItemAllowed(product) then Some(InvalidProduct)
      else if quantity <= 0 then Some(InvalidQuantity)
      else None
    }

    /**
     * Adds every entry of a non-empty batch to the stock. Entries are applied
     * one by one, so those before the first invalid entry stay applied.
     */
    method InsertProductsInStock(productMap: Option<seq<Entry<Beverage>>>) returns (r: Outcome<ProductError>)
      modifies productStock
      ensures productMap.None? || productMap.value == [] ==>
        r == Fail(NoProducts) && productStock.stockMap == old(productStock.stockMap)
      ensures productMap.Some? && productMap.value != [] ==>
        var (err, m) := ApplyEntries(old(productStock.stockMap), productMap.value, ValidBeverages(), Insert);
        r == ToOutcome(err, FromEntryError) && productStock.stockMap == m
    {
      if productMap.None? || |productMap.value| == 0 {
        return Fail(NoProducts);
      }
      var entries := productMap.value;
      var i := 0;
      while i < |entries|
        invariant 0 <= i <= |entries|
        invariant ApplyEntries(productStock.stockMap, entries[i..], ValidBeverages(), Insert)
               == ApplyEntries(old(productStock.stockMap), entries, ValidBeverages(), Insert)
      {
        var (product, quantity) := entries[i];
        assert entries[i..][1..] == entries[i + 1..];
        var invalid := ValidateProductEntry(product, quantity);
        if invalid.Some? {
          return Fail(invalid.value);
        }
        productStock.InsertItemQuantity(product.value, quantity);
        i := i + 1;
      }
      return Pass;
    }

    /** Takes one unit of a given product out of the stock (never below zero). */
    method RemoveProductItemFromStock(product: Option<Beverage>) returns (r: Outcome<ProductError>)
      modifies productStock
      ensures product.None? ==> r == Fail(InvalidProduct) && productStock.stockMap == old(productStock.stockMap)
      ensures product.Some? ==> r == Pass && productStock.stockMap == RemovedOne(old(productStock.stockMap), product.value)
    {
      if !IsProductItemAllowed(product) {
        return Fail(InvalidProduct);
      }
      productStock.DeleteItem(product.value);
      return Pass;
    }

    method SetSelectedProduct(product: Option<Beverage>)
      modifies this
      ensures selectedProduct == product
    {
      selectedProduct := product;
    }

    /** The price of the selected product, or zero when none is selected. */
    function GetPriceOfSelectedProduct(): (price: nat)
      reads this
      ensures selectedProduct.None? ==> price == 0
      ensures selectedProduct.Some? ==> price == Price(selectedProduct.value) && price > 0
    {
      if IsProductSelected() then Price(selectedProduct.value) else 0
    }

    method ResetSelectedProduct()
      modifies this
      ensures selectedProduct.None?
    {
      SetSelectedProduct(None);
    }

    /** The product chosen by the customer, if any; present exactly when a product is selected. */
    function GetSelectedProduct(): (b: Option<Beverage>)
      reads this
      ensures b == selectedProduct
      ensures b.Some? <==> IsProductSelected()
    {
      selectedProduct
    }

    predicate IsProductSelected()
      reads this
      ensures IsProductSelected() <==> selectedProduct.Some?
    {
      selectedProduct.Some?
    }
  }
}
