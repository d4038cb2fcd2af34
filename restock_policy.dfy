/**
 * The restocking policy of the inventory: when a product needs restocking,
 * how much is ordered, and what a sale leaves in stock. These are evaluated
 * from two call sites (the sweep and the targeted notification), so they are
 * defined once here on a product's observable state.
 */
module RestockPolicy {

  /** The observable state of one product (its price plays no part in any rule). */
  datatype ProductInfo = ProductInfo(
    productID: int,
    productName: string,
    category: string,
    stockLevel: int,
    reorderThreshold: int)
  {
    /**
     * A product needs restocking once its stock has fallen to or below its
     * threshold, that is, exactly when the quantity it would be asked for is
     * at least the threshold.
     */
    predicate NeedsRestocking(): (b: bool)
      ensures b <==> reorderThreshold <= RestockQuantity()
    {
      stockLevel <= reorderThreshold
    }

    /** The quantity asked of a supplier: what brings the stock back up to twice the threshold. */
    function RestockQuantity(): (q: int)
      ensures stockLevel + q == 2 * reorderThreshold
      ensures stockLevel <= reorderThreshold && 0 <= reorderThreshold ==> reorderThreshold <= q
      ensures 0 < q <==> stockLevel < 2 * reorderThreshold
    {
      reorderThreshold * 2 - stockLevel
    }
  }

  /** The stock left by `updateStockLevel(sold)`: an oversell empties the stock instead of going negative. */
  function StockAfterSale(stock: int, sold: int): (r: int)
    ensures sold <= stock ==> r + sold == stock
    ensures stock < sold ==> r == 0
    ensures 0 <= stock && 0 <= sold ==> 0 <= r <= stock
  {
    if sold > stock then 0 else stock - sold
  }

  /** A sale never lifts a product out of needing restocking: the stock only goes down, or to zero. */
  lemma StillLowAfterSale(p: ProductInfo, sold: int)
    requires p.NeedsRestocking() && 0 <= p.stockLevel && 0 <= sold
    ensures p.(stockLevel := StockAfterSale(p.stockLevel, sold)).NeedsRestocking()
  {
  }

  /** Inside the range the sale rule admits, the clamp never fires: the stock goes down by exactly the quantity sold. */
  lemma AdmittedSaleDoesNotClamp(stock: int, sold: int)
    requires 0 < sold <= stock
    ensures StockAfterSale(stock, sold) == stock - sold
    ensures 0 <= StockAfterSale(stock, sold) < stock
  {
  }
}
