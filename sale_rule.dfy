/**
 * The sale decision of the interactive loop: a supplier sells a quantity of a
 * product. The sale goes through only when the product exists, is assigned to
 * that supplier and the quantity is positive and in stock; then the stock
 * drops and, if the product now needs restocking, that supplier alone is
 * notified.
 */
module SaleRule {
  import opened RestockPolicy
  import opened Catalog
  import opened NotificationRouter

  /** How a sale request ends. */
  datatype SaleOutcome = NotFound | NotAssigned | InvalidQuantity | Sold

  /** What a sale request does: its outcome, the catalog afterwards and the notices it sends. */
  datatype SaleResult<S> = SaleResult(outcome: SaleOutcome, catalog: seq<ProductInfo>, notices: seq<RestockNotice<S>>)

  /** The sale of `q` units of product `id` by `supplier`, whose assigned IDs are `assignedIDs`. */
  function SaleEffect<S>(cat: seq<ProductInfo>, assignedIDs: seq<int>, supplier: S, id: int, q: int): (r: SaleResult<S>)
    ensures r.outcome == NotFound <==> forall j :: 0 <= j < |cat| ==> cat[j].productID != id
    ensures r.outcome == NotAssigned ==> id !in assignedIDs
    ensures r.outcome == InvalidQuantity ==> id in assignedIDs && (q <= 0 || exists j :: 0 <= j < |cat| && cat[j].productID == id && cat[j].stockLevel < q)
    ensures |r.catalog| == |cat| && |r.notices| <= 1
  {
    match FirstIndexOf(cat, id)
    case None => SaleResult(NotFound, cat, [])
    case Some(k) =>
      if id !in assignedIDs then SaleResult(NotAssigned, cat, [])
      else if !(0 < q <= cat[k].stockLevel) then SaleResult(InvalidQuantity, cat, [])
      else
        var sold := cat[k].(stockLevel := StockAfterSale(cat[k].stockLevel, q));
        SaleResult(Sold, cat[k := sold], if sold.NeedsRestocking() then TargetedNotices(sold, supplier) else [])
  }

  /**
   * A sale goes through exactly when the supplier is assigned the ID, some
   * product carries it, and the quantity is positive and no more than the
   * stock of the first such product.
   */
  lemma SaleAcceptedIff<S>(cat: seq<ProductInfo>, assignedIDs: seq<int>, supplier: S, id: int, q: int)
    ensures SaleEffect(cat, assignedIDs, supplier, id, q).outcome == Sold <==>
              id in assignedIDs &&
              exists k :: 0 <= k < |cat| && cat[k].productID == id && (forall j :: 0 <= j < k ==> cat[j].productID != id)
                          && 0 < q <= cat[k].stockLevel
  {
    match FirstIndexOf(cat, id)
    case None =>
    case Some(k) =>
      if id in assignedIDs && exists k' :: 0 <= k' < |cat| && cat[k'].productID == id
                                        && (forall j :: 0 <= j < k' ==> cat[j].productID != id) && 0 < q <= cat[k'].stockLevel {
        var k' :| 0 <= k' < |cat| && cat[k'].productID == id
                  && (forall j :: 0 <= j < k' ==> cat[j].productID != id) && 0 < q <= cat[k'].stockLevel;
        FirstIndexOfIsFirstMatch(cat, id, k');
      }
  }

  /** Every rejected sale leaves the catalog as it was and notifies nobody. */
  lemma SaleRejectedChangesNothing<S>(cat: seq<ProductInfo>, assignedIDs: seq<int>, supplier: S, id: int, q: int)
    requires SaleEffect(cat, assignedIDs, supplier, id, q).outcome != Sold
    ensures SaleEffect(cat, assignedIDs, supplier, id, q).catalog == cat
    ensures SaleEffect(cat, assignedIDs, supplier, id, q).notices == []
  {
  }

  /**
   * An accepted sale lowers the stock of the first product with the ID by
   * exactly the quantity, keeps it non-negative, and touches nothing else.
   */
  lemma SaleAcceptedLowersStock<S>(cat: seq<ProductInfo>, assignedIDs: seq<int>, supplier: S, id: int, q: int)
    requires SaleEffect(cat, assignedIDs, supplier, id, q).outcome == Sold
    ensures FirstIndexOf(cat, id).Some?
    ensures var k, c := FirstIndexOf(cat, id).value, SaleEffect(cat, assignedIDs, supplier, id, q).catalog;
              |c| == |cat| &&
              c[k].stockLevel == cat[k].stockLevel - q && 0 <= c[k].stockLevel < cat[k].stockLevel &&
              c[k] == cat[k].(stockLevel := c[k].stockLevel) &&
              forall j :: 0 <= j < |cat| && j != k ==> c[j] == cat[j]
  {
  }

  /**
   * An accepted sale notifies the selling supplier alone, once, exactly when
   * the product is now at or below its threshold, and asks for enough to
   * bring the stock back to twice the threshold.
   */
  lemma SaleNotifiesSeller<S>(cat: seq<ProductInfo>, assignedIDs: seq<int>, supplier: S, id: int, q: int)
    ensures var r := SaleEffect(cat, assignedIDs, supplier, id, q);
              r.notices != [] <==>
                r.outcome == Sold && r.catalog[FirstIndexOf(cat, id).value].NeedsRestocking()
    ensures var r := SaleEffect(cat, assignedIDs, supplier, id, q);
              r.notices != [] ==>
                var k := FirstIndexOf(cat, id).value;
                r.notices == [RestockNotice(supplier, id, 2 * cat[k].reorderThreshold - (cat[k].stockLevel - q))]
  {
    var r := SaleEffect(cat, assignedIDs, supplier, id, q);
    if r.outcome == Sold {
      SaleAcceptedLowersStock(cat, assignedIDs, supplier, id, q);
    }
  }

  /** Sales preserve the catalog invariant that no stock level is negative. */
  lemma SaleKeepsStockNonNegative<S>(cat: seq<ProductInfo>, assignedIDs: seq<int>, supplier: S, id: int, q: int)
    requires forall j :: 0 <= j < |cat| ==> 0 <= cat[j].stockLevel
    ensures var c := SaleEffect(cat, assignedIDs, supplier, id, q).catalog;
              forall j :: 0 <= j < |c| ==> 0 <= c[j].stockLevel
  {
    if SaleEffect(cat, assignedIDs, supplier, id, q).outcome == Sold {
      SaleAcceptedLowersStock(cat, assignedIDs, supplier, id, q);
    }
  }
}
