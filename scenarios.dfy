/**
 * The program's start-up data checked against the model. The full
 * five-product seed is checked against the value-level functions only. The
 * start-up laptop on its own, with the Local and the Global supplier
 * subscribed in that order, is checked against both layers: a sale, the
 * refused sales, sweeps, and a product added after subscription.
 */
module Scenarios {
  import opened RestockPolicy
  import opened SupplierAssignment
  import opened NotificationRouter
  import opened SaleRule
  import opened Catalog
  import opened Inventory

  /** The catalog the program starts with (prices left out). */
  function SeedCatalog(): (cat: seq<ProductInfo>)
  {
    [ ProductInfo(101, "Laptop", "Electronics", 10, 5),
      ProductInfo(102, "Smartphone", "Electronics", 10, 5),
      ProductInfo(103, "Tablet", "Electronics", 7, 4),
      ProductInfo(104, "Refrigerator", "Appliances", 5, 3),
      ProductInfo(105, "Microwave", "Appliances", 8, 4) ]
  }

  /** The Local supplier is assigned the three Electronics products, the Global one the two Appliances. */
  lemma SeedAssignment()
    ensures AssignedIDs(Local, SeedCatalog()) == [101, 102, 103]
    ensures AssignedIDs(Global, SeedCatalog()) == [104, 105]
  {
    var c := SeedCatalog();
    assert c == [] + [c[0]] + [c[1]] + [c[2]] + [c[3]] + [c[4]];
    AssignedIDsSnoc(Local, [], c[0]);
    AssignedIDsSnoc(Local, [c[0]], c[1]);
    AssignedIDsSnoc(Local, [c[0]] + [c[1]], c[2]);
    AssignedIDsSnoc(Local, [c[0]] + [c[1]] + [c[2]], c[3]);
    AssignedIDsSnoc(Local, [c[0]] + [c[1]] + [c[2]] + [c[3]], c[4]);
    AssignedIDsSnoc(Global, [], c[0]);
    AssignedIDsSnoc(Global, [c[0]], c[1]);
    AssignedIDsSnoc(Global, [c[0]] + [c[1]], c[2]);
    AssignedIDsSnoc(Global, [c[0]] + [c[1]] + [c[2]], c[3]);
    AssignedIDsSnoc(Global, [c[0]] + [c[1]] + [c[2]] + [c[3]], c[4]);
  }

  /** At start-up no product is at or under its threshold, so the first sweep sends nothing. */
  lemma SeedWellStocked<S>(subs: seq<S>)
    ensures !AnyLow(SeedCatalog()) && SweepNotices(SeedCatalog(), subs) == []
  {
    AnyLowMeans(SeedCatalog());
    SweepNoticesEmpty(SeedCatalog(), subs);
  }

  /** The laptop of the start-up data, in a catalog of its own, with both suppliers subscribed. */
  method LaptopOrganization() returns (org: Organization, local: Supplier, global: Supplier)
    ensures fresh(org.Repr) && fresh(local) && fresh(global)
    ensures org.Valid() && org.Catalog() == [ProductInfo(101, "Laptop", "Electronics", 10, 5)]
    ensures org.subscribedSuppliers == [local, global] && local != global && org.sent == []
    ensures local.assignedProductIDs == [101] && global.assignedProductIDs == []
  {
    org := new Organization();
    var laptop := new Product(101, "Laptop", "Electronics", 10, 5);
    org.AddProduct(laptop);
    assert org.Catalog() == [] + [laptop.Info()];
    local := new Supplier("Local Supplier", Local);
    global := new Supplier("Global Supplier", Global);
    local.SubscribeToOrganization(org);
    global.SubscribeToOrganization(org);
    AssignedIDsSnoc(Local, [], org.Catalog()[0]);
    AssignedIDsSnoc(Global, [], org.Catalog()[0]);
  }

  /** The laptop is well stocked, so the sweep reports that no restocking is needed and sends nothing. */
  method WellStockedSweep() returns (needRestocking: bool, sentCount: int)
    ensures !needRestocking && sentCount == 0
  {
    var org, local, global := LaptopOrganization();
    needRestocking := org.CheckInventoryAndNotify();
    sentCount := |org.sent|;
    assert org.Catalog()[0].stockLevel == 10;
  }

  /**
   * The Local supplier sells 6 laptops: the stock drops from 10 to 4, under
   * the threshold 5, and the Local supplier alone is asked for 5 * 2 - 4 = 6.
   */
  method LaptopSale() returns (outcome: SaleOutcome, stock: int, notices: seq<RestockNotice<Supplier>>, local: Supplier)
    ensures outcome == Sold && stock == 4
    ensures |notices| == 1 && notices[0] == RestockNotice(local, 101, 6)
  {
    var org, global;
    org, local, global := LaptopOrganization();
    assert FirstIndexOf(org.Catalog(), 101) == Some(0);
    outcome := org.Sell(101, 6, local);
    notices := org.sent;
    stock := org.products[0].stockLevel;
    InfoOfAt(org.products, 0);
  }

  /** The Global supplier was not assigned the laptop (an Electronics product), so its sale is refused. */
  method UnassignedSale() returns (outcome: SaleOutcome, sentCount: int)
    ensures outcome == NotAssigned && sentCount == 0
  {
    var org, local, global := LaptopOrganization();
    assert FirstIndexOf(org.Catalog(), 101) == Some(0);
    outcome := org.Sell(101, 6, global);
    sentCount := |org.sent|;
  }

  /** Selling more laptops than are in stock, or none at all, is refused. */
  method InvalidQuantitySales() returns (oversold: SaleOutcome, zero: SaleOutcome)
    ensures oversold == InvalidQuantity && zero == InvalidQuantity
  {
    var org, local, global := LaptopOrganization();
    assert FirstIndexOf(org.Catalog(), 101) == Some(0);
    oversold := org.Sell(101, 11, local);
    assert FirstIndexOf(org.Catalog(), 101) == Some(0);
    zero := org.Sell(101, 0, local);
  }

  /** An ID no product carries is reported as not found. */
  method UnknownProductSale() returns (outcome: SaleOutcome)
    ensures outcome == NotFound
  {
    var org, local, global := LaptopOrganization();
    assert FirstIndexOf(org.Catalog(), 999) == None;
    outcome := org.Sell(999, 1, local);
  }

  /** After the laptop sale, a sweep tells both subscribers, in subscription order, to restock 6 laptops. */
  method SweepAfterSale() returns (needRestocking: bool, notices: seq<RestockNotice<Supplier>>)
    ensures needRestocking && |notices| == 2
    ensures notices[0].supplier != notices[1].supplier
    ensures forall n :: n in notices ==> n.productID == 101 && n.quantity == 6
  {
    var org, local, global := LaptopOrganization();
    assert FirstIndexOf(org.Catalog(), 101) == Some(0);
    var outcome := org.Sell(101, 6, local);
    var before := |org.sent|;
    var sold := org.Catalog()[0];
    assert sold.stockLevel == 4;
    needRestocking := org.CheckInventoryAndNotify();
    notices := org.sent[before..];
    assert org.Catalog() == [] + [sold];
    assert sold.NeedsRestocking();
  }

  /** A product added after the suppliers subscribed is never assigned, though the catalog now holds it. */
  method LateProductNotAssigned() returns (localIDs: seq<int>, inCatalog: bool)
    ensures localIDs == [101] && inCatalog
  {
    var org, local, global := LaptopOrganization();
    var camera := new Product(106, "Camera", "Electronics", 3, 2);
    org.AddProduct(camera);
    localIDs := local.assignedProductIDs;
    var found := org.FindProductByID(106);
    inCatalog := found != null;
  }
}
