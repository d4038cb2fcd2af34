/**
 * The objects of the inventory: products whose stock level changes in place,
 * suppliers that collect the IDs they are assigned, and the organization that
 * owns the catalog, the subscription list, and the log of every restock
 * notification delivered to a supplier.
 */
module Inventory {
  import opened RestockPolicy
  import opened Catalog
  import opened SupplierAssignment
  import opened NotificationRouter
  import opened SaleRule

  /** A product of the catalog; only its stock level ever changes. */
  class Product {
    const productID: int
    const productName: string
    const category: string
    var stockLevel: int
    const reorderThreshold: int

    constructor (id: int, name: string, cat: string, stock: int, threshold: int)
      ensures Info() == ProductInfo(id, name, cat, stock, threshold)
    {
      productID, productName, category := id, name, cat;
      stockLevel, reorderThreshold := stock, threshold;
    }

    /** The product's current state as a value. */
    function Info(): (info: ProductInfo)
      reads this
    {
      ProductInfo(productID, productName, category, stockLevel, reorderThreshold)
    }

    /** `needsRestocking`: reads the stock level and changes nothing. */
    function NeedsRestocking(): (b: bool)
      reads this
      ensures b <==> stockLevel <= reorderThreshold
    {
      Info().NeedsRestocking()
    }

    /** `updateStockLevel`: records a sale, emptying the stock on an oversell. */
    method UpdateStockLevel(soldQuantity: int)
      modifies this
      ensures stockLevel == StockAfterSale(old(stockLevel), soldQuantity)
    {
      if soldQuantity > stockLevel {
        stockLevel := 0;
      } else {
        stockLevel := stockLevel - soldQuantity;
      }
    }

    /** `setStockLevel`: overwrites the stock level, unchecked. */
    method SetStockLevel(newStockLevel: int)
      modifies this
      ensures stockLevel == newStockLevel
    {
      stockLevel := newStockLevel;
    }
  }

  /** The states of a sequence of products, in order. */
  ghost function InfoOf(ps: seq<Product>): (r: seq<ProductInfo>)
    reads ps
    ensures |r| == |ps|
  {
    if ps == [] then [] else InfoOf(ps[..|ps| - 1]) + [ps[|ps| - 1].Info()]
  }

  /** Position by position, the states are those of the products. */
  lemma {:induction false} InfoOfAt(ps: seq<Product>, i: int)
    requires 0 <= i < |ps|
    ensures InfoOf(ps)[i] == ps[i].Info()
  {
    if i < |ps| - 1 {
      InfoOfAt(ps[..|ps| - 1], i);
    }
  }

  lemma InfoOfAppend(ps: seq<Product>, p: Product)
    ensures InfoOf(ps + [p]) == InfoOf(ps) + [p.Info()]
  {
    assert (ps + [p])[..|ps|] == ps;
  }

  /** No product object occurs twice (the catalog holds its own copies). */
  ghost predicate Distinct(ps: seq<Product>)
  {
    forall i, j :: 0 <= i < j < |ps| ==> ps[i] != ps[j]
  }

  lemma DistinctAppend(ps: seq<Product>, p: Product)
    requires Distinct(ps) && p !in ps
    ensures Distinct(ps + [p])
  {
    forall i, j | 0 <= i < j < |ps| + 1 ensures (ps + [p])[i] != (ps + [p])[j] {
      assert (ps + [p])[i] == ps[i];
      if j < |ps| {
        assert (ps + [p])[j] == ps[j];
      }
    }
  }

  /** The products whose ID differs from `id`, in order (what `remove_if` keeps). */
  function KeepOthers(ps: seq<Product>, id: int): (r: seq<Product>)
    ensures |r| <= |ps|
    ensures forall i :: 0 <= i < |r| ==> r[i].productID != id
  {
    if ps == [] then []
    else KeepOthers(ps[..|ps| - 1], id) + (if ps[|ps| - 1].productID == id then [] else [ps[|ps| - 1]])
  }

  /** Keeping the other products keeps them distinct, and their states are the catalog with the ID removed. */
  lemma {:induction false} KeepOthersIsRemoveAll(ps: seq<Product>, id: int)
    requires Distinct(ps)
    ensures Distinct(KeepOthers(ps, id))
    ensures forall p :: p in KeepOthers(ps, id) ==> p in ps
    ensures InfoOf(KeepOthers(ps, id)) == RemoveAll(InfoOf(ps), id)
  {
    if ps != [] {
      var init, last := ps[..|ps| - 1], ps[|ps| - 1];
      assert ps == init + [last];
      var kept := KeepOthers(init, id);
      KeepOthersIsRemoveAll(init, id);
      InfoOfAppend(init, last);
      RemoveAllAppend(InfoOf(init), [last.Info()], id);
      assert [last.Info()][..0] == [];
      if last.productID != id {
        assert last !in init;
        DistinctAppend(kept, last);
        InfoOfAppend(kept, last);
        assert KeepOthers(ps, id) == kept + [last];
      } else {
        assert KeepOthers(ps, id) == kept;
      }
    }
  }

  /** A supplier; the variant decides which products it takes when it subscribes. */
  class Supplier {
    const name: string
    const kind: SupplierKind
    var assignedProductIDs: seq<int>

    constructor (supplierName: string, kind: SupplierKind)
      ensures name == supplierName && this.kind == kind && assignedProductIDs == []
    {
      name, this.kind := supplierName, kind;
      assignedProductIDs := [];
    }

    /** `assignProduct`: appends one ID, duplicates included. */
    method AssignProduct(productID: int)
      modifies this
      ensures assignedProductIDs == old(assignedProductIDs) + [productID]
    {
      assignedProductIDs := assignedProductIDs + [productID];
    }

    /**
     * `subscribeToOrganization`: registers with the organization, then
     * assigns itself the products of the catalog as it is now, in order.
     */
    method SubscribeToOrganization(org: Organization)
      requires org.Valid()
      modifies this, org
      ensures org.Valid() && org.Repr == old(org.Repr)
      ensures org.products == old(org.products) && org.sent == old(org.sent)
      ensures org.subscribedSuppliers == old(org.subscribedSuppliers) + [this]
      ensures assignedProductIDs == old(assignedProductIDs) + AssignedIDs(kind, org.Catalog())
    {
      org.SubscribeSupplier(this);
      var products := org.products;
      ghost var cat := InfoOf(products);
      var i := 0;
      while i < |products|
        invariant 0 <= i <= |products|
        invariant org.products == products && org.sent == old(org.sent) && org.Repr == old(org.Repr)
        invariant org.subscribedSuppliers == old(org.subscribedSuppliers) + [this]
        invariant assignedProductIDs == old(assignedProductIDs) + AssignedIDs(kind, cat[..i])
      {
        assert cat[..i + 1][..i] == cat[..i];
        InfoOfAt(products, i);
        if Covers(kind, products[i].category) {
          AssignProduct(products[i].productID);
        }
        i := i + 1;
      }
      assert cat[..i] == cat;
    }
  }

  /** The organization: its catalog, its subscribers, and every notification it has had delivered. */
  class Organization {
    var products: seq<Product>
    var subscribedSuppliers: seq<Supplier>
    var sent: seq<RestockNotice<Supplier>>
    /** The organization and the product objects it owns. */
    ghost var Repr: set<object>

    ghost predicate Valid()
      reads this
    {
      this in Repr && (forall p :: p in products ==> p in Repr) && Distinct(products)
    }

    /** The catalog as a value. */
    ghost function Catalog(): seq<ProductInfo>
      reads this, products
    {
      InfoOf(products)
    }

    constructor ()
      ensures Valid() && fresh(Repr)
      ensures products == [] && subscribedSuppliers == [] && sent == []
    {
      products, subscribedSuppliers, sent := [], [], [];
      Repr := {this};
    }

    /** `addProduct`: appends a copy of the product; an ID already present is not checked for. */
    method AddProduct(product: Product)
      requires Valid()
      modifies this
      ensures Valid() && fresh(Repr - old(Repr))
      ensures Catalog() == old(Catalog()) + [product.Info()]
      ensures fresh(products[|products| - 1]) && products[..|products| - 1] == old(products)
      ensures subscribedSuppliers == old(subscribedSuppliers) && sent == old(sent)
      ensures forall s :: s in subscribedSuppliers ==> s.assignedProductIDs == old(s.assignedProductIDs)
    {
      var copy := new Product(product.productID, product.productName, product.category,
                              product.stockLevel, product.reorderThreshold);
      products := products + [copy];
      Repr := Repr + {copy};
      assert products[..|products| - 1] == old(products);
    }

    /** `removeProduct`: drops every product with the ID and keeps the others in order. */
    method RemoveProduct(productID: int)
      requires Valid()
      modifies this
      ensures Valid() && Repr == old(Repr)
      ensures Catalog() == RemoveAll(old(Catalog()), productID)
      ensures forall p :: p in products ==> p in old(products)
      ensures subscribedSuppliers == old(subscribedSuppliers) && sent == old(sent)
    {
      var kept := RemoveIf(productID);
      KeepOthersIsRemoveAll(products, productID);
      ghost var after := InfoOf(kept);
      products := kept;
      assert Catalog() == after;
    }

    /** The scan of `remove_if`: the products whose ID differs, in catalog order. */
    method RemoveIf(productID: int) returns (kept: seq<Product>)
      ensures kept == KeepOthers(products, productID)
    {
      kept := [];
      var i := 0;
      while i < |products|
        invariant 0 <= i <= |products|
        invariant kept == KeepOthers(products[..i], productID)
      {
        assert products[..i + 1][..i] == products[..i];
        if products[i].productID != productID {
          kept := kept + [products[i]];
        }
        i := i + 1;
      }
      assert products[..i] == products;
    }

    /** `findProductByID`: the first product with the ID, or null. */
    method FindProductByID(productID: int) returns (product: Product?)
      ensures product == null <==> FirstIndexOf(Catalog(), productID).None?
      ensures product != null ==>
                FirstIndexOf(Catalog(), productID).Some? && product == products[FirstIndexOf(Catalog(), productID).value]
    {
      var i := 0;
      while i < |products|
        invariant 0 <= i <= |products|
        invariant forall j :: 0 <= j < i ==> Catalog()[j].productID != productID
      {
        InfoOfAt(products, i);
        if products[i].productID == productID {
          FirstIndexOfIsFirstMatch(Catalog(), productID, i);
          return products[i];
        }
        i := i + 1;
      }
      return null;
    }

    /** `subscribeSupplier`: appends the supplier, a second time too if it subscribes twice. */
    method SubscribeSupplier(supplier: Supplier)
      modifies this
      ensures subscribedSuppliers == old(subscribedSuppliers) + [supplier]
      ensures products == old(products) && sent == old(sent) && Repr == old(Repr)
    {
      subscribedSuppliers := subscribedSuppliers + [supplier];
    }

    /** A supplier's `notifyRestock`, recorded as one more entry of the delivery log. */
    method NotifyRestock(supplier: Supplier, productID: int, quantity: int)
      modifies this
      ensures sent == old(sent) + [RestockNotice(supplier, productID, quantity)]
      ensures products == old(products) && subscribedSuppliers == old(subscribedSuppliers) && Repr == old(Repr)
    {
      sent := sent + [RestockNotice(supplier, productID, quantity)];
    }

    /**
     * `checkInventoryAndNotify`: tells every subscriber about every product
     * under its threshold; the result is false when it reports that no
     * restocking is needed.
     */
    method CheckInventoryAndNotify() returns (needRestocking: bool)
      modifies this
      ensures products == old(products) && subscribedSuppliers == old(subscribedSuppliers) && Repr == old(Repr)
      ensures Catalog() == old(Catalog())
      ensures sent == old(sent) + SweepNotices(Catalog(), subscribedSuppliers)
      ensures needRestocking <==> AnyLow(Catalog())
    {
      ghost var cat := Catalog();
      needRestocking := false;
      var i := 0;
      while i < |products|
        invariant 0 <= i <= |products| == |cat|
        invariant products == old(products) && subscribedSuppliers == old(subscribedSuppliers) && Repr == old(Repr)
        invariant Catalog() == cat
        invariant sent == old(sent) + SweepNotices(cat[..i], subscribedSuppliers)
        invariant needRestocking <==> AnyLow(cat[..i])
      {
        InfoOfAt(products, i);
        SweepStep(cat, i, subscribedSuppliers);
        ghost var before := sent;
        var low := CheckProduct(products[i]);
        assert sent == old(sent) + (SweepNotices(cat[..i], subscribedSuppliers) + sent[|before|..]);
        if low {
          needRestocking := true;
        }
        i := i + 1;
      }
      assert cat[..i] == cat;
    }

    /** The sweep's step for one product: if it needs restocking, every subscriber is told to restock it. */
    method CheckProduct(product: Product) returns (low: bool)
      modifies this
      ensures products == old(products) && subscribedSuppliers == old(subscribedSuppliers) && Repr == old(Repr)
      ensures Catalog() == old(Catalog())
      ensures low <==> product.NeedsRestocking()
      ensures sent == old(sent)
                      + (if low then Broadcast(subscribedSuppliers, product.productID, product.Info().RestockQuantity()) else [])
    {
      low := product.NeedsRestocking();
      if low {
        var quantityToRestock := product.reorderThreshold * 2 - product.stockLevel;
        NotifyAll(product.productID, quantityToRestock);
      }
    }

    /** The inner loop of the sweep: the same notification to every subscriber, in subscription order. */
    method NotifyAll(productID: int, quantity: int)
      modifies this
      ensures products == old(products) && subscribedSuppliers == old(subscribedSuppliers) && Repr == old(Repr)
      ensures sent == old(sent) + Broadcast(subscribedSuppliers, productID, quantity)
    {
      var j := 0;
      while j < |subscribedSuppliers|
        invariant 0 <= j <= |subscribedSuppliers|
        invariant products == old(products) && subscribedSuppliers == old(subscribedSuppliers) && Repr == old(Repr)
        invariant sent == old(sent) + Broadcast(subscribedSuppliers[..j], productID, quantity)
      {
        assert subscribedSuppliers[..j + 1][..j] == subscribedSuppliers[..j];
        NotifyRestock(subscribedSuppliers[j], productID, quantity);
        j := j + 1;
      }
      assert subscribedSuppliers[..j] == subscribedSuppliers;
    }

    /** `sendTargetedNotification`: tells one supplier about one product, only if it needs restocking. */
    method SendTargetedNotification(product: Product, supplier: Supplier)
      modifies this
      ensures sent == old(sent) + TargetedNotices(product.Info(), supplier)
      ensures products == old(products) && subscribedSuppliers == old(subscribedSuppliers) && Repr == old(Repr)
    {
      if product.NeedsRestocking() {
        var quantityToRestock := product.reorderThreshold * 2 - product.stockLevel;
        NotifyRestock(supplier, product.productID, quantityToRestock);
      }
    }

    /**
     * The sale step of the interactive loop: find the product, check that it
     * is assigned to the supplier, check the quantity, then lower the stock
     * and notify the supplier if the product now needs restocking.
     */
    method Sell(productId: int, quantity: int, supplier: Supplier) returns (outcome: SaleOutcome)
      requires Valid()
      modifies Repr
      ensures Valid() && Repr == old(Repr)
      ensures products == old(products) && subscribedSuppliers == old(subscribedSuppliers)
      ensures supplier.assignedProductIDs == old(supplier.assignedProductIDs)
      ensures forall s :: s in subscribedSuppliers ==> s.assignedProductIDs == old(s.assignedProductIDs)
      ensures |old(sent)| <= |sent| && sent[..|old(sent)|] == old(sent)
      ensures SaleResult(outcome, Catalog(), sent[|old(sent)|..])
              == SaleEffect(old(Catalog()), old(supplier.assignedProductIDs), supplier, productId, quantity)
    {
      ghost var cat := Catalog();
      ghost var effect := SaleEffect(cat, supplier.assignedProductIDs, supplier, productId, quantity);
      var product := FindProductByID(productId);
      if product == null {
        outcome := NotFound;
        assert effect == SaleResult(NotFound, cat, []);
        assert sent[|old(sent)|..] == [];
        return;
      }
      ghost var k := FirstIndexOf(cat, productId).value;
      InfoOfAt(products, k);
      if productId !in supplier.assignedProductIDs {
        outcome := NotAssigned;
        assert effect == SaleResult(NotAssigned, cat, []);
        assert sent[|old(sent)|..] == [];
        return;
      }
      if !(0 < quantity <= product.stockLevel) {
        outcome := InvalidQuantity;
        assert effect == SaleResult(InvalidQuantity, cat, []);
        assert sent[|old(sent)|..] == [];
        return;
      }
      ghost var sold := cat[k].(stockLevel := StockAfterSale(cat[k].stockLevel, quantity));
      ghost var mid := sent;
      RecordSale(k, product, quantity, supplier);
      outcome := Sold;
      assert sent[|old(sent)|..] == sent[|mid|..];
      assert effect == SaleResult(Sold, Catalog(), sent[|old(sent)|..]);
    }

    /** The accepted branch of a sale: lower the stock, then notify the seller if the product now needs restocking. */
    method RecordSale(ghost k: nat, product: Product, quantity: int, supplier: Supplier)
      requires Valid() && k < |products| && product == products[k]
      modifies this, product
      ensures Valid() && Repr == old(Repr)
      ensures products == old(products) && subscribedSuppliers == old(subscribedSuppliers)
      ensures product.stockLevel == StockAfterSale(old(product.stockLevel), quantity)
      ensures Catalog() == old(Catalog())[k := product.Info()]
      ensures sent == old(sent) + TargetedNotices(product.Info(), supplier)
    {
      ghost var cat := Catalog();
      forall j | 0 <= j < |products| ensures cat[j] == products[j].Info() {
        InfoOfAt(products, j);
      }
      product.UpdateStockLevel(quantity);
      assert Catalog() == cat[k := product.Info()] by {
        forall j | 0 <= j < |products| ensures Catalog()[j] == cat[k := product.Info()][j] {
          InfoOfAt(products, j);
          if j != k {
            assert products[j] != products[k];
          }
        }
      }
      if product.NeedsRestocking() {
        SendTargetedNotification(product, supplier);
      }
    }
  }
}
