/**
 * Routing of restock notifications. A notice records which supplier was told
 * to restock which product and by how much. The sweep broadcasts to every
 * subscriber for every product under its threshold; the targeted mode tells
 * one supplier about one product, and only if that product needs restocking.
 */
module NotificationRouter {
  import opened RestockPolicy

  /** One call of a supplier's `notifyRestock(productID, quantity)`. */
  datatype RestockNotice<S> = RestockNotice(supplier: S, productID: int, quantity: int)

  /** One notice per subscriber, in subscription order, all for the same product and quantity. */
  function Broadcast<S>(subs: seq<S>, id: int, quantity: int): (r: seq<RestockNotice<S>>)
    ensures |r| == |subs|
    ensures forall k :: 0 <= k < |r| ==> r[k] == RestockNotice(subs[k], id, quantity)
  {
    if subs == [] then []
    else Broadcast(subs[..|subs| - 1], id, quantity) + [RestockNotice(subs[|subs| - 1], id, quantity)]
  }

  /** The sweep's flag, raised product by product in catalog order. */
  predicate AnyLow(cat: seq<ProductInfo>)
  {
    cat != [] && (AnyLow(cat[..|cat| - 1]) || cat[|cat| - 1].NeedsRestocking())
  }

  /** The flag ends up raised exactly when some product of the catalog is at or below its threshold. */
  lemma {:induction false} AnyLowMeans(cat: seq<ProductInfo>)
    ensures AnyLow(cat) <==> exists i :: 0 <= i < |cat| && cat[i].NeedsRestocking()
  {
    if cat != [] {
      var init := cat[..|cat| - 1];
      AnyLowMeans(init);
      if AnyLow(init) {
        var i :| 0 <= i < |init| && init[i].NeedsRestocking();
        assert cat[i] == init[i];
      }
      if exists i :: 0 <= i < |cat| && cat[i].NeedsRestocking() {
        var i :| 0 <= i < |cat| && cat[i].NeedsRestocking();
        if i < |init| {
          assert init[i] == cat[i];
        }
      }
    }
  }

  /** A catalog extended by one product raises the flag iff the old one did or the new product needs restocking. */
  lemma AnyLowAppend(cat: seq<ProductInfo>, p: ProductInfo)
    ensures AnyLow(cat + [p]) <==> AnyLow(cat) || p.NeedsRestocking()
  {
    assert (cat + [p])[..|cat|] == cat;
  }

  /** The number of products of the catalog at or below their threshold. */
  function CountLow(cat: seq<ProductInfo>): (n: nat)
    ensures n <= |cat|
  {
    if cat == [] then 0
    else CountLow(cat[..|cat| - 1]) + (if cat[|cat| - 1].NeedsRestocking() then 1 else 0)
  }

  /** The notices of `checkInventoryAndNotify`, product by product in catalog order. */
  function SweepNotices<S>(cat: seq<ProductInfo>, subs: seq<S>): (r: seq<RestockNotice<S>>)
    ensures subs == [] ==> r == []
  {
    if cat == [] then []
    else
      var last := cat[|cat| - 1];
      SweepNotices(cat[..|cat| - 1], subs)
        + (if last.NeedsRestocking() then Broadcast(subs, last.productID, last.RestockQuantity()) else [])
  }

  /** The notices of `sendTargetedNotification(product, supplier)`. */
  function TargetedNotices<S>(p: ProductInfo, supplier: S): (r: seq<RestockNotice<S>>)
    ensures r == [] <==> !p.NeedsRestocking()
    ensures r != [] ==> |r| == 1 && r[0].supplier == supplier && r[0].productID == p.productID
    ensures r != [] ==> p.stockLevel + r[0].quantity == 2 * p.reorderThreshold
    ensures r != [] && 0 <= p.reorderThreshold ==> p.reorderThreshold <= r[0].quantity
  {
    if p.NeedsRestocking() then [RestockNotice(supplier, p.productID, p.RestockQuantity())] else []
  }

  /** One step of the sweep's loop: product `i` raises the flag and adds its broadcast exactly when it needs restocking. */
  lemma SweepStep<S>(cat: seq<ProductInfo>, i: int, subs: seq<S>)
    requires 0 <= i < |cat|
    ensures AnyLow(cat[..i + 1]) <==> AnyLow(cat[..i]) || cat[i].NeedsRestocking()
    ensures SweepNotices(cat[..i + 1], subs)
            == SweepNotices(cat[..i], subs)
               + (if cat[i].NeedsRestocking() then Broadcast(subs, cat[i].productID, cat[i].RestockQuantity()) else [])
  {
    assert cat[..i + 1][..i] == cat[..i];
  }

  /** The sweep handles the catalog product by product, so its notices keep catalog order. */
  lemma {:induction false} SweepNoticesAppend<S>(a: seq<ProductInfo>, b: seq<ProductInfo>, subs: seq<S>)
    ensures SweepNotices(a + b, subs) == SweepNotices(a, subs) + SweepNotices(b, subs)
    decreases |b|
  {
    if b == [] {
      assert a + b == a;
    } else {
      var init := b[..|b| - 1];
      assert (a + b)[..|a + b| - 1] == a + init;
      assert (a + b)[|a + b| - 1] == b[|b| - 1];
      SweepNoticesAppend(a, init, subs);
    }
  }

  /** The sweep sends one notice per subscriber for each product under its threshold. */
  lemma {:induction false} SweepNoticesLength<S>(cat: seq<ProductInfo>, subs: seq<S>)
    ensures |SweepNotices(cat, subs)| == CountLow(cat) * |subs|
  {
    if cat != [] {
      SweepNoticesLength(cat[..|cat| - 1], subs);
      var n := CountLow(cat[..|cat| - 1]);
      assert (n + 1) * |subs| == n * |subs| + |subs|;
    }
  }

  /**
   * Every notice of the sweep goes to a subscriber and concerns a product
   * under its threshold, with that product's restock quantity.
   */
  lemma {:induction false} SweepNoticesSound<S>(cat: seq<ProductInfo>, subs: seq<S>, n: RestockNotice<S>)
    requires n in SweepNotices(cat, subs)
    ensures n.supplier in subs
    ensures exists i :: 0 <= i < |cat| && cat[i].NeedsRestocking() && n.productID == cat[i].productID
                        && n.quantity == cat[i].RestockQuantity()
  {
    var init, last := cat[..|cat| - 1], cat[|cat| - 1];
    if n in SweepNotices(init, subs) {
      SweepNoticesSound(init, subs, n);
      var i :| 0 <= i < |init| && init[i].NeedsRestocking() && n.productID == init[i].productID
               && n.quantity == init[i].RestockQuantity();
      assert cat[i] == init[i];
    } else {
      var b := Broadcast(subs, last.productID, last.RestockQuantity());
      var k :| 0 <= k < |b| && b[k] == n;
      assert n.supplier == subs[k];
      assert cat[|cat| - 1] == last;
    }
  }

  /** Every subscriber is told about every product under its threshold, with its restock quantity. */
  lemma {:induction false} SweepNoticesComplete<S>(cat: seq<ProductInfo>, subs: seq<S>, i: int, s: S)
    requires 0 <= i < |cat| && cat[i].NeedsRestocking() && s in subs
    ensures RestockNotice(s, cat[i].productID, cat[i].RestockQuantity()) in SweepNotices(cat, subs)
  {
    var init, last := cat[..|cat| - 1], cat[|cat| - 1];
    if i < |init| {
      assert init[i] == cat[i];
      SweepNoticesComplete(init, subs, i, s);
    } else {
      var k :| 0 <= k < |subs| && subs[k] == s;
      assert Broadcast(subs, last.productID, last.RestockQuantity())[k] == RestockNotice(s, last.productID, last.RestockQuantity());
    }
  }

  /** The sweep sends nothing exactly when no product is under its threshold or nobody is subscribed. */
  lemma {:induction false} SweepNoticesEmpty<S>(cat: seq<ProductInfo>, subs: seq<S>)
    ensures SweepNotices(cat, subs) == [] <==> !AnyLow(cat) || subs == []
  {
    var r := SweepNotices(cat, subs);
    AnyLowMeans(cat);
    if AnyLow(cat) && subs != [] {
      var i :| 0 <= i < |cat| && cat[i].NeedsRestocking();
      SweepNoticesComplete(cat, subs, i, subs[0]);
    }
    if r != [] {
      SweepNoticesSound(cat, subs, r[0]);
    }
  }

  /**
   * Sweep and targeted mode compute the same quantity: a targeted notice to a
   * subscriber is one of the notices the sweep would send, and there is none
   * for a product the sweep passes over.
   */
  lemma TargetedAgreesWithSweep<S>(cat: seq<ProductInfo>, subs: seq<S>, i: int, s: S)
    requires 0 <= i < |cat| && s in subs
    ensures TargetedNotices(cat[i], s) == [] <==> !cat[i].NeedsRestocking()
    ensures TargetedNotices(cat[i], s) != [] ==> TargetedNotices(cat[i], s)[0] in SweepNotices(cat, subs)
  {
    if cat[i].NeedsRestocking() {
      SweepNoticesComplete(cat, subs, i, s);
    }
  }
}
