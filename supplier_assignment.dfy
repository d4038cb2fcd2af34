/**
 * Which products a supplier is responsible for. A Local supplier takes the
 * "Electronics" products and a Global supplier every other one; the list is
 * computed once, in catalog order, when the supplier subscribes.
 */
module SupplierAssignment {
  import opened RestockPolicy

  /** The two supplier variants, as a tag instead of two subclasses. */
  datatype SupplierKind = Local | Global

  const Electronics: string := "Electronics"

  /** The category test each variant applies while subscribing: Local takes exactly the Electronics products, Global exactly the others. */
  predicate Covers(kind: SupplierKind, category: string): (b: bool)
    ensures b <==> (kind == Local <==> category == Electronics)
  {
    match kind
    case Local => category == Electronics
    case Global => category != Electronics
  }

  /** The IDs a supplier of this kind is assigned from a snapshot of the catalog, in catalog order. */
  function AssignedIDs(kind: SupplierKind, cat: seq<ProductInfo>): (ids: seq<int>)
    ensures |ids| <= |cat|
  {
    if cat == [] then []
    else
      var last := cat[|cat| - 1];
      AssignedIDs(kind, cat[..|cat| - 1]) + (if Covers(kind, last.category) then [last.productID] else [])
  }

  /** An ID is assigned exactly when some product of the snapshot carries it and passes the variant's category test. */
  lemma {:induction false} AssignedIDsMembership(kind: SupplierKind, cat: seq<ProductInfo>, id: int)
    ensures id in AssignedIDs(kind, cat) <==>
              exists i :: 0 <= i < |cat| && cat[i].productID == id && Covers(kind, cat[i].category)
  {
    if cat != [] {
      var init := cat[..|cat| - 1];
      AssignedIDsMembership(kind, init, id);
      if exists i :: 0 <= i < |cat| && cat[i].productID == id && Covers(kind, cat[i].category) {
        var i :| 0 <= i < |cat| && cat[i].productID == id && Covers(kind, cat[i].category);
        if i < |init| {
          assert init[i] == cat[i];
        }
      }
      if id in AssignedIDs(kind, init) {
        var i :| 0 <= i < |init| && init[i].productID == id && Covers(kind, init[i].category);
        assert cat[i] == init[i];
      }
    }
  }

  /**
   * Assignment goes product by product in catalog order: the assignment from
   * a catalog extended by `later` is the old assignment followed by that of
   * `later` alone.
   */
  lemma {:induction false} AssignedIDsAppend(kind: SupplierKind, a: seq<ProductInfo>, later: seq<ProductInfo>)
    ensures AssignedIDs(kind, a + later) == AssignedIDs(kind, a) + AssignedIDs(kind, later)
    decreases |later|
  {
    if later == [] {
      assert a + later == a;
    } else {
      var init := later[..|later| - 1];
      assert (a + later)[..|a + later| - 1] == a + init;
      assert (a + later)[|a + later| - 1] == later[|later| - 1];
      AssignedIDsAppend(kind, a, init);
    }
  }

  /** Adding one product to the snapshot adds its ID at the end exactly when the variant covers its category. */
  lemma AssignedIDsSnoc(kind: SupplierKind, cat: seq<ProductInfo>, p: ProductInfo)
    ensures AssignedIDs(kind, cat + [p]) == AssignedIDs(kind, cat) + (if Covers(kind, p.category) then [p.productID] else [])
  {
    assert (cat + [p])[..|cat|] == cat;
  }

  /** Every product of the snapshot goes to exactly one of the two variants. */
  lemma {:induction false} LocalAndGlobalSplitCatalog(cat: seq<ProductInfo>)
    ensures |AssignedIDs(Local, cat)| + |AssignedIDs(Global, cat)| == |cat|
  {
    if cat != [] {
      LocalAndGlobalSplitCatalog(cat[..|cat| - 1]);
    }
  }
}
