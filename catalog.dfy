/**
 * The organization's catalog as an ordered sequence of products: lookup by
 * ID (first match wins, since adding does not check uniqueness) and removal
 * of every entry carrying an ID.
 */
module Catalog {
  import opened RestockPolicy

  datatype Option<+T> = None | Some(value: T)

  /** `findProductByID`: the position of the first product with the given ID, or None. */
  function FirstIndexOf(cat: seq<ProductInfo>, id: int): (r: Option<nat>)
    ensures r.Some? ==> r.value < |cat| && cat[r.value].productID == id
    ensures r.Some? ==> forall j :: 0 <= j < r.value ==> cat[j].productID != id
    ensures r.None? <==> forall j :: 0 <= j < |cat| ==> cat[j].productID != id
  {
    if cat == [] then None
    else if cat[0].productID == id then Some(0)
    else
      match FirstIndexOf(cat[1..], id)
      case None =>
        assert forall j :: 1 <= j < |cat| ==> cat[j] == cat[1..][j - 1];
        None
      case Some(k) => Some(k + 1)
  }

  /** The first match is unique: whatever position is the first match is what the lookup returns. */
  lemma FirstIndexOfIsFirstMatch(cat: seq<ProductInfo>, id: int, k: nat)
    requires k < |cat| && cat[k].productID == id
    requires forall j :: 0 <= j < k ==> cat[j].productID != id
    ensures FirstIndexOf(cat, id) == Some(k)
  {
  }

  /**
   * `addProduct` appends without a uniqueness check: an ID already present is
   * still found at its old position, and a new ID is found at the end.
   */
  lemma {:induction false} FindAfterAppend(cat: seq<ProductInfo>, p: ProductInfo, id: int)
    ensures FirstIndexOf(cat, id).Some? ==> FirstIndexOf(cat + [p], id) == FirstIndexOf(cat, id)
    ensures FirstIndexOf(cat, id).None? && p.productID == id ==> FirstIndexOf(cat + [p], id) == Some(|cat|)
    ensures FirstIndexOf(cat, id).None? && p.productID != id ==> FirstIndexOf(cat + [p], id) == None
  {
    var c := cat + [p];
    match FirstIndexOf(cat, id)
    case Some(k) =>
      FirstIndexOfIsFirstMatch(c, id, k);
    case None =>
      if p.productID == id {
        FirstIndexOfIsFirstMatch(c, id, |cat|);
      } else {
        assert forall j :: 0 <= j < |c| ==> c[j].productID != id by {
          forall j | 0 <= j < |c| ensures c[j].productID != id {
            if j < |cat| { assert c[j] == cat[j]; }
          }
        }
      }
  }

  /** `removeProduct`: the catalog with every product carrying the ID dropped, the rest in order. */
  function RemoveAll(cat: seq<ProductInfo>, id: int): (r: seq<ProductInfo>)
    ensures |r| <= |cat|
  {
    if cat == [] then []
    else
      var last := cat[|cat| - 1];
      RemoveAll(cat[..|cat| - 1], id) + (if last.productID == id then [] else [last])
  }

  /** A product survives removal exactly when it was in the catalog and carries another ID. */
  lemma {:induction false} RemoveAllMembership(cat: seq<ProductInfo>, id: int, p: ProductInfo)
    ensures p in RemoveAll(cat, id) <==> p in cat && p.productID != id
  {
    if cat != [] {
      var init := cat[..|cat| - 1];
      RemoveAllMembership(init, id, p);
      assert cat == init + [cat[|cat| - 1]];
    }
  }

  /** Removal works entry by entry, so it keeps the catalog order of what survives. */
  lemma {:induction false} RemoveAllAppend(a: seq<ProductInfo>, b: seq<ProductInfo>, id: int)
    ensures RemoveAll(a + b, id) == RemoveAll(a, id) + RemoveAll(b, id)
    decreases |b|
  {
    if b == [] {
      assert a + b == a;
    } else {
      var b' := b[..|b| - 1];
      assert (a + b)[..|a + b| - 1] == a + b';
      assert (a + b)[|a + b| - 1] == b[|b| - 1];
      RemoveAllAppend(a, b', id);
    }
  }

  /** Removing an ID that no product carries leaves the catalog as it was. */
  lemma {:induction false} RemoveAllAbsent(cat: seq<ProductInfo>, id: int)
    requires forall j :: 0 <= j < |cat| ==> cat[j].productID != id
    ensures RemoveAll(cat, id) == cat
  {
    if cat != [] {
      var init := cat[..|cat| - 1];
      RemoveAllAbsent(init, id);
      assert init + [cat[|cat| - 1]] == cat;
    }
  }

  /** Every product with another ID survives removal as often as it occurred. */
  lemma {:induction false} RemoveAllKeepsOthers(cat: seq<ProductInfo>, id: int, p: ProductInfo)
    requires p.productID != id
    ensures multiset(RemoveAll(cat, id))[p] == multiset(cat)[p]
  {
    if cat != [] {
      var init := cat[..|cat| - 1];
      RemoveAllKeepsOthers(init, id, p);
      assert init + [cat[|cat| - 1]] == cat;
    }
  }

  /** After `removeProduct(id)`, `findProductByID(id)` finds nothing. */
  lemma RemoveThenFind(cat: seq<ProductInfo>, id: int)
    ensures FirstIndexOf(RemoveAll(cat, id), id).None?
  {
    var r := RemoveAll(cat, id);
    forall j | 0 <= j < |r| ensures r[j].productID != id {
      RemoveAllMembership(cat, id, r[j]);
    }
  }

  /** A lookup past a non-matching first product is the lookup in the rest, one position later. */
  lemma FirstIndexOfCons(head: ProductInfo, tail: seq<ProductInfo>, id: int)
    requires head.productID != id
    ensures FirstIndexOf([head] + tail, id) ==
              match FirstIndexOf(tail, id)
              case None => None
              case Some(k) => Some(k + 1)
  {
    assert ([head] + tail)[1..] == tail;
  }

  /** Removal from a catalog with a first product: that product is dropped or kept, then the rest is filtered. */
  lemma RemoveAllCons(head: ProductInfo, tail: seq<ProductInfo>, id: int)
    ensures RemoveAll([head] + tail, id) == (if head.productID == id then [] else [head]) + RemoveAll(tail, id)
  {
    RemoveAllAppend([head], tail, id);
    assert [head][..0] == [];
  }

  /**
   * Removing one ID does not change what a lookup of another ID finds: the
   * same product, now perhaps at an earlier position.
   */
  lemma {:induction false} FindOtherAfterRemove(cat: seq<ProductInfo>, id: int, other: int)
    requires other != id
    ensures FirstIndexOf(RemoveAll(cat, id), other).None? == FirstIndexOf(cat, other).None?
    ensures FirstIndexOf(cat, other).Some? ==>
              RemoveAll(cat, id)[FirstIndexOf(RemoveAll(cat, id), other).value] == cat[FirstIndexOf(cat, other).value]
  {
    if cat != [] {
      var head, tail := cat[0], cat[1..];
      assert cat == [head] + tail;
      RemoveAllCons(head, tail, id);
      var r, rt := RemoveAll(cat, id), RemoveAll(tail, id);
      if head.productID == other {
        assert r == [head] + rt;
        assert FirstIndexOf(r, other) == Some(0);
      } else {
        FindOtherAfterRemove(tail, id, other);
        FirstIndexOfCons(head, tail, other);
        var ft, frt := FirstIndexOf(tail, other), FirstIndexOf(rt, other);
        if head.productID == id {
          assert r == rt;
          if ft.Some? {
            assert cat[ft.value + 1] == tail[ft.value];
          }
        } else {
          assert r == [head] + rt;
          FirstIndexOfCons(head, rt, other);
          if ft.Some? {
            assert cat[ft.value + 1] == tail[ft.value];
            assert r[frt.value + 1] == rt[frt.value];
          }
        }
      }
    }
  }
}
