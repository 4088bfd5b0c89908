/**
 * The product store: the state slice holding the product list and the
 * pagination fields, and its five reducers. The reducers mutate the state in
 * place, so the store is a class whose methods update its fields.
 */
module ProductSlice {
  import opened JsArray

  /** One inventory item. Stock and price are kept as integers. */
  datatype Product = Product(id: string, name: string, category: string, stock: int, price: int)

  /** The page size the store is created with. */
  const ITEMS_PER_PAGE: nat := 5

  /** The ids occurring in a product list. */
  function Ids(ps: seq<Product>): set<string>
  {
    set p | p in ps :: p.id
  }

  function DifferentIds(a: Product, b: Product): bool { a.id != b.id }

  /** No id occurs twice in the list. */
  ghost predicate DistinctIds(ps: seq<Product>)
  {
    Pairwise(ps, DifferentIds)
  }

  /** `Math.ceil(n / d)` for a non-negative count `n` and a positive divisor `d`. */
  function CeilDiv(n: nat, d: nat): (r: nat)
    requires d > 0
    ensures n <= r * d
    ensures r == 0 || (r - 1) * d < n
  {
    (n + d - 1) / d
  }

  /** The record `addProduct` stores: the payload's fields under the generated id. */
  function WithId(payload: Product, id: string): (p: Product)
    ensures p.id == id
    ensures p.name == payload.name && p.category == payload.category
    ensures p.stock == payload.stock && p.price == payload.price
  {
    payload.(id := id)
  }

  function HasId(id: string): Product -> bool
  {
    (p: Product) => p.id == id
  }

  /** `k` is the first position of the list holding a product with this id. */
  predicate IsFirstWithId(ps: seq<Product>, id: string, k: int)
  {
    0 <= k < |ps| && ps[k].id == id && forall j :: 0 <= j < k ==> ps[j].id != id
  }

  /** The list after `updateProduct(payload)`: the first product with the payload's id is replaced. */
  function Updated(ps: seq<Product>, payload: Product): (r: seq<Product>)
    ensures |r| == |ps|
    ensures forall k :: 0 <= k < |ps| ==> r[k] == if IsFirstWithId(ps, payload.id, k) then payload else ps[k]
  {
    var index := FindIndex(ps, HasId(payload.id));
    if index != -1 then ps[index := payload] else ps
  }

  function NotIn(ids: seq<string>): Product -> bool
  {
    (p: Product) => p.id !in ids
  }

  /** The list after `deleteProducts(ids)`: the products whose id is not in `ids`. */
  function RemoveIds(ps: seq<Product>, ids: seq<string>): (r: seq<Product>)
    ensures |r| <= |ps|
    ensures forall p :: p in r <==> p in ps && p.id !in ids
  {
    Filter(ps, NotIn(ids))
  }

  /** The store's state; `itemsPerPage` is never changed after creation. */
  class ProductStore {
    var products: seq<Product>
    var currentPage: int
    var itemsPerPage: int
    var totalPage: int

    /** `initialState`: the seed list, page 1 of pages of five. */
    constructor (seed: seq<Product>)
      ensures products == seed
      ensures currentPage == 1 && itemsPerPage == ITEMS_PER_PAGE
      ensures totalPage == CeilDiv(|seed|, ITEMS_PER_PAGE)
    {
      products := seed;
      currentPage := 1;
      itemsPerPage := ITEMS_PER_PAGE;
      totalPage := (|seed| + ITEMS_PER_PAGE - 1) / ITEMS_PER_PAGE;
    }

    /** `addProduct`: appends the payload under a fresh id; the page count is not recomputed. */
    method AddProduct(payload: Product, freshId: string)
      requires freshId !in Ids(products)
      modifies this`products
      ensures products == old(products) + [WithId(payload, freshId)]
      ensures currentPage == old(currentPage) && itemsPerPage == old(itemsPerPage) && totalPage == old(totalPage)
      ensures DistinctIds(old(products)) ==> DistinctIds(products)
    {
      var newProduct := payload.(id := freshId);
      products := products + [newProduct];
      AddKeepsIdsDistinct(old(products), payload, freshId);
    }

    /** `updateProduct`: overwrites the first product with the payload's id, if there is one. */
    method UpdateProduct(payload: Product)
      modifies this`products
      ensures products == Updated(old(products), payload)
      ensures currentPage == old(currentPage) && itemsPerPage == old(itemsPerPage) && totalPage == old(totalPage)
      ensures DistinctIds(old(products)) ==> DistinctIds(products)
    {
      var index := FindIndex(products, HasId(payload.id));
      if index != -1 {
        products := products[index := payload];
      }
      UpdateKeepsIds(old(products), payload);
    }

    /** `deleteProducts`: drops every product whose id is listed; no page recomputation, no clamping. */
    method DeleteProducts(ids: seq<string>)
      modifies this`products
      ensures products == RemoveIds(old(products), ids)
      ensures currentPage == old(currentPage) && itemsPerPage == old(itemsPerPage) && totalPage == old(totalPage)
      ensures DistinctIds(old(products)) ==> DistinctIds(products)
    {
      products := Filter(products, NotIn(ids));
      if DistinctIds(old(products)) {
        RemoveKeepsIdsDistinct(old(products), ids);
      }
    }

    /** `setProducts`: replaces the whole list. */
    method SetProducts(ps: seq<Product>)
      modifies this`products
      ensures products == ps
      ensures currentPage == old(currentPage) && itemsPerPage == old(itemsPerPage) && totalPage == old(totalPage)
    {
      products := ps;
    }

    /** `setCurrentPage`: stores the page verbatim, without clamping. */
    method SetCurrentPage(page: int)
      modifies this`currentPage
      ensures currentPage == page
      ensures products == old(products) && itemsPerPage == old(itemsPerPage) && totalPage == old(totalPage)
    {
      currentPage := page;
    }
  }

  /** The initial page count is zero exactly for an empty seed: there is no minimum of one page. */
  lemma InitialPageCountZeroIffEmpty(n: nat)
    ensures CeilDiv(n, ITEMS_PER_PAGE) == 0 <==> n == 0
  {
  }

  /**
   * Every seed product lies on one of the initial pages: the product at index
   * `i` is on page `i / 5 + 1`, which is between 1 and the initial page count,
   * and `i` falls inside that page's window of five.
   */
  lemma InitialPagesCoverSeed(n: nat, i: nat)
    requires i < n
    ensures var page := i / ITEMS_PER_PAGE + 1;
      1 <= page <= CeilDiv(n, ITEMS_PER_PAGE) &&
      (page - 1) * ITEMS_PER_PAGE <= i < page * ITEMS_PER_PAGE
  {
    var page := i / ITEMS_PER_PAGE + 1;
    var total := CeilDiv(n, ITEMS_PER_PAGE);
    assert (page - 1) * ITEMS_PER_PAGE <= i < page * ITEMS_PER_PAGE;
    assert (page - 1) * ITEMS_PER_PAGE < n <= total * ITEMS_PER_PAGE;
  }

  /** Appending under a fresh id keeps ids distinct and adds exactly that id. */
  lemma AddKeepsIdsDistinct(ps: seq<Product>, payload: Product, id: string)
    requires id !in Ids(ps)
    ensures Ids(ps + [WithId(payload, id)]) == Ids(ps) + {id}
    ensures DistinctIds(ps) ==> DistinctIds(ps + [WithId(payload, id)])
  {
    var r := ps + [WithId(payload, id)];
    assert forall p :: p in r <==> p in ps || p == WithId(payload, id);
    if DistinctIds(ps) {
      forall i, j | 0 <= i < j < |r| ensures DifferentIds(r[i], r[j]) {
        if j == |ps| {
          assert r[i] in ps;
        } else {
          assert r[i] == ps[i] && r[j] == ps[j];
        }
      }
    }
  }

  /** An update never changes the set of ids and keeps ids distinct. */
  lemma UpdateKeepsIds(ps: seq<Product>, payload: Product)
    ensures Ids(Updated(ps, payload)) == Ids(ps)
    ensures DistinctIds(ps) ==> DistinctIds(Updated(ps, payload))
  {
    var r := Updated(ps, payload);
    forall x | x in Ids(r) ensures x in Ids(ps) {
      var p :| p in r && p.id == x;
      var k :| 0 <= k < |r| && r[k] == p;
      assert ps[k].id == x;
    }
    forall x | x in Ids(ps) ensures x in Ids(r) {
      var p :| p in ps && p.id == x;
      var k :| 0 <= k < |ps| && ps[k] == p;
      assert r[k].id == x;
    }
    if DistinctIds(ps) {
      forall i, j | 0 <= i < j < |r| ensures DifferentIds(r[i], r[j]) {
        assert r[i].id == ps[i].id && r[j].id == ps[j].id;
        assert DifferentIds(ps[i], ps[j]);
      }
    }
  }

  /** An update with an id that is not in the list leaves the list unchanged. */
  lemma UpdateMissingIsNoOp(ps: seq<Product>, payload: Product)
    requires payload.id !in Ids(ps)
    ensures Updated(ps, payload) == ps
  {
    var r := Updated(ps, payload);
    forall k | 0 <= k < |ps| ensures r[k] == ps[k] {
      assert ps[k] in ps;
    }
  }

  /** With distinct ids, an update replaces exactly the product carrying the payload's id. */
  lemma UpdateReplacesOnlyTarget(ps: seq<Product>, payload: Product)
    requires DistinctIds(ps)
    ensures forall k :: 0 <= k < |ps| ==>
      Updated(ps, payload)[k] == if ps[k].id == payload.id then payload else ps[k]
  {
    forall k | 0 <= k < |ps| && ps[k].id == payload.id ensures IsFirstWithId(ps, payload.id, k) {
      forall j | 0 <= j < k ensures ps[j].id != payload.id {
        assert DifferentIds(ps[j], ps[k]);
      }
    }
  }

  /** Deletion keeps the surviving products in their original relative order. */
  lemma RemoveKeepsOrder(ps: seq<Product>, ids: seq<string>)
    ensures IsSubsequence(RemoveIds(ps, ids), ps)
  {
    FilterIsSubsequence(ps, NotIn(ids));
  }

  /** Deleting with an empty payload changes nothing. */
  lemma RemoveNothing(ps: seq<Product>)
    ensures RemoveIds(ps, []) == ps
  {
    FilterAllKept(ps, NotIn([]));
  }

  /** Deletion removes exactly the listed ids from the set of ids. */
  lemma RemoveIdsExactly(ps: seq<Product>, ids: seq<string>)
    ensures Ids(RemoveIds(ps, ids)) == Ids(ps) - set x | x in ids
  {
    var r := RemoveIds(ps, ids);
    forall x | x in Ids(ps) - set x | x in ids ensures x in Ids(r) {
      var p :| p in ps && p.id == x;
      assert p in r;
    }
  }

  /** Deleting the same ids a second time changes nothing. */
  lemma RemoveIdempotent(ps: seq<Product>, ids: seq<string>)
    ensures RemoveIds(RemoveIds(ps, ids), ids) == RemoveIds(ps, ids)
  {
    FilterIdempotent(ps, NotIn(ids));
  }

  /** Deletion keeps ids distinct. */
  lemma RemoveKeepsIdsDistinct(ps: seq<Product>, ids: seq<string>)
    requires DistinctIds(ps)
    ensures DistinctIds(RemoveIds(ps, ids))
  {
    FilterPreservesPairwise(ps, NotIn(ids), DifferentIds);
  }

  /** With distinct ids, deleting one id that occurs shortens the list by exactly one. */
  lemma {:induction false} RemoveOneId(ps: seq<Product>, id: string)
    requires DistinctIds(ps) && id in Ids(ps)
    ensures |RemoveIds(ps, [id])| == |ps| - 1
  {
    var t := ps[1..];
    assert DistinctIds(t) by {
      forall i, j | 0 <= i < j < |t| ensures DifferentIds(t[i], t[j]) {
        assert t[i] == ps[i + 1] && t[j] == ps[j + 1];
      }
    }
    assert Filter(ps, NotIn([id])) == RemoveIds(ps, [id]);
    if ps[0].id == id {
      forall x | x in t ensures NotIn([id])(x) {
        var m :| 0 <= m < |t| && t[m] == x;
        assert DifferentIds(ps[0], ps[m + 1]);
      }
      FilterAllKept(t, NotIn([id]));
    } else {
      var p :| p in ps && p.id == id;
      assert p in t;
      RemoveOneId(t, id);
    }
  }
}
