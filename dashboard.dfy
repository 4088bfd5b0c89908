/**
 * The dashboard page: it owns the filter and the dialog state, reads the store,
 * computes the rows of the current page (filter first, then slice), and turns
 * the page's events into store updates.
 */
module DashboardPage {
  import opened Wrappers
  import opened JsArray
  import opened ProductSlice
  import opened ProductFilter
  import opened ProductTable
  import opened ProductModal

  /** A product passes the filter: category unrestricted or equal, stock unrestricted or positive. */
  predicate Matches(f: FilterState, p: Product)
    ensures f == NO_FILTER ==> Matches(f, p)
    ensures f.category != "" && p.category != f.category ==> !Matches(f, p)
    ensures f.inStock && p.stock <= 0 ==> !Matches(f, p)
  {
    (f.category == "" || p.category == f.category) && (!f.inStock || p.stock > 0)
  }

  function MatchesFn(f: FilterState): Product -> bool
  {
    (p: Product) => Matches(f, p)
  }

  /** All products passing the filter, in store order. */
  function Filtered(products: seq<Product>, f: FilterState): (r: seq<Product>)
    ensures |r| <= |products|
    ensures forall p :: p in r <==> p in products && Matches(f, p)
  {
    Filter(products, MatchesFn(f))
  }

  /** Where page `currentPage` starts in the filtered list. */
  function Offset(currentPage: int, itemsPerPage: int): int
  {
    (currentPage - 1) * itemsPerPage
  }

  /** A page in range starts at a non-negative offset. */
  lemma OffsetNonNegative(currentPage: int, itemsPerPage: int)
    ensures 1 <= currentPage && 0 <= itemsPerPage ==> 0 <= Offset(currentPage, itemsPerPage)
  {
  }

  /** The window of at most `itemsPerPage` entries of `all` starting at `start`, as `slice` takes it. */
  function Window(all: seq<Product>, start: int, itemsPerPage: int): (r: seq<Product>)
    ensures forall p :: p in r ==> p in all
    ensures 0 <= itemsPerPage ==> |r| <= itemsPerPage
    ensures 0 <= start && 0 <= itemsPerPage ==>
      |r| == if start < |all| then Min(itemsPerPage, |all| - start) else 0
    ensures 0 <= start ==> forall i :: 0 <= i < |r| ==> start + i < |all| && r[i] == all[start + i]
  {
    var r := Slice(all, start, start + itemsPerPage);
    assert forall p :: p in r ==> p in all;
    r
  }

  /** `filteredProducts`: the filtered list sliced to the current page. */
  function PageView(products: seq<Product>, f: FilterState, currentPage: int, itemsPerPage: int): (r: seq<Product>)
    ensures forall p :: p in r ==> p in products && Matches(f, p)
    ensures 0 <= itemsPerPage ==> |r| <= itemsPerPage
  {
    Window(Filtered(products, f), Offset(currentPage, itemsPerPage), itemsPerPage)
  }

  /**
   * For a page number from 1 on, the page holds the filtered products from
   * offset `(currentPage - 1) * itemsPerPage` on, as many as fit.
   */
  lemma PageIsFilteredWindow(products: seq<Product>, f: FilterState, currentPage: int, itemsPerPage: int)
    requires 1 <= currentPage && 0 <= itemsPerPage
    ensures var all, start, r := Filtered(products, f), Offset(currentPage, itemsPerPage), PageView(products, f, currentPage, itemsPerPage);
      |r| == (if start < |all| then Min(itemsPerPage, |all| - start) else 0) &&
      forall i :: 0 <= i < |r| ==> start + i < |all| && r[i] == all[start + i]
  {
    OffsetNonNegative(currentPage, itemsPerPage);
  }

  /** Page `currentPage` is empty once its offset is at or past the end of the filtered list. */
  lemma PageEmptyPastEnd(products: seq<Product>, f: FilterState, currentPage: int, itemsPerPage: int)
    requires 1 <= currentPage && 0 <= itemsPerPage
    requires |Filtered(products, f)| <= Offset(currentPage, itemsPerPage)
    ensures PageView(products, f, currentPage, itemsPerPage) == []
  {
  }

  /** With the initial filter, the page is the plain slice of the store's list. */
  lemma NoFilterIsPlainSlice(products: seq<Product>, currentPage: int, itemsPerPage: int)
    ensures PageView(products, NO_FILTER, currentPage, itemsPerPage) ==
      Slice(products, Offset(currentPage, itemsPerPage), Offset(currentPage, itemsPerPage) + itemsPerPage)
  {
    FilterAllKept(products, MatchesFn(NO_FILTER));
  }

  /** The rows of a page appear in the same relative order as in the store. */
  lemma PageKeepsOrder(products: seq<Product>, f: FilterState, currentPage: int, itemsPerPage: int)
    ensures IsSubsequence(PageView(products, f, currentPage, itemsPerPage), products)
  {
    var all := Filtered(products, f);
    var r := PageView(products, f, currentPage, itemsPerPage);
    var start := Offset(currentPage, itemsPerPage);
    assert r == Window(all, start, itemsPerPage) == Slice(all, start, start + itemsPerPage);
    var k := RelativeIndex(start, |all|);
    SliceIsSubsequence(all, k, k + |r|);
    FilterIsSubsequence(products, MatchesFn(f));
    SubsequenceTransitive(r, all, products);
  }

  /** The serial number of row `i` is one more than that row's position in the filtered list. */
  lemma SerialIsFilteredPosition(products: seq<Product>, f: FilterState, currentPage: int, itemsPerPage: int, i: int)
    requires 1 <= currentPage && 0 <= itemsPerPage
    requires 0 <= i < |PageView(products, f, currentPage, itemsPerPage)|
    ensures 1 <= SerialNumber(currentPage, itemsPerPage, i) <= |Filtered(products, f)|
    ensures Filtered(products, f)[SerialNumber(currentPage, itemsPerPage, i) - 1] ==
      PageView(products, f, currentPage, itemsPerPage)[i]
  {
    OffsetNonNegative(currentPage, itemsPerPage);
  }

  /** What each filter event lets through. */
  lemma FilterEventsSelect(value: string, checked: bool, p: Product)
    ensures Matches(HandleCategoryChange(value), p) <==> value == "" || p.category == value
    ensures Matches(HandleStockChange(checked), p) <==> !checked || p.stock > 0
    ensures Matches(NO_FILTER, p)
  {
  }

  /** `handlePrev`'s target page. */
  function PrevPage(currentPage: int): (r: int)
    ensures currentPage - 1 <= r <= currentPage
    ensures r < currentPage <==> 1 < currentPage
  {
    if currentPage > 1 then currentPage - 1 else currentPage
  }

  /** `handleNext`'s target page. */
  function NextPage(currentPage: int, totalPage: int): (r: int)
    ensures currentPage <= r <= currentPage + 1
    ensures currentPage < r <==> currentPage < totalPage
  {
    if currentPage < totalPage then currentPage + 1 else currentPage
  }

  /** Prev never goes below page 1 and Next never past the last page; a page in range stays in range. */
  lemma NavigationStaysInRange(currentPage: int, totalPage: int)
    ensures 1 <= currentPage ==> 1 <= PrevPage(currentPage) <= currentPage
    ensures currentPage <= totalPage ==> currentPage <= NextPage(currentPage, totalPage) <= totalPage
    ensures 1 <= currentPage <= totalPage ==>
      1 <= PrevPage(currentPage) <= totalPage && 1 <= NextPage(currentPage, totalPage) <= totalPage
  {
  }

  /** Prev undoes a Next that moved, and Next undoes a Prev that moved. */
  lemma PrevNextInverse(currentPage: int, totalPage: int)
    ensures 1 <= currentPage < totalPage ==> PrevPage(NextPage(currentPage, totalPage)) == currentPage
    ensures 1 < currentPage <= totalPage ==> NextPage(PrevPage(currentPage), totalPage) == currentPage
  {
  }

  /** The page reached by pressing Next `k` times. */
  function NextTimes(currentPage: int, totalPage: int, k: nat): int
  {
    if k == 0 then currentPage else NextPage(NextTimes(currentPage, totalPage, k - 1), totalPage)
  }

  /** Pressing Next `k` times from a page in range advances `k` pages, stopping at the last. */
  lemma {:induction false} NextTimesAdvances(currentPage: int, totalPage: int, k: nat)
    requires 1 <= currentPage <= totalPage
    ensures NextTimes(currentPage, totalPage, k) == Min(currentPage + k, totalPage)
  {
    if k > 0 {
      NextTimesAdvances(currentPage, totalPage, k - 1);
    }
  }

  /** Every page from 1 to `totalPage` is reachable from the first page with Next. */
  lemma EveryPageReachable(totalPage: int, page: int)
    requires 1 <= page <= totalPage
    ensures NextTimes(1, totalPage, page - 1) == page
  {
    NextTimesAdvances(1, totalPage, page - 1);
  }

  /**
   * Editing a product of a store with distinct ids: whatever the form holds, the
   * saved product keeps the id and the update replaces that product in place.
   */
  lemma EditReplacesInPlace(ps: seq<Product>, k: int, f: FormFields)
    requires DistinctIds(ps) && 0 <= k < |ps| && ps[k].id != ""
    requires Submit(f, Some(ps[k])).Success?
    ensures Submit(f, Some(ps[k])).value.id == ps[k].id
    ensures Updated(ps, Submit(f, Some(ps[k])).value) == ps[k := Submit(f, Some(ps[k])).value]
  {
    var q := Submit(f, Some(ps[k])).value;
    UpdateReplacesOnlyTarget(ps, q);
    forall j | 0 <= j < |ps| && j != k ensures ps[j].id != q.id {
      if j < k { assert DifferentIds(ps[j], ps[k]); } else { assert DifferentIds(ps[k], ps[j]); }
    }
  }

  /** The page's own state, and the store it reads and dispatches to. */
  class Dashboard {
    const store: ProductStore
    var filter: FilterState
    var modalOpen: bool
    var editData: Option<Product>

    constructor (store: ProductStore)
      ensures this.store == store
      ensures filter == NO_FILTER && !modalOpen && editData == None
    {
      this.store := store;
      filter := NO_FILTER;
      modalOpen := false;
      editData := None;
    }

    /** The rows handed to the table and the chart. */
    function FilteredProducts(): (r: seq<Product>)
      reads this, store
      ensures forall p :: p in r ==> p in store.products && Matches(filter, p)
      ensures 0 <= store.itemsPerPage ==> |r| <= store.itemsPerPage
      ensures filter == NO_FILTER && 1 <= store.currentPage && 0 <= store.itemsPerPage ==>
        forall i :: 0 <= i < |r| ==>
          SerialNumber(store.currentPage, store.itemsPerPage, i) <= |store.products| &&
          r[i] == store.products[SerialNumber(store.currentPage, store.itemsPerPage, i) - 1]
    {
      NoFilterIsPlainSlice(store.products, store.currentPage, store.itemsPerPage);
      OffsetNonNegative(store.currentPage, store.itemsPerPage);
      PageView(store.products, filter, store.currentPage, store.itemsPerPage)
    }

    /** `handleAddOrEdit`: a product with an id is an edit, one without is an addition. */
    method HandleAddOrEdit(product: Product, freshId: string)
      requires product.id == "" ==> freshId !in Ids(store.products)
      modifies store`products
      ensures product.id != "" ==> store.products == Updated(old(store.products), product)
      ensures product.id == "" ==> store.products == old(store.products) + [WithId(product, freshId)]
    {
      if product.id != "" {
        store.UpdateProduct(product);
      } else {
        store.AddProduct(product, freshId);
      }
    }

    /** `handleDelete`: forwards the ids to the store. */
    method HandleDelete(ids: seq<string>)
      modifies store`products
      ensures store.products == RemoveIds(old(store.products), ids)
    {
      store.DeleteProducts(ids);
    }

    /** `handlePrev`: moves back one page unless on the first. */
    method HandlePrev()
      modifies store`currentPage
      ensures store.currentPage == PrevPage(old(store.currentPage))
    {
      if store.currentPage > 1 {
        store.SetCurrentPage(store.currentPage - 1);
      }
    }

    /** `handleNext`: moves on one page unless on the last. */
    method HandleNext()
      modifies store`currentPage
      ensures store.currentPage == NextPage(old(store.currentPage), store.totalPage)
    {
      if store.currentPage < store.totalPage {
        store.SetCurrentPage(store.currentPage + 1);
      }
    }

    /** The filter bar's `onFilterChange`. */
    method SetFilter(f: FilterState)
      modifies this`filter
      ensures filter == f
    {
      filter := f;
    }

    /** "+ Add Product": opens the dialog with nothing to edit. */
    method OpenAdd()
      modifies this`editData, this`modalOpen
      ensures editData == None && modalOpen
    {
      editData := None;
      modalOpen := true;
    }

    /** A row's Edit button: opens the dialog on that product. */
    method OpenEdit(product: Product)
      modifies this`editData, this`modalOpen
      ensures editData == Some(product) && modalOpen
    {
      editData := Some(product);
      modalOpen := true;
    }

    /** The dialog's `onClose`. */
    method CloseModal()
      modifies this`modalOpen
      ensures !modalOpen
    {
      modalOpen := false;
    }
  }
}
