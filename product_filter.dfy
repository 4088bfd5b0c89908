/**
 * The filter bar: a category drop-down and an in-stock check box. Each change
 * event produces a whole new filter record; the bar keeps no state of its own.
 */
module ProductFilter {

  /** The filter record handed to the dashboard. */
  datatype FilterState = FilterState(category: string, inStock: bool)

  /** The dashboard's initial filter: no category restriction, stock not required. */
  const NO_FILTER: FilterState := FilterState("", false)

  /** Choosing a category: restricts to that category and drops the stock restriction. */
  function HandleCategoryChange(value: string): (f: FilterState)
    ensures f.category == value && !f.inStock
  {
    FilterState(value, false)
  }

  /** Toggling the check box: the stock restriction follows the box, the category is cleared. */
  function HandleStockChange(checked: bool): (f: FilterState)
    ensures f.category == "" && f.inStock == checked
  {
    FilterState("", checked)
  }

  /** At most one of the two restrictions is active. */
  predicate Exclusive(f: FilterState)
  {
    f.category == "" || !f.inStock
  }

  /** Every filter the bar emits restricts by category or by stock, never both. */
  lemma EmittedFiltersExclusive(value: string, checked: bool)
    ensures Exclusive(HandleCategoryChange(value))
    ensures Exclusive(HandleStockChange(checked))
    ensures HandleCategoryChange(value) == NO_FILTER <==> value == ""
    ensures HandleStockChange(checked) == NO_FILTER <==> !checked
  {
  }

  /** The drop-down's option values: "All Categories" (the empty value), then the categories in order. */
  function CategoryOptions(categories: seq<string>): (r: seq<string>)
    ensures |r| == |categories| + 1
    ensures r[0] == ""
    ensures forall i :: 0 <= i < |categories| ==> r[i + 1] == categories[i]
  {
    [""] + categories
  }
}
