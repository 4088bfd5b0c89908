# Inventory dashboard: product store and page logic in Dafny

This project models the logic of a client-side inventory dashboard:

- **Product store** (`ProductSlice`): the state slice holding the product list and the pagination fields
  (`currentPage`, `itemsPerPage`, `totalPage`), and its five reducers. The reducers are `addProduct`,
  `updateProduct`, `deleteProducts`, `setProducts` and `setCurrentPage`. The reducers mutate the state in
  place, so the store is a class with a `seq<Product>` field. Each reducer is a method whose postcondition
  ties the new list to a specification function (`Updated`, `RemoveIds`, append of `WithId`). The properties
  are proved about those functions.
- **Dashboard page** (`DashboardPage`): the rows it hands to the table are computed by filtering first and then
  slicing at offset `(currentPage-1)*itemsPerPage`. The page also has the guarded Prev/Next handlers, the
  add-or-edit dispatch and its own filter and dialog state.
- **Product table** (`ProductTable`): row selection toggling, the header select-all check box, serial numbers
  and the delete payloads.
- **Add/edit dialog** (`ProductModal`): loading or blanking the form when the dialog opens, the numeric input
  mapping, and submit validation with product construction.
- **Filter bar** (`ProductFilter`): the two change handlers and the option list.
- `JsArray` gives the JavaScript built-ins the code relies on (`filter`, `findIndex`, `slice`), with their
  ECMAScript semantics. For `slice`, that includes negative bounds counting back from the end. `Wrappers` gives
  `Option` (for `null`/`undefined`) and `Result`.

The code does less than one might expect, and the model follows the code:

- `totalPage` is computed once, when the store is created: `ceil(|seed| / 5)`. For an empty seed that is 0, not 1.
- No reducer recomputes `totalPage`, and none clamps `currentPage`. Deleting products leaves both as they were.
- Form validation checks only that each field is present. Zero and negative stock or price pass, although the
  error message says they must be greater than 0.
- Unique ids are not an invariant of the store: the seed and `setProducts` can hold duplicates. Instead, the
  lemmas show that add (with a fresh id), update and delete each preserve distinct ids.

## Model

| member | source | states |
|---|---|---|
| `JsArray.Filter` | src/pages/Dashboard.tsx:38-44 | the result holds exactly the elements of the input that satisfy the predicate, and is never longer |
| `JsArray.FindIndex` | src/redux/slices/products/productSlice.ts:29-31 | -1 exactly when no element matches; otherwise the index of a match with no match before it |
| `JsArray.Slice` | src/pages/Dashboard.tsx:45-48 | `slice` never fails; it returns a contiguous run of the input, no longer than `end - start` when `start <= end`; from a non-negative start it returns the elements at `start`, `start+1`, … up to `end` or the end of the input |
| `JsArray.FilterIsSubsequence` | src/pages/Dashboard.tsx:38-44 | filtering preserves the relative order of the kept elements |
| `JsArray.FilterAppend` | src/redux/slices/products/productSlice.ts:37-39 | filtering distributes over concatenation |
| `JsArray.FilterAllKept` | src/redux/slices/products/productSlice.ts:37-39 | when every element is kept, filtering returns the input itself |
| `JsArray.FilterPreservesPairwise` | src/redux/slices/products/productSlice.ts:37-39 | a pairwise property of the input (distinct ids, no duplicates) holds of the filtered result |
| `JsArray.SubsequenceTransitive` | src/pages/Dashboard.tsx:38-48 | a subsequence of a subsequence is a subsequence |
| `ProductSlice.CeilDiv` | src/redux/slices/products/productSlice.ts:17 | `Math.ceil(n / d)` is the least non-negative `r` with `n <= r * d` |
| `ProductSlice.InitialPageCountZeroIffEmpty` | src/redux/slices/products/productSlice.ts:17 | the initial page count is 0 exactly when the seed is empty; there is no minimum of one page |
| `ProductSlice.InitialPagesCoverSeed` | src/redux/slices/products/productSlice.ts:13-18 | every seed product, at index `i`, lies on page `i/5 + 1`, which is between 1 and the initial page count, and `i` falls inside that page's five-item window |
| `ProductSlice.ProductStore.constructor` | src/redux/slices/products/productSlice.ts:13-18 | the store starts with the seed list on page 1, with 5 items per page and `ceil(|seed|/5)` pages |
| `ProductSlice.WithId` | src/redux/slices/products/productSlice.ts:25 | the new product carries the payload's name, category, stock and price under the generated id |
| `ProductSlice.ProductStore.AddProduct` | src/redux/slices/products/productSlice.ts:24-27 | appends exactly one product at the end and leaves earlier products in place; the pagination fields are unchanged, so `totalPage` is not recomputed; distinct ids stay distinct |
| `ProductSlice.AddKeepsIdsDistinct` | src/redux/slices/products/productSlice.ts:24-27 | appending under a fresh id adds exactly that id and keeps ids distinct |
| `ProductSlice.Updated` | src/redux/slices/products/productSlice.ts:28-35 | the length is unchanged; the payload replaces exactly the first position holding its id; every other position is unchanged |
| `ProductSlice.ProductStore.UpdateProduct` | src/redux/slices/products/productSlice.ts:28-35 | the list becomes `Updated(old list, payload)`; the pagination fields are unchanged; distinct ids stay distinct |
| `ProductSlice.UpdateKeepsIds` | src/redux/slices/products/productSlice.ts:28-35 | an update never changes the set of ids and keeps ids distinct |
| `ProductSlice.UpdateMissingIsNoOp` | src/redux/slices/products/productSlice.ts:32 | an update whose id occurs nowhere leaves the list unchanged |
| `ProductSlice.UpdateReplacesOnlyTarget` | src/redux/slices/products/productSlice.ts:28-35 | with distinct ids, the update replaces the product with the payload's id and no other |
| `ProductSlice.RemoveIds` | src/redux/slices/products/productSlice.ts:36-40 | a product survives exactly when its id is not in the payload; the list never grows |
| `ProductSlice.ProductStore.DeleteProducts` | src/redux/slices/products/productSlice.ts:36-40 | the list becomes `RemoveIds(old list, ids)`; `currentPage` and `totalPage` are neither recomputed nor clamped |
| `ProductSlice.RemoveKeepsOrder` | src/redux/slices/products/productSlice.ts:36-40 | the surviving products keep their relative order |
| `ProductSlice.RemoveNothing` | src/redux/slices/products/productSlice.ts:36-40 | an empty payload changes nothing |
| `ProductSlice.RemoveIdsExactly` | src/redux/slices/products/productSlice.ts:36-40 | the ids after deletion are the ids before, minus the payload's |
| `ProductSlice.RemoveIdempotent` | src/redux/slices/products/productSlice.ts:36-40 | deleting the same ids again changes nothing |
| `ProductSlice.RemoveKeepsIdsDistinct` | src/redux/slices/products/productSlice.ts:36-40 | deletion keeps ids distinct |
| `ProductSlice.RemoveOneId` | src/redux/slices/products/productSlice.ts:36-40 | with distinct ids, deleting one id that occurs shortens the list by exactly one |
| `ProductSlice.ProductStore.SetProducts` | src/redux/slices/products/productSlice.ts:41-43 | replaces the whole list and leaves the pagination fields alone |
| `ProductSlice.ProductStore.SetCurrentPage` | src/redux/slices/products/productSlice.ts:44-46 | stores the page verbatim, with no clamping, and changes nothing else |
| `DashboardPage.Matches` | src/pages/Dashboard.tsx:39-43 | the initial filter lets every product through; a set category rejects products of another category; the stock restriction rejects products whose stock is not positive |
| `DashboardPage.Filtered` | src/pages/Dashboard.tsx:38-44 | a product is in the filtered list exactly when it is in the store and passes the category and stock conditions |
| `DashboardPage.Window` | src/pages/Dashboard.tsx:45-48 | the slice holds at most `itemsPerPage` entries, taken consecutively from `start` |
| `DashboardPage.PageView` | src/pages/Dashboard.tsx:38-48 | every row is a store product that satisfies both filter conditions; there are at most `itemsPerPage` rows |
| `DashboardPage.Dashboard.FilteredProducts` | src/pages/Dashboard.tsx:38-48 | the rows the page renders are `PageView` of the store and the filter: store products passing the filter, at most `itemsPerPage` of them; with no filter from page 1 on, row `i` is the store product whose serial number it shows (see `PageIsFilteredWindow` and `NoFilterIsPlainSlice` for the exact window) |
| `DashboardPage.PageIsFilteredWindow` | src/pages/Dashboard.tsx:45-48 | from page 1 on, the rows are the filtered products from offset `(currentPage-1)*itemsPerPage`, as many as fit |
| `DashboardPage.PageEmptyPastEnd` | src/pages/Dashboard.tsx:45-48 | a page whose offset is past the end of the filtered list is empty |
| `DashboardPage.NoFilterIsPlainSlice` | src/pages/Dashboard.tsx:24-48 | with the initial filter (no category, stock not required) the page is the unfiltered slice of the store |
| `DashboardPage.PageKeepsOrder` | src/pages/Dashboard.tsx:38-48 | the rows appear in the same relative order as in the store |
| `DashboardPage.SerialIsFilteredPosition` | src/components/Table/ProductTable.tsx:70-72 | the serial number shown in a row is one plus that row's position in the filtered list |
| `DashboardPage.FilterEventsSelect` | src/components/Filters/ProductFilter.tsx:12-18 | a category event lets through that category (or everything, for the empty value); a stock event lets through positive stock when checked (or everything when not) |
| `DashboardPage.PrevPage` | src/pages/Dashboard.tsx:50-54 | Prev moves back by at most one page, and moves exactly when the page is above 1 |
| `DashboardPage.NextPage` | src/pages/Dashboard.tsx:56-60 | Next moves forward by at most one page, and moves exactly when the page is below `totalPage` |
| `DashboardPage.NavigationStaysInRange` | src/pages/Dashboard.tsx:50-60 | Prev never takes a page below 1 and Next never takes one past `totalPage`; a page in `[1, totalPage]` stays there |
| `DashboardPage.PrevNextInverse` | src/pages/Dashboard.tsx:50-60 | Prev undoes a Next that moved, and Next undoes a Prev that moved |
| `DashboardPage.NextTimesAdvances` | src/pages/Dashboard.tsx:56-60 | pressing Next `k` times from a page in range advances `k` pages, stopping at the last |
| `DashboardPage.EveryPageReachable` | src/pages/Dashboard.tsx:56-60 | every page from 1 to `totalPage` can be reached from page 1 with Next |
| `DashboardPage.EditReplacesInPlace` | src/pages/Dashboard.tsx:26-32 | saving an edit dialog opened on a store product keeps its id, and the update replaces that product at its position |
| `DashboardPage.Dashboard.constructor` | src/pages/Dashboard.tsx:22-24 | the page starts with no filter, the dialog closed and nothing to edit |
| `DashboardPage.Dashboard.HandleAddOrEdit` | src/pages/Dashboard.tsx:26-32 | a product with a non-empty id is an update, and one with the empty id is an addition under a fresh id |
| `DashboardPage.Dashboard.HandleDelete` | src/pages/Dashboard.tsx:34-36 | forwards the ids to the store's deletion |
| `DashboardPage.Dashboard.HandlePrev` | src/pages/Dashboard.tsx:50-54 | the store's page becomes the Prev target: one less, only when above 1 |
| `DashboardPage.Dashboard.HandleNext` | src/pages/Dashboard.tsx:56-60 | the store's page becomes the Next target: one more, only when below `totalPage` |
| `DashboardPage.Dashboard.SetFilter` | src/pages/Dashboard.tsx:77-80 | the filter bar's record replaces the page's filter |
| `DashboardPage.Dashboard.OpenAdd` | src/pages/Dashboard.tsx:67-70 | opens the dialog with nothing to edit |
| `DashboardPage.Dashboard.OpenEdit` | src/pages/Dashboard.tsx:101-104 | opens the dialog on the chosen product |
| `DashboardPage.Dashboard.CloseModal` | src/pages/Dashboard.tsx:109 | closes the dialog |
| `ProductTable.Toggled` | src/components/Table/ProductTable.tsx:23-29 | the toggled id is selected afterwards exactly when it was not before, and every other id keeps its status; a removal keeps the remaining ids in order, and an addition goes at the end |
| `ProductTable.TableSelection.constructor` | src/components/Table/ProductTable.tsx:18 | the selection starts empty |
| `ProductTable.TableSelection.HandleSelectRow` | src/components/Table/ProductTable.tsx:23-29 | the selection becomes `Toggled(old selection, id)` and stays free of duplicates |
| `ProductTable.ToggleKeepsNoDuplicates` | src/components/Table/ProductTable.tsx:23-29 | toggling keeps a duplicate-free selection duplicate-free |
| `ProductTable.ToggleTwice` | src/components/Table/ProductTable.tsx:23-29 | toggling the same id twice restores the selected set, and restores the exact selection when the id was not selected |
| `ProductTable.PageIds` | src/components/Table/ProductTable.tsx:43 | the page's ids in row order |
| `ProductTable.HeaderToggled` | src/components/Table/ProductTable.tsx:39-45 | clicking the header clears the selection when the lengths are equal, and otherwise selects the page's ids in row order |
| `ProductTable.TableSelection.HandleHeaderToggle` | src/components/Table/ProductTable.tsx:39-45 | the selection becomes `HeaderToggled(old selection, page)` |
| `ProductTable.HeaderChecked` | src/components/Table/ProductTable.tsx:46 | the header box is checked when the selection is exactly the page's ids, and an empty selection checks it only on an empty page |
| `ProductTable.HeaderToggleFlips` | src/components/Table/ProductTable.tsx:39-46 | on a non-empty page, clicking the header flips whether it is checked |
| `ProductTable.HeaderCheckedWhenAllRowsSelected` | src/components/Table/ProductTable.tsx:46 | if the selection has no duplicates and holds only ids of the page, and the page's ids are distinct, then the length test is equivalent to every row being selected |
| `ProductTable.HeaderCheckedComparesLengths` | src/components/Table/ProductTable.tsx:46 | without those conditions the header can be checked while a row of the page is not selected |
| `ProductTable.SerialNumber` | src/components/Table/ProductTable.tsx:71 | a row index within the page gives a serial number on that page's range `((currentPage-1)*itemsPerPage, currentPage*itemsPerPage]`; from page 1 on, it is at least the index plus one |
| `ProductTable.SerialsConsecutive` | src/components/Table/ProductTable.tsx:70-72 | serial numbers are consecutive within a page, continue from one full page to the next, and start at 1 |
| `ProductTable.RowDeletePayload` | src/components/Table/ProductTable.tsx:86-91 | a row's Delete button sends that row's id alone |
| `ProductTable.DeleteSelectedPayload` | src/components/Table/ProductTable.tsx:98-101 | "Delete Selected" sends the selection, and is disabled (no event) exactly when nothing is selected |
| `ProductModal.Submit` | src/components/Modal/ProductModal.tsx:37-50 | fails with the fixed message exactly when name or category is empty, or stock or price is null; on success the product carries the form's four fields, with the edited product's id when that id is non-empty and `''` otherwise |
| `ProductModal.NumericInput` | src/components/Modal/ProductModal.tsx:96-101 | the empty input maps to null and any other input to its number |
| `ProductModal.ModalForm.constructor` | src/components/Modal/ProductModal.tsx:17-21 | the form starts blank with no error |
| `ProductModal.Loaded` | src/components/Modal/ProductModal.tsx:23-35 | opening on a product loads its name, category, stock and price; opening with nothing to edit gives `''`, `''`, null, null |
| `ProductModal.SavedId` | src/components/Modal/ProductModal.tsx:49 | a saved product takes the edited product's id, and `''` when there is no edited product |
| `ProductModal.ModalForm.OnOpenChange` | src/components/Modal/ProductModal.tsx:23-35 | loads the edited product's fields, or blanks them (`''`, `''`, null, null); the error is kept |
| `ProductModal.ModalForm.SetName` | src/components/Modal/ProductModal.tsx:71 | the name input stores its value |
| `ProductModal.ModalForm.SetCategory` | src/components/Modal/ProductModal.tsx:81 | the category select stores its value |
| `ProductModal.ModalForm.SetStockInput` | src/components/Modal/ProductModal.tsx:96-101 | stock becomes the mapped numeric input |
| `ProductModal.ModalForm.SetPriceInput` | src/components/Modal/ProductModal.tsx:114-119 | price becomes the mapped numeric input |
| `ProductModal.ModalForm.HandleSubmit` | src/components/Modal/ProductModal.tsx:37-53 | on a missing field it sets the error and requests neither save nor close; otherwise it requests exactly one save of the built product followed by one close, and leaves the error as it was |
| `ProductModal.EditRoundTrip` | src/components/Modal/ProductModal.tsx:23-50 | opening on a product with a name and a category and submitting unchanged saves that same product |
| `ProductModal.BlankFormRejected` | src/components/Modal/ProductModal.tsx:29-43 | a freshly blanked add form cannot be submitted |
| `ProductModal.EditKeepsId` | src/components/Modal/ProductModal.tsx:49 | whatever the edits, a product saved from an edit dialog keeps the edited product's id |
| `ProductModal.SignNotChecked` | src/components/Modal/ProductModal.tsx:38-40 | any stock and price pass validation, including zero and negative values |
| `ProductFilter.HandleCategoryChange` | src/components/Filters/ProductFilter.tsx:12-14 | a category change emits the selected category with the stock restriction off |
| `ProductFilter.HandleStockChange` | src/components/Filters/ProductFilter.tsx:16-18 | a stock change emits the empty category with the stock restriction following the box |
| `ProductFilter.EmittedFiltersExclusive` | src/components/Filters/ProductFilter.tsx:12-18 | no emitted filter restricts both category and stock; an event gives the unrestricted filter exactly when its value is `''` or unchecked |
| `ProductFilter.CategoryOptions` | src/components/Filters/ProductFilter.tsx:23-28 | the options are the empty value ("All Categories") followed by the categories in order |

## Left out

- Rendering: JSX, Tailwind classes, the Prev/Next `disabled` attributes (the handlers are guarded themselves), the
  dialog's title and the display of null numeric fields as `''`.
- React and Redux machinery: `useState`, `useEffect`, `useSelector`, `dispatch`, `createSlice`, action creators and
  `combineReducers` in src/redux/rootReducer.ts. State updates are plain methods on classes, and a dispatch is a
  method call on the store.
- `uuidv4`: the generated id is a parameter of `AddProduct` that is required not to occur in the list.
- The mock seed data: the store is created from an arbitrary list.
- `CategoryChart`, `formatCurrency` and `isLowStock`: src/components/Chart/CategoryChart and src/utils/formatters
  are not part of this model.
- Numbers: stock, price and the page fields are unbounded integers. Prices are decimals in the application; no
  arithmetic is done on them. `Number(...)` parsing is a function-valued parameter (`toNumber`). The NaN it
  yields for malformed input, which would pass the null check, is not represented.
- `DashboardPage.PageIsFilteredWindow`: stated for `currentPage >= 1` only. Below page 1, `slice` counts back from
  the end of the list. `PageView` computes that case, but the lemmas state only that such rows are filtered store
  products and are at most `itemsPerPage`.
