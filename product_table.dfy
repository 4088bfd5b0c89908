/**
 * The product table: rows of the current page with check boxes, a header
 * check box that selects or clears the page, serial numbers, and the delete
 * buttons. The selection is the table's own state.
 */
module ProductTable {
  import opened Wrappers
  import opened JsArray
  import opened ProductSlice

  /** No id occurs twice. */
  ghost predicate NoDuplicates(s: seq<string>)
  {
    forall i, j :: 0 <= i < j < |s| ==> s[i] != s[j]
  }

  function Other(id: string): string -> bool
  {
    (x: string) => x != id
  }

  /** `handleSelectRow`: removes the id when it is selected, appends it otherwise. */
  function Toggled(selected: seq<string>, id: string): (r: seq<string>)
    ensures id in r <==> id !in selected
    ensures forall x :: x != id ==> (x in r <==> x in selected)
    ensures id in selected ==> IsSubsequence(r, selected)
    ensures id !in selected ==> |r| == |selected| + 1 && r[..|selected|] == selected && r[|selected|] == id
  {
    if id in selected then
      FilterIsSubsequence(selected, Other(id));
      Filter(selected, Other(id))
    else selected + [id]
  }

  /** The ids of the rows on the page, in row order (`products.map(p => p.id)`). */
  function PageIds(page: seq<Product>): (r: seq<string>)
    ensures |r| == |page|
    ensures forall i :: 0 <= i < |page| ==> r[i] == page[i].id
  {
    seq(|page|, i requires 0 <= i < |page| => page[i].id)
  }

  /** The header check box is ticked when as many ids are selected as there are rows. */
  predicate HeaderChecked(selected: seq<string>, page: seq<Product>)
    ensures selected == PageIds(page) ==> HeaderChecked(selected, page)
    ensures selected == [] ==> (HeaderChecked(selected, page) <==> page == [])
  {
    |selected| == |page|
  }

  /** Clicking the header check box: clears a "full" selection, otherwise selects the whole page. */
  function HeaderToggled(selected: seq<string>, page: seq<Product>): (r: seq<string>)
    ensures HeaderChecked(selected, page) ==> r == []
    ensures !HeaderChecked(selected, page) ==> r == PageIds(page)
  {
    if |selected| == |page| then [] else PageIds(page)
  }

  /** The serial number shown in row `index` of page `currentPage`. */
  function SerialNumber(currentPage: int, itemsPerPage: int, index: int): (r: int)
    ensures 0 <= index < itemsPerPage ==>
      (currentPage - 1) * itemsPerPage < r <= currentPage * itemsPerPage
    ensures 1 <= currentPage && 0 <= itemsPerPage && 0 <= index ==> index + 1 <= r
  {
    (currentPage - 1) * itemsPerPage + index + 1
  }

  /** A row's Delete button sends just that row's id. */
  function RowDeletePayload(p: Product): (ids: seq<string>)
    ensures |ids| == 1 && p.id in ids
  {
    [p.id]
  }

  /** "Delete Selected" sends the selection; the button is disabled (no event) when nothing is selected. */
  function DeleteSelectedPayload(selected: seq<string>): (r: Option<seq<string>>)
    ensures r.None? <==> |selected| == 0
    ensures r.Some? ==> r.value == selected
  {
    if |selected| == 0 then None else Some(selected)
  }

  /** The table's local selection state. */
  class TableSelection {
    var selectedIds: seq<string>

    constructor ()
      ensures selectedIds == []
    {
      selectedIds := [];
    }

    method HandleSelectRow(id: string)
      modifies this
      ensures selectedIds == Toggled(old(selectedIds), id)
      ensures NoDuplicates(old(selectedIds)) ==> NoDuplicates(selectedIds)
    {
      if id in selectedIds {
        selectedIds := Filter(selectedIds, Other(id));
      } else {
        selectedIds := selectedIds + [id];
      }
      if NoDuplicates(old(selectedIds)) {
        ToggleKeepsNoDuplicates(old(selectedIds), id);
      }
    }

    method HandleHeaderToggle(page: seq<Product>)
      modifies this
      ensures selectedIds == HeaderToggled(old(selectedIds), page)
    {
      if |selectedIds| == |page| {
        selectedIds := [];
      } else {
        selectedIds := PageIds(page);
      }
    }
  }

  /** Toggling keeps the selection free of duplicates. */
  lemma ToggleKeepsNoDuplicates(selected: seq<string>, id: string)
    requires NoDuplicates(selected)
    ensures NoDuplicates(Toggled(selected, id))
  {
    var r := Toggled(selected, id);
    if id in selected {
      FilterPreservesPairwise(selected, Other(id), (a: string, b: string) => a != b);
    } else {
      forall i, j | 0 <= i < j < |r| ensures r[i] != r[j] {
        if j == |selected| {
          assert r[i] in selected;
        } else {
          assert r[i] == selected[i] && r[j] == selected[j];
        }
      }
    }
  }

  /**
   * Toggling the same row twice restores the selected set; when the id was not
   * selected before, it restores the selection exactly.
   */
  lemma ToggleTwice(selected: seq<string>, id: string)
    ensures forall x :: x in Toggled(Toggled(selected, id), id) <==> x in selected
    ensures id !in selected ==> Toggled(Toggled(selected, id), id) == selected
  {
    if id !in selected {
      var once := selected + [id];
      assert Toggled(selected, id) == once;
      FilterAppend(selected, [id], Other(id));
      FilterAllKept(selected, Other(id));
      assert Filter([id], Other(id)) == [];
    }
  }

  /** Serial numbers on a page are consecutive, and continue from one page to the next. */
  lemma SerialsConsecutive(currentPage: int, itemsPerPage: int, index: int)
    ensures SerialNumber(currentPage, itemsPerPage, index + 1) == SerialNumber(currentPage, itemsPerPage, index) + 1
    ensures SerialNumber(currentPage + 1, itemsPerPage, 0) == SerialNumber(currentPage, itemsPerPage, itemsPerPage - 1) + 1
    ensures SerialNumber(1, itemsPerPage, 0) == 1
  {
  }

  function SetOf(s: seq<string>): set<string>
  {
    set x | x in s
  }

  lemma {:induction false} DistinctCardinality(s: seq<string>)
    requires NoDuplicates(s)
    ensures |SetOf(s)| == |s|
  {
    if s != [] {
      var t := s[1..];
      assert NoDuplicates(t) by {
        forall i, j | 0 <= i < j < |t| ensures t[i] != t[j] {
          assert t[i] == s[i + 1] && t[j] == s[j + 1];
        }
      }
      DistinctCardinality(t);
      assert SetOf(s) == SetOf(t) + {s[0]};
      assert s[0] !in SetOf(t);
    }
  }

  /**
   * The header compares lengths, not sets. When the selection holds only ids of
   * the page, without duplicates, and the page ids are distinct, the two agree:
   * the box is ticked exactly when every row is selected.
   */
  lemma HeaderCheckedWhenAllRowsSelected(selected: seq<string>, page: seq<Product>)
    requires NoDuplicates(selected) && NoDuplicates(PageIds(page))
    requires forall x :: x in selected ==> x in PageIds(page)
    ensures HeaderChecked(selected, page) <==> forall p :: p in page ==> p.id in selected
  {
    var a, b := SetOf(selected), SetOf(PageIds(page));
    DistinctCardinality(selected);
    DistinctCardinality(PageIds(page));
    assert a <= b;
    forall p | p in page ensures p.id in b {
      var k :| 0 <= k < |page| && page[k] == p;
      assert PageIds(page)[k] == p.id;
    }
    if HeaderChecked(selected, page) {
      assert |a| == |b|;
      if a != b {
        var x :| x in b && x !in a;
        assert a <= b - {x};
        assert |b - {x}| == |b| - 1;
        SubsetCardinality(a, b - {x});
      }
    } else {
      if forall p :: p in page ==> p.id in selected {
        forall x | x in b ensures x in a {
          var k :| 0 <= k < |page| && PageIds(page)[k] == x;
          assert page[k] in page;
        }
        assert a == b;
      }
    }
  }

  lemma {:induction false} SubsetCardinality(a: set<string>, b: set<string>)
    requires a <= b
    ensures |a| <= |b|
  {
    assert b == a + (b - a);
  }

  /** Without the side conditions the header can be ticked while no row of the page is selected. */
  lemma HeaderCheckedComparesLengths()
    ensures HeaderChecked(["a"], [Product("b", "Mug", "Food", 10, 5)])
    ensures "b" !in ["a"]
  {
  }

  /** Clicking the header on a non-empty page flips its tick. */
  lemma HeaderToggleFlips(selected: seq<string>, page: seq<Product>)
    requires |page| > 0
    ensures HeaderChecked(HeaderToggled(selected, page), page) <==> !HeaderChecked(selected, page)
  {
  }
}
