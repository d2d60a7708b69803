// The public menu carousel (src/components/Menu/MenuSection.tsx): which
// category is shown, which page of its items, the four navigation handlers,
// the indicator and page-dot clicks, and the window of items a page shows.
// The animation and the markup are not modelled.

module MenuSection {
  import opened Types
  import JsArray

  const ItemsPerPage: nat := 3
  /** How many items a page shows: three in full and a fourth half visible. */
  const WindowSize: nat := 4
  const LoadFailed := "Failed to load menu"

  /** `Math.ceil(n / itemsPerPage)` */
  function TotalPages(n: nat): (p: nat)
    ensures p * ItemsPerPage >= n
    ensures p > 0 ==> (p - 1) * ItemsPerPage < n
  {
    (n + ItemsPerPage - 1) / ItemsPerPage
  }

  /** The pagination row is rendered when `items.length > itemsPerPage`,
      which is when there is more than one page. */
  lemma PaginationShownIffSeveralPages(n: nat)
    ensures n > ItemsPerPage <==> TotalPages(n) > 1
  {
  }

  /** `items.slice(startIndex, startIndex + 4)` with `startIndex = page * 3`. */
  function Window(items: seq<MenuItem>, page: nat): seq<MenuItem>
  {
    JsArray.Slice(items, page * ItemsPerPage, page * ItemsPerPage + WindowSize)
  }

  /** A page's window starts at its first item, holds at most four items,
      and is not empty for a page that exists. */
  lemma WindowShape(items: seq<MenuItem>, page: nat)
    ensures |Window(items, page)| <= WindowSize
    ensures page < TotalPages(|items|) ==> 1 <= |Window(items, page)| && Window(items, page)[0] == items[page * ItemsPerPage]
    ensures forall j :: 0 <= j < |Window(items, page)| ==> Window(items, page)[j] == items[page * ItemsPerPage + j]
  {
    JsArray.SliceFromStart(items, page * ItemsPerPage, page * ItemsPerPage + WindowSize);
  }

  /** Every item is shown on the page its index falls in. */
  lemma EveryItemShown(items: seq<MenuItem>, i: nat)
    requires i < |items|
    ensures i / ItemsPerPage < TotalPages(|items|)
    ensures items[i] == Window(items, i / ItemsPerPage)[i % ItemsPerPage]
  {
    WindowShape(items, i / ItemsPerPage);
    JsArray.SliceFromStart(items, i / ItemsPerPage * ItemsPerPage, i / ItemsPerPage * ItemsPerPage + WindowSize);
  }

  /** The half-visible fourth item of a full window is the first item of the
      next page. */
  lemma WindowOverlap(items: seq<MenuItem>, page: nat)
    requires |Window(items, page)| == WindowSize
    ensures page + 1 < TotalPages(|items|)
    ensures Window(items, page)[3] == Window(items, page + 1)[0]
  {
    WindowShape(items, page);
    WindowShape(items, page + 1);
  }

  /** The carousel's state. */
  class Carousel {
    var categories: seq<Category>
    var loading: bool
    var error: Option<string>
    var activeCategoryIndex: int
    var activeItemIndex: int

    /** The items of the category shown: `activeCategory?.items || []`. */
    function ActiveItems(): seq<MenuItem>
      reads this
    {
      if 0 <= activeCategoryIndex < |categories| then categories[activeCategoryIndex].ItemsOrEmpty() else []
    }

    /** Both indices stay in range: the category index within the list (0
        when it is empty) and the page index within the pages of the shown
        category (0 when it has none). */
    ghost predicate Valid()
      reads this
    {
      && 0 <= activeCategoryIndex
      && (activeCategoryIndex < |categories| || activeCategoryIndex == 0)
      && 0 <= activeItemIndex
      && (activeItemIndex < TotalPages(|ActiveItems()|) || activeItemIndex == 0)
    }

    /** The first render: nothing loaded yet, both indices 0. */
    constructor ()
      ensures Valid()
      ensures categories == [] && loading && error.None?
      ensures activeCategoryIndex == 0 && activeItemIndex == 0
    {
      categories := [];
      loading := true;
      error := None;
      activeCategoryIndex := 0;
      activeItemIndex := 0;
    }

    /** loadCategories: on success the fetched list replaces the shown one;
        on failure the error's message, or a fixed text when it has none, is
        shown. The indices are left as they are. */
    method LoadCategories(outcome: Outcome, fetched: seq<Category>)
      modifies this
      requires activeCategoryIndex == 0 && activeItemIndex == 0
      ensures Valid()
      ensures categories == (if outcome.Done? then fetched else old(categories))
      ensures error == (if outcome.Done? then None
                        else Some(ErrorText(outcome.message, LoadFailed)))
      ensures !loading
      ensures activeCategoryIndex == 0 && activeItemIndex == 0
    {
      loading := true;
      error := None;
      if outcome.Done? {
        categories := fetched;
      } else {
        error := Some(ErrorText(outcome.message, LoadFailed));
      }
      loading := false;
    }

    /** goToNextCategory: moves on only while there is a next category, and
        goes back to the first page. */
    method GoToNextCategory()
      modifies this
      requires Valid()
      ensures Valid()
      ensures if old(activeCategoryIndex) < |categories| - 1
              then activeCategoryIndex == old(activeCategoryIndex) + 1 && activeItemIndex == 0
              else activeCategoryIndex == old(activeCategoryIndex) && activeItemIndex == old(activeItemIndex)
      ensures categories == old(categories) && loading == old(loading) && error == old(error)
    {
      if activeCategoryIndex < |categories| - 1 {
        activeCategoryIndex := activeCategoryIndex + 1;
        activeItemIndex := 0;
      }
    }

    /** goToPreviousCategory: moves back only from a category after the
        first, and goes back to the first page. */
    method GoToPreviousCategory()
      modifies this
      requires Valid()
      ensures Valid()
      ensures if old(activeCategoryIndex) > 0
              then activeCategoryIndex == old(activeCategoryIndex) - 1 && activeItemIndex == 0
              else activeCategoryIndex == old(activeCategoryIndex) && activeItemIndex == old(activeItemIndex)
      ensures categories == old(categories) && loading == old(loading) && error == old(error)
    {
      if activeCategoryIndex > 0 {
        activeCategoryIndex := activeCategoryIndex - 1;
        activeItemIndex := 0;
      }
    }

    /** goToNextItems: moves to the next page only while the shown page is
        before the last, `Math.ceil(totalItems / itemsPerPage) - 1`. */
    method GoToNextItems()
      modifies this
      requires Valid()
      ensures Valid()
      ensures if old(activeItemIndex) < TotalPages(|ActiveItems()|) - 1
              then activeItemIndex == old(activeItemIndex) + 1
              else activeItemIndex == old(activeItemIndex)
      ensures activeCategoryIndex == old(activeCategoryIndex)
      ensures categories == old(categories) && loading == old(loading) && error == old(error)
    {
      var activeItems := if 0 <= activeCategoryIndex < |categories|
        then categories[activeCategoryIndex].ItemsOrEmpty() else [];
      var maxIndex := TotalPages(|activeItems|) - 1;
      if activeItemIndex < maxIndex {
        activeItemIndex := activeItemIndex + 1;
      }
    }

    /** goToPreviousItems: never goes below the first page. */
    method GoToPreviousItems()
      modifies this
      requires Valid()
      ensures Valid()
      ensures activeItemIndex == if old(activeItemIndex) > 0 then old(activeItemIndex) - 1 else old(activeItemIndex)
      ensures activeCategoryIndex == old(activeCategoryIndex)
      ensures categories == old(categories) && loading == old(loading) && error == old(error)
    {
      if activeItemIndex > 0 {
        activeItemIndex := activeItemIndex - 1;
      }
    }

    /** A category indicator click: shows that category from its first page.
        The indicators are drawn one per category. */
    method SelectCategory(index: nat)
      modifies this
      requires index < |categories|
      ensures Valid()
      ensures activeCategoryIndex == index && activeItemIndex == 0
      ensures categories == old(categories) && loading == old(loading) && error == old(error)
    {
      activeCategoryIndex := index;
      activeItemIndex := 0;
    }

    /** A page dot click: the dots are drawn one per page of the shown
        category. */
    method SelectPage(index: nat)
      modifies this
      requires Valid() && index < TotalPages(|ActiveItems()|)
      ensures Valid()
      ensures activeItemIndex == index && activeCategoryIndex == old(activeCategoryIndex)
      ensures categories == old(categories) && loading == old(loading) && error == old(error)
    {
      activeItemIndex := index;
    }

    /** What the shown page displays: at most four items, starting with the
        first item of the page. */
    method VisibleItems() returns (visible: seq<MenuItem>)
      requires Valid()
      ensures visible == Window(ActiveItems(), activeItemIndex)
      ensures |visible| <= WindowSize
      ensures |ActiveItems()| > 0 ==> 1 <= |visible| && visible[0] == ActiveItems()[activeItemIndex * ItemsPerPage]
    {
      var items := if 0 <= activeCategoryIndex < |categories|
        then categories[activeCategoryIndex].ItemsOrEmpty() else [];
      var startIndex := activeItemIndex * ItemsPerPage;
      visible := JsArray.Slice(items, startIndex, startIndex + WindowSize);
      WindowShape(items, activeItemIndex);
    }
  }
}
