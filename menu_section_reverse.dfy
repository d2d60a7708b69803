// The reversed carousel of each category (src/components/Menu/MenuSectionReverse.tsx):
// a category's page number comes from the parent, page 0 shows the last
// block of items, and the previous-page button asks the parent for the next
// page number. The animation and the markup are not modelled.

module MenuSectionReverse {
  import opened Types
  import JsArray
  import MenuSection

  const ItemsPerPage: nat := 3
  const WindowSize: nat := 4

  /** `Math.ceil(items.length / itemsPerPage)`, with `category?.items || []`. */
  function TotalPages(c: Category): nat
  {
    MenuSection.TotalPages(|c.ItemsOrEmpty()|)
  }

  /** `categoryItemPages[category.id] || 0` */
  function CurrentPage(pages: map<string, int>, id: string): (p: int)
    ensures id !in pages ==> p == 0
    ensures id in pages ==> p == pages[id]
  {
    if id in pages then pages[id] else 0
  }

  /** `(totalPages - 1 - currentPage) * itemsPerPage` */
  function StartIndex(totalPages: nat, page: int): int
  {
    (totalPages - 1 - page) * ItemsPerPage
  }

  /** For a page in range the start index is a multiple of three inside the
      item list; page 0 starts the last block and the last page starts at 0. */
  lemma StartIndexInRange(n: nat, page: int)
    requires 0 <= page < MenuSection.TotalPages(n)
    ensures var s := StartIndex(MenuSection.TotalPages(n), page);
      && 0 <= s < n && s % ItemsPerPage == 0
      && (page == 0 ==> n - s <= ItemsPerPage)
      && (page == MenuSection.TotalPages(n) - 1 ==> s == 0)
  {
  }

  /** `items.slice(startIndex, startIndex + 4).reverse()` */
  function Visible(items: seq<MenuItem>, page: int): seq<MenuItem>
  {
    var s := StartIndex(MenuSection.TotalPages(|items|), page);
    JsArray.Reversed(JsArray.Slice(items, s, s + WindowSize))
  }

  /** A page in range shows, last first, the items from its start index on,
      at most four of them and at least one. */
  lemma VisibleShape(items: seq<MenuItem>, page: int)
    requires 0 <= page < MenuSection.TotalPages(|items|)
    ensures var s := StartIndex(MenuSection.TotalPages(|items|), page);
      var v := Visible(items, page);
      && 1 <= |v| <= WindowSize
      && v[|v| - 1] == items[s]
      && forall j :: 0 <= j < |v| ==> v[j] == items[s + |v| - 1 - j]
  {
    var s := StartIndex(MenuSection.TotalPages(|items|), page);
    StartIndexInRange(|items|, page);
    JsArray.SliceFromStart(items, s, s + WindowSize);
  }

  /** Page 0 ends with the last item: its first shown item is the last one. */
  lemma FirstPageShowsLastItem(items: seq<MenuItem>)
    requires |items| > 0
    ensures Visible(items, 0)[0] == items[|items| - 1]
  {
    var s := StartIndex(MenuSection.TotalPages(|items|), 0);
    StartIndexInRange(|items|, 0);
    JsArray.SliceFromStart(items, s, s + WindowSize);
    VisibleShape(items, 0);
  }

  /** goToPrevPage: asks the parent for page currentPage + 1 only while
      there is an earlier block to show. */
  function GoToPrevPage(c: Category, pages: map<string, int>): (request: Option<(string, int)>)
    ensures request.Some? <==> CurrentPage(pages, c.Id()) < TotalPages(c) - 1
    ensures request.Some? ==> request.value == (c.Id(), CurrentPage(pages, c.Id()) + 1)
  {
    var currentPage := CurrentPage(pages, c.Id());
    if currentPage < TotalPages(c) - 1 then Some((c.Id(), currentPage + 1)) else None
  }

  /** A category the parent has no page for yet shows page 0: its last
      block, led by its last item, with a start index inside the list. */
  lemma UnvisitedShowsLastBlock(c: Category, pages: map<string, int>)
    requires c.Id() !in pages && |c.ItemsOrEmpty()| > 0
    ensures var items := c.ItemsOrEmpty();
      var s := StartIndex(TotalPages(c), CurrentPage(pages, c.Id()));
      && 0 <= s < |items| && |items| - s <= ItemsPerPage
      && Visible(items, CurrentPage(pages, c.Id()))[0] == items[|items| - 1]
  {
    StartIndexInRange(|c.ItemsOrEmpty()|, 0);
    FirstPageShowsLastItem(c.ItemsOrEmpty());
  }

  /** The page dots: dot `index` asks the parent for page `index` of this
      category, one dot per page. */
  function PageDots(c: Category): seq<(string, int)>
  {
    seq(TotalPages(c), index requires 0 <= index < TotalPages(c) => (c.Id(), index))
  }

  /** Every dot asks for a page in range, and the page it selects shows one
      to four items, last first, starting at a multiple of three. */
  lemma PageDotsInRange(c: Category, pages: map<string, int>, index: nat)
    requires index < |PageDots(c)|
    ensures var request := PageDots(c)[index];
      var after := pages[request.0 := request.1];
      var items := c.ItemsOrEmpty();
      var s := StartIndex(TotalPages(c), CurrentPage(after, c.Id()));
      && request.0 == c.Id() && 0 <= request.1 < TotalPages(c)
      && CurrentPage(after, c.Id()) == index
      && 0 <= s < |items| && s % ItemsPerPage == 0
      && 1 <= |Visible(items, index)| <= WindowSize
  {
    StartIndexInRange(|c.ItemsOrEmpty()|, index);
    VisibleShape(c.ItemsOrEmpty(), index);
  }

  /** The controls are drawn when there is more than one page. */
  predicate ControlsShown(c: Category)
  {
    TotalPages(c) > 1
  }

  /** The previous-page button is disabled when the page is the last or
      beyond. */
  predicate PrevDisabled(c: Category, pages: map<string, int>)
  {
    CurrentPage(pages, c.Id()) >= TotalPages(c) - 1
  }

  /** The button is disabled exactly when clicking it would ask for nothing,
      and the controls are shown exactly when the category has more than
      three items. */
  lemma ControlsAgree(c: Category, pages: map<string, int>)
    ensures PrevDisabled(c, pages) <==> GoToPrevPage(c, pages).None?
    ensures ControlsShown(c) <==> |c.ItemsOrEmpty()| > ItemsPerPage
  {
    MenuSection.PaginationShownIffSeveralPages(|c.ItemsOrEmpty()|);
  }

  /** Starting from page 0 and following the parent's updates, the page
      stays in range. */
  lemma PrevPageKeepsRange(c: Category, pages: map<string, int>)
    requires 0 <= CurrentPage(pages, c.Id()) < TotalPages(c) || CurrentPage(pages, c.Id()) == 0
    ensures GoToPrevPage(c, pages).Some? ==> 0 <= GoToPrevPage(c, pages).value.1 < TotalPages(c)
  {
  }
}
