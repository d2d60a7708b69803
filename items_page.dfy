// The admin list of items (src/pages/Admin/Items.tsx): every item of every
// category flattened into rows, filtered by the selected category and the
// search term, and sorted in place by category order and then item order;
// and the delete workflow with its image clean-up and reload.

module ItemsPage {
  import opened Types
  import opened Text
  import opened Sorting
  import opened FirestoreService
  import opened StorageService
  import opened ImageSteps

  const AllCategories := "all"
  const LoadFailed := "Failed to load items"
  const DeleteFailed := "Failed to delete item"

  /** `{ ...item, categoryId: category.id, category }` */
  datatype Row = Row(item: MenuItem, categoryId: string, category: Category)

  /** The rows of one category's items, in their order. */
  function RowsOf(items: seq<MenuItem>, c: Category): (r: seq<Row>)
    ensures |r| == |items|
  {
    if items == [] then [] else [Row(items[0], c.Id(), c)] + RowsOf(items[1..], c)
  }

  /** allItems: `categories.flatMap(...)`; a category without items
      contributes nothing. */
  function AllItems(cs: seq<Category>): seq<Row>
  {
    if cs == [] then [] else RowsOf(cs[0].ItemsOrEmpty(), cs[0]) + AllItems(cs[1..])
  }

  lemma {:induction false} RowsOfMembers(items: seq<MenuItem>, c: Category)
    ensures forall r :: r in RowsOf(items, c) <==> r.item in items && r.categoryId == c.Id() && r.category == c
  {
    if items != [] {
      RowsOfMembers(items[1..], c);
      assert items == [items[0]] + items[1..];
    }
  }

  /** Every row is an item of a listed category tagged with that category's
      id, and every item of every listed category has its row. */
  lemma {:induction false} AllItemsMembers(cs: seq<Category>)
    ensures forall r :: r in AllItems(cs) ==>
      r.category in cs && r.item in r.category.ItemsOrEmpty() && r.categoryId == r.category.Id()
    ensures forall c, x :: c in cs && x in c.ItemsOrEmpty() ==> Row(x, c.Id(), c) in AllItems(cs)
  {
    if cs != [] {
      AllItemsMembers(cs[1..]);
      RowsOfMembers(cs[0].ItemsOrEmpty(), cs[0]);
      assert cs == [cs[0]] + cs[1..];
    }
  }

  /** flatMap keeps the order of the categories. */
  lemma {:induction false} AllItemsAppend(a: seq<Category>, b: seq<Category>)
    ensures AllItems(a + b) == AllItems(a) + AllItems(b)
  {
    if a == [] {
      assert a + b == b;
    } else {
      assert (a + b)[0] == a[0] && (a + b)[1..] == a[1..] + b;
      AllItemsAppend(a[1..], b);
    }
  }

  /** The filter: the selected category (unless 'all'), then, for a
      non-empty search, the lower-cased term in the lower-cased English or
      Arabic name. */
  predicate RowKept(r: Row, selected: string, term: string)
  {
    && (selected == AllCategories || r.categoryId == selected)
    && (term == ""
        || Includes(Lower(r.item.fields.name.en), Lower(term))
        || Includes(Lower(r.item.fields.name.ar), Lower(term)))
  }

  /** filteredItems before sorting: `allItems.filter(...)`. */
  function FilterRows(rows: seq<Row>, selected: string, term: string): seq<Row>
  {
    if rows == [] then []
    else (if RowKept(rows[0], selected, term) then [rows[0]] else []) + FilterRows(rows[1..], selected, term)
  }

  /** A row survives exactly when it passes the filter; the survivors are a
      sub-multiset of the rows. */
  lemma {:induction false} FilterRowsMembers(rows: seq<Row>, selected: string, term: string)
    ensures forall r :: r in FilterRows(rows, selected, term) <==> r in rows && RowKept(r, selected, term)
    ensures multiset(FilterRows(rows, selected, term)) <= multiset(rows)
  {
    if rows != [] {
      FilterRowsMembers(rows[1..], selected, term);
      assert rows == [rows[0]] + rows[1..];
    }
  }

  /** With 'all' selected and no search term every row is kept, in order. */
  lemma {:induction false} NoFilterKeepsAll(rows: seq<Row>)
    ensures FilterRows(rows, AllCategories, "") == rows
  {
    if rows != [] {
      NoFilterKeepsAll(rows[1..]);
    }
  }

  /** The comparator: category order first, then item order (a comparator
      result of at most zero puts a first). */
  function RowLeq(a: Row, b: Row): bool
  {
    || a.category.Order() < b.category.Order()
    || (a.category.Order() == b.category.Order() && a.item.fields.order <= b.item.fields.order)
  }

  lemma RowLeqTotal()
    ensures TotalPreorder(RowLeq)
  {
  }

  /** filteredItems after `filteredItems.sort(...)`: the filtered rows
      sorted in place by RowLeq, keeping the order of equal rows. */
  method FilteredItems(categories: seq<Category>, selected: string, term: string) returns (rows: seq<Row>)
    ensures rows == InsertionSort(FilterRows(AllItems(categories), selected, term), RowLeq)
    ensures SortedBy(rows, RowLeq)
    ensures multiset(rows) == multiset(FilterRows(AllItems(categories), selected, term))
  {
    var filtered := FilterRows(AllItems(categories), selected, term);
    var a := new Row[|filtered|](i requires 0 <= i < |filtered| => filtered[i]);
    assert a[..] == filtered;
    Sort(a, RowLeq);
    RowLeqTotal();
    InsertionSortSorted(filtered, RowLeq);
    InsertionSortPermutes(filtered, RowLeq);
    rows := a[..];
  }

  /** Once an item document is gone from the store, no row of a freshly
      loaded list shows it under its category. */
  lemma DeletedItemNotListed(store: Store, cs: seq<Category>, categoryId: string, itemId: string)
    requires store.AllLoaded(cs) && itemId !in store.ItemsOf(categoryId)
    ensures forall r :: r in AllItems(cs) ==> !(r.categoryId == categoryId && r.item.id == itemId)
  {
    AllItemsMembers(cs);
    forall r | r in AllItems(cs)
      ensures !(r.categoryId == categoryId && r.item.id == itemId)
    {
      var c := r.category;
      var i :| 0 <= i < |cs| && cs[i] == c;
      assert store.Holds(c);
      var items := c.items.value;
      var j :| 0 <= j < |items| && items[j] == r.item;
      assert items[j].id in store.ItemsOf(c.Id());
    }
  }

  /** The item being deleted: its category's id and its own id. */
  datatype ItemRef = ItemRef(categoryId: string, itemId: string)

  /** The store and bucket calls of handleDelete's try block up to the
      reload: the image first, its failure ignored, then deleteItem. */
  method DeleteItemWithImage(store: Store, bucket: Bucket, categoryId: string, item: MenuItem,
                             deleteImage: Outcome, remove: Outcome)
    returns (r: Result<()>)
    modifies store, bucket
    ensures store.categories == old(store.categories)
    ensures bucket.objects == AfterDeleteOld(old(bucket.objects), item.fields.image, deleteImage)
    ensures remove.Failed? ==> r == Err(remove.message) && store.items == old(store.items)
    ensures remove.Done? ==>
      && r.Ok?
      && ItemsIn(store.items, categoryId) == ItemsIn(old(store.items), categoryId) - {item.id}
      && forall c :: c != categoryId ==> ItemsIn(store.items, c) == ItemsIn(old(store.items), c)
  {
    if item.fields.image != "" {
      var _ := bucket.DeleteImage(item.fields.image, deleteImage);
    }
    r := store.DeleteItem(categoryId, item.id, remove);
  }

  /** The page's state. */
  class ItemsPage {
    var categories: seq<Category>
    var selectedCategoryId: string
    var loading: bool
    var error: Option<string>
    var searchTerm: string
    var deletingId: Option<ItemRef>

    constructor ()
      ensures categories == [] && selectedCategoryId == AllCategories && loading && error.None?
      ensures searchTerm == "" && deletingId.None?
    {
      categories := [];
      selectedCategoryId := AllCategories;
      loading := true;
      error := None;
      searchTerm := "";
      deletingId := None;
    }

    /** loadCategories: every category of the store in ascending order, or
        the error; the list is kept when the call fails. */
    method LoadCategories(store: Store, outcome: Outcome)
      modifies this
      ensures !loading && deletingId == old(deletingId)
      ensures selectedCategoryId == old(selectedCategoryId) && searchTerm == old(searchTerm)
      ensures outcome.Failed? ==>
        categories == old(categories) && error == Some(ErrorText(outcome.message, LoadFailed))
      ensures outcome.Done? ==>
        error.None? && store.AllLoaded(categories) && SortedBy(categories, CategoryLeq)
    {
      loading := true;
      error := None;
      var data := store.GetCategories(outcome);
      if data.Err? {
        error := Some(ErrorText(data.message, LoadFailed));
      } else {
        categories := data.value;
      }
      loading := false;
    }

    /** handleDelete: a declined confirmation changes nothing. Otherwise
        DeleteItemWithImage runs; a failure is alerted, and a success
        reloads the list, which then shows the item nowhere under its
        category. */
    method HandleDelete(store: Store, bucket: Bucket, categoryId: string, item: MenuItem, confirmed: bool,
                        deleteImage: Outcome, remove: Outcome, reload: Outcome)
      returns (alerted: Option<string>)
      modifies this, store, bucket
      ensures store.categories == old(store.categories)
      ensures selectedCategoryId == old(selectedCategoryId) && searchTerm == old(searchTerm)
      ensures deletingId == (if confirmed then None else old(deletingId))
      ensures !confirmed ==>
        && alerted.None? && categories == old(categories) && loading == old(loading) && error == old(error)
        && store.items == old(store.items) && bucket.objects == old(bucket.objects)
      ensures confirmed ==>
        bucket.objects == AfterDeleteOld(old(bucket.objects), item.fields.image, deleteImage)
      ensures confirmed && remove.Failed? ==>
        && alerted == Some(ErrorText(remove.message, DeleteFailed))
        && store.items == old(store.items)
        && categories == old(categories) && loading == old(loading) && error == old(error)
      ensures confirmed && remove.Done? ==>
        && alerted.None?
        && ItemsIn(store.items, categoryId) == ItemsIn(old(store.items), categoryId) - {item.id}
        && (forall c :: c != categoryId ==> ItemsIn(store.items, c) == ItemsIn(old(store.items), c))
        && !loading
        && (reload.Failed? ==> categories == old(categories) && error == Some(ErrorText(reload.message, LoadFailed)))
        && (reload.Done? ==>
              && error.None? && store.AllLoaded(categories) && SortedBy(categories, CategoryLeq)
              && forall r :: r in AllItems(categories) ==> !(r.categoryId == categoryId && r.item.id == item.id))
    {
      if !confirmed {
        return None;
      }
      deletingId := Some(ItemRef(categoryId, item.id));
      var deleted := DeleteItemWithImage(store, bucket, categoryId, item, deleteImage, remove);
      if deleted.Err? {
        alerted := Some(ErrorText(deleted.message, DeleteFailed));
      } else {
        alerted := None;
        LoadCategories(store, reload);
        if reload.Done? {
          DeletedItemNotListed(store, categories, categoryId, item.id);
        }
      }
      deletingId := None;
    }
  }
}
