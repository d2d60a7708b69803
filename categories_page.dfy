// The admin list of categories (src/pages/Admin/Categories.tsx): the search
// over titles and descriptions in both languages, and the delete workflow
// with its image clean-up and reload. The confirm dialog's answer and the
// store's and bucket's outcomes are parameters; the alert is an
// out-parameter.

module CategoriesPage {
  import opened Types
  import opened Text
  import opened Sorting
  import opened FirestoreService
  import opened StorageService
  import opened ImageSteps

  const LoadFailed := "Failed to load categories"
  const DeleteFailed := "Failed to delete category"

  /** The search keeps a category when the lower-cased term occurs in the
      lower-cased English or Arabic title or description. */
  predicate CategoryMatches(c: Category, term: string)
  {
    var t := Lower(term);
    || Includes(Lower(c.doc.fields.title.en), t)
    || Includes(Lower(c.doc.fields.title.ar), t)
    || Includes(Lower(c.doc.fields.description.en), t)
    || Includes(Lower(c.doc.fields.description.ar), t)
  }

  /** filteredCategories: `categories.filter(...)`. */
  function FilterCategories(cs: seq<Category>, term: string): seq<Category>
  {
    if cs == [] then []
    else (if CategoryMatches(cs[0], term) then [cs[0]] else []) + FilterCategories(cs[1..], term)
  }

  /** A category is listed exactly when it is loaded and matches; nothing
      is added or repeated. */
  lemma {:induction false} FilterCategoriesMembers(cs: seq<Category>, term: string)
    ensures forall c :: c in FilterCategories(cs, term) <==> c in cs && CategoryMatches(c, term)
    ensures multiset(FilterCategories(cs, term)) <= multiset(cs)
  {
    if cs != [] {
      FilterCategoriesMembers(cs[1..], term);
      assert cs == [cs[0]] + cs[1..];
    }
  }

  /** The search keeps the order of the list: filtering a concatenation
      concatenates the filtered parts. */
  lemma {:induction false} FilterCategoriesAppend(a: seq<Category>, b: seq<Category>, term: string)
    ensures FilterCategories(a + b, term) == FilterCategories(a, term) + FilterCategories(b, term)
  {
    if a == [] {
      assert a + b == b;
    } else {
      assert (a + b)[0] == a[0] && (a + b)[1..] == a[1..] + b;
      FilterCategoriesAppend(a[1..], b, term);
    }
  }

  /** An empty search lists every category. */
  lemma {:induction false} EmptySearchKeepsAll(cs: seq<Category>)
    ensures FilterCategories(cs, "") == cs
  {
    if cs != [] {
      IncludesEmpty(Lower(cs[0].doc.fields.title.en));
      assert Lower("") == "";
      EmptySearchKeepsAll(cs[1..]);
    }
  }

  /** The store and bucket calls of handleDelete's try block up to the
      reload: the image first, its failure ignored, then deleteCategory. */
  method DeleteWithImage(store: Store, bucket: Bucket, category: Category, deleteImage: Outcome,
                         listing: Outcome, failing: set<string>, itemError: string, outcome: Outcome)
    returns (r: Result<()>)
    modifies store, bucket
    ensures bucket.objects == AfterDeleteOld(old(bucket.objects), category.MainImage(), deleteImage)
    ensures forall c :: c != category.Id() ==> ItemsIn(store.items, c) == ItemsIn(old(store.items), c)
    ensures listing.Failed? ==> store.items == old(store.items)
    ensures listing.Done? ==>
      store.ItemsOf(category.Id()) ==
      map k | k in old(store.ItemsOf(category.Id())) && k in failing :: old(store.ItemsOf(category.Id()))[k]
    ensures r.Ok? <==> listing.Done? && failing * old(store.ItemsOf(category.Id())).Keys == {} && outcome.Done?
    ensures listing.Failed? ==> r == Err(listing.message)
    ensures listing.Done? && failing * old(store.ItemsOf(category.Id())).Keys != {} ==> r == Err(itemError)
    ensures listing.Done? && failing * old(store.ItemsOf(category.Id())).Keys == {} && outcome.Failed? ==>
      r == Err(outcome.message)
    ensures r.Err? ==> store.categories == old(store.categories)
    ensures r.Ok? ==> store.categories == old(store.categories) - {category.Id()} && store.ItemsOf(category.Id()) == map[]
  {
    if category.MainImage() != "" {
      var _ := bucket.DeleteImage(category.MainImage(), deleteImage);
    }
    r := store.DeleteCategory(category.Id(), listing, failing, itemError, outcome);
  }

  /** The page's state. */
  class CategoriesPage {
    var categories: seq<Category>
    var loading: bool
    var error: Option<string>
    var deletingId: Option<string>

    constructor ()
      ensures categories == [] && loading && error.None? && deletingId.None?
    {
      categories := [];
      loading := true;
      error := None;
      deletingId := None;
    }

    /** loadCategories: every category of the store in ascending order, or
        the error; the list is kept when the call fails. */
    method LoadCategories(store: Store, outcome: Outcome)
      modifies this
      ensures !loading && deletingId == old(deletingId)
      ensures outcome.Failed? ==>
        categories == old(categories) && error == Some(ErrorText(outcome.message, LoadFailed))
      ensures outcome.Done? ==>
        error.None? && store.AllLoaded(categories) && SortedBy(categories, CategoryLeq)
    {
      loading := true;
      error := None;
      var data := store.GetCategories(outcome);
      if data.Err? {
        error := Some(ErrorText(data.message, LoadFailed));
      } else {
        categories := data.value;
      }
      loading := false;
    }

    /** handleDelete: a declined confirmation changes nothing. Otherwise
        DeleteWithImage runs; a failure is alerted, and a success reloads
        the list, which then no longer holds the category. */
    method HandleDelete(store: Store, bucket: Bucket, category: Category, confirmed: bool,
                        deleteImage: Outcome, listing: Outcome, failing: set<string>, itemError: string,
                        outcome: Outcome, reload: Outcome)
      returns (alerted: Option<string>)
      modifies this, store, bucket
      ensures deletingId == (if confirmed then None else old(deletingId))
      ensures !confirmed ==>
        && alerted.None? && categories == old(categories) && loading == old(loading) && error == old(error)
        && store.categories == old(store.categories) && store.items == old(store.items)
        && bucket.objects == old(bucket.objects)
      ensures confirmed ==>
        && bucket.objects == AfterDeleteOld(old(bucket.objects), category.MainImage(), deleteImage)
        && (forall c :: c != category.Id() ==> ItemsIn(store.items, c) == ItemsIn(old(store.items), c))
        && (listing.Failed? ==> store.items == old(store.items))
        && (listing.Done? ==>
              store.ItemsOf(category.Id()) ==
              map k | k in old(store.ItemsOf(category.Id())) && k in failing :: old(store.ItemsOf(category.Id()))[k])
        && (alerted.None? <==>
              listing.Done? && failing * old(store.ItemsOf(category.Id())).Keys == {} && outcome.Done?)
        && (listing.Failed? ==> alerted == Some(ErrorText(listing.message, DeleteFailed)))
        && (listing.Done? && failing * old(store.ItemsOf(category.Id())).Keys != {} ==>
              alerted == Some(ErrorText(itemError, DeleteFailed)))
        && (listing.Done? && failing * old(store.ItemsOf(category.Id())).Keys == {} && outcome.Failed? ==>
              alerted == Some(ErrorText(outcome.message, DeleteFailed)))
      ensures confirmed && alerted.Some? ==>
        && categories == old(categories) && loading == old(loading) && error == old(error)
        && store.categories == old(store.categories)
      ensures confirmed && alerted.None? ==>
        && store.categories == old(store.categories) - {category.Id()}
        && store.ItemsOf(category.Id()) == map[]
        && !loading
        && (reload.Failed? ==> categories == old(categories) && error == Some(ErrorText(reload.message, LoadFailed)))
        && (reload.Done? ==>
              && error.None? && store.AllLoaded(categories) && SortedBy(categories, CategoryLeq)
              && forall i :: 0 <= i < |categories| ==> categories[i].Id() != category.Id())
    {
      if !confirmed {
        return None;
      }
      deletingId := Some(category.Id());
      var deleted := DeleteWithImage(store, bucket, category, deleteImage, listing, failing, itemError, outcome);
      if deleted.Err? {
        alerted := Some(ErrorText(deleted.message, DeleteFailed));
      } else {
        alerted := None;
        LoadCategories(store, reload);
      }
      deletingId := None;
    }
  }
}
