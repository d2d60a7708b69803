// The admin pages that create and edit a menu item
// (src/pages/Admin/ItemNew.tsx, src/pages/Admin/ItemEdit.tsx). As for the
// category pages, each submit is a fixed sequence of store and bucket calls
// whose outcomes are parameters. An edit that changes the category creates
// the item anew in the chosen category and then deletes the old document.

module ItemPages {
  import opened Types
  import opened FirestoreService
  import opened StorageService
  import opened ImageSteps
  import opened Sorting

  const ImageRequired := "Image is required"
  const CategoriesLoadFailed := "Failed to load categories"
  const CreateFailed := "Failed to create item"
  const UpdateFailed := "Failed to update item"
  const LoadFailed := "Failed to load item"
  const CategoryNotFound := "Category not found"
  const ItemNotFound := "Item not found"

  /** `items.find((i) => i.id === id)`: the first item with that id. */
  function FindById(items: seq<MenuItem>, id: string): Option<MenuItem>
  {
    if items == [] then None
    else if items[0].id == id then Some(items[0])
    else FindById(items[1..], id)
  }

  /** find yields an item with the id, the first one, and nothing only when
      no item has it. */
  lemma {:induction false} FindByIdSpec(items: seq<MenuItem>, id: string)
    ensures var r := FindById(items, id);
      && (r.None? <==> forall i :: 0 <= i < |items| ==> items[i].id != id)
      && (r.Some? ==> exists i :: 0 <= i < |items| && items[i] == r.value && r.value.id == id
                        && forall j :: 0 <= j < i ==> items[j].id != id)
  {
    if items != [] && items[0].id != id {
      FindByIdSpec(items[1..], id);
      var r := FindById(items, id);
      if r.Some? {
        var i :| 0 <= i < |items[1..]| && items[1..][i] == r.value && r.value.id == id
                 && forall j :: 0 <= j < i ==> items[1..][j].id != id;
        assert items[i + 1] == r.value;
        assert forall j :: 0 <= j < i + 1 ==> items[j].id != id by {
          forall j | 0 <= j < i + 1
            ensures items[j].id != id
          {
            if j > 0 { assert items[j] == items[1..][j - 1]; }
          }
        }
      } else {
        assert forall i :: 0 <= i < |items| ==> items[i].id != id by {
          forall i | 0 <= i < |items|
            ensures items[i].id != id
          {
            if i > 0 { assert items[i] == items[1..][i - 1]; }
          }
        }
      }
    }
  }

  /** In a category as getCategory loads it, find by id succeeds exactly for
      the ids of the category's item documents, and yields that document. */
  lemma FindLoadedItem(c: Category, cid: string, s: Stored<CategoryData>, docs: map<string, Stored<MenuItemData>>, id: string)
    requires Loaded(c, cid, s, docs)
    ensures FindById(c.ItemsOrEmpty(), id).Some? <==> id in docs
    ensures id in docs ==> FindById(c.ItemsOrEmpty(), id) == Some(ToDoc(id, docs[id]))
  {
    var items := c.items.value;
    FindByIdSpec(items, id);
    if id in docs {
      var i := ItemIdsWitness(items, id);
      assert items[i] == ToDoc(id, docs[id]);
    }
  }

  /** The item the edit page holds: the found item and its category's id. */
  datatype EditedItem = EditedItem(item: MenuItem, categoryId: string)

  /** The new-item page's state. */
  class ItemNewPage {
    var categories: seq<Category>
    var loadingCategories: bool
    var saving: bool
    var error: Option<string>

    constructor ()
      ensures categories == [] && loadingCategories && !saving && error.None?
    {
      categories := [];
      loadingCategories := true;
      saving := false;
      error := None;
    }

    /** loadCategories: the categories for the form's select, or the error. */
    method LoadCategories(store: Store, outcome: Outcome)
      modifies this
      ensures !loadingCategories && saving == old(saving)
      ensures outcome.Failed? ==>
        categories == old(categories) && error == Some(ErrorText(outcome.message, CategoriesLoadFailed))
      ensures outcome.Done? ==>
        error == old(error) && store.AllLoaded(categories) && SortedBy(categories, CategoryLeq)
    {
      loadingCategories := true;
      var data := store.GetCategories(outcome);
      if data.Err? {
        error := Some(ErrorText(data.message, CategoriesLoadFailed));
      } else {
        categories := data.value;
      }
      loadingCategories := false;
    }

    /** handleSubmit: with no image file, only the error is set; otherwise
        the steps of CreateItemWithImage run, and a failure shows its
        message and is thrown on. */
    method HandleSubmit(store: Store, bucket: Bucket, categoryId: string, data: MenuItemData,
                        imageFile: Option<File>, now: int, millis: nat, later: int,
                        create: Outcome, upload: Outcome, getUrl: Outcome, update: Outcome)
      returns (ending: Ending, itemId: Option<string>, imageUrl: Option<string>)
      modifies this, store, bucket
      ensures categories == old(categories) && loadingCategories == old(loadingCategories)
      ensures imageFile.None? ==>
        && ending == Returned && itemId.None? && error == Some(ImageRequired) && saving == old(saving)
        && store.items == old(store.items) && bucket.objects == old(bucket.objects)
      ensures imageFile.Some? ==>
        && !saving
        && error == (if ending.Threw? then Some(ErrorText(ending.message, CreateFailed)) else None)
        && CreatedWithImage(old(store.items), store.items, old(bucket.objects), bucket.objects, bucket.name,
                            categoryId, data, imageFile.value, now, millis, later,
                            create, upload, getUrl, update, ending, itemId, imageUrl)
      ensures store.categories == old(store.categories)
    {
      if imageFile.None? {
        error := Some(ImageRequired);
        return Returned, None, None;
      }
      saving := true;
      error := None;
      ending, itemId, imageUrl :=
        CreateItemWithImage(store, bucket, categoryId, data, imageFile.value, now, millis, later, create, upload, getUrl, update);
      if ending.Threw? {
        error := Some(ErrorText(ending.message, CreateFailed));
      }
      saving := false;
    }
  }

  /** Only the items of categories a and b may have changed. */
  ghost predicate OthersKept(before: map<string, map<string, Stored<MenuItemData>>>,
                       after: map<string, map<string, Stored<MenuItemData>>>, a: string, b: string)
  {
    forall c :: c != a && c != b ==> ItemsIn(after, c) == ItemsIn(before, c)
  }

  /** What the try block of the new-item handleSubmit leaves: the item is
      created under a fresh id with an empty image, the image is uploaded
      under that id, and the item is updated with the form data and the
      image's URL. A failure after the creation leaves the item with its
      empty image in the store. */
  ghost predicate CreatedWithImage(before: map<string, map<string, Stored<MenuItemData>>>,
                             after: map<string, map<string, Stored<MenuItemData>>>,
                             objectsBefore: set<string>, objectsAfter: set<string>, bucketName: string,
                             categoryId: string, data: MenuItemData, file: File,
                             now: int, millis: nat, later: int,
                             create: Outcome, upload: Outcome, getUrl: Outcome, update: Outcome,
                             ending: Ending, itemId: Option<string>, imageUrl: Option<string>)
  {
    && OthersKept(before, after, categoryId, categoryId)
    && (itemId.Some? <==> create.Done?)
    && (create.Failed? ==>
          ending == Threw(create.message) && after == before && objectsAfter == objectsBefore && imageUrl.None?)
    && (itemId.Some? ==>
          var id := itemId.value;
          var path := ItemImagePath(id, file.name, millis);
          var failure := UploadFailure(file, upload, getUrl);
          && id !in ItemsIn(before, categoryId)
          && objectsAfter == AfterUpload(objectsBefore, file, path, upload)
          && (imageUrl.Some? <==> failure.None?)
          && (imageUrl.Some? ==> imageUrl.value == DownloadUrl(bucketName, path))
          && ending == (if failure.Some? then Threw(failure.value)
                        else if update.Failed? then Threw(update.message)
                        else Returned)
          && (ending == Returned ==>
                ItemsIn(after, categoryId) == ItemsIn(before, categoryId)[id :=
                  Stored(data.(image := imageUrl.value), Timestamp(now), Timestamp(later))])
          && (ending.Threw? ==>
                ItemsIn(after, categoryId) == ItemsIn(before, categoryId)[id :=
                  Stored(data.(image := ""), Timestamp(now), Timestamp(now))]))
  }

  /** The try block of the new-item handleSubmit. */
  method CreateItemWithImage(store: Store, bucket: Bucket, categoryId: string, data: MenuItemData, file: File,
                             now: int, millis: nat, later: int,
                             create: Outcome, upload: Outcome, getUrl: Outcome, update: Outcome)
    returns (ending: Ending, itemId: Option<string>, imageUrl: Option<string>)
    modifies store, bucket
    ensures store.categories == old(store.categories)
    ensures CreatedWithImage(old(store.items), store.items, old(bucket.objects), bucket.objects, bucket.name,
                             categoryId, data, file, now, millis, later,
                             create, upload, getUrl, update, ending, itemId, imageUrl)
  {
    ghost var before := store.items;
    var created := store.CreateItem(categoryId, data.(image := ""), now, create);
    if created.Err? {
      return Threw(created.message), None, None;
    }
    var id := created.value;
    itemId := Some(id);
    var imagePath := ItemImagePath(id, file.name, millis);
    var uploaded := bucket.UploadImage(file, imagePath, upload, getUrl);
    if uploaded.Err? {
      assert OthersKept(before, store.items, categoryId, categoryId);
      return Threw(uploaded.message), itemId, None;
    }
    imageUrl := Some(uploaded.value);
    ghost var created_ := store.items;
    assert OthersKept(before, created_, categoryId, categoryId);
    var updated := store.UpdateItem(categoryId, id, FullItemPatch(data.(image := uploaded.value)), later, update);
    assert OthersKept(created_, store.items, categoryId, categoryId);
    if updated.Err? {
      return Threw(updated.message), itemId, imageUrl;
    }
    return Returned, itemId, imageUrl;
  }

  /** What the move branch of the edit handleSubmit leaves: the item is
      created under a fresh id in the chosen category, created and updated
      at `now`, and then the old document is deleted. A failed deletion
      leaves the item in both categories. */
  ghost predicate Moved(before: map<string, map<string, Stored<MenuItemData>>>,
                        after: map<string, map<string, Stored<MenuItemData>>>,
                        from: string, itemId: string, to: string, fields: MenuItemData, now: int,
                        create: Outcome, remove: Outcome, ending: Ending, newId: Option<string>)
  {
    && OthersKept(before, after, from, to)
    && (newId.Some? <==> create.Done?)
    && (create.Failed? ==> ending == Threw(create.message) && after == before)
    && (newId.Some? ==>
          && newId.value !in ItemsIn(before, to)
          && ItemsIn(after, to) == ItemsIn(before, to)[newId.value := Stored(fields, Timestamp(now), Timestamp(now))]
          && (remove.Failed? ==> ending == Threw(remove.message) && ItemsIn(after, from) == ItemsIn(before, from))
          && (remove.Done? ==> ending == Returned && ItemsIn(after, from) == ItemsIn(before, from) - {itemId}))
  }

  /** What the same-category branch of the edit handleSubmit leaves: one
      updateItem with every form field. */
  ghost predicate Updated(before: map<string, map<string, Stored<MenuItemData>>>,
                          after: map<string, map<string, Stored<MenuItemData>>>,
                          categoryId: string, itemId: string, fields: MenuItemData, now: int,
                          update: Outcome, ending: Ending)
  {
    && OthersKept(before, after, categoryId, categoryId)
    && if update.Failed? then ending == Threw(update.message) && after == before
       else if itemId !in ItemsIn(before, categoryId) then ending == Threw(NotFound) && after == before
       else
         var old_ := ItemsIn(before, categoryId)[itemId];
         && ending == Returned
         && ItemsIn(after, categoryId) == ItemsIn(before, categoryId)[itemId :=
              Stored(PatchItem(old_.fields, FullItemPatch(fields)), old_.createdAt, Timestamp(now))]
  }

  /** The move branch: createItem in the new category, then deleteItem in
      the old one. */
  method MoveItem(store: Store, from: string, itemId: string, to: string, fields: MenuItemData, now: int,
                  create: Outcome, remove: Outcome)
    returns (ending: Ending, newId: Option<string>)
    requires from != to
    modifies store
    ensures store.categories == old(store.categories)
    ensures Moved(old(store.items), store.items, from, itemId, to, fields, now, create, remove, ending, newId)
  {
    ghost var before := store.items;
    var created := store.CreateItem(to, fields, now, create);
    if created.Err? {
      return Threw(created.message), None;
    }
    newId := Some(created.value);
    ghost var middle := store.items;
    var removed := store.DeleteItem(from, itemId, remove);
    assert OthersKept(middle, store.items, from, from);
    ending := if removed.Err? then Threw(removed.message) else Returned;
  }

  /** The same-category branch: updateItem with every form field. */
  method UpdateInPlace(store: Store, categoryId: string, itemId: string, fields: MenuItemData, now: int,
                       update: Outcome)
    returns (ending: Ending)
    modifies store
    ensures store.categories == old(store.categories)
    ensures Updated(old(store.items), store.items, categoryId, itemId, fields, now, update, ending)
  {
    var updated := store.UpdateItem(categoryId, itemId, FullItemPatch(fields), now, update);
    ending := if updated.Err? then Threw(updated.message) else Returned;
  }

  /** A move whose deletion fails leaves the item twice: the old document,
      untouched, in its category and the submitted one in the new category. */
  lemma MoveDuplicates(before: map<string, map<string, Stored<MenuItemData>>>,
                       after: map<string, map<string, Stored<MenuItemData>>>,
                       from: string, itemId: string, to: string, fields: MenuItemData, now: int,
                       remove: Outcome, ending: Ending, newId: Option<string>)
    requires from != to && itemId in ItemsIn(before, from) && remove.Failed?
    requires Moved(before, after, from, itemId, to, fields, now, Done, remove, ending, newId)
    ensures ending.Threw?
    ensures itemId in ItemsIn(after, from) && ItemsIn(after, from)[itemId] == ItemsIn(before, from)[itemId]
    ensures newId.Some? && newId.value in ItemsIn(after, to) && ItemsIn(after, to)[newId.value].fields == fields
  {
  }

  /** A move and an in-place update write the same fields when the form
      supplies every price; a price the form clears is dropped by a move
      but kept by an update, and a move restarts createdAt. */
  lemma MoveVersusUpdate(before: map<string, map<string, Stored<MenuItemData>>>,
                         moved: map<string, map<string, Stored<MenuItemData>>>,
                         updated: map<string, map<string, Stored<MenuItemData>>>,
                         from: string, itemId: string, to: string, fields: MenuItemData, now: int,
                         movedEnding: Ending, newId: Option<string>, updatedEnding: Ending)
    requires from != to && itemId in ItemsIn(before, from)
    requires Moved(before, moved, from, itemId, to, fields, now, Done, Done, movedEnding, newId)
    requires Updated(before, updated, from, itemId, fields, now, Done, updatedEnding)
    ensures newId.Some? && itemId in ItemsIn(updated, from)
    ensures var m := ItemsIn(moved, to)[newId.value];
      var u := ItemsIn(updated, from)[itemId];
      && m.createdAt == Timestamp(now) && u.createdAt == ItemsIn(before, from)[itemId].createdAt
      && (fields.price.Some? && fields.priceM.Some? && fields.priceL.Some? && fields.priceLiter.Some? ==>
            m.fields == u.fields)
      && (fields.price.None? ==> m.fields.price.None? && u.fields.price == ItemsIn(before, from)[itemId].fields.price)
  {
    var u := ItemsIn(updated, from)[itemId];
    if fields.price.Some? && fields.priceM.Some? && fields.priceL.Some? && fields.priceLiter.Some? {
      FullItemPatchReplaces(ItemsIn(before, from)[itemId].fields, fields);
    }
  }

  /** How the edit page's lookup of the route's item ends. */
  datatype Lookup = LookupFailed(message: string) | NoCategory | NoItem | Found(edited: EditedItem)

  /** The lookup a completed getCategory leads to: the category document
      must exist and its items must hold a document with the item id. */
  function StoredLookup(categories: map<string, Stored<CategoryData>>,
                        items: map<string, map<string, Stored<MenuItemData>>>,
                        categoryId: string, itemId: string): Lookup
  {
    if categoryId !in categories then NoCategory
    else if itemId !in ItemsIn(items, categoryId) then NoItem
    else Found(EditedItem(ToDoc(itemId, ItemsIn(items, categoryId)[itemId]), categoryId))
  }

  /** getCategory, then `category.items?.find((i) => i.id === id)`. */
  method LookUpItem(store: Store, categoryId: string, itemId: string, fetching: Outcome) returns (r: Lookup)
    ensures fetching.Failed? ==> r == LookupFailed(fetching.message)
    ensures fetching.Done? ==> r == StoredLookup(store.categories, store.items, categoryId, itemId)
  {
    var fetched := store.GetCategory(categoryId, fetching);
    if fetched.Err? {
      return LookupFailed(fetched.message);
    }
    if fetched.value.None? {
      return NoCategory;
    }
    var c := fetched.value.value;
    FindLoadedItem(c, categoryId, store.categories[categoryId], store.ItemsOf(categoryId), itemId);
    var found := FindById(c.ItemsOrEmpty(), itemId);
    if found.None? {
      return NoItem;
    }
    return Found(EditedItem(found.value, c.Id()));
  }

  /** The edit page's state. */
  class ItemEditPage {
    var categories: seq<Category>
    var item: Option<EditedItem>
    var loading: bool
    var saving: bool
    var error: Option<string>

    constructor ()
      ensures categories == [] && item.None? && loading && !saving && error.None?
    {
      categories := [];
      item := None;
      loading := true;
      saving := false;
      error := None;
    }

    /** loadData, run when the route has both ids: the categories and the
        route's category are fetched together (a failure of the listing is
        reported first), then the item is looked up by id in the category. */
    method LoadData(store: Store, categoryId: Option<string>, id: Option<string>, listing: Outcome, fetching: Outcome)
      modifies this
      ensures saving == old(saving)
      ensures categoryId.None? || id.None? ==>
        categories == old(categories) && item == old(item) && loading == old(loading) && error == old(error)
      ensures categoryId.Some? && id.Some? ==> !loading
      ensures categoryId.Some? && id.Some? && (listing.Failed? || fetching.Failed?) ==>
        && categories == old(categories) && item == old(item)
        && error == Some(ErrorText(if listing.Failed? then listing.message else fetching.message, LoadFailed))
      ensures categoryId.Some? && id.Some? && listing.Done? && fetching.Done? ==>
        var found := StoredLookup(store.categories, store.items, categoryId.value, id.value);
        && store.AllLoaded(categories) && SortedBy(categories, CategoryLeq)
        && (found == NoCategory ==> error == Some(CategoryNotFound) && item == old(item))
        && (found == NoItem ==> error == Some(ItemNotFound) && item == old(item))
        && (found.Found? ==> error.None? && item == Some(found.edited))
    {
      if categoryId.None? || id.None? {
        return;
      }
      loading := true;
      error := None;
      var all := store.GetCategories(listing);
      var found := LookUpItem(store, categoryId.value, id.value, fetching);
      if all.Err? || found.LookupFailed? {
        error := Some(ErrorText(if all.Err? then all.message else found.message, LoadFailed));
        loading := false;
        return;
      }
      categories := all.value;
      if found.NoCategory? {
        error := Some(CategoryNotFound);
      } else if found.NoItem? {
        error := Some(ItemNotFound);
      } else {
        item := Some(found.edited);
      }
      loading := false;
    }

    /** handleSubmit: nothing happens without both ids and a loaded item.
        With a new file, ReplaceImage runs first on the item's image and a
        path named after the route's item id. Then a changed category moves
        the item (MoveItem) and an unchanged one updates it (UpdateInPlace),
        both on the route's ids. */
    method HandleSubmit(store: Store, bucket: Bucket, categoryId: Option<string>, id: Option<string>,
                        newCategoryId: string, data: MenuItemData, imageFile: Option<File>, millis: nat, now: int,
                        deleteOld: Outcome, upload: Outcome, getUrl: Outcome,
                        create: Outcome, remove: Outcome, update: Outcome)
      returns (ending: Ending, imageUrl: string, newId: Option<string>)
      modifies this, store, bucket
      ensures store.categories == old(store.categories)
      ensures categories == old(categories) && item == old(item) && loading == old(loading)
      ensures categoryId.None? || id.None? || old(item).None? ==>
        && ending == Returned && saving == old(saving) && error == old(error)
        && store.items == old(store.items) && bucket.objects == old(bucket.objects)
      ensures categoryId.Some? && id.Some? && old(item).Some? && imageFile.None? ==>
        bucket.objects == old(bucket.objects) && imageUrl == data.image
      ensures categoryId.Some? && id.Some? && old(item).Some? && imageFile.Some? ==>
        var path := ItemImagePath(id.value, imageFile.value.name, millis);
        var failure := UploadFailure(imageFile.value, upload, getUrl);
        && bucket.objects == AfterUpload(AfterDeleteOld(old(bucket.objects), old(item).value.item.fields.image, deleteOld),
                                         imageFile.value, path, upload)
        && (failure.Some? ==> ending == Threw(failure.value) && store.items == old(store.items) && newId.None?)
        && (failure.None? ==> imageUrl == DownloadUrl(bucket.name, path))
      ensures categoryId.Some? && id.Some? && old(item).Some? ==>
        && !saving
        && (ending == Returned ==> error.None?)
        && (ending.Threw? ==> error == Some(ErrorText(ending.message, UpdateFailed)))
      ensures categoryId.Some? && id.Some? && old(item).Some?
              && (imageFile.None? || UploadFailure(imageFile.value, upload, getUrl).None?) ==>
        && (newCategoryId != categoryId.value ==>
              Moved(old(store.items), store.items, categoryId.value, id.value, newCategoryId,
                    data.(image := imageUrl), now, create, remove, ending, newId))
        && (newCategoryId == categoryId.value ==>
              newId.None? && Updated(old(store.items), store.items, categoryId.value, id.value, data.(image := imageUrl), now, update, ending))
    {
      imageUrl := data.image;
      newId := None;
      if categoryId.None? || id.None? || item.None? {
        return Returned, imageUrl, newId;
      }
      saving := true;
      error := None;
      if imageFile.Some? {
        var imagePath := ItemImagePath(id.value, imageFile.value.name, millis);
        var uploaded := ReplaceImage(bucket, item.value.item.fields.image, imageFile.value, imagePath, deleteOld, upload, getUrl);
        if uploaded.Err? {
          error := Some(ErrorText(uploaded.message, UpdateFailed));
          saving := false;
          return Threw(uploaded.message), imageUrl, newId;
        }
        imageUrl := uploaded.value;
      }
      if newCategoryId != categoryId.value {
        ending, newId := MoveItem(store, categoryId.value, id.value, newCategoryId, data.(image := imageUrl), now, create, remove);
      } else {
        ending := UpdateInPlace(store, categoryId.value, id.value, data.(image := imageUrl), now, update);
      }
      if ending.Threw? {
        error := Some(ErrorText(ending.message, UpdateFailed));
      }
      saving := false;
    }
  }
}
