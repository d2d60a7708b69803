// The admin pages that create and edit a category
// (src/pages/Admin/CategoryNew.tsx, src/pages/Admin/CategoryEdit.tsx): each
// submit is a fixed sequence of store and bucket calls whose outcomes are
// parameters, so the state left by a failure part way is stated exactly.
// Navigation and the console are not modelled.

module CategoryPages {
  import opened Types
  import opened FirestoreService
  import opened StorageService
  import opened ImageSteps

  const ImageRequired := "Image is required"
  const CreateFailed := "Failed to create category"
  const UpdateFailed := "Failed to update category"
  const LoadFailed := "Failed to load category"
  const CategoryNotFound := "Category not found"

  /** The try block of the new-category handleSubmit: the category is
      created with an empty main image, the image is uploaded under the new
      id, and the category is updated with the form data and the image's
      URL. A failure after the creation leaves the category in the store with
      its empty image: nothing is rolled back. `now` and `later` are the
      store's clock at the two writes, `millis` the clock that names the
      image. */
  method CreateWithImage(store: Store, bucket: Bucket, data: CategoryData, file: File,
                         now: int, millis: nat, later: int,
                         create: Outcome, upload: Outcome, getUrl: Outcome, update: Outcome)
    returns (ending: Ending, categoryId: Option<string>, imageUrl: Option<string>)
    modifies store, bucket
    ensures store.items == old(store.items)
    ensures categoryId.Some? <==> create.Done?
    ensures create.Failed? ==>
      && ending == Threw(create.message)
      && store.categories == old(store.categories) && bucket.objects == old(bucket.objects)
    ensures categoryId.Some? ==>
      var id := categoryId.value;
      var path := CategoryImagePath(id, file.name, millis);
      var failure := UploadFailure(file, upload, getUrl);
      && id !in old(store.categories)
      && bucket.objects == AfterUpload(old(bucket.objects), file, path, upload)
      && (imageUrl.Some? <==> failure.None?)
      && (imageUrl.Some? ==> imageUrl.value == DownloadUrl(bucket.name, path))
      && ending == (if failure.Some? then Threw(failure.value)
                    else if update.Failed? then Threw(update.message)
                    else Returned)
      && (ending == Returned ==>
            store.categories == old(store.categories)[id :=
              Stored(data.(mainImage := imageUrl.value), Timestamp(now), Timestamp(later))])
      && (ending.Threw? ==>
            store.categories == old(store.categories)[id :=
              Stored(data.(mainImage := ""), Timestamp(now), Timestamp(now))])
  {
    var created := store.CreateCategory(data.(mainImage := ""), now, create);
    if created.Err? {
      return Threw(created.message), None, None;
    }
    var id := created.value;
    categoryId := Some(id);
    var imagePath := CategoryImagePath(id, file.name, millis);
    var uploaded := bucket.UploadImage(file, imagePath, upload, getUrl);
    if uploaded.Err? {
      return Threw(uploaded.message), categoryId, None;
    }
    imageUrl := Some(uploaded.value);
    var updated := store.UpdateCategory(id, FullCategoryPatch(data.(mainImage := uploaded.value)), later, update);
    if updated.Err? {
      return Threw(updated.message), categoryId, imageUrl;
    }
    return Returned, categoryId, imageUrl;
  }

  /** The new-category page's state. */
  class CategoryNewPage {
    var saving: bool
    var error: Option<string>

    constructor ()
      ensures !saving && error.None?
    {
      saving := false;
      error := None;
    }

    /** handleSubmit: with no image file, only the error is set and nothing
        else is called; otherwise the steps of CreateWithImage run, and a
        failure shows its message and is thrown on. */
    method HandleSubmit(store: Store, bucket: Bucket, data: CategoryData, imageFile: Option<File>,
                        now: int, millis: nat, later: int,
                        create: Outcome, upload: Outcome, getUrl: Outcome, update: Outcome)
      returns (ending: Ending, categoryId: Option<string>, imageUrl: Option<string>)
      modifies this, store, bucket
      ensures imageFile.None? ==>
        && ending == Returned && categoryId.None? && error == Some(ImageRequired) && saving == old(saving)
        && store.categories == old(store.categories) && bucket.objects == old(bucket.objects)
      ensures store.items == old(store.items)
      ensures imageFile.Some? ==>
        && !saving
        && error == (if ending.Threw? then Some(ErrorText(ending.message, CreateFailed)) else None)
      ensures categoryId.Some? <==> imageFile.Some? && create.Done?
      ensures imageFile.Some? && create.Failed? ==>
        && ending == Threw(create.message)
        && store.categories == old(store.categories) && bucket.objects == old(bucket.objects)
      ensures categoryId.Some? ==>
        var id := categoryId.value;
        var path := CategoryImagePath(id, imageFile.value.name, millis);
        var failure := UploadFailure(imageFile.value, upload, getUrl);
        && id !in old(store.categories)
        && bucket.objects == AfterUpload(old(bucket.objects), imageFile.value, path, upload)
        && (imageUrl.Some? <==> failure.None?)
        && (imageUrl.Some? ==> imageUrl.value == DownloadUrl(bucket.name, path))
        && ending == (if failure.Some? then Threw(failure.value)
                      else if update.Failed? then Threw(update.message)
                      else Returned)
        && (ending == Returned ==>
              store.categories == old(store.categories)[id :=
                Stored(data.(mainImage := imageUrl.value), Timestamp(now), Timestamp(later))])
        && (ending.Threw? ==>
              store.categories == old(store.categories)[id :=
                Stored(data.(mainImage := ""), Timestamp(now), Timestamp(now))])
    {
      if imageFile.None? {
        error := Some(ImageRequired);
        return Returned, None, None;
      }
      saving := true;
      error := None;
      ending, categoryId, imageUrl :=
        CreateWithImage(store, bucket, data, imageFile.value, now, millis, later, create, upload, getUrl, update);
      if ending.Threw? {
        error := Some(ErrorText(ending.message, CreateFailed));
      }
      saving := false;
    }
  }

  /** The edit page's state. */
  class CategoryEditPage {
    var category: Option<Category>
    var loading: bool
    var saving: bool
    var error: Option<string>

    constructor ()
      ensures category.None? && loading && !saving && error.None?
    {
      category := None;
      loading := true;
      saving := false;
      error := None;
    }

    /** loadCategory, run when the route has an id: a missing category
        shows 'Category not found' and leaves the page without one. */
    method LoadCategory(store: Store, id: Option<string>, outcome: Outcome)
      modifies this
      ensures id.None? ==> category == old(category) && loading == old(loading) && error == old(error)
      ensures saving == old(saving)
      ensures id.Some? ==> !loading
      ensures id.Some? && outcome.Failed? ==>
        error == Some(ErrorText(outcome.message, LoadFailed)) && category == old(category)
      ensures id.Some? && outcome.Done? && id.value !in store.categories ==>
        error == Some(CategoryNotFound) && category == old(category)
      ensures id.Some? && outcome.Done? && id.value in store.categories ==>
        && error.None? && category.Some?
        && Loaded(category.value, id.value, store.categories[id.value], store.ItemsOf(id.value))
    {
      if id.None? {
        return;
      }
      loading := true;
      error := None;
      var data := store.GetCategory(id.value, outcome);
      if data.Err? {
        error := Some(ErrorText(data.message, LoadFailed));
      } else if data.value.None? {
        error := Some(CategoryNotFound);
      } else {
        category := data.value;
      }
      loading := false;
    }

    /** handleSubmit: nothing happens without an id and a loaded category.
        With a new file, ReplaceImage runs first; the single update then
        writes the form data with the chosen image, returned in `imageUrl`. */
    method HandleSubmit(store: Store, bucket: Bucket, id: Option<string>, data: CategoryData,
                        imageFile: Option<File>, millis: nat, now: int,
                        deleteOld: Outcome, upload: Outcome, getUrl: Outcome, update: Outcome)
      returns (ending: Ending, imageUrl: string)
      modifies this, store, bucket
      ensures store.items == old(store.items) && category == old(category)
      ensures id.None? || old(category).None? ==>
        && ending == Returned && saving == old(saving) && error == old(error)
        && store.categories == old(store.categories) && bucket.objects == old(bucket.objects)
      ensures id.Some? && old(category).Some? && imageFile.None? ==>
        bucket.objects == old(bucket.objects) && imageUrl == data.mainImage
      ensures id.Some? && old(category).Some? && imageFile.Some? ==>
        var path := CategoryImagePath(id.value, imageFile.value.name, millis);
        var failure := UploadFailure(imageFile.value, upload, getUrl);
        && bucket.objects == AfterUpload(AfterDeleteOld(old(bucket.objects), old(category).value.MainImage(), deleteOld),
                                         imageFile.value, path, upload)
        && (failure.Some? ==> ending == Threw(failure.value) && store.categories == old(store.categories))
        && (failure.None? ==> imageUrl == DownloadUrl(bucket.name, path))
      ensures id.Some? && old(category).Some? ==>
        && !saving
        && (ending == Returned ==> error.None?)
        && (ending.Threw? ==> error == Some(ErrorText(ending.message, UpdateFailed)))
      ensures id.Some? && old(category).Some? && (imageFile.None? || UploadFailure(imageFile.value, upload, getUrl).None?) ==>
        UpdateTail(old(store.categories), store.categories, id.value, data.(mainImage := imageUrl), now, update, ending)
    {
      imageUrl := data.mainImage;
      if id.None? || category.None? {
        return Returned, imageUrl;
      }
      saving := true;
      error := None;
      if imageFile.Some? {
        var imagePath := CategoryImagePath(id.value, imageFile.value.name, millis);
        var uploaded := ReplaceImage(bucket, category.value.MainImage(), imageFile.value, imagePath, deleteOld, upload, getUrl);
        if uploaded.Err? {
          error := Some(ErrorText(uploaded.message, UpdateFailed));
          saving := false;
          return Threw(uploaded.message), imageUrl;
        }
        imageUrl := uploaded.value;
      }
      ending := UpdateFromForm(store, id.value, data.(mainImage := imageUrl), now, update);
      if ending.Threw? {
        error := Some(ErrorText(ending.message, UpdateFailed));
      }
      saving := false;
    }
  }

  /** The categories after updateCategory(id, fields) with every form field,
      and the ending of the handler that awaited it: a failed call or a
      missing document throws and leaves the categories as they were. */
  predicate UpdateTail(before: map<string, Stored<CategoryData>>, after: map<string, Stored<CategoryData>>,
                             id: string, fields: CategoryData, now: int, update: Outcome, ending: Ending)
  {
    if update.Failed? then ending == Threw(update.message) && after == before
    else if id !in before then ending == Threw(NotFound) && after == before
    else
      && ending == Returned
      && after == before[id := Stored(PatchCategory(before[id].fields, FullCategoryPatch(fields)),
                                      before[id].createdAt, Timestamp(now))]
  }

  /** The update step of the edit page's handleSubmit. */
  method UpdateFromForm(store: Store, id: string, fields: CategoryData, now: int, update: Outcome)
    returns (ending: Ending)
    modifies store
    ensures store.items == old(store.items)
    ensures UpdateTail(old(store.categories), store.categories, id, fields, now, update, ending)
  {
    var updated := store.UpdateCategory(id, FullCategoryPatch(fields), now, update);
    ending := if updated.Err? then Threw(updated.message) else Returned;
  }
}
