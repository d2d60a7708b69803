# crepe-menu-web core, in Dafny

This project models the logic behind a bilingual (English and Arabic) café menu site, and proves properties of it. The site has a public menu, a rating page, and a secret-guarded admin area. Categories, their nested menu items and ratings live in a Firestore document database. Category and item pictures live in a Firebase Storage bucket.

What is modelled, one module per source file:

- `DataCache` (`cache.dfy`): the single-slot category cache with its five-minute expiry. The clock is a parameter.
- `FirestoreService` (`firestore.dfy`): the document store as a class over two maps:
  - category documents;
  - per category id, that category's item documents.

  It also covers `convertTimestamps`, `docToCategory` (with an in-place insertion sort over an array) and every CRUD operation. Fresh ids and clock readings are computed or passed in. Each remote call's success or failure is an `Outcome` parameter.
- `StorageService` (`storage.dfy`, with `Uri` in `uri.dfy`): the bucket as a class over a set of object paths. It covers:
  - the upload checks;
  - the image path helpers;
  - the download URL a finished upload answers;
  - the URL-to-path extraction of `deleteImage`: pathname, the first `/o/`, `%2F` replacement, and `decodeURIComponent`.
- `Ratings` (`ratings.dfy`): the rating documents. It covers `submitRating`, `getAllRatings` (records sorted newest first), `deleteRating`, and the `getRatingStats` aggregation loop.
- The admin pages, each as a class holding the page state:
  - `CategoryPages`: `CategoryNew` and `CategoryEdit`;
  - `ItemPages`: `ItemNew` and `ItemEdit`;
  - `CategoriesPage` and `ItemsPage`: the list pages with their delete workflows.

  The shared upload-after-delete step is in `ImageSteps`.
- `CategoryForm`, `ItemForm` and `FormFields`: the admin form validators, the counter colour, the initial form state and the submit guards.
- `MenuSection` and `MenuSectionReverse`: the carousel pagination of the public menu.
- `Rate`: the rating page's state machine and star highlight.
- `I18n`, `FirebaseConfig`, `Admin` and `ImagePreloader`:
  - the start language and text direction;
  - `validateConfig`;
  - the admin secret and route gate;
  - the list of images preloaded on start.
- Shared modules:
  - `Types`: the category, item and rating records, and `Outcome`/`Result`/`Option`;
  - `Text`: JavaScript `trim`, ASCII `toLowerCase`, UTF-16 `length`, `includes`, `split`, `join` and number printing;
  - `Sorting`: a stable comparator sort as a function, and the in-place array method proved against it;
  - `JsArray`: `slice` and `reverse`.

The multi-step admin workflows are written as straight-line methods, with one `Outcome` per remote step. Their contracts state the exact store and bucket state after every combination of outcomes. These include the partial states the code leaves behind:

- a new category or item whose image stays `''` when its upload fails;
- an edited document pointing at an image that was already deleted;
- an item present in two categories when a move's delete fails.

## Model

| member | source | states |
|---|---|---|
| Admin.AdminSecret | src/config/admin.ts:8 | the secret is the environment value when it is set and non-empty, else the fixed default, and is never empty |
| Admin.OneValidSecret | src/config/admin.ts:8-25 | exactly one secret is valid; the empty string never is; with no environment value only the default is |
| Admin.GateAdmitsOnlyTheSecret | src/components/Admin/ProtectedAdminRoute.tsx:18-24 | the route shows admin content exactly when the URL secret is present and equals the admin secret, and otherwise redirects to "/" |
| DataCache.Get | src/utils/dataCache.ts:15-28 | a read hits exactly when both fields are set (a zero timestamp counts as unset) and the age is at most 300000 ms; a hit changes nothing; an expired read clears the slot |
| DataCache.HitAtExactDuration | src/utils/dataCache.ts:10-27 | a list exactly 300000 ms old is still returned, because the expiry test is a strict `>` |
| DataCache.ReadAfterSet | src/utils/dataCache.ts:15-36 | a read at the instant of a write returns exactly the list written, even an empty one (a write at clock 0 reads as unset) |
| DataCache.ClearedStaysMiss | src/utils/dataCache.ts:15-44 | after clearing, every later read misses |
| DataCache.ExpiredThenMiss | src/utils/dataCache.ts:20-25 | an expired read misses, and every read after it misses until the next write |
| DataCache.Cache.constructor | src/utils/dataCache.ts:8-9 | both fields start null |
| DataCache.Cache.GetCategories | src/utils/dataCache.ts:15-28 | the method answers and updates the slot as `Get` says; a hit returns the stored list and leaves both fields unchanged |
| DataCache.Cache.SetCategories | src/utils/dataCache.ts:33-36 | the list is replaced wholesale and stamped with the clock |
| DataCache.Cache.ClearCategories | src/utils/dataCache.ts:41-44 | both fields become null; the new state does not depend on the old, so clearing is idempotent |
| DataCache.Cache.ClearAll | src/utils/dataCache.ts:49-51 | same effect as clearCategories |
| I18n.InitialLanguage | src/i18n/config.ts:6-13 | the start language is always "en" or "ar" |
| I18n.StoredChoice | src/i18n/config.ts:7-10 | a stored "en" or "ar" is used as it is; any other stored value counts as nothing stored |
| I18n.FirstSegmentOf | src/i18n/config.ts:11 | `split('-')[0]` of `p + "-" + rest` is p when p holds no '-' |
| I18n.BrowserLanguage | src/i18n/config.ts:11-12 | with nothing stored, "ar" and "ar-XX" give Arabic, and any other base language, with or without a region, gives English |
| I18n.ChoiceIsKept | src/i18n/config.ts:6-35 | a language that was saved comes back on the next visit, whatever the browser says then |
| I18n.Direction | src/i18n/config.ts:34-40 | the direction is "rtl" or "ltr" |
| I18n.DirectionOfLanguage | src/i18n/config.ts:34-40 | the direction is "rtl" exactly for Arabic and "ltr" exactly for English |
| FirebaseConfig.MissingFields | src/config/firebase.ts:34-36 | a field is reported exactly when it is listed and missing (absent or ''); nothing is added |
| FirebaseConfig.MissingFieldsInOrder | src/config/firebase.ts:25-36 | the missing fields keep the order of the list they come from |
| FirebaseConfig.RequiredFieldsIncreasing | src/config/firebase.ts:25-32 | the required fields are listed in the fixed order apiKey, authDomain, projectId, storageBucket, messagingSenderId, appId |
| FirebaseConfig.Names | src/config/firebase.ts:40 | each field is written under its configuration name, one name per field |
| FirebaseConfig.ValidateConfig | src/config/firebase.ts:24-43 | the check fails exactly when some required field is missing, with a message holding the missing names joined by ", " |
| FirebaseConfig.MeasurementIdOptional | src/config/firebase.ts:18-32 | measurementId is never reported, and its value never changes the outcome |
| FirebaseConfig.MissingFieldsAgree | src/config/firebase.ts:34-36 | the report depends only on which fields are missing |
| FirebaseConfig.MessageNamesMissing | src/config/firebase.ts:38-43 | every missing required field is named in the error message |
| FirebaseConfig.MissingAppIdExample | src/config/firebase.ts:38-43 | a configuration missing only appId and measurementId fails with a message naming just "appId" |
| ImagePreloader.ItemImages | src/utils/imagePreloader.ts:43-47 | the pushed item images are non-empty and at most one per item |
| ImagePreloader.ItemImagesMembers | src/utils/imagePreloader.ts:43-47 | an image is pushed exactly when it is non-empty and some considered item has it |
| ImagePreloader.LeadingItems | src/utils/imagePreloader.ts:42-43 | only the first four items of the first category are considered, and none when there is no category |
| ImagePreloader.CriticalImagesShape | src/utils/imagePreloader.ts:29-48 | the list starts with the three fixed paths in order and holds 3 to 8 entries; with no categories it is exactly the fixed paths |
| ImagePreloader.CriticalImagesSources | src/utils/imagePreloader.ts:37-47 | every later entry is non-empty, and is either the first category's main image or the image of one of its first four items |
| ImagePreloader.PreloadCriticalImages | src/utils/imagePreloader.ts:29-48 | the pushes build exactly the list CriticalImagesShape and CriticalImagesSources describe |
| JsArray.SliceFromEnd | src/components/Menu/MenuSectionReverse.tsx:53-56 | a negative start (a page beyond the last gives one) counts from the end: slice(-k, n) is the last k items, or all of them when k exceeds the length |
| JsArray.SliceFromStart | src/components/Menu/MenuSection.tsx:109 | with non-negative bounds, slice is the part of the sequence between them, cut at its end |
| JsArray.Reversed | src/components/Menu/MenuSectionReverse.tsx:55-56 | `reverse()` puts element i at position n-1-i |
| JsArray.ReversedTwice | src/components/Menu/MenuSectionReverse.tsx:55-56 | reversing twice gives the sequence back |
| Types.ErrorText | src/pages/Admin/CategoryEdit.tsx:79 | the shown error is the message when it is non-empty, and is never empty when the fallback is not |
| MenuSection.TotalPages | src/components/Menu/MenuSection.tsx:110 | the page count is ceil(n/3): enough pages for n items, and no empty last page |
| MenuSection.PaginationShownIffSeveralPages | src/components/Menu/MenuSection.tsx:330 | pagination is drawn (n > 3) exactly when there is more than one page |
| MenuSection.WindowShape | src/components/Menu/MenuSection.tsx:105-109 | a page shows items[3p, min(3p+4, n)): at most four, starting at item 3p, and at least one for an existing page |
| MenuSection.EveryItemShown | src/components/Menu/MenuSection.tsx:107-110 | every item appears on the page its index falls in |
| MenuSection.WindowOverlap | src/components/Menu/MenuSection.tsx:108-109 | the half-visible fourth item of a full window is the first item of the next page |
| MenuSection.Carousel.constructor | src/components/Menu/MenuSection.tsx:20-32 | the first render starts loading, with both indices 0 |
| MenuSection.Carousel.LoadCategories | src/components/Menu/MenuSection.tsx:20-32 | the categories are stored, or the error message with 'Failed to load menu' as fallback; loading ends and the indices stay in range |
| MenuSection.Carousel.GoToNextCategory | src/components/Menu/MenuSection.tsx:34-39 | moves on only while a next category exists, then resets the item page to 0; the index invariant is kept |
| MenuSection.Carousel.GoToPreviousCategory | src/components/Menu/MenuSection.tsx:41-46 | moves back only from a category after the first, then resets the item page to 0 |
| MenuSection.Carousel.GoToNextItems | src/components/Menu/MenuSection.tsx:48-56 | moves to the next page only while the page is below ceil(n/3) - 1 |
| MenuSection.Carousel.GoToPreviousItems | src/components/Menu/MenuSection.tsx:58-62 | never goes below page 0 |
| MenuSection.Carousel.SelectCategory | src/components/Menu/MenuSection.tsx:396-399 | a category indicator sets that category and page 0 |
| MenuSection.Carousel.SelectPage | src/components/Menu/MenuSection.tsx:334-337 | a page dot sets that page, which stays in range |
| MenuSection.Carousel.VisibleItems | src/components/Menu/MenuSection.tsx:105-109 | the shown items are the active category's window: at most four, starting at the page's first item |
| MenuSectionReverse.UnvisitedShowsLastBlock | src/components/Menu/MenuSectionReverse.tsx:49-56 | a category with no page entry is on page 0: its start index is inside the list, within the last block, and the first item shown is the last item |
| MenuSectionReverse.PageDotsInRange | src/components/Menu/MenuSectionReverse.tsx:244-247 | dot `index` asks for page `index` of its own category, which is in range; after the parent records it, that page starts at a multiple of 3 inside the list and shows 1 to 4 items |
| MenuSectionReverse.StartIndexInRange | src/components/Menu/MenuSectionReverse.tsx:51-53 | for a page in range, the start index is a multiple of 3 inside the list; page 0 starts the last block and the last page starts at 0 |
| MenuSectionReverse.VisibleShape | src/components/Menu/MenuSectionReverse.tsx:53-56 | a page shows 1 to 4 items from its start index, last first |
| MenuSectionReverse.FirstPageShowsLastItem | src/components/Menu/MenuSectionReverse.tsx:53-56 | page 0 shows the last item first |
| MenuSectionReverse.GoToPrevPage | src/components/Menu/MenuSectionReverse.tsx:58-62 | asks the parent for page + 1 exactly when the page is below totalPages - 1 |
| MenuSectionReverse.ControlsAgree | src/components/Menu/MenuSectionReverse.tsx:225-229 | the prev button is disabled exactly when goToPrevPage would do nothing; the controls show exactly for more than three items |
| MenuSectionReverse.PrevPageKeepsRange | src/components/Menu/MenuSectionReverse.tsx:50-62 | starting from page 0, a requested page is always in range |
| FormFields.CounterColor | src/components/Admin/CategoryForm.tsx:136-142 | red exactly when over the limit; gray only while more than a fifth of the limit remains |
| FormFields.CounterColorMonotone | src/components/Admin/CategoryForm.tsx:136-142 | typing one more character never makes the colour less urgent |
| FormFields.CounterColorEnds | src/components/Admin/CategoryForm.tsx:136-142 | an empty field is gray, a full one orange, one character over red |
| FormFields.RequiredError | src/components/Admin/CategoryForm.tsx:94-98 | a required text passes exactly when it is not all white space and its UTF-16 length is within the limit; blank gives the required message, too long the limit message |
| FormFields.OptionalError | src/components/Admin/CategoryForm.tsx:114-125 | an optional text fails only when present and longer than the limit, with the limit message |
| FormFields.CheckRequired | src/components/Admin/CategoryForm.tsx:94-98 | one required-text step adds exactly that field's error, if any |
| FormFields.CheckOptional | src/components/Admin/CategoryForm.tsx:114-116 | one optional-text step adds exactly that field's error, if any |
| FormFields.PriceError | src/components/Admin/ItemForm.tsx:108-110 | a price fails exactly when present and negative |
| FormFields.CheckPrice | src/components/Admin/ItemForm.tsx:108-119 | one price step adds exactly that price's error, if any |
| FormFields.PaddedTextTooLong | src/components/Admin/CategoryForm.tsx:94-97 | the required test trims but the limit counts the untrimmed text, so "a" plus limit blanks is rejected as too long |
| FormFields.TrimAfterLetter | src/components/Admin/CategoryForm.tsx:94 | "a" followed by blanks trims to "a" |
| FormFields.BlanksTrimEnd | src/components/Admin/CategoryForm.tsx:94 | trailing blanks after a non-blank character are exactly what trimEnd removes |
| CategoryForm.TableCollects | src/components/Admin/CategoryForm.tsx:91-132 | running every field check in order collects exactly the error map |
| CategoryForm.ErrorsMeaning | src/components/Admin/CategoryForm.tsx:91-132 | a field has an entry exactly when its rule fails, holding that rule's message |
| CategoryForm.NoErrorsIffAcceptable | src/components/Admin/CategoryForm.tsx:131-132 | validate returns true exactly when every rule holds |
| CategoryForm.NoErrorsIffEveryRule | src/components/Admin/CategoryForm.tsx:94-132 | the error map is empty exactly when every text rule passes and the order is at least 1 |
| CategoryForm.TitlesOk | src/components/Admin/CategoryForm.tsx:94-103 | each title passes exactly when it is not blank and at most 20 UTF-16 units long |
| CategoryForm.DescriptionsOk | src/components/Admin/CategoryForm.tsx:104-113 | each description passes exactly when it is not blank and at most 180 units long |
| CategoryForm.OptionalTextsOk | src/components/Admin/CategoryForm.tsx:114-125 | extras and tagline pass exactly when absent or within 150 and 25 units |
| CategoryForm.ImageNotChecked | src/components/Admin/CategoryForm.tsx:129 | the image has no effect on validation |
| CategoryForm.OrderError | src/components/Admin/CategoryForm.tsx:126-128 | an order below 1 is reported, and only then |
| CategoryForm.BlankTitleRequired | src/components/Admin/CategoryForm.tsx:94-95 | a blank title is reported as required, whatever its length |
| CategoryForm.InitialForm | src/components/Admin/CategoryForm.tsx:25-44 | a new form starts with order 1, no image and empty title, description, extras and tagline; an edit form keeps the title, description and image, takes `order || 1`, and keeps a present extras or tagline, filling an absent one with empty texts |
| CategoryForm.SyncedForm | src/components/Admin/CategoryForm.tsx:50-62 | the effect copies the stored order, image, title and description, keeps a present extras or tagline, and fills an absent one with empty texts |
| CategoryForm.EffectDiffersOnlyForOrderZero | src/components/Admin/CategoryForm.tsx:25-62 | the effect changes the first state only when the stored order is 0 |
| CategoryForm.NewFormDefaults | src/components/Admin/CategoryForm.tsx:26 | a new category starts with order 1, which validate accepts, and with its titles still required |
| CategoryForm.CheckTexts | src/components/Admin/CategoryForm.tsx:94-113 | the title and description steps collect exactly those four fields' errors |
| CategoryForm.CheckOptionalTexts | src/components/Admin/CategoryForm.tsx:114-125 | the extras and tagline steps add exactly those four fields' errors |
| CategoryForm.Form.constructor | src/components/Admin/CategoryForm.tsx:25-62 | mounting gives the first state, then the effect's state in edit mode, with no errors |
| CategoryForm.Form.Validate | src/components/Admin/CategoryForm.tsx:91-133 | the stored errors become exactly the error map, and the result is true exactly when it is empty |
| CategoryForm.Form.HandleSubmit | src/components/Admin/CategoryForm.tsx:144-155 | onSubmit gets the form data and file exactly when the form is acceptable |
| ItemForm.TableCollects | src/components/Admin/ItemForm.tsx:88-123 | running every field check in order collects exactly the error map |
| ItemForm.ErrorsMeaning | src/components/Admin/ItemForm.tsx:88-123 | a field has an entry exactly when its rule fails, holding that rule's message |
| ItemForm.NoErrorsIffEveryRule | src/components/Admin/ItemForm.tsx:91-122 | no errors exactly when a category is chosen, both names pass, the order is at least 1 and no price is negative |
| ItemForm.NoErrorsIffAcceptable | src/components/Admin/ItemForm.tsx:121-122 | validate returns true exactly when every rule holds |
| ItemForm.PriceRule | src/components/Admin/ItemForm.tsx:108-110 | the price fails exactly when present and negative; 0 and absent are accepted |
| ItemForm.CategoryRule | src/components/Admin/ItemForm.tsx:91-93 | no selected category always gives 'Category is required' |
| ItemForm.ImageNotChecked | src/components/Admin/ItemForm.tsx:107 | the image has no effect on validation |
| ItemForm.SecondGuardFollows | src/components/Admin/ItemForm.tsx:137-143 | the submit handler's own category test never rejects what validate accepted |
| ItemForm.InitialForm | src/components/Admin/ItemForm.tsx:25-36 | a new form starts with order 1, empty names and no prices; an edit form keeps the item's names, image and all four prices, and takes `order || 1` |
| ItemForm.InitialCategory | src/components/Admin/ItemForm.tsx:38-40 | the first selection is the item's category, else the first category's id, else '' |
| ItemForm.NewFormCategory | src/components/Admin/ItemForm.tsx:38-93 | a new item starts on the first category, and with no categories validate reports the missing category |
| ItemForm.NewFormOrder | src/components/Admin/ItemForm.tsx:26-106 | a new item starts with order 1, which validate accepts |
| ItemForm.CheckLead | src/components/Admin/ItemForm.tsx:91-106 | the category, name and order steps collect exactly those fields' errors |
| ItemForm.CheckPrices | src/components/Admin/ItemForm.tsx:108-119 | the four price steps complete the error map |
| ItemForm.Form.constructor | src/components/Admin/ItemForm.tsx:25-59 | mounting gives the first state, then in edit mode the item's fields and category |
| ItemForm.Form.ChangeCategory | src/components/Admin/ItemForm.tsx:161-165 | the selection follows the change; the parent hears of it only in create mode |
| ItemForm.Form.Validate | src/components/Admin/ItemForm.tsx:88-123 | the stored errors become exactly the error map, and the result is true exactly when it is empty |
| ItemForm.Form.HandleSubmit | src/components/Admin/ItemForm.tsx:134-150 | onSubmit gets the selected category, form data and file exactly when the form is acceptable, and the category is never empty |
| Text.TrimStartShape | src/components/Admin/CategoryForm.tsx:94 | trimStart removes a prefix of white space and leaves no leading white space |
| Text.TrimEndShape | src/components/Admin/CategoryForm.tsx:94 | trimEnd removes a suffix of white space and leaves no trailing white space |
| Text.TrimEmptyIff | src/pages/Rate.tsx:35 | `trim()` is empty exactly when the text is all white space |
| Text.LowerIdempotent | src/pages/Admin/Categories.tsx:72-76 | lower-casing an already lower-cased text changes nothing |
| Text.LowerForgetsCase | src/pages/Admin/Categories.tsx:72-76 | an upper-cased text lower-cases to the same text as the original |
| Text.IncludesIgnoresCase | src/pages/Admin/Categories.tsx:72-83 | the case-blind search answers the same whatever the ASCII case of the text and of the term |
| Text.IncludesEmpty | src/pages/Admin/Categories.tsx:78-83 | every text includes the empty text |
| Text.Utf16Length | src/components/Admin/CategoryForm.tsx:96 | `.length` counts between one and two UTF-16 units per character |
| Text.LastSegmentShape | src/services/firebase/storageService.ts:100 | `split('.').pop()` is a suffix without '.', preceded by '.' unless it is the whole name |
| Text.LastSegmentAfter | src/services/firebase/storageService.ts:100-101 | whatever comes before the last '.' does not change the extension |
| Text.FirstSegment | src/i18n/config.ts:11 | `split('-')[0]` is a prefix without '-', followed by '-' unless it is the whole text |
| Text.JoinIncludes | src/config/firebase.ts:40 | every joined name appears in the joined text |
| Text.NatToStringDigits | src/services/firebase/storageService.ts:99-101 | a printed timestamp is one or more decimal digits |
| Text.ParseNatToString | src/services/firebase/storageService.ts:99-101 | reading back a printed number gives the number |
| Text.NatToStringInjective | src/services/firebase/storageService.ts:99-101 | distinct timestamps print as distinct texts |
| Sorting.InsertPermutes | src/services/firebase/firestoreService.ts:57 | inserting adds the element and loses nothing |
| Sorting.InsertionSortPermutes | src/services/firebase/firestoreService.ts:57 | sorting is a permutation |
| Sorting.InsertSorted | src/services/firebase/firestoreService.ts:57 | inserting into a sorted list keeps it sorted |
| Sorting.InsertionSortSorted | src/services/firebase/firestoreService.ts:57 | the comparator sort's result is ordered by any total preorder |
| Sorting.InsertSplit | src/services/firebase/firestoreService.ts:57 | insertion only looks at the part of the list its element is below |
| Sorting.InsertAtEnd | src/services/firebase/firestoreService.ts:57 | an element not below the last goes to the end, which keeps the sort stable |
| Sorting.InsertAtDone | src/services/firebase/firestoreService.ts:57 | the shifting loop leaves the element inserted in the sorted prefix |
| Sorting.SortStep | src/services/firebase/firestoreService.ts:57 | one outer step extends the sorted prefix by one element |
| Sorting.InsertAt | src/services/firebase/firestoreService.ts:57 | one in-place insertion step on the array, with the rest unchanged |
| Sorting.Sort | src/services/firebase/firestoreService.ts:57 | `array.sort(cmp)` in place: the array becomes the comparator sort of its old contents |
| FirestoreService.ConvertStamp | src/services/firebase/firestoreService.ts:24-29 | a Timestamp becomes a Date of the same instant; anything else is kept |
| FirestoreService.ConvertTimestamps | src/services/firebase/firestoreService.ts:22-31 | only createdAt and updatedAt change, to Dates of the same instants; id and fields are copied |
| FirestoreService.ToDoc | src/services/firebase/firestoreService.ts:40-54 | a document becomes a record with its document id and its own fields |
| FirestoreService.ComparatorsTotal | src/services/firebase/firestoreService.ts:57-73 | ordering by `order` is a total preorder, for items and for categories |
| FirestoreService.Keys | src/services/firebase/firestoreService.ts:46-49 | a snapshot lists every document id of the collection, each exactly once |
| FirestoreService.FreshId | src/services/firebase/firestoreService.ts:114-122 | addDoc's id is not already in the collection |
| FirestoreService.ItemDocs | src/services/firebase/firestoreService.ts:49-54 | the item records follow the snapshot, one per id |
| FirestoreService.PermutedItemsLoaded | src/services/firebase/firestoreService.ts:49-57 | any reordering of the snapshot's items holds every item of the collection once |
| FirestoreService.DocToCategory | src/services/firebase/firestoreService.ts:36-60 | the category holds its id, its fields and all of its items, each with its document id, sorted by order |
| FirestoreService.PatchCategoryFields | src/services/firebase/firestoreService.ts:134-140 | an update writes the supplied fields and keeps every field it leaves out |
| FirestoreService.FullCategoryPatchReplaces | src/services/firebase/firestoreService.ts:134-140 | an update that supplies a whole record replaces it, except that an absent tagline or extras leaves the stored one |
| FirestoreService.FullItemPatchReplaces | src/services/firebase/firestoreService.ts:204-210 | an item update supplying every price replaces the item's fields |
| FirestoreService.PatchIdempotent | src/services/firebase/firestoreService.ts:134-210 | applying the same update twice is applying it once |
| FirestoreService.Store.constructor | src/services/firebase/firestoreService.ts:66 | the store holds the given documents |
| FirestoreService.Store.GetCategories | src/services/firebase/firestoreService.ts:70-85 | every category with all its items, categories in ascending order; a failure is rethrown |
| FirestoreService.Store.LoadAll | src/services/firebase/firestoreService.ts:76-78 | each listed category is loaded by docToCategory |
| FirestoreService.Store.PermutedLoaded | src/services/firebase/firestoreService.ts:73-78 | any reordering of the loaded categories still holds every category once |
| FirestoreService.Store.GetCategory | src/services/firebase/firestoreService.ts:90-107 | null exactly when no category has the id; otherwise the category loaded with its items |
| FirestoreService.Store.CreateCategory | src/services/firebase/firestoreService.ts:112-127 | the data is stored under a fresh id with createdAt = updatedAt = now, and nothing else changes |
| FirestoreService.Store.UpdateCategory | src/services/firebase/firestoreService.ts:132-145 | the supplied fields and updatedAt are written and createdAt is kept; a missing document fails with nothing changed |
| FirestoreService.Store.DeleteCategory | src/services/firebase/firestoreService.ts:150-169 | every item whose delete succeeds goes; the category goes only when all of them did; other categories' items are untouched |
| FirestoreService.Store.CreateItem | src/services/firebase/firestoreService.ts:174-193 | the item is stored under a fresh id in that category's items, created and updated now; nothing else changes |
| FirestoreService.Store.UpdateItem | src/services/firebase/firestoreService.ts:198-215 | the supplied fields and updatedAt are written in that category only; a missing item fails |
| FirestoreService.Store.DeleteItem | src/services/firebase/firestoreService.ts:220-228 | the item is removed from that category only; a missing one is not an error |
| StorageService.ValidateImage | src/services/firebase/storageService.ts:24-32 | a file is accepted exactly when its type starts with "image/" and its size is at most 10485760 bytes; the type is checked first |
| StorageService.TenMebibytesAccepted | src/services/firebase/storageService.ts:29-30 | a file of exactly 10 MiB is accepted |
| StorageService.ImagePathExtension | src/services/firebase/storageService.ts:98-113 | the stored path ends with the uploaded file's extension |
| StorageService.ImagePathsDiffer | src/services/firebase/storageService.ts:98-113 | uploads at different clock readings get different paths |
| StorageService.CategoryPathIsNotItemPath | src/services/firebase/storageService.ts:98-113 | a category image path never equals an item image path |
| StorageService.ExtractObjectPath | src/services/firebase/storageService.ts:74-82 | extraction fails only as an invalid URL, as 'Invalid storage URL format', or as a malformed escape |
| StorageService.DownloadPathPlain | src/services/firebase/storageService.ts:73 | a download URL's path holds no '?' or '#' |
| StorageService.DownloadUrlShape | src/services/firebase/storageService.ts:73 | a download URL is https, the host, the encoded path, then "?alt=media" |
| StorageService.PathnameOf | src/services/firebase/storageService.ts:74-75 | the pathname of scheme://rest is the path after the host |
| StorageService.AuthorityPathOf | src/services/firebase/storageService.ts:74-75 | the pathname of host + path + query is the path |
| StorageService.DownloadUrlPathname | src/services/firebase/storageService.ts:73-75 | a download URL's pathname is "/v0/b/bucket/o/" followed by the encoded path |
| StorageService.NoMatchInBucket | src/services/firebase/storageService.ts:75 | no "/o/" is found inside "/v0/b/" and the bucket name |
| StorageService.DownloadPathMatch | src/services/firebase/storageService.ts:75 | the first "/o/" of a download pathname is the one before the object path |
| StorageService.ExtractDownloadUrl | src/services/firebase/storageService.ts:74-82 | deleteImage finds exactly the object a download URL names |
| StorageService.Bucket.constructor | src/services/firebase/storageService.ts:14 | the bucket holds the given objects |
| StorageService.Bucket.UploadImage | src/services/firebase/storageService.ts:21-48 | a rejected file uploads nothing; otherwise the object is stored when the upload succeeds, and the result is its download URL when both steps succeed |
| StorageService.Bucket.DeleteImage | src/services/firebase/storageService.ts:70-91 | the object named by the URL is removed; a bad URL, a failure or a missing object is an error with nothing removed |
| StorageService.UploadThenDelete | src/services/firebase/storageService.ts:21-91 | an image uploaded, then deleted through its download URL, is gone |
| Uri.HexValue | src/services/firebase/storageService.ts:82 | a hex digit of either case has a value below 16 |
| Uri.Escape | src/services/firebase/storageService.ts:82 | an escape is '%' and two digits |
| Uri.Utf8 | src/services/firebase/storageService.ts:82 | a character is one to four UTF-8 bytes, and one exactly for ASCII |
| Uri.EscapeAll | src/services/firebase/storageService.ts:82 | each byte is written as three characters |
| Uri.EncodeEncoded | src/services/firebase/storageService.ts:73 | an encoded path holds only unreserved characters and '%', and is empty only for an empty path |
| Uri.EscapeAllEncoded | src/services/firebase/storageService.ts:73 | written escapes hold only '%' and hex digits |
| Uri.ByteAt | src/services/firebase/storageService.ts:82 | an escape read back is a byte |
| Uri.ContAt | src/services/firebase/storageService.ts:82 | a continuation byte read back is below 64 |
| Uri.DecodeEscapes | src/services/firebase/storageService.ts:82 | a decoded UTF-8 sequence consumes at least one escape and stays inside the text |
| Uri.Decode | src/services/firebase/storageService.ts:82 | decodeURIComponent fails only with URIError |
| Uri.HexRoundTrip | src/services/firebase/storageService.ts:82 | an escaped byte reads back as itself |
| Uri.EscapeReadBackAt | src/services/firebase/storageService.ts:82 | the escape written for byte i reads back as that byte |
| Uri.EscapesReadBack | src/services/firebase/storageService.ts:82 | every written escape reads back as its byte |
| Uri.DecodeEscapesOfChar | src/services/firebase/storageService.ts:82 | the escapes of a character's UTF-8 bytes decode to that character |
| Uri.DecodeEscapesOfOne | src/services/firebase/storageService.ts:82 | the same, for one-byte characters |
| Uri.DecodeEscapesOfTwo | src/services/firebase/storageService.ts:82 | the same, for two-byte characters |
| Uri.DecodeEscapesOfThree | src/services/firebase/storageService.ts:82 | the same, for three-byte characters |
| Uri.DecodeEscapesOfFour | src/services/firebase/storageService.ts:82 | the same, for four-byte characters |
| Uri.DecodeEncodedChar | src/services/firebase/storageService.ts:82 | decoding an encoded character gives it back, followed by the decoding of the rest |
| Uri.DecodeEncode | src/services/firebase/storageService.ts:82 | decodeURIComponent undoes encodeURIComponent |
| Uri.ReplaceKeepsEscape | src/services/firebase/storageService.ts:82 | the `%2F` replacement leaves the escape of any other byte alone |
| Uri.ReplaceKeepsEscapes | src/services/firebase/storageService.ts:82 | the replacement leaves a run of non-slash escapes alone |
| Uri.EncodeSlash | src/services/firebase/storageService.ts:82 | '/' is encoded as "%2F" |
| Uri.NoSlashByte | src/services/firebase/storageService.ts:82 | only '/' has the byte 0x2F in its UTF-8 |
| Uri.ReplaceEncodedChar | src/services/firebase/storageService.ts:82 | the replacement turns the encoding of '/' into '/' and leaves every other encoded character alone |
| Uri.DecodeReplacedEncode | src/services/firebase/storageService.ts:82 | replacing `%2F` before decoding still recovers the original path |
| Uri.FirstOf | src/services/firebase/storageService.ts:74 | the first delimiter position lies within the text |
| Uri.FirstOfShape | src/services/firebase/storageService.ts:74 | the position found holds a delimiter, and none comes before it |
| Uri.FirstOfAfter | src/services/firebase/storageService.ts:74 | a delimiter-free prefix shifts the position by its length |
| Uri.AuthorityPath | src/services/firebase/storageService.ts:74 | taking the path after the host fails only as an invalid URL |
| Uri.AuthorityPathShape | src/services/firebase/storageService.ts:74-75 | a pathname starts with '/' and holds no '?' or '#' |
| Uri.Pathname | src/services/firebase/storageService.ts:74 | `new URL(url).pathname` fails only as an invalid URL |
| Uri.MatchFrom | src/services/firebase/storageService.ts:75 | a match found leaves at least one character after "/o/" |
| Uri.MatchFromShape | src/services/firebase/storageService.ts:75 | the match found is the leftmost one |
| Uri.ObjectPathMatchShape | src/services/firebase/storageService.ts:75-79 | a matched object path is not empty and holds no line terminator |
| Ratings.Submitted | src/services/firebase/ratings.ts:21-26 | the stored rating holds exactly the rating, the feedback, a Timestamp of now and the user agent |
| Ratings.ToRating | src/services/firebase/ratings.ts:46-55 | a record copies the id and fields, with createdAt as a Date, or the current clock when it is missing |
| Ratings.SubmittedReadBack | src/services/firebase/ratings.ts:21-55 | a submitted rating reads back as what was submitted, stamped at submit time |
| Ratings.NewerFirstTotal | src/services/firebase/ratings.ts:41 | newest-first is a total preorder |
| Ratings.BreakdownIsMultiplicity | src/services/firebase/ratings.ts:85-97 | the breakdown has a key for each of 1 to 5 and for every value present, and maps it to how often that value occurs |
| Ratings.CountIsMultiplicity | src/services/firebase/ratings.ts:95-96 | each value's count is how often it occurs |
| Ratings.ScaleCountsAddUp | src/services/firebase/ratings.ts:85-101 | with values in 1..5, the five counts add up to the total |
| Ratings.BreakdownAddsUp | src/services/firebase/ratings.ts:85-101 | with values in 1..5, the breakdown has exactly the keys 1..5 and they add up to the total |
| Ratings.OutsideValueGetsKey | src/services/firebase/ratings.ts:96 | every value that occurs, in 1..5 or not, has a key with a count of at least 1 |
| Ratings.SumBounds | src/services/firebase/ratings.ts:97 | with values in 1..5 the sum is between n and 5n |
| Ratings.AverageInScale | src/services/firebase/ratings.ts:93-102 | the average is between 1 and 5 for star values, and 0 with no ratings |
| Ratings.CountAbsent | src/services/firebase/ratings.ts:85-96 | a value no rating has counts 0 |
| Ratings.BreakdownStep | src/services/firebase/ratings.ts:95-98 | one more rating bumps only its own key and adds its value to the sum |
| Ratings.ComputeStats | src/services/firebase/ratings.ts:85-104 | total is the count, breakdown the counts per value starting from 1..5 at 0, and average the sum over the count, or 0 |
| Ratings.ListedRatings | src/services/firebase/ratings.ts:44-55 | the records are those of the listed documents, covering each one, with no document twice |
| Ratings.DistinctIdsCount | src/services/firebase/ratings.ts:44-55 | records with distinct ids carry as many ids as there are records |
| Ratings.RecordCount | src/services/firebase/ratings.ts:44-55 | records of the listed documents that cover them, each once, number exactly the listed documents |
| Ratings.DistinctIdsOnce | src/services/firebase/ratings.ts:44-55 | with distinct ids no record occurs twice |
| Ratings.SortNewestFirst | src/services/firebase/ratings.ts:41 | the records are reordered newest first, none lost or added |
| Ratings.PermutedRecords | src/services/firebase/ratings.ts:41-55 | reordering keeps them the records of the listed documents, each once |
| Ratings.RatingsStore.constructor | src/services/firebase/ratings.ts:14 | the collection holds the given documents |
| Ratings.RatingsStore.SubmitRating | src/services/firebase/ratings.ts:19-32 | the document is added under a fresh id; a failure becomes 'Failed to submit rating' with nothing stored |
| Ratings.RatingsStore.GetAllRatings | src/services/firebase/ratings.ts:37-60 | the records of every listed document, each exactly once, newest first; a failure becomes 'Failed to fetch ratings' |
| Ratings.RatingsStore.DeleteRating | src/services/firebase/ratings.ts:65-72 | the document is removed; a failure becomes 'Failed to delete rating' with nothing removed |
| Ratings.RatingsStore.GetRatingStats | src/services/firebase/ratings.ts:77-109 | total is the number of listed documents, and total, average and breakdown are those of their records, each document once; any failure becomes 'Failed to calculate rating statistics' |
| Rate.HighlightRule | src/pages/Rate.tsx:283-291 | star k lights exactly when k is at most the hovered star, or the rating when nothing is hovered; lit stars form a prefix |
| Rate.SubmitError | src/pages/Rate.tsx:30-38 | the check passes exactly for a chosen rating and non-blank feedback, with the rating checked first |
| Rate.RatePage.constructor | src/pages/Rate.tsx:8-13 | the page starts with no rating, no hover, empty feedback and no error |
| Rate.RatePage.StarClick | src/pages/Rate.tsx:15-18 | the star becomes the rating and the error clears |
| Rate.RatePage.StarHover | src/pages/Rate.tsx:20-22 | the hovered star is recorded |
| Rate.RatePage.StarLeave | src/pages/Rate.tsx:24-26 | the hover resets to 0, so exactly the stars up to the rating are lit |
| Rate.RatePage.Check | src/pages/Rate.tsx:30-48 | the submit checks' verdict and the trimmed feedback |
| Rate.RatePage.Send | src/pages/Rate.tsx:40-71 | on success exactly one rating is added, the page shows submitted with rating 0 and empty feedback; on failure the message is shown and nothing is stored |
| Rate.RatePage.HandleSubmit | src/pages/Rate.tsx:28-72 | a failed check shows its message and sends nothing; otherwise the rating and the trimmed feedback are sent, with the outcome as in Send |
| Rate.SentFeedbackNotEmpty | src/pages/Rate.tsx:35-48 | feedback that passes the check is non-empty after trimming |
| ImageSteps.UploadFailure | src/services/firebase/storageService.ts:21-48 | uploadImage throws exactly when the file is refused or either remote step fails |
| ImageSteps.ReplaceImage | src/pages/Admin/CategoryEdit.tsx:54-68 | the old image is deleted first, its failure ignored, then the new file uploaded; the URL is the new object's |
| ImageSteps.DanglingImage | src/pages/Admin/CategoryEdit.tsx:56-67 | when the new image is refused after the old one was deleted, the document's image names an object the bucket no longer holds |
| CategoryPages.CreateWithImage | src/pages/Admin/CategoryNew.tsx:24-45 | the category is created with image '' under a fresh id, its image uploaded to that id's path, then updated with the URL; a failure after creation leaves it with image '' |
| CategoryPages.CategoryNewPage.constructor | src/pages/Admin/CategoryNew.tsx:15-16 | the page starts not saving, with no error |
| CategoryPages.CategoryNewPage.HandleSubmit | src/pages/Admin/CategoryNew.tsx:18-53 | no file gives 'Image is required' with no call made; otherwise CreateWithImage runs, saving ends false, and a failure is shown and thrown on |
| CategoryPages.CategoryEditPage.constructor | src/pages/Admin/CategoryEdit.tsx:15-18 | the page starts loading, with no category and no error |
| CategoryPages.CategoryEditPage.LoadCategory | src/pages/Admin/CategoryEdit.tsx:20-42 | a missing category shows 'Category not found'; a found one is loaded with its items |
| CategoryPages.CategoryEditPage.HandleSubmit | src/pages/Admin/CategoryEdit.tsx:44-85 | nothing without an id or a loaded category; without a file the image is data.mainImage; with one, the old image is deleted first, then the new one uploaded; one update writes the form data with that image |
| CategoryPages.UpdateFromForm | src/pages/Admin/CategoryEdit.tsx:71-74 | the update writes the form data with the chosen image, or fails with nothing changed |
| CategoriesPage.FilterCategoriesMembers | src/pages/Admin/Categories.tsx:71-84 | a category is listed exactly when loaded and its lower-cased title or description, in either language, includes the lower-cased term; nothing is added or repeated |
| CategoriesPage.FilterCategoriesAppend | src/pages/Admin/Categories.tsx:71 | the search keeps the order of the list |
| CategoriesPage.EmptySearchKeepsAll | src/pages/Admin/Categories.tsx:71-84 | an empty search lists every category |
| CategoriesPage.DeleteWithImage | src/pages/Admin/Categories.tsx:48-59 | a non-empty image is deleted first, its failure ignored; then deleteCategory: a failed listing changes no item; otherwise exactly the category's items whose delete failed remain, and the category itself goes only when every step succeeds, so a failure can leave the category with only some of its items |
| CategoriesPage.CategoriesPage.constructor | src/pages/Admin/Categories.tsx:13-17 | the page starts loading an empty list |
| CategoriesPage.CategoriesPage.LoadCategories | src/pages/Admin/Categories.tsx:23-35 | every category in ascending order, or the error with the list kept |
| CategoriesPage.CategoriesPage.HandleDelete | src/pages/Admin/Categories.tsx:37-69 | nothing without confirmation; otherwise the image and then the category are deleted, and a success reloads a list without that category while a failure is alerted; on every path the category's surviving items are exactly those whose delete failed, or all of them when the listing failed |
| ItemPages.FindByIdSpec | src/pages/Admin/ItemEdit.tsx:46 | find gives the first item with the id, and nothing only when none has it |
| ItemPages.FindLoadedItem | src/pages/Admin/ItemEdit.tsx:36-52 | in a loaded category, find succeeds exactly for the ids of its item documents |
| ItemPages.ItemNewPage.constructor | src/pages/Admin/ItemNew.tsx:16-19 | the page starts loading categories, with no error |
| ItemPages.ItemNewPage.LoadCategories | src/pages/Admin/ItemNew.tsx:25-36 | every category in ascending order, or the error |
| ItemPages.ItemNewPage.HandleSubmit | src/pages/Admin/ItemNew.tsx:38-73 | no file gives 'Image is required' with no call made; otherwise CreateItemWithImage runs, saving ends false, and a failure is shown and thrown on |
| ItemPages.CreateItemWithImage | src/pages/Admin/ItemNew.tsx:44-65 | the item is created with image '' under a fresh id, its image uploaded to that id's path, then updated with the URL; a failure after creation leaves it with image '' |
| ItemPages.MoveItem | src/pages/Admin/ItemEdit.tsx:91-98 | createItem in the new category, then deleteItem in the old one |
| ItemPages.UpdateInPlace | src/pages/Admin/ItemEdit.tsx:99-105 | one updateItem on the existing id |
| ItemPages.MoveDuplicates | src/pages/Admin/ItemEdit.tsx:93-112 | a move whose delete fails leaves the old item untouched and the new one in the target category |
| ItemPages.MoveVersusUpdate | src/pages/Admin/ItemEdit.tsx:91-105 | a move restarts createdAt while an update keeps it; reading an `undefined` price as absent, a move also drops prices the form leaves out, which an update keeps |
| ItemPages.LookUpItem | src/pages/Admin/ItemEdit.tsx:36-52 | getCategory, then find by id |
| ItemPages.ItemEditPage.constructor | src/pages/Admin/ItemEdit.tsx:16-20 | the page starts loading, with no item |
| ItemPages.ItemEditPage.LoadData | src/pages/Admin/ItemEdit.tsx:28-59 | a failed call shows its error; otherwise 'Category not found' or 'Item not found', or the item with its category |
| ItemPages.ItemEditPage.HandleSubmit | src/pages/Admin/ItemEdit.tsx:61-116 | nothing without the ids or the item; the image as on the category edit page; a changed category moves the item (create, then delete), an unchanged one updates it |
| ItemsPage.RowsOf | src/pages/Admin/Items.tsx:74 | one row per item |
| ItemsPage.RowsOfMembers | src/pages/Admin/Items.tsx:74 | each row is an item of the category, tagged with its id |
| ItemsPage.AllItemsMembers | src/pages/Admin/Items.tsx:73-75 | every row is an item of a listed category tagged with that category's id, and every such item has its row |
| ItemsPage.AllItemsAppend | src/pages/Admin/Items.tsx:73-75 | flatMap keeps the order of the categories |
| ItemsPage.FilterRowsMembers | src/pages/Admin/Items.tsx:78-93 | a row survives exactly when its category is selected (or 'all') and, for a non-empty term, a lower-cased name includes it; the survivors are a sub-multiset |
| ItemsPage.NoFilterKeepsAll | src/pages/Admin/Items.tsx:78-93 | 'all' with no term keeps every row in order |
| ItemsPage.RowLeqTotal | src/pages/Admin/Items.tsx:96-101 | ordering by category order, then item order, is a total preorder |
| ItemsPage.FilteredItems | src/pages/Admin/Items.tsx:73-101 | the filtered rows sorted by category order then item order: sorted, and a permutation of the filter's result |
| ItemsPage.DeletedItemNotListed | src/pages/Admin/Items.tsx:60-75 | an item gone from the store shows in no row of a freshly loaded list |
| ItemsPage.DeleteItemWithImage | src/pages/Admin/Items.tsx:50-60 | a non-empty image is deleted first, its failure ignored; then deleteItem removes the item from its category only |
| ItemsPage.ItemsPage.constructor | src/pages/Admin/Items.tsx:14-19 | the page starts loading, with 'all' selected and no search |
| ItemsPage.ItemsPage.LoadCategories | src/pages/Admin/Items.tsx:25-37 | every category in ascending order, or the error with the list kept |
| ItemsPage.ItemsPage.HandleDelete | src/pages/Admin/Items.tsx:39-70 | nothing without confirmation; otherwise the image and then the item are deleted, and a success reloads a list without that item while a failure is alerted |

## Left out

- Firebase SDK internals: queries, `addDoc`/`updateDoc`/`deleteDoc`, uploads, Auth and offline persistence are foreign network calls. The store and bucket are maps and a set, and every call's success or failure is an `Outcome` parameter.
- Concurrency: `Promise.all` in `getCategories`, `deleteCategory` and `ItemEdit.loadData` runs as a sequence. In `LoadData` a listing failure is reported before a lookup failure. `DeleteCategory` takes the set of item deletes that fail.
- Clocks: `Date.now()`, `Timestamp.now()` and `new Date()` are parameters. The workflows read the store clock and the path clock separately (`now`, `millis`, `later`).
- FirestoreService.Store.GetCategories: Firestore breaks ties of equal `order` by document id; the model leaves the order of ties unspecified.
- FirestoreService.Store.UpdateCategory and UpdateItem: a field set to `undefined` is treated as absent, where the SDK would reject it.
- FirestoreService.Store.CreateItem: a price the form holds as `undefined` is stored as absent. `addDoc` without `ignoreUndefinedProperties` would reject the write instead, so a successful create of such an item rests on this reading.
- ItemPages.CreateItemWithImage: its successful create, with prices left `undefined`, rests on the same absent-field reading as CreateItem.
- ItemPages.MoveItem: the copy in the new category is created with the form's `undefined` prices read as absent, as in CreateItem.
- ItemPages.MoveVersusUpdate: the dropped prices it states hold only under that absent-field reading; with the SDK's own check such a move would fail at createItem.
- Ratings: the rating admin page's display (rounding, dates, percentage bars) is floating-point and locale formatting. `average` is an exact real.
- `getImageUrl` in storageService.ts is not used by any page in this model and is not modelled.
- StorageService.ExtractObjectPath: `new URL` is modelled only for `scheme://host/path?query#fragment` URLs; other URL forms are treated as invalid. A bucket named "o" is excluded, because its download pathname would match "/o/" early.
- Text.Lower: `toLowerCase` is modelled for ASCII letters only; other characters are unchanged.
- Text: `trim` uses the JavaScript white-space and line-terminator set; `length` counts UTF-16 code units.
- `handleImageChange` in both forms (type and size checks before a FileReader preview) repeats `StorageService.ValidateImage` and is not modelled separately. The preview and image compression are browser APIs.
- UI side effects: translation keys, `navigate`, `console`, the three-second `setTimeout` reset on the rating page and all rendering are left out. `confirm` is a boolean parameter, and `alert` is the `alerted` out-parameter.
- MenuSection.Carousel.LoadCategories requires both indices to be 0, as they are at both call sites: the first render, and the error screen's Retry button, which is shown instead of the carousel, so no navigation can have moved them.
- There is no "next order" computation: the create pages pass none, so new categories and items take order 1 from the form default (`CategoryForm.NewFormDefaults`, `ItemForm.NewFormOrder`). A moved item keeps the order from the form.
- The category cache is not connected to the store in this code, so no store operation invalidates it. `DataCache` is modelled on its own.
- `generateAdminSecret` uses `Math.random` and is left out. `authService.ts`, the seed and test scripts, and the presentation-only components are also left out.
- The cache is still valid at an age of exactly 300000 ms, because its expiry test is a strict `>`.
