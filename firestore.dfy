// The document-store service of the menu site
// (src/services/firebase/firestoreService.ts), over an in-memory store: a
// collection of category documents, and under each category id a
// sub-collection of item documents. Every call into the store SDK ends with
// an Outcome given as a parameter; the clock reading Timestamp.now() is a
// parameter too.

module FirestoreService {
  import opened Types
  import opened Sorting

  /** The Firestore error code of an update aimed at a missing document. */
  const NotFound: string := "not-found"

  /** A store Timestamp becomes a Date; a missing stamp or one that is
      already a Date is kept. */
  function ConvertStamp(s: Stamp): (r: Stamp)
    ensures !r.Timestamp?
    ensures r.Instant() == s.Instant()
    ensures !s.Timestamp? ==> r == s
  {
    if s.Timestamp? then Date(s.millis) else s
  }

  /** convertTimestamps: a copy of the document with createdAt and updatedAt
      converted to Dates and every other field unchanged. */
  function ConvertTimestamps<F>(d: Doc<F>): (c: Doc<F>)
    ensures c.id == d.id && c.fields == d.fields
    ensures !c.createdAt.Timestamp? && !c.updatedAt.Timestamp?
    ensures c.createdAt.Instant() == d.createdAt.Instant()
    ensures c.updatedAt.Instant() == d.updatedAt.Instant()
  {
    d.(createdAt := ConvertStamp(d.createdAt), updatedAt := ConvertStamp(d.updatedAt))
  }

  /** `{ id: snapshot.id, ...snapshot.data() }` after conversion. */
  function ToDoc<F>(id: string, s: Stored<F>): (d: Doc<F>)
    ensures d.id == id && d.fields == s.fields
  {
    ConvertTimestamps(Doc(id, s.fields, s.createdAt, s.updatedAt))
  }

  /** The comparator `(a, b) => a.order - b.order` of the item sort. */
  function ItemLeq(a: MenuItem, b: MenuItem): bool
  {
    a.fields.order <= b.fields.order
  }

  /** The order('order', 'asc') of the category query. */
  function CategoryLeq(a: Category, b: Category): bool
  {
    a.Order() <= b.Order()
  }

  lemma ComparatorsTotal()
    ensures TotalPreorder(ItemLeq) && TotalPreorder(CategoryLeq)
  {
  }

  /** items are exactly the documents of `docs`, one per document id, each
      carrying its document id and its converted fields. */
  predicate LoadedItems(items: seq<MenuItem>, docs: map<string, Stored<MenuItemData>>)
  {
    && |items| == |docs|
    && (forall i :: 0 <= i < |items| ==> items[i].id in docs && items[i] == ToDoc(items[i].id, docs[items[i].id]))
    && docs.Keys <= ItemIds(items)
  }

  /** The ids the items carry. */
  function ItemIds(items: seq<MenuItem>): set<string>
  {
    if items == [] then {} else ItemIds(items[..|items| - 1]) + {items[|items| - 1].id}
  }

  lemma {:induction false} ItemIdsHas(items: seq<MenuItem>, i: nat)
    requires i < |items|
    ensures items[i].id in ItemIds(items)
  {
    if i < |items| - 1 {
      ItemIdsHas(items[..|items| - 1], i);
    }
  }

  lemma {:induction false} ItemIdsWitness(items: seq<MenuItem>, k: string) returns (i: nat)
    requires k in ItemIds(items)
    ensures i < |items| && items[i].id == k
  {
    if items[|items| - 1].id == k {
      i := |items| - 1;
    } else {
      i := ItemIdsWitness(items[..|items| - 1], k);
    }
  }

  /** The ids the categories carry. */
  function CategoryIds(cs: seq<Category>): set<string>
  {
    if cs == [] then {} else CategoryIds(cs[..|cs| - 1]) + {cs[|cs| - 1].Id()}
  }

  lemma {:induction false} CategoryIdsHas(cs: seq<Category>, i: nat)
    requires i < |cs|
    ensures cs[i].Id() in CategoryIds(cs)
  {
    if i < |cs| - 1 {
      CategoryIdsHas(cs[..|cs| - 1], i);
    }
  }

  lemma {:induction false} CategoryIdsWitness(cs: seq<Category>, k: string) returns (i: nat)
    requires k in CategoryIds(cs)
    ensures i < |cs| && cs[i].Id() == k
  {
    if cs[|cs| - 1].Id() == k {
      i := |cs| - 1;
    } else {
      i := CategoryIdsWitness(cs[..|cs| - 1], k);
    }
  }

  /** What docToCategory yields for the document `id`: its converted fields,
      and all of its items sorted by order. */
  predicate Loaded(c: Category, id: string, s: Stored<CategoryData>, docs: map<string, Stored<MenuItemData>>)
  {
    && c.doc == ToDoc(id, s)
    && c.items.Some?
    && LoadedItems(c.items.value, docs)
    && SortedBy(c.items.value, ItemLeq)
  }

  /** The ids of a collection, in the order of a query snapshot: every id
      once, in an order the store chooses. */
  method Keys<V>(m: map<string, V>) returns (ks: seq<string>)
    ensures |ks| == |m|
    ensures forall k :: k in ks <==> k in m
    ensures forall i, j :: 0 <= i < j < |ks| ==> ks[i] != ks[j]
  {
    ks := [];
    var rest := m.Keys;
    while rest != {}
      invariant rest <= m.Keys
      invariant forall k :: k in ks <==> k in m && k !in rest
      invariant forall i, j :: 0 <= i < j < |ks| ==> ks[i] != ks[j]
      invariant |ks| + |rest| == |m|
      decreases |rest|
    {
      var k :| k in rest;
      ks := ks + [k];
      rest := rest - {k};
    }
  }

  /** An id that no document of the collection has: the random id of addDoc,
      made longer than every id in use. */
  method FreshId(taken: set<string>) returns (id: string)
    ensures id !in taken
  {
    var n: nat := 0;
    var rest := taken;
    while rest != {}
      invariant rest <= taken
      invariant forall k :: k in taken && k !in rest ==> |k| < n
      decreases |rest|
    {
      var k :| k in rest;
      if |k| >= n {
        n := |k| + 1;
      }
      rest := rest - {k};
    }
    id := seq(n, _ => 'x');
  }

  /** The item documents of a snapshot, in snapshot order. */
  function ItemDocs(ks: seq<string>, docs: map<string, Stored<MenuItemData>>): (r: seq<MenuItem>)
    requires forall k :: k in ks ==> k in docs
    ensures |r| == |ks|
    ensures forall i :: 0 <= i < |ks| ==> r[i] == ToDoc(ks[i], docs[ks[i]])
  {
    if ks == [] then [] else [ToDoc(ks[0], docs[ks[0]])] + ItemDocs(ks[1..], docs)
  }

  /** Any reordering of a snapshot's item documents holds every item of
      the collection once. */
  lemma PermutedItemsLoaded(ks: seq<string>, docs: map<string, Stored<MenuItemData>>, xs: seq<MenuItem>,
                            items: seq<MenuItem>)
    requires |ks| == |docs| && forall k :: k in ks <==> k in docs
    requires xs == ItemDocs(ks, docs) && multiset(items) == multiset(xs)
    ensures LoadedItems(items, docs)
  {
    assert |items| == |multiset(items)| == |xs|;
    forall i | 0 <= i < |items|
      ensures items[i].id in docs && items[i] == ToDoc(items[i].id, docs[items[i].id])
    {
      assert items[i] in multiset(xs);
      var j :| 0 <= j < |xs| && xs[j] == items[i];
    }
    forall k | k in docs
      ensures k in ItemIds(items)
    {
      var j :| 0 <= j < |ks| && ks[j] == k;
      assert xs[j] in multiset(items);
      var i :| 0 <= i < |items| && items[i] == xs[j];
      ItemIdsHas(items, i);
    }
  }

  /** docToCategory: the category document with all of its items, sorted in
      place by order. */
  method DocToCategory(id: string, s: Stored<CategoryData>, docs: map<string, Stored<MenuItemData>>)
    returns (c: Category)
    ensures Loaded(c, id, s, docs)
  {
    var ks := Keys(docs);
    var xs := ItemDocs(ks, docs);
    var a := new MenuItem[|xs|](i requires 0 <= i < |xs| => xs[i]);
    assert a[..] == xs;
    Sort(a, ItemLeq);
    var items := a[..];
    ComparatorsTotal();
    InsertionSortSorted(xs, ItemLeq);
    InsertionSortPermutes(xs, ItemLeq);
    PermutedItemsLoaded(ks, docs, xs, items);
    c := Category(ToDoc(id, s), Some(items));
  }

  /** A partial update of a category: a field that is None is not written. */
  datatype CategoryPatch = CategoryPatch(
    order: Option<int>,
    mainImage: Option<string>,
    title: Option<Localized>,
    description: Option<Localized>,
    tagline: Option<Localized>,
    extras: Option<Localized>)

  /** A partial update of an item. */
  datatype ItemPatch = ItemPatch(
    order: Option<int>,
    name: Option<Localized>,
    image: Option<string>,
    price: Option<real>,
    priceM: Option<real>,
    priceL: Option<real>,
    priceLiter: Option<real>)

  function Pick<T>(p: Option<T>, old_: T): T
  {
    if p.Some? then p.value else old_
  }

  function PickOpt<T>(p: Option<T>, old_: Option<T>): Option<T>
  {
    if p.Some? then p else old_
  }

  /** updateDoc's field merge for a category. */
  function PatchCategory(f: CategoryData, p: CategoryPatch): CategoryData
  {
    CategoryData(
      Pick(p.order, f.order), Pick(p.mainImage, f.mainImage), Pick(p.title, f.title),
      Pick(p.description, f.description), PickOpt(p.tagline, f.tagline), PickOpt(p.extras, f.extras))
  }

  /** updateDoc's field merge for an item. */
  function PatchItem(f: MenuItemData, p: ItemPatch): MenuItemData
  {
    MenuItemData(
      Pick(p.order, f.order), Pick(p.name, f.name), Pick(p.image, f.image),
      PickOpt(p.price, f.price), PickOpt(p.priceM, f.priceM), PickOpt(p.priceL, f.priceL),
      PickOpt(p.priceLiter, f.priceLiter))
  }

  /** The patch that writes every field of a whole record, as the edit pages
      pass it. */
  function FullCategoryPatch(d: CategoryData): CategoryPatch
  {
    CategoryPatch(Some(d.order), Some(d.mainImage), Some(d.title), Some(d.description), d.tagline, d.extras)
  }

  function FullItemPatch(d: MenuItemData): ItemPatch
  {
    ItemPatch(Some(d.order), Some(d.name), Some(d.image), d.price, d.priceM, d.priceL, d.priceLiter)
  }

  /** A patch writes what it supplies and keeps every field it leaves out. */
  lemma PatchCategoryFields(f: CategoryData, p: CategoryPatch)
    ensures var r := PatchCategory(f, p);
      && (p.order.Some? ==> r.order == p.order.value) && (p.order.None? ==> r.order == f.order)
      && (p.mainImage.Some? ==> r.mainImage == p.mainImage.value) && (p.mainImage.None? ==> r.mainImage == f.mainImage)
      && (p.title.Some? ==> r.title == p.title.value) && (p.title.None? ==> r.title == f.title)
      && (p.description.Some? ==> r.description == p.description.value) && (p.description.None? ==> r.description == f.description)
      && (p.tagline.None? ==> r.tagline == f.tagline) && (p.extras.None? ==> r.extras == f.extras)
  {
  }

  /** A patch supplying a whole record replaces the record, except that an
      absent tagline or extras leaves the stored one in place. */
  lemma FullCategoryPatchReplaces(f: CategoryData, d: CategoryData)
    ensures PatchCategory(f, FullCategoryPatch(d))
      == d.(tagline := if d.tagline.Some? then d.tagline else f.tagline,
            extras := if d.extras.Some? then d.extras else f.extras)
  {
  }

  lemma FullItemPatchReplaces(f: MenuItemData, d: MenuItemData)
    requires d.price.Some? && d.priceM.Some? && d.priceL.Some? && d.priceLiter.Some?
    ensures PatchItem(f, FullItemPatch(d)) == d
  {
  }

  /** Applying a patch twice is applying it once. */
  lemma PatchIdempotent(f: CategoryData, p: CategoryPatch, g: MenuItemData, q: ItemPatch)
    ensures PatchCategory(PatchCategory(f, p), p) == PatchCategory(f, p)
    ensures PatchItem(PatchItem(g, q), q) == PatchItem(g, q)
  {
  }

  /** The store: category documents by id, and item documents by category id
      and item id. A sub-collection can outlive its category document. */
  /** The items sub-collection of a category in a store's nested
      collections; an absent one is empty. */
  function ItemsIn(items: map<string, map<string, Stored<MenuItemData>>>, categoryId: string): map<string, Stored<MenuItemData>>
  {
    if categoryId in items then items[categoryId] else map[]
  }

  class Store {
    var categories: map<string, Stored<CategoryData>>
    var items: map<string, map<string, Stored<MenuItemData>>>

    constructor (categories: map<string, Stored<CategoryData>>, items: map<string, map<string, Stored<MenuItemData>>>)
      ensures this.categories == categories && this.items == items
    {
      this.categories := categories;
      this.items := items;
    }

    /** The items sub-collection of a category; an absent one is empty. */
    function ItemsOf(categoryId: string): map<string, Stored<MenuItemData>>
      reads this
    {
      ItemsIn(items, categoryId)
    }

    /** c is a category of the store as docToCategory loads it. */
    predicate Holds(c: Category)
      reads this
    {
      c.Id() in categories && Loaded(c, c.Id(), categories[c.Id()], ItemsOf(c.Id()))
    }

    /** Every category of the store, each as docToCategory loads it. */
    predicate AllLoaded(cs: seq<Category>)
      reads this
    {
      && |cs| == |categories|
      && (forall i :: 0 <= i < |cs| ==> Holds(cs[i]))
      && categories.Keys <= CategoryIds(cs)
    }

    /** getCategories: every category with its items, in ascending order. */
    method GetCategories(outcome: Outcome) returns (r: Result<seq<Category>>)
      ensures outcome.Failed? ==> r == Err(outcome.message)
      ensures outcome.Done? ==> r.Ok? && AllLoaded(r.value) && SortedBy(r.value, CategoryLeq)
    {
      if outcome.Failed? {
        return Err(outcome.message);
      }
      var ks := Keys(categories);
      var cs := LoadAll(ks);
      var a := new Category[|cs|](i requires 0 <= i < |cs| => cs[i]);
      assert a[..] == cs;
      Sort(a, CategoryLeq);
      ComparatorsTotal();
      InsertionSortSorted(cs, CategoryLeq);
      InsertionSortPermutes(cs, CategoryLeq);
      var sorted := a[..];
      PermutedLoaded(ks, cs, sorted);
      return Ok(sorted);
    }

    /** The categories with the ids `ks`, each loaded by docToCategory. */
    method LoadAll(ks: seq<string>) returns (cs: seq<Category>)
      requires forall k :: k in ks ==> k in categories
      ensures |cs| == |ks|
      ensures forall j :: 0 <= j < |ks| ==> cs[j].Id() == ks[j] && Holds(cs[j])
    {
      cs := [];
      for i := 0 to |ks|
        invariant |cs| == i
        invariant forall j :: 0 <= j < i ==> cs[j].Id() == ks[j] && Holds(cs[j])
      {
        var c := DocToCategory(ks[i], categories[ks[i]], ItemsOf(ks[i]));
        cs := cs + [c];
      }
    }

    /** A reordering of the loaded categories still loads them all. */
    lemma PermutedLoaded(ks: seq<string>, cs: seq<Category>, sorted: seq<Category>)
      requires |ks| == |categories| && forall k :: k in ks <==> k in categories
      requires |cs| == |ks| && forall j :: 0 <= j < |ks| ==> cs[j].Id() == ks[j] && Holds(cs[j])
      requires multiset(sorted) == multiset(cs)
      ensures AllLoaded(sorted)
    {
      assert |sorted| == |multiset(sorted)| == |cs|;
      forall i | 0 <= i < |sorted|
        ensures Holds(sorted[i])
      {
        assert sorted[i] in multiset(cs);
        var j :| 0 <= j < |cs| && cs[j] == sorted[i];
      }
      forall k | k in categories
        ensures k in CategoryIds(sorted)
      {
        var j :| 0 <= j < |ks| && ks[j] == k;
        assert cs[j] in multiset(sorted);
        var i :| 0 <= i < |sorted| && sorted[i] == cs[j];
        CategoryIdsHas(sorted, i);
      }
    }

    /** getCategory: None exactly when no category document has that id. */
    method GetCategory(id: string, outcome: Outcome) returns (r: Result<Option<Category>>)
      ensures outcome.Failed? ==> r == Err(outcome.message)
      ensures outcome.Done? ==> r.Ok? && (r.value.None? <==> id !in categories)
      ensures r.Ok? && r.value.Some? ==>
        id in categories && Loaded(r.value.value, id, categories[id], ItemsOf(id))
    {
      if outcome.Failed? {
        return Err(outcome.message);
      }
      if id !in categories {
        return Ok(None);
      }
      var c := DocToCategory(id, categories[id], ItemsOf(id));
      return Ok(Some(c));
    }

    /** createCategory: a new document under a fresh id, created and updated
        at `now`. */
    method CreateCategory(data: CategoryData, now: int, outcome: Outcome) returns (r: Result<string>)
      modifies this
      ensures outcome.Failed? ==> r == Err(outcome.message) && unchanged(this)
      ensures outcome.Done? ==> r.Ok? && r.value !in old(categories) && r.value !in old(items)
      ensures outcome.Done? ==>
        categories == old(categories)[r.value := Stored(data, Timestamp(now), Timestamp(now))]
      ensures items == old(items)
    {
      if outcome.Failed? {
        return Err(outcome.message);
      }
      var id := FreshId(categories.Keys + items.Keys);
      categories := categories[id := Stored(data, Timestamp(now), Timestamp(now))];
      return Ok(id);
    }

    /** updateCategory: the supplied fields and updatedAt are written;
        createdAt and the other fields keep their values. */
    method UpdateCategory(id: string, patch: CategoryPatch, now: int, outcome: Outcome) returns (r: Result<()>)
      modifies this
      ensures outcome.Failed? ==> r == Err(outcome.message)
      ensures outcome.Done? && id !in old(categories) ==> r == Err(NotFound)
      ensures r.Err? ==> unchanged(this)
      ensures r.Ok? <==> outcome.Done? && id in old(categories)
      ensures r.Ok? ==> categories == old(categories)[id :=
        Stored(PatchCategory(old(categories)[id].fields, patch), old(categories)[id].createdAt, Timestamp(now))]
      ensures items == old(items)
    {
      if outcome.Failed? {
        return Err(outcome.message);
      }
      if id !in categories {
        return Err(NotFound);
      }
      var s := categories[id];
      categories := categories[id := Stored(PatchCategory(s.fields, patch), s.createdAt, Timestamp(now))];
      return Ok(());
    }

    /** deleteCategory: lists the category's items, deletes them, then
        deletes the category. `listing` ends the listing call; the item ids
        in `failing` are those whose delete fails, with `itemError`; `outcome`
        ends the final delete. The deletes of one batch run to completion
        even when one of them fails, but a failure stops the category delete. */
    method DeleteCategory(id: string, listing: Outcome, failing: set<string>, itemError: string, outcome: Outcome)
      returns (r: Result<()>)
      modifies this
      ensures listing.Failed? ==> r == Err(listing.message) && unchanged(this)
      ensures listing.Done? ==> ItemsOf(id) == map k | k in old(ItemsOf(id)) && k in failing :: old(ItemsOf(id))[k]
      ensures forall c :: c != id ==> ItemsIn(items, c) == ItemsIn(old(items), c)
      ensures r.Ok? <==> listing.Done? && failing * old(ItemsOf(id)).Keys == {} && outcome.Done?
      ensures r.Ok? ==> categories == old(categories) - {id} && ItemsOf(id) == map[]
      ensures r.Err? ==> categories == old(categories)
      ensures listing.Done? && failing * old(ItemsOf(id)).Keys != {} ==> r == Err(itemError)
      ensures listing.Done? && failing * old(ItemsOf(id)).Keys == {} && outcome.Failed? ==> r == Err(outcome.message)
    {
      if listing.Failed? {
        return Err(listing.message);
      }
      var docs := ItemsOf(id);
      var kept := map k | k in docs && k in failing :: docs[k];
      items := items[id := kept];
      if failing * docs.Keys != {} {
        return Err(itemError);
      }
      assert forall k :: k !in kept by {
        forall k | k in kept ensures k in failing * docs.Keys { }
      }
      assert kept == map[];
      if outcome.Failed? {
        return Err(outcome.message);
      }
      categories := categories - {id};
      return Ok(());
    }

    /** createItem: a new document under a fresh id in the items of
        `categoryId`, whether or not that category document exists. */
    method CreateItem(categoryId: string, data: MenuItemData, now: int, outcome: Outcome)
      returns (r: Result<string>)
      modifies this
      ensures outcome.Failed? ==> r == Err(outcome.message) && unchanged(this)
      ensures outcome.Done? ==> r.Ok? && r.value !in old(ItemsOf(categoryId))
      ensures outcome.Done? ==>
        ItemsOf(categoryId) == old(ItemsOf(categoryId))[r.value := Stored(data, Timestamp(now), Timestamp(now))]
      ensures categories == old(categories)
      ensures forall c :: c != categoryId ==> ItemsIn(items, c) == ItemsIn(old(items), c)
    {
      if outcome.Failed? {
        return Err(outcome.message);
      }
      var docs := ItemsOf(categoryId);
      var id := FreshId(docs.Keys);
      items := items[categoryId := docs[id := Stored(data, Timestamp(now), Timestamp(now))]];
      return Ok(id);
    }

    /** updateItem: the supplied fields and updatedAt are written; a missing
        item document fails with not-found. */
    method UpdateItem(categoryId: string, itemId: string, patch: ItemPatch, now: int, outcome: Outcome)
      returns (r: Result<()>)
      modifies this
      ensures outcome.Failed? ==> r == Err(outcome.message)
      ensures outcome.Done? && itemId !in old(ItemsOf(categoryId)) ==> r == Err(NotFound)
      ensures r.Err? ==> unchanged(this)
      ensures r.Ok? <==> outcome.Done? && itemId in old(ItemsOf(categoryId))
      ensures r.Ok? ==> ItemsOf(categoryId) == old(ItemsOf(categoryId))[itemId :=
        Stored(PatchItem(old(ItemsOf(categoryId))[itemId].fields, patch),
               old(ItemsOf(categoryId))[itemId].createdAt, Timestamp(now))]
      ensures categories == old(categories)
      ensures forall c :: c != categoryId ==> ItemsIn(items, c) == ItemsIn(old(items), c)
    {
      if outcome.Failed? {
        return Err(outcome.message);
      }
      var docs := ItemsOf(categoryId);
      if itemId !in docs {
        return Err(NotFound);
      }
      var s := docs[itemId];
      items := items[categoryId := docs[itemId := Stored(PatchItem(s.fields, patch), s.createdAt, Timestamp(now))]];
      return Ok(());
    }

    /** deleteItem: removes the item document; deleting a missing one
        succeeds. */
    method DeleteItem(categoryId: string, itemId: string, outcome: Outcome) returns (r: Result<()>)
      modifies this
      ensures outcome.Failed? ==> r == Err(outcome.message) && unchanged(this)
      ensures outcome.Done? ==> r.Ok? && ItemsOf(categoryId) == old(ItemsOf(categoryId)) - {itemId}
      ensures categories == old(categories)
      ensures forall c :: c != categoryId ==> ItemsIn(items, c) == ItemsIn(old(items), c)
    {
      if outcome.Failed? {
        return Err(outcome.message);
      }
      items := items[categoryId := ItemsOf(categoryId) - {itemId}];
      return Ok(());
    }
  }
}
