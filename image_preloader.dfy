// The list of images fetched ahead when the menu loads
// (src/utils/imagePreloader.ts): three fixed pictures, then the first
// category's main image and the images of its first four items. Loading the
// images is not modelled.

module ImagePreloader {
  import opened Types
  import JsArray

  const FixedImages: seq<string> := [
    "/images/Section1/hero-background.png",
    "/images/Section1/hero-background-mobile.png",
    "/images/Section1/logo.png"]

  /** How many of the first category's items are looked at. */
  const ItemsConsidered: nat := 4

  /** The non-empty images of `items`, in item order. */
  function ItemImages(items: seq<MenuItem>): (r: seq<string>)
    ensures |r| <= |items|
    ensures forall x :: x in r ==> x != ""
  {
    if items == [] then []
    else
      var last := items[|items| - 1];
      ItemImages(items[..|items| - 1]) + (if last.fields.image != "" then [last.fields.image] else [])
  }

  /** An image is listed exactly when some item has it and it is not empty. */
  lemma {:induction false} ItemImagesMembers(items: seq<MenuItem>, x: string)
    ensures x in ItemImages(items) <==> x != "" && exists i :: 0 <= i < |items| && items[i].fields.image == x
  {
    if items != [] {
      var init := items[..|items| - 1];
      ItemImagesMembers(init, x);
      if x != "" && (exists i :: 0 <= i < |init| && init[i].fields.image == x) {
        var i :| 0 <= i < |init| && init[i].fields.image == x;
        assert items[i] == init[i];
      }
      if x != "" && (exists i :: 0 <= i < |items| && items[i].fields.image == x) {
        var i :| 0 <= i < |items| && items[i].fields.image == x;
        if i < |init| {
          assert init[i] == items[i];
        }
      }
    }
  }

  /** The first four items of the first category (`items.slice(0, 4)`),
      none when there is no category. */
  function LeadingItems(categories: seq<Category>): (r: seq<MenuItem>)
    ensures |r| <= ItemsConsidered
    ensures categories == [] ==> r == []
    ensures categories != [] ==> r <= categories[0].ItemsOrEmpty()
  {
    if categories == [] then []
    else
      var items := categories[0].ItemsOrEmpty();
      JsArray.SliceFromStart(items, 0, ItemsConsidered);
      JsArray.Slice(items, 0, ItemsConsidered)
  }

  /** The list preloadCriticalImages builds, as a value. */
  function CriticalImages(categories: seq<Category>): seq<string>
  {
    FixedImages
    + (if categories != [] && categories[0].MainImage() != "" then [categories[0].MainImage()] else [])
    + ItemImages(LeadingItems(categories))
  }

  /** The fixed pictures come first, there are between three and eight
      entries, and with no category there are only the fixed pictures. */
  lemma CriticalImagesShape(categories: seq<Category>)
    ensures CriticalImages(categories)[..3] == FixedImages
    ensures 3 <= |CriticalImages(categories)| <= 8
    ensures categories == [] ==> CriticalImages(categories) == FixedImages
  {
  }

  /** After the fixed pictures, an entry is either the first category's main
      image or the image of one of its first four items, and none is empty. */
  lemma CriticalImagesSources(categories: seq<Category>, k: nat)
    requires 3 <= k < |CriticalImages(categories)|
    ensures categories != []
    ensures var x := CriticalImages(categories)[k];
      && x != ""
      && (x == categories[0].MainImage()
          || exists i :: 0 <= i < |categories[0].ItemsOrEmpty()| && i < ItemsConsidered
                          && categories[0].ItemsOrEmpty()[i].fields.image == x)
  {
    var x := CriticalImages(categories)[k];
    var lead := LeadingItems(categories);
    var main := if categories != [] && categories[0].MainImage() != "" then [categories[0].MainImage()] else [];
    assert CriticalImages(categories) == (FixedImages + main) + ItemImages(lead);
    if k >= 3 + |main| {
      assert x == ItemImages(lead)[k - 3 - |main|];
      ItemImagesMembers(lead, x);
      var i :| 0 <= i < |lead| && lead[i].fields.image == x;
      assert lead[i] == categories[0].ItemsOrEmpty()[i];
    }
  }

  /** preloadCriticalImages: the fixed list, then the pushes, one by one. */
  method PreloadCriticalImages(categories: seq<Category>) returns (criticalImages: seq<string>)
    ensures criticalImages == CriticalImages(categories)
  {
    criticalImages := FixedImages;
    if |categories| > 0 && categories[0].MainImage() != "" {
      criticalImages := criticalImages + [categories[0].MainImage()];
    }
    if |categories| > 0 && categories[0].items.Some? {
      var items := categories[0].items.value;
      var lead := JsArray.Slice(items, 0, ItemsConsidered);
      assert lead == LeadingItems(categories);
      ghost var before := criticalImages;
      var i := 0;
      while i < |lead|
        invariant 0 <= i <= |lead|
        invariant criticalImages == before + ItemImages(lead[..i])
      {
        assert lead[..i + 1][..i] == lead[..i];
        if lead[i].fields.image != "" {
          criticalImages := criticalImages + [lead[i].fields.image];
        }
        i := i + 1;
      }
      assert lead[..i] == lead;
    }
  }
}
