// Records shared by the menu site: categories, menu items and ratings, as the
// document store holds them and as the pages receive them
// (src/types/category.ts, src/types/menuItem.ts, src/types/rating.ts).

module Types {

  datatype Option<T> = None | Some(value: T)

  /** An operation that either yields a value or fails with the message of the
      Error the source throws. */
  datatype Result<T> = Ok(value: T) | Err(message: string)

  /** A text given in both site languages. */
  datatype Localized = Localized(en: string, ar: string)

  /** A createdAt/updatedAt value: absent, a store Timestamp, or (after
      conversion for the pages) a Date; both carry milliseconds since the epoch. */
  datatype Stamp = Missing | Timestamp(millis: int) | Date(millis: int)
  {
    /** The instant a stamp denotes, whatever its representation. */
    function Instant(): Option<int>
    {
      if Missing? then None else Some(millis)
    }
  }

  /** How one call into the remote store or bucket ends: it completes, or it
      fails with the SDK's error message. */
  datatype Outcome = Done | Failed(message: string)

  /** How an awaited page handler ends: it returns, or it rethrows the error
      it caught, with that error's message. */
  datatype Ending = Returned | Threw(message: string)

  /** `err.message || fallback`: the text a page shows for a caught error. */
  function ErrorText(message: string, fallback: string): (text: string)
    ensures text != "" || fallback == ""
    ensures message != "" ==> text == message
  {
    if message != "" then message else fallback
  }

  /** MenuItemData: an item without its id and timestamps. The size prices
      priceM, priceL and priceLiter are written by the item form although the
      declared type lists only price. Prices are JS numbers, kept exact here. */
  datatype MenuItemData = MenuItemData(
    order: int,
    name: Localized,
    image: string,
    price: Option<real>,
    priceM: Option<real>,
    priceL: Option<real>,
    priceLiter: Option<real>)

  /** CategoryData: a category without id, items and timestamps. extras is
      written by the category form although the declared type lacks it. */
  datatype CategoryData = CategoryData(
    order: int,
    mainImage: string,
    title: Localized,
    description: Localized,
    tagline: Option<Localized>,
    extras: Option<Localized>)

  /** The fields of one stored document, without its id (the id is the key
      under which the store keeps it). */
  datatype Stored<F> = Stored(fields: F, createdAt: Stamp, updatedAt: Stamp)

  /** A document as the pages see it: its id followed by its stored fields. */
  datatype Doc<F> = Doc(id: string, fields: F, createdAt: Stamp, updatedAt: Stamp)

  type MenuItem = Doc<MenuItemData>

  /** A category with the items of its nested collection, when they were loaded. */
  datatype Category = Category(doc: Doc<CategoryData>, items: Option<seq<MenuItem>>)
  {
    function Id(): string { doc.id }
    function Order(): int { doc.fields.order }
    function MainImage(): string { doc.fields.mainImage }
    /** `category.items || []` */
    function ItemsOrEmpty(): seq<MenuItem> { if items.Some? then items.value else [] }
  }

  /** A rating as the admin pages receive it. */
  datatype Rating = Rating(id: string, rating: int, feedback: string, createdAt: int, userAgent: Option<string>)

  /** What the rating page submits. */
  datatype RatingInput = RatingInput(rating: int, feedback: string)
}
