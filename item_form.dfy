// The admin form for a menu item (src/components/Admin/ItemForm.tsx): its
// initial field values and category, the validation that fills the error map,
// the category selector and the submit guard. The image picker and the
// rendering are not modelled.

module ItemForm {
  import opened Types
  import opened Text
  import opened FormFields
  import StorageService

  const NameLimit: nat := 65

  const CategoryRequired := "Category is required"
  const OrderTooSmall := "Order must be at least 1"

  /** The keys validate may record an error under: category, nameEn, nameAr,
      order, price, priceM, priceL and priceLiter. */
  datatype Field = CategoryKey | NameEn | NameAr | OrderKey | PriceKey | PriceMKey | PriceLKey | PriceLiterKey

  const Fields: set<Field> := {CategoryKey, NameEn, NameAr, OrderKey, PriceKey, PriceMKey, PriceLKey, PriceLiterKey}

  /** The error validate records under one key, if any, for the selected
      category id and the form data. */
  function FieldError(category: string, d: MenuItemData, key: Field): Option<string>
  {
    match key
    case CategoryKey => if category == "" then Some(CategoryRequired) else None
    case NameEn => RequiredError(d.name.en, NameLimit, "English name is required", "Name")
    case NameAr => RequiredError(d.name.ar, NameLimit, "Arabic name is required", "Name")
    case OrderKey => if d.order < 1 then Some(OrderTooSmall) else None
    case PriceKey => PriceError(d.price, "Price cannot be negative")
    case PriceMKey => PriceError(d.priceM, "Price M cannot be negative")
    case PriceLKey => PriceError(d.priceL, "Price L cannot be negative")
    case PriceLiterKey => PriceError(d.priceLiter, "Price Liter cannot be negative")
  }

  /** The error map validate leaves: one entry per field that fails its
      rule, holding that rule's message. */
  function Errors(category: string, d: MenuItemData): map<Field, string>
  {
    map k | k in Fields && FieldError(category, d, k).Some? :: FieldError(category, d, k).value
  }

  /** Every field's rule outcome, keyed by the field, in the order validate
      checks them. */
  function Table(category: string, d: MenuItemData): map<Field, Option<string>>
  {
    map k | k in Fields :: FieldError(category, d, k)
  }

  /** Collecting the table gives the error map. */
  lemma TableCollects(category: string, d: MenuItemData)
    ensures Collected(Table(category, d), Fields) == Errors(category, d)
  {
    var t := Table(category, d);
    forall k | k in Fields ensures k in t && t[k] == FieldError(category, d, k) {
      match k
      case CategoryKey =>
      case NameEn =>
      case NameAr =>
      case OrderKey =>
      case PriceKey =>
      case PriceMKey =>
      case PriceLKey =>
      case PriceLiterKey =>
    }
  }

  /** The error map holds one entry per field that fails its rule, holding
      that rule's message. */
  lemma ErrorsMeaning(category: string, d: MenuItemData, k: Field)
    ensures k in Errors(category, d) <==> FieldError(category, d, k).Some?
    ensures k in Errors(category, d) ==> Errors(category, d)[k] == FieldError(category, d, k).value
  {
    assert k in Fields by { match k case _ => }
  }

  /** Every rule of the form, stated field by field. */
  predicate Acceptable(category: string, d: MenuItemData)
  {
    && category != ""
    && !AllSpaces(d.name.en) && Utf16Length(d.name.en) <= NameLimit
    && !AllSpaces(d.name.ar) && Utf16Length(d.name.ar) <= NameLimit
    && d.order >= 1
    && (d.price.Some? ==> d.price.value >= 0.0)
    && (d.priceM.Some? ==> d.priceM.value >= 0.0)
    && (d.priceL.Some? ==> d.priceL.value >= 0.0)
    && (d.priceLiter.Some? ==> d.priceLiter.value >= 0.0)
  }

  /** The error map is empty exactly when no field has an error. */
  lemma NoErrorsIffEveryRule(category: string, d: MenuItemData)
    ensures Errors(category, d) == map[] <==>
      && category != ""
      && FieldError(category, d, NameEn).None? && FieldError(category, d, NameAr).None?
      && d.order >= 1
      && FieldError(category, d, PriceKey).None? && FieldError(category, d, PriceMKey).None?
      && FieldError(category, d, PriceLKey).None? && FieldError(category, d, PriceLiterKey).None?
  {
    if Errors(category, d) == map[] {
      ErrorsMeaning(category, d, CategoryKey);
      ErrorsMeaning(category, d, NameEn);
      ErrorsMeaning(category, d, NameAr);
      ErrorsMeaning(category, d, OrderKey);
      ErrorsMeaning(category, d, PriceKey);
      ErrorsMeaning(category, d, PriceMKey);
      ErrorsMeaning(category, d, PriceLKey);
      ErrorsMeaning(category, d, PriceLiterKey);
    } else {
      var k :| k in Errors(category, d);
      ErrorsMeaning(category, d, k);
    }
  }

  /** validate returns true exactly when every rule holds. */
  lemma NoErrorsIffAcceptable(category: string, d: MenuItemData)
    ensures Errors(category, d) == map[] <==> Acceptable(category, d)
  {
    NoErrorsIffEveryRule(category, d);
  }

  /** A price is rejected only when present and negative: an absent price,
      and a price of 0, are accepted. */
  lemma PriceRule(category: string, d: MenuItemData)
    ensures PriceKey in Errors(category, d) <==> d.price.Some? && d.price.value < 0.0
    ensures d.price == Some(0.0) ==> PriceKey !in Errors(category, d)
  {
    ErrorsMeaning(category, d, PriceKey);
  }

  /** With no category selected, the category error is recorded whatever
      else the form holds. */
  lemma CategoryRule(d: MenuItemData)
    ensures CategoryKey in Errors("", d) && Errors("", d)[CategoryKey] == CategoryRequired
  {
    ErrorsMeaning("", d, CategoryKey);
  }

  /** The image plays no part in validation. */
  lemma ImageNotChecked(category: string, d: MenuItemData, image: string)
    ensures Errors(category, d.(image := image)) == Errors(category, d)
  {
    var e := d.(image := image);
    forall k ensures FieldError(category, e, k) == FieldError(category, d, k) {
      match k
      case CategoryKey =>
      case NameEn =>
      case NameAr =>
      case OrderKey =>
      case PriceKey =>
      case PriceMKey =>
      case PriceLKey =>
      case PriceLiterKey =>
    }
  }

  /** The submit guard's own category test never rejects what validate
      accepted: validate already requires a category. */
  lemma SecondGuardFollows(category: string, d: MenuItemData)
    requires Errors(category, d) == map[]
    ensures category != ""
  {
    ErrorsMeaning(category, d, CategoryKey);
  }

  /** The item an edit form starts from: the item and the category it is in. */
  datatype Editing = Editing(item: MenuItem, categoryId: string)

  /** The form's first state: `|| 1` for the order, `|| ''` for the image and
      the names, and the prices as they are. */
  function InitialForm(initial: Option<Editing>): (d: MenuItemData)
    ensures initial.None? ==> d == MenuItemData(1, Localized("", ""), "", None, None, None, None)
    ensures initial.Some? ==> && d.name == initial.value.item.fields.name
                              && d.image == initial.value.item.fields.image
                              && d.price == initial.value.item.fields.price
    ensures initial.Some? ==> && d.priceM == initial.value.item.fields.priceM
                              && d.priceL == initial.value.item.fields.priceL
                              && d.priceLiter == initial.value.item.fields.priceLiter
    ensures initial.Some? && initial.value.item.fields.order != 0 ==> d.order == initial.value.item.fields.order
    ensures initial.Some? && initial.value.item.fields.order == 0 ==> d.order == 1
    ensures d.order != 0
  {
    if initial.None? then MenuItemData(1, Localized("", ""), "", None, None, None, None)
    else
      var d := initial.value.item.fields;
      d.(order := if d.order != 0 then d.order else 1)
  }

  /** The first selected category: `initialData?.categoryId || categories[0]?.id || ''`. */
  function InitialCategory(initial: Option<Editing>, categories: seq<Category>): (c: string)
    ensures initial.Some? && initial.value.categoryId != "" ==> c == initial.value.categoryId
    ensures (initial.None? || initial.value.categoryId == "") && |categories| > 0 ==> c == categories[0].Id()
    ensures (initial.None? || initial.value.categoryId == "") && |categories| == 0 ==> c == ""
  {
    if initial.Some? && initial.value.categoryId != "" then initial.value.categoryId
    else if |categories| > 0 then categories[0].Id()
    else ""
  }

  /** A new item whose category list is not empty starts on the first
      category; with an empty list nothing is selected and validate reports
      the missing category. */
  lemma NewFormCategory(categories: seq<Category>)
    ensures |categories| > 0 ==> InitialCategory(None, categories) == categories[0].Id()
    ensures |categories| == 0 ==> CategoryKey in Errors(InitialCategory(None, categories), InitialForm(None))
  {
    if |categories| == 0 {
      CategoryRule(InitialForm(None));
    }
  }

  /** A new item starts with order 1, which validate accepts; the create
      form shows no order input, so that is the order it is saved with. */
  lemma NewFormOrder(category: string)
    ensures InitialForm(None).order == 1
    ensures OrderKey !in Errors(category, InitialForm(None))
  {
    ErrorsMeaning(category, InitialForm(None), OrderKey);
  }

  const LeadFields: set<Field> := {CategoryKey, NameEn, NameAr, OrderKey}
  const PriceFields: set<Field> := {PriceKey, PriceMKey, PriceLKey, PriceLiterKey}

  /** validate's checks of the category, the two names and the order. */
  method CheckLead(c: string, d: MenuItemData, ghost t: map<Field, Option<string>>) returns (m: map<Field, string>)
    requires t == Table(c, d)
    ensures Holds(m, t, LeadFields)
  {
    ghost var checked: set<Field> := {};
    m := map[];
    if c == "" {
      m := m[CategoryKey := CategoryRequired];
    }
    CollectStep(map[], m, t, checked, CategoryKey);
    checked := checked + {CategoryKey};
    m := CheckRequired(m, NameEn, d.name.en, NameLimit, "English name is required", "Name", t, checked);
    checked := checked + {NameEn};
    m := CheckRequired(m, NameAr, d.name.ar, NameLimit, "Arabic name is required", "Name", t, checked);
    checked := checked + {NameAr};
    ghost var before := m;
    if d.order < 1 {
      m := m[OrderKey := OrderTooSmall];
    }
    CollectStep(before, m, t, checked, OrderKey);
    assert checked + {OrderKey} == LeadFields;
  }

  /** validate's checks of the four prices, after the others. */
  method CheckPrices(c: string, d: MenuItemData, ghost t: map<Field, Option<string>>, m0: map<Field, string>)
    returns (m: map<Field, string>)
    requires t == Table(c, d) && Holds(m0, t, LeadFields)
    ensures Holds(m, t, Fields)
  {
    ghost var checked := LeadFields;
    m := CheckPrice(m0, PriceKey, d.price, "Price cannot be negative", t, checked);
    checked := checked + {PriceKey};
    m := CheckPrice(m, PriceMKey, d.priceM, "Price M cannot be negative", t, checked);
    checked := checked + {PriceMKey};
    m := CheckPrice(m, PriceLKey, d.priceL, "Price L cannot be negative", t, checked);
    checked := checked + {PriceLKey};
    m := CheckPrice(m, PriceLiterKey, d.priceLiter, "Price Liter cannot be negative", t, checked);
    assert checked + {PriceLiterKey} == Fields;
  }

  /** What handleSubmit passes to onSubmit. */
  datatype Submission = Submission(categoryId: string, data: MenuItemData, imageFile: Option<StorageService.File>)

  /** The form's state. */
  class Form {
    var formData: MenuItemData
    var selectedCategoryId: string
    var imageFile: Option<StorageService.File>
    var errors: map<Field, string>
    /** `!!initialData` */
    const isEditMode: bool
    /** Whether the parent passed onCategoryChange. */
    const notifiesParent: bool

    /** Mounting the form: the first state, then, in edit mode, the effect
        that copies the item's fields and category as they are. */
    constructor (categories: seq<Category>, initial: Option<Editing>, onCategoryChange: bool)
      ensures isEditMode == initial.Some? && notifiesParent == onCategoryChange
      ensures formData == (if initial.Some? then initial.value.item.fields else InitialForm(None))
      ensures selectedCategoryId ==
        (if initial.Some? then initial.value.categoryId else InitialCategory(None, categories))
      ensures imageFile.None? && errors == map[]
    {
      isEditMode := initial.Some?;
      notifiesParent := onCategoryChange;
      formData := InitialForm(initial);
      selectedCategoryId := InitialCategory(initial, categories);
      imageFile := None;
      errors := map[];
      if initial.Some? {
        formData := initial.value.item.fields;
        selectedCategoryId := initial.value.categoryId;
      }
    }

    /** The category selector's onChange: the selection always follows, and
        the parent hears of it only in create mode. */
    method ChangeCategory(value: string) returns (notified: Option<string>)
      modifies this
      ensures selectedCategoryId == value
      ensures notified.Some? <==> notifiesParent && !isEditMode
      ensures notified.Some? ==> notified.value == value
      ensures formData == old(formData) && imageFile == old(imageFile) && errors == old(errors)
    {
      selectedCategoryId := value;
      notified := None;
      if notifiesParent && !isEditMode {
        notified := Some(value);
      }
    }

    /** validate: records an error for each failing field, replacing the old
        error map, and answers whether there were none. */
    method Validate() returns (ok: bool)
      modifies this
      ensures errors == Errors(selectedCategoryId, formData)
      ensures ok <==> errors == map[]
      ensures formData == old(formData) && selectedCategoryId == old(selectedCategoryId)
      ensures imageFile == old(imageFile)
    {
      var c := selectedCategoryId;
      var d := formData;
      ghost var t := Table(c, d);
      var newErrors := CheckLead(c, d, t);
      newErrors := CheckPrices(c, d, t, newErrors);
      TableCollects(c, d);
      errors := newErrors;
      return |newErrors| == 0;
    }

    /** handleSubmit: onSubmit receives the selected category, the form data
        and the chosen file only when validate passes and a category is
        selected; a failure inside onSubmit is only logged. */
    method HandleSubmit() returns (submitted: Option<Submission>)
      modifies this
      ensures submitted.Some? <==> Acceptable(selectedCategoryId, formData)
      ensures submitted.Some? ==> submitted.value == Submission(selectedCategoryId, formData, imageFile)
      ensures submitted.Some? ==> submitted.value.categoryId != ""
      ensures errors == Errors(selectedCategoryId, formData)
      ensures formData == old(formData) && selectedCategoryId == old(selectedCategoryId)
      ensures imageFile == old(imageFile)
    {
      var ok := Validate();
      NoErrorsIffAcceptable(selectedCategoryId, formData);
      if !ok {
        return None;
      }
      if selectedCategoryId == "" {
        return None;
      }
      return Some(Submission(selectedCategoryId, formData, imageFile));
    }
  }
}
