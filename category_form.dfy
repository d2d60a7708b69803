// The admin form for a category (src/components/Admin/CategoryForm.tsx): its
// initial field values, the validation that fills the error map, and the
// submit guard. The image picker and the rendering are not modelled.

module CategoryForm {
  import opened Types
  import opened Text
  import opened FormFields
  import StorageService

  const TitleLimit: nat := 20
  const DescriptionLimit: nat := 180
  const ExtrasLimit: nat := 150
  const TaglineLimit: nat := 25

  const OrderTooSmall := "Order must be at least 1"

  /** The keys validate may record an error under: titleEn, titleAr,
      descriptionEn, descriptionAr, extrasEn, extrasAr, taglineEn, taglineAr
      and order. */
  datatype Field = TitleEn | TitleAr | DescriptionEn | DescriptionAr
                 | ExtrasEn | ExtrasAr | TaglineEn | TaglineAr | OrderField


  function EnOf(l: Option<Localized>): Option<string>
  {
    if l.Some? then Some(l.value.en) else None
  }

  function ArOf(l: Option<Localized>): Option<string>
  {
    if l.Some? then Some(l.value.ar) else None
  }

  /** The error validate records under one key, if any. */
  function FieldError(f: CategoryData, key: Field): Option<string>
  {
    match key
    case TitleEn => RequiredError(f.title.en, TitleLimit, "English title is required", "Title")
    case TitleAr => RequiredError(f.title.ar, TitleLimit, "Arabic title is required", "Title")
    case DescriptionEn =>
      RequiredError(f.description.en, DescriptionLimit, "English description is required", "Description")
    case DescriptionAr =>
      RequiredError(f.description.ar, DescriptionLimit, "Arabic description is required", "Description")
    case ExtrasEn => OptionalError(EnOf(f.extras), ExtrasLimit, "Extras")
    case ExtrasAr => OptionalError(ArOf(f.extras), ExtrasLimit, "Extras")
    case TaglineEn => OptionalError(EnOf(f.tagline), TaglineLimit, "Tagline")
    case TaglineAr => OptionalError(ArOf(f.tagline), TaglineLimit, "Tagline")
    case OrderField => if f.order < 1 then Some(OrderTooSmall) else None
  }

  const Fields: set<Field> := {TitleEn, TitleAr, DescriptionEn, DescriptionAr,
    ExtrasEn, ExtrasAr, TaglineEn, TaglineAr, OrderField}

  /** The error map validate leaves: one entry per field that fails its
      rule, holding that rule's message. */
  function Errors(f: CategoryData): map<Field, string>
  {
    map k | k in Fields && FieldError(f, k).Some? :: FieldError(f, k).value
  }

  /** Every field's rule outcome, keyed by the field, in the order validate
      checks them. */
  function Table(f: CategoryData): map<Field, Option<string>>
  {
    map k | k in Fields :: FieldError(f, k)
  }

  /** The table holds each field's rule outcome, and collecting it gives the
      error map. */
  lemma TableCollects(f: CategoryData)
    ensures Collected(Table(f), Fields) == Errors(f)
  {
    var t := Table(f);
    forall k | k in Fields ensures k in t && t[k] == FieldError(f, k) {
      match k
      case TitleEn =>
      case TitleAr =>
      case DescriptionEn =>
      case DescriptionAr =>
      case ExtrasEn =>
      case ExtrasAr =>
      case TaglineEn =>
      case TaglineAr =>
      case OrderField =>
    }
  }

  /** The error map holds one entry per field that fails its rule, holding
      that rule's message. */
  lemma ErrorsMeaning(f: CategoryData, k: Field)
    ensures k in Errors(f) <==> FieldError(f, k).Some?
    ensures k in Errors(f) ==> Errors(f)[k] == FieldError(f, k).value
  {
    assert k in Fields by { match k case _ => }
  }

  /** Every rule of the form, stated field by field. */
  predicate Acceptable(f: CategoryData)
  {
    && !AllSpaces(f.title.en) && Utf16Length(f.title.en) <= TitleLimit
    && !AllSpaces(f.title.ar) && Utf16Length(f.title.ar) <= TitleLimit
    && !AllSpaces(f.description.en) && Utf16Length(f.description.en) <= DescriptionLimit
    && !AllSpaces(f.description.ar) && Utf16Length(f.description.ar) <= DescriptionLimit
    && (f.extras.Some? ==> Utf16Length(f.extras.value.en) <= ExtrasLimit && Utf16Length(f.extras.value.ar) <= ExtrasLimit)
    && (f.tagline.Some? ==> Utf16Length(f.tagline.value.en) <= TaglineLimit && Utf16Length(f.tagline.value.ar) <= TaglineLimit)
    && f.order >= 1
  }

  /** validate returns true exactly when every rule holds. */
  lemma NoErrorsIffAcceptable(f: CategoryData)
    ensures Errors(f) == map[] <==> Acceptable(f)
  {
    NoErrorsIffEveryRule(f);
    TitlesOk(f);
    DescriptionsOk(f);
    OptionalTextsOk(f);
  }

  /** The error map is empty exactly when no field has an error. */
  lemma NoErrorsIffEveryRule(f: CategoryData)
    ensures Errors(f) == map[] <==>
      && FieldError(f, TitleEn).None? && FieldError(f, TitleAr).None?
      && FieldError(f, DescriptionEn).None? && FieldError(f, DescriptionAr).None?
      && FieldError(f, ExtrasEn).None? && FieldError(f, ExtrasAr).None?
      && FieldError(f, TaglineEn).None? && FieldError(f, TaglineAr).None?
      && f.order >= 1
  {
    if Errors(f) == map[] {
      ErrorsMeaning(f, TitleEn);
      ErrorsMeaning(f, TitleAr);
      ErrorsMeaning(f, DescriptionEn);
      ErrorsMeaning(f, DescriptionAr);
      ErrorsMeaning(f, ExtrasEn);
      ErrorsMeaning(f, ExtrasAr);
      ErrorsMeaning(f, TaglineEn);
      ErrorsMeaning(f, TaglineAr);
      ErrorsMeaning(f, OrderField);
    } else {
      var k :| k in Errors(f);
      ErrorsMeaning(f, k);
    }
  }

  /** The two titles are required and at most TitleLimit long. */
  lemma TitlesOk(f: CategoryData)
    ensures FieldError(f, TitleEn).None? <==> !AllSpaces(f.title.en) && Utf16Length(f.title.en) <= TitleLimit
    ensures FieldError(f, TitleAr).None? <==> !AllSpaces(f.title.ar) && Utf16Length(f.title.ar) <= TitleLimit
  {
  }

  /** The two descriptions are required and at most DescriptionLimit long. */
  lemma DescriptionsOk(f: CategoryData)
    ensures FieldError(f, DescriptionEn).None? <==>
      !AllSpaces(f.description.en) && Utf16Length(f.description.en) <= DescriptionLimit
    ensures FieldError(f, DescriptionAr).None? <==>
      !AllSpaces(f.description.ar) && Utf16Length(f.description.ar) <= DescriptionLimit
  {
  }

  /** Extras and tagline may be absent or blank, but not too long. */
  lemma OptionalTextsOk(f: CategoryData)
    ensures FieldError(f, ExtrasEn).None? && FieldError(f, ExtrasAr).None? <==>
      (f.extras.Some? ==> Utf16Length(f.extras.value.en) <= ExtrasLimit && Utf16Length(f.extras.value.ar) <= ExtrasLimit)
    ensures FieldError(f, TaglineEn).None? && FieldError(f, TaglineAr).None? <==>
      (f.tagline.Some? ==> Utf16Length(f.tagline.value.en) <= TaglineLimit && Utf16Length(f.tagline.value.ar) <= TaglineLimit)
  {
  }

  /** The image is optional: it plays no part in validation. */
  lemma ImageNotChecked(f: CategoryData, image: string)
    ensures Errors(f.(mainImage := image)) == Errors(f)
  {
    var g := f.(mainImage := image);
    forall k ensures FieldError(g, k) == FieldError(f, k) {
      match k
      case TitleEn =>
      case TitleAr =>
      case DescriptionEn =>
      case DescriptionAr =>
      case ExtrasEn =>
      case ExtrasAr =>
      case TaglineEn =>
      case TaglineAr =>
      case OrderField =>
    }
  }

  /** An order below 1 is reported, and only then. */
  lemma OrderError(f: CategoryData)
    ensures OrderField in Errors(f) <==> f.order < 1
    ensures OrderField in Errors(f) ==> Errors(f)[OrderField] == OrderTooSmall
  {
    ErrorsMeaning(f, OrderField);
  }

  /** A blank title is reported as missing, whatever its length. */
  lemma BlankTitleRequired(f: CategoryData)
    requires AllSpaces(f.title.en)
    ensures TitleEn in Errors(f) && Errors(f)[TitleEn] == "English title is required"
  {
    ErrorsMeaning(f, TitleEn);
  }

  /** The form's first state: the initial category's fields with `|| 1` for
      the order and `|| ''` for every text, extras and tagline included. */
  function InitialForm(initial: Option<CategoryData>): (f: CategoryData)
    ensures initial.None? ==> f.order == 1 && f.mainImage == ""
    ensures initial.None? ==> f.title == Localized("", "") && f.description == Localized("", "")
    ensures initial.None? ==> f.extras == Some(Localized("", "")) && f.tagline == Some(Localized("", ""))
    ensures initial.Some? ==> f.title == initial.value.title && f.description == initial.value.description
    ensures initial.Some? ==> f.mainImage == initial.value.mainImage
    ensures initial.Some? && initial.value.order != 0 ==> f.order == initial.value.order
    ensures initial.Some? && initial.value.order == 0 ==> f.order == 1
    ensures initial.Some? && initial.value.extras.Some? ==> f.extras == initial.value.extras
    ensures initial.Some? && initial.value.extras.None? ==> f.extras == Some(Localized("", ""))
    ensures initial.Some? && initial.value.tagline.Some? ==> f.tagline == initial.value.tagline
    ensures initial.Some? && initial.value.tagline.None? ==> f.tagline == Some(Localized("", ""))
  {
    if initial.None? then
      CategoryData(1, "", Localized("", ""), Localized("", ""), Some(Localized("", "")), Some(Localized("", "")))
    else
      var d := initial.value;
      d.(order := if d.order != 0 then d.order else 1,
         extras := Some(if d.extras.Some? then d.extras.value else Localized("", "")),
         tagline := Some(if d.tagline.Some? then d.tagline.value else Localized("", "")))
  }

  /** The state the effect on initialData sets: the stored order as is, and
      empty texts for a missing extras or tagline. */
  function SyncedForm(d: CategoryData): (f: CategoryData)
    ensures f.order == d.order && f.mainImage == d.mainImage
    ensures f.title == d.title && f.description == d.description
    ensures d.extras.Some? ==> f.extras == d.extras
    ensures d.extras.None? ==> f.extras == Some(Localized("", ""))
    ensures d.tagline.Some? ==> f.tagline == d.tagline
    ensures d.tagline.None? ==> f.tagline == Some(Localized("", ""))
  {
    d.(extras := Some(if d.extras.Some? then d.extras.value else Localized("", "")),
       tagline := Some(if d.tagline.Some? then d.tagline.value else Localized("", "")))
  }

  /** The effect agrees with the first state except for a stored order of 0,
      which the first state shows as 1 and the effect puts back. */
  lemma EffectDiffersOnlyForOrderZero(d: CategoryData)
    ensures InitialForm(Some(d)) == SyncedForm(d) <==> d.order != 0
  {
    if d.order == 0 {
      assert InitialForm(Some(d)).order == 1;
    } else {
      assert InitialForm(Some(d)) == SyncedForm(d);
    }
  }

  /** A new category starts with order 1 and, its texts still empty, is not
      yet acceptable. */
  lemma NewFormDefaults()
    ensures InitialForm(None).order == 1
    ensures OrderField !in Errors(InitialForm(None))
    ensures TitleEn in Errors(InitialForm(None)) && Errors(InitialForm(None))[TitleEn] == "English title is required"
  {
    BlankTitleRequired(InitialForm(None));
    OrderError(InitialForm(None));
  }

  const TextFields: set<Field> := {TitleEn, TitleAr, DescriptionEn, DescriptionAr}
  const OptionalFields: set<Field> := {ExtrasEn, ExtrasAr, TaglineEn, TaglineAr}

  /** validate's checks of the two titles and the two descriptions. */
  method CheckTexts(f: CategoryData, ghost t: map<Field, Option<string>>) returns (m: map<Field, string>)
    requires t == Table(f)
    ensures Holds(m, t, TextFields)
  {
    ghost var checked: set<Field> := {};
    m := CheckRequired(map[], TitleEn, f.title.en, TitleLimit, "English title is required", "Title", t, checked);
    checked := checked + {TitleEn};
    m := CheckRequired(m, TitleAr, f.title.ar, TitleLimit, "Arabic title is required", "Title", t, checked);
    checked := checked + {TitleAr};
    m := CheckRequired(m, DescriptionEn, f.description.en, DescriptionLimit,
      "English description is required", "Description", t, checked);
    checked := checked + {DescriptionEn};
    m := CheckRequired(m, DescriptionAr, f.description.ar, DescriptionLimit,
      "Arabic description is required", "Description", t, checked);
    assert checked + {DescriptionAr} == TextFields;
  }

  /** validate's checks of extras and tagline, after the texts. */
  method CheckOptionalTexts(f: CategoryData, ghost t: map<Field, Option<string>>, m0: map<Field, string>)
    returns (m: map<Field, string>)
    requires t == Table(f) && Holds(m0, t, TextFields)
    ensures Holds(m, t, TextFields + OptionalFields)
  {
    ghost var checked := TextFields;
    m := CheckOptional(m0, ExtrasEn, EnOf(f.extras), ExtrasLimit, "Extras", t, checked);
    checked := checked + {ExtrasEn};
    m := CheckOptional(m, ExtrasAr, ArOf(f.extras), ExtrasLimit, "Extras", t, checked);
    checked := checked + {ExtrasAr};
    m := CheckOptional(m, TaglineEn, EnOf(f.tagline), TaglineLimit, "Tagline", t, checked);
    checked := checked + {TaglineEn};
    m := CheckOptional(m, TaglineAr, ArOf(f.tagline), TaglineLimit, "Tagline", t, checked);
    assert checked + {TaglineAr} == TextFields + OptionalFields;
  }

  /** What handleSubmit passes to onSubmit. */
  datatype Submission = Submission(data: CategoryData, imageFile: Option<StorageService.File>)

  /** The form's state. */
  class Form {
    var formData: CategoryData
    var imageFile: Option<StorageService.File>
    var errors: map<Field, string>

    /** Mounting the form: the first state, then the effect in edit mode. */
    constructor (initial: Option<CategoryData>)
      ensures formData == (if initial.Some? then SyncedForm(initial.value) else InitialForm(None))
      ensures imageFile.None? && errors == map[]
    {
      formData := InitialForm(initial);
      imageFile := None;
      errors := map[];
      if initial.Some? {
        formData := SyncedForm(initial.value);
      }
    }

    /** validate: records an error for each failing field, replacing the old
        error map, and answers whether there were none. */
    method Validate() returns (ok: bool)
      modifies this
      ensures errors == Errors(formData)
      ensures ok <==> errors == map[]
      ensures formData == old(formData) && imageFile == old(imageFile)
    {
      var f := formData;
      ghost var t := Table(f);
      var newErrors := CheckTexts(f, t);
      newErrors := CheckOptionalTexts(f, t, newErrors);
      ghost var before := newErrors;
      if f.order < 1 {
        newErrors := newErrors[OrderField := OrderTooSmall];
      }
      CollectStep(before, newErrors, t, TextFields + OptionalFields, OrderField);
      assert TextFields + OptionalFields + {OrderField} == Fields;
      TableCollects(f);
      errors := newErrors;
      return |newErrors| == 0;
    }

    /** handleSubmit: onSubmit receives the form data and the chosen file only
        when validate passes; a failure inside onSubmit is only logged. */
    method HandleSubmit() returns (submitted: Option<Submission>)
      modifies this
      ensures submitted.Some? <==> Acceptable(formData)
      ensures submitted.Some? ==> submitted.value == Submission(formData, imageFile)
      ensures errors == Errors(formData)
      ensures formData == old(formData) && imageFile == old(imageFile)
    {
      var ok := Validate();
      NoErrorsIffAcceptable(formData);
      if !ok {
        return None;
      }
      return Some(Submission(formData, imageFile));
    }
  }

}
