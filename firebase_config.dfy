// The start-up check of the Firebase configuration (src/config/firebase.ts):
// every required setting must be present and non-empty, and the error names
// the missing ones in a fixed order. Reading the environment and starting
// the SDK are not modelled.

module FirebaseConfig {
  import opened Types
  import opened Text

  /** FirebaseConfig, each value as the environment gives it (None when the
      variable is not set). */
  datatype Config = Config(
    apiKey: Option<string>,
    authDomain: Option<string>,
    projectId: Option<string>,
    storageBucket: Option<string>,
    messagingSenderId: Option<string>,
    appId: Option<string>,
    measurementId: Option<string>)

  /** The keys of FirebaseConfig. */
  datatype Field = ApiKey | AuthDomain | ProjectId | StorageBucket | MessagingSenderId | AppId | MeasurementId

  /** The key's name as written in the source and in the error. */
  function Name(f: Field): string
  {
    match f
    case ApiKey => "apiKey"
    case AuthDomain => "authDomain"
    case ProjectId => "projectId"
    case StorageBucket => "storageBucket"
    case MessagingSenderId => "messagingSenderId"
    case AppId => "appId"
    case MeasurementId => "measurementId"
  }

  /** `config[field]` */
  function Value(c: Config, f: Field): Option<string>
  {
    match f
    case ApiKey => c.apiKey
    case AuthDomain => c.authDomain
    case ProjectId => c.projectId
    case StorageBucket => c.storageBucket
    case MessagingSenderId => c.messagingSenderId
    case AppId => c.appId
    case MeasurementId => c.measurementId
  }

  /** `requiredFields`, in the order they are listed. */
  const RequiredFields: seq<Field> := [ApiKey, AuthDomain, ProjectId, StorageBucket, MessagingSenderId, AppId]

  /** `!config[field] || config[field] === ''`: unset or empty. */
  predicate Missing(c: Config, f: Field)
  {
    Value(c, f).None? || Value(c, f).value == ""
  }

  /** `requiredFields.filter(...)`: the fields of `fields` that are missing,
      in their order in `fields`. */
  function MissingFields(c: Config, fields: seq<Field>): (r: seq<Field>)
    ensures |r| <= |fields|
    ensures forall f :: f in r <==> f in fields && Missing(c, f)
  {
    if fields == [] then []
    else (if Missing(c, fields[0]) then [fields[0]] else []) + MissingFields(c, fields[1..])
  }

  /** A field's position in `requiredFields`; measurementId comes after them. */
  function Rank(f: Field): nat
  {
    match f
    case ApiKey => 0
    case AuthDomain => 1
    case ProjectId => 2
    case StorageBucket => 3
    case MessagingSenderId => 4
    case AppId => 5
    case MeasurementId => 6
  }

  predicate Increasing(fs: seq<Field>)
  {
    forall i, j :: 0 <= i < j < |fs| ==> Rank(fs[i]) < Rank(fs[j])
  }

  /** The missing fields keep the order of the list they are taken from,
      which for the required fields is the order they are listed in. */
  lemma {:induction false} MissingFieldsInOrder(c: Config, fields: seq<Field>)
    requires Increasing(fields)
    ensures Increasing(MissingFields(c, fields))
  {
    if fields != [] {
      var rest := MissingFields(c, fields[1..]);
      MissingFieldsInOrder(c, fields[1..]);
      forall f | f in rest ensures Rank(fields[0]) < Rank(f) {
        var j :| 0 <= j < |fields[1..]| && fields[1..][j] == f;
        assert fields[j + 1] == f;
      }
    }
  }

  lemma RequiredFieldsIncreasing()
    ensures Increasing(RequiredFields)
  {
  }

  function Names(fs: seq<Field>): (r: seq<string>)
    ensures |r| == |fs|
    ensures forall i :: 0 <= i < |fs| ==> r[i] == Name(fs[i])
  {
    if fs == [] then [] else [Name(fs[0])] + Names(fs[1..])
  }

  const MessageStart: string := "Missing required Firebase configuration: "
  const MessageEnd: string := ". Please check your .env file and ensure all VITE_FIREBASE_* variables are set."

  /** validateConfig: throws, naming the missing required fields joined by
      ", ", or returns. */
  function ValidateConfig(c: Config): (r: Result<()>)
    ensures r.Err? <==> exists f :: f in RequiredFields && Missing(c, f)
    ensures r.Err? ==> r.message == MessageStart + Join(Names(MissingFields(c, RequiredFields)), ", ") + MessageEnd
  {
    var missing := MissingFields(c, RequiredFields);
    if |missing| > 0 then
      assert missing[0] in missing;
      Err(MessageStart + Join(Names(missing), ", ") + MessageEnd)
    else Ok(())
  }

  /** measurementId is optional: it is never reported and its value does not
      change the outcome. */
  lemma MeasurementIdOptional(c: Config, m: Option<string>)
    ensures MeasurementId !in MissingFields(c, RequiredFields)
    ensures ValidateConfig(c.(measurementId := m)) == ValidateConfig(c)
  {
    var c' := c.(measurementId := m);
    forall f | f in RequiredFields ensures Missing(c', f) == Missing(c, f) {
    }
    MissingFieldsAgree(c, c', RequiredFields);
  }

  /** Two configurations that agree on which fields are missing report the
      same missing fields. */
  lemma {:induction false} MissingFieldsAgree(c: Config, d: Config, fields: seq<Field>)
    requires forall f :: f in fields ==> Missing(c, f) == Missing(d, f)
    ensures MissingFields(c, fields) == MissingFields(d, fields)
  {
    if fields != [] {
      MissingFieldsAgree(c, d, fields[1..]);
    }
  }

  /** The text inside a longer text is still included in it. */
  lemma IncludesWithin(a: string, s: string, b: string, sub: string)
    requires Includes(s, sub)
    ensures Includes(a + s + b, sub)
  {
    var i :| 0 <= i <= |s| && OccursAt(s, sub, i);
    var t := a + s + b;
    assert t[|a| + i..|a| + i + |sub|] == s[i..i + |sub|];
    assert OccursAt(t, sub, |a| + i);
  }

  /** Every missing required field is named in the error message. */
  lemma MessageNamesMissing(c: Config, f: Field)
    requires f in RequiredFields && Missing(c, f)
    ensures ValidateConfig(c).Err? && Includes(ValidateConfig(c).message, Name(f))
  {
    var missing := MissingFields(c, RequiredFields);
    var k :| 0 <= k < |missing| && missing[k] == f;
    JoinIncludes(Names(missing), ", ", k);
    IncludesWithin(MessageStart, Join(Names(missing), ", "), MessageEnd, Name(f));
  }

  /** With every required setting present except the app id, and no
      measurement id, the error names just "appId". */
  lemma MissingAppIdExample()
    ensures ValidateConfig(Config(Some("k"), Some("d"), Some("p"), Some("b"), Some("s"), None, None))
         == Err(MessageStart + "appId" + MessageEnd)
  {
    var d := Config(Some("k"), Some("d"), Some("p"), Some("b"), Some("s"), None, None);
    var missing := MissingFields(d, RequiredFields);
    assert MissingFields(d, RequiredFields[5..]) == [AppId];
    assert missing == [AppId] by {
      assert RequiredFields[4..][1..] == RequiredFields[5..];
      assert RequiredFields[3..][1..] == RequiredFields[4..];
      assert RequiredFields[2..][1..] == RequiredFields[3..];
      assert RequiredFields[1..][1..] == RequiredFields[2..];
    }
    assert Names(missing) == ["appId"];
    assert Join(["appId"], ", ") == "appId";
  }
}
