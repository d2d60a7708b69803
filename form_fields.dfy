// The per-field rules the two admin forms share
// (src/components/Admin/CategoryForm.tsx and src/components/Admin/ItemForm.tsx):
// a required, length-limited text; an optional, length-limited text; and the
// colour of the character counter shown under a limited field.

module FormFields {
  import opened Types
  import opened Text

  /** after is before with the error e recorded under key, when there is one. */
  ghost predicate Records<K(!new)>(before: map<K, string>, after: map<K, string>, key: K, e: Option<string>)
  {
    && (forall j :: j in after <==> j in before || (j == key && e.Some?))
    && (forall j :: j in after ==> after[j] == if j == key && e.Some? then e.value else before[j])
  }

  /** The error map a validate function leaves after checking the keys ks:
      table[k]'s message for each checked k whose rule fails. */
  function Collected<K>(table: map<K, Option<string>>, ks: set<K>): map<K, string>
  {
    map k | k in ks && k in table && table[k].Some? :: table[k].value
  }

  /** m is the collection of the checked keys' errors. */
  predicate Holds<K>(m: map<K, string>, table: map<K, Option<string>>, checked: set<K>)
  {
    m == Collected(table, checked)
  }

  /** Checking one more key extends the collection by that key's error. */
  lemma CollectStep<K(!new)>(before: map<K, string>, after: map<K, string>, table: map<K, Option<string>>,
                             checked: set<K>, key: K)
    requires Holds(before, table, checked) && key in table
    requires Records(before, after, key, table[key])
    ensures Holds(after, table, checked + {key})
  {
  }

  /** The counter's colour: text-red-600, text-orange-500, text-yellow-600
      or text-gray-500. */
  datatype Color = Red | Orange | Yellow | Gray

  /** How urgent a colour is, from gray (0) to red (3). */
  function Severity(c: Color): nat
  {
    match c
    case Gray => 0
    case Yellow => 1
    case Orange => 2
    case Red => 3
  }

  /** getCounterColor: red past the limit, orange within the last tenth of it,
      yellow within the last fifth, gray otherwise. `remaining <= limit * 0.1`
      is compared exactly, as 10 * remaining <= limit. */
  function CounterColor(current: int, limit: nat): (c: Color)
    ensures c == Red <==> current > limit
    ensures c == Gray ==> 5 * (limit - current) > limit
  {
    var remaining := limit - current;
    if remaining < 0 then Red
    else if 10 * remaining <= limit then Orange
    else if 5 * remaining <= limit then Yellow
    else Gray
  }

  /** Typing one more character never makes the counter less urgent. */
  lemma CounterColorMonotone(current: int, limit: nat)
    ensures Severity(CounterColor(current, limit)) <= Severity(CounterColor(current + 1, limit))
  {
  }

  /** An empty field is gray (for a positive limit); a full one is orange. */
  lemma CounterColorEnds(limit: nat)
    ensures limit > 0 ==> CounterColor(0, limit) == Gray
    ensures CounterColor(limit, limit) == Orange
    ensures CounterColor(limit + 1, limit) == Red
  {
  }

  /** `${noun} must be ${limit} characters or less` */
  function LimitMessage(noun: string, limit: nat): string
  {
    noun + " must be " + NatToString(limit) + " characters or less"
  }

  /** A required text: blank after trimming (`!text.trim()`, which holds
      exactly when every character is white space, see Text.TrimEmptyIff)
      gives the required message; otherwise more UTF-16 units than the limit
      (counted on the untrimmed text) gives the limit message. */
  function RequiredError(text: string, limit: nat, required: string, noun: string): (r: Option<string>)
    ensures r.None? <==> !AllSpaces(text) && Utf16Length(text) <= limit
    ensures AllSpaces(text) ==> r == Some(required)
    ensures r.Some? && !AllSpaces(text) ==> r == Some(LimitMessage(noun, limit))
  {
    if AllSpaces(text) then Some(required)
    else if Utf16Length(text) > limit then Some(LimitMessage(noun, limit))
    else None
  }

  /** An optional text: only a non-empty one longer than the limit is an
      error, and an absent one never is. */
  function OptionalError(text: Option<string>, limit: nat, noun: string): (r: Option<string>)
    ensures r.None? <==> text.None? || Utf16Length(text.value) <= limit
    ensures r.Some? ==> r == Some(LimitMessage(noun, limit))
  {
    if text.Some? && text.value != "" && Utf16Length(text.value) > limit then Some(LimitMessage(noun, limit))
    else None
  }

  /** One required-text step of a validate function: records the field's
      error under key, if it has one, extending the errors of the keys checked
      so far by that key's. */
  method CheckRequired<K(!new)>(errors: map<K, string>, key: K, text: string, limit: nat, required: string, noun: string,
                                ghost table: map<K, Option<string>>, ghost checked: set<K>)
    returns (r: map<K, string>)
    requires Holds(errors, table, checked)
    requires key in table && table[key] == RequiredError(text, limit, required, noun)
    ensures Holds(r, table, checked + {key})
  {
    TrimEmptyIff(text);
    if Trim(text) == "" {
      r := errors[key := required];
    } else if Utf16Length(text) > limit {
      r := errors[key := LimitMessage(noun, limit)];
    } else {
      r := errors;
    }
    CollectStep(errors, r, table, checked, key);
  }

  /** One optional-text step: `if (text && text.length > limit)`. */
  method CheckOptional<K(!new)>(errors: map<K, string>, key: K, text: Option<string>, limit: nat, noun: string,
                                ghost table: map<K, Option<string>>, ghost checked: set<K>)
    returns (r: map<K, string>)
    requires Holds(errors, table, checked)
    requires key in table && table[key] == OptionalError(text, limit, noun)
    ensures Holds(r, table, checked + {key})
  {
    if text.Some? && text.value != "" && Utf16Length(text.value) > limit {
      r := errors[key := LimitMessage(noun, limit)];
    } else {
      r := errors;
    }
    CollectStep(errors, r, table, checked, key);
  }

  /** A price: only a present, negative value is an error. */
  function PriceError(price: Option<real>, message: string): (r: Option<string>)
    ensures r.Some? <==> price.Some? && price.value < 0.0
    ensures r.Some? ==> r.value == message
  {
    if price.Some? && price.value < 0.0 then Some(message) else None
  }

  /** One price step: `if (price !== undefined && price < 0)`. */
  method CheckPrice<K(!new)>(errors: map<K, string>, key: K, price: Option<real>, message: string,
                             ghost table: map<K, Option<string>>, ghost checked: set<K>)
    returns (r: map<K, string>)
    requires Holds(errors, table, checked)
    requires key in table && table[key] == PriceError(price, message)
    ensures Holds(r, table, checked + {key})
  {
    if price.Some? && price.value < 0.0 {
      r := errors[key := message];
    } else {
      r := errors;
    }
    CollectStep(errors, r, table, checked, key);
  }

  /** The required check trims, the length check does not: a single letter
      padded with blanks up to one past the limit is non-blank, and yet it is
      rejected as too long. */
  lemma PaddedTextTooLong(limit: nat)
    ensures var text := "a" + seq(limit, _ => ' ');
      && !AllSpaces(text)
      && Trim(text) == "a"
      && RequiredError(text, limit, "required", "Field") == Some(LimitMessage("Field", limit))
  {
    var text := "a" + seq(limit, _ => ' ');
    assert text[0] == 'a' && !IsJsSpace('a');
    assert Utf16Length(text) >= |text| == limit + 1;
    TrimAfterLetter(limit);
  }

  /** "a" followed by n blanks trims to "a". */
  lemma {:induction false} TrimAfterLetter(n: nat)
    ensures Trim("a" + seq(n, _ => ' ')) == "a"
  {
    var text := "a" + seq(n, _ => ' ');
    assert TrimStart(text) == text by {
      assert !IsJsSpace(text[0]);
    }
    BlanksTrimEnd("a", n);
  }

  /** Trailing blanks after a non-blank last character are what TrimEnd removes. */
  lemma {:induction false} BlanksTrimEnd(s: string, n: nat)
    requires s != [] && !IsJsSpace(s[|s| - 1])
    ensures TrimEnd(s + seq(n, _ => ' ')) == s
  {
    if n > 0 {
      var t := s + seq(n, _ => ' ');
      assert t[..|t| - 1] == s + seq(n - 1, _ => ' ');
      assert IsJsSpace(t[|t| - 1]);
      BlanksTrimEnd(s, n - 1);
    } else {
      assert s + seq(0, _ => ' ') == s;
    }
  }
}
