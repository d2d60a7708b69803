// String operations of the JavaScript runtime that the menu site relies on:
// trim, toLowerCase, includes, startsWith, length, split, join and the
// decimal rendering of a number in a template literal.

module Text {

  /** JavaScript's WhiteSpace and LineTerminator characters: what trim() strips. */
  predicate IsJsSpace(c: char)
  {
    c == '\t' || c == '\n' || c == '\U{000B}' || c == '\U{000C}' || c == '\r' || c == ' '
    || c == '\U{00A0}' || c == '\U{1680}' || ('\U{2000}' <= c <= '\U{200A}')
    || c == '\U{2028}' || c == '\U{2029}' || c == '\U{202F}' || c == '\U{205F}'
    || c == '\U{3000}' || c == '\U{FEFF}'
  }

  predicate AllSpaces(s: string)
  {
    forall k :: 0 <= k < |s| ==> IsJsSpace(s[k])
  }

  /** s with its leading white space removed. */
  function TrimStart(s: string): string
  {
    if s != [] && IsJsSpace(s[0]) then TrimStart(s[1..]) else s
  }

  /** TrimStart leaves a suffix of s that does not start with white space,
      and what it removed is all white space. */
  lemma {:induction false} TrimStartShape(s: string)
    ensures |TrimStart(s)| <= |s| && TrimStart(s) == s[|s| - |TrimStart(s)|..]
    ensures TrimStart(s) == [] || !IsJsSpace(TrimStart(s)[0])
    ensures AllSpaces(s[..|s| - |TrimStart(s)|])
  {
    if s != [] && IsJsSpace(s[0]) {
      TrimStartShape(s[1..]);
      var r := TrimStart(s[1..]);
      assert s[1..][|s| - 1 - |r|..] == s[|s| - |r|..];
      assert forall k :: 1 <= k < |s| - |r| ==> s[k] == s[1..][..|s| - 1 - |r|][k - 1];
    } else {
      assert s[|s|..] == [];
    }
  }

  /** s with its trailing white space removed. */
  function TrimEnd(s: string): string
  {
    if s != [] && IsJsSpace(s[|s| - 1]) then TrimEnd(s[..|s| - 1]) else s
  }

  /** TrimEnd leaves a prefix of s that does not end with white space, and
      what it removed is all white space. */
  lemma {:induction false} TrimEndShape(s: string)
    ensures TrimEnd(s) <= s
    ensures TrimEnd(s) == [] || !IsJsSpace(TrimEnd(s)[|TrimEnd(s)| - 1])
    ensures AllSpaces(s[|TrimEnd(s)|..])
  {
    if s != [] && IsJsSpace(s[|s| - 1]) {
      TrimEndShape(s[..|s| - 1]);
      var r := TrimEnd(s[..|s| - 1]);
      assert forall k :: |r| <= k < |s| - 1 ==> s[k] == s[..|s| - 1][|r|..][k - |r|];
    }
  }

  /** String.prototype.trim */
  function Trim(s: string): string
  {
    TrimEnd(TrimStart(s))
  }

  /** `!s.trim()`: the text is empty once white space is removed exactly when
      every character of it is white space. */
  lemma TrimEmptyIff(s: string)
    ensures Trim(s) == "" <==> AllSpaces(s)
  {
    var t := TrimStart(s);
    TrimStartShape(s);
    TrimEndShape(t);
    assert t[0..] == t;
    assert s[..|s|] == s;
    if t != [] { assert t[0] == s[|s| - |t|]; }
  }

  /** ASCII upper-case letters are folded to lower case; every other character
      is kept (toLowerCase is approximated: Arabic has no case). */
  function LowerChar(c: char): char
  {
    if 'A' <= c <= 'Z' then (c as int + 32) as char else c
  }

  /** String.prototype.toLowerCase, ASCII only. */
  function Lower(s: string): (r: string)
    ensures |r| == |s|
    ensures forall k :: 0 <= k < |s| ==> r[k] == LowerChar(s[k])
    ensures forall k :: 0 <= k < |r| ==> !('A' <= r[k] <= 'Z')
  {
    seq(|s|, k requires 0 <= k < |s| => LowerChar(s[k]))
  }

  /** ASCII lower-case letters are raised to upper case; the inverse view of
      LowerChar, used to state that lower-casing forgets case. */
  function UpperChar(c: char): char
  {
    if 'a' <= c <= 'z' then (c as int - 32) as char else c
  }

  function Upper(s: string): string
  {
    seq(|s|, k requires 0 <= k < |s| => UpperChar(s[k]))
  }

  /** Lower-casing twice is lower-casing once. */
  lemma LowerIdempotent(s: string)
    ensures Lower(Lower(s)) == Lower(s)
  {
    var once := Lower(s);
    forall k | 0 <= k < |s|
      ensures Lower(once)[k] == once[k]
    {
      assert !('A' <= once[k] <= 'Z');
    }
  }

  /** Lower-casing forgets ASCII case: the upper-cased text lower-cases to
      the same text. */
  lemma LowerForgetsCase(s: string)
    ensures Lower(Upper(s)) == Lower(s)
  {
    var u := Upper(s);
    forall k | 0 <= k < |s|
      ensures Lower(u)[k] == Lower(s)[k]
    {
      assert u[k] == UpperChar(s[k]);
    }
  }

  /** A case-blind search gives the same answer whatever the ASCII case of the
      text searched and of the term. */
  lemma IncludesIgnoresCase(s: string, term: string)
    ensures Includes(Lower(Upper(s)), Lower(Upper(term))) <==> Includes(Lower(s), Lower(term))
  {
    LowerForgetsCase(s);
    LowerForgetsCase(term);
  }

  predicate OccursAt(s: string, sub: string, i: int)
  {
    0 <= i && i + |sub| <= |s| && s[i..i + |sub|] == sub
  }

  /** String.prototype.includes */
  predicate Includes(s: string, sub: string)
  {
    exists i :: 0 <= i <= |s| && OccursAt(s, sub, i)
  }

  /** Every string includes the empty string. */
  lemma IncludesEmpty(s: string)
    ensures Includes(s, "")
  {
    assert OccursAt(s, "", 0);
  }

  /** String.prototype.length: the number of UTF-16 code units; a character
      outside the Basic Multilingual Plane takes two. */
  function Utf16Length(s: string): (n: nat)
    ensures |s| <= n <= 2 * |s|
  {
    if s == [] then 0
    else Utf16Length(s[..|s| - 1]) + (if s[|s| - 1] as int > 0xFFFF then 2 else 1)
  }

  /** `s.split(sep).pop()`: the text after the last separator, the whole text
      when there is none, and empty when the text ends with the separator. */
  function LastSegment(s: string, sep: char): string
  {
    if s == [] then []
    else if s[|s| - 1] == sep then []
    else LastSegment(s[..|s| - 1], sep) + [s[|s| - 1]]
  }

  /** The last segment is a suffix without the separator, preceded by the
      separator unless it is the whole text. */
  lemma {:induction false} LastSegmentShape(s: string, sep: char)
    ensures var r := LastSegment(s, sep);
      && |r| <= |s| && r == s[|s| - |r|..]
      && sep !in r
      && (r == s || s[|s| - |r| - 1] == sep)
  {
    if s != [] && s[|s| - 1] != sep {
      var init := s[..|s| - 1];
      LastSegmentShape(init, sep);
      var r0 := LastSegment(init, sep);
      var r := r0 + [s[|s| - 1]];
      assert LastSegment(s, sep) == r;
      assert r == s[|s| - |r|..] by {
        assert init[|init| - |r0|..] + [s[|s| - 1]] == s[|s| - |r0| - 1..];
      }
      assert sep !in r by {
        assert forall k :: 0 <= k < |r0| ==> r[k] == r0[k];
      }
      if r0 == init {
        assert r == s;
      } else {
        assert s[|s| - |r| - 1] == init[|init| - |r0| - 1];
      }
    }
  }

  /** Whatever precedes the last separator does not change the last segment. */
  lemma {:induction false} LastSegmentAfter(prefix: string, sep: char, e: string)
    requires sep !in e
    ensures LastSegment(prefix + [sep] + e, sep) == e
  {
    var s := prefix + [sep] + e;
    if e == [] {
      assert s[|s| - 1] == sep;
    } else {
      var e' := e[..|e| - 1];
      assert s[..|s| - 1] == prefix + [sep] + e';
      assert s[|s| - 1] == e[|e| - 1];
      LastSegmentAfter(prefix, sep, e');
      assert e' + [e[|e| - 1]] == e;
    }
  }

  /** `s.split(sep)[0]`: the text before the first separator, or all of it. */
  function FirstSegment(s: string, sep: char): (r: string)
    ensures r <= s
    ensures sep !in r
    ensures r == s || s[|r|] == sep
  {
    if s == [] || s[0] == sep then [] else [s[0]] + FirstSegment(s[1..], sep)
  }

  /** Array.prototype.join */
  function Join(xs: seq<string>, sep: string): string
  {
    if xs == [] then ""
    else if |xs| == 1 then xs[0]
    else xs[0] + sep + Join(xs[1..], sep)
  }

  /** Every joined element appears in the joined text. */
  lemma {:induction false} JoinIncludes(xs: seq<string>, sep: string, k: nat)
    requires k < |xs|
    ensures Includes(Join(xs, sep), xs[k])
  {
    var j := Join(xs, sep);
    if |xs| == 1 {
      assert OccursAt(j, xs[0], 0);
    } else if k == 0 {
      assert j == xs[0] + (sep + Join(xs[1..], sep));
      assert OccursAt(j, xs[0], 0);
    } else {
      JoinIncludes(xs[1..], sep, k - 1);
      var rest := Join(xs[1..], sep);
      assert xs[1..][k - 1] == xs[k];
      var i :| 0 <= i <= |rest| && OccursAt(rest, xs[k], i);
      assert 0 <= i && i + |xs[k]| <= |rest| && rest[i..i + |xs[k]|] == xs[k];
      var off := |xs[0] + sep|;
      assert j == (xs[0] + sep) + rest;
      assert j[off + i..off + i + |xs[k]|] == rest[i..i + |xs[k]|];
      assert OccursAt(j, xs[k], off + i);
    }
  }

  function DigitChar(d: nat): (c: char)
    requires d < 10
    ensures '0' <= c <= '9'
  {
    ('0' as int + d) as char
  }

  predicate AllDigits(s: string)
  {
    forall k :: 0 <= k < |s| ==> '0' <= s[k] <= '9'
  }

  /** The decimal text of a non-negative integer, as a template literal writes it. */
  function NatToString(n: nat): string
  {
    if n < 10 then [DigitChar(n)] else NatToString(n / 10) + [DigitChar(n % 10)]
  }

  /** A written number is one or more decimal digits. */
  lemma {:induction false} NatToStringDigits(n: nat)
    ensures |NatToString(n)| >= 1 && AllDigits(NatToString(n))
  {
    if n >= 10 {
      NatToStringDigits(n / 10);
    }
  }

  /** The value of a text of decimal digits. */
  function ParseDecimal(s: string): int
  {
    if s == [] then 0 else 10 * ParseDecimal(s[..|s| - 1]) + (s[|s| - 1] as int - '0' as int)
  }

  /** Reading back a written number gives the number. */
  lemma {:induction false} ParseNatToString(n: nat)
    ensures ParseDecimal(NatToString(n)) == n
  {
    var s := NatToString(n);
    if n >= 10 {
      ParseNatToString(n / 10);
      assert s[..|s| - 1] == NatToString(n / 10);
    }
  }

  /** Distinct numbers are written as distinct texts. */
  lemma NatToStringInjective(a: nat, b: nat)
    requires NatToString(a) == NatToString(b)
    ensures a == b
  {
    ParseNatToString(a);
    ParseNatToString(b);
  }
}
