// The parts of the URL machinery of the JavaScript runtime that the storage
// service relies on: encodeURIComponent (which the bucket SDK applies to an
// object path inside a download URL), decodeURIComponent, the pathname of
// `new URL(...)` and the match of /\/o\/(.+)/.

module Uri {
  import opened Types
  import opened Text

  const UriMalformed: string := "URI malformed"
  const InvalidUrl: string := "Invalid URL"

  /** The characters encodeURIComponent leaves as they are. */
  predicate Unescaped(c: char)
  {
    || ('A' <= c <= 'Z') || ('a' <= c <= 'z') || ('0' <= c <= '9')
    || c == '-' || c == '_' || c == '.' || c == '!' || c == '~' || c == '*'
    || c == '\'' || c == '(' || c == ')'
  }

  /** An upper-case hexadecimal digit. */
  function HexDigit(d: nat): (c: char)
    requires d < 16
    ensures ('0' <= c <= '9') || ('A' <= c <= 'F')
  {
    if d < 10 then ('0' as int + d) as char else ('A' as int + d - 10) as char
  }

  /** The value of a hexadecimal digit of either case. */
  function HexValue(c: char): (r: Option<nat>)
    ensures r.Some? ==> r.value < 16
    ensures r.Some? <==> ('0' <= c <= '9') || ('A' <= c <= 'F') || ('a' <= c <= 'f')
  {
    if '0' <= c <= '9' then Some(c as int - '0' as int)
    else if 'A' <= c <= 'F' then Some(c as int - 'A' as int + 10)
    else if 'a' <= c <= 'f' then Some(c as int - 'a' as int + 10)
    else None
  }

  /** "%XY": one byte written as an escape. */
  function Escape(b: nat): (r: string)
    requires b < 256
    ensures |r| == 3 && r[0] == '%'
  {
    ['%', HexDigit(b / 16), HexDigit(b % 16)]
  }

  predicate Bytes(bs: seq<nat>)
  {
    forall i :: 0 <= i < |bs| ==> bs[i] < 256
  }

  /** The UTF-8 encoding of a character. */
  function Utf8(c: char): (bs: seq<nat>)
    ensures 1 <= |bs| <= 4 && Bytes(bs)
    ensures |bs| == 1 <==> c as int < 0x80
  {
    var n := c as int;
    if n < 0x80 then [n]
    else if n < 0x800 then [0xC0 + n / 64, 0x80 + n % 64]
    else if n < 0x10000 then [0xE0 + n / 4096, 0x80 + (n / 64) % 64, 0x80 + n % 64]
    else [0xF0 + n / 262144, 0x80 + (n / 4096) % 64, 0x80 + (n / 64) % 64, 0x80 + n % 64]
  }

  function EscapeAll(bs: seq<nat>): (r: string)
    requires Bytes(bs)
    ensures |r| == 3 * |bs|
  {
    if bs == [] then [] else Escape(bs[0]) + EscapeAll(bs[1..])
  }

  /** A character as encodeURIComponent writes it. */
  function EncodeChar(c: char): string
  {
    if Unescaped(c) then [c] else EscapeAll(Utf8(c))
  }

  /** The characters encodeURIComponent can produce. */
  predicate Encoded(c: char)
  {
    Unescaped(c) || c == '%'
  }

  /** encodeURIComponent */
  function Encode(s: string): string
  {
    if s == [] then [] else EncodeChar(s[0]) + Encode(s[1..])
  }

  /** encodeURIComponent writes only unreserved characters and '%', and
      writes something for every character. */
  lemma {:induction false} EncodeEncoded(s: string)
    ensures forall k :: 0 <= k < |Encode(s)| ==> Encoded(Encode(s)[k])
    ensures s != [] ==> Encode(s) != []
  {
    if s != [] {
      var head := EncodeChar(s[0]);
      if !Unescaped(s[0]) {
        EscapeAllEncoded(Utf8(s[0]));
      }
      EncodeEncoded(s[1..]);
      assert Encode(s) == head + Encode(s[1..]);
    }
  }

  lemma {:induction false} EscapeAllEncoded(bs: seq<nat>)
    requires Bytes(bs)
    ensures forall k :: 0 <= k < |EscapeAll(bs)| ==> Encoded(EscapeAll(bs)[k])
  {
    if bs != [] {
      EscapeAllEncoded(bs[1..]);
      var e := Escape(bs[0]);
      assert EscapeAll(bs) == e + EscapeAll(bs[1..]);
      assert forall k :: 0 <= k < 3 ==> Encoded(e[k]);
    }
  }

  /** The byte written as an escape at position i of s, if there is one. */
  function ByteAt(s: string, i: nat): (r: Option<nat>)
    ensures r.Some? ==> r.value < 256
  {
    if i + 3 <= |s| && s[i] == '%' && HexValue(s[i + 1]).Some? && HexValue(s[i + 2]).Some?
    then Some(16 * HexValue(s[i + 1]).value + HexValue(s[i + 2]).value)
    else None
  }

  /** A continuation byte 10xxxxxx written as an escape at position i. */
  function ContAt(s: string, i: nat): (r: Option<nat>)
    ensures r.Some? ==> r.value < 64
  {
    var b := ByteAt(s, i);
    if b.Some? && 0x80 <= b.value < 0xC0 then Some(b.value - 0x80) else None
  }

  /** The length of the UTF-8 sequence a leading byte opens: the number of
      its leading one bits, or 1 for an ASCII byte; 0 when it cannot lead. */
  function SequenceLength(b: nat): nat
  {
    if b < 0x80 then 1
    else if 0xC0 <= b < 0xE0 then 2
    else if 0xE0 <= b < 0xF0 then 3
    else if 0xF0 <= b < 0xF8 then 4
    else 0
  }

  predicate IsScalar(n: int)
  {
    (0 <= n < 0xD800) || (0xE000 <= n <= 0x10FFFF)
  }

  /** The character encoded by the escapes at the front of s (which starts
      with '%') and how many characters of s they take; None where
      decodeURIComponent throws: a bad escape, a byte that cannot lead, a
      missing continuation, an overlong form, a surrogate or a value past
      0x10FFFF. */
  function DecodeEscapes(s: string): (r: Option<(char, nat)>)
    ensures r.Some? ==> 3 <= r.value.1 <= |s|
  {
    var b0 := ByteAt(s, 0);
    if b0.None? then None
    else
      var n := SequenceLength(b0.value);
      if n == 0 then None
      else if n == 1 then Some((b0.value as char, 3))
      else if 3 * n > |s| then None
      else
        var c1 := ContAt(s, 3);
        var c2 := if n >= 3 then ContAt(s, 6) else Some(0);
        var c3 := if n == 4 then ContAt(s, 9) else Some(0);
        if c1.None? || c2.None? || c3.None? then None
        else
          var cp :=
            if n == 2 then (b0.value - 0xC0) * 64 + c1.value
            else if n == 3 then (b0.value - 0xE0) * 4096 + c1.value * 64 + c2.value
            else (b0.value - 0xF0) * 262144 + c1.value * 4096 + c2.value * 64 + c3.value;
          var least := if n == 2 then 0x80 else if n == 3 then 0x800 else 0x10000;
          if cp < least || !IsScalar(cp) then None
          else Some((cp as char, 3 * n))
  }

  function Prepend(c: char, r: Result<string>): Result<string>
  {
    if r.Ok? then Ok([c] + r.value) else r
  }

  /** decodeURIComponent */
  function Decode(s: string): (r: Result<string>)
    ensures r.Err? ==> r.message == UriMalformed
    decreases |s|
  {
    if s == [] then Ok([])
    else if s[0] != '%' then Prepend(s[0], Decode(s[1..]))
    else
      var d := DecodeEscapes(s);
      if d.None? then Err(UriMalformed) else Prepend(d.value.0, Decode(s[d.value.1..]))
  }

  lemma HexRoundTrip(b: nat)
    requires b < 256
    ensures ByteAt(Escape(b), 0) == Some(b)
  {
    var e := Escape(b);
    assert HexValue(e[1]) == Some(b / 16);
    assert HexValue(e[2]) == Some(b % 16);
  }

  /** ByteAt only looks at the three characters from i on. */
  lemma ByteAtWindow(s: string, i: nat, e: string)
    requires i + 3 <= |s| && |e| == 3 && s[i..i + 3] == e
    ensures ByteAt(s, i) == ByteAt(e, 0)
  {
    assert s[i] == e[0] && s[i + 1] == e[1] && s[i + 2] == e[2];
  }

  /** A window inside a text is unchanged by what follows the text. */
  lemma WindowOfPrefix(a: string, rest: string, i: nat)
    requires i + 3 <= |a|
    ensures (a + rest)[i..i + 3] == a[i..i + 3]
  {
  }

  /** The escape EscapeAll writes for byte i reads back as that byte. */
  lemma EscapeReadBackAt(bs: seq<nat>, rest: string, i: nat)
    requires Bytes(bs) && i < |bs|
    ensures ByteAt(EscapeAll(bs) + rest, 3 * i) == Some(bs[i])
  {
    var a := EscapeAll(bs);
    EscapeAllAt(bs, i);
    WindowOfPrefix(a, rest, 3 * i);
    ByteAtWindow(a + rest, 3 * i, Escape(bs[i]));
    HexRoundTrip(bs[i]);
  }

  /** Each escape EscapeAll writes reads back as its byte. */
  lemma EscapesReadBack(bs: seq<nat>, rest: string)
    requires Bytes(bs)
    ensures forall i :: 0 <= i < |bs| ==> ByteAt(EscapeAll(bs) + rest, 3 * i) == Some(bs[i])
  {
    forall i | 0 <= i < |bs|
      ensures ByteAt(EscapeAll(bs) + rest, 3 * i) == Some(bs[i])
    {
      EscapeReadBackAt(bs, rest, i);
    }
  }

  lemma TwoBytes(n: int)
    requires 0x80 <= n < 0x800
    ensures 0xC0 <= 0xC0 + n / 64 < 0xE0
    ensures (n / 64) * 64 + n % 64 == n
  {
  }

  lemma ThreeBytes(n: int)
    requires 0x800 <= n < 0x10000
    ensures 0xE0 <= 0xE0 + n / 4096 < 0xF0
    ensures (n / 4096) * 4096 + ((n / 64) % 64) * 64 + n % 64 == n
  {
    assert n / 64 == (n / 4096) * 64 + (n / 64) % 64;
  }

  lemma FourBytes(n: int)
    requires 0x10000 <= n <= 0x10FFFF
    ensures 0xF0 <= 0xF0 + n / 262144 < 0xF8
    ensures (n / 262144) * 262144 + ((n / 4096) % 64) * 4096 + ((n / 64) % 64) * 64 + n % 64 == n
  {
    assert n / 4096 == (n / 262144) * 64 + (n / 4096) % 64;
    assert n / 64 == (n / 4096) * 64 + (n / 64) % 64;
  }

  /** The escapes of the UTF-8 bytes of a character decode to that character. */
  lemma DecodeEscapesOfChar(c: char, rest: string)
    requires !Unescaped(c)
    ensures DecodeEscapes(EncodeChar(c) + rest) == Some((c, |EncodeChar(c)|))
  {
    var n := c as int;
    if n < 0x80 {
      DecodeEscapesOfOne(c, rest);
    } else if n < 0x800 {
      DecodeEscapesOfTwo(c, rest);
    } else if n < 0x10000 {
      DecodeEscapesOfThree(c, rest);
    } else {
      DecodeEscapesOfFour(c, rest);
    }
  }

  lemma DecodeEscapesOfOne(c: char, rest: string)
    requires !Unescaped(c) && (c as int) < 0x80
    ensures DecodeEscapes(EncodeChar(c) + rest) == Some((c, |EncodeChar(c)|))
  {
    var bs := Utf8(c);
    var s := EncodeChar(c) + rest;
    assert EncodeChar(c) == EscapeAll(bs);
    EscapesReadBack(bs, rest);
    assert ByteAt(s, 0) == Some(bs[0]);
    assert SequenceLength(bs[0]) == 1;
  }

  lemma DecodeEscapesOfTwo(c: char, rest: string)
    requires !Unescaped(c) && 0x80 <= (c as int) < 0x800
    ensures DecodeEscapes(EncodeChar(c) + rest) == Some((c, |EncodeChar(c)|))
  {
    var bs := Utf8(c);
    var s := EncodeChar(c) + rest;
    var n := c as int;
    assert EncodeChar(c) == EscapeAll(bs);
    EscapesReadBack(bs, rest);
    assert ByteAt(s, 0) == Some(bs[0]);
    TwoBytes(n);
    assert ContAt(s, 3) == Some(n % 64);
  }

  lemma DecodeEscapesOfThree(c: char, rest: string)
    requires !Unescaped(c) && 0x800 <= (c as int) < 0x10000
    ensures DecodeEscapes(EncodeChar(c) + rest) == Some((c, |EncodeChar(c)|))
  {
    var bs := Utf8(c);
    var s := EncodeChar(c) + rest;
    var n := c as int;
    assert EncodeChar(c) == EscapeAll(bs);
    EscapesReadBack(bs, rest);
    assert ByteAt(s, 0) == Some(bs[0]);
    ThreeBytes(n);
    assert ContAt(s, 3) == Some((n / 64) % 64);
    assert ContAt(s, 6) == Some(n % 64);
  }

  lemma DecodeEscapesOfFour(c: char, rest: string)
    requires !Unescaped(c) && 0x10000 <= (c as int)
    ensures DecodeEscapes(EncodeChar(c) + rest) == Some((c, |EncodeChar(c)|))
  {
    var bs := Utf8(c);
    var s := EncodeChar(c) + rest;
    var n := c as int;
    assert EncodeChar(c) == EscapeAll(bs);
    EscapesReadBack(bs, rest);
    assert ByteAt(s, 0) == Some(bs[0]);
    FourBytes(n);
    assert ContAt(s, 3) == Some((n / 4096) % 64);
    assert ContAt(s, 6) == Some((n / 64) % 64);
    assert ContAt(s, 9) == Some(n % 64);
  }

  lemma {:induction false} EscapeAllAt(bs: seq<nat>, i: nat)
    requires Bytes(bs) && i < |bs|
    ensures EscapeAll(bs)[3 * i..3 * i + 3] == Escape(bs[i])
  {
    if i > 0 {
      EscapeAllAt(bs[1..], i - 1);
      assert EscapeAll(bs) == Escape(bs[0]) + EscapeAll(bs[1..]);
    }
  }

  /** Decoding what EncodeChar wrote gives the character back, followed by
      the decoding of what comes after it. */
  lemma DecodeEncodedChar(c: char, rest: string)
    ensures Decode(EncodeChar(c) + rest) == Prepend(c, Decode(rest))
  {
    var s := EncodeChar(c) + rest;
    if Unescaped(c) {
      assert s[1..] == rest;
    } else {
      DecodeEscapesOfChar(c, rest);
      assert s[|EncodeChar(c)|..] == rest;
    }
  }

  /** decodeURIComponent undoes encodeURIComponent. */
  lemma {:induction false} DecodeEncode(p: string)
    ensures Decode(Encode(p)) == Ok(p)
  {
    if p != [] {
      DecodeEncode(p[1..]);
      DecodeEncodedChar(p[0], Encode(p[1..]));
      assert [p[0]] + p[1..] == p;
    }
  }

  /** `s.replace(/%2F/g, '/')` */
  function ReplaceEncodedSlashes(s: string): (r: string)
    decreases |s|
  {
    if |s| >= 3 && s[..3] == "%2F" then "/" + ReplaceEncodedSlashes(s[3..])
    else if s == [] then []
    else [s[0]] + ReplaceEncodedSlashes(s[1..])
  }

  /** A text that does not start with '%' keeps its first character. */
  lemma ReplaceStep(t: string)
    requires t != [] && t[0] != '%'
    ensures ReplaceEncodedSlashes(t) == [t[0]] + ReplaceEncodedSlashes(t[1..])
  {
    if |t| >= 3 {
      assert t[..3][0] == t[0];
    }
  }

  /** An escape of a byte other than '/' is left alone by the replacement. */
  lemma ReplaceKeepsEscape(b: nat, rest: string)
    requires b < 256 && b != 0x2F
    ensures ReplaceEncodedSlashes(Escape(b) + rest) == Escape(b) + ReplaceEncodedSlashes(rest)
  {
    var e := Escape(b);
    var s := e + rest;
    assert s[..3] == e;
    HexRoundTrip(b);
    assert ByteAt("%2F", 0) == Some(0x2F);
    assert e != "%2F";
    assert ReplaceEncodedSlashes(s) == [e[0]] + ReplaceEncodedSlashes(s[1..]);
    assert s[1..][0] == e[1] && s[1..][1..] == s[2..];
    ReplaceStep(s[1..]);
    assert s[2..][0] == e[2] && s[2..][1..] == rest;
    ReplaceStep(s[2..]);
    assert e == [e[0]] + [e[1]] + [e[2]];
  }

  /** Two stretches the replacement leaves alone, one after the other, are
      left alone together. */
  lemma ReplaceKeepsBoth(e: string, t: string, rest: string)
    requires ReplaceEncodedSlashes(e + (t + rest)) == e + ReplaceEncodedSlashes(t + rest)
    requires ReplaceEncodedSlashes(t + rest) == t + ReplaceEncodedSlashes(rest)
    ensures ReplaceEncodedSlashes((e + t) + rest) == (e + t) + ReplaceEncodedSlashes(rest)
  {
    assert (e + t) + rest == e + (t + rest);
  }

  lemma {:induction false} ReplaceKeepsEscapes(bs: seq<nat>, rest: string)
    requires Bytes(bs) && 0x2F !in bs
    ensures ReplaceEncodedSlashes(EscapeAll(bs) + rest) == EscapeAll(bs) + ReplaceEncodedSlashes(rest)
  {
    if bs == [] {
      assert EscapeAll(bs) + rest == rest;
    } else {
      var e := Escape(bs[0]);
      var tail := EscapeAll(bs[1..]);
      assert bs[0] in bs;
      assert forall x :: x in bs[1..] ==> x in bs;
      ReplaceKeepsEscapes(bs[1..], rest);
      ReplaceKeepsEscape(bs[0], tail + rest);
      assert EscapeAll(bs) == e + tail;
      ReplaceKeepsBoth(e, tail, rest);
    }
  }

  lemma EncodeSlash()
    ensures EncodeChar('/') == "%2F"
  {
    assert Utf8('/') == [0x2F];
    assert EscapeAll([0x2F]) == Escape(0x2F) + EscapeAll([]);
  }

  /** The UTF-8 bytes of a character other than '/' hold no 0x2F. */
  lemma NoSlashByte(c: char)
    requires c != '/'
    ensures 0x2F !in Utf8(c)
  {
    var bs := Utf8(c);
    if c as int < 0x80 {
      assert bs == [c as int];
    } else {
      assert forall i :: 0 <= i < |bs| ==> bs[i] >= 0x80;
    }
  }

  /** What the replacement makes of an encoded character: '/' for the
      escape of '/', the encoding itself otherwise. */
  lemma ReplaceEncodedChar(c: char, rest: string)
    ensures ReplaceEncodedSlashes(EncodeChar(c) + rest)
      == (if c == '/' then "/" else EncodeChar(c)) + ReplaceEncodedSlashes(rest)
  {
    var s := EncodeChar(c) + rest;
    if Unescaped(c) {
      assert s == [c] + rest;
      ReplaceStep(s);
      assert s[1..] == rest;
    } else if c == '/' {
      EncodeSlash();
      assert s[..3] == "%2F" && s[3..] == rest;
    } else {
      NoSlashByte(c);
      ReplaceKeepsEscapes(Utf8(c), rest);
    }
  }

  /** Replacing the escaped slashes before decoding changes nothing for a
      text encodeURIComponent wrote. */
  lemma {:induction false} DecodeReplacedEncode(p: string)
    ensures Decode(ReplaceEncodedSlashes(Encode(p))) == Ok(p)
  {
    if p != [] {
      var c := p[0];
      var rest := Encode(p[1..]);
      DecodeReplacedEncode(p[1..]);
      ReplaceEncodedChar(c, rest);
      if c == '/' {
        var t := "/" + ReplaceEncodedSlashes(rest);
        assert t[1..] == ReplaceEncodedSlashes(rest);
      } else {
        DecodeEncodedChar(c, ReplaceEncodedSlashes(rest));
      }
      assert [c] + p[1..] == p;
    }
  }

  /** The first position of s holding one of the characters in cs, or |s|. */
  function FirstOf(s: string, cs: set<char>): (r: nat)
    ensures r <= |s|
  {
    if s == [] || s[0] in cs then 0 else 1 + FirstOf(s[1..], cs)
  }

  /** The position found holds a character of cs, and none before it does. */
  lemma {:induction false} FirstOfShape(s: string, cs: set<char>)
    ensures FirstOf(s, cs) < |s| ==> s[FirstOf(s, cs)] in cs
    ensures forall j :: 0 <= j < FirstOf(s, cs) ==> s[j] !in cs
  {
    if s != [] && s[0] !in cs {
      FirstOfShape(s[1..], cs);
    }
  }

  /** Where the first character of cs falls in a + b when a holds none of
      them. */
  lemma {:induction false} FirstOfAfter(a: string, b: string, cs: set<char>)
    requires forall k :: 0 <= k < |a| ==> a[k] !in cs
    ensures FirstOf(a + b, cs) == |a| + FirstOf(b, cs)
  {
    if a != [] {
      assert (a + b)[0] == a[0];
      assert (a + b)[1..] == a[1..] + b;
      FirstOfAfter(a[1..], b, cs);
    } else {
      assert a + b == b;
    }
  }

  predicate SchemeChar(c: char)
  {
    ('A' <= c <= 'Z') || ('a' <= c <= 'z') || ('0' <= c <= '9') || c == '+' || c == '-' || c == '.'
  }

  /** A scheme: a letter followed by letters, digits, '+', '-' or '.'. */
  predicate IsScheme(s: string)
  {
    && s != []
    && (('A' <= s[0] <= 'Z') || ('a' <= s[0] <= 'z'))
    && forall k :: 0 <= k < |s| ==> SchemeChar(s[k])
  }

  /** The path of what follows "//" in an absolute URL: the host runs to the
      first '/', '?' or '#' and must not be empty; the path runs from that
      '/' to the first '?' or '#', and is "/" when the host is followed by
      no '/'. */
  function AuthorityPath(rest: string): (r: Result<string>)
    ensures r.Err? ==> r.message == InvalidUrl
  {
    var hostEnd := FirstOf(rest, {'/', '?', '#'});
    if hostEnd == 0 then Err(InvalidUrl)
    else if hostEnd == |rest| || rest[hostEnd] != '/' then Ok("/")
    else
      var tail := rest[hostEnd..];
      Ok(tail[..FirstOf(tail, {'?', '#'})])
  }

  /** A path found after the host starts with '/' and holds no '?' or '#'. */
  lemma AuthorityPathShape(rest: string)
    ensures var r := AuthorityPath(rest);
      r.Ok? ==> r.value != [] && r.value[0] == '/' && '?' !in r.value && '#' !in r.value
  {
    var hostEnd := FirstOf(rest, {'/', '?', '#'});
    FirstOfShape(rest, {'/', '?', '#'});
    if 0 < hostEnd < |rest| && rest[hostEnd] == '/' {
      var tail := rest[hostEnd..];
      FirstOfShape(tail, {'?', '#'});
      var path := tail[..FirstOf(tail, {'?', '#'})];
      assert path[0] == '/';
      assert forall j :: 0 <= j < |path| ==> path[j] !in {'?', '#'};
    }
  }

  /** The pathname of `new URL(url)` for an absolute URL written
      scheme://host[path][?query][#fragment]. Any other text is refused as an
      invalid URL. */
  function Pathname(url: string): (r: Result<string>)
    ensures r.Err? ==> r.message == InvalidUrl
  {
    var colon := FirstOf(url, {':'});
    if colon + 3 > |url| || !IsScheme(url[..colon]) || url[colon + 1..colon + 3] != "//" then
      Err(InvalidUrl)
    else
      AuthorityPath(url[colon + 3..])
  }

  predicate IsLineTerminator(c: char)
  {
    c == '\n' || c == '\r' || c == '\U{2028}' || c == '\U{2029}'
  }

  /** /\/o\/(.+)/ can match at position i: "/o/" is there and one character
      other than a line terminator follows it. */
  predicate MatchesAt(p: string, i: nat)
  {
    OccursAt(p, "/o/", i) && i + 3 < |p| && !IsLineTerminator(p[i + 3])
  }

  /** The leftmost match position at or after i. */
  function MatchFrom(p: string, i: nat): (r: Option<nat>)
    requires i <= |p|
    ensures r.Some? ==> i <= r.value && r.value + 3 < |p|
    decreases |p| - i
  {
    if i == |p| then None
    else if MatchesAt(p, i) then Some(i)
    else MatchFrom(p, i + 1)
  }

  /** The match found is the leftmost one at or after i. */
  lemma {:induction false} MatchFromShape(p: string, i: nat)
    requires i <= |p|
    ensures var r := MatchFrom(p, i);
      && (r.Some? ==> MatchesAt(p, r.value))
      && forall j :: i <= j < (if r.Some? then r.value else |p|) ==> !MatchesAt(p, j)
    decreases |p| - i
  {
    if i < |p| && !MatchesAt(p, i) {
      MatchFromShape(p, i + 1);
    }
  }

  /** `pathname.match(/\/o\/(.+)/)[1]`: the longest run of characters other
      than line terminators after the leftmost "/o/" that has one. */
  function ObjectPathMatch(p: string): (r: Option<string>)
  {
    var m := MatchFrom(p, 0);
    if m.None? then None
    else
      var after := p[m.value + 3..];
      Some(after[..FirstOf(after, {'\n', '\r', '\U{2028}', '\U{2029}'})])
  }

  /** A matched object path is not empty and holds no line terminator. */
  lemma ObjectPathMatchShape(p: string)
    ensures var r := ObjectPathMatch(p);
      r.Some? ==> r.value != [] && forall k :: 0 <= k < |r.value| ==> !IsLineTerminator(r.value[k])
  {
    MatchFromShape(p, 0);
    var m := MatchFrom(p, 0);
    if m.Some? {
      var after := p[m.value + 3..];
      FirstOfShape(after, {'\n', '\r', '\U{2028}', '\U{2029}'});
    }
  }
}
