/** The pieces of JavaScript value and string semantics that the client code relies on:
    optional values, `trim`, `startsWith`, `split`/`join` on one character, `parseInt(s, 10)`,
    numbers as the client sees them, and plain objects as ordered key/value lists. */
module Js {

  datatype Option<+T> = None | Some(value: T) {
    /** `x ?? d`: the value when present, otherwise the default. */
    function GetOr(default: T): T {
      match this
      case Some(v) => v
      case None => default
    }
  }

  datatype Result<+T, +E> = Ok(value: T) | Err(error: E)

  /** A string is truthy in JavaScript exactly when it is not empty. */
  predicate Truthy(s: Option<string>) {
    s.Some? && s.value != ""
  }

  /** `a || b` on two possibly missing strings. */
  function Or(a: Option<string>, b: Option<string>): (r: Option<string>)
    ensures Truthy(a) ==> r == a
    ensures !Truthy(a) ==> r == b
  {
    if Truthy(a) then a else b
  }

  /** `a || "default"`: the first truthy string, or the default. */
  function OrDefault(a: Option<string>, default: string): (r: string)
    ensures Truthy(a) ==> r == a.value
    ensures !Truthy(a) ==> r == default
  {
    if Truthy(a) then a.value else default
  }

  /** A JavaScript number: NaN, one of the infinities, or a finite value. */
  datatype JsNumber = NaN | Infinity(negative: bool) | Finite(value: real)

  /** `Number.isFinite(n)`. */
  predicate IsFinite(n: JsNumber) {
    n.Finite?
  }

  /** A JSON-like value as it reaches the client. Arrays and nested objects are opaque here. */
  datatype JsValue = Undefined | Null | Bool(b: bool) | Num(n: JsNumber) | Str(s: string) | Opaque

  /** A plain object: its own keys in `Object.keys` order, each with its value. */
  type JsObject = seq<(string, JsValue)>

  /** `Object.keys(o)`. */
  function Keys(o: JsObject): (ks: seq<string>)
    ensures |ks| == |o|
    ensures forall i :: 0 <= i < |o| ==> ks[i] == o[i].0
  {
    if o == [] then [] else [o[0].0] + Keys(o[1..])
  }

  /** `o[k]`: the value stored under the first occurrence of `k`, or `undefined`. */
  function Get(o: JsObject, k: string): (v: JsValue)
    ensures k !in Keys(o) ==> v == Undefined
    ensures o != [] && o[0].0 == k ==> v == o[0].1
    ensures forall i :: 0 <= i < |o| && o[i].0 == k && (forall j :: 0 <= j < i ==> o[j].0 != k) ==> v == o[i].1
  {
    if o == [] then Undefined else if o[0].0 == k then o[0].1 else Get(o[1..], k)
  }

  /** A browser `File` as the handlers see it: its name, MIME type and size in bytes. */
  datatype FileInfo = FileInfo(name: string, mimeType: string, size: nat)

  /** The characters ECMAScript's `trim` removes: WhiteSpace and LineTerminator code points. */
  predicate IsWhitespace(c: char) {
    var k := c as int;
    (0x09 <= k <= 0x0D) || k == 0x20 || k == 0xA0 || k == 0x1680 ||
    (0x2000 <= k <= 0x200A) || k == 0x2028 || k == 0x2029 || k == 0x202F ||
    k == 0x205F || k == 0x3000 || k == 0xFEFF
  }

  /** Removes the longest whitespace prefix. */
  function TrimStart(s: string): (r: string)
    ensures |r| <= |s| && r == s[|s| - |r|..]
    ensures forall i :: 0 <= i < |s| - |r| ==> IsWhitespace(s[i])
    ensures r != [] ==> !IsWhitespace(r[0])
  {
    if s != [] && IsWhitespace(s[0]) then TrimStart(s[1..]) else s
  }

  /** Removes the longest whitespace suffix. */
  function TrimEnd(s: string): (r: string)
    ensures |r| <= |s| && r == s[..|r|]
    ensures forall i :: |r| <= i < |s| ==> IsWhitespace(s[i])
    ensures r != [] ==> !IsWhitespace(r[|r| - 1])
  {
    if s != [] && IsWhitespace(s[|s| - 1]) then TrimEnd(s[..|s| - 1]) else s
  }

  /** `r` sits at offset `i` of `s` and everything of `s` around it is whitespace. */
  predicate WhitespaceAround(s: string, i: nat, r: string) {
    i + |r| <= |s| && r == s[i..i + |r|] &&
    forall k :: 0 <= k < |s| && !(i <= k < i + |r|) ==> IsWhitespace(s[k])
  }

  /** `s.trim()`. */
  function Trim(s: string): (r: string)
    ensures |r| <= |s|
    ensures r != [] ==> !IsWhitespace(r[0]) && !IsWhitespace(r[|r| - 1])
    ensures exists i: nat :: WhitespaceAround(s, i, r)
  {
    var t := TrimStart(s);
    var r := TrimEnd(t);
    assert WhitespaceAround(s, |s| - |t|, r) by {
      forall k | |s| - |t| + |r| <= k < |s| ensures IsWhitespace(s[k]) {
        assert s[k] == t[k - (|s| - |t|)];
      }
    }
    r
  }

  /** `!s.trim()`: the string is empty once trimmed. */
  predicate IsBlank(s: string) {
    Trim(s) == []
  }

  /** A string is blank exactly when every character of it is whitespace. */
  lemma {:induction false} BlankIffAllWhitespace(s: string)
    ensures IsBlank(s) <==> forall i :: 0 <= i < |s| ==> IsWhitespace(s[i])
  {
    var t := TrimStart(s);
    if IsBlank(s) {
      forall i | 0 <= i < |s| ensures IsWhitespace(s[i]) {
        if i >= |s| - |t| {
          assert s[i] == t[i - (|s| - |t|)];
        }
      }
    } else {
      var r := Trim(s);
      assert r[0] == t[0] == s[|s| - |t|];
    }
  }

  /** Trimming twice is trimming once. */
  lemma TrimIdempotent(s: string)
    ensures Trim(Trim(s)) == Trim(s)
  {
    var r := Trim(s);
    if r != [] {
      assert TrimStart(r) == r;
      assert TrimEnd(r) == r;
    }
  }

  /** Leading whitespace is removed by `trimStart`. */
  lemma {:induction false} TrimStartPadded(ws: string, s: string)
    requires forall i :: 0 <= i < |ws| ==> IsWhitespace(ws[i])
    ensures TrimStart(ws + s) == TrimStart(s)
  {
    if ws != [] {
      assert (ws + s)[0] == ws[0];
      assert (ws + s)[1..] == ws[1..] + s;
      TrimStartPadded(ws[1..], s);
    } else {
      assert ws + s == s;
    }
  }

  /** Once a string has a non-whitespace character, what follows it is untouched by `trimStart`. */
  lemma {:induction false} TrimStartAppend(s: string, t: string)
    requires TrimStart(s) != []
    ensures TrimStart(s + t) == TrimStart(s) + t
  {
    assert (s + t)[0] == s[0];
    if IsWhitespace(s[0]) {
      assert TrimStart(s) == TrimStart(s[1..]);
      assert (s + t)[1..] == s[1..] + t;
      TrimStartAppend(s[1..], t);
      assert TrimStart(s + t) == TrimStart(s[1..] + t);
    } else {
      assert TrimStart(s) == s;
      assert TrimStart(s + t) == s + t;
    }
  }

  /** Trailing whitespace is removed by `trimEnd`. */
  lemma {:induction false} TrimEndPadded(s: string, ws: string)
    requires forall i :: 0 <= i < |ws| ==> IsWhitespace(ws[i])
    ensures TrimEnd(s + ws) == TrimEnd(s)
  {
    if ws != [] {
      var shorter := ws[..|ws| - 1];
      assert (s + ws)[|s + ws| - 1] == ws[|ws| - 1];
      assert (s + ws)[..|s + ws| - 1] == s + shorter;
      TrimEndPadded(s, shorter);
    } else {
      assert s + ws == s;
    }
  }

  /** Whitespace put on either side of a string does not change its `trim`. */
  lemma TrimPadded(before: string, s: string, after: string)
    requires forall i :: 0 <= i < |before| ==> IsWhitespace(before[i])
    requires forall i :: 0 <= i < |after| ==> IsWhitespace(after[i])
    ensures Trim(before + s + after) == Trim(s)
  {
    assert before + s + after == before + (s + after);
    TrimStartPadded(before, s + after);
    if TrimStart(s) != [] {
      TrimStartAppend(s, after);
      TrimEndPadded(TrimStart(s), after);
    } else {
      TrimStartPadded(s, after);
      TrimStartPadded(after, []);
      assert after + [] == after;
    }
  }

  /** A non-blank string trims to a non-empty string without surrounding whitespace. */
  lemma TrimmedNonBlank(s: string)
    requires !IsBlank(s)
    ensures Trim(s) != [] && !IsBlank(Trim(s))
  {
    TrimIdempotent(s);
  }

  /** `s.startsWith(p)`. */
  predicate StartsWith(s: string, p: string) {
    |p| <= |s| && s[..|p|] == p
  }

  /** `s.split(sep)` for a one-character separator: always at least one part, no part holds `sep`. */
  function Split(s: string, sep: char): (parts: seq<string>)
    ensures |parts| >= 1
    ensures forall i :: 0 <= i < |parts| ==> sep !in parts[i]
  {
    if s == [] then [[]]
    else
      var rest := Split(s[1..], sep);
      if s[0] == sep then [[]] + rest
      else [[s[0]] + rest[0]] + rest[1..]
  }

  /** `parts.join(sep)`. */
  function Join(parts: seq<string>, sep: char): string
  {
    if parts == [] then []
    else if |parts| == 1 then parts[0]
    else parts[0] + [sep] + Join(parts[1..], sep)
  }

  /** Splitting and joining again gives back the original string. */
  lemma {:induction false} JoinSplit(s: string, sep: char)
    ensures Join(Split(s, sep), sep) == s
  {
    if s != [] {
      var rest := Split(s[1..], sep);
      JoinSplit(s[1..], sep);
      if s[0] != sep && |rest| > 1 {
        assert Join(rest, sep) == rest[0] + [sep] + Join(rest[1..], sep);
        assert ([[s[0]] + rest[0]] + rest[1..])[1..] == rest[1..];
      }
    }
  }

  /** Splitting a separator-free prefix followed by the separator peels off that prefix as one part. */
  lemma {:induction false} SplitAtSeparator(a: string, b: string, sep: char)
    requires sep !in a
    ensures Split(a + [sep] + b, sep) == [a] + Split(b, sep)
  {
    if a != [] {
      assert (a + [sep] + b)[1..] == a[1..] + [sep] + b;
      SplitAtSeparator(a[1..], b, sep);
      assert [a[0]] + a[1..] == a;
    } else {
      assert (a + [sep] + b)[1..] == b;
    }
  }

  /** Joining separator-free parts and splitting again gives back the parts. */
  lemma {:induction false} SplitJoin(parts: seq<string>, sep: char)
    requires |parts| >= 1
    requires forall i :: 0 <= i < |parts| ==> sep !in parts[i]
    ensures Split(Join(parts, sep), sep) == parts
  {
    if |parts| == 1 {
      SplitWithoutSeparator(parts[0], sep);
    } else {
      SplitJoin(parts[1..], sep);
      SplitAtSeparator(parts[0], Join(parts[1..], sep), sep);
      assert [parts[0]] + parts[1..] == parts;
    }
  }

  /** A string that holds no separator splits into itself alone. */
  lemma {:induction false} SplitWithoutSeparator(s: string, sep: char)
    requires sep !in s
    ensures Split(s, sep) == [s]
  {
    if s != [] {
      SplitWithoutSeparator(s[1..], sep);
      assert [s[0]] + s[1..] == s;
    }
  }

  /** Joining the first `n` parts, the separator and the remaining parts joins all parts. */
  lemma {:induction false} JoinConcat(parts: seq<string>, n: nat, sep: char)
    requires 0 < n < |parts|
    ensures Join(parts[..n], sep) + [sep] + Join(parts[n..], sep) == Join(parts, sep)
  {
    if n > 1 {
      JoinConcat(parts[1..], n - 1, sep);
      assert parts[1..][..n - 1] == parts[..n][1..];
      assert parts[1..][n - 1..] == parts[n..];
    } else {
      assert parts[..1] == [parts[0]];
      assert parts[1..] == parts[n..];
    }
  }

  /** The first `n` parts joined again are the text before the `n`-th separator, and split back
      into those parts. */
  lemma SplitPrefix(s: string, n: nat, sep: char)
    requires 0 < n < |Split(s, sep)|
    ensures var shown := Join(Split(s, sep)[..n], sep);
      && |shown| < |s| && s[..|shown|] == shown && s[|shown|] == sep
      && Split(shown, sep) == Split(s, sep)[..n]
  {
    var parts := Split(s, sep);
    var shown := Join(parts[..n], sep);
    var after := Join(parts[n..], sep);
    JoinSplit(s, sep);
    JoinConcat(parts, n, sep);
    assert shown + [sep] + after == s;
    assert s[..|shown|] == shown;
    assert s[|shown|] == sep;
    SplitJoin(parts[..n], sep);
  }

  predicate IsDigit(c: char) {
    '0' <= c <= '9'
  }

  /** The longest prefix of decimal digits. */
  function DigitPrefix(s: string): (d: string)
    ensures |d| <= |s| && d == s[..|d|]
    ensures forall i :: 0 <= i < |d| ==> IsDigit(d[i])
    ensures |d| < |s| ==> !IsDigit(s[|d|])
  {
    if s != [] && IsDigit(s[0]) then [s[0]] + DigitPrefix(s[1..]) else []
  }

  /** The value of a string of decimal digits, most significant first. */
  function DigitsValue(d: string): nat
    requires forall i :: 0 <= i < |d| ==> IsDigit(d[i])
  {
    if d == [] then 0
    else
      assert IsDigit(d[|d| - 1]);
      10 * DigitsValue(d[..|d| - 1]) + (d[|d| - 1] as int - '0' as int)
  }

  /** `parseInt(s, 10)`: skip leading whitespace, take an optional sign, then the longest digit
      prefix; `None` stands for NaN (no digit at all). */
  function ParseInt(s: string): Option<int> {
    ParseSigned(TrimStart(s))
  }

  /** The part of `parseInt` after the whitespace: the sign and the digits. */
  function ParseSigned(t: string): Option<int> {
    var d := DigitPrefix(Unsigned(t));
    if d == [] then None
    else if t[0] == '-' then Some(-(DigitsValue(d) as int))
    else Some(DigitsValue(d))
  }

  /** Drops one leading `+` or `-`. */
  function Unsigned(t: string): (u: string)
    ensures t != [] && (t[0] == '+' || t[0] == '-') ==> u == t[1..]
    ensures t == [] || (t[0] != '+' && t[0] != '-') ==> u == t
  {
    if t != [] && (t[0] == '+' || t[0] == '-') then t[1..] else t
  }

  /** The decimal spelling of a natural number, without leading zeros. */
  function DecimalString(n: nat): (s: string)
    ensures s != [] && forall i :: 0 <= i < |s| ==> IsDigit(s[i])
  {
    var c := ('0' as int + n % 10) as char;
    if n < 10 then [c] else DecimalString(n / 10) + [c]
  }

  /** The digits of `DecimalString(n)` have the value `n`. */
  lemma {:induction false} DecimalValue(n: nat)
    ensures DigitsValue(DecimalString(n)) == n
  {
    if n >= 10 {
      DecimalValue(n / 10);
      var s := DecimalString(n);
      assert s[..|s| - 1] == DecimalString(n / 10);
    }
  }

  /** A digit-only string is its own digit prefix. */
  lemma {:induction false} DigitPrefixOfDigits(s: string)
    requires forall i :: 0 <= i < |s| ==> IsDigit(s[i])
    ensures DigitPrefix(s) == s
  {
    if s != [] {
      DigitPrefixOfDigits(s[1..]);
      assert [s[0]] + s[1..] == s;
    }
  }

  /** `parseInt` reads back what `DecimalString` writes, and reads a negative spelling as its negation. */
  lemma ParseIntDecimal(n: nat)
    ensures ParseInt(DecimalString(n)) == Some(n)
    ensures ParseInt("-" + DecimalString(n)) == Some(-(n as int))
  {
    var s := DecimalString(n);
    DecimalValue(n);
    ParseIntDigits(s, n);
    ParseIntNegated(s, n);
  }

  /** A digit string is read as its value. */
  lemma ParseIntDigits(d: string, n: nat)
    requires d != [] && forall i :: 0 <= i < |d| ==> IsDigit(d[i])
    requires DigitsValue(d) == n
    ensures ParseInt(d) == Some(n)
  {
    assert !IsWhitespace(d[0]);
    DigitPrefixOfDigits(d);
    ParseIntUnsigned(d, d, d);
  }

  /** A digit string after a minus sign is read as the negation of its value. */
  lemma ParseIntNegated(d: string, n: nat)
    requires d != [] && forall i :: 0 <= i < |d| ==> IsDigit(d[i])
    requires DigitsValue(d) == n
    ensures ParseInt("-" + d) == Some(-(n as int))
  {
    var m := "-" + d;
    assert m[0] == '-' && m[1..] == d;
    DigitPrefixOfDigits(d);
    ParseSignedMinus(m, d, n);
    ParseIntFrom(m);
  }

  /** Without leading whitespace `parseInt` starts at the sign. */
  lemma ParseIntFrom(m: string)
    requires m != [] && !IsWhitespace(m[0])
    ensures ParseInt(m) == ParseSigned(m)
  {
    TrimStartFrom(m);
  }

  /** A minus sign first: the negated value of the digits after it. */
  lemma ParseSignedMinus(m: string, d: string, n: nat)
    requires d != [] && forall i :: 0 <= i < |d| ==> IsDigit(d[i])
    requires m != [] && m[0] == '-' && DigitPrefix(m[1..]) == d && DigitsValue(d) == n
    ensures ParseSigned(m) == Some(-(n as int))
  {
    assert Unsigned(m) == m[1..];
  }

  /** A string that starts with a non-whitespace character is its own `trimStart`. */
  lemma TrimStartFrom(s: string)
    requires s != [] && !IsWhitespace(s[0])
    ensures TrimStart(s) == s
  {
  }

  /** Leading whitespace and anything after the digits do not change what `parseInt` reads. */
  lemma ParseIntIgnoresSurroundings(ws: string, d: string, rest: string)
    requires forall i :: 0 <= i < |ws| ==> IsWhitespace(ws[i])
    requires d != [] && forall i :: 0 <= i < |d| ==> IsDigit(d[i])
    requires rest == [] || !IsDigit(rest[0])
    ensures ParseInt(ws + d + rest) == Some(DigitsValue(d))
  {
    TrimStartSkipsTo(ws, d, rest);
    DigitPrefixStops(d, rest);
    ParseIntUnsigned(ws + d + rest, d + rest, d);
  }

  /** No sign after the whitespace: `parseInt` reads the value of the leading digits. */
  lemma ParseIntUnsigned(s: string, t: string, d: string)
    requires d != [] && forall i :: 0 <= i < |d| ==> IsDigit(d[i])
    requires TrimStart(s) == t && DigitPrefix(t) == d
    ensures ParseInt(s) == Some(DigitsValue(d))
  {
    assert t[0] == d[0];
    assert Unsigned(t) == t;
  }

  lemma TrimStartSkipsTo(ws: string, d: string, rest: string)
    requires forall i :: 0 <= i < |ws| ==> IsWhitespace(ws[i])
    requires d != [] && forall i :: 0 <= i < |d| ==> IsDigit(d[i])
    ensures TrimStart(ws + d + rest) == d + rest
  {
    var t := d + rest;
    assert t[0] == d[0];
    assert ws + d + rest == ws + t;
    TrimStartSkips(ws, t);
  }

  lemma {:induction false} TrimStartSkips(ws: string, s: string)
    requires forall i :: 0 <= i < |ws| ==> IsWhitespace(ws[i])
    requires s != [] && !IsWhitespace(s[0])
    ensures TrimStart(ws + s) == s
  {
    if ws != [] {
      assert (ws + s)[1..] == ws[1..] + s;
      TrimStartSkips(ws[1..], s);
    }
  }

  lemma {:induction false} DigitPrefixStops(d: string, rest: string)
    requires forall i :: 0 <= i < |d| ==> IsDigit(d[i])
    requires rest == [] || !IsDigit(rest[0])
    ensures DigitPrefix(d + rest) == d
  {
    if d != [] {
      assert (d + rest)[1..] == d[1..] + rest;
      DigitPrefixStops(d[1..], rest);
      assert [d[0]] + d[1..] == d;
    } else {
      assert d + rest == rest;
    }
  }
}
