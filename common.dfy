/** Shared vocabulary: optional values, the three-way progress status, and the
    handful of JavaScript / Python string primitives the core relies on
    (case mapping, `includes`, trimming, number formatting and parsing,
    UTF-16 length). */
module Common {

  datatype Option<T> = None | Some(value: T) {
    function GetOr(default: T): T {
      match this
      case Some(v) => v
      case None => default
    }
  }

  /** The status strings "locked" | "unlocked" | "completed" used by every map page. */
  datatype Status = Locked | Unlocked | Completed

  // ---------------------------------------------------------------------------
  // Sequences

  /** `xs.includes(x)` / Python `x in xs`. */
  predicate Has<T(==)>(xs: seq<T>, x: T) {
    x in xs
  }

  /** No element occurs twice. */
  predicate NoDup<T(==)>(xs: seq<T>) {
    forall i, j :: 0 <= i < j < |xs| ==> xs[i] != xs[j]
  }

  /** `sub` is obtained from `s` by deleting elements (order kept). */
  predicate IsSubsequence<T(==)>(sub: seq<T>, s: seq<T>)
    decreases |s|
  {
    if sub == [] then true
    else if s == [] then false
    else if sub[0] == s[0] then IsSubsequence(sub[1..], s[1..])
    else IsSubsequence(sub, s[1..])
  }

  lemma {:induction false} SubsequenceElements<T>(sub: seq<T>, s: seq<T>)
    requires IsSubsequence(sub, s)
    ensures forall x :: x in sub ==> x in s
    decreases |s|
  {
    if sub != [] && s != [] {
      if sub[0] == s[0] {
        SubsequenceElements(sub[1..], s[1..]);
        assert forall x :: x in sub ==> x == sub[0] || x in sub[1..];
      } else {
        SubsequenceElements(sub, s[1..]);
      }
    }
  }

  /** A subsequence of the tail is a subsequence. */
  lemma {:induction false} SubsequenceSkip<T>(sub: seq<T>, s: seq<T>)
    requires s != [] && IsSubsequence(sub, s[1..])
    ensures IsSubsequence(sub, s)
    decreases |s|, 0
  {
    if sub != [] && sub[0] == s[0] {
      SubsequenceDrop(sub, s[1..]);
    }
  }

  /** Dropping the head of a subsequence keeps it a subsequence. */
  lemma {:induction false} SubsequenceDrop<T>(sub: seq<T>, s: seq<T>)
    requires sub != [] && IsSubsequence(sub, s)
    ensures IsSubsequence(sub[1..], s)
    decreases |s|, 1
  {
    if s != [] {
      if sub[0] == s[0] {
        if sub[1..] != [] {
          SubsequenceSkip(sub[1..], s);
        }
      } else {
        SubsequenceDrop(sub, s[1..]);
        if sub[1..] != [] {
          SubsequenceSkip(sub[1..], s);
        }
      }
    }
  }

  // ---------------------------------------------------------------------------
  // Characters and case mapping

  predicate IsAsciiDigit(c: char) { '0' <= c <= '9' }

  /** The regular-expression class `\w` (no `u` flag): `[A-Za-z0-9_]`. */
  predicate IsWordChar(c: char) {
    ('a' <= c <= 'z') || ('A' <= c <= 'Z') || IsAsciiDigit(c) || c == '_'
  }

  /** The characters of the regular-expression class `\s`, which are also the
      characters removed by `String.prototype.trim`. */
  predicate IsJsWhitespace(c: char) {
    c == '\t' || c == '\n' || c == '\U{000B}' || c == '\U{000C}' || c == '\r' || c == ' '
    || c == '\U{00A0}' || c == '\U{1680}' || ('\U{2000}' <= c <= '\U{200A}')
    || c == '\U{2028}' || c == '\U{2029}' || c == '\U{202F}' || c == '\U{205F}'
    || c == '\U{3000}' || c == '\U{FEFF}'
  }

  /** The characters that `.` in a regular expression does not match. */
  predicate IsLineTerminator(c: char) {
    c == '\n' || c == '\r' || c == '\U{2028}' || c == '\U{2029}'
  }

  /** Case folding used by a case-insensitive regular expression without the
      `u` flag: only ASCII letters are folded. */
  function AsciiLower(c: char): (r: char)
    ensures IsWordChar(c) <==> IsWordChar(r)
    ensures ('A' <= c <= 'Z') || r == c
    ensures 'A' <= c <= 'Z' ==> 'a' <= r <= 'z'
  {
    if 'A' <= c <= 'Z' then (c as int + 32) as char else c
  }

  /** The lower-case form of one character under `toLowerCase()` / `str.lower()`:
      ASCII and Latin-1 capitals, KELVIN SIGN (to `k`) and LATIN CAPITAL LETTER I
      WITH DOT ABOVE (to `i` + COMBINING DOT ABOVE). */
  function LowerChar(c: char): seq<char> {
    if 'A' <= c <= 'Z' then [(c as int + 32) as char]
    else if '\U{00C0}' <= c <= '\U{00DE}' && c != '\U{00D7}' then [(c as int + 32) as char]
    else if c == '\U{212A}' then ['k']
    else if c == '\U{0130}' then ['i', '\U{0307}']
    else [c]
  }

  function Lower(s: string): (r: string)
    decreases |s|
  {
    if s == [] then [] else LowerChar(s[0]) + Lower(s[1..])
  }

  lemma {:induction false} LowerAppend(a: string, b: string)
    ensures Lower(a + b) == Lower(a) + Lower(b)
    decreases |a|
  {
    if a == [] {
      assert a + b == b;
    } else {
      assert (a + b)[1..] == a[1..] + b;
      LowerAppend(a[1..], b);
    }
  }

  lemma LowerCharIsLower(c: char)
    ensures Lower(LowerChar(c)) == LowerChar(c)
  {
    var l := LowerChar(c);
    if |l| == 1 {
      assert Lower(l) == LowerChar(l[0]) + Lower([]);
    } else {
      assert l == ['i', '\U{0307}'];
      assert Lower(l) == LowerChar('i') + Lower(['\U{0307}']);
    }
  }

  /** Lower-casing twice is lower-casing once. */
  lemma {:induction false} LowerIdempotent(s: string)
    ensures Lower(Lower(s)) == Lower(s)
    decreases |s|
  {
    if s != [] {
      LowerAppend(LowerChar(s[0]), Lower(s[1..]));
      LowerCharIsLower(s[0]);
      LowerIdempotent(s[1..]);
    }
  }

  // ---------------------------------------------------------------------------
  // Searching in strings

  predicate StartsWith(s: string, p: string) {
    |p| <= |s| && s[..|p|] == p
  }

  /** `s.includes(p)` / Python `p in s`. */
  predicate Contains(s: string, p: string)
    decreases |s|
  {
    StartsWith(s, p) || (s != [] && Contains(s[1..], p))
  }

  /** `Contains` is occurrence at some index. */
  lemma {:induction false} ContainsAt(s: string, p: string)
    ensures Contains(s, p) <==> exists i :: 0 <= i <= |s| && StartsWith(s[i..], p)
    decreases |s|
  {
    if s == [] {
      assert s[0..] == s;
    } else {
      ContainsAt(s[1..], p);
      if Contains(s, p) {
        if StartsWith(s, p) {
          assert s[0..] == s;
        } else {
          var i :| 0 <= i <= |s[1..]| && StartsWith(s[1..][i..], p);
          assert s[1..][i..] == s[i + 1..];
        }
      }
      if exists i :: 0 <= i <= |s| && StartsWith(s[i..], p) {
        var i :| 0 <= i <= |s| && StartsWith(s[i..], p);
        if i == 0 {
          assert s[0..] == s;
        } else {
          assert s[1..][i - 1..] == s[i..];
          assert Contains(s[1..], p);
        }
      }
    }
  }

  // ---------------------------------------------------------------------------
  // Trimming (`String.prototype.trim`)

  function TrimStart(s: string): (r: string)
    ensures |r| <= |s| && r == s[|s| - |r|..]
    ensures r != [] ==> !IsJsWhitespace(r[0])
    decreases |s|
  {
    if s != [] && IsJsWhitespace(s[0]) then TrimStart(s[1..]) else s
  }

  function TrimEnd(s: string): (r: string)
    ensures |r| <= |s| && r == s[..|r|]
    ensures r != [] ==> !IsJsWhitespace(r[|r| - 1])
    decreases |s|
  {
    if s != [] && IsJsWhitespace(s[|s| - 1]) then TrimEnd(s[..|s| - 1]) else s
  }

  /** The text without its leading and trailing whitespace: what remains
      neither starts nor ends with whitespace. */
  function Trim(s: string): (r: string)
    ensures |r| <= |s|
    ensures r != [] ==> !IsJsWhitespace(r[0]) && !IsJsWhitespace(r[|r| - 1])
  {
    TrimEnd(TrimStart(s))
  }

  predicate AllWhitespace(w: string) {
    forall i :: 0 <= i < |w| ==> IsJsWhitespace(w[i])
  }

  lemma {:induction false} TrimStartSkips(w: string, s: string)
    requires AllWhitespace(w)
    ensures TrimStart(w + s) == TrimStart(s)
    decreases |w|
  {
    if w == [] {
      assert w + s == s;
    } else {
      assert (w + s)[1..] == w[1..] + s;
      TrimStartSkips(w[1..], s);
    }
  }

  lemma {:induction false} TrimEndSkips(s: string, w: string)
    requires AllWhitespace(w)
    ensures TrimEnd(s + w) == TrimEnd(s)
    decreases |w|
  {
    if w == [] {
      assert s + w == s;
    } else {
      var w' := w[..|w| - 1];
      assert (s + w)[..|s + w| - 1] == s + w';
      TrimEndSkips(s, w');
    }
  }

  /** Once a non-blank character is reached, what follows is kept verbatim. */
  lemma {:induction false} TrimStartKeepsTail(s: string, x: string)
    requires !AllWhitespace(s)
    ensures TrimStart(s + x) == TrimStart(s) + x
    decreases |s|
  {
    if IsJsWhitespace(s[0]) {
      assert (s + x)[1..] == s[1..] + x;
      assert !AllWhitespace(s[1..]) by {
        var i :| 0 <= i < |s| && !IsJsWhitespace(s[i]);
        assert s[1..][i - 1] == s[i];
      }
      TrimStartKeepsTail(s[1..], x);
    }
  }

  lemma {:induction false} TrimStartAllBlank(s: string)
    requires AllWhitespace(s)
    ensures TrimStart(s) == []
    decreases |s|
  {
    if s != [] {
      TrimStartAllBlank(s[1..]);
    }
  }

  /** Surrounding a string with blanks does not change what `trim` returns. */
  lemma TrimIgnoresPadding(w1: string, s: string, w2: string)
    requires AllWhitespace(w1) && AllWhitespace(w2)
    ensures Trim(w1 + s + w2) == Trim(s)
  {
    assert w1 + s + w2 == w1 + (s + w2);
    TrimStartSkips(w1, s + w2);
    if AllWhitespace(s) {
      assert AllWhitespace(s + w2);
      TrimStartAllBlank(s + w2);
      TrimStartAllBlank(s);
    } else {
      TrimStartKeepsTail(s, w2);
      TrimEndSkips(TrimStart(s), w2);
    }
  }

  // ---------------------------------------------------------------------------
  // Number formatting: `String(n)` / Python `str(n)` for integers

  function DigitChar(d: nat): (c: char)
    requires d < 10
    ensures IsAsciiDigit(c)
  {
    ('0' as int + d) as char
  }

  function NatToString(n: nat): (r: string)
    decreases n
  {
    if n < 10 then [DigitChar(n)] else NatToString(n / 10) + [DigitChar(n % 10)]
  }

  /** `Number.MAX_SAFE_INTEGER`, 2^53 - 1: up to this magnitude every integer
      is a JavaScript number of its own and `String` prints it in plain
      decimal. */
  const MaxSafeInteger := 0x1F_FFFF_FFFF_FFFF

  predicate IsSafeInteger(i: int) {
    -MaxSafeInteger <= i <= MaxSafeInteger
  }

  /** `String(i)` for a safe integer, and Python `str(i)` for any integer. */
  function IntToString(i: int): string {
    if i < 0 then "-" + NatToString(-i) else NatToString(i)
  }

  lemma {:induction false} NatToStringShape(n: nat)
    ensures |NatToString(n)| >= 1
    ensures n >= 10 ==> |NatToString(n)| >= 2
    ensures forall k :: 0 <= k < |NatToString(n)| ==> IsAsciiDigit(NatToString(n)[k])
    decreases n
  {
    if n >= 10 {
      NatToStringShape(n / 10);
    }
  }

  /** Different numbers print differently. */
  lemma {:induction false} NatToStringInjective(a: nat, b: nat)
    requires NatToString(a) == NatToString(b)
    ensures a == b
    decreases a
  {
    NatToStringShape(a);
    NatToStringShape(b);
    var sa, sb := NatToString(a), NatToString(b);
    if a < 10 && b < 10 {
      assert sa[0] == DigitChar(a) && sb[0] == DigitChar(b);
    } else if a >= 10 && b >= 10 {
      assert sa[|sa| - 1] == DigitChar(a % 10) && sb[|sb| - 1] == DigitChar(b % 10);
      assert NatToString(a / 10) == sa[..|sa| - 1] == sb[..|sb| - 1] == NatToString(b / 10);
      NatToStringInjective(a / 10, b / 10);
    }
  }

  // ---------------------------------------------------------------------------
  // `parseInt(s)` (radix 10): leading blanks, an optional sign, then the longest
  // run of decimal digits; no digits gives NaN, modelled as None.

  function DigitsValue(s: string, acc: nat): (r: nat)
    decreases |s|
  {
    if s != [] && IsAsciiDigit(s[0]) then DigitsValue(s[1..], acc * 10 + (s[0] as int - '0' as int))
    else acc
  }

  function JsParseInt(s: string): (r: Option<int>) {
    var t := TrimStart(s);
    var neg := t != [] && t[0] == '-';
    var body := if t != [] && (t[0] == '-' || t[0] == '+') then t[1..] else t;
    if body == [] || !IsAsciiDigit(body[0]) then None
    else
      var v: int := DigitsValue(body, 0);
      Some(if neg then -v else v)
  }

  lemma {:induction false} DigitsValueOfPrinted(n: nat, rest: string, acc: nat)
    requires rest == [] || !IsAsciiDigit(rest[0])
    ensures DigitsValue(NatToString(n) + rest, acc) == DigitsValue(NatToString(n), acc)
    decreases n
  {
    NatToStringShape(n);
    DigitsValueAppend(NatToString(n), rest, acc);
  }

  lemma {:induction false} DigitsValueAppend(s: string, rest: string, acc: nat)
    requires forall k :: 0 <= k < |s| ==> IsAsciiDigit(s[k])
    requires rest == [] || !IsAsciiDigit(rest[0])
    ensures DigitsValue(s + rest, acc) == DigitsValue(s, acc)
    decreases |s|
  {
    if s == [] {
      assert s + rest == rest;
    } else {
      assert (s + rest)[0] == s[0];
      assert (s + rest)[1..] == s[1..] + rest;
      DigitsValueAppend(s[1..], rest, acc * 10 + (s[0] as int - '0' as int));
    }
  }

  lemma {:induction false} DigitsValueConcat(s: string, d: nat, acc: nat)
    requires forall k :: 0 <= k < |s| ==> IsAsciiDigit(s[k])
    requires d < 10
    ensures DigitsValue(s + [DigitChar(d)], acc) == DigitsValue(s, acc) * 10 + d
    decreases |s|
  {
    if s == [] {
      assert s + [DigitChar(d)] == [DigitChar(d)];
      assert [DigitChar(d)][1..] == [];
    } else {
      assert (s + [DigitChar(d)])[1..] == s[1..] + [DigitChar(d)];
      DigitsValueConcat(s[1..], d, acc * 10 + (s[0] as int - '0' as int));
    }
  }

  /** Reading back a printed number gives the number. */
  lemma {:induction false} DigitsValueRoundTrip(n: nat)
    ensures DigitsValue(NatToString(n), 0) == n
    decreases n
  {
    if n < 10 {
      assert NatToString(n)[1..] == [];
    } else {
      NatToStringShape(n / 10);
      DigitsValueConcat(NatToString(n / 10), n % 10, 0);
      DigitsValueRoundTrip(n / 10);
    }
  }

  /** `parseInt(String(i)) == i` for every safe integer. */
  lemma ParseIntRoundTrip(i: int)
    requires IsSafeInteger(i)
    ensures JsParseInt(IntToString(i)) == Some(i)
  {
    var n: nat := if i < 0 then -i else i;
    NatToStringShape(n);
    DigitsValueRoundTrip(n);
    var s := IntToString(i);
    assert !IsJsWhitespace(s[0]);
    assert TrimStart(s) == s;
    if i < 0 {
      assert s[1..] == NatToString(n);
    }
  }

  // ---------------------------------------------------------------------------
  // `.length` of a JavaScript string counts UTF-16 code units.

  function Utf16Length(s: string): (n: nat)
    decreases |s|
  {
    if s == [] then 0 else (if s[0] as int > 0xFFFF then 2 else 1) + Utf16Length(s[1..])
  }

  lemma {:induction false} Utf16LengthBounds(s: string)
    ensures |s| <= Utf16Length(s) <= 2 * |s|
    decreases |s|
  {
    if s != [] {
      Utf16LengthBounds(s[1..]);
    }
  }
}
