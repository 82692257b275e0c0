/** String helpers with the semantics of the JavaScript built-ins the renderer
    relies on: `startsWith`-style `indexOf(p) == 0`, `trim`, `substring`,
    number-to-string conversion and `Array.prototype.join`. */
module Strings {

  /** `s.indexOf(p) == 0`: `p` is a prefix of `s`. */
  predicate StartsWith(s: string, p: string)
  {
    |p| <= |s| && s[..|p|] == p
  }

  /** `p` is a suffix of `s` (a regular expression anchored with `$`). */
  predicate EndsWith(s: string, p: string)
  {
    |p| <= |s| && s[|s| - |p|..] == p
  }

  /** The characters ECMAScript's `String.prototype.trim` removes: the
      WhiteSpace production (tab, vertical tab, form feed, space, no-break
      space, byte order mark and the Unicode space separators) and the
      LineTerminator production (line feed, carriage return, line and
      paragraph separators). */
  predicate IsJsWhitespace(c: char)
  {
    var n := c as int;
    n == 0x09 || n == 0x0B || n == 0x0C || n == 0x20 || n == 0xA0 || n == 0xFEFF
    || n == 0x1680 || (0x2000 <= n <= 0x200A) || n == 0x202F || n == 0x205F || n == 0x3000
    || n == 0x0A || n == 0x0D || n == 0x2028 || n == 0x2029
  }

  /** The index of the first character at or after `i` that is not
      whitespace, or `|s|` when there is none. */
  function FirstNonSpace(s: string, i: nat): (r: nat)
    requires i <= |s|
    ensures i <= r <= |s|
    decreases |s| - i
  {
    if i == |s| || !IsJsWhitespace(s[i]) then i else FirstNonSpace(s, i + 1)
  }

  /** The end of `s[..j]` once its trailing whitespace is dropped. */
  function LastNonSpaceEnd(s: string, j: nat): (r: nat)
    requires j <= |s|
    ensures r <= j
  {
    if j == 0 || !IsJsWhitespace(s[j - 1]) then j else LastNonSpaceEnd(s, j - 1)
  }

  lemma {:induction false} FirstNonSpaceSpec(s: string, i: nat)
    requires i <= |s|
    ensures var r := FirstNonSpace(s, i);
            (forall k :: i <= k < r ==> IsJsWhitespace(s[k]))
            && (r < |s| ==> !IsJsWhitespace(s[r]))
    decreases |s| - i
  {
    if i < |s| && IsJsWhitespace(s[i]) {
      FirstNonSpaceSpec(s, i + 1);
    }
  }

  lemma {:induction false} LastNonSpaceEndSpec(s: string, j: nat)
    requires j <= |s|
    ensures var r := LastNonSpaceEnd(s, j);
            (forall k :: r <= k < j ==> IsJsWhitespace(s[k]))
            && (r > 0 ==> !IsJsWhitespace(s[r - 1]))
  {
    if j > 0 && IsJsWhitespace(s[j - 1]) {
      LastNonSpaceEndSpec(s, j - 1);
    }
  }

  /** Drops leading whitespace. */
  function TrimStart(s: string): string
  {
    s[FirstNonSpace(s, 0)..]
  }

  /** Drops trailing whitespace. */
  function TrimEnd(s: string): string
  {
    s[..LastNonSpaceEnd(s, |s|)]
  }

  /** TrimStart removes a prefix made only of whitespace, and no more: what
      is left is empty or starts with a character that is not whitespace. */
  lemma TrimStartSpec(s: string)
    ensures var r := TrimStart(s);
            |r| <= |s| && r == s[|s| - |r|..]
            && (forall k :: 0 <= k < |s| - |r| ==> IsJsWhitespace(s[k]))
            && (r == [] || !IsJsWhitespace(r[0]))
  {
    FirstNonSpaceSpec(s, 0);
  }

  /** TrimEnd removes a suffix made only of whitespace, and no more: what is
      left is empty or ends with a character that is not whitespace. */
  lemma TrimEndSpec(s: string)
    ensures var r := TrimEnd(s);
            |r| <= |s| && r == s[..|r|]
            && (forall k :: |r| <= k < |s| ==> IsJsWhitespace(s[k]))
            && (r == [] || !IsJsWhitespace(r[|r| - 1]))
  {
    LastNonSpaceEndSpec(s, |s|);
  }

  /** `s.trim()`. */
  function Trim(s: string): string
  {
    TrimEnd(TrimStart(s))
  }

  function Min(a: int, b: int): int { if a <= b then a else b }
  function Max(a: int, b: int): int { if a <= b then b else a }

  /** `s.substring(a, b)`: both arguments are clamped to the length of `s`,
      and they are swapped when the first exceeds the second. */
  function Substring(s: string, a: nat, b: nat): (r: string)
    ensures |r| <= |s|
    ensures a <= b <= |s| ==> r == s[a..b]
    ensures b <= a <= |s| ==> r == s[b..a]
    ensures a <= |s| <= b ==> r == s[a..]
    ensures b <= |s| <= a ==> r == s[b..]
    ensures |s| <= a && |s| <= b ==> r == []
  {
    var x, y := Min(a, |s|), Min(b, |s|);
    s[Min(x, y)..Max(x, y)]
  }

  predicate IsDigit(c: char)
  {
    '0' <= c <= '9'
  }

  function DigitChar(d: nat): (c: char)
    requires d < 10
    ensures IsDigit(c)
  {
    "0123456789"[d]
  }

  /** `String(n)` for a non-negative integer: its decimal digits, without
      leading zeros. */
  function Decimal(n: nat): (r: string)
    ensures |r| >= 1
    ensures forall k :: 0 <= k < |r| ==> IsDigit(r[k])
  {
    if n < 10 then [DigitChar(n)] else Decimal(n / 10) + [DigitChar(n % 10)]
  }

  /** The number a string of decimal digits denotes. */
  function DigitsValue(s: string): nat
  {
    if s == [] then 0
    else
      var c := s[|s| - 1];
      DigitsValue(s[..|s| - 1]) * 10 + (if IsDigit(c) then (c as int - '0' as int) else 0)
  }

  /** Reading back the decimal rendering of `n` gives `n`. */
  lemma {:induction false} DecimalRoundTrip(n: nat)
    ensures DigitsValue(Decimal(n)) == n
  {
    if n < 10 {
      assert Decimal(n)[..0] == [];
    } else {
      DecimalRoundTrip(n / 10);
      var s := Decimal(n);
      assert s[..|s| - 1] == Decimal(n / 10);
    }
  }

  /** Distinct numbers have distinct decimal renderings. */
  lemma DecimalInjective(m: nat, n: nat)
    requires Decimal(m) == Decimal(n)
    ensures m == n
  {
    DecimalRoundTrip(m);
    DecimalRoundTrip(n);
  }

  /** `parts.join('')`. */
  function Concat(parts: seq<string>): string
  {
    if parts == [] then "" else Concat(parts[..|parts| - 1]) + parts[|parts| - 1]
  }

  /** `parts.join(sep)`. */
  function Join(parts: seq<string>, sep: string): string
  {
    if parts == [] then ""
    else if |parts| == 1 then parts[0]
    else Join(parts[..|parts| - 1], sep) + sep + parts[|parts| - 1]
  }

  /** Putting the parts one after the other is joining them with the empty
      separator. */
  lemma {:induction false} ConcatIsJoin(parts: seq<string>)
    ensures Concat(parts) == Join(parts, "")
    decreases |parts|
  {
    if |parts| == 1 {
      assert Concat(parts[..0]) == "";
    } else if |parts| > 1 {
      var init, last := parts[..|parts| - 1], parts[|parts| - 1];
      ConcatIsJoin(init);
      assert Join(init, "") + "" == Join(init, "");
    }
  }
}
