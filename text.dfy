/**
 * The handful of Python string operations the engine relies on: `str.strip()`,
 * slicing `s[:n]`, substring membership `sub in s` and `f"{n:02d}"`.
 */
module PyText {

  /** Python's `str.isspace()` for one character (the Unicode whitespace set). */
  predicate IsSpace(c: char)
  {
    || ('\U{0009}' <= c <= '\U{000D}')
    || ('\U{001C}' <= c <= '\U{0020}')
    || c == '\U{0085}' || c == '\U{00A0}' || c == '\U{1680}'
    || ('\U{2000}' <= c <= '\U{200A}')
    || c == '\U{2028}' || c == '\U{2029}' || c == '\U{202F}' || c == '\U{205F}' || c == '\U{3000}'
  }

  /** Number of leading whitespace characters of `s`. */
  function Leading(s: string): (n: nat)
    ensures n <= |s|
  {
    if s == [] || !IsSpace(s[0]) then 0 else 1 + Leading(s[1..])
  }

  /** `Leading` counts exactly the whitespace run at the front. */
  lemma {:induction false} LeadingSpaces(s: string)
    ensures var n := Leading(s);
            && (forall k :: 0 <= k < n ==> IsSpace(s[k]))
            && (n < |s| ==> !IsSpace(s[n]))
  {
    if s != [] && IsSpace(s[0]) {
      LeadingSpaces(s[1..]);
    }
  }

  /** Number of trailing whitespace characters of `s`. */
  function Trailing(s: string): (n: nat)
    ensures n <= |s|
  {
    if s == [] || !IsSpace(s[|s| - 1]) then 0 else 1 + Trailing(s[..|s| - 1])
  }

  /** `Trailing` counts exactly the whitespace run at the back. */
  lemma {:induction false} TrailingSpaces(s: string)
    ensures var n := Trailing(s);
            && (forall k :: |s| - n <= k < |s| ==> IsSpace(s[k]))
            && (n < |s| ==> !IsSpace(s[|s| - 1 - n]))
  {
    if s != [] && IsSpace(s[|s| - 1]) {
      TrailingSpaces(s[..|s| - 1]);
    }
  }

  /** `s.strip()`: `s` without its leading and trailing whitespace. */
  function Strip(s: string): string
  {
    var a := Leading(s);
    if a == |s| then [] else s[a..|s| - Trailing(s[a..])]
  }

  /**
   * What `Strip` keeps: a slice of `s` that is empty or starts and ends with a
   * non-space, with only whitespace cut away on either side.
   */
  lemma StripTrims(s: string)
    ensures var r := Strip(s);
            && |r| <= |s|
            && (r == [] || (!IsSpace(r[0]) && !IsSpace(r[|r| - 1])))
            && exists a :: SliceWithin(s, r, a)
  {
    var a := Leading(s);
    LeadingSpaces(s);
    if a == |s| {
      assert SliceWithin(s, [], 0);
    } else {
      TrailingSpaces(s[a..]);
      var b := |s| - Trailing(s[a..]);
      assert SliceWithin(s, s[a..b], a);
    }
  }

  /** Stripping text that neither starts nor ends with whitespace changes nothing. */
  lemma StripUntrimmed(s: string)
    requires s != [] && !IsSpace(s[0]) && !IsSpace(s[|s| - 1])
    ensures Strip(s) == s
  {
    StripTrims(s);
    var a :| SliceWithin(s, Strip(s), a);
  }

  /** `r` is `s[a..a + |r|]` and everything of `s` around it is whitespace. */
  predicate SliceWithin(s: string, r: string, a: int)
  {
    && 0 <= a <= |s| - |r| && r == s[a..a + |r|]
    && (forall k :: 0 <= k < a ==> IsSpace(s[k]))
    && (forall k :: a + |r| <= k < |s| ==> IsSpace(s[k]))
  }

  /** Python's slice `s[:n]` for `n >= 0`: the first `n` elements, or all of them. */
  function Take<T>(s: seq<T>, n: nat): (r: seq<T>)
    ensures |r| == if |s| <= n then |s| else n
    ensures r == s[..|r|]
  {
    if |s| <= n then s else s[..n]
  }

  /** `sub` occurs in `s` as a contiguous substring. */
  ghost predicate Occurs(sub: string, s: string)
  {
    exists i :: OccursAt(sub, s, i)
  }

  /** `sub` occurs in `s` starting at index `i`. */
  predicate OccursAt(sub: string, s: string, i: int)
  {
    0 <= i <= |s| - |sub| && s[i..i + |sub|] == sub
  }

  /** Python's `sub in s` for two strings. */
  function Contains(s: string, sub: string): (r: bool)
    ensures r <==> Occurs(sub, s)
    decreases |s|
  {
    if |s| < |sub| then false
    else if s[..|sub|] == sub then
      assert OccursAt(sub, s, 0);
      true
    else
      OccursTail(s, sub);
      Contains(s[1..], sub)
  }

  /** When `sub` is not a prefix of `s`, it occurs in `s` iff it occurs in `s[1..]`. */
  lemma OccursTail(s: string, sub: string)
    requires |s| >= |sub| && s[..|sub|] != sub
    ensures Occurs(sub, s) <==> Occurs(sub, s[1..])
  {
    if Occurs(sub, s) {
      var i :| OccursAt(sub, s, i);
      assert i > 0;
      assert OccursAt(sub, s[1..], i - 1);
    }
    if Occurs(sub, s[1..]) {
      var i :| OccursAt(sub, s[1..], i);
      assert OccursAt(sub, s, i + 1);
    }
  }

  /** The decimal digit character for `d`. */
  function Digit(d: nat): char
    requires d < 10
  {
    "0123456789"[d]
  }

  predicate IsDigit(c: char)
  {
    '0' <= c <= '9'
  }

  /** `str(n)` for a natural number. */
  function Decimal(n: nat): string
  {
    if n < 10 then [Digit(n)] else Decimal(n / 10) + [Digit(n % 10)]
  }

  /** `str(n)` is a non-empty run of digits. */
  lemma {:induction false} DecimalDigits(n: nat)
    ensures |Decimal(n)| > 0
    ensures forall k :: 0 <= k < |Decimal(n)| ==> IsDigit(Decimal(n)[k])
  {
    if n >= 10 {
      DecimalDigits(n / 10);
    }
  }

  /** `f"{n:02d}"` for a natural number: zero-padded to at least two digits. */
  function Pad2(n: nat): string
  {
    if n < 10 then "0" + Decimal(n) else Decimal(n)
  }

  /** `f"{n:02d}"` is a run of at least two digits. */
  lemma Pad2Digits(n: nat)
    ensures |Pad2(n)| >= 2
    ensures forall k :: 0 <= k < |Pad2(n)| ==> IsDigit(Pad2(n)[k])
  {
    DecimalDigits(n);
    if n >= 10 {
      DecimalDigits(n / 10);
    }
  }

  /** Reads a string of decimal digits back as a number. */
  function ParseDecimal(s: string): nat
  {
    if s == [] then 0
    else ParseDecimal(s[..|s| - 1]) * 10 + (if IsDigit(s[|s| - 1]) then (s[|s| - 1] - '0') as nat else 0)
  }

  /** The longest prefix of `s` made of decimal digits. */
  function DigitPrefix(s: string): (r: string)
    ensures r <= s
  {
    if s == [] || !IsDigit(s[0]) then [] else [s[0]] + DigitPrefix(s[1..])
  }

  lemma {:induction false} DecimalRoundTrip(n: nat)
    ensures ParseDecimal(Decimal(n)) == n
  {
    if n < 10 {
      assert Decimal(n)[..0] == [];
    } else {
      var s := Decimal(n);
      assert s[..|s| - 1] == Decimal(n / 10);
      DecimalRoundTrip(n / 10);
    }
  }

  lemma {:induction false} LeadingZeroIgnored(s: string)
    ensures ParseDecimal("0" + s) == ParseDecimal(s)
    decreases |s|
  {
    if s != [] {
      var t := "0" + s;
      assert t[..|t| - 1] == "0" + s[..|s| - 1];
      LeadingZeroIgnored(s[..|s| - 1]);
    } else {
      assert ("0" + s)[..0] == [];
    }
  }

  /** Reading `Pad2(n)` back gives `n`: the zero padding loses nothing. */
  lemma Pad2RoundTrip(n: nat)
    ensures ParseDecimal(Pad2(n)) == n
  {
    DecimalRoundTrip(n);
    if n < 10 {
      LeadingZeroIgnored(Decimal(n));
    }
  }

  /** A run of digits followed by a non-digit is exactly the digit prefix. */
  lemma {:induction false} DigitPrefixOf(digits: string, rest: string)
    requires forall k :: 0 <= k < |digits| ==> IsDigit(digits[k])
    requires rest != [] && !IsDigit(rest[0])
    ensures DigitPrefix(digits + rest) == digits
    decreases |digits|
  {
    if digits == [] {
      assert digits + rest == rest;
    } else {
      assert (digits + rest)[1..] == digits[1..] + rest;
      DigitPrefixOf(digits[1..], rest);
    }
  }
}
