/**
 * The JavaScript string operations the core relies on: `String.prototype.trim`,
 * `String(n)` for a non-negative integer, `padStart` with "0", the relational
 * `<` on strings, substring containment and `parseInt(s, 10)`.
 *
 * Strings are sequences of Dafny `char`s (Unicode scalar values); JavaScript
 * compares UTF-16 code units, which orders the same way on every string this
 * model compares (ASCII digits and dashes).
 */
module JsString {
  import opened Wrappers

  /** JavaScript truthiness of a string that may be missing: present and not empty. */
  predicate Truthy(v: Option<string>) {
    v.Some? && v.value != ""
  }

  /** The WhiteSpace and LineTerminator code points of ECMAScript, the set `trim` and `parseInt` skip. */
  predicate IsWhiteSpace(c: char) {
    || c == '\U{0009}' || c == '\U{000B}' || c == '\U{000C}' || c == ' '
    || c == '\U{00A0}' || c == '\U{FEFF}'
    || c == '\U{1680}' || ('\U{2000}' <= c <= '\U{200A}') || c == '\U{202F}'
    || c == '\U{205F}' || c == '\U{3000}'
    || c == '\U{000A}' || c == '\U{000D}' || c == '\U{2028}' || c == '\U{2029}'
  }

  predicate AllWhiteSpace(s: string) {
    forall k :: 0 <= k < |s| ==> IsWhiteSpace(s[k])
  }

  /** How many white-space characters `s` starts with. */
  function LeadingWhiteSpace(s: string): (n: nat)
    ensures n <= |s|
    ensures forall k :: 0 <= k < n ==> IsWhiteSpace(s[k])
    ensures n < |s| ==> !IsWhiteSpace(s[n])
  {
    if s != [] && IsWhiteSpace(s[0]) then 1 + LeadingWhiteSpace(s[1..]) else 0
  }

  /** `s.trimStart()`: the suffix of `s` after its leading white space. */
  function TrimStart(s: string): (r: string)
    ensures |r| <= |s| && r == s[|s| - |r|..]
    ensures AllWhiteSpace(s[..|s| - |r|])
    ensures r == [] || !IsWhiteSpace(r[0])
  {
    s[LeadingWhiteSpace(s)..]
  }

  /** `s.trimEnd()`: the prefix of `s` before its trailing white space. */
  function TrimEnd(s: string): (r: string)
    ensures |r| <= |s| && r == s[..|r|]
    ensures AllWhiteSpace(s[|r|..])
    ensures r == [] || !IsWhiteSpace(r[|r| - 1])
  {
    if s != [] && IsWhiteSpace(s[|s| - 1]) then
      var r := TrimEnd(s[..|s| - 1]);
      assert s[|r|..] == s[..|s| - 1][|r|..] + [s[|s| - 1]];
      r
    else s
  }

  /** `s.trim()`. */
  function Trim(s: string): string {
    TrimEnd(TrimStart(s))
  }

  /** `trim` yields a contiguous slice of `s` that neither starts nor ends with white space, and drops only white space. */
  lemma TrimIsCore(s: string)
    ensures exists i, j :: 0 <= i <= j <= |s| && Trim(s) == s[i..j]
                           && AllWhiteSpace(s[..i]) && AllWhiteSpace(s[j..])
    ensures Trim(s) == [] || (!IsWhiteSpace(Trim(s)[0]) && !IsWhiteSpace(Trim(s)[|Trim(s)| - 1]))
  {
    var t := TrimStart(s);
    var e := TrimEnd(t);
    var i := |s| - |t|;
    var j := i + |e|;
    assert Trim(s) == e == s[i..j];
    assert s[j..] == t[|e|..];
    assert AllWhiteSpace(s[..i]) && AllWhiteSpace(s[j..]);
    if e != [] {
      assert e[0] == t[0];
    }
  }

  /** `s.trim() === ''` holds exactly for strings made only of white space. */
  lemma TrimEmptyIffAllWhiteSpace(s: string)
    ensures Trim(s) == [] <==> AllWhiteSpace(s)
  {
    var t := TrimStart(s);
    assert s == s[..|s| - |t|] + t;
    if Trim(s) == [] {
      assert AllWhiteSpace(t) by {
        assert t[0..] == t;
      }
    }
  }

  /** Trimming twice is trimming once. */
  lemma TrimIdempotent(s: string)
    ensures Trim(Trim(s)) == Trim(s)
  {
    var r := Trim(s);
    TrimIsCore(s);
    if r != [] {
      assert TrimStart(r) == r;
    }
  }

  /** The character of a decimal digit 0..9. */
  function DigitChar(n: nat): (c: char)
    requires n < 10
    ensures '0' <= c <= '9'
  {
    (('0' as int) + n) as char
  }

  predicate IsDigit(c: char) {
    '0' <= c <= '9'
  }

  function DigitValue(c: char): (n: nat)
    requires IsDigit(c)
    ensures n < 10 && DigitChar(n) == c
  {
    (c as int) - ('0' as int)
  }

  /** `String(n)` for a non-negative integer: its decimal digits without leading zeros. */
  function DecimalString(n: nat): (r: string)
    ensures 1 <= |r| && forall k :: 0 <= k < |r| ==> IsDigit(r[k])
    ensures |r| > 1 ==> r[0] != '0'
    decreases n
  {
    if n < 10 then [DigitChar(n)] else DecimalString(n / 10) + [DigitChar(n % 10)]
  }

  /** The value of a string of decimal digits, most significant first. */
  function DigitsValue(s: string): nat
    requires forall k :: 0 <= k < |s| ==> IsDigit(s[k])
  {
    if s == [] then 0 else 10 * DigitsValue(s[..|s| - 1]) + DigitValue(s[|s| - 1])
  }

  /** Reading back the decimal digits of `n` gives `n`. */
  lemma {:induction false} DecimalStringValue(n: nat)
    ensures DigitsValue(DecimalString(n)) == n
    decreases n
  {
    if n >= 10 {
      DecimalStringValue(n / 10);
      var s := DecimalString(n);
      assert s[..|s| - 1] == DecimalString(n / 10);
      assert DigitValue(s[|s| - 1]) == n % 10;
    }
  }

  /** `s.padStart(width, "0")`. */
  function PadStartZero(s: string, width: nat): (r: string)
    ensures |r| == if |s| < width then width else |s|
    ensures r[|r| - |s|..] == s
    ensures forall k :: 0 <= k < |r| - |s| ==> r[k] == '0'
    decreases width - |s|
  {
    if |s| < width then
      var t := ['0'] + s;
      var r := PadStartZero(t, width);
      assert r[|r| - |s|..] == r[|r| - |t|..][1..];
      r
    else s
  }

  /** The digits of `n` written in exactly `width` places, most significant first. */
  function FixedDigits(n: nat, width: nat): (r: string)
    ensures |r| == width && forall k :: 0 <= k < |r| ==> IsDigit(r[k])
  {
    if width == 0 then [] else FixedDigits(n / 10, width - 1) + [DigitChar(n % 10)]
  }

  /** JavaScript's `a < b` on strings: lexicographic, a proper prefix comes first. */
  predicate StrLess(a: string, b: string) {
    if a == [] then b != []
    else if b == [] then false
    else if a[0] != b[0] then a[0] < b[0]
    else StrLess(a[1..], b[1..])
  }

  /** `<` on strings is irreflexive. */
  lemma {:induction false} StrLessIrreflexive(a: string)
    ensures !StrLess(a, a)
  {
    if a != [] {
      StrLessIrreflexive(a[1..]);
    }
  }

  /** Comparing two strings that start with prefixes of equal length compares the prefixes first. */
  lemma {:induction false} StrLessConcat(p: string, s: string, q: string, t: string)
    requires |p| == |q|
    ensures StrLess(p + s, q + t) == if p == q then StrLess(s, t) else StrLess(p, q)
    decreases |p|
  {
    if p == [] {
      assert p + s == s && q + t == t;
    } else {
      assert (p + s)[0] == p[0] && (q + t)[0] == q[0];
      assert (p + s)[1..] == p[1..] + s;
      assert (q + t)[1..] == q[1..] + t;
      StrLessConcat(p[1..], s, q[1..], t);
      if p[0] == q[0] {
        assert p == q <==> p[1..] == q[1..] by {
          if p[1..] == q[1..] {
            assert p == [p[0]] + p[1..] && q == [q[0]] + q[1..];
          }
        }
      } else {
        assert p != q;
      }
    }
  }

  function Pow10(w: nat): (r: nat)
    ensures r >= 1
  {
    if w == 0 then 1 else 10 * Pow10(w - 1)
  }

  /** Two fixed-width digit strings compare as the numbers they write. */
  lemma {:induction false} FixedDigitsOrder(a: nat, b: nat, width: nat)
    requires a < Pow10(width) && b < Pow10(width)
    ensures StrLess(FixedDigits(a, width), FixedDigits(b, width)) <==> a < b
    ensures FixedDigits(a, width) == FixedDigits(b, width) <==> a == b
  {
    if width > 0 {
      FixedDigitsOrder(a / 10, b / 10, width - 1);
      var p, q := FixedDigits(a / 10, width - 1), FixedDigits(b / 10, width - 1);
      StrLessConcat(p, [DigitChar(a % 10)], q, [DigitChar(b % 10)]);
      var da, db := DigitChar(a % 10), DigitChar(b % 10);
      assert StrLess([da], [db]) <==> da < db by {
        assert [da][1..] == [] && [db][1..] == [];
      }
      assert da < db <==> a % 10 < b % 10;
      assert da == db <==> a % 10 == b % 10;
      if p == q {
        assert FixedDigits(a, width) == FixedDigits(b, width) <==> a % 10 == b % 10 by {
          var x, y := FixedDigits(a, width), FixedDigits(b, width);
          if x == y {
            assert x[width - 1] == y[width - 1];
          }
        }
      } else {
        assert FixedDigits(a, width) != FixedDigits(b, width) by {
          assert FixedDigits(a, width)[..width - 1] == p;
          assert FixedDigits(b, width)[..width - 1] == q;
        }
      }
    }
  }

  /** `String(n)` of a number with exactly `width` digits is its fixed-width digit string. */
  lemma {:induction false} DecimalStringFixed(n: nat, width: nat)
    requires width >= 1 && Pow10(width - 1) <= n < Pow10(width)
    ensures DecimalString(n) == FixedDigits(n, width)
    decreases width
  {
    if width == 1 {
      assert FixedDigits(n / 10, 0) == [];
    } else {
      assert n >= 10;
      DecimalStringFixed(n / 10, width - 1);
    }
  }

  /** `String(n).padStart(2, "0")` is the two-digit string of `n`, for `n` below 100. */
  lemma PaddedTwoDigits(n: nat)
    requires n < 100
    ensures PadStartZero(DecimalString(n), 2) == FixedDigits(n, 2)
  {
    if n < 10 {
      var d := DigitChar(n);
      assert DecimalString(n) == [d];
      assert PadStartZero([d], 2) == ['0', d] by {
        assert ['0'] + [d] == ['0', d];
      }
      assert FixedDigits(n, 2) == ['0', d] by {
        assert FixedDigits(0, 1) == ['0'];
        assert n / 10 == 0 && n % 10 == n;
      }
    } else {
      DecimalStringFixed(n, 2);
    }
  }

  /** `haystack.includes(needle)`, Prisma's `contains` filter. */
  predicate Contains(haystack: string, needle: string) {
    needle <= haystack || (haystack != [] && Contains(haystack[1..], needle))
  }

  /** The longest prefix of `s` made of decimal digits. */
  function LeadingDigits(s: string): (r: string)
    ensures |r| <= |s| && r == s[..|r|]
    ensures forall k :: 0 <= k < |r| ==> IsDigit(r[k])
    ensures |r| < |s| ==> !IsDigit(s[|r|])
  {
    if s != [] && IsDigit(s[0]) then [s[0]] + LeadingDigits(s[1..]) else []
  }

  /** `parseInt(s, 10)`; `None` stands for `NaN`. */
  function ParseInt(s: string): (r: Option<int>)
    ensures r.None? <==> LeadingDigits(SignStripped(TrimStart(s))) == []
  {
    var t := TrimStart(s);
    var negative := t != [] && t[0] == '-';
    var digits := LeadingDigits(SignStripped(t));
    if digits == [] then None
    else
      var value: int := DigitsValue(digits);
      if negative then Some(-value) else Some(value)
  }

  /** The string after one optional leading `+` or `-`. */
  function SignStripped(t: string): (r: string)
    ensures r == t || (t != [] && (t[0] == '+' || t[0] == '-') && r == t[1..])
  {
    if t != [] && (t[0] == '+' || t[0] == '-') then t[1..] else t
  }

  /** `parseInt(String(n), 10) == n`: parsing inverts printing. */
  lemma ParseIntDecimalString(n: nat)
    ensures ParseInt(DecimalString(n)) == Some(n)
  {
    ParseIntDigits(DecimalString(n));
    DecimalStringValue(n);
  }

  /** A non-empty string of digits parses to its value. */
  lemma ParseIntDigits(ds: string)
    requires ds != [] && forall k :: 0 <= k < |ds| ==> IsDigit(ds[k])
    ensures ParseInt(ds) == Some(DigitsValue(ds))
  {
    assert IsDigit(ds[0]) && !IsWhiteSpace(ds[0]) && ds[0] != '+' && ds[0] != '-';
    assert TrimStart(ds) == ds;
    assert SignStripped(ds) == ds;
    LeadingDigitsOfDigits(ds);
  }

  /** `parseInt("-" + String(n), 10) == -n`. */
  lemma ParseIntNegative(n: nat)
    ensures ParseInt(['-'] + DecimalString(n)).Some? && ParseInt(['-'] + DecimalString(n)).value == -(n as int)
  {
    DecimalStringValue(n);
    ParseIntMinusDigits(DecimalString(n));
  }

  lemma ParseIntMinusDigits(ds: string)
    requires ds != [] && forall k :: 0 <= k < |ds| ==> IsDigit(ds[k])
    ensures ParseInt(['-'] + ds).Some? && ParseInt(['-'] + ds).value == -(DigitsValue(ds) as int)
  {
    var t := ['-'] + ds;
    assert !IsWhiteSpace(t[0]);
    assert TrimStart(t) == t;
    assert t[1..] == ds;
    LeadingDigitsOfDigits(ds);
    assert SignStripped(TrimStart(t)) == ds;
    assert LeadingDigits(SignStripped(TrimStart(t))) == ds;
  }

  lemma {:induction false} LeadingDigitsOfDigits(s: string)
    requires forall k :: 0 <= k < |s| ==> IsDigit(s[k])
    ensures LeadingDigits(s) == s
  {
    if s != [] {
      LeadingDigitsOfDigits(s[1..]);
    }
  }
}
