// Kotlin string operations the screens and queries rely on: trim, isBlank,
// lowercase, contains, substringBefore, Long.toString / String.toLong and
// String.toDouble.
module Text {
  import opened Wrappers

  /** Kotlin's Char.isWhitespace: Java whitespace plus the Unicode space separators. */
  predicate IsWhitespace(c: char)
  {
    var n := c as int;
    n == 0x20 || 0x09 <= n <= 0x0D || 0x1C <= n <= 0x1F || n == 0xA0 || n == 0x1680
    || 0x2000 <= n <= 0x200A || n == 0x2028 || n == 0x2029 || n == 0x202F || n == 0x205F || n == 0x3000
  }

  /** CharSequence.isBlank: empty or whitespace only. */
  predicate IsBlank(s: string)
  {
    forall i :: 0 <= i < |s| ==> IsWhitespace(s[i])
  }

  /** Drops the leading whitespace: the result is the suffix that starts at the first non-whitespace character. */
  function TrimStart(s: string): (r: string)
    ensures |r| <= |s| && r == s[|s| - |r|..]
    ensures forall i :: 0 <= i < |s| - |r| ==> IsWhitespace(s[i])
    ensures r == [] || !IsWhitespace(r[0])
  {
    if s != [] && IsWhitespace(s[0]) then TrimStart(s[1..]) else s
  }

  /** Drops the trailing whitespace: the result is the prefix that ends at the last non-whitespace character. */
  function TrimEnd(s: string): (r: string)
    ensures |r| <= |s| && r == s[..|r|]
    ensures forall i :: |r| <= i < |s| ==> IsWhitespace(s[i])
    ensures r == [] || !IsWhitespace(r[|r| - 1])
  {
    if s != [] && IsWhitespace(s[|s| - 1]) then TrimEnd(s[..|s| - 1]) else s
  }

  /** String.trim(). */
  function Trim(s: string): string
  {
    TrimEnd(TrimStart(s))
  }

  /** `trim().isEmpty()` and `isBlank()` agree: the screens use both for "required". */
  lemma TrimEmptyIffBlank(s: string)
    ensures Trim(s) == [] <==> IsBlank(s)
  {
    var t := TrimStart(s);
    assert t != [] ==> t[0] == s[|s| - |t|];
  }

  /** A string with no whitespace at either end is its own trim. */
  lemma TrimUntouched(s: string)
    requires s != [] ==> !IsWhitespace(s[0]) && !IsWhitespace(s[|s| - 1])
    ensures Trim(s) == s
  {
  }

  /** No whitespace at either end. */
  predicate Trimmed(s: string)
  {
    s == [] || (!IsWhitespace(s[0]) && !IsWhitespace(s[|s| - 1]))
  }

  /** trim() leaves a trimmed string, and a trimmed string is its own trim. */
  lemma TrimIsTrimmed(s: string)
    ensures Trimmed(Trim(s))
    ensures Trimmed(s) ==> Trim(s) == s
  {
    var t := TrimStart(s);
    var r := TrimEnd(t);
    if r != [] {
      assert r[0] == t[0];
    }
    if Trimmed(s) {
      TrimUntouched(s);
    }
  }

  /** Char.lowercaseChar, for the ASCII letters. */
  function LowerChar(c: char): char
  {
    if 'A' <= c <= 'Z' then (c as int + 32) as char else c
  }

  /** String.lowercase(), for the ASCII letters. */
  function Lowercase(s: string): (r: string)
    ensures |r| == |s|
    ensures forall i :: 0 <= i < |s| ==> r[i] == LowerChar(s[i])
  {
    if s == [] then [] else [LowerChar(s[0])] + Lowercase(s[1..])
  }

  /** SQLite's LIKE compares ASCII letters without regard to case. */
  predicate SameLetterIgnoringCase(a: char, b: char)
  {
    LowerChar(a) == LowerChar(b)
  }

  predicate IsPrefix(p: string, s: string)
  {
    |p| <= |s| && s[..|p|] == p
  }

  /** CharSequence.contains(q): q occurs somewhere in s. */
  predicate Contains(s: string, q: string)
    decreases |s|
  {
    IsPrefix(q, s) || (s != [] && Contains(s[1..], q))
  }

  /** q occurs in s starting at index i. */
  predicate OccursAt(s: string, q: string, i: int)
  {
    0 <= i <= |s| - |q| && s[i..i + |q|] == q
  }

  /** Contains holds exactly when q occurs at some position of s. */
  lemma {:induction false} ContainsAt(s: string, q: string)
    ensures Contains(s, q) <==> exists i :: OccursAt(s, q, i)
    decreases |s|
  {
    if IsPrefix(q, s) {
      assert OccursAt(s, q, 0);
    } else if s != [] {
      ContainsAt(s[1..], q);
      if Contains(s[1..], q) {
        var i :| OccursAt(s[1..], q, i);
        assert OccursAt(s, q, i + 1);
      }
      if exists i :: OccursAt(s, q, i) {
        var i :| OccursAt(s, q, i);
        if i > 0 {
          assert OccursAt(s[1..], q, i - 1);
        }
      }
    }
  }

  /** Lowercasing twice changes nothing more. */
  lemma LowercaseIdempotent(s: string)
    ensures Lowercase(Lowercase(s)) == Lowercase(s)
  {
  }

  /**
   * SQL `s LIKE '%' || q || '%'`: q occurs in s, ASCII letters compared
   * without regard to case.
   */
  predicate Like(s: string, q: string)
  {
    Contains(Lowercase(s), Lowercase(q))
  }

  /** The case of the query's letters never matters to LIKE. */
  lemma LikeIgnoresCase(s: string, q: string)
    ensures Like(s, q) <==> Like(s, Lowercase(q))
    ensures Like(s, q) <==> Like(Lowercase(s), q)
  {
    LowercaseIdempotent(q);
    LowercaseIdempotent(s);
  }

  /** An empty query matches every text; no text matches a query longer than itself. */
  lemma {:induction false} LikeBounds(s: string, q: string)
    ensures Like(s, [])
    ensures |q| > |s| ==> !Like(s, q)
  {
    assert Lowercase([]) == [];
    if |q| > |s| {
      ContainsAt(Lowercase(s), Lowercase(q));
    }
  }

  /** The first index of c in s, if any (String.indexOf). */
  function IndexOf(s: string, c: char): (r: Option<nat>)
    ensures r.None? <==> c !in s
    ensures r.Some? ==> r.value < |s| && s[r.value] == c && c !in s[..r.value]
  {
    if s == [] then None
    else if s[0] == c then Some(0)
    else match IndexOf(s[1..], c)
      case None => None
      case Some(i) => assert s[1..][..i] == s[1..i + 1]; Some(i + 1)
  }

  /** A separator after a run free of it is found right after that run. */
  lemma {:induction false} IndexOfSeparator(p: string, c: char, q: string)
    requires c !in p
    ensures IndexOf(p + [c] + q, c) == Some(|p|)
  {
    var s := p + [c] + q;
    if p != [] {
      assert s[0] == p[0] != c;
      assert s[1..] == p[1..] + [c] + q;
      IndexOfSeparator(p[1..], c, q);
    }
  }

  /** String.substringBefore(c): the text before the first c, or all of s when c does not occur. */
  function SubstringBefore(s: string, c: char): (r: string)
    ensures IsPrefix(r, s) && c !in r
    ensures c in s ==> |r| < |s| && s[|r|] == c
    ensures c !in s ==> r == s
  {
    match IndexOf(s, c)
    case None => s
    case Some(i) => s[..i]
  }

  /** The text before a separator that follows a run free of it is that run. */
  lemma SubstringBeforeSeparator(p: string, c: char, q: string)
    requires c !in p
    ensures SubstringBefore(p + [c] + q, c) == p
  {
    IndexOfSeparator(p, c, q);
    assert (p + [c] + q)[..|p|] == p;
  }

  // ---- Ordering ----

  /**
   * String order as SQLite's default BINARY collation compares TEXT values
   * (and as ORDER BY and BETWEEN use it): lexicographic by character, a
   * proper prefix first.
   */
  predicate StrLt(a: string, b: string)
    decreases |a|
  {
    b != [] && (a == [] || a[0] < b[0] || (a[0] == b[0] && StrLt(a[1..], b[1..])))
  }

  predicate StrLe(a: string, b: string)
  {
    a == b || StrLt(a, b)
  }

  /** SQL `s BETWEEN lo AND hi` on TEXT: inclusive at both ends. */
  predicate Between(s: string, lo: string, hi: string)
  {
    StrLe(lo, s) && StrLe(s, hi)
  }

  lemma {:induction false} StrLtIrreflexive(a: string)
    ensures !StrLt(a, a)
    decreases |a|
  {
    if a != [] {
      StrLtIrreflexive(a[1..]);
    }
  }

  lemma {:induction false} StrLtTransitive(a: string, b: string, c: string)
    requires StrLt(a, b) && StrLt(b, c)
    ensures StrLt(a, c)
    decreases |a|
  {
    if a != [] && a[0] == b[0] && b[0] == c[0] {
      StrLtTransitive(a[1..], b[1..], c[1..]);
    }
  }

  /** Any two different strings are ordered one way or the other, and never both ways. */
  lemma {:induction false} StrLtTotal(a: string, b: string)
    ensures a == b || StrLt(a, b) || StrLt(b, a)
    ensures !(StrLt(a, b) && StrLt(b, a))
    decreases |a|
  {
    if a != [] && b != [] && a[0] == b[0] {
      StrLtTotal(a[1..], b[1..]);
      if a[1..] == b[1..] {
        assert a == [a[0]] + a[1..] && b == [b[0]] + b[1..];
      }
    }
  }

  /** Strings that start with equally long heads compare by the heads first, then by the tails. */
  lemma {:induction false} StrLtConcat(a1: string, r1: string, a2: string, r2: string)
    requires |a1| == |a2|
    ensures StrLt(a1 + r1, a2 + r2) <==> StrLt(a1, a2) || (a1 == a2 && StrLt(r1, r2))
    decreases |a1|
  {
    if a1 != [] {
      assert (a1 + r1)[1..] == a1[1..] + r1 && (a2 + r2)[1..] == a2[1..] + r2;
      StrLtConcat(a1[1..], r1, a2[1..], r2);
      if a1[0] == a2[0] && a1[1..] == a2[1..] {
        assert a1 == [a1[0]] + a1[1..] && a2 == [a2[0]] + a2[1..];
      }
    } else {
      assert a1 + r1 == r1 && a2 + r2 == r2;
    }
  }

  // ---- Numbers ----

  /** The range of Kotlin's Long. */
  const LONG_MIN: int := -0x8000_0000_0000_0000
  const LONG_MAX: int := 0x7FFF_FFFF_FFFF_FFFF

  predicate IsLong(n: int)
  {
    LONG_MIN <= n <= LONG_MAX
  }

  predicate IsDigit(c: char)
  {
    '0' <= c <= '9'
  }

  predicate AllDigits(s: string)
  {
    forall i :: 0 <= i < |s| ==> IsDigit(s[i])
  }

  function DigitValue(c: char): nat
    requires IsDigit(c)
  {
    c as int - '0' as int
  }

  function DigitChar(d: nat): (c: char)
    requires d < 10
    ensures IsDigit(c) && DigitValue(c) == d
  {
    ('0' as int + d) as char
  }

  /** The number written by a string of decimal digits, most significant first. */
  function DigitsValue(s: string): nat
    requires AllDigits(s)
  {
    if s == [] then 0 else DigitsValue(s[..|s| - 1]) * 10 + DigitValue(s[|s| - 1])
  }

  /** A digit string read from the front: its first digit weighs 10^(length - 1). */
  lemma {:induction false} DigitsValueFront(s: string)
    requires AllDigits(s) && s != []
    ensures DigitsValue(s) == DigitValue(s[0]) * Pow10(|s| - 1) + DigitsValue(s[1..])
    decreases |s|
  {
    if |s| > 1 {
      var init := s[..|s| - 1];
      DigitsValueFront(init);
      assert init[1..] == s[1..][..|s| - 2];
      calc {
        DigitsValue(s);
        DigitsValue(init) * 10 + DigitValue(s[|s| - 1]);
        (DigitValue(s[0]) * Pow10(|s| - 2) + DigitsValue(init[1..])) * 10 + DigitValue(s[|s| - 1]);
        { assert Pow10(|s| - 1) == 10 * Pow10(|s| - 2); }
        DigitValue(s[0]) * Pow10(|s| - 1) + (DigitsValue(init[1..]) * 10 + DigitValue(s[|s| - 1]));
      }
    }
  }

  lemma {:induction false} DigitsValueBound(s: string)
    requires AllDigits(s)
    ensures DigitsValue(s) < Pow10(|s|)
    decreases |s|
  {
    if s != [] {
      DigitsValueBound(s[..|s| - 1]);
    }
  }

  /** Equally long digit strings are ordered as text exactly as their values are ordered. */
  lemma {:induction false} DigitsOrder(s: string, t: string)
    requires AllDigits(s) && AllDigits(t) && |s| == |t|
    ensures StrLt(s, t) <==> DigitsValue(s) < DigitsValue(t)
    decreases |s|
  {
    if s != [] {
      DigitsValueFront(s);
      DigitsValueFront(t);
      DigitsValueBound(s[1..]);
      DigitsValueBound(t[1..]);
      DigitsOrder(s[1..], t[1..]);
      LeadingDigitDecides(DigitValue(s[0]), DigitValue(t[0]), DigitsValue(s[1..]), DigitsValue(t[1..]), Pow10(|s| - 1));
    }
  }

  /** Two numbers x·p + a and y·p + b with a, b < p compare by x and y first. */
  lemma LeadingDigitDecides(x: nat, y: nat, a: nat, b: nat, p: nat)
    requires a < p && b < p
    ensures x < y ==> x * p + a < y * p + b
    ensures y < x ==> y * p + b < x * p + a
    ensures x == y ==> (x * p + a < y * p + b <==> a < b)
  {
    if x < y {
      MulLeq(x + 1, y, p);
    } else if y < x {
      MulLeq(y + 1, x, p);
    }
  }

  lemma MulLeq(a: nat, b: nat, p: nat)
    requires a <= b
    ensures a * p <= b * p
  {
  }

  /** Decimal text of a natural number, without leading zeros. */
  function NatToString(n: nat): (r: string)
    ensures |r| >= 1 && AllDigits(r) && DigitsValue(r) == n
    ensures r[0] == '0' ==> n == 0
    ensures n < 10 ==> |r| == 1
  {
    if n < 10 then [DigitChar(n)]
    else
      var p := NatToString(n / 10);
      var r := p + [DigitChar(n % 10)];
      assert r[..|r| - 1] == p;
      r
  }

  /** Long.toString(). */
  function LongToString(n: int): (r: string)
    ensures |r| >= 1 && IsDigit(r[|r| - 1])
    ensures r[0] == '-' || IsDigit(r[0])
    ensures forall i :: 0 <= i < |r| ==> r[i] == '-' || IsDigit(r[i])
  {
    if n < 0 then "-" + NatToString(-n) else NatToString(n)
  }

  /** String.toLong(): an optional sign and at least one decimal digit, within the Long range; None where Kotlin throws. */
  function ParseLong(s: string): (r: Option<int>)
    ensures r.Some? ==> IsLong(r.value)
  {
    var negative := |s| > 0 && s[0] == '-';
    var digits := if |s| > 0 && (s[0] == '-' || s[0] == '+') then s[1..] else s;
    if digits == [] || !AllDigits(digits) then None
    else
      var m: int := DigitsValue(digits);
      var v := if negative then -m else m;
      if IsLong(v) then Some(v) else None
  }

  /** Parsing the decimal text of a Long gives the Long back. */
  lemma ParseLongToString(n: int)
    requires IsLong(n)
    ensures ParseLong(LongToString(n)) == Some(n)
  {
    if n < 0 {
      assert LongToString(n)[1..] == NatToString(-n);
    }
  }

  /** String.toDouble() for plain decimal text: an optional sign, digits and an optional fraction. */
  function ParseDecimal(s: string): (r: Option<real>)
    ensures r.Some? ==> exists i :: 0 <= i < |s| && IsDigit(s[i])
  {
    var negative := |s| > 0 && s[0] == '-';
    var body := if |s| > 0 && (s[0] == '-' || s[0] == '+') then s[1..] else s;
    var whole := SubstringBefore(body, '.');
    var fraction := if '.' in body then body[|whole| + 1..] else "";
    if whole + fraction == [] || !AllDigits(whole) || !AllDigits(fraction) then None
    else
      var magnitude := DecimalValue(whole, fraction);
      assert if whole != [] then IsDigit(s[|s| - |body|]) else IsDigit(s[|s| - |body| + |whole| + 1]);
      Some(if negative then -magnitude else magnitude)
  }

  /** The value of a decimal written as whole digits, a point and fraction digits. */
  function DecimalValue(whole: string, fraction: string): real
    requires AllDigits(whole) && AllDigits(fraction)
  {
    DigitsValue(whole) as real + DigitsValue(fraction) as real / Pow10(|fraction|) as real
  }

  function Pow10(k: nat): (p: nat)
    ensures p >= 1
  {
    if k == 0 then 1 else 10 * Pow10(k - 1)
  }

  /**
   * Double.toString of a whole amount below ten million: its digits followed
   * by ".0" (from ten million up the JVM switches to "1.0E7" notation).
   */
  function WholeDoubleToString(n: nat): (r: string)
    requires n < 10_000_000
    ensures |r| >= 3 && r[|r| - 2..] == ".0" && AllDigits(r[..|r| - 2])
  {
    NatToString(n) + ['.'] + "0"
  }

  /** The text Double.toString shows for a whole amount parses back to that amount. */
  lemma ParseWholeDouble(n: nat)
    requires n < 10_000_000
    ensures ParseDecimal(WholeDoubleToString(n)) == Some(n as real)
  {
    var digits := NatToString(n);
    assert DecimalValue(digits, "0") == n as real by {
      assert DigitsValue("0") == 0 by {
        assert "0"[..0] == "";
      }
      assert Pow10(|"0"|) == 10;
    }
    ParseWithFraction(digits, "0");
  }

  /** Digits, a point and digits parse to the whole part plus the fraction. */
  lemma ParseWithFraction(whole: string, fraction: string)
    requires whole != [] && AllDigits(whole) && AllDigits(fraction)
    ensures ParseDecimal(whole + ['.'] + fraction) == Some(DecimalValue(whole, fraction))
  {
    var s := whole + ['.'] + fraction;
    assert s[0] != '-' && s[0] != '+' by {
      assert s[0] == whole[0] && IsDigit(s[0]);
    }
    assert SubstringBefore(s, '.') == whole by {
      assert '.' !in whole by {
        forall i | 0 <= i < |whole| ensures whole[i] != '.' {
          assert IsDigit(whole[i]);
        }
      }
      SubstringBeforeSeparator(whole, '.', fraction);
    }
    assert '.' in s && s[|whole| + 1..] == fraction by {
      assert s[|whole|] == '.';
    }
  }

  /** An integer amount written in plain digits parses to that amount. */
  lemma ParseDecimalOfNat(n: nat)
    ensures ParseDecimal(NatToString(n)) == Some(n as real)
  {
    var s := NatToString(n);
    assert '.' !in s;
  }
}
