/** The text handling behind the interval field: Python's `str.strip()`,
    the base-10 literals that `int()` accepts, and `str()` of an integer. */
module Text {
  import opened Options

  /** Python's `str.isspace()` for one code point. No sign or digit is
      whitespace, so stripping never eats into a literal. */
  predicate IsSpace(c: char)
    ensures IsSpace(c) ==> !IsDigit(c) && c != '+' && c != '-'
  {
    var n := c as int;
    (0x09 <= n <= 0x0D) || (0x1C <= n <= 0x20) || n == 0x85 || n == 0xA0 || n == 0x1680
    || (0x2000 <= n <= 0x200A) || n == 0x2028 || n == 0x2029 || n == 0x202F
    || n == 0x205F || n == 0x3000
  }

  /** The ASCII information separators U+001C to U+001F. `str.isspace()`
      counts them as whitespace, so `strip()` removes them; `int()` skips
      only ASCII `\t\n\v\f\r` and space and the non-ASCII `isspace()`
      characters around its literal, so it does not. */
  predicate IsSeparator(c: char) {
    0x1C <= c as int <= 0x1F
  }

  /** The two whitespace sets of the program: what `str.strip()` removes
      and what `int()` skips around its literal. */
  datatype Whitespace = StripSpace | IntSpace

  predicate IsBlank(w: Whitespace, c: char) {
    IsSpace(c) && (w == IntSpace ==> !IsSeparator(c))
  }

  predicate AllBlank(w: Whitespace, s: string) {
    forall i :: 0 <= i < |s| ==> IsBlank(w, s[i])
  }

  predicate NoSeparators(s: string) {
    forall i :: 0 <= i < |s| ==> !IsSeparator(s[i])
  }

  /** Drops leading whitespace of `w` (TrimStartSpec states what it keeps). */
  function TrimStart(w: Whitespace, s: string): string {
    if |s| > 0 && IsBlank(w, s[0]) then TrimStart(w, s[1..]) else s
  }

  /** Drops trailing whitespace of `w` (TrimEndSpec states what it keeps). */
  function TrimEnd(w: Whitespace, s: string): string {
    if |s| > 0 && IsBlank(w, s[|s| - 1]) then TrimEnd(w, s[..|s| - 1]) else s
  }

  /** Drops the whitespace of `w` at both ends; TrimSpec and
      TrimRemovesOnlyBlanks state what it keeps. */
  function Trim(w: Whitespace, s: string): (r: string)
    ensures AllBlank(w, s) ==> r == []
  {
    AllBlankTrims(w, s);
    TrimEnd(w, TrimStart(w, s))
  }

  /** Python's `s.strip()` with no argument. */
  function Strip(s: string): (r: string)
    ensures AllBlank(StripSpace, s) ==> r == []
  {
    Trim(StripSpace, s)
  }

  /** Either trim removes a text made only of its whitespace entirely. */
  lemma {:induction false} AllBlankTrims(w: Whitespace, s: string)
    ensures AllBlank(w, s) ==> TrimStart(w, s) == [] && TrimEnd(w, s) == []
  {
    if s != [] && AllBlank(w, s) {
      AllBlankTrims(w, s[1..]);
      AllBlankTrims(w, s[..|s| - 1]);
    }
  }

  /** What TrimStart drops is a whitespace prefix, and what it keeps does
      not start with whitespace. */
  lemma {:induction false} TrimStartSpec(w: Whitespace, s: string)
    ensures var r := TrimStart(w, s);
      && |r| <= |s| && r == s[|s| - |r|..]
      && AllBlank(w, s[..|s| - |r|])
      && (r == [] || !IsBlank(w, r[0]))
  {
    if |s| > 0 && IsBlank(w, s[0]) {
      var tail := s[1..];
      TrimStartSpec(w, tail);
      var r := TrimStart(w, tail);
      assert TrimStart(w, s) == r;
      var k := |s| - |r|;
      assert r == tail[k - 1..] == s[k..];
      assert AllBlank(w, tail[..k - 1]);
      forall i | 0 <= i < k
        ensures IsBlank(w, s[..k][i])
      {
        if i > 0 {
          assert s[..k][i] == tail[..k - 1][i - 1];
        }
      }
    }
  }

  /** What TrimEnd drops is a whitespace suffix, and what it keeps does not
      end with whitespace. */
  lemma {:induction false} TrimEndSpec(w: Whitespace, s: string)
    ensures var r := TrimEnd(w, s);
      && |r| <= |s| && r == s[..|r|]
      && AllBlank(w, s[|r|..])
      && (r == [] || !IsBlank(w, r[|r| - 1]))
  {
    if |s| > 0 && IsBlank(w, s[|s| - 1]) {
      var init := s[..|s| - 1];
      TrimEndSpec(w, init);
      var r := TrimEnd(w, init);
      assert TrimEnd(w, s) == r;
      var k := |r|;
      assert r == init[..k] == s[..k];
      assert AllBlank(w, init[k..]);
      forall i | 0 <= i < |s| - k
        ensures IsBlank(w, s[k..][i])
      {
        if i < |s| - 1 - k {
          assert s[k..][i] == init[k..][i];
        }
      }
    }
  }

  /** What a trim keeps neither starts nor ends with its whitespace. */
  lemma TrimSpec(w: Whitespace, s: string)
    ensures var r := Trim(w, s);
      && |r| <= |s|
      && (r == [] || (!IsBlank(w, r[0]) && !IsBlank(w, r[|r| - 1])))
  {
    TrimStartSpec(w, s);
    var t := TrimStart(w, s);
    TrimEndSpec(w, t);
    var r := TrimEnd(w, t);
    if r != [] {
      assert r[0] == t[0];
    }
  }

  /** Where a trim's result sits in its input: after the leading
      whitespace TrimStart drops, with only whitespace on either side. */
  lemma TrimAt(w: Whitespace, s: string)
    ensures var r, i := Trim(w, s), |s| - |TrimStart(w, s)|;
      && 0 <= i <= |s| - |r| && r == s[i..i + |r|]
      && AllBlank(w, s[..i]) && AllBlank(w, s[i + |r|..])
  {
    TrimStartSpec(w, s);
    var t := TrimStart(w, s);
    TrimEndSpec(w, t);
    var i := |s| - |t|;
    var r := TrimEnd(w, t);
    assert s[i + |r|..] == t[|r|..];
    assert r == s[i..i + |r|];
  }

  /** A trim removes only its whitespace, and only from the two ends. */
  lemma TrimRemovesOnlyBlanks(w: Whitespace, s: string)
    ensures var r := Trim(w, s);
      exists i :: 0 <= i <= |s| - |r| && r == s[i..i + |r|]
                  && AllBlank(w, s[..i]) && AllBlank(w, s[i + |r|..])
  {
    TrimAt(w, s);
  }

  predicate IsDigit(c: char) {
    '0' <= c <= '9'
  }

  predicate AllDigits(s: string) {
    forall i :: 0 <= i < |s| ==> IsDigit(s[i])
  }

  function DigitValue(c: char): (d: nat)
    requires IsDigit(c)
    ensures d < 10
  {
    c as int - '0' as int
  }

  function DigitChar(d: nat): (c: char)
    requires d < 10
    ensures IsDigit(c) && DigitValue(c) == d
  {
    ('0' as int + d) as char
  }

  /** The value of a run of ASCII decimal digits, most significant first. */
  function DigitsValue(s: string): nat
    requires AllDigits(s)
  {
    if s == [] then 0 else 10 * DigitsValue(s[..|s| - 1]) + DigitValue(s[|s| - 1])
  }

  /** `int()` on a literal with no surrounding whitespace: an optional
      `+` or `-` followed by one or more ASCII digits; anything else is
      the `ValueError` path, here `None`. */
  function ParseDecimal(s: string): (r: Option<int>)
    ensures r.Some? ==> |s| > 0 && !IsSpace(s[0]) && !IsSpace(s[|s| - 1])
  {
    if |s| > 0 && (s[0] == '+' || s[0] == '-') then
      var digits := s[1..];
      if |digits| > 0 && AllDigits(digits) then
        Some(if s[0] == '-' then -(DigitsValue(digits) as int) else DigitsValue(digits))
      else
        None
    else if |s| > 0 && AllDigits(s) then
      Some(DigitsValue(s))
    else
      None
  }

  function Abs(v: int): nat {
    if v < 0 then -v else v
  }

  /** A run of `n` zero digits. */
  function Zeros(n: nat): (s: string)
    ensures |s| == n && AllDigits(s)
  {
    if n == 0 then [] else "0" + Zeros(n - 1)
  }

  /** The literals that spell `v` with `k` leading zeros: no sign or `+`
      when `v` is not negative, `-` when it is not positive, then the
      zeros, then the digits `str()` writes for the magnitude. */
  predicate Spells(s: string, v: int, k: nat) {
    var body := Zeros(k) + ShowNat(Abs(v));
    || (v >= 0 && (s == body || s == "+" + body))
    || (v <= 0 && s == "-" + body)
  }

  /** Python's `int(text)` on a raw text: the whitespace `int()` skips is
      ignored around the literal, but an information separator is not. */
  function PyInt(text: string): (r: Option<int>)
    ensures AllBlank(IntSpace, text) ==> r.None?
  {
    ParseDecimal(Trim(IntSpace, text))
  }

  /** Decimal digits of `n` without leading zeros. */
  function ShowNat(n: nat): (s: string)
    ensures |s| > 0 && AllDigits(s)
    ensures s[0] == '0' ==> n == 0
  {
    if n < 10 then [DigitChar(n)] else ShowNat(n / 10) + [DigitChar(n % 10)]
  }

  /** Python's `str(i)` for an integer. */
  function ShowInt(i: int): (s: string)
    ensures |s| > 0
  {
    if i < 0 then "-" + ShowNat(-i) else ShowNat(i)
  }

  lemma {:induction false} TrimStartPadded(w: Whitespace, pre: string, s: string)
    requires AllBlank(w, pre)
    requires s == [] || !IsBlank(w, s[0])
    ensures TrimStart(w, pre + s) == s
  {
    if pre != [] {
      assert (pre + s)[1..] == pre[1..] + s;
      TrimStartPadded(w, pre[1..], s);
    }
  }

  lemma {:induction false} TrimEndPadded(w: Whitespace, s: string, post: string)
    requires AllBlank(w, post)
    requires s == [] || !IsBlank(w, s[|s| - 1])
    ensures TrimEnd(w, s + post) == s
  {
    if post != [] {
      var n := |post|;
      assert (s + post)[..|s + post| - 1] == s + post[..n - 1];
      TrimEndPadded(w, s, post[..n - 1]);
    }
  }

  /** Whitespace on either side of a text that neither starts nor ends with
      whitespace is exactly what a trim removes. */
  lemma TrimPadded(w: Whitespace, pre: string, s: string, post: string)
    requires AllBlank(w, pre) && AllBlank(w, post)
    requires s == [] || (!IsBlank(w, s[0]) && !IsBlank(w, s[|s| - 1]))
    ensures Trim(w, pre + s + post) == s
  {
    assert pre + s + post == pre + (s + post);
    if s == [] {
      assert s + post == post;
      TrimStartPadded(w, pre + post, []);
      assert pre + post + [] == pre + post;
      TrimEndPadded(w, [], TrimStart(w, pre + post));
    } else {
      TrimStartPadded(w, pre, s + post);
      TrimEndPadded(w, s, post);
    }
  }

  lemma StripIdempotent(s: string)
    ensures Strip(Strip(s)) == Strip(s)
  {
    TrimSpec(StripSpace, s);
    TrimPadded(StripSpace, [], Strip(s), []);
    assert [] + Strip(s) + [] == Strip(s);
  }

  /** After `strip()` there is nothing left for `int()` to skip. */
  lemma PyIntAfterStrip(text: string)
    ensures PyInt(Strip(text)) == ParseDecimal(Strip(text))
  {
    var r := Strip(text);
    TrimSpec(StripSpace, text);
    TrimPadded(IntSpace, [], r, []);
    assert [] + r + [] == r;
  }

  /** When what `int()` would read has no whitespace at its ends,
      `strip()` finds the same text. */
  lemma StripOfIntTrim(text: string)
    requires var t := Trim(IntSpace, text);
      t == [] || (!IsSpace(t[0]) && !IsSpace(t[|t| - 1]))
    ensures Strip(text) == Trim(IntSpace, text)
  {
    var t, i := Trim(IntSpace, text), |text| - |TrimStart(IntSpace, text)|;
    TrimAt(IntSpace, text);
    var pre, post := text[..i], text[i + |t|..];
    assert text == pre + t + post;
    TrimPadded(StripSpace, pre, t, post);
  }

  /** Without information separators, what `int()` keeps has no
      whitespace at its ends. */
  lemma IntTrimWithoutSeparators(text: string)
    requires NoSeparators(text)
    ensures var t := Trim(IntSpace, text);
      t == [] || (!IsSpace(t[0]) && !IsSpace(t[|t| - 1]))
  {
    var t, i := Trim(IntSpace, text), |text| - |TrimStart(IntSpace, text)|;
    TrimSpec(IntSpace, text);
    TrimAt(IntSpace, text);
    if t != [] {
      assert t[0] == text[i] && t[|t| - 1] == text[i + |t| - 1];
    }
  }

  /** Stripping first never changes a literal bare `int()` accepts, and
      changes nothing at all in a text without information separators.
      (`int("7\x1c")` raises while `int("7\x1c".strip()) == 7`.) */
  lemma PyIntOfStripped(text: string)
    ensures PyInt(text).Some? ==> PyInt(Strip(text)) == PyInt(text)
    ensures NoSeparators(text) ==> PyInt(Strip(text)) == PyInt(text)
  {
    PyIntAfterStrip(text);
    if NoSeparators(text) {
      IntTrimWithoutSeparators(text);
      StripOfIntTrim(text);
    } else if PyInt(text).Some? {
      StripOfIntTrim(text);
    }
  }

  lemma {:induction false} ShowNatValue(n: nat)
    ensures DigitsValue(ShowNat(n)) == n
  {
    if n >= 10 {
      var s := ShowNat(n);
      assert s[..|s| - 1] == ShowNat(n / 10);
      ShowNatValue(n / 10);
    }
  }

  /** `str()` of an integer is a literal `int()` reads back. */
  lemma ParseDecimalShowInt(i: int)
    ensures ParseDecimal(ShowInt(i)) == Some(i)
  {
    var s := ShowInt(i);
    if i < 0 {
      var digits := ShowNat(-i);
      ShowNatValue(-i);
      assert s[1..] == digits;
    } else {
      ShowNatValue(i);
    }
  }

  /** A leading zero does not change the value of a run of digits. */
  lemma {:induction false} LeadingZero(t: string)
    requires AllDigits(t)
    ensures AllDigits("0" + t) && DigitsValue("0" + t) == DigitsValue(t)
  {
    if t != [] {
      var z := "0" + t;
      assert z[..|z| - 1] == "0" + t[..|t| - 1];
      LeadingZero(t[..|t| - 1]);
    }
  }

  lemma {:induction false} ZerosValue(k: nat, t: string)
    requires AllDigits(t)
    ensures AllDigits(Zeros(k) + t) && DigitsValue(Zeros(k) + t) == DigitsValue(t)
  {
    if k > 0 {
      ZerosValue(k - 1, t);
      assert Zeros(k) + t == "0" + (Zeros(k - 1) + t);
      LeadingZero(Zeros(k - 1) + t);
    } else {
      assert Zeros(k) + t == t;
    }
  }

  lemma {:induction false} NonZeroLead(d: string)
    requires |d| > 0 && AllDigits(d) && d[0] != '0'
    ensures DigitsValue(d) > 0
  {
    if |d| > 1 {
      NonZeroLead(d[..|d| - 1]);
    }
  }

  /** Digits without a leading zero are exactly what `str()` writes for
      their value. */
  lemma {:induction false} CanonicalDigits(d: string)
    requires |d| > 0 && AllDigits(d) && (d[0] != '0' || |d| == 1)
    ensures ShowNat(DigitsValue(d)) == d
  {
    var n := DigitsValue(d);
    if |d| == 1 {
      assert d == [d[0]];
    } else {
      var init := d[..|d| - 1];
      NonZeroLead(init);
      CanonicalDigits(init);
      assert n / 10 == DigitsValue(init) && n % 10 == DigitValue(d[|d| - 1]);
      assert d == init + [d[|d| - 1]];
    }
  }

  /** The zeros in front of the first significant digit (a lone "0" is
      significant). */
  function LeadingZeros(d: string): nat {
    if |d| > 1 && d[0] == '0' then 1 + LeadingZeros(d[1..]) else 0
  }

  /** Any run of digits is its leading zeros followed by the canonical
      digits of its value. */
  lemma {:induction false} DigitsAreSpelled(d: string)
    requires |d| > 0 && AllDigits(d)
    ensures d == Zeros(LeadingZeros(d)) + ShowNat(DigitsValue(d))
  {
    if |d| > 1 && d[0] == '0' {
      var t := d[1..];
      assert AllDigits(t);
      DigitsAreSpelled(t);
      assert d == "0" + t;
      LeadingZero(t);
      var k, rest := LeadingZeros(t), ShowNat(DigitsValue(t));
      assert Zeros(k + 1) + rest == "0" + (Zeros(k) + rest);
    } else {
      CanonicalDigits(d);
      assert d == Zeros(0) + ShowNat(DigitsValue(d));
    }
  }

  /** Every spelling of `v` is read back as `v`: signs, `+` and leading
      zeros included, as in `int("+007") == 7` and `int("-0") == 0`. */
  lemma ParseDecimalReadsSpelling(s: string, v: int, k: nat)
    requires Spells(s, v, k)
    ensures ParseDecimal(s) == Some(v)
  {
    var body := Zeros(k) + ShowNat(Abs(v));
    ZerosSpellValue(k, Abs(v));
    if v >= 0 && s == body {
      assert IsDigit(s[0]);
    } else if v >= 0 && s == "+" + body {
      assert s[0] == '+' && s[1..] == body;
    } else {
      assert s[0] == '-' && s[1..] == body;
    }
  }

  lemma ZerosSpellValue(k: nat, n: nat)
    ensures var body := Zeros(k) + ShowNat(n);
      |body| > 0 && AllDigits(body) && DigitsValue(body) == n
  {
    ZerosValue(k, ShowNat(n));
    ShowNatValue(n);
  }

  /** Every literal `int()` accepts spells the value it is read as. */
  lemma ParseDecimalOnlySpellings(s: string)
    requires ParseDecimal(s).Some?
    ensures exists k: nat :: Spells(s, ParseDecimal(s).value, k)
  {
    var v := ParseDecimal(s).value;
    if s[0] == '+' || s[0] == '-' {
      var d := s[1..];
      DigitsAreSpelled(d);
      assert s == [s[0]] + d;
      assert Spells(s, v, LeadingZeros(d));
    } else {
      DigitsAreSpelled(s);
      assert Spells(s, v, LeadingZeros(s));
    }
  }

  /** `int()` of an unpadded text succeeds with `v` exactly when the text
      spells `v`; so "5s", "5.0", "1 2" and "" are rejected. */
  lemma ParseDecimalExactly(s: string, v: int)
    ensures ParseDecimal(s) == Some(v) <==> exists k: nat :: Spells(s, v, k)
  {
    if ParseDecimal(s) == Some(v) {
      ParseDecimalOnlySpellings(s);
    }
    if exists k: nat :: Spells(s, v, k) {
      var k: nat :| Spells(s, v, k);
      ParseDecimalReadsSpelling(s, v, k);
    }
  }

  /** `int(str(i)) == i`, even with whitespace `int()` skips around the
      text. */
  lemma ParseShowRoundTrip(i: int, pre: string, post: string)
    requires AllBlank(IntSpace, pre) && AllBlank(IntSpace, post)
    ensures PyInt(pre + ShowInt(i) + post) == Some(i)
  {
    var s := ShowInt(i);
    ParseDecimalShowInt(i);
    assert !IsSpace(s[0]) && !IsSpace(s[|s| - 1]);
    TrimPadded(IntSpace, pre, s, post);
  }
}
