/** The code normaliser of both readers: `str(int(x)).zfill(w)` for numeric
    codes, `''` for an absent optional code, and `lower()` for names. */
module Normalize {
  import opened Base

  /** Widths of the zero-padded codes. */
  const PROVINCE_WIDTH: nat := 2   // WOJ
  const COUNTY_WIDTH: nat := 2     // POW
  const PARISH_WIDTH: nat := 2     // GMI
  const CITY_WIDTH: nat := 7       // SYM, SYMPOD
  const STREET_WIDTH: nat := 5     // SYM_UL

  function Pow10(k: nat): (r: nat)
    ensures r >= 1
  {
    if k == 0 then 1 else 10 * Pow10(k - 1)
  }

  predicate IsDigit(c: char) { '0' <= c <= '9' }

  predicate AllDigits(s: string) { forall i :: 0 <= i < |s| ==> IsDigit(s[i]) }

  function DigitChar(d: nat): (c: char)
    requires d < 10
    ensures IsDigit(c)
  {
    (d + '0' as int) as char
  }

  function DigitValue(c: char): (d: nat)
    requires IsDigit(c)
    ensures d < 10
  {
    c as int - '0' as int
  }

  /** `str(n)` for a non-negative integer: its decimal digits, most significant first. */
  function Digits(n: nat): (s: string)
    ensures 1 <= |s| && AllDigits(s)
  {
    if n < 10 then [DigitChar(n)] else Digits(n / 10) + [DigitChar(n % 10)]
  }

  /** `int(s)` for a string of decimal digits. */
  function ParseDigits(s: string): nat
    requires AllDigits(s)
  {
    if s == [] then 0 else 10 * ParseDigits(s[..|s| - 1]) + DigitValue(s[|s| - 1])
  }

  function Zeros(k: nat): (z: string)
    ensures |z| == k && AllDigits(z)
  {
    seq(k, _ => '0')
  }

  /** Python's `str.zfill(w)` on an unsigned digit string: left-pad with '0' up to width w. */
  function ZFill(s: string, w: nat): (r: string)
    ensures |r| == if |s| < w then w else |s|
    ensures r[|r| - |s|..] == s
    ensures forall i :: 0 <= i < |r| - |s| ==> r[i] == '0'
  {
    if |s| < w then Zeros(w - |s|) + s else s
  }

  /** `str(int(x)).zfill(w)`, the normalisation of every numeric code. */
  function Pad(n: nat, w: nat): string
  {
    ZFill(Digits(n), w)
  }

  lemma {:induction false} ParseDigitsOfDigits(n: nat)
    ensures ParseDigits(Digits(n)) == n
  {
    if n >= 10 {
      var s := Digits(n);
      assert s[..|s| - 1] == Digits(n / 10);
      ParseDigitsOfDigits(n / 10);
    }
  }

  lemma {:induction false} ParseIgnoresLeadingZeros(k: nat, s: string)
    requires AllDigits(s)
    ensures AllDigits(Zeros(k) + s)
    ensures ParseDigits(Zeros(k) + s) == ParseDigits(s)
    decreases |s|, k
  {
    var z := Zeros(k) + s;
    if s == [] {
      assert z == Zeros(k);
      if k > 0 {
        assert z[..|z| - 1] == Zeros(k - 1) + [];
        ParseIgnoresLeadingZeros(k - 1, []);
      }
    } else {
      assert z[..|z| - 1] == Zeros(k) + s[..|s| - 1];
      ParseIgnoresLeadingZeros(k, s[..|s| - 1]);
    }
  }

  /** The padded code is all digits and parses back to the number it came from. */
  lemma PadRoundTrip(n: nat, w: nat)
    ensures AllDigits(Pad(n, w))
    ensures ParseDigits(Pad(n, w)) == n
  {
    var d := Digits(n);
    ParseDigitsOfDigits(n);
    if |d| < w {
      ParseIgnoresLeadingZeros(w - |d|, d);
    }
  }

  /** Two numbers share a padded code only if they are equal: the key space loses nothing. */
  lemma PadInjective(a: nat, b: nat, w: nat)
    ensures Pad(a, w) == Pad(b, w) ==> a == b
  {
    PadRoundTrip(a, w);
    PadRoundTrip(b, w);
  }

  lemma {:induction false} DigitsLength(n: nat, k: nat)
    requires k >= 1
    ensures |Digits(n)| <= k <==> n < Pow10(k)
  {
    if n >= 10 {
      assert |Digits(n)| == |Digits(n / 10)| + 1;
      if k == 1 {
        assert Pow10(1) == 10;
      } else {
        DigitsLength(n / 10, k - 1);
        assert n / 10 < Pow10(k - 1) <==> n < 10 * Pow10(k - 1);
      }
    } else {
      assert Pow10(k) == 10 * Pow10(k - 1);
    }
  }

  /** A code has exactly the level's width precisely when it is below 10^w. */
  lemma PadWidth(n: nat, w: nat)
    requires w >= 1
    ensures |Pad(n, w)| == w <==> n < Pow10(w)
    ensures |Pad(n, w)| >= w
  {
    DigitsLength(n, w);
  }

  /** The readers' treatment of an optional code (POW, GMI): `''` when the cell is NaN. */
  function OptionalCode(x: Option<nat>, w: nat): (r: string)
    requires w >= 1
    ensures r == "" <==> x.None?
    ensures x.Some? ==> AllDigits(r) && ParseDigits(r) == x.value
    ensures x.Some? ==> |r| >= w
    ensures x.Some? && x.value < Pow10(w) ==> |r| == w
  {
    match x
    case None => ""
    case Some(n) => PadRoundTrip(n, w); PadWidth(n, w); Pad(n, w)
  }

  /** The readers' treatment of a mandatory code (WOJ, SYM, SYMPOD, SYM_UL):
      `int(NaN)` raises, so a missing cell is a parse error. */
  function RequiredCode(x: Option<nat>, w: nat): (r: Result<string>)
    requires w >= 1
    ensures r.Failure? <==> x.None?
    ensures r.Failure? ==> r.error == ParseError
    ensures r.Success? ==> AllDigits(r.value) && r.value != "" && ParseDigits(r.value) == x.value
    ensures r.Success? && x.value < Pow10(w) ==> |r.value| == w
  {
    match x
    case None => Failure(ParseError)
    case Some(n) => PadRoundTrip(n, w); PadWidth(n, w); Success(Pad(n, w))
  }

  /** `int(x)` of a mandatory integer cell that is not padded (RODZ_GMI). */
  function RequiredInt(x: Option<nat>): (r: Result<nat>)
    ensures r.Failure? <==> x.None?
    ensures r.Failure? ==> r.error == ParseError
    ensures r.Success? ==> r.value == x.value
  {
    match x
    case None => Failure(ParseError)
    case Some(n) => Success(n)
  }

  /** The ASCII case mapping of `str.lower()`: 'A'..'Z' become 'a'..'z', every other character stays. */
  function LowerChar(c: char): (d: char)
    ensures 'A' <= c <= 'Z' ==> 'a' <= d <= 'z' && d as int - 'a' as int == c as int - 'A' as int
    ensures !('A' <= c <= 'Z') ==> d == c
  {
    if 'A' <= c <= 'Z' then (c as int + 32) as char else c
  }

  predicate NoUpper(s: string) { forall i :: 0 <= i < |s| ==> !('A' <= s[i] <= 'Z') }

  /** `str.lower()`, on the ASCII letters: each capital becomes its small letter, in place. */
  function Lower(s: string): (r: string)
    ensures |r| == |s| && NoUpper(r)
    ensures forall i :: 0 <= i < |s| && 'A' <= s[i] <= 'Z' ==> 'a' <= r[i] <= 'z' && r[i] as int - 'a' as int == s[i] as int - 'A' as int
    ensures forall i :: 0 <= i < |s| && !('A' <= s[i] <= 'Z') ==> r[i] == s[i]
  {
    seq(|s|, i requires 0 <= i < |s| => LowerChar(s[i]))
  }

  /** A name with no capital letter is its own lower-case form. */
  lemma LowerKeepsLowerCase(s: string)
    requires NoUpper(s)
    ensures Lower(s) == s
  {
  }

  /** Lower-casing twice is lower-casing once, so stored names match looked-up names. */
  lemma LowerIdempotent(s: string)
    ensures Lower(Lower(s)) == Lower(s)
  {
    LowerKeepsLowerCase(Lower(s));
  }

  /** Lower-casing works character by character, so it commutes with concatenation. */
  lemma LowerConcat(a: string, b: string)
    ensures Lower(a + b) == Lower(a) + Lower(b)
  {
  }

  /** Two names compare equal after `lower()` exactly when they agree letter by letter
      up to ASCII case. */
  lemma {:induction false} LowerEqualIff(a: string, b: string)
    ensures Lower(a) == Lower(b) <==> |a| == |b| && forall i :: 0 <= i < |a| ==> LowerChar(a[i]) == LowerChar(b[i])
  {
    if Lower(a) == Lower(b) {
      forall i | 0 <= i < |a| ensures LowerChar(a[i]) == LowerChar(b[i]) {
        assert Lower(a)[i] == LowerChar(a[i]);
        assert Lower(b)[i] == LowerChar(b[i]);
      }
    }
  }
}
