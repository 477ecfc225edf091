/** Decimal text for unsigned integers: `Display` of a `usize` (used to build a
    device's uid) and `str::parse::<u32>` (used to recognise a numeric device
    identifier). */
module Decimal {
  import opened Wrappers
  import opened Strings

  /** One more than the largest `u32`, 4294967295. */
  const U32Limit: int := 0x1_0000_0000

  /** Rust's `u32`. */
  newtype u32 = x: int | 0 <= x < U32Limit

  /** `n as u32` for a `usize` `n`: the low 32 bits, so `n` itself whenever
      it fits. */
  function AsU32(n: nat): (r: u32)
    ensures n < U32Limit ==> r as int == n
  {
    (n % U32Limit) as u32
  }

  predicate IsDigit(c: char)
  {
    '0' <= c <= '9'
  }

  predicate AllDigits(s: string)
  {
    forall i :: 0 <= i < |s| ==> IsDigit(s[i])
  }

  function DigitValue(c: char): (d: nat)
    requires IsDigit(c)
    ensures d < 10
  {
    c as int - '0' as int
  }

  function DigitChar(d: nat): (c: char)
    requires d < 10
    ensures IsDigit(c) && DigitValue(c) == d
  {
    ('0' as int + d) as char
  }

  /** The value of a run of decimal digits, most significant first; leading
      zeros are allowed. */
  function Value(ds: string): nat
    requires AllDigits(ds)
  {
    if |ds| == 0 then 0 else 10 * Value(ds[..|ds| - 1]) + DigitValue(ds[|ds| - 1])
  }

  /** A canonical numeral: digits only, no sign, no leading zero except for "0". */
  predicate Canonical(s: string)
  {
    |s| > 0 && AllDigits(s) && (s[0] == '0' ==> |s| == 1)
  }

  /** `format!("{}", n)` of an unsigned integer. */
  function Show(n: nat): (r: string)
    ensures Canonical(r)
    decreases n
  {
    if n < 10 then [DigitChar(n)] else Show(n / 10) + [DigitChar(n % 10)]
  }

  /** Reading back a shown number gives the number. */
  lemma {:induction false} ValueOfShow(n: nat)
    ensures Value(Show(n)) == n
    decreases n
  {
    if n >= 10 {
      var s := Show(n / 10);
      ValueOfShow(n / 10);
      assert Show(n)[..|Show(n)| - 1] == s;
    }
  }

  /** Different numbers are shown differently. */
  lemma ShowInjective(m: nat, n: nat)
    requires m != n
    ensures Show(m) != Show(n)
  {
    ValueOfShow(m);
    ValueOfShow(n);
  }

  /** A numeral that does not start with '0' denotes a positive number. */
  lemma {:induction false} ValuePositive(ds: string)
    requires |ds| > 0 && AllDigits(ds) && ds[0] != '0'
    ensures Value(ds) > 0
    decreases |ds|
  {
    if |ds| > 1 {
      ValuePositive(ds[..|ds| - 1]);
    }
  }

  /** Showing the value of a canonical numeral gives the numeral back. */
  lemma {:induction false} ShowOfValue(ds: string)
    requires Canonical(ds)
    ensures Show(Value(ds)) == ds
    decreases |ds|
  {
    var init := ds[..|ds| - 1];
    if |init| > 0 {
      assert init[0] == ds[0];
      ValuePositive(init);
      ShowOfValue(init);
      var v := Value(ds);
      assert v / 10 == Value(init) && v % 10 == DigitValue(ds[|ds| - 1]);
      assert ds == init + [ds[|ds| - 1]];
    } else {
      assert ds == [ds[0]];
    }
  }

  /** The digits `str::parse::<u32>` reads: the text after one optional
      leading '+'. */
  function Unsigned(s: string): string
  {
    if |s| > 0 && s[0] == '+' then s[1..] else s
  }

  /** `s.parse::<u32>()`: an optional '+' followed by a non-empty run of
      decimal digits whose value fits in a `u32`; anything else (the empty
      string, a lone '+', a '-' sign, any other character, an overflowing
      value) is `None`. */
  function ParseU32(s: string): (r: Option<u32>)
    ensures r.Some? ==> |s| > 0 && (s[0] == '+' || IsDigit(s[0]))
    ensures r.Some? ==> forall i :: 0 < i < |s| ==> IsDigit(s[i])
  {
    var ds := Unsigned(s);
    if |ds| > 0 && AllDigits(ds) && Value(ds) < U32Limit then Some(Value(ds) as u32) else None
  }

  /** Every `u32` round-trips through its decimal text. */
  lemma ParseShow(k: u32)
    ensures ParseU32(Show(k as nat)) == Some(k)
  {
    ValueOfShow(k as nat);
  }

  /** A canonical numeral parses to `k` exactly when it is `k`'s decimal text. */
  lemma ParseCanonical(s: string, k: u32)
    requires Canonical(s)
    ensures ParseU32(s) == Some(k) <==> s == Show(k as nat)
  {
    if ParseU32(s) == Some(k) {
      ShowOfValue(s);
    }
    if s == Show(k as nat) {
      ParseShow(k);
    }
  }

  /** A leading '+' is accepted once: "+" followed by text that does not start
      with '+' parses as that text does; "+" alone and "++..." do not parse. */
  lemma ParsePlus(s: string)
    ensures |s| == 0 || s[0] == '+' ==> ParseU32("+" + s) == None
    ensures |s| > 0 && s[0] != '+' ==> ParseU32("+" + s) == ParseU32(s)
  {
  }

  /** A leading '0' does not change the value of a run of digits. */
  lemma {:induction false} ValueLeadingZero(ds: string)
    requires AllDigits(ds)
    ensures AllDigits("0" + ds) && Value("0" + ds) == Value(ds)
    decreases |ds|
  {
    var zs := "0" + ds;
    assert AllDigits(zs) by {
      assert forall i :: 0 < i < |zs| ==> zs[i] == ds[i - 1];
    }
    if |ds| > 0 {
      var init := ds[..|ds| - 1];
      ValueLeadingZero(init);
      assert zs[..|zs| - 1] == "0" + init;
    }
  }

  /** Leading zeros are ignored: "0" followed by a non-empty run of digits
      parses as that run does. */
  lemma ParseLeadingZero(ds: string)
    requires |ds| > 0 && AllDigits(ds)
    ensures ParseU32("0" + ds) == ParseU32(ds)
  {
    ValueLeadingZero(ds);
  }

  /** The first value past the `u32` range does not parse. */
  lemma ParseOverflow()
    ensures ParseU32(Show(U32Limit)) == None
  {
    ValueOfShow(U32Limit);
  }

  /** A leading '-' is never accepted, and neither is the empty string. */
  lemma ParseRejectsSignAndEmpty(s: string)
    ensures ParseU32("-" + s) == None
    ensures ParseU32("") == None
  {
  }

  /** Parsing ignores case: ASCII lower-casing keeps digits and '+' and turns
      every other character into a non-digit. */
  lemma ParseLower(s: string)
    ensures ParseU32(Lower(s)) == ParseU32(s)
  {
    var l := Lower(s);
    if |s| > 0 {
      assert l[0] == '+' <==> s[0] == '+';
    }
    var ds, dl := Unsigned(s), Unsigned(l);
    assert |dl| == |ds|;
    assert forall i :: 0 <= i < |ds| ==> dl[i] == LowerChar(ds[i]);
    assert AllDigits(dl) <==> AllDigits(ds);
    if AllDigits(ds) {
      assert dl == ds;
    }
  }
}
