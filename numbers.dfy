/**
 * Numbers typed into forms and shown on screen. Money is kept as an integer
 * number of paise (hundredths of a rupee) instead of a JavaScript float:
 * `parseFloat` becomes ParseAmount, `toFixed(2)` becomes FormatAmount, and
 * `parseInt` / `Number.prototype.toString` on ids become ParseInt / IntToString.
 */
module Numbers {
  import opened Common
  import opened Text

  function DigitValue(c: char): nat
    requires IsDigit(c)
  {
    c as int - '0' as int
  }

  function DigitChar(d: nat): (c: char)
    requires d < 10
    ensures IsDigit(c) && DigitValue(c) == d
  {
    ('0' as int + d) as char
  }

  predicate AllDigits(s: string)
  {
    forall i :: 0 <= i < |s| ==> IsDigit(s[i])
  }

  /** The longest prefix of `s` made of decimal digits. */
  function DigitPrefix(s: string): (r: string)
    ensures IsPrefix(r, s) && AllDigits(r)
    ensures |r| == |s| || !IsDigit(s[|r|])
  {
    if s != [] && IsDigit(s[0]) then [s[0]] + DigitPrefix(s[1..]) else []
  }

  /** The value of a string of decimal digits (most significant first). */
  function DigitsValue(ds: string): nat
    requires AllDigits(ds)
    decreases |ds|
  {
    if ds == [] then 0 else DigitsValue(ds[..|ds| - 1]) * 10 + DigitValue(ds[|ds| - 1])
  }

  /** `n.toString()` for a non-negative integer. */
  function IntToString(n: nat): (r: string)
    ensures |r| >= 1 && AllDigits(r)
  {
    if n < 10 then [DigitChar(n)] else IntToString(n / 10) + [DigitChar(n % 10)]
  }

  /** The optional sign that `parseInt`/`parseFloat` accept after leading white space. */
  function SignAndBody(s: string): (bool, string)
  {
    var t := TrimStart(s);
    if t != [] && (t[0] == '-' || t[0] == '+') then (t[0] == '-', t[1..]) else (false, t)
  }

  /** A non-empty text of digits has no sign to skip and is its own digit run. */
  lemma DigitText(s: string)
    ensures s != [] && AllDigits(s) ==> SignAndBody(s) == (false, s) && DigitPrefix(s) == s && s[|s|..] == []
  {
    if s != [] && AllDigits(s) {
      SignAndBodyOfDigitFirst(s);
      DigitPrefixOfDigits(s, []);
      assert s + [] == s;
    }
  }

  /** `parseInt(s)` (radix 10): leading white space and a sign are skipped, the
      longest run of digits is read, the rest is ignored; None stands for NaN. */
  function ParseInt(s: string): (r: Option<int>)
    ensures s == [] ==> r.None?
    ensures s != [] && AllDigits(s) ==> r == Some(DigitsValue(s))
  {
    DigitText(s);
    var (negative, body) := SignAndBody(s);
    var ds := DigitPrefix(body);
    if ds == [] then None
    else
      var magnitude: int := DigitsValue(ds);
      Some(if negative then -magnitude else magnitude)
  }

  /** The paise written by the first two digits after the decimal point. */
  function Paise(frac: string): nat
    requires AllDigits(frac)
  {
    (if |frac| >= 1 then DigitValue(frac[0]) * 10 else 0) + (if |frac| >= 2 then DigitValue(frac[1]) else 0)
  }

  /** `parseFloat(s)` read as an amount of paise: `[ws][sign]digits[.digits]`,
      the rest ignored; digits past the second decimal are dropped. None stands
      for NaN (no digit on either side of the point). */
  function ParseAmount(s: string): (r: Option<int>)
    ensures s == [] ==> r.None?
    ensures s != [] && AllDigits(s) ==> r == Some(DigitsValue(s) * 100)
  {
    DigitText(s);
    var (negative, body) := SignAndBody(s);
    match UnsignedAmount(body)
    case None => None
    case Some(magnitude) => Some(if negative then -magnitude else magnitude)
  }

  /** The amount written at the start of `body`, which carries no sign. */
  function UnsignedAmount(body: string): Option<int>
  {
    var whole := DigitPrefix(body);
    var rest := body[|whole|..];
    var frac := if rest != [] && rest[0] == '.' then DigitPrefix(rest[1..]) else [];
    if whole == [] && frac == [] then None
    else Some(DigitsValue(whole) * 100 + Paise(frac))
  }

  /** `(n / 100).toFixed(2)` for a non-negative amount of paise. */
  function FormatPaise(n: nat): string
  {
    IntToString(n / 100) + "." + [DigitChar(n % 100 / 10), DigitChar(n % 10)]
  }

  /** `x.toFixed(2)` for an amount of paise of either sign. */
  function FormatAmount(n: int): string
  {
    if n < 0 then "-" + FormatPaise(-n) else FormatPaise(n)
  }

  // ---------------------------------------------------------------------------
  // Round trips
  // ---------------------------------------------------------------------------

  lemma {:induction false} DigitsValueOfIntToString(n: nat)
    ensures DigitsValue(IntToString(n)) == n
  {
    var r := IntToString(n);
    if n >= 10 {
      DigitsValueOfIntToString(n / 10);
      assert r[..|r| - 1] == IntToString(n / 10);
    }
  }

  lemma {:induction false} DigitPrefixOfDigits(ds: string, tail: string)
    requires AllDigits(ds)
    requires tail == [] || !IsDigit(tail[0])
    ensures DigitPrefix(ds + tail) == ds
  {
    if ds == [] {
      assert ds + tail == tail;
    } else {
      assert (ds + tail)[1..] == ds[1..] + tail;
      DigitPrefixOfDigits(ds[1..], tail);
      assert ds == [ds[0]] + ds[1..];
    }
  }

  /** A string that starts with a digit is left alone by the sign/white-space skip. */
  lemma {:induction false} SignAndBodyOfDigitFirst(s: string)
    requires s != [] && IsDigit(s[0])
    ensures SignAndBody(s) == (false, s)
  {
    assert TrimStart(s) == s;
  }

  /** `parseInt(String(n)) === n`: the id picked in a form as text comes back unchanged. */
  lemma {:induction false} ParseIntOfIntToString(n: nat)
    ensures ParseInt(IntToString(n)) == Some(n)
  {
    var s := IntToString(n);
    SignAndBodyOfDigitFirst(s);
    DigitPrefixOfDigits(s, []);
    assert s + [] == s;
    DigitsValueOfIntToString(n);
  }

  /** `parseFloat(String(n))` is n rupees, that is n * 100 paise. */
  lemma {:induction false} ParseAmountOfIntToString(n: nat)
    ensures ParseAmount(IntToString(n)) == Some(n * 100)
  {
    var s := IntToString(n);
    SignAndBodyOfDigitFirst(s);
    DigitPrefixOfDigits(s, []);
    assert s + [] == s;
    DigitsValueOfIntToString(n);
  }

  lemma {:induction false} PaiseOfTwoDigits(n: nat)
    ensures Paise([DigitChar(n % 100 / 10), DigitChar(n % 10)]) == n % 100
  {
    var frac := [DigitChar(n % 100 / 10), DigitChar(n % 10)];
    assert DigitValue(frac[0]) == n % 100 / 10;
    assert DigitValue(frac[1]) == n % 10;
    assert n % 100 / 10 * 10 + n % 10 == n % 100;
  }

  lemma {:induction false} UnsignedAmountOfPoint(whole: string, frac: string)
    requires |whole| >= 1 && AllDigits(whole) && AllDigits(frac)
    ensures UnsignedAmount(whole + "." + frac) == Some(DigitsValue(whole) * 100 + Paise(frac))
  {
    var tail := "." + frac;
    var body := whole + tail;
    assert whole + "." + frac == body;
    DigitPrefixOfDigits(whole, tail);
    var rest := body[|whole|..];
    assert rest == tail;
    assert rest[1..] == frac;
    DigitPrefixOfDigits(frac, []);
    assert frac + [] == frac;
  }

  /** `parseFloat(x.toFixed(2))` gives back the amount x exactly. */
  lemma {:induction false} ParseAmountOfFormatPaise(n: nat)
    ensures UnsignedAmount(FormatPaise(n)) == Some(n)
    ensures ParseAmount(FormatPaise(n)) == Some(n)
  {
    var whole := IntToString(n / 100);
    var frac := [DigitChar(n % 100 / 10), DigitChar(n % 10)];
    var text := FormatPaise(n);
    assert text == whole + "." + frac;
    assert IsDigit(text[0]) by {
      assert text[0] == whole[0];
    }
    SignAndBodyOfDigitFirst(text);
    UnsignedAmountOfPoint(whole, frac);
    DigitsValueOfIntToString(n / 100);
    PaiseOfTwoDigits(n);
    assert UnsignedAmount(text) == Some(n);
  }

  /** `x.toFixed(2)` ends in a point and two digits. */
  lemma {:induction false} FormatPaiseEnding(n: nat)
    ensures var t := FormatPaise(n); |t| >= 4 && t[|t| - 3] == '.' && IsDigit(t[|t| - 2]) && IsDigit(t[|t| - 1])
  {
    var whole := IntToString(n / 100);
    var frac := [DigitChar(n % 100 / 10), DigitChar(n % 10)];
    var t := whole + "." + frac;
    assert t == FormatPaise(n);
    assert t[|t| - 3..] == "." + frac;
  }

  /** A minus sign in front of an unsigned amount negates it. */
  lemma {:induction false} ParseAmountOfMinus(text: string, m: int)
    requires text != [] && IsDigit(text[0]) && UnsignedAmount(text) == Some(m)
    ensures ParseAmount("-" + text) == Some(-m)
  {
    var s := "-" + text;
    assert s[0] == '-' && !IsJsSpace(s[0]);
    assert TrimStart(s) == s;
    assert s[1..] == text;
    assert SignAndBody(s) == (true, text);
  }

  /** A negative amount is printed as a minus sign before its magnitude. */
  lemma {:induction false} ParseAmountOfMinusPaise(m: nat)
    ensures ParseAmount("-" + FormatPaise(m)) == Some(-(m as int))
  {
    var whole := IntToString(m / 100);
    var text := whole + "." + [DigitChar(m % 100 / 10), DigitChar(m % 10)];
    assert text == FormatPaise(m);
    ParseAmountOfFormatPaise(m);
    assert text[0] == whole[0];
    ParseAmountOfMinus(text, m);
  }

  /** `parseFloat(x.toFixed(2))` gives back x exactly, a negative x included;
      the text ends in a point and two digits. */
  lemma {:induction false} ParseAmountOfFormatAmount(n: int)
    ensures ParseAmount(FormatAmount(n)) == Some(n)
    ensures var t := FormatAmount(n); |t| >= 4 && t[|t| - 3] == '.' && IsDigit(t[|t| - 2]) && IsDigit(t[|t| - 1])
  {
    var m: nat := if n < 0 then -n else n;
    var text := FormatPaise(m);
    FormatPaiseEnding(m);
    if n < 0 {
      var s := "-" + text;
      assert FormatAmount(n) == s;
      ParseAmountOfMinusPaise(m);
      assert s[|s| - 3..] == text[|text| - 3..];
    } else {
      assert FormatAmount(n) == text;
      ParseAmountOfFormatPaise(m);
    }
  }
}
