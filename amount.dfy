/** The amount field of the donation form: the `\D` stripping used both while
    typing and on submission, `parseInt` on the stripped digits, and the
    Indonesian (id-ID) thousand grouping that re-renders the field on every
    keystroke. */
module Amount {
  import opened Options

  predicate IsDigit(c: char) {
    '0' <= c <= '9'
  }

  predicate AllDigits(s: string) {
    forall i :: 0 <= i < |s| ==> IsDigit(s[i])
  }

  predicate HasDigit(s: string) {
    exists i :: 0 <= i < |s| && IsDigit(s[i])
  }

  /** `s.replace(/\D/g, '')`: every character outside '0'..'9' removed, the
      digits kept in their order. */
  function StripNonDigits(s: string): (r: string)
    ensures AllDigits(r)
    ensures |r| <= |s|
    ensures r == [] <==> !HasDigit(s)
  {
    if s == [] then []
    else
      var rest := StripNonDigits(s[1..]);
      assert HasDigit(s[1..]) ==> HasDigit(s) by {
        if HasDigit(s[1..]) {
          var i :| 0 <= i < |s[1..]| && IsDigit(s[1..][i]);
          assert IsDigit(s[i + 1]);
        }
      }
      assert HasDigit(s) && !IsDigit(s[0]) ==> HasDigit(s[1..]) by {
        if HasDigit(s) && !IsDigit(s[0]) {
          var i :| 0 <= i < |s| && IsDigit(s[i]);
          assert i > 0 && IsDigit(s[1..][i - 1]);
        }
      }
      if IsDigit(s[0]) then [s[0]] + rest else rest
  }

  function DigitValue(c: char): (d: nat)
    requires IsDigit(c)
    ensures d < 10
  {
    (c as int) - ('0' as int)
  }

  function DigitChar(d: nat): (c: char)
    requires d < 10
    ensures IsDigit(c) && DigitValue(c) == d
  {
    (('0' as int) + d) as char
  }

  /** The number a string of decimal digits denotes, most significant first
      (leading zeros allowed, as `parseInt` allows them). */
  function DecimalValue(s: string): nat
    requires AllDigits(s)
  {
    if s == [] then 0 else 10 * DecimalValue(s[..|s| - 1]) + DigitValue(s[|s| - 1])
  }

  function Pow10(n: nat): (p: nat)
    ensures p >= 1
  {
    if n == 0 then 1 else 10 * Pow10(n - 1)
  }

  /** `parseInt` on a digits-only string: `NaN` (here `None`) exactly when the
      string is empty. */
  function ParseDigits(s: string): (r: Option<nat>)
    requires AllDigits(s)
    ensures r.None? <==> s == []
  {
    if s == [] then None else Some(DecimalValue(s))
  }

  /** The amount a submitted form records: `parseInt(text.replace(/\D/g, ''))`. */
  function ParsedAmount(text: string): (r: Option<nat>)
    ensures r.Some? <==> HasDigit(text)
  {
    ParseDigits(StripNonDigits(text))
  }

  /** `parseInt(value) || 0`: a digit-free input counts as zero. */
  function TypedValue(raw: string): (n: nat)
    ensures HasDigit(raw) ==> ParsedAmount(raw) == Some(n)
    ensures !HasDigit(raw) ==> n == 0
  {
    match ParsedAmount(raw)
    case None => 0
    case Some(n) => n
  }

  /** Plain decimal rendering of a number, without leading zeros. */
  function Decimal(n: nat): (s: string)
    ensures AllDigits(s) && |s| >= 1
    decreases n
  {
    if n < 10 then [DigitChar(n)] else Decimal(n / 10) + [DigitChar(n % 10)]
  }

  /** Exactly three digits, with leading zeros: one group after a separator. */
  function Pad3(n: nat): (s: string)
    requires n < 1000
    ensures AllDigits(s) && |s| == 3
  {
    [DigitChar(n / 100), DigitChar((n / 10) % 10), DigitChar(n % 10)]
  }

  /** `new Intl.NumberFormat('id-ID').format(n)` for a whole number: groups of
      three digits separated by '.', e.g. 50000 is rendered "50.000". */
  function Grouped(n: nat): (s: string)
    ensures HasDigit(s)
    decreases n
  {
    if n < 1000 then
      var d := Decimal(n);
      assert IsDigit(d[0]);
      d
    else
      var g := Grouped(n / 1000) + "." + Pad3(n % 1000);
      assert IsDigit(g[|g| - 1]);
      g
  }

  /** `handleAmountChange`: strip, read the number (zero when there is none),
      and re-render it with id-ID grouping. */
  function FormatAmountInput(raw: string): (formatted: string)
    ensures HasDigit(formatted)
  {
    Grouped(TypedValue(raw))
  }

  lemma {:induction false} StripOfDigits(s: string)
    requires AllDigits(s)
    ensures StripNonDigits(s) == s
  {
    if s != [] {
      StripOfDigits(s[1..]);
    }
  }

  /** Stripping is idempotent. */
  lemma StripIdempotent(s: string)
    ensures StripNonDigits(StripNonDigits(s)) == StripNonDigits(s)
  {
    StripOfDigits(StripNonDigits(s));
  }

  /** Stripping works piecewise: it keeps the digits of each part, in order. */
  lemma {:induction false} StripAppend(a: string, b: string)
    ensures StripNonDigits(a + b) == StripNonDigits(a) + StripNonDigits(b)
  {
    if a == [] {
      assert a + b == b;
    } else {
      assert (a + b)[0] == a[0];
      assert (a + b)[1..] == a[1..] + b;
      StripAppend(a[1..], b);
    }
  }

  lemma {:induction false} DecimalValueAppend(a: string, b: string)
    requires AllDigits(a) && AllDigits(b)
    ensures AllDigits(a + b)
    ensures DecimalValue(a + b) == DecimalValue(a) * Pow10(|b|) + DecimalValue(b)
    decreases |b|
  {
    if b == [] {
      assert a + b == a;
    } else {
      var b' := b[..|b| - 1];
      assert (a + b)[..|a + b| - 1] == a + b';
      DecimalValueAppend(a, b');
      calc {
        DecimalValue(a + b);
        10 * DecimalValue(a + b') + DigitValue(b[|b| - 1]);
        10 * (DecimalValue(a) * Pow10(|b'|) + DecimalValue(b')) + DigitValue(b[|b| - 1]);
        DecimalValue(a) * (10 * Pow10(|b'|)) + (10 * DecimalValue(b') + DigitValue(b[|b| - 1]));
        DecimalValue(a) * Pow10(|b|) + DecimalValue(b);
      }
    }
  }

  /** The decimal rendering reads back as the number it renders. */
  lemma {:induction false} DecimalRoundTrip(n: nat)
    ensures DecimalValue(Decimal(n)) == n
    decreases n
  {
    if n >= 10 {
      DecimalRoundTrip(n / 10);
    }
  }

  lemma Pad3Value(n: nat)
    requires n < 1000
    ensures DecimalValue(Pad3(n)) == n
  {
    var s := Pad3(n);
    assert s[..2][..1] == [s[0]];
    assert DecimalValue(s[..2][..1]) == n / 100;
  }

  /** Stripping a grouped rendering leaves digits denoting the same number:
      the separators are exactly the non-digits. */
  lemma {:induction false} GroupedDigits(n: nat)
    ensures DecimalValue(StripNonDigits(Grouped(n))) == n
    decreases n
  {
    if n < 1000 {
      StripOfDigits(Decimal(n));
      DecimalRoundTrip(n);
    } else {
      var hi := Grouped(n / 1000);
      var lo := Pad3(n % 1000);
      assert Grouped(n) == hi + ("." + lo);
      StripAppend(hi, "." + lo);
      assert ("." + lo)[1..] == lo;
      StripOfDigits(lo);
      assert StripNonDigits("." + lo) == lo;
      GroupedDigits(n / 1000);
      DecimalValueAppend(StripNonDigits(hi), lo);
      Pad3Value(n % 1000);
      assert Pow10(3) == 1000;
    }
  }

  /** id-ID formatting followed by the submission parse gives the number back. */
  lemma FormatThenParse(n: nat)
    ensures ParsedAmount(Grouped(n)) == Some(n)
  {
    GroupedDigits(n);
  }

  /** What the form field shows after a keystroke parses, on submission, to
      the number whose digits were typed (zero when none were). */
  lemma AmountFieldRoundTrip(raw: string)
    ensures ParsedAmount(FormatAmountInput(raw)) == Some(TypedValue(raw))
  {
    FormatThenParse(TypedValue(raw));
  }

  /** Re-formatting the field's own content changes nothing. */
  lemma FormatIdempotent(raw: string)
    ensures FormatAmountInput(FormatAmountInput(raw)) == FormatAmountInput(raw)
  {
    AmountFieldRoundTrip(raw);
  }

  /** A digit-free input is rendered as "0". */
  lemma NoDigitsFormatsZero(raw: string)
    requires !HasDigit(raw)
    ensures FormatAmountInput(raw) == "0"
  {
  }

  /** The worked example of the form: "50.000" submits as 50000, and typing
      50000 shows "50.000". */
  lemma FiftyThousand()
    ensures ParsedAmount("50.000") == Some(50000)
    ensures Grouped(50000) == "50.000"
  {
    assert Decimal(0) == "0";
    assert Decimal(50) == "50";
    assert Pad3(0) == "000";
    assert Grouped(50000) == "50.000";
    FormatThenParse(50000);
  }
}
