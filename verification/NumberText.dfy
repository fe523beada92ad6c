/**
  Numbers as text: the parser `number` of `app/modules/ajustes/bulk.py`, and the price and
  mileage texts of `app/modules/concesionario/documents.py`. Digits are the ASCII ones.
 */
module NumberText {
  import opened Prelude
  import opened Money
  import Text

  const MAX_INTEGER := 2147483647

  predicate IsDigit(c: char) { '0' <= c <= '9' }

  predicate AllDigits(s: string) { forall i :: 0 <= i < |s| ==> IsDigit(s[i]) }

  predicate Digits(s: string) { s != "" && AllDigits(s) }

  /** The number a run of digits denotes. */
  function Value(s: string): nat
    requires AllDigits(s)
  {
    if s == "" then 0 else 10 * Value(s[..|s| - 1]) + (s[|s| - 1] - '0') as nat
  }

  function Pow10(n: nat): (r: nat)
    ensures r > 0
  {
    if n == 0 then 1 else 10 * Pow10(n - 1)
  }

  /** `n` with the point moved `k` places to the left. */
  function Ratio(n: nat, k: nat): (r: real)
    ensures r >= 0.0
  {
    n as real / Pow10(k) as real
  }

  /** `str.replace` of one character by another. */
  function Swap(s: string, from: char, to: char): (r: string)
    ensures |r| == |s|
  {
    seq(|s|, i requires 0 <= i < |s| => if s[i] == from then to else s[i])
  }

  /** `str.replace(c, "")`. */
  function Remove(s: string, c: char): string {
    if s == "" then ""
    else Remove(s[..|s| - 1], c) + if s[|s| - 1] == c then "" else [s[|s| - 1]]
  }

  /* ---- printing ---- */

  function Digit(d: nat): (c: char)
    requires d < 10
    ensures IsDigit(c)
  {
    '0' + d as char
  }

  function Print(n: nat): string {
    if n < 10 then [Digit(n)] else Print(n / 10) + [Digit(n % 10)]
  }

  /** Exactly `width` digits. */
  function Padded(n: nat, width: nat): (s: string)
    ensures |s| == width && AllDigits(s)
  {
    if width == 0 then "" else Padded(n / 10, width - 1) + [Digit(n % 10)]
  }

  /** The format `,`: a comma before every group of three digits. */
  function WithCommas(n: nat): string {
    if n < 1000 then Print(n) else WithCommas(n / 1000) + "," + Padded(n % 1000, 3)
  }

  /** The format `,.2f` of an amount in cents. */
  function Formatted(c: nat): string { WithCommas(c / 100) + "." + Padded(c % 100, 2) }

  function PriceText(c: nat): string {
    Swap(Swap(Swap(Formatted(c), ',', '_'), '.', ','), '_', '.')
  }

  function MileageText(km: nat): string { Swap(WithCommas(km), ',', '.') }

  /* ---- parsing ---- */

  /** How many digits `s` starts with. */
  function Span(s: string): (n: nat)
    ensures n <= |s| && AllDigits(s[..n]) && (n < |s| ==> !IsDigit(s[n]))
  {
    if s == "" || !IsDigit(s[0]) then 0 else 1 + Span(s[1..])
  }

  /** The exponent after `e`; the text must end with it. */
  function Exponent(s: string): Option<int> {
    var signed := s != "" && (s[0] == '-' || s[0] == '+');
    var digits := if signed then s[1..] else s;
    if !Digits(digits) then None
    else Some(if signed && s[0] == '-' then -(Value(digits) as int) else Value(digits))
  }

  function Scaled(x: real, exponent: int): real {
    if exponent >= 0 then x * Pow10(exponent) as real else x / Pow10(-exponent) as real
  }

  function Unsigned(s: string): Option<real> {
    var i := Span(s);
    var after := s[i..];
    var dot := after != "" && after[0] == '.';
    var k := if dot then Span(after[1..]) else 0;
    var fraction := if dot then after[1..][..k] else "";
    var rest := if dot then after[1 + k..] else after;
    if i == 0 && k == 0 then None
    else
      var x := Ratio(Value(s[..i] + fraction), k);
      if rest == "" then Some(x)
      else if rest[0] == 'e' || rest[0] == 'E' then
        var e := Exponent(rest[1..]);
        if e.Some? then Some(Scaled(x, e.value)) else None
      else None
  }

  /** `Decimal(s)`; infinities, NaNs and malformed text all end in the same error, so all are None. */
  function DecimalOf(s: string): Option<real> {
    var t := Remove(s, '_');
    if t != "" && (t[0] == '-' || t[0] == '+') then
      var x := Unsigned(t[1..]);
      if x.Some? && t[0] == '-' then Some(-x.value) else x
    else Unsigned(t)
  }

  /** `[1-9]\d{0,2}`. */
  predicate Lead(s: string) { 1 <= |s| <= 3 && AllDigits(s) && s[0] != '0' }

  /** `[1-9]\d{0,2}(?:\.\d{3})+`. */
  predicate Grouped(s: string) {
    && |s| >= 5
    && s[|s| - 4] == '.' && AllDigits(s[|s| - 3..])
    && (Lead(s[..|s| - 4]) || Grouped(s[..|s| - 4]))
  }

  /** The position of the first comma. */
  function Comma(s: string): (r: Option<nat>)
    ensures r.Some? ==> r.value < |s| && s[r.value] == ',' && ',' !in s[..r.value]
    ensures r.None? <==> ',' !in s
  {
    if s == "" then None
    else if s[0] == ',' then Some(0)
    else
      var r := Comma(s[1..]);
      assert s == [s[0]] + s[1..];
      if r.Some? then
        assert s[..r.value + 1] == [s[0]] + s[1..][..r.value];
        Some(r.value + 1)
      else None
  }

  /** `(?:\d+|[1-9]\d{0,2}(?:\.\d{3})+),\d+`. */
  predicate CommaNumber(s: string) {
    var k := Comma(s);
    && k.Some?
    && (Digits(s[..k.value]) || Grouped(s[..k.value]))
    && Digits(s[k.value + 1..])
  }

  datatype Outcome = Absent | Number(x: real) | BadFormat | Invalid | TooLarge

  predicate Integral(x: real) { x.Floor as real == x }

  /** What the parser does with an already stripped text. */
  function Parsed(text: string, integer: bool): Outcome {
    if text == "" then Absent
    else if ',' in text && !CommaNumber(text) then BadFormat
    else
      var normalized :=
        if ',' in text then Swap(Remove(text, '.'), ',', '.')
        else if Grouped(text) then Remove(text, '.')
        else text;
      var x := DecimalOf(normalized);
      if x.None? || x.value < 0.0 || (integer && !Integral(x.value)) then Invalid
      else if integer && x.value > MAX_INTEGER as real then TooLarge
      else Number(x.value)
  }

  /** `number(value, integer=…)`; `Absent` is the caller's default. */
  function Parse(value: string, integer: bool): (r: Outcome)
    ensures r.Number? ==> r.x >= 0.0 && (integer ==> Integral(r.x) && r.x <= MAX_INTEGER as real)
  {
    Parsed(Text.Strip(value), integer)
  }

  /* ---- digits ---- */

  lemma Shift(x: nat, p: nat)
    ensures x * (10 * p) == 10 * (x * p)
  {
  }

  lemma {:induction false} ValueConcat(a: string, b: string)
    requires AllDigits(a) && AllDigits(b)
    ensures AllDigits(a + b) && Value(a + b) == Value(a) * Pow10(|b|) + Value(b)
  {
    if b == "" {
      assert a + b == a;
    } else {
      var n := |b| - 1;
      ValueConcat(a, b[..n]);
      assert (a + b)[..|a + b| - 1] == a + b[..n];
      Shift(Value(a), Pow10(n));
    }
  }

  lemma {:induction false} PrintIsValue(n: nat)
    ensures Digits(Print(n)) && Value(Print(n)) == n
    ensures n > 0 ==> Print(n)[0] != '0'
    ensures n < 1000 ==> |Print(n)| <= 3
  {
    if n >= 10 {
      PrintIsValue(n / 10);
      assert Print(n)[..|Print(n)| - 1] == Print(n / 10);
      if 100 <= n < 1000 {
        assert 10 <= n / 10 < 100;
        assert |Print(n / 10 / 10)| == 1;
      }
    } else {
      assert Print(n)[..0] == "";
    }
  }

  lemma {:induction false} PaddedIsValue(n: nat, width: nat)
    requires n < Pow10(width)
    ensures Value(Padded(n, width)) == n
  {
    if width > 0 {
      PaddedIsValue(n / 10, width - 1);
      assert Padded(n, width)[..width - 1] == Padded(n / 10, width - 1);
    }
  }

  lemma {:induction false} RemoveConcat(a: string, b: string, c: char)
    ensures Remove(a + b, c) == Remove(a, c) + Remove(b, c)
  {
    if b == "" {
      assert a + b == a;
    } else {
      assert (a + b)[..|a + b| - 1] == a + b[..|b| - 1];
      RemoveConcat(a, b[..|b| - 1], c);
    }
  }

  lemma {:induction false} RemoveAbsent(s: string, c: char)
    requires c !in s
    ensures Remove(s, c) == s
  {
    if s != "" {
      RemoveAbsent(s[..|s| - 1], c);
      assert s == s[..|s| - 1] + [s[|s| - 1]];
    }
  }

  lemma SwapAbsent(s: string, from: char, to: char)
    requires from !in s
    ensures Swap(s, from, to) == s
  {
  }

  lemma DigitsHaveNo(s: string, c: char)
    requires AllDigits(s) && !IsDigit(c)
    ensures c !in s
  {
  }

  /* ---- reading plain decimals ---- */

  lemma {:induction false} SpanIs(s: string, n: nat)
    requires n <= |s| && AllDigits(s[..n]) && (n < |s| ==> !IsDigit(s[n]))
    ensures Span(s) == n
  {
    if s != "" && n > 0 {
      assert IsDigit(s[..n][0]);
      assert s[1..][..n - 1] == s[..n][1..];
      SpanIs(s[1..], n - 1);
    }
  }

  /** A run of digits is its value. */
  lemma PlainWhole(a: string)
    requires Digits(a)
    ensures DecimalOf(a) == Some(Value(a) as real)
  {
    hide Value, Remove, Span;
    DigitsHaveNo(a, '_');
    RemoveAbsent(a, '_');
    assert a[..|a|] == a && a + "" == a;
    SpanIs(a, |a|);
    assert Pow10(0) == 1;
  }

  lemma UnsignedPoint(a: string, b: string)
    requires Digits(a) && Digits(b)
    ensures AllDigits(a + b)
    ensures Unsigned(a + "." + b) == Some(Ratio(Value(a + b), |b|))
  {
    hide Value, Span, Pow10, Ratio;
    var s := a + "." + b;
    assert s[..|a|] == a;
    SpanIs(s, |a|);
    var after := s[|a|..];
    assert after == "." + b && after[1..] == b && b[..|b|] == b;
    SpanIs(b, |b|);
    assert after[1 + |b|..] == "";
  }

  /** With a point, the digits after it are decimals. */
  lemma PlainDecimal(a: string, b: string)
    requires Digits(a) && Digits(b)
    ensures AllDigits(a + b)
    ensures DecimalOf(a + "." + b) == Some(Ratio(Value(a + b), |b|))
  {
    hide Value, Remove, Span, Unsigned, Pow10, Ratio;
    var s := a + "." + b;
    assert '_' !in s;
    RemoveAbsent(s, '_');
    UnsignedPoint(a, b);
    assert s[0] == a[0];
  }

  lemma Unstripped(s: string)
    requires s != "" && IsDigit(s[0]) && IsDigit(s[|s| - 1])
    ensures Text.Strip(s) == s
  {
  }

  /* ---- grouped digits ---- */

  predicate MileageShaped(s: string, n: nat) {
    && |s| > 0 && IsDigit(s[0]) && IsDigit(s[|s| - 1]) && ',' !in s
    && (if n < 1000 then s == Print(n) && Digits(s) && |s| <= 3 && (n > 0 ==> s[0] != '0') else Grouped(s))
    && Digits(Remove(s, '.')) && Value(Remove(s, '.')) == n
  }

  lemma ShortShape(n: nat)
    requires n < 1000
    ensures MileageShaped(MileageText(n), n)
  {
    hide Print, Value, Remove;
    var s := Print(n);
    PrintIsValue(n);
    DigitsHaveNo(s, ',');
    SwapAbsent(s, ',', '.');
    DigitsHaveNo(s, '.');
    RemoveAbsent(s, '.');
  }

  lemma Thousand()
    ensures Pow10(3) == 1000
  {
    assert Pow10(1) == 10 && Pow10(2) == 100;
  }

  lemma JoinedThousand(a: string, b: string)
    requires AllDigits(a) && AllDigits(b) && |b| == 3
    ensures AllDigits(a + b) && Value(a + b) == Value(a) * 1000 + Value(b)
  {
    ValueConcat(a, b);
    Thousand();
  }

  lemma LeadOf(head: string, n: nat)
    requires n > 0 && MileageShaped(head, n)
    ensures Lead(head) || Grouped(head)
  {
    hide Grouped, Value, Remove, Print;
  }

  lemma GroupsJoin(head: string, tail: string)
    requires (Lead(head) || Grouped(head)) && |tail| == 3 && AllDigits(tail)
    ensures Grouped(head + "." + tail)
  {
    var s := head + "." + tail;
    assert s[|s| - 3..] == tail && s[..|s| - 4] == head;
  }

  lemma RemoveJoined(a: string, c: char, b: string)
    ensures Remove(a + [c] + b, '.') == Remove(a, '.') + (if c == '.' then "" else [c]) + Remove(b, '.')
  {
    RemoveConcat(a + [c], b, '.');
    RemoveConcat(a, [c], '.');
    assert [c][..0] == "";
    assert Remove([c], '.') == (if c == '.' then "" else [c]);
  }

  lemma LongShape(head: string, thousands: nat, rest: nat, n: nat)
    requires thousands > 0 && rest < 1000 && n == 1000 * thousands + rest && MileageShaped(head, thousands)
    ensures MileageShaped(head + "." + Padded(rest, 3), n)
  {
    hide Padded, Print, Value, Remove, Grouped, Pow10, Lead;
    var tail := Padded(rest, 3);
    Thousand();
    PaddedIsValue(rest, 3);
    LeadOf(head, thousands);
    RemoveJoined(head, '.', tail);
    RemoveAbsent(tail, '.');
    JoinedThousand(Remove(head, '.'), tail);
    assert Remove(head, '.') + "" + tail == Remove(head, '.') + tail;
    GroupsJoin(head, tail);
  }

  lemma SplitGroups(n: nat)
    requires n >= 1000
    ensures MileageText(n) == MileageText(n / 1000) + "." + Padded(n % 1000, 3)
  {
    hide Padded;
    var tail := Padded(n % 1000, 3);
    assert Swap(tail, ',', '.') == tail;
  }

  lemma {:induction false} MileageShape(n: nat)
    ensures MileageShaped(MileageText(n), n)
  {
    if n < 1000 {
      ShortShape(n);
    } else {
      MileageShape(n / 1000);
      SplitGroups(n);
      hide MileageText;
      LongShape(MileageText(n / 1000), n / 1000, n % 1000, n);
    }
  }

  /* ---- the round trips ---- */

  lemma {:induction false} CommasOnly(n: nat)
    ensures forall ch :: ch in WithCommas(n) ==> IsDigit(ch) || ch == ','
  {
    if n < 1000 { PrintIsValue(n); } else { CommasOnly(n / 1000); }
  }

  /** The price text is the dotted whole part, a comma and two decimals. */
  lemma PriceShape(c: nat)
    ensures PriceText(c) == MileageText(c / 100) + "," + Padded(c % 100, 2)
  {
    var whole, cents := WithCommas(c / 100), Padded(c % 100, 2);
    CommasOnly(c / 100);
    var s := PriceText(c);
    var t := MileageText(c / 100) + "," + cents;
    forall i | 0 <= i < |s| ensures s[i] == t[i] {
      assert Formatted(c)[i] ==
        (if i < |whole| then whole[i] else if i == |whole| then '.' else cents[i - |whole| - 1]);
      assert i < |whole| ==> whole[i] in whole;
    }
  }

  lemma CentsValue(cents: nat)
    requires cents < 100
    ensures Digits(Padded(cents, 2)) && Value(Padded(cents, 2)) == cents && Pow10(2) == 100
  {
    assert Pow10(1) == 10;
    PaddedIsValue(cents, 2);
  }

  lemma JoinedCents(a: string, b: string)
    requires AllDigits(a) && AllDigits(b) && |b| == 2
    ensures AllDigits(a + b) && Value(a + b) == Value(a) * 100 + Value(b)
  {
    ValueConcat(a, b);
    CentsValue(0);
  }

  lemma {:induction false} CommaIs(a: string, b: string)
    requires ',' !in a
    ensures ',' in a + "," + b && Comma(a + "," + b) == Some(|a|)
  {
    var s := a + "," + b;
    assert s[|a|] == ',';
    if a != "" {
      CommaIs(a[1..], b);
      assert s[1..] == a[1..] + "," + b;
    }
  }

  lemma {:induction false} NoComma(s: string)
    requires ',' !in s
    ensures ',' !in Remove(s, '.')
  {
    if s != "" { NoComma(s[..|s| - 1]); }
  }

  /** A dotted or plain whole part with decimals after a comma is accepted and normalised. */
  lemma CommaForm(whole: string, decimals: string)
    requires (Digits(whole) || Grouped(whole)) && ',' !in whole && Digits(decimals)
    ensures
      var s := whole + "," + decimals;
      && ',' in s && CommaNumber(s)
      && Swap(Remove(s, '.'), ',', '.') == Remove(whole, '.') + "." + decimals
  {
    hide Remove, Grouped;
    var s := whole + "," + decimals;
    CommaIs(whole, decimals);
    assert s[..|whole|] == whole && s[|whole| + 1..] == decimals;
    RemoveJoined(whole, ',', decimals);
    RemoveAbsent(decimals, '.');
    NoComma(whole);
    var r := Remove(whole, '.');
    assert Swap(r + "," + decimals, ',', '.') == r + "." + decimals;
  }

  lemma CommaParsed(whole: string, decimals: string, n: nat)
    requires MileageShaped(whole, n) && Digits(decimals)
    ensures AllDigits(Remove(whole, '.') + decimals)
    ensures Parse(whole + "," + decimals, false) == Number(Ratio(Value(Remove(whole, '.') + decimals), |decimals|))
  {
    hide Value, Remove, Grouped, Pow10, Print, DecimalOf, CommaNumber, Swap, Text.Strip, Ratio;
    Unstripped(whole + "," + decimals);
    CommaForm(whole, decimals);
    PlainDecimal(Remove(whole, '.'), decimals);
  }

  lemma PriceParsed(whole: string, n: nat, cents: nat)
    requires MileageShaped(whole, n) && cents < 100
    ensures Parse(whole + "," + Padded(cents, 2), false) == Number(Ratio(n * 100 + cents, 2))
  {
    CentsValue(cents);
    CommaParsed(whole, Padded(cents, 2), n);
    JoinedCents(Remove(whole, '.'), Padded(cents, 2));
  }

  lemma PriceOf(c: nat, n: nat, cents: nat)
    requires cents < 100 && n * 100 + cents == c
    requires PriceText(c) == MileageText(n) + "," + Padded(cents, 2)
    requires Ratio(c, 2) == FromCents(c)
    ensures Parse(PriceText(c), false) == Number(FromCents(c))
  {
    MileageShape(n);
    hide *;
    PriceParsed(MileageText(n), n, cents);
  }

  lemma CentsJoin(c: nat)
    ensures c / 100 * 100 + c % 100 == c && Ratio(c, 2) == FromCents(c)
  {
    assert Pow10(1) == 10 && Pow10(2) == 100;
  }

  /** Main result: reading a printed price gives the price, for every amount in cents. */
  lemma PriceRoundTrip(c: nat)
    ensures Parse(PriceText(c), false) == Number(FromCents(c))
  {
    PriceShape(c);
    CentsJoin(c);
    hide *;
    PriceOf(c, c / 100, c % 100);
  }

  lemma ShortIsPlain(km: nat)
    ensures km < 1000 ==> !Grouped(MileageText(km)) && Remove(MileageText(km), '.') == MileageText(km)
  {
    MileageShape(km);
    if km < 1000 {
      var s := MileageText(km);
      DigitsHaveNo(s, '.');
      RemoveAbsent(s, '.');
    }
  }

  /** Main result: reading a printed mileage gives it back exactly when it fits the integer column. */
  lemma MileageRoundTrip(km: nat)
    ensures Parse(MileageText(km), true) == if km <= MAX_INTEGER then Number(km as real) else TooLarge
  {
    var s := MileageText(km);
    MileageShape(km);
    ShortIsPlain(km);
    hide MileageText, Print, Remove, Value, DecimalOf, Grouped, Text.Strip;
    Unstripped(s);
    PlainWhole(Remove(s, '.'));
    assert Integral(km as real);
  }

  lemma Shrinks(n: nat)
    requires n > 0
    ensures n as real != Ratio(n, 3)
  {
    Thousand();
  }

  lemma LeadIsPositive(a: string)
    requires Lead(a)
    ensures Value(a) > 0
  {
    if |a| == 2 {
      assert a[..1][..0] == "" && a[..1][0] == a[0];
    } else if |a| == 3 {
      assert a[..2][..1] == a[..1] && a[..1][..0] == "" && a[..1][0] == a[0];
    }
  }

  lemma ReadAsThousands(a: string, b: string)
    requires Lead(a) && Digits(b) && |b| == 3
    ensures AllDigits(a + b)
    ensures DecimalOf(Remove(a + "." + b, '.')) == Some(Value(a + b) as real)
    ensures Value(a + b) as real != Ratio(Value(a + b), 3)
  {
    hide Value, Remove, Pow10, DecimalOf, Ratio;
    LeadIsPositive(a);
    Thousand();
    RemoveJoined(a, '.', b);
    RemoveAbsent(a, '.');
    RemoveAbsent(b, '.');
    assert a + "" + b == a + b;
    PlainWhole(a + b);
    ValueConcat(a, b);
    Shrinks(Value(a + b));
  }

  lemma GroupedOnce(a: string, b: string)
    requires Digits(a) && Digits(b)
    ensures Grouped(a + "." + b) <==> Lead(a) && |b| == 3
  {
    var s := a + "." + b;
    assert forall i :: 0 <= i < |s| ==> (s[i] == '.' <==> i == |a|);
    if |s| >= 5 && |b| == 3 {
      assert s[|s| - 3..] == b && s[..|s| - 4] == a;
      assert |a| >= 5 ==> a[|a| - 4] != '.';
    }
  }

  /**
    The two readings of a point meet at one to three digits, not starting with zero, then
    three decimals: there, and only there, the decimals are read as thousands.
   */
  lemma PointIsDecimalIff(a: string, b: string)
    requires Digits(a) && Digits(b)
    ensures AllDigits(a + b)
    ensures Parse(a + "." + b, false) == Number(Ratio(Value(a + b), |b|))
            <==> !(Lead(a) && |b| == 3)
  {
    hide Value, Pow10, DecimalOf, Grouped, Remove, Text.Strip, Ratio;
    var s := a + "." + b;
    Unstripped(s);
    assert ',' !in s;
    GroupedOnce(a, b);
    PlainDecimal(a, b);
    if Lead(a) && |b| == 3 {
      ReadAsThousands(a, b);
    }
  }

  /** Without a comma, a point is the decimal point; two decimals are always read as such. */
  lemma PlainRoundTrip(c: nat)
    ensures Parse(Print(c / 100) + "." + Padded(c % 100, 2), false) == Number(FromCents(c))
  {
    var a, b := Print(c / 100), Padded(c % 100, 2);
    PrintIsValue(c / 100);
    CentsValue(c % 100);
    hide Print, Padded, Value, Pow10, Parse, Ratio;
    PointIsDecimalIff(a, b);
    ValueConcat(a, b);
    CentsJoin(c);
  }
}
