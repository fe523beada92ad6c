/**
  How numbers are read from text: blanks around them, signs, exponents and decimals, and
  what is refused.
 */
module NumberTextAnswers {
  import opened Prelude
  import opened NumberText
  import Text

  /* ---- blanks ---- */

  lemma {:induction false} LeftBlank(left: string, s: string)
    requires Text.Blank(left)
    ensures Text.StripLeft(left + s) == Text.StripLeft(s)
  {
    if left == "" {
      assert left + s == s;
    } else {
      assert (left + s)[1..] == left[1..] + s;
      LeftBlank(left[1..], s);
    }
  }

  lemma {:induction false} RightBlank(s: string, right: string)
    requires Text.Blank(right)
    ensures Text.StripRight(s + right) == Text.StripRight(s)
  {
    if right == "" {
      assert s + right == s;
    } else {
      var n := |right| - 1;
      assert (s + right)[..|s + right| - 1] == s + right[..n];
      assert (s + right)[|s + right| - 1] == right[n];
      RightBlank(s, right[..n]);
    }
  }

  lemma AllBlank(s: string)
    requires Text.Blank(s)
    ensures Text.Strip(s) == ""
  {
    LeftBlank(s, "");
    assert s + "" == s;
  }

  /** The text itself neither begins nor ends with a blank. */
  predicate Trimmed(s: string) { s != "" && !Text.IsSpace(s[0]) && !Text.IsSpace(s[|s| - 1]) }

  lemma StripBoth(left: string, s: string, right: string)
    requires Text.Blank(left) && Text.Blank(right) && Trimmed(s)
    ensures Text.Strip(left + s + right) == s
  {
    assert left + s + right == left + (s + right);
    LeftBlank(left, s + right);
    assert (s + right)[0] == s[0];
    RightBlank(s, right);
    assert Text.StripLeft(s + right) == s + right;
  }

  /** Blanks around a text change nothing, and nothing but blanks is no number. */
  lemma BlanksAreIgnored(left: string, s: string, right: string, integer: bool)
    requires Text.Blank(left) && Text.Blank(right) && Trimmed(s)
    ensures Parse(left + s + right, integer) == Parse(s, integer) != Absent
    ensures Parse(left + right, integer) == Absent
  {
    StripBoth(left, s, right);
    StripBoth("", s, "");
    assert "" + s + "" == s;
    AllBlank(left + right);
    hide Text.Strip, DecimalOf, CommaNumber, Grouped;
  }

  /* ---- whole numbers ---- */

  lemma DigitsAreTrimmed(a: string)
    requires Digits(a)
    ensures Trimmed(a) && Text.Strip(a) == a && ',' !in a && !Grouped(a)
  {
    StripBoth("", a, "");
    assert "" + a + "" == a;
  }

  /** A run of digits is its value, up to the largest integer the database takes. */
  lemma DigitsAreRead(a: string, integer: bool)
    requires Digits(a)
    ensures Parse(a, integer) ==
            if integer && Value(a) > 2147483647 then TooLarge else Number(Value(a) as real)
  {
    DigitsAreTrimmed(a);
    PlainWhole(a);
    assert (Value(a) as real).Floor == Value(a);
    hide Text.Strip, DecimalOf, Grouped, Value;
  }

  /** What the parser makes of a text without commas or groups, once it is read as a decimal. */
  function Judged(x: Option<real>, integer: bool): Outcome {
    if x.None? || x.value < 0.0 || (integer && x.value.Floor as real != x.value) then Invalid
    else if integer && x.value > 2147483647.0 then TooLarge
    else Number(x.value)
  }

  lemma PlainParse(s: string, integer: bool)
    requires Trimmed(s) && ',' !in s && !Grouped(s)
    ensures Parse(s, integer) == Judged(DecimalOf(s), integer)
  {
    StripBoth("", s, "");
    assert "" + s + "" == s;
    hide Text.Strip, DecimalOf, Grouped;
  }

  lemma SignShape(sign: char, a: string)
    requires (sign == '-' || sign == '+') && Digits(a)
    ensures
      var s := [sign] + a;
      Trimmed(s) && ',' !in s && '.' !in s && '_' !in s && !Grouped(s)
  {
    var s := [sign] + a;
    assert s[|s| - 1] == a[|a| - 1];
    assert !Grouped(s) by {
      assert forall k :: 0 <= k < |s| ==> s[k] != '.';
    }
  }

  lemma UnsignedWhole(a: string)
    requires Digits(a)
    ensures Unsigned(a) == Some(Value(a) as real) == DecimalOf(a)
  {
    hide Unsigned, Value, Remove;
    PlainWhole(a);
    DigitsHaveNo(a, '_');
    RemoveAbsent(a, '_');
    assert IsDigit(a[0]);
  }

  lemma SignedDecimal(sign: char, a: string)
    requires (sign == '-' || sign == '+') && Digits(a)
    ensures DecimalOf([sign] + a) == Some(if sign == '-' then -(Value(a) as real) else Value(a) as real)
  {
    hide Unsigned, Value, Remove, Grouped;
    var s := [sign] + a;
    SignShape(sign, a);
    RemoveAbsent(s, '_');
    UnsignedWhole(a);
    assert s[1..] == a && s[0] == sign;
  }

  /** A plus sign says nothing; a minus sign is only allowed on zero. */
  lemma SignsAreRead(a: string, integer: bool)
    requires Digits(a)
    ensures Parse("+" + a, integer) == Parse(a, integer)
    ensures Parse("-" + a, integer) == if Value(a) == 0 then Number(0.0) else Invalid
  {
    DigitsAreTrimmed(a);
    SignShape('+', a);
    SignShape('-', a);
    hide Text.Strip, DecimalOf, Grouped, Value, Unsigned, Parse, Trimmed, AllDigits;
    PlainParse(a, integer);
    PlainParse("+" + a, integer);
    PlainParse("-" + a, integer);
    PlainWhole(a);
    SignedDecimal('+', a);
    SignedDecimal('-', a);
    assert (0.0).Floor == 0;
  }

  /* ---- decimals ---- */

  /** A comma before decimals is the decimal point. */
  lemma CommaIsRead(a: string, b: string)
    requires Digits(a) && Digits(b)
    ensures AllDigits(a + b)
    ensures Parse(a + "," + b, false) == Number(Ratio(Value(a + b), |b|))
    ensures Parse(a + "," + b, true) ==
            if !Integral(Ratio(Value(a + b), |b|)) then Invalid
            else if Ratio(Value(a + b), |b|) > 2147483647.0 then TooLarge
            else Number(Ratio(Value(a + b), |b|))
  {
    var s := a + "," + b;
    StripBoth("", s, "");
    assert "" + s + "" == s;
    DigitsHaveNo(a, ',');
    DigitsHaveNo(a, '.');
    RemoveAbsent(a, '.');
    CommaForm(a, b);
    PlainDecimal(a, b);
    hide Text.Strip, DecimalOf, Grouped, Value, CommaNumber, Remove, Swap, Ratio;
  }

  lemma UnderscoreShape(a: string, b: string)
    requires Digits(a) && Digits(b)
    ensures Trimmed(a + "_" + b) && ',' !in a + "_" + b && !Grouped(a + "_" + b)
    ensures IsDigit((a + "_" + b)[0]) && Digits(a + b) && IsDigit((a + b)[0])
  {
    var s := a + "_" + b;
    assert s[|s| - 1] == b[|b| - 1] && s[0] == a[0];
    assert !Grouped(s) by { assert forall k :: 0 <= k < |s| ==> s[k] != '.'; }
  }

  lemma RemovedAlone(c: char)
    ensures Remove([c], c) == ""
  {
    assert [c][..0] == "";
  }

  lemma RemovedBetween(a: string, c: char, b: string)
    requires c !in a && c !in b
    ensures Remove(a + [c] + b, c) == a + b
  {
    hide Remove;
    RemoveAbsent(a, c);
    RemoveAbsent(b, c);
    RemovedAlone(c);
    RemoveConcat(a + [c], b, c);
    RemoveConcat(a, [c], c);
    assert a + "" == a;
  }

  lemma UnderscoreRemoved(a: string, b: string)
    requires Digits(a) && Digits(b)
    ensures Remove(a + "_" + b, '_') == a + b == Remove(a + b, '_')
  {
    DigitsHaveNo(a, '_');
    DigitsHaveNo(b, '_');
    hide *;
    RemovedBetween(a, '_', b);
    RemoveAbsent(a + b, '_');
  }

  lemma UnderscoredDecimal(a: string, b: string)
    requires Digits(a) && Digits(b)
    ensures DecimalOf(a + "_" + b) == DecimalOf(a + b)
  {
    UnderscoreRemoved(a, b);
    hide Remove, Unsigned, Digits;
  }

  /** An underscore between digits says nothing. */
  lemma UnderscoresAreIgnored(a: string, b: string, integer: bool)
    requires Digits(a) && Digits(b)
    ensures Parse(a + "_" + b, integer) == Parse(a + b, integer)
  {
    UnderscoreShape(a, b);
    DigitsAreTrimmed(a + b);
    hide *;
    UnderscoredDecimal(a, b);
    PlainParse(a + "_" + b, integer);
    PlainParse(a + b, integer);
  }

  lemma {:induction false} GroupedHasNoComma(s: string)
    requires Grouped(s)
    ensures ',' !in s
  {
    var n := |s| - 4;
    assert s == s[..n] + "." + s[n + 1..];
    if !Lead(s[..n]) { GroupedHasNoComma(s[..n]); }
  }

  /** The comma at `k` is a decimal one: digits, plain or in groups of three, before it, and digits after. */
  predicate DecimalComma(s: string, k: nat)
    requires k < |s|
  {
    s[k] == ',' && (Digits(s[..k]) || Grouped(s[..k])) && Digits(s[k + 1..])
  }

  lemma OnlyComma(s: string, k: nat)
    requires k < |s| && DecimalComma(s, k)
    ensures Comma(s) == Some(k)
  {
    if Grouped(s[..k]) { GroupedHasNoComma(s[..k]); }
    hide Grouped;
    assert s == s[..k] + "," + s[k + 1..];
    CommaIs(s[..k], s[k + 1..]);
  }

  lemma CommaNumberIff(s: string)
    ensures CommaNumber(s) <==> exists k: nat :: k < |s| && DecimalComma(s, k)
  {
    hide Grouped, Digits;
    if CommaNumber(s) { assert DecimalComma(s, Comma(s).value); }
    if k: nat :| k < |s| && DecimalComma(s, k) { OnlyComma(s, k); }
  }

  lemma BadFormatIs(s: string, integer: bool)
    requires Text.Strip(s) == s != ""
    ensures Parse(s, integer) == BadFormat <==> ',' in s && !CommaNumber(s)
  {
    hide Text.Strip, Grouped, DecimalOf, CommaNumber, Remove, Swap, Integral;
  }

  /** A text with a comma is refused as badly written unless that comma is a decimal one. */
  lemma BadFormatIff(s: string, integer: bool)
    requires Trimmed(s)
    ensures Parse(s, integer) == BadFormat <==> ',' in s && forall k: nat :: k < |s| ==> !DecimalComma(s, k)
  {
    StripBoth("", s, "");
    assert "" + s + "" == s;
    BadFormatIs(s, integer);
    CommaNumberIff(s);
    hide *;
  }

  /* ---- exponents ---- */

  lemma ExponentIs(b: string)
    requires Digits(b)
    ensures Exponent(b) == Some(Value(b) as int) == Exponent("+" + b)
    ensures Exponent("-" + b) == Some(-(Value(b) as int))
  {
    assert ("-" + b)[1..] == b && ("+" + b)[1..] == b;
    hide Value;
  }

  lemma WithExponent(a: string, e: char, rest: string)
    requires Digits(a) && (e == 'e' || e == 'E')
    ensures Unsigned(a + [e] + rest) ==
            if Exponent(rest).Some? then Some(Scaled(Value(a) as real, Exponent(rest).value)) else None
  {
    var s := a + [e] + rest;
    assert s[..|a|] == a && s[|a|..] == [e] + rest;
    SpanIs(s, |a|);
    assert a + "" == a && ([e] + rest)[1..] == rest;
    assert Pow10(0) == 1;
    hide Value, Span, Exponent, Scaled;
  }

  /** `a` with the point moved `n` places to the right, and to the left. */
  function Raised(a: nat, n: nat): real { a as real * Pow10(n) as real }

  function Lowered(a: nat, n: nat): real { a as real / Pow10(n) as real }

  lemma ScaledIs(a: nat, n: nat)
    ensures Scaled(a as real, n) == Raised(a, n) >= 0.0
    ensures Scaled(a as real, -(n as int)) == Lowered(a, n) >= 0.0
  {
    assert Pow10(0) == 1;
  }

  lemma ExponentText(a: string, e: char, rest: string)
    requires Digits(a) && (e == 'e' || e == 'E') && rest != "" && IsDigit(rest[|rest| - 1])
    requires ',' !in rest && '.' !in rest && '_' !in rest
    ensures
      var s := a + [e] + rest;
      Trimmed(s) && ',' !in s && '_' !in s && !Grouped(s) && s[0] == a[0]
  {
    var s := a + [e] + rest;
    assert s[|s| - 1] == rest[|rest| - 1] && s[0] == a[0];
    assert !Grouped(s) by {
      assert forall k :: 0 <= k < |s| ==> s[k] != '.';
    }
  }

  lemma ExponentDecimal(a: string, e: char, rest: string)
    requires Digits(a) && (e == 'e' || e == 'E') && rest != "" && IsDigit(rest[|rest| - 1])
    requires ',' !in rest && '.' !in rest && '_' !in rest && Exponent(rest).Some?
    ensures Parse(a + [e] + rest, false) == Judged(Some(Scaled(Value(a) as real, Exponent(rest).value)), false)
  {
    var s := a + [e] + rest;
    ExponentText(a, e, rest);
    RemoveAbsent(s, '_');
    WithExponent(a, e, rest);
    assert IsDigit(a[0]);
    assert DecimalOf(s) == Unsigned(s);
    hide Text.Strip, Grouped, Value, Unsigned, Remove, Exponent, Scaled, Parse, DecimalOf, Trimmed;
    PlainParse(s, false);
  }

  lemma NotNegative(x: real)
    requires x >= 0.0
    ensures Judged(Some(x), false) == Number(x)
  {
  }

  /** What follows the `e` ends with a digit and has none of the other marks. */
  predicate ExponentLike(rest: string) {
    rest != "" && IsDigit(rest[|rest| - 1]) && ',' !in rest && '.' !in rest && '_' !in rest
  }

  lemma EndsWithDigit(sign: string, b: string)
    requires sign in ["+", "-"] && Digits(b)
    ensures ExponentLike(sign + b)
  {
    assert (sign + b)[|b|] == b[|b| - 1];
  }

  lemma ReadWithExponent(a: string, e: char, rest: string, x: real)
    requires Digits(a) && (e == 'e' || e == 'E') && ExponentLike(rest)
    requires Exponent(rest).Some? && Scaled(Value(a) as real, Exponent(rest).value) == x >= 0.0
    ensures Parse(a + [e] + rest, false) == Number(x)
  {
    ExponentDecimal(a, e, rest);
    NotNegative(x);
    hide *;
  }

  /** An exponent moves the point: to the right, or to the left after a minus sign. */
  lemma ExponentsAreRead(a: string, e: char, b: string)
    requires Digits(a) && (e == 'e' || e == 'E') && Digits(b)
    ensures Parse(a + [e] + b, false) == Number(Raised(Value(a), Value(b)))
    ensures Parse(a + [e] + ("+" + b), false) == Number(Raised(Value(a), Value(b)))
    ensures Parse(a + [e] + ("-" + b), false) == Number(Lowered(Value(a), Value(b)))
  {
    hide Value, Exponent, Scaled, Parse, Raised, Lowered;
    ExponentIs(b);
    ScaledIs(Value(a), Value(b));
    ReadWithExponent(a, e, b, Raised(Value(a), Value(b)));
    EndsWithDigit("+", b);
    ReadWithExponent(a, e, "+" + b, Raised(Value(a), Value(b)));
    EndsWithDigit("-", b);
    ReadWithExponent(a, e, "-" + b, Lowered(Value(a), Value(b)));
  }

  /* ---- what is refused ---- */

  predicate NumberChar(c: char) { IsDigit(c) || c in {'.', 'e', 'E', '+', '-'} }

  lemma ExponentChars(s: string)
    requires Exponent(s).Some?
    ensures forall c :: c in s ==> NumberChar(c)
  {
    if s[0] == '-' || s[0] == '+' { assert s == [s[0]] + s[1..]; }
  }

  lemma RestChars(rest: string)
    requires rest != "" ==> (rest[0] == 'e' || rest[0] == 'E') && Exponent(rest[1..]).Some?
    ensures forall c :: c in rest ==> NumberChar(c)
  {
    if rest != "" {
      assert rest == [rest[0]] + rest[1..];
      ExponentChars(rest[1..]);
    }
  }

  lemma UnsignedChars(s: string)
    requires Unsigned(s).Some?
    ensures forall c :: c in s ==> NumberChar(c)
  {
    hide Value, Pow10, Exponent, Scaled, Ratio, Span;
    var i := Span(s);
    var after := s[i..];
    assert s == s[..i] + after;
    if after != "" && after[0] == '.' {
      var k := Span(after[1..]);
      assert after == "." + after[1..][..k] + after[1 + k..];
      RestChars(after[1 + k..]);
    } else {
      RestChars(after);
    }
  }

  lemma {:induction false} RemoveKeeps(s: string, gone: char, c: char)
    requires c in s && c != gone
    ensures c in Remove(s, gone)
  {
    if c in s[..|s| - 1] { RemoveKeeps(s[..|s| - 1], gone, c); } else { assert s[|s| - 1] == c; }
  }

  lemma DecimalChars(s: string, c: char)
    requires c in s && c != '_' && !NumberChar(c)
    ensures DecimalOf(s).None?
  {
    RemoveKeeps(s, '_', c);
    var t := Remove(s, '_');
    if t[0] == '-' || t[0] == '+' {
      assert t == [t[0]] + t[1..];
      if Unsigned(t[1..]).Some? { UnsignedChars(t[1..]); }
    } else if Unsigned(t).Some? {
      UnsignedChars(t);
    }
    hide Unsigned, Remove;
  }

  /** A letter or any other strange character, wherever it stands, is refused. */
  lemma StrangeIsRefused(s: string, c: char, integer: bool)
    requires Text.Strip(s) == s && c in s && !NumberChar(c) && c != ',' && c != '_'
    ensures Parse(s, integer) == BadFormat || Parse(s, integer) == Invalid
  {
    if ',' in s {
      RemoveKeeps(s, '.', c);
      var r := Remove(s, '.');
      var k :| 0 <= k < |r| && r[k] == c;
      assert Swap(r, ',', '.')[k] == c;
      DecimalChars(Swap(r, ',', '.'), c);
    } else {
      RemoveKeeps(s, '.', c);
      DecimalChars(Remove(s, '.'), c);
      DecimalChars(s, c);
    }
    hide Text.Strip, DecimalOf, Grouped, CommaNumber;
  }

  /* ---- how prices and mileages look ---- */

  function FromRight(s: string, i: nat): char
    requires i < |s|
  {
    s[|s| - 1 - i]
  }

  /** Counted from the right, every fourth character is `mark` and all the others are digits; it begins with a digit. */
  predicate InThrees(s: string, mark: char) {
    && s != "" && IsDigit(s[0])
    && forall i :: 0 <= i < |s| ==> if i % 4 == 3 then FromRight(s, i) == mark else IsDigit(FromRight(s, i))
  }

  lemma InThreesStep(head: string, tail: string, mark: char)
    requires InThrees(head, mark) && |tail| == 3 && AllDigits(tail)
    ensures InThrees(head + [mark] + tail, mark)
  {
    var s := head + [mark] + tail;
    forall i: nat | i < |s| ensures if i % 4 == 3 then FromRight(s, i) == mark else IsDigit(FromRight(s, i)) {
      if i < 3 {
        assert FromRight(s, i) == tail[2 - i];
      } else if i > 3 {
        assert FromRight(s, i) == FromRight(head, i - 4);
      }
    }
  }

  lemma {:induction false} CommasInThrees(n: nat)
    ensures InThrees(WithCommas(n), ',')
    ensures n > 0 ==> WithCommas(n)[0] != '0'
  {
    if n < 1000 {
      PrintIsValue(n);
    } else {
      CommasInThrees(n / 1000);
      InThreesStep(WithCommas(n / 1000), Padded(n % 1000, 3), ',');
      hide Print, InThrees, Padded;
    }
  }

  lemma SwapAt(s: string, from: char, to: char, k: nat)
    requires k < |s|
    ensures Swap(s, from, to)[k] == if s[k] == from then to else s[k]
  {
  }

  /** The point of a whole number of kilometres separates thousands. */
  lemma MileageLooks(km: nat)
    ensures InThrees(MileageText(km), '.') && (km > 0 ==> MileageText(km)[0] != '0')
  {
    CommasInThrees(km);
    var s := WithCommas(km);
    var t := MileageText(km);
    hide WithCommas, Swap;
    SwapAt(s, ',', '.', 0);
    forall i: nat | i < |t| ensures if i % 4 == 3 then FromRight(t, i) == '.' else IsDigit(FromRight(t, i)) {
      SwapAt(s, ',', '.', |s| - 1 - i);
      assert FromRight(s, i) == s[|s| - 1 - i];
    }
  }

  lemma InThreesChars(s: string, mark: char)
    requires InThrees(s, mark)
    ensures forall k :: 0 <= k < |s| ==> IsDigit(s[k]) || s[k] == mark
  {
    forall k | 0 <= k < |s| ensures IsDigit(s[k]) || s[k] == mark {
      assert FromRight(s, |s| - 1 - k) == s[k];
    }
  }

  lemma PriceSwaps(w: string, d: string)
    requires forall k :: 0 <= k < |w| ==> IsDigit(w[k]) || w[k] == ','
    requires AllDigits(d)
    ensures Swap(Swap(Swap(w + "." + d, ',', '_'), '.', ','), '_', '.') == Swap(w, ',', '.') + "," + d
  {
    var t := w + "." + d;
    var marked := Swap(t, ',', '_');
    var turned := Swap(marked, '.', ',');
    forall k | 0 <= k < |t| ensures Swap(turned, '_', '.')[k] == (Swap(w, ',', '.') + "," + d)[k] {
      SwapAt(t, ',', '_', k);
      SwapAt(marked, '.', ',', k);
      SwapAt(turned, '_', '.', k);
      if k < |w| { SwapAt(w, ',', '.', k); } else if k > |w| { assert t[k] == d[k - |w| - 1]; }
    }
    hide Swap;
  }

  lemma PriceIs(c: nat)
    ensures PriceText(c) == MileageText(c / 100) + "," + Padded(c % 100, 2)
  {
    var w, d := WithCommas(c / 100), Padded(c % 100, 2);
    CommasInThrees(c / 100);
    InThreesChars(w, ',');
    PriceSwaps(w, d);
    hide WithCommas, Padded, Swap;
  }

  /** A price: its whole part with points between thousands, a comma, and two decimals. */
  lemma PriceLooks(c: nat)
    ensures
      var t := PriceText(c);
      && |t| >= 4 && t[|t| - 3] == ',' && AllDigits(t[|t| - 2..]) && Value(t[|t| - 2..]) == c % 100
      && InThrees(t[..|t| - 3], '.') && (c >= 100 ==> t[0] != '0')
  {
    PriceIs(c);
    MileageLooks(c / 100);
    CentsValue(c % 100);
    var t, d := PriceText(c), Padded(c % 100, 2);
    assert t[|t| - 2..] == d && t[..|t| - 3] == MileageText(c / 100);
    hide PriceText, MileageText, InThrees, Padded, Value;
  }
}
