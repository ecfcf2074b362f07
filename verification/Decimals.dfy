/**
 * Decimal strings against integer base units: the deposit form's parser and printer, the bridge's
 * pair, governance's truncating parser, and the fee split. Exactness is stated against the number the
 * string denotes, an integer over a power of ten.
 */
module Decimals {
  import opened Arithmetic
  import opened Prelude

  // ---- Digits ----

  function Pow10(n: nat): (p: int)
    ensures p >= 1
  {
    if n == 0 then 1 else 10 * Pow10(n - 1)
  }

  predicate IsDigit(c: char) { '0' <= c <= '9' }

  predicate IsDigits(s: string) { forall c <- s :: IsDigit(c) }

  /** `/^\d+$/` */
  predicate IsNumber(s: string) { s != "" && IsDigits(s) }

  function DigitOf(c: char): (k: nat)
    ensures k < 10
  {
    if IsDigit(c) then c as int - '0' as int else 0
  }

  function DigitChar(k: nat): (c: char)
    requires k < 10
    ensures IsDigit(c) && DigitOf(c) == k && (c == '0' <==> k == 0)
  {
    '0' + k as char
  }

  /** `BigInt(s)` for a string of digits; `BigInt("")` is zero. */
  function ValueOfDigits(s: string): nat {
    if s == "" then 0 else 10 * ValueOfDigits(s[..|s| - 1]) + DigitOf(s[|s| - 1])
  }

  /** `n.toString()` */
  function DigitsOf(n: nat): string {
    if n < 10 then [DigitChar(n)] else DigitsOf(n / 10) + [DigitChar(n % 10)]
  }

  /** `s.replace(/0+$/, "")` */
  function StripZeros(s: string): string {
    if s != "" && s[|s| - 1] == '0' then StripZeros(s[..|s| - 1]) else s
  }

  /** Leading zeros go, but one digit stays. */
  function StripLeading(s: string): string {
    if |s| > 1 && s[0] == '0' then StripLeading(s[1..]) else s
  }

  lemma {:induction false} Pow10Add(a: nat, b: nat)
    ensures Pow10(a + b) == Pow10(a) * Pow10(b)
  {
    if a > 0 {
      Pow10Add(a - 1, b);
      assert Pow10(a + b) == 10 * (Pow10(a - 1) * Pow10(b));
    }
  }

  lemma ValueOfPush(s: string, c: char)
    ensures ValueOfDigits(s + [c]) == 10 * ValueOfDigits(s) + DigitOf(c)
  {
    assert (s + [c])[..|s|] == s;
  }

  lemma {:induction false} ValueOfAppend(a: string, b: string)
    ensures ValueOfDigits(a + b) == ValueOfDigits(a) * Pow10(|b|) + ValueOfDigits(b)
  {
    if b == "" {
      assert a + b == a;
    } else {
      hide ValueOfDigits;
      var init, c := b[..|b| - 1], b[|b| - 1];
      assert a + b == (a + init) + [c] && b == init + [c];
      ValueOfPush(a + init, c);
      ValueOfPush(init, c);
      ValueOfAppend(a, init);
      TenTimes(ValueOfDigits(a), Pow10(|init|));
    }
  }

  lemma TenTimes(a: int, b: int)
    ensures 10 * (a * b) == a * (10 * b)
  {
  }

  lemma {:induction false} ValueBound(s: string)
    ensures ValueOfDigits(s) < Pow10(|s|)
  {
    if s != "" {
      ValueBound(s[..|s| - 1]);
    }
  }

  lemma {:induction false} ValueOfZeros(s: string)
    requires IsDigits(s)
    ensures ValueOfDigits(s) == 0 <==> s == Zeros(|s|)
  {
    if s != "" {
      var init, last := s[..|s| - 1], s[|s| - 1];
      assert s == init + [last] && last in s;
      ValueOfZeros(init);
      assert Zeros(|s|) == Zeros(|init|) + ['0'];
    }
  }

  lemma {:induction false} ValueOfDigitsOf(n: nat)
    ensures ValueOfDigits(DigitsOf(n)) == n && IsNumber(DigitsOf(n))
  {
    if n >= 10 {
      ValueOfDigitsOf(n / 10);
      var head := DigitsOf(n / 10);
      assert DigitsOf(n)[..|head|] == head;
    } else {
      assert [DigitChar(n)][..0] == "";
    }
  }

  lemma {:induction false} StripLeadingSplits(s: string)
    ensures |StripLeading(s)| <= |s| && s == Zeros(|s| - |StripLeading(s)|) + StripLeading(s)
  {
    if |s| > 1 && s[0] == '0' {
      StripLeadingSplits(s[1..]);
      var k := |s| - 1 - |StripLeading(s[1..])|;
      assert Zeros(k + 1) == ['0'] + Zeros(k);
      assert s == ['0'] + s[1..];
    }
  }

  lemma {:induction false} StripLeadingAppend(s: string, c: char)
    requires IsDigits(s)
    ensures StripLeading(s + [c]) == if ValueOfDigits(s) == 0 then [c] else StripLeading(s) + [c]
  {
    if s != "" {
      var rest := s[1..];
      assert (s + [c])[1..] == rest + [c] && s == [s[0]] + rest && s[0] in s;
      assert IsDigits(rest) by { forall d | d in rest ensures d in s {} }
      ValueOfAppend([s[0]], rest);
      assert [s[0]][..0] == "" && ValueOfDigits([s[0]]) == DigitOf(s[0]);
      StripLeadingAppend(rest, c);
      if rest == "" {
        assert s == [s[0]];
      }
    }
  }

  lemma DigitsPush(n: nat, k: nat)
    requires k < 10
    ensures DigitsOf(10 * n + k) == if n == 0 then [DigitChar(k)] else DigitsOf(n) + [DigitChar(k)]
  {
  }

  lemma DigitIsItself(c: char)
    requires IsDigit(c)
    ensures DigitChar(DigitOf(c)) == c
  {
  }

  lemma DigitsSplit(s: string)
    requires IsNumber(s)
    ensures IsDigits(s[..|s| - 1]) && IsDigit(s[|s| - 1]) && s == s[..|s| - 1] + [s[|s| - 1]]
  {
    assert s[|s| - 1] in s;
    forall d | d in s[..|s| - 1] ensures IsDigit(d) { assert d in s; }
  }

  /** Printing the value of digits gives them without their leading zeros. */
  lemma {:induction false} DigitsOfValue(s: string)
    requires IsNumber(s)
    ensures DigitsOf(ValueOfDigits(s)) == StripLeading(s)
  {
    hide DigitsOf, StripLeading, DigitChar, DigitOf, IsDigit, IsDigits;
    var init, last := s[..|s| - 1], s[|s| - 1];
    DigitsSplit(s);
    var n := ValueOfDigits(init);
    StripLeadingAppend(init, last);
    DigitsPush(n, DigitOf(last));
    DigitIsItself(last);
    if n > 0 {
      DigitsOfValue(init);
    }
  }

  lemma {:induction false} StripZerosSplits(s: string)
    ensures |StripZeros(s)| <= |s| && s == StripZeros(s) + Zeros(|s| - |StripZeros(s)|)
    ensures StripZeros(s) != "" ==> StripZeros(s)[|StripZeros(s)| - 1] != '0'
  {
    if s != "" && s[|s| - 1] == '0' {
      var init := s[..|s| - 1];
      StripZerosSplits(init);
      var k := |init| - |StripZeros(init)|;
      assert Zeros(k + 1) == Zeros(k) + ['0'];
      assert s == init + ['0'];
    }
  }

  lemma {:induction false} StripZerosOfPadded(s: string, k: nat)
    ensures StripZeros(s + Zeros(k)) == StripZeros(s)
  {
    if k == 0 {
      assert s + Zeros(0) == s;
    } else {
      assert (s + Zeros(k))[..|s| + k - 1] == s + Zeros(k - 1);
      StripZerosOfPadded(s, k - 1);
    }
  }

  lemma PadStartOfValue(s: string)
    requires IsNumber(s)
    ensures PadStart(DigitsOf(ValueOfDigits(s)), |s|) == s
  {
    hide DigitsOf, ValueOfDigits, StripLeading;
    DigitsOfValue(s);
    StripLeadingSplits(s);
  }

  // ---- Amounts ----

  datatype Parts = Parts(negative: bool, whole: string, frac: string)

  /** Where the first `.` is, or the length. */
  function DotAt(s: string): (k: nat)
    ensures k <= |s|
  {
    if s == "" || s[0] == '.' then 0 else 1 + DotAt(s[1..])
  }

  function Unsigned(raw: string): string {
    if raw != "" && raw[0] == '-' then raw[1..] else raw
  }

  /** The two fields of `unsigned.split(".")`. */
  function WholeOf(unsigned: string): string { unsigned[..DotAt(unsigned)] }

  function FracOf(unsigned: string): string {
    var k := DotAt(unsigned);
    if k < |unsigned| then unsigned[k + 1..] else ""
  }

  function SplitAmount(raw: string): Parts {
    Parts(raw != "" && raw[0] == '-', WholeOf(Unsigned(raw)), FracOf(Unsigned(raw)))
  }

  /** A point only with digits after it. */
  predicate PointIsUsed(unsigned: string) {
    DotAt(unsigned) == |unsigned| || FracOf(unsigned) != ""
  }

  /** `/^-?\d+(\.\d+)?$/` */
  predicate IsAmount(raw: string) {
    var p := SplitAmount(raw);
    IsNumber(p.whole) && IsDigits(p.frac) && PointIsUsed(Unsigned(raw))
  }

  function Signed(negative: bool, n: int): int { if negative then -n else n }

  /** What the parsers compute once the string is taken apart. */
  function UnitsOf(p: Parts, decimals: nat): int {
    Signed(p.negative, ValueOfDigits(p.whole) * Pow10(decimals) + ValueOfDigits(PadEnd(p.frac, decimals)))
  }

  function Quotient(n: nat, m: int): (q: nat)
    requires m >= 1
  {
    n / m
  }

  function Remainder(n: nat, m: int): (r: nat)
    requires m >= 1
  {
    n % m
  }

  function Abs(n: int): nat { if n < 0 then -n else n }

  /** What the printers compute: the whole units, and the rest without trailing zeros. */
  function PartsOf(units: int, decimals: nat): Parts {
    var scale := Pow10(decimals);
    Parts(units < 0, DigitsOf(Quotient(Abs(units), scale)),
          StripZeros(PadStart(DigitsOf(Remainder(Abs(units), scale)), decimals)))
  }

  function Print(units: int, decimals: nat): string {
    Compose(PartsOf(units, decimals))
  }

  function Dotted(whole: string, frac: string): string {
    if frac == "" then whole else whole + "." + frac
  }

  function Compose(p: Parts): string {
    (if p.negative then "-" else "") + Dotted(p.whole, p.frac)
  }

  /** The number a string denotes: `numerator / 10^places`. */
  datatype Decimal = Decimal(numerator: int, places: nat)

  function DecimalOf(raw: string): Decimal {
    var p := SplitAmount(raw);
    Decimal(Signed(p.negative, ValueOfDigits(p.whole + p.frac)), |p.frac|)
  }

  predicate SameValue(a: Decimal, b: Decimal) {
    a.numerator * Pow10(b.places) == b.numerator * Pow10(a.places)
  }

  /** The shortest way of writing the same number. */
  function Canonical(raw: string): string {
    var p := SplitAmount(raw);
    var zero := ValueOfDigits(p.whole) == 0 && ValueOfDigits(p.frac) == 0;
    Compose(Parts(p.negative && !zero, StripLeading(p.whole), StripZeros(p.frac)))
  }

  // ---- Taking apart what was put together ----

  lemma {:induction false} DotAfterDigits(s: string, rest: string)
    requires IsDigits(s) && (rest == "" || rest[0] == '.')
    ensures DotAt(s + rest) == |s|
  {
    if s == "" {
      assert s + rest == rest;
    } else {
      assert s[0] in s && (s + rest)[1..] == s[1..] + rest;
      assert IsDigits(s[1..]) by { forall d | d in s[1..] ensures d in s {} }
      DotAfterDigits(s[1..], rest);
    }
  }

  lemma DottedSplits(whole: string, frac: string)
    requires IsNumber(whole) && IsDigits(frac)
    ensures var u := Dotted(whole, frac);
            u != "" && u[0] == whole[0] && WholeOf(u) == whole && FracOf(u) == frac && PointIsUsed(u)
  {
    hide DotAt, IsDigits;
    var u := Dotted(whole, frac);
    var tail := u[|whole|..];
    assert u == whole + tail;
    DotAfterDigits(whole, tail);
    assert u[..|whole|] == whole;
    assert frac != "" ==> u[|whole| + 1..] == frac;
  }

  lemma UnsignedOf(p: Parts)
    requires Dotted(p.whole, p.frac) != "" && Dotted(p.whole, p.frac)[0] != '-'
    ensures Unsigned(Compose(p)) == Dotted(p.whole, p.frac)
    ensures Compose(p) != "" && (Compose(p)[0] == '-' <==> p.negative)
  {
    hide Dotted;
  }

  lemma ComposeSplits(p: Parts)
    requires IsNumber(p.whole) && IsDigits(p.frac)
    ensures SplitAmount(Compose(p)) == p && IsAmount(Compose(p))
  {
    hide WholeOf, FracOf, Dotted, PointIsUsed, Compose;
    assert p.whole[0] in p.whole;
    DottedSplits(p.whole, p.frac);
    UnsignedOf(p);
  }

  lemma ComposeIsTrimmed(p: Parts)
    requires IsNumber(p.whole) && IsDigits(p.frac)
    ensures Trim(Compose(p)) == Compose(p)
  {
    var raw := Compose(p);
    assert p.whole[0] in p.whole && p.whole[|p.whole| - 1] in p.whole;
    if p.frac != "" {
      assert raw[|raw| - 1] == p.frac[|p.frac| - 1] && p.frac[|p.frac| - 1] in p.frac;
    }
    hide Compose;
    TrimSolid(raw);
  }

  lemma TrimSolid(s: string)
    requires s != "" && !IsJsSpace(s[0]) && !IsJsSpace(s[|s| - 1])
    ensures Trim(s) == s
  {
  }

  lemma AmountParts(raw: string)
    requires IsAmount(raw)
    ensures var p := SplitAmount(raw); IsNumber(p.whole) && IsDigits(p.frac)
  {
  }

  lemma PaddedValue(frac: string, decimals: nat)
    requires |frac| <= decimals
    ensures ValueOfDigits(PadEnd(frac, decimals)) == ValueOfDigits(frac) * Pow10(decimals - |frac|)
    ensures |PadEnd(frac, decimals)| == decimals
  {
    var zeros := Zeros(decimals - |frac|);
    ValueOfAppend(frac, zeros);
    ValueOfZeros(zeros);
    assert |frac| == decimals ==> PadEnd(frac, decimals) == frac;
  }

  lemma PaddedDigits(frac: string, decimals: nat)
    requires IsDigits(frac)
    ensures IsDigits(PadEnd(frac, decimals))
  {
  }

  lemma StripKeepsDigits(s: string)
    requires IsDigits(s)
    ensures IsDigits(StripZeros(s)) && IsDigits(StripLeading(s)) && (s != "" ==> StripLeading(s) != "")
  {
    StripZerosSplits(s);
    StripLeadingSplits(s);
    forall c | c in StripZeros(s) ensures IsDigit(c) { assert c in s; }
    forall c | c in StripLeading(s) ensures IsDigit(c) { assert c in s; }
  }

  // ---- Exactness ----

  /** With no more fraction digits than decimals, the parse is the number itself, in base units. */
  lemma ParseIsExact(raw: string, decimals: nat)
    requires |SplitAmount(raw).frac| <= decimals
    ensures SameValue(Decimal(UnitsOf(SplitAmount(raw), decimals), decimals), DecimalOf(raw))
  {
    hide ValueOfDigits, Pow10, SplitAmount;
    var p := SplitAmount(raw);
    var w, f, k := ValueOfDigits(p.whole), ValueOfDigits(p.frac), |p.frac|;
    var a, b, c := Pow10(decimals), Pow10(k), Pow10(decimals - k);
    PaddedValue(p.frac, decimals);
    ValueOfAppend(p.whole, p.frac);
    Pow10Add(decimals - k, k);
    assert a == c * b;
    ExactArithmetic(w, f, b, c);
    assert UnitsOf(p, decimals) == Signed(p.negative, w * (c * b) + f * c);
    SignedTimes(p.negative, w * (c * b) + f * c, b);
    SignedTimes(p.negative, w * b + f, c * b);
  }

  lemma SignedTimes(negative: bool, n: int, m: int)
    ensures Signed(negative, n) * m == Signed(negative, n * m)
  {
  }

  lemma ExactArithmetic(w: int, f: int, b: int, c: int)
    ensures (w * (c * b) + f * c) * b == (w * b + f) * (c * b)
  {
    Distribute(w * (c * b), f * c, b);
    Distribute(w * b, f, c * b);
    TimesAssociates(w, c * b, b);
    TimesAssociates(w, b, c * b);
    TimesAssociates(f, c, b);
  }

  lemma SameUnits(u: int, v: int, d: Decimal, decimals: nat)
    requires SameValue(Decimal(u, decimals), d) && SameValue(Decimal(v, decimals), d)
    ensures u == v
  {
    TimesIsInjective(u, v, Pow10(d.places));
  }

  // ---- Printing and parsing undo each other ----

  lemma {:induction false} DigitsOfLength(n: nat, k: nat)
    requires n < Pow10(k) && k >= 1
    ensures |DigitsOf(n)| <= k
  {
    if n >= 10 {
      DigitsOfLength(n / 10, k - 1);
    }
  }

  lemma ValueOfPadStart(s: string, n: nat)
    requires IsDigits(s)
    ensures ValueOfDigits(PadStart(s, n)) == ValueOfDigits(s) && IsDigits(PadStart(s, n))
    ensures |s| <= n ==> |PadStart(s, n)| == n
  {
    if |s| < n {
      var zeros := Zeros(n - |s|);
      ValueOfAppend(zeros, s);
      ValueOfZeros(zeros);
    }
  }

  lemma OnlyZero()
    ensures DigitsOf(0) == "0" && StripZeros("0") == "" && ValueOfDigits("") == 0 && PadStart("0", 0) == "0"
            && PadEnd("", 0) == ""
  {
  }

  lemma PadStripped(s: string)
    ensures PadEnd(StripZeros(s), |s|) == s
  {
    StripZerosSplits(s);
  }

  /** The printed fraction, padded again, is worth what was printed. */
  lemma FractionOf(r: nat, decimals: nat)
    requires r < Pow10(decimals)
    ensures var frac := StripZeros(PadStart(DigitsOf(r), decimals));
            IsDigits(frac) && |frac| <= decimals && ValueOfDigits(PadEnd(frac, decimals)) == r
  {
    hide DigitsOf, StripZeros, PadStart, PadEnd, ValueOfDigits, StripLeading;
    var shown := PadStart(DigitsOf(r), decimals);
    ValueOfDigitsOf(r);
    ValueOfPadStart(DigitsOf(r), decimals);
    StripKeepsDigits(shown);
    StripZerosSplits(shown);
    if decimals == 0 {
      OnlyZero();
    } else {
      DigitsOfLength(r, decimals);
      PadStripped(shown);
    }
  }

  lemma PartsOfUnits(units: int, decimals: nat)
    ensures var p := PartsOf(units, decimals);
            && IsNumber(p.whole) && IsDigits(p.frac) && |p.frac| <= decimals && UnitsOf(p, decimals) == units
  {
    hide StripZeros, PadStart, ValueOfDigits, DigitsOf, PadEnd;
    var scale := Pow10(decimals);
    var n := Abs(units);
    var q, r := Quotient(n, scale), Remainder(n, scale);
    assert n == q * scale + r;
    ValueOfDigitsOf(q);
    FractionOf(r, decimals);
  }

  lemma ParsePrinted(units: int, decimals: nat)
    ensures var raw := Print(units, decimals);
            && Trim(raw) == raw && IsAmount(raw) && |SplitAmount(raw).frac| <= decimals
            && SplitAmount(raw).negative == (units < 0)
            && UnitsOf(SplitAmount(raw), decimals) == units
  {
    hide PartsOf, Compose, SplitAmount, IsAmount, UnitsOf, Trim;
    PartsOfUnits(units, decimals);
    ComposeSplits(PartsOf(units, decimals));
    ComposeIsTrimmed(PartsOf(units, decimals));
    assert PartsOf(units, decimals).negative == (units < 0) by { SignOf(units, decimals); }
  }

  lemma SignOf(units: int, decimals: nat)
    ensures PartsOf(units, decimals).negative == (units < 0)
  {
  }

  /** A fraction that was parsed prints as itself without trailing zeros. */
  lemma FractionPrints(frac: string, decimals: nat)
    requires IsDigits(frac) && |frac| <= decimals
    ensures var r := ValueOfDigits(PadEnd(frac, decimals));
            r < Pow10(decimals) && StripZeros(PadStart(DigitsOf(r), decimals)) == StripZeros(frac)
  {
    var padded := PadEnd(frac, decimals);
    PaddedValue(frac, decimals);
    ValueBound(padded);
    if decimals == 0 {
      assert padded == "" && frac == "";
      assert StripZeros("0") == "";
    } else {
      PaddedDigits(frac, decimals);
      PadStartOfValue(padded);
      assert padded == frac + Zeros(decimals - |frac|);
      StripZerosOfPadded(frac, decimals - |frac|);
    }
  }

  lemma PrintParsed(raw: string, decimals: nat)
    requires IsAmount(raw) && |SplitAmount(raw).frac| <= decimals
    ensures Print(UnitsOf(SplitAmount(raw), decimals), decimals) == Canonical(raw)
  {
    hide StripZeros, PadStart, ValueOfDigits, DigitsOf, PadEnd, StripLeading, SplitAmount, IsAmount, Compose;
    AmountParts(raw);
    var p, scale := SplitAmount(raw), Pow10(decimals);
    var w, r := ValueOfDigits(p.whole), ValueOfDigits(PadEnd(p.frac, decimals));
    FractionPrints(p.frac, decimals);
    DigitsOfValue(p.whole);
    NonNegativeTimes(w, scale);
    var units := UnitsOf(p, decimals);
    assert Abs(units) == w * scale + r;
    DivMod(w, scale, r);
    PaddedValue(p.frac, decimals);
    ZeroWhen(w, ValueOfDigits(p.frac), scale, Pow10(decimals - |p.frac|));
  }

  lemma ZeroWhen(w: nat, f: nat, scale: int, k: int)
    requires scale >= 1 && k >= 1
    ensures w * scale + f * k == 0 <==> w == 0 && f == 0
  {
    NonNegativeTimes(w, scale);
    NonNegativeTimes(f, k);
    if w > 0 {
      TimesIsStrict(0, w, scale);
    }
    if f > 0 {
      TimesIsStrict(0, f, k);
    }
  }

  // ---- The deposit form's pair ----

  datatype AmountError = MalformedAmount | TooManyDecimals | InvalidDecimals

  function HumanToBaseUnits(amount: string, decimals: int): Result<int, AmountError> {
    var raw := Trim(amount);
    if !IsAmount(raw) then Err(MalformedAmount)
    else if |SplitAmount(raw).frac| > decimals then Err(TooManyDecimals)
    else if decimals > 18 then Err(InvalidDecimals)
    else Ok(UnitsOf(SplitAmount(raw), decimals))
  }

  function BaseUnitsToHuman(units: int, decimals: int): Result<string, AmountError> {
    if decimals < 0 || decimals > 18 then Err(InvalidDecimals) else Ok(Print(units, decimals))
  }

  /** A string parses to exactly the number it denotes, and whenever it has no more fraction digits than the asset. */
  lemma HumanToBaseUnitsIsExact(amount: string, decimals: int, units: int)
    ensures HumanToBaseUnits(amount, decimals) == Ok(units) <==>
            && IsAmount(Trim(amount)) && |SplitAmount(Trim(amount)).frac| <= decimals <= 18
            && SameValue(Decimal(units, decimals), DecimalOf(Trim(amount)))
  {
    hide IsAmount, SplitAmount, Trim, UnitsOf, DecimalOf, SameValue;
    var raw := Trim(amount);
    if |SplitAmount(raw).frac| <= decimals {
      ParseIsExact(raw, decimals);
      if SameValue(Decimal(units, decimals), DecimalOf(raw)) {
        SameUnits(units, UnitsOf(SplitAmount(raw), decimals), DecimalOf(raw), decimals);
      }
    }
  }

  /** Why the deposit form refuses: first a malformed amount, then too many digits, then the precision. */
  lemma HumanRefuses(amount: string, decimals: int)
    ensures var r, raw := HumanToBaseUnits(amount, decimals), Trim(amount);
            && (r == Err(MalformedAmount) <==> !IsAmount(raw))
            && (r == Err(TooManyDecimals) <==> IsAmount(raw) && |SplitAmount(raw).frac| > decimals)
            && (r == Err(InvalidDecimals) <==> IsAmount(raw) && |SplitAmount(raw).frac| <= decimals && decimals > 18)
  {
    hide Trim, IsAmount, SplitAmount, UnitsOf;
  }

  /** Parsing what was printed gives the units back, for every amount and precision. */
  lemma HumanReadsBack(units: int, decimals: int)
    requires 0 <= decimals <= 18
    ensures BaseUnitsToHuman(units, decimals).Ok?
    ensures HumanToBaseUnits(BaseUnitsToHuman(units, decimals).value, decimals) == Ok(units)
  {
    hide Print, IsAmount, SplitAmount, Trim, UnitsOf;
    ParsePrinted(units, decimals);
  }

  /** Printing what was parsed gives the shortest form of the string. */
  lemma HumanPrintsBack(amount: string, decimals: int)
    requires HumanToBaseUnits(amount, decimals).Ok?
    ensures BaseUnitsToHuman(HumanToBaseUnits(amount, decimals).value, decimals) == Ok(Canonical(Trim(amount)))
  {
    hide Print, IsAmount, SplitAmount, Trim, UnitsOf, Canonical;
    PrintParsed(Trim(amount), decimals);
  }

  /** What lies beyond the precision: the number is the first digits' units and a remainder. */
  lemma Excess(p: Parts, decimals: nat)
    requires |p.frac| > decimals
    ensures var kept, cut, c := p.frac[..decimals], p.frac[decimals..], Pow10(|p.frac| - decimals);
            && ValueOfDigits(p.whole + p.frac) == ValueOfDigits(p.whole + kept) * c + ValueOfDigits(cut)
            && ValueOfDigits(cut) < c
            && Pow10(|p.frac|) == c * Pow10(decimals)
  {
    var kept, cut := p.frac[..decimals], p.frac[decimals..];
    assert p.whole + p.frac == (p.whole + kept) + cut;
    ValueOfAppend(p.whole + kept, cut);
    ValueBound(cut);
    Pow10Add(|cut|, decimals);
  }

  lemma MultipleOnlyIf(v: int, n: int, c: int, r: nat)
    requires r < c
    ensures v * c == n * c + r ==> r == 0
  {
    if v * c == n * c + r {
      DivMod(n, c, r);
      DivMod(v, c, 0);
    }
  }

  /**
   * The rejection counts digits, not value: an amount with too many of them is refused even when it is
   * a whole number of base units, which is when every digit beyond the precision is a zero.
   */
  lemma RefusedForDigitsNotValue(amount: string, decimals: nat)
    requires IsAmount(Trim(amount)) && |SplitAmount(Trim(amount)).frac| > decimals
    ensures HumanToBaseUnits(amount, decimals) == Err(TooManyDecimals)
    ensures (exists u: int :: SameValue(Decimal(u, decimals), DecimalOf(Trim(amount)))) <==>
            var cut := SplitAmount(Trim(amount)).frac[decimals..]; cut == Zeros(|cut|)
  {
    hide Trim, SplitAmount, ValueOfDigits, Pow10, IsAmount;
    var raw := Trim(amount);
    var p, d := SplitAmount(raw), DecimalOf(raw);
    var kept, cut, c := p.frac[..decimals], p.frac[decimals..], Pow10(|p.frac| - decimals);
    var n := ValueOfDigits(p.whole + kept);
    AmountParts(raw);
    assert IsDigits(cut) by { forall x | x in cut ensures x in p.frac {} }
    ValueOfZeros(cut);
    Excess(p, decimals);
    forall u: int
      ensures SameValue(Decimal(u, decimals), d) <==> u * c == d.numerator
    {
      TimesAssociates(u, c, Pow10(decimals));
      if SameValue(Decimal(u, decimals), d) {
        TimesIsInjective(u * c, d.numerator, Pow10(decimals));
      }
    }
    if ValueOfDigits(cut) == 0 {
      var u := Signed(p.negative, n);
      assert u * c == d.numerator by { SignedTimes(p.negative, n, c); }
      assert SameValue(Decimal(u, decimals), d);
    } else {
      forall u: int ensures u * c != d.numerator {
        MultipleOnlyIf(u, n, c, ValueOfDigits(cut));
        MultipleOnlyIf(-u, n, c, ValueOfDigits(cut));
        SignedTimes(true, u, c);
      }
    }
  }

  // ---- Trimming for display ----

  /** `amount.replace(/\.?0+$/, "")`, where there is a point. */
  function TrimHumanAmount(amount: string): string {
    if '.' !in amount then amount
    else
      var s := StripZeros(amount);
      if s == amount || s == "" || s[|s| - 1] != '.' then s else s[..|s| - 1]
  }

  lemma {:induction false} DotAtFinds(s: string)
    ensures DotAt(s) < |s| ==> s[DotAt(s)] == '.'
    ensures DotAt(s) == |s| <==> '.' !in s
  {
    if s != "" && s[0] != '.' {
      DotAtFinds(s[1..]);
      assert s == [s[0]] + s[1..];
    }
  }

  lemma SplitDots(unsigned: string)
    requires PointIsUsed(unsigned)
    ensures Dotted(WholeOf(unsigned), FracOf(unsigned)) == unsigned
    ensures '.' in unsigned <==> FracOf(unsigned) != ""
  {
    hide DotAt;
    DotAtFinds(unsigned);
    var k := DotAt(unsigned);
    if k < |unsigned| {
      assert unsigned == unsigned[..k] + "." + unsigned[k + 1..];
    } else {
      assert unsigned[..k] == unsigned;
    }
  }

  lemma SplitComposes(raw: string)
    requires IsAmount(raw)
    ensures Compose(SplitAmount(raw)) == raw
    ensures '.' in raw <==> SplitAmount(raw).frac != ""
  {
    hide WholeOf, FracOf, Dotted, PointIsUsed;
    SplitDots(Unsigned(raw));
    assert raw == (if raw != "" && raw[0] == '-' then "-" else "") + Unsigned(raw);
  }

  lemma {:induction false} StripZerosStopsAt(head: string, tail: string)
    requires head != "" && head[|head| - 1] != '0'
    ensures StripZeros(head + tail) == head + StripZeros(tail)
  {
    if tail == "" {
      assert head + tail == head;
    } else {
      assert (head + tail)[..|head + tail| - 1] == head + tail[..|tail| - 1];
      StripZerosStopsAt(head, tail[..|tail| - 1]);
    }
  }

  /** An amount up to and with its point. */
  function HeadOf(p: Parts): (head: string)
    ensures head != ""
  {
    (if p.negative then "-" else "") + p.whole + "."
  }

  lemma HeadComposes(p: Parts, frac: string)
    ensures frac != "" ==> Compose(p.(frac := frac)) == HeadOf(p) + frac
    ensures Compose(p.(frac := "")) == HeadOf(p)[..|HeadOf(p)| - 1]
    ensures HeadOf(p)[|HeadOf(p)| - 1] == '.'
  {
  }

  lemma TrimmedParts(raw: string)
    requires IsAmount(raw)
    ensures var p := SplitAmount(raw); TrimHumanAmount(raw) == Compose(p.(frac := StripZeros(p.frac)))
  {
    hide SplitAmount, IsAmount, StripZeros, Compose, HeadOf;
    SplitComposes(raw);
    var p := SplitAmount(raw);
    var short := StripZeros(p.frac);
    StripZerosSplits(p.frac);
    HeadComposes(p, p.frac);
    HeadComposes(p, short);
    if p.frac == "" {
      assert p == p.(frac := short);
    } else {
      var head := HeadOf(p);
      assert p == p.(frac := p.frac) && raw == head + p.frac;
      StripZerosStopsAt(head, p.frac);
      var cut := head + short;
      if short == "" {
        assert cut == head && |cut| < |raw|;
      } else {
        AmountParts(raw);
        assert cut[|cut| - 1] == short[|short| - 1] && short[|short| - 1] in p.frac;
      }
    }
  }

  /** How an amount is written: a sign if it is negative, digits, and a point only with digits after it. */
  ghost predicate Writes(raw: string, negative: bool, whole: string, frac: string) {
    && IsNumber(whole) && IsDigits(frac)
    && raw == (if negative then "-" else "") + whole + (if frac == "" then "" else "." + frac)
  }

  lemma AmountWritten(raw: string)
    requires IsAmount(raw)
    ensures var p := SplitAmount(raw); Writes(raw, p.negative, p.whole, p.frac)
  {
    hide SplitAmount, IsAmount, IsNumber, IsDigits;
    SplitComposes(raw);
    AmountParts(raw);
  }

  /** The amounts are the strings so written, each in one way, and denote what they say. */
  lemma AmountMeans(raw: string, negative: bool, whole: string, frac: string)
    ensures IsAmount(raw) <==> exists n: bool, w: string, f: string :: Writes(raw, n, w, f)
    ensures Writes(raw, negative, whole, frac) ==>
              && SplitAmount(raw) == Parts(negative, whole, frac)
              && DecimalOf(raw) == Decimal((if negative then -1 else 1) * ValueOfDigits(whole + frac), |frac|)
  {
    hide SplitAmount, IsAmount, IsNumber, IsDigits, ValueOfDigits;
    if IsAmount(raw) {
      AmountWritten(raw);
    }
    forall n: bool, w: string, f: string | Writes(raw, n, w, f)
      ensures IsAmount(raw) && SplitAmount(raw) == Parts(n, w, f)
    {
      assert raw == Compose(Parts(n, w, f));
      ComposeSplits(Parts(n, w, f));
    }
  }

  lemma PointlessStays(raw: string)
    ensures '.' !in raw ==> TrimHumanAmount(raw) == raw
  {
  }

  lemma ComposeEnds(p: Parts)
    requires IsDigits(p.frac)
    ensures p.frac != "" ==> Compose(p)[|Compose(p)| - 1] == p.frac[|p.frac| - 1] && p.frac[|p.frac| - 1] in p.frac
  {
  }

  /** Trimming never changes the value, and leaves no zero at the end of a fraction nor a point without one. */
  lemma TrimKeepsValue(raw: string)
    requires IsAmount(raw)
    ensures IsAmount(TrimHumanAmount(raw))
    ensures SameValue(DecimalOf(TrimHumanAmount(raw)), DecimalOf(raw))
    ensures var r := TrimHumanAmount(raw);
            ('.' in r ==> r[|r| - 1] != '0' && r[|r| - 1] != '.') && ('.' !in raw ==> r == raw)
  {
    hide SplitAmount, IsAmount, TrimHumanAmount, ValueOfDigits, Pow10, StripZeros, Compose;
    var p := SplitAmount(raw);
    var short := p.(frac := StripZeros(p.frac));
    AmountParts(raw);
    StripKeepsDigits(p.frac);
    StripZerosSplits(p.frac);
    TrimmedParts(raw);
    ComposeSplits(short);
    SplitComposes(Compose(short));
    ComposeEnds(short);
    PointlessStays(raw);
    var k := |p.frac| - |short.frac|;
    assert p.whole + p.frac == (p.whole + short.frac) + Zeros(k);
    ValueOfAppend(p.whole + short.frac, Zeros(k));
    ValueOfZeros(Zeros(k));
    Pow10Add(k, |short.frac|);
    var n := ValueOfDigits(p.whole + short.frac);
    TimesAssociates(Signed(p.negative, n), Pow10(k), Pow10(|short.frac|));
    SignedTimes(p.negative, n, Pow10(k));
  }

  // ---- The fee ----

  /** BigInt division: toward zero. */
  function TruncatedQuotient(n: int, m: int): int
    requires m >= 1
  {
    if n >= 0 then n / m else -((-n) / m)
  }

  function FeeOf(gross: int, bps: int): int {
    TruncatedQuotient(gross * bps + 5000, 10000)
  }

  datatype Fee = Fee(fee: int, feeHuman: string, net: int, netHuman: string)

  function ComputeDepositFee(grossHuman: string, decimals: int, treasuryFeeBps: int,
                             relayerFeeBps: int): Result<Fee, AmountError> {
    var gross := HumanToBaseUnits(grossHuman, decimals);
    if gross.Err? then Err(gross.error)
    else
      var fee := FeeOf(gross.value, treasuryFeeBps + relayerFeeBps);
      var net := gross.value - fee;
      var feeHuman, netHuman := BaseUnitsToHuman(fee, decimals), BaseUnitsToHuman(net, decimals);
      if feeHuman.Err? then Err(feeHuman.error)
      else if netHuman.Err? then Err(netHuman.error)
      else Ok(Fee(fee, feeHuman.value, net, netHuman.value))
  }

  lemma FeeRounding(n: int)
    ensures var off := 10000 * TruncatedQuotient(n + 5000, 10000) - n;
            && (n >= -5000 ==> -5000 < off <= 5000)
            && (n < -5000 ==> 5000 <= off < 15000)
            && (off == 5000 <==> (n + 5000) % 10000 == 0)
  {
  }

  /**
   * The fee is the nearest whole unit, a half rounding up, as long as the product is not below -5000; below
   * that it is too high by at least half a unit, which is nearest only where a half is landed on.
   */
  lemma FeeIsNearest(gross: int, bps: int)
    ensures var n, off := gross * bps, 10000 * FeeOf(gross, bps) - gross * bps;
            && (n >= -5000 ==> -5000 < off <= 5000)
            && (n < -5000 ==> 5000 <= off < 15000)
            && (-5000 <= off <= 5000 <==> n >= -5000 || (n + 5000) % 10000 == 0)
  {
    FeeRounding(gross * bps);
  }

  lemma FeeWithin(gross: nat, bps: int)
    requires 0 <= bps <= 10000
    ensures 0 <= FeeOf(gross, bps) <= gross
  {
    NonNegativeTimes(gross, bps);
    NonNegativeTimes(gross, 10000 - bps);
    assert gross * bps + gross * (10000 - bps) == gross * 10000;
  }

  lemma ParsedIsPrecise(amount: string, decimals: int)
    requires HumanToBaseUnits(amount, decimals).Ok?
    ensures 0 <= decimals <= 18
  {
    hide Trim, IsAmount, SplitAmount, UnitsOf;
  }

  lemma FeeParts(grossHuman: string, decimals: int, treasuryFeeBps: int, relayerFeeBps: int)
    requires HumanToBaseUnits(grossHuman, decimals).Ok? && 0 <= decimals <= 18
    ensures var gross := HumanToBaseUnits(grossHuman, decimals).value;
            var fee := FeeOf(gross, treasuryFeeBps + relayerFeeBps);
            ComputeDepositFee(grossHuman, decimals, treasuryFeeBps, relayerFeeBps) ==
            Ok(Fee(fee, Print(fee, decimals), gross - fee, Print(gross - fee, decimals)))
  {
    hide HumanToBaseUnits, FeeOf, Print;
  }

  /**
   * Whenever the gross parses, fee and net come out, add up to it, and read back from their printed
   * forms; for a gross and a rate in range the fee is between nothing and the gross.
   */
  lemma FeeSplitsGross(grossHuman: string, decimals: int, treasuryFeeBps: int, relayerFeeBps: int)
    requires HumanToBaseUnits(grossHuman, decimals).Ok?
    ensures var gross, bps := HumanToBaseUnits(grossHuman, decimals).value, treasuryFeeBps + relayerFeeBps;
            var r := ComputeDepositFee(grossHuman, decimals, treasuryFeeBps, relayerFeeBps);
            && r.Ok? && r.value.fee == FeeOf(gross, bps) && r.value.fee + r.value.net == gross
            && HumanToBaseUnits(r.value.feeHuman, decimals) == Ok(r.value.fee)
            && HumanToBaseUnits(r.value.netHuman, decimals) == Ok(r.value.net)
            && (gross >= 0 && 0 <= bps <= 10000 ==> 0 <= r.value.fee <= gross)
  {
    hide HumanToBaseUnits, FeeOf, ComputeDepositFee, Print;
    ParsedIsPrecise(grossHuman, decimals);
    var gross, bps := HumanToBaseUnits(grossHuman, decimals).value, treasuryFeeBps + relayerFeeBps;
    var fee := FeeOf(gross, bps);
    FeeParts(grossHuman, decimals, treasuryFeeBps, relayerFeeBps);
    HumanReadsBack(fee, decimals);
    HumanReadsBack(gross - fee, decimals);
    if gross >= 0 && 0 <= bps <= 10000 {
      FeeWithin(gross, bps);
    }
  }

  // ---- The bridge's pair ----

  function UsdcHumanToBase(amount: string, decimals: int): Result<int, AmountError> {
    var raw := Trim(amount);
    if !IsAmount(raw) then Err(MalformedAmount)
    else if |SplitAmount(raw).frac| > decimals then Err(TooManyDecimals)
    else Ok(UnitsOf(SplitAmount(raw), decimals))
  }

  /** `10n ** BigInt(decimals)` throws below zero. */
  function UsdcBaseToHuman(units: int, decimals: int): Result<string, AmountError> {
    if decimals < 0 then Err(InvalidDecimals) else Ok(Print(units, decimals))
  }

  /** The parsers differ only where the bridge's has no upper limit on the precision; its pair reads back at any. */
  lemma BridgeAgrees(amount: string, units: int, decimals: int)
    ensures UsdcHumanToBase(amount, decimals) == HumanToBaseUnits(amount, decimals) <==>
            decimals <= 18 || UsdcHumanToBase(amount, decimals).Err?
    ensures UsdcBaseToHuman(units, decimals) == BaseUnitsToHuman(units, decimals) <==> decimals <= 18
    ensures decimals >= 0 ==> UsdcHumanToBase(UsdcBaseToHuman(units, decimals).value, decimals) == Ok(units)
    ensures UsdcHumanToBase(amount, decimals).Ok? ==>
              UsdcBaseToHuman(UsdcHumanToBase(amount, decimals).value, decimals) == Ok(Canonical(Trim(amount)))
  {
    hide Print, IsAmount, SplitAmount, Trim, UnitsOf, Canonical;
    if decimals >= 0 {
      ParsePrinted(units, decimals);
    }
    if UsdcHumanToBase(amount, decimals).Ok? {
      PrintParsed(Trim(amount), decimals);
    }
  }

  // ---- Governance's pair ----

  function NotComma(): char -> bool { (c: char) => c != ',' }

  function ParseAmountToBaseUnits(amount: string, decimals: int): Result<nat, AmountError> {
    var trimmed := Filter(Trim(amount), NotComma());
    if !IsAmount(trimmed) || SplitAmount(trimmed).negative then Err(MalformedAmount)
    else if decimals < 0 then Err(InvalidDecimals)
    else
      var p := SplitAmount(trimmed);
      Ok(TruncatedUnits(p, decimals))
  }

  function TruncatedUnits(p: Parts, decimals: nat): (u: nat) {
    var padded := (p.frac + Zeros(decimals))[..decimals];
    NonNegativeTimes(ValueOfDigits(p.whole), Pow10(decimals));
    ValueOfDigits(p.whole) * Pow10(decimals) + ValueOfDigits(padded)
  }

  function FormatBaseUnits(amount: int, decimals: int): Result<string, AmountError> {
    if decimals < 0 then Err(InvalidDecimals) else Ok(Print(amount, decimals))
  }

  lemma TruncatedIs(p: Parts, decimals: nat)
    ensures |p.frac| <= decimals ==>
              (p.frac + Zeros(decimals))[..decimals] == PadEnd(p.frac, decimals)
    ensures |p.frac| > decimals ==>
              TruncatedUnits(p, decimals) == ValueOfDigits(p.whole + p.frac[..decimals])
  {
    if |p.frac| > decimals {
      assert (p.frac + Zeros(decimals))[..decimals] == p.frac[..decimals];
      ValueOfAppend(p.whole, p.frac[..decimals]);
    }
  }

  lemma FloorArithmetic(u: nat, n: int, c: int, scale: int)
    requires c >= 1 && scale >= 1 && u * c <= n < u * c + c
    ensures u * (c * scale) <= n * scale < (u + 1) * (c * scale)
  {
    TimesAssociates(u, c, scale);
    TimesAssociates(u + 1, c, scale);
    Distribute(u, 1, c);
    if u * c < n {
      TimesIsStrict(u * c, n, scale);
    }
    TimesIsStrict(n, (u + 1) * c, scale);
  }

  /** Governance's parser takes the floor: the greatest number of base units not above the amount. */
  lemma GovernanceParseIsFloor(amount: string, decimals: nat)
    requires ParseAmountToBaseUnits(amount, decimals).Ok?
    ensures var raw := Filter(Trim(amount), NotComma());
            var u, d := ParseAmountToBaseUnits(amount, decimals).value, DecimalOf(raw);
            u * Pow10(d.places) <= d.numerator * Pow10(decimals) < (u + 1) * Pow10(d.places)
  {
    hide Trim, Filter, SplitAmount, IsAmount, ValueOfDigits, Pow10, TruncatedUnits;
    var raw := Filter(Trim(amount), NotComma());
    var p := SplitAmount(raw);
    var u := TruncatedUnits(p, decimals);
    TruncatedIs(p, decimals);
    if |p.frac| <= decimals {
      assert u == UnitsOf(p, decimals) by { TruncatedExact(p, decimals); }
      ParseIsExact(raw, decimals);
      Distribute(u, 1, Pow10(|p.frac|));
    } else {
      Excess(p, decimals);
      FloorArithmetic(u, ValueOfDigits(p.whole + p.frac), Pow10(|p.frac| - decimals), Pow10(decimals));
    }
  }

  lemma TruncatedExact(p: Parts, decimals: nat)
    requires |p.frac| <= decimals && !p.negative
    ensures TruncatedUnits(p, decimals) == UnitsOf(p, decimals)
  {
    TruncatedIs(p, decimals);
  }

  /** Digits, and a point only with digits after it. */
  ghost predicate WritesUnsigned(raw: string) {
    exists whole: string, frac: string :: Writes(raw, false, whole, frac)
  }

  lemma UnsignedMeans(raw: string)
    ensures WritesUnsigned(raw) <==> IsAmount(raw) && !SplitAmount(raw).negative
  {
    hide SplitAmount, IsAmount, Writes;
    forall whole: string, frac: string | Writes(raw, false, whole, frac)
      ensures IsAmount(raw) && !SplitAmount(raw).negative
    {
      AmountMeans(raw, false, whole, frac);
    }
    if IsAmount(raw) {
      AmountWritten(raw);
    }
  }

  /** Governance's parser takes every unsigned amount, commas aside, at any precision. */
  lemma GovernanceAccepts(amount: string, decimals: int)
    ensures ParseAmountToBaseUnits(amount, decimals).Ok? <==>
            decimals >= 0 && WritesUnsigned(Filter(Trim(amount), NotComma()))
  {
    hide Trim, Filter, SplitAmount, IsAmount, TruncatedUnits, WritesUnsigned;
    UnsignedMeans(Filter(Trim(amount), NotComma()));
  }

  /** Where the deposit form accepts an unsigned amount, governance parses the same number of base units. */
  lemma GovernanceAgrees(amount: string, decimals: nat)
    requires HumanToBaseUnits(amount, decimals).Ok? && ',' !in Trim(amount) && !SplitAmount(Trim(amount)).negative
    ensures ParseAmountToBaseUnits(amount, decimals) == Ok(HumanToBaseUnits(amount, decimals).value)
  {
    hide Trim, Filter, SplitAmount, IsAmount, TruncatedUnits, UnitsOf;
    FilterAll(Trim(amount), NotComma());
    TruncatedExact(SplitAmount(Trim(amount)), decimals);
  }

  lemma PrintHasNoComma(units: int, decimals: nat)
    ensures ',' !in Print(units, decimals)
  {
    hide PartsOf;
    PartsOfUnits(units, decimals);
  }

  /** Governance's parser reads its own printer back, except that it takes no sign. */
  lemma GovernanceReadsBack(units: int, decimals: nat)
    ensures ParseAmountToBaseUnits(FormatBaseUnits(units, decimals).value, decimals) ==
            if units >= 0 then Ok(units) else Err(MalformedAmount)
  {
    hide Trim, Filter, SplitAmount, IsAmount, TruncatedUnits, UnitsOf, Print;
    ParsePrinted(units, decimals);
    PrintHasNoComma(units, decimals);
    var raw := Print(units, decimals);
    FilterAll(raw, NotComma());
    if units >= 0 {
      TruncatedExact(SplitAmount(raw), decimals);
    }
  }
}
