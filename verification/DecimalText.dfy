/**
 Parsing and printing decimals: `Decimal::parse` and `Decimal::to_string`.

 Both are loops over the text, modelled as methods and specified by the functions `ParseSpec` and
 `Print`. The grammar the parser accepts is stated separately, as the datatype `Numeral`, so that
 neither direction of the round trip refers to the code of the other.

 The source does no overflow checks. Where its signed arithmetic would leave the 64-bit range the
 parser's outcome here is `Overflow`: the C++ behaviour is undefined there.
 */
module DecimalText {
  import opened Decimals
  import opened DigitStrings

  // ------------------------------------------------------------------ the grammar

  function FracText(frac: string): string {
    if frac == [] then "" else "." + frac
  }

  /** The number written `whole.frac`, scaled by 10^8. */
  ghost function Scaled(whole: string, frac: string): (m: nat)
    requires AllDigits(whole) && AllDigits(frac) && |frac| <= SCALE
  {
    Number(whole) * SCALE_FACTOR + Shift(Number(frac), SCALE - |frac|)
  }

  datatype Sign = NoSign | Plus | Minus

  /** A decimal text taken apart: sign, integer digits, fractional digits. */
  datatype Numeral = Numeral(sign: Sign, whole: string, frac: string) {

    ghost predicate Valid() {
      && whole != [] && AllDigits(whole)
      && AllDigits(frac) && |frac| <= SCALE
    }

    function SignText(): string {
      match sign case NoSign => "" case Plus => "+" case Minus => "-"
    }

    function Text(): string {
      SignText() + (whole + FracText(frac))
    }

    ghost function Magnitude(): (m: nat)
      requires Valid()
    {
      Scaled(whole, frac)
    }

    ghost function Value(): int
      requires Valid()
    {
      if sign == Minus then -(Magnitude() as int) else Magnitude()
    }

    /** No superfluous characters: no plus sign, no leading or trailing zero, no minus zero. */
    ghost predicate Canonical()
      requires Valid()
    {
      && sign != Plus
      && (whole[0] == '0' ==> |whole| == 1)
      && (frac != [] ==> frac[|frac| - 1] != '0')
      && (sign == Minus ==> Magnitude() != 0)
    }
  }

  // ------------------------------------------------------------------ parse

  datatype ParseError = EmptyText | NoIntegerPart | NoFractionDigits | TooPrecise | InvalidCharacters

  datatype ParseResult =
    | Parsed(raw: Int64)
    | Malformed(error: ParseError)
    | Overflow  // 64-bit arithmetic left its range

  ghost function Finish(negative: bool, whole: string, frac: string): (r: ParseResult)
    requires AllDigits(whole) && AllDigits(frac) && |frac| <= SCALE
  {
    var magnitude: int := Scaled(whole, frac);
    if magnitude > MAX64 then Overflow else Parsed(if negative then -magnitude else magnitude)
  }

  /** The part after the integer digits. */
  ghost function ParseRest(negative: bool, whole: string, rest: string): (r: ParseResult)
    requires AllDigits(whole)
  {
    if rest != [] && rest[0] == '.' then
      var m := DigitRun(rest[1..]);
      if m == 0 then Malformed(NoFractionDigits)
      else if m > SCALE then Malformed(TooPrecise)
      else if m != |rest| - 1 then Malformed(InvalidCharacters)
      else Finish(negative, whole, rest[1..][..m])
    else if rest != [] then Malformed(InvalidCharacters)
    else Finish(negative, whole, [])
  }

  ghost function ParseBody(negative: bool, body: string): (r: ParseResult) {
    var n := DigitRun(body);
    if n == 0 then Malformed(NoIntegerPart)
    else if Number(body[..n]) > MAX64 then Overflow
    else ParseRest(negative, body[..n], body[n..])
  }

  ghost function ParseSpec(text: string): (r: ParseResult) {
    if text == [] then Malformed(EmptyText)
    else if text[0] == '+' || text[0] == '-' then ParseBody(text[0] == '-', text[1..])
    else ParseBody(false, text)
  }

  /** The digit loop shared by both parts, over the digits from `start`. */
  method ParseDigits(text: string, start: nat) returns (end: nat, value: nat, overflow: bool)
    requires start <= |text|
    ensures start <= end <= |text|
    ensures AllDigits(text[start..][..DigitRun(text[start..])])
    ensures overflow <==> Number(text[start..][..DigitRun(text[start..])]) > MAX64
    ensures !overflow ==> end == start + DigitRun(text[start..])
    ensures !overflow ==> value == Number(text[start..][..DigitRun(text[start..])])
  {
    ghost var run := DigitRun(text[start..]);
    ghost var digits := text[start..][..run];
    end, value, overflow := start, 0, false;
    while end < |text| && IsDigit(text[end])
      invariant start <= end <= start + run
      invariant value == Number(digits[..end - start]) <= MAX64
      decreases |text| - end
    {
      assert text[end] == text[start..][end - start];
      assert digits[..end - start] + [text[end]] == digits[..end - start + 1];
      NumberSnoc(digits[..end - start], text[end]);
      if value * 10 + DigitValue(text[end]) > MAX64 {
        NumberPrefix(digits, end - start + 1);
        return end, 0, true;
      }
      value := value * 10 + DigitValue(text[end]);
      end := end + 1;
    }
    assert end - start == run;
    assert digits[..run] == digits;
  }

  /** The fractional digit loop, over the digits from `start`; stops at a ninth digit. */
  method ParseFraction(text: string, start: nat) returns (end: nat, value: nat, tooPrecise: bool)
    requires start <= |text|
    ensures tooPrecise <==> DigitRun(text[start..]) > SCALE
    ensures !tooPrecise ==> end == start + DigitRun(text[start..])
    ensures !tooPrecise ==> value == Number(text[start..][..DigitRun(text[start..])])
  {
    ghost var run := DigitRun(text[start..]);
    ghost var digits := text[start..][..run];
    end, value, tooPrecise := start, 0, false;
    while end < |text| && IsDigit(text[end])
      invariant start <= end <= start + run
      invariant end - start <= SCALE
      invariant value == Number(digits[..end - start])
      decreases |text| - end
    {
      assert text[end] == text[start..][end - start];
      if end - start >= SCALE {
        return end, 0, true;
      }
      assert digits[..end - start] + [text[end]] == digits[..end - start + 1];
      NumberSnoc(digits[..end - start], text[end]);
      value := value * 10 + DigitValue(text[end]);
      end := end + 1;
    }
    assert end - start == run;
    assert digits[..run] == digits;
  }

  /** The scaling loop and the final sum. */
  method Combine(negative: bool, integerPart: nat, fractionalPart: nat, fractionalDigits: nat,
                 ghost whole: string, ghost frac: string)
    returns (r: ParseResult)
    requires AllDigits(whole) && integerPart == Number(whole)
    requires AllDigits(frac) && fractionalPart == Number(frac) && fractionalDigits == |frac| <= SCALE
    ensures r == Finish(negative, whole, frac)
  {
    var scaled := fractionalPart;
    for i := fractionalDigits to SCALE
      invariant scaled == Shift(fractionalPart, i - fractionalDigits)
    {
      scaled := scaled * 10;
    }
    var raw := integerPart * SCALE_FACTOR + scaled;
    if raw > MAX64 {
      return Overflow;
    }
    r := Parsed(if negative then -raw else raw);
  }

  /** From the end of the integer digits on. */
  method ParseTail(text: string, start: nat, negative: bool, integerPart: nat, ghost whole: string)
    returns (r: ParseResult)
    requires start <= |text| && AllDigits(whole) && integerPart == Number(whole)
    ensures r == ParseRest(negative, whole, text[start..])
  {
    var idx, fractionalPart, fractionalDigits := start, 0, 0;
    ghost var frac: string := [];
    if idx < |text| && text[idx] == '.' {
      idx := idx + 1;
      assert text[idx..] == text[start..][1..];
      if idx >= |text| || !IsDigit(text[idx]) {
        return Malformed(NoFractionDigits);
      }
      frac := text[idx..][..DigitRun(text[idx..])];
      var fractionEnd, value, tooPrecise := ParseFraction(text, idx);
      if tooPrecise {
        return Malformed(TooPrecise);
      }
      fractionalPart, fractionalDigits, idx := value, fractionEnd - idx, fractionEnd;
    }
    if idx != |text| {
      return Malformed(InvalidCharacters);
    }
    r := Combine(negative, integerPart, fractionalPart, fractionalDigits, whole, frac);
  }

  method Parse(text: string) returns (r: ParseResult)
    ensures r == ParseSpec(text)
  {
    if text == [] {
      return Malformed(EmptyText);
    }
    var idx, negative := 0, false;
    if text[idx] == '+' || text[idx] == '-' {
      negative := text[idx] == '-';
      idx := idx + 1;
    }
    ghost var body := text[idx..];
    assert ParseSpec(text) == ParseBody(negative, body) by { assert text[0..] == text; }
    if idx >= |text| || !IsDigit(text[idx]) {
      return Malformed(NoIntegerPart);
    }
    ghost var whole := body[..DigitRun(body)];
    var integerEnd, integerPart, overflow := ParseDigits(text, idx);
    if overflow {
      return Overflow;
    }
    assert text[integerEnd..] == body[DigitRun(body)..];
    r := ParseTail(text, integerEnd, negative, integerPart, whole);
  }

  lemma {:induction false} DigitRunOf(digits: string, tail: string)
    requires AllDigits(digits)
    requires tail != [] ==> !IsDigit(tail[0])
    ensures DigitRun(digits + tail) == |digits|
  {
    if digits != [] {
      assert (digits + tail)[1..] == digits[1..] + tail;
      DigitRunOf(digits[1..], tail);
    } else {
      assert digits + tail == tail;
    }
  }

  lemma ParseRestOf(negative: bool, whole: string, frac: string)
    requires AllDigits(whole) && AllDigits(frac) && |frac| <= SCALE
    ensures ParseRest(negative, whole, FracText(frac)) == Finish(negative, whole, frac)
  {
    var rest := FracText(frac);
    if frac != [] {
      assert rest[1..] == frac;
      DigitRunOf(frac, []);
      assert frac + [] == frac;
      assert frac[..|frac|] == frac;
    }
  }

  lemma ParseBodyOf(negative: bool, whole: string, frac: string)
    requires whole != [] && AllDigits(whole) && AllDigits(frac) && |frac| <= SCALE
    ensures ParseBody(negative, whole + FracText(frac)) == Finish(negative, whole, frac)
  {
    var body := whole + FracText(frac);
    DigitRunOf(whole, FracText(frac));
    assert body[..|whole|] == whole && body[|whole|..] == FracText(frac);
    ParseRestOf(negative, whole, frac);
  }

  lemma ParseSpecOf(n: Numeral)
    requires n.Valid()
    ensures ParseSpec(n.Text()) == ParseBody(n.sign == Minus, n.whole + FracText(n.frac))
  {
    var body := n.whole + FracText(n.frac);
    var text := n.Text();
    if n.sign == NoSign {
      assert text == body && text[0] == n.whole[0];
    } else {
      assert text[1..] == body;
    }
  }

  /** Every text of the grammar is accepted with its exact value, unless the value is too large. */
  lemma ParseNumeral(n: Numeral)
    requires n.Valid()
    ensures ParseSpec(n.Text()) == if n.Magnitude() > MAX64 then Overflow else Parsed(n.Value())
  {
    ParseSpecOf(n);
    ParseBodyOf(n.sign == Minus, n.whole, n.frac);
  }

  lemma RestIsFracText(negative: bool, whole: string, rest: string) returns (frac: string)
    requires AllDigits(whole) && ParseRest(negative, whole, rest).Parsed?
    ensures AllDigits(frac) && |frac| <= SCALE && rest == FracText(frac)
    ensures ParseRest(negative, whole, rest) == Finish(negative, whole, frac)
  {
    frac := if rest == [] then [] else rest[1..][..DigitRun(rest[1..])];
    if rest != [] {
      assert rest == "." + frac;
    }
  }

  lemma BodyIsDigits(negative: bool, body: string) returns (whole: string, frac: string)
    requires ParseBody(negative, body).Parsed?
    ensures whole != [] && AllDigits(whole) && AllDigits(frac) && |frac| <= SCALE
    ensures body == whole + FracText(frac)
    ensures ParseBody(negative, body) == Finish(negative, whole, frac)
  {
    whole := body[..DigitRun(body)];
    frac := RestIsFracText(negative, whole, body[DigitRun(body)..]);
  }

  /** Nothing outside the grammar is accepted. */
  lemma ParsedIsNumeral(text: string) returns (n: Numeral)
    requires ParseSpec(text).Parsed?
    ensures n.Valid() && n.Text() == text && n.Value() == ParseSpec(text).raw
  {
    hide ParseBody, Scaled, AllDigits, DigitRun;
    if text[0] == '+' || text[0] == '-' {
      var whole, frac := BodyIsDigits(text[0] == '-', text[1..]);
      n := Numeral(if text[0] == '-' then Minus else Sign.Plus, whole, frac);
      assert text == [text[0]] + text[1..];
    } else {
      var whole, frac := BodyIsDigits(false, text);
      n := Numeral(NoSign, whole, frac);
      assert n.Text() == text;
    }
  }

  /** The parser accepts exactly the grammar, and returns the exact scaled value. */
  lemma ParseAccepts(text: string, raw: Int64)
    ensures ParseSpec(text) == Parsed(raw) <==>
            exists n: Numeral :: n.Valid() && n.Text() == text && n.Magnitude() <= MAX64 && n.Value() == raw
  {
    if ParseSpec(text) == Parsed(raw) {
      var n := ParsedIsNumeral(text);
    }
    forall n: Numeral | n.Valid() && n.Text() == text {
      ParseNumeral(n);
    }
  }

  // ------------------------------------------------------------------ print

  /** The string without its trailing zeros. */
  ghost function StripZeros(s: string): (r: string)
    ensures r <= s
    ensures r != [] ==> r[|r| - 1] != '0'
    ensures forall i :: |r| <= i < |s| ==> s[i] == '0'
  {
    if s != [] && s[|s| - 1] == '0' then StripZeros(s[..|s| - 1]) else s
  }

  /** The eight fractional digits. */
  ghost function Padded(n: nat): (s: string)
    requires n < SCALE_FACTOR
    ensures |s| == SCALE && AllDigits(s) && Number(s) == n
  {
    assert Pow10(4) == 10000;
    assert SCALE_FACTOR == Pow10(8);
    DigitsLength(n, SCALE);
    NumberConcat(Zeros(SCALE - |Digits(n)|), Digits(n));
    NumberZeros(SCALE - |Digits(n)|);
    ShiftZero(|Digits(n)|);
    Zeros(SCALE - |Digits(n)|) + Digits(n)
  }

  ghost function PrintedMagnitude(sign: Sign, magnitude: nat): (n: Numeral) {
    Numeral(sign, Digits(magnitude / SCALE_FACTOR), StripZeros(Padded(magnitude % SCALE_FACTOR)))
  }

  ghost function Printed(raw: int): (n: Numeral) {
    if raw < 0 then PrintedMagnitude(Minus, -raw) else PrintedMagnitude(NoSign, raw)
  }

  ghost function Print(raw: int): string {
    Printed(raw).Text()
  }

  /** The fractional digits, padded on the left and trimmed on the right. */
  method FractionText(n: nat) returns (fractional: string)
    requires n < SCALE_FACTOR
    ensures fractional == StripZeros(Padded(n))
  {
    var digits := Digits(n);
    ghost var padded := Padded(n);
    fractional := seq(SCALE - |digits|, _ => '0') + digits;
    assert fractional == padded;
    while fractional != [] && fractional[|fractional| - 1] == '0'
      invariant StripZeros(fractional) == StripZeros(padded)
      decreases |fractional|
    {
      fractional := fractional[..|fractional| - 1];
    }
  }

  method ToString(raw: Int64) returns (result: string)
    requires raw != -TWO63  // its negation is not representable
    ensures result == Print(raw)
  {
    hide Digits, StripZeros, Padded;
    var negative := raw < 0;
    var magnitude := if negative then -raw else raw;
    var integerPart := magnitude / SCALE_FACTOR;
    var fractional := FractionText(magnitude % SCALE_FACTOR);
    ghost var n := PrintedMagnitude(if negative then Minus else NoSign, magnitude);
    result := if negative then "-" else "";
    result := result + Digits(integerPart);
    if fractional != [] {
      result := result + ".";
      result := result + fractional;
    }
    assert result == n.SignText() + (n.whole + FracText(n.frac));
  }

  // ------------------------------------------------------------------ round trips

  lemma {:induction false} StripZerosValue(s: string)
    requires AllDigits(s)
    ensures AllDigits(StripZeros(s))
    ensures Shift(Number(StripZeros(s)), |s| - |StripZeros(s)|) == Number(s)
  {
    if s != [] && s[|s| - 1] == '0' {
      StripZerosValue(s[..|s| - 1]);
    }
  }

  /** What is printed is a canonical numeral of the printed value. */
  lemma PrintedIsCanonical(raw: int)
    ensures Printed(raw).Valid() && Printed(raw).Value() == raw && Printed(raw).Canonical()
  {
    var magnitude := if raw < 0 then -raw else raw;
    StripZerosValue(Padded(magnitude % SCALE_FACTOR));
    assert Printed(raw).Magnitude() == magnitude;
  }

  /** Print then parse is the identity on every raw value but the one that cannot be negated. */
  lemma PrintParse(raw: int)
    requires -TWO63 < raw < TWO63
    ensures ParseSpec(Print(raw)) == Parsed(raw)
  {
    PrintedIsCanonical(raw);
    ParseNumeral(Printed(raw));
  }

  lemma PrintInjective(a: int, b: int)
    requires -TWO63 < a < TWO63 && -TWO63 < b < TWO63
    ensures Print(a) == Print(b) <==> a == b
  {
    PrintParse(a);
    PrintParse(b);
  }

  lemma {:induction false} StripZerosUnique(s: string, k: nat)
    requires s == [] || s[|s| - 1] != '0'
    ensures StripZeros(s + Zeros(k)) == s
  {
    if k == 0 {
      assert s + Zeros(0) == s;
    } else {
      assert (s + Zeros(k))[..|s| + k - 1] == s + Zeros(k - 1);
      StripZerosUnique(s, k - 1);
    }
  }

  lemma SplitScaled(whole: string, frac: string)
    requires AllDigits(whole) && AllDigits(frac) && |frac| <= SCALE
    ensures AllDigits(frac + Zeros(SCALE - |frac|))
    ensures Scaled(whole, frac) / SCALE_FACTOR == Number(whole)
    ensures Scaled(whole, frac) % SCALE_FACTOR == Number(frac + Zeros(SCALE - |frac|))
  {
    var zeros := Zeros(SCALE - |frac|);
    NumberConcat(frac, zeros);
    NumberZeros(SCALE - |frac|);
    NumberBound(frac + zeros);
    assert Pow10(4) == 10000;
    assert SCALE_FACTOR == Pow10(8);
  }

  lemma CanonicalMagnitude(sign: Sign, whole: string, frac: string)
    requires whole != [] && AllDigits(whole) && AllDigits(frac) && |frac| <= SCALE
    requires whole[0] == '0' ==> |whole| == 1
    requires frac != [] ==> frac[|frac| - 1] != '0'
    ensures PrintedMagnitude(sign, Scaled(whole, frac)) == Numeral(sign, whole, frac)
  {
    var m, padded := Scaled(whole, frac), frac + Zeros(SCALE - |frac|);
    SplitScaled(whole, frac);
    DigitsOfNumber(whole);
    assert Padded(m % SCALE_FACTOR) == padded by {
      NumberInjective(Padded(m % SCALE_FACTOR), padded);
    }
    StripZerosUnique(frac, SCALE - |frac|);
  }

  /** A canonical numeral is what printing its value gives. */
  lemma CanonicalIsPrinted(n: Numeral)
    requires n.Valid() && n.Canonical()
    ensures Printed(n.Value()) == n
  {
    CanonicalMagnitude(n.sign, n.whole, n.frac);
  }

  /** Parse then print gives back the text exactly when the text was canonical. */
  lemma ParsePrint(n: Numeral)
    requires n.Valid() && n.Magnitude() <= MAX64
    ensures ParseSpec(n.Text()) == Parsed(n.Value())
    ensures Print(n.Value()) == n.Text() <==> n.Canonical()
  {
    ParseNumeral(n);
    PrintedIsCanonical(n.Value());
    if n.Canonical() {
      CanonicalIsPrinted(n);
    }
    if Print(n.Value()) == n.Text() {
      TextInjective(n, Printed(n.Value()));
    }
  }

  /** A text has one reading. */
  lemma TextInjective(a: Numeral, b: Numeral)
    requires a.Valid() && b.Valid() && a.Text() == b.Text()
    ensures a == b
  {
    var bodyA, bodyB := a.whole + FracText(a.frac), b.whole + FracText(b.frac);
    assert a.Text() == a.SignText() + bodyA && b.Text() == b.SignText() + bodyB;
    assert IsDigit(bodyA[0]) && IsDigit(bodyB[0]);
    assert a.Text()[0] == b.Text()[0];
    assert a.sign == b.sign;
    assert bodyA == a.Text()[|a.SignText()|..] == bodyB;
    DigitRunOf(a.whole, FracText(a.frac));
    DigitRunOf(b.whole, FracText(b.frac));
    assert a.whole == bodyA[..|a.whole|] == b.whole;
    assert FracText(a.frac) == bodyA[|a.whole|..] == FracText(b.frac);
    assert a.frac != [] ==> FracText(a.frac)[1..] == a.frac;
    assert b.frac != [] ==> FracText(b.frac)[1..] == b.frac;
  }

  /** Two accepted texts print alike exactly when they denote the same number. */
  lemma PrintAlike(a: string, b: string)
    requires ParseSpec(a).Parsed? && ParseSpec(b).Parsed?
    ensures Print(ParseSpec(a).raw) == Print(ParseSpec(b).raw) <==> ParseSpec(a).raw == ParseSpec(b).raw
    ensures ParseSpec(Print(ParseSpec(a).raw)) == ParseSpec(a)
  {
    var m := ParsedIsNumeral(a);
    var n := ParsedIsNumeral(b);
    ParseNumeral(m);
    ParseNumeral(n);
    PrintInjective(m.Value(), n.Value());
    PrintParse(m.Value());
  }
}
