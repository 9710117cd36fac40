/** Kubernetes memory quantities: parsing them and bumping them by a factor. */
module Quantities {
  import opened Contracts
  import opened Text

  datatype Unit = Ki | Mi | Gi | Ti | K | M | G | T | NoUnit

  /** The known suffixes, longest first. */
  const UNITS: seq<Unit> := [Ki, Mi, Gi, Ti, K, M, G, T]

  function Suffix(u: Unit): string {
    match u
    case Ki => "Ki" case Mi => "Mi" case Gi => "Gi" case Ti => "Ti"
    case K => "K" case M => "M" case G => "G" case T => "T"
    case NoUnit => ""
  }

  function Bytes(u: Unit): nat {
    match u
    case Ki => 1024
    case Mi => 1024 * 1024
    case Gi => 1024 * 1024 * 1024
    case Ti => 1024 * 1024 * 1024 * 1024
    case K => 1000
    case M => 1000 * 1000
    case G => 1000 * 1000 * 1000
    case T => 1000 * 1000 * 1000 * 1000
    case NoUnit => 1
  }

  datatype QuantityError = BadFactor | Empty | Unparsable | NotPositive

  function Pow10(n: nat): (p: real)
    ensures p > 0.0
  {
    if n == 0 then 1.0 else 10.0 * Pow10(n - 1)
  }

  /** strconv.ParseFloat on an optional sign and decimal digits with an optional point. */
  function ParseFloat(s: string): Option<real> {
    if s != [] && s[0] in {'-', '+'} then
      match ParseDecimal(s[1..]) case None => None case Some(x) => Some(if s[0] == '-' then -x else x)
    else ParseDecimal(s)
  }

  function ParseDecimal(s: string): Option<real> {
    match IndexOf(s, '.')
    case None => if AllDigits(s) then Some(Value(s) as real) else None
    case Some(i) =>
      IndexOfBound(s, '.');
      var whole, fraction := s[..i], s[i + 1..];
      if AllDigits(whole + fraction) then
        DigitsOfBoth(whole, fraction);
        Some(Value(whole) as real + Value(fraction) as real / Pow10(|fraction|))
      else None
  }

  lemma DigitsOfBoth(a: string, b: string)
    requires AllDigits(a + b)
    ensures (forall c <- a :: IsDigit(c)) && (forall c <- b :: IsDigit(c))
  {
    assert forall c <- a :: c in a + b;
    assert forall c <- b :: c in a + b;
  }

  function Ceil(x: real): int { -((-x).Floor) }

  function TruncateProduct(x: real, y: real): int { Truncate(x * y) }

  function CeilProduct(x: real, y: real): int { Ceil(x * y) }

  function Truncate(x: real): int { if x >= 0.0 then x.Floor else Ceil(x) }

  /** The first known suffix of the text from unit i on. */
  function UnitOf(s: string, i: nat): Unit
    decreases |UNITS| - i
  {
    if i >= |UNITS| then NoUnit
    else if HasSuffix(s, Suffix(UNITS[i])) then UNITS[i]
    else UnitOf(s, i + 1)
  }

  function Bumped(current: string, factor: real): Result<string, QuantityError> {
    var text := TrimSpace(current);
    if factor <= 0.0 then Err(BadFactor)
    else if text == "" then Err(Empty)
    else
      var suffix := Suffix(UnitOf(text, 0));
      match ParseFloat(TrimSpace(TrimSuffix(text, suffix)))
      case None => Err(Unparsable)
      case Some(val) => if val <= 0.0 then Err(NotPositive) else Ok(Itoa(CeilProduct(val, factor)) + suffix)
  }

  /** The loop over the known suffixes. */
  method FindSuffix(text: string) returns (suffix: string)
    ensures suffix == Suffix(UnitOf(text, 0))
  {
    hide HasSuffix;
    for i := 0 to |UNITS|
      invariant UnitOf(text, 0) == UnitOf(text, i)
    {
      if HasSuffix(text, Suffix(UNITS[i])) {
        return Suffix(UNITS[i]);
      }
    }
    return "";
  }

  method BumpQuantity(current: string, factor: real) returns (r: Result<string, QuantityError>)
    ensures r == Bumped(current, factor)
  {
    hide Suffix, UnitOf, TrimSpace, TrimSuffix, ParseFloat, Itoa, CeilProduct;
    if factor <= 0.0 {
      return Err(BadFactor);
    }
    var text := TrimSpace(current);
    if text == "" {
      return Err(Empty);
    }
    var suffix := FindSuffix(text);
    var val := ParseFloat(TrimSpace(TrimSuffix(text, suffix)));
    if val == None {
      return Err(Unparsable);
    }
    if val.value <= 0.0 {
      return Err(NotPositive);
    }
    var newVal := CeilProduct(val.value, factor);
    if suffix == "" {
      assert Itoa(newVal) + suffix == Itoa(newVal);
      return Ok(Itoa(newVal));
    }
    return Ok(Itoa(newVal) + suffix);
  }

  function ParseQuantityBytes(q: string): Option<int> {
    var text := TrimSpace(q);
    var unit := UnitOf(text, 0);
    if unit == NoUnit then Atoi(text)
    else match ParseFloat(TrimSpace(TrimSuffix(text, Suffix(unit))))
      case None => None
      case Some(val) => Some(TruncateProduct(val, Bytes(unit) as real))
  }

  // Quantities made of a number and a suffix.

  function Quantity(n: nat, u: Unit): string { Digits(n) + Suffix(u) }

  lemma EndsWith(s: string, u: Unit)
    requires HasSuffix(s, Suffix(u)) && u != NoUnit
    ensures s != [] && !IsDigit(s[|s| - 1]) && !IsSpace(s[|s| - 1])
    ensures u in {Ki, Mi, Gi, Ti} <==> s[|s| - 1] == 'i'
    ensures s[|s| - 1] == 'i' ==> |s| > 1 && Suffix(u)[0] == s[|s| - 2]
    ensures s[|s| - 1] != 'i' ==> Suffix(u) == [s[|s| - 1]]
  {
    var t := s[|s| - |Suffix(u)|..];
    assert s[|s| - 1] == t[|t| - 1];
    assert |t| == 2 ==> s[|s| - 2] == t[0];
  }

  /** No text has two suffixes: trying them longest first is only a matter of order. */
  lemma SuffixIsUnique(s: string, u: Unit, v: Unit)
    requires HasSuffix(s, Suffix(u)) && HasSuffix(s, Suffix(v)) && u != NoUnit && v != NoUnit
    ensures u == v
  {
    hide HasSuffix;
    EndsWith(s, u);
    EndsWith(s, v);
  }

  lemma {:induction false} UnitFound(s: string, i: nat, k: nat)
    requires i <= k < |UNITS| && HasSuffix(s, Suffix(UNITS[k]))
    ensures UnitOf(s, i) == UNITS[k]
    decreases k - i
  {
    hide HasSuffix, Suffix;
    if i < k {
      if HasSuffix(s, Suffix(UNITS[i])) {
        SuffixIsUnique(s, UNITS[i], UNITS[k]);
      }
      UnitFound(s, i + 1, k);
    }
  }

  lemma {:induction false} UnitAbsent(s: string, i: nat)
    requires s != [] && IsDigit(s[|s| - 1])
    ensures UnitOf(s, i) == NoUnit
    decreases |UNITS| - i
  {
    hide HasSuffix, Suffix;
    if i < |UNITS| {
      if HasSuffix(s, Suffix(UNITS[i])) {
        EndsWith(s, UNITS[i]);
      }
      UnitAbsent(s, i + 1);
    }
  }

  lemma DigitsTrimmed(n: nat)
    ensures Digits(n) != "" && IsDigit(Digits(n)[0]) && IsDigit(Digits(n)[|Digits(n)| - 1]) && Trimmed(Digits(n))
  {
    hide Digits, IsSpace;
    DigitsValue(n);
    NoSpace(Digits(n)[0]);
    NoSpace(Digits(n)[|Digits(n)| - 1]);
  }

  lemma NoSpace(c: char)
    requires IsDigit(c)
    ensures !IsSpace(c)
  {}

  lemma QuantityShape(n: nat, u: Unit)
    ensures Quantity(n, u) != "" && Trimmed(Quantity(n, u)) && UnitOf(Quantity(n, u), 0) == u
    ensures TrimSuffix(Quantity(n, u), Suffix(u)) == Digits(n)
  {
    hide Digits, UnitOf, Suffix, IsSpace;
    var s := Quantity(n, u);
    DigitsTrimmed(n);
    assert s[..|s| - |Suffix(u)|] == Digits(n) && s[|s| - |Suffix(u)|..] == Suffix(u);
    if u == NoUnit {
      NoSuffix();
      assert s == Digits(n);
      UnitAbsent(s, 0);
    } else {
      var k := Listed(u);
      UnitFound(s, 0, k);
      EndsWith(s, u);
    }
  }

  lemma Listed(u: Unit) returns (k: nat)
    requires u != NoUnit
    ensures k < |UNITS| && UNITS[k] == u
  {
    k := match u case Ki => 0 case Mi => 1 case Gi => 2 case Ti => 3 case K => 4 case M => 5 case G => 6 case T => 7;
  }

  lemma NoSuffix()
    ensures Suffix(NoUnit) == ""
  {}

  lemma {:induction false} NoPoint(s: string)
    requires forall c <- s :: IsDigit(c)
    ensures IndexOf(s, '.') == None
  {
    if s != [] {
      assert s[0] in s && forall c <- s[1..] :: c in s;
      NoPoint(s[1..]);
    }
  }

  lemma ParseDigits(n: nat)
    ensures ParseFloat(Digits(n)) == Some(n as real)
  {
    hide Digits;
    DigitsValue(n);
    assert IsDigit(Digits(n)[0]);
    NoPoint(Digits(n));
  }

  predicate DigitsOnly(s: string) { forall c <- s :: IsDigit(c) }

  lemma ValueAppend(s: string, c: char)
    requires DigitsOnly(s) && IsDigit(c)
    ensures DigitsOnly(s + [c]) && Value(s + [c]) == Value(s) * 10 + DigitValue(c)
  {
    assert (s + [c])[..|s|] == s;
  }

  lemma PowersOfTen(n: nat)
    ensures Pow10(0) == 1.0 && Pow10(n + 1) == 10.0 * Pow10(n)
  {}

  /** The digits of b after those of a. */
  ghost predicate Shifts(a: string, b: string)
    requires DigitsOnly(a) && DigitsOnly(b)
  {
    && DigitsOnly(a + b)
    && Value(a + b) as real == Times(Value(a) as real, Pow10(|b|)) + Value(b) as real
  }

  lemma {:induction false} ValueConcat(a: string, b: string)
    requires DigitsOnly(a) && DigitsOnly(b)
    ensures Shifts(a, b)
    decreases |b|
  {
    hide Shifts;
    if b == [] {
      NothingShifts(a);
    } else {
      ValueConcat(a, b[..|b| - 1]);
      LastShifts(a, b);
    }
  }

  lemma NothingShifts(a: string)
    requires DigitsOnly(a)
    ensures Shifts(a, [])
  {
    assert a + [] == a && Value([]) == 0 && Pow10(0) == 1.0;
  }

  lemma LastShifts(a: string, b: string)
    requires DigitsOnly(a) && DigitsOnly(b) && b != [] && Shifts(a, b[..|b| - 1])
    ensures Shifts(a, b)
  {
    hide Pow10, Value, Times;
    var front, last := b[..|b| - 1], b[|b| - 1];
    assert b == front + [last] && a + b == a + front + [last];
    ValueAppend(a + front, last);
    ValueAppend(front, last);
    PowersOfTen(|front|);
    TenTimes(Value(a) as real, Pow10(|front|));
  }

  lemma TenTimes(x: real, p: real)
    ensures Times(x, p) * 10.0 == Times(x, 10.0 * p)
  {}

  lemma ParsePoint(whole: string, fraction: string)
    requires AllDigits(whole + fraction)
    ensures DigitsOnly(whole) && DigitsOnly(fraction)
    ensures ParseDecimal(whole + "." + fraction)
         == Some(Value(whole) as real + Value(fraction) as real / Pow10(|fraction|))
  {
    hide Value, Pow10;
    var s := whole + "." + fraction;
    DigitsOfBoth(whole, fraction);
    NotAPoint(whole);
    IndexOfFirst(whole, fraction, '.');
    assert s == whole + ['.'] + fraction;
    assert s[..|whole|] == whole && s[|whole| + 1..] == fraction;
  }

  lemma NotAPoint(s: string)
    requires forall c <- s :: IsDigit(c)
    ensures '.' !in s
  {}

  lemma Quotient(x: real, p: real, y: real)
    requires p > 0.0
    ensures (Times(x, p) + y) / p == x + y / p
  {}

  /** Digits with a point among them denote the number of all digits, divided by ten for each that follows the
      point. */
  lemma DecimalDenotes(whole: string, fraction: string)
    requires AllDigits(whole + fraction)
    ensures ParseDecimal(whole + "." + fraction) == Some(Value(whole + fraction) as real / Pow10(|fraction|))
  {
    hide Value, Pow10, ParseDecimal, Times;
    ParsePoint(whole, fraction);
    ValueConcat(whole, fraction);
    Quotient(Value(whole) as real, Pow10(|fraction|), Value(fraction) as real);
  }

  /** A sign in front of a number is a sign, and without one it is positive. */
  lemma SignDenotes(s: string)
    requires s != [] && s[0] != '-' && s[0] != '+'
    ensures ParseFloat(s) == ParseDecimal(s) == ParseFloat("+" + s)
    ensures ParseFloat("-" + s) == match ParseDecimal(s) case None => None case Some(x) => Some(-x)
  {
    hide ParseDecimal;
    assert ("-" + s)[1..] == s && ("+" + s)[1..] == s;
  }

  /** Which text or factor is refused, and why, in this order. */
  lemma BumpErrors(current: string, factor: real)
    ensures var text := TrimSpace(current);
            var number := ParseFloat(TrimSpace(TrimSuffix(text, Suffix(UnitOf(text, 0)))));
            match Bumped(current, factor)
            case Err(BadFactor) => factor <= 0.0
            case Err(Empty) => factor > 0.0 && text == ""
            case Err(Unparsable) => factor > 0.0 && text != "" && number == None
            case Err(NotPositive) => factor > 0.0 && text != "" && number.Some? && number.value <= 0.0
            case Ok(_) => factor > 0.0 && text != "" && number.Some? && number.value > 0.0
  {
    hide UnitOf, Suffix, ParseFloat, TrimSpace, TrimSuffix, CeilProduct, Itoa;
  }

  /** Bumping keeps the suffix and rounds the number up. */
  lemma BumpedText(n: nat, u: Unit, factor: real)
    requires n > 0 && factor > 0.0
    ensures Ceil(n as real * factor) > 0
    ensures Bumped(Quantity(n, u), factor) == Ok(Quantity(Ceil(n as real * factor), u))
  {
    hide Digits, UnitOf, Suffix, ParseFloat, TrimSpace, TrimSuffix, Trimmed;
    QuantityShape(n, u);
    TrimSpaceTrims(Quantity(n, u));
    DigitsTrimmed(n);
    TrimSpaceTrims(Digits(n));
    ParseDigits(n);
    PositiveProduct(n as real, factor);
  }

  /** Whatever text is accepted, fractions included, the result is a whole number under the same suffix, the
      least one that is not below the product; so all that follows applies to it. */
  lemma BumpRoundsUp(current: string, factor: real) returns (val: real, m: nat)
    requires Bumped(current, factor).Ok?
    ensures var text := TrimSpace(current);
            var unit := UnitOf(text, 0);
            && ParseFloat(TrimSpace(TrimSuffix(text, Suffix(unit)))) == Some(val) && val > 0.0
            && Bumped(current, factor) == Ok(Quantity(m, unit))
            && val * factor <= m as real < val * factor + 1.0 && m > 0
  {
    hide Digits, UnitOf, Suffix, ParseFloat, TrimSpace, TrimSuffix, CeilProduct;
    var text := TrimSpace(current);
    val := ParseFloat(TrimSpace(TrimSuffix(text, Suffix(UnitOf(text, 0))))).value;
    CeilProductBounds(val, factor);
    m := CeilProduct(val, factor);
  }

  lemma CeilProductBounds(x: real, y: real)
    requires x > 0.0 && y > 0.0
    ensures CeilProduct(x, y) > 0 && x * y <= CeilProduct(x, y) as real < x * y + 1.0
  {
    PositiveProduct(x, y);
    CeilBounds(x * y);
  }

  lemma PositiveProduct(x: real, y: real)
    requires x > 0.0 && y > 0.0
    ensures x * y > 0.0
  {}

  lemma ParsedText(n: nat, u: Unit)
    requires n <= MAX_INT
    ensures ParseQuantityBytes(Quantity(n, u)) == Some(n * Bytes(u))
  {
    hide Quantity, ParseQuantityBytes, Bytes;
    if u == NoUnit {
      ParsedPlain(n);
      OneByte(n);
    } else {
      ParsedWithSuffix(n, u);
    }
  }

  /** Truncation is toward zero. */
  lemma TruncateIsTowardZero(x: real)
    ensures x >= 0.0 ==> 0 <= Truncate(x) && Truncate(x) as real <= x < (Truncate(x) + 1) as real
    ensures x < 0.0 ==> Truncate(x) <= 0 && (Truncate(x) - 1) as real < x <= Truncate(x) as real
  {}

  /** A text before a suffix denotes bytes exactly if it denotes a number, and then the product, cut off toward
      zero: "1.5Ki" is 1536 bytes. */
  lemma SuffixedBytes(s: string, u: Unit)
    requires s != "" && Trimmed(s) && u != NoUnit
    ensures ParseQuantityBytes(s + Suffix(u))
         == match ParseFloat(s) case None => None case Some(x) => Some(Truncate(x * Bytes(u) as real))
  {
    hide UnitOf, Suffix, ParseFloat, TrimSpace, TrimSuffix, Trimmed, Bytes, Truncate, HasSuffix;
    var text := s + Suffix(u);
    assert HasSuffix(text, Suffix(u)) && TrimSuffix(text, Suffix(u)) == s && Trimmed(text) by {
      SuffixedText(s, u);
    }
    var k := Listed(u);
    UnitFound(text, 0, k);
    TrimSpaceTrims(text);
    TrimSpaceTrims(s);
  }

  lemma SuffixedText(s: string, u: Unit)
    requires s != "" && Trimmed(s) && u != NoUnit
    ensures HasSuffix(s + Suffix(u), Suffix(u)) && TrimSuffix(s + Suffix(u), Suffix(u)) == s
    ensures Trimmed(s + Suffix(u))
  {
    hide Suffix, IsSpace;
    var text := s + Suffix(u);
    assert text[|text| - |Suffix(u)|..] == Suffix(u) && text[..|text| - |Suffix(u)|] == s;
    EndsWith(text, u);
  }

  /** The suffixes, and how many bytes they stand for. */
  lemma SuffixesDenote(n: nat)
    requires n <= MAX_INT
    ensures ParseQuantityBytes(Digits(n) + "Ki") == Some(n * 1024)
    ensures ParseQuantityBytes(Digits(n) + "Mi") == Some(n * 1_048_576)
    ensures ParseQuantityBytes(Digits(n) + "Gi") == Some(n * 1_073_741_824)
    ensures ParseQuantityBytes(Digits(n) + "Ti") == Some(n * 1_099_511_627_776)
    ensures ParseQuantityBytes(Digits(n) + "K") == Some(n * 1_000)
    ensures ParseQuantityBytes(Digits(n) + "M") == Some(n * 1_000_000)
    ensures ParseQuantityBytes(Digits(n) + "G") == Some(n * 1_000_000_000)
    ensures ParseQuantityBytes(Digits(n) + "T") == Some(n * 1_000_000_000_000)
    ensures ParseQuantityBytes(Digits(n)) == Some(n)
  {
    hide Digits, ParseQuantityBytes;
    ParsedText(n, Ki);
    ParsedText(n, Mi);
    ParsedText(n, Gi);
    ParsedText(n, Ti);
    ParsedText(n, K);
    ParsedText(n, M);
    ParsedText(n, G);
    ParsedText(n, T);
    ParsedPlain(n);
    assert Digits(n) + "" == Digits(n);
  }

  lemma ParsedPlain(n: nat)
    requires n <= MAX_INT
    ensures ParseQuantityBytes(Quantity(n, NoUnit)) == Some(n)
  {
    hide Digits, UnitOf, Suffix, ParseFloat, TrimSpace, TrimSuffix, Trimmed, Bytes, Atoi, TruncateProduct;
    QuantityShape(n, NoUnit);
    TrimSpaceTrims(Quantity(n, NoUnit));
    NoSuffix();
    assert Quantity(n, NoUnit) == Itoa(n);
    AtoiItoa(n);
  }

  lemma ParsedWithSuffix(n: nat, u: Unit)
    requires u != NoUnit
    ensures ParseQuantityBytes(Quantity(n, u)) == Some(n * Bytes(u))
  {
    hide Digits, UnitOf, Suffix, ParseFloat, TrimSpace, TrimSuffix, Trimmed, Bytes, Atoi, TruncateProduct;
    QuantityShape(n, u);
    TrimSpaceTrims(Quantity(n, u));
    DigitsTrimmed(n);
    TrimSpaceTrims(Digits(n));
    ParseDigits(n);
    TruncateProductInt(n, Bytes(u));
  }

  lemma RealProduct(x: int, y: int)
    ensures x as real * y as real == (x * y) as real
  {}

  lemma TruncateProductInt(x: nat, y: nat)
    ensures TruncateProduct(x as real, y as real) == x * y
  {
    hide Truncate;
    RealProduct(x, y);
    TruncateInt(x * y);
  }

  lemma TruncateInt(n: nat)
    ensures Truncate(n as real) == n
  {}

  lemma OneByte(n: nat)
    ensures n * Bytes(NoUnit) == n
  {}

  lemma BytesPositive(u: Unit)
    ensures Bytes(u) > 0
  {}

  /** The bumped quantity parses back, and its bytes lie in [old * factor, old * factor + one unit); so
      a factor of at least 1 never shrinks the memory. */
  lemma BumpIsTight(n: nat, u: Unit, factor: real)
    requires 0 < n <= MAX_INT && factor > 0.0 && Ceil(n as real * factor) <= MAX_INT
    ensures Bumped(Quantity(n, u), factor).Ok?
    ensures ParseQuantityBytes(Quantity(n, u)).Some? && ParseQuantityBytes(Bumped(Quantity(n, u), factor).value).Some?
    ensures var before := ParseQuantityBytes(Quantity(n, u)).value;
            var after := ParseQuantityBytes(Bumped(Quantity(n, u), factor).value).value;
            && before as real * factor <= after as real < before as real * factor + Bytes(u) as real
            && (factor >= 1.0 ==> after >= before)
  {
    hide ParseQuantityBytes, Bumped, Quantity, Bytes, Ceil;
    var m := Ceil(n as real * factor);
    BumpedText(n, u, factor);
    ParsedText(m, u);
    ParsedText(n, u);
    CeilBounds(n as real * factor);
    BytesPositive(u);
    Scaled(n, m, Bytes(u), factor);
    if factor >= 1.0 {
      GrowsBy(n as real, factor);
      MulMonotone(n, m, Bytes(u));
    }
  }

  lemma CeilBounds(x: real)
    ensures x <= Ceil(x) as real < x + 1.0
  {}

  /** Multiplication by name, to keep products apart from each other. */
  ghost function Times(x: real, y: real): real { x * y }

  lemma TimesOrdered(x: real, y: real, b: real)
    requires b > 0.0
    ensures x <= y ==> Times(x, b) <= Times(y, b)
    ensures x < y ==> Times(x, b) < Times(y, b)
  {}

  lemma TimesNext(x: real, b: real)
    ensures Times(x + 1.0, b) == Times(x, b) + b
  {}

  lemma TimesSwap(x: real, y: real, z: real)
    ensures Times(Times(x, y), z) == Times(Times(x, z), y)
  {}

  lemma TimesCast(a: nat, b: nat)
    ensures (a * b) as real == Times(a as real, b as real)
  {}

  lemma ScaledTimes(n: nat, m: nat, unit: nat, factor: real, n': nat, m': nat)
    requires n' == n * unit && m' == m * unit && unit > 0
    requires Times(n as real, factor) <= m as real < Times(n as real, factor) + 1.0
    ensures Times(n' as real, factor) <= m' as real < Times(n' as real, factor) + unit as real
  {
    hide Times;
    var low, high, b := Times(n as real, factor), m as real, unit as real;
    TimesOrdered(low, high, b);
    TimesOrdered(high, low + 1.0, b);
    TimesNext(low, b);
    TimesSwap(n as real, factor, b);
    TimesCast(n, unit);
    TimesCast(m, unit);
  }

  lemma Scaled(n: nat, m: nat, unit: nat, factor: real)
    requires n as real * factor <= m as real < n as real * factor + 1.0 && unit > 0
    ensures (n * unit) as real * factor <= (m * unit) as real < (n * unit) as real * factor + unit as real
  {
    ScaledTimes(n, m, unit, factor, n * unit, m * unit);
  }

  lemma GrowsBy(x: real, factor: real)
    requires x >= 0.0 && factor >= 1.0
    ensures x <= x * factor
  {}

  lemma MulMonotone(a: nat, b: nat, c: nat)
    requires a <= b
    ensures a * c <= b * c
  {}

  /** The bytes of a bumped quantity. */
  function BumpedBytes(q: string, factor: real): Option<int> {
    match Bumped(q, factor) case Err(_) => None case Ok(text) => ParseQuantityBytes(text)
  }

  /** A positive quantity whose bumped number fits 64 bits. */
  predicate Fits(n: nat, factor: real) { n > 0 && factor > 0.0 && CeilProduct(n as real, factor) <= MAX_INT }

  lemma BumpedBytesAre(n: nat, u: Unit, factor: real)
    requires Fits(n, factor)
    ensures CeilProduct(n as real, factor) > 0
    ensures BumpedBytes(Quantity(n, u), factor) == Some(CeilProduct(n as real, factor) * Bytes(u))
  {
    hide ParseQuantityBytes, Bumped, Quantity, Bytes, Ceil;
    BumpedText(n, u, factor);
    ParsedText(Ceil(n as real * factor), u);
  }

  /** The first bumped quantity parses as no more memory than the second. */
  predicate BumpsOrdered(n: nat, u: Unit, factor: real, m: nat, v: Unit, factor': real) {
    var less, more := BumpedBytes(Quantity(n, u), factor), BumpedBytes(Quantity(m, v), factor');
    less.Some? && more.Some? && less.value <= more.value
  }

  /** Less memory in units of u, bumped by no larger a factor, never becomes more than memory in units of v. */
  ghost predicate BumpKeepsOrder(u: Unit, v: Unit) {
    forall n: nat, m: nat, factor: real, factor': real ::
      Fits(n, factor) && Fits(m, factor') && factor <= factor' && n * Bytes(u) <= m * Bytes(v) ==>
        BumpsOrdered(n, u, factor, m, v, factor')
  }

  /** Bumping is monotone from units of u to units of v exactly if v is a multiple of u: rounding up to a
      whole unit on the left must not go beyond what the unit on the right can express. */
  lemma BumpIsMonotoneIff(u: Unit, v: Unit)
    ensures BumpKeepsOrder(u, v) <==> Bytes(v) % Bytes(u) == 0
  {
    hide BumpsOrdered, Bytes, Fits;
    BytesPositive(u);
    if Bytes(v) % Bytes(u) == 0 {
      forall n: nat, m: nat, factor: real, factor': real |
        Fits(n, factor) && Fits(m, factor') && factor <= factor' && n * Bytes(u) <= m * Bytes(v)
        ensures BumpsOrdered(n, u, factor, m, v, factor')
      {
        CoarserKeepsOrder(n, u, factor, m, v, factor');
      }
    } else {
      FinerBreaksOrder(u, v);
    }
  }

  lemma CoarserKeepsOrder(n: nat, u: Unit, factor: real, m: nat, v: Unit, factor': real)
    requires Fits(n, factor) && Fits(m, factor') && factor <= factor' && n * Bytes(u) <= m * Bytes(v)
    requires Bytes(u) > 0 && Bytes(v) % Bytes(u) == 0
    ensures BumpsOrdered(n, u, factor, m, v, factor')
  {
    hide Bytes, BumpedBytes, Quantity, Ceil;
    BumpedBytesAre(n, u, factor);
    BumpedBytesAre(m, v, factor');
    var q := Bytes(v) / Bytes(u);
    CeilsScale(n, m, q, Bytes(u), Bytes(v), factor, factor');
  }

  lemma CeilsScale(n: nat, m: nat, q: nat, small: nat, large: nat, factor: real, factor': real)
    requires small > 0 && large == q * small && n * small <= m * large && 0.0 < factor <= factor'
    ensures Ceil(n as real * factor) * small <= Ceil(m as real * factor') * large
  {
    hide Ceil;
    Regrouped(m, q, small);
    Cancelled(n, m * q, small);
    var a, b := Ceil(n as real * factor), Ceil(m as real * factor');
    CeilBelow(n, m, q, factor, factor');
    ScaledBy(a, b * q, small);
    Regrouped(b, q, small);
  }

  lemma Regrouped(m: int, q: int, small: int)
    ensures m * (q * small) == (m * q) * small
  {}

  lemma Cancelled(n: int, k: int, small: nat)
    requires n * small <= k * small && small > 0
    ensures n <= k
  {
    assert (k + 1) * small == k * small + small;
    if n > k {
      ScaledBy(k + 1, n, small);
    }
  }

  lemma ScaledBy(a: int, b: int, small: nat)
    requires a <= b
    ensures a * small <= b * small
  {}

  lemma CeilBelow(n: nat, m: nat, q: nat, factor: real, factor': real)
    requires n <= m * q && 0.0 < factor <= factor'
    ensures Ceil(n as real * factor) <= Ceil(m as real * factor') * q
  {
    var b := Ceil(m as real * factor');
    CeilBounds(m as real * factor');
    ProductsOrdered(n as real, (m * q) as real, factor, factor');
    RealProduct(m, q);
    assert (m * q) as real * factor' == (m as real * factor') * q as real;
    ProductGrows(m as real * factor', b as real, q as real);
    RealProduct(b, q);
    CeilIsLeast(n as real * factor, b * q);
  }

  lemma ProductGrows(x: real, y: real, q: real)
    requires x <= y && q >= 0.0
    ensures x * q <= y * q
  {}

  lemma CeilIsLeast(x: real, k: int)
    requires x <= k as real
    ensures Ceil(x) <= k
  {}

  /** Equal memory: as many units of u as v has bytes, and as many units of v as u has bytes. Divided by the
      bytes of u, the second is one whole unit of v, while the first rounds up beyond it. */
  lemma FinerBreaksOrder(u: Unit, v: Unit)
    requires Bytes(u) > 0 && Bytes(v) % Bytes(u) != 0
    ensures !BumpKeepsOrder(u, v)
  {
    hide Bytes, BumpKeepsOrder, Fits, BumpsOrdered;
    var n, m := Bytes(v), Bytes(u);
    var factor := 1.0 / m as real;
    BytesFit(v);
    CeilOfQuotient(n, m, factor);
    RoundsBeyond(n, u, factor, m, v);
    BreaksOrder(n, u, factor, m, v);
  }

  lemma RoundsBeyond(n: nat, u: Unit, factor: real, m: nat, v: Unit)
    requires factor > 0.0 && 0 < n == Bytes(v) <= MAX_INT && 0 < m == Bytes(u)
    requires CeilProduct(m as real, factor) == 1
    requires CeilProduct(n as real, factor) <= n && CeilProduct(n as real, factor) * m > n
    ensures Fits(n, factor) && Fits(m, factor) && !BumpsOrdered(n, u, factor, m, v, factor)
  {
    hide Bytes, BumpedBytes, Quantity, CeilProduct;
    BumpedBytesAre(n, u, factor);
    BumpedBytesAre(m, v, factor);
  }

  lemma BreaksOrder(n: nat, u: Unit, factor: real, m: nat, v: Unit)
    requires Fits(n, factor) && Fits(m, factor) && n == Bytes(v) && m == Bytes(u)
    requires !BumpsOrdered(n, u, factor, m, v, factor)
    ensures !BumpKeepsOrder(u, v)
  {
    hide BumpsOrdered, Fits, Bytes;
    assert n * Bytes(u) == m * Bytes(v);
  }

  lemma BytesFit(u: Unit)
    ensures 0 < Bytes(u) < MAX_INT
  {}

  lemma CeilOfQuotient(n: nat, m: nat, f: real)
    requires m > 0 && n % m != 0 && f == 1.0 / m as real
    ensures f > 0.0 && CeilProduct(m as real, f) == 1
    ensures CeilProduct(n as real, f) <= n && CeilProduct(n as real, f) * m > n
  {
    hide CeilProduct, Times;
    var k := n / m;
    UnitProduct(m, f);
    QuotientIsBetween(n, m, k);
    Associated(k, m, f);
    Associated(k + 1, m, f);
    CeilBetween(n, k * m, (k + 1) * m, k, f);
  }

  lemma UnitProduct(m: nat, f: real)
    requires m > 0 && f == 1.0 / m as real
    ensures f > 0.0 && CeilProduct(m as real, f) == 1
  {}

  lemma CeilBetween(n: nat, low: nat, high: nat, k: nat, f: real)
    requires low < n < high && f > 0.0 && Times(low as real, f) == k as real
    requires Times(high as real, f) == (k + 1) as real
    ensures CeilProduct(n as real, f) == k + 1
  {
    hide CeilProduct, Times;
    TimesOrdered(low as real, n as real, f);
    TimesOrdered(n as real, high as real, f);
    CeilTimes(n as real, f, k);
  }

  lemma QuotientIsBetween(n: nat, m: nat, k: nat)
    requires m > 0 && n % m != 0 && k == n / m
    ensures k * m < n < (k + 1) * m && k + 1 <= n
  {
    assert n == k * m + n % m;
    assert (k + 1) * m == k * m + m;
    if k > 0 {
      ScaledBy(2, m, k);
    }
  }

  lemma Associated(k: nat, m: nat, f: real)
    requires m > 0 && f == 1.0 / m as real
    ensures Times((k * m) as real, f) == k as real
  {
    RealProduct(k, m);
    assert m as real * f == 1.0;
    assert k as real * m as real * f == k as real * (m as real * f);
  }

  lemma CeilTimes(x: real, f: real, k: int)
    requires k as real < Times(x, f) <= (k + 1) as real
    ensures CeilProduct(x, f) == k + 1
  {}

  /** In particular it is monotone under one suffix ... */
  lemma BumpIsMonotone(n: nat, m: nat, u: Unit, factor: real, factor': real)
    requires n <= m && Fits(n, factor) && Fits(m, factor') && factor <= factor'
    ensures BumpsOrdered(n, u, factor, m, u, factor')
  {
    hide BumpsOrdered, Bytes, Fits;
    BytesPositive(u);
    MulMonotone(n, m, Bytes(u));
    CoarserKeepsOrder(n, u, factor, m, u, factor');
  }

  /** ... but not from Mi down to Gi: 1025Mi is more than 1Gi, and bumped by 1.1 it is less. */
  lemma BumpIsNotMonotoneAcrossUnits()
    ensures ParseQuantityBytes(Quantity(1, Gi)) == Some(0x4000_0000)
    ensures ParseQuantityBytes(Quantity(1025, Mi)) == Some(0x4010_0000)
    ensures BumpedBytes(Quantity(1, Gi), 1.1) == Some(0x8000_0000)
    ensures BumpedBytes(Quantity(1025, Mi), 1.1) == Some(0x4680_0000)
  {
    hide ParseQuantityBytes, BumpedBytes, Quantity;
    ParsedText(1, Gi);
    ParsedText(1025, Mi);
    assert Ceil(1 as real * 1.1) == 2 && Ceil(1025 as real * 1.1) == 1128;
    BumpedBytesAre(1, Gi, 1.1);
    BumpedBytesAre(1025, Mi, 1.1);
  }

  lemma ProductsOrdered(a: real, b: real, x: real, y: real)
    requires 0.0 <= a <= b && 0.0 < x <= y
    ensures a * x <= b * y
  {
    assert a * x <= b * x;
    assert b * x <= b * y;
  }

  function Power(x: real, k: nat): real { if k == 0 then 1.0 else x * Power(x, k - 1) }

  /** k bumps in a row, starting from text. */
  function BumpedTimes(s: string, factor: real, k: nat): Result<string, QuantityError> {
    if k == 0 then Ok(s)
    else match BumpedTimes(s, factor, k - 1) case Err(e) => Err(e) case Ok(t) => Bumped(t, factor)
  }

  /** k bumps give at least the original times factor^k, under the same suffix. */
  lemma {:induction false} BumpsCompound(n: nat, u: Unit, factor: real, k: nat) returns (m: nat)
    requires n > 0 && factor > 0.0
    ensures BumpedTimes(Quantity(n, u), factor, k) == Ok(Quantity(m, u))
    ensures m > 0 && m as real >= n as real * Power(factor, k)
  {
    hide Bumped, Quantity;
    if k == 0 {
      m := n;
    } else {
      var before := BumpsCompound(n, u, factor, k - 1);
      BumpedText(before, u, factor);
      m := Ceil(before as real * factor);
      ScaleBound(before as real, n as real, Power(factor, k - 1), factor);
    }
  }

  lemma ScaleBound(b: real, n: real, p: real, f: real)
    requires b >= n * p && f > 0.0
    ensures b * f >= n * (f * p)
  {
    assert b * f >= n * p * f;
    assert n * p * f == n * (f * p);
  }
}
