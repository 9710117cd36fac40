/** The string functions of the Go library that the agent relies on. */
module Text {
  import opened Contracts

  /** unicode.IsSpace. */
  predicate IsSpace(c: char) {
    || '\t' <= c <= '\r' || c == ' ' || c == '\U{0085}' || c == '\U{00A0}' || c == '\U{1680}'
    || '\U{2000}' <= c <= '\U{200A}' || c in {'\U{2028}', '\U{2029}', '\U{202F}', '\U{205F}', '\U{3000}'}
  }

  /** In Latin-1 these are the white-space characters and the two that Unicode adds. */
  lemma LatinSpaces(c: char)
    requires c <= '\U{00FF}'
    ensures IsSpace(c) <==> c in {' ', '\t', '\n', '\U{000B}', '\U{000C}', '\r', '\U{0085}', '\U{00A0}'}
  {}

  function TrimLeft(s: string): string {
    if s != [] && IsSpace(s[0]) then TrimLeft(s[1..]) else s
  }

  function TrimRight(s: string): string {
    if s != [] && IsSpace(s[|s| - 1]) then TrimRight(s[..|s| - 1]) else s
  }

  function TrimSpace(s: string): string { TrimRight(TrimLeft(s)) }

  predicate Trimmed(s: string) { s == [] || (!IsSpace(s[0]) && !IsSpace(s[|s| - 1])) }

  lemma {:induction false} TrimRightKeepsHead(s: string)
    ensures TrimRight(s) <= s
    ensures TrimRight(s) != [] ==> !IsSpace(TrimRight(s)[|TrimRight(s)| - 1])
    ensures s != [] && !IsSpace(s[0]) ==> TrimRight(s) != []
  {
    if s != [] && IsSpace(s[|s| - 1]) {
      TrimRightKeepsHead(s[..|s| - 1]);
    }
  }

  lemma {:induction false} TrimLeftIsSuffix(s: string)
    ensures TrimLeft(s) != [] ==> !IsSpace(TrimLeft(s)[0])
    ensures forall c <- TrimLeft(s) :: c in s
  {
    if s != [] && IsSpace(s[0]) {
      TrimLeftIsSuffix(s[1..]);
    }
  }

  /** Trimming yields trimmed strings, adds no character, and changes exactly the untrimmed ones. */
  lemma TrimSpaceTrims(s: string)
    ensures Trimmed(TrimSpace(s)) && (forall c <- TrimSpace(s) :: c in s)
    ensures TrimSpace(s) == s <==> Trimmed(s)
  {
    TrimLeftIsSuffix(s);
    TrimRightKeepsHead(TrimLeft(s));
  }

  /** strings.Split for a one-character separator. */
  function Split(s: string, sep: char): (parts: seq<string>)
    ensures parts != []
  {
    if s == [] then [[]]
    else
      var rest := Split(s[1..], sep);
      if s[0] == sep then [[]] + rest else [[s[0]] + rest[0]] + rest[1..]
  }

  function Join(parts: seq<string>, sep: char): string {
    if parts == [] then []
    else if |parts| == 1 then parts[0]
    else parts[0] + [sep] + Join(parts[1..], sep)
  }

  lemma {:induction false} SplitFree(s: string, sep: char)
    requires sep !in s
    ensures Split(s, sep) == [s]
  {
    if s != [] {
      SplitFree(s[1..], sep);
      assert s == [s[0]] + s[1..];
    }
  }

  lemma {:induction false} SplitFirst(s: string, rest: string, sep: char)
    requires sep !in s
    ensures Split(s + [sep] + rest, sep) == [s] + Split(rest, sep)
  {
    var whole := s + [sep] + rest;
    if s == [] {
      assert whole[1..] == rest;
    } else {
      assert whole[1..] == s[1..] + [sep] + rest;
      SplitFirst(s[1..], rest, sep);
      assert s == [s[0]] + s[1..];
      assert ([s[1..]] + Split(rest, sep))[1..] == Split(rest, sep);
    }
  }

  lemma {:induction false} SplitParts(s: string, sep: char)
    ensures forall part <- Split(s, sep) :: sep !in part
  {
    if s != [] {
      SplitParts(s[1..], sep);
      var rest := Split(s[1..], sep);
      assert sep !in rest[0];
    }
  }

  lemma {:induction false} SplitJoin(parts: seq<string>, sep: char)
    requires parts != [] && forall part <- parts :: sep !in part
    ensures Split(Join(parts, sep), sep) == parts
  {
    if |parts| == 1 {
      SplitFree(parts[0], sep);
    } else {
      SplitJoin(parts[1..], sep);
      SplitFirst(parts[0], Join(parts[1..], sep), sep);
    }
  }

  /** strings.Index for one character. */
  function IndexOf(s: string, c: char): Option<nat> {
    if s == [] then None
    else if s[0] == c then Some(0)
    else match IndexOf(s[1..], c) case None => None case Some(i) => Some(i + 1)
  }

  lemma {:induction false} IndexOfFirst(s: string, rest: string, c: char)
    requires c !in s
    ensures IndexOf(s + [c] + rest, c) == Some(|s|)
  {
    if s != [] {
      assert (s + [c] + rest)[1..] == s[1..] + [c] + rest;
      IndexOfFirst(s[1..], rest, c);
    }
  }

  lemma {:induction false} IndexOfBound(s: string, c: char)
    ensures IndexOf(s, c).Some? ==> IndexOf(s, c).value < |s|
  {
    if s != [] {
      IndexOfBound(s[1..], c);
    }
  }

  predicate HasSuffix(s: string, suffix: string) {
    |suffix| <= |s| && s[|s| - |suffix|..] == suffix
  }

  function TrimSuffix(s: string, suffix: string): string {
    if HasSuffix(s, suffix) then s[..|s| - |suffix|] else s
  }

  /** strings.ToLower, for ASCII letters. */
  function Lower(s: string): string {
    if s == [] then [] else [LowerChar(s[0])] + Lower(s[1..])
  }

  /** Two characters that are one letter, in whatever case. */
  predicate SameLetter(a: char, b: char) {
    || a == b
    || ('a' <= a <= 'z' && 'A' <= b <= 'Z' && a - 'a' == b - 'A')
    || ('A' <= a <= 'Z' && 'a' <= b <= 'z' && a - 'A' == b - 'a')
  }

  /** Equal texts up to the case of ASCII letters. */
  ghost predicate SameUpToCase(s: string, t: string) {
    |s| == |t| && forall i :: 0 <= i < |s| ==> SameLetter(s[i], t[i])
  }

  /** Lower-casing identifies exactly the texts that differ in case only. */
  lemma {:induction false} LowerEqualIff(s: string, t: string)
    ensures Lower(s) == Lower(t) <==> SameUpToCase(s, t)
  {
    if s != [] && t != [] {
      LowerEqualIff(s[1..], t[1..]);
      LowerStep(s);
      LowerStep(t);
      if Lower(s) == Lower(t) {
        assert Lower(s)[0] == Lower(t)[0] && Lower(s)[1..] == Lower(t)[1..];
        assert forall i :: 0 < i < |s| ==> s[i] == s[1..][i - 1] && t[i] == t[1..][i - 1];
      }
    } else {
      LowerLength(s);
      LowerLength(t);
    }
  }

  function LowerChar(c: char): char { if 'A' <= c <= 'Z' then c - 'A' + 'a' else c }

  lemma LowerStep(s: string)
    requires s != []
    ensures Lower(s) == [LowerChar(s[0])] + Lower(s[1..])
  {}

  lemma LowerLength(s: string)
    ensures |Lower(s)| == |s|
  {}

  /** strings.TrimPrefix. */
  function TrimPrefix(s: string, prefix: string): string {
    if prefix <= s then s[|prefix|..] else s
  }

  /** It takes off the prefix where there is one. */
  lemma TrimPrefixRemoves(prefix: string, s: string)
    ensures TrimPrefix(prefix + s, prefix) == s
    ensures !(prefix <= s) ==> TrimPrefix(s, prefix) == s
  {}

  // Decimal numbers.

  predicate IsDigit(c: char) { '0' <= c <= '9' }

  predicate AllDigits(s: string) { s != [] && forall c <- s :: IsDigit(c) }

  function DigitValue(c: char): nat
    requires IsDigit(c)
  {
    (c - '0') as int
  }

  function DigitChar(d: nat): char
    requires d < 10
  {
    '0' + d as char
  }

  function Digits(n: nat): string {
    if n < 10 then [DigitChar(n)] else Digits(n / 10) + [DigitChar(n % 10)]
  }

  function Value(s: string): nat
    requires forall c <- s :: IsDigit(c)
  {
    if s == [] then 0 else Value(s[..|s| - 1]) * 10 + DigitValue(s[|s| - 1])
  }

  /** strconv.Itoa. */
  function Itoa(n: int): string {
    if n < 0 then "-" + Digits(-n) else Digits(n)
  }

  const MAX_INT := 0x7FFF_FFFF_FFFF_FFFF

  function Signed(negative: bool, digits: string): Option<int> {
    if !AllDigits(digits) then None
    else
      var n: int := if negative then 0 - Value(digits) else Value(digits);
      if -MAX_INT - 1 <= n <= MAX_INT then Some(n) else None
  }

  /** strconv.Atoi for 64-bit integers. */
  function Atoi(s: string): Option<int> {
    if s != [] && s[0] in {'-', '+'} then Signed(s[0] == '-', s[1..]) else Signed(false, s)
  }

  /** Digits with at most one sign are the only texts that denote a number, and they do unless it does not fit
      64 bits. */
  lemma AtoiDenotes(s: string)
    ensures AllDigits(s) ==>
              && Atoi(s) == Atoi("+" + s) == (if Value(s) <= MAX_INT then Some(Value(s)) else None)
              && Atoi("-" + s) == (if Value(s) <= MAX_INT + 1 then Some(0 - Value(s)) else None)
    ensures Atoi(s).Some? ==> AllDigits(s) || (s[0] in {'-', '+'} && AllDigits(s[1..]))
  {
    hide AllDigits, Value;
    if AllDigits(s) {
      DigitFirst(s);
      SignFirst('+', s);
      SignFirst('-', s);
    }
  }

  lemma DigitFirst(s: string)
    requires AllDigits(s)
    ensures s != "" && s[0] !in {'-', '+'}
  {
    assert s[0] in s;
  }

  lemma SignFirst(sign: char, s: string)
    ensures ([sign] + s)[0] == sign && ([sign] + s)[1..] == s
  {}

  lemma {:induction false} DigitsValue(n: nat)
    ensures AllDigits(Digits(n)) && Value(Digits(n)) == n
    ensures n > 0 ==> Digits(n)[0] != '0'
  {
    if n >= 10 {
      DigitsValue(n / 10);
      assert Digits(n)[..|Digits(n)| - 1] == Digits(n / 10);
    }
  }

  lemma AtoiItoa(n: int)
    requires -MAX_INT - 1 <= n <= MAX_INT
    ensures Atoi(Itoa(n)) == Some(n)
  {
    if n < 0 {
      DigitsValue(-n);
      assert Itoa(n)[0] == '-' && Itoa(n)[1..] == Digits(-n);
    } else {
      DigitsValue(n);
      assert IsDigit(Itoa(n)[0]);
    }
  }

  /** "0", or digits without a leading zero, possibly after a minus sign. */
  predicate Canonical(s: string) {
    || s == "0"
    || (AllDigits(s) && s[0] != '0')
    || (|s| > 1 && s[0] == '-' && AllDigits(s[1..]) && s[1] != '0')
  }

  lemma DigitOf(c: char)
    requires IsDigit(c)
    ensures DigitValue(c) < 10 && DigitChar(DigitValue(c)) == c
    ensures DigitValue(c) == 0 <==> c == '0'
  {}

  lemma {:induction false} DigitsOfValue(s: string)
    requires AllDigits(s) && s[0] != '0'
    ensures Value(s) > 0 && Digits(Value(s)) == s
  {
    var front, last := s[..|s| - 1], s[|s| - 1];
    DigitOf(last);
    assert s == front + [last];
    if front != [] {
      DigitsOfValue(front);
      assert Value(s) / 10 == Value(front) && Value(s) % 10 == DigitValue(last);
    }
  }

  /** Printing a parsed integer gives back its text exactly when that text is canonical. */
  lemma ItoaAtoiIff(s: string)
    requires Atoi(s).Some?
    ensures Itoa(Atoi(s).value) == s <==> Canonical(s)
  {
    var n := Atoi(s).value;
    ItoaIsCanonical(n);
    if s[0] == '-' || s[0] == '+' {
      assert s[0] in s && !IsDigit(s[0]);
      if Canonical(s) {
        DigitsOfValue(s[1..]);
        assert s == "-" + s[1..];
      }
    } else if AllDigits(s) && s[0] != '0' {
      DigitsOfValue(s);
    } else if s == "0" {
      DigitOf('0');
      assert Value("0") == 0;
    }
  }

  lemma ItoaIsCanonical(n: int)
    ensures Canonical(Itoa(n))
  {
    if n < 0 {
      DigitsValue(-n);
      assert Itoa(n)[1..] == Digits(-n);
    } else {
      DigitsValue(n);
      DigitOf('0');
    }
  }

  // Fresh identifiers.

  /** No finite set holds all strings. */
  lemma FreshId(ids: set<string>) returns (id: string)
    ensures id !in ids
  {
    var bound := LengthBound(ids);
    id := seq(bound + 1, _ => 'x');
  }

  lemma {:induction false} LengthBound(ids: set<string>) returns (bound: nat)
    ensures forall id <- ids :: |id| <= bound
  {
    if ids == {} {
      bound := 0;
    } else {
      var id :| id in ids;
      var rest := LengthBound(ids - {id});
      bound := if |id| > rest then |id| else rest;
    }
  }
}
