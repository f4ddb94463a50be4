/** Numerals and tokens as the C library and Python read and write them. */
module Text {
  import opened Wrappers
  import opened Words

  // ----- Numerals -----

  const NO_DIGIT := 36

  function DigitValue(c: char): nat {
    if '0' <= c <= '9' then c as int - '0' as int
    else if 'a' <= c <= 'f' then c as int - 'a' as int + 10
    else if 'A' <= c <= 'F' then c as int - 'A' as int + 10
    else NO_DIGIT
  }

  predicate Digits(s: string, base: nat) {
    forall i :: 0 <= i < |s| ==> DigitValue(s[i]) < base
  }

  /** The value of a numeral, most significant digit first. */
  function Value(s: string, base: nat): nat
    decreases |s|
  {
    if s == [] then 0 else Value(s[..|s| - 1], base) * base + DigitValue(s[|s| - 1])
  }

  function Digit(d: nat): char
    requires d < 16
  {
    "0123456789ABCDEF"[d]
  }

  /** The shortest numeral of v. */
  function Numeral(v: nat, base: nat): (s: string)
    requires 2 <= base <= 16
    ensures |s| > 0
    decreases v
  {
    if v < base then [Digit(v)] else Numeral(v / base, base) + [Digit(v % base)]
  }

  function Zeros(n: nat): string {
    seq(n, _ => '0')
  }

  /** `%08X`, and Python's `:08X` of a natural number. */
  function Hex8(v: nat): string {
    var s := Numeral(v, 16);
    if |s| < 8 then Zeros(8 - |s|) + s else s
  }

  function Dec(v: nat): string {
    Numeral(v, 10)
  }

  lemma DigitRoundTrip(d: nat)
    requires d < 16
    ensures DigitValue(Digit(d)) == d
  {
  }

  lemma ValueSnoc(s: string, d: nat, base: nat)
    requires d < 16
    ensures Value(s + [Digit(d)], base) == Value(s, base) * base + d
    ensures Digits(s, base) && d < base ==> Digits(s + [Digit(d)], base)
  {
    DigitRoundTrip(d);
    assert (s + [Digit(d)])[..|s|] == s;
  }

  lemma Divided(v: nat, base: nat)
    requires base > 0
    ensures v / base * base + v % base == v && v % base < base
  {
  }

  lemma {:induction false} NumeralRoundTrip(v: nat, base: nat)
    requires 2 <= base <= 16
    ensures Digits(Numeral(v, base), base) && Value(Numeral(v, base), base) == v
    decreases v
  {
    hide Value, Digits, Digit;
    if v < base {
      OneDigit(v, base);
    } else {
      NumeralRoundTrip(v / base, base);
      ValueSnoc(Numeral(v / base, base), v % base, base);
      Divided(v, base);
    }
  }

  lemma OneDigit(v: nat, base: nat)
    requires v < base <= 16
    ensures Digits([Digit(v)], base) && Value([Digit(v)], base) == v
  {
    DigitRoundTrip(v);
    assert [Digit(v)][..0] == [];
  }

  lemma {:induction false} NumeralLength(v: nat, base: nat, n: nat, p: nat)
    requires 2 <= base <= 16 && n > 0 && v < p && p == Power(base, n)
    ensures |Numeral(v, base)| <= n
    decreases n
  {
    if v >= base {
      var p' := Power(base, n - 1);
      assert v / base < p' by {
        if v / base >= p' {
          MultiplyMonotone(v / base, p', base);
        }
      }
      if n > 1 {
        NumeralLength(v / base, base, n - 1, p');
      }
    }
  }

  lemma MultiplyMonotone(x: nat, y: nat, b: nat)
    requires x >= y
    ensures x * b >= y * b
  {
  }

  function Power(base: nat, n: nat): nat {
    if n == 0 then 1 else Power(base, n - 1) * base
  }

  lemma {:induction false} LeadingZeros(n: nat, s: string, base: nat)
    requires 2 <= base <= 16
    ensures Value(Zeros(n) + s, base) == Value(s, base)
    ensures Digits(s, base) ==> Digits(Zeros(n) + s, base)
    decreases |s| + n
  {
    var t := Zeros(n) + s;
    if s != [] {
      assert t[..|t| - 1] == Zeros(n) + s[..|s| - 1];
      LeadingZeros(n, s[..|s| - 1], base);
    } else if n > 0 {
      assert t[..|t| - 1] == Zeros(n - 1) + s;
      LeadingZeros(n - 1, s, base);
    }
  }

  lemma Hex8RoundTrip(v: nat)
    ensures Digits(Hex8(v), 16) && Value(Hex8(v), 16) == v && |Hex8(v)| >= 8
    ensures v < 0x1_0000_0000 ==> |Hex8(v)| == 8
  {
    hide Value, Digits, Numeral, Power;
    var s := Numeral(v, 16);
    NumeralRoundTrip(v, 16);
    if |s| < 8 {
      LeadingZeros(8 - |s|, s, 16);
    }
    if v < 0x1_0000_0000 {
      PowerAt8();
      NumeralLength(v, 16, 8, 0x1_0000_0000);
    }
  }

  lemma PowerAt8()
    ensures Power(16, 8) == 0x1_0000_0000
  {
    assert Power(16, 2) == 0x100;
    assert Power(16, 4) == 0x1_0000;
    assert Power(16, 6) == 0x100_0000;
  }

  lemma DecRoundTrip(v: nat)
    ensures Digits(Dec(v), 10) && Value(Dec(v), 10) == v && (Dec(v)[0] == '0' <==> v == 0)
  {
    NumeralRoundTrip(v, 10);
    FirstDigit(v, 10);
  }

  lemma ZeroDigit(d: nat)
    requires d < 16
    ensures Digit(d) == '0' <==> d == 0
  {
  }

  lemma {:induction false} FirstDigit(v: nat, base: nat)
    requires 2 <= base <= 16
    ensures Numeral(v, base)[0] == '0' <==> v == 0
    decreases v
  {
    hide Digit;
    if v < base {
      ZeroDigit(v);
    } else {
      FirstDigit(v / base, base);
      Divided(v, base);
      assert v / base > 0;
    }
  }

  // ----- strtoul(token, &end, 0) as parse_u32 uses it -----

  predicate IsSpace(c: char) {
    c == ' ' || c == '\t' || c == '\n' || c as int == 11 || c as int == 12 || c == '\r'
  }

  function SkipSpace(s: string): string {
    if s != [] && IsSpace(s[0]) then SkipSpace(s[1..]) else s
  }

  predicate HexPrefix(s: string) {
    |s| > 2 && s[0] == '0' && (s[1] == 'x' || s[1] == 'X') && DigitValue(s[2]) < 16
  }

  /** The numeral after the sign, its base taken from its prefix; accepted only when read to its end. */
  function Magnitude(s: string): Option<nat> {
    var base := if HexPrefix(s) then 16 else if s != [] && s[0] == '0' then 8 else 10;
    var digits := if HexPrefix(s) then s[2..] else s;
    if digits != [] && Digits(digits, base) then Some(Value(digits, base)) else None
  }

  /** The token as a 32-bit value: with the 32-bit `unsigned long` of the target, a minus sign wraps. */
  function ParseU32(token: string): Option<Word> {
    var s := SkipSpace(token);
    var negative := s != [] && s[0] == '-';
    var magnitude := Magnitude(if s != [] && (s[0] == '-' || s[0] == '+') then s[1..] else s);
    if magnitude.None? || magnitude.value >= 0x1_0000_0000 then None
    else if negative then Some(Wrap(0 - magnitude.value))
    else Some(magnitude.value)
  }

  /** Every natural number the client prints in hexadecimal is read back, if it fits a word. */
  lemma ParseHex(v: nat)
    ensures ParseU32("0x" + Hex8(v)) == if v < 0x1_0000_0000 then Some(v) else None
  {
    var s := "0x" + Hex8(v);
    Hex8RoundTrip(v);
    assert s[2..] == Hex8(v);
    assert DigitValue(s[2]) == DigitValue(Hex8(v)[0]) < 16;
    assert s[0] == '0' && s[1] == 'x';
    assert SkipSpace(s) == s;
  }

  lemma ParseDec(v: Word)
    ensures ParseU32(Dec(v)) == Some(v)
  {
    var s := Dec(v);
    DecRoundTrip(v);
    assert DigitValue(s[0]) < 10;
    assert SkipSpace(s) == s;
    if v == 0 {
      assert s == "0";
      assert s[..0] == [];
    } else {
      assert !HexPrefix(s);
    }
  }

  // ----- strtok(line, " \t") -----

  predicate IsDelimiter(c: char) {
    c == ' ' || c == '\t'
  }

  /** Length of the run of non-delimiters at the front. */
  function TokenLength(s: string): (n: nat)
    ensures n <= |s|
    ensures forall k :: 0 <= k < n ==> !IsDelimiter(s[k])
    ensures n < |s| ==> IsDelimiter(s[n])
  {
    if s == [] || IsDelimiter(s[0]) then 0 else 1 + TokenLength(s[1..])
  }

  function TokensOf(s: string): seq<string>
    decreases |s|
  {
    if s == [] then []
    else if IsDelimiter(s[0]) then TokensOf(s[1..])
    else [s[..TokenLength(s)]] + TokensOf(s[TokenLength(s)..])
  }

  predicate Blank(s: string) {
    forall k :: 0 <= k < |s| ==> IsDelimiter(s[k])
  }

  lemma {:induction false} NoTokensIffBlank(s: string)
    ensures TokensOf(s) == [] <==> Blank(s)
    decreases |s|
  {
    if s != [] && IsDelimiter(s[0]) {
      NoTokensIffBlank(s[1..]);
      assert forall k :: 1 <= k < |s| ==> s[k] == s[1..][k - 1];
    }
  }

  predicate Unbroken(t: string) {
    t != [] && forall k :: 0 <= k < |t| ==> !IsDelimiter(t[k])
  }

  /** A token ends where the next delimiter or the line ends. */
  lemma {:induction false} TokenAhead(t: string, rest: string)
    requires (forall k :: 0 <= k < |t| ==> !IsDelimiter(t[k])) && (rest == [] || IsDelimiter(rest[0]))
    ensures TokenLength(t + rest) == |t|
    decreases |t|
  {
    if t != [] {
      assert (t + rest)[1..] == t[1..] + rest;
      TokenAhead(t[1..], rest);
    }
  }

  /** Tokens joined by single spaces are the tokens of the line. */
  function Join(ts: seq<string>): string {
    if ts == [] then [] else if |ts| == 1 then ts[0] else ts[0] + " " + Join(ts[1..])
  }

  lemma TokensCons(t: string, rest: string)
    requires Unbroken(t) && (rest == [] || IsDelimiter(rest[0]))
    ensures TokensOf(t + rest) == [t] + TokensOf(rest)
  {
    TokenAhead(t, rest);
    assert (t + rest)[..|t|] == t && (t + rest)[|t|..] == rest;
  }

  lemma TokensSkip(rest: string)
    ensures TokensOf(" " + rest) == TokensOf(rest)
  {
    assert (" " + rest)[1..] == rest;
  }

  lemma {:induction false} JoinRoundTrip(ts: seq<string>)
    requires forall k :: 0 <= k < |ts| ==> Unbroken(ts[k])
    ensures TokensOf(Join(ts)) == ts
    decreases |ts|
  {
    hide TokensOf, Unbroken;
    if ts == [] {
      NoTokensIffBlank([]);
    } else if |ts| == 1 {
      NoTokensIffBlank([]);
      TokensCons(ts[0], []);
      assert ts[0] + [] == ts[0] && ts == [ts[0]];
    } else {
      assert Join(ts) == ts[0] + (" " + Join(ts[1..]));
      TokensCons(ts[0], " " + Join(ts[1..]));
      TokensSkip(Join(ts[1..]));
      JoinRoundTrip(ts[1..]);
      assert ts == [ts[0]] + ts[1..];
    }
  }
}
