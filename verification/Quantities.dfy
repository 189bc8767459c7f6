/** The text form of a quantity: written in hex by the token database, read back as an unsigned 64-bit number. */
module Quantities {
  import opened Basics

  const TWO_64: nat := 0x1_0000_0000_0000_0000

  datatype ParseError = Syntax | Range

  // ---------------------------------------------------------------------------------------------
  // Writing

  function HexDigit(d: nat): char
    requires d < 16
  {
    if d < 10 then ('0' as int + d) as char else ('a' as int + d - 10) as char
  }

  function HexDigits(n: nat): string {
    if n < 16 then [HexDigit(n)] else HexDigits(n / 16) + [HexDigit(n % 16)]
  }

  function Hex(n: nat): string {
    "0x" + HexDigits(n)
  }

  // ---------------------------------------------------------------------------------------------
  // Reading

  /** The value of a digit or letter; 36 for any other character, which is no digit in any base. */
  function Digit(c: char): nat {
    if '0' <= c <= '9' then c as int - '0' as int
    else if 'a' <= c <= 'z' then c as int - 'a' as int + 10
    else if 'A' <= c <= 'Z' then c as int - 'A' as int + 10
    else 36
  }

  predicate AllDigits(s: string, base: nat) {
    s == "" || (Digit(s[0]) < base && AllDigits(s[1..], base))
  }

  function Shift(n: nat, base: nat, d: nat): nat {
    n * base + d
  }

  /** The number that a digit string stands for after `n`, without any bound. */
  function Value(s: string, base: nat, n: nat): nat {
    if s == "" then n else Value(s[1..], base, Shift(n, base, Digit(s[0])))
  }

  /** Unsigned 64-bit wrap-around. */
  function Wrap(x: nat): nat {
    x % TWO_64
  }

  /** One turn of the digit loop, with its overflow checks in 64-bit arithmetic. */
  function AddDigit(n: nat, base: nat, c: char): Result<nat, ParseError>
    requires 2 <= base
  {
    if Digit(c) >= base then Err(Syntax)
    else if n >= (TWO_64 - 1) / base + 1 then Err(Range)
    else
      var shifted := Wrap(n * base);
      var next := Wrap(shifted + Digit(c));
      if next < shifted then Err(Range) else Ok(next)
  }

  /** The digit loop; underscores are passed over. */
  function ParseDigits(s: string, base: nat, n: nat): Result<nat, ParseError>
    requires 2 <= base
  {
    if s == "" then Ok(n)
    else if s[0] == '_' then ParseDigits(s[1..], base, n)
    else
      match AddDigit(n, base, s[0])
      case Ok(next) => ParseDigits(s[1..], base, next)
      case Err(error) => Err(error)
  }

  /** Base 0: the prefix decides the base, ten without one. */
  function ParsePrefixed(s: string): Result<nat, ParseError>
    requires s != ""
  {
    if s[0] != '0' then ParseDigits(s, 10, 0)
    else if |s| >= 3 && s[1] in "bB" then ParseDigits(s[2..], 2, 0)
    else if |s| >= 3 && s[1] in "oO" then ParseDigits(s[2..], 8, 0)
    else if |s| >= 3 && s[1] in "xX" then ParseDigits(s[2..], 16, 0)
    else ParseDigits(s[1..], 8, 0)
  }

  /** What the check of underscores has seen last. */
  datatype Seen = Nothing | ADigit | AnUnderscore | Other

  predicate IsDigit(c: char, hex: bool) {
    '0' <= c <= '9' || (hex && ('a' <= c <= 'f' || 'A' <= c <= 'F'))
  }

  /** Underscores must separate digits. */
  predicate SeparatesFrom(s: string, hex: bool, seen: Seen) {
    if s == "" then seen != AnUnderscore
    else if IsDigit(s[0], hex) then SeparatesFrom(s[1..], hex, ADigit)
    else if s[0] == '_' then seen == ADigit && SeparatesFrom(s[1..], hex, AnUnderscore)
    else seen != AnUnderscore && SeparatesFrom(s[1..], hex, Other)
  }

  /** The prefix of a base counts as a digit. */
  predicate UnderscoresOk(s: string) {
    var unsigned := if s != "" && s[0] in "+-" then s[1..] else s;
    if |unsigned| >= 2 && unsigned[0] == '0' && unsigned[1] in "bBoOxX" then
      SeparatesFrom(unsigned[2..], unsigned[1] in "xX", ADigit)
    else SeparatesFrom(unsigned, false, Nothing)
  }

  function ParseUint(s: string): Result<nat, ParseError> {
    if s == "" then Err(Syntax)
    else
      var parsed := ParsePrefixed(s);
      if parsed.Ok? && '_' in s && !UnderscoresOk(s) then Err(Syntax) else parsed
  }

  // ---------------------------------------------------------------------------------------------
  // Proofs

  lemma ShiftGrows(n: nat, base: nat, d: nat)
    requires base >= 1
    ensures Shift(n, base, d) >= n
  {
    assert n * base >= n;
  }

  lemma {:induction false} ValueGrows(s: string, base: nat, n: nat)
    requires base >= 1
    ensures Value(s, base, n) >= n
  {
    if s != "" {
      ShiftGrows(n, base, Digit(s[0]));
      ValueGrows(s[1..], base, Shift(n, base, Digit(s[0])));
    }
  }

  lemma CutoffIsExact(n: nat, base: nat)
    requires 2 <= base
    ensures n >= (TWO_64 - 1) / base + 1 <==> n * base >= TWO_64
  {
    var q := (TWO_64 - 1) / base;
    assert q * base <= TWO_64 - 1 < (q + 1) * base;
    if n >= q + 1 {
      assert n * base >= (q + 1) * base;
    } else {
      assert n * base <= q * base;
    }
  }

  lemma WrapOnce(x: nat)
    requires x < 2 * TWO_64
    ensures Wrap(x) == if x < TWO_64 then x else x - TWO_64
  {
  }

  /** One turn of the loop: a range error exactly when the shifted number needs more than 64 bits. */
  lemma TurnIsExact(s: string, base: nat, n: nat)
    requires 2 <= base <= 36 && n < TWO_64 && s != "" && Digit(s[0]) < base
    ensures ParseDigits(s, base, n) ==
            if Shift(n, base, Digit(s[0])) < TWO_64 then ParseDigits(s[1..], base, Shift(n, base, Digit(s[0])))
            else Err(Range)
  {
    CutoffIsExact(n, base);
    if n * base < TWO_64 {
      WrapOnce(n * base);
      WrapOnce(n * base + Digit(s[0]));
    }
  }

  /** On valid digits the loop returns the value they stand for when it fits, and never wraps when it does not. */
  lemma {:induction false} ParseDigitsExact(s: string, base: nat, n: nat)
    requires 2 <= base <= 36 && n < TWO_64 && AllDigits(s, base)
    ensures ParseDigits(s, base, n) == if Value(s, base, n) < TWO_64 then Ok(Value(s, base, n)) else Err(Range)
  {
    if s != "" {
      var next := Shift(n, base, Digit(s[0]));
      TurnIsExact(s, base, n);
      ValueGrows(s[1..], base, next);
      if next < TWO_64 {
        ParseDigitsExact(s[1..], base, next);
      }
    }
  }

  lemma {:induction false} ParseDigitsRejects(s: string, base: nat, n: nat)
    requires 2 <= base <= 36 && n < TWO_64 && '_' !in s && ParseDigits(s, base, n).Ok?
    ensures AllDigits(s, base)
  {
    if s != "" {
      TurnIsExact(s, base, n);
      ParseDigitsRejects(s[1..], base, Shift(n, base, Digit(s[0])));
    }
  }

  function WithoutUnderscores(s: string): (r: string)
    ensures '_' !in r
    ensures '_' !in s ==> r == s
  {
    if s == "" then ""
    else if s[0] == '_' then WithoutUnderscores(s[1..])
    else [s[0]] + WithoutUnderscores(s[1..])
  }

  /** The loop does not look at underscores. */
  lemma {:induction false} UnderscoresPassed(s: string, base: nat, n: nat)
    requires 2 <= base
    ensures ParseDigits(s, base, n) == ParseDigits(WithoutUnderscores(s), base, n)
  {
    if s != "" {
      if s[0] == '_' {
        UnderscoresPassed(s[1..], base, n);
      } else {
        assert WithoutUnderscores(s)[0] == s[0] && WithoutUnderscores(s)[1..] == WithoutUnderscores(s[1..]);
        match AddDigit(n, base, s[0])
        case Ok(next) => UnderscoresPassed(s[1..], base, next);
        case Err(_) =>
      }
    }
  }

  /** Every underscore is followed by a digit. */
  predicate Separated(s: string) {
    forall i :: 0 <= i < |s| && s[i] == '_' ==> i + 1 < |s| && s[i + 1] != '_'
  }

  /** Among hex digits, the check of underscores means that each is followed by a digit. */
  lemma {:induction false} SeparatedHex(s: string, seen: Seen)
    requires AllDigits(WithoutUnderscores(s), 16) && (seen == ADigit || seen == AnUnderscore)
    ensures SeparatesFrom(s, true, seen) <==> Separated(s) && (seen == AnUnderscore ==> s != "" && s[0] != '_')
  {
    if s != "" {
      var rest := s[1..];
      assert s[0] != '_' ==> WithoutUnderscores(s)[0] == s[0] && WithoutUnderscores(s)[1..] == WithoutUnderscores(rest);
      assert s[0] != '_' ==> IsDigit(s[0], true);
      SeparatedHex(rest, if s[0] == '_' then AnUnderscore else ADigit);
      assert forall i :: 0 <= i < |rest| ==> rest[i] == s[i + 1];
      if Separated(rest) && (s[0] == '_' ==> rest != "" && rest[0] != '_') {
        forall i | 0 <= i < |s| && s[i] == '_' ensures i + 1 < |s| && s[i + 1] != '_' {
          if i > 0 { assert rest[i - 1] == '_'; }
        }
      }
      if Separated(s) {
        forall i | 0 <= i < |rest| && rest[i] == '_' ensures i + 1 < |rest| && rest[i + 1] != '_' {
          assert s[i + 1] == '_';
        }
      }
    }
  }

  lemma {:induction false} ValueSnoc(s: string, c: char, base: nat, n: nat)
    requires AllDigits(s, base) && Digit(c) < base
    ensures AllDigits(s + [c], base)
    ensures Value(s + [c], base, n) == Shift(Value(s, base, n), base, Digit(c))
  {
    if s == "" {
      assert s + [c] == [c] && [c][1..] == "";
    } else {
      assert (s + [c])[1..] == s[1..] + [c];
      ValueSnoc(s[1..], c, base, Shift(n, base, Digit(s[0])));
    }
  }

  lemma {:induction false} HexDigitsValue(n: nat)
    ensures |HexDigits(n)| >= 1 && AllDigits(HexDigits(n), 16) && Value(HexDigits(n), 16, 0) == n
  {
    var last := HexDigit(n % 16);
    assert Digit(last) == n % 16;
    if n < 16 {
      assert [last][1..] == "";
    } else {
      HexDigitsValue(n / 16);
      ValueSnoc(HexDigits(n / 16), last, 16, 0);
    }
  }

  // ---------------------------------------------------------------------------------------------
  // Main results

  lemma {:induction false} DigitsOnly(s: string, base: nat)
    requires base <= 36 && AllDigits(s, base)
    ensures '_' !in s
  {
    if s != "" {
      DigitsOnly(s[1..], base);
      assert s == [s[0]] + s[1..];
    }
  }

  /** Writing and reading back gives the number itself for every 64-bit number, and an error for every other. */
  lemma HexRoundTrip(n: nat)
    ensures ParseUint(Hex(n)) == if n < TWO_64 then Ok(n) else Err(Range)
  {
    HexDigitsValue(n);
    DigitsOnly(HexDigits(n), 16);
    assert Hex(n)[2..] == HexDigits(n);
    assert Hex(n)[1] == 'x';
    ParseDigitsExact(HexDigits(n), 16, 0);
  }

  /** A text after 0x is read in base 16, and its underscores are checked as after a digit. */
  lemma AfterHexPrefix(digits: string)
    ensures if digits == "" then ParsePrefixed("0x" + digits) == Err(Syntax)
            else ParsePrefixed("0x" + digits) == ParseDigits(digits, 16, 0)
    ensures UnderscoresOk("0x" + digits) == SeparatesFrom(digits, true, ADigit)
    ensures '_' in "0x" + digits <==> '_' in digits
  {
    var s := "0x" + digits;
    assert s[0] == '0' && s[1] == 'x' && s[2..] == digits;
    if digits == "" {
      assert s[1..] == "x" && Digit('x') >= 8;
    }
  }

  lemma PlainHexExact(plain: string, v: nat)
    requires '_' !in plain
    ensures ParseDigits(plain, 16, 0) == Ok(v) <==> AllDigits(plain, 16) && Value(plain, 16, 0) == v < TWO_64
  {
    if ParseDigits(plain, 16, 0).Ok? { ParseDigitsRejects(plain, 16, 0); }
    if AllDigits(plain, 16) { ParseDigitsExact(plain, 16, 0); }
  }

  /**
   A hex string is accepted exactly when it has digits, only hex digits apart from underscores that are each followed by
   a digit, and a value below 2^64: then with that value.
   */
  lemma HexStringsExact(digits: string, v: nat)
    ensures ParseUint("0x" + digits) == Ok(v) <==>
            var plain := WithoutUnderscores(digits);
            digits != "" && Separated(digits) && AllDigits(plain, 16) && Value(plain, 16, 0) == v < TWO_64
  {
    AfterHexPrefix(digits);
    UnderscoresPassed(digits, 16, 0);
    PlainHexExact(WithoutUnderscores(digits), v);
    if AllDigits(WithoutUnderscores(digits), 16) { SeparatedHex(digits, ADigit); }
  }

  const HEX_DIGITS := "0123456789abcdef"
  const UPPER_HEX_DIGITS := "0123456789ABCDEF"

  /** The hex digits and their values, in either case. */
  lemma HexDigitTable(c: char)
    ensures forall d :: 0 <= d < 16 ==> HexDigit(d) == HEX_DIGITS[d] &&
                                        Digit(HEX_DIGITS[d]) == d && Digit(UPPER_HEX_DIGITS[d]) == d
    ensures Digit(c) < 16 <==> c in HEX_DIGITS || c in UPPER_HEX_DIGITS
  {
    if Digit(c) < 16 { assert c == HEX_DIGITS[Digit(c)] || c == UPPER_HEX_DIGITS[Digit(c)]; }
  }

  /** Quantities are written in lower case and without leading zeros. */
  lemma {:induction false} HexIsCanonical(n: nat)
    ensures forall i :: 0 <= i < |HexDigits(n)| ==> HexDigits(n)[i] in HEX_DIGITS
    ensures HexDigits(n) != "" && (HexDigits(n)[0] == '0' <==> n == 0) && (n == 0 ==> HexDigits(n) == "0")
  {
    HexDigitTable('0');
    assert HEX_DIGITS[n % 16] in HEX_DIGITS;
    if n >= 16 { HexIsCanonical(n / 16); }
  }

  lemma PlainExact(digits: string, base: nat, v: nat)
    requires 2 <= base <= 36 && '_' !in digits
    ensures ParseDigits(digits, base, 0) == Ok(v) <==> AllDigits(digits, base) && Value(digits, base, 0) == v < TWO_64
  {
    if ParseDigits(digits, base, 0).Ok? { ParseDigitsRejects(digits, base, 0); }
    if AllDigits(digits, base) { ParseDigitsExact(digits, base, 0); }
  }

  lemma NoUnderscores(s: string)
    requires s != "" && '_' !in s
    ensures ParseUint(s) == ParsePrefixed(s)
  {
  }

  lemma BinaryExact(digits: string, v: nat)
    requires digits != "" && '_' !in digits
    ensures ParseUint("0b" + digits) == Ok(v) <==> AllDigits(digits, 2) && Value(digits, 2, 0) == v < TWO_64
  {
    var s := "0b" + digits;
    NoUnderscores(s);
    PlainExact(digits, 2, v);
    assert s[1] == 'b' && s[2..] == digits;
  }

  lemma OctalExact(digits: string, v: nat)
    requires digits != "" && '_' !in digits
    ensures ParseUint("0o" + digits) == Ok(v) <==> AllDigits(digits, 8) && Value(digits, 8, 0) == v < TWO_64
  {
    var s := "0o" + digits;
    NoUnderscores(s);
    PlainExact(digits, 8, v);
    assert s[1] == 'o' && s[2..] == digits;
  }

  lemma LeadingZeroExact(digits: string, v: nat)
    requires digits != "" && '_' !in digits && '0' <= digits[0] <= '9'
    ensures ParseUint("0" + digits) == Ok(v) <==> AllDigits(digits, 8) && Value(digits, 8, 0) == v < TWO_64
  {
    var s := "0" + digits;
    NoUnderscores(s);
    assert s[1] == digits[0] && s[1..] == digits;
    assert ParsePrefixed(s) == ParseDigits(digits, 8, 0);
    PlainExact(digits, 8, v);
  }

  /** Without a prefix or a leading zero, the base is ten. */
  lemma DecimalExact(digits: string, v: nat)
    requires digits != "" && '_' !in digits && digits[0] != '0'
    ensures ParseUint(digits) == Ok(v) <==> AllDigits(digits, 10) && Value(digits, 10, 0) == v < TWO_64
  {
    NoUnderscores(digits);
    PlainExact(digits, 10, v);
  }

  /** Different quantities are written differently. */
  lemma HexIsInjective(a: nat, b: nat)
    requires Hex(a) == Hex(b)
    ensures a == b
  {
    HexDigitsValue(a);
    HexDigitsValue(b);
    assert HexDigits(a) == Hex(a)[2..] && HexDigits(b) == Hex(b)[2..];
  }
}
