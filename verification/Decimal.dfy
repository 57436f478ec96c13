/** Decimal text, as Go's strconv writes and reads it. */
module Decimal {
  import opened Wrappers

  predicate IsDigit(c: char) { '0' <= c <= '9' }

  function Digit(d: nat): (c: char)
    requires d < 10
    ensures IsDigit(c)
  {
    '0' + d as char
  }

  function Digits(n: nat): string
  {
    if n < 10 then [Digit(n)] else Digits(n / 10) + [Digit(n % 10)]
  }

  /** strconv.Itoa */
  function Itoa(n: int): string
  {
    if n < 0 then "-" + Digits(-n) else Digits(n)
  }

  const MAX_INT64 := 0x7FFF_FFFF_FFFF_FFFF

  predicate AllDigits(s: string) { forall i :: 0 <= i < |s| ==> IsDigit(s[i]) }

  function Value(digits: string): nat
    requires AllDigits(digits)
  {
    if digits == "" then 0
    else 10 * Value(digits[..|digits| - 1]) + (digits[|digits| - 1] as nat - '0' as nat)
  }

  /** strconv.Atoi on a 64-bit platform: an optional sign, at least one digit, no overflow. */
  function Atoi(s: string): Result<int>
  {
    if s == "" then Err("invalid syntax") else
    var negative := s[0] == '-';
    var digits := if s[0] == '-' || s[0] == '+' then s[1..] else s;
    if digits == "" || !AllDigits(digits) then Err("invalid syntax")
    else
      var magnitude: int := Value(digits);
      var n := if negative then -magnitude else magnitude;
      if -MAX_INT64 - 1 <= n <= MAX_INT64 then Ok(n) else Err("value out of range")
  }

  // ----- what is written -----

  /** The numeral of a number, digit by digit; this determines every numeral. */
  lemma ItoaLaw(n: nat, d: nat)
    requires d < 10
    ensures Itoa(d) == ["0123456789"[d]]
    ensures n > 0 ==> Itoa(10 * n + d) == Itoa(n) + ["0123456789"[d]] && Itoa(0 - n) == "-" + Itoa(n)
  {
    var digits := "0123456789";
    assert digits[0] == '0' && digits[1] == '1' && digits[2] == '2' && digits[3] == '3' && digits[4] == '4';
    assert digits[5] == '5' && digits[6] == '6' && digits[7] == '7' && digits[8] == '8' && digits[9] == '9';
    assert digits[d] == Digit(d);
  }

  // ----- what is read -----

  function Zeros(n: nat): string
  {
    seq(n, i => '0')
  }

  lemma {:induction false} DigitsParse(n: nat)
    ensures Digits(n) != "" && AllDigits(Digits(n)) && Value(Digits(n)) == n
  {
    if n >= 10 {
      DigitsParse(n / 10);
      var front := Digits(n / 10);
      assert Digits(n)[..|front|] == front;
    } else {
      assert Digits(n)[..0] == "";
    }
  }

  lemma {:induction false} ZerosParse(k: nat)
    ensures AllDigits(Zeros(k)) && Value(Zeros(k)) == 0
    decreases k
  {
    if k > 0 {
      ZerosParse(k - 1);
      assert Zeros(k)[..k - 1] == Zeros(k - 1);
    }
  }

  lemma {:induction false} PaddedParse(k: nat, n: nat)
    ensures AllDigits(Zeros(k) + Digits(n)) && Value(Zeros(k) + Digits(n)) == n
  {
    DigitsParse(n);
    var padded := Zeros(k) + Digits(n);
    if n >= 10 {
      PaddedParse(k, n / 10);
      assert padded[..|padded| - 1] == Zeros(k) + Digits(n / 10);
    } else {
      ZerosParse(k);
      assert padded[..|padded| - 1] == Zeros(k);
    }
  }

  /** A text of digits is the numeral of its value behind some zeros. */
  lemma {:induction false} Padded(digits: string) returns (k: nat)
    requires digits != "" && AllDigits(digits)
    ensures digits == Zeros(k) + Digits(Value(digits))
    decreases |digits|
  {
    var n := |digits| - 1;
    var front, d := digits[..n], digits[n] as nat - '0' as nat;
    assert digits[n] == Digit(d) && digits == front + [Digit(d)];
    if n == 0 {
      k := 0;
    } else {
      k := Padded(front);
      if Value(front) == 0 {
        assert Zeros(k + 1) == Zeros(k) + "0";
        k := k + 1;
      }
    }
  }

  /** Atoi reads the rest of a text, behind the sign if it has one, as a number of this sign. */
  predicate Signed(s: string, sign: string, rest: string)
  {
    && (sign == "" || sign == "+" || sign == "-") && s == sign + rest
    && rest != "" && AllDigits(rest)
  }

  function WithSign(sign: string, magnitude: nat): int
  {
    if sign == "-" then 0 - magnitude else magnitude
  }

  lemma SignedReads(s: string, sign: string, rest: string)
    requires Signed(s, sign, rest)
    ensures Atoi(s) == if -MAX_INT64 - 1 <= WithSign(sign, Value(rest)) <= MAX_INT64
                       then Ok(WithSign(sign, Value(rest))) else Err("value out of range")
  {
    assert IsDigit(rest[0]);
    assert s[|sign|..] == rest;
  }

  lemma ReadsSigned(s: string) returns (sign: string, rest: string)
    requires Atoi(s).Ok?
    ensures Signed(s, sign, rest) && Atoi(s) == Ok(WithSign(sign, Value(rest)))
  {
    sign, rest := if s[0] == '-' || s[0] == '+' then [s[0]] else "", if s[0] == '-' || s[0] == '+' then s[1..] else s;
    assert s == sign + rest;
  }

  /** The numeral of `n`, with an optional sign and leading zeros. */
  predicate Spells(s: string, sign: string, zeros: nat, n: int)
  {
    && s == sign + Zeros(zeros) + Itoa(if n < 0 then -n else n)
    && ((sign == "-" && n <= 0) || ((sign == "" || sign == "+") && n >= 0))
  }

  lemma Associative(r: string, s: string, t: string)
    ensures r + (s + t) == r + s + t
  {}

  lemma SpelledReads(s: string, sign: string, zeros: nat, n: int)
    requires Spells(s, sign, zeros, n) && -MAX_INT64 - 1 <= n <= MAX_INT64
    ensures Atoi(s) == Ok(n)
  {
    var magnitude: nat := if n < 0 then -n else n;
    var rest := Zeros(zeros) + Digits(magnitude);
    PaddedParse(zeros, magnitude);
    assert rest != "" by {
      DigitsParse(magnitude);
    }
    assert Itoa(magnitude) == Digits(magnitude);
    Associative(sign, Zeros(zeros), Digits(magnitude));
    MagnitudeReads(s, sign, rest, magnitude, n);
  }

  lemma MagnitudeReads(s: string, sign: string, rest: string, magnitude: nat, n: int)
    requires Signed(s, sign, rest) && Value(rest) == magnitude && WithSign(sign, magnitude) == n
    requires -MAX_INT64 - 1 <= n <= MAX_INT64
    ensures Atoi(s) == Ok(n)
  {
    SignedReads(s, sign, rest);
  }

  lemma SignedSpells(s: string, sign: string, zeros: nat, v: nat)
    requires sign == "" || sign == "+" || sign == "-"
    requires s == sign + (Zeros(zeros) + Digits(v))
    ensures Spells(s, sign, zeros, WithSign(sign, v))
  {
    Associative(sign, Zeros(zeros), Digits(v));
    var n := WithSign(sign, v);
    assert Itoa(if n < 0 then -n else n) == Digits(v);
  }

  lemma ReadsSpelled(s: string) returns (sign: string, zeros: nat)
    requires Atoi(s).Ok?
    ensures Spells(s, sign, zeros, Atoi(s).value) && -MAX_INT64 - 1 <= Atoi(s).value <= MAX_INT64
  {
    var rest;
    sign, rest := ReadsSigned(s);
    zeros := Padded(rest);
    SignedSpells(s, sign, zeros, Value(rest));
  }

  /**
   * Exactly which texts are read as a given number: its numeral, behind an optional sign and any number
   * of zeros, if a 64-bit int can hold it. Everything else is refused.
   */
  lemma AtoiAccepts(s: string, n: int)
    ensures Atoi(s) == Ok(n) <==>
      -0x8000_0000_0000_0000 <= n <= 0x7FFF_FFFF_FFFF_FFFF && exists sign, zeros :: Spells(s, sign, zeros, n)
  {
    if Atoi(s) == Ok(n) {
      var sign, zeros := ReadsSpelled(s);
    } else if -0x8000_0000_0000_0000 <= n <= 0x7FFF_FFFF_FFFF_FFFF {
      forall sign, zeros ensures !Spells(s, sign, zeros, n) {
        if Spells(s, sign, zeros, n) {
          SpelledReads(s, sign, zeros, n);
        }
      }
    }
  }

  /** Reading undoes writing, for every number a 64-bit int can hold. */
  lemma AtoiItoa(n: int)
    requires -MAX_INT64 - 1 <= n <= MAX_INT64
    ensures Atoi(Itoa(n)) == Ok(n)
  {
    var sign, magnitude := if n < 0 then "-" else "", if n < 0 then -n else n;
    assert Itoa(n) == sign + Zeros(0) + Itoa(magnitude);
    SpelledReads(Itoa(n), sign, 0, n);
  }
}
