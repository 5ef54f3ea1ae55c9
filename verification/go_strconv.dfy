/** Decimal conversions of Go's `strconv` package and the 64-bit `int`
    arithmetic they live in (the source targets 64-bit platforms). */
module GoStrconv {
  import opened Results
  import opened GoStrings

  const MinInt64: int := -0x8000_0000_0000_0000
  const MaxInt64: int := 0x7FFF_FFFF_FFFF_FFFF
  const TwoTo64: int := 0x1_0000_0000_0000_0000

  predicate InInt64(n: int) {
    MinInt64 <= n <= MaxInt64
  }

  /** Two's-complement wrap-around of a Go `int64` operation. */
  function Wrap64(x: int): (r: int)
    ensures InInt64(r)
    ensures (x - r) % TwoTo64 == 0
    ensures InInt64(x) ==> r == x
  {
    (x - MinInt64) % TwoTo64 + MinInt64
  }

  predicate IsDigit(c: char) {
    '0' <= c <= '9'
  }

  predicate AllDigits(u: string) {
    forall i :: 0 <= i < |u| ==> IsDigit(u[i])
  }

  function DigitValue(c: char): nat
    requires IsDigit(c)
  {
    c as int - '0' as int
  }

  function DigitChar(d: nat): (c: char)
    requires d < 10
    ensures IsDigit(c) && DigitValue(c) == d
  {
    ('0' as int + d) as char
  }

  /** The value of a string of decimal digits, most significant first. */
  function DigitsValue(u: string): nat
    requires AllDigits(u)
    decreases |u|
  {
    if |u| == 0 then 0 else DigitsValue(u[..|u| - 1]) * 10 + DigitValue(u[|u| - 1])
  }

  /** A digit string without a superfluous leading zero. */
  predicate NoLeadingZero(u: string) {
    |u| >= 1 && (u[0] != '0' || |u| == 1)
  }

  /** The shortest decimal spelling of `n`. */
  function NatToDigits(n: nat): (u: string)
    ensures AllDigits(u) && NoLeadingZero(u)
    decreases n
  {
    if n < 10 then [DigitChar(n)] else NatToDigits(n / 10) + [DigitChar(n % 10)]
  }

  /** The digits of a numeral after its optional sign. */
  function Magnitude(s: string): string {
    if |s| > 0 && (s[0] == '-' || s[0] == '+') then s[1..] else s
  }

  /** Syntax accepted by `strconv.Atoi` in base 10: an optional sign and at
      least one ASCII digit, nothing else (no underscores, no spaces). */
  predicate IsNumeral(s: string) {
    |Magnitude(s)| >= 1 && AllDigits(Magnitude(s))
  }

  /** The signed value a numeral denotes, before any range check. */
  function NumeralValue(s: string): int
    requires IsNumeral(s)
  {
    var v: int := DigitsValue(Magnitude(s));
    if s[0] == '-' then -v else v
  }

  datatype NumError = ErrSyntax | ErrRange

  /** `strconv.Atoi` with a 64-bit `int`. */
  function Atoi(s: string): (r: Result<int, NumError>)
    ensures r.Success? ==> InInt64(r.value)
    ensures r.Success? <==> IsNumeral(s) && InInt64(NumeralValue(s))
  {
    if !IsNumeral(s) then Failure(ErrSyntax)
    else if !InInt64(NumeralValue(s)) then Failure(ErrRange)
    else Success(NumeralValue(s))
  }

  /** `strconv.Itoa`, also the `%d` verb of `fmt`. */
  function Itoa(n: int): (s: string)
    ensures |s| >= 1
    ensures s[0] == '-' <==> n < 0
    ensures forall i :: 0 < i < |s| ==> IsDigit(s[i])
  {
    if n < 0 then "-" + NatToDigits(-n) else NatToDigits(n)
  }

  /** The spellings `Itoa` produces: no `+`, no leading zero, no `-0`. */
  predicate Canonical(s: string) {
    if |s| > 0 && s[0] == '-' then
      AllDigits(s[1..]) && NoLeadingZero(s[1..]) && s[1] != '0'
    else
      AllDigits(s) && NoLeadingZero(s)
  }

  lemma {:induction false} DigitsOfNat(n: nat)
    ensures DigitsValue(NatToDigits(n)) == n
    decreases n
  {
    if n >= 10 {
      DigitsOfNat(n / 10);
      var u := NatToDigits(n);
      assert u[..|u| - 1] == NatToDigits(n / 10);
    }
  }

  lemma {:induction false} PositiveDigits(u: string)
    requires AllDigits(u) && NoLeadingZero(u) && u[0] != '0'
    ensures DigitsValue(u) >= 1
    decreases |u|
  {
    if |u| > 1 {
      PositiveDigits(u[..|u| - 1]);
    }
  }

  lemma {:induction false} NatOfDigits(u: string)
    requires AllDigits(u) && NoLeadingZero(u)
    ensures NatToDigits(DigitsValue(u)) == u
    decreases |u|
  {
    if |u| > 1 {
      var p := u[..|u| - 1];
      PositiveDigits(p);
      NatOfDigits(p);
      assert u == p + [u[|u| - 1]];
    }
  }

  /** `Atoi` reads back every value `Itoa` writes. */
  lemma AtoiItoa(n: int)
    requires InInt64(n)
    ensures Atoi(Itoa(n)) == Success(n)
  {
    var s := Itoa(n);
    if n < 0 {
      DigitsOfNat(-n);
      assert Magnitude(s) == NatToDigits(-n);
    } else {
      DigitsOfNat(n);
      assert Magnitude(s) == NatToDigits(n);
    }
  }

  /** `Itoa` never writes white space, so trimming its output is a no-op. */
  lemma ItoaTrimmed(n: int)
    ensures TrimSpace(Itoa(n)) == Itoa(n)
  {
    var s := Itoa(n);
    assert !IsSpace(s[0]) && !IsSpace(s[|s| - 1]);
  }

  /** A numeral survives the `Itoa(Atoi(s)) == s` round trip exactly when it
      is in range and spelled canonically. */
  lemma StrictRoundTrip(s: string)
    ensures (Atoi(s).Success? && Itoa(Atoi(s).value) == s) <==> (Canonical(s) && Atoi(s).Success?)
  {
    if Atoi(s).Success? {
      var n := Atoi(s).value;
      var m := Magnitude(s);
      if Itoa(n) == s {
        if n < 0 {
          assert s[1..] == NatToDigits(-n);
        }
      }
      if Canonical(s) {
        if s[0] == '-' {
          assert m == s[1..];
          PositiveDigits(m);
          NatOfDigits(m);
          assert s == "-" + m;
        } else {
          assert m == s;
          NatOfDigits(m);
        }
      }
    }
  }

  /** Spellings of `strconv.ParseBool` that mean true. */
  predicate TrueSpelling(s: string) {
    s == "1" || s == "t" || s == "T" || s == "TRUE" || s == "true" || s == "True"
  }

  /** Spellings of `strconv.ParseBool` that mean false. */
  predicate FalseSpelling(s: string) {
    s == "0" || s == "f" || s == "F" || s == "FALSE" || s == "false" || s == "False"
  }

  /** `strconv.ParseBool`. */
  function ParseBool(s: string): (r: Result<bool, NumError>)
    ensures r == Success(true) <==> TrueSpelling(s)
    ensures r == Success(false) <==> FalseSpelling(s)
  {
    if TrueSpelling(s) then Success(true)
    else if FalseSpelling(s) then Success(false)
    else Failure(ErrSyntax)
  }
}
