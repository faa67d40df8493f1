/** Go's `strconv.Atoi` on a 64-bit platform, its inverse `strconv.Itoa`, and
    `StringToUint` (utils/helper.go), which casts the parsed value to `uint`. */
module Decimal {
  import opened Wrappers

  const IntMin: int := -0x8000_0000_0000_0000
  const IntMax: int := 0x7fff_ffff_ffff_ffff
  const UintModulus: int := 0x1_0000_0000_0000_0000

  predicate IsDigit(c: char) { '0' <= c <= '9' }

  predicate AllDigits(s: string) { forall i :: 0 <= i < |s| ==> IsDigit(s[i]) }

  /** The number a non-empty run of decimal digits denotes (leading zeros allowed). */
  function DigitsValue(s: string): nat
    requires AllDigits(s)
    decreases |s|
  {
    if |s| == 0 then 0
    else DigitsValue(s[..|s| - 1]) * 10 + (s[|s| - 1] as int - '0' as int)
  }

  /** The canonical decimal digits of a natural number, without leading zeros. */
  function Digits(n: nat): (s: string)
    ensures |s| >= 1 && AllDigits(s)
    ensures |s| > 1 ==> s[0] != '0'
    decreases n
  {
    if n < 10 then [('0' as int + n) as char]
    else Digits(n / 10) + [('0' as int + n % 10) as char]
  }

  /** `strconv.Itoa`: an optional minus sign followed by the digits. */
  function FormatInt(n: int): (s: string)
    ensures |s| >= 1
    ensures n < 0 <==> s[0] == '-'
    ensures forall i :: 0 <= i < |s| ==> IsDigit(s[i]) || (i == 0 && s[i] == '-')
  {
    if n < 0 then "-" + Digits(-n) else Digits(n)
  }

  /** `strconv.Atoi`: an optional '+' or '-', then at least one decimal digit and
      nothing else, denoting a value inside the 64-bit `int` range. Every other
      string (empty, a lone sign, any other byte, out of range) is an error. */
  function Atoi(s: string): (r: Option<int>)
    ensures r.Some? ==> IntMin <= r.value <= IntMax
    ensures r.Some? ==> |s| >= 1 && (IsDigit(s[0]) || ((s[0] == '+' || s[0] == '-') && |s| >= 2))
    ensures r.Some? ==> forall i :: 1 <= i < |s| ==> IsDigit(s[i])
    ensures r.Some? && r.value < 0 ==> s[0] == '-'
    ensures |s| >= 1 && !IsDigit(s[0]) && s[0] != '+' && s[0] != '-' ==> r.None?
  {
    if |s| == 0 then None
    else
      var digits := if s[0] == '-' || s[0] == '+' then s[1..] else s;
      if |digits| == 0 || !AllDigits(digits) then None
      else
        var v: int := if s[0] == '-' then -(DigitsValue(digits) as int) else DigitsValue(digits);
        if IntMin <= v <= IntMax then Some(v) else None
  }

  /** `StringToUint`: whatever Atoi rejects becomes 0; an accepted value is
      converted with Go's `uint(...)`, which wraps negative values modulo 2^64. */
  function StringToUint(s: string): (r: nat)
    ensures r < UintModulus
    ensures Atoi(s).None? ==> r == 0
    ensures Atoi(s).Some? && Atoi(s).value >= 0 ==> r == Atoi(s).value
    ensures Atoi(s).Some? && Atoi(s).value < 0 ==> r == Atoi(s).value + UintModulus
  {
    match Atoi(s)
    case None => 0
    case Some(v) => v % UintModulus
  }

  /** The digit string of n denotes n. */
  lemma {:induction false} DigitsValueOfDigits(n: nat)
    ensures DigitsValue(Digits(n)) == n
    decreases n
  {
    if n >= 10 {
      DigitsValueOfDigits(n / 10);
      var s := Digits(n);
      assert s[..|s| - 1] == Digits(n / 10);
    }
  }

  /** Round trip: Atoi reads back exactly what Itoa wrote, for every value in
      the `int` range. */
  lemma AtoiFormatInt(n: int)
    requires IntMin <= n <= IntMax
    ensures Atoi(FormatInt(n)) == Some(n)
  {
    if n < 0 {
      DigitsValueOfDigits(-n);
      assert FormatInt(n)[1..] == Digits(-n);
    } else {
      DigitsValueOfDigits(n);
    }
  }

  /** StringToUint of the decimal form of any n in 0..IntMax is n itself. */
  lemma StringToUintOfDecimal(n: nat)
    requires n <= IntMax
    ensures StringToUint(FormatInt(n)) == n
  {
    AtoiFormatInt(n);
  }

  /** A negative number is not mapped to 0: "-1" becomes the largest `uint`. */
  lemma StringToUintWrapsNegative()
    ensures StringToUint("-1") == UintModulus - 1
  {
    AtoiFormatInt(-1);
    assert FormatInt(-1) == "-1";
  }

  /** "0" and input Atoi rejects both give 0: the result cannot tell them apart. */
  lemma StringToUintZeroIsAmbiguous(s: string)
    requires Atoi(s).None?
    ensures StringToUint(s) == StringToUint("0") == 0
  {
    AtoiFormatInt(0);
    assert FormatInt(0) == "0";
  }
}
