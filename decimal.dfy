/** Base-10 integers as text: `strconv.Atoi`, which NewRecord uses for its
    numeric fields, and the `%d` verb, which Calendar.Print uses for the
    infected count. Go's `int` is 64 bits wide here. */
module Decimal {
  import opened Results

  const MinInt64: int := -0x8000_0000_0000_0000
  const MaxInt64: int := 0x7fff_ffff_ffff_ffff

  predicate IsInt64(n: int) {
    MinInt64 <= n <= MaxInt64
  }

  predicate IsDigit(c: char) {
    '0' <= c <= '9'
  }

  predicate AllDigits(s: string) {
    forall i :: 0 <= i < |s| ==> IsDigit(s[i])
  }

  function DigitValue(c: char): nat
    requires IsDigit(c)
  {
    c as int - '0' as int
  }

  function DigitChar(d: nat): (c: char)
    requires d < 10
    ensures IsDigit(c) && DigitValue(c) == d
  {
    ('0' as int + d) as char
  }

  /** The value of a digit string read left to right, `n = n*10 + d`. */
  function DigitsValue(s: string): nat
    requires AllDigits(s)
  {
    if s == [] then 0
    else DigitsValue(s[..|s| - 1]) * 10 + DigitValue(s[|s| - 1])
  }

  /** The error `strconv.Atoi` returns; it carries the rejected text. Go
      also says whether it was a syntax or a range error; that is not kept. */
  datatype NumError = NumError(num: string)

  /** Split an optional leading sign off `s`: whether it was '-', and the rest. */
  function SplitSign(s: string): (r: (bool, string))
    ensures if |s| > 0 && (s[0] == '+' || s[0] == '-')
            then r == (s[0] == '-', s[1..]) else r == (false, s)
  {
    if |s| > 0 && (s[0] == '+' || s[0] == '-') then (s[0] == '-', s[1..]) else (false, s)
  }

  /** `strconv.Atoi(s)`: an optional '+' or '-', then one or more ASCII
      digits and nothing else, whose value fits in 64 bits. */
  function Atoi(s: string): (r: Result<int, NumError>)
    ensures r.Ok? ==> IsInt64(r.value)
    ensures r.Err? ==> r.error == NumError(s)
    ensures r.Ok? ==> s != [] && IsDigit(s[|s| - 1])
  {
    var (negative, digits) := SplitSign(s);
    if digits == [] || !AllDigits(digits) then Err(NumError(s))
    else
      var n: int := if negative then -(DigitsValue(digits) as int) else DigitsValue(digits);
      if IsInt64(n) then Ok(n) else Err(NumError(s))
  }

  /** The decimal digits of a natural number, most significant first, with
      no leading zeros. */
  function Digits(n: nat): (s: string)
    ensures s != [] && AllDigits(s)
    ensures s[0] == '0' ==> n == 0
    decreases n
  {
    if n < 10 then [DigitChar(n)] else Digits(n / 10) + [DigitChar(n % 10)]
  }

  /** `fmt.Sprintf("%d", n)` for an `int`: a '-' for negative numbers, then
      the digits of the magnitude. */
  function Itoa(n: int): (s: string)
    ensures s != []
    ensures n >= 0 <==> IsDigit(s[0])
    // The canonical form: no leading zero, except for zero itself.
    ensures s[0] == '0' ==> n == 0
    ensures n == 0 ==> s == "0"
    ensures n < 0 ==> |s| >= 2 && IsDigit(s[1]) && s[1] != '0'
  {
    if n < 0 then "-" + Digits(-n) else Digits(n)
  }

  lemma {:induction false} DigitsValueOfDigits(n: nat)
    ensures DigitsValue(Digits(n)) == n
    decreases n
  {
    var s := Digits(n);
    if n >= 10 {
      DigitsValueOfDigits(n / 10);
      assert s[..|s| - 1] == Digits(n / 10);
    }
  }

  /** A digit string with no sign reads as its value. */
  lemma AtoiUnsigned(s: string)
    requires s != [] && AllDigits(s) && IsInt64(DigitsValue(s))
    ensures Atoi(s) == Ok(DigitsValue(s))
  {
    assert SplitSign(s) == (false, s);
  }

  /** Any unsigned digit string, leading zeros included, is accepted
      exactly when its value fits in 64 bits, and then reads as that value. */
  lemma AtoiDigits(s: string)
    requires s != [] && AllDigits(s)
    ensures Atoi(s).Ok? <==> IsInt64(DigitsValue(s))
    ensures Atoi(s).Ok? ==> Atoi(s).value == DigitsValue(s)
  {
    assert SplitSign(s) == (false, s);
  }

  /** A '-' followed by a digit string reads as the negated value. */
  lemma AtoiNegative(s: string)
    requires s != [] && AllDigits(s) && IsInt64(-(DigitsValue(s) as int))
    ensures Atoi("-" + s) == Ok(-(DigitsValue(s) as int))
  {
    assert SplitSign("-" + s) == (true, s);
  }

  /** Reading back what `%d` printed gives the number again, for every
      number `Atoi` can produce. */
  lemma AtoiItoa(n: int)
    requires IsInt64(n)
    ensures Atoi(Itoa(n)) == Ok(n)
  {
    if n < 0 {
      DigitsValueOfDigits(-n);
      AtoiNegative(Digits(-n));
    } else {
      DigitsValueOfDigits(n);
      AtoiUnsigned(Digits(n));
    }
  }

  /** `Atoi` accepts a sign only in front, and nothing but digits after it. */
  lemma AtoiAcceptsOnlyDecimal(s: string)
    requires Atoi(s).Ok?
    ensures IsDigit(s[0]) || (|s| >= 2 && (s[0] == '+' || s[0] == '-'))
    ensures forall i :: 0 < i < |s| ==> IsDigit(s[i])
  {
    var (negative, digits) := SplitSign(s);
    if |s| > 0 && (s[0] == '+' || s[0] == '-') {
      forall i | 0 < i < |s| ensures IsDigit(s[i]) {
        assert s[i] == digits[i - 1];
      }
    }
  }

  /** A '+' in front of a digit string changes nothing: the same strings
      are accepted, with the same values. */
  lemma AtoiPlus(s: string)
    requires AllDigits(s)
    ensures Atoi("+" + s).Ok? <==> Atoi(s).Ok?
    ensures Atoi(s).Ok? ==> Atoi("+" + s) == Atoi(s)
  {
    assert SplitSign("+" + s) == (false, s);
    if s != [] {
      assert SplitSign(s) == (false, s);
    }
  }

  /** A sign alone, or a sign in any place but the front, is rejected. */
  lemma AtoiRejects()
    ensures Atoi("").Err? && Atoi("+").Err? && Atoi("-").Err?
    ensures Atoi("+-1").Err? && Atoi("1-").Err? && Atoi("abc").Err? && Atoi(" 1").Err?
  {
    assert !IsDigit("-1"[0]);
    assert !IsDigit("1-"[1]);
    assert !IsDigit("abc"[0]);
    assert !IsDigit(" 1"[0]);
  }

  /** Plain and negative numbers as `%d` prints them. */
  lemma AtoiExamples()
    ensures Atoi("2020") == Ok(2020)
    ensures Atoi("-3") == Ok(-3)
  {
    assert Itoa(2020) == "2020";
    AtoiItoa(2020);
    assert Itoa(-3) == "-3";
    AtoiItoa(-3);
  }

  /** The small numbers the example rows use. */
  lemma AtoiSmall()
    ensures Atoi("1") == Ok(1) && Atoi("3") == Ok(3) && Atoi("5") == Ok(5)
    ensures Atoi("10") == Ok(10) && Atoi("15") == Ok(15)
  {
    assert Itoa(1) == "1" && Itoa(3) == "3" && Itoa(5) == "5" && Itoa(10) == "10" && Itoa(15) == "15";
    AtoiItoa(1);
    AtoiItoa(3);
    AtoiItoa(5);
    AtoiItoa(10);
    AtoiItoa(15);
  }

  /** Leading zeros and a '+' sign are accepted too, and "-0" is zero. */
  lemma AtoiLenient()
    ensures Atoi("007") == Ok(7)
    ensures Atoi("+15") == Ok(15)
    ensures Atoi("-0") == Ok(0)
  {
    assert DigitsValue("007") == 7 by {
      assert "007"[..2] == "00" && "00"[..1] == "0";
    }
    assert DigitsValue("15") == 15 by {
      assert "15"[..1] == "1";
    }
    assert SplitSign("+15") == (false, "15");
    assert SplitSign("-0") == (true, "0");
  }

  /** The `%d` text of a number reads back exactly when the number fits
      in 64 bits: one beyond either end is a range error. */
  lemma AtoiItoaRange(n: int)
    ensures Atoi(Itoa(n)).Ok? <==> IsInt64(n)
  {
    if IsInt64(n) {
      AtoiItoa(n);
    } else if n < 0 {
      DigitsValueOfDigits(-n);
      assert SplitSign(Itoa(n)) == (true, Digits(-n));
    } else {
      DigitsValueOfDigits(n);
      assert SplitSign(Itoa(n)) == (false, Digits(n));
    }
  }
}
