/** Decimal integers: parseIntStrict (IRBuilder.cpp), which reads every point
    literal, and the decimal form the serializer writes for an `int`. */
module Numbers {
  import opened Wrappers

  /** The only way lowering fails: a point literal that is not a whole
      base-10 `int`. */
  datatype NumberError = MalformedNumber(text: string)

  const Int32Min: int := -0x8000_0000
  const Int32Max: int := 0x7FFF_FFFF

  predicate InInt32(n: int) {
    Int32Min <= n <= Int32Max
  }

  predicate IsDigit(c: char) {
    '0' <= c <= '9'
  }

  predicate AllDigits(s: string) {
    forall i :: 0 <= i < |s| ==> IsDigit(s[i])
  }

  /** The characters C's isspace accepts, which std::stoi skips up front. */
  predicate IsSpace(c: char) {
    c == ' ' || c == '\t' || c == '\n' || c == '\U{000B}' || c == '\U{000C}' || c == '\r'
  }

  function DigitValue(c: char): nat
    requires IsDigit(c)
  {
    c as int - '0' as int
  }

  function DigitChar(d: nat): (c: char)
    requires d < 10
    ensures IsDigit(c) && DigitValue(c) == d
  {
    (d + '0' as int) as char
  }

  function DigitsValue(ds: string): nat
    requires AllDigits(ds)
    decreases |ds|
  {
    if |ds| == 0 then 0 else DigitsValue(ds[..|ds| - 1]) * 10 + DigitValue(ds[|ds| - 1])
  }

  function SkipSpaces(s: string): string
    decreases |s|
  {
    if |s| > 0 && IsSpace(s[0]) then SkipSpaces(s[1..]) else s
  }

  /** parseIntStrict: std::stoi in base 10 (leading white space, an optional
      sign, then digits) must consume the whole string and the value must fit
      an `int`; anything else is a MalformedNumber naming the text. */
  function ParseIntStrict(s: string): (r: Result<int, NumberError>)
    ensures r.Success? ==> InInt32(r.value)
    ensures r.Success? ==> |s| > 0 && IsDigit(s[|s| - 1])
    ensures r.Failure? ==> r.error == MalformedNumber(s)
  {
    var t := SkipSpaces(s);
    var signed := |t| > 0 && (t[0] == '-' || t[0] == '+');
    var body := if signed then t[1..] else t;
    if |body| == 0 || !AllDigits(body) then Failure(MalformedNumber(s))
    else
      var v := if signed && t[0] == '-' then -(DigitsValue(body) as int) else DigitsValue(body);
      SkipSpacesSuffix(s);
      if InInt32(v) then Success(v) else Failure(MalformedNumber(s))
  }

  lemma {:induction false} SkipSpacesSuffix(s: string)
    ensures |SkipSpaces(s)| <= |s|
    ensures SkipSpaces(s) == s[|s| - |SkipSpaces(s)|..]
    decreases |s|
  {
    if |s| > 0 && IsSpace(s[0]) {
      SkipSpacesSuffix(s[1..]);
    }
  }

  function NatToString(n: nat): (r: string)
    ensures |r| > 0 && AllDigits(r)
    decreases n
  {
    if n < 10 then [DigitChar(n)] else NatToString(n / 10) + [DigitChar(n % 10)]
  }

  /** What `os << n` writes for an `int`. */
  function IntToString(n: int): string {
    if n < 0 then "-" + NatToString(-n) else NatToString(n)
  }

  lemma {:induction false} NatToStringValue(n: nat)
    ensures DigitsValue(NatToString(n)) == n
    decreases n
  {
    var r := NatToString(n);
    if n >= 10 {
      NatToStringValue(n / 10);
      assert r[..|r| - 1] == NatToString(n / 10);
    }
  }

  /** Reading back what the serializer writes gives the same number, for
      every value an `int` can hold. */
  lemma ParseFormatRoundTrip(n: int)
    requires InInt32(n)
    ensures ParseIntStrict(IntToString(n)) == Success(n)
  {
    var s := IntToString(n);
    if n < 0 {
      NatToStringValue(-n);
      assert s[0] == '-' && s[1..] == NatToString(-n);
    } else {
      NatToStringValue(n);
      assert IsDigit(s[0]);
    }
    assert !IsSpace(s[0]);
    assert SkipSpaces(s) == s;
  }

  /** Any character after the number that is not a digit is rejected: the
      whole literal has to be consumed. */
  lemma TrailingCharacterRejected(s: string, c: char)
    requires !IsDigit(c)
    ensures ParseIntStrict(s + [c]).Failure?
  {
  }

  /** std::stoi's accepted shapes: leading white space and a '+' sign. */
  lemma SignAndSpaceExample()
    ensures ParseIntStrict(" +7") == Success(7)
    ensures ParseIntStrict("-12") == Success(-12)
    ensures ParseIntStrict("").Failure? && ParseIntStrict("-").Failure? && ParseIntStrict("3a").Failure?
  {
    assert SkipSpaces(" +7") == "+7" by {
      assert " +7"[1..] == "+7";
    }
    assert "+7"[1..] == "7";
    assert DigitsValue("7") == 7 by { assert "7"[..0] == ""; }
    assert SkipSpaces("-12") == "-12";
    assert "-12"[1..] == "12";
    assert DigitsValue("12") == 12 by {
      assert "12"[..1] == "1";
      assert "1"[..0] == "";
    }
  }

  // ----- the accepted shape -----

  /** `s` is white space up to `i`, an optional sign from `i` to `j`, and a
      non-empty run of digits from `j` to the end. */
  predicate LiteralAt(s: string, i: int, j: int) {
    && 0 <= i <= j < |s|
    && (forall k :: 0 <= k < i ==> IsSpace(s[k]))
    && (j == i || (j == i + 1 && (s[i] == '-' || s[i] == '+')))
    && AllDigits(s[j..])
  }

  /** The value such a literal denotes. */
  function LiteralValue(s: string, i: int, j: int): int
    requires LiteralAt(s, i, j)
  {
    if j == i + 1 && s[i] == '-' then -(DigitsValue(s[j..]) as int) else DigitsValue(s[j..])
  }

  /** A string starting with white space up to `i` and a non-space at `i`
      has the rest from `i` on left once the white space is skipped. */
  lemma {:induction false} SkipSpacesTo(s: string, i: int)
    requires 0 <= i < |s| && !IsSpace(s[i])
    requires forall k :: 0 <= k < i ==> IsSpace(s[k])
    ensures SkipSpaces(s) == s[i..]
    decreases i
  {
    if i > 0 {
      SkipSpacesTo(s[1..], i - 1);
      assert s[1..][i - 1..] == s[i..];
    }
  }

  /** What SkipSpaces removes is white space. */
  lemma {:induction false} SkippedAreSpaces(s: string)
    ensures forall k :: 0 <= k < |s| - |SkipSpaces(s)| ==> IsSpace(s[k])
    ensures |SkipSpaces(s)| > 0 ==> !IsSpace(SkipSpaces(s)[0])
    decreases |s|
  {
    SkipSpacesSuffix(s);
    if |s| > 0 && IsSpace(s[0]) {
      SkippedAreSpaces(s[1..]);
      forall k | 0 <= k < |s| - |SkipSpaces(s)|
        ensures IsSpace(s[k])
      {
        if k > 0 {
          assert s[k] == s[1..][k - 1];
        }
      }
    }
  }

  /** parseIntStrict accepts exactly white space, an optional sign and at
      least one digit, whole, with a value that fits an `int`; and then the
      value it returns is the one the literal denotes. */
  lemma ParseIntStrictShape(s: string)
    ensures ParseIntStrict(s).Success? <==> exists i, j :: LiteralAt(s, i, j) && InInt32(LiteralValue(s, i, j))
    ensures forall i, j :: LiteralAt(s, i, j) ==>
      ParseIntStrict(s) == (if InInt32(LiteralValue(s, i, j)) then Success(LiteralValue(s, i, j)) else Failure(MalformedNumber(s)))
  {
    forall i, j | LiteralAt(s, i, j)
      ensures ParseIntStrict(s) ==
        (if InInt32(LiteralValue(s, i, j)) then Success(LiteralValue(s, i, j)) else Failure(MalformedNumber(s)))
    {
      assert !IsSpace(s[i]) by {
        if j == i { assert s[j..][0] == s[i]; }
      }
      SkipSpacesTo(s, i);
      if j == i + 1 {
        assert s[i..][1..] == s[j..];
      } else {
        assert IsDigit(s[j..][0]);
      }
    }
    if ParseIntStrict(s).Success? {
      SkipSpacesSuffix(s);
      SkippedAreSpaces(s);
      var i := |s| - |SkipSpaces(s)|;
      var t := SkipSpaces(s);
      assert t == s[i..];
      var signed := |t| > 0 && (t[0] == '-' || t[0] == '+');
      var j := if signed then i + 1 else i;
      assert s[j..] == (if signed then t[1..] else t);
      assert LiteralAt(s, i, j);
    }
  }
}
