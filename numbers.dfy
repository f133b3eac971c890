/** `int.TryParse(s, out n)` with the default `NumberStyles.Integer`: optional
    leading and trailing white space (TAB to CR and SPACE), an optional sign, one or
    more ASCII digits, and a value inside the Int32 range. Also the decimal
    rendering of a non-negative integer, the inverse of the digit reader. */
module NumberText {
  import opened Wrappers

  const Int32Min: int := -0x8000_0000
  const Int32Max: int := 0x7FFF_FFFF

  predicate IsDigit(c: char) { '0' <= c <= '9' }

  function DigitValue(c: char): (d: nat)
    requires IsDigit(c)
    ensures d < 10
  {
    c as int - '0' as int
  }

  function DigitChar(d: nat): (c: char)
    requires d < 10
    ensures IsDigit(c) && DigitValue(c) == d
  {
    ('0' as int + d) as char
  }

  predicate AllDigits(s: string)
  {
    forall i :: 0 <= i < |s| ==> IsDigit(s[i])
  }

  /** The value of a string of decimal digits, most significant first. */
  function DigitsValue(s: string): (n: nat)
    requires AllDigits(s)
  {
    if s == [] then 0 else DigitsValue(s[..|s| - 1]) * 10 + DigitValue(s[|s| - 1])
  }

  /** White space as `NumberStyles.AllowLeadingWhite` / `AllowTrailingWhite` accept it. */
  predicate IsNumberWhite(c: char) { c == ' ' || '\t' <= c <= '\r' }

  /** `s` without its leading number white space: a suffix of `s`. */
  function TrimStartWhite(s: string): (r: string)
    ensures |r| <= |s| && r == s[|s| - |r|..]
    ensures r == [] || !IsNumberWhite(r[0])
  {
    if s != [] && IsNumberWhite(s[0]) then TrimStartWhite(s[1..]) else s
  }

  /** `s` without its trailing number white space: a prefix of `s`. */
  function TrimEndWhite(s: string): (r: string)
    ensures |r| <= |s| && r == s[..|r|]
    ensures r == [] || !IsNumberWhite(r[|r| - 1])
  {
    if s != [] && IsNumberWhite(s[|s| - 1]) then TrimEndWhite(s[..|s| - 1]) else s
  }

  /** The value an optionally signed digit string denotes, if it is one. */
  function SignedValue(t: string): Option<int>
  {
    if |t| >= 2 && (t[0] == '-' || t[0] == '+') && AllDigits(t[1..]) then
      var v: int := DigitsValue(t[1..]);
      Some(if t[0] == '-' then -v else v)
    else if t != [] && AllDigits(t) then Some(DigitsValue(t))
    else None
  }

  /** `int.TryParse`: `Some(n)` when it returns true with `n`, `None` otherwise. */
  function TryParseInt32(s: string): (r: Option<int>)
    ensures r.Some? ==> Int32Min <= r.value <= Int32Max
  {
    match SignedValue(TrimEndWhite(TrimStartWhite(s)))
    case Some(n) => if Int32Min <= n <= Int32Max then Some(n) else None
    case None => None
  }

  /** A string that parses holds at least one digit, so it is not empty and not
      all white space. */
  lemma {:induction false} ParsedHasDigit(s: string)
    requires TryParseInt32(s).Some?
    ensures exists i :: 0 <= i < |s| && IsDigit(s[i])
  {
    var u := TrimStartWhite(s);
    var t := TrimEndWhite(u);
    assert t != [];
    var k := |t| - 1;
    assert IsDigit(t[k]);
    assert u[k] == t[k];
    assert s[|s| - |u| + k] == u[k];
  }

  /** Decimal rendering without leading zeros, as `n.ToString()`. */
  function DecimalString(n: nat): (s: string)
    ensures s != [] && AllDigits(s)
  {
    if n < 10 then [DigitChar(n)] else DecimalString(n / 10) + [DigitChar(n % 10)]
  }

  lemma {:induction false} DigitsValueOfDecimal(n: nat)
    ensures DigitsValue(DecimalString(n)) == n
  {
    if n >= 10 {
      DigitsValueOfDecimal(n / 10);
      var s := DecimalString(n);
      assert s[..|s| - 1] == DecimalString(n / 10);
    }
  }

  /** Round trip: every Int32 value from 0 up is read back from its rendering. */
  lemma ParseDecimalString(n: nat)
    requires n <= Int32Max
    ensures TryParseInt32(DecimalString(n)) == Some(n)
  {
    DigitsValueOfDecimal(n);
    ParseDigits(DecimalString(n));
  }

  /** A non-empty digit string within range reads as its value. */
  lemma ParseDigits(s: string)
    requires s != [] && AllDigits(s) && DigitsValue(s) <= Int32Max
    ensures TryParseInt32(s) == Some(DigitsValue(s))
  {
    assert !IsNumberWhite(s[0]) && !IsNumberWhite(s[|s| - 1]);
    assert TrimStartWhite(s) == s;
    assert TrimEndWhite(s) == s;
    assert IsDigit(s[0]) && s[0] != '-' && s[0] != '+';
    assert SignedValue(s) == Some(DigitsValue(s));
  }

  /** Leading zeros do not change the value a digit string denotes. */
  lemma {:induction false} LeadingZeros(k: nat, s: string)
    requires AllDigits(s)
    ensures AllDigits(Zeros(k) + s) && DigitsValue(Zeros(k) + s) == DigitsValue(s)
  {
    if s == [] {
      ZerosValue(k);
      assert Zeros(k) + s == Zeros(k);
    } else {
      var t := Zeros(k) + s;
      assert t[..|t| - 1] == Zeros(k) + s[..|s| - 1];
      LeadingZeros(k, s[..|s| - 1]);
    }
  }

  function Zeros(k: nat): (r: string)
    ensures |r| == k && AllDigits(r)
  {
    if k == 0 then [] else Zeros(k - 1) + ['0']
  }

  lemma {:induction false} ZerosValue(k: nat)
    ensures DigitsValue(Zeros(k)) == 0
  {
    if k > 0 {
      ZerosValue(k - 1);
    }
  }
}
