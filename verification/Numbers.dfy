/** Decimal output of integers, and the `std::stoi` reader the decoder, the history commands
    and the password check depend on. */
module Numbers {

  type Int32 = n: int | -0x8000_0000 <= n < 0x8000_0000

  datatype Option<+T> = None | Some(value: T)

  // ------------------------------------------------------------------ writing

  function DigitChar(d: int): char
    requires 0 <= d < 10
  {
    ('0' as int + d) as char
  }

  function NatToString(n: nat): (s: string)
    ensures |s| >= 1
    ensures forall i :: 0 <= i < |s| ==> '0' <= s[i] <= '9'
  {
    if n < 10 then [DigitChar(n)] else NatToString(n / 10) + [DigitChar(n % 10)]
  }

  function IntToString(n: int): string {
    if n < 0 then "-" + NatToString(-n) else NatToString(n)
  }

  // ------------------------------------------------------------------ reading

  predicate IsSpace(c: char) {
    c == ' ' || c == '\t' || c == '\n' || c == '\r' || c == '\U{b}' || c == '\U{c}'
  }

  function SkipSpace(s: string): (r: string)
    ensures |r| <= |s| && r == s[|s| - |r|..]
    ensures r != "" ==> !IsSpace(r[0])
    ensures forall i :: 0 <= i < |s| - |r| ==> IsSpace(s[i])
  {
    if s != "" && IsSpace(s[0]) then SkipSpace(s[1..]) else s
  }

  function DigitValue(c: char): int {
    if '0' <= c <= '9' then c as int - '0' as int
    else if 'a' <= c <= 'f' then c as int - 'a' as int + 10
    else if 'A' <= c <= 'F' then c as int - 'A' as int + 10
    else 99
  }

  /** The longest prefix made of digits below `base`. */
  function Digits(s: string, base: int): (r: string)
    ensures r <= s
    ensures forall i :: 0 <= i < |r| ==> DigitValue(r[i]) < base
    ensures |r| < |s| ==> DigitValue(s[|r|]) >= base
  {
    if s == "" || DigitValue(s[0]) >= base then "" else [s[0]] + Digits(s[1..], base)
  }

  function Value(digits: string, base: int): int {
    if digits == "" then 0
    else
      var high, low := Value(digits[..|digits| - 1], base), DigitValue(digits[|digits| - 1]);
      if base == 16 then 16 * high + low else 10 * high + low
  }

  function StripHexPrefix(s: string): string {
    if |s| >= 3 && s[0] == '0' && (s[1] == 'x' || s[1] == 'X') && DigitValue(s[2]) < 16 then s[2..] else s
  }

  /** The digits behind the sign: none at all and a value outside 32 bits are the two
      exceptions of the library function. */
  function Magnitude(s: string, negative: bool, base: int): Option<Int32> {
    var digits := Digits(if base == 16 then StripHexPrefix(s) else s, base);
    var v := if negative then -Value(digits, base) else Value(digits, base);
    if digits == "" || !(-0x8000_0000 <= v < 0x8000_0000) then None else Some(v)
  }

  /** `std::stoi(s, nullptr, base)`: leading space and one sign are skipped, and text behind
      the digits is ignored. */
  function Stoi(s: string, base: int): Option<Int32> {
    var body := SkipSpace(s);
    if body != "" && body[0] == '-' then Magnitude(body[1..], true, base)
    else if body != "" && body[0] == '+' then Magnitude(body[1..], false, base)
    else Magnitude(body, false, base)
  }

  // ------------------------------------------------------------------ round trip

  lemma {:induction false} ValueOfNat(n: nat)
    ensures Value(NatToString(n), 10) == n
  {
    if n >= 10 {
      ValueOfNat(n / 10);
      var s := NatToString(n);
      assert s[..|s| - 1] == NatToString(n / 10);
    } else {
      var s := NatToString(n);
      assert s[..|s| - 1] == "";
    }
  }

  lemma {:induction false} DigitsAll(s: string, base: int)
    requires forall i :: 0 <= i < |s| ==> DigitValue(s[i]) < base
    ensures Digits(s, base) == s
  {
    if s != "" {
      DigitsAll(s[1..], base);
    }
  }

  lemma PrintedDigits(n: nat)
    ensures Digits(NatToString(n), 10) == NatToString(n)
  {
    hide NatToString, Digits;
    DigitsAll(NatToString(n), 10);
  }

  lemma PrintedBody(n: nat)
    ensures var s := NatToString(n); s != "" && s[0] != '-' && s[0] != '+' && SkipSpace(s) == s
  {
    hide NatToString, SkipSpace;
    NoLeadingSpace(NatToString(n));
  }

  lemma NoLeadingSpace(s: string)
    requires s == "" || !IsSpace(s[0])
    ensures SkipSpace(s) == s
  {
  }

  /** Reading back a printed 32-bit integer gives the integer. */
  lemma StoiOfPrinted(n: Int32)
    ensures Stoi(IntToString(n), 10) == Some(n)
  {
    hide NatToString, SkipSpace, Magnitude;
    var v: int := n;
    if v < 0 {
      var s := "-" + NatToString(-v);
      NoLeadingSpace(s);
      assert s[1..] == NatToString(-v);
      MagnitudeOfPrinted(-v, true);
    } else {
      var s := NatToString(v);
      assert '0' <= s[0] <= '9';
      NoLeadingSpace(s);
      MagnitudeOfPrinted(v, false);
    }
  }

  lemma MagnitudeOfPrinted(m: nat, negative: bool)
    requires m < 0x8000_0000 || (negative && m == 0x8000_0000)
    ensures Magnitude(NatToString(m), negative, 10) == Some(if negative then -(m as int) else m)
  {
    hide NatToString, Value, Digits;
    ValueOfNat(m);
    PrintedDigits(m);
  }

  lemma NatToStringInjective(m: nat, n: nat)
    requires NatToString(m) == NatToString(n)
    ensures m == n
  {
    ValueOfNat(m);
    ValueOfNat(n);
  }

  lemma PrintedChars(n: int)
    ensures forall i :: 0 <= i < |IntToString(n)| ==> IntToString(n)[i] == '-' || '0' <= IntToString(n)[i] <= '9'
  {
  }

  // ------------------------------------------------------------------ numbers in a text

  lemma {:induction false} DigitsThen(s: string, more: string, base: int)
    requires forall i :: 0 <= i < |s| ==> DigitValue(s[i]) < base
    requires more == "" || DigitValue(more[0]) >= base
    ensures Digits(s + more, base) == s
  {
    hide DigitValue;
    if s == "" {
      assert s + more == more;
    } else {
      assert (s + more)[1..] == s[1..] + more;
      DigitsThen(s[1..], more, base);
    }
  }

  lemma MagnitudeThen(m: nat, negative: bool, more: string)
    requires more == "" || DigitValue(more[0]) >= 10
    ensures var v: int := if negative then -(m as int) else m;
      Magnitude(NatToString(m) + more, negative, 10) == if -0x8000_0000 <= v < 0x8000_0000 then Some(v) else None
  {
    hide NatToString, Value, Digits;
    ValueOfNat(m);
    DigitsThen(NatToString(m), more, 10);
  }

  /** A decimal number is read as it is, whatever follows that is no digit, if it fits into 32 bits, and not
      at all otherwise. */
  lemma StoiOfNumber(v: int, more: string)
    requires more == "" || DigitValue(more[0]) >= 10
    ensures Stoi(IntToString(v) + more, 10) == if -0x8000_0000 <= v < 0x8000_0000 then Some(v) else None
  {
    hide NatToString, Stoi, Magnitude, DigitValue;
    if v < 0 {
      var digits := NatToString(-v) + more;
      assert IntToString(v) + more == "-" + digits;
      StoiSigns(digits);
      MagnitudeThen(-v, true, more);
    } else {
      StoiSigns(NatToString(v) + more);
      MagnitudeThen(v, false, more);
    }
  }

  lemma StoiSigns(s: string)
    ensures Stoi("-" + s, 10) == Magnitude(s, true, 10)
    ensures s != "" && '0' <= s[0] <= '9' ==> Stoi(s, 10) == Magnitude(s, false, 10)
  {
    hide Magnitude, SkipSpace;
    NoLeadingSpace("-" + s);
    assert ("-" + s)[1..] == s;
    if s != "" && '0' <= s[0] <= '9' {
      NoLeadingSpace(s);
    }
  }

  /** The text does not start with white space, a sign or a digit. */
  predicate NoNumber(s: string) {
    s == "" || (!IsSpace(s[0]) && s[0] != '-' && s[0] != '+' && DigitValue(s[0]) >= 10)
  }

  /** Such a text is not read. */
  lemma StoiOfOther(s: string)
    requires NoNumber(s)
    ensures Stoi(s, 10) == None
  {
    NoLeadingSpace(s);
  }
}
