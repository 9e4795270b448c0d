/** Password records of the build without OpenSSL: `hex(salt):hex(password ^ salt ^ index)`. */
module Password {
  import opened Text
  import opened Numbers

  // ------------------------------------------------------------------ specification

  /** Bitwise exclusive or. */
  function Xor(a: nat, b: nat): nat {
    if a == 0 && b == 0 then 0
    else (if a % 2 == b % 2 then 0 else 1) + 2 * Xor(a / 2, b / 2)
  }

  /** Bit `n` of a number. */
  function Bit(a: nat, n: nat): (b: nat)
    ensures b == 0 || b == 1
  {
    if n == 0 then a % 2 else Bit(a / 2, n - 1)
  }

  lemma {:induction false} NoBits(n: nat)
    ensures Bit(0, n) == 0
  {
    if n > 0 {
      NoBits(n - 1);
    }
  }

  /** A bit is set exactly when it differs in the two numbers. */
  lemma {:induction false} XorBits(a: nat, b: nat, n: nat)
    ensures Bit(Xor(a, b), n) == 1 <==> Bit(a, n) != Bit(b, n)
    decreases n
  {
    if a == 0 && b == 0 {
      NoBits(n);
    } else if n > 0 {
      assert Xor(a, b) / 2 == Xor(a / 2, b / 2);
      XorBits(a / 2, b / 2, n - 1);
    }
  }

  /** The second time takes the first back. */
  lemma {:induction false} XorTwice(a: nat, b: nat)
    ensures Xor(Xor(a, b), b) == a
  {
    if a != 0 || b != 0 {
      var high := Xor(a / 2, b / 2);
      XorTwice(a / 2, b / 2);
      assert Xor(a, b) / 2 == high && Xor(a, b) % 2 == if a % 2 == b % 2 then 0 else 1;
    }
  }

  function Power2(n: nat): nat {
    if n == 0 then 1 else 2 * Power2(n - 1)
  }

  lemma {:induction false} XorBelow(a: nat, b: nat, n: nat)
    requires a < Power2(n) && b < Power2(n)
    ensures Xor(a, b) < Power2(n)
  {
    if a != 0 || b != 0 {
      XorBelow(a / 2, b / 2, n - 1);
    }
  }

  lemma {:induction false} XorCancels(a: nat, b: nat, k: nat)
    requires Xor(a, k) == Xor(b, k)
    ensures a == b
  {
    if a == 0 && k == 0 {
      if b != 0 {
        XorCancels(0, b / 2, 0);
      }
    } else if b == 0 && k == 0 {
      XorCancels(a / 2, 0, 0);
    } else {
      XorCancels(a / 2, b / 2, k / 2);
    }
  }

  /** Exclusive or of two bytes. */
  function XorByte(a: int, b: int): (x: int)
    requires 0 <= a < 256 && 0 <= b < 256
    ensures 0 <= x < 256
  {
    assert Power2(8) == 256 by {
      assert Power2(0) == 1 && Power2(1) == 2 && Power2(2) == 4 && Power2(3) == 8 && Power2(4) == 16;
      assert Power2(5) == 32 && Power2(6) == 64 && Power2(7) == 128;
    }
    XorBelow(a, b, 8);
    Xor(a, b)
  }

  lemma XorByteCancels(a: int, b: int, k: int)
    requires 0 <= a < 256 && 0 <= b < 256 && 0 <= k < 256
    requires XorByte(a, k) == XorByte(b, k)
    ensures a == b
  {
    hide Xor;
    XorCancels(a, b, k);
  }

  /** The salt, repeated when the password is longer. */
  function SaltChar(salt: Bytes, i: nat): char
    requires salt != ""
  {
    if i < |salt| then salt[i] else salt[i % |salt|]
  }

  function Mask(c: char, salt: Bytes, i: nat): (m: char)
    requires salt != "" && c as int < 256
    ensures m as int < 256
  {
    XorByte(XorByte(c as int, SaltChar(salt, i) as int), i % 256) as char
  }

  lemma MaskCancels(c: char, d: char, salt: Bytes, i: nat)
    requires salt != "" && c as int < 256 && d as int < 256 && Mask(c, salt, i) == Mask(d, salt, i)
    ensures c == d
  {
    hide XorByte;
    var k := SaltChar(salt, i) as int;
    XorByteCancels(XorByte(c as int, k), XorByte(d as int, k), i % 256);
    XorByteCancels(c as int, d as int, k);
  }

  function MaskFrom(password: Bytes, salt: Bytes, i: nat): (r: Bytes)
    requires salt != "" || password == ""
    ensures |r| == |password|
  {
    if password == "" then "" else [Mask(password[0], salt, i)] + MaskFrom(password[1..], salt, i + 1)
  }

  function HexDigit(d: int): char
    requires 0 <= d < 16
  {
    (if d < 10 then '0' as int + d else 'a' as int + (d - 10)) as char
  }

  function Hex(s: Bytes): string {
    if s == "" then "" else [HexDigit(s[0] as int / 16), HexDigit(s[0] as int % 16)] + Hex(s[1..])
  }

  function Hash(password: Bytes, salt: Bytes): string
    requires salt != "" || password == ""
  {
    Hex(salt) + ":" + Hex(MaskFrom(password, salt, 0))
  }

  /** `static_cast<unsigned char>` of an `int`. */
  function LowByte(v: int): (b: Bytes)
    ensures |b| == 1
  {
    [(v % 256) as char]
  }

  function Prepend(front: Bytes, rest: Option<Bytes>): Option<Bytes> {
    match rest
    case None => None
    case Some(text) => Some(front + text)
  }

  /** The salt in front of the colon, two digits at a time; `None` when `std::stoi` throws. */
  function Unhex(hex: string): Option<Bytes> {
    if hex == "" then Some("")
    else
      var n := if |hex| == 1 then 1 else 2;
      match Stoi(hex[..n], 16)
      case None => None
      case Some(v) => Prepend(LowByte(v), Unhex(hex[n..]))
  }

  /** `Aborts` stands for the uncaught exception of a malformed salt, and for the remainder by
      zero of an empty one. */
  datatype Verdict = Accepted | Rejected | Aborts

  function Verify(password: Bytes, stored: string): Verdict {
    var p := Find(stored, COLON, 0);
    if p < 0 then Rejected
    else
      match Unhex(stored[..p])
      case None => Aborts
      case Some(salt) =>
        if salt == "" && password != "" then Aborts
        else if Hash(password, salt) == stored then Accepted
        else Rejected
  }

  // ------------------------------------------------------------------ exactness

  lemma HexPair(b: int)
    requires 0 <= b < 256
    ensures Stoi([HexDigit(b / 16), HexDigit(b % 16)], 16) == Some(b)
  {
    hide Digits, Value, DigitValue, SkipSpace;
    var s := [HexDigit(b / 16), HexDigit(b % 16)];
    HexDigitValue(b / 16);
    HexDigitValue(b % 16);
    NoLeadingSpace(s);
    DigitsAll(s, 16);
    ValueOfPair(s[0], s[1]);
  }

  lemma HexDigitValue(d: int)
    requires 0 <= d < 16
    ensures DigitValue(HexDigit(d)) == d
    ensures !IsSpace(HexDigit(d)) && HexDigit(d) != '-' && HexDigit(d) != '+' && HexDigit(d) != COLON
    ensures HexDigit(d) != NL
  {
  }

  lemma ValueOfPair(a: char, b: char)
    ensures Value([a, b], 16) == 16 * DigitValue(a) + DigitValue(b)
  {
    assert [a, b][..1] == [a] && [a][..0] == "";
    assert Value([a], 16) == DigitValue(a);
  }

  lemma {:induction false} UnhexHex(s: Bytes)
    ensures Unhex(Hex(s)) == Some(s)
    ensures Free(Hex(s), COLON) && Free(Hex(s), NL)
  {
    hide Stoi;
    if s != "" {
      var b := s[0] as int;
      HexPair(b);
      HexDigitValue(b / 16);
      HexDigitValue(b % 16);
      var pair := [HexDigit(b / 16), HexDigit(b % 16)];
      assert Hex(s)[..2] == pair && Hex(s)[2..] == Hex(s[1..]);
      UnhexHex(s[1..]);
      assert LowByte(b) == [s[0]];
      assert s == [s[0]] + s[1..];
    }
  }

  lemma {:induction false} MaskInjective(p: Bytes, q: Bytes, salt: Bytes, i: nat)
    requires salt != ""
    requires MaskFrom(p, salt, i) == MaskFrom(q, salt, i)
    ensures p == q
  {
    hide Mask;
    var mp, mq := MaskFrom(p, salt, i), MaskFrom(q, salt, i);
    assert |mp| == |p| == |q|;
    if p != "" {
      assert mp[0] == Mask(p[0], salt, i) && mq[0] == Mask(q[0], salt, i);
      MaskCancels(p[0], q[0], salt, i);
      assert mp[1..] == MaskFrom(p[1..], salt, i + 1) && mq[1..] == MaskFrom(q[1..], salt, i + 1);
      MaskInjective(p[1..], q[1..], salt, i + 1);
      assert p == [p[0]] + p[1..] && q == [q[0]] + q[1..];
    }
  }

  /** A record is the salt, one colon, and the mask; all of it can be read back. */
  lemma HashParts(p: Bytes, salt: Bytes)
    requires salt != "" || p == ""
    ensures var stored := Hash(p, salt);
      && Find(stored, COLON, 0) == |Hex(salt)|
      && stored[..|Hex(salt)|] == Hex(salt) && Unhex(stored[..|Hex(salt)|]) == Some(salt)
      && stored[|Hex(salt)| + 1..] == Hex(MaskFrom(p, salt, 0))
      && Free(stored, NL)
  {
    hide Hex, Unhex, MaskFrom;
    var stored, mask := Hash(p, salt), Hex(MaskFrom(p, salt, 0));
    UnhexHex(salt);
    UnhexHex(MaskFrom(p, salt, 0));
    assert stored == Hex(salt) + (":" + mask);
    assert forall i :: 0 <= i < |Hex(salt)| ==> stored[i] == Hex(salt)[i];
    FindIs(stored, COLON, 0, |Hex(salt)|);
    assert forall i :: 0 <= i < |mask| ==> stored[|Hex(salt)| + 1 + i] == mask[i];
  }

  lemma {:induction false} MaskAt(password: Bytes, salt: Bytes, j: nat, i: nat)
    requires salt != "" && i < |password|
    ensures MaskFrom(password, salt, j)[i] == Mask(password[i], salt, j + i)
  {
    hide Mask;
    if i > 0 {
      MaskAt(password[1..], salt, j + 1, i - 1);
      assert password[1..][i - 1] == password[i];
    }
  }

  lemma MaskUndone(c: char, salt: Bytes, i: nat)
    requires salt != "" && c as int < 256
    ensures XorByte(XorByte(Mask(c, salt, i) as int, i % 256), salt[i % |salt|] as int) == c as int
  {
    hide XorByte, SaltChar;
    SaltAround(salt, i);
    var k := salt[i % |salt|] as int;
    XorByteTwice(XorByte(c as int, k), i % 256);
    XorByteTwice(c as int, k);
  }

  lemma SaltAround(salt: Bytes, i: nat)
    requires salt != ""
    ensures SaltChar(salt, i) == salt[i % |salt|]
  {
  }

  lemma XorByteTwice(a: int, b: int)
    requires 0 <= a < 256 && 0 <= b < 256
    ensures XorByte(XorByte(a, b), b) == a
  {
    hide Xor;
    XorTwice(a, b);
  }

  /** The record is the salt in hexadecimal digits, a colon, and as many bytes as the password has, each of
      which is the password's when its place and the salt's byte there, around and around, are taken off. */
  ghost predicate Masks(record: string, password: Bytes, salt: Bytes) {
    var p := Find(record, COLON, 0);
    && p >= 0 && Unhex(record[..p]) == Some(salt)
    && match Unhex(record[p + 1..])
       case None => false
       case Some(bytes) =>
         && |bytes| == |password|
         && (salt == "" ==> password == "")
         && forall i :: 0 <= i < |bytes| ==>
              XorByte(XorByte(bytes[i] as int, i % 256), salt[i % |salt|] as int) == password[i] as int
  }

  lemma HashMasks(password: Bytes, salt: Bytes)
    requires salt != "" || password == ""
    ensures Masks(Hash(password, salt), password, salt)
  {
    hide Hash, Hex, Unhex, MaskFrom, Mask, XorByte;
    HashParts(password, salt);
    var bytes := MaskFrom(password, salt, 0);
    UnhexHex(bytes);
    forall i | 0 <= i < |bytes|
      ensures XorByte(XorByte(bytes[i] as int, i % 256), salt[i % |salt|] as int) == password[i] as int
    {
      MaskAt(password, salt, 0, i);
      MaskUndone(password[i], salt, i);
    }
  }

  /** Two digits a byte, the high one first. */
  lemma {:induction false} HexAt(s: Bytes, i: nat)
    requires i < |s|
    ensures |Hex(s)| == 2 * |s|
    ensures Hex(s)[2 * i] == "0123456789abcdef"[s[i] as int / 16]
    ensures Hex(s)[2 * i + 1] == "0123456789abcdef"[s[i] as int % 16]
  {
    HexDigitIs(s[0] as int / 16);
    HexDigitIs(s[0] as int % 16);
    if i > 0 {
      HexAt(s[1..], i - 1);
      assert s[1..][i - 1] == s[i];
    } else if |s| > 1 {
      HexAt(s[1..], 0);
    }
  }

  lemma HexDigitIs(d: int)
    requires 0 <= d < 16
    ensures HexDigit(d) == "0123456789abcdef"[d]
  {
  }

  lemma HashInjective(p: Bytes, q: Bytes, salt: Bytes)
    requires salt != "" && Hash(p, salt) == Hash(q, salt)
    ensures p == q
  {
    hide Hash, Hex, Unhex, MaskFrom;
    HashParts(p, salt);
    HashParts(q, salt);
    UnhexHex(MaskFrom(p, salt, 0));
    UnhexHex(MaskFrom(q, salt, 0));
    MaskInjective(p, q, salt, 0);
  }

  /** A salted record accepts its own password and rejects every other one. */
  lemma VerifyExact(p: Bytes, q: Bytes, salt: Bytes)
    requires salt != ""
    ensures Verify(p, Hash(q, salt)) == if p == q then Accepted else Rejected
  {
    hide Hash, Hex, Unhex, MaskFrom;
    HashParts(q, salt);
    if Hash(p, salt) == Hash(q, salt) {
      HashInjective(p, q, salt);
    }
  }

  /** Whatever text is stored, it accepts a password exactly when it is that password's record
      for some salt. */
  lemma AcceptedIsRecord(p: Bytes, stored: string)
    ensures Verify(p, stored) == Accepted <==>
      exists salt: Bytes :: (salt != "" || p == "") && stored == Hash(p, salt)
  {
    hide Hash, Hex, Unhex, MaskFrom;
    if salt: Bytes :| (salt != "" || p == "") && stored == Hash(p, salt) {
      HashParts(p, salt);
    }
  }

  /** The pair of digits for the i-th byte; the last one may be alone. */
  function Pair(hex: string, i: nat): string
    requires 2 * i < |hex|
  {
    hex[2 * i..if 2 * i + 2 <= |hex| then 2 * i + 2 else |hex|]
  }

  lemma PairLater(hex: string, i: nat)
    requires |hex| > 2 && 2 * i < |hex| - 2
    ensures Pair(hex[2..], i) == Pair(hex, i + 1)
  {
  }

  lemma {:induction false} UnhexNoneIff(hex: string)
    ensures Unhex(hex) == None <==> exists i :: 0 <= 2 * i < |hex| && Stoi(Pair(hex, i), 16) == None
  {
    hide Stoi;
    if hex != "" {
      var n := if |hex| == 1 then 1 else 2;
      UnhexNoneIff(hex[n..]);
      assert Pair(hex, 0) == hex[..n];
      if i :| 0 <= 2 * i < |hex| && Stoi(Pair(hex, i), 16) == None && i > 0 {
        PairLater(hex, i - 1);
      }
      if i :| 0 <= 2 * i < |hex[n..]| && Stoi(Pair(hex[n..], i), 16) == None {
        PairLater(hex, i);
      }
    }
  }

  /** A check ends in an exception exactly for a salt with a pair that is not read as a number, and for an empty
      salt and some password. */
  lemma VerifyAbortsIff(password: Bytes, stored: string)
    ensures Verify(password, stored) == Aborts <==>
      var p := Find(stored, COLON, 0);
      p >= 0 && ((p == 0 && password != "") || exists i :: 0 <= 2 * i < p && Stoi(Pair(stored[..p], i), 16) == None)
  {
    hide Stoi, Hash, Unhex;
    var p := Find(stored, COLON, 0);
    if p >= 0 {
      UnhexNoneIff(stored[..p]);
      UnhexLength(stored[..p]);
    }
  }

  lemma {:induction false} UnhexLength(hex: string)
    ensures Unhex(hex).Some? ==> |Unhex(hex).value| == (|hex| + 1) / 2
  {
    hide Stoi;
    if hex != "" {
      UnhexLength(hex[if |hex| == 1 then 1 else 2..]);
    }
  }

  // ------------------------------------------------------------------ the loops of the source

  lemma {:induction false} HexAppend(a: Bytes, b: Bytes)
    ensures Hex(a + b) == Hex(a) + Hex(b)
  {
    if a == "" {
      assert a + b == b;
    } else {
      assert (a + b)[1..] == a[1..] + b;
      HexAppend(a[1..], b);
    }
  }

  method ToHex(s: Bytes) returns (text: string)
    ensures text == Hex(s)
  {
    text := "";
    var i := 0;
    while i < |s|
      invariant 0 <= i <= |s| && text == Hex(s[..i])
    {
      text := text + [HexDigit(s[i] as int / 16), HexDigit(s[i] as int % 16)];
      assert s[..i + 1] == s[..i] + [s[i]];
      HexAppend(s[..i], [s[i]]);
      assert Hex([s[i]]) == [HexDigit(s[i] as int / 16), HexDigit(s[i] as int % 16)];
      i := i + 1;
    }
    assert s[..i] == s;
  }

  method HashPassword(password: Bytes, salt: Bytes) returns (record: string)
    requires salt != "" || password == ""
    ensures record == Hash(password, salt) && Masks(record, password, salt)
  {
    hide Hex, MaskFrom, Hash, Mask, Masks;
    HashMasks(password, salt);
    var result: Bytes := "";
    var i := 0;
    assert password[0..] == password;
    while i < |password|
      invariant 0 <= i <= |password|
      invariant MaskFrom(password, salt, 0) == result + MaskFrom(password[i..], salt, i)
    {
      MaskStep(password, salt, i);
      var c := Mask(password[i], salt, i);
      result := result + [c];
      i := i + 1;
    }
    MaskEnd(password[i..], salt, i);
    assert result + "" == result;
    HashIs(password, salt);
    var saltHex := ToHex(salt);
    var maskHex := ToHex(result);
    record := saltHex + ":" + maskHex;
  }

  lemma HashIs(password: Bytes, salt: Bytes)
    requires salt != "" || password == ""
    ensures Hash(password, salt) == Hex(salt) + ":" + Hex(MaskFrom(password, salt, 0))
  {
  }

  lemma MaskStep(password: Bytes, salt: Bytes, i: nat)
    requires salt != "" && i < |password|
    ensures MaskFrom(password[i..], salt, i)
      == [Mask(password[i], salt, i)] + MaskFrom(password[i + 1..], salt, i + 1)
  {
    hide Mask;
    assert password[i..][1..] == password[i + 1..];
  }

  lemma MaskEnd(password: Bytes, salt: Bytes, i: nat)
    requires password == ""
    ensures MaskFrom(password, salt, i) == ""
  {
  }

  method VerifyPassword(password: Bytes, stored: string) returns (verdict: Verdict)
    ensures verdict == Verify(password, stored)
  {
    hide Hash, Unhex, Stoi, Find, LowByte;
    var colon := Find(stored, COLON, 0);
    if colon < 0 {
      return Rejected;
    }
    var hex := stored[..colon];
    var salt: Bytes := "";
    var i := 0;
    assert hex[0..] == hex;
    PrependNothing(Unhex(hex));
    while i < |hex|
      invariant 0 <= i <= |hex|
      invariant Unhex(hex) == Prepend(salt, Unhex(hex[i..]))
      decreases |hex| - i
    {
      var n := if i + 1 < |hex| then i + 2 else |hex|;
      UnhexStep(hex, i);
      var value := Stoi(hex[i..n], 16);
      if value == None {
        return Aborts;
      }
      i := n;
      PrependTwice(salt, LowByte(value.value), Unhex(hex[i..]));
      salt := salt + LowByte(value.value);
    }
    UnhexEnd(hex[i..]);
    assert salt + "" == salt;
    if salt == "" && password != "" {
      return Aborts;
    }
    var computed := HashPassword(password, salt);
    verdict := if computed != stored then Rejected else Accepted;
  }

  lemma PrependTwice(a: Bytes, b: Bytes, rest: Option<Bytes>)
    ensures Prepend(a, Prepend(b, rest)) == Prepend(a + b, rest)
  {
    if rest.Some? {
      assert a + (b + rest.value) == (a + b) + rest.value;
    }
  }

  lemma PrependNothing(rest: Option<Bytes>)
    ensures Prepend("", rest) == rest
  {
    if rest.Some? {
      assert "" + rest.value == rest.value;
    }
  }

  lemma UnhexEnd(hex: string)
    requires hex == ""
    ensures Unhex(hex) == Some("")
  {
  }

  lemma UnhexStep(hex: string, i: nat)
    requires i < |hex|
    ensures var n := if i + 1 < |hex| then i + 2 else |hex|;
      Unhex(hex[i..]) ==
      match Stoi(hex[i..n], 16)
      case None => None
      case Some(v) => Prepend(LowByte(v), Unhex(hex[n..]))
  {
    hide Stoi;
    var n := if i + 1 < |hex| then i + 2 else |hex|;
    assert hex[i..][..n - i] == hex[i..n] && hex[i..][n - i..] == hex[n..];
  }
}
