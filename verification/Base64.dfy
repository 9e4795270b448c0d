/** The Base64 codec of `src/common.cpp` (sections 3.5 and 4 of RFC 4648). */
module Base64 {
  import opened Text

  const PAD := '='

  // ------------------------------------------------------------------ alphabet

  predicate InAlphabet(c: char) {
    'A' <= c <= 'Z' || 'a' <= c <= 'z' || '0' <= c <= '9' || c == '+' || c == '/'
  }

  /** The character of a six-bit value. */
  function Letter(v: int): char
    requires 0 <= v < 64
  {
    (if v < 26 then 65 + v else if v < 52 then 71 + v else if v < 62 then v - 4 else if v == 62 then 43 else 47) as char
  }

  /** The value of a character; a foreign character becomes 255. */
  function Sextet(c: char): int {
    if 'A' <= c <= 'Z' then c as int - 65
    else if 'a' <= c <= 'z' then c as int - 71
    else if '0' <= c <= '9' then c as int + 4
    else if c == '+' then 62
    else if c == '/' then 63
    else 255
  }

  const ALPHABET: string := "ABCDEFGHIJKLMNOPQRSTUVWXYZ" + "abcdefghijklmnopqrstuvwxyz" + "0123456789+/"

  lemma TableLetter(v: int)
    requires 0 <= v < 64
    ensures |ALPHABET| == 64 && ALPHABET[v] == Letter(v)
  {
  }

  lemma SextetOfLetter(v: int)
    requires 0 <= v < 64
    ensures Sextet(Letter(v)) == v && InAlphabet(Letter(v))
  {
  }

  lemma LetterOfSextet(c: char)
    ensures InAlphabet(c) ==> 0 <= Sextet(c) < 64 && Letter(Sextet(c)) == c
    ensures !InAlphabet(c) ==> Sextet(c) == 255
  {
  }

  /** `Sextet` is the table search of the source, `std::string::find` on the 64-character
      table stored in an `unsigned char`, so that "not found" is 255. */
  lemma TableFind(c: char)
    ensures Sextet(c) == (var p := Find(ALPHABET, c, 0); if p < 0 then 255 else p)
  {
    var p := Find(ALPHABET, c, 0);
    TableLetter(0);
    LetterOfSextet(c);
    if p >= 0 {
      TableLetter(p);
      SextetOfLetter(p);
    } else if InAlphabet(c) {
      TableLetter(Sextet(c));
    }
  }

  // ------------------------------------------------------------------ specification

  /** Three bytes, as four six-bit values. */
  function Split(a: int, b: int, c: int): (int, int, int, int) {
    (a / 4, a % 4 * 16 + b / 16, b % 16 * 4 + c / 64, c % 64)
  }

  /** Four values back to three bytes, with the `unsigned char` wrap-around of the source. */
  function Join(p: int, q: int, r: int, s: int): (int, int, int) {
    ((p * 4 + q / 16 % 4) % 256, q % 16 * 16 + r / 4 % 16, (r % 4 * 64 + s) % 256)
  }

  lemma Pack4(hi: int, lo: int)
    requires 0 <= lo < 4
    ensures (hi * 4 + lo) / 4 == hi && (hi * 4 + lo) % 4 == lo
  {
  }

  lemma Pack16(hi: int, lo: int)
    requires 0 <= lo < 16
    ensures (hi * 16 + lo) / 16 == hi && (hi * 16 + lo) % 16 == lo
  {
  }

  lemma Pack64(hi: int, lo: int)
    requires 0 <= lo < 64
    ensures (hi * 64 + lo) / 64 == hi && (hi * 64 + lo) % 64 == lo
  {
  }

  /** Both conversions, on the pieces of the bytes that the masks and shifts pick out. */
  lemma JoinParts(a1: int, a0: int, b1: int, b0: int, c1: int, c0: int)
    requires 0 <= a1 < 64 && 0 <= a0 < 4 && 0 <= b1 < 16 && 0 <= b0 < 16 && 0 <= c1 < 4 && 0 <= c0 < 64
    ensures Join(a1, a0 * 16 + b1, b0 * 4 + c1, c0) == (a1 * 4 + a0, b1 * 16 + b0, c1 * 64 + c0)
    ensures Split(a1 * 4 + a0, b1 * 16 + b0, c1 * 64 + c0) == (a1, a0 * 16 + b1, b0 * 4 + c1, c0)
  {
    Pack4(a1, a0);
    Pack16(a0, b1);
    Pack16(b1, b0);
    Pack4(b0, c1);
    Pack64(c1, c0);
  }

  lemma JoinSplit(a: int, b: int, c: int)
    requires 0 <= a < 256 && 0 <= b < 256 && 0 <= c < 256
    ensures var (p, q, r, s) := Split(a, b, c);
      0 <= p < 64 && 0 <= q < 64 && 0 <= r < 64 && 0 <= s < 64 && Join(p, q, r, s) == (a, b, c)
  {
    hide Join;
    JoinParts(a / 4, a % 4, b / 16, b % 16, c / 64, c % 64);
  }

  lemma SplitJoin(p: int, q: int, r: int, s: int)
    requires 0 <= p < 64 && 0 <= q < 64 && 0 <= r < 64 && 0 <= s < 64
    ensures var (a, b, c) := Join(p, q, r, s);
      0 <= a < 256 && 0 <= b < 256 && 0 <= c < 256 && Split(a, b, c) == (p, q, r, s)
  {
    hide Join, Split;
    JoinParts(p, q / 16, q % 16, r / 4, r % 4, s);
  }

  function Quad(a: char, b: char, c: char): (q: string)
    requires a as int < 256 && b as int < 256 && c as int < 256
    ensures |q| == 4
  {
    JoinSplit(a as int, b as int, c as int);
    var (p, q, r, s) := Split(a as int, b as int, c as int);
    [Letter(p), Letter(q), Letter(r), Letter(s)]
  }

  function Encode(input: Bytes): string {
    if |input| >= 3 then Quad(input[0], input[1], input[2]) + Encode(input[3..])
    else if |input| == 2 then Quad(input[0], input[1], NUL)[..3] + [PAD]
    else if |input| == 1 then Quad(input[0], NUL, NUL)[..2] + [PAD, PAD]
    else ""
  }

  predicate Octets(v: seq<int>) {
    forall i :: 0 <= i < |v| ==> 0 <= v[i] < 256
  }

  /** The values of the characters before the first `=`. */
  function Sextets(s: string): (v: seq<int>)
    ensures Octets(v)
  {
    if s == "" || s[0] == PAD then []
    else
      LetterOfSextet(s[0]);
      [Sextet(s[0])] + Sextets(s[1..])
  }

  function Triple(p: int, q: int, r: int, s: int): (t: Bytes)
    requires 0 <= p < 256 && 0 <= q < 256 && 0 <= r < 256 && 0 <= s < 256
    ensures |t| == 3
  {
    var (a, b, c) := Join(p, q, r, s);
    [a as char, b as char, c as char]
  }

  function Bytes8(v: seq<int>): Bytes
    requires Octets(v)
  {
    if |v| >= 4 then Triple(v[0], v[1], v[2], v[3]) + Bytes8(v[4..])
    else if |v| == 3 then Triple(v[0], v[1], v[2], 0)[..2]
    else if |v| == 2 then Triple(v[0], v[1], 0, 0)[..1]
    else ""
  }

  function Decode(s: string): Bytes {
    Bytes8(Sextets(s))
  }

  // ------------------------------------------------------------------ round trip

  /** Text without `=` in front contributes exactly its own values. */
  lemma {:induction false} SextetsAppend(x: string, rest: string)
    requires Free(x, PAD)
    ensures Sextets(x + rest) == Sextets(x) + Sextets(rest)
    ensures |Sextets(x)| == |x| && forall i :: 0 <= i < |x| ==> Sextets(x)[i] == Sextet(x[i])
  {
    hide Sextet;
    if x == "" {
      assert x + rest == rest;
    } else {
      assert (x + rest)[1..] == x[1..] + rest;
      SextetsAppend(x[1..], rest);
    }
  }

  lemma QuadSextets(a: char, b: char, c: char)
    requires a as int < 256 && b as int < 256 && c as int < 256
    ensures var (p, q, r, s) := Split(a as int, b as int, c as int);
      && FullQuad(Quad(a, b, c)) && Free(Quad(a, b, c), PAD)
      && forall i :: 0 <= i < 4 ==> Sextet(Quad(a, b, c)[i]) == [p, q, r, s][i]
  {
    hide Split, Join, Letter, Sextet;
    var (p, q, r, s) := Split(a as int, b as int, c as int);
    JoinSplit(a as int, b as int, c as int);
    SextetOfLetter(p);
    SextetOfLetter(q);
    SextetOfLetter(r);
    SextetOfLetter(s);
  }

  /** What the decoder reads from a group of the encoder. */
  lemma SextetsOfGroup(a: char, b: char, c: char, n: nat, rest: string)
    requires a as int < 256 && b as int < 256 && c as int < 256 && n <= 4
    ensures var (p, q, r, s) := Split(a as int, b as int, c as int);
      Sextets(Quad(a, b, c)[..n] + rest) == [p, q, r, s][..n] + Sextets(rest)
  {
    hide Split, Letter, Sextet, Quad, Sextets;
    QuadSextets(a, b, c);
    var x := Quad(a, b, c)[..n];
    assert forall i :: 0 <= i < n ==> x[i] == Quad(a, b, c)[i];
    SextetsAppend(x, rest);
  }

  /** Missing bytes leave zero bits behind. */
  lemma SplitZero(a: int, b: int)
    requires 0 <= a < 256 && 0 <= b < 256
    ensures Split(a, b, 0).3 == 0 && Split(a, b, 0).2 % 4 == 0
    ensures b == 0 ==> Split(a, b, 0).1 % 16 == 0 && Split(a, b, 0).2 == 0
  {
  }

  /** Zero bits decode to zero bytes. */
  lemma JoinZero(p: int, q: int, r: int)
    requires 0 <= p < 64 && 0 <= q < 64 && 0 <= r < 64 && r % 4 == 0
    ensures Join(p, q, r, 0).2 == 0
    ensures q % 16 == 0 && r == 0 ==> Join(p, q, r, 0).1 == 0
  {
  }

  /** Every byte string survives encoding and decoding. */
  lemma {:induction false} DecodeEncode(x: Bytes)
    ensures Decode(Encode(x)) == x
  {
    hide Split, Join, Quad;
    if |x| >= 3 {
      var (p, q, r, s) := Split(x[0] as int, x[1] as int, x[2] as int);
      JoinSplit(x[0] as int, x[1] as int, x[2] as int);
      SextetsOfGroup(x[0], x[1], x[2], 4, Encode(x[3..]));
      var quad := Quad(x[0], x[1], x[2]);
      assert quad[..4] == quad && [p, q, r, s][..4] == [p, q, r, s];
      var v := Sextets(Encode(x));
      assert v == [p, q, r, s] + Sextets(Encode(x[3..]));
      assert v[4..] == Sextets(Encode(x[3..]));
      DecodeEncode(x[3..]);
      assert x == [x[0], x[1], x[2]] + x[3..];
    } else if |x| == 2 {
      var (p, q, r, s) := Split(x[0] as int, x[1] as int, 0);
      JoinSplit(x[0] as int, x[1] as int, 0);
      SplitZero(x[0] as int, x[1] as int);
      SextetsOfGroup(x[0], x[1], NUL, 3, [PAD]);
      assert [p, q, r, s][..3] + [] == [p, q, r];
    } else if |x| == 1 {
      var (p, q, r, s) := Split(x[0] as int, 0, 0);
      JoinSplit(x[0] as int, 0, 0);
      SplitZero(x[0] as int, 0);
      SextetsOfGroup(x[0], NUL, NUL, 2, [PAD, PAD]);
      assert [p, q, r, s][..2] + [] == [p, q];
    }
  }

  /** Encodings have four characters for each started group of three bytes. */
  lemma {:induction false} EncodeLength(x: Bytes)
    ensures |Encode(x)| == (|x| + 2) / 3 * 4
  {
    hide Quad;
    if |x| >= 3 {
      EncodeLength(x[3..]);
      assert |Encode(x)| == 4 + (|x| - 3 + 2) / 3 * 4;
    }
  }

  // ------------------------------------------------------------------ canonical form

  predicate FullQuad(q: string) {
    |q| == 4 && forall i :: 0 <= i < 4 ==> InAlphabet(q[i])
  }

  /** A last group carrying one or two bytes: the unused low bits are zero
      (section 3.5 of RFC 4648). */
  predicate PaddedQuad(q: string) {
    && |q| == 4 && InAlphabet(q[0]) && InAlphabet(q[1]) && q[3] == PAD
    && ((InAlphabet(q[2]) && Sextet(q[2]) % 4 == 0) || (q[2] == PAD && Sextet(q[1]) % 16 == 0))
  }

  predicate Canonical(s: string) {
    s == "" || (|s| >= 4 && ((FullQuad(s[..4]) && Canonical(s[4..])) || PaddedQuad(s)))
  }

  lemma {:induction false} EncodeCanonical(x: Bytes)
    ensures Canonical(Encode(x))
  {
    hide Split, Sextet, Quad;
    if |x| >= 3 {
      QuadSextets(x[0], x[1], x[2]);
      assert Encode(x)[..4] == Quad(x[0], x[1], x[2]);
      assert Encode(x)[4..] == Encode(x[3..]);
      EncodeCanonical(x[3..]);
    } else if |x| == 2 {
      QuadSextets(x[0], x[1], NUL);
      SplitZero(x[0] as int, x[1] as int);
      assert Sextet(Quad(x[0], x[1], NUL)[2]) % 4 == 0;
      assert PaddedQuad(Encode(x));
    } else if |x| == 1 {
      QuadSextets(x[0], NUL, NUL);
      SplitZero(x[0] as int, 0);
      assert Sextet(Quad(x[0], NUL, NUL)[1]) % 16 == 0;
      assert PaddedQuad(Encode(x));
    }
  }

  lemma QuadRoundTrip(a: char, b: char, c: char, d: char)
    requires InAlphabet(a) && InAlphabet(b) && InAlphabet(c) && InAlphabet(d)
    ensures var p, q, r, s := Sextet(a), Sextet(b), Sextet(c), Sextet(d);
      && 0 <= p < 64 && 0 <= q < 64 && 0 <= r < 64 && 0 <= s < 64
      && var t := Triple(p, q, r, s);
      Quad(t[0], t[1], t[2]) == [a, b, c, d]
  {
    hide Split, Join, Letter, Sextet;
    LetterOfSextet(a);
    LetterOfSextet(b);
    LetterOfSextet(c);
    LetterOfSextet(d);
    SplitJoin(Sextet(a), Sextet(b), Sextet(c), Sextet(d));
  }

  lemma PaddedRoundTrip(s: string)
    requires PaddedQuad(s)
    ensures Encode(Decode(s)) == s
  {
    hide Split, Join, Sextet, Letter;
    LetterOfSextet(s[0]);
    LetterOfSextet(s[1]);
    LetterOfSextet(s[2]);
    var p, q := Sextet(s[0]), Sextet(s[1]);
    var n := if s[2] == PAD then 2 else 3;
    var r := if s[2] == PAD then 0 else Sextet(s[2]);
    assert s == s[..n] + s[n..];
    SextetsAppend(s[..n], s[n..]);
    assert Sextets(s) == [p, q, r][..n];
    SplitJoin(p, q, r, 0);
    JoinZero(p, q, r);
  }

  lemma {:induction false} EncodeDecodeCanonical(s: string)
    requires Canonical(s)
    ensures Encode(Decode(s)) == s
  {
    hide Split, Join, Sextet, Quad, Triple;
    if s == "" {
    } else if FullQuad(s[..4]) && Canonical(s[4..]) {
      EncodeDecodeCanonical(s[4..]);
      var q, rest := s[..4], s[4..];
      assert s == q + rest;
      QuadRoundTrip(q[0], q[1], q[2], q[3]);
      SextetsAppend(q, rest);
      var v, t := Sextets(s), Triple(Sextet(q[0]), Sextet(q[1]), Sextet(q[2]), Sextet(q[3]));
      assert v[4..] == Sextets(rest);
      assert Decode(s) == t + Decode(rest);
      assert (t + Decode(rest))[3..] == Decode(rest);
      assert Encode(t + Decode(rest)) == Quad(t[0], t[1], t[2]) + Encode(Decode(rest));
    } else {
      PaddedRoundTrip(s);
    }
  }

  /** Re-encoding a decoded text gives the text back exactly when it is canonical. */
  lemma EncodeDecodeIffCanonical(s: string)
    ensures Encode(Decode(s)) == s <==> Canonical(s)
  {
    EncodeCanonical(Decode(s));
    if Canonical(s) {
      EncodeDecodeCanonical(s);
    }
  }

  lemma {:induction false} CanonicalChars(s: string)
    requires Canonical(s)
    ensures forall i :: 0 <= i < |s| ==> InAlphabet(s[i]) || s[i] == PAD
  {
    if s != "" && !PaddedQuad(s) {
      CanonicalChars(s[4..]);
      forall i | 0 <= i < |s| ensures InAlphabet(s[i]) || s[i] == PAD {
        if i < 4 {
          assert s[i] == s[..4][i];
        } else {
          assert s[i] == s[4..][i - 4];
        }
      }
    }
  }

  /** Encodings use the alphabet and `=` only, so they hold no separator and no NUL. */
  lemma EncodeChars(x: Bytes)
    ensures forall i :: 0 <= i < |Encode(x)| ==> InAlphabet(Encode(x)[i]) || Encode(x)[i] == PAD
    ensures Free(Encode(x), BAR) && Free(Encode(x), NL) && Free(Encode(x), NUL)
  {
    EncodeCanonical(x);
    CanonicalChars(Encode(x));
  }

  // ------------------------------------------------------------------ the loops of the source

  lemma EncodeFrom(input: Bytes, n: nat)
    requires n + 3 <= |input|
    ensures Encode(input[n..]) == Quad(input[n], input[n + 1], input[n + 2]) + Encode(input[n + 3..])
  {
    hide Quad;
    assert input[n..][3..] == input[n + 3..];
  }

  lemma EncodeLast(x: Bytes, b: char)
    requires 1 <= |x| <= 2 && b == if |x| == 2 then x[1] else NUL
    ensures Encode(x) == Quad(x[0], b, NUL)[..|x| + 1] + seq(3 - |x|, _ => PAD)
  {
    hide Quad;
    assert seq(1, _ => PAD) == [PAD] && seq(2, _ => PAD) == [PAD, PAD];
  }

  /** The output loops: the first `n` characters of a group. */
  method Append(text: string, group: string, n: nat) returns (result: string)
    requires n <= |group|
    ensures result == text + group[..n]
  {
    result := text;
    var j := 0;
    while j < n
      invariant 0 <= j <= n && result == text + group[..j]
    {
      result := result + [group[j]];
      j := j + 1;
    }
  }

  /** The final, incomplete group: zero-filled, cut short and padded. */
  method EncodeRest(chars: array<char>, count: nat) returns (text: string)
    requires chars.Length == 3 && 1 <= count <= 2
    requires forall k :: 0 <= k < count ==> chars[k] as int < 256
    modifies chars
    ensures text == Encode(old(chars[..count]))
  {
    hide Quad, Encode;
    ghost var x: Bytes := chars[..count];
    var i, j := count, count;
    while j < 3
      invariant count <= j <= 3
      invariant forall k :: 0 <= k < count ==> chars[k] == x[k]
      invariant forall k :: count <= k < j ==> chars[k] == NUL
    {
      chars[j] := NUL;
      j := j + 1;
    }
    EncodeLast(x, chars[1]);
    text := Append("", Quad(chars[0], chars[1], chars[2]), count + 1);
    ghost var letters := text;
    while i < 3
      invariant count <= i <= 3 && text == letters + seq(i - count, _ => PAD)
    {
      text := text + [PAD];
      i := i + 1;
    }
  }

  method Base64Encode(input: Bytes) returns (result: string)
    ensures result == Encode(input)
  {
    hide Quad, Encode;
    result := "";
    var chars := new char[3](_ => NUL);
    var i, n := 0, 0;
    assert input[0..] == input;
    while n < |input|
      invariant 0 <= n <= |input| && 0 <= i < 3 && i <= n
      invariant forall k :: 0 <= k < i ==> chars[k] == input[n - i + k]
      invariant result + Encode(input[n - i..]) == Encode(input)
    {
      chars[i] := input[n];
      i, n := i + 1, n + 1;
      if i == 3 {
        var group := Quad(chars[0], chars[1], chars[2]);
        EncodeFrom(input, n - 3);
        assert result + (group + Encode(input[n..])) == (result + group) + Encode(input[n..]);
        assert group[..4] == group;
        result := Append(result, group, 4);
        i := 0;
      }
    }
    if i > 0 {
      assert chars[..i] == input[n - i..];
      var text := EncodeRest(chars, i);
      result := result + text;
    } else {
      EncodeEmpty(input[n..]);
    }
  }

  lemma EncodeEmpty(x: Bytes)
    requires x == ""
    ensures Encode(x) == ""
  {
  }

  lemma BytesFrom(held: seq<int>, rest: seq<int>)
    requires |held| == 4
    requires Octets(held) && Octets(rest)
    ensures Bytes8(held + rest) == Triple(held[0], held[1], held[2], held[3]) + Bytes8(rest)
  {
    hide Triple;
    assert (held + rest)[4..] == rest;
  }

  lemma BytesLast(held: seq<int>, q: int, r: int)
    requires 1 <= |held| <= 3 && Octets(held)
    requires q == (if |held| >= 2 then held[1] else 0) && r == if |held| == 3 then held[2] else 0
    ensures Bytes8(held) == Triple(held[0], q, r, 0)[..|held| - 1]
  {
    hide Triple;
  }

  lemma SextetsFrom(s: string, n: nat)
    requires n <= |s|
    ensures n < |s| && s[n] != PAD ==> Sextets(s[n..]) == [Sextet(s[n])] + Sextets(s[n + 1..])
    ensures n == |s| || s[n] == PAD ==> Sextets(s[n..]) == []
  {
    hide Sextet;
    if n < |s| {
      assert s[n..][1..] == s[n + 1..];
    }
  }

  method Base64Decode(input: string) returns (result: Bytes)
    ensures result == Decode(input)
  {
    hide Triple, Sextet, Sextets, Bytes8;
    result := "";
    var vals := new int[4](_ => 0);
    var i, n := 0, 0;
    ghost var held: seq<int> := [];
    assert input[0..] == input && [] + Sextets(input) == Sextets(input);
    while n < |input| && input[n] != PAD
      invariant 0 <= n <= |input| && 0 <= i < 4 && |held| == i
      invariant Octets(held) && forall k :: 0 <= k < i ==> vals[k] == held[k]
      invariant result + Bytes8(held + Sextets(input[n..])) == Decode(input)
    {
      SextetsFrom(input, n);
      LetterOfSextet(input[n]);
      vals[i] := Sextet(input[n]);
      ghost var rest := Sextets(input[n + 1..]);
      assert held + ([Sextet(input[n])] + rest) == (held + [Sextet(input[n])]) + rest;
      held := held + [Sextet(input[n])];
      i, n := i + 1, n + 1;
      if i == 4 {
        BytesFrom(held, rest);
        var group := Triple(vals[0], vals[1], vals[2], vals[3]);
        assert result + (group + Bytes8(rest)) == (result + group) + Bytes8(rest);
        assert group[..3] == group;
        var text: string := Append(result, group, 3);
        result := text;
        i, held := 0, [];
        assert [] + rest == rest;
      }
    }
    SextetsFrom(input, n);
    assert held + [] == held;
    if i > 0 {
      var j := i;
      while j < 4
        invariant i <= j <= 4
        invariant forall k :: 0 <= k < i ==> vals[k] == held[k]
        invariant forall k :: i <= k < j ==> vals[k] == 0
      {
        vals[j] := 0;
        j := j + 1;
      }
      BytesLast(held, vals[1], vals[2]);
      var group := Triple(vals[0], vals[1], vals[2], vals[3]);
      var text := Append(result, group, i - 1);
      result := text;
    } else {
      BytesEmpty();
    }
  }

  lemma BytesEmpty()
    ensures Bytes8([]) == ""
  {
  }

  // ------------------------------------------------------------------ the encoding, bit by bit

  function ByteAt(s: Bytes, i: nat): int {
    if i < |s| then s[i] as int else 0
  }

  /** Three bytes as one number, the first one highest; zeros where there are none. */
  function Group(s: Bytes, g: nat): int {
    65536 * ByteAt(s, 3 * g) + 256 * ByteAt(s, 3 * g + 1) + ByteAt(s, 3 * g + 2)
  }

  lemma Pack4096(hi: int, lo: int)
    requires 0 <= lo < 4096
    ensures (hi * 4096 + lo) / 4096 == hi
  {
  }

  lemma Pack262144(hi: int, lo: int)
    requires 0 <= lo < 262144
    ensures (hi * 262144 + lo) / 262144 == hi
  {
  }

  lemma FourDigits(p: int, q: int, r: int, s: int)
    requires 0 <= p < 64 && 0 <= q < 64 && 0 <= r < 64 && 0 <= s < 64
    ensures var n := 262144 * p + 4096 * q + 64 * r + s;
      n / 262144 % 64 == p && n / 4096 % 64 == q && n / 64 % 64 == r && n % 64 == s
  {
    var n := 262144 * p + 4096 * q + 64 * r + s;
    Pack262144(p, 4096 * q + 64 * r + s);
    Pack4096(64 * p + q, 64 * r + s);
    Pack64(p, q);
    Pack64(4096 * p + 64 * q + r, s);
    Pack64(64 * p + q, r);
    assert n == (4096 * p + 64 * q + r) * 64 + s;
    assert 4096 * p + 64 * q + r == (64 * p + q) * 64 + r;
  }

  lemma SplitPartsIs(a1: int, a0: int, b1: int, b0: int, c1: int, c0: int)
    requires 0 <= a1 < 64 && 0 <= a0 < 4 && 0 <= b1 < 16 && 0 <= b0 < 16 && 0 <= c1 < 4 && 0 <= c0 < 64
    ensures var n := 65536 * (a1 * 4 + a0) + 256 * (b1 * 16 + b0) + (c1 * 64 + c0);
      Split(a1 * 4 + a0, b1 * 16 + b0, c1 * 64 + c0) == (n / 262144 % 64, n / 4096 % 64, n / 64 % 64, n % 64)
  {
    hide Split, Join;
    JoinParts(a1, a0, b1, b0, c1, c0);
    SplitSum(a1, a0, b1, b0, c1, c0);
    FourDigits(a1, a0 * 16 + b1, b0 * 4 + c1, c0);
  }

  lemma SplitIs(a: int, b: int, c: int)
    requires 0 <= a < 256 && 0 <= b < 256 && 0 <= c < 256
    ensures var n := 65536 * a + 256 * b + c;
      Split(a, b, c) == (n / 262144 % 64, n / 4096 % 64, n / 64 % 64, n % 64)
  {
    hide Split;
    SplitPartsIs(a / 4, a % 4, b / 16, b % 16, c / 64, c % 64);
  }

  lemma SplitSum(a1: int, a0: int, b1: int, b0: int, c1: int, c0: int)
    ensures 65536 * (a1 * 4 + a0) + 256 * (b1 * 16 + b0) + (c1 * 64 + c0)
      == 262144 * a1 + 4096 * (a0 * 16 + b1) + 64 * (b0 * 4 + c1) + c0
  {
  }

  lemma LettersOf(a: char, b: char, c: char, j: nat)
    requires a as int < 256 && b as int < 256 && c as int < 256 && j < 4
    ensures var n := 65536 * (a as int) + 256 * (b as int) + c as int;
      |ALPHABET| == 64 && Quad(a, b, c)[j] == ALPHABET[n / [262144, 4096, 64, 1][j] % 64]
  {
    hide Split, Letter, Join, ALPHABET;
    SplitIs(a as int, b as int, c as int);
    JoinSplit(a as int, b as int, c as int);
    var (p, q, r, s) := Split(a as int, b as int, c as int);
    TableLetter(p);
    TableLetter(q);
    TableLetter(r);
    TableLetter(s);
  }

  lemma GroupLater(s: Bytes, g: nat)
    requires g > 0 && |s| >= 3
    ensures Group(s[3..], g - 1) == Group(s, g)
  {
    assert forall i: nat :: ByteAt(s[3..], i) == ByteAt(s, i + 3);
  }

  lemma FirstFour(input: Bytes, j: nat)
    requires input != "" && j < 4
    ensures |ALPHABET| == 64 && j < |Encode(input)|
    ensures Encode(input)[j] == if j <= |input| then ALPHABET[Group(input, 0) / [262144, 4096, 64, 1][j] % 64] else PAD
  {
    hide Quad, ALPHABET;
    LettersOf(input[0], if |input| > 1 then input[1] else NUL, if |input| > 2 then input[2] else NUL, j);
  }

  /** The j-th character for a group stands in the table at the value of its j-th six bits; characters with
      no bit of the input are pads. */
  lemma {:induction false} EncodeAt(input: Bytes, g: nat, j: nat)
    requires 3 * g < |input| && j < 4
    ensures |ALPHABET| == 64 && 4 * g + j < |Encode(input)|
    ensures Encode(input)[4 * g + j] ==
      if 3 * g + j <= |input| then ALPHABET[Group(input, g) / [262144, 4096, 64, 1][j] % 64] else PAD
  {
    hide Quad, ALPHABET, Group;
    if g == 0 {
      FirstFour(input, j);
    } else {
      EncodeAt(input[3..], g - 1, j);
      GroupLater(input, g);
      assert Encode(input)[4..] == Encode(input[3..]);
      assert Encode(input)[4 * g + j] == Encode(input)[4..][4 * (g - 1) + j];
    }
  }
}
