/** Byte strings and the few standard-library string operations the chat code relies on.
    A C++ `std::string` is a Dafny `string`; a string whose characters must fit in one
    byte has the type `Bytes`. */
module Text {

  type Bytes = s: string | forall i :: 0 <= i < |s| ==> s[i] as int < 256

  const NL := '\n'
  const BAR := '|'
  const COLON := ':'
  const NUL := '\0'

  /** The absence of `c` in `s`. */
  predicate Free(s: string, c: char) {
    forall i :: 0 <= i < |s| ==> s[i] != c
  }

  /** `std::string::find(c, from)`, with -1 for `npos`; `from` may lie beyond the end. */
  function Find(s: string, c: char, from: nat): (r: int)
    ensures r == -1 || from <= r < |s|
    ensures r >= 0 ==> s[r] == c && forall i :: from <= i < r ==> s[i] != c
    ensures r == -1 ==> forall i :: from <= i < |s| ==> s[i] != c
    decreases |s| - from
  {
    if from >= |s| then -1
    else if s[from] == c then from
    else Find(s, c, from + 1)
  }

  /** The first match is the only index with no earlier match. */
  lemma FindIs(s: string, c: char, from: nat, at: nat)
    requires from <= at < |s| && s[at] == c
    requires forall i :: from <= i < at ==> s[i] != c
    ensures Find(s, c, from) == at
  {
  }

  function Concat(parts: seq<string>): string {
    if parts == [] then "" else parts[0] + Concat(parts[1..])
  }

  lemma {:induction false} ConcatAppend(a: seq<string>, b: seq<string>)
    ensures Concat(a + b) == Concat(a) + Concat(b)
  {
    if a == [] {
      assert a + b == b;
    } else {
      assert (a + b)[1..] == a[1..] + b;
      ConcatAppend(a[1..], b);
    }
  }

  /** The last `n` elements of `s`, or all of them. */
  function LastN<T>(s: seq<T>, n: nat): (r: seq<T>)
    ensures |r| == if |s| <= n then |s| else n
    ensures forall i :: 0 <= i < |r| ==> r[i] == s[|s| - |r| + i]
  {
    if |s| <= n then s else s[|s| - n..]
  }

  predicate Distinct<T(==)>(s: seq<T>) {
    forall i, j :: 0 <= i < j < |s| ==> s[i] != s[j]
  }

  /** `order` runs through the keys, each of them once: an iteration order of a hash table. */
  ghost predicate Lists<T(!new)>(order: seq<T>, keys: set<T>) {
    Distinct(order) && forall x :: x in order <==> x in keys
  }
}
