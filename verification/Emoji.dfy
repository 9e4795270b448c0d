/** `utils::replaceEmojis`: one replacement pass per table entry, in an order nobody fixes. */
module Emoji {
  import opened Text

  type Table = map<string, Bytes>

  // ------------------------------------------------------------------ what the table must be like

  predicate Ascii(s: string) {
    forall i :: 0 <= i < |s| ==> s[i] as int < 128
  }

  predicate NonAscii(s: string) {
    forall i :: 0 <= i < |s| ==> s[i] as int >= 128
  }

  /** Codes are ASCII and emojis are not. */
  predicate Alphabets(t: Table) {
    forall c :: c in t ==> c != "" && Ascii(c) && t[c] != "" && NonAscii(t[c])
  }

  predicate PrefixFree(t: Table) {
    forall c, d :: c in t && d in t && c <= d ==> c == d
  }

  predicate StartsNoCode(t: Table, x: char) {
    forall c :: c in t && c != "" ==> c[0] != x
  }

  /** No later character of a code starts a code, so codes cannot overlap. */
  predicate NoOverlap(t: Table) {
    forall c, i :: c in t && 1 <= i < |c| ==> StartsNoCode(t, c[i])
  }

  predicate Good(t: Table) {
    Alphabets(t) && PrefixFree(t) && NoOverlap(t)
  }

  // ------------------------------------------------------------------ simultaneous substitution

  ghost predicate CodeAt(t: Table, text: string) {
    exists c :: c in t && c != "" && c <= text
  }

  /** One left-to-right substitution of all codes at once. */
  ghost function Substitute(t: Table, text: Bytes): Bytes {
    if text == "" then ""
    else if CodeAt(t, text) then
      var c :| c in t && c != "" && c <= text;
      t[c] + Substitute(t, text[|c|..])
    else [text[0]] + Substitute(t, text[1..])
  }

  lemma SubstituteCode(t: Table, c: string, text: Bytes)
    requires PrefixFree(t) && c in t && c != "" && c <= text
    ensures Substitute(t, text) == t[c] + Substitute(t, text[|c|..])
  {
    assert CodeAt(t, text);
    forall d | d in t && d != "" && d <= text ensures d == c {
      assert d <= c || c <= d;
    }
  }

  lemma SubstituteChar(t: Table, text: Bytes)
    requires text != "" && !CodeAt(t, text)
    ensures Substitute(t, text) == [text[0]] + Substitute(t, text[1..])
  {
  }

  // ------------------------------------------------------------------ the passes of the source

  /** The characters from `at` on begin with `code`. */
  predicate OccursAt(text: string, code: string, at: nat) {
    at + |code| <= |text| && text[at..at + |code|] == code
  }

  /** `std::string::find(code, from)`, with -1 for `npos`. */
  function FindCode(text: string, code: string, from: nat): (r: int)
    ensures r == -1 || (from <= r && OccursAt(text, code, r) && r + |code| <= |text|)
    ensures forall i :: from <= i && (r == -1 || i < r) ==> !OccursAt(text, code, i)
    decreases |text| - from
  {
    if from + |code| > |text| then -1
    else if text[from..from + |code|] == code then from
    else FindCode(text, code, from + 1)
  }

  lemma OccursLater(text: string, code: string, i: nat)
    requires text != ""
    ensures OccursAt(text[1..], code, i) <==> OccursAt(text, code, i + 1)
  {
    if i + 1 + |code| <= |text| {
      assert text[1..][i..i + |code|] == text[i + 1..i + 1 + |code|];
    }
  }

  lemma NotAtStart(text: string, code: string, emoji: Bytes)
    requires !OccursAt(text, code, 0)
    ensures !CodeAt(map[code := emoji], text)
  {
    if |code| <= |text| {
      assert text[0..0 + |code|] == text[..|code|];
    }
  }

  /** Text in front of the first occurrence is copied. */
  lemma {:induction false} SkipTo(code: string, emoji: Bytes, text: Bytes, k: nat)
    requires code != "" && k <= |text|
    requires forall i :: 0 <= i < k ==> !OccursAt(text, code, i)
    ensures Substitute(map[code := emoji], text) == text[..k] + Substitute(map[code := emoji], text[k..])
  {
    hide Substitute, OccursAt, CodeAt;
    var t := map[code := emoji];
    if k == 0 {
      assert text[..0] == "" && text[0..] == text;
    } else {
      NotAtStart(text, code, emoji);
      SubstituteChar(t, text);
      forall i | 0 <= i < k - 1 ensures !OccursAt(text[1..], code, i) {
        OccursLater(text, code, i);
      }
      SkipTo(code, emoji, text[1..], k - 1);
      assert text[1..][k - 1..] == text[k..];
      assert text[..k] == [text[0]] + text[1..][..k - 1];
    }
  }

  /** One replacement: the text in front is final, and substitution goes on behind. */
  lemma PassStep(done: Bytes, head: Bytes, code: Bytes, tail: Bytes, emoji: Bytes)
    requires code != ""
    requires forall i :: |done| <= i < |done| + |head| ==> !OccursAt(done + (head + (code + tail)), code, i)
    ensures var t := map[code := emoji];
      Substitute(t, head + (code + tail)) == head + (emoji + Substitute(t, tail))
  {
    hide Substitute, OccursAt;
    var t: Table := map[code := emoji];
    var found: Bytes := code + tail;
    var rest: Bytes := head + found;
    SkipBefore(done, rest, code, emoji, |head|);
    assert rest[..|head|] == head && rest[|head|..] == found;
    assert found[|code|..] == tail && code <= found;
    SubstituteCode(t, code, found);
  }

  lemma Splice(done: string, head: string, code: string, tail: string)
    ensures var text := done + (head + (code + tail));
      && text[..|done| + |head|] == done + head
      && text[|done| + |head| + |code|..] == tail
  {
  }

  lemma Regroup(done: string, head: string, emoji: string, rest: string)
    ensures done + (head + (emoji + rest)) == (done + head + emoji) + rest
  {
  }

  /** Replacing the first occurrence behind `done` moves it and the text before it into `done`. */
  lemma ReplaceOne(done: Bytes, rest: Bytes, code: Bytes, emoji: Bytes, k: nat)
    requires code != "" && OccursAt(done + rest, code, |done| + k)
    requires forall i :: |done| <= i < |done| + k ==> !OccursAt(done + rest, code, i)
    ensures k + |code| <= |rest| && |done| + k + |code| <= |done + rest|
    ensures var text, pos, t := done + rest, |done| + k, map[code := emoji];
      var front: Bytes, tail: Bytes := done + rest[..k] + emoji, rest[k + |code|..];
      && text[..pos] + emoji + text[pos + |code|..] == front + tail
      && front + Substitute(t, tail) == done + Substitute(t, rest)
  {
    hide Substitute, OccursAt;
    FitsBehind(done, rest, code, k);
    OccursBehind(done, rest, code, k);
    var head: Bytes, tail: Bytes := rest[..k], rest[k + |code|..];
    assert rest == head + (code + tail);
    PassStep(done, head, code, tail, emoji);
    Splice(done, head, code, tail);
    Regroup(done, head, emoji, Substitute(map[code := emoji], tail));
    assert (done + head) + emoji + tail == done + head + emoji + tail;
  }

  lemma FitsBehind(done: string, rest: string, code: string, k: nat)
    requires OccursAt(done + rest, code, |done| + k)
    ensures k + |code| <= |rest|
  {
  }

  /** The inner loop: replace in place, going on behind each inserted emoji. */
  method ReplaceCode(text: Bytes, code: Bytes, emoji: Bytes) returns (result: Bytes)
    requires code != ""
    ensures result == Substitute(map[code := emoji], text)
  {
    hide Substitute, FindCode, OccursAt;
    ghost var t := map[code := emoji];
    result := text;
    var pos := FindCode(result, code, 0);
    ghost var done: Bytes, rest: Bytes := "", text;
    while pos >= 0
      invariant result == done + rest
      invariant pos == FindCode(result, code, |done|)
      invariant done + Substitute(t, rest) == Substitute(t, text)
      decreases |rest|
    {
      ghost var k := pos - |done|;
      ReplaceOne(done, rest, code, emoji, k);
      result := result[..pos] + emoji + result[pos + |code|..];
      pos := pos + |emoji|;
      done, rest := done + rest[..k] + emoji, rest[k + |code|..];
      pos := FindCode(result, code, pos);
    }
    SkipBefore(done, rest, code, emoji, |rest|);
    assert rest[|rest|..] == "" && rest[..|rest|] == rest;
    SubstituteEmpty(t);
  }

  lemma SubstituteEmpty(t: Table)
    ensures Substitute(t, "") == ""
  {
  }

  lemma SkipBefore(done: Bytes, rest: Bytes, code: string, emoji: Bytes, k: nat)
    requires code != "" && k <= |rest|
    requires forall i :: |done| <= i < |done| + k ==> !OccursAt(done + rest, code, i)
    ensures OccursAt(done + rest, code, |done| + k) ==> k + |code| <= |rest| && code <= rest[k..]
    ensures Substitute(map[code := emoji], rest) == rest[..k] + Substitute(map[code := emoji], rest[k..])
  {
    hide Substitute, OccursAt;
    forall i | 0 <= i < k ensures !OccursAt(rest, code, i) {
      assert !OccursAt(done + rest, code, |done| + i);
      OccursBehind(done, rest, code, i);
    }
    SkipTo(code, emoji, rest, k);
    OccursBehind(done, rest, code, k);
  }

  lemma OccursBehind(done: string, rest: string, code: string, i: nat)
    requires i <= |rest|
    ensures OccursAt(done + rest, code, |done| + i) <==> OccursAt(rest, code, i)
    ensures OccursAt(rest, code, i) ==> i + |code| <= |rest| && code <= rest[i..]
  {
    if i + |code| <= |rest| {
      assert (done + rest)[|done| + i..|done| + i + |code|] == rest[i..i + |code|];
      assert rest[i..][..|code|] == rest[i..i + |code|];
    }
  }

  // ------------------------------------------------------------------ confluence

  /** An ASCII prefix of the result was a prefix of the text. */
  lemma {:induction false} PrefixReflects(t: Table, text: Bytes, d: string)
    requires Alphabets(t) && Ascii(d) && d <= Substitute(t, text)
    ensures d <= text
  {
    if d == "" || text == "" {
    } else if CodeAt(t, text) {
      assert false;
    } else {
      var s := Substitute(t, text);
      assert s[1..] == Substitute(t, text[1..]);
      assert d[0] == s[0] == text[0] && d[1..] <= s[1..];
      PrefixReflects(t, text[1..], d[1..]);
      assert d == [d[0]] + d[1..] && text == [text[0]] + text[1..];
    }
  }

  /** Emojis are passed over by every later pass. */
  lemma {:induction false} SkipEmoji(t: Table, e: Bytes, rest: Bytes)
    requires Alphabets(t) && NonAscii(e)
    ensures Substitute(t, e + rest) == e + Substitute(t, rest)
  {
    hide Substitute;
    if e == "" {
      assert e + rest == rest;
    } else {
      var text := e + rest;
      assert text[0] == e[0];
      assert !CodeAt(t, text);
      SubstituteChar(t, text);
      assert text[1..] == e[1..] + rest;
      SkipEmoji(t, e[1..], rest);
      assert e == [e[0]] + e[1..];
    }
  }

  /** Characters that start no code are copied. */
  lemma {:induction false} KeepChars(t: Table, d: Bytes, rest: Bytes)
    requires forall i :: 0 <= i < |d| ==> StartsNoCode(t, d[i])
    ensures Substitute(t, d + rest) == d + Substitute(t, rest)
  {
    hide Substitute;
    if d == "" {
      assert d + rest == rest;
    } else {
      var text := d + rest;
      assert text[0] == d[0];
      assert !CodeAt(t, text);
      SubstituteChar(t, text);
      assert text[1..] == d[1..] + rest;
      KeepChars(t, d[1..], rest);
      assert d == [d[0]] + d[1..];
    }
  }

  /** A pass for one more code after a simultaneous substitution of some codes is the
      simultaneous substitution of all of them. */
  lemma {:induction false} OneMorePass(t: Table, code: string, emoji: Bytes, text: Bytes)
    requires code !in t && Good(t[code := emoji])
    ensures Substitute(map[code := emoji], Substitute(t, text)) == Substitute(t[code := emoji], text)
    decreases |text|
  {
    hide Substitute, Good, Alphabets, PrefixFree, Ascii, NonAscii;
    var one, all := map[code := emoji], t[code := emoji];
    SmallerTable(t, code, emoji);
    if text == "" {
      SubstituteEmpty(t);
      SubstituteEmpty(one);
      SubstituteEmpty(all);
    } else if CodeAt(t, text) {
      var k :| k in t && k != "" && k <= text;
      SubstituteCode(t, k, text);
      SubstituteCode(all, k, text);
      SkipEmoji(one, t[k], Substitute(t, text[|k|..]));
      OneMorePass(t, code, emoji, text[|k|..]);
    } else if code <= text {
      var head, rest := text[..1], text[|code|..];
      KeepCode(t, code, emoji, text);
      var s := Substitute(t, text);
      assert s == code + Substitute(t, rest);
      assert code <= s && s[|code|..] == Substitute(t, rest);
      SubstituteCode(one, code, s);
      SubstituteCode(all, code, text);
      OneMorePass(t, code, emoji, rest);
    } else {
      assert !CodeAt(all, text);
      SubstituteChar(t, text);
      SubstituteChar(all, text);
      var s := Substitute(t, text);
      if code <= s {
        PrefixReflects(t, text, code);
        assert false;
      }
      assert !CodeAt(one, s);
      SubstituteChar(one, s);
      assert s[1..] == Substitute(t, text[1..]);
      OneMorePass(t, code, emoji, text[1..]);
    }
  }

  lemma SmallerTable(t: Table, code: string, emoji: Bytes)
    requires code !in t && Good(t[code := emoji])
    ensures Good(t) && Alphabets(t) && PrefixFree(t) && PrefixFree(t[code := emoji])
    ensures Alphabets(map[code := emoji]) && PrefixFree(map[code := emoji])
    ensures code != "" && Ascii(code) && forall c :: c in t ==> NonAscii(t[c])
    ensures forall i :: 1 <= i < |code| ==> StartsNoCode(t, code[i])
  {
    var all := t[code := emoji];
    forall c | c in t ensures c != "" && Ascii(c) && t[c] != "" && NonAscii(t[c]) {
      assert c in all && all[c] == t[c];
    }
    forall c, i | c in all && 1 <= i < |c| ensures StartsNoCode(t, c[i]) && StartsNoCode(map[code := emoji], c[i]) {
      assert StartsNoCode(all, c[i]);
    }
    assert code in all && all[code] == emoji;
  }

  lemma KeepCode(t: Table, code: string, emoji: Bytes, text: Bytes)
    requires code !in t && Good(t[code := emoji])
    requires code <= text && !CodeAt(t, text)
    ensures Substitute(t, text) == code + Substitute(t, text[|code|..])
  {
    hide Substitute;
    SmallerTable(t, code, emoji);
    assert code in t[code := emoji];
    SubstituteChar(t, text);
    var d: Bytes := text[1..|code|];
    assert forall i :: 0 <= i < |d| ==> d[i] == code[i + 1];
    KeepChars(t, d, text[|code|..]);
    assert text[1..] == d + text[|code|..];
    assert code == [text[0]] + d;
  }

  // ------------------------------------------------------------------ any iteration order

  ghost function Part(t: Table, order: seq<string>): Table
    requires forall c :: c in order ==> c in t
  {
    map c | c in order :: t[c]
  }

  lemma PartGood(t: Table, order: seq<string>)
    requires Good(t) && forall c :: c in order ==> c in t
    ensures Good(Part(t, order))
  {
    var p := Part(t, order);
    forall c, i | c in p && 1 <= i < |c| ensures StartsNoCode(p, c[i]) {
      assert StartsNoCode(t, c[i]);
    }
  }

  /** Whatever the iteration order, the passes amount to one simultaneous substitution. */
  method ReplaceEmojis(t: Table, order: seq<string>, text: Bytes) returns (result: Bytes)
    requires Good(t) && Lists(order, t.Keys)
    ensures result == Substitute(t, text)
  {
    hide Substitute, Good, Distinct;
    result := text;
    SubstituteNothing(text);
    assert Part(t, order[..0]) == map[];
    var n := 0;
    while n < |order|
      invariant 0 <= n <= |order|
      invariant result == Substitute(Part(t, order[..n]), text)
    {
      var code := order[n];
      ghost var before := Part(t, order[..n]);
      NotYet(order, n);
      assert order[..n + 1] == order[..n] + [code];
      assert Part(t, order[..n + 1]) == before[code := t[code]];
      PartGood(t, order[..n + 1]);
      NonEmptyCodes(t);
      OneMorePass(before, code, t[code], text);
      result := ReplaceCode(result, code, t[code]);
      n := n + 1;
    }
    assert order[..n] == order;
    assert Part(t, order).Keys == t.Keys;
    assert Part(t, order) == t;
  }

  lemma NotYet(order: seq<string>, n: nat)
    requires Distinct(order) && n < |order|
    ensures order[n] !in order[..n]
  {
  }

  lemma NonEmptyCodes(t: Table)
    requires Good(t)
    ensures forall c :: c in t ==> c != "" && Ascii(c)
  {
  }

  lemma {:induction false} SubstituteNothing(text: Bytes)
    ensures Substitute(map[], text) == text
  {
    if text != "" {
      assert !CodeAt(map[], text);
      SubstituteNothing(text[1..]);
    }
  }

  // ------------------------------------------------------------------ the result is finished

  ghost predicate Contains(text: string, code: string) {
    exists i :: 0 <= i <= |text| && code <= text[i..]
  }

  /** No code is left. */
  lemma {:induction false} NoCodeLeft(t: Table, code: string, text: Bytes, i: nat)
    requires Good(t) && code in t && i <= |Substitute(t, text)|
    ensures !(code <= Substitute(t, text)[i..])
    decreases |text|
  {
    hide Substitute;
    var s := Substitute(t, text);
    if text == "" {
      SubstituteEmpty(t);
    } else if CodeAt(t, text) {
      var k :| k in t && k != "" && k <= text;
      SubstituteCode(t, k, text);
      if i < |t[k]| {
        assert s[i] == t[k][i] && s[i] as int >= 128 && code[0] as int < 128;
      } else {
        NoCodeLeft(t, code, text[|k|..], i - |t[k]|);
        assert s[i..] == Substitute(t, text[|k|..])[i - |t[k]|..];
      }
    } else if i == 0 {
      if code <= s {
        PrefixReflects(t, text, code);
        assert false;
      }
      assert s[0..] == s;
    } else {
      SubstituteChar(t, text);
      NoCodeLeft(t, code, text[1..], i - 1);
      assert s[i..] == Substitute(t, text[1..])[i - 1..];
    }
  }

  lemma {:induction false} SubstituteClean(t: Table, text: Bytes)
    requires forall c :: c in t ==> !Contains(text, c)
    ensures Substitute(t, text) == text
  {
    if text != "" {
      forall c | c in t ensures !(c <= text) {
        assert !Contains(text, c);
        assert text[0..] == text;
      }
      forall c | c in t ensures !Contains(text[1..], c) {
        assert !Contains(text, c);
        forall i | 0 <= i <= |text[1..]| ensures !(c <= text[1..][i..]) {
          assert text[1..][i..] == text[i + 1..];
        }
      }
      SubstituteClean(t, text[1..]);
    }
  }

  /** The result holds no code, and rewriting it once more changes nothing. */
  lemma SubstituteFinal(t: Table, text: Bytes)
    requires Good(t)
    ensures forall c :: c in t ==> !Contains(Substitute(t, text), c)
    ensures Substitute(t, Substitute(t, text)) == Substitute(t, text)
  {
    hide Substitute, Good;
    var s := Substitute(t, text);
    forall c | c in t ensures !Contains(s, c) {
      forall i | 0 <= i <= |s| ensures !(c <= s[i..]) {
        NoCodeLeft(t, c, text, i);
      }
    }
    SubstituteClean(t, s);
  }

  // ------------------------------------------------------------------ the table of the source

  /** The initialiser of the table, emojis as their UTF-8 bytes. */
  const ENTRIES: seq<(string, Bytes)> := [
    (":)", "\U{F0}\U{9F}\U{98}\U{8A}"),
    (":(", "\U{F0}\U{9F}\U{98}\U{A2}"),
    (":D", "\U{F0}\U{9F}\U{98}\U{84}"),
    (";)", "\U{F0}\U{9F}\U{98}\U{89}"),
    (":P", "\U{F0}\U{9F}\U{98}\U{9B}"),
    (":O", "\U{F0}\U{9F}\U{98}\U{AE}"),
    (":S", "\U{F0}\U{9F}\U{98}\U{95}"),
    (":|", "\U{F0}\U{9F}\U{98}\U{90}"),
    (":-)", "\U{F0}\U{9F}\U{98}\U{8A}"),
    (":-(", "\U{F0}\U{9F}\U{98}\U{A2}"),
    (":-D", "\U{F0}\U{9F}\U{98}\U{84}"),
    (":-)", "\U{F0}\U{9F}\U{98}\U{89}"),
    (":-P", "\U{F0}\U{9F}\U{98}\U{9B}"),
    (":-O", "\U{F0}\U{9F}\U{98}\U{AE}"),
    (":-S", "\U{F0}\U{9F}\U{98}\U{95}"),
    (":-|", "\U{F0}\U{9F}\U{98}\U{90}"),
    ("<3", "\U{E2}\U{9D}\U{A4}\U{EF}\U{B8}\U{8F}"),
    ("<\\3", "\U{F0}\U{9F}\U{92}\U{94}"),
    (":-*", "\U{F0}\U{9F}\U{98}\U{98}"),
    (":*", "\U{F0}\U{9F}\U{98}\U{98}"),
    ("B)", "\U{F0}\U{9F}\U{98}\U{8E}"),
    ("B-)", "\U{F0}\U{9F}\U{98}\U{8E}")
  ]

  /** Building a hash map from an initialiser keeps the first of two entries for a code. */
  function FromEntries(entries: seq<(string, Bytes)>): Table {
    if entries == [] then map[]
    else
      var before, last := FromEntries(entries[..|entries| - 1]), entries[|entries| - 1];
      if last.0 in before then before else before[last.0 := last.1]
  }

  const EMOJIS: Table := FromEntries(ENTRIES)

  /** Two characters, or three with `-` or a backslash in the middle. */
  predicate Shape(c: string) {
    && 2 <= |c| <= 3
    && (c[0] == ':' || c[0] == ';' || c[0] == '<' || c[0] == 'B')
    && (|c| == 3 <==> c[1] == '-' || c[1] == '\\')
    && (forall i :: 1 <= i < |c| ==> c[i] != ':' && c[i] != ';' && c[i] != '<' && c[i] != 'B' && c[i] as int < 128)
  }

  predicate GoodEntry(e: (string, Bytes)) {
    Shape(e.0) && e.1 != "" && NonAscii(e.1)
  }

  lemma EntryShape(i: nat)
    requires i < |ENTRIES|
    ensures GoodEntry(ENTRIES[i])
  {
  }

  lemma {:induction false} TableShape(entries: seq<(string, Bytes)>, c: string)
    requires forall i :: 0 <= i < |entries| ==> GoodEntry(entries[i])
    requires c in FromEntries(entries)
    ensures GoodEntry((c, FromEntries(entries)[c]))
  {
    var before := FromEntries(entries[..|entries| - 1]);
    if c in before {
      TableShape(entries[..|entries| - 1], c);
    }
  }

  /** Codes of these shapes are prefix-free and cannot overlap. */
  lemma EmojisGood()
    ensures Good(EMOJIS)
  {
    hide FromEntries, ENTRIES, NonAscii;
    var t := EMOJIS;
    forall i | 0 <= i < |ENTRIES| ensures GoodEntry(ENTRIES[i]) {
      EntryShape(i);
    }
    forall c | c in t ensures GoodEntry((c, t[c])) {
      TableShape(ENTRIES, c);
    }
    ShapesGood(t);
  }

  lemma ShapesGood(t: Table)
    requires forall c :: c in t ==> GoodEntry((c, t[c]))
    ensures Good(t)
  {
    hide NonAscii;
    forall c, i | c in t && 1 <= i < |c| ensures StartsNoCode(t, c[i]) {
      assert GoodEntry((c, t[c]));
      assert forall d :: d in t ==> GoodEntry((d, t[d]));
    }
    forall c, d | c in t && d in t && c <= d ensures c == d {
      assert GoodEntry((c, t[c])) && GoodEntry((d, t[d]));
      assert c[1] == d[1];
    }
    forall c | c in t ensures c != "" && Ascii(c) && t[c] != "" && NonAscii(t[c]) {
      assert GoodEntry((c, t[c]));
    }
  }

  /** The rewriting of the source: any iteration order of the emoji table gives the same. */
  method Rewrite(order: seq<string>, text: Bytes) returns (result: Bytes)
    requires Lists(order, EMOJIS.Keys)
    ensures result == Substitute(EMOJIS, text)
  {
    hide Substitute, Good, EMOJIS, Lists;
    EmojisGood();
    result := ReplaceEmojis(EMOJIS, order, text);
  }
}
