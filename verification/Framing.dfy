/** The receive loops of server and client: `recv` chunks in, newline-terminated lines out. */
module Framing {
  import opened Text
  import opened Numbers
  import opened Wire
  import Base64

  // ------------------------------------------------------------------ specification

  /** A received buffer as a C string: `received_data += buffer` stops at the first NUL. */
  function CString(chunk: string): (s: string)
    ensures s <= chunk && Free(s, NUL)
    ensures Free(chunk, NUL) <==> s == chunk
    ensures |s| < |chunk| ==> chunk[|s|] == NUL
  {
    var p := Find(chunk, NUL, 0);
    if p < 0 then chunk else chunk[..p]
  }

  function CStrings(chunks: seq<string>): seq<string> {
    seq(|chunks|, i requires 0 <= i < |chunks| => CString(chunks[i]))
  }

  /** A line is dispatched unless it is empty. */
  function Dispatched(line: string): seq<string> {
    if line == "" then [] else [line]
  }

  /** The non-empty complete lines of a text. */
  function Lines(text: string): seq<string> {
    var p := Find(text, NL, 0);
    if p < 0 then [] else Dispatched(text[..p]) + Lines(text[p + 1..])
  }

  /** The unterminated rest behind the last newline. */
  function Tail(text: string): string {
    var p := Find(text, NL, 0);
    if p < 0 then text else Tail(text[p + 1..])
  }

  // ------------------------------------------------------------------ laws

  /** The text behind the first line can be treated on its own. */
  lemma Unfold(line: string, rest: string)
    requires Free(line, NL)
    ensures Lines(line + ("\n" + rest)) == Dispatched(line) + Lines(rest)
    ensures Tail(line + ("\n" + rest)) == Tail(rest)
  {
    hide Find, Lines, Tail, Dispatched, Free;
    LineEnds(line, rest);
    UnfoldAt(line + ("\n" + rest), |line|);
  }

  lemma LineEnds(line: string, rest: string)
    requires Free(line, NL)
    ensures var text := line + ("\n" + rest);
      Find(text, NL, 0) == |line| && text[..|line|] == line && text[|line| + 1..] == rest
  {
    hide Find;
    var text := line + ("\n" + rest);
    assert forall i :: 0 <= i < |line| ==> text[i] == line[i];
    FindIs(text, NL, 0, |line|);
  }

  lemma UnfoldAt(text: string, p: nat)
    requires Find(text, NL, 0) == p
    ensures Lines(text) == Dispatched(text[..p]) + Lines(text[p + 1..]) && Tail(text) == Tail(text[p + 1..])
  {
    hide Find, Dispatched;
  }

  /** A text either has no newline or is a first line and a rest. */
  lemma FirstLine(text: string) returns (line: string, rest: string)
    ensures Free(line, NL)
    ensures if Free(text, NL) then line == text && rest == "" else text == line + ("\n" + rest) && |rest| < |text|
  {
    hide Find;
    var p := Find(text, NL, 0);
    if p < 0 {
      line, rest := text, "";
    } else {
      line, rest := text[..p], text[p + 1..];
    }
  }

  /** Cutting a text anywhere and carrying the tail over changes neither lines nor tail. */
  lemma {:induction false} LinesSplit(a: string, b: string)
    ensures Lines(a + b) == Lines(a) + Lines(Tail(a) + b)
    ensures Tail(a + b) == Tail(Tail(a) + b)
    decreases |a|
  {
    hide Lines, Tail, Dispatched;
    var line, rest := FirstLine(a);
    if Free(a, NL) {
      LinesOfTail(a);
    } else {
      Unfold(line, rest);
      assert a + b == line + ("\n" + (rest + b));
      Unfold(line, rest + b);
      LinesSplit(rest, b);
    }
  }

  /** A newline-free text has no line yet. */
  lemma LinesOfTail(t: string)
    requires Free(t, NL)
    ensures Lines(t) == [] && Tail(t) == t
  {
    hide Find;
  }

  function Terminated(lines: seq<string>): string {
    if lines == [] then "" else lines[0] + "\n" + Terminated(lines[1..])
  }

  /** `Lines` inverts writing lines one below the other. */
  lemma {:induction false} LinesOfTerminated(lines: seq<string>, tail: string)
    requires forall i :: 0 <= i < |lines| ==> lines[i] != "" && Free(lines[i], NL)
    requires Free(tail, NL)
    ensures Lines(Terminated(lines) + tail) == lines
    ensures Tail(Terminated(lines) + tail) == tail
  {
    hide Lines, Tail;
    if lines == [] {
      assert Terminated(lines) + tail == tail;
      LinesOfTail(tail);
    } else {
      assert Terminated(lines) + tail == lines[0] + ("\n" + (Terminated(lines[1..]) + tail));
      Unfold(lines[0], Terminated(lines[1..]) + tail);
      LinesOfTerminated(lines[1..], tail);
      assert lines == [lines[0]] + lines[1..];
    }
  }

  /** Lines carry no newline, and no character the text does not have. */
  lemma {:induction false} LinesFree(text: string, c: char)
    requires c == NL || Free(text, c)
    ensures forall i :: 0 <= i < |Lines(text)| ==> Lines(text)[i] != "" && Free(Lines(text)[i], c)
    decreases |text|
  {
    hide Lines, Tail;
    var line, rest := FirstLine(text);
    if Free(text, NL) {
      LinesOfTail(text);
    } else {
      assert forall i :: 0 <= i < |line| ==> line[i] == text[i];
      assert forall i :: 0 <= i < |rest| ==> rest[i] == text[|line| + 1 + i];
      Unfold(line, rest);
      LinesFree(rest, c);
    }
  }

  lemma {:induction false} ConcatFree(parts: seq<string>, c: char)
    requires forall i :: 0 <= i < |parts| ==> Free(parts[i], c)
    ensures Free(Concat(parts), c)
  {
    if parts != [] {
      ConcatFree(parts[1..], c);
    }
  }

  lemma {:induction false} ConcatFreeParts(parts: seq<string>, c: char)
    requires Free(Concat(parts), c)
    ensures forall i :: 0 <= i < |parts| ==> Free(parts[i], c)
  {
    if parts != [] {
      var all := Concat(parts);
      assert forall i :: 0 <= i < |parts[0]| ==> parts[0][i] == all[i];
      assert forall i :: 0 <= i < |Concat(parts[1..])| ==> Concat(parts[1..])[i] == all[|parts[0]| + i];
      ConcatFreeParts(parts[1..], c);
      assert forall i :: 1 <= i < |parts| ==> parts[i] == parts[1..][i - 1];
    }
  }

  // ------------------------------------------------------------------ the receive loop

  class LineReader {
    var received: string

    constructor ()
      ensures received == ""
    {
      received := "";
    }

    /** One `recv` result: append it and cut off every complete line. */
    method Receive(chunk: string) returns (messages: seq<string>)
      modifies this
      ensures messages == Lines(old(received) + CString(chunk))
      ensures received == Tail(old(received) + CString(chunk))
    {
      hide Find, CString, Lines, Tail;
      received := received + CString(chunk);
      ghost var text := received;
      messages := [];
      var pos := Find(received, NL, 0);
      while pos >= 0
        invariant pos == Find(received, NL, 0)
        invariant messages + Lines(received) == Lines(text)
        invariant Tail(received) == Tail(text)
        decreases |received|
      {
        UnfoldAt(received, pos);
        ghost var first := Dispatched(received[..pos]);
        ghost var rest := Lines(received[pos + 1..]);
        assert messages + (first + rest) == (messages + first) + rest;
        var message := received[..pos];
        received := received[pos + 1..];
        if message != "" {
          messages := messages + [message];
        } else {
          assert messages + first == messages;
        }
        pos := Find(received, NL, 0);
      }
      LinesOfTail(received);
    }

    /** A whole connection: whatever the chunks, the dispatched messages are the lines of the
        received text, and the buffer keeps its unterminated rest. */
    method ReceiveAll(chunks: seq<string>) returns (messages: seq<string>)
      requires received == ""
      modifies this
      ensures messages == Lines(Concat(CStrings(chunks)))
      ensures received == Tail(Concat(CStrings(chunks)))
    {
      hide CString, Lines, Tail;
      LinesOfTail("");
      messages := [];
      var n := 0;
      while n < |chunks|
        invariant 0 <= n <= |chunks|
        invariant messages == Lines(Concat(CStrings(chunks)[..n]))
        invariant received == Tail(Concat(CStrings(chunks)[..n]))
      {
        ghost var before, c := Concat(CStrings(chunks)[..n]), CString(chunks[n]);
        assert CStrings(chunks)[..n + 1] == CStrings(chunks)[..n] + [c];
        ConcatAppend(CStrings(chunks)[..n], [c]);
        assert Concat([c]) == c;
        LinesSplit(before, c);
        var more := Receive(chunks[n]);
        messages := messages + more;
        n := n + 1;
      }
      assert CStrings(chunks)[..n] == CStrings(chunks);
    }
  }

  /** For NUL-free streams every chunking is dispatched like the unbroken stream. */
  lemma ChunkInvariance(stream: string, chunks: seq<string>)
    requires Concat(chunks) == stream && Free(stream, NUL)
    ensures Concat(CStrings(chunks)) == stream
    ensures Lines(Concat(CStrings(chunks))) == Lines(stream) && Tail(Concat(CStrings(chunks))) == Tail(stream)
  {
    ConcatFreeParts(chunks, NUL);
    assert CStrings(chunks) == chunks;
  }

  /** Only NULs follow a NUL. */
  predicate NulsLast(stream: string) {
    forall i, j :: 0 <= i < j < |stream| && stream[i] == NUL ==> stream[j] == NUL
  }

  /** However the stream is cut, the text received is that of the unbroken stream. */
  ghost predicate CutsAlike(stream: string) {
    forall chunks: seq<string> :: Concat(chunks) == stream ==> Concat(CStrings(chunks)) == CString(stream)
  }

  /** A C string is the text up to the first NUL. */
  lemma CStringIs(s: string, p: nat)
    requires p <= |s| && Free(s[..p], NUL) && (p < |s| ==> s[p] == NUL)
    ensures CString(s) == s[..p]
  {
    hide CString;
    var c := CString(s);
    assert forall i :: 0 <= i < p ==> s[..p][i] == s[i];
    assert forall i :: 0 <= i < |c| ==> c[i] == s[i];
  }

  lemma JoinCStrings(c: string, rest: string)
    requires NulsLast(c + rest)
    ensures CString(c) + CString(rest) == CString(c + rest) && NulsLast(rest)
  {
    hide CString;
    var stream, p, q := c + rest, |CString(c)|, |CString(rest)|;
    assert forall i :: 0 <= i < |rest| ==> rest[i] == stream[|c| + i];
    if p == |c| {
      assert stream[..p + q] == c + CString(rest);
      CStringIs(stream, p + q);
    } else {
      assert stream[p] == NUL;
      CStringIs(rest, 0);
      assert stream[..p] == CString(c);
      CStringIs(stream, p);
    }
  }

  lemma {:induction false} NulsLastCut(chunks: seq<string>)
    requires NulsLast(Concat(chunks))
    ensures Concat(CStrings(chunks)) == CString(Concat(chunks))
  {
    hide CString, NulsLast;
    if chunks == [] {
      CStringIs("", 0);
    } else {
      JoinCStrings(chunks[0], Concat(chunks[1..]));
      NulsLastCut(chunks[1..]);
      assert CStrings(chunks) == [CString(chunks[0])] + CStrings(chunks[1..]);
    }
  }

  /** Behind a NUL, cutting just before any other character makes that character arrive. */
  lemma NulHides(stream: string, i: nat, j: nat)
    requires i < j < |stream| && stream[i] == NUL && stream[j] != NUL
    ensures Concat([stream[..j], stream[j..]]) == stream
    ensures Concat(CStrings([stream[..j], stream[j..]])) != CString(stream)
  {
    hide CString;
    var a, b := stream[..j], stream[j..];
    ConcatTwo(a, b);
    var p := |CString(stream)|;
    assert forall k :: 0 <= k < p ==> CString(stream)[k] == stream[k];
    assert a[..p] == CString(stream);
    CStringIs(a, p);
    assert CStrings([a, b]) == [CString(a), CString(b)];
    ConcatTwo(CString(a), CString(b));
    assert b[0] == stream[j];
  }

  /** The cut into chunks does not matter exactly when nothing but NULs follows a NUL. */
  lemma CutsAlikeIff(stream: string)
    ensures CutsAlike(stream) <==> NulsLast(stream)
  {
    hide CString, Concat, CStrings;
    if NulsLast(stream) {
      forall chunks: seq<string> | Concat(chunks) == stream ensures Concat(CStrings(chunks)) == CString(stream) {
        NulsLastCut(chunks);
      }
    } else {
      var i: nat, j: nat :| i < j < |stream| && stream[i] == NUL && stream[j] != NUL;
      NulHides(stream, i, j);
    }
  }

  lemma ConcatTwo(a: string, b: string)
    ensures Concat([a]) == a && Concat([a, b]) == a + b
  {
    assert Concat([b]) == b;
  }

  // ------------------------------------------------------------------ end to end

  /** The names and the id survive framing and decoding. The content may be any bytes. */
  predicate WireSafe(m: ChatMessage) {
    && Free(m.sender, BAR) && Free(m.sender, NL) && Free(m.sender, NUL)
    && Free(m.receiver, BAR) && Free(m.receiver, NL) && Free(m.receiver, NUL)
    && Free(m.id, NL) && Free(m.id, NUL)
  }

  function MapLine(ms: seq<ChatMessage>): seq<string> {
    seq(|ms|, i requires 0 <= i < |ms| => Line(ms[i]))
  }

  function MapEncode(ms: seq<ChatMessage>): seq<string> {
    seq(|ms|, i requires 0 <= i < |ms| => Encode(ms[i]))
  }

  function MapDecode(lines: seq<string>): seq<Option<ChatMessage>> {
    seq(|lines|, i requires 0 <= i < |lines| => Decode(lines[i]))
  }

  function MapSome(ms: seq<ChatMessage>): seq<Option<ChatMessage>> {
    seq(|ms|, i requires 0 <= i < |ms| => Some(ms[i]))
  }

  lemma {:induction false} EncodedStream(ms: seq<ChatMessage>)
    ensures Concat(MapEncode(ms)) == Terminated(MapLine(ms))
  {
    hide Line;
    if ms != [] {
      EncodedStream(ms[1..]);
      assert MapEncode(ms)[1..] == MapEncode(ms[1..]);
      assert MapLine(ms)[1..] == MapLine(ms[1..]);
    }
  }

  lemma FreeAround(a: string, b: string, c: char)
    requires c != BAR
    ensures Free(a + ("|" + b), c) <==> Free(a, c) && Free(b, c)
  {
    var all := a + ("|" + b);
    assert forall i :: 0 <= i < |a| ==> a[i] == all[i];
    assert forall i :: 0 <= i < |b| ==> b[i] == all[|a| + 1 + i];
  }

  lemma {:induction false} JoinFree(fields: seq<string>, c: char)
    requires fields != [] && c != BAR
    ensures Free(Join(fields), c) <==> forall i :: 0 <= i < |fields| ==> Free(fields[i], c)
  {
    hide Free;
    if |fields| > 1 {
      JoinFree(fields[1..], c);
      FreeAround(fields[0], Join(fields[1..]), c);
      assert fields == [fields[0]] + fields[1..];
    }
  }

  /** A safe message is one non-empty line, free of newline and NUL, that decodes to it. */
  lemma SafeLine(m: ChatMessage)
    requires WireSafe(m)
    ensures Line(m) != "" && Free(Line(m), NL) && Free(Line(m), NUL) && Line(m)[0] == 'M'
    ensures Decode(Line(m)) == Some(m)
  {
    hide Decode;
    EncodedFieldsFree(m);
    var fields := ["MSG", m.sender, m.receiver, IntToString(m.kind), Base64.Encode(m.content), m.id];
    JoinFree(fields, NL);
    JoinFree(fields, NUL);
    DecodeLineIff(m);
  }

  /** Messages decoded from a line without newline and NUL are safe. */
  lemma DecodedSafe(data: string)
    requires Free(data, NL) && Free(data, NUL)
    ensures Decode(data).Some? ==> WireSafe(Decode(data).value)
  {
    hide Stoi, Base64.Decode;
    DecodedFree(data);
    DecodedId(data, NL);
    DecodedId(data, NUL);
  }

  lemma SafeArrives(ms: seq<ChatMessage>, chunks: seq<string>)
    requires Concat(chunks) == Concat(MapEncode(ms))
    requires forall i :: 0 <= i < |ms| ==> WireSafe(ms[i])
    ensures var text := Concat(CStrings(chunks)); MapDecode(Lines(text)) == MapSome(ms) && Tail(text) == ""
  {
    hide Line, Decode, WireSafe, Lines, Tail, Terminated, CString, Concat;
    var lines := MapLine(ms);
    forall i | 0 <= i < |ms| ensures lines[i] != "" && Free(lines[i], NL) && Free(MapEncode(ms)[i], NUL)
      ensures Decode(lines[i]) == Some(ms[i])
    {
      SafeLine(ms[i]);
    }
    ConcatFree(MapEncode(ms), NUL);
    ChunkInvariance(Concat(chunks), chunks);
    EncodedStream(ms);
    LinesOfTerminated(lines, "");
    assert Terminated(lines) + "" == Terminated(lines);
    assert MapDecode(lines) == MapSome(ms);
  }

  lemma ArrivedSafe(ms: seq<ChatMessage>, chunks: seq<string>)
    requires MapDecode(Lines(Concat(CStrings(chunks)))) == MapSome(ms)
    ensures forall i :: 0 <= i < |ms| ==> WireSafe(ms[i])
  {
    hide Decode, WireSafe, Lines, Concat;
    var lines := Lines(Concat(CStrings(chunks)));
    ConcatFree(CStrings(chunks), NUL);
    LinesFree(Concat(CStrings(chunks)), NL);
    LinesFree(Concat(CStrings(chunks)), NUL);
    forall i | 0 <= i < |ms| ensures WireSafe(ms[i]) {
      assert MapDecode(lines)[i] == MapSome(ms)[i];
      DecodedSafe(lines[i]);
    }
  }

  /** Messages encoded, concatenated and cut into any chunks come out of the receive loop and
      the decoder as the same sequence, with an empty buffer, exactly when all are safe. */
  lemma EndToEnd(ms: seq<ChatMessage>, chunks: seq<string>)
    requires Concat(chunks) == Concat(MapEncode(ms))
    ensures var text := Concat(CStrings(chunks));
      MapDecode(Lines(text)) == MapSome(ms) && Tail(text) == "" <==> forall i :: 0 <= i < |ms| ==> WireSafe(ms[i])
  {
    hide *;
    if forall i :: 0 <= i < |ms| ==> WireSafe(ms[i]) {
      SafeArrives(ms, chunks);
    }
    if MapDecode(Lines(Concat(CStrings(chunks)))) == MapSome(ms) {
      ArrivedSafe(ms, chunks);
    }
  }
}
