/** The line format `MSG|sender|receiver|type|base64(content)|id` of `ChatProtocol`. */
module Wire {
  import opened Text
  import opened Numbers
  import Base64

  /** The fields of a chat message that travel on the wire; `kind` is the value of the
      `Type` enumeration, which the decoder accepts unchecked. */
  datatype ChatMessage = ChatMessage(sender: string, receiver: string, kind: Int32, content: Bytes, id: string)

  const BROADCAST: Int32 := 0
  const PRIVATE: Int32 := 1
  const ROOM_MESSAGE: Int32 := 18

  // ------------------------------------------------------------------ encoder

  function Join(fields: seq<string>): string
    requires fields != []
  {
    if |fields| == 1 then fields[0] else fields[0] + ("|" + Join(fields[1..]))
  }

  /** The encoded line without its final newline. */
  function Line(m: ChatMessage): string {
    Join(["MSG", m.sender, m.receiver, IntToString(m.kind), Base64.Encode(m.content), m.id])
  }

  function Encode(m: ChatMessage): string {
    Line(m) + "\n"
  }

  // ------------------------------------------------------------------ decoder

  datatype Field = NoField | Field(text: string, next: nat)

  /** One `find(FIELD_SEPARATOR, pos)` / `substr` step of the decoder. */
  function NextField(data: string, pos: nat): (f: Field)
    ensures f.Field? ==> pos < f.next <= |data|
  {
    var end := Find(data, BAR, pos);
    if end < 0 then NoField else Field(data[pos..end], end + 1)
  }

  function DropNewline(s: string): string {
    if s != "" && s[|s| - 1] == NL then s[..|s| - 1] else s
  }

  function Decode(data: string): Option<ChatMessage> {
    if |data| < 3 || data[..3] != "MSG" then None
    else if 3 < |data| && data[3] != BAR then None
    else
      var sender := NextField(data, 4);
      if sender.NoField? then None else
      var receiver := NextField(data, sender.next);
      if receiver.NoField? then None else
      DecodeRest(data, receiver.next, sender.text, receiver.text)
  }

  /** The fields behind the names. */
  function DecodeRest(data: string, pos: nat, sender: string, receiver: string): (m: Option<ChatMessage>)
    requires pos <= |data|
    ensures m.Some? ==> m.value.sender == sender && m.value.receiver == receiver
  {
    var kindText := NextField(data, pos);
    if kindText.NoField? then None else
    var kind := Stoi(kindText.text, 10);
    if kind.None? then None else
    var content := NextField(data, kindText.next);
    if content.NoField? then None else
    Some(ChatMessage(sender, receiver, kind.value, Base64.Decode(content.text), DropNewline(data[content.next..])))
  }

  // ------------------------------------------------------------------ round trip

  /** A separator-free field is read up to its separator, and reading goes on behind it. */
  lemma FieldAt(data: string, pos: nat, field: string, rest: string)
    requires pos <= |data| && data[pos..] == field + ("|" + rest)
    requires Free(field, BAR)
    ensures NextField(data, pos) == Field(field, pos + |field| + 1)
    ensures data[pos + |field| + 1..] == rest
  {
    var end := pos + |field|;
    assert forall i :: pos <= i < end ==> data[i] == data[pos..][i - pos] == field[i - pos];
    assert data[end] == data[pos..][|field|] == BAR;
    FindIs(data, BAR, pos, end);
    assert data[pos..end] == field;
    assert data[end + 1..] == data[pos..][|field| + 1..];
  }

  /** What the decoder reads from five fields of which the first four are separator-free. */
  lemma DecodeFields(sender: string, receiver: string, kind: string, content: string, id: string)
    requires Free(sender, BAR) && Free(receiver, BAR) && Free(kind, BAR) && Free(content, BAR)
    ensures Decode(Join(["MSG", sender, receiver, kind, content, id])) ==
      match Stoi(kind, 10)
      case None => None
      case Some(k) => Some(ChatMessage(sender, receiver, k, Base64.Decode(content), DropNewline(id)))
  {
    hide Base64.Decode, Stoi, NextField, DropNewline, Join, Free, DecodeRest;
    var rest := kind + ("|" + (content + ("|" + id)));
    var data := Join(["MSG", sender, receiver, kind, content, id]);
    JoinSix("MSG", sender, receiver, kind, content, id);
    Head("MSG", sender + ("|" + (receiver + ("|" + rest))));
    FieldAt(data, 4, sender, receiver + ("|" + rest));
    var pos := 4 + |sender| + 1;
    FieldAt(data, pos, receiver, rest);
    DecodeRestFields(data, pos + |receiver| + 1, sender, receiver, kind, content, id);
  }

  lemma DecodeRestFields(data: string, pos: nat, sender: string, receiver: string, kind: string, content: string,
                         id: string)
    requires Free(kind, BAR) && Free(content, BAR)
    requires pos <= |data| && data[pos..] == kind + ("|" + (content + ("|" + id)))
    ensures DecodeRest(data, pos, sender, receiver) ==
      match Stoi(kind, 10)
      case None => None
      case Some(k) => Some(ChatMessage(sender, receiver, k, Base64.Decode(content), DropNewline(id)))
  {
    hide Base64.Decode, Stoi, NextField, DropNewline, Free;
    FieldAt(data, pos, kind, content + ("|" + id));
    FieldAt(data, pos + |kind| + 1, content, id);
  }

  lemma Head(tag: string, rest: string)
    ensures var data := tag + ("|" + rest);
      data[..|tag|] == tag && data[|tag|] == BAR && data[|tag| + 1..] == rest
  {
  }

  lemma JoinSix(a: string, b: string, c: string, d: string, e: string, f: string)
    ensures Join([a, b, c, d, e, f]) == a + ("|" + (b + ("|" + (c + ("|" + (d + ("|" + (e + ("|" + f)))))))))
  {
    assert [a, b, c, d, e, f][1..] == [b, c, d, e, f];
    assert [b, c, d, e, f][1..] == [c, d, e, f];
    assert [c, d, e, f][1..] == [d, e, f];
    assert [d, e, f][1..] == [e, f];
    assert [e, f][1..] == [f];
    assert Join([e, f]) == e + ("|" + f);
    assert Join([d, e, f]) == d + ("|" + Join([e, f]));
    assert Join([c, d, e, f]) == c + ("|" + Join([d, e, f]));
    assert Join([b, c, d, e, f]) == b + ("|" + Join([c, d, e, f]));
  }

  lemma JoinNewline(a: string, b: string, c: string, d: string, e: string, f: string)
    ensures Join([a, b, c, d, e, f]) + "\n" == Join([a, b, c, d, e, f + "\n"])
  {
    JoinSix(a, b, c, d, e, f);
    JoinSix(a, b, c, d, e, f + "\n");
    AppendAfter(e, f, "\n");
    AppendAfter(d, e + ("|" + f), "\n");
    AppendAfter(c, d + ("|" + (e + ("|" + f))), "\n");
    AppendAfter(b, c + ("|" + (d + ("|" + (e + ("|" + f))))), "\n");
    AppendAfter(a, b + ("|" + (c + ("|" + (d + ("|" + (e + ("|" + f))))))), "\n");
  }

  lemma AppendAfter(field: string, rest: string, more: string)
    ensures field + ("|" + rest) + more == field + ("|" + (rest + more))
  {
  }

  predicate SeparatorFree(m: ChatMessage) {
    Free(m.sender, BAR) && Free(m.receiver, BAR)
  }

  lemma EncodedFieldsFree(m: ChatMessage)
    ensures Free(IntToString(m.kind), BAR) && Free(Base64.Encode(m.content), BAR)
    ensures Free(IntToString(m.kind), NL) && Free(Base64.Encode(m.content), NL)
    ensures Free(IntToString(m.kind), NUL) && Free(Base64.Encode(m.content), NUL)
  {
    PrintedChars(m.kind);
    Base64.EncodeChars(m.content);
  }

  /** Decoded messages never hold a separator in their first two fields. */
  lemma DecodedFree(data: string)
    ensures Decode(data).Some? ==> SeparatorFree(Decode(data).value)
  {
    hide Stoi, Base64.Decode;
  }

  /** The id holds no character the text does not. */
  lemma DecodedId(data: string, c: char)
    requires Free(data, c)
    ensures Decode(data).Some? ==> Free(Decode(data).value.id, c)
  {
    hide Stoi, Base64.Decode, DropNewline, NextField;
    forall pos: nat | pos <= |data| ensures Free(DropNewline(data[pos..]), c) {
      DroppedFree(data[pos..], c);
    }
  }

  lemma DroppedFree(s: string, c: char)
    requires Free(s, c)
    ensures Free(DropNewline(s), c)
  {
  }

  /** The decoder inverts the encoder on a message exactly when neither name holds a
      separator; the id may hold anything, as the one newline added is the one removed. */
  lemma DecodeEncodeIff(m: ChatMessage)
    ensures Decode(Encode(m)) == Some(m) <==> SeparatorFree(m)
  {
    hide Decode, Join, Stoi, Base64.Decode;
    DecodedFree(Encode(m));
    if SeparatorFree(m) {
      EncodedFieldsFree(m);
      StoiOfPrinted(m.kind);
      Base64.DecodeEncode(m.content);
      var kind, content := IntToString(m.kind), Base64.Encode(m.content);
      DecodeFields(m.sender, m.receiver, kind, content, m.id + "\n");
      JoinNewline("MSG", m.sender, m.receiver, kind, content, m.id);
    }
  }

  /** Without its newline, as the framing loop hands it over, an encoded line decodes to the
      message exactly when in addition the id does not end in a newline. */
  lemma DecodeLineIff(m: ChatMessage)
    ensures Decode(Line(m)) == Some(m) <==> SeparatorFree(m) && DropNewline(m.id) == m.id
  {
    hide Decode, Join, Stoi, Base64.Decode;
    DecodedFree(Line(m));
    if SeparatorFree(m) {
      EncodedFieldsFree(m);
      StoiOfPrinted(m.kind);
      Base64.DecodeEncode(m.content);
      DecodeFields(m.sender, m.receiver, IntToString(m.kind), Base64.Encode(m.content), m.id);
    }
  }

  /** Whatever the decoder accepts, however sloppy the integer or the Base64, is a fixed point
      of encoding and decoding. */
  lemma DecodeNormalises(data: string)
    ensures Decode(data).Some? ==> Decode(Encode(Decode(data).value)) == Decode(data)
  {
    DecodedFree(data);
    if Decode(data).Some? {
      DecodeEncodeIff(Decode(data).value);
    }
  }

  // ------------------------------------------------------------------ the format

  /** The parts of a text between its separators. */
  function Split(text: string): (parts: seq<string>)
    ensures parts != [] && forall i :: 0 <= i < |parts| ==> Free(parts[i], BAR)
    decreases |text|
  {
    var p := Find(text, BAR, 0);
    if p < 0 then [text] else [text[..p]] + Split(text[p + 1..])
  }

  /** Fields joined and split again are the same exactly when none holds a separator. */
  lemma {:induction false} SplitJoinIff(fields: seq<string>)
    requires fields != []
    ensures Split(Join(fields)) == fields <==> forall i :: 0 <= i < |fields| ==> Free(fields[i], BAR)
  {
    hide Free, Find;
    if forall i :: 0 <= i < |fields| ==> Free(fields[i], BAR) {
      if |fields| == 1 {
        SplitFree(fields[0]);
      } else {
        SplitFirst(fields[0], Join(fields[1..]));
        SplitJoinIff(fields[1..]);
        assert fields == [fields[0]] + fields[1..];
      }
    }
  }

  lemma SplitFree(text: string)
    requires Free(text, BAR)
    ensures Split(text) == [text]
  {
  }

  lemma SplitFirst(field: string, rest: string)
    requires Free(field, BAR)
    ensures Split(field + ("|" + rest)) == [field] + Split(rest)
  {
    hide Find;
    var text := field + ("|" + rest);
    SeparatorAt(field, rest);
    assert text[..|field|] == field && text[|field| + 1..] == rest;
  }

  lemma SeparatorAt(field: string, rest: string)
    requires Free(field, BAR)
    ensures Find(field + ("|" + rest), BAR, 0) == |field|
  {
    hide Find;
    var text := field + ("|" + rest);
    assert forall i :: 0 <= i < |field| ==> text[i] == field[i];
    FindIs(text, BAR, 0, |field|);
  }

  /** An encoded message has its six fields in this order, exactly when no name and no id holds a separator. */
  lemma FieldsIff(m: ChatMessage)
    ensures Encode(m) == Line(m) + "\n"
    ensures Split(Line(m)) == ["MSG", m.sender, m.receiver, IntToString(m.kind), Base64.Encode(m.content), m.id]
      <==> Free(m.sender, BAR) && Free(m.receiver, BAR) && Free(m.id, BAR)
  {
    hide Split, Join, Base64.Encode, Free;
    var fields := ["MSG", m.sender, m.receiver, IntToString(m.kind), Base64.Encode(m.content), m.id];
    SplitJoinIff(fields);
    EncodedFieldsFree(m);
    TagFree();
    assert fields[1] == m.sender && fields[2] == m.receiver && fields[5] == m.id;
  }

  lemma TagFree()
    ensures Free("MSG", BAR)
  {
  }

  // ------------------------------------------------------------------ what is accepted

  /** The text is a tag, four fields without separators, the third of them a number, and anything else. */
  ghost predicate IsMessage(data: string, sender: string, receiver: string, kind: string, content: string, id: string) {
    && data == Join(["MSG", sender, receiver, kind, content, id])
    && Free(sender, BAR) && Free(receiver, BAR) && Free(kind, BAR) && Free(content, BAR) && Stoi(kind, 10).Some?
  }

  /** What a step of the decoder has found stands in the text, in front of a separator. */
  lemma FieldFound(data: string, pos: nat)
    requires pos <= |data| && NextField(data, pos).Field?
    ensures var f := NextField(data, pos); Free(f.text, BAR) && data[pos..] == f.text + ("|" + data[f.next..])
  {
    hide Find;
    var f := NextField(data, pos);
    var end := f.next - 1;
    assert forall i :: 0 <= i < |f.text| ==> f.text[i] == data[pos + i];
    assert data[pos..] == data[pos..end] + ([data[end]] + data[end + 1..]);
  }

  /** A text is decoded exactly if it is such a text, and then to these fields, with the number and the content
      decoded and one newline at the end dropped. */
  lemma DecodeIff(data: string)
    ensures Decode(data).Some? <==>
      exists sender, receiver, kind, content, id :: IsMessage(data, sender, receiver, kind, content, id)
    ensures forall sender, receiver, kind, content, id :: IsMessage(data, sender, receiver, kind, content, id) ==>
      Decode(data) ==
        Some(ChatMessage(sender, receiver, Stoi(kind, 10).value, Base64.Decode(content), DropNewline(id)))
  {
    hide Decode, Join, Stoi, Base64.Decode, DropNewline, Free;
    forall sender, receiver, kind, content, id | IsMessage(data, sender, receiver, kind, content, id)
      ensures Decode(data) ==
        Some(ChatMessage(sender, receiver, Stoi(kind, 10).value, Base64.Decode(content), DropNewline(id)))
    {
      DecodeFields(sender, receiver, kind, content, id);
    }
    if Decode(data).Some? {
      DecodedParts(data);
    }
  }

  lemma DecodedParts(data: string)
    requires Decode(data).Some?
    ensures exists sender, receiver, kind, content, id :: IsMessage(data, sender, receiver, kind, content, id)
  {
    hide Join, Stoi, Base64.Decode, DropNewline, Free, NextField;
    if |data| <= 4 {
      FieldNone(data);
    }
    var s := NextField(data, 4);
    FieldFound(data, 4);
    var r := NextField(data, s.next);
    FieldFound(data, s.next);
    var k := NextField(data, r.next);
    FieldFound(data, r.next);
    var c := NextField(data, k.next);
    FieldFound(data, k.next);
    JoinSix("MSG", s.text, r.text, k.text, c.text, data[c.next..]);
    assert data == data[..3] + ([data[3]] + data[4..]);
    assert IsMessage(data, s.text, r.text, k.text, c.text, data[c.next..]);
  }

  lemma FieldNone(data: string)
    requires |data| <= 4
    ensures NextField(data, 4).NoField?
  {
  }
}
