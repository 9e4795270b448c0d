/** Files on the wire: the blocks `/transfer` and `/file` cut them into, the `FILE_DATA` line of
    each, and what a receiver gets back. */
module FileTransfer {
  import opened Text
  import opened Numbers
  import opened Wire
  import Base64

  const BLOCK_SIZE := 4096

  datatype Block = Block(offset: nat, data: Bytes, complete: bool)

  /** The fields of a `FILE_DATA` line. */
  datatype FileData = FileData(
    sender: string, receiver: string, fileName: string, offset: nat, payload: string, complete: bool)

  // ------------------------------------------------------------------ cutting

  /** What a read of one buffer at `offset` returns: nothing only at the end of the file. */
  function Read(file: Bytes, offset: nat): Bytes {
    if offset >= |file| then ""
    else if offset + BLOCK_SIZE <= |file| then file[offset..offset + BLOCK_SIZE]
    else file[offset..]
  }

  function BlocksFrom(file: Bytes, offset: nat): seq<Block>
    decreases |file| - offset
  {
    if offset >= |file| then []
    else
      var data := Read(file, offset);
      [Block(offset, data, offset + |data| >= |file|)] + BlocksFrom(file, offset + |data|)
  }

  /** The read loop: the offset runs on by what was read, and the flag compares it with the size. */
  method Cut(file: Bytes) returns (blocks: seq<Block>)
    ensures blocks == BlocksFrom(file, 0)
  {
    blocks := [];
    var offset := 0;
    var data := Read(file, offset);
    while data != ""
      invariant 0 <= offset <= |file| && data == Read(file, offset)
      invariant blocks + BlocksFrom(file, offset) == BlocksFrom(file, 0)
      decreases |file| - offset
    {
      var complete := offset + |data| >= |file|;
      ghost var rest := BlocksFrom(file, offset + |data|);
      assert blocks + ([Block(offset, data, complete)] + rest) == blocks + [Block(offset, data, complete)] + rest;
      blocks := blocks + [Block(offset, data, complete)];
      offset := offset + |data|;
      data := Read(file, offset);
    }
    assert blocks + [] == blocks;
  }

  /** How many blocks a number of bytes takes. */
  function BlockCount(size: nat): nat {
    (size + BLOCK_SIZE - 1) / BLOCK_SIZE
  }

  lemma BlockCountOne(size: nat)
    ensures size == 0 ==> BlockCount(size) == 0
    ensures 0 < size <= BLOCK_SIZE ==> BlockCount(size) == 1
    ensures size > BLOCK_SIZE ==> BlockCount(size) == 1 + BlockCount(size - BLOCK_SIZE)
  {
  }

  /** The blocks follow each other without gap, all but the last are full, and exactly the last is
      marked complete. */
  lemma {:induction false} BlocksExact(file: Bytes, offset: nat)
    requires offset <= |file|
    ensures var blocks := BlocksFrom(file, offset);
      && |blocks| == BlockCount(|file| - offset)
      && forall i :: 0 <= i < |blocks| ==>
           && blocks[i].offset == offset + BLOCK_SIZE * i && blocks[i].data == Read(file, blocks[i].offset)
           && (|blocks[i].data| == BLOCK_SIZE || i == |blocks| - 1) && blocks[i].data != ""
           && (blocks[i].complete <==> i == |blocks| - 1)
    decreases |file| - offset
  {
    hide BlockCount;
    var blocks := BlocksFrom(file, offset);
    BlockCountOne(|file| - offset);
    if offset < |file| {
      var data := Read(file, offset);
      var rest := BlocksFrom(file, offset + |data|);
      BlocksExact(file, offset + |data|);
      BlockCountOne(|file| - offset - |data|);
      forall i | 1 <= i < |blocks|
        ensures blocks[i] == rest[i - 1] && |data| == BLOCK_SIZE
      {
      }
      assert |rest| == 0 <==> offset + |data| >= |file|;
    }
  }

  /** A receiver sees a complete transfer exactly when there was something to transfer. */
  lemma CompleteIff(file: Bytes)
    ensures (exists i :: 0 <= i < |BlocksFrom(file, 0)| && BlocksFrom(file, 0)[i].complete) <==> file != ""
  {
    hide BlockCount;
    BlocksExact(file, 0);
    BlockCountOne(|file|);
    var blocks := BlocksFrom(file, 0);
    if file != "" {
      assert blocks[|blocks| - 1].complete;
    }
  }

  // ------------------------------------------------------------------ putting together

  /** Writing a decoded payload at its offset, as far as the buffer goes. */
  function Place(buffer: Bytes, d: FileData): (r: Bytes)
    ensures |r| == |buffer|
  {
    var data := Base64.Decode(d.payload);
    if d.offset + |data| > |buffer| then buffer
    else buffer[..d.offset] + data + buffer[d.offset + |data|..]
  }

  function PlaceAll(buffer: Bytes, arrivals: seq<FileData>): (r: Bytes)
    ensures |r| == |buffer|
  {
    if arrivals == [] then buffer else Place(PlaceAll(buffer, arrivals[..|arrivals| - 1]), arrivals[|arrivals| - 1])
  }

  function Sent(sender: string, receiver: string, fileName: string, b: Block): FileData {
    FileData(sender, receiver, fileName, b.offset, Base64.Encode(b.data), b.complete)
  }

  function SentAll(sender: string, receiver: string, fileName: string, blocks: seq<Block>): seq<FileData> {
    seq(|blocks|, i requires 0 <= i < |blocks| => Sent(sender, receiver, fileName, blocks[i]))
  }

  lemma PlaceSent(buffer: Bytes, file: Bytes, d: FileData, sender: string, receiver: string, fileName: string,
                  b: Block, k: nat)
    requires |buffer| == |file| && k < |file| && d == Sent(sender, receiver, fileName, b)
    requires b.offset < |file| && b.data == Read(file, b.offset)
    ensures Place(buffer, d)[k] == if b.offset <= k < b.offset + |b.data| then file[k] else buffer[k]
  {
    hide Base64.Encode, Base64.Decode;
    Base64.DecodeEncode(b.data);
  }

  /** Of the lines of a file, those that arrived decide a byte as soon as one of them covers it. */
  lemma {:induction false} PlacedAt(buffer: Bytes, file: Bytes, sender: string, receiver: string, fileName: string,
                                    arrivals: seq<FileData>, k: nat)
    requires |buffer| == |file| && k < |file|
    requires forall d :: d in arrivals ==> d in SentAll(sender, receiver, fileName, BlocksFrom(file, 0))
    requires exists d :: d in arrivals && d.offset == k / BLOCK_SIZE * BLOCK_SIZE
    ensures PlaceAll(buffer, arrivals)[k] == file[k]
  {
    hide Base64.Encode, Base64.Decode, Place, BlockCount;
    var blocks := BlocksFrom(file, 0);
    BlocksExact(file, 0);
    var front, last := arrivals[..|arrivals| - 1], arrivals[|arrivals| - 1];
    assert arrivals == front + [last];
    var lines := SentAll(sender, receiver, fileName, blocks);
    assert last in lines;
    var i :| 0 <= i < |lines| && last == lines[i];
    PlaceSent(PlaceAll(buffer, front), file, last, sender, receiver, fileName, blocks[i], k);
    BlockOf(file, i, k);
    if last.offset != k / BLOCK_SIZE * BLOCK_SIZE {
      PlacedAt(buffer, file, sender, receiver, fileName, front, k);
    }
  }

  lemma BlockOf(file: Bytes, i: nat, k: nat)
    requires BLOCK_SIZE * i < |file| && k < |file|
    ensures BLOCK_SIZE * i <= k < BLOCK_SIZE * i + |Read(file, BLOCK_SIZE * i)| <==>
      BLOCK_SIZE * i == k / BLOCK_SIZE * BLOCK_SIZE
  {
  }

  /** Once every line has arrived, in whatever order and however often, the file is there. */
  lemma ArrivedWhole(buffer: Bytes, file: Bytes, sender: string, receiver: string, fileName: string,
                     arrivals: seq<FileData>)
    requires |buffer| == |file|
    requires forall d :: d in arrivals <==> d in SentAll(sender, receiver, fileName, BlocksFrom(file, 0))
    ensures PlaceAll(buffer, arrivals) == file
  {
    hide Base64.Encode, Base64.Decode, Place, PlaceAll, BlockCount;
    var blocks := BlocksFrom(file, 0);
    var lines := SentAll(sender, receiver, fileName, blocks);
    BlocksExact(file, 0);
    forall k | 0 <= k < |file| ensures PlaceAll(buffer, arrivals)[k] == file[k] {
      BlockExists(|file|, k);
      assert lines[k / BLOCK_SIZE] in lines && lines[k / BLOCK_SIZE].offset == blocks[k / BLOCK_SIZE].offset;
      PlacedAt(buffer, file, sender, receiver, fileName, arrivals, k);
    }
  }

  lemma BlockExists(size: nat, k: nat)
    requires k < size
    ensures k / BLOCK_SIZE < BlockCount(size)
  {
  }

  // ------------------------------------------------------------------ the line

  function Flag(complete: bool): string {
    if complete then "1" else "0"
  }

  function Fields(d: FileData): seq<string> {
    ["FILE_DATA", d.sender, d.receiver, d.fileName, NatToString(d.offset), d.payload, Flag(d.complete)]
  }

  /** `encodeFileData`. */
  function DataLine(d: FileData): string {
    Join(Fields(d)) + "\n"
  }

  /** What follows the last slash or backslash of a path. */
  function FileName(path: string): (name: string)
    ensures Free(name, '/') && Free(name, '\\') && |name| <= |path| && name == path[|path| - |name|..]
    ensures |name| < |path| ==> path[|path| - |name| - 1] == '/' || path[|path| - |name| - 1] == '\\'
  {
    if path == "" || path[|path| - 1] == '/' || path[|path| - 1] == '\\' then ""
    else FileName(path[..|path| - 1]) + [path[|path| - 1]]
  }

  /** `encodeFileTransfer`, then a line for each block. */
  function FileTexts(sender: string, receiver: string, fileName: string, file: Bytes): seq<string> {
    var header := Join(["FILE_TRANSFER", sender, receiver, fileName, NatToString(|file|)]) + "\n";
    [header] + BlockTexts(sender, receiver, fileName, BlocksFrom(file, 0))
  }

  function BlockTexts(sender: string, receiver: string, fileName: string, blocks: seq<Block>): seq<string> {
    seq(|blocks|, i requires 0 <= i < |blocks| => DataLine(Sent(sender, receiver, fileName, blocks[i])))
  }

  const TWO_TO_THE_64 := 0x1_0000_0000_0000_0000

  /** `std::stoull`: a sign wraps around, no digits and too large a value are its exceptions. */
  function Stoull(s: string): Option<nat> {
    var body := SkipSpace(s);
    if body != "" && body[0] == '-' then Unsigned(Digits(body[1..], 10), true)
    else if body != "" && body[0] == '+' then Unsigned(Digits(body[1..], 10), false)
    else Unsigned(Digits(body, 10), false)
  }

  function Unsigned(digits: string, negative: bool): Option<nat> {
    var v := Value(digits, 10);
    if digits == "" || !(0 <= v < TWO_TO_THE_64) then None
    else if negative && v != 0 then Some(TWO_TO_THE_64 - v)
    else Some(v)
  }

  /** What the server's `FILE_DATA` branch makes of a message: it gives up without a separator or
      the final newline, and a number it cannot read is an uncaught exception. */
  datatype Reading = GivesUp | Throws | Reads(d: FileData)

  function ReadData(message: string): Reading {
    var sender := NextField(message, 10);
    if sender.NoField? then GivesUp else
    var receiver := NextField(message, sender.next);
    if receiver.NoField? then GivesUp else
    var fileName := NextField(message, receiver.next);
    if fileName.NoField? then GivesUp else
    ReadBlock(message, fileName.next, sender.text, receiver.text, fileName.text)
  }

  function ReadBlock(message: string, pos: nat, sender: string, receiver: string, fileName: string): Reading {
    var offsetText := NextField(message, pos);
    if offsetText.NoField? then GivesUp else
    var offset := Stoull(offsetText.text);
    if offset.None? then Throws else
    match ReadPayload(message, offsetText.next)
    case None => GivesUp
    case Some((payload, complete)) => Reads(FileData(sender, receiver, fileName, offset.value, payload, complete))
  }

  function ReadPayload(message: string, pos: nat): Option<(string, bool)> {
    var payload := NextField(message, pos);
    if payload.NoField? then None else
    var end := Find(message, NL, payload.next);
    if end < 0 then None else Some((payload.text, message[payload.next..end] == "1"))
  }

  /** The branch never acts on a framed message: framing has taken the newline it looks for. */
  lemma FramedNeverRead(message: string)
    requires Free(message, NL)
    ensures !ReadData(message).Reads?
  {
    hide Stoull;
  }

  /** Behind the tag and its separator stand three names and a number, each in front of a separator. */
  ghost predicate Numbered(message: string, sender: string, receiver: string, fileName: string, offset: string,
                           rest: string)
  {
    && |message| >= 10
    && message[10..] == sender + ("|" + (receiver + ("|" + (fileName + ("|" + (offset + ("|" + rest)))))))
    && Free(sender, BAR) && Free(receiver, BAR) && Free(fileName, BAR) && Free(offset, BAR)
  }

  /** What is read depends on the number and on what is behind it. */
  lemma NumberedRead(message: string, sender: string, receiver: string, fileName: string, offset: string, rest: string)
    requires Numbered(message, sender, receiver, fileName, offset, rest)
    ensures ReadData(message) ==
      if Stoull(offset).None? then Throws
      else
        match ReadPayload(rest, 0)
        case None => GivesUp
        case Some((payload, complete)) =>
          Reads(FileData(sender, receiver, fileName, Stoull(offset).value, payload, complete))
  {
    hide NextField, Free, Stoull, ReadPayload, ReadBlock;
    FieldAt(message, 10, sender, receiver + ("|" + (fileName + ("|" + (offset + ("|" + rest))))));
    var p1 := 10 + |sender| + 1;
    FieldAt(message, p1, receiver, fileName + ("|" + (offset + ("|" + rest))));
    var p2 := p1 + |receiver| + 1;
    FieldAt(message, p2, fileName, offset + ("|" + rest));
    NumberedBlock(message, p2 + |fileName| + 1, sender, receiver, fileName, offset, rest);
  }

  lemma NumberedBlock(message: string, pos: nat, sender: string, receiver: string, fileName: string, offset: string,
                      rest: string)
    requires pos <= |message| && message[pos..] == offset + ("|" + rest) && Free(offset, BAR)
    ensures ReadBlock(message, pos, sender, receiver, fileName) ==
      if Stoull(offset).None? then Throws
      else
        match ReadPayload(rest, 0)
        case None => GivesUp
        case Some((payload, complete)) =>
          Reads(FileData(sender, receiver, fileName, Stoull(offset).value, payload, complete))
  {
    hide NextField, Free, Stoull, ReadPayload;
    FieldAt(message, pos, offset, rest);
    PayloadShifted(message, pos + |offset| + 1, rest);
  }

  lemma {:induction false} FindShifted(s: string, c: char, k: nat, from: nat)
    requires k <= |s|
    ensures Find(s, c, k + from) == if Find(s[k..], c, from) < 0 then -1 else k + Find(s[k..], c, from)
    decreases |s| - k - from
  {
    if k + from < |s| && s[k + from] != c {
      FindShifted(s, c, k, from + 1);
    }
  }

  lemma PayloadShifted(message: string, pos: nat, rest: string)
    requires pos <= |message| && message[pos..] == rest
    ensures ReadPayload(message, pos) == ReadPayload(rest, 0)
  {
    hide Find;
    FindShifted(message, BAR, pos, 0);
    var end := Find(rest, BAR, 0);
    if end >= 0 {
      assert message[pos..pos + end] == rest[0..end];
      FindShifted(message, NL, pos, end + 1);
      var last := Find(rest, NL, end + 1);
      assert last >= 0 ==> message[pos + end + 1..pos + last] == rest[end + 1..last];
    }
  }

  /** The branch gets as far as the number exactly for such messages; otherwise it gives up. */
  lemma UnnumberedGivesUp(message: string)
    ensures ReadData(message) == GivesUp
      || exists sender, receiver, fileName, offset, rest :: Numbered(message, sender, receiver, fileName, offset, rest)
  {
    hide NextField, Free, Stoull, ReadPayload;
    if ReadData(message) != GivesUp {
      Beyond(message);
      var s := NextField(message, 10);
      FieldFound(message, 10);
      var r := NextField(message, s.next);
      FieldFound(message, s.next);
      var f := NextField(message, r.next);
      FieldFound(message, r.next);
      var o := NextField(message, f.next);
      FieldFound(message, f.next);
      assert Numbered(message, s.text, r.text, f.text, o.text, message[o.next..]);
    }
  }

  lemma Beyond(message: string)
    ensures |message| <= 10 ==> NextField(message, 10).NoField?
  {
  }

  predicate NamesFree(d: FileData) {
    Free(d.sender, BAR) && Free(d.receiver, BAR) && Free(d.fileName, BAR)
  }

  lemma ReadNamesFree(message: string)
    ensures ReadData(message).Reads? ==> NamesFree(ReadData(message).d) && Free(ReadData(message).d.payload, BAR)
  {
    hide Stoull;
  }

  lemma StoullOfPrinted(n: nat)
    requires n < TWO_TO_THE_64
    ensures Stoull(NatToString(n)) == Some(n)
  {
    hide NatToString, Digits, SkipSpace, Unsigned;
    PrintedBody(n);
    PrintedDigits(n);
    UnsignedOfPrinted(n);
  }

  /** A number is read as it is up to whatever follows that is no digit; a negative one wraps around, and one
      beyond 64 bits is not read. */
  lemma StoullOfNumber(v: int, more: string)
    requires more == "" || DigitValue(more[0]) >= 10
    ensures Stoull(IntToString(v) + more) ==
      if !(-TWO_TO_THE_64 < v < TWO_TO_THE_64) then None else if v < 0 then Some(TWO_TO_THE_64 + v) else Some(v)
    ensures NoNumber(more) ==> Stoull(more) == None
  {
    hide NatToString, Stoull, DigitValue, Unsigned, Digits;
    StoullOfOther(more);
    if v < 0 {
      assert IntToString(v) + more == "-" + (NatToString(-v) + more);
      StoullSigns(NatToString(-v) + more);
      UnsignedIs(-v, true);
      DigitsThen(NatToString(-v), more, 10);
    } else {
      StoullSigns(NatToString(v) + more);
      UnsignedIs(v, false);
      DigitsThen(NatToString(v), more, 10);
    }
  }

  lemma StoullOfOther(s: string)
    ensures NoNumber(s) ==> Stoull(s) == None
  {
    if NoNumber(s) {
      NoLeadingSpace(s);
    }
  }

  lemma StoullSigns(s: string)
    ensures Stoull("-" + s) == Unsigned(Digits(s, 10), true)
    ensures s != "" && '0' <= s[0] <= '9' ==> Stoull(s) == Unsigned(Digits(s, 10), false)
  {
    hide Unsigned, Digits, SkipSpace;
    NoLeadingSpace("-" + s);
    assert ("-" + s)[1..] == s;
    if s != "" && '0' <= s[0] <= '9' {
      NoLeadingSpace(s);
    }
  }

  lemma UnsignedIs(m: nat, negative: bool)
    ensures Unsigned(NatToString(m), negative) ==
      if m >= TWO_TO_THE_64 then None else if negative && m != 0 then Some(TWO_TO_THE_64 - m) else Some(m)
    ensures forall i :: 0 <= i < |NatToString(m)| ==> DigitValue(NatToString(m)[i]) < 10
  {
    hide NatToString, Value;
    ValueOfNat(m);
  }

  lemma PrintedFree(n: nat)
    ensures Free(NatToString(n), BAR)
  {
    hide NatToString;
  }

  lemma UnsignedOfPrinted(n: nat)
    requires n < TWO_TO_THE_64
    ensures Unsigned(NatToString(n), false) == Some(n)
  {
    hide NatToString, Value;
    ValueOfNat(n);
  }

  lemma FlagText(complete: bool)
    ensures Free(Flag(complete), NL) && (Flag(complete) == "1" <==> complete)
  {
  }

  lemma JoinSeven(a: string, b: string, c: string, d: string, e: string, f: string, g: string)
    ensures Join([a, b, c, d, e, f, g]) == a + ("|" + Join([b, c, d, e, f, g]))
  {
    assert [a, b, c, d, e, f, g][1..] == [b, c, d, e, f, g];
  }

  function BlockText(d: FileData): string {
    NatToString(d.offset) + ("|" + (d.payload + ("|" + (Flag(d.complete) + "\n"))))
  }

  lemma ReadPayloadEncoded(d: FileData, line: string, pos: nat)
    requires Free(d.payload, BAR)
    requires pos <= |line| && line[pos..] == d.payload + ("|" + (Flag(d.complete) + "\n"))
    ensures ReadPayload(line, pos) == Some((d.payload, d.complete))
  {
    hide NextField, Free, Find, Flag;
    FlagText(d.complete);
    FieldAt(line, pos, d.payload, Flag(d.complete) + "\n");
    LastField(line, pos + |d.payload| + 1, Flag(d.complete));
  }

  lemma ReadBlockEncoded(d: FileData, line: string, pos: nat)
    requires Free(d.payload, BAR) && d.offset < TWO_TO_THE_64
    requires pos <= |line| && line[pos..] == BlockText(d)
    ensures ReadBlock(line, pos, d.sender, d.receiver, d.fileName) == Reads(d)
  {
    hide Stoull, NextField, Free, Find, NatToString, Flag, ReadPayload;
    StoullOfPrinted(d.offset);
    PrintedFree(d.offset);
    var offset := NatToString(d.offset);
    FieldAt(line, pos, offset, d.payload + ("|" + (Flag(d.complete) + "\n")));
    ReadPayloadEncoded(d, line, pos + |offset| + 1);
  }

  /** What the branch reads from an encoded line, newline included, with separator-free names. */
  lemma ReadEncoded(d: FileData)
    requires NamesFree(d) && Free(d.payload, BAR) && d.offset < TWO_TO_THE_64
    ensures ReadData(DataLine(d)) == Reads(d)
  {
    hide NextField, DataLine, Free, ReadBlock, BlockText;
    LineRest(d);
    var line, rest := DataLine(d), BlockText(d);
    FieldAt(line, 10, d.sender, d.receiver + ("|" + (d.fileName + ("|" + rest))));
    var p1 := 10 + |d.sender| + 1;
    FieldAt(line, p1, d.receiver, d.fileName + ("|" + rest));
    var p2 := p1 + |d.receiver| + 1;
    FieldAt(line, p2, d.fileName, rest);
    ReadBlockEncoded(d, line, p2 + |d.fileName| + 1);
  }

  lemma LastField(line: string, pos: nat, flag: string)
    requires pos <= |line| && line[pos..] == flag + "\n" && Free(flag, NL)
    ensures Find(line, NL, pos) == pos + |flag| && line[pos..pos + |flag|] == flag
  {
    hide Find;
    var end := pos + |flag|;
    assert forall i :: pos <= i < end ==> line[i] == line[pos..][i - pos] == flag[i - pos];
    assert line[end] == line[pos..][|flag|] == NL;
    FindIs(line, NL, pos, end);
  }

  lemma LineRest(d: FileData)
    ensures |DataLine(d)| >= 10
    ensures DataLine(d)[10..] == d.sender + ("|" + (d.receiver + ("|" + (d.fileName + ("|" + BlockText(d))))))
  {
    hide NatToString, Flag, Join;
    var offset, flag := NatToString(d.offset), Flag(d.complete);
    JoinSeven("FILE_DATA", d.sender, d.receiver, d.fileName, offset, d.payload, flag);
    JoinNewline(d.sender, d.receiver, d.fileName, offset, d.payload, flag);
    JoinSix(d.sender, d.receiver, d.fileName, offset, d.payload, flag + "\n");
    AppendAfter("FILE_DATA", Join([d.sender, d.receiver, d.fileName, offset, d.payload, flag]), "\n");
    Head("FILE_DATA", Join([d.sender, d.receiver, d.fileName, offset, d.payload, flag]) + "\n");
  }

  /** A block of a file is read back from its line exactly when no name holds a separator. */
  lemma ReadBackIff(sender: string, receiver: string, fileName: string, b: Block)
    requires b.offset < TWO_TO_THE_64
    ensures var d := Sent(sender, receiver, fileName, b); ReadData(DataLine(d)) == Reads(d) <==> NamesFree(d)
  {
    hide ReadData, DataLine, Base64.Encode, Free;
    var d := Sent(sender, receiver, fileName, b);
    Base64.EncodeChars(b.data);
    ReadNamesFree(DataLine(d));
    if NamesFree(d) {
      ReadEncoded(d);
    }
  }

  // ------------------------------------------------------------------ what is sent, line by line

  /** The bytes of the i-th block. */
  function Chunk(file: Bytes, i: nat): Bytes
    requires 4096 * i <= |file|
  {
    file[4096 * i..if 4096 * (i + 1) <= |file| then 4096 * (i + 1) else |file|]
  }

  /** A header with the names and the size, and a line for every 4096 bytes begun: where they start, what they
      are, and whether they are the last. */
  ghost predicate Carries(texts: seq<string>, sender: string, receiver: string, fileName: string, file: Bytes) {
    && |texts| == 1 + (|file| + 4095) / 4096
    && texts[0] == "FILE_TRANSFER|" + sender + "|" + receiver + "|" + fileName + "|" + NatToString(|file|) + "\n"
    && forall i :: 0 < i < |texts| ==>
         texts[i] == "FILE_DATA|" + sender + "|" + receiver + "|" + fileName + "|" + NatToString(4096 * (i - 1)) + "|"
           + Base64.Encode(Chunk(file, i - 1)) + "|" + (if i == |texts| - 1 then "1" else "0") + "\n"
  }

  lemma HeaderText(sender: string, receiver: string, fileName: string, size: string)
    ensures Join(["FILE_TRANSFER", sender, receiver, fileName, size]) + "\n"
      == "FILE_TRANSFER|" + sender + "|" + receiver + "|" + fileName + "|" + size + "\n"
  {
    assert ["FILE_TRANSFER", sender, receiver, fileName, size][1..] == [sender, receiver, fileName, size];
    assert [sender, receiver, fileName, size][1..] == [receiver, fileName, size];
    assert [receiver, fileName, size][1..] == [fileName, size];
    assert [fileName, size][1..] == [size];
    assert Join([fileName, size]) == fileName + ("|" + size);
    assert Join([receiver, fileName, size]) == receiver + ("|" + Join([fileName, size]));
    assert Join([sender, receiver, fileName, size]) == sender + ("|" + Join([receiver, fileName, size]));
  }

  lemma DataText(d: FileData)
    ensures DataLine(d) == "FILE_DATA|" + d.sender + "|" + d.receiver + "|" + d.fileName + "|" + NatToString(d.offset)
      + "|" + d.payload + "|" + (if d.complete then "1" else "0") + "\n"
  {
    hide NatToString, Join;
    var offset, flag := NatToString(d.offset), Flag(d.complete);
    JoinSeven("FILE_DATA", d.sender, d.receiver, d.fileName, offset, d.payload, flag);
    JoinSix(d.sender, d.receiver, d.fileName, offset, d.payload, flag);
    Grouped(d.sender, d.receiver, d.fileName, offset, d.payload, flag);
  }

  lemma Grouped(a: string, b: string, c: string, d: string, e: string, f: string)
    ensures "FILE_DATA" + ("|" + (a + ("|" + (b + ("|" + (c + ("|" + (d + ("|" + (e + ("|" + f)))))))))))
      == "FILE_DATA|" + a + "|" + b + "|" + c + "|" + d + "|" + e + "|" + f
  {
  }

  lemma BlockIs(file: Bytes, i: nat)
    requires 4096 * i < |file|
    ensures var blocks := BlocksFrom(file, 0);
      |blocks| == (|file| + 4095) / 4096 && i < |blocks|
      && blocks[i] == Block(4096 * i, Chunk(file, i), i == |blocks| - 1)
  {
    BlocksExact(file, 0);
  }

  lemma TextsCount(sender: string, receiver: string, fileName: string, file: Bytes)
    ensures var texts := FileTexts(sender, receiver, fileName, file);
      && |texts| == 1 + (|file| + 4095) / 4096
      && texts[0] == "FILE_TRANSFER|" + sender + "|" + receiver + "|" + fileName + "|" + NatToString(|file|) + "\n"
  {
    hide NatToString, Join, DataLine;
    BlocksExact(file, 0);
    HeaderText(sender, receiver, fileName, NatToString(|file|));
  }

  lemma TextIs(sender: string, receiver: string, fileName: string, file: Bytes, i: nat)
    requires 4096 * i < |file|
    ensures var texts, blocks := FileTexts(sender, receiver, fileName, file), BlocksFrom(file, 0);
      |texts| == 1 + |blocks| && i < |blocks| && texts[i + 1] == DataLine(Sent(sender, receiver, fileName, blocks[i]))
  {
    hide NatToString, Join, DataLine;
    BlockIs(file, i);
    var texts := FileTexts(sender, receiver, fileName, file);
    assert texts[i + 1] == texts[1..][i];
  }

  /** What `/transfer` and `/file` send is that. */
  lemma TextsCarry(sender: string, receiver: string, fileName: string, file: Bytes)
    ensures Carries(FileTexts(sender, receiver, fileName, file), sender, receiver, fileName, file)
  {
    hide Base64.Encode, NatToString, DataLine, FileTexts, BlocksFrom, Chunk;
    var texts := FileTexts(sender, receiver, fileName, file);
    TextsCount(sender, receiver, fileName, file);
    forall i | 0 < i < |texts| ensures
      texts[i] == "FILE_DATA|" + sender + "|" + receiver + "|" + fileName + "|" + NatToString(4096 * (i - 1)) + "|"
        + Base64.Encode(Chunk(file, i - 1)) + "|" + (if i == |texts| - 1 then "1" else "0") + "\n"
    {
      TextIs(sender, receiver, fileName, file, i - 1);
      BlockIs(file, i - 1);
      DataText(Sent(sender, receiver, fileName, BlocksFrom(file, 0)[i - 1]));
    }
  }

  /** What is read from lines that can all be read. */
  function Readings(texts: seq<string>): seq<FileData>
    requires forall i :: 0 <= i < |texts| ==> ReadData(texts[i]).Reads?
  {
    seq(|texts|, i requires 0 <= i < |texts| => ReadData(texts[i]).d)
  }

  /** Every line behind the header can be read, the payloads placed at their offsets are the file, whatever was
      there before, and exactly the last line says that it is the last. */
  ghost predicate Rebuilds(texts: seq<string>, file: Bytes) {
    && texts != [] && (forall i :: 0 <= i < |texts| - 1 ==> ReadData(texts[1..][i]).Reads?)
    && (forall buffer: Bytes :: |buffer| == |file| ==> PlaceAll(buffer, Readings(texts[1..])) == file)
    && forall i :: 0 <= i < |texts| - 1 ==> (ReadData(texts[1..][i]).d.complete <==> i == |texts| - 2)
  }

  lemma ChunkRead(file: Bytes, i: nat)
    requires 4096 * i < |file|
    ensures Chunk(file, i) == Read(file, 4096 * i)
  {
  }

  lemma CarriedLine(texts: seq<string>, sender: string, receiver: string, fileName: string, file: Bytes, i: nat)
    requires Carries(texts, sender, receiver, fileName, file) && i < |texts| - 1
    requires Free(sender, BAR) && Free(receiver, BAR) && Free(fileName, BAR) && |file| <= TWO_TO_THE_64
    ensures var blocks := BlocksFrom(file, 0);
      |blocks| == |texts| - 1 && ReadData(texts[1..][i]) == Reads(Sent(sender, receiver, fileName, blocks[i]))
  {
    hide Base64.Encode, NatToString, DataLine, ReadData, Free, Chunk;
    BlocksExact(file, 0);
    ChunkRead(file, i);
    var d := Sent(sender, receiver, fileName, BlocksFrom(file, 0)[i]);
    DataText(d);
    assert texts[1..][i] == texts[i + 1];
    assert texts[1..][i] == DataLine(d);
    Base64.EncodeChars(Chunk(file, i));
    PayloadFree(Chunk(file, i));
    ReadEncoded(d);
  }

  lemma PayloadFree(data: Bytes)
    ensures Free(Base64.Encode(data), BAR)
  {
    hide Base64.Encode;
    Base64.EncodeChars(data);
  }

  /** So with separator-free names the receiver of these lines has the file. */
  lemma CarriedWhole(texts: seq<string>, sender: string, receiver: string, fileName: string, file: Bytes)
    requires Carries(texts, sender, receiver, fileName, file)
    requires Free(sender, BAR) && Free(receiver, BAR) && Free(fileName, BAR) && |file| <= TWO_TO_THE_64
    ensures Rebuilds(texts, file)
  {
    hide Carries, ReadData, PlaceAll, Free, Base64.Encode;
    var blocks := BlocksFrom(file, 0);
    BlocksExact(file, 0);
    forall i | 0 <= i < |texts| - 1
      ensures |blocks| == |texts| - 1 && ReadData(texts[1..][i]) == Reads(Sent(sender, receiver, fileName, blocks[i]))
    {
      CarriedLine(texts, sender, receiver, fileName, file, i);
    }
    CarriesSome(texts, sender, receiver, fileName, file);
    assert Readings(texts[1..]) == SentAll(sender, receiver, fileName, blocks);
    forall buffer: Bytes | |buffer| == |file| ensures PlaceAll(buffer, Readings(texts[1..])) == file {
      ArrivedWhole(buffer, file, sender, receiver, fileName, Readings(texts[1..]));
    }
  }

  lemma CarriesSome(texts: seq<string>, sender: string, receiver: string, fileName: string, file: Bytes)
    requires Carries(texts, sender, receiver, fileName, file)
    ensures |texts| == 1 + BlockCount(|file|)
  {
  }

  /** Texts that carry the file, and, with separator-free names and a size of 64 bits, give it back. */
  ghost predicate FileIn(texts: seq<string>, sender: string, receiver: string, fileName: string, file: Bytes) {
    && Carries(texts, sender, receiver, fileName, file)
    && (Free(sender, BAR) && Free(receiver, BAR) && Free(fileName, BAR) && |file| <= TWO_TO_THE_64 ==>
          Rebuilds(texts, file))
  }

  lemma FileInTexts(sender: string, receiver: string, fileName: string, file: Bytes)
    ensures FileIn(FileTexts(sender, receiver, fileName, file), sender, receiver, fileName, file)
  {
    hide FileTexts, Carries, Rebuilds, Free;
    var texts := FileTexts(sender, receiver, fileName, file);
    TextsCarry(sender, receiver, fileName, file);
    if Free(sender, BAR) && Free(receiver, BAR) && Free(fileName, BAR) && |file| <= TWO_TO_THE_64 {
      CarriedWhole(texts, sender, receiver, fileName, file);
    }
  }
}
