/** The bounded message histories, their refinement of the full log, and the history file. */
module History {
  import opened Text
  import opened Numbers
  import opened Wire
  import opened Framing
  import Base64

  const MAX_HISTORY := 1000

  /** `message_history_` and `room_message_history_`. */
  datatype Store = Store(all: seq<ChatMessage>, rooms: map<string, seq<ChatMessage>>)

  const EMPTY := Store([], map[])

  // ------------------------------------------------------------------ the bounded store

  function Room(h: Store, r: string): seq<ChatMessage> {
    if r in h.rooms then h.rooms[r] else []
  }

  function Push(s: seq<ChatMessage>, m: ChatMessage): seq<ChatMessage> {
    var t := s + [m];
    if |t| > MAX_HISTORY then t[1..] else t
  }

  predicate IsRoomMessage(m: ChatMessage) {
    m.receiver != "" && m.kind == ROOM_MESSAGE
  }

  function Add(h: Store, m: ChatMessage): Store {
    Store(Push(h.all, m),
          if IsRoomMessage(m) then h.rooms[m.receiver := Push(Room(h, m.receiver), m)] else h.rooms)
  }

  // ------------------------------------------------------------------ the unbounded log

  /** The messages of one room, out of everything ever logged. */
  function RoomLog(log: seq<ChatMessage>, r: string): seq<ChatMessage> {
    if log == [] then []
    else
      var m := log[|log| - 1];
      RoomLog(log[..|log| - 1], r) + if IsRoomMessage(m) && m.receiver == r then [m] else []
  }

  /** The store holds the ends of the log and of its rooms, and a list for each room used. */
  ghost predicate Refines(h: Store, log: seq<ChatMessage>) {
    && h.all == LastN(log, MAX_HISTORY)
    && forall r :: Room(h, r) == LastN(RoomLog(log, r), MAX_HISTORY) && (r in h.rooms <==> RoomLog(log, r) != [])
  }

  lemma PushLast(log: seq<ChatMessage>, m: ChatMessage)
    ensures Push(LastN(log, MAX_HISTORY), m) == LastN(log + [m], MAX_HISTORY)
  {
  }

  lemma RoomLogAppend(log: seq<ChatMessage>, m: ChatMessage, r: string)
    ensures RoomLog(log + [m], r) == RoomLog(log, r) + if IsRoomMessage(m) && m.receiver == r then [m] else []
  {
    assert (log + [m])[..|log|] == log;
  }

  /** Storing a message in bounded lists refines appending it to the log. */
  lemma AddRefines(h: Store, log: seq<ChatMessage>, m: ChatMessage)
    requires Refines(h, log)
    ensures Refines(Add(h, m), log + [m])
  {
    hide Push, RoomLog;
    PushLast(log, m);
    forall r ensures Room(Add(h, m), r) == LastN(RoomLog(log + [m], r), MAX_HISTORY)
      ensures r in Add(h, m).rooms <==> RoomLog(log + [m], r) != []
    {
      RoomLogAppend(log, m, r);
      PushLast(RoomLog(log, r), m);
      assert RoomLog(log, r) + [] == RoomLog(log, r);
    }
  }

  /** The message is the last of all, and, if it is one, the last room message of its receiver; other rooms
      have what they had. */
  ghost predicate Stored(h: Store, g: Store, m: ChatMessage) {
    && g.all != [] && g.all[|g.all| - 1] == m
    && forall r :: if m.kind == ROOM_MESSAGE && m.receiver == r && r != ""
                   then Room(g, r) != [] && Room(g, r)[|Room(g, r)| - 1] == m
                   else Room(g, r) == Room(h, r)
  }

  lemma AddStored(h: Store, m: ChatMessage)
    ensures Stored(h, Add(h, m), m)
  {
    hide Push;
    PushEnds(h.all, m);
    PushEnds(Room(h, m.receiver), m);
  }

  lemma PushEnds(s: seq<ChatMessage>, m: ChatMessage)
    ensures var t := Push(s, m); t != [] && t[|t| - 1] == m
  {
  }

  lemma EmptyRefines()
    ensures Refines(EMPTY, [])
  {
  }

  lemma {:induction false} RoomLogLength(log: seq<ChatMessage>, r: string)
    ensures |RoomLog(log, r)| <= |log|
  {
    if log != [] {
      RoomLogLength(log[..|log| - 1], r);
    }
  }

  // ------------------------------------------------------------------ history queries

  /** The number after `/history`: 50 unless it reads as an integer, then kept in 1..100. */
  function Count(argument: string): (n: nat)
    ensures 1 <= n <= 100
  {
    match if argument == "" then None else Stoi(argument, 10)
    case None => 50
    case Some(v) => if v < 1 then 1 else if v > 100 then 100 else v
  }

  /** A number is kept in 1..100 if it fits into 32 bits; that, or no number, is 50. */
  lemma CountOfNumber(v: int, more: string)
    requires more == "" || DigitValue(more[0]) >= 10
    ensures Count(IntToString(v) + more) ==
      if !(-0x8000_0000 <= v < 0x8000_0000) then 50 else if v < 1 then 1 else if v <= 100 then v else 100
    ensures NoNumber(more) ==> Count(more) == 50
  {
    hide Stoi, DigitValue, NatToString;
    StoiOfNumber(v, more);
    if NoNumber(more) {
      StoiOfOther(more);
    }
  }

  lemma LastOfLast<T>(s: seq<T>, n: nat, m: nat)
    requires n <= m
    ensures LastN(LastN(s, m), n) == LastN(s, n)
  {
  }

  /** A query shows the end of the full log, as if nothing had ever been dropped. */
  lemma QueryShowsLog(h: Store, log: seq<ChatMessage>, argument: string, r: string)
    requires Refines(h, log)
    ensures LastN(h.all, Count(argument)) == LastN(log, Count(argument))
    ensures LastN(Room(h, r), Count(argument)) == LastN(RoomLog(log, r), Count(argument))
  {
    hide Count, RoomLog, Room;
    LastOfLast(log, Count(argument), MAX_HISTORY);
    LastOfLast(RoomLog(log, r), Count(argument), MAX_HISTORY);
  }

  // ------------------------------------------------------------------ the history file

  /** `std::getline` over a file, leaving out empty lines. */
  function FileLines(text: string): seq<string> {
    Lines(text) + if Tail(text) == "" then [] else [Tail(text)]
  }

  lemma FileLinesFree(text: string)
    ensures forall i :: 0 <= i < |FileLines(text)| ==> Free(FileLines(text)[i], NL)
  {
    hide Lines, Tail;
    LinesFree(text, NL);
    TailFree(text);
  }

  lemma {:induction false} TailFree(text: string)
    ensures Free(Tail(text), NL)
    decreases |text|
  {
    hide Tail, Lines;
    var line, rest := FirstLine(text);
    if Free(text, NL) {
      LinesOfTail(text);
    } else {
      Unfold(line, rest);
      TailFree(rest);
    }
  }

  function SaveText(h: Store): string {
    Concat(MapEncode(h.all))
  }

  /** The messages of the lines that decode. */
  function Decoded(lines: seq<string>): seq<ChatMessage> {
    if lines == [] then []
    else
      var before, last := Decoded(lines[..|lines| - 1]), Decode(lines[|lines| - 1]);
      if last.None? then before else before + [last.value]
  }

  /** Lines are decoded one by one: those that decode are kept in order, the others are passed over. */
  lemma {:induction false} DecodedAppend(a: seq<string>, b: seq<string>)
    ensures Decoded(a + b) == Decoded(a) + Decoded(b)
    ensures forall line :: Decoded([line]) == if Decode(line).Some? then [Decode(line).value] else []
  {
    hide Decode, Decoded;
    DecodedNothing();
    forall line ensures Decoded([line]) == if Decode(line).Some? then [Decode(line).value] else [] {
      DecodedLast([], line);
      assert [] + [line] == [line];
    }
    if b == [] {
      assert a + b == a;
    } else {
      var front, last := b[..|b| - 1], b[|b| - 1];
      assert b == front + [last] && a + b == (a + front) + [last];
      DecodedAppend(a, front);
      DecodedLast(front, last);
      DecodedLast(a + front, last);
    }
  }

  lemma DecodedNothing()
    ensures Decoded([]) == []
  {
  }

  lemma DecodedLast(front: seq<string>, last: string)
    ensures Decoded(front + [last]) == Decoded(front) + if Decode(last).Some? then [Decode(last).value] else []
  {
    hide Decode;
    assert (front + [last])[..|front|] == front;
  }

  function AddAll(h: Store, ms: seq<ChatMessage>): Store {
    if ms == [] then h else Add(AddAll(h, ms[..|ms| - 1]), ms[|ms| - 1])
  }

  function LoadText(h: Store, text: string): Store {
    AddAll(h, Decoded(FileLines(text)))
  }

  lemma {:induction false} AddAllRefines(h: Store, log: seq<ChatMessage>, ms: seq<ChatMessage>)
    requires Refines(h, log)
    ensures Refines(AddAll(h, ms), log + ms)
  {
    hide Refines, Add;
    if ms == [] {
      assert log + ms == log;
    } else {
      var front, last := ms[..|ms| - 1], ms[|ms| - 1];
      AddAllRefines(h, log, front);
      AddRefines(AddAll(h, front), log + front, last);
      assert log + ms == (log + front) + [last];
    }
  }

  /** What a message needs to survive the file. */
  predicate FileSafe(m: ChatMessage) {
    Free(m.sender, BAR) && Free(m.sender, NL) && Free(m.receiver, BAR) && Free(m.receiver, NL) && Free(m.id, NL)
  }

  lemma FileSafeLine(m: ChatMessage)
    requires FileSafe(m)
    ensures Line(m) != "" && Free(Line(m), NL) && Decode(Line(m)) == Some(m)
  {
    hide Decode;
    EncodedFieldsFree(m);
    JoinFree(["MSG", m.sender, m.receiver, IntToString(m.kind), Base64.Encode(m.content), m.id], NL);
    DecodeLineIff(m);
  }

  lemma DecodedFileSafe(data: string)
    requires Free(data, NL)
    ensures Decode(data).Some? ==> FileSafe(Decode(data).value)
  {
    hide Stoi, Base64.Decode;
    DecodedFree(data);
    DecodedId(data, NL);
  }

  lemma {:induction false} DecodedLines(ms: seq<ChatMessage>)
    requires forall i :: 0 <= i < |ms| ==> Decode(Line(ms[i])) == Some(ms[i])
    ensures Decoded(MapLine(ms)) == ms
  {
    hide Decode, Line;
    if ms != [] {
      var front := ms[..|ms| - 1];
      DecodedLines(front);
      assert MapLine(ms)[..|ms| - 1] == MapLine(front);
      assert ms == front + [ms[|ms| - 1]];
    }
  }

  lemma {:induction false} DecodedAllSafe(lines: seq<string>)
    requires forall i :: 0 <= i < |lines| ==> Free(lines[i], NL)
    ensures forall i :: 0 <= i < |Decoded(lines)| ==> FileSafe(Decoded(lines)[i])
  {
    hide Decode, FileSafe, Free;
    if lines != [] {
      DecodedAllSafe(lines[..|lines| - 1]);
      DecodedFileSafe(lines[|lines| - 1]);
    }
  }

  /** Saved safe messages are read back, all of them and in order. */
  lemma SavedText(ms: seq<ChatMessage>)
    requires forall i :: 0 <= i < |ms| ==> FileSafe(ms[i])
    ensures Decoded(FileLines(Concat(MapEncode(ms)))) == ms
  {
    hide Line, Decode, FileSafe, Lines, Tail, Terminated, Concat, Decoded;
    assert MapLine(ms) + [] == MapLine(ms);
    forall i | 0 <= i < |ms|
      ensures MapLine(ms)[i] != "" && Free(MapLine(ms)[i], NL) && Decode(Line(ms[i])) == Some(ms[i])
    {
      FileSafeLine(ms[i]);
    }
    EncodedStream(ms);
    LinesOfTerminated(MapLine(ms), "");
    assert Terminated(MapLine(ms)) + "" == Terminated(MapLine(ms));
    assert FileLines(Terminated(MapLine(ms))) == MapLine(ms) + [];
    DecodedLines(ms);
  }

  /** A fresh server reads the saved history back exactly when every saved message is safe. */
  lemma SaveLoadIff(h: Store)
    requires |h.all| <= MAX_HISTORY
    ensures LoadText(EMPTY, SaveText(h)).all == h.all <==> forall i :: 0 <= i < |h.all| ==> FileSafe(h.all[i])
  {
    hide FileSafe, FileLines, Decoded, AddAll, RoomLog;
    var ms := Decoded(FileLines(SaveText(h)));
    EmptyRefines();
    AddAllRefines(EMPTY, [], ms);
    assert [] + ms == ms;
    FileLinesFree(SaveText(h));
    DecodedAllSafe(FileLines(SaveText(h)));
    if forall i :: 0 <= i < |h.all| ==> FileSafe(h.all[i]) {
      SavedText(h.all);
    }
  }

  /** Then each room's reloaded history is the saved global history filtered to the room. */
  lemma SaveLoadRooms(h: Store, r: string)
    requires |h.all| <= MAX_HISTORY
    requires forall i :: 0 <= i < |h.all| ==> FileSafe(h.all[i])
    ensures Room(LoadText(EMPTY, SaveText(h)), r) == RoomLog(h.all, r)
  {
    hide FileSafe, FileLines, Decoded, AddAll, RoomLog, Room;
    SavedText(h.all);
    EmptyRefines();
    AddAllRefines(EMPTY, [], h.all);
    assert [] + h.all == h.all;
    RoomLogLength(h.all, r);
  }
}
