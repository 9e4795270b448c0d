/** Who gets a room message, and what of it the receive loop on the other side can frame. */
module Delivery {
  import opened Text
  import opened Numbers
  import opened Wire
  import opened Framing
  import opened Commands
  import opened Replies
  import opened History
  import opened Server
  import opened Invariants
  import opened Membership
  import opened Users
  import FileTransfer
  import Password
  import Emoji

  // ------------------------------------------------------------------ exactly once

  /** The index leads from some member to the socket. */
  ghost predicate Reaches(index: map<string, nat>, members: seq<string>, k: nat) {
    exists m :: m in members && m in index && index[m] == k
  }

  function Once(hit: bool, text: string): seq<string> {
    if hit then [text] else []
  }

  /** A delivery writes the text once to each socket some member is indexed to, and nothing to
      any other socket. */
  lemma {:induction false} DeliverExact(s: State, members: seq<string>, text: string, k: nat)
    requires Sound(s.clients, s.index) && Distinct(members)
    ensures Out(Deliver(s, members, text), k) == Out(s, k) + Once(Reaches(s.index, members, k), text)
  {
    if members != [] {
      var front, last := members[..|members| - 1], members[|members| - 1];
      assert members == front + [last];
      DeliverExact(s, front, text, k);
      var before := Deliver(s, front, text);
      if last in s.index && s.index[last] == k {
        assert !Reaches(s.index, front, k);
        assert Reaches(s.index, members, k);
        assert Out(before, k) == Out(s, k) + [] == Out(s, k);
      } else {
        assert Reaches(s.index, members, k) <==> Reaches(s.index, front, k);
      }
    }
  }

  /** In settled states these are the connected members, apart from guests: guests may be in a
      room, but are not indexed. */
  lemma ReachedIff(s: State, members: seq<string>, k: nat)
    requires Settled(s)
    ensures Reaches(s.index, members, k) <==>
      k in s.clients && s.clients[k].name in members && !GuestForm(s.clients[k].name)
  {
    hide GuestName, RoomsOk;
    if k in s.clients {
      assert Placed(k, s.clients[k], s.index);
      GuestNames(k);
    }
  }

  lemma GuestNames(fd: nat)
    ensures GuestForm(GuestName(fd))
  {
  }

  lemma {:induction false} SendEachExact(s: State, sockets: seq<nat>, text: string, k: nat)
    requires Distinct(sockets) && forall f :: f in sockets ==> f in s.clients
    ensures Out(SendEach(s, sockets, text), k) == Out(s, k) + if k in sockets then [text] else []
  {
    if sockets != [] {
      var front, last := sockets[..|sockets| - 1], sockets[|sockets| - 1];
      assert sockets == front + [last];
      SendEachExact(s, front, text, k);
      assert last in sockets;
      if k == last {
        assert k !in front;
      }
    }
  }

  /** Each socket gets every line of the file in order, and no other socket gets any. */
  lemma {:induction false} SendTextsExact(s: State, sockets: seq<nat>, texts: seq<string>, k: nat)
    requires Distinct(sockets) && forall f :: f in sockets ==> f in s.clients
    ensures Out(SendTexts(s, sockets, texts), k) == Out(s, k) + if k in sockets then texts else []
  {
    hide SendEach;
    if texts != [] {
      var front, last := texts[..|texts| - 1], texts[|texts| - 1];
      SendTextsExact(s, sockets, front, k);
      SendEachExact(SendTexts(s, sockets, front), sockets, last, k);
      assert texts == front + [last];
      assert Out(s, k) + (front + [last]) == Out(s, k) + front + [last];
    }
  }

  /** The sockets collected for the members of a room are connected, and none comes twice. */
  lemma {:induction false} SocketsDistinct(s: State, members: seq<string>)
    requires Sound(s.clients, s.index) && Distinct(members)
    ensures Distinct(Sockets(s.index, members))
    ensures forall k :: k in Sockets(s.index, members) <==> Reaches(s.index, members, k)
    ensures forall k :: k in Sockets(s.index, members) ==> k in s.clients
  {
    if members != [] {
      var front, m := members[..|members| - 1], members[|members| - 1];
      assert members == front + [m];
      SocketsDistinct(s, front);
      if m in s.index {
        assert !Reaches(s.index, front, s.index[m]);
      }
      forall k
        ensures Reaches(s.index, members, k) <==> Reaches(s.index, front, k) || (m in s.index && s.index[m] == k)
      {
        if m in s.index && s.index[m] == k {
          assert m in members;
        }
      }
    }
  }

  /** A plain line from somebody who may speak and is in an existing room. */
  predicate SpeaksInRoom(s: State, fd: nat, line: Message, now: int) {
    && fd in s.clients && s.clients[fd].loggedIn && !Silenced(s, fd, now)
    && s.clients[fd].room != "" && s.clients[fd].room in s.rooms
    && line[0] != '/' && !StartsWith(line, "MSG") && !Ignored(line)
  }

  /** A typed text is its sender's message, with the emoji codes replaced. */
  lemma TypedIs(s: State, fd: nat, receiver: string, kind: Int32, text: Bytes, id: Id)
    requires fd in s.clients
    ensures Typed(s, fd, receiver, kind, text, id)
      == ChatMessage(s.clients[fd].name, receiver, kind, Emoji.Substitute(Emoji.EMOJIS, text), id)
  {
    hide Emoji.Substitute, Emoji.EMOJIS;
  }

  /** Such a line goes exactly once to each socket indexed by a member of the room, to nobody
      else, and into the log. */
  lemma RoomTextDelivered(s: State, fd: nat, line: Message, chance: Chance, k: nat)
    requires Healthy(s) && SpeaksInRoom(s, fd, line, chance.now)
    ensures var t, c := Step(s, Received(fd, line, chance)), s.clients[fd];
      var m := ChatMessage(c.name, c.room, ROOM_MESSAGE, Emoji.Substitute(Emoji.EMOJIS, line), chance.id);
      && Out(t, k) == Out(s, k) + Once(Reaches(s.index, s.rooms[c.room].members, k), Encode(m))
      && t.log == s.log + [m]
  {
    hide Encode, Typed, Sound, Distinct, Deliver, Add, StartsWith, Emoji.Substitute, Emoji.EMOJIS;
    var r := s.clients[fd].room;
    var u := Unsilence(s, fd);
    PutSound(s.clients, s.index, fd, s.clients[fd].(muted := false));
    TypedIs(s, fd, r, ROOM_MESSAGE, line, chance.id);
    DeliverExact(u, s.rooms[r].members, Encode(Typed(s, fd, r, ROOM_MESSAGE, line, chance.id)), k);
  }

  /** So does a line with an unknown command, for those in a room, logged in or not. */
  lemma UnknownDelivered(s: State, fd: nat, line: Message, chance: Chance, k: nat)
    requires Healthy(s) && fd in s.clients && line[0] == '/' && Parse(line).Unknown?
    requires s.clients[fd].room != "" && s.clients[fd].room in s.rooms
    ensures var t, c := Step(s, Received(fd, line, chance)), s.clients[fd];
      var m := ChatMessage(c.name, c.room, ROOM_MESSAGE, Emoji.Substitute(Emoji.EMOJIS, line), chance.id);
      && Out(t, k) == Out(s, k) + Once(Reaches(s.index, s.rooms[c.room].members, k), Encode(m))
      && t.log == s.log + [m]
  {
    hide Encode, Typed, Sound, Distinct, Deliver, Add, StartsWith, Parse, DoQuery, DoLogin, DoRegister, DoWhisper,
      DoQuit, DoNick, DoCreateRoom, DoJoinRoom, DoLeaveRoom, DoMute, DoUnmute, DoKick, DoMsg, DoPlain,
      Emoji.Substitute, Emoji.EMOJIS;
    TypedIs(s, fd, s.clients[fd].room, ROOM_MESSAGE, line, chance.id);
    var m := Typed(s, fd, s.clients[fd].room, ROOM_MESSAGE, line, chance.id);
    DeliverExact(Record(s, m), s.rooms[s.clients[fd].room].members, Encode(m), k);
  }

  // ------------------------------------------------------------------ framed output

  predicate EndsLine(text: string) {
    text != "" && text[|text| - 1] == NL
  }

  /** Every text written so far ended in a newline. */
  ghost predicate Flushed(sent: map<nat, seq<string>>) {
    forall k :: k in sent ==> forall i :: 0 <= i < |sent[k]| ==> EndsLine(sent[k][i])
  }

  lemma SayEnds(r: Reply)
    ensures EndsLine(Say(r))
  {
    hide PartsOf;
  }

  lemma SendFlushed(s: State, fd: nat, text: string)
    requires Flushed(s.sent) && EndsLine(text)
    ensures Flushed(Send(s, fd, text).sent) && Flushed(Broadcast(s, text).sent)
  {
    hide EndsLine;
  }

  lemma {:induction false} DeliverFlushed(s: State, members: seq<string>, text: string)
    requires Flushed(s.sent) && EndsLine(text)
    ensures Flushed(Deliver(s, members, text).sent)
  {
    hide EndsLine, Flushed, Send, Broadcast;
    if members != [] {
      var front, last := members[..|members| - 1], members[|members| - 1];
      DeliverFlushed(s, front, text);
      if last in s.index {
        SendFlushed(Deliver(s, front, text), s.index[last], text);
      }
    }
  }

  lemma RepliesFlushed()
    ensures forall s: State, fd: nat, r: Reply {:trigger Send(s, fd, Say(r))} ::
      Flushed(s.sent) ==> Flushed(Send(s, fd, Say(r)).sent)
    ensures forall s: State, r: Reply {:trigger Broadcast(s, Say(r))} ::
      Flushed(s.sent) ==> Flushed(Broadcast(s, Say(r)).sent)
  {
    hide EndsLine, Flushed, Send, Broadcast, Say;
    forall s: State, fd: nat, r: Reply | Flushed(s.sent) ensures Flushed(Send(s, fd, Say(r)).sent) {
      SayEnds(r);
      SendFlushed(s, fd, Say(r));
    }
    forall s: State, r: Reply | Flushed(s.sent) ensures Flushed(Broadcast(s, Say(r)).sent) {
      SayEnds(r);
      SendFlushed(s, 0, Say(r));
    }
  }

  lemma LoginFlushed(s: State, fd: nat, name: Bytes, password: Bytes, salt: Salt)
    requires fd in s.clients && Flushed(s.sent)
    ensures Flushed(DoLogin(s, fd, name, password, salt).sent)
  {
    hide Flushed, Send, Broadcast, Say, Lookup, SignIn, Password.Hash, Password.Verify;
    RepliesFlushed();
  }

  lemma RegisterFlushed(s: State, fd: nat, name: Bytes, password: Bytes, salt: Salt)
    requires fd in s.clients && Flushed(s.sent)
    ensures Flushed(DoRegister(s, fd, name, password, salt).sent)
  {
    hide Flushed, Send, Broadcast, Say, Lookup, SignIn, Password.Hash;
    RepliesFlushed();
  }

  lemma NickQuitFlushed(s: State, fd: nat, name: Bytes)
    requires fd in s.clients && Flushed(s.sent)
    ensures Flushed(DoNick(s, fd, name).sent) && Flushed(DoQuit(s, fd).sent)
  {
    hide Flushed, Send, Broadcast, Say, Lookup, Rename, Remove, LeaveMembers;
    RepliesFlushed();
  }

  lemma MutesFlushed(s: State, fd: nat, target: Bytes, time: Bytes, now: int)
    requires fd in s.clients && Flushed(s.sent)
    ensures Flushed(DoMute(s, fd, target, time, now).sent) && Flushed(DoUnmute(s, fd, target, now).sent)
  {
    hide Flushed, Send, Broadcast, Say, MuteMinutes;
    RepliesFlushed();
  }

  lemma KickFlushed(s: State, fd: nat, target: Bytes, reason: Bytes)
    requires fd in s.clients && Flushed(s.sent)
    ensures Flushed(DoKick(s, fd, target, reason).sent)
  {
    hide Flushed, Send, Broadcast, Say, Remove;
    RepliesFlushed();
  }

  lemma RoomsFlushed(s: State, fd: nat, name: Bytes, isPrivate: bool, password: Bytes, salt: Salt)
    requires fd in s.clients && Flushed(s.sent)
    ensures Flushed(DoCreateRoom(s, fd, name, isPrivate, password, salt).sent)
    ensures Flushed(DoJoinRoom(s, fd, name, password).sent)
    ensures Flushed(DoLeaveRoom(s, fd).sent)
  {
    hide Flushed, Send, Broadcast, Say, LeaveMembers, JoinMembers, Password.Hash, Password.Verify;
    RepliesFlushed();
  }

  lemma EncodeEnds(m: ChatMessage)
    ensures EndsLine(Encode(m))
  {
    hide Line;
  }

  lemma PlainFlushed(s: State, fd: nat, line: Message, chance: Chance)
    requires fd in s.clients && Flushed(s.sent)
    ensures Flushed(DoPlain(s, fd, line, chance).sent)
  {
    hide Flushed, Send, Broadcast, Say, Deliver, Encode, Typed, EndsLine;
    RepliesFlushed();
    var r := s.clients[fd].room;
    var m := Typed(s, fd, r, if r == "" then BROADCAST else ROOM_MESSAGE, line, chance.id);
    var t := Unsilence(s, fd);
    EncodeEnds(m);
    SendFlushed(Record(t, m), fd, Encode(m));
    if r in s.rooms {
      DeliverFlushed(t, s.rooms[r].members, Encode(m));
    }
  }

  lemma WhisperFlushed(s: State, fd: nat, target: Bytes, text: Bytes, id: Id)
    requires fd in s.clients && Flushed(s.sent)
    ensures Flushed(DoWhisper(s, fd, target, text, id).sent)
  {
    hide Flushed, Send, Broadcast, Say, Encode, Typed, EndsLine;
    RepliesFlushed();
    if Lookup(s, target).Some? {
      var m := Typed(s, fd, target, PRIVATE, text, id);
      EncodeEnds(m);
      SendFlushed(Record(s, m), Lookup(s, target).value, Encode(m));
      SendFlushed(Send(Record(s, m), Lookup(s, target).value, Encode(m)), fd, Encode(m));
    }
  }

  lemma UnknownFlushed(s: State, fd: nat, line: Message, word: Bytes, id: Id)
    requires fd in s.clients && Flushed(s.sent)
    ensures Flushed(DoUnknown(s, fd, line, word, id).sent)
  {
    hide Flushed, Send, Broadcast, Say, Deliver, Encode, Typed, EndsLine;
    RepliesFlushed();
    var r := s.clients[fd].room;
    var m := Typed(s, fd, r, ROOM_MESSAGE, line, id);
    EncodeEnds(m);
    if r in s.rooms {
      DeliverFlushed(Record(s, m), s.rooms[r].members, Encode(m));
    }
  }

  // ------------------------------------------------------------------ queries and files end lines too

  lemma ListsEnd(room: string, names: seq<string>)
    ensures EndsLine(UserList(names)) && EndsLine(RoomList(names)) && EndsLine(MemberList(room, names))
  {
    hide Fields, Terminated;
    TerminatedEnds(names);
  }

  lemma {:induction false} TerminatedEnds(names: seq<string>)
    ensures names != [] ==> EndsLine(Terminated(names))
    ensures names == [] ==> Terminated(names) == ""
  {
    if names != [] {
      TerminatedEnds(names[1..]);
    }
  }

  lemma FileTextsEnd(sender: string, receiver: string, fileName: string, file: Bytes)
    ensures forall i :: 0 <= i < |FileTransfer.FileTexts(sender, receiver, fileName, file)| ==>
      EndsLine(FileTransfer.FileTexts(sender, receiver, fileName, file)[i])
  {
    hide Join, FileTransfer.BlocksFrom, FileTransfer.Fields, FileTransfer.Sent;
  }

  lemma ShownEnd(ms: seq<ChatMessage>, stamps: seq<string>)
    ensures forall i :: 0 <= i < |Shown(ms, stamps)| ==> EndsLine(Shown(ms, stamps)[i])
  {
    hide EndsLine, Say;
    forall i | 0 <= i < |ms| ensures EndsLine(Shown(ms, stamps)[i]) {
      SayEnds(HistoryLine("[" + (if i < |stamps| then stamps[i] else "") + "] " + ms[i].sender + ": " + ms[i].content));
    }
  }

  lemma {:induction false} SendEachFlushed(s: State, sockets: seq<nat>, text: string)
    requires Flushed(s.sent) && EndsLine(text)
    ensures Flushed(SendEach(s, sockets, text).sent)
  {
    hide EndsLine, Flushed, Send, Broadcast;
    if sockets != [] {
      SendEachFlushed(s, sockets[..|sockets| - 1], text);
      SendFlushed(SendEach(s, sockets[..|sockets| - 1], text), sockets[|sockets| - 1], text);
    }
  }

  lemma {:induction false} SendTextsFlushed(s: State, sockets: seq<nat>, texts: seq<string>)
    requires Flushed(s.sent) && forall i :: 0 <= i < |texts| ==> EndsLine(texts[i])
    ensures Flushed(SendTexts(s, sockets, texts).sent)
  {
    hide EndsLine, Flushed, SendEach;
    if texts != [] {
      SendTextsFlushed(s, sockets, texts[..|texts| - 1]);
      SendEachFlushed(SendTexts(s, sockets, texts[..|texts| - 1]), sockets, texts[|texts| - 1]);
    }
  }

  lemma HistoryFlushed(s: State, fd: nat, header: Reply, ms: seq<ChatMessage>, stamps: seq<string>)
    requires Flushed(s.sent)
    ensures Flushed(SendTexts(s, [fd], [Say(header)] + Shown(ms, stamps)).sent)
  {
    hide EndsLine, Flushed, Say, Shown, SendTexts;
    SayEnds(header);
    ShownEnd(ms, stamps);
    SendTextsFlushed(s, [fd], [Say(header)] + Shown(ms, stamps));
  }

  lemma FilesFlushed(s: State, fd: nat, path: Bytes, target: Bytes, file: Option<Bytes>)
    requires fd in s.clients && Flushed(s.sent)
    ensures Flushed(DoTransfer(s, fd, path, target, file).sent) && Flushed(DoShareFile(s, fd, path, file).sent)
  {
    hide Flushed, EndsLine, Send, Broadcast, Say, Lookup, SendTexts, Sockets, FileTransfer.FileTexts,
      FileTransfer.FileName;
    RepliesFlushed();
    if file.Some? {
      var me, name, r := s.clients[fd].name, FileTransfer.FileName(path), s.clients[fd].room;
      FileTextsEnd(me, target, name, file.value);
      FileTextsEnd(me, r, name, file.value);
      if Lookup(s, target).Some? {
        SendTextsFlushed(s, [Lookup(s, target).value], FileTransfer.FileTexts(me, target, name, file.value));
      }
      SendTextsFlushed(s, Sockets(s.index, Members(s, r)), FileTransfer.FileTexts(me, r, name, file.value));
    }
  }

  lemma QueryFlushed(s: State, fd: nat, command: Command, chance: Chance)
    requires fd in s.clients && IsQuery(command) && Flushed(s.sent)
    ensures Flushed(DoQuery(s, fd, command, chance).sent)
  {
    hide Flushed, EndsLine, Send, Broadcast, Say, UserNames, RoomNames, UserList, RoomList, MemberList, Shown, Count,
      SendTexts, DoTransfer, DoShareFile, Room;
    RepliesFlushed();
    var r := s.clients[fd].room;
    match command
    case ShowUsers =>
      ListsEnd(r, UserNames(s.clients, chance.clientOrder));
      SendFlushed(s, fd, UserList(UserNames(s.clients, chance.clientOrder)));
    case ShowRooms =>
      ListsEnd(r, RoomNames(s.rooms, chance.roomOrder));
      SendFlushed(s, fd, RoomList(RoomNames(s.rooms, chance.roomOrder)));
    case ShowMembers =>
      ListsEnd(r, Members(s, r));
      SendFlushed(s, fd, MemberList(r, Members(s, r)));
    case ShowHistory(argument) =>
      HistoryFlushed(s, fd, HistoryHeader, LastN(s.history.all, Count(argument)), chance.stamps);
    case ShowRoomHistory(argument) =>
      HistoryFlushed(s, fd, RoomHistoryHeader, LastN(Room(s.history, r), Count(argument)), chance.stamps);
    case Transfer(path, target) => FilesFlushed(s, fd, path, target, chance.file);
    case ShareFile(path) => FilesFlushed(s, fd, path, "", chance.file);
    case _ =>
  }

  // ------------------------------------------------------------------ the one exception

  /** A private or room message that somebody gets. */
  ghost predicate HasReader(s: State, m: ChatMessage) {
    || (m.kind == PRIVATE && Lookup(s, m.receiver).Some?)
    || (m.kind == ROOM_MESSAGE && m.receiver in s.rooms && exists k :: Reaches(s.index, s.rooms[m.receiver].members, k))
  }

  /** A `MSG` line that is passed on as it was framed, without a newline. */
  ghost predicate PassedOn(s: State, e: Event) {
    && e.Received? && e.fd in s.clients && e.line[0] != '/' && StartsWith(e.line, "MSG")
    && s.clients[e.fd].loggedIn && !Silenced(s, e.fd, e.chance.now)
    && Decode(e.line).Some? && HasReader(s, Decode(e.line).value)
  }

  lemma LineNotEnded(line: Message, sent: map<nat, seq<string>>, before: seq<string>, k: nat)
    requires k in sent && sent[k] == before + [line]
    ensures !Flushed(sent)
  {
    assert sent[k][|before|] == line && !EndsLine(line);
  }

  lemma {:induction false} DeliverNobody(s: State, members: seq<string>, text: string)
    requires forall k :: !Reaches(s.index, members, k)
    ensures Deliver(s, members, text) == s
  {
    if members != [] {
      var front, last := members[..|members| - 1], members[|members| - 1];
      assert members == front + [last];
      forall k ensures !Reaches(s.index, front, k) {
        assert !Reaches(s.index, members, k);
      }
      DeliverNobody(s, front, text);
      if last in s.index {
        assert Reaches(s.index, members, s.index[last]);
        assert false;
      }
    }
  }

  lemma RelayFlushedIff(s: State, fd: nat, line: Message, m: ChatMessage)
    requires Sound(s.clients, s.index) && RoomsOk(s.rooms) && Flushed(s.sent)
    ensures Flushed(Relay(s, fd, line, m).sent) <==> !HasReader(s, m)
  {
    hide Say, Broadcast, Encode, Flushed, EndsLine, Deliver, Distinct;
    if m.kind == PRIVATE {
      if Lookup(s, m.receiver).Some? {
        var k := Lookup(s, m.receiver).value;
        LineNotEnded(line, Send(s, k, line).sent, Out(s, k), k);
      } else {
        RepliesFlushed();
      }
    } else if m.kind == ROOM_MESSAGE {
      if m.receiver in s.rooms {
        var members := s.rooms[m.receiver].members;
        if k :| Reaches(s.index, members, k) {
          DeliverExact(s, members, line, k);
          LineNotEnded(line, Deliver(s, members, line).sent, Out(s, k), k);
        } else {
          DeliverNobody(s, members, line);
        }
      } else {
        RepliesFlushed();
      }
    } else {
      EncodeEnds(m);
      SendFlushed(s, fd, Encode(m));
    }
  }

  lemma MsgFlushedIff(s: State, fd: nat, line: Message, chance: Chance)
    requires Healthy(s) && Flushed(s.sent) && fd in s.clients && line[0] != '/' && StartsWith(line, "MSG")
    ensures Flushed(DoMsg(s, fd, line, chance.now).sent) <==> !PassedOn(s, Received(fd, line, chance))
  {
    hide Send, Broadcast, Say, Decode, Relay, Flushed, Sound, RoomsOk, StartsWith, Lookup, Reaches;
    RepliesFlushed();
    PutSound(s.clients, s.index, fd, s.clients[fd].(muted := false));
    if Decode(line).Some? {
      RelayFlushedIff(Unsilence(s, fd), fd, line, Decode(line).value);
      SameLookup(s, Unsilence(s, fd), Decode(line).value.receiver);
    }
  }

  lemma SameLookup(s: State, t: State, name: string)
    requires t.index == s.index && t.clients.Keys == s.clients.Keys
    ensures Lookup(t, name) == Lookup(s, name)
  {
  }

  lemma CommandFlushed(s: State, fd: nat, line: Message, chance: Chance)
    requires fd in s.clients && Flushed(s.sent)
    ensures Flushed(DoCommand(s, fd, line, chance).sent)
  {
    hide Flushed, Parse, DoLogin, DoRegister, DoWhisper, DoQuit, DoNick, DoCreateRoom, DoJoinRoom, DoLeaveRoom, DoMute,
      DoUnmute, DoKick, DoUnknown, DoQuery;
    match Parse(line)
    case Login(name, password) => LoginFlushed(s, fd, name, password, chance.salt);
    case Register(name, password) => RegisterFlushed(s, fd, name, password, chance.salt);
    case Whisper(target, text) => WhisperFlushed(s, fd, target, text, chance.id);
    case Quit => NickQuitFlushed(s, fd, "");
    case Nick(name) => NickQuitFlushed(s, fd, name);
    case CreateRoom(name, isPrivate, password) => RoomsFlushed(s, fd, name, isPrivate, password, chance.salt);
    case JoinRoom(name, password) => RoomsFlushed(s, fd, name, false, password, chance.salt);
    case LeaveRoom => RoomsFlushed(s, fd, "", false, "", chance.salt);
    case Mute(target, time) => MutesFlushed(s, fd, target, time, chance.now);
    case Unmute(target) => MutesFlushed(s, fd, target, "", chance.now);
    case Kick(target, reason) => KickFlushed(s, fd, target, reason);
    case Unknown(word) => UnknownFlushed(s, fd, line, word, chance.id);
    case command => QueryFlushed(s, fd, command, chance);
  }

  lemma AcceptFlushed(s: State, fd: nat)
    requires Flushed(s.sent)
    ensures Flushed(Accept(s, fd).sent)
  {
    hide Say, EndsLine, GuestName;
    SayEnds(Welcome);
  }

  /** Output stays newline-terminated exactly as long as no `MSG` line is passed on. */
  lemma StepFlushedIff(s: State, e: Event)
    requires Healthy(s) && Flushed(s.sent)
    ensures Flushed(Step(s, e).sent) <==> !PassedOn(s, e)
  {
    hide Flushed, Healthy, DoCommand, DoMsg, DoPlain, Accept, Remove, StartsWith, Decode, Lookup, Reaches, Silenced;
    match e
    case Connected(fd) => AcceptFlushed(s, fd);
    case Disconnected(fd) =>
    case Received(fd, line, chance) =>
      if fd in s.clients {
        CommandFlushed(s, fd, line, chance);
        PlainFlushed(s, fd, line, chance);
        if line[0] != '/' && StartsWith(line, "MSG") {
          MsgFlushedIff(s, fd, line, chance);
        }
      }
  }

  ghost predicate NonePassedOn(s: State, events: seq<Event>) {
    forall i :: 0 <= i < |events| ==> !PassedOn(Run(s, events[..i]), events[i])
  }

  lemma {:induction false} RunFlushed(s: State, events: seq<Event>)
    requires Healthy(s) && Flushed(s.sent) && NonePassedOn(s, events)
    ensures Flushed(Run(s, events).sent) && Healthy(Run(s, events))
  {
    hide Flushed, Step, PassedOn, Healthy;
    if events != [] {
      var front := events[..|events| - 1];
      assert forall i :: 0 <= i < |front| ==> front[i] == events[i] && front[..i] == events[..i];
      RunFlushed(s, front);
      StepFlushedIff(Run(s, front), events[|events| - 1]);
      StepHealthy(Run(s, front), events[|events| - 1]);
    }
  }

  // ------------------------------------------------------------------ what the client sees

  lemma {:induction false} TailOfEnded(texts: seq<string>)
    requires forall i :: 0 <= i < |texts| ==> EndsLine(texts[i])
    ensures Tail(Concat(texts)) == ""
  {
    hide Lines, Tail;
    if texts == [] {
      LinesOfTail("");
    } else {
      var body := texts[0][..|texts[0]| - 1];
      TailOfEnded(texts[1..]);
      LinesSplit(texts[0], Concat(texts[1..]));
      LinesSplit(body, "\n");
      TailFree(body);
      assert texts[0] == body + "\n";
      assert Tail(body) + "\n" == Tail(body) + ("\n" + "");
      Unfold(Tail(body), "");
      LinesOfTail("");
      assert "" + Concat(texts[1..]) == Concat(texts[1..]);
    }
  }

  /** Behind newline-terminated output, an encoded message is framed as its own line. */
  lemma EncodedArrives(texts: seq<string>, m: ChatMessage)
    requires forall i :: 0 <= i < |texts| ==> EndsLine(texts[i])
    requires FileSafe(m)
    ensures Lines(Concat(texts + [Encode(m)])) == Lines(Concat(texts)) + [Line(m)]
    ensures Tail(Concat(texts + [Encode(m)])) == "" && Decode(Line(m)) == Some(m)
  {
    hide Lines, Tail, Line, Decode, FileSafe, Free, Concat, EndsLine;
    FileSafeLine(m);
    TailOfEnded(texts);
    ConcatAppend(texts, [Encode(m)]);
    ConcatTwo(Encode(m), "");
    LinesSplit(Concat(texts), Encode(m));
    assert "" + Encode(m) == Line(m) + ("\n" + "");
    Unfold(Line(m), "");
    EmptyFree();
    LinesOfTail("");
  }

  /** A text passed on without its newline makes no line at the receiver: it waits in the
      receive buffer and is glued to whatever is sent next. */
  lemma PassedOnUnread(stream: string, line: Message, next: string)
    ensures Lines(stream + line) == Lines(stream) && Tail(stream + line) == Tail(stream) + line
    ensures Free(next, NL) && next != "" ==>
      Lines(stream + line + (next + "\n")) == Lines(stream) + [Tail(stream) + line + next]
  {
    hide Lines, Tail;
    TailFree(stream);
    LinesSplit(stream, line);
    LinesOfTail(Tail(stream) + line);
    assert Lines(stream) + [] == Lines(stream);
    if Free(next, NL) && next != "" {
      var all := Tail(stream) + line + next;
      LinesSplit(stream + line, next + "\n");
      assert Tail(stream) + line + (next + "\n") == all + ("\n" + "");
      Unfold(all, "");
      LinesOfTail("");
    }
  }

  /** In every run in which no `MSG` line was passed on, a room text becomes exactly one new line in
      what the server writes to each member the index reaches, and that line decodes to it. */
  lemma RoomTextWritten(start: State, events: seq<Event>, fd: nat, line: Message, chance: Chance, k: nat,
                        m: ChatMessage)
    requires Healthy(start) && Flushed(start.sent) && NonePassedOn(start, events)
    requires SpeaksInRoom(Run(start, events), fd, line, chance.now)
    requires var s := Run(start, events);
      var c := s.clients[fd];
      && m == ChatMessage(c.name, c.room, ROOM_MESSAGE, Emoji.Substitute(Emoji.EMOJIS, line), chance.id)
      && FileSafe(m) && Reaches(s.index, s.rooms[c.room].members, k)
    ensures var s := Run(start, events);
      var t := Step(s, Received(fd, line, chance));
      Lines(Concat(Out(t, k))) == Lines(Concat(Out(s, k))) + [Line(m)] && Decode(Line(m)) == Some(m)
  {
    hide Lines, Line, Decode, FileSafe, Step, Reaches, Typed, Healthy, NonePassedOn, Concat, Encode,
      Ignored, StartsWith, Silenced, Emoji.Substitute, Emoji.EMOJIS;
    var s := Run(start, events);
    RunFlushed(start, events);
    RoomTextDelivered(s, fd, line, chance, k);
    EncodedArrives(Out(s, k), m);
  }

  /** So the member's receive loop, whatever chunks the stream reaches it in, dispatches what it
      dispatched before, and then that line, as long as nothing written to it holds a NUL. */
  lemma RoomTextArrives(start: State, events: seq<Event>, fd: nat, line: Message, chance: Chance, k: nat,
                        before: seq<string>, after: seq<string>, m: ChatMessage)
    requires Healthy(start) && Flushed(start.sent) && NonePassedOn(start, events)
    requires SpeaksInRoom(Run(start, events), fd, line, chance.now)
    requires var s := Run(start, events);
      var c := s.clients[fd];
      && m == ChatMessage(c.name, c.room, ROOM_MESSAGE, Emoji.Substitute(Emoji.EMOJIS, line), chance.id)
      && FileSafe(m) && Reaches(s.index, s.rooms[c.room].members, k)
    requires Concat(before) == Concat(Out(Run(start, events), k))
    requires Concat(after) == Concat(Out(Step(Run(start, events), Received(fd, line, chance)), k))
    requires Free(Concat(after), NUL)
    ensures Lines(Concat(CStrings(after))) == Lines(Concat(CStrings(before))) + [Line(m)] && Decode(Line(m)) == Some(m)
  {
    hide Lines, Line, Decode, FileSafe, Step, Reaches, Typed, Healthy, NonePassedOn, CString, Encode, Free,
      Ignored, StartsWith, Silenced, Tail, Emoji.Substitute, Emoji.EMOJIS;
    var s := Run(start, events);
    RunFlushed(start, events);
    RoomTextWritten(start, events, fd, line, chance, k, m);
    ChunkInvariance(Concat(after), after);
    RoomTextOnly(s, fd, line, chance, k, m);
    ConcatAppend(Out(s, k), [Encode(m)]);
    FreeFront(Concat(before), Concat([Encode(m)]));
    ChunkInvariance(Concat(before), before);
  }

  lemma RoomTextOnly(s: State, fd: nat, line: Message, chance: Chance, k: nat, m: ChatMessage)
    requires Healthy(s) && SpeaksInRoom(s, fd, line, chance.now)
    requires var c := s.clients[fd];
      m == ChatMessage(c.name, c.room, ROOM_MESSAGE, Emoji.Substitute(Emoji.EMOJIS, line), chance.id)
    requires Reaches(s.index, s.rooms[s.clients[fd].room].members, k)
    ensures Out(Step(s, Received(fd, line, chance)), k) == Out(s, k) + [Encode(m)]
  {
    hide Step, Encode, Reaches, Healthy, Typed, Ignored, StartsWith, Silenced, Emoji.Substitute, Emoji.EMOJIS;
    RoomTextDelivered(s, fd, line, chance, k);
  }

  lemma FreeFront(a: string, b: string)
    requires Free(a + b, NUL)
    ensures Free(a, NUL)
  {
    assert forall i :: 0 <= i < |a| ==> a[i] == (a + b)[i];
  }

  // ------------------------------------------------------------------ what a history query shows

  function Heading(room: bool): Reply {
    if room then RoomHistoryHeader else HistoryHeader
  }

  function HeadingLine(room: bool): string {
    if room then "SYS|Room History:" else "SYS|Message History:"
  }

  function ShownLine(m: ChatMessage, stamp: string): string {
    "SYS|[" + stamp + "] " + m.sender + ": " + m.content
  }

  /** The lines meant by the answer to a history query. */
  function ShownLines(room: bool, ms: seq<ChatMessage>, stamps: seq<string>): (lines: seq<string>)
    ensures |lines| == |ms| + 1 && lines[0] == HeadingLine(room)
    ensures forall i :: 0 <= i < |ms| ==> lines[i + 1] == ShownLine(ms[i], Stamp(stamps, i))
  {
    [HeadingLine(room)] + seq(|ms|, i requires 0 <= i < |ms| => ShownLine(ms[i], Stamp(stamps, i)))
  }

  lemma HeadingOneLine(room: bool)
    ensures OneLine(HeadingLine(room)) && HeadingLine(room) != ""
  {
  }

  lemma HeadingSaid(room: bool)
    ensures Say(Heading(room)) == HeadingLine(room) + "\n"
  {
    hide PartsOf;
    HeadingParts();
  }

  lemma HeadingParts()
    ensures PartsOf(HistoryHeader) == System("Message History:")
    ensures PartsOf(RoomHistoryHeader) == System("Room History:")
  {
  }

  lemma ShownSaid(m: ChatMessage, stamp: string)
    ensures Say(HistoryLine(ShownText(m, stamp))) == ShownLine(m, stamp) + "\n" && ShownLine(m, stamp) != ""
  {
    hide ShownText;
    ShownTextIs(m, stamp);
  }

  lemma ShownTextIs(m: ChatMessage, stamp: string)
    ensures ShownLine(m, stamp) == "SYS|" + ShownText(m, stamp) && ShownLine(m, stamp) != ""
  {
  }

  lemma ShownStream(room: bool, ms: seq<ChatMessage>, stamps: seq<string>)
    ensures Terminated(ShownLines(room, ms, stamps)) == Concat([Say(Heading(room))] + Shown(ms, stamps))
    ensures forall i :: 0 <= i < |ms| + 1 ==> ShownLines(room, ms, stamps)[i] != ""
  {
    hide Concat, Terminated, Heading, HeadingLine, ShownText, ShownLine, Say, ShownLines, Stamp;
    var lines, texts := ShownLines(room, ms, stamps), [Say(Heading(room))] + Shown(ms, stamps);
    HeadingSaid(room);
    HeadingOneLine(room);
    forall i | 0 <= i < |lines| ensures texts[i] == lines[i] + "\n" && lines[i] != "" {
      if i > 0 {
        ShownSaid(ms[i - 1], Stamp(stamps, i - 1));
        assert lines[i - 1 + 1] == ShownLine(ms[i - 1], Stamp(stamps, i - 1));
      }
    }
    TerminatedIs(lines, texts);
  }

  lemma {:induction false} TerminatedIs(lines: seq<string>, texts: seq<string>)
    requires |lines| == |texts| && forall i :: 0 <= i < |lines| ==> texts[i] == lines[i] + "\n"
    ensures Terminated(lines) == Concat(texts)
  {
    if lines != [] {
      TerminatedIs(lines[1..], texts[1..]);
    }
  }

  lemma ShownOneLine(m: ChatMessage, stamp: string)
    ensures OneLine(ShownLine(m, stamp)) <==> OneLine(stamp) && OneLine(m.sender) && OneLine(m.content)
  {
    hide Free;
    ShownFree(m, stamp, NL);
    ShownFree(m, stamp, NUL);
  }

  lemma ShownFree(m: ChatMessage, stamp: string, c: char)
    requires c == NL || c == NUL
    ensures Free(ShownLine(m, stamp), c) <==> Free(stamp, c) && Free(m.sender, c) && Free(m.content, c)
  {
    FreeParts("SYS|[", stamp, "] ", m.sender + ": " + m.content, c);
    FreeParts("", m.sender, ": ", m.content, c);
    assert ShownLine(m, stamp) == "SYS|[" + stamp + "] " + (m.sender + ": " + m.content);
    assert m.sender + ": " + m.content == "" + m.sender + ": " + m.content;
  }

  lemma FreeParts(a: string, b: string, c: string, d: string, x: char)
    ensures Free(a + b + c + d, x) <==> Free(a, x) && Free(b, x) && Free(c, x) && Free(d, x)
  {
    FreeBoth(a, b, x);
    FreeBoth(a + b, c, x);
    FreeBoth(a + b + c, d, x);
  }

  lemma FreeBoth(a: string, b: string, x: char)
    ensures Free(a + b, x) <==> Free(a, x) && Free(b, x)
  {
    assert forall i :: 0 <= i < |a| ==> (a + b)[i] == a[i];
    assert forall i :: 0 <= i < |b| ==> (a + b)[|a| + i] == b[i];
  }

  lemma AllOneLine(first: string, rest: seq<string>)
    requires OneLine(first)
    ensures var lines := [first] + rest;
      (forall i :: 0 <= i < |lines| ==> OneLine(lines[i])) <==> forall i :: 0 <= i < |rest| ==> OneLine(rest[i])
  {
    hide OneLine;
    var lines := [first] + rest;
    assert forall i :: 0 <= i < |rest| ==> rest[i] == lines[i + 1];
  }

  /** The answer to a history query arrives as its heading and one line a message, under any cut,
      exactly when no sender and no content holds a newline or a NUL, and no printed time. */
  lemma HistoryArrivesIff(room: bool, ms: seq<ChatMessage>, stamps: seq<string>, chunks: seq<string>)
    requires Concat(chunks) == Concat([Say(Heading(room))] + Shown(ms, stamps))
    ensures Lines(Concat(CStrings(chunks))) == ShownLines(room, ms, stamps) <==>
      forall i :: 0 <= i < |ms| ==> OneLine(Stamp(stamps, i)) && OneLine(ms[i].sender) && OneLine(ms[i].content)
  {
    hide Lines, Concat, CStrings, Terminated, OneLine, Heading, HeadingLine, ShownLine, ShownLines, Say, Shown, Stamp;
    var lines := ShownLines(room, ms, stamps);
    var rest := lines[1..];
    ShownStream(room, ms, stamps);
    AllArriveIff(lines, chunks);
    HeadingOneLine(room);
    forall i | 0 <= i < |ms|
      ensures OneLine(rest[i]) <==> OneLine(Stamp(stamps, i)) && OneLine(ms[i].sender) && OneLine(ms[i].content)
    {
      assert rest[i] == lines[i + 1];
      ShownOneLine(ms[i], Stamp(stamps, i));
    }
    AllOneLine(lines[0], rest);
    assert lines == [lines[0]] + rest;
  }

  /** A history query writes that answer to its client, and nothing else to anybody. */
  lemma HistoryAnswered(s: State, fd: nat, line: Message, chance: Chance, k: nat)
    requires fd in s.clients && line[0] == '/' && (Parse(line).ShowHistory? || Parse(line).ShowRoomHistory?)
    requires Parse(line).ShowRoomHistory? ==> s.clients[fd].room != ""
    ensures var t, query := Step(s, Received(fd, line, chance)), Parse(line);
      var room, n := query.ShowRoomHistory?, Count(query.argument);
      var ms := if room then LastN(Room(s.history, s.clients[fd].room), n) else LastN(s.history.all, n);
      Out(t, k) == Out(s, k) + if k == fd then [Say(Heading(room))] + Shown(ms, chance.stamps) else []
  {
    hide Parse, SendTexts, Shown, Count, Say, Room, LastN;
    var room, n := Parse(line).ShowRoomHistory?, Count(Parse(line).argument);
    var ms := if room then LastN(Room(s.history, s.clients[fd].room), n) else LastN(s.history.all, n);
    SendTextsExact(s, [fd], [Say(Heading(room))] + Shown(ms, chance.stamps), k);
  }
}
