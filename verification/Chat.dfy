/** `ChatServer` itself: the maps and lists it changes in place, and its handlers. Each does to the whole
    state what its function in `Server` says, keeps the class invariant, and has the outcome that is
    stated for it in `Outcomes`. */
module Chat {
  import opened Text
  import opened Numbers
  import opened Wire
  import opened Framing
  import opened Commands
  import opened History
  import opened Replies
  import opened Server
  import opened Invariants
  import opened FileTransfer
  import opened Restart
  import opened Outcomes
  import opened Handled
  import Password
  import Emoji
  import Users

  class ChatServer {
    var clients: map<nat, Client>
    var nameToSocket: map<string, nat>
    var users: map<string, string>
    var rooms: map<string, ChatRoom>
    var messageHistory: seq<ChatMessage>
    var roomMessageHistory: map<string, seq<ChatMessage>>
    var sent: map<nat, seq<string>>
    ghost var log: seq<ChatMessage>
    const emojiOrder: seq<string>

    ghost function Now(): State
      reads this
    {
      State(clients, nameToSocket, users, rooms, Store(messageHistory, roomMessageHistory), log, sent)
    }

    /** The index leads to clients of that name, rooms are well formed, and the histories are the ends of
        the full log. */
    ghost predicate Valid()
      reads this
    {
      && Lists(emojiOrder, Emoji.EMOJIS.Keys)
      && Healthy(Now()) && Refines(Now().history, log)
    }

    /** The emoji table may be iterated over in any order. */
    constructor (emojiOrder: seq<string>)
      requires Lists(emojiOrder, Emoji.EMOJIS.Keys)
      ensures Valid() && Now() == START
    {
      hide Lists, Emoji.EMOJIS;
      StartHealthy();
      EmptyRefines();
      this.emojiOrder := emojiOrder;
      clients, nameToSocket, users, rooms := map[], map[], map[], map[];
      messageHistory, roomMessageHistory, sent, log := [], map[], map[], [];
    }

    // ------------------------------------------------------------------ sending

    method SendToSocket(fd: nat, text: string)
      modifies `sent
      ensures Now() == Send(old(Now()), fd, text)
    {
      if fd in clients {
        sent := sent[fd := (if fd in sent then sent[fd] else []) + [text]];
      }
    }

    /** To every client, in whatever order the hash map has. */
    method Broadcast(text: string)
      modifies `sent
      ensures Now() == Server.Broadcast(old(Now()), text)
    {
      hide BroadcastTo;
      ghost var before := Now();
      var todo := clients.Keys;
      BroadcastToNobody(before, text);
      while todo != {}
        invariant todo <= clients.Keys
        invariant sent == BroadcastTo(before, clients.Keys - todo, text)
      {
        var fd :| fd in todo;
        BroadcastToOneMore(before, clients.Keys - todo, fd, text);
        assert clients.Keys - (todo - {fd}) == clients.Keys - todo + {fd};
        SendToSocket(fd, text);
        todo := todo - {fd};
      }
      BroadcastToAll(before, text);
      assert clients.Keys - todo == clients.Keys;
    }

    method SendToMembers(members: seq<string>, text: string)
      modifies `sent
      ensures Now() == Deliver(old(Now()), members, text)
    {
      ghost var before := Now();
      var i := 0;
      while i < |members|
        invariant 0 <= i <= |members|
        invariant Now() == Deliver(before, members[..i], text)
      {
        assert members[..i + 1][..i] == members[..i];
        if members[i] in nameToSocket {
          SendToSocket(nameToSocket[members[i]], text);
        }
        i := i + 1;
      }
      assert members[..i] == members;
    }

    /** The sockets are collected under the locks, and written to afterwards. */
    method MemberSockets(members: seq<string>) returns (sockets: seq<nat>)
      ensures sockets == Sockets(nameToSocket, members)
    {
      sockets := [];
      var i := 0;
      while i < |members|
        invariant 0 <= i <= |members|
        invariant sockets == Sockets(nameToSocket, members[..i])
      {
        assert members[..i + 1][..i] == members[..i];
        if members[i] in nameToSocket {
          sockets := sockets + [nameToSocket[members[i]]];
        }
        i := i + 1;
      }
      assert members[..i] == members;
    }

    method SendToAll(sockets: seq<nat>, text: string)
      modifies `sent
      ensures Now() == SendEach(old(Now()), sockets, text)
    {
      ghost var before := Now();
      var i := 0;
      while i < |sockets|
        invariant 0 <= i <= |sockets|
        invariant Now() == SendEach(before, sockets[..i], text)
      {
        assert sockets[..i + 1][..i] == sockets[..i];
        SendToSocket(sockets[i], text);
        i := i + 1;
      }
      assert sockets[..i] == sockets;
    }

    /** Each line goes to all the sockets before the next. */
    method SendLines(sockets: seq<nat>, texts: seq<string>)
      modifies `sent
      ensures Now() == SendTexts(old(Now()), sockets, texts)
    {
      hide SendEach;
      ghost var before := Now();
      var i := 0;
      while i < |texts|
        invariant 0 <= i <= |texts|
        invariant Now() == SendTexts(before, sockets, texts[..i])
      {
        assert texts[..i + 1][..i] == texts[..i];
        SendToAll(sockets, texts[i]);
        i := i + 1;
      }
      assert texts[..i] == texts;
    }

    // ------------------------------------------------------------------ histories and index

    method AddMessageToHistory(m: ChatMessage)
      requires Refines(Now().history, log)
      modifies `messageHistory, `roomMessageHistory, `log
      ensures Now() == Record(old(Now()), m)
      ensures log == old(log) + [m] && Refines(Now().history, log)
    {
      hide Refines, Push;
      AddRefines(Now().history, log, m);
      messageHistory := Pushed(messageHistory, m);
      if m.receiver != "" && m.kind == ROOM_MESSAGE {
        var list := if m.receiver in roomMessageHistory then roomMessageHistory[m.receiver] else [];
        list := Pushed(list, m);
        roomMessageHistory := roomMessageHistory[m.receiver := list];
      }
      log := log + [m];
    }

    /** Appended at the back; too long a list loses its front. */
    method Pushed(list: seq<ChatMessage>, m: ChatMessage) returns (longer: seq<ChatMessage>)
      ensures longer == Push(list, m)
    {
      longer := list + [m];
      if |longer| > MAX_HISTORY {
        longer := longer[1..];
      }
    }

    method ClientByName(name: string) returns (fd: Option<nat>)
      ensures fd == Lookup(Now(), name)
    {
      fd := None;
      if name in nameToSocket {
        if nameToSocket[name] in clients {
          fd := Some(nameToSocket[name]);
        }
      }
    }

    method RemoveClient(fd: nat)
      modifies `clients, `nameToSocket
      ensures Now() == Remove(old(Now()), fd)
    {
      if fd in clients {
        nameToSocket := nameToSocket - {clients[fd].name};
        clients := clients - {fd};
      }
    }

    method TakeName(fd: nat, name: string)
      requires fd in clients
      modifies `clients, `nameToSocket
      ensures Now() == Rename(old(Now()), fd, name)
    {
      nameToSocket := nameToSocket - {clients[fd].name};
      clients := clients[fd := clients[fd].(name := name)];
      nameToSocket := nameToSocket[name := fd];
    }

    method Authenticate(fd: nat, name: string)
      requires fd in clients
      modifies `clients, `nameToSocket
      ensures Now() == SignIn(old(Now()), fd, name)
    {
      nameToSocket := nameToSocket - {clients[fd].name};
      clients := clients[fd := clients[fd].(name := name, loggedIn := true)];
      if |users| == 1 {
        clients := clients[fd := clients[fd].(admin := true)];
      }
      nameToSocket := nameToSocket[name := fd];
    }

    /** `erase(remove(…))` on the member list, and the empty room with it. */
    method TakeOut(r: string, name: string)
      modifies `rooms
      ensures Now() == LeaveMembers(old(Now()), r, name)
    {
      if r in rooms {
        var members, rest := rooms[r].members, [];
        var i := 0;
        while i < |members|
          invariant 0 <= i <= |members| && rest == Without(members[..i], name)
        {
          assert members[..i + 1][..i] == members[..i];
          if members[i] != name {
            rest := rest + [members[i]];
          }
          i := i + 1;
        }
        assert members[..i] == members;
        rooms := if rest == [] then rooms - {r} else rooms[r := rooms[r].(members := rest)];
      }
    }

    method Connect(fd: nat)
      requires Valid() && fd !in clients
      modifies this
      ensures Valid() && Now() == Accept(old(Now()), fd) && ConnectDone(old(Now()), Now(), fd)
    {
      hide Say, Healthy, Refines, Lists, ConnectDone;
      ConnectOutcome(Now(), fd);
      AcceptHealthy(Now(), fd);
      clients := clients[fd := Client(GuestName(fd), false, false, false, 0, "")];
      sent := sent[fd := []];
      FreshSent(old(sent), fd, Say(Welcome));
      SendToSocket(fd, Say(Welcome));
    }

    /** `recv` has nothing more: the client goes. */
    method Disconnect(fd: nat)
      requires Valid()
      modifies this
      ensures Valid() && Now() == Remove(old(Now()), fd) && RemoveDone(old(Now()), Now(), fd)
    {
      hide Healthy, Refines, Lists, Remove, RemoveDone;
      RemoveOutcome(Now(), fd);
      StepHealthy(Now(), Disconnected(fd));
      RemoveClient(fd);
    }

    // ------------------------------------------------------------------ account commands

    method Login(fd: nat, name: Bytes, password: Bytes, salt: Salt)
      requires Valid() && fd in clients
      modifies this
      ensures Valid() && Now() == DoLogin(old(Now()), fd, name, password, salt)
      ensures LoginDone(old(Now()), Now(), fd, name, password)
    {
      hide Say, Password.Hash, Password.Verify, Lookup, SignIn, Send, Server.Broadcast, Healthy, Refines, Lists,
        LoginDone, UsersKept;
      LoginHealthy(Now(), fd, name, password, salt);
      LoginKeeps(Now(), fd, name, password, salt);
      LoginOutcome(Now(), fd, name, password, salt);
      if name == "" {
        SendToSocket(fd, Say(LoginUsage));
        return;
      }
      var found := ClientByName(name);
      if found.Some? {
        SendToSocket(fd, Say(NameTaken));
        return;
      }
      if name in users {
        if password == "" {
          SendToSocket(fd, Say(PasswordRequired));
          return;
        }
        var verdict := Password.VerifyPassword(password, users[name]);
        if verdict == Password.Aborts {
          return;
        }
        if verdict == Password.Rejected {
          SendToSocket(fd, Say(InvalidPassword));
          return;
        }
      } else if password != "" {
        var hashed := Password.HashPassword(password, salt);
        users := users[name := hashed];
      }
      Authenticate(fd, name);
      SendToSocket(fd, Say(LoggedIn(name)));
      Broadcast(Say(Joined(name)));
    }

    method Register(fd: nat, name: Bytes, password: Bytes, salt: Salt)
      requires Valid() && fd in clients
      modifies this
      ensures Valid() && Now() == DoRegister(old(Now()), fd, name, password, salt)
      ensures RegisterDone(old(Now()), Now(), fd, name, password)
    {
      hide Say, Password.Hash, Lookup, SignIn, Send, Server.Broadcast, Healthy, Refines, Lists, RegisterDone, UsersKept;
      RegisterHealthy(Now(), fd, name, password, salt);
      RegisterKeeps(Now(), fd, name, password, salt);
      RegisterOutcome(Now(), fd, name, password, salt);
      if name == "" || password == "" {
        SendToSocket(fd, Say(RegisterUsage));
        return;
      }
      var found := ClientByName(name);
      if found.Some? {
        SendToSocket(fd, Say(NameInUse));
        return;
      }
      if name in users {
        SendToSocket(fd, Say(UserExists));
        return;
      }
      var hashed := Password.HashPassword(password, salt);
      users := users[name := hashed];
      SendToSocket(fd, Say(Registered(name)));
      Authenticate(fd, name);
      Broadcast(Say(Joined(name)));
    }

    method Nick(fd: nat, name: Bytes)
      requires Valid() && fd in clients
      modifies this
      ensures Valid() && Now() == DoNick(old(Now()), fd, name)
      ensures NickDone(old(Now()), Now(), fd, name)
    {
      hide Say, Lookup, Rename, Send, Server.Broadcast, Healthy, Refines, Lists, NickDone;
      NickHealthy(Now(), fd, name);
      NickQuitKeep(Now(), fd, name);
      NickOutcome(Now(), fd, name);
      if name == "" {
        SendToSocket(fd, Say(NickUsage));
        return;
      }
      var found := ClientByName(name);
      if found.Some? {
        SendToSocket(fd, Say(NameTaken));
        return;
      }
      var oldName := clients[fd].name;
      TakeName(fd, name);
      SendToSocket(fd, Say(NickChanged(name)));
      Broadcast(Say(ChangedNick(oldName, name)));
    }

    method Quit(fd: nat)
      requires Valid() && fd in clients
      modifies this
      ensures Valid() && Now() == DoQuit(old(Now()), fd)
      ensures QuitDone(old(Now()), Now(), fd)
    {
      hide Say, Send, Server.Broadcast, LeaveMembers, Remove, Healthy, Refines, Lists, QuitDone;
      QuitHealthy(Now(), fd);
      NickQuitKeep(Now(), fd, "");
      QuitOutcome(Now(), fd);
      var c := clients[fd];
      if c.room != "" {
        TakeOut(c.room, c.name);
        Broadcast(Say(LeftRoom(c.name, c.room)));
      }
      SendToSocket(fd, Say(Goodbye));
      RemoveClient(fd);
    }

    // ------------------------------------------------------------------ administration

    method Mute(fd: nat, target: Bytes, time: Bytes, now: int)
      requires Valid() && fd in clients
      modifies this
      ensures Valid() && Now() == DoMute(old(Now()), fd, target, time, now)
      ensures MuteDone(old(Now()), Now(), fd, target, now, MuteMinutes(time))
    {
      hide Say, Send, Server.Broadcast, Lookup, MuteMinutes, Healthy, Refines, Lists, MuteDone, DoUnmute, DoKick;
      AdminHealthy(Now(), fd, target, time, now);
      MuteKeeps(Now(), fd, target, time, now);
      MuteOutcome(Now(), fd, target, time, now);
      if !clients[fd].admin {
        SendToSocket(fd, Say(AdminRequired));
        return;
      }
      if target == "" {
        SendToSocket(fd, Say(MuteUsage));
        return;
      }
      var found := ClientByName(target);
      if found.None? {
        SendToSocket(fd, Say(UserNotFound(target)));
        return;
      }
      LookupConnected(Now(), target);
      var t, minutes := found.value, MuteMinutes(time);
      clients := clients[t := clients[t].(muted := true, muteEnd := now + 60 * minutes)];
      SendToSocket(fd, Say(Muted(target, minutes)));
      SendToSocket(t, Say(YouMuted(minutes)));
      Broadcast(Say(HasBeenMuted(target, minutes)));
    }

    method Unmute(fd: nat, target: Bytes, now: int)
      requires Valid() && fd in clients
      modifies this
      ensures Valid() && Now() == DoUnmute(old(Now()), fd, target, now)
      ensures UnmuteDone(old(Now()), Now(), fd, target)
    {
      hide Say, Send, Server.Broadcast, Lookup, Healthy, Refines, Lists, UnmuteDone, DoMute, DoKick;
      AdminHealthy(Now(), fd, target, "", now);
      UnmuteKeeps(Now(), fd, target, now);
      UnmuteOutcome(Now(), fd, target, now);
      if !clients[fd].admin {
        SendToSocket(fd, Say(AdminRequired));
        return;
      }
      if target == "" {
        SendToSocket(fd, Say(UnmuteUsage));
        return;
      }
      var found := ClientByName(target);
      if found.None? {
        SendToSocket(fd, Say(UserNotFound(target)));
        return;
      }
      LookupConnected(Now(), target);
      var t := found.value;
      clients := clients[t := clients[t].(muted := false, muteEnd := now)];
      SendToSocket(fd, Say(Unmuted(target)));
      SendToSocket(t, Say(YouUnmuted));
      Broadcast(Say(HasBeenUnmuted(target)));
    }

    method Kick(fd: nat, target: Bytes, reason: Bytes)
      requires Valid() && fd in clients
      modifies this
      ensures Valid() && Now() == DoKick(old(Now()), fd, target, reason)
      ensures KickDone(old(Now()), Now(), fd, target, reason)
    {
      hide Say, Send, Server.Broadcast, Lookup, Remove, Healthy, Refines, Lists, KickDone, DoMute, DoUnmute;
      AdminHealthy(Now(), fd, target, reason, 0);
      KickKeeps(Now(), fd, target, reason);
      KickOutcome(Now(), fd, target, reason);
      if !clients[fd].admin {
        SendToSocket(fd, Say(AdminRequired));
        return;
      }
      if target == "" {
        SendToSocket(fd, Say(KickUsage));
        return;
      }
      var found := ClientByName(target);
      if found.None? {
        SendToSocket(fd, Say(UserNotFound(target)));
        return;
      }
      SendToSocket(found.value, Say(YouKicked(reason)));
      Broadcast(Say(HasBeenKicked(target, reason)));
      RemoveClient(found.value);
    }

    // ------------------------------------------------------------------ room commands

    method CreateRoom(fd: nat, name: Bytes, isPrivate: bool, password: Bytes, salt: Salt)
      requires Valid() && fd in clients
      modifies this
      ensures Valid() && Now() == DoCreateRoom(old(Now()), fd, name, isPrivate, password, salt)
      ensures CreateRoomDone(old(Now()), Now(), fd, name, isPrivate, password)
    {
      hide Say, Send, Server.Broadcast, Password.Hash, Healthy, Refines, Lists, CreateRoomDone;
      CreateRoomHealthy(Now(), fd, name, isPrivate, password, salt);
      CreateRoomKeeps(Now(), fd, name, isPrivate, password, salt);
      CreateRoomOutcome(Now(), fd, name, isPrivate, password, salt);
      if name == "" {
        SendToSocket(fd, Say(CreateRoomUsage));
        return;
      }
      if name in rooms {
        SendToSocket(fd, Say(RoomExists(name)));
        return;
      }
      var me, secret := clients[fd].name, "";
      if isPrivate && password != "" {
        secret := Password.HashPassword(password, salt);
      }
      rooms := rooms[name := ChatRoom(name, me, [me], isPrivate, secret)];
      clients := clients[fd := clients[fd].(room := name)];
      SendToSocket(fd, Say(RoomCreated(name)));
      Broadcast(Say(RoomCreatedBy(name, me)));
    }

    method JoinRoom(fd: nat, name: Bytes, password: Bytes)
      requires Valid() && fd in clients
      modifies this
      ensures Valid() && Now() == DoJoinRoom(old(Now()), fd, name, password)
      ensures JoinRoomDone(old(Now()), Now(), fd, name, password)
    {
      hide Say, Send, Server.Broadcast, Password.Verify, Healthy, Refines, Lists, JoinRoomDone;
      JoinRoomHealthy(Now(), fd, name, password);
      JoinLeaveKeep(Now(), fd, name, password);
      JoinRoomOutcome(Now(), fd, name, password);
      if name == "" {
        SendToSocket(fd, Say(JoinRoomUsage));
        return;
      }
      if name !in rooms {
        SendToSocket(fd, Say(RoomUnknown(name)));
        return;
      }
      var room := rooms[name];
      if room.isPrivate {
        if password == "" {
          SendToSocket(fd, Say(RoomPasswordRequired));
          return;
        }
        var verdict := Password.VerifyPassword(password, room.password);
        if verdict == Password.Aborts {
          return;
        }
        if verdict == Password.Rejected {
          SendToSocket(fd, Say(InvalidRoomPassword));
          return;
        }
      }
      var me := clients[fd].name;
      var already := IsMember(room.members, me);
      if already {
        SendToSocket(fd, Say(AlreadyInRoom(name)));
        return;
      }
      rooms := rooms[name := room.(members := room.members + [me])];
      clients := clients[fd := clients[fd].(room := name)];
      SendToSocket(fd, Say(RoomJoined(name)));
      Broadcast(Say(JoinedRoom(me, name)));
    }

    method IsMember(members: seq<string>, name: string) returns (found: bool)
      ensures found <==> name in members
    {
      found := false;
      var i := 0;
      while i < |members|
        invariant 0 <= i <= |members| && !found && name !in members[..i]
      {
        if members[i] == name {
          found := true;
          break;
        }
        i := i + 1;
      }
    }

    method LeaveRoom(fd: nat)
      requires Valid() && fd in clients
      modifies this
      ensures Valid() && Now() == DoLeaveRoom(old(Now()), fd)
      ensures LeaveRoomDone(old(Now()), Now(), fd)
    {
      hide Say, Send, Server.Broadcast, LeaveMembers, Healthy, Refines, Lists, LeaveRoomDone;
      LeaveRoomHealthy(Now(), fd);
      JoinLeaveKeep(Now(), fd, "", "");
      LeaveRoomOutcome(Now(), fd);
      var c := clients[fd];
      if c.room == "" {
        SendToSocket(fd, Say(NotInRoom));
        return;
      }
      TakeOut(c.room, c.name);
      clients := clients[fd := clients[fd].(room := "")];
      SendToSocket(fd, Say(RoomLeft(c.room)));
      Broadcast(Say(LeftRoom(c.name, c.room)));
    }

    // ------------------------------------------------------------------ messages

    method Compose(fd: nat, receiver: string, kind: Int32, text: Bytes, id: Id) returns (m: ChatMessage)
      requires Lists(emojiOrder, Emoji.EMOJIS.Keys) && fd in clients
      ensures m == Typed(Now(), fd, receiver, kind, text, id)
    {
      hide Emoji.EMOJIS, Emoji.Substitute, Lists;
      var content := Emoji.Rewrite(emojiOrder, text);
      m := ChatMessage(clients[fd].name, receiver, kind, content, id);
    }

    method Whisper(fd: nat, target: Bytes, text: Bytes, id: Id)
      requires Valid() && fd in clients
      modifies this
      ensures Valid() && Now() == DoWhisper(old(Now()), fd, target, text, id)
      ensures WhisperDone(old(Now()), Now(), fd, target, text, id)
    {
      hide Say, Send, Lookup, Encode, Record, Typed, Healthy, Refines, Lists, OnlyMessages, WhisperDone;
      WhisperOutcome(Now(), fd, target, text, id);
      TextsKeep(Now(), fd, "/", target, text, id);
      MessageHealthy(Now(), fd, DoWhisper(Now(), fd, target, text, id));
      if target == "" || text == "" {
        SendToSocket(fd, Say(WhisperUsage));
        return;
      }
      var found := ClientByName(target);
      if found.None? {
        SendToSocket(fd, Say(UserNotFound(target)));
        return;
      }
      var m := Compose(fd, target, PRIVATE, text, id);
      AddMessageToHistory(m);
      SendToSocket(found.value, Encode(m));
      SendToSocket(fd, Encode(m));
    }

    method UnknownCommand(fd: nat, line: Message, word: Bytes, id: Id)
      requires Valid() && fd in clients
      modifies this
      ensures Valid() && Now() == DoUnknown(old(Now()), fd, line, word, id)
      ensures UnknownDone(old(Now()), Now(), fd, line, word, id)
    {
      hide Say, Send, Encode, Record, Typed, Deliver, SendEach, Sockets, Healthy, Refines, Lists, OnlyMessages,
        UnknownDone;
      UnknownOutcome(Now(), fd, line, word, id);
      TextsKeep(Now(), fd, line, word, "", id);
      MessageHealthy(Now(), fd, DoUnknown(Now(), fd, line, word, id));
      var r := clients[fd].room;
      if r == "" {
        SendToSocket(fd, Say(Reply.UnknownCommand(word)));
        return;
      }
      var m := Compose(fd, r, ROOM_MESSAGE, line, id);
      AddMessageToHistory(m);
      var sockets := [];
      if r in rooms {
        SendEachIsDeliver(Now(), rooms[r].members, Encode(m));
        sockets := MemberSockets(rooms[r].members);
      } else {
        SendNobody(Now(), Encode(m));
      }
      SendToAll(sockets, Encode(m));
    }

    /** The mute check before a message: says whether the client may speak. */
    method MaySpeak(fd: nat, now: int) returns (may: bool)
      requires fd in clients
      modifies `clients, `sent
      ensures may == !Silenced(old(Now()), fd, now)
      ensures Now() == if may then Unsilence(old(Now()), fd) else Send(old(Now()), fd, Say(StillMuted))
    {
      hide Say, Send;
      may := true;
      if clients[fd].muted {
        if now > clients[fd].muteEnd {
          clients := clients[fd := clients[fd].(muted := false)];
        } else {
          may := false;
          SendToSocket(fd, Say(StillMuted));
        }
      } else {
        assert clients[fd := clients[fd].(muted := false)] == clients;
      }
    }

    method Msg(fd: nat, line: Message, now: int)
      requires Valid() && fd in clients
      modifies this
      ensures Valid() && Now() == DoMsg(old(Now()), fd, line, now)
      ensures MsgDone(old(Now()), Now(), fd, line, now)
    {
      hide Say, Send, Encode, Decode, Relay, Unsilence, Silenced, Healthy, Refines, Lists, OnlyMessages, MsgDone;
      MsgKeeps(Now(), fd, line, now);
      MessageHealthy(Now(), fd, DoMsg(Now(), fd, line, now));
      MsgOutcome(Now(), fd, line, now);
      var decoded := Decode(line);
      if decoded.None? {
        SendToSocket(fd, Say(InvalidMessage));
        return;
      }
      if !clients[fd].loggedIn {
        SendToSocket(fd, Say(LoginFirst));
        return;
      }
      var may := MaySpeak(fd, now);
      if may {
        PassOn(fd, line, decoded.value);
      }
    }

    method PassOn(fd: nat, line: Message, m: ChatMessage)
      requires Refines(Now().history, log)
      modifies this
      ensures Now() == Relay(old(Now()), fd, line, m) && Refines(Now().history, log)
    {
      hide Say, Send, Encode, Record, Server.Broadcast, Deliver, Lookup, Refines;
      if m.kind == PRIVATE {
        var target := ClientByName(m.receiver);
        if target.Some? {
          SendToSocket(target.value, line);
        } else {
          SendToSocket(fd, Say(NoReceiver(m.receiver)));
        }
        AddMessageToHistory(m);
      } else if m.kind == ROOM_MESSAGE {
        if m.receiver in rooms {
          SendToMembers(rooms[m.receiver].members, line);
          AddMessageToHistory(m);
        } else {
          SendToSocket(fd, Say(NoRoom(m.receiver)));
        }
      } else {
        Broadcast(Encode(m));
        AddMessageToHistory(m);
      }
    }

    method Plain(fd: nat, line: Message, chance: Chance)
      requires Valid() && fd in clients
      modifies this
      ensures Valid() && Now() == DoPlain(old(Now()), fd, line, chance)
      ensures PlainDone(old(Now()), Now(), fd, line, chance)
    {
      hide Say, Send, Encode, Record, Server.Broadcast, Deliver, Emoji.Substitute, Emoji.EMOJIS, Silenced, Healthy,
        Refines, Lists, OnlyMessages, PlainDone;
      PlainOutcome(Now(), fd, line, chance);
      PlainKeeps(Now(), fd, line, chance);
      MessageHealthy(Now(), fd, DoPlain(Now(), fd, line, chance));
      if !clients[fd].loggedIn {
        SendToSocket(fd, Say(LoginFirst));
        return;
      }
      var may := MaySpeak(fd, chance.now);
      if !may {
        return;
      }
      var r := clients[fd].room;
      if r != "" {
        var m := Compose(fd, r, ROOM_MESSAGE, line, chance.id);
        if r in rooms {
          SendToMembers(rooms[r].members, Encode(m));
          AddMessageToHistory(m);
        } else {
          SendToSocket(fd, Say(NoRoom(r)));
        }
      } else {
        var m := Compose(fd, "", BROADCAST, line, chance.id);
        AddMessageToHistory(m);
        Broadcast(Encode(m));
      }
    }

    // ------------------------------------------------------------------ dispatch

    method HandleCommand(fd: nat, line: Message, chance: Chance)
      requires Valid() && fd in clients
      modifies this
      ensures Valid() && Now() == DoCommand(old(Now()), fd, line, chance)
    {
      hide Parse, DoLogin, DoRegister, DoWhisper, DoQuit, DoNick, DoCreateRoom, DoJoinRoom, DoLeaveRoom, DoMute,
        DoUnmute, DoKick, DoUnknown, DoQuery, Now, Valid, LoginDone, RegisterDone, QuitDone, NickDone, WhisperDone,
        UnknownDone;
      var command := Parse(line);
      match command
      case Login(name, password) => Login(fd, name, password, chance.salt);
      case Register(name, password) => Register(fd, name, password, chance.salt);
      case Whisper(target, text) => Whisper(fd, target, text, chance.id);
      case Quit => Quit(fd);
      case Nick(name) => Nick(fd, name);
      case Unknown(word) => UnknownCommand(fd, line, word, chance.id);
      case _ => HandleRoomOrAdmin(fd, line, chance, command);
    }

    method HandleRoomOrAdmin(fd: nat, line: Message, chance: Chance, command: Command)
      requires Valid() && fd in clients && command == Parse(line)
      requires !command.Login? && !command.Register? && !command.Whisper? && command != Command.Quit
      requires !command.Nick? && !command.Unknown?
      modifies this
      ensures Valid() && Now() == DoCommand(old(Now()), fd, line, chance)
    {
      hide Parse, DoLogin, DoRegister, DoWhisper, DoQuit, DoNick, DoCreateRoom, DoJoinRoom, DoLeaveRoom, DoMute,
        DoUnmute, DoKick, DoUnknown, DoQuery, Now, Valid, CreateRoomDone, JoinRoomDone, LeaveRoomDone, MuteDone,
        UnmuteDone, KickDone, MuteMinutes;
      if IsQuery(command) {
        Query(fd, command, chance);
      } else {
        match command
        case CreateRoom(name, isPrivate, password) => CreateRoom(fd, name, isPrivate, password, chance.salt);
        case JoinRoom(name, password) => JoinRoom(fd, name, password);
        case LeaveRoom => LeaveRoom(fd);
        case Mute(target, time) => Mute(fd, target, time, chance.now);
        case Unmute(target) => Unmute(fd, target, chance.now);
        case Kick(target, reason) => Kick(fd, target, reason);
      }
    }

    /** Whatever the line is, the class invariant holds again when it has been handled. */
    method HandleLine(fd: nat, line: Message, chance: Chance)
      requires Valid()
      modifies this
      ensures Valid() && Now() == Step(old(Now()), Received(fd, line, chance))
      ensures fd in old(clients) ==> LineDone(old(Now()), Now(), fd, line, chance)
    {
      hide DoCommand, DoMsg, DoPlain, StartsWith, Healthy, Refines, Lists, MsgDone, PlainDone, LineDone;
      if fd in clients {
        LineOutcome(Now(), fd, line, chance);
        if line[0] == '/' {
          HandleCommand(fd, line, chance);
        } else if StartsWith(line, "MSG") {
          Msg(fd, line, chance.now);
        } else if !Ignored(line) {
          Plain(fd, line, chance);
        }
      }
    }

    /** One `recv` on a client's thread: every line it completes is handled in turn. */
    method HandleChunk(fd: nat, reader: LineReader, chunk: Bytes, chances: nat -> Chance)
      requires Valid() && IsBytes(reader.received)
      modifies this, reader
      ensures Valid()
      ensures var text := old(reader.received) + CString(chunk);
        && AreMessages(Lines(text))
        && Now() == Run(old(Now()), Events(fd, Lines(text), chances))
        && reader.received == Tail(text) && IsBytes(reader.received)
    {
      hide Lines, Tail, CString, Step, Healthy, Refines, Lists;
      ghost var before, text := Now(), reader.received + CString(chunk);
      BytesSplit(reader.received, chunk);
      LinesAreMessages(text);
      var lines := reader.Receive(chunk);
      var i := 0;
      while i < |lines|
        invariant 0 <= i <= |lines| && Valid()
        invariant Now() == Run(before, Events(fd, lines, chances)[..i])
        invariant reader.received == Tail(text)
      {
        ghost var events := Events(fd, lines, chances);
        assert events[..i + 1][..i] == events[..i];
        HandleLine(fd, lines[i], chances(i));
        i := i + 1;
      }
      assert Events(fd, lines, chances)[..i] == Events(fd, lines, chances);
    }

    // ------------------------------------------------------------------ queries and files

    /** The names of the clients logged in, over the clients in any order. */
    method ListUsers(order: seq<nat>) returns (names: seq<string>)
      ensures names == UserNames(clients, order)
    {
      names := [];
      var i := 0;
      while i < |order|
        invariant 0 <= i <= |order| && names == UserNames(clients, order[..i])
      {
        assert order[..i + 1][..i] == order[..i];
        if order[i] in clients && clients[order[i]].loggedIn {
          names := names + [clients[order[i]].name];
        }
        i := i + 1;
      }
      assert order[..i] == order;
    }

    method ListRooms(order: seq<string>) returns (names: seq<string>)
      ensures names == RoomNames(rooms, order)
    {
      names := [];
      var i := 0;
      while i < |order|
        invariant 0 <= i <= |order| && names == RoomNames(rooms, order[..i])
      {
        assert order[..i + 1][..i] == order[..i];
        if order[i] in rooms {
          names := names + [order[i]];
        }
        i := i + 1;
      }
      assert order[..i] == order;
    }

    method RecentMessages(argument: Bytes) returns (shown: seq<ChatMessage>)
      ensures shown == LastN(Now().history.all, Count(argument))
    {
      hide Count;
      shown := LastMessages(messageHistory, Count(argument));
    }

    method RecentRoomMessages(r: string, argument: Bytes) returns (shown: seq<ChatMessage>)
      ensures shown == LastN(Room(Now().history, r), Count(argument))
    {
      hide Count;
      shown := [];
      if r in roomMessageHistory {
        shown := LastMessages(roomMessageHistory[r], Count(argument));
      }
    }

    method ShowHistory(fd: nat, header: Reply, shown: seq<ChatMessage>, stamps: seq<string>)
      modifies `sent
      ensures Now() == SendTexts(old(Now()), [fd], [Say(header)] + Shown(shown, stamps))
    {
      hide Say, Shown;
      SendLines([fd], [Say(header)] + Shown(shown, stamps));
    }

    /** `/transfer`: the file to one client, then word to the sender. */
    method Transfer(fd: nat, path: Bytes, target: Bytes, file: Option<Bytes>)
      requires fd in clients
      modifies `sent
      ensures Now() == DoTransfer(old(Now()), fd, path, target, file)
    {
      hide Say, Send, SendTexts, Lookup, FileTexts, FileName;
      if path == "" || target == "" {
        SendToSocket(fd, Say(TransferUsage));
        return;
      }
      var found := ClientByName(target);
      if found.None? {
        SendToSocket(fd, Say(UserNotFound(target)));
        return;
      }
      if file.None? {
        SendToSocket(fd, Say(CannotOpen(path)));
        return;
      }
      var texts := CutFile(clients[fd].name, target, FileName(path), file.value);
      SendLines([found.value], texts);
      SendToSocket(fd, Say(TransferStarted(FileName(path))));
    }

    /** `/file`: the file to the sockets of the room's members, then word to the sender. */
    method ShareFile(fd: nat, path: Bytes, file: Option<Bytes>)
      requires fd in clients
      modifies `sent
      ensures Now() == DoShareFile(old(Now()), fd, path, file)
    {
      hide Say, Send, SendTexts, Sockets, FileTexts, FileName;
      if path == "" {
        SendToSocket(fd, Say(FileUsage));
        return;
      }
      var r := clients[fd].room;
      if r == "" {
        SendToSocket(fd, Say(NotInRoom));
        return;
      }
      if file.None? {
        SendToSocket(fd, Say(CannotOpen(path)));
        return;
      }
      var sockets := MemberSockets(if r in rooms then rooms[r].members else []);
      var texts := CutFile(clients[fd].name, r, FileName(path), file.value);
      SendLines(sockets, texts);
      SendToSocket(fd, Say(FileSent(FileName(path))));
    }

    method Query(fd: nat, command: Command, chance: Chance)
      requires Valid() && fd in clients && IsQuery(command)
      modifies this
      ensures Valid() && Now() == DoQuery(old(Now()), fd, command, chance)
    {
      hide Say, Send, SendTexts, UserNames, RoomNames, UserList, RoomList, MemberList, Shown, Count, Room, DoTransfer,
        DoShareFile, Healthy, Refines, Lists;
      var r := clients[fd].room;
      SentHealthy(Now(), DoQuery(Now(), fd, command, chance));
      match command
      case ShowUsers =>
        var names := ListUsers(chance.clientOrder);
        var text := EncodeUserList(names);
        SendToSocket(fd, text);
      case ShowRooms =>
        var names := ListRooms(chance.roomOrder);
        var text := EncodeRoomList(names);
        SendToSocket(fd, text);
      case ShowMembers =>
        if r == "" {
          SendToSocket(fd, Say(NotInRoom));
        } else {
          var text := EncodeRoomMembers(r, if r in rooms then rooms[r].members else []);
          SendToSocket(fd, text);
        }
      case Help => SendToSocket(fd, Say(HelpText));
      case Info => SendToSocket(fd, Say(InfoText(|clients|)));
      case ShowHistory(argument) =>
        var shown := RecentMessages(argument);
        ShowHistory(fd, HistoryHeader, shown, chance.stamps);
      case ShowRoomHistory(argument) =>
        if r == "" {
          SendToSocket(fd, Say(NotInRoom));
        } else {
          var shown := RecentRoomMessages(r, argument);
          ShowHistory(fd, RoomHistoryHeader, shown, chance.stamps);
        }
      case Transfer(path, target) => Transfer(fd, path, target, chance.file);
      case ShareFile(path) => ShareFile(fd, path, chance.file);
    }

    // ------------------------------------------------------------------ files of the server

    method LoadMessageHistory(text: string)
      requires Valid()
      modifies `messageHistory, `roomMessageHistory, `log
      ensures Valid() && Now() == old(Now()).(history := Now().history, log := log)
      ensures Now().history == LoadText(old(Now().history), text) && log == old(log) + Decoded(FileLines(text))
    {
      hide FileLines, Decode, Add, Healthy, Refines, Lists;
      var lines := FileLines(text);
      var i := 0;
      while i < |lines|
        invariant 0 <= i <= |lines|
        invariant Now().history == AddAll(old(Now().history), Decoded(lines[..i]))
        invariant log == old(log) + Decoded(lines[..i]) && Refines(Now().history, log)
        invariant Now() == old(Now()).(history := Now().history, log := log)
      {
        assert lines[..i + 1][..i] == lines[..i];
        var decoded := Decode(lines[i]);
        if decoded.Some? {
          assert Decoded(lines[..i + 1])[..|Decoded(lines[..i])|] == Decoded(lines[..i]);
          AddMessageToHistory(decoded.value);
        }
        i := i + 1;
      }
      assert lines[..i] == lines;
      SameHealthy(old(Now()), Now());
    }

    method SaveMessageHistory() returns (text: string)
      ensures text == SaveText(Now().history)
    {
      hide Encode;
      text := "";
      var i := 0;
      while i < |messageHistory|
        invariant 0 <= i <= |messageHistory|
        invariant text == Concat(MapEncode(messageHistory[..i]))
      {
        assert MapEncode(messageHistory[..i + 1]) == MapEncode(messageHistory[..i]) + [Encode(messageHistory[i])];
        ConcatAppend(MapEncode(messageHistory[..i]), [Encode(messageHistory[i])]);
        ConcatTwo(Encode(messageHistory[i]), "");
        text := text + Encode(messageHistory[i]);
        i := i + 1;
      }
      assert messageHistory[..i] == messageHistory;
    }

    method LoadUsers(text: string)
      requires Valid()
      modifies `users
      ensures Valid() && Now() == old(Now()).(users := Users.PutLines(old(users), FileLines(text)))
    {
      hide FileLines, Users.PutLines, Healthy, Refines, Lists;
      var loaded := Users.LoadUsers(users, text);
      users := loaded;
      SameHealthy(old(Now()), Now());
    }

    /** What `start` does before it accepts anybody. */
    method Start(usersText: string, messagesText: string)
      requires Valid() && Now() == START
      modifies this
      ensures Valid() && Now() == Boot(usersText, messagesText)
    {
      hide FileLines, Users.PutLines, Healthy, Refines, Lists, Decoded, LoadText;
      LoadUsers(usersText);
      LoadMessageHistory(messagesText);
      assert [] + Decoded(FileLines(messagesText)) == Decoded(FileLines(messagesText));
    }
  }

  // ------------------------------------------------------------------ helpers

  lemma FreshSent(sent: map<nat, seq<string>>, fd: nat, text: string)
    ensures sent[fd := []][fd := [] + [text]] == sent[fd := [text]]
  {
    assert [] + [text] == [text];
  }

  lemma AcceptHealthy(s: State, fd: nat)
    requires Healthy(s) && fd !in s.clients
    ensures Healthy(Accept(s, fd))
  {
    hide Healthy, Accept;
    StepHealthy(s, Connected(fd));
  }

  lemma SameHealthy(s: State, t: State)
    requires Healthy(s) && t.clients == s.clients && t.index == s.index && t.rooms == s.rooms
    ensures Healthy(t)
  {
    hide Sound, RoomsOk;
  }

  /** The output once the text has gone to some of the clients. */
  ghost function BroadcastTo(s: State, done: set<nat>, text: string): map<nat, seq<string>> {
    s.sent + map fd | fd in done :: Out(s, fd) + [text]
  }

  lemma BroadcastToNobody(s: State, text: string)
    ensures BroadcastTo(s, s.clients.Keys - s.clients.Keys, text) == s.sent
  {
  }

  lemma BroadcastToOneMore(s: State, done: set<nat>, fd: nat, text: string)
    requires fd !in done
    ensures var sent := BroadcastTo(s, done, text);
      BroadcastTo(s, done + {fd}, text) == sent[fd := (if fd in sent then sent[fd] else []) + [text]]
  {
  }

  lemma BroadcastToAll(s: State, text: string)
    ensures s.(sent := BroadcastTo(s, s.clients.Keys, text)) == Server.Broadcast(s, text)
  {
  }

  /** Collecting the sockets first and writing afterwards is the same delivery. */
  lemma {:induction false} SendEachIsDeliver(s: State, members: seq<string>, text: string)
    ensures SendEach(s, Sockets(s.index, members), text) == Deliver(s, members, text)
  {
    hide Send;
    if members != [] {
      var front, m := members[..|members| - 1], members[|members| - 1];
      SendEachIsDeliver(s, front, text);
      if m in s.index {
        var sockets := Sockets(s.index, front);
        assert (sockets + [s.index[m]])[..|sockets|] == sockets;
      }
    }
  }

  lemma SendNobody(s: State, text: string)
    ensures SendEach(s, [], text) == s
  {
  }

  lemma LookupConnected(s: State, name: string)
    ensures Lookup(s, name).Some? ==> Lookup(s, name).value in s.clients
  {
  }

  predicate IsBytes(s: string) {
    forall i :: 0 <= i < |s| ==> s[i] as int < 256
  }

  ghost predicate AreMessages(lines: seq<string>) {
    forall i :: 0 <= i < |lines| ==> lines[i] != "" && Free(lines[i], NL) && IsBytes(lines[i])
  }

  /** The lines a client's thread reads, as events. */
  ghost function Events(fd: nat, lines: seq<string>, chances: nat -> Chance): seq<Event>
    requires AreMessages(lines)
  {
    seq(|lines|, i requires 0 <= i < |lines| => Received(fd, lines[i], chances(i)))
  }

  lemma BytesSplit(received: string, chunk: Bytes)
    requires IsBytes(received)
    ensures IsBytes(received + CString(chunk))
  {
  }

  /** What the framing loop cuts out of received bytes are messages. */
  lemma {:induction false} LinesAreMessages(text: string)
    requires IsBytes(text)
    ensures AreMessages(Lines(text)) && IsBytes(Tail(text))
    decreases |text|
  {
    hide Lines, Tail;
    LinesFree(text, NL);
    var line, rest := FirstLine(text);
    if Free(text, NL) {
      LinesOfTail(text);
    } else {
      assert forall i :: 0 <= i < |line| ==> line[i] == text[i];
      assert forall i :: 0 <= i < |rest| ==> rest[i] == text[|line| + 1 + i];
      Unfold(line, rest);
      LinesAreMessages(rest);
    }
  }

  /** The query loops, from `size() - count` or 0 up to the end. */
  method LastMessages(history: seq<ChatMessage>, count: nat) returns (shown: seq<ChatMessage>)
    ensures shown == LastN(history, count)
  {
    var start := if |history| > count then |history| - count else 0;
    shown := [];
    var i := start;
    while i < |history|
      invariant start <= i <= |history| && shown == history[start..i]
    {
      shown := shown + [history[i]];
      i := i + 1;
    }
  }

  /** The lines of a file: the header, and one for each block read. */
  method CutFile(sender: string, receiver: string, fileName: string, file: Bytes) returns (texts: seq<string>)
    ensures texts == FileTexts(sender, receiver, fileName, file)
  {
    hide DataLine, BlocksFrom;
    texts := [Join(["FILE_TRANSFER", sender, receiver, fileName, NatToString(|file|)]) + "\n"];
    ghost var header := texts;
    var blocks := Cut(file);
    var i := 0;
    while i < |blocks|
      invariant 0 <= i <= |blocks|
      invariant texts == header + BlockTexts(sender, receiver, fileName, blocks)[..i]
    {
      texts := texts + [DataLine(Sent(sender, receiver, fileName, blocks[i]))];
      i := i + 1;
    }
    assert BlockTexts(sender, receiver, fileName, blocks)[..i] == BlockTexts(sender, receiver, fileName, blocks);
  }

  method EncodeUserList(names: seq<string>) returns (text: string)
    ensures text == UserList(names)
  {
    text := "USERS|" + NatToString(|names|);
    ghost var header := text;
    var i := 0;
    while i < |names|
      invariant 0 <= i <= |names| && text == header + Server.Fields(names[..i])
    {
      assert names[..i + 1][..i] == names[..i];
      text := text + "|" + names[i];
      i := i + 1;
    }
    assert names[..i] == names;
    text := text + "\n";
  }

  method EncodeLines(header: string, names: seq<string>) returns (text: string)
    ensures text == header + Terminated(names)
  {
    text := header;
    var i := 0;
    while i < |names|
      invariant 0 <= i <= |names| && text == header + Terminated(names[..i])
    {
      assert names[..i + 1] == names[..i] + [names[i]];
      Users.TerminatedAppend(names[..i], names[i]);
      text := text + (names[i] + "\n");
      i := i + 1;
    }
    assert names[..i] == names;
  }

  method EncodeRoomList(names: seq<string>) returns (text: string)
    ensures text == RoomList(names)
  {
    text := EncodeLines("ROOM_LIST|" + NatToString(|names|) + "\n", names);
  }

  method EncodeRoomMembers(room: string, members: seq<string>) returns (text: string)
    ensures text == MemberList(room, members)
  {
    text := EncodeLines("ROOM_MEMBERS|" + room + "|" + NatToString(|members|) + "\n", members);
  }
}
