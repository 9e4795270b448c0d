/** What the histories hold after whole runs, and that they survive the history file. */
module Logs {
  import opened Text
  import opened Numbers
  import opened Wire
  import opened Commands
  import opened History
  import opened Replies
  import opened Server
  import opened Invariants
  import Password
  import Emoji

  // ------------------------------------------------------------------ clean names

  predicate Clean(name: string) {
    Free(name, BAR) && Free(name, NL)
  }

  /** No client name, client room or room name holds a separator. */
  ghost predicate AllClean(clients: map<nat, Client>, rooms: map<string, ChatRoom>) {
    && (forall fd :: fd in clients ==> Clean(clients[fd].name) && Clean(clients[fd].room))
    && (forall r :: r in rooms ==> Clean(r))
  }

  /** The names a line asks for, for its client or for a room, are separator-free. */
  predicate CleanEvent(e: Event) {
    e.Received? && e.line[0] == '/' ==>
      var c := Parse(e.line);
      c.Login? || c.Register? || c.Nick? || c.CreateRoom? ==> Free(c.name, BAR)
  }

  ghost predicate AllCleanEvents(events: seq<Event>) {
    forall i :: 0 <= i < |events| ==> CleanEvent(events[i])
  }

  /** At most one message was stored, and it is safe if `clean`. */
  ghost predicate Stores(s: State, t: State, clean: bool) {
    || NoMessage(s, t)
    || exists m :: t.history == Add(s.history, m) && t.log == s.log + [m] && (clean ==> FileSafe(m))
  }

  lemma WordClean(name: string)
    requires SpaceFree(name) && Free(name, BAR)
    ensures Clean(name)
  {
  }

  lemma GuestClean(fd: nat)
    ensures Clean(GuestName(fd)) && Clean("")
  {
  }

  lemma IdClean(id: Id)
    ensures Free(id, NL)
  {
  }

  // ------------------------------------------------------------------ storing, command by command

  lemma RecordStores(s: State, m: ChatMessage, clean: bool)
    requires clean ==> FileSafe(m)
    ensures Stores(s, Record(s, m), clean)
  {
    hide Add, FileSafe;
  }

  lemma TypedSafe(s: State, fd: nat, receiver: string, kind: Int32, text: Bytes, id: Id)
    requires fd in s.clients && Clean(s.clients[fd].name) && Clean(receiver)
    ensures FileSafe(Typed(s, fd, receiver, kind, text, id))
  {
    hide Free;
    IdClean(id);
  }

  lemma PlainStores(s: State, fd: nat, line: Message, chance: Chance)
    requires fd in s.clients
    ensures Stores(s, DoPlain(s, fd, line, chance), AllClean(s.clients, s.rooms))
  {
    hide Send, Broadcast, Say, Deliver, Encode, Typed, FileSafe, Clean, Add;
    var clean := AllClean(s.clients, s.rooms);
    var r := s.clients[fd].room;
    var m := Typed(s, fd, r, if r == "" then BROADCAST else ROOM_MESSAGE, line, chance.id);
    if clean {
      TypedSafe(s, fd, r, if r == "" then BROADCAST else ROOM_MESSAGE, line, chance.id);
    }
    RecordStores(s, m, clean);
  }

  lemma WhisperStores(s: State, fd: nat, target: Bytes, text: Bytes, id: Id)
    requires fd in s.clients && Sound(s.clients, s.index)
    ensures Stores(s, DoWhisper(s, fd, target, text, id), AllClean(s.clients, s.rooms))
  {
    hide Send, Broadcast, Say, Encode, Typed, FileSafe, Clean, Add;
    var clean := AllClean(s.clients, s.rooms);
    if Lookup(s, target).Some? {
      if clean {
        TypedSafe(s, fd, target, PRIVATE, text, id);
      }
      RecordStores(s, Typed(s, fd, target, PRIVATE, text, id), clean);
    }
  }

  lemma UnknownStores(s: State, fd: nat, line: Message, word: Bytes, id: Id)
    requires fd in s.clients
    ensures Stores(s, DoUnknown(s, fd, line, word, id), AllClean(s.clients, s.rooms))
  {
    hide Send, Broadcast, Say, Deliver, Encode, Typed, FileSafe, Clean, Add;
    var clean := AllClean(s.clients, s.rooms);
    var m := Typed(s, fd, s.clients[fd].room, ROOM_MESSAGE, line, id);
    if clean {
      TypedSafe(s, fd, s.clients[fd].room, ROOM_MESSAGE, line, id);
    }
    RecordStores(s, m, clean);
  }

  /** A relayed message was decoded from a line, so it is safe whatever it claims to be. */
  lemma RelayStores(s: State, fd: nat, line: Message, m: ChatMessage)
    requires FileSafe(m)
    ensures Stores(s, Relay(s, fd, line, m), true)
  {
    hide Send, Broadcast, Say, Deliver, Encode, FileSafe, Add, Lookup;
    RecordStores(s, m, true);
  }

  lemma MsgStores(s: State, fd: nat, line: Message, now: int)
    requires fd in s.clients
    ensures Stores(s, DoMsg(s, fd, line, now), true)
  {
    hide Send, Say, Decode, FileSafe, Relay, Add;
    DecodedFileSafe(line);
    if Decode(line).Some? {
      RelayStores(Unsilence(s, fd), fd, line, Decode(line).value);
    }
  }

  /** No event stores more than one message, and with clean names none that the file would lose. */
  lemma StepStores(s: State, e: Event)
    requires Sound(s.clients, s.index)
    ensures Stores(s, Step(s, e), AllClean(s.clients, s.rooms))
  {
    hide Stores, DoCommand, DoMsg, DoPlain, DoWhisper, DoUnknown, Remove, Accept, AllClean, Sound, Parse;
    var clean := AllClean(s.clients, s.rooms);
    QuietStores(s, Step(s, e), clean);
    if e.Received? && e.fd in s.clients {
      var fd, line, chance := e.fd, e.line, e.chance;
      MsgStores(s, fd, line, chance.now);
      WeakerStores(s, DoMsg(s, fd, line, chance.now), clean);
      PlainStores(s, fd, line, chance);
      CommandStores(s, fd, line, chance);
    } else {
      AcceptQuiet(s, e.fd);
    }
  }

  lemma AcceptQuiet(s: State, fd: nat)
    ensures NoMessage(s, Accept(s, fd))
  {
  }

  lemma QuietStores(s: State, t: State, clean: bool)
    ensures NoMessage(s, t) ==> Stores(s, t, clean)
  {
    hide Add, FileSafe;
  }

  lemma WeakerStores(s: State, t: State, clean: bool)
    requires Stores(s, t, true)
    ensures Stores(s, t, clean)
  {
    hide Add, FileSafe;
  }

  lemma CommandStores(s: State, fd: nat, line: Message, chance: Chance)
    requires Sound(s.clients, s.index) && fd in s.clients
    ensures Stores(s, DoCommand(s, fd, line, chance), AllClean(s.clients, s.rooms))
  {
    hide Stores, AllClean, Parse, DoLogin, DoRegister, DoWhisper, DoQuit, DoNick, DoCreateRoom, DoJoinRoom,
      DoLeaveRoom, DoMute, DoUnmute, DoKick, DoUnknown, DoQuery, Sound;
    CommandKeeps(s, fd, line, chance);
    QuietStores(s, DoCommand(s, fd, line, chance), AllClean(s.clients, s.rooms));
    match Parse(line)
    case Whisper(target, text) => WhisperStores(s, fd, target, text, chance.id);
    case Unknown(word) => UnknownStores(s, fd, line, word, chance.id);
    case _ =>
  }

  // ------------------------------------------------------------------ clean names stay clean

  lemma PutClean(clients: map<nat, Client>, rooms: map<string, ChatRoom>, fd: nat, c: Client)
    requires AllClean(clients, rooms) && Clean(c.name) && Clean(c.room)
    ensures AllClean(clients[fd := c], rooms)
  {
    hide Clean;
  }

  lemma FewerClean(s: State, clients: map<nat, Client>, rooms: map<string, ChatRoom>)
    requires AllClean(s.clients, s.rooms) && rooms.Keys <= s.rooms.Keys
    requires forall fd :: fd in clients ==> fd in s.clients && clients[fd] == s.clients[fd]
    ensures AllClean(clients, rooms)
  {
    hide Clean;
  }

  lemma RenameClean(s: State, fd: nat, name: string)
    requires AllClean(s.clients, s.rooms) && fd in s.clients && Clean(name)
    ensures AllClean(Rename(s, fd, name).clients, s.rooms)
  {
    hide AllClean, Clean;
    NamesClean(s, fd);
    PutClean(s.clients, s.rooms, fd, s.clients[fd].(name := name));
  }

  lemma SignInClean(s: State, fd: nat, name: string)
    requires AllClean(s.clients, s.rooms) && fd in s.clients && Clean(name)
    ensures AllClean(SignIn(s, fd, name).clients, s.rooms)
  {
    hide AllClean, Clean, Rename;
    RenameClean(s, fd, name);
    var t := Rename(s, fd, name);
    NamesClean(t, fd);
    PutClean(t.clients, s.rooms, fd, t.clients[fd].(loggedIn := true, admin := t.clients[fd].admin || |s.users| == 1));
  }

  lemma SignedInClean(s: State, fd: nat, name: string)
    requires AllClean(s.clients, s.rooms) && fd in s.clients && Clean(name)
    ensures AllClean(SignedIn(s, fd, name).clients, s.rooms)
  {
    hide Send, Broadcast, Say, SignIn, AllClean, Clean;
    SignInClean(s, fd, name);
  }

  lemma LoginClean(s: State, fd: nat, name: Bytes, password: Bytes, salt: Salt)
    requires AllClean(s.clients, s.rooms) && fd in s.clients && Clean(name)
    ensures AllClean(DoLogin(s, fd, name, password, salt).clients, s.rooms)
  {
    hide Send, Say, Password.Hash, Password.Verify, SignedIn, AllClean, Clean, Lookup;
    SignedInClean(s, fd, name);
    SignedInClean(s.(users := s.users[name := Password.Hash(password, salt)]), fd, name);
  }

  lemma RegisterNickClean(s: State, fd: nat, name: Bytes, password: Bytes, salt: Salt)
    requires AllClean(s.clients, s.rooms) && fd in s.clients && Clean(name)
    ensures AllClean(DoRegister(s, fd, name, password, salt).clients, s.rooms)
    ensures AllClean(DoNick(s, fd, name).clients, s.rooms)
  {
    hide Send, Broadcast, Say, Password.Hash, SignIn, Rename, AllClean, Clean, Lookup;
    RenameClean(s, fd, name);
    var u := s.(users := s.users[name := Password.Hash(password, salt)]);
    SignInClean(Send(u, fd, Say(Registered(name))), fd, name);
  }

  lemma LeaveClean(s: State, fd: nat)
    requires AllClean(s.clients, s.rooms) && fd in s.clients
    ensures var t := DoQuit(s, fd); AllClean(t.clients, t.rooms)
    ensures var t := DoLeaveRoom(s, fd); AllClean(t.clients, t.rooms)
  {
    hide Send, Broadcast, Say, AllClean, Clean, LeaveMembers;
    var c := s.clients[fd];
    var rooms := LeaveMembers(s, c.room, c.name).rooms;
    LeaveKeys(s, c.room, c.name);
    FewerClean(s, s.clients, rooms);
    FewerClean(s, s.clients - {fd}, rooms);
    FewerClean(s, s.clients - {fd}, s.rooms);
    GuestClean(fd);
    NamesClean(s, fd);
    PutClean(s.clients, rooms, fd, c.(room := ""));
  }

  lemma LeaveKeys(s: State, r: string, name: string)
    ensures LeaveMembers(s, r, name).rooms.Keys <= s.rooms.Keys
  {
  }

  lemma NamesClean(s: State, fd: nat)
    requires AllClean(s.clients, s.rooms) && fd in s.clients
    ensures Clean(s.clients[fd].name) && Clean(s.clients[fd].room)
  {
  }

  lemma AdminClean(s: State, fd: nat, target: Bytes, more: Bytes, now: int)
    requires AllClean(s.clients, s.rooms) && fd in s.clients
    ensures AllClean(DoMute(s, fd, target, more, now).clients, s.rooms)
    ensures AllClean(DoUnmute(s, fd, target, now).clients, s.rooms)
    ensures AllClean(DoKick(s, fd, target, more).clients, s.rooms)
  {
    hide Send, Broadcast, Say, AllClean, Clean, MuteMinutes;
    if Lookup(s, target).Some? {
      var t := Lookup(s, target).value;
      NamesClean(s, t);
      PutClean(s.clients, s.rooms, t, s.clients[t].(muted := true, muteEnd := now + 60 * MuteMinutes(more)));
      PutClean(s.clients, s.rooms, t, s.clients[t].(muted := false, muteEnd := now));
      FewerClean(s, s.clients - {t}, s.rooms);
    }
  }

  lemma AddRoomClean(clients: map<nat, Client>, rooms: map<string, ChatRoom>, r: string, room: ChatRoom)
    requires AllClean(clients, rooms) && Clean(r)
    ensures AllClean(clients, rooms[r := room])
  {
    hide Clean;
  }

  lemma CreateRoomClean(s: State, fd: nat, name: Bytes, isPrivate: bool, password: Bytes, salt: Salt)
    requires AllClean(s.clients, s.rooms) && fd in s.clients && Clean(name)
    ensures var t := DoCreateRoom(s, fd, name, isPrivate, password, salt); AllClean(t.clients, t.rooms)
  {
    hide Send, Broadcast, Say, AllClean, Clean, Password.Hash;
    NamesClean(s, fd);
    var me := s.clients[fd].name;
    var secret := if isPrivate && password != "" then Password.Hash(password, salt) else "";
    var room := ChatRoom(name, me, [me], isPrivate, secret);
    AddRoomClean(s.clients, s.rooms, name, room);
    PutClean(s.clients, s.rooms[name := room], fd, s.clients[fd].(room := name));
  }

  lemma JoinRoomClean(s: State, fd: nat, name: Bytes, password: Bytes)
    requires AllClean(s.clients, s.rooms) && fd in s.clients
    ensures var t := DoJoinRoom(s, fd, name, password); AllClean(t.clients, t.rooms)
  {
    hide Send, Broadcast, Say, AllClean, Clean, Password.Verify;
    NamesClean(s, fd);
    if name in s.rooms {
      RoomNameClean(s, name);
      var room := s.rooms[name].(members := s.rooms[name].members + [s.clients[fd].name]);
      AddRoomClean(s.clients, s.rooms, name, room);
      PutClean(s.clients, s.rooms[name := room], fd, s.clients[fd].(room := name));
    }
  }

  lemma RoomNameClean(s: State, r: string)
    requires AllClean(s.clients, s.rooms) && r in s.rooms
    ensures Clean(r)
  {
  }

  lemma TextsClean(s: State, fd: nat, t: State)
    requires AllClean(s.clients, s.rooms) && fd in s.clients && OnlyMessages(s, fd, t)
    ensures AllClean(t.clients, t.rooms)
  {
    hide AllClean, Clean;
    NamesClean(s, fd);
    PutClean(s.clients, s.rooms, fd, s.clients[fd].(muted := false));
  }

  lemma CommandClean(s: State, fd: nat, line: Message, chance: Chance)
    requires AllClean(s.clients, s.rooms) && fd in s.clients && line[0] == '/' && CleanEvent(Received(fd, line, chance))
    ensures var t := DoCommand(s, fd, line, chance); AllClean(t.clients, t.rooms)
  {
    hide AllClean, Clean, Free, SpaceFree, Parse, DoLogin, DoRegister, DoWhisper, DoQuit, DoNick, DoCreateRoom,
      DoJoinRoom, DoLeaveRoom, DoMute, DoUnmute, DoKick, DoUnknown, DoQuery, OnlyMessages;
    ParsedWords(line);
    match Parse(line)
    case Login(name, password) =>
      WordClean(name);
      LoginClean(s, fd, name, password, chance.salt);
      LoginKeeps(s, fd, name, password, chance.salt);
    case Register(name, password) =>
      WordClean(name);
      RegisterNickClean(s, fd, name, password, chance.salt);
      RegisterKeeps(s, fd, name, password, chance.salt);
    case Nick(name) =>
      WordClean(name);
      RegisterNickClean(s, fd, name, "", chance.salt);
      NickQuitKeep(s, fd, name);
    case Whisper(target, text) =>
      TextsKeep(s, fd, line, target, text, chance.id);
      TextsClean(s, fd, DoWhisper(s, fd, target, text, chance.id));
    case Quit => LeaveClean(s, fd);
    case CreateRoom(name, isPrivate, password) =>
      WordClean(name);
      CreateRoomClean(s, fd, name, isPrivate, password, chance.salt);
    case JoinRoom(name, password) => JoinRoomClean(s, fd, name, password);
    case LeaveRoom => LeaveClean(s, fd);
    case Mute(target, time) =>
      AdminClean(s, fd, target, time, chance.now);
      MuteKeeps(s, fd, target, time, chance.now);
    case Unmute(target) =>
      AdminClean(s, fd, target, "", chance.now);
      UnmuteKeeps(s, fd, target, chance.now);
    case Kick(target, reason) =>
      AdminClean(s, fd, target, reason, chance.now);
      KickKeeps(s, fd, target, reason);
    case Unknown(word) =>
      TextsKeep(s, fd, line, word, "", chance.id);
      TextsClean(s, fd, DoUnknown(s, fd, line, word, chance.id));
    case _ =>
  }

  lemma StepClean(s: State, e: Event)
    requires AllClean(s.clients, s.rooms) && CleanEvent(e)
    ensures var t := Step(s, e); AllClean(t.clients, t.rooms)
  {
    hide AllClean, Clean, CleanEvent, DoCommand, DoMsg, DoPlain, GuestName, Say, OnlyMessages;
    match e
    case Connected(fd) =>
      GuestClean(fd);
      PutClean(s.clients, s.rooms, fd, Client(GuestName(fd), false, false, false, 0, ""));
    case Disconnected(fd) => FewerClean(s, s.clients - {fd}, s.rooms);
    case Received(fd, line, chance) =>
      if fd in s.clients {
        if line[0] == '/' {
          CommandClean(s, fd, line, chance);
        }
        MsgKeeps(s, fd, line, chance.now);
        TextsClean(s, fd, DoMsg(s, fd, line, chance.now));
        PlainKeeps(s, fd, line, chance);
        TextsClean(s, fd, DoPlain(s, fd, line, chance));
      }
  }

  // ------------------------------------------------------------------ over runs

  lemma HealthySound(s: State)
    requires Healthy(s)
    ensures Sound(s.clients, s.index)
  {
  }

  ghost predicate AllSafe(ms: seq<ChatMessage>) {
    forall i :: 0 <= i < |ms| ==> FileSafe(ms[i])
  }

  lemma StoresRefine(s: State, t: State, clean: bool)
    requires Stores(s, t, clean) && Refines(s.history, s.log)
    ensures Refines(t.history, t.log)
    ensures clean && AllSafe(s.log) ==> AllSafe(t.log)
  {
    hide Refines, Add, FileSafe;
    if !NoMessage(s, t) {
      var m :| t.history == Add(s.history, m) && t.log == s.log + [m] && (clean ==> FileSafe(m));
      AddRefines(s.history, s.log, m);
    }
  }

  /** Over every run the global history stays the end of the full log, and each room's history the
      end of the room's part of it. */
  lemma {:induction false} RunRefines(s: State, events: seq<Event>)
    requires Healthy(s) && Refines(s.history, s.log)
    ensures var t := Run(s, events); Refines(t.history, t.log) && Healthy(t)
  {
    hide Step, Refines, Healthy, Stores;
    if events != [] {
      var t, e := Run(s, events[..|events| - 1]), events[|events| - 1];
      RunRefines(s, events[..|events| - 1]);
      StepHealthy(t, e);
      HealthySound(t);
      StepStores(t, e);
      StoresRefine(t, Step(t, e), AllClean(t.clients, t.rooms));
    }
  }

  /** `/history` and `/roomhistory` therefore show the last messages of the full log. */
  lemma RunShowsLog(s: State, events: seq<Event>, argument: string, r: string)
    requires Healthy(s) && Refines(s.history, s.log)
    ensures var t, n := Run(s, events), Count(argument);
      LastN(t.history.all, n) == LastN(t.log, n) && LastN(Room(t.history, r), n) == LastN(RoomLog(t.log, r), n)
  {
    hide Run, Refines, Count, Room, RoomLog, Healthy;
    RunRefines(s, events);
    QueryShowsLog(Run(s, events).history, Run(s, events).log, argument, r);
  }

  /** While names are picked without separators, every message logged survives the file. */
  lemma {:induction false} RunSafe(s: State, events: seq<Event>)
    requires Healthy(s) && Refines(s.history, s.log) && AllClean(s.clients, s.rooms) && AllSafe(s.log)
    requires AllCleanEvents(events)
    ensures var t := Run(s, events); AllClean(t.clients, t.rooms) && AllSafe(t.log)
  {
    hide Step, Refines, Healthy, Stores, AllClean, AllSafe, CleanEvent;
    if events != [] {
      var front, e := events[..|events| - 1], events[|events| - 1];
      assert forall i :: 0 <= i < |front| ==> front[i] == events[i];
      var t := Run(s, front);
      RunSafe(s, front);
      RunRefines(s, front);
      StepClean(t, e);
      HealthySound(t);
      StepStores(t, e);
      StoresRefine(t, Step(t, e), true);
    }
  }

  /** A history that is the end of a safe log can be saved and loaded: a fresh server has the same
      global history, and each room's history is the saved one filtered to the room. */
  lemma SafeLogReloads(h: Store, log: seq<ChatMessage>, r: string)
    requires Refines(h, log) && AllSafe(log)
    ensures LoadText(EMPTY, SaveText(h)).all == h.all
    ensures Room(LoadText(EMPTY, SaveText(h)), r) == RoomLog(h.all, r)
  {
    hide LoadText, SaveText, Room, RoomLog, FileSafe;
    SaveLoadIff(h);
    SaveLoadRooms(h, r);
  }

  /** So the history of every such run survives a restart. */
  lemma RunSavesAndLoads(s: State, events: seq<Event>, r: string)
    requires Healthy(s) && Refines(s.history, s.log) && AllClean(s.clients, s.rooms) && AllSafe(s.log)
    requires AllCleanEvents(events)
    ensures var h := Run(s, events).history;
      LoadText(EMPTY, SaveText(h)).all == h.all && Room(LoadText(EMPTY, SaveText(h)), r) == RoomLog(h.all, r)
  {
    hide Run, LoadText, SaveText, Room, RoomLog, Refines, AllClean, AllSafe, AllCleanEvents, Healthy;
    RunRefines(s, events);
    RunSafe(s, events);
    SafeLogReloads(Run(s, events).history, Run(s, events).log, r);
  }

  /** A separator in a name is enough to lose the file: once such a client has said something to
      all, the saved history does not come back. */
  lemma UnsafeNameLosesHistory(s: State, fd: nat, line: Message, chance: Chance)
    requires Refines(s.history, s.log) && fd in s.clients && !Free(s.clients[fd].name, BAR)
    requires s.clients[fd].loggedIn && !Silenced(s, fd, chance.now) && s.clients[fd].room == ""
    requires line[0] != '/' && !StartsWith(line, "MSG") && !Ignored(line)
    ensures var h := Step(s, Received(fd, line, chance)).history; LoadText(EMPTY, SaveText(h)).all != h.all
  {
    hide LoadText, SaveText, Ignored, StartsWith, Refines, Broadcast, Encode, Emoji.Substitute, Push, Room;
    var m := Typed(s, fd, "", BROADCAST, line, chance.id);
    var h := Step(s, Received(fd, line, chance)).history;
    assert h == Add(s.history, m);
    AddRefines(s.history, s.log, m);
    PushEnds(s.history.all, m);
    BoundedAll(h, s.log + [m]);
    SaveLoadIff(h);
  }

  lemma BoundedAll(h: Store, log: seq<ChatMessage>)
    requires Refines(h, log)
    ensures |h.all| <= MAX_HISTORY
  {
  }
}
