/** What every event keeps, and what therefore holds after every run of the server. */
module Invariants {
  import opened Text
  import opened Wire
  import opened Commands
  import opened Replies
  import opened Server
  import Password

  // ------------------------------------------------------------------ unconditional invariants

  /** Every index entry leads to a connected client of that name. */
  ghost predicate Sound(clients: map<nat, Client>, index: map<string, nat>) {
    forall n :: n in index ==> index[n] in clients && clients[index[n]].name == n
  }

  /** Rooms are stored under their own names and have members, none of them twice. */
  ghost predicate RoomsOk(rooms: map<string, ChatRoom>) {
    forall r :: r in rooms ==> r != "" && rooms[r].name == r && rooms[r].members != [] && Distinct(rooms[r].members)
  }

  /** A stored password is the salted record of some password. */
  ghost predicate IsRecord(stored: string) {
    exists p: Bytes, salt: Bytes :: salt != "" && stored == Password.Hash(p, salt)
  }

  ghost predicate Proper(users: map<string, string>, rooms: map<string, ChatRoom>) {
    && (forall n :: n in users ==> IsRecord(users[n]))
    && (forall r :: r in rooms ==> rooms[r].password == "" || IsRecord(rooms[r].password))
  }

  ghost predicate Healthy(s: State) {
    Sound(s.clients, s.index) && RoomsOk(s.rooms)
  }

  // ------------------------------------------------------------------ the single updates

  lemma RenameSound(s: State, fd: nat, name: string)
    requires Sound(s.clients, s.index) && fd in s.clients
    ensures var t := Rename(s, fd, name);
      Sound(t.clients, t.index) && t == s.(clients := t.clients, index := t.index) && t.clients.Keys == s.clients.Keys
  {
  }

  lemma RemoveSound(s: State, fd: nat)
    requires Sound(s.clients, s.index)
    ensures var t := Remove(s, fd);
      Sound(t.clients, t.index) && t == s.(clients := t.clients, index := t.index)
  {
  }

  /** New clients, and changes that leave a client's name alone, keep the index right. */
  lemma PutSound(clients: map<nat, Client>, index: map<string, nat>, fd: nat, c: Client)
    requires Sound(clients, index) && (fd in clients ==> clients[fd].name == c.name)
    ensures Sound(clients[fd := c], index)
  {
  }

  lemma SignInSound(s: State, fd: nat, name: string)
    requires Sound(s.clients, s.index) && fd in s.clients
    ensures var t := SignIn(s, fd, name);
      Sound(t.clients, t.index) && t == s.(clients := t.clients, index := t.index)
  {
    hide Sound, Rename;
    RenameSound(s, fd, name);
    var t := Rename(s, fd, name);
    PutSound(t.clients, t.index, fd, t.clients[fd].(loggedIn := true, admin := t.clients[fd].admin || |s.users| == 1));
  }

  lemma LeaveOk(s: State, r: string, name: string)
    requires RoomsOk(s.rooms)
    ensures RoomsOk(LeaveMembers(s, r, name).rooms)
  {
    hide Distinct;
  }

  lemma JoinOk(s: State, r: string, name: string)
    requires RoomsOk(s.rooms)
    requires r in s.rooms ==> name !in s.rooms[r].members
    ensures RoomsOk(JoinMembers(s, r, name).rooms)
  {
  }

  // ------------------------------------------------------------------ command by command

  lemma SignedInHealthy(s: State, fd: nat, name: string)
    requires Healthy(s) && fd in s.clients
    ensures Healthy(SignedIn(s, fd, name))
  {
    hide Send, Broadcast, Say, Sound, SignIn, RoomsOk;
    SignInSound(s, fd, name);
  }

  lemma LoginHealthy(s: State, fd: nat, name: Bytes, password: Bytes, salt: Salt)
    requires Healthy(s) && fd in s.clients
    ensures Healthy(DoLogin(s, fd, name, password, salt))
  {
    hide Send, Say, Password.Hash, Password.Verify, Sound, SignIn, SignedIn, RoomsOk, Lookup;
    SignedInHealthy(s, fd, name);
    SignedInHealthy(s.(users := s.users[name := Password.Hash(password, salt)]), fd, name);
  }

  lemma RegisterHealthy(s: State, fd: nat, name: Bytes, password: Bytes, salt: Salt)
    requires Healthy(s) && fd in s.clients
    ensures Healthy(DoRegister(s, fd, name, password, salt))
  {
    hide Send, Broadcast, Say, Password.Hash, Sound, SignIn, RoomsOk;
    var t := s.(users := s.users[name := Password.Hash(password, salt)]);
    SignInSound(Send(t, fd, Say(Registered(name))), fd, name);
  }

  lemma NickHealthy(s: State, fd: nat, name: Bytes)
    requires Healthy(s) && fd in s.clients
    ensures Healthy(DoNick(s, fd, name))
  {
    hide Send, Broadcast, Say, Sound, Rename, RoomsOk;
    RenameSound(s, fd, name);
  }

  lemma QuitHealthy(s: State, fd: nat)
    requires Healthy(s) && fd in s.clients
    ensures Healthy(DoQuit(s, fd))
  {
    hide Send, Broadcast, Say, Sound, Remove, RoomsOk, LeaveMembers;
    var c := s.clients[fd];
    LeaveOk(s, c.room, c.name);
    var t := if c.room == "" then s
             else Broadcast(LeaveMembers(s, c.room, c.name), Say(LeftRoom(c.name, c.room)));
    RemoveSound(Send(t, fd, Say(Goodbye)), fd);
  }

  lemma AdminHealthy(s: State, fd: nat, target: Bytes, more: Bytes, now: int)
    requires Healthy(s) && fd in s.clients
    ensures Healthy(DoMute(s, fd, target, more, now)) && Healthy(DoUnmute(s, fd, target, now))
    ensures Healthy(DoKick(s, fd, target, more))
  {
    hide Send, Broadcast, Say, Sound, Remove, RoomsOk, MuteMinutes;
    var found := Lookup(s, target);
    if found.Some? {
      var t := found.value;
      PutSound(s.clients, s.index, t, s.clients[t].(muted := true, muteEnd := now + 60 * MuteMinutes(more)));
      PutSound(s.clients, s.index, t, s.clients[t].(muted := false, muteEnd := now));
      var u := Send(s, t, Say(YouKicked(more)));
      RemoveSound(Broadcast(u, Say(HasBeenKicked(target, more))), t);
    }
  }

  lemma PutRoomOk(rooms: map<string, ChatRoom>, room: ChatRoom)
    requires RoomsOk(rooms) && room.name != "" && |room.members| == 1
    ensures RoomsOk(rooms[room.name := room])
  {
  }

  lemma CreateRoomHealthy(s: State, fd: nat, name: Bytes, isPrivate: bool, password: Bytes, salt: Salt)
    requires Healthy(s) && fd in s.clients
    ensures Healthy(DoCreateRoom(s, fd, name, isPrivate, password, salt))
  {
    hide Send, Broadcast, Say, Password.Hash, Sound, RoomsOk;
    PutSound(s.clients, s.index, fd, s.clients[fd].(room := name));
    var secret := if isPrivate && password != "" then Password.Hash(password, salt) else "";
    if name != "" {
      PutRoomOk(s.rooms, ChatRoom(name, s.clients[fd].name, [s.clients[fd].name], isPrivate, secret));
    }
  }

  lemma JoinRoomHealthy(s: State, fd: nat, name: Bytes, password: Bytes)
    requires Healthy(s) && fd in s.clients
    ensures Healthy(DoJoinRoom(s, fd, name, password))
  {
    hide Send, Broadcast, Say, Password.Verify, Sound, RoomsOk, JoinMembers;
    var me := s.clients[fd].name;
    var t := JoinMembers(s, name, me);
    PutSound(s.clients, s.index, fd, s.clients[fd].(room := name));
    if name in s.rooms && me !in s.rooms[name].members {
      JoinOk(s, name, me);
      assert Healthy(Enter(t, fd, name));
    }
  }

  lemma LeaveRoomHealthy(s: State, fd: nat)
    requires Healthy(s) && fd in s.clients
    ensures Healthy(DoLeaveRoom(s, fd))
  {
    hide Send, Broadcast, Say, Sound, RoomsOk, LeaveMembers;
    PutSound(s.clients, s.index, fd, s.clients[fd].(room := ""));
    LeaveOk(s, s.clients[fd].room, s.clients[fd].name);
  }

  /** Messages change no name, room or record; at most they end a mute. */
  predicate OnlyMessages(s: State, fd: nat, t: State)
    requires fd in s.clients
  {
    && t.index == s.index && t.users == s.users && t.rooms == s.rooms
    && (t.clients == s.clients || t.clients == s.clients[fd := s.clients[fd].(muted := false)])
  }

  lemma RelayKeeps(s: State, fd: nat, line: Message, m: ChatMessage)
    ensures var t := Relay(s, fd, line, m);
      t.clients == s.clients && t.index == s.index && t.users == s.users && t.rooms == s.rooms
  {
    hide Send, Broadcast, Deliver, Say, Record, Encode, Lookup;
  }

  lemma MsgKeeps(s: State, fd: nat, line: Message, now: int)
    requires fd in s.clients
    ensures OnlyMessages(s, fd, DoMsg(s, fd, line, now))
  {
    hide Send, Say, Decode, Relay;
    if Decode(line).Some? {
      RelayKeeps(Unsilence(s, fd), fd, line, Decode(line).value);
    }
  }

  lemma PlainKeeps(s: State, fd: nat, line: Message, chance: Chance)
    requires fd in s.clients
    ensures OnlyMessages(s, fd, DoPlain(s, fd, line, chance))
  {
    hide Send, Broadcast, Deliver, Say, Record, Encode, Typed;
  }

  lemma TextsKeep(s: State, fd: nat, line: Message, target: Bytes, text: Bytes, id: Id)
    requires fd in s.clients
    ensures OnlyMessages(s, fd, DoWhisper(s, fd, target, text, id))
    ensures OnlyMessages(s, fd, DoUnknown(s, fd, line, target, id))
  {
    hide Send, Broadcast, Deliver, Say, Record, Encode, Typed, Lookup;
  }

  lemma MessageHealthy(s: State, fd: nat, t: State)
    requires Healthy(s) && fd in s.clients && OnlyMessages(s, fd, t)
    ensures Healthy(t)
  {
    hide Sound, RoomsOk;
    PutSound(s.clients, s.index, fd, s.clients[fd].(muted := false));
  }

  /** Output does not matter. */
  lemma SentHealthy(s: State, t: State)
    requires Healthy(s) && t == s.(sent := t.sent)
    ensures Healthy(t)
  {
    hide Sound, RoomsOk;
  }

  lemma CommandHealthy(s: State, fd: nat, line: Message, chance: Chance)
    requires Healthy(s) && fd in s.clients
    ensures Healthy(DoCommand(s, fd, line, chance))
  {
    hide Healthy, Parse, DoLogin, DoRegister, DoWhisper, DoQuit, DoNick, DoCreateRoom, DoJoinRoom, DoLeaveRoom, DoMute,
      DoUnmute, DoKick, DoUnknown, DoQuery, DoMsg, DoPlain;
    match Parse(line)
    case Login(name, password) => LoginHealthy(s, fd, name, password, chance.salt);
    case Register(name, password) => RegisterHealthy(s, fd, name, password, chance.salt);
    case Whisper(target, text) =>
      TextsKeep(s, fd, line, target, text, chance.id);
      MessageHealthy(s, fd, DoWhisper(s, fd, target, text, chance.id));
    case Quit => QuitHealthy(s, fd);
    case Nick(name) => NickHealthy(s, fd, name);
    case CreateRoom(name, isPrivate, password) => CreateRoomHealthy(s, fd, name, isPrivate, password, chance.salt);
    case JoinRoom(name, password) => JoinRoomHealthy(s, fd, name, password);
    case LeaveRoom => LeaveRoomHealthy(s, fd);
    case Mute(target, time) => AdminHealthy(s, fd, target, time, chance.now);
    case Unmute(target) => AdminHealthy(s, fd, target, "", chance.now);
    case Kick(target, reason) => AdminHealthy(s, fd, target, reason, chance.now);
    case Unknown(word) =>
      TextsKeep(s, fd, line, word, "", chance.id);
      MessageHealthy(s, fd, DoUnknown(s, fd, line, word, chance.id));
    case _ => SentHealthy(s, DoCommand(s, fd, line, chance));
  }

  /** Every event keeps the index sound and the rooms well formed. */
  lemma StepHealthy(s: State, e: Event)
    requires Healthy(s)
    ensures Healthy(Step(s, e))
  {
    hide DoCommand, DoMsg, DoPlain, Remove, Sound, RoomsOk, GuestName;
    match e
    case Connected(fd) =>
      if fd !in s.clients {
        PutSound(s.clients, s.index, fd, Client(GuestName(fd), false, false, false, 0, ""));
      }
    case Disconnected(fd) => RemoveSound(s, fd);
    case Received(fd, line, chance) =>
      if fd in s.clients {
        CommandHealthy(s, fd, line, chance);
        MsgKeeps(s, fd, line, chance.now);
        MessageHealthy(s, fd, DoMsg(s, fd, line, chance.now));
        PlainKeeps(s, fd, line, chance);
        MessageHealthy(s, fd, DoPlain(s, fd, line, chance));
      }
  }

  lemma StartHealthy()
    ensures Healthy(START)
  {
  }

  /** After every run, whatever the clients send. */
  lemma {:induction false} RunHealthy(s: State, events: seq<Event>)
    requires Healthy(s)
    ensures Healthy(Run(s, events))
  {
    hide Healthy, Step;
    if events != [] {
      RunHealthy(s, events[..|events| - 1]);
      StepHealthy(Run(s, events[..|events| - 1]), events[|events| - 1]);
    }
  }

  /** No reachable password check ends in an exception. */
  lemma ProperNeverAborts(stored: string, p: Bytes)
    requires stored == "" || IsRecord(stored)
    ensures Password.Verify(p, stored) != Password.Aborts
  {
    if stored != "" {
      var q: Bytes, salt: Bytes :| salt != "" && stored == Password.Hash(q, salt);
      Password.VerifyExact(p, q, salt);
    }
  }

  // ------------------------------------------------------------------ records

  lemma HashIsRecord(p: Bytes, salt: Salt)
    ensures IsRecord(Password.Hash(p, salt))
  {
  }

  lemma PutUserProper(users: map<string, string>, rooms: map<string, ChatRoom>, name: string, p: Bytes, salt: Salt)
    requires Proper(users, rooms)
    ensures Proper(users[name := Password.Hash(p, salt)], rooms)
  {
    hide IsRecord, Password.Hash;
    HashIsRecord(p, salt);
  }

  /** Rooms may go, and their members may change. */
  lemma SameRecordsProper(users: map<string, string>, rooms: map<string, ChatRoom>, now: map<string, ChatRoom>)
    requires Proper(users, rooms) && forall r :: r in now ==> r in rooms && now[r].password == rooms[r].password
    ensures Proper(users, now)
  {
    hide IsRecord;
  }

  lemma PutRoomProper(users: map<string, string>, rooms: map<string, ChatRoom>, r: string, room: ChatRoom)
    requires Proper(users, rooms) && (room.password == "" || IsRecord(room.password))
    ensures Proper(users, rooms[r := room])
  {
    hide IsRecord;
  }

  lemma AccountProper(s: State, fd: nat, name: Bytes, password: Bytes, salt: Salt)
    requires fd in s.clients && Proper(s.users, s.rooms)
    ensures var t := DoLogin(s, fd, name, password, salt); Proper(t.users, t.rooms)
    ensures var t := DoRegister(s, fd, name, password, salt); Proper(t.users, t.rooms)
  {
    hide Send, Broadcast, Say, Password.Hash, Password.Verify, SignIn, SignedIn, Proper, Lookup;
    PutUserProper(s.users, s.rooms, name, password, salt);
  }

  lemma CreateRoomProper(s: State, fd: nat, name: Bytes, isPrivate: bool, password: Bytes, salt: Salt)
    requires fd in s.clients && Proper(s.users, s.rooms)
    ensures var t := DoCreateRoom(s, fd, name, isPrivate, password, salt); Proper(t.users, t.rooms)
  {
    hide Send, Broadcast, Say, Password.Hash, Proper, IsRecord;
    HashIsRecord(password, salt);
    var me := s.clients[fd].name;
    var secret := if isPrivate && password != "" then Password.Hash(password, salt) else "";
    PutRoomProper(s.users, s.rooms, name, ChatRoom(name, me, [me], isPrivate, secret));
  }

  lemma MembersProper(s: State, r: string, name: string)
    requires Proper(s.users, s.rooms)
    ensures Proper(s.users, LeaveMembers(s, r, name).rooms) && Proper(s.users, JoinMembers(s, r, name).rooms)
  {
    hide Proper, Without;
    SameRecordsProper(s.users, s.rooms, LeaveMembers(s, r, name).rooms);
    SameRecordsProper(s.users, s.rooms, JoinMembers(s, r, name).rooms);
  }

  lemma JoinLeaveProper(s: State, fd: nat, name: Bytes, password: Bytes)
    requires fd in s.clients && Proper(s.users, s.rooms)
    ensures var t := DoJoinRoom(s, fd, name, password); Proper(t.users, t.rooms)
    ensures var t := DoLeaveRoom(s, fd); Proper(t.users, t.rooms)
    ensures var t := DoQuit(s, fd); Proper(t.users, t.rooms)
  {
    hide Send, Broadcast, Say, Password.Verify, Proper, JoinMembers, LeaveMembers, Remove;
    MembersProper(s, name, s.clients[fd].name);
    MembersProper(s, s.clients[fd].room, s.clients[fd].name);
  }

  lemma OthersKeepRecords(s: State, fd: nat, line: Message, chance: Chance)
    requires fd in s.clients
    requires var c := Parse(line);
      !c.Login? && !c.Register? && !c.CreateRoom? && !c.JoinRoom? && !c.LeaveRoom? && !c.Quit?
    ensures var t := DoCommand(s, fd, line, chance); t.users == s.users && t.rooms == s.rooms
  {
    hide Parse, DoLogin, DoRegister, DoWhisper, DoQuit, DoNick, DoCreateRoom, DoJoinRoom, DoLeaveRoom, DoMute,
      DoUnmute, DoKick, DoUnknown, DoQuery;
    match Parse(line)
    case Whisper(target, text) => TextsKeep(s, fd, line, target, text, chance.id);
    case Nick(name) => NickQuitKeep(s, fd, name);
    case Mute(target, time) => MuteKeeps(s, fd, target, time, chance.now);
    case Unmute(target) => UnmuteKeeps(s, fd, target, chance.now);
    case Kick(target, reason) => KickKeeps(s, fd, target, reason);
    case Unknown(word) => TextsKeep(s, fd, line, word, "", chance.id);
    case _ =>
  }

  lemma CommandProper(s: State, fd: nat, line: Message, chance: Chance)
    requires fd in s.clients && Proper(s.users, s.rooms)
    ensures var t := DoCommand(s, fd, line, chance); Proper(t.users, t.rooms)
  {
    hide Proper, Parse, DoLogin, DoRegister, DoWhisper, DoQuit, DoNick, DoCreateRoom, DoJoinRoom, DoLeaveRoom, DoMute,
      DoUnmute, DoKick, DoUnknown, DoQuery;
    var c := Parse(line);
    if c.Login? || c.Register? {
      AccountProper(s, fd, c.name, c.password, chance.salt);
    } else if c.CreateRoom? {
      CreateRoomProper(s, fd, c.name, c.isPrivate, c.password, chance.salt);
    } else if c.JoinRoom? {
      JoinLeaveProper(s, fd, c.name, c.password);
    } else if c.LeaveRoom? || c.Quit? {
      JoinLeaveProper(s, fd, "", "");
    } else {
      OthersKeepRecords(s, fd, line, chance);
    }
  }

  /** Every event keeps stored passwords proper records. */
  lemma StepProper(s: State, e: Event)
    requires Proper(s.users, s.rooms)
    ensures var t := Step(s, e); Proper(t.users, t.rooms)
  {
    hide Proper, DoCommand, DoMsg, DoPlain, Parse;
    if e.Received? && e.fd in s.clients {
      MsgKeeps(s, e.fd, e.line, e.chance.now);
      PlainKeeps(s, e.fd, e.line, e.chance);
      CommandProper(s, e.fd, e.line, e.chance);
    }
  }

  lemma {:induction false} RunProper(s: State, events: seq<Event>)
    requires Proper(s.users, s.rooms)
    ensures var t := Run(s, events); Proper(t.users, t.rooms)
  {
    hide Proper, Step;
    if events != [] {
      RunProper(s, events[..|events| - 1]);
      StepProper(Run(s, events[..|events| - 1]), events[|events| - 1]);
    }
  }

  // ------------------------------------------------------------------ registered users

  ghost predicate UsersKept(s: State, t: State) {
    forall n :: n in s.users ==> n in t.users && t.users[n] == s.users[n]
  }

  /** Commands other than messages leave the histories alone. */
  ghost predicate NoMessage(s: State, t: State) {
    t.history == s.history && t.log == s.log
  }

  lemma LoginKeeps(s: State, fd: nat, name: Bytes, password: Bytes, salt: Salt)
    requires fd in s.clients
    ensures var t := DoLogin(s, fd, name, password, salt); UsersKept(s, t) && NoMessage(s, t) && t.rooms == s.rooms
  {
    hide Send, Say, Password.Hash, Password.Verify, Lookup, SignedIn;
  }

  lemma RegisterKeeps(s: State, fd: nat, name: Bytes, password: Bytes, salt: Salt)
    requires fd in s.clients
    ensures var t := DoRegister(s, fd, name, password, salt); UsersKept(s, t) && NoMessage(s, t) && t.rooms == s.rooms
  {
    hide Send, Broadcast, Say, Password.Hash, Lookup, SignIn;
  }

  lemma NickQuitKeep(s: State, fd: nat, name: Bytes)
    requires fd in s.clients
    ensures var t := DoNick(s, fd, name); t.users == s.users && NoMessage(s, t) && t.rooms == s.rooms
    ensures var t := DoQuit(s, fd); t.users == s.users && NoMessage(s, t)
  {
    hide Send, Broadcast, Say, Lookup, Rename, Remove, LeaveMembers;
  }

  lemma CreateRoomKeeps(s: State, fd: nat, name: Bytes, isPrivate: bool, password: Bytes, salt: Salt)
    requires fd in s.clients
    ensures var t := DoCreateRoom(s, fd, name, isPrivate, password, salt); t.users == s.users && NoMessage(s, t)
  {
    hide Send, Broadcast, Say, Password.Hash;
  }

  lemma JoinLeaveKeep(s: State, fd: nat, name: Bytes, password: Bytes)
    requires fd in s.clients
    ensures var t := DoJoinRoom(s, fd, name, password); t.users == s.users && NoMessage(s, t)
    ensures var t := DoLeaveRoom(s, fd); t.users == s.users && NoMessage(s, t)
  {
    hide Send, Broadcast, Say, Password.Verify, LeaveMembers, JoinMembers;
  }

  lemma MuteKeeps(s: State, fd: nat, target: Bytes, time: Bytes, now: int)
    requires fd in s.clients
    ensures var t := DoMute(s, fd, target, time, now); t.users == s.users && NoMessage(s, t) && t.rooms == s.rooms
  {
    hide Send, Broadcast, Say, MuteMinutes, Lookup;
  }

  lemma UnmuteKeeps(s: State, fd: nat, target: Bytes, now: int)
    requires fd in s.clients
    ensures var t := DoUnmute(s, fd, target, now); t.users == s.users && NoMessage(s, t) && t.rooms == s.rooms
  {
    hide Send, Broadcast, Say, Lookup;
  }

  lemma KickKeeps(s: State, fd: nat, target: Bytes, reason: Bytes)
    requires fd in s.clients
    ensures var t := DoKick(s, fd, target, reason); t.users == s.users && NoMessage(s, t) && t.rooms == s.rooms
  {
    hide Send, Broadcast, Say, Remove, Lookup;
  }

  lemma QuietKeeps(s: State, fd: nat, line: Message, chance: Chance)
    requires fd in s.clients && !Parse(line).Login? && !Parse(line).Register?
    ensures var t := DoCommand(s, fd, line, chance);
      t.users == s.users && (NoMessage(s, t) || Parse(line).Whisper? || Parse(line).Unknown?)
  {
    hide Parse, DoLogin, DoRegister, DoWhisper, DoQuit, DoNick, DoCreateRoom, DoJoinRoom, DoLeaveRoom, DoMute,
      DoUnmute, DoKick, DoUnknown, DoQuery, DoMsg, DoPlain;
    match Parse(line)
    case Whisper(target, text) => TextsKeep(s, fd, line, target, text, chance.id);
    case Quit => NickQuitKeep(s, fd, "");
    case Nick(name) => NickQuitKeep(s, fd, name);
    case CreateRoom(name, isPrivate, password) => CreateRoomKeeps(s, fd, name, isPrivate, password, chance.salt);
    case JoinRoom(name, password) => JoinLeaveKeep(s, fd, name, password);
    case LeaveRoom => JoinLeaveKeep(s, fd, "", "");
    case Mute(target, time) => MuteKeeps(s, fd, target, time, chance.now);
    case Unmute(target) => UnmuteKeeps(s, fd, target, chance.now);
    case Kick(target, reason) => KickKeeps(s, fd, target, reason);
    case Unknown(word) => TextsKeep(s, fd, line, word, "", chance.id);
    case _ =>
  }

  lemma CommandKeeps(s: State, fd: nat, line: Message, chance: Chance)
    requires fd in s.clients
    ensures var t := DoCommand(s, fd, line, chance);
      UsersKept(s, t) && (NoMessage(s, t) || Parse(line).Whisper? || Parse(line).Unknown?)
  {
    hide Parse, DoLogin, DoRegister, DoWhisper, DoQuit, DoNick, DoCreateRoom, DoJoinRoom, DoLeaveRoom, DoMute,
      DoUnmute, DoKick, DoUnknown, DoQuery, DoMsg, DoPlain;
    var c := Parse(line);
    if c.Login? {
      LoginKeeps(s, fd, c.name, c.password, chance.salt);
    } else if c.Register? {
      RegisterKeeps(s, fd, c.name, c.password, chance.salt);
    } else {
      QuietKeeps(s, fd, line, chance);
    }
  }

  /** A registered record never changes. */
  lemma StepKeepsUsers(s: State, e: Event)
    ensures UsersKept(s, Step(s, e))
  {
    hide DoCommand, DoMsg, DoPlain, Parse;
    if e.Received? && e.fd in s.clients {
      MsgKeeps(s, e.fd, e.line, e.chance.now);
      PlainKeeps(s, e.fd, e.line, e.chance);
      CommandKeeps(s, e.fd, e.line, e.chance);
    }
  }

  /** Over any run a registered record stays, and it goes on accepting its password and no
      other. */
  lemma {:induction false} RegisteredForever(s: State, events: seq<Event>, name: string, p: Bytes, salt: Salt, q: Bytes)
    requires name in s.users && s.users[name] == Password.Hash(p, salt)
    ensures var t := Run(s, events);
      && name in t.users && t.users[name] == Password.Hash(p, salt)
      && (Password.Verify(q, t.users[name]) == Password.Accepted <==> q == p)
  {
    hide Step, Password.Hash, Password.Verify;
    Password.VerifyExact(q, p, salt);
    if events != [] {
      RegisteredForever(s, events[..|events| - 1], name, p, salt, q);
      StepKeepsUsers(Run(s, events[..|events| - 1]), events[|events| - 1]);
    }
  }

  /** Logging in under a registered, unused name succeeds exactly with its password, unless that is
      empty: an empty password is always refused. */
  lemma LoginNeedsPassword(s: State, fd: nat, name: Bytes, p: Bytes, salt: Salt, q: Bytes, other: Salt)
    requires fd in s.clients && name != "" && name in s.users && s.users[name] == Password.Hash(p, salt)
    requires Lookup(s, name).None? && s.clients[fd].name != name
    ensures DoLogin(s, fd, name, q, other).clients[fd].name == name <==> q == p && q != ""
  {
    hide Send, Broadcast, Say, Password.Hash, Password.Verify, Lookup;
    Password.VerifyExact(q, p, salt);
  }
}
