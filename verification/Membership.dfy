/** Names, the index and room membership over runs, and what breaks them. */
module Membership {
  import opened Text
  import opened Numbers
  import opened Commands
  import opened Replies
  import opened Server
  import opened Invariants
  import Password

  // ------------------------------------------------------------------ who takes which name

  /** Names of the form the server gives to new connections. */
  ghost predicate GuestForm(name: string) {
    exists k: nat :: name == GuestName(k)
  }

  /** The name a received line asks for. */
  function Picks(e: Event): Option<string> {
    if !e.Received? || e.line[0] != '/' then None
    else
      match Parse(e.line)
      case Login(name, _) => Some(name)
      case Register(name, _) => Some(name)
      case Nick(name) => Some(name)
      case _ => None
  }

  /** Nobody picks a guest-form name. */
  ghost predicate Decent(e: Event) {
    Picks(e).Some? ==> !GuestForm(Picks(e).value)
  }

  /** Names are picked outside rooms only. */
  predicate Orderly(s: State, e: Event) {
    Picks(e).Some? && e.fd in s.clients ==> s.clients[e.fd].room == ""
  }

  ghost predicate AllDecent(events: seq<Event>) {
    forall i :: 0 <= i < |events| ==> Decent(events[i])
  }

  ghost predicate AllOrderly(s: State, events: seq<Event>) {
    forall i :: 0 <= i < |events| ==> Orderly(Run(s, events[..i]), events[i])
  }

  // ------------------------------------------------------------------ invariants

  /** A client is a guest nobody can look up, or is indexed under its own name. */
  predicate Placed(fd: nat, c: Client, index: map<string, nat>) {
    if c.name == GuestName(fd) then !c.loggedIn && c.name !in index
    else c.name in index && index[c.name] == fd
  }

  ghost predicate Named(clients: map<nat, Client>, index: map<string, nat>) {
    && (forall fd :: fd in clients ==> Placed(fd, clients[fd], index))
    && (forall n :: n in index ==> !GuestForm(n))
  }

  /** A client's room exists and counts it among its members. */
  ghost predicate Seated(clients: map<nat, Client>, rooms: map<string, ChatRoom>) {
    forall fd :: fd in clients && clients[fd].room != "" ==>
      clients[fd].room in rooms && clients[fd].name in rooms[clients[fd].room].members
  }

  ghost predicate Settled(s: State) {
    Healthy(s) && Named(s.clients, s.index)
  }

  lemma GuestNameInjective(a: nat, b: nat)
    requires GuestName(a) == GuestName(b)
    ensures a == b
  {
    assert GuestName(a)[6..] == NatToString(a) && GuestName(b)[6..] == NatToString(b);
    NatToStringInjective(a, b);
  }

  /** No two connected clients have the same name. */
  lemma UniqueNames(s: State, a: nat, b: nat)
    requires Settled(s) && a in s.clients && b in s.clients && s.clients[a].name == s.clients[b].name
    ensures a == b
  {
    hide GuestName;
    if s.clients[a].name == GuestName(a) {
      assert Placed(a, s.clients[a], s.index) && Placed(b, s.clients[b], s.index);
      GuestNameInjective(a, b);
    }
  }

  // ------------------------------------------------------------------ the index agrees with a scan

  /** The lookup finds exactly the client a scan of all clients would. */
  lemma LookupIsScan(s: State, name: string, fd: nat)
    requires Settled(s) && !GuestForm(name)
    ensures Lookup(s, name) == Some(fd) <==> fd in s.clients && s.clients[fd].name == name
  {
    hide GuestName;
    if fd in s.clients && s.clients[fd].name == name {
      assert Placed(fd, s.clients[fd], s.index);
    }
  }

  lemma RenameNamed(s: State, fd: nat, name: string)
    requires Settled(s) && fd in s.clients && !GuestForm(name) && Lookup(s, name).None?
    ensures var t := Rename(s, fd, name); Named(t.clients, t.index)
  {
    hide GuestName, RoomsOk, GuestForm;
    var t := Rename(s, fd, name);
    NotGuestName(fd, name);
    forall g | g in t.clients ensures Placed(g, t.clients[g], t.index) {
      assert Placed(g, s.clients[g], s.index);
      NotGuestName(g, name);
      if g != fd && s.clients[g].name == s.clients[fd].name {
        UniqueNames(s, g, fd);
      }
    }
  }

  lemma PutNamed(clients: map<nat, Client>, index: map<string, nat>, fd: nat, c: Client)
    requires Named(clients, index) && Placed(fd, c, index)
    ensures Named(clients[fd := c], index)
  {
    hide GuestForm, GuestName;
  }

  lemma RemoveNamed(s: State, fd: nat)
    requires Settled(s)
    ensures var t := Remove(s, fd); Named(t.clients, t.index)
  {
    hide GuestName;
    var t := Remove(s, fd);
    forall g | g in t.clients ensures Placed(g, t.clients[g], t.index) {
      assert Placed(g, s.clients[g], s.index);
      if fd in s.clients && s.clients[g].name == s.clients[fd].name {
        UniqueNames(s, g, fd);
      }
    }
  }

  lemma AcceptNamed(s: State, fd: nat)
    requires Settled(s) && fd !in s.clients
    ensures var t := Accept(s, fd); Named(t.clients, t.index)
  {
    hide GuestName, Say;
    var c := Client(GuestName(fd), false, false, false, 0, "");
    assert GuestForm(GuestName(fd));
    PutNamed(s.clients, s.index, fd, c);
  }

  // ------------------------------------------------------------------ names, command by command

  lemma SignInNamed(s: State, fd: nat, name: string)
    requires Settled(s) && fd in s.clients && !GuestForm(name) && Lookup(s, name).None?
    ensures var t := SignIn(s, fd, name); Named(t.clients, t.index)
  {
    hide GuestForm, GuestName;
    RenameNamed(s, fd, name);
    var t := Rename(s, fd, name);
    NotGuestName(fd, name);
    var c := t.clients[fd];
    PutNamed(t.clients, t.index, fd, c.(loggedIn := true, admin := c.admin || |s.users| == 1));
  }

  lemma NotGuestName(fd: nat, name: string)
    requires !GuestForm(name)
    ensures name != GuestName(fd)
  {
  }

  lemma AccountNamed(s: State, fd: nat, name: Bytes, password: Bytes, salt: Salt)
    requires Settled(s) && fd in s.clients && !GuestForm(name)
    ensures var t := DoLogin(s, fd, name, password, salt); Named(t.clients, t.index)
    ensures var t := DoRegister(s, fd, name, password, salt); Named(t.clients, t.index)
    ensures var t := DoNick(s, fd, name); Named(t.clients, t.index)
  {
    hide Send, Broadcast, Say, Password.Hash, Password.Verify, SignIn, Rename, Named, Healthy, GuestForm;
    if Lookup(s, name).None? {
      SignInNamed(s, fd, name);
      RenameNamed(s, fd, name);
      var u := s.(users := s.users[name := Password.Hash(password, salt)]);
      SignInIgnoresRest(s, u, fd, name);
      SignInIgnoresRest(s, Send(u, fd, Say(Registered(name))), fd, name);
    }
  }

  /** Where the index and the names go does not depend on users and output. */
  lemma SignInIgnoresRest(s: State, t: State, fd: nat, name: string)
    requires fd in s.clients && t.clients == s.clients && t.index == s.index
    requires Settled(s) && !GuestForm(name) && Lookup(s, name).None?
    ensures var u := SignIn(t, fd, name); Named(u.clients, u.index)
  {
    hide GuestForm, GuestName, Named;
    SignInNamed(s, fd, name);
    RenameNamed(s, fd, name);
    var u, c := Rename(s, fd, name), Rename(s, fd, name).clients[fd];
    NotGuestName(fd, name);
    PutNamed(u.clients, u.index, fd, c.(loggedIn := true, admin := c.admin || |t.users| == 1));
  }

  lemma LeavingNamed(s: State, fd: nat, target: Bytes, reason: Bytes)
    requires Settled(s) && fd in s.clients
    ensures var t := DoQuit(s, fd); Named(t.clients, t.index)
    ensures var t := DoKick(s, fd, target, reason); Named(t.clients, t.index)
  {
    hide Send, Broadcast, Say, Named, Healthy, LeaveMembers;
    RemoveNamed(s, fd);
    if Lookup(s, target).Some? {
      RemoveNamed(s, Lookup(s, target).value);
    }
  }

  /** Changes that keep name and login state. */
  lemma TouchNamed(s: State, fd: nat, c: Client)
    requires Settled(s) && fd in s.clients && c.name == s.clients[fd].name && c.loggedIn == s.clients[fd].loggedIn
    ensures Named(s.clients[fd := c], s.index)
  {
    hide GuestForm, GuestName;
    assert Placed(fd, s.clients[fd], s.index);
    PutNamed(s.clients, s.index, fd, c);
  }

  lemma MutesNamed(s: State, fd: nat, target: Bytes, time: Bytes, now: int)
    requires Settled(s) && fd in s.clients
    ensures var t := DoMute(s, fd, target, time, now); Named(t.clients, t.index)
    ensures var t := DoUnmute(s, fd, target, now); Named(t.clients, t.index)
  {
    hide Send, Broadcast, Say, Named, Healthy, MuteMinutes;
    if Lookup(s, target).Some? {
      var t := Lookup(s, target).value;
      TouchNamed(s, t, s.clients[t].(muted := true, muteEnd := now + 60 * MuteMinutes(time)));
      TouchNamed(s, t, s.clients[t].(muted := false, muteEnd := now));
    }
  }

  lemma EnterNamed(s: State, fd: nat, name: Bytes, isPrivate: bool, password: Bytes, salt: Salt)
    requires Settled(s) && fd in s.clients
    ensures var t := DoCreateRoom(s, fd, name, isPrivate, password, salt); Named(t.clients, t.index)
    ensures var t := DoJoinRoom(s, fd, name, password); Named(t.clients, t.index)
  {
    hide Send, Broadcast, Say, Named, Healthy, JoinMembers, Password.Hash, Password.Verify;
    TouchNamed(s, fd, s.clients[fd].(room := name));
  }

  lemma LeaveNamed(s: State, fd: nat)
    requires Settled(s) && fd in s.clients
    ensures var t := DoLeaveRoom(s, fd); Named(t.clients, t.index)
  {
    hide Send, Broadcast, Say, Named, Healthy, LeaveMembers;
    TouchNamed(s, fd, s.clients[fd].(room := ""));
  }

  lemma MessageNamed(s: State, fd: nat, t: State)
    requires Settled(s) && fd in s.clients && OnlyMessages(s, fd, t)
    ensures Named(t.clients, t.index)
  {
    hide Named, Healthy;
    TouchNamed(s, fd, s.clients[fd].(muted := false));
  }

  lemma CommandNamed(s: State, fd: nat, line: Message, chance: Chance)
    requires Settled(s) && fd in s.clients && line[0] == '/' && Decent(Received(fd, line, chance))
    ensures var t := DoCommand(s, fd, line, chance); Named(t.clients, t.index)
  {
    hide Settled, Named, GuestForm, Parse, DoLogin, DoRegister, DoWhisper, DoQuit, DoNick, DoCreateRoom, DoJoinRoom,
      DoLeaveRoom, DoMute, DoUnmute, DoKick, DoUnknown, DoQuery, DoMsg, DoPlain, OnlyMessages;
    SettledNamed(s);
    match Parse(line)
    case Login(name, password) => AccountNamed(s, fd, name, password, chance.salt);
    case Register(name, password) => AccountNamed(s, fd, name, password, chance.salt);
    case Whisper(target, text) =>
      TextsKeep(s, fd, line, target, text, chance.id);
      MessageNamed(s, fd, DoWhisper(s, fd, target, text, chance.id));
    case Quit => LeavingNamed(s, fd, "", "");
    case Nick(name) => AccountNamed(s, fd, name, "", chance.salt);
    case CreateRoom(name, isPrivate, password) => EnterNamed(s, fd, name, isPrivate, password, chance.salt);
    case JoinRoom(name, password) => EnterNamed(s, fd, name, false, password, chance.salt);
    case LeaveRoom => LeaveNamed(s, fd);
    case Mute(target, time) => MutesNamed(s, fd, target, time, chance.now);
    case Unmute(target) => MutesNamed(s, fd, target, "", chance.now);
    case Kick(target, reason) => LeavingNamed(s, fd, target, reason);
    case Unknown(word) =>
      TextsKeep(s, fd, line, word, "", chance.id);
      MessageNamed(s, fd, DoUnknown(s, fd, line, word, chance.id));
    case _ =>
  }

  lemma SettledNamed(s: State)
    requires Settled(s)
    ensures Named(s.clients, s.index) && Healthy(s)
  {
    hide Named, Healthy;
  }

  lemma StepSettled(s: State, e: Event)
    requires Settled(s) && Decent(e)
    ensures Settled(Step(s, e))
  {
    hide Healthy, Named, Decent, DoCommand, DoMsg, DoPlain, Accept, Remove, OnlyMessages;
    StepHealthy(s, e);
    match e
    case Connected(fd) =>
      if fd !in s.clients {
        AcceptNamed(s, fd);
      }
    case Disconnected(fd) => RemoveNamed(s, fd);
    case Received(fd, line, chance) =>
      if fd in s.clients {
        if line[0] == '/' {
          CommandNamed(s, fd, line, chance);
        }
        MsgKeeps(s, fd, line, chance.now);
        MessageNamed(s, fd, DoMsg(s, fd, line, chance.now));
        PlainKeeps(s, fd, line, chance);
        MessageNamed(s, fd, DoPlain(s, fd, line, chance));
      }
  }

  /** While nobody picks a guest-form name, names, index and clients stay settled over every run. */
  lemma {:induction false} RunSettled(s: State, events: seq<Event>)
    requires Settled(s) && AllDecent(events)
    ensures Settled(Run(s, events))
  {
    hide Settled, Step, Decent;
    if events != [] {
      var front := events[..|events| - 1];
      assert forall i :: 0 <= i < |front| ==> front[i] == events[i];
      RunSettled(s, front);
      StepSettled(Run(s, front), events[|events| - 1]);
    }
  }

  /** So after every such run a lookup by index finds exactly the client of that name. */
  lemma RunLookupIsScan(s: State, events: seq<Event>, name: string, fd: nat)
    requires Settled(s) && AllDecent(events) && !GuestForm(name)
    ensures var t := Run(s, events);
      Lookup(t, name) == Some(fd) <==> fd in t.clients && t.clients[fd].name == name
  {
    hide Run, Settled, Decent, GuestForm, Lookup;
    RunSettled(s, events);
    LookupIsScan(Run(s, events), name, fd);
  }

  // ------------------------------------------------------------------ the user list

  lemma {:induction false} UserNamesFrom(clients: map<nat, Client>, order: seq<nat>)
    ensures forall n :: n in UserNames(clients, order) <==>
      exists fd :: fd in order && fd in clients && clients[fd].loggedIn && clients[fd].name == n
  {
    if order != [] {
      var front, last := order[..|order| - 1], order[|order| - 1];
      assert order == front + [last];
      UserNamesFrom(clients, front);
    }
  }

  lemma {:induction false} UserNamesDistinct(s: State, order: seq<nat>)
    requires Settled(s) && Distinct(order)
    ensures Distinct(UserNames(s.clients, order))
  {
    hide Settled;
    if order != [] {
      var front, last := order[..|order| - 1], order[|order| - 1];
      assert forall i :: 0 <= i < |front| ==> front[i] == order[i];
      UserNamesDistinct(s, front);
      UserNamesFrom(s.clients, front);
      if last in s.clients && s.clients[last].name in UserNames(s.clients, front) {
        var fd :| fd in front && fd in s.clients && s.clients[fd].name == s.clients[last].name;
        UniqueNames(s, fd, last);
        assert false;
      }
    }
  }

  /** What `/users` lists over the clients in any order, after every such run: exactly the names of
      those logged in, and none twice. */
  lemma RunUserList(s: State, events: seq<Event>, order: seq<nat>)
    requires Settled(s) && AllDecent(events) && Lists(order, Run(s, events).clients.Keys)
    ensures var t := Run(s, events);
      && Distinct(UserNames(t.clients, order))
      && forall n :: n in UserNames(t.clients, order) <==>
           exists fd :: fd in t.clients && t.clients[fd].loggedIn && t.clients[fd].name == n
  {
    hide Run, Settled, Decent, UserNames, Distinct;
    RunSettled(s, events);
    UserNamesFrom(Run(s, events).clients, order);
    UserNamesDistinct(Run(s, events), order);
  }

  // ------------------------------------------------------------------ room membership

  lemma TouchSeated(s: State, fd: nat, c: Client)
    requires Seated(s.clients, s.rooms) && (c.room == "" || (c.room in s.rooms && c.name in s.rooms[c.room].members))
    ensures Seated(s.clients[fd := c], s.rooms)
  {
  }

  lemma FewerSeated(s: State, fd: nat)
    requires Seated(s.clients, s.rooms)
    ensures Seated(Remove(s, fd).clients, s.rooms)
  {
  }

  /** When a client leaves its room, everybody else's room is still there for them. */
  lemma LeaveSeated(s: State, fd: nat)
    requires Settled(s) && Seated(s.clients, s.rooms) && fd in s.clients
    ensures var c := s.clients[fd];
      var rooms := LeaveMembers(s, c.room, c.name).rooms;
      Seated(s.clients - {fd}, rooms) && Seated(s.clients[fd := c.(room := "")], rooms)
  {
    hide Named, Healthy, Sound, RoomsOk;
    var c := s.clients[fd];
    var rooms := LeaveMembers(s, c.room, c.name).rooms;
    forall g | g in s.clients && g != fd && s.clients[g].room != ""
      ensures s.clients[g].room in rooms && s.clients[g].name in rooms[s.clients[g].room].members
    {
      if s.clients[g].room == c.room && s.clients[g].name == c.name {
        UniqueNames(s, g, fd);
      }
    }
  }

  lemma CreateSeated(s: State, fd: nat, room: ChatRoom)
    requires Seated(s.clients, s.rooms) && fd in s.clients && room.name !in s.rooms
    requires s.clients[fd].name in room.members
    ensures Seated(s.clients[fd := s.clients[fd].(room := room.name)], s.rooms[room.name := room])
  {
  }

  lemma JoinSeated(s: State, fd: nat, r: string)
    requires Seated(s.clients, s.rooms) && fd in s.clients && r in s.rooms
    ensures Seated(s.clients[fd := s.clients[fd].(room := r)], JoinMembers(s, r, s.clients[fd].name).rooms)
  {
  }

  /** A client that changes its name keeps room membership right exactly when it is in no room,
      or in one that already lists the new name. */
  lemma RenameSeatedIff(s: State, fd: nat, name: string)
    requires Settled(s) && Seated(s.clients, s.rooms) && fd in s.clients
    ensures Seated(Rename(s, fd, name).clients, s.rooms) <==>
      s.clients[fd].room == "" || name in s.rooms[s.clients[fd].room].members
  {
    hide Named, Healthy;
    var t := Rename(s, fd, name);
    assert t.clients[fd].name == name && t.clients[fd].room == s.clients[fd].room;
  }

  lemma SignInSeated(s: State, fd: nat, name: string)
    requires Seated(s.clients, s.rooms) && fd in s.clients && s.clients[fd].room == ""
    ensures Seated(SignIn(s, fd, name).clients, s.rooms) && Seated(Rename(s, fd, name).clients, s.rooms)
  {
  }

  lemma SignedInSeated(s: State, fd: nat, name: string)
    requires Seated(s.clients, s.rooms) && fd in s.clients && s.clients[fd].room == ""
    ensures Seated(SignedIn(s, fd, name).clients, s.rooms)
  {
    hide Send, Broadcast, Say, SignIn, Seated;
    SignInSeated(s, fd, name);
  }

  lemma LoginSeated(s: State, fd: nat, name: Bytes, password: Bytes, salt: Salt)
    requires Seated(s.clients, s.rooms) && fd in s.clients && s.clients[fd].room == ""
    ensures Seated(DoLogin(s, fd, name, password, salt).clients, s.rooms)
  {
    hide Send, Say, Password.Hash, Password.Verify, SignedIn, Seated, Lookup;
    SignedInSeated(s, fd, name);
    SignedInSeated(s.(users := s.users[name := Password.Hash(password, salt)]), fd, name);
  }

  lemma RegisterSeated(s: State, fd: nat, name: Bytes, password: Bytes, salt: Salt)
    requires Seated(s.clients, s.rooms) && fd in s.clients && s.clients[fd].room == ""
    ensures Seated(DoRegister(s, fd, name, password, salt).clients, s.rooms)
  {
    hide Send, Broadcast, Say, Password.Hash, SignIn, Rename, Seated, Lookup;
    var u := s.(users := s.users[name := Password.Hash(password, salt)]);
    SignInSeated(Send(u, fd, Say(Registered(name))), fd, name);
  }

  lemma NickSeated(s: State, fd: nat, name: Bytes)
    requires Seated(s.clients, s.rooms) && fd in s.clients && s.clients[fd].room == ""
    ensures Seated(DoNick(s, fd, name).clients, s.rooms)
  {
    hide Send, Broadcast, Say, SignIn, Rename, Seated, Lookup;
    SignInSeated(s, fd, name);
  }

  lemma QuitKickSeated(s: State, fd: nat, target: Bytes, reason: Bytes)
    requires Settled(s) && Seated(s.clients, s.rooms) && fd in s.clients
    ensures var t := DoQuit(s, fd); Seated(t.clients, t.rooms)
    ensures var t := DoKick(s, fd, target, reason); Seated(t.clients, t.rooms)
  {
    hide Send, Broadcast, Say, Settled, Seated, LeaveMembers;
    LeaveSeated(s, fd);
    FewerSeated(s, fd);
    if Lookup(s, target).Some? {
      FewerSeated(s, Lookup(s, target).value);
    }
  }

  lemma MutesSeated(s: State, fd: nat, target: Bytes, time: Bytes, now: int)
    requires Seated(s.clients, s.rooms) && fd in s.clients
    ensures var t := DoMute(s, fd, target, time, now); Seated(t.clients, t.rooms)
    ensures var t := DoUnmute(s, fd, target, now); Seated(t.clients, t.rooms)
  {
    hide Send, Broadcast, Say, Seated, MuteMinutes;
    if Lookup(s, target).Some? {
      var t := Lookup(s, target).value;
      KeepSeated(s, t, s.clients[t].(muted := true, muteEnd := now + 60 * MuteMinutes(time)));
      KeepSeated(s, t, s.clients[t].(muted := false, muteEnd := now));
    }
  }

  /** Changes that keep name and room. */
  lemma KeepSeated(s: State, fd: nat, c: Client)
    requires Seated(s.clients, s.rooms) && fd in s.clients
    requires c.name == s.clients[fd].name && c.room == s.clients[fd].room
    ensures Seated(s.clients[fd := c], s.rooms)
  {
  }

  lemma RoomsSeated(s: State, fd: nat, name: Bytes, isPrivate: bool, password: Bytes, salt: Salt)
    requires Settled(s) && Seated(s.clients, s.rooms) && fd in s.clients
    ensures var t := DoCreateRoom(s, fd, name, isPrivate, password, salt); Seated(t.clients, t.rooms)
    ensures var t := DoJoinRoom(s, fd, name, password); Seated(t.clients, t.rooms)
    ensures var t := DoLeaveRoom(s, fd); Seated(t.clients, t.rooms)
  {
    hide Send, Broadcast, Say, Seated, Settled, LeaveMembers, JoinMembers, Password.Hash, Password.Verify;
    LeaveSeated(s, fd);
    if name in s.rooms {
      JoinSeated(s, fd, name);
    } else {
      var me := s.clients[fd].name;
      var secret := if isPrivate && password != "" then Password.Hash(password, salt) else "";
      CreateSeated(s, fd, ChatRoom(name, me, [me], isPrivate, secret));
    }
  }

  lemma MessageSeated(s: State, fd: nat, t: State)
    requires Seated(s.clients, s.rooms) && fd in s.clients && OnlyMessages(s, fd, t)
    ensures Seated(t.clients, t.rooms)
  {
  }

  lemma CommandSeated(s: State, fd: nat, line: Message, chance: Chance)
    requires Settled(s) && Seated(s.clients, s.rooms) && fd in s.clients && line[0] == '/'
    requires Orderly(s, Received(fd, line, chance))
    ensures var t := DoCommand(s, fd, line, chance); Seated(t.clients, t.rooms)
  {
    hide Settled, Seated, Parse, DoLogin, DoRegister, DoWhisper, DoQuit, DoNick, DoCreateRoom, DoJoinRoom,
      DoLeaveRoom, DoMute, DoUnmute, DoKick, DoUnknown, DoQuery, DoMsg, DoPlain, OnlyMessages;
    match Parse(line)
    case Login(name, password) =>
      LoginSeated(s, fd, name, password, chance.salt);
      LoginKeeps(s, fd, name, password, chance.salt);
    case Register(name, password) =>
      RegisterSeated(s, fd, name, password, chance.salt);
      RegisterKeeps(s, fd, name, password, chance.salt);
    case Whisper(target, text) =>
      TextsKeep(s, fd, line, target, text, chance.id);
      MessageSeated(s, fd, DoWhisper(s, fd, target, text, chance.id));
    case Quit => QuitKickSeated(s, fd, "", "");
    case Nick(name) =>
      NickSeated(s, fd, name);
      NickQuitKeep(s, fd, name);
    case CreateRoom(name, isPrivate, password) => RoomsSeated(s, fd, name, isPrivate, password, chance.salt);
    case JoinRoom(name, password) => RoomsSeated(s, fd, name, false, password, chance.salt);
    case LeaveRoom => RoomsSeated(s, fd, "", false, "", chance.salt);
    case Mute(target, time) => MutesSeated(s, fd, target, time, chance.now);
    case Unmute(target) => MutesSeated(s, fd, target, "", chance.now);
    case Kick(target, reason) => QuitKickSeated(s, fd, target, reason);
    case Unknown(word) =>
      TextsKeep(s, fd, line, word, "", chance.id);
      MessageSeated(s, fd, DoUnknown(s, fd, line, word, chance.id));
    case _ =>
  }

  lemma StepSeated(s: State, e: Event)
    requires Settled(s) && Seated(s.clients, s.rooms) && Orderly(s, e)
    ensures var t := Step(s, e); Seated(t.clients, t.rooms)
  {
    hide Settled, Seated, Orderly, DoCommand, DoMsg, DoPlain, GuestName, Say, OnlyMessages, Remove;
    match e
    case Connected(fd) => TouchSeated(s, fd, Client(GuestName(fd), false, false, false, 0, ""));
    case Disconnected(fd) => FewerSeated(s, fd);
    case Received(fd, line, chance) =>
      if fd in s.clients {
        if line[0] == '/' {
          CommandSeated(s, fd, line, chance);
        }
        MsgKeeps(s, fd, line, chance.now);
        MessageSeated(s, fd, DoMsg(s, fd, line, chance.now));
        PlainKeeps(s, fd, line, chance);
        MessageSeated(s, fd, DoPlain(s, fd, line, chance));
      }
  }

  /** While names are changed outside rooms only, and never to a guest form, every client's
      room exists and lists the client over every run. */
  lemma {:induction false} RunSeated(s: State, events: seq<Event>)
    requires Settled(s) && Seated(s.clients, s.rooms) && AllDecent(events) && AllOrderly(s, events)
    ensures var t := Run(s, events); Seated(t.clients, t.rooms)
  {
    hide Settled, Seated, Step, Decent, Orderly;
    if events != [] {
      var front := events[..|events| - 1];
      assert forall i :: 0 <= i < |front| ==> front[i] == events[i] && front[..i] == events[..i];
      RunSettled(s, front);
      RunSeated(s, front);
      StepSeated(Run(s, front), events[|events| - 1]);
    }
  }
}
