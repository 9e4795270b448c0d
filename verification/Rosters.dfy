/** The member lists of rooms against the current rooms of clients: exactly which events make them
    disagree, and that they agree over every run without those. */
module Rosters {
  import opened Text
  import opened Commands
  import opened Replies
  import opened Server
  import opened Invariants
  import opened Membership
  import opened Limits
  import opened Outcomes
  import Password

  // ------------------------------------------------------------------ agreement

  /** Some client of this name has this room as its current one. */
  ghost predicate Present(clients: map<nat, Client>, r: string, m: string) {
    exists fd :: fd in clients && clients[fd].name == m && clients[fd].room == r
  }

  /** Whoever a room lists is there. */
  ghost predicate Tidy(clients: map<nat, Client>, rooms: map<string, ChatRoom>) {
    forall r, m :: r in rooms && m in rooms[r].members ==> Present(clients, r, m)
  }

  /** Settled names, and rooms that list exactly those who are in them. */
  ghost predicate Agrees(s: State) {
    Settled(s) && Seated(s.clients, s.rooms) && Tidy(s.clients, s.rooms)
  }

  /** Where they agree, a room's members are exactly the clients in it. */
  lemma RosterExact(s: State, r: string, m: string)
    requires Agrees(s) && r in s.rooms
    ensures m in s.rooms[r].members <==> Present(s.clients, r, m)
  {
    hide Settled;
    SettledRooms(s, r);
  }

  lemma SettledRooms(s: State, r: string)
    requires Settled(s) && r in s.rooms
    ensures r != ""
  {
    hide Named, Sound;
  }

  // ------------------------------------------------------------------ single changes

  /** A client that changes its name or its room, or goes, while the rooms stay as they are: nobody else
      can stand in for it, so its old place is left behind exactly if it had one. */
  lemma MoveTidyIff(s: State, t: State, fd: nat)
    requires Agrees(s) && fd in s.clients && t.rooms == s.rooms && OtherClientsSame(s, t, fd)
    requires fd in t.clients ==> t.clients[fd].name != s.clients[fd].name || t.clients[fd].room != s.clients[fd].room
    ensures Tidy(t.clients, t.rooms) <==> s.clients[fd].room == ""
  {
    hide Settled;
    var c := s.clients[fd];
    if c.room != "" {
      assert c.name in s.rooms[c.room].members;
      if Present(t.clients, c.room, c.name) {
        var g :| g in t.clients && t.clients[g].name == c.name && t.clients[g].room == c.room;
        if g != fd {
          UniqueNames(s, g, fd);
        }
        assert false;
      }
    } else {
      forall r, m | r in t.rooms && m in t.rooms[r].members ensures Present(t.clients, r, m) {
        SettledRooms(s, r);
        StillPresent(s, t, fd, r, m);
      }
    }
  }

  lemma StillPresent(s: State, t: State, fd: nat, r: string, m: string)
    requires Agrees(s) && fd in s.clients && OtherClientsSame(s, t, fd)
    requires r in s.rooms && m in s.rooms[r].members && !(s.clients[fd].name == m && s.clients[fd].room == r)
    ensures Present(t.clients, r, m)
  {
    hide Settled, Seated;
    assert Present(s.clients, r, m);
    var g :| g in s.clients && s.clients[g].name == m && s.clients[g].room == r;
    assert g in t.clients && t.clients[g] == s.clients[g];
  }

  /** Entering a room that lists the client from now on, and only that, leaves its old place behind. */
  lemma EnterTidyIff(s: State, t: State, fd: nat, r: string)
    requires Agrees(s) && fd in s.clients && Entered(s, t, fd, r) && OtherRoomsSame(s, t, r) && r != s.clients[fd].room
    requires forall m :: r in t.rooms && m in t.rooms[r].members ==>
      m == s.clients[fd].name || (r in s.rooms && m in s.rooms[r].members)
    ensures Tidy(t.clients, t.rooms) <==> s.clients[fd].room == ""
  {
    hide Settled;
    var c := s.clients[fd];
    if c.room != "" {
      assert c.room in t.rooms && c.name in t.rooms[c.room].members;
      if Present(t.clients, c.room, c.name) {
        var g :| g in t.clients && t.clients[g].name == c.name && t.clients[g].room == c.room;
        UniqueNames(s, g, fd);
        assert false;
      }
    } else {
      forall q, m | q in t.rooms && m in t.rooms[q].members ensures Present(t.clients, q, m) {
        if q == r && m == c.name {
          assert t.clients[fd].name == m && t.clients[fd].room == q;
        } else {
          SettledRooms(s, q);
          StillPresent(s, t, fd, q, m);
        }
      }
    }
  }

  lemma EnterSeated(s: State, t: State, fd: nat, r: string)
    requires Seated(s.clients, s.rooms) && fd in s.clients && Entered(s, t, fd, r) && OtherRoomsSame(s, t, r)
    requires r in t.rooms && s.clients[fd].name in t.rooms[r].members
    requires forall m :: r in s.rooms && m in s.rooms[r].members ==> m in t.rooms[r].members
    ensures Seated(t.clients, t.rooms)
  {
  }

  /** Leaving takes the client off the list as well. */
  lemma LeaveAgrees(s: State, t: State, fd: nat)
    requires Agrees(s) && fd in s.clients && s.clients[fd].room != "" && OtherClientsSame(s, t, fd)
    requires LostMember(s, t, s.clients[fd].room, s.clients[fd].name) && (fd in t.clients ==> t.clients[fd].room == "")
    ensures Seated(t.clients, t.rooms) && Tidy(t.clients, t.rooms)
  {
    hide Settled;
    var c := s.clients[fd];
    forall r, m | r in t.rooms && m in t.rooms[r].members ensures Present(t.clients, r, m) {
      StillPresent(s, t, fd, r, m);
    }
    forall g | g in t.clients && t.clients[g].room != ""
      ensures t.clients[g].room in t.rooms && t.clients[g].name in t.rooms[t.clients[g].room].members
    {
      assert g != fd && t.clients[g] == s.clients[g];
      if s.clients[g].name == c.name {
        UniqueNames(s, g, fd);
      }
    }
  }

  /** Nobody's name or room changes. */
  lemma SamePlaces(s: State, t: State)
    requires Agrees(s) && t.rooms == s.rooms && t.clients.Keys == s.clients.Keys
    requires forall g :: g in s.clients ==>
      t.clients[g].name == s.clients[g].name && t.clients[g].room == s.clients[g].room
    ensures Seated(t.clients, t.rooms) && Tidy(t.clients, t.rooms)
  {
    hide Settled;
    forall r, m | r in t.rooms && m in t.rooms[r].members ensures Present(t.clients, r, m) {
      assert Present(s.clients, r, m);
      var g :| g in s.clients && s.clients[g].name == m && s.clients[g].room == r;
      assert t.clients[g].name == m && t.clients[g].room == r;
    }
  }

  lemma FewerStaySeated(s: State, t: State, fd: nat)
    requires Seated(s.clients, s.rooms) && t.rooms == s.rooms && OtherClientsSame(s, t, fd)
    requires fd in t.clients ==> t.clients[fd].room == ""
    ensures Seated(t.clients, t.rooms)
  {
  }

  // ------------------------------------------------------------------ what strands a member

  predicate InRoom(s: State, fd: nat) {
    fd in s.clients && s.clients[fd].room != ""
  }

  predicate StrandsBy(s: State, fd: nat, c: Command)
    requires fd in s.clients
  {
    match c
    case Login(name, password) => LoginAccepted(s, name, password) && InRoom(s, fd)
    case Register(name, password) => RegisterAccepted(s, name, password) && InRoom(s, fd)
    case Nick(name) => name != "" && Lookup(s, name).None? && InRoom(s, fd)
    case CreateRoom(name, _, _) => name != "" && name !in s.rooms && InRoom(s, fd)
    case JoinRoom(name, password) => JoinAccepted(s, fd, name, password) && InRoom(s, fd)
    case Kick(target, _) =>
      s.clients[fd].admin && target != "" && Lookup(s, target).Some? && InRoom(s, Lookup(s, target).value)
    case _ => false
  }

  /** A client that is in a room takes another name, enters another room, is kicked or loses its
      connection: its old name stays on the list. */
  predicate Strands(s: State, e: Event) {
    match e
    case Connected(_) => false
    case Disconnected(fd) => InRoom(s, fd)
    case Received(fd, line, _) => fd in s.clients && line[0] == '/' && StrandsBy(s, fd, Parse(line))
  }

  /** Members and current rooms, without the names behind them. */
  ghost predicate Rostered(t: State) {
    Seated(t.clients, t.rooms) && Tidy(t.clients, t.rooms)
  }

  lemma RefusedRostered(s: State, t: State)
    requires Agrees(s) && t == s.(sent := t.sent)
    ensures Rostered(t)
  {
    hide Settled;
    SamePlaces(s, t);
  }

  /** A new name outside the index is not the client's own, unless it is a guest form. */
  lemma NewName(s: State, fd: nat, name: string)
    requires Settled(s) && fd in s.clients && !GuestForm(name) && Lookup(s, name).None?
    ensures name != s.clients[fd].name
  {
    hide GuestName, RoomsOk;
    assert Placed(fd, s.clients[fd], s.index);
    NotGuestName(fd, name);
  }

  lemma NamedRosteredIff(s: State, t: State, fd: nat, name: string)
    requires Agrees(s) && fd in s.clients && !GuestForm(name) && Lookup(s, name).None?
    requires t.rooms == s.rooms && OtherClientsSame(s, t, fd)
    requires fd in t.clients && t.clients[fd].name == name && t.clients[fd].room == s.clients[fd].room
    ensures Rostered(t) <==> s.clients[fd].room == ""
  {
    hide Settled, GuestForm, Seated, Tidy, Lookup;
    AgreesSettled(s);
    NewName(s, fd, name);
    MoveTidyIff(s, t, fd);
    if s.clients[fd].room == "" {
      FewerStaySeated(s, t, fd);
    }
  }

  lemma AgreesSettled(s: State)
    requires Agrees(s)
    ensures Settled(s) && Healthy(s) && Seated(s.clients, s.rooms)
  {
    hide Named, Healthy, Seated, Tidy;
  }

  lemma AccountRosteredIff(s: State, fd: nat, name: Bytes, password: Bytes, salt: Salt)
    requires Agrees(s) && fd in s.clients && !GuestForm(name)
    ensures Rostered(DoLogin(s, fd, name, password, salt)) <==> !StrandsBy(s, fd, Login(name, password))
    ensures Rostered(DoRegister(s, fd, name, password, salt)) <==> !StrandsBy(s, fd, Register(name, password))
    ensures Rostered(DoNick(s, fd, name)) <==> !StrandsBy(s, fd, Nick(name))
  {
    hide Agrees, Rostered, GuestForm, Told, DoLogin, DoRegister, DoNick, Lookup, OtherClientsSame, NewUser, OthersFound,
      OwnsEntry, Healthy, Say, Password.Verify;
    AgreesSettled(s);
    var t, u, v := DoLogin(s, fd, name, password, salt), DoRegister(s, fd, name, password, salt), DoNick(s, fd, name);
    LoginOutcome(s, fd, name, password, salt);
    if LoginAccepted(s, name, password) {
      NamedRosteredIff(s, t, fd, name);
    } else {
      RefusedRostered(s, t);
    }
    RegisterOutcome(s, fd, name, password, salt);
    if RegisterAccepted(s, name, password) {
      NamedRosteredIff(s, u, fd, name);
    } else {
      RefusedRostered(s, u);
    }
    NickOutcome(s, fd, name);
    if name != "" && Lookup(s, name).None? {
      NamedRosteredIff(s, v, fd, name);
    } else {
      RefusedRostered(s, v);
    }
  }

  lemma GoneRosteredIff(s: State, t: State, fd: nat)
    requires Agrees(s) && fd in s.clients && t.rooms == s.rooms && Gone(s, t, fd)
    ensures Rostered(t) <==> s.clients[fd].room == ""
  {
    hide Settled, Seated, Tidy, OthersFound, OwnsEntry;
    MoveTidyIff(s, t, fd);
    FewerStaySeated(s, t, fd);
  }

  lemma QuitRostered(s: State, fd: nat)
    requires Agrees(s) && fd in s.clients
    ensures Rostered(DoQuit(s, fd))
  {
    hide Agrees, Seated, Tidy, DoQuit, LostMember, Healthy, Say, OthersFound, OwnsEntry;
    AgreesSettled(s);
    QuitOutcome(s, fd);
    if s.clients[fd].room == "" {
      GoneRosteredIff(s, DoQuit(s, fd), fd);
    } else {
      LeaveAgrees(s, DoQuit(s, fd), fd);
    }
  }

  lemma LeaveRoomRostered(s: State, fd: nat)
    requires Agrees(s) && fd in s.clients
    ensures Rostered(DoLeaveRoom(s, fd))
  {
    hide Agrees, Seated, Tidy, DoLeaveRoom, LostMember, Healthy, Say, Told;
    AgreesSettled(s);
    LeaveRoomOutcome(s, fd);
    if s.clients[fd].room == "" {
      RefusedRostered(s, DoLeaveRoom(s, fd));
    } else {
      LeaveAgrees(s, DoLeaveRoom(s, fd), fd);
    }
  }

  lemma KickRosteredIff(s: State, fd: nat, target: Bytes, reason: Bytes)
    requires Agrees(s) && fd in s.clients
    ensures Rostered(DoKick(s, fd, target, reason)) <==> !StrandsBy(s, fd, Kick(target, reason))
  {
    hide Agrees, Rostered, DoKick, Healthy, Say, Told, Gone, Lookup, OthersFound;
    AgreesSettled(s);
    KickOutcome(s, fd, target, reason);
    var t := DoKick(s, fd, target, reason);
    if s.clients[fd].admin && target != "" && Lookup(s, target).Some? {
      GoneRosteredIff(s, t, Lookup(s, target).value);
    } else {
      RefusedRostered(s, t);
    }
  }

  lemma CreateRosteredIff(s: State, fd: nat, name: Bytes, isPrivate: bool, password: Bytes, salt: Salt)
    requires Agrees(s) && fd in s.clients
    ensures Rostered(DoCreateRoom(s, fd, name, isPrivate, password, salt))
      <==> !StrandsBy(s, fd, CreateRoom(name, isPrivate, password))
  {
    hide Agrees, Tidy, DoCreateRoom, Healthy, Say, Told, Exact;
    AgreesSettled(s);
    CreateRoomOutcome(s, fd, name, isPrivate, password, salt);
    var t := DoCreateRoom(s, fd, name, isPrivate, password, salt);
    if name != "" && name !in s.rooms {
      EnterTidyIff(s, t, fd, name);
      EnterSeated(s, t, fd, name);
    } else {
      RefusedRostered(s, t);
    }
  }

  lemma JoinRosteredIff(s: State, fd: nat, name: Bytes, password: Bytes)
    requires Agrees(s) && fd in s.clients
    ensures Rostered(DoJoinRoom(s, fd, name, password)) <==> !StrandsBy(s, fd, JoinRoom(name, password))
  {
    hide Agrees, Tidy, DoJoinRoom, Healthy, Say, Told, Distinct, Password.Verify;
    AgreesSettled(s);
    JoinRoomOutcome(s, fd, name, password);
    var t := DoJoinRoom(s, fd, name, password);
    if JoinAccepted(s, fd, name, password) {
      EnterTidyIff(s, t, fd, name);
      EnterSeated(s, t, fd, name);
    } else {
      RefusedRostered(s, t);
    }
  }

  /** Muting changes nothing but the silence of a client. */
  lemma SilencedRostered(s: State, t: State, k: nat)
    requires Agrees(s) && k in s.clients && k in t.clients && t.rooms == s.rooms
    requires t.clients == s.clients[k := t.clients[k]]
    requires t.clients[k] == s.clients[k].(muted := t.clients[k].muted, muteEnd := t.clients[k].muteEnd)
    ensures Rostered(t)
  {
    hide Agrees, Seated, Tidy;
    SamePlaces(s, t);
  }

  lemma MutesRostered(s: State, fd: nat, target: Bytes, time: Bytes, now: int)
    requires Agrees(s) && fd in s.clients
    ensures Rostered(DoMute(s, fd, target, time, now)) && Rostered(DoUnmute(s, fd, target, now))
  {
    hide Agrees, Rostered, DoMute, DoUnmute, Healthy, Say, Told, Lookup, MuteMinutes, Silenced, Out;
    AgreesSettled(s);
    MuteOutcome(s, fd, target, time, now);
    UnmuteOutcome(s, fd, target, now);
    var t, u := DoMute(s, fd, target, time, now), DoUnmute(s, fd, target, now);
    if s.clients[fd].admin && target != "" && Lookup(s, target).Some? {
      var k := Lookup(s, target).value;
      SilencedRostered(s, t, k);
      SilencedRostered(s, u, k);
    } else {
      RefusedRostered(s, t);
      RefusedRostered(s, u);
    }
  }

  lemma TextsRostered(s: State, fd: nat, t: State)
    requires Agrees(s) && fd in s.clients && OnlyMessages(s, fd, t)
    ensures Rostered(t)
  {
    hide Agrees, Seated, Tidy;
    SamePlaces(s, t);
  }

  lemma CommandRosteredIff(s: State, fd: nat, line: Message, chance: Chance)
    requires Agrees(s) && fd in s.clients && line[0] == '/' && Decent(Received(fd, line, chance))
    ensures Rostered(DoCommand(s, fd, line, chance)) <==> !StrandsBy(s, fd, Parse(line))
  {
    hide Agrees, Rostered, GuestForm, Parse, DoLogin, DoRegister, DoWhisper, DoQuit, DoNick, DoCreateRoom, DoJoinRoom,
      DoLeaveRoom, DoMute, DoUnmute, DoKick, DoUnknown, DoQuery, OnlyMessages, LoginAccepted, RegisterAccepted,
      JoinAccepted, Lookup;
    var c := Parse(line);
    if c.Login? || c.Register? {
      AccountRosteredIff(s, fd, c.name, c.password, chance.salt);
    } else if c.Nick? {
      AccountRosteredIff(s, fd, c.name, "", chance.salt);
    } else if c.Quit? {
      QuitRostered(s, fd);
    } else if c.CreateRoom? {
      CreateRosteredIff(s, fd, c.name, c.isPrivate, c.password, chance.salt);
    } else if c.JoinRoom? {
      JoinRosteredIff(s, fd, c.name, c.password);
    } else if c.LeaveRoom? {
      LeaveRoomRostered(s, fd);
    } else if c.Kick? {
      KickRosteredIff(s, fd, c.target, c.reason);
    } else {
      RestRostered(s, fd, line, chance);
    }
  }

  lemma RestRostered(s: State, fd: nat, line: Message, chance: Chance)
    requires Agrees(s) && fd in s.clients
    requires var c := Parse(line);
      c.Whisper? || c.Mute? || c.Unmute? || c.Unknown? || IsQuery(c)
    ensures Rostered(DoCommand(s, fd, line, chance))
  {
    hide Agrees, Rostered, Parse, DoLogin, DoRegister, DoWhisper, DoQuit, DoNick, DoCreateRoom, DoJoinRoom, DoLeaveRoom,
      DoMute, DoUnmute, DoKick, DoUnknown, DoQuery, OnlyMessages;
    var c := Parse(line);
    if c.Whisper? {
      TextsKeep(s, fd, line, c.target, c.text, chance.id);
      TextsRostered(s, fd, DoWhisper(s, fd, c.target, c.text, chance.id));
    } else if c.Unknown? {
      TextsKeep(s, fd, line, c.word, "", chance.id);
      TextsRostered(s, fd, DoUnknown(s, fd, line, c.word, chance.id));
    } else if c.Mute? {
      MutesRostered(s, fd, c.target, c.time, chance.now);
    } else if c.Unmute? {
      MutesRostered(s, fd, c.target, "", chance.now);
    } else {
      RefusedRostered(s, DoCommand(s, fd, line, chance));
    }
  }

  lemma AcceptRostered(s: State, fd: nat)
    requires Agrees(s) && fd !in s.clients
    ensures Rostered(Accept(s, fd))
  {
    hide Settled, GuestName, Say;
    var t := Accept(s, fd);
    forall r, m | r in t.rooms && m in t.rooms[r].members ensures Present(t.clients, r, m) {
      assert Present(s.clients, r, m);
      var g :| g in s.clients && s.clients[g].name == m && s.clients[g].room == r;
      assert g in t.clients && t.clients[g] == s.clients[g];
    }
  }

  /** With names picked decently, agreement is lost in a step exactly if it strands a member. */
  lemma StepAgreesIff(s: State, e: Event)
    requires Agrees(s) && Decent(e)
    ensures Agrees(Step(s, e)) <==> !Strands(s, e)
  {
    hide Settled, Seated, Tidy, DoCommand, DoMsg, DoPlain, Accept, Remove, OnlyMessages, StrandsBy, Decent, Parse,
      RemoveDone;
    AgreesSettled(s);
    StepSettled(s, e);
    match e
    case Connected(fd) =>
      if fd !in s.clients {
        AcceptRostered(s, fd);
      }
    case Disconnected(fd) => DisconnectedRosteredIff(s, fd);
    case Received(fd, line, chance) =>
      if fd in s.clients {
        if line[0] == '/' {
          CommandRosteredIff(s, fd, line, chance);
        } else {
          MsgKeeps(s, fd, line, chance.now);
          TextsRostered(s, fd, DoMsg(s, fd, line, chance.now));
          PlainKeeps(s, fd, line, chance);
          TextsRostered(s, fd, DoPlain(s, fd, line, chance));
        }
      }
  }

  lemma DisconnectedRosteredIff(s: State, fd: nat)
    requires Agrees(s)
    ensures Rostered(Remove(s, fd)) <==> !InRoom(s, fd)
  {
    hide Agrees, Rostered, Remove, Gone, Healthy;
    AgreesSettled(s);
    RemoveOutcome(s, fd);
    if fd in s.clients {
      GoneRosteredIff(s, Remove(s, fd), fd);
    } else {
      RefusedRostered(s, Remove(s, fd));
    }
  }

  ghost predicate NobodyStrands(s: State, events: seq<Event>) {
    forall i :: 0 <= i < |events| ==> !Strands(Run(s, events[..i]), events[i])
  }

  /** Over every run of decently picked names in which nobody is stranded, each room lists exactly the
      clients that are in it. */
  lemma {:induction false} RunAgrees(s: State, events: seq<Event>)
    requires Agrees(s) && AllDecent(events) && NobodyStrands(s, events)
    ensures Agrees(Run(s, events))
  {
    hide Agrees, Step, Decent, Strands;
    if events != [] {
      var front := events[..|events| - 1];
      assert forall i :: 0 <= i < |front| ==> front[i] == events[i] && front[..i] == events[..i];
      RunAgrees(s, front);
      StepAgreesIff(Run(s, front), events[|events| - 1]);
    }
  }

  lemma RunRosterExact(s: State, events: seq<Event>, r: string, m: string)
    requires Agrees(s) && AllDecent(events) && NobodyStrands(s, events)
    ensures var t := Run(s, events); r in t.rooms ==> (m in t.rooms[r].members <==> Present(t.clients, r, m))
  {
    hide Agrees, Run, AllDecent, NobodyStrands, Present;
    RunAgrees(s, events);
    if r in Run(s, events).rooms {
      RosterExact(Run(s, events), r, m);
    }
  }
}
