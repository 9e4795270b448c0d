/** Where lookups stop agreeing with a scan, and when a room goes away: exact conditions, and a
    run that meets them. */
module Limits {
  import opened Text
  import opened Numbers
  import opened Commands
  import opened Spelling
  import opened Replies
  import opened Server
  import opened Invariants
  import opened Membership
  import Password

  // ------------------------------------------------------------------ lost index entries

  /** Whoever else could be looked up in `s` still can in `t`. */
  ghost predicate OthersFound(s: State, t: State, fd: nat) {
    forall n :: Lookup(s, n).Some? && Lookup(s, n).value != fd ==> Lookup(t, n) == Lookup(s, n)
  }

  /** The index entry under the client's current name is its own, or there is none. */
  predicate OwnsEntry(s: State, fd: nat)
    requires fd in s.clients
  {
    Lookup(s, s.clients[fd].name) == None || Lookup(s, s.clients[fd].name) == Some(fd)
  }

  /** Committing a name leaves everybody else findable exactly when neither the entry it erases nor
      the one it writes is somebody else's. */
  lemma RenameFoundIff(s: State, fd: nat, name: string)
    requires Sound(s.clients, s.index) && fd in s.clients
    ensures OthersFound(s, Rename(s, fd, name), fd) <==>
      OwnsEntry(s, fd) && (Lookup(s, name) == None || Lookup(s, name) == Some(fd))
  {
    var t, mine := Rename(s, fd, name), s.clients[fd].name;
    assert Lookup(t, name) == Some(fd);
    if !OwnsEntry(s, fd) {
      assert Lookup(s, mine).Some? && Lookup(t, mine) != Lookup(s, mine);
    }
  }

  /** Removing a client does so exactly when the entry it erases is not somebody else's. */
  lemma RemoveFoundIff(s: State, fd: nat)
    requires Sound(s.clients, s.index) && fd in s.clients
    ensures OthersFound(s, Remove(s, fd), fd) <==> OwnsEntry(s, fd)
  {
    var mine := s.clients[fd].name;
    if !OwnsEntry(s, fd) {
      assert Lookup(s, mine).Some? && Lookup(Remove(s, fd), mine) != Lookup(s, mine);
    }
  }

  /** Settled states own their entries, so there nobody's departure hides anybody. */
  lemma SettledOwns(s: State, fd: nat)
    requires Settled(s) && fd in s.clients
    ensures OwnsEntry(s, fd)
  {
    hide GuestName, RoomsOk;
    assert Placed(fd, s.clients[fd], s.index);
  }

  /** In settled states neither taking a free name nor leaving hides anybody else. */
  lemma SettledHidesNobody(s: State, fd: nat, name: string)
    requires Settled(s) && fd in s.clients && Lookup(s, name).None?
    ensures OthersFound(s, Rename(s, fd, name), fd) && OthersFound(s, Remove(s, fd), fd)
  {
    hide OthersFound, Rename, Remove, Named;
    SettledOwns(s, fd);
    RenameFoundIff(s, fd, name);
    RemoveFoundIff(s, fd);
  }

  // ------------------------------------------------------------------ a stolen guest name

  function NickLine(name: Bytes): Bytes {
    "/nick " + name
  }

  lemma NickReadBack(name: Bytes)
    requires name != "" && SpaceFree(name)
    ensures Parse(NickLine(name)) == Nick(name) && NickLine(name)[0] == '/'
  {
    hide Parse, SpaceFree;
    WordParsedIff("/nick", Nick(name), "");
    assert NickLine(name) == "/nick" + (" " + (name + ""));
  }

  lemma GuestWord(fd: nat)
    ensures SpaceFree(GuestName(fd)) && GuestName(fd) != ""
  {
  }

  lemma GuestNamesDiffer(a: nat, b: nat)
    ensures GuestName(a) == GuestName(b) ==> a == b
  {
    if GuestName(a) == GuestName(b) {
      GuestNameInjective(a, b);
    }
  }

  lemma NickRenames(s: State, fd: nat, name: Bytes, line: Message, chance: Chance)
    requires fd in s.clients && name != "" && SpaceFree(name) && line == NickLine(name) && Lookup(s, name).None?
    ensures var t := Step(s, Received(fd, line, chance));
      t.clients == Rename(s, fd, name).clients && t.index == Rename(s, fd, name).index
  {
    hide Parse, Send, Broadcast, Say, Rename, Lookup;
    NickReadBack(name);
  }

  /** A client that takes a guest name to come cannot be found any more once the guest it was
      meant for has connected and renamed itself. */
  lemma GuestNameStolen(a: nat, b: nat, taken: Message, freed: Message, name: Bytes, c: Chance, d: Chance)
    requires a != b && taken == NickLine(GuestName(b))
    requires name != "" && SpaceFree(name) && name != GuestName(b) && freed == NickLine(name)
    ensures var t := Run(START, [Connected(a), Received(a, taken, c), Connected(b), Received(b, freed, d)]);
      a in t.clients && t.clients[a].name == GuestName(b) && Lookup(t, GuestName(b)).None?
  {
    hide Handle, GuestName, Say, NickLine, SpaceFree;
    GuestWord(b);
    GuestNamesDiffer(a, b);
    var s1 := Accept(START, a);
    var s2 := Step(s1, Received(a, taken, c));
    NickRenames(s1, a, GuestName(b), taken, c);
    var s3 := Accept(s2, b);
    var s4 := Step(s3, Received(b, freed, d));
    NickRenames(s3, b, name, freed, d);
    RunFour(START, Connected(a), Received(a, taken, c), Connected(b), Received(b, freed, d));
  }

  lemma RunFour(s: State, e1: Event, e2: Event, e3: Event, e4: Event)
    ensures Run(s, [e1, e2, e3, e4]) == Step(Step(Step(Step(s, e1), e2), e3), e4)
  {
    hide Step;
    assert [e1, e2, e3, e4][..3] == [e1, e2, e3] && [e1, e2, e3][..2] == [e1, e2] && [e1, e2][..1] == [e1];
    assert [e1][..0] == [];
    assert Run(s, [e1]) == Step(Run(s, []), e1);
    assert Run(s, [e1, e2]) == Step(Run(s, [e1]), e2);
    assert Run(s, [e1, e2, e3]) == Step(Run(s, [e1, e2]), e3);
  }

  // ------------------------------------------------------------------ the life of a room

  lemma WithoutEmpty(members: seq<string>, name: string)
    requires members != [] && Distinct(members)
    ensures Without(members, name) == [] <==> members == [name]
  {
    if |members| > 1 && members[0] == name {
      assert members[1] in members;
    } else {
      assert members[0] in members;
    }
  }

  /** The departure of its last member, by leaving or quitting. */
  predicate LastOneLeaves(s: State, e: Event, r: string)
    requires r in s.rooms
  {
    && e.Received? && e.fd in s.clients && e.line[0] == '/' && (Parse(e.line) == Quit || Parse(e.line) == LeaveRoom)
    && s.clients[e.fd].room == r && s.rooms[r].members == [s.clients[e.fd].name]
  }

  lemma LeaveGone(s: State, fd: nat, r: string)
    requires Healthy(s) && r in s.rooms && fd in s.clients
    ensures var c := s.clients[fd];
      r !in LeaveMembers(s, c.room, c.name).rooms <==> c.room == r && s.rooms[r].members == [c.name]
  {
    hide Sound, Without;
    WithoutEmpty(s.rooms[r].members, s.clients[fd].name);
  }

  lemma QuitGone(s: State, fd: nat, r: string)
    requires Healthy(s) && r in s.rooms && fd in s.clients
    ensures var c := s.clients[fd]; r !in DoQuit(s, fd).rooms <==> c.room == r && s.rooms[r].members == [c.name]
    ensures var c := s.clients[fd]; r !in DoLeaveRoom(s, fd).rooms <==> c.room == r && s.rooms[r].members == [c.name]
  {
    hide Send, Broadcast, Say, LeaveMembers, Remove, Sound, Distinct;
    LeaveGone(s, fd, r);
  }

  lemma CreateKeepsRooms(s: State, fd: nat, name: Bytes, isPrivate: bool, password: Bytes, salt: Salt)
    requires fd in s.clients
    ensures s.rooms.Keys <= DoCreateRoom(s, fd, name, isPrivate, password, salt).rooms.Keys
  {
    hide Send, Broadcast, Say, Password.Hash;
  }

  lemma JoinKeepsRooms(s: State, fd: nat, name: Bytes, password: Bytes)
    requires fd in s.clients
    ensures s.rooms.Keys <= DoJoinRoom(s, fd, name, password).rooms.Keys
  {
    hide Send, Broadcast, Say, Password.Verify;
  }

  /** A room goes away exactly when its last member leaves. */
  lemma RoomGoneIff(s: State, e: Event, r: string)
    requires Healthy(s) && r in s.rooms
    ensures r !in Step(s, e).rooms <==> LastOneLeaves(s, e, r)
  {
    hide Healthy, DoMsg, DoPlain, Parse, DoLogin, DoRegister, DoWhisper, DoQuit, DoNick, DoCreateRoom, DoJoinRoom,
      DoLeaveRoom, DoMute, DoUnmute, DoKick, DoUnknown, DoQuery, Say, GuestName;
    if e.Received? && e.fd in s.clients {
      var fd, line, chance, c := e.fd, e.line, e.chance, Parse(e.line);
      MsgKeeps(s, fd, line, chance.now);
      PlainKeeps(s, fd, line, chance);
      if c.Login? {
        LoginKeeps(s, fd, c.name, c.password, chance.salt);
      } else if c.Register? {
        RegisterKeeps(s, fd, c.name, c.password, chance.salt);
      } else if c.CreateRoom? {
        CreateKeepsRooms(s, fd, c.name, c.isPrivate, c.password, chance.salt);
      } else if c.JoinRoom? {
        JoinKeepsRooms(s, fd, c.name, c.password);
      } else if c.Quit? || c.LeaveRoom? {
        QuitGone(s, fd, r);
      } else {
        OthersKeepRecords(s, fd, line, chance);
      }
    }
  }
}
