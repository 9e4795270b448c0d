/** Short runs of a server from its start in which each input that breaks something is received. */
module Reached {
  import opened Text
  import opened Numbers
  import opened Wire
  import opened Framing
  import opened Commands
  import opened Spelling
  import opened History
  import opened Replies
  import opened Server
  import opened Invariants
  import opened Membership
  import opened Limits
  import opened Delivery
  import opened Logs
  import opened Rosters
  import Password

  // ------------------------------------------------------------------ steps

  /** Somebody logs in under a free, unregistered name without a password. */
  lemma LoginStep(s: State, fd: nat, name: Bytes, line: Message, chance: Chance)
    requires fd in s.clients && name != "" && SpaceFree(name) && line == LoginLine(name, "")
    requires Lookup(s, name).None? && name !in s.users
    ensures var t := Step(s, Received(fd, line, chance));
      && t == s.(clients := t.clients, index := t.index, sent := t.sent)
      && t.clients == SignIn(s, fd, name).clients && t.index == SignIn(s, fd, name).index
  {
    hide Parse, Say, SignIn, Lookup, Send, Broadcast;
    LoginParsed(name, "");
    assert line[0] == '/';
  }

  function CreateLine(room: Bytes): Bytes {
    "/createroom " + room
  }

  lemma CreateReadBack(room: Bytes)
    requires room != "" && SpaceFree(room)
    ensures Parse(CreateLine(room)) == CreateRoom(room, false, "") && CreateLine(room)[0] == '/'
  {
    hide Parse, SpaceFree;
    PublicParsedIff("/createroom", room);
    assert CreateLine(room) == "/createroom" + (" " + room);
  }

  lemma CreateStep(s: State, fd: nat, room: Bytes, line: Message, chance: Chance)
    requires fd in s.clients && room != "" && SpaceFree(room) && line == CreateLine(room) && room !in s.rooms
    ensures var t, me := Step(s, Received(fd, line, chance)), s.clients[fd].name;
      && t.rooms == s.rooms[room := ChatRoom(room, me, [me], false, "")]
      && t.clients == s.clients[fd := s.clients[fd].(room := room)] && t.index == s.index && t.users == s.users
  {
    hide Parse, Say, Send, Broadcast, Password.Hash;
    CreateReadBack(room);
  }

  /** What signing in leaves behind, in a state in which it hides nobody. */
  lemma SignInGives(s: State, fd: nat, name: string)
    requires fd in s.clients
    ensures var t := SignIn(s, fd, name);
      && t.clients[fd].name == name && t.clients[fd].loggedIn && t.clients[fd].muted == s.clients[fd].muted
      && t.clients[fd].room == s.clients[fd].room && t.index == (s.index - {s.clients[fd].name})[name := fd]
      && forall g :: g != fd && g in s.clients ==> t.clients[g] == s.clients[g]
  {
  }

  /** The first client of a server has logged in, and may speak. */
  lemma FirstLogin(a: nat, x: Bytes, first: Message, c: Chance)
    requires x != "" && SpaceFree(x) && first == LoginLine(x, "")
    ensures var s := Step(Accept(START, a), Received(a, first, c));
      && s.clients.Keys == {a} && s.clients[a].name == x && s.clients[a].loggedIn && !s.clients[a].muted
      && s.clients[a].room == "" && s.index == map[x := a] && s.users == map[] && s.rooms == map[] && s.log == []
      && s.history == EMPTY
  {
    hide Handle, GuestName, Say, SpaceFree, SignIn;
    var s := Accept(START, a);
    LoginStep(s, a, x, first, c);
    SignInGives(s, a, x);
  }

  lemma RunThree(s: State, e1: Event, e2: Event, e3: Event)
    ensures Run(s, [e1, e2, e3]) == Step(Step(Step(s, e1), e2), e3)
  {
    hide Step;
    assert [e1, e2, e3][..2] == [e1, e2] && [e1, e2][..1] == [e1] && [e1][..0] == [];
    assert Run(s, [e1]) == Step(Run(s, []), e1);
    assert Run(s, [e1, e2]) == Step(Run(s, [e1]), e2);
  }

  // ------------------------------------------------------------------ a line passed on

  lemma SecondLogin(s: State, b: nat, y: Bytes, second: Message, d: Chance)
    requires b !in s.clients && y != "" && SpaceFree(y) && second == LoginLine(y, "")
    requires y !in s.index && y !in s.users
    ensures var t := Step(Accept(s, b), Received(b, second, d));
      && Lookup(t, y) == Some(b) && forall g :: g in s.clients ==> g in t.clients && t.clients[g] == s.clients[g]
  {
    hide Handle, GuestName, Say, SpaceFree, SignIn;
    LoginStep(Accept(s, b), b, y, second, d);
    SignInGives(Accept(s, b), b, y);
  }

  lemma LineIsMsg(m: ChatMessage, line: Message)
    requires line == Line(m)
    ensures line[0] != '/' && StartsWith(line, "MSG")
  {
    hide Join;
    JoinSix("MSG", m.sender, m.receiver, IntToString(m.kind), Base64.Encode(m.content), m.id);
  }

  /** Two clients log in, and the first sends the second a private `MSG` line: until then all output
      ends in newlines, and this line is passed on without one. */
  lemma PassedOnReached(a: nat, b: nat, x: Bytes, y: Bytes, first: Message, second: Message, m: ChatMessage,
                        line: Message, c: Chance, d: Chance, e: Chance)
    requires a != b && x != y && x != "" && SpaceFree(x) && y != "" && SpaceFree(y)
    requires first == LoginLine(x, "") && second == LoginLine(y, "")
    requires FileSafe(m) && m.kind == PRIVATE && m.receiver == y && line == Line(m)
    ensures var s := Run(START, [Connected(a), Received(a, first, c), Connected(b), Received(b, second, d)]);
      && Flushed(s.sent) && PassedOn(s, Received(a, line, e)) && !Flushed(Step(s, Received(a, line, e)).sent)
  {
    hide Handle, Accept, Say, SpaceFree, Decode, Line, FileSafe, Flushed, Healthy, LoginLine, StartsWith, Lookup;
    var s1 := Step(Accept(START, a), Received(a, first, c));
    FirstLogin(a, x, first, c);
    SecondLogin(s1, b, y, second, d);
    var s := Step(Accept(s1, b), Received(b, second, d));
    var events := [Connected(a), Received(a, first, c), Connected(b), Received(b, second, d)];
    RunFour(START, Connected(a), Received(a, first, c), Connected(b), Received(b, second, d));
    assert Run(START, events) == s;
    LineIsMsg(m, line);
    FileSafeLine(m);
    assert PassedOn(s, Received(a, line, e));
    LoginsQuiet(first, second, x, y);
    StartHealthy();
    assert Flushed(START.sent) by {
      NothingFlushed();
    }
    RunFlushed(START, events);
    StepFlushedIff(s, Received(a, line, e));
  }

  lemma LoginsQuiet(first: Message, second: Message, x: Bytes, y: Bytes)
    requires first == LoginLine(x, "") && second == LoginLine(y, "")
    ensures first[0] == '/' && second[0] == '/'
  {
  }

  lemma NothingFlushed()
    ensures Flushed(map[])
  {
  }

  // ------------------------------------------------------------------ a separator in a name

  /** A client logs in under a name with a separator and says something to all: the history cannot be
      loaded again. */
  lemma UnsafeNameReached(a: nat, x: Bytes, first: Message, text: Message, c: Chance, d: Chance)
    requires SpaceFree(x) && !Free(x, BAR) && first == LoginLine(x, "")
    requires text[0] != '/' && !StartsWith(text, "MSG") && !Ignored(text)
    ensures var h := Run(START, [Connected(a), Received(a, first, c), Received(a, text, d)]).history;
      LoadText(EMPTY, SaveText(h)).all != h.all
  {
    hide Handle, Accept, Say, SpaceFree, LoginLine, StartsWith, Ignored, LoadText, SaveText, Refines;
    FirstLogin(a, x, first, c);
    var s := Step(Accept(START, a), Received(a, first, c));
    RunThree(START, Connected(a), Received(a, first, c), Received(a, text, d));
    EmptyRefines();
    UnsafeNameLosesHistory(s, a, text, d);
  }

  // ------------------------------------------------------------------ a content that is not one line

  lemma HistoryParsed()
    ensures Parse("/history") == ShowHistory("")
  {
    hide Parse;
    AloneParsed("/history", ShowHistory(""));
  }

  /** A `MSG` line to all reaches the history with whatever its content decodes to. */
  lemma BroadcastStored(s: State, a: nat, m: ChatMessage, line: Message, d: Chance)
    requires a in s.clients && s.clients[a].loggedIn && !s.clients[a].muted && s.history == EMPTY
    requires WireSafe(m) && m.kind != PRIVATE && m.kind != ROOM_MESSAGE && line == Line(m)
    ensures var t := Step(s, Received(a, line, d)); a in t.clients && t.history.all == [m]
  {
    hide Line, Decode, WireSafe, Broadcast, Encode, Say, StartsWith;
    LineIsMsg(m, line);
    SafeLine(m);
  }

  /** A client logs in, sends one `MSG` line and asks for the history: the answer arrives as one line a
      message exactly if the content holds neither newline nor NUL; and with a NUL in it, what the server
      has written holds one, although none of the lines received does, unless it was in the name. */
  lemma ContentReached(a: nat, x: Bytes, first: Message, m: ChatMessage, line: Message, show: Message,
                       c: Chance, d: Chance, e: Chance, chunks: seq<string>)
    requires x != "" && SpaceFree(x) && first == LoginLine(x, "") && show == "/history"
    requires WireSafe(m) && m.kind != PRIVATE && m.kind != ROOM_MESSAGE && line == Line(m)
    requires OneLine(Stamp(e.stamps, 0)) && Concat(chunks) == Concat([Say(Heading(false))] + Shown([m], e.stamps))
    ensures var s := Run(START, [Connected(a), Received(a, first, c), Received(a, line, d)]);
      var t := Step(s, Received(a, show, e));
      && (Free(x, NUL) ==> Free(first, NUL)) && Free(line, NUL) && Free(show, NUL)
      && Out(t, a) == Out(s, a) + ([Say(Heading(false))] + Shown([m], e.stamps))
      && (!Free(m.content, NUL) ==> !Free(Concat(Out(t, a)), NUL))
    ensures Lines(Concat(CStrings(chunks))) == ShownLines(false, [m], e.stamps) <==> OneLine(m.content)
  {
    hide Handle, Accept, Say, SpaceFree, LoginLine, Line, WireSafe, Shown, Parse, Lines, Concat, CStrings, ShownLines,
      Stamp, Heading, Free, Count;
    FirstLogin(a, x, first, c);
    SafeLine(m);
    HistoryParsed();
    var s2 := Step(Accept(START, a), Received(a, first, c));
    RunThree(START, Connected(a), Received(a, first, c), Received(a, line, d));
    var s := Step(s2, Received(a, line, d));
    BroadcastStored(s2, a, m, line, d);
    HistoryAnswered(s, a, show, e, a);
    assert LastN(s.history.all, Count("")) == [m];
    HistoryArrivesIff(false, [m], e.stamps, chunks);
    WireSafeSender(m);
    LoginLineFree(x);
    if !Free(m.content, NUL) {
      NulShown(Out(s, a), m, e.stamps);
    }
  }

  lemma LoginLineFree(x: Bytes)
    ensures Free(x, NUL) ==> Free(LoginLine(x, ""), NUL)
    ensures Free("/history", NUL)
  {
  }

  lemma WireSafeSender(m: ChatMessage)
    requires WireSafe(m)
    ensures OneLine(m.sender)
  {
  }

  lemma NulShown(out: seq<string>, m: ChatMessage, stamps: seq<string>)
    requires !Free(m.content, NUL)
    ensures !Free(Concat(out + ([Say(Heading(false))] + Shown([m], stamps))), NUL)
  {
    hide Free, Concat, Stamp, ShownText, Say;
    var texts, n := out + ([Say(Heading(false))] + Shown([m], stamps)), |out| + 1;
    var text := ShownText(m, Stamp(stamps, 0));
    ShownSaid(m, Stamp(stamps, 0));
    ShownFree(m, Stamp(stamps, 0), NUL);
    FreeBoth(ShownLine(m, Stamp(stamps, 0)), "\n", NUL);
    assert texts[n] == Say(HistoryLine(text));
    if Free(Concat(texts), NUL) {
      ConcatFreeParts(texts, NUL);
      assert false;
    }
  }

  // ------------------------------------------------------------------ a name left behind

  lemma GuestRoom(a: nat, room: Bytes, create: Message, c: Chance)
    requires room != "" && SpaceFree(room) && create == CreateLine(room)
    ensures var s := Step(Accept(START, a), Received(a, create, c));
      && s.clients.Keys == {a} && s.clients[a].name == GuestName(a) && s.clients[a].room == room && s.index == map[]
      && room in s.rooms && s.rooms[room].members == [GuestName(a)]
  {
    hide Handle, GuestName, Say, SpaceFree, CreateLine;
    CreateStep(Accept(START, a), a, room, create, c);
  }

  lemma NickKeepsRooms(s: State, fd: nat, name: Bytes, nick: Message, chance: Chance)
    requires fd in s.clients && name != "" && SpaceFree(name) && nick == NickLine(name)
    ensures Step(s, Received(fd, nick, chance)).rooms == s.rooms
  {
    hide Parse, Send, Broadcast, Say, Rename, Lookup;
    NickReadBack(name);
  }

  /** A room that lists a name nobody connected has. */
  lemma LeftBehind(s: State, a: nat, room: string, name: string)
    requires s.clients.Keys <= {a} && (a in s.clients ==> s.clients[a].name != name && s.clients[a].room == room)
    requires room != "" && room in s.rooms && s.rooms[room].members == [name]
    ensures !Tidy(s.clients, s.rooms) && (a in s.clients ==> !Seated(s.clients, s.rooms))
  {
    assert name in s.rooms[room].members && !Present(s.clients, room, name);
  }

  /** A client creates a room and then renames itself: it stands in a room that does not list it.
      If its connection closes instead, the room lists nobody who is connected. */
  lemma StrandedReached(a: nat, room: Bytes, name: Bytes, create: Message, nick: Message, c: Chance, d: Chance)
    requires room != "" && SpaceFree(room) && create == CreateLine(room)
    requires name != "" && SpaceFree(name) && name != GuestName(a) && nick == NickLine(name)
    ensures var t := Run(START, [Connected(a), Received(a, create, c), Received(a, nick, d)]);
      && a in t.clients && t.clients[a].name == name && t.clients[a].room == room
      && room in t.rooms && t.rooms[room].members == [GuestName(a)]
      && !Seated(t.clients, t.rooms) && !Tidy(t.clients, t.rooms)
    ensures var t := Run(START, [Connected(a), Received(a, create, c), Disconnected(a)]);
      && t.clients == map[] && room in t.rooms && t.rooms[room].members == [GuestName(a)] && !Tidy(t.clients, t.rooms)
  {
    hide Handle, GuestName, Say, SpaceFree, CreateLine, NickLine, Seated, Tidy;
    var s1 := Accept(START, a);
    var s2 := Step(s1, Received(a, create, c));
    GuestRoom(a, room, create, c);
    NickRenames(s2, a, name, nick, d);
    NickKeepsRooms(s2, a, name, nick, d);
    var t, u := Step(s2, Received(a, nick, d)), Step(s2, Disconnected(a));
    RunThree(START, Connected(a), Received(a, create, c), Received(a, nick, d));
    RunThree(START, Connected(a), Received(a, create, c), Disconnected(a));
    LeftBehind(t, a, room, GuestName(a));
    LeftBehind(u, a, room, GuestName(a));
  }
}
