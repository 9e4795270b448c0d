/** Runs of whole commands as interleavings of sections, and interleavings that no run of whole
    commands matches. */
module Races {
  import opened Text
  import opened Numbers
  import opened Commands
  import opened Replies
  import opened Server
  import opened Invariants
  import opened Interleaving
  import Password

  // ------------------------------------------------------------------ paths

  /** The worlds an interleaving passes through. */
  ghost predicate Path(ws: seq<World>, actions: seq<Action>) {
    && |ws| == |actions| + 1
    && forall i :: 0 <= i < |actions| ==> Possible(ws[i], actions[i]) && ws[i + 1] == Next(ws[i], actions[i])
  }

  lemma {:induction false} PathPlays(ws: seq<World>, actions: seq<Action>)
    requires Path(ws, actions)
    ensures Feasible(ws[0], actions) && Play(ws[0], actions) == ws[|actions|]
    decreases |actions|
  {
    hide Possible, Next;
    if actions != [] {
      var more, rest := ws[1..], actions[1..];
      forall i | 0 <= i < |rest| ensures Possible(more[i], rest[i]) && more[i + 1] == Next(more[i], rest[i]) {
        assert rest[i] == actions[i + 1] && more[i] == ws[i + 1] && more[i + 1] == ws[i + 2];
      }
      PathPlays(more, rest);
    }
  }

  lemma {:induction false} PlayAppend(w: World, a: seq<Action>, b: seq<Action>)
    requires Feasible(w, a) && Feasible(Play(w, a), b)
    ensures Feasible(w, a + b) && Play(w, a + b) == Play(Play(w, a), b)
    decreases |a|
  {
    hide Possible, Next;
    if a == [] {
      assert a + b == b;
    } else {
      assert (a + b)[0] == a[0] && (a + b)[1..] == a[1..] + b;
      PlayAppend(Next(w, a[0]), a[1..], b);
    }
  }

  // ------------------------------------------------------------------ whole commands among them

  ghost predicate Quiet(w: World) {
    forall fd :: At(w, fd).Idle?
  }

  lemma PlayOne(w: World, a: Action)
    requires Possible(w, a)
    ensures Feasible(w, [a]) && Play(w, [a]) == Next(w, a)
  {
    hide Possible, Next;
    assert [a][1..] == [];
    assert Feasible(Next(w, a), []) && Play(Next(w, a), []) == Next(w, a);
  }

  /** A thread left alone finishes its command. */
  lemma {:induction false} Alone(w: World, fd: nat) returns (actions: seq<Action>)
    requires Safe(w) && fd in w.server.clients && forall g :: g != fd ==> At(w, g).Idle?
    ensures Feasible(w, actions) && Quiet(Play(w, actions))
    ensures Play(w, actions).server == Finish(w.server, fd, At(w, fd))
    decreases Rank(At(w, fd))
  {
    hide Safe, Section, Rank;
    var pc := At(w, fd);
    if pc.Idle? {
      actions := [];
    } else {
      var v := Next(w, Advance(fd));
      SafeSorted(w, fd);
      SectionSorted(w.server, fd, pc);
      SectionRank(w.server, fd, pc);
      NextSafe(w, Advance(fd));
      PlayOne(w, Advance(fd));
      assert forall g :: g != fd ==> At(v, g) == At(w, g);
      if fd in v.server.clients {
        var rest := Alone(v, fd);
        actions := [Advance(fd)] + rest;
        PlayAppend(w, [Advance(fd)], rest);
      } else {
        actions := [Advance(fd)];
        SafeSorted(v, fd);
      }
    }
  }

  lemma SafeSorted(w: World, fd: nat)
    requires Safe(w)
    ensures Sorted(At(w, fd)) && (!At(w, fd).Idle? ==> fd in w.server.clients)
  {
    hide Steady;
  }

  /** Every event, taken as a whole, is also done by some interleaving of sections. */
  lemma StepIsPlayed(w: World, e: Event) returns (actions: seq<Action>)
    requires Safe(w) && Quiet(w)
    ensures Feasible(w, actions) && Quiet(Play(w, actions)) && Play(w, actions).server == Step(w.server, e)
  {
    hide Safe, Handle, Accept, Remove, Begin, Section, Rank, Finish;
    match e
    case Connected(fd) =>
      if fd in w.server.clients {
        actions := [];
      } else {
        actions := [Connect(fd)];
        PlayOne(w, Connect(fd));
        assert forall g :: At(Next(w, Connect(fd)), g) == At(w, g);
      }
    case Disconnected(fd) =>
      actions := [Close(fd)];
      PlayOne(w, Close(fd));
      assert forall g :: At(Next(w, Close(fd)), g) == At(w, g);
    case Received(fd, line, chance) =>
      if fd in w.server.clients {
        var start := Start(fd, line, chance);
        var v := Next(w, start);
        assert forall g :: g != fd ==> At(v, g) == At(w, g);
        NextSafe(w, start);
        PlayOne(w, start);
        var rest := Alone(v, fd);
        actions := [start] + rest;
        PlayAppend(w, [start], rest);
        SectionsAreStep(w.server, fd, line, chance);
      } else {
        actions := [];
        GoneIgnored(w.server, fd, line, chance);
      }
  }

  lemma GoneIgnored(s: State, fd: nat, line: Message, chance: Chance)
    requires fd !in s.clients
    ensures Handle(s, fd, line, chance) == s
  {
  }

  /** Every run of whole commands is one of the interleavings. */
  lemma {:induction false} RunIsPlayed(w: World, events: seq<Event>) returns (actions: seq<Action>)
    requires Safe(w) && Quiet(w)
    ensures Feasible(w, actions) && Quiet(Play(w, actions))
    ensures Play(w, actions).server == Run(w.server, events)
  {
    hide Safe, Step, Possible, Next;
    if events == [] {
      actions := [];
    } else {
      var front := RunIsPlayed(w, events[..|events| - 1]);
      PlaySafe(w, front);
      var rest := StepIsPlayed(Play(w, front), events[|events| - 1]);
      actions := front + rest;
      PlayAppend(w, front, rest);
    }
  }

  // ------------------------------------------------------------------ what one section can take away

  /** The thread is about to store a record, and another one has been stored since it looked. */
  predicate Overwrites(s: State, pc: Pc) {
    pc.UserInsert? && pc.name in s.users && s.users[pc.name] != Password.Hash(pc.password, pc.salt)
  }

  /** A section keeps every stored record exactly unless it overwrites one. */
  lemma RecordsKeptIff(s: State, fd: nat, pc: Pc)
    requires fd in s.clients && Sorted(pc)
    ensures UsersKept(s, Section(s, fd, pc).0) <==> !Overwrites(s, pc)
  {
    hide Emit, Remove, JoinMembers, LeaveMembers, Handle, Password.Hash, Rank, AfterNameCheck, AfterUserCheck,
      AfterUserInsert, AfterRoomFind, AfterKickFind, Rename, SignIn, OneSection;
    if pc.Whole? {
      WholeKeepsUsers(s, fd, pc.line, pc.chance);
    }
  }

  /** Rooms keep everything but the actor's own membership, and go only when nobody else is left. */
  ghost predicate RoomsKept(s: State, t: State, me: string) {
    forall r :: r in s.rooms ==>
      if r in t.rooms then
        && t.rooms[r] == s.rooms[r].(members := t.rooms[r].members)
        && forall m :: m in s.rooms[r].members && m != me ==> m in t.rooms[r].members
      else forall m :: m in s.rooms[r].members ==> m == me
  }

  /** The thread is about to store a room, and one that is not already just like it, with the actor
      as its only member, has been stored since it looked. */
  ghost predicate TakesOver(s: State, fd: nat, pc: Pc)
    requires fd in s.clients
  {
    && pc.RoomInsert? && pc.room in s.rooms
    && var mine, there := InsertRoom(s, fd, pc).rooms[pc.room], s.rooms[pc.room];
       there != mine.(members := there.members) || exists m :: m in there.members && m != s.clients[fd].name
  }

  lemma LeaveKeepsRooms(s: State, r: string, me: string)
    ensures RoomsKept(s, LeaveMembers(s, r, me), me)
  {
    hide Distinct, Without;
    if r in s.rooms {
      assert forall m :: m in s.rooms[r].members && m != me ==> m in Without(s.rooms[r].members, me);
    }
  }

  lemma JoinKeepsRooms(s: State, r: string, me: string)
    ensures RoomsKept(s, JoinMembers(s, r, me), me)
  {
  }

  lemma SameRoomsKept(s: State, t: State, me: string)
    requires t.rooms == s.rooms
    ensures RoomsKept(s, t, me)
  {
  }

  lemma InsertKeepsIff(s: State, fd: nat, pc: Pc)
    requires fd in s.clients && pc.RoomInsert?
    ensures RoomsKept(s, InsertRoom(s, fd, pc), s.clients[fd].name) <==> !TakesOver(s, fd, pc)
  {
    hide Password.Hash;
    var t := InsertRoom(s, fd, pc);
    if pc.room in s.rooms {
      assert t.rooms[pc.room].members == [s.clients[fd].name];
    }
  }

  /** A section takes nothing from a room but the actor exactly unless it takes the room over. */
  lemma RoomsKeptIff(s: State, fd: nat, pc: Pc)
    requires fd in s.clients && Sorted(pc)
    ensures RoomsKept(s, Section(s, fd, pc).0, s.clients[fd].name) <==> !TakesOver(s, fd, pc)
  {
    hide Emit, Remove, JoinMembers, LeaveMembers, Handle, Password.Hash, Rank, AfterNameCheck, AfterUserCheck,
      AfterUserInsert, AfterRoomFind, AfterKickFind, Rename, SignIn, OneSection, RoomsKept, InsertRoom;
    var me, t := s.clients[fd].name, Section(s, fd, pc).0;
    if t.rooms == s.rooms {
      SameRoomsKept(s, t, me);
    }
    match pc
    case Whole(line, chance) =>
      WholeKeepsUsers(s, fd, line, chance);
      SameRoomsKept(s, t, me);
    case RoomInsert(_, _, _, _) => InsertKeepsIff(s, fd, pc);
    case MemberAdd(room) => JoinKeepsRooms(s, room, me);
    case QuitErase(left) => LeaveKeepsRooms(s, left, me);
    case LeaveErase(left) => LeaveKeepsRooms(s, left, me);
    case _ =>
  }

  ghost predicate AllDistinct(rooms: map<string, ChatRoom>) {
    forall r :: r in rooms ==> Distinct(rooms[r].members)
  }

  /** The thread is about to join its client to a room that has its name already. */
  predicate JoinsTwice(s: State, fd: nat, pc: Pc)
    requires fd in s.clients
  {
    pc.MemberAdd? && pc.room in s.rooms && s.clients[fd].name in s.rooms[pc.room].members
  }

  lemma LeaveKeepsDistinct(s: State, r: string, me: string)
    requires AllDistinct(s.rooms)
    ensures AllDistinct(LeaveMembers(s, r, me).rooms)
  {
    hide Distinct;
  }

  lemma JoinKeepsDistinctIff(s: State, r: string, me: string)
    requires AllDistinct(s.rooms)
    ensures AllDistinct(JoinMembers(s, r, me).rooms) <==> !(r in s.rooms && me in s.rooms[r].members)
  {
    if r in s.rooms {
      var members := s.rooms[r].members;
      if me in members {
        var i :| 0 <= i < |members| && members[i] == me;
        assert (members + [me])[i] == (members + [me])[|members|];
        assert !Distinct(JoinMembers(s, r, me).rooms[r].members);
      } else {
        assert Distinct(members + [me]);
      }
    }
  }

  lemma InsertKeepsDistinct(s: State, fd: nat, pc: Pc)
    requires AllDistinct(s.rooms) && fd in s.clients && pc.RoomInsert?
    ensures AllDistinct(InsertRoom(s, fd, pc).rooms)
  {
    hide Password.Hash;
  }

  /** A section keeps members distinct exactly unless it adds a name that is there already. */
  lemma DistinctKeptIff(s: State, fd: nat, pc: Pc)
    requires fd in s.clients && Sorted(pc) && AllDistinct(s.rooms)
    ensures AllDistinct(Section(s, fd, pc).0.rooms) <==> !JoinsTwice(s, fd, pc)
  {
    hide Emit, Remove, JoinMembers, LeaveMembers, Handle, Password.Hash, Rank, AfterNameCheck, AfterUserCheck,
      AfterUserInsert, AfterRoomFind, AfterKickFind, Rename, SignIn, OneSection, AllDistinct, InsertRoom;
    var me := s.clients[fd].name;
    match pc
    case Whole(line, chance) => WholeKeepsUsers(s, fd, line, chance);
    case RoomInsert(_, _, _, _) => InsertKeepsDistinct(s, fd, pc);
    case MemberAdd(room) => JoinKeepsDistinctIff(s, room, me);
    case QuitErase(left) => LeaveKeepsDistinct(s, left, me);
    case LeaveErase(left) => LeaveKeepsDistinct(s, left, me);
    case _ =>
  }

  // ------------------------------------------------------------------ two threads in step

  /** Two clients' threads, and where they stand. */
  predicate BothAt(w: World, a: nat, b: nat, p: Pc, q: Pc) {
    a != b && a in w.server.clients && b in w.server.clients && At(w, a) == p && At(w, b) == q
  }

  lemma ConnectBoth(w: World, a: nat, b: nat)
    requires a != b && a !in w.server.clients && b !in w.server.clients && At(w, a).Idle? && At(w, b).Idle?
    ensures Feasible(w, [Connect(a), Connect(b)])
    ensures var v := Play(w, [Connect(a), Connect(b)]);
      BothAt(v, a, b, Idle, Idle) && v.server.users == w.server.users && v.server.rooms == w.server.rooms
      && v.server.index == w.server.index
  {
    hide GuestName, Say, Feasible, Play;
    var w1 := Next(w, Connect(a));
    PathPlays([w, w1, Next(w1, Connect(b))], [Connect(a), Connect(b)]);
  }

  /** Both threads are given their lines. */
  lemma StartBoth(w: World, a: nat, b: nat, x: Message, y: Message, c: Chance, d: Chance, p: Pc, q: Pc)
    requires BothAt(w, a, b, Idle, Idle) && Begin(w.server, a, x, c) == p && Begin(w.server, b, y, d) == q
    ensures var actions := [Start(a, x, c), Start(b, y, d)];
      Feasible(w, actions) && BothAt(Play(w, actions), a, b, p, q) && Play(w, actions).server == w.server
  {
    hide Begin, Feasible, Play;
    var v := Next(w, Start(a, x, c));
    PathPlays([w, v, Next(v, Start(b, y, d))], [Start(a, x, c), Start(b, y, d)]);
  }

  function Both(a: nat, b: nat): seq<Action> {
    [Advance(a), Advance(b)]
  }

  predicate Advances(actions: seq<Action>, a: nat, b: nat) {
    forall i :: 0 <= i < |actions| ==> actions[i] == Advance(a) || actions[i] == Advance(b)
  }

  /** Two threads are given a line each, and then only go on with it. */
  predicate SideBySide(actions: seq<Action>, a: nat, x: Message, c: Chance, b: nat, y: Message, d: Chance) {
    |actions| >= 2 && actions[..2] == [Start(a, x, c), Start(b, y, d)] && Advances(actions[2..], a, b)
  }

  /** Both threads pass a section in which they only look. */
  lemma LookBoth(w: World, a: nat, b: nat, p: Pc, q: Pc, p2: Pc, q2: Pc)
    requires BothAt(w, a, b, p, q) && !p.Idle? && !q.Idle? && !p.Leave? && !q.Leave?
    requires Section(w.server, a, p) == (w.server, p2) && Section(w.server, b, q) == (w.server, q2)
    ensures Feasible(w, Both(a, b)) && BothAt(Play(w, Both(a, b)), a, b, p2, q2)
    ensures Play(w, Both(a, b)).server == w.server
  {
    hide Section, Feasible, Play;
    var v := Next(w, Advance(a));
    PathPlays([w, v, Next(v, Advance(b))], Both(a, b));
  }

  /** Two interleavings one after the other. */
  lemma Then(w: World, first: seq<Action>, v: World, second: seq<Action>, u: World)
    requires Feasible(w, first) && Play(w, first) == v && Feasible(v, second) && Play(v, second) == u
    ensures Feasible(w, first + second) && Play(w, first + second) == u
  {
    hide Feasible, Play;
    PlayAppend(w, first, second);
  }

  lemma ThenThree(w: World, a: seq<Action>, w1: World, b: seq<Action>, w2: World, c: seq<Action>, w3: World,
                  d: seq<Action>)
    requires Feasible(w, a) && Play(w, a) == w1 && Feasible(w1, b) && Play(w1, b) == w2
    requires Feasible(w2, c) && Play(w2, c) == w3 && Feasible(w3, d)
    ensures Feasible(w, a + (b + (c + d))) && Play(w, a + (b + (c + d))) == Play(w3, d)
  {
    hide Feasible, Play;
    PlayAppend(w2, c, d);
    PlayAppend(w1, b, c + d);
    PlayAppend(w, a, b + (c + d));
  }

  /** One thread passes a section. */
  lemma AdvanceOne(w: World, fd: nat, t: State, next: Pc)
    requires fd in w.server.clients && !At(w, fd).Idle? && !At(w, fd).Leave?
    requires Section(w.server, fd, At(w, fd)) == (t, next)
    ensures Possible(w, Advance(fd)) && Next(w, Advance(fd)) == World(t, w.threads[fd := next])
  {
    hide Section;
  }

  lemma SectionOfTold(s: State, fd: nat)
    requires fd in s.clients
    ensures Section(s, fd, Tell([], Idle)) == (s, Idle)
  {
  }

  /** Announcements change nothing else, and end. */
  lemma {:induction false} Drain(w: World, fd: nat) returns (actions: seq<Action>)
    requires fd in w.server.clients && At(w, fd).Tell? && At(w, fd).next.Idle?
    ensures Feasible(w, actions) && Advances(actions, fd, fd)
    ensures var v := Play(w, actions);
      v.server == w.server.(sent := v.server.sent) && v.threads == w.threads[fd := Idle]
    decreases |At(w, fd).outputs|
  {
    hide Feasible, Play, Possible, Next, Rank, Section, Emit;
    var outputs := At(w, fd).outputs;
    if outputs == [] {
      SectionOfTold(w.server, fd);
      AdvanceOne(w, fd, w.server, Idle);
      actions := [Advance(fd)];
      PlayOne(w, Advance(fd));
    } else {
      SectionOfTell(w.server, fd, outputs[0], outputs[1..], Idle);
      assert outputs == [outputs[0]] + outputs[1..];
      var v := World(Emit(w.server, outputs[0]), w.threads[fd := Tell(outputs[1..], Idle)]);
      AdvanceOne(w, fd, v.server, Tell(outputs[1..], Idle));
      PlayOne(w, Advance(fd));
      var rest := Drain(v, fd);
      actions := [Advance(fd)] + rest;
      PlayAppend(w, [Advance(fd)], rest);
      assert v.threads[fd := Idle] == w.threads[fd := Idle];
    }
  }

  // ------------------------------------------------------------------ two clients, one name

  lemma BeginNick(s: State, fd: nat, line: Message, chance: Chance, name: Bytes)
    requires fd in s.clients && line[0] == '/' && Parse(line) == Nick(name) && name != ""
    ensures Begin(s, fd, line, chance) == NameCheck(ForNick, name, "", chance.salt)
  {
    hide Parse;
  }

  lemma BeginRegister(s: State, fd: nat, line: Message, chance: Chance, name: Bytes, password: Bytes)
    requires fd in s.clients && name != "" && password != ""
    requires line[0] == '/' && Parse(line) == Register(name, password)
    ensures Begin(s, fd, line, chance) == NameCheck(ForRegister, name, password, chance.salt)
  {
    hide Parse;
  }

  lemma BeginCreate(s: State, fd: nat, line: Message, chance: Chance, room: Bytes, isPrivate: bool, password: Bytes)
    requires fd in s.clients && line[0] == '/' && Parse(line) == CreateRoom(room, isPrivate, password) && room != ""
    ensures Begin(s, fd, line, chance) == RoomCheck(room, isPrivate, password, chance.salt)
  {
    hide Parse;
  }

  lemma BeginJoin(s: State, fd: nat, line: Message, chance: Chance, room: Bytes, password: Bytes)
    requires fd in s.clients && line[0] == '/' && Parse(line) == JoinRoom(room, password) && room != ""
    ensures Begin(s, fd, line, chance) == RoomFind(room, password)
  {
    hide Parse;
  }

  lemma NameFree(s: State, fd: nat, purpose: Purpose, name: Bytes, password: Bytes, salt: Salt)
    requires fd in s.clients && Lookup(s, name).None?
    ensures Section(s, fd, NameCheck(ForNick, name, password, salt)) == (s, NameCommit(ForNick, name))
    ensures
      Section(s, fd, NameCheck(ForRegister, name, password, salt)) == (s, UserCheck(ForRegister, name, password, salt))
    ensures name !in s.users ==>
      Section(s, fd, UserCheck(ForRegister, name, password, salt)) == (s, UserInsert(ForRegister, name, password, salt))
  {
    hide Lookup, Rank;
  }

  /** What is left when two clients have taken one name: both bear it, and only the later is found. */
  ghost predicate SharedName(s: State, t: State, a: nat, b: nat, name: string) {
    && a in t.clients && b in t.clients && t.clients[a].name == name && t.clients[b].name == name
    && Lookup(t, name) == Some(b) && t.rooms == s.rooms && t.users == s.users
  }

  lemma CommitBoth(w: World, a: nat, b: nat, name: Bytes)
    requires BothAt(w, a, b, NameCommit(ForNick, name), NameCommit(ForNick, name))
    ensures Feasible(w, Both(a, b))
    ensures var v := Play(w, Both(a, b));
      && SharedName(w.server, v.server, a, b, name)
      && At(v, a).Tell? && At(v, a).next.Idle? && At(v, b).Tell? && At(v, b).next.Idle?
  {
    hide Feasible, Play, Rank;
    var v := Next(w, Advance(a));
    PathPlays([w, v, Next(v, Advance(b))], Both(a, b));
  }

  lemma SharedSent(s: State, t: State, u: State, a: nat, b: nat, name: string)
    requires SharedName(s, t, a, b, name) && u == t.(sent := u.sent)
    ensures SharedName(s, u, a, b, name)
  {
  }

  /** Two idle threads can both find a name free and both commit it; then two clients bear it, and
      only the later one is found. */
  lemma NickRace(w: World, a: nat, b: nat, x: Message, y: Message, name: Bytes, c: Chance, d: Chance)
    returns (actions: seq<Action>)
    requires BothAt(w, a, b, Idle, Idle) && name != "" && Lookup(w.server, name).None?
    requires x[0] == '/' && Parse(x) == Nick(name) && y[0] == '/' && Parse(y) == Nick(name)
    ensures Feasible(w, actions) && SideBySide(actions, a, x, c, b, y, d)
    ensures var v := Play(w, actions); BothAt(v, a, b, Idle, Idle) && SharedName(w.server, v.server, a, b, name)
  {
    hide Parse, Lookup, Feasible, Play, Rank, Section, Begin, SharedName;
    var p, q := NameCheck(ForNick, name, "", c.salt), NameCheck(ForNick, name, "", d.salt);
    BeginNick(w.server, a, x, c, name);
    BeginNick(w.server, b, y, d, name);
    StartBoth(w, a, b, x, y, c, d, p, q);
    var start, look := [Start(a, x, c), Start(b, y, d)], Both(a, b);
    var w1 := Play(w, start);
    NameFree(w.server, a, ForNick, name, "", c.salt);
    NameFree(w.server, b, ForNick, name, "", d.salt);
    LookBoth(w1, a, b, p, q, NameCommit(ForNick, name), NameCommit(ForNick, name));
    var w2 := Play(w1, look);
    CommitBoth(w2, a, b, name);
    var w3 := Play(w2, look);
    SharedConnected(w2.server, w3.server, a, b, name);
    var more := DrainBoth(w3, a, b);
    var w4 := Play(w3, more);
    SharedSent(w2.server, w3.server, w4.server, a, b, name);
    Then(w2, look, w3, more, w4);
    Then(w1, look, w2, look + more, w4);
    Then(w, start, w1, look + (look + more), w4);
    actions := start + (look + (look + more));
  }

  lemma SharedConnected(s: State, t: State, a: nat, b: nat, name: string)
    requires SharedName(s, t, a, b, name)
    ensures a in t.clients && b in t.clients
  {
  }

  lemma DrainBoth(w: World, a: nat, b: nat) returns (actions: seq<Action>)
    requires BothAt(w, a, b, At(w, a), At(w, b))
    requires At(w, a).Tell? && At(w, a).next.Idle? && At(w, b).Tell? && At(w, b).next.Idle?
    ensures Feasible(w, actions) && Advances(actions, a, b)
    ensures var v := Play(w, actions); BothAt(v, a, b, Idle, Idle) && v.server == w.server.(sent := v.server.sent)
  {
    hide Feasible, Play, Rank, Possible, Next;
    var first := Drain(w, a);
    var v := Play(w, first);
    assert At(v, b) == At(w, b) && v.server.clients == w.server.clients;
    var second := Drain(v, b);
    actions := first + second;
    PlayAppend(w, first, second);
  }

  /** Two clients under one name can both be added to a room that did not have it. */
  lemma MemberRace(w: World, a: nat, b: nat, x: Message, y: Message, room: Bytes, p: Bytes, q: Bytes,
                   c: Chance, d: Chance) returns (actions: seq<Action>)
    requires BothAt(w, a, b, Idle, Idle) && w.server.clients[a].name == w.server.clients[b].name
    requires room != "" && room in w.server.rooms && !w.server.rooms[room].isPrivate
    requires w.server.clients[a].name !in w.server.rooms[room].members
    requires x[0] == '/' && Parse(x) == JoinRoom(room, p) && y[0] == '/' && Parse(y) == JoinRoom(room, q)
    ensures Feasible(w, actions) && SideBySide(actions, a, x, c, b, y, d)
    ensures var t, n := Play(w, actions).server, w.server.clients[a].name;
      room in t.rooms && t.rooms[room].members == w.server.rooms[room].members + [n, n]
  {
    hide Parse, Feasible, Play, Rank, Section, Begin;
    BeginJoin(w.server, a, x, c, room, p);
    BeginJoin(w.server, b, y, d, room, q);
    StartBoth(w, a, b, x, y, c, d, RoomFind(room, p), RoomFind(room, q));
    var start, both := [Start(a, x, c), Start(b, y, d)], Both(a, b);
    var w1 := Play(w, start);
    RoomOpen(w.server, a, room, p);
    RoomOpen(w.server, b, room, q);
    LookBoth(w1, a, b, RoomFind(room, p), RoomFind(room, q), MemberCheck(room), MemberCheck(room));
    var w2 := Play(w1, both);
    LookBoth(w2, a, b, MemberCheck(room), MemberCheck(room), MemberAdd(room), MemberAdd(room));
    var w3 := Play(w2, both);
    AddBoth(w3, a, b, room);
    var w4 := Play(w3, both);
    Then(w2, both, w3, both, w4);
    Then(w1, both, w2, both + both, w4);
    Then(w, start, w1, both + (both + both), w4);
    actions := start + (both + (both + both));
  }

  lemma RoomOpen(s: State, fd: nat, room: Bytes, password: Bytes)
    requires fd in s.clients && room in s.rooms && !s.rooms[room].isPrivate
    requires s.clients[fd].name !in s.rooms[room].members
    ensures Section(s, fd, RoomFind(room, password)) == (s, MemberCheck(room))
    ensures Section(s, fd, MemberCheck(room)) == (s, MemberAdd(room))
  {
    hide Rank;
  }

  lemma AddBoth(w: World, a: nat, b: nat, room: Bytes)
    requires BothAt(w, a, b, MemberAdd(room), MemberAdd(room)) && room in w.server.rooms
    ensures Feasible(w, Both(a, b))
    ensures var t := Play(w, Both(a, b)).server;
      && room in t.rooms
      && t.rooms[room].members == w.server.rooms[room].members + [w.server.clients[a].name, w.server.clients[b].name]
  {
    hide Feasible, Play, Rank;
    var v := Next(w, Advance(a));
    PathPlays([w, v, Next(v, Advance(b))], Both(a, b));
  }

  /** From two idle clients with two lines each, one name can come to be listed twice in a room. */
  lemma DuplicateMember(w: World, a: nat, b: nat, name: Bytes, room: Bytes, lines: seq<Message>, p: Bytes, q: Bytes,
                        c: Chance, d: Chance) returns (first: seq<Action>, second: seq<Action>)
    requires BothAt(w, a, b, Idle, Idle) && name != "" && Lookup(w.server, name).None?
    requires room != "" && room in w.server.rooms && !w.server.rooms[room].isPrivate
    requires name !in w.server.rooms[room].members
    requires |lines| == 4 && forall i :: 0 <= i < 4 ==> lines[i][0] == '/'
    requires Parse(lines[0]) == Nick(name) && Parse(lines[1]) == Nick(name)
    requires Parse(lines[2]) == JoinRoom(room, p) && Parse(lines[3]) == JoinRoom(room, q)
    ensures SideBySide(first, a, lines[0], c, b, lines[1], d) && SideBySide(second, a, lines[2], c, b, lines[3], d)
    ensures Feasible(w, first + second)
    ensures var t := Play(w, first + second).server;
      && room in t.rooms && t.rooms[room].members == w.server.rooms[room].members + [name, name]
      && !AllDistinct(t.rooms)
  {
    hide Parse, Feasible, Play, Lookup, SideBySide;
    first := NickRace(w, a, b, lines[0], lines[1], name, c, d);
    var v := Play(w, first);
    second := MemberRace(v, a, b, lines[2], lines[3], room, p, q, c, d);
    PlayAppend(w, first, second);
    var members, n := Play(w, first + second).server.rooms[room].members, |w.server.rooms[room].members|;
    assert members[n] == members[n + 1];
  }

  // ------------------------------------------------------------------ two records, two rooms

  lemma InsertBoth(w: World, a: nat, b: nat, name: Bytes, p: Bytes, q: Bytes, c: Salt, d: Salt)
    requires BothAt(w, a, b, UserInsert(ForRegister, name, p, c), UserInsert(ForRegister, name, q, d))
    ensures Feasible(w, [Advance(a)]) && Feasible(w, Both(a, b))
    ensures var s := Play(w, [Advance(a)]).server; name in s.users && s.users[name] == Password.Hash(p, c)
    ensures var v := Play(w, Both(a, b));
      && BothAt(v, a, b, Commits(a, name), Commits(b, name))
      && name in v.server.users && v.server.users[name] == Password.Hash(q, d)
  {
    hide Feasible, Play, Rank, Password.Hash;
    var v := Next(w, Advance(a));
    PathPlays([w, v], [Advance(a)]);
    PathPlays([w, v, Next(v, Advance(b))], Both(a, b));
  }

  /** The thread has stored its record: it tells its client of the registration and then commits the name. */
  function Commits(fd: nat, name: Bytes): Pc {
    Tell([ToOne(fd, Registered(name))], NameCommit(ForRegister, name))
  }

  /** Exactly this password is accepted for the name. */
  ghost predicate Opens(s: State, name: string, password: Bytes) {
    name in s.users && forall p: Bytes :: Password.Verify(p, s.users[name]) == Password.Accepted <==> p == password
  }

  lemma HashOpens(s: State, name: string, password: Bytes, salt: Salt)
    requires name in s.users && s.users[name] == Password.Hash(password, salt)
    ensures Opens(s, name, password)
  {
    hide Password.Hash, Password.Verify;
    forall p: Bytes ensures Password.Verify(p, s.users[name]) == Password.Accepted <==> p == password {
      Password.VerifyExact(p, password, salt);
    }
  }

  /** Two idle threads can both find a name unregistered and both register it: one section before the
      end it has the earlier password, at the end only the later one, and both are told that they have
      registered it. */
  lemma RegisterRace(w: World, a: nat, b: nat, x: Message, y: Message, name: Bytes, p: Bytes, q: Bytes,
                     c: Chance, d: Chance)
    requires BothAt(w, a, b, Idle, Idle) && name != "" && Lookup(w.server, name).None? && name !in w.server.users
    requires p != "" && x[0] == '/' && Parse(x) == Register(name, p)
    requires q != "" && y[0] == '/' && Parse(y) == Register(name, q)
    ensures var before := [Start(a, x, c), Start(b, y, d)] + (Both(a, b) + (Both(a, b) + [Advance(a)]));
      Feasible(w, before) && Opens(Play(w, before).server, name, p)
    ensures var actions := [Start(a, x, c), Start(b, y, d)] + (Both(a, b) + (Both(a, b) + Both(a, b)));
      && Feasible(w, actions) && Opens(Play(w, actions).server, name, q)
      && BothAt(Play(w, actions), a, b, Commits(a, name), Commits(b, name))
  {
    hide Parse, Lookup, Feasible, Play, Rank, Section, Begin, Opens, Password.Hash;
    var p1, q1 := NameCheck(ForRegister, name, p, c.salt), NameCheck(ForRegister, name, q, d.salt);
    var p2, q2 := UserCheck(ForRegister, name, p, c.salt), UserCheck(ForRegister, name, q, d.salt);
    var p3, q3 := UserInsert(ForRegister, name, p, c.salt), UserInsert(ForRegister, name, q, d.salt);
    BeginRegister(w.server, a, x, c, name, p);
    BeginRegister(w.server, b, y, d, name, q);
    StartBoth(w, a, b, x, y, c, d, p1, q1);
    var start, both := [Start(a, x, c), Start(b, y, d)], Both(a, b);
    var w1 := Play(w, start);
    NameFree(w.server, a, ForRegister, name, p, c.salt);
    NameFree(w.server, b, ForRegister, name, q, d.salt);
    LookBoth(w1, a, b, p1, q1, p2, q2);
    var w2 := Play(w1, both);
    LookBoth(w2, a, b, p2, q2, p3, q3);
    var w3 := Play(w2, both);
    InsertBoth(w3, a, b, name, p, q, c.salt, d.salt);
    HashOpens(Play(w3, [Advance(a)]).server, name, p, c.salt);
    HashOpens(Play(w3, both).server, name, q, d.salt);
    ThenThree(w, start, w1, both, w2, both, w3, [Advance(a)]);
    ThenThree(w, start, w1, both, w2, both, w3, both);
  }

  /** This can happen to the first two clients of a server, under any name and any two passwords. */
  lemma RegisterRaceReached(a: nat, b: nat, x: Message, y: Message, name: Bytes, p: Bytes, q: Bytes,
                            c: Chance, d: Chance)
    requires a != b && name != "" && p != "" && q != ""
    requires x[0] == '/' && Parse(x) == Register(name, p) && y[0] == '/' && Parse(y) == Register(name, q)
    ensures var start, both := [Start(a, x, c), Start(b, y, d)], Both(a, b);
      var w, actions := World(START, map[]), [Connect(a), Connect(b)] + (start + (both + (both + both)));
      && Feasible(w, actions) && Opens(Play(w, actions).server, name, q)
      && BothAt(Play(w, actions), a, b, Commits(a, name), Commits(b, name))
  {
    hide Parse, Feasible, Play, Opens;
    var w, both := World(START, map[]), Both(a, b);
    ConnectBoth(w, a, b);
    var v := Play(w, [Connect(a), Connect(b)]);
    RegisterRace(v, a, b, x, y, name, p, q, c, d);
    PlayAppend(w, [Connect(a), Connect(b)], [Start(a, x, c), Start(b, y, d)] + (both + (both + both)));
  }

  lemma RoomUnknownYet(s: State, fd: nat, room: Bytes, isPrivate: bool, password: Bytes, salt: Salt)
    requires fd in s.clients && room !in s.rooms
    ensures
      Section(s, fd, RoomCheck(room, isPrivate, password, salt)) == (s, RoomInsert(room, isPrivate, password, salt))
  {
    hide Rank;
  }

  lemma StoreBoth(w: World, a: nat, b: nat, p: Pc, q: Pc)
    requires BothAt(w, a, b, p, q) && p.RoomInsert? && q.RoomInsert? && p.room == q.room
    ensures Feasible(w, [Advance(a)]) && Feasible(w, Both(a, b))
    ensures ListsOnly(Play(w, [Advance(a)]).server, p.room, w.server.clients[a].name)
    ensures var v := Play(w, Both(a, b));
      && v.server.clients == w.server.clients && At(v, a).EnterRoom? && At(v, a).current == p.room
      && At(v, b).EnterRoom? && At(v, b).current == p.room
      && ListsOnly(v.server, p.room, w.server.clients[b].name)
  {
    hide Feasible, Play, Section;
    SectionStores(w.server, a, p);
    var v := Next(w, Advance(a));
    SectionStores(v.server, b, q);
    PathPlays([w, v], [Advance(a)]);
    PathPlays([w, v, Next(v, Advance(b))], Both(a, b));
  }

  lemma SectionStores(s: State, fd: nat, pc: Pc)
    requires fd in s.clients && pc.RoomInsert?
    ensures var (t, next) := Section(s, fd, pc);
      && t.clients == s.clients && ListsOnly(t, pc.room, s.clients[fd].name)
      && next.EnterRoom? && next.current == pc.room
  {
    hide Rank, Password.Hash;
  }

  predicate ListsOnly(s: State, r: string, name: string) {
    r in s.rooms && s.rooms[r].members == [name]
  }

  lemma EnterStored(w: World, a: nat, b: nat)
    requires a != b && a in w.server.clients && b in w.server.clients && At(w, a).EnterRoom? && At(w, b).EnterRoom?
    ensures Feasible(w, Both(a, b))
    ensures var t := Play(w, Both(a, b)).server;
      && t.rooms == w.server.rooms && a in t.clients && b in t.clients
      && t.clients[a] == w.server.clients[a].(room := At(w, a).current)
      && t.clients[b] == w.server.clients[b].(room := At(w, b).current)
  {
    hide Feasible, Play, Rank;
    var v := Next(w, Advance(a));
    PathPlays([w, v, Next(v, Advance(b))], Both(a, b));
  }

  /** Two idle threads can both find a room missing and both create it: first it lists the one, then
      only the other, and both stand in it. */
  lemma RoomRace(w: World, a: nat, b: nat, x: Message, y: Message, room: Bytes, c: Chance, d: Chance)
    requires BothAt(w, a, b, Idle, Idle)
    requires room != "" && room !in w.server.rooms
    requires x[0] == '/' && Parse(x).CreateRoom? && Parse(x).name == room
    requires y[0] == '/' && Parse(y).CreateRoom? && Parse(y).name == room
    ensures var before := [Start(a, x, c), Start(b, y, d)] + (Both(a, b) + [Advance(a)]);
      Feasible(w, before) && ListsOnly(Play(w, before).server, room, w.server.clients[a].name)
    ensures var actions := [Start(a, x, c), Start(b, y, d)] + (Both(a, b) + (Both(a, b) + Both(a, b)));
      Feasible(w, actions) &&
      var s := Play(w, actions).server;
      && ListsOnly(s, room, w.server.clients[b].name) && a in s.clients && b in s.clients
      && s.clients[a] == w.server.clients[a].(room := room) && s.clients[b] == w.server.clients[b].(room := room)
  {
    hide Parse, Feasible, Play, Rank, Section, Begin;
    var m, n := Parse(x), Parse(y);
    var p1, q1 := RoomCheck(room, m.isPrivate, m.password, c.salt), RoomCheck(room, n.isPrivate, n.password, d.salt);
    var p2, q2 := RoomInsert(room, m.isPrivate, m.password, c.salt), RoomInsert(room, n.isPrivate, n.password, d.salt);
    BeginCreate(w.server, a, x, c, room, m.isPrivate, m.password);
    BeginCreate(w.server, b, y, d, room, n.isPrivate, n.password);
    StartBoth(w, a, b, x, y, c, d, p1, q1);
    var start, both := [Start(a, x, c), Start(b, y, d)], Both(a, b);
    var w1 := Play(w, start);
    RoomUnknownYet(w.server, a, room, m.isPrivate, m.password, c.salt);
    RoomUnknownYet(w.server, b, room, n.isPrivate, n.password, d.salt);
    LookBoth(w1, a, b, p1, q1, p2, q2);
    var w2 := Play(w1, both);
    StoreBoth(w2, a, b, p2, q2);
    Then(w1, both, w2, [Advance(a)], Play(w2, [Advance(a)]));
    Then(w, start, w1, both + [Advance(a)], Play(w2, [Advance(a)]));
    var w3 := Play(w2, both);
    EnterStored(w3, a, b);
    ThenThree(w, start, w1, both, w2, both, w3, both);
  }
}
