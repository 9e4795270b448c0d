/** What is logged and who is registered under every interleaving of the client threads, and that it
    survives the files. */
module Journal {
  import opened Text
  import opened Commands
  import opened History
  import opened Replies
  import opened Server
  import opened Invariants
  import opened Interleaving
  import opened Logs
  import opened Accounts
  import opened Restart
  import Password

  // ------------------------------------------------------------------ histories

  lemma SectionQuiet(s: State, fd: nat, pc: Pc)
    requires fd in s.clients && !pc.Whole?
    ensures NoMessage(s, Section(s, fd, pc).0)
  {
    hide Emit, Remove, JoinMembers, LeaveMembers, Handle, Password.Hash, Rank, AfterNameCheck, AfterUserCheck,
      AfterUserInsert, AfterRoomFind, AfterKickFind, Rename, SignIn;
  }

  lemma SectionStores(s: State, fd: nat, pc: Pc)
    requires Steady(s) && fd in s.clients
    ensures Stores(s, Section(s, fd, pc).0, AllClean(s.clients, s.rooms))
  {
    hide Stores, Handle, OwnRooms, Sound, Rank, AllClean;
    if pc.Whole? {
      StepStores(s, Received(fd, pc.line, pc.chance));
    } else {
      SectionQuiet(s, fd, pc);
      QuietStores(s, Section(s, fd, pc).0, AllClean(s.clients, s.rooms));
    }
  }

  // ------------------------------------------------------------------ names on their way

  /** The names a thread has read from its line, or found in the rooms, are clean. */
  predicate CleanPc(pc: Pc) {
    match pc
    case NameCheck(_, name, _, _) => Clean(name)
    case UserCheck(_, name, _, _) => Clean(name)
    case UserInsert(_, name, _, _) => Clean(name)
    case NameCommit(_, name) => Clean(name)
    case RoomCheck(room, _, _, _) => Clean(room)
    case RoomInsert(room, _, _, _) => Clean(room)
    case MemberCheck(room) => Clean(room)
    case MemberAdd(room) => Clean(room)
    case EnterRoom(current, _) => Clean(current)
    case Tell(_, next) => CleanPc(next)
    case _ => true
  }

  /** Account names have no colon either. */
  predicate ColonFreePc(pc: Pc) {
    match pc
    case NameCheck(purpose, name, _, _) => purpose != ForNick ==> Free(name, COLON) && Free(name, NL)
    case UserCheck(purpose, name, _, _) => Free(name, COLON) && Free(name, NL)
    case UserInsert(_, name, _, _) => Free(name, COLON) && Free(name, NL)
    case Tell(_, next) => ColonFreePc(next)
    case _ => true
  }

  predicate CleanAction(a: Action) {
    a.Start? ==> CleanEvent(Received(a.fd, a.line, a.chance))
  }

  predicate ColonFreeAction(a: Action) {
    a.Start? ==> ColonFree(Received(a.fd, a.line, a.chance))
  }

  ghost predicate CleanThreads(threads: map<nat, Pc>) {
    forall fd :: fd in threads ==> CleanPc(threads[fd])
  }

  ghost predicate ColonFreeThreads(threads: map<nat, Pc>) {
    forall fd :: fd in threads ==> ColonFreePc(threads[fd])
  }

  ghost predicate CleanWorld(w: World) {
    AllClean(w.server.clients, w.server.rooms) && CleanThreads(w.threads)
  }

  ghost predicate ColonFreeWorld(w: World) {
    AllUserSafe(w.server.users) && ColonFreeThreads(w.threads)
  }

  lemma ThreadSet(threads: map<nat, Pc>, fd: nat, pc: Pc)
    ensures CleanThreads(threads) && CleanPc(pc) ==> CleanThreads(threads[fd := pc])
    ensures ColonFreeThreads(threads) && ColonFreePc(pc) ==> ColonFreeThreads(threads[fd := pc])
  {
    hide CleanPc, ColonFreePc;
  }

  lemma ThreadGet(w: World, fd: nat)
    requires !At(w, fd).Idle?
    ensures CleanThreads(w.threads) ==> CleanPc(At(w, fd))
    ensures ColonFreeThreads(w.threads) ==> ColonFreePc(At(w, fd))
  {
    hide CleanPc, ColonFreePc;
  }

  lemma BeginClean(s: State, fd: nat, line: Message, chance: Chance)
    requires fd in s.clients
    ensures CleanEvent(Received(fd, line, chance)) ==> CleanPc(Begin(s, fd, line, chance))
    ensures ColonFree(Received(fd, line, chance)) ==> ColonFreePc(Begin(s, fd, line, chance))
  {
    hide Parse, Free, SpaceFree, Clean;
    ParsedWords(line);
    var c := Parse(line);
    if c.Login? || c.Register? || c.Nick? || c.CreateRoom? {
      WordLine(c.name);
    }
  }

  lemma WordLine(name: string)
    requires SpaceFree(name)
    ensures Free(name, NL) && (Free(name, BAR) ==> Clean(name))
  {
  }

  lemma AfterClean(s: State, fd: nat, pc: Pc)
    requires AllClean(s.clients, s.rooms) && CleanPc(pc)
    ensures pc.UserCheck? ==> CleanPc(AfterUserCheck(s, fd, pc))
    ensures pc.RoomFind? ==> CleanPc(AfterRoomFind(s, fd, pc))
  {
    hide Password.Verify, Clean;
    if pc.RoomFind? && pc.room in s.rooms {
      RoomNameClean(s, pc.room);
    }
  }

  lemma SectionCleanPc(s: State, fd: nat, pc: Pc)
    requires fd in s.clients && AllClean(s.clients, s.rooms) && CleanPc(pc)
    ensures CleanPc(Section(s, fd, pc).1)
  {
    hide Emit, Remove, JoinMembers, LeaveMembers, Handle, Password.Hash, Rank, InsertRoom, Rename, SignIn, Enter,
      Lookup, Clean, AfterUserCheck, AfterRoomFind, AllClean;
    GuestClean(fd);
    AfterClean(s, fd, pc);
  }

  lemma SectionColonPc(s: State, fd: nat, pc: Pc)
    requires fd in s.clients && ColonFreePc(pc)
    ensures ColonFreePc(Section(s, fd, pc).1)
  {
    hide Emit, Remove, JoinMembers, LeaveMembers, Handle, Password.Hash, Password.Verify, Rank, InsertRoom, Rename,
      SignIn, Enter, Lookup, Free;
  }

  lemma WholeClean(s: State, fd: nat, line: Message, chance: Chance)
    requires fd in s.clients && AllClean(s.clients, s.rooms) && OneSection(line)
    ensures var t := Handle(s, fd, line, chance); AllClean(t.clients, t.rooms)
  {
    hide AllClean, Handle, Parse;
    StepClean(s, Received(fd, line, chance));
  }

  lemma CommitClean(s: State, fd: nat, pc: Pc)
    requires fd in s.clients && AllClean(s.clients, s.rooms) && pc.NameCommit? && Clean(pc.name)
    ensures var t := Commit(s, fd, pc).0; AllClean(t.clients, t.rooms)
  {
    hide AllClean, Clean, Rename, SignIn;
    RenameClean(s, fd, pc.name);
    SignInClean(s, fd, pc.name);
  }

  lemma InsertClean(s: State, fd: nat, pc: Pc)
    requires fd in s.clients && AllClean(s.clients, s.rooms) && pc.RoomInsert? && Clean(pc.room)
    ensures var t := InsertRoom(s, fd, pc); AllClean(t.clients, t.rooms)
  {
    hide AllClean, Clean, Password.Hash;
    var t := InsertRoom(s, fd, pc);
    AddRoomClean(s.clients, s.rooms, pc.room, t.rooms[pc.room]);
  }

  lemma MembersClean(s: State, r: string, me: string)
    requires AllClean(s.clients, s.rooms)
    ensures AllClean(s.clients, JoinMembers(s, r, me).rooms) && AllClean(s.clients, LeaveMembers(s, r, me).rooms)
  {
    hide AllClean, Clean, Without;
    LeaveKeys(s, r, me);
    FewerClean(s, s.clients, LeaveMembers(s, r, me).rooms);
    FewerClean(s, s.clients, JoinMembers(s, r, me).rooms);
  }

  lemma SectionClean(s: State, fd: nat, pc: Pc)
    requires fd in s.clients && AllClean(s.clients, s.rooms) && CleanPc(pc) && Sorted(pc)
    ensures var t := Section(s, fd, pc).0; AllClean(t.clients, t.rooms)
  {
    hide AllClean, Clean, Emit, Remove, JoinMembers, LeaveMembers, Handle, Password.Hash, Rank, AfterNameCheck,
      AfterUserCheck, AfterUserInsert, Commit, InsertRoom, AfterRoomFind, AfterKickFind, OneSection;
    var me := s.clients[fd].name;
    match pc
    case NameCommit(_, _) => CommitClean(s, fd, pc);
    case RoomInsert(_, _, _, _) => InsertClean(s, fd, pc);
    case MemberAdd(room) => MembersClean(s, room, me);
    case QuitErase(left) => MembersClean(s, left, me);
    case LeaveErase(left) => MembersClean(s, left, me);
    case EnterRoom(current, _) =>
      NamesClean(s, fd);
      PutClean(s.clients, s.rooms, fd, s.clients[fd].(room := current));
    case Leave(leaver) => GoneClean(s, leaver);
    case Whole(line, chance) => WholeClean(s, fd, line, chance);
    case _ =>
  }

  lemma GoneClean(s: State, leaver: nat)
    requires AllClean(s.clients, s.rooms)
    ensures var t := Remove(s, leaver); AllClean(t.clients, t.rooms)
  {
    hide AllClean;
    FewerClean(s, Remove(s, leaver).clients, s.rooms);
  }

  lemma SectionUsersSafe(s: State, fd: nat, pc: Pc)
    requires fd in s.clients && AllUserSafe(s.users) && ColonFreePc(pc) && Sorted(pc)
    ensures AllUserSafe(Section(s, fd, pc).0.users)
  {
    hide Emit, Remove, JoinMembers, LeaveMembers, Handle, Password.Hash, Rank, AfterNameCheck, AfterUserCheck,
      AfterUserInsert, AfterRoomFind, AfterKickFind, Rename, SignIn, OneSection, Free;
    if pc.UserInsert? {
      RecordFree(pc.password, pc.salt);
    } else if pc.Whole? {
      WholeKeepsUsers(s, fd, pc.line, pc.chance);
    }
  }

  // ------------------------------------------------------------------ every interleaving

  lemma AcceptClean(s: State, fd: nat)
    requires AllClean(s.clients, s.rooms)
    ensures var t := Accept(s, fd); AllClean(t.clients, t.rooms)
  {
    hide AllClean, Clean, GuestName, Say;
    GuestClean(fd);
    PutClean(s.clients, s.rooms, fd, Client(GuestName(fd), false, false, false, 0, ""));
  }

  lemma NextClean(w: World, a: Action)
    requires Safe(w) && Possible(w, a) && CleanWorld(w) && CleanAction(a)
    ensures CleanWorld(Next(w, a))
  {
    hide Steady, Section, Begin, Accept, Remove, Sorted, AllClean, CleanPc, CleanEvent, CleanThreads, Rank;
    match a
    case Connect(fd) => AcceptClean(w.server, fd);
    case Close(fd) => GoneClean(w.server, fd);
    case Start(fd, line, chance) =>
      BeginClean(w.server, fd, line, chance);
      ThreadSet(w.threads, fd, Begin(w.server, fd, line, chance));
    case Advance(fd) =>
      ThreadGet(w, fd);
      SectionClean(w.server, fd, At(w, fd));
      SectionCleanPc(w.server, fd, At(w, fd));
      ThreadSet(w.threads, fd, Section(w.server, fd, At(w, fd)).1);
  }

  lemma NextColonFree(w: World, a: Action)
    requires Safe(w) && Possible(w, a) && ColonFreeWorld(w) && ColonFreeAction(a)
    ensures ColonFreeWorld(Next(w, a))
  {
    hide Steady, Section, Begin, Remove, Sorted, AllUserSafe, ColonFreePc, ColonFree, GuestName, Say,
      ColonFreeThreads, Rank;
    if a.Start? {
      BeginClean(w.server, a.fd, a.line, a.chance);
      ThreadSet(w.threads, a.fd, Begin(w.server, a.fd, a.line, a.chance));
    } else if a.Advance? {
      ThreadGet(w, a.fd);
      SectionUsersSafe(w.server, a.fd, At(w, a.fd));
      SectionColonPc(w.server, a.fd, At(w, a.fd));
      ThreadSet(w.threads, a.fd, Section(w.server, a.fd, At(w, a.fd)).1);
    }
  }

  lemma NextStores(w: World, a: Action)
    requires Safe(w) && Possible(w, a)
    ensures Stores(w.server, Next(w, a).server, AllClean(w.server.clients, w.server.rooms))
  {
    hide Steady, Section, Begin, Remove, Sorted, AllClean, Stores, GuestName, Say;
    var clean := AllClean(w.server.clients, w.server.rooms);
    QuietStores(w.server, Next(w, a).server, clean);
    if a.Advance? {
      SectionStores(w.server, a.fd, At(w, a.fd));
    }
  }

  /** Under every interleaving the bounded histories stay the ends of the full log. */
  lemma {:induction false} PlayRefines(w: World, actions: seq<Action>)
    requires Safe(w) && Feasible(w, actions) && Refines(w.server.history, w.server.log)
    ensures var s := Play(w, actions).server; Refines(s.history, s.log)
    decreases |actions|
  {
    hide Safe, Refines, Next, Possible, Stores, AllClean;
    if actions != [] {
      NextSafe(w, actions[0]);
      NextStores(w, actions[0]);
      StoresRefine(w.server, Next(w, actions[0]).server, AllClean(w.server.clients, w.server.rooms));
      PlayRefines(Next(w, actions[0]), actions[1..]);
    }
  }

  ghost predicate AllCleanActions(actions: seq<Action>) {
    forall i :: 0 <= i < |actions| ==> CleanAction(actions[i])
  }

  ghost predicate AllColonFreeActions(actions: seq<Action>) {
    forall i :: 0 <= i < |actions| ==> ColonFreeAction(actions[i])
  }

  /** While names are picked without separators, every message logged is safe for the file. */
  lemma {:induction false} PlayLogsSafe(w: World, actions: seq<Action>)
    requires Safe(w) && Feasible(w, actions) && Refines(w.server.history, w.server.log)
    requires CleanWorld(w) && AllSafe(w.server.log) && AllCleanActions(actions)
    ensures AllSafe(Play(w, actions).server.log)
    decreases |actions|
  {
    hide Safe, Refines, Next, Possible, Stores, AllClean, CleanAction, AllSafe, CleanThreads;
    if actions != [] {
      var v, rest := Next(w, actions[0]), actions[1..];
      assert forall i :: 0 <= i < |rest| ==> rest[i] == actions[i + 1];
      NextSafe(w, actions[0]);
      NextClean(w, actions[0]);
      NextStores(w, actions[0]);
      StoresRefine(w.server, v.server, AllClean(w.server.clients, w.server.rooms));
      PlayLogsSafe(v, rest);
    }
  }

  lemma {:induction false} PlayUsersSafe(w: World, actions: seq<Action>)
    requires Safe(w) && Feasible(w, actions) && ColonFreeWorld(w) && AllColonFreeActions(actions)
    ensures AllUserSafe(Play(w, actions).server.users)
    decreases |actions|
  {
    hide Safe, Next, Possible, ColonFreeAction, AllUserSafe, ColonFreeThreads;
    if actions != [] {
      var v, rest := Next(w, actions[0]), actions[1..];
      assert forall i :: 0 <= i < |rest| ==> rest[i] == actions[i + 1];
      NextSafe(w, actions[0]);
      NextColonFree(w, actions[0]);
      PlayUsersSafe(v, rest);
    }
  }

  lemma BootWorld(users: string, messages: string)
    ensures var w := World(Boot(users, messages), map[]);
      Safe(w) && CleanWorld(w) && ColonFreeWorld(w) && Refines(w.server.history, w.server.log) && AllSafe(w.server.log)
  {
    hide Boot, Healthy, Refines, AllClean, AllSafe, AllUserSafe;
    BootReady(users, messages);
    QuietSafe(Boot(users, messages));
  }

  /** Started from any files, under every interleaving in which names are picked without separators
      and colons, the users and the history survive a restart. */
  lemma PlayThenRestart(users: string, messages: string, actions: seq<Action>, order: seq<string>, r: string)
    requires Feasible(World(Boot(users, messages), map[]), actions)
    requires AllCleanActions(actions) && AllColonFreeActions(actions)
    requires Lists(order, Play(World(Boot(users, messages), map[]), actions).server.users.Keys)
    ensures var s := Play(World(Boot(users, messages), map[]), actions).server;
      var t := Restarted(s, order);
      t.users == s.users && t.history.all == s.history.all && Room(t.history, r) == RoomLog(s.history.all, r)
  {
    hide Feasible, Play, Boot, Restarted, Safe, CleanWorld, ColonFreeWorld, Refines, AllSafe, AllUserSafe,
      AllCleanActions, AllColonFreeActions, Room, RoomLog;
    var w := World(Boot(users, messages), map[]);
    BootWorld(users, messages);
    PlayRefines(w, actions);
    PlayLogsSafe(w, actions);
    PlayUsersSafe(w, actions);
    RestartKeeps(Play(w, actions).server, order, r);
  }
}
