/** Client threads running side by side: every critical section is a step of its own, so the check
    of a name and its commit can be far apart. What survives every interleaving, what does not,
    and the sections of one command in a row against the command as one step. */
module Interleaving {
  import opened Text
  import opened Commands
  import opened Replies
  import opened Server
  import opened Invariants
  import Password

  // ------------------------------------------------------------------ where a thread stands

  datatype Output = ToOne(fd: nat, reply: Reply) | ToAll(reply: Reply)

  datatype Purpose = ForLogin | ForRegister | ForNick

  /** The critical section a client's thread enters next, with the locals it has read so far. */
  datatype Pc =
    | Idle
    | NameCheck(purpose: Purpose, name: Bytes, password: Bytes, salt: Salt)
    | UserCheck(purpose: Purpose, name: Bytes, password: Bytes, salt: Salt)
    | UserInsert(purpose: Purpose, name: Bytes, password: Bytes, salt: Salt)
    | NameCommit(purpose: Purpose, name: Bytes)
    | RoomCheck(room: Bytes, isPrivate: bool, password: Bytes, salt: Salt)
    | RoomInsert(room: Bytes, isPrivate: bool, password: Bytes, salt: Salt)
    | RoomFind(room: Bytes, password: Bytes)
    | MemberCheck(room: Bytes)
    | MemberAdd(room: Bytes)
    | QuitErase(left: string)
    | LeaveErase(left: string)
    | EnterRoom(current: string, outputs: seq<Output>)
    | KickFind(target: Bytes, reason: Bytes)
    | Tell(outputs: seq<Output>, next: Pc)
    | Leave(leaver: nat)
    | Whole(line: Message, chance: Chance)

  function Answer(fd: nat, r: Reply): Pc {
    Tell([ToOne(fd, r)], Idle)
  }

  function BeginNaming(fd: nat, purpose: Purpose, name: Bytes, password: Bytes, salt: Salt): Pc {
    if name == "" || (purpose == ForRegister && password == "") then
      Answer(fd, match purpose case ForLogin => LoginUsage case ForRegister => RegisterUsage case ForNick => NickUsage)
    else NameCheck(purpose, name, password, salt)
  }

  function BeginQuit(fd: nat, room: string): Pc {
    if room == "" then Tell([ToOne(fd, Goodbye)], Leave(fd)) else QuitErase(room)
  }

  function BeginCreateRoom(fd: nat, room: Bytes, isPrivate: bool, password: Bytes, salt: Salt): Pc {
    if room == "" then Answer(fd, CreateRoomUsage) else RoomCheck(room, isPrivate, password, salt)
  }

  function BeginJoinRoom(fd: nat, room: Bytes, password: Bytes): Pc {
    if room == "" then Answer(fd, JoinRoomUsage) else RoomFind(room, password)
  }

  function BeginLeaveRoom(fd: nat, room: string): Pc {
    if room == "" then Answer(fd, NotInRoom) else LeaveErase(room)
  }

  function BeginKick(fd: nat, admin: bool, target: Bytes, reason: Bytes): Pc {
    if !admin then Answer(fd, AdminRequired)
    else if target == "" then Answer(fd, KickUsage)
    else KickFind(target, reason)
  }

  /** A received line leads to its first section; commands with one section, and messages, are
      taken as a whole. */
  function Begin(s: State, fd: nat, line: Message, chance: Chance): Pc
    requires fd in s.clients
  {
    var c := s.clients[fd];
    if line[0] != '/' then Whole(line, chance)
    else
      match Parse(line)
      case Login(name, password) => BeginNaming(fd, ForLogin, name, password, chance.salt)
      case Register(name, password) => BeginNaming(fd, ForRegister, name, password, chance.salt)
      case Nick(name) => BeginNaming(fd, ForNick, name, "", chance.salt)
      case Quit => BeginQuit(fd, c.room)
      case CreateRoom(name, isPrivate, password) => BeginCreateRoom(fd, name, isPrivate, password, chance.salt)
      case JoinRoom(name, password) => BeginJoinRoom(fd, name, password)
      case LeaveRoom => BeginLeaveRoom(fd, c.room)
      case Kick(target, reason) => BeginKick(fd, c.admin, target, reason)
      case _ => Whole(line, chance)
  }

  function Emit(s: State, o: Output): (t: State)
    ensures t == s.(sent := t.sent)
  {
    match o
    case ToOne(fd, r) => Send(s, fd, Say(r))
    case ToAll(r) => Broadcast(s, Say(r))
  }

  /** What the sections still to come can take at most. */
  function Rank(pc: Pc): nat {
    match pc
    case Idle => 0
    case Leave(_) => 1
    case Whole(_, _) => 1
    case Tell(outputs, next) => |outputs| + 1 + Rank(next)
    case EnterRoom(_, outputs) => |outputs| + 2
    case NameCommit(_, _) => 4
    case UserInsert(_, _, _, _) => 7
    case UserCheck(_, _, _, _) => 8
    case NameCheck(_, _, _, _) => 9
    case RoomInsert(_, _, _, _) => 5
    case RoomCheck(_, _, _, _) => 6
    case MemberAdd(_) => 5
    case MemberCheck(_) => 6
    case RoomFind(_, _) => 7
    case QuitErase(_) => 5
    case LeaveErase(_) => 5
    case KickFind(_, _) => 5
  }

  function AfterNameCheck(s: State, fd: nat, pc: Pc): (next: Pc)
    requires pc.NameCheck?
    ensures Rank(next) < Rank(pc)
  {
    if Lookup(s, pc.name).Some? then Answer(fd, if pc.purpose == ForRegister then NameInUse else NameTaken)
    else if pc.purpose == ForNick then NameCommit(pc.purpose, pc.name)
    else UserCheck(pc.purpose, pc.name, pc.password, pc.salt)
  }

  function AfterUserCheck(s: State, fd: nat, pc: Pc): (next: Pc)
    requires pc.UserCheck?
    ensures Rank(next) < Rank(pc)
  {
    var UserCheck(purpose, name, password, salt) := pc;
    if purpose == ForRegister then
      if name in s.users then Answer(fd, UserExists) else UserInsert(purpose, name, password, salt)
    else if name in s.users then
      if password == "" then Answer(fd, PasswordRequired)
      else
        match Password.Verify(password, s.users[name])
        case Accepted => NameCommit(purpose, name)
        case Rejected => Answer(fd, InvalidPassword)
        case Aborts => Idle
    else if password == "" then NameCommit(purpose, name)
    else UserInsert(purpose, name, password, salt)
  }

  function AfterUserInsert(fd: nat, pc: Pc): (next: Pc)
    requires pc.UserInsert?
    ensures Rank(next) < Rank(pc)
  {
    var commit := NameCommit(pc.purpose, pc.name);
    if pc.purpose == ForRegister then Tell([ToOne(fd, Registered(pc.name))], commit) else commit
  }

  function Commit(s: State, fd: nat, pc: Pc): (r: (State, Pc))
    requires fd in s.clients && pc.NameCommit?
    ensures Rank(r.1) < Rank(pc)
  {
    var NameCommit(purpose, name) := pc;
    match purpose
    case ForNick =>
      var changed := ChangedNick(s.clients[fd].name, name);
      (Rename(s, fd, name), Tell([ToOne(fd, NickChanged(name)), ToAll(changed)], Idle))
    case ForLogin => (SignIn(s, fd, name), Tell([ToOne(fd, LoggedIn(name)), ToAll(Joined(name))], Idle))
    case ForRegister => (SignIn(s, fd, name), Tell([ToAll(Joined(name))], Idle))
  }

  function InsertRoom(s: State, fd: nat, pc: Pc): State
    requires fd in s.clients && pc.RoomInsert?
  {
    var me := s.clients[fd].name;
    var secret := if pc.isPrivate && pc.password != "" then Password.Hash(pc.password, pc.salt) else "";
    s.(rooms := s.rooms[pc.room := ChatRoom(pc.room, me, [me], pc.isPrivate, secret)])
  }

  function AfterRoomFind(s: State, fd: nat, pc: Pc): (next: Pc)
    requires pc.RoomFind?
    ensures Rank(next) < Rank(pc)
  {
    if pc.room !in s.rooms then Answer(fd, RoomUnknown(pc.room))
    else if !s.rooms[pc.room].isPrivate then MemberCheck(pc.room)
    else if pc.password == "" then Answer(fd, RoomPasswordRequired)
    else
      match Password.Verify(pc.password, s.rooms[pc.room].password)
      case Accepted => MemberCheck(pc.room)
      case Rejected => Answer(fd, InvalidRoomPassword)
      case Aborts => Idle
  }

  function AfterKickFind(s: State, fd: nat, pc: Pc): (next: Pc)
    requires pc.KickFind?
    ensures Rank(next) < Rank(pc)
  {
    match Lookup(s, pc.target)
    case None => Answer(fd, UserNotFound(pc.target))
    case Some(t) => Tell([ToOne(t, YouKicked(pc.reason)), ToAll(HasBeenKicked(pc.target, pc.reason))], Leave(t))
  }

  /** One critical section: the state it leaves, and where the thread then stands. */
  ghost function Section(s: State, fd: nat, pc: Pc): (r: (State, Pc))
    requires fd in s.clients
  {
    var me := s.clients[fd].name;
    match pc
    case Idle => (s, Idle)
    case NameCheck(_, _, _, _) => (s, AfterNameCheck(s, fd, pc))
    case UserCheck(_, _, _, _) => (s, AfterUserCheck(s, fd, pc))
    case UserInsert(_, name, password, salt) =>
      (s.(users := s.users[name := Password.Hash(password, salt)]), AfterUserInsert(fd, pc))
    case NameCommit(_, _) => Commit(s, fd, pc)
    case RoomCheck(room, isPrivate, password, salt) =>
      (s, if room in s.rooms then Answer(fd, RoomExists(room)) else RoomInsert(room, isPrivate, password, salt))
    case RoomInsert(room, _, _, _) =>
      (InsertRoom(s, fd, pc), EnterRoom(room, [ToOne(fd, RoomCreated(room)), ToAll(RoomCreatedBy(room, me))]))
    case RoomFind(_, _) => (s, AfterRoomFind(s, fd, pc))
    case MemberCheck(room) =>
      (s, if room in s.rooms && me in s.rooms[room].members then Answer(fd, AlreadyInRoom(room)) else MemberAdd(room))
    case MemberAdd(room) =>
      (JoinMembers(s, room, me), EnterRoom(room, [ToOne(fd, RoomJoined(room)), ToAll(JoinedRoom(me, room))]))
    case QuitErase(left) =>
      (LeaveMembers(s, left, me), Tell([ToAll(LeftRoom(me, left)), ToOne(fd, Goodbye)], Leave(fd)))
    case LeaveErase(left) =>
      (LeaveMembers(s, left, me), EnterRoom("", [ToOne(fd, RoomLeft(left)), ToAll(LeftRoom(me, left))]))
    case EnterRoom(current, outputs) => (Enter(s, fd, current), Tell(outputs, Idle))
    case KickFind(_, _) => (s, AfterKickFind(s, fd, pc))
    case Tell(outputs, next) =>
      if outputs == [] then (s, next) else (Emit(s, outputs[0]), Tell(outputs[1..], next))
    case Leave(leaver) => (Remove(s, leaver), Idle)
    case Whole(line, chance) => (Handle(s, fd, line, chance), Idle)
  }

  /** No command goes on for ever. */
  lemma SectionRank(s: State, fd: nat, pc: Pc)
    requires fd in s.clients && !pc.Idle?
    ensures Rank(Section(s, fd, pc).1) < Rank(pc)
  {
    hide AfterNameCheck, AfterUserCheck, AfterUserInsert, Commit, InsertRoom, AfterRoomFind, AfterKickFind, Emit,
      Remove, Handle, Enter, JoinMembers, LeaveMembers, Password.Hash;
  }

  // ------------------------------------------------------------------ all threads

  /** The shared state and the position of every client's thread. */
  datatype World = World(server: State, threads: map<nat, Pc>)

  function At(w: World, fd: nat): Pc {
    if fd in w.threads then w.threads[fd] else Idle
  }

  datatype Action = Connect(fd: nat) | Close(fd: nat) | Start(fd: nat, line: Message, chance: Chance) | Advance(fd: nat)

  /** A client is taken out only by its own thread, or while that thread is outside a command. */
  ghost predicate Possible(w: World, a: Action) {
    match a
    case Connect(fd) => fd !in w.server.clients && At(w, fd).Idle?
    case Close(fd) => At(w, fd).Idle?
    case Start(fd, _, _) => fd in w.server.clients && At(w, fd).Idle?
    case Advance(fd) =>
      && fd in w.server.clients && !At(w, fd).Idle?
      && (At(w, fd).Leave? ==> At(w, fd).leaver == fd || At(w, At(w, fd).leaver).Idle?)
  }

  ghost function Next(w: World, a: Action): World
    requires Possible(w, a)
  {
    match a
    case Connect(fd) => w.(server := Accept(w.server, fd))
    case Close(fd) => w.(server := Remove(w.server, fd))
    case Start(fd, line, chance) => w.(threads := w.threads[fd := Begin(w.server, fd, line, chance)])
    case Advance(fd) =>
      var (server, pc) := Section(w.server, fd, At(w, fd));
      World(server, w.threads[fd := pc])
  }

  ghost predicate Feasible(w: World, actions: seq<Action>)
    decreases |actions|
  {
    actions == [] || (Possible(w, actions[0]) && Feasible(Next(w, actions[0]), actions[1..]))
  }

  ghost function Play(w: World, actions: seq<Action>): World
    requires Feasible(w, actions)
    decreases |actions|
  {
    if actions == [] then w else Play(Next(w, actions[0]), actions[1..])
  }

  // ------------------------------------------------------------------ what every interleaving keeps

  ghost predicate OwnRooms(rooms: map<string, ChatRoom>) {
    forall r :: r in rooms ==> rooms[r].name == r && rooms[r].members != []
  }

  ghost predicate Steady(s: State) {
    Sound(s.clients, s.index) && OwnRooms(s.rooms)
  }

  /** Index and rooms are right, and every thread inside a command has its client. */
  ghost predicate Safe(w: World) {
    Steady(w.server) && forall fd :: !At(w, fd).Idle? ==> fd in w.server.clients && Sorted(At(w, fd))
  }

  /** The lines that are taken as a whole. */
  predicate OneSection(line: Message) {
    line[0] == '/' ==>
      var c := Parse(line);
      c.Whisper? || c.Mute? || c.Unmute? || c.Unknown? || IsQuery(c)
  }

  predicate Sorted(pc: Pc) {
    match pc
    case Whole(line, _) => OneSection(line)
    case Tell(_, next) => Sorted(next)
    case _ => true
  }

  lemma LeaveSteady(s: State, r: string, name: string)
    requires Steady(s)
    ensures Steady(LeaveMembers(s, r, name))
  {
    hide Sound, Distinct;
  }

  lemma JoinSteady(s: State, r: string, name: string)
    requires Steady(s)
    ensures Steady(JoinMembers(s, r, name))
  {
    hide Sound;
  }

  lemma InsertRoomSteady(s: State, room: ChatRoom)
    requires Steady(s) && room.members != []
    ensures Steady(s.(rooms := s.rooms[room.name := room]))
  {
    hide Sound;
  }

  /** What one section does to the registry: only leaving takes clients away. */
  ghost predicate Kept(s: State, pc: Pc, t: State) {
    Steady(t) && t.clients.Keys == if pc.Leave? then s.clients.Keys - {pc.leaver} else s.clients.Keys
  }

  lemma WholeKept(s: State, fd: nat, line: Message, chance: Chance)
    requires Steady(s) && fd in s.clients && OneSection(line)
    ensures Kept(s, Whole(line, chance), Handle(s, fd, line, chance))
  {
    hide DoMsg, DoPlain, DoWhisper, DoUnknown, DoMute, DoUnmute, DoQuery, Parse, Sound, OwnRooms, StartsWith,
      OnlyMessages;
    MsgKeeps(s, fd, line, chance.now);
    PlainKeeps(s, fd, line, chance);
    OnlyMessagesSteady(s, fd, DoMsg(s, fd, line, chance.now));
    OnlyMessagesSteady(s, fd, DoPlain(s, fd, line, chance));
    if line[0] == '/' {
      var c := Parse(line);
      if c.Whisper? {
        TextsKeep(s, fd, line, c.target, c.text, chance.id);
        OnlyMessagesSteady(s, fd, DoWhisper(s, fd, c.target, c.text, chance.id));
      } else if c.Unknown? {
        TextsKeep(s, fd, line, c.word, "", chance.id);
        OnlyMessagesSteady(s, fd, DoUnknown(s, fd, line, c.word, chance.id));
      } else if c.Mute? {
        MutesSteady(s, fd, c.target, c.time, chance.now);
      } else if c.Unmute? {
        MutesSteady(s, fd, c.target, "", chance.now);
      }
    }
  }

  lemma WholeKeepsUsers(s: State, fd: nat, line: Message, chance: Chance)
    requires fd in s.clients && OneSection(line)
    ensures var t := Handle(s, fd, line, chance); t.users == s.users && t.rooms == s.rooms
  {
    hide DoCommand, DoMsg, DoPlain, Parse, StartsWith, Ignored;
    MsgKeeps(s, fd, line, chance.now);
    PlainKeeps(s, fd, line, chance);
    if line[0] == '/' {
      OthersKeepRecords(s, fd, line, chance);
    }
  }

  lemma OnlyMessagesSteady(s: State, fd: nat, t: State)
    requires Steady(s) && fd in s.clients && OnlyMessages(s, fd, t)
    ensures Steady(t) && t.clients.Keys == s.clients.Keys
  {
    hide Sound, OwnRooms;
    PutSound(s.clients, s.index, fd, s.clients[fd].(muted := false));
  }

  lemma MutesSteady(s: State, fd: nat, target: Bytes, time: Bytes, now: int)
    requires Steady(s) && fd in s.clients
    ensures var t := DoMute(s, fd, target, time, now); Steady(t) && t.clients.Keys == s.clients.Keys
    ensures var t := DoUnmute(s, fd, target, now); Steady(t) && t.clients.Keys == s.clients.Keys
  {
    hide Send, Broadcast, Say, Sound, OwnRooms, MuteMinutes;
    if Lookup(s, target).Some? {
      var t := Lookup(s, target).value;
      PutSound(s.clients, s.index, t, s.clients[t].(muted := true, muteEnd := now + 60 * MuteMinutes(time)));
      PutSound(s.clients, s.index, t, s.clients[t].(muted := false, muteEnd := now));
    }
  }

  lemma CommitSteady(s: State, fd: nat, name: string)
    requires Steady(s) && fd in s.clients
    ensures Kept(s, Idle, Rename(s, fd, name)) && Kept(s, Idle, SignIn(s, fd, name))
  {
    hide Sound, OwnRooms, Rename, SignIn;
    RenameSound(s, fd, name);
    SignInSound(s, fd, name);
  }

  lemma UsersSteady(s: State, users: map<string, string>)
    requires Steady(s)
    ensures Kept(s, Idle, s.(users := users))
  {
    hide Sound, OwnRooms;
  }

  lemma EnterSteady(s: State, fd: nat, current: string)
    requires Steady(s) && fd in s.clients
    ensures Kept(s, Idle, Enter(s, fd, current))
  {
    hide Sound, OwnRooms;
    PutSound(s.clients, s.index, fd, s.clients[fd].(room := current));
  }

  lemma RemoveSteady(s: State, fd: nat)
    requires Steady(s)
    ensures Kept(s, Leave(fd), Remove(s, fd))
  {
    hide Sound, OwnRooms;
    RemoveSound(s, fd);
  }

  lemma EmitSteady(s: State, o: Output)
    requires Steady(s)
    ensures Kept(s, Idle, Emit(s, o))
  {
    hide Sound, OwnRooms, Emit;
  }

  lemma InsertionSteady(s: State, fd: nat, pc: Pc)
    requires Steady(s) && fd in s.clients && pc.RoomInsert?
    ensures Kept(s, Idle, InsertRoom(s, fd, pc))
  {
    hide Steady, Password.Hash;
    var me := s.clients[fd].name;
    var secret := if pc.isPrivate && pc.password != "" then Password.Hash(pc.password, pc.salt) else "";
    InsertRoomSteady(s, ChatRoom(pc.room, me, [me], pc.isPrivate, secret));
  }

  lemma CommittedSteady(s: State, fd: nat, pc: Pc)
    requires Steady(s) && fd in s.clients && pc.NameCommit?
    ensures Kept(s, Idle, Commit(s, fd, pc).0)
  {
    hide Steady, Rename, SignIn;
    CommitSteady(s, fd, pc.name);
  }

  lemma SectionSorted(s: State, fd: nat, pc: Pc)
    requires fd in s.clients && Sorted(pc)
    ensures Sorted(Section(s, fd, pc).1) && (pc.Leave? ==> Section(s, fd, pc).1.Idle?)
  {
    hide InsertRoom, Emit, Remove, Handle, Enter, JoinMembers, LeaveMembers, Password.Hash, Password.Verify, Rename,
      SignIn, Lookup, OneSection, Rank;
  }

  /** Every section keeps index and rooms right, whatever happened since the last one. */
  lemma SectionKept(s: State, fd: nat, pc: Pc)
    requires Steady(s) && fd in s.clients && Sorted(pc)
    ensures Kept(s, pc, Section(s, fd, pc).0)
  {
    hide Steady, Emit, Remove, JoinMembers, LeaveMembers, Handle, Password.Hash, Rank, AfterNameCheck, AfterUserCheck,
      AfterUserInsert, Commit, InsertRoom, AfterRoomFind, AfterKickFind, Enter;
    match pc
    case NameCommit(_, _) => CommittedSteady(s, fd, pc);
    case UserInsert(_, name, password, salt) => UsersSteady(s, s.users[name := Password.Hash(password, salt)]);
    case RoomInsert(_, _, _, _) => InsertionSteady(s, fd, pc);
    case MemberAdd(room) => JoinSteady(s, room, s.clients[fd].name);
    case QuitErase(left) => LeaveSteady(s, left, s.clients[fd].name);
    case LeaveErase(left) => LeaveSteady(s, left, s.clients[fd].name);
    case EnterRoom(current, _) => EnterSteady(s, fd, current);
    case Tell(outputs, next) => if outputs != [] { EmitSteady(s, outputs[0]); }
    case Leave(leaver) => RemoveSteady(s, leaver);
    case Whole(line, chance) => WholeKept(s, fd, line, chance);
    case _ =>
  }

  lemma BeginSorted(s: State, fd: nat, line: Message, chance: Chance)
    requires fd in s.clients
    ensures Sorted(Begin(s, fd, line, chance))
  {
    hide Parse;
  }

  lemma AcceptSteady(s: State, fd: nat)
    requires Steady(s) && fd !in s.clients
    ensures var t := Accept(s, fd); Steady(t) && t.clients.Keys == s.clients.Keys + {fd}
  {
    hide Sound, OwnRooms, GuestName, Say;
    PutSound(s.clients, s.index, fd, Client(GuestName(fd), false, false, false, 0, ""));
  }

  lemma AdvanceSafe(w: World, fd: nat)
    requires Safe(w) && Possible(w, Advance(fd))
    ensures Safe(Next(w, Advance(fd)))
  {
    hide Steady, Section, Sorted;
    var pc, v := At(w, fd), Next(w, Advance(fd));
    SectionKept(w.server, fd, pc);
    SectionSorted(w.server, fd, pc);
    forall g | !At(v, g).Idle? ensures g in v.server.clients && Sorted(At(v, g)) {
      assert g != fd ==> At(v, g) == At(w, g);
      assert pc.Leave? ==> g != fd && g != pc.leaver;
    }
  }

  lemma NextSafe(w: World, a: Action)
    requires Safe(w) && Possible(w, a)
    ensures Safe(Next(w, a))
  {
    hide Steady, Section, Begin, Accept, Remove, Sorted;
    match a
    case Connect(fd) => AcceptSteady(w.server, fd);
    case Close(fd) => RemoveSteady(w.server, fd);
    case Start(fd, line, chance) => BeginSorted(w.server, fd, line, chance);
    case Advance(fd) => AdvanceSafe(w, fd);
  }

  /** Under every interleaving of the client threads, every index entry leads to a connected client
      of that name, and every room stands under its own name and has members. */
  lemma {:induction false} PlaySafe(w: World, actions: seq<Action>)
    requires Safe(w) && Feasible(w, actions)
    ensures Safe(Play(w, actions))
    decreases |actions|
  {
    hide Safe, Next, Possible;
    if actions != [] {
      NextSafe(w, actions[0]);
      PlaySafe(Next(w, actions[0]), actions[1..]);
    }
  }

  /** In particular no entry dangles, and no socket is ever indexed under two names. */
  lemma PlayIndexInjective(w: World, actions: seq<Action>, m: string, n: string)
    requires Safe(w) && Feasible(w, actions)
    ensures var s := Play(w, actions).server;
      && (m in s.index ==> s.index[m] in s.clients)
      && (m in s.index && n in s.index && s.index[m] == s.index[n] ==> m == n)
  {
    hide Feasible, Play, OwnRooms;
    PlaySafe(w, actions);
  }

  /** A server that is right and has no thread inside a command is a safe world to start from. */
  lemma QuietSafe(s: State)
    requires Healthy(s)
    ensures Safe(World(s, map[]))
  {
    hide Sound, Distinct;
  }

  // ------------------------------------------------------------------ undisturbed commands

  /** The sections still to come, one after the other with nothing in between. */
  ghost function Finish(s: State, fd: nat, pc: Pc): State
    requires fd in s.clients
    decreases Rank(pc)
  {
    if pc.Idle? then s
    else
      SectionRank(s, fd, pc);
      var (t, next) := Section(s, fd, pc);
      if fd in t.clients then Finish(t, fd, next) else t
  }

  lemma FinishOne(s: State, fd: nat, pc: Pc, t: State, next: Pc)
    requires fd in s.clients && !pc.Idle? && Section(s, fd, pc) == (t, next) && fd in t.clients
    ensures Finish(s, fd, pc) == Finish(t, fd, next)
  {
    hide Section;
  }

  lemma FinishReply(s: State, fd: nat, o: Output)
    requires fd in s.clients
    ensures Finish(s, fd, Tell([o], Idle)) == Emit(s, o)
  {
    hide Emit, Finish, Section, Rank;
    assert [o] + [] == [o];
    FinishTell(s, fd, o, [], Idle);
    FinishTold(Emit(s, o), fd, Idle);
  }

  lemma SectionOfTell(s: State, fd: nat, o: Output, more: seq<Output>, next: Pc)
    requires fd in s.clients
    ensures Section(s, fd, Tell([o] + more, next)) == (Emit(s, o), Tell(more, next))
  {
    hide Emit, Rank;
    assert ([o] + more)[1..] == more;
  }

  lemma FinishTell(s: State, fd: nat, o: Output, more: seq<Output>, next: Pc)
    requires fd in s.clients
    ensures Finish(s, fd, Tell([o] + more, next)) == Finish(Emit(s, o), fd, Tell(more, next))
  {
    hide Emit, Finish, Section, Rank;
    SectionOfTell(s, fd, o, more, next);
    FinishOne(s, fd, Tell([o] + more, next), Emit(s, o), Tell(more, next));
  }

  lemma FinishTold(s: State, fd: nat, next: Pc)
    requires fd in s.clients
    ensures Finish(s, fd, Tell([], next)) == Finish(s, fd, next)
    ensures Finish(s, fd, Idle) == s
  {
    FinishOne(s, fd, Tell([], next), s, next);
  }

  lemma FinishTwo(s: State, fd: nat, o: Output, p: Output, next: Pc)
    requires fd in s.clients
    ensures Finish(s, fd, Tell([o, p], next)) == Finish(Emit(Emit(s, o), p), fd, next)
    ensures next == Idle ==> Finish(s, fd, Tell([o, p], next)) == Emit(Emit(s, o), p)
  {
    hide Emit, Finish;
    assert [o] + [p] == [o, p] && [p] + [] == [p];
    FinishTell(s, fd, o, [p], next);
    FinishTell(Emit(s, o), fd, p, [], next);
    FinishTold(Emit(Emit(s, o), p), fd, next);
  }

  lemma FinishLeave(s: State, fd: nat, leaver: nat)
    requires fd in s.clients
    ensures Finish(s, fd, Leave(leaver)) == Remove(s, leaver)
  {
    hide Remove;
  }

  lemma SectionOfCommit(s: State, fd: nat, pc: Pc)
    requires fd in s.clients && pc.NameCommit?
    ensures Section(s, fd, pc) == Commit(s, fd, pc)
  {
    hide Commit, Rank;
  }

  lemma FinishLogin(s: State, fd: nat, name: Bytes)
    requires fd in s.clients
    ensures Finish(s, fd, NameCommit(ForLogin, name)) == SignedIn(s, fd, name)
  {
    hide Finish, Section, SignIn, Send, Broadcast, Say, Rank;
    var t, o, p := SignIn(s, fd, name), ToOne(fd, LoggedIn(name)), ToAll(Joined(name));
    SectionOfCommit(s, fd, NameCommit(ForLogin, name));
    FinishOne(s, fd, NameCommit(ForLogin, name), t, Tell([o, p], Idle));
    FinishTwo(t, fd, o, p, Idle);
  }

  lemma FinishRegister(s: State, fd: nat, name: Bytes)
    requires fd in s.clients
    ensures Finish(s, fd, NameCommit(ForRegister, name)) == Broadcast(SignIn(s, fd, name), Say(Joined(name)))
  {
    hide Finish, Section, SignIn, Send, Broadcast, Say, Rank;
    var t, o := SignIn(s, fd, name), ToAll(Joined(name));
    SectionOfCommit(s, fd, NameCommit(ForRegister, name));
    FinishOne(s, fd, NameCommit(ForRegister, name), t, Tell([o], Idle));
    FinishReply(t, fd, o);
  }

  lemma FinishNick(s: State, fd: nat, name: Bytes)
    requires fd in s.clients
    ensures Finish(s, fd, NameCommit(ForNick, name)) ==
      Broadcast(Send(Rename(s, fd, name), fd, Say(NickChanged(name))), Say(ChangedNick(s.clients[fd].name, name)))
  {
    hide Finish, Section, Rename, Send, Broadcast, Say, Rank;
    var t, o, p := Rename(s, fd, name), ToOne(fd, NickChanged(name)), ToAll(ChangedNick(s.clients[fd].name, name));
    SectionOfCommit(s, fd, NameCommit(ForNick, name));
    FinishOne(s, fd, NameCommit(ForNick, name), t, Tell([o, p], Idle));
    FinishTwo(t, fd, o, p, Idle);
  }

  lemma FinishUserInsert(s: State, fd: nat, pc: Pc)
    requires fd in s.clients && pc.UserInsert?
    ensures Finish(s, fd, pc) ==
      Finish(s.(users := s.users[pc.name := Password.Hash(pc.password, pc.salt)]), fd, AfterUserInsert(fd, pc))
  {
    hide Finish, AfterUserInsert, Password.Hash, Rank;
    var t := s.(users := s.users[pc.name := Password.Hash(pc.password, pc.salt)]);
    FinishOne(s, fd, pc, t, AfterUserInsert(fd, pc));
  }

  lemma FinishInsertLogin(s: State, fd: nat, name: Bytes, password: Bytes, salt: Salt)
    requires fd in s.clients
    ensures Finish(s, fd, UserInsert(ForLogin, name, password, salt)) ==
      SignedIn(s.(users := s.users[name := Password.Hash(password, salt)]), fd, name)
  {
    hide Finish, Section, Rank, SignedIn, Password.Hash;
    FinishUserInsert(s, fd, UserInsert(ForLogin, name, password, salt));
    FinishLogin(s.(users := s.users[name := Password.Hash(password, salt)]), fd, name);
  }

  lemma FinishInsertRegister(s: State, fd: nat, name: Bytes, password: Bytes, salt: Salt)
    requires fd in s.clients
    ensures var t := Send(s.(users := s.users[name := Password.Hash(password, salt)]), fd, Say(Registered(name)));
      Finish(s, fd, UserInsert(ForRegister, name, password, salt)) ==
      Broadcast(SignIn(t, fd, name), Say(Joined(name)))
  {
    hide Finish, Section, Rank, SignIn, SignedIn, Send, Broadcast, Say, Password.Hash;
    var t := s.(users := s.users[name := Password.Hash(password, salt)]);
    var o := ToOne(fd, Registered(name));
    FinishUserInsert(s, fd, UserInsert(ForRegister, name, password, salt));
    FinishThen(t, fd, o, NameCommit(ForRegister, name));
    FinishRegister(Emit(t, o), fd, name);
  }

  lemma FinishThen(s: State, fd: nat, o: Output, next: Pc)
    requires fd in s.clients
    ensures Finish(s, fd, Tell([o], next)) == Finish(Emit(s, o), fd, next)
  {
    hide Finish, Emit;
    assert [o] + [] == [o];
    FinishTell(s, fd, o, [], next);
    FinishTold(Emit(s, o), fd, next);
  }

  lemma FinishUserCheck(s: State, fd: nat, pc: Pc)
    requires fd in s.clients && pc.UserCheck?
    ensures Finish(s, fd, pc) == Finish(s, fd, AfterUserCheck(s, fd, pc))
  {
    hide AfterUserCheck, Finish;
    FinishOne(s, fd, pc, s, AfterUserCheck(s, fd, pc));
  }

  lemma FinishNameCheck(s: State, fd: nat, purpose: Purpose, name: Bytes, password: Bytes, salt: Salt)
    requires fd in s.clients
    ensures Finish(s, fd, NameCheck(purpose, name, password, salt)) ==
      if Lookup(s, name).Some? then Send(s, fd, Say(if purpose == ForRegister then NameInUse else NameTaken))
      else if purpose == ForNick then Finish(s, fd, NameCommit(purpose, name))
      else Finish(s, fd, AfterUserCheck(s, fd, UserCheck(purpose, name, password, salt)))
  {
    hide Finish, Send, Say, AfterUserCheck, Lookup, Rank;
    FinishReply(s, fd, ToOne(fd, if purpose == ForRegister then NameInUse else NameTaken));
    FinishUserCheck(s, fd, UserCheck(purpose, name, password, salt));
    var pc := NameCheck(purpose, name, password, salt);
    FinishOne(s, fd, pc, s, AfterNameCheck(s, fd, pc));
  }

  lemma LoginIsAtomic(s: State, fd: nat, name: Bytes, password: Bytes, salt: Salt)
    requires fd in s.clients
    ensures Finish(s, fd, BeginNaming(fd, ForLogin, name, password, salt)) == DoLogin(s, fd, name, password, salt)
  {
    hide Finish, Section, Rank, SignedIn, Send, Say, Password.Hash, Password.Verify, Lookup;
    FinishReply(s, fd, ToOne(fd, LoginUsage));
    FinishReply(s, fd, ToOne(fd, PasswordRequired));
    FinishReply(s, fd, ToOne(fd, InvalidPassword));
    FinishTold(s, fd, Idle);
    FinishLogin(s, fd, name);
    FinishInsertLogin(s, fd, name, password, salt);
    FinishNameCheck(s, fd, ForLogin, name, password, salt);
  }

  lemma RegisterIsAtomic(s: State, fd: nat, name: Bytes, password: Bytes, salt: Salt)
    requires fd in s.clients
    ensures Finish(s, fd, BeginNaming(fd, ForRegister, name, password, salt)) == DoRegister(s, fd, name, password, salt)
  {
    hide Finish, Section, Rank, SignIn, Send, Broadcast, Say, Password.Hash, Password.Verify, Lookup;
    FinishReply(s, fd, ToOne(fd, RegisterUsage));
    FinishReply(s, fd, ToOne(fd, UserExists));
    FinishInsertRegister(s, fd, name, password, salt);
    FinishNameCheck(s, fd, ForRegister, name, password, salt);
  }

  lemma NickIsAtomic(s: State, fd: nat, name: Bytes, salt: Salt)
    requires fd in s.clients
    ensures Finish(s, fd, BeginNaming(fd, ForNick, name, "", salt)) == DoNick(s, fd, name)
  {
    hide Finish, Section, Rank, Rename, Send, Broadcast, Say, Lookup;
    FinishReply(s, fd, ToOne(fd, NickUsage));
    FinishNick(s, fd, name);
    FinishNameCheck(s, fd, ForNick, name, "", salt);
  }

  lemma FinishQuitErase(s: State, fd: nat, left: string)
    requires fd in s.clients
    ensures var me := s.clients[fd].name;
      Finish(s, fd, QuitErase(left)) ==
      Finish(LeaveMembers(s, left, me), fd, Tell([ToAll(LeftRoom(me, left)), ToOne(fd, Goodbye)], Leave(fd)))
  {
    hide Finish, LeaveMembers, Rank;
    var me := s.clients[fd].name;
    var next := Tell([ToAll(LeftRoom(me, left)), ToOne(fd, Goodbye)], Leave(fd));
    FinishOne(s, fd, QuitErase(left), LeaveMembers(s, left, me), next);
  }

  lemma QuitIsAtomic(s: State, fd: nat)
    requires fd in s.clients
    ensures Finish(s, fd, BeginQuit(fd, s.clients[fd].room)) == DoQuit(s, fd)
  {
    hide Finish, Section, Rank, Send, Broadcast, Say, LeaveMembers, Remove;
    var c := s.clients[fd];
    var goodbye := ToOne(fd, Goodbye);
    if c.room == "" {
      FinishThen(s, fd, goodbye, Leave(fd));
      FinishLeave(Emit(s, goodbye), fd, fd);
    } else {
      var t, left := LeaveMembers(s, c.room, c.name), ToAll(LeftRoom(c.name, c.room));
      FinishQuitErase(s, fd, c.room);
      FinishTwo(t, fd, left, goodbye, Leave(fd));
      FinishLeave(Emit(Emit(t, left), goodbye), fd, fd);
    }
  }

  lemma FinishEnter(s: State, fd: nat, current: string, o: Output, p: Output)
    requires fd in s.clients
    ensures Finish(s, fd, EnterRoom(current, [o, p])) == Emit(Emit(Enter(s, fd, current), o), p)
  {
    hide Finish, Emit, Enter;
    EnterStays(s, fd, current);
    FinishOne(s, fd, EnterRoom(current, [o, p]), Enter(s, fd, current), Tell([o, p], Idle));
    FinishTwo(Enter(s, fd, current), fd, o, p, Idle);
  }

  lemma EnterStays(s: State, fd: nat, current: string)
    requires fd in s.clients
    ensures fd in Enter(s, fd, current).clients
  {
  }

  lemma CreateRoomIsAtomic(s: State, fd: nat, room: Bytes, isPrivate: bool, password: Bytes, salt: Salt)
    requires fd in s.clients
    ensures Finish(s, fd, BeginCreateRoom(fd, room, isPrivate, password, salt)) ==
      DoCreateRoom(s, fd, room, isPrivate, password, salt)
  {
    hide Finish, Rank, Send, Broadcast, Say, Password.Hash, Enter;
    var me := s.clients[fd].name;
    if room == "" {
      FinishReply(s, fd, ToOne(fd, CreateRoomUsage));
    } else if room in s.rooms {
      FinishOne(s, fd, RoomCheck(room, isPrivate, password, salt), s, Answer(fd, RoomExists(room)));
      FinishReply(s, fd, ToOne(fd, RoomExists(room)));
    } else {
      var pc := RoomInsert(room, isPrivate, password, salt);
      FinishOne(s, fd, RoomCheck(room, isPrivate, password, salt), s, pc);
      var t := Section(s, fd, pc).0;
      var o, p := ToOne(fd, RoomCreated(room)), ToAll(RoomCreatedBy(room, me));
      FinishOne(s, fd, pc, t, EnterRoom(room, [o, p]));
      FinishEnter(t, fd, room, o, p);
    }
  }

  lemma FinishMemberCheck(s: State, fd: nat, room: Bytes)
    requires fd in s.clients && room in s.rooms
    ensures var me := s.clients[fd].name;
      Finish(s, fd, MemberCheck(room)) ==
      if me in s.rooms[room].members then Send(s, fd, Say(AlreadyInRoom(room)))
      else
        var t := Send(Enter(JoinMembers(s, room, me), fd, room), fd, Say(RoomJoined(room)));
        Broadcast(t, Say(JoinedRoom(me, room)))
  {
    hide Finish, Send, Broadcast, Say, Enter, JoinMembers;
    var me := s.clients[fd].name;
    if me in s.rooms[room].members {
      FinishOne(s, fd, MemberCheck(room), s, Answer(fd, AlreadyInRoom(room)));
      FinishReply(s, fd, ToOne(fd, AlreadyInRoom(room)));
    } else {
      FinishOne(s, fd, MemberCheck(room), s, MemberAdd(room));
      var t := JoinMembers(s, room, me);
      var o, p := ToOne(fd, RoomJoined(room)), ToAll(JoinedRoom(me, room));
      FinishOne(s, fd, MemberAdd(room), t, EnterRoom(room, [o, p]));
      FinishEnter(t, fd, room, o, p);
    }
  }

  lemma JoinRoomIsAtomic(s: State, fd: nat, room: Bytes, password: Bytes)
    requires fd in s.clients
    ensures Finish(s, fd, BeginJoinRoom(fd, room, password)) == DoJoinRoom(s, fd, room, password)
  {
    hide Finish, Send, Broadcast, Say, Password.Verify, Enter, JoinMembers;
    FinishReply(s, fd, ToOne(fd, JoinRoomUsage));
    FinishOne(s, fd, RoomFind(room, password), s, AfterRoomFind(s, fd, RoomFind(room, password)));
    FinishReply(s, fd, ToOne(fd, RoomUnknown(room)));
    FinishReply(s, fd, ToOne(fd, RoomPasswordRequired));
    FinishReply(s, fd, ToOne(fd, InvalidRoomPassword));
    FinishTold(s, fd, Idle);
    if room in s.rooms {
      FinishMemberCheck(s, fd, room);
    }
  }

  lemma LeaveRoomIsAtomic(s: State, fd: nat)
    requires fd in s.clients
    ensures Finish(s, fd, BeginLeaveRoom(fd, s.clients[fd].room)) == DoLeaveRoom(s, fd)
  {
    hide Finish, Send, Broadcast, Say, Enter, LeaveMembers;
    FinishReply(s, fd, ToOne(fd, NotInRoom));
    var c := s.clients[fd];
    var t := LeaveMembers(s, c.room, c.name);
    var o, p := ToOne(fd, RoomLeft(c.room)), ToAll(LeftRoom(c.name, c.room));
    FinishOne(s, fd, LeaveErase(c.room), t, EnterRoom("", [o, p]));
    FinishEnter(t, fd, "", o, p);
  }

  lemma FinishKickFind(s: State, fd: nat, pc: Pc)
    requires fd in s.clients && pc.KickFind?
    ensures Finish(s, fd, pc) == Finish(s, fd, AfterKickFind(s, fd, pc))
  {
    hide AfterKickFind, Finish;
    FinishOne(s, fd, pc, s, AfterKickFind(s, fd, pc));
  }

  lemma KickIsAtomic(s: State, fd: nat, target: Bytes, reason: Bytes)
    requires fd in s.clients
    ensures Finish(s, fd, BeginKick(fd, s.clients[fd].admin, target, reason)) == DoKick(s, fd, target, reason)
  {
    hide Finish, Section, Rank, Send, Broadcast, Say, Lookup, Remove;
    if !s.clients[fd].admin {
      FinishReply(s, fd, ToOne(fd, AdminRequired));
    } else if target == "" {
      FinishReply(s, fd, ToOne(fd, KickUsage));
    } else {
      FinishKickFind(s, fd, KickFind(target, reason));
      var found := Lookup(s, target);
      if found.None? {
        FinishReply(s, fd, ToOne(fd, UserNotFound(target)));
      } else {
        var t := found.value;
        var o, p := ToOne(t, YouKicked(reason)), ToAll(HasBeenKicked(target, reason));
        FinishTwo(s, fd, o, p, Leave(t));
        FinishLeave(Emit(Emit(s, o), p), fd, t);
      }
    }
  }

  lemma WholeIsAtomic(s: State, fd: nat, line: Message, chance: Chance)
    requires fd in s.clients
    ensures Finish(s, fd, Whole(line, chance)) == Handle(s, fd, line, chance)
  {
    hide Handle;
  }

  /** With nothing in between, the sections of a command do what the command does as one step. */
  lemma SectionsAreStep(s: State, fd: nat, line: Message, chance: Chance)
    requires fd in s.clients
    ensures Finish(s, fd, Begin(s, fd, line, chance)) == Step(s, Received(fd, line, chance))
  {
    hide Finish, Section, Rank, Parse, DoLogin, DoRegister, DoWhisper, DoQuit, DoNick, DoCreateRoom, DoJoinRoom,
      DoLeaveRoom, DoMute, DoUnmute, DoKick, DoUnknown, DoQuery, DoMsg, DoPlain, StartsWith;
    WholeIsAtomic(s, fd, line, chance);
    if line[0] == '/' {
      CommandIsAtomic(s, fd, line, chance);
    }
  }

  lemma CommandIsAtomic(s: State, fd: nat, line: Message, chance: Chance)
    requires fd in s.clients && line[0] == '/'
    ensures Finish(s, fd, Begin(s, fd, line, chance)) == DoCommand(s, fd, line, chance)
  {
    hide Finish, Section, Rank, Parse, DoLogin, DoRegister, DoWhisper, DoQuit, DoNick, DoCreateRoom, DoJoinRoom,
      DoLeaveRoom, DoMute, DoUnmute, DoKick, DoUnknown, DoQuery, BeginNaming, BeginQuit, BeginCreateRoom,
      BeginJoinRoom, BeginLeaveRoom, BeginKick, DoMsg, DoPlain, StartsWith, Ignored;
    var c := Parse(line);
    if c.Login? {
      LoginIsAtomic(s, fd, c.name, c.password, chance.salt);
    } else if c.Register? {
      RegisterIsAtomic(s, fd, c.name, c.password, chance.salt);
    } else if c.Nick? {
      NickIsAtomic(s, fd, c.name, chance.salt);
    } else if c.Quit? {
      QuitIsAtomic(s, fd);
    } else {
      RoomCommandIsAtomic(s, fd, line, chance);
    }
  }

  lemma RoomCommandIsAtomic(s: State, fd: nat, line: Message, chance: Chance)
    requires fd in s.clients && line[0] == '/'
    requires var c := Parse(line); !c.Login? && !c.Register? && !c.Nick? && !c.Quit?
    ensures Finish(s, fd, Begin(s, fd, line, chance)) == DoCommand(s, fd, line, chance)
  {
    hide Finish, Section, Rank, Parse, DoLogin, DoRegister, DoWhisper, DoQuit, DoNick, DoCreateRoom, DoJoinRoom,
      DoLeaveRoom, DoMute, DoUnmute, DoKick, DoUnknown, DoQuery, BeginNaming, BeginQuit, BeginCreateRoom, BeginJoinRoom,
      BeginLeaveRoom, BeginKick, DoMsg, DoPlain, StartsWith, Ignored;
    WholeIsAtomic(s, fd, line, chance);
    var c := Parse(line);
    if c.CreateRoom? {
      CreateRoomIsAtomic(s, fd, c.name, c.isPrivate, c.password, chance.salt);
    } else if c.JoinRoom? {
      JoinRoomIsAtomic(s, fd, c.name, c.password);
    } else if c.LeaveRoom? {
      LeaveRoomIsAtomic(s, fd);
    } else if c.Kick? {
      KickIsAtomic(s, fd, c.target, c.reason);
    }
  }
}
