/** The state of `ChatServer` and what accepting, removing and every received line do to it. */
module Server {
  import opened Text
  import opened Numbers
  import opened Wire
  import opened Commands
  import opened History
  import opened Framing
  import opened Replies
  import FileTransfer
  import Password
  import Emoji

  // ------------------------------------------------------------------ state

  /** `ClientInfo`; `room` is empty outside every chat room. */
  datatype Client = Client(name: string, loggedIn: bool, admin: bool, muted: bool, muteEnd: int, room: string)

  datatype ChatRoom = ChatRoom(name: string, creator: string, members: seq<string>, isPrivate: bool, password: string)

  /** `clients_`, `name_to_socket_`, `users_`, `rooms_` and both histories; `log` remembers every
      message ever stored, and `sent` what was written to each connected socket. */
  datatype State = State(
    clients: map<nat, Client>,
    index: map<string, nat>,
    users: map<string, string>,
    rooms: map<string, ChatRoom>,
    history: Store,
    log: seq<ChatMessage>,
    sent: map<nat, seq<string>>)

  const START := State(map[], map[], map[], map[], EMPTY, [], map[])

  /** A framed line: not empty, one byte per character, no newline. */
  type Message = s: Bytes | s != "" && Free(s, NL) witness "x"

  /** The salt and the message id are random, and the clock is read when needed. */
  type Salt = s: Bytes | |s| == 16 witness "0123456789abcdef"

  predicate Alphanumeric(c: char) {
    'a' <= c <= 'z' || 'A' <= c <= 'Z' || '0' <= c <= '9'
  }

  type Id = s: string | |s| == 16 && (forall i :: 0 <= i < 16 ==> Alphanumeric(s[i])) witness "0123456789abcdef"

  /** What a line meets outside the server's state: random bytes, the clock, the orders in which the
      hash tables are iterated over, printed timestamps, and the file it names, if it can be opened. */
  datatype Chance = Chance(
    salt: Salt, id: Id, now: int, clientOrder: seq<nat>, roomOrder: seq<string>, stamps: seq<string>,
    file: Option<Bytes>)

  // ------------------------------------------------------------------ lookups

  function Out(s: State, fd: nat): seq<string> {
    if fd in s.sent then s.sent[fd] else []
  }

  /** `getClientByName`: through the index, as a socket. */
  function Lookup(s: State, name: string): Option<nat> {
    if name in s.index && s.index[name] in s.clients then Some(s.index[name]) else None
  }

  // ------------------------------------------------------------------ updates

  /** Writing to a socket that is no longer connected is lost. */
  function Send(s: State, fd: nat, text: string): (t: State)
    ensures t == s.(sent := t.sent)
  {
    if fd in s.clients then s.(sent := s.sent[fd := Out(s, fd) + [text]]) else s
  }

  function Broadcast(s: State, text: string): (t: State)
    ensures t == s.(sent := t.sent)
  {
    s.(sent := s.sent + map fd | fd in s.clients :: Out(s, fd) + [text])
  }

  /** Room delivery: to the indexed socket of each member in turn. */
  function Deliver(s: State, members: seq<string>, text: string): (t: State)
    ensures t == s.(sent := t.sent)
  {
    if members == [] then s
    else
      var before, m := Deliver(s, members[..|members| - 1], text), members[|members| - 1];
      if m in s.index then Send(before, s.index[m], text) else before
  }

  /** The sockets the members are indexed to, collected before anything is written. */
  function Sockets(index: map<string, nat>, members: seq<string>): seq<nat> {
    if members == [] then []
    else
      var front, m := Sockets(index, members[..|members| - 1]), members[|members| - 1];
      if m in index then front + [index[m]] else front
  }

  function SendEach(s: State, sockets: seq<nat>, text: string): (t: State)
    ensures t == s.(sent := t.sent)
  {
    if sockets == [] then s else Send(SendEach(s, sockets[..|sockets| - 1], text), sockets[|sockets| - 1], text)
  }

  function SendTexts(s: State, sockets: seq<nat>, texts: seq<string>): (t: State)
    ensures t == s.(sent := t.sent)
  {
    if texts == [] then s else SendEach(SendTexts(s, sockets, texts[..|texts| - 1]), sockets, texts[|texts| - 1])
  }

  function Record(s: State, m: ChatMessage): (t: State)
    ensures t == s.(history := t.history, log := s.log + [m])
  {
    s.(history := Add(s.history, m), log := s.log + [m])
  }

  function PutClient(s: State, fd: nat, c: Client): State {
    s.(clients := s.clients[fd := c])
  }

  /** The index loses whatever entry the old name has and gains the new one. */
  function Rename(s: State, fd: nat, name: string): (t: State)
    requires fd in s.clients
    ensures t == s.(clients := t.clients, index := t.index) && t.clients.Keys == s.clients.Keys
  {
    var c := s.clients[fd];
    s.(index := (s.index - {c.name})[name := fd], clients := s.clients[fd := c.(name := name)])
  }

  function SignIn(s: State, fd: nat, name: string): (t: State)
    requires fd in s.clients
    ensures t == s.(clients := t.clients, index := t.index) && t.clients.Keys == s.clients.Keys
  {
    var t := Rename(s, fd, name);
    var c := t.clients[fd];
    PutClient(t, fd, c.(loggedIn := true, admin := c.admin || |s.users| == 1))
  }

  /** `removeClient`. */
  function Remove(s: State, fd: nat): (t: State)
    ensures t == s.(clients := t.clients, index := t.index)
  {
    if fd in s.clients then s.(index := s.index - {s.clients[fd].name}, clients := s.clients - {fd}) else s
  }

  function Without(members: seq<string>, name: string): (r: seq<string>)
    ensures forall i :: 0 <= i < |r| ==> r[i] in members && r[i] != name
    ensures forall m :: m in members && m != name ==> m in r
    ensures Distinct(members) ==> Distinct(r)
  {
    if members == [] then []
    else
      var front, last := Without(members[..|members| - 1], name), members[|members| - 1];
      if last == name then front else front + [last]
  }

  /** Taking a member out; a room left empty goes away. */
  function LeaveMembers(s: State, r: string, name: string): (t: State)
    ensures t == s.(rooms := t.rooms)
  {
    if r !in s.rooms then s
    else
      var rest := Without(s.rooms[r].members, name);
      if rest == [] then s.(rooms := s.rooms - {r})
      else s.(rooms := s.rooms[r := s.rooms[r].(members := rest)])
  }

  function JoinMembers(s: State, r: string, name: string): (t: State)
    ensures t == s.(rooms := t.rooms)
  {
    if r !in s.rooms then s else s.(rooms := s.rooms[r := s.rooms[r].(members := s.rooms[r].members + [name])])
  }

  function Enter(s: State, fd: nat, r: string): State
    requires fd in s.clients
  {
    PutClient(s, fd, s.clients[fd].(room := r))
  }

  // ------------------------------------------------------------------ connections

  function GuestName(fd: nat): Bytes {
    "Guest_" + NatToString(fd)
  }

  function Accept(s: State, fd: nat): State {
    s.(clients := s.clients[fd := Client(GuestName(fd), false, false, false, 0, "")],
       sent := s.sent[fd := [Say(Welcome)]])
  }

  // ------------------------------------------------------------------ account commands

  function SignedIn(s: State, fd: nat, name: string): (t: State)
    requires fd in s.clients
    ensures t == s.(clients := t.clients, index := t.index, sent := t.sent) && t.clients.Keys == s.clients.Keys
  {
    Broadcast(Send(SignIn(s, fd, name), fd, Say(LoggedIn(name))), Say(Joined(name)))
  }

  function DoLogin(s: State, fd: nat, name: Bytes, password: Bytes, salt: Salt): State
    requires fd in s.clients
  {
    if name == "" then Send(s, fd, Say(LoginUsage))
    else if Lookup(s, name).Some? then Send(s, fd, Say(NameTaken))
    else if name in s.users then
      if password == "" then Send(s, fd, Say(PasswordRequired))
      else
        match Password.Verify(password, s.users[name])
        case Accepted => SignedIn(s, fd, name)
        case Rejected => Send(s, fd, Say(InvalidPassword))
        case Aborts => s
    else if password == "" then SignedIn(s, fd, name)
    else SignedIn(s.(users := s.users[name := Password.Hash(password, salt)]), fd, name)
  }

  function DoRegister(s: State, fd: nat, name: Bytes, password: Bytes, salt: Salt): State
    requires fd in s.clients
  {
    if name == "" || password == "" then
      Send(s, fd, Say(RegisterUsage))
    else if Lookup(s, name).Some? then Send(s, fd, Say(NameInUse))
    else if name in s.users then Send(s, fd, Say(UserExists))
    else
      var t := s.(users := s.users[name := Password.Hash(password, salt)]);
      var u := Send(t, fd, Say(Registered(name)));
      Broadcast(SignIn(u, fd, name), Say(Joined(name)))
  }

  function DoNick(s: State, fd: nat, name: Bytes): State
    requires fd in s.clients
  {
    if name == "" then Send(s, fd, Say(NickUsage))
    else if Lookup(s, name).Some? then Send(s, fd, Say(NameTaken))
    else
      var t := Send(Rename(s, fd, name), fd, Say(NickChanged(name)));
      Broadcast(t, Say(ChangedNick(s.clients[fd].name, name)))
  }

  function DoQuit(s: State, fd: nat): State
    requires fd in s.clients
  {
    var c := s.clients[fd];
    var t := if c.room == "" then s
             else Broadcast(LeaveMembers(s, c.room, c.name), Say(LeftRoom(c.name, c.room)));
    Remove(Send(t, fd, Say(Goodbye)), fd)
  }

  // ------------------------------------------------------------------ administration

  function DoMute(s: State, fd: nat, target: Bytes, time: Bytes, now: int): State
    requires fd in s.clients
  {
    if !s.clients[fd].admin then Send(s, fd, Say(AdminRequired))
    else if target == "" then Send(s, fd, Say(MuteUsage))
    else
      match Lookup(s, target)
      case None => Send(s, fd, Say(UserNotFound(target)))
      case Some(t) =>
        var minutes := MuteMinutes(time);
        var u := PutClient(s, t, s.clients[t].(muted := true, muteEnd := now + 60 * minutes));
        var v := Send(u, fd, Say(Muted(target, minutes)));
        Broadcast(Send(v, t, Say(YouMuted(minutes))), Say(HasBeenMuted(target, minutes)))
  }

  function MuteMinutes(time: Bytes): (m: int)
    ensures 1 <= m <= 60
  {
    match if time == "" then None else Stoi(time, 10)
    case None => 10
    case Some(v) => if v < 1 then 1 else if v > 60 then 60 else v
  }

  function DoUnmute(s: State, fd: nat, target: Bytes, now: int): State
    requires fd in s.clients
  {
    if !s.clients[fd].admin then Send(s, fd, Say(AdminRequired))
    else if target == "" then Send(s, fd, Say(UnmuteUsage))
    else
      match Lookup(s, target)
      case None => Send(s, fd, Say(UserNotFound(target)))
      case Some(t) =>
        var u := PutClient(s, t, s.clients[t].(muted := false, muteEnd := now));
        var v := Send(u, fd, Say(Unmuted(target)));
        Broadcast(Send(v, t, Say(YouUnmuted)), Say(HasBeenUnmuted(target)))
  }

  function DoKick(s: State, fd: nat, target: Bytes, reason: Bytes): State
    requires fd in s.clients
  {
    if !s.clients[fd].admin then Send(s, fd, Say(AdminRequired))
    else if target == "" then Send(s, fd, Say(KickUsage))
    else
      match Lookup(s, target)
      case None => Send(s, fd, Say(UserNotFound(target)))
      case Some(t) =>
        var u := Send(s, t, Say(YouKicked(reason)));
        Remove(Broadcast(u, Say(HasBeenKicked(target, reason))), t)
  }

  // ------------------------------------------------------------------ room commands

  function DoCreateRoom(s: State, fd: nat, name: Bytes, isPrivate: bool, password: Bytes, salt: Salt): State
    requires fd in s.clients
  {
    if name == "" then
      Send(s, fd, Say(CreateRoomUsage))
    else if name in s.rooms then Send(s, fd, Say(RoomExists(name)))
    else
      var me := s.clients[fd].name;
      var secret := if isPrivate && password != "" then Password.Hash(password, salt) else "";
      var t := Enter(s.(rooms := s.rooms[name := ChatRoom(name, me, [me], isPrivate, secret)]), fd, name);
      Broadcast(Send(t, fd, Say(RoomCreated(name))), Say(RoomCreatedBy(name, me)))
  }

  function DoJoinRoom(s: State, fd: nat, name: Bytes, password: Bytes): State
    requires fd in s.clients
  {
    if name == "" then Send(s, fd, Say(JoinRoomUsage))
    else if name !in s.rooms then Send(s, fd, Say(RoomUnknown(name)))
    else if s.rooms[name].isPrivate && password == "" then Send(s, fd, Say(RoomPasswordRequired))
    else
      match if s.rooms[name].isPrivate then Password.Verify(password, s.rooms[name].password) else Password.Accepted
      case Aborts => s
      case Rejected => Send(s, fd, Say(InvalidRoomPassword))
      case Accepted =>
        var me := s.clients[fd].name;
        if me in s.rooms[name].members then Send(s, fd, Say(AlreadyInRoom(name)))
        else
          var t := Send(Enter(JoinMembers(s, name, me), fd, name), fd, Say(RoomJoined(name)));
          Broadcast(t, Say(JoinedRoom(me, name)))
  }

  function DoLeaveRoom(s: State, fd: nat): State
    requires fd in s.clients
  {
    var c := s.clients[fd];
    if c.room == "" then Send(s, fd, Say(NotInRoom))
    else
      var t := Send(Enter(LeaveMembers(s, c.room, c.name), fd, ""), fd, Say(RoomLeft(c.room)));
      Broadcast(t, Say(LeftRoom(c.name, c.room)))
  }

  // ------------------------------------------------------------------ messages

  /** A muted client is let through once its time is over, and then no longer muted. */
  predicate Silenced(s: State, fd: nat, now: int)
    requires fd in s.clients
  {
    s.clients[fd].muted && now <= s.clients[fd].muteEnd
  }

  function Unsilence(s: State, fd: nat): State
    requires fd in s.clients
  {
    PutClient(s, fd, s.clients[fd].(muted := false))
  }

  /** A `MSG` line: relayed as received, that is without a newline, to one client or a room;
      every other type is encoded again for all. */
  function DoMsg(s: State, fd: nat, line: Message, now: int): State
    requires fd in s.clients
  {
    match Decode(line)
    case None => Send(s, fd, Say(InvalidMessage))
    case Some(m) =>
      if !s.clients[fd].loggedIn then Send(s, fd, Say(LoginFirst))
      else if Silenced(s, fd, now) then Send(s, fd, Say(StillMuted))
      else Relay(Unsilence(s, fd), fd, line, m)
  }

  function Relay(s: State, fd: nat, line: Message, m: ChatMessage): State {
    if m.kind == PRIVATE then
      var t := match Lookup(s, m.receiver)
               case Some(target) => Send(s, target, line)
               case None => Send(s, fd, Say(NoReceiver(m.receiver)));
      Record(t, m)
    else if m.kind == ROOM_MESSAGE then
      if m.receiver in s.rooms then Record(Deliver(s, s.rooms[m.receiver].members, line), m)
      else Send(s, fd, Say(NoRoom(m.receiver)))
    else Record(Broadcast(s, Encode(m)), m)
  }

  /** The message made of a typed text. */
  ghost function Typed(s: State, fd: nat, receiver: string, kind: Int32, text: Bytes, id: Id): ChatMessage
    requires fd in s.clients
  {
    ChatMessage(s.clients[fd].name, receiver, kind, Emoji.Substitute(Emoji.EMOJIS, text), id)
  }

  ghost function DoPlain(s: State, fd: nat, line: Message, chance: Chance): State
    requires fd in s.clients
  {
    if !s.clients[fd].loggedIn then Send(s, fd, Say(LoginFirst))
    else if Silenced(s, fd, chance.now) then Send(s, fd, Say(StillMuted))
    else
      var t := Unsilence(s, fd);
      var r := s.clients[fd].room;
      if r == "" then
        var m := Typed(s, fd, "", BROADCAST, line, chance.id);
        Broadcast(Record(t, m), Encode(m))
      else if r in s.rooms then
        var m := Typed(s, fd, r, ROOM_MESSAGE, line, chance.id);
        Record(Deliver(t, s.rooms[r].members, Encode(m)), m)
      else Send(t, fd, Say(NoRoom(r)))
  }

  ghost function DoWhisper(s: State, fd: nat, target: Bytes, text: Bytes, id: Id): State
    requires fd in s.clients
  {
    if target == "" || text == "" then
      Send(s, fd, Say(WhisperUsage))
    else
      match Lookup(s, target)
      case None => Send(s, fd, Say(UserNotFound(target)))
      case Some(t) =>
        var m := Typed(s, fd, target, PRIVATE, text, id);
        Send(Send(Record(s, m), t, Encode(m)), fd, Encode(m))
  }

  /** An unknown command is a room message for those in a room, stored before it is sent. */
  ghost function DoUnknown(s: State, fd: nat, line: Message, word: Bytes, id: Id): State
    requires fd in s.clients
  {
    var r := s.clients[fd].room;
    if r == "" then Send(s, fd, Say(UnknownCommand(word)))
    else
      var m := Typed(s, fd, r, ROOM_MESSAGE, line, id);
      var t := Record(s, m);
      if r in s.rooms then Deliver(t, s.rooms[r].members, Encode(m)) else t
  }

  // ------------------------------------------------------------------ queries and files

  /** The names `/users` collects while iterating over the clients in some order. */
  function UserNames(clients: map<nat, Client>, order: seq<nat>): seq<string> {
    if order == [] then []
    else
      var front, fd := UserNames(clients, order[..|order| - 1]), order[|order| - 1];
      if fd in clients && clients[fd].loggedIn then front + [clients[fd].name] else front
  }

  function RoomNames(rooms: map<string, ChatRoom>, order: seq<string>): seq<string> {
    if order == [] then []
    else
      var front, r := RoomNames(rooms, order[..|order| - 1]), order[|order| - 1];
      if r in rooms then front + [r] else front
  }

  function Fields(names: seq<string>): string {
    if names == [] then "" else Fields(names[..|names| - 1]) + "|" + names[|names| - 1]
  }

  function UserList(names: seq<string>): string {
    "USERS|" + NatToString(|names|) + Fields(names) + "\n"
  }

  function RoomList(names: seq<string>): string {
    "ROOM_LIST|" + NatToString(|names|) + "\n" + Terminated(names)
  }

  function MemberList(room: string, members: seq<string>): string {
    "ROOM_MEMBERS|" + room + "|" + NatToString(|members|) + "\n" + Terminated(members)
  }

  function Members(s: State, r: string): seq<string> {
    if r in s.rooms then s.rooms[r].members else []
  }

  /** The printed time of the i-th message. */
  function Stamp(stamps: seq<string>, i: nat): string {
    if i < |stamps| then stamps[i] else ""
  }

  function ShownText(m: ChatMessage, stamp: string): string {
    "[" + stamp + "] " + m.sender + ": " + m.content
  }

  function Shown(ms: seq<ChatMessage>, stamps: seq<string>): seq<string> {
    seq(|ms|, i requires 0 <= i < |ms| => Say(HistoryLine(ShownText(ms[i], Stamp(stamps, i)))))
  }

  function ShownHistory(s: State, argument: Bytes, stamps: seq<string>): seq<string> {
    [Say(HistoryHeader)] + Shown(LastN(s.history.all, Count(argument)), stamps)
  }

  function ShownRoomHistory(s: State, r: string, argument: Bytes, stamps: seq<string>): seq<string> {
    [Say(RoomHistoryHeader)] + Shown(LastN(Room(s.history, r), Count(argument)), stamps)
  }

  function DoTransfer(s: State, fd: nat, path: Bytes, target: Bytes, file: Option<Bytes>): (t: State)
    requires fd in s.clients
    ensures t == s.(sent := t.sent)
  {
    if path == "" || target == "" then Send(s, fd, Say(TransferUsage))
    else
      match Lookup(s, target)
      case None => Send(s, fd, Say(UserNotFound(target)))
      case Some(k) =>
        if file.None? then Send(s, fd, Say(CannotOpen(path)))
        else
          var name := FileTransfer.FileName(path);
          var texts := FileTransfer.FileTexts(s.clients[fd].name, target, name, file.value);
          Send(SendTexts(s, [k], texts), fd, Say(TransferStarted(name)))
  }

  function DoShareFile(s: State, fd: nat, path: Bytes, file: Option<Bytes>): (t: State)
    requires fd in s.clients
    ensures t == s.(sent := t.sent)
  {
    var r := s.clients[fd].room;
    if path == "" then Send(s, fd, Say(FileUsage))
    else if r == "" then Send(s, fd, Say(NotInRoom))
    else if file.None? then Send(s, fd, Say(CannotOpen(path)))
    else
      var name := FileTransfer.FileName(path);
      var texts := FileTransfer.FileTexts(s.clients[fd].name, r, name, file.value);
      Send(SendTexts(s, Sockets(s.index, Members(s, r)), texts), fd, Say(FileSent(name)))
  }

  /** Queries change nothing but the output. */
  function DoQuery(s: State, fd: nat, command: Command, chance: Chance): (t: State)
    requires fd in s.clients && IsQuery(command)
    ensures t == s.(sent := t.sent)
  {
    var r := s.clients[fd].room;
    match command
    case ShowUsers => Send(s, fd, UserList(UserNames(s.clients, chance.clientOrder)))
    case ShowRooms => Send(s, fd, RoomList(RoomNames(s.rooms, chance.roomOrder)))
    case ShowMembers =>
      if r == "" then Send(s, fd, Say(NotInRoom)) else Send(s, fd, MemberList(r, Members(s, r)))
    case Help => Send(s, fd, Say(HelpText))
    case Info => Send(s, fd, Say(InfoText(|s.clients|)))
    case ShowHistory(argument) => SendTexts(s, [fd], ShownHistory(s, argument, chance.stamps))
    case ShowRoomHistory(argument) =>
      if r == "" then Send(s, fd, Say(NotInRoom))
      else SendTexts(s, [fd], ShownRoomHistory(s, r, argument, chance.stamps))
    case Transfer(path, target) => DoTransfer(s, fd, path, target, chance.file)
    case ShareFile(path) => DoShareFile(s, fd, path, chance.file)
  }

  // ------------------------------------------------------------------ one event

  datatype Event = Connected(fd: nat) | Received(fd: nat, line: Message, chance: Chance) | Disconnected(fd: nat)

  ghost function DoCommand(s: State, fd: nat, line: Message, chance: Chance): State
    requires fd in s.clients
  {
    match Parse(line)
    case Login(name, password) => DoLogin(s, fd, name, password, chance.salt)
    case Register(name, password) => DoRegister(s, fd, name, password, chance.salt)
    case Whisper(target, text) => DoWhisper(s, fd, target, text, chance.id)
    case Quit => DoQuit(s, fd)
    case Nick(name) => DoNick(s, fd, name)
    case CreateRoom(name, isPrivate, password) => DoCreateRoom(s, fd, name, isPrivate, password, chance.salt)
    case JoinRoom(name, password) => DoJoinRoom(s, fd, name, password)
    case LeaveRoom => DoLeaveRoom(s, fd)
    case Mute(target, time) => DoMute(s, fd, target, time, chance.now)
    case Unmute(target) => DoUnmute(s, fd, target, chance.now)
    case Kick(target, reason) => DoKick(s, fd, target, reason)
    case Unknown(word) => DoUnknown(s, fd, line, word, chance.id)
    case command => DoQuery(s, fd, command, chance)
  }

  predicate StartsWith(text: string, prefix: string) {
    prefix <= text
  }

  /** The file and read-receipt branches look for a newline the framing has removed, and do
      nothing. */
  predicate Ignored(line: Message) {
    || StartsWith(line, "FILE_TRANSFER") || StartsWith(line, "FILE_REQUEST") || StartsWith(line, "FILE_RESPONSE")
    || StartsWith(line, "FILE_DATA") || StartsWith(line, "READ_RECEIPT")
  }

  ghost function Handle(s: State, fd: nat, line: Message, chance: Chance): State {
    if fd !in s.clients then s
    else if line[0] == '/' then DoCommand(s, fd, line, chance)
    else if StartsWith(line, "MSG") then DoMsg(s, fd, line, chance.now)
    else if Ignored(line) then s
    else DoPlain(s, fd, line, chance)
  }

  ghost function Step(s: State, e: Event): State {
    match e
    case Connected(fd) => if fd in s.clients then s else Accept(s, fd)
    case Received(fd, line, chance) => Handle(s, fd, line, chance)
    case Disconnected(fd) => Remove(s, fd)
  }

  ghost function Run(s: State, events: seq<Event>): State {
    if events == [] then s else Step(Run(s, events[..|events| - 1]), events[|events| - 1])
  }
}
