/** What a received line does, from its characters to everybody's output. */
module Handled {
  import opened Text
  import opened Commands
  import opened Spelling
  import opened Server
  import opened Invariants
  import opened Outcomes
  import opened Queries

  /** The outcome of each command. */
  ghost predicate CommandDone(s: State, t: State, fd: nat, c: Command, line: Message, chance: Chance)
    requires fd in s.clients
  {
    match c
    case Login(name, password) => LoginDone(s, t, fd, name, password)
    case Register(name, password) => RegisterDone(s, t, fd, name, password)
    case Whisper(target, text) => WhisperDone(s, t, fd, target, text, chance.id)
    case Quit => QuitDone(s, t, fd)
    case Nick(name) => NickDone(s, t, fd, name)
    case CreateRoom(name, isPrivate, password) => CreateRoomDone(s, t, fd, name, isPrivate, password)
    case JoinRoom(name, password) => JoinRoomDone(s, t, fd, name, password)
    case LeaveRoom => LeaveRoomDone(s, t, fd)
    case Mute(target, time) => MuteDone(s, t, fd, target, chance.now, MuteMinutes(time))
    case Unmute(target) => UnmuteDone(s, t, fd, target)
    case Kick(target, reason) => KickDone(s, t, fd, target, reason)
    case Unknown(word) => UnknownDone(s, t, fd, line, word, chance.id)
    case query => QueryDone(s, t, fd, query, chance)
  }

  lemma AccountCommand(s: State, fd: nat, line: Message, chance: Chance)
    requires Healthy(s) && fd in s.clients
    requires var c := Parse(line); c.Login? || c.Register? || c.Quit? || c.Nick? || c.Whisper? || c.Unknown?
    ensures CommandDone(s, DoCommand(s, fd, line, chance), fd, Parse(line), line, chance)
  {
    hide Parse, Healthy, DoLogin, DoRegister, DoWhisper, DoQuit, DoNick, DoCreateRoom, DoJoinRoom, DoLeaveRoom, DoMute,
      DoUnmute, DoKick, DoUnknown, DoQuery, LoginDone, RegisterDone, QuitDone, NickDone, WhisperDone, UnknownDone;
    var c := Parse(line);
    if c.Login? {
      LoginOutcome(s, fd, c.name, c.password, chance.salt);
    } else if c.Register? {
      RegisterOutcome(s, fd, c.name, c.password, chance.salt);
    } else if c.Quit? {
      QuitOutcome(s, fd);
    } else if c.Nick? {
      NickOutcome(s, fd, c.name);
    } else if c.Whisper? {
      WhisperOutcome(s, fd, c.target, c.text, chance.id);
    } else {
      UnknownOutcome(s, fd, line, c.word, chance.id);
    }
  }

  lemma RoomCommand(s: State, fd: nat, line: Message, chance: Chance)
    requires Healthy(s) && fd in s.clients
    requires var c := Parse(line);
      c.CreateRoom? || c.JoinRoom? || c.LeaveRoom? || c.Mute? || c.Unmute? || c.Kick? || IsQuery(c)
    ensures CommandDone(s, DoCommand(s, fd, line, chance), fd, Parse(line), line, chance)
  {
    hide Parse, Healthy, DoLogin, DoRegister, DoWhisper, DoQuit, DoNick, DoCreateRoom, DoJoinRoom, DoLeaveRoom, DoMute,
      DoUnmute, DoKick, DoUnknown, DoQuery, CreateRoomDone, JoinRoomDone, LeaveRoomDone, MuteDone, UnmuteDone, KickDone,
      QueryDone, MuteMinutes;
    var c := Parse(line);
    if c.CreateRoom? {
      CreateRoomOutcome(s, fd, c.name, c.isPrivate, c.password, chance.salt);
    } else if c.JoinRoom? {
      JoinRoomOutcome(s, fd, c.name, c.password);
    } else if c.LeaveRoom? {
      LeaveRoomOutcome(s, fd);
    } else if c.Mute? {
      MuteOutcome(s, fd, c.target, c.time, chance.now);
    } else if c.Unmute? {
      UnmuteOutcome(s, fd, c.target, chance.now);
    } else if c.Kick? {
      KickOutcome(s, fd, c.target, c.reason);
    } else {
      QueryOutcome(s, fd, c, chance);
    }
  }

  /** What a line of each kind does: a command behind a slash, a `MSG` line, a line of the file and receipt
      formats, which does nothing, and any other text. */
  ghost predicate LineDone(s: State, t: State, fd: nat, line: Message, chance: Chance)
    requires fd in s.clients
  {
    if line[0] == '/' then CommandDone(s, t, fd, Parse(line), line, chance)
    else if "MSG" <= line then MsgDone(s, t, fd, line, chance.now)
    else if "FILE_TRANSFER" <= line || "FILE_REQUEST" <= line || "FILE_RESPONSE" <= line || "FILE_DATA" <= line
            || "READ_RECEIPT" <= line then t == s
    else PlainDone(s, t, fd, line, chance)
  }

  lemma LineOutcome(s: State, fd: nat, line: Message, chance: Chance)
    requires Healthy(s) && fd in s.clients
    ensures LineDone(s, Step(s, Received(fd, line, chance)), fd, line, chance)
  {
    hide Parse, Healthy, DoCommand, DoMsg, DoPlain, CommandDone, MsgDone, PlainDone;
    if line[0] == '/' {
      var c := Parse(line);
      if c.Login? || c.Register? || c.Quit? || c.Nick? || c.Whisper? || c.Unknown? {
        AccountCommand(s, fd, line, chance);
      } else {
        RoomCommand(s, fd, line, chance);
      }
    } else if "MSG" <= line {
      MsgOutcome(s, fd, line, chance.now);
    } else if !Ignored(line) {
      PlainOutcome(s, fd, line, chance);
    }
  }

  /** However a command is typed, its outcome is that of the command. */
  lemma SpelledOutcome(s: State, fd: nat, c: Command, line: Message, chance: Chance)
    requires Healthy(s) && fd in s.clients && line[0] == '/' && Spells(line, c)
    ensures CommandDone(s, Step(s, Received(fd, line, chance)), fd, c, line, chance)
  {
    hide Parse, Healthy, Step, CommandDone, Spells;
    SpelledParsed(line, c);
    LineOutcome(s, fd, line, chance);
  }

  lemma BareSpelled(word: Bytes, c: Command)
    requires Means(word, c) && (IsBare(c) || IsEmpty(c))
    ensures Spells(word, c) && word != "" && word[0] == '/'
  {
    hide Means;
    WordsSpaceFree(word, c);
    var none: Bytes := "";
    assert word == word + none;
    assert SpelledBy(word, c, word, none);
  }

  /** The two ways to go, in full and in short: one leaves the server, the other the room. */
  lemma LeavingOutcome(s: State, fd: nat, line: Message, chance: Chance)
    requires Healthy(s) && fd in s.clients
    ensures var t := Step(s, Received(fd, line, chance));
      && (line == "/quit" || line == "/q" ==> QuitDone(s, t, fd))
      && (line == "/leaveroom" || line == "/lr" ==> LeaveRoomDone(s, t, fd))
  {
    hide Parse, Healthy, Step, QuitDone, LeaveRoomDone, Spells;
    if line == "/quit" || line == "/q" {
      BareSpelled(line, Quit);
      SpelledOutcome(s, fd, Quit, line, chance);
    }
    if line == "/leaveroom" || line == "/lr" {
      BareSpelled(line, LeaveRoom);
      SpelledOutcome(s, fd, LeaveRoom, line, chance);
    }
  }
}
