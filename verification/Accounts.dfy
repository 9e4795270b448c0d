/** Registered users over whole runs: they survive the user file. */
module Accounts {
  import opened Text
  import opened Commands
  import opened Replies
  import opened Framing
  import opened History
  import opened Users
  import opened Server
  import opened Invariants
  import Password

  // ------------------------------------------------------------------ records are one line

  lemma {:induction false} HexFree(s: Bytes)
    ensures Free(Password.Hex(s), NL)
  {
    if s != "" {
      HexFree(s[1..]);
      HexDigitFree(s[0] as int / 16);
      HexDigitFree(s[0] as int % 16);
    }
  }

  lemma HexDigitFree(d: int)
    requires 0 <= d < 16
    ensures Password.HexDigit(d) != NL
  {
  }

  lemma RecordFree(p: Bytes, salt: Salt)
    ensures Free(Password.Hash(p, salt), NL)
  {
    hide Password.Hex, Password.MaskFrom;
    HexFree(salt);
    HexFree(Password.MaskFrom(p, salt, 0));
  }

  // ------------------------------------------------------------------ names without colons

  /** The account names a line asks for are free of colons. */
  predicate ColonFree(e: Event) {
    e.Received? && e.line[0] == '/' ==>
      var c := Parse(e.line);
      c.Login? || c.Register? ==> Free(c.name, COLON)
  }

  ghost predicate AllUserSafe(users: map<string, string>) {
    forall n :: n in users ==> UserSafe(n, users[n])
  }

  /** Users change by at most one new record, under the given name. */
  ghost predicate Adds(s: State, t: State, name: string) {
    t.users == s.users || exists p: Bytes, salt: Salt :: t.users == s.users[name := Password.Hash(p, salt)]
  }

  lemma LoginAdds(s: State, fd: nat, name: Bytes, password: Bytes, salt: Salt)
    requires fd in s.clients
    ensures Adds(s, DoLogin(s, fd, name, password, salt), name)
    ensures Adds(s, DoRegister(s, fd, name, password, salt), name)
  {
    hide Send, Broadcast, Say, SignIn, SignedIn, Lookup, Password.Hash, Password.Verify;
  }

  lemma AddsSafe(s: State, t: State, name: string)
    requires AllUserSafe(s.users) && Adds(s, t, name) && Free(name, COLON) && SpaceFree(name)
    ensures AllUserSafe(t.users)
  {
    hide Password.Hash;
    if t.users != s.users {
      var p: Bytes, salt: Salt :| t.users == s.users[name := Password.Hash(p, salt)];
      RecordFree(p, salt);
    }
  }

  lemma CommandSafe(s: State, fd: nat, line: Message, chance: Chance)
    requires AllUserSafe(s.users) && fd in s.clients && line[0] == '/' && ColonFree(Received(fd, line, chance))
    ensures AllUserSafe(DoCommand(s, fd, line, chance).users)
  {
    hide AllUserSafe, Adds, Free, SpaceFree, Parse, DoLogin, DoRegister, DoWhisper, DoQuit, DoNick, DoCreateRoom,
      DoJoinRoom, DoLeaveRoom, DoMute, DoUnmute, DoKick, DoUnknown, DoQuery;
    ParsedWords(line);
    match Parse(line)
    case Login(name, password) =>
      LoginAdds(s, fd, name, password, chance.salt);
      AddsSafe(s, DoLogin(s, fd, name, password, chance.salt), name);
    case Register(name, password) =>
      LoginAdds(s, fd, name, password, chance.salt);
      AddsSafe(s, DoRegister(s, fd, name, password, chance.salt), name);
    case Whisper(target, text) => TextsKeep(s, fd, line, target, text, chance.id);
    case Quit => NickQuitKeep(s, fd, "");
    case Nick(name) => NickQuitKeep(s, fd, name);
    case CreateRoom(name, isPrivate, password) => CreateRoomKeeps(s, fd, name, isPrivate, password, chance.salt);
    case JoinRoom(name, password) => JoinLeaveKeep(s, fd, name, password);
    case LeaveRoom => JoinLeaveKeep(s, fd, "", "");
    case Mute(target, time) => MuteKeeps(s, fd, target, time, chance.now);
    case Unmute(target) => UnmuteKeeps(s, fd, target, chance.now);
    case Kick(target, reason) => KickKeeps(s, fd, target, reason);
    case Unknown(word) => TextsKeep(s, fd, line, word, "", chance.id);
    case _ =>
  }

  lemma StepSafe(s: State, e: Event)
    requires AllUserSafe(s.users) && ColonFree(e)
    ensures AllUserSafe(Step(s, e).users)
  {
    hide AllUserSafe, ColonFree, DoCommand, DoMsg, DoPlain, Parse;
    if e.Received? && e.fd in s.clients {
      MsgKeeps(s, e.fd, e.line, e.chance.now);
      PlainKeeps(s, e.fd, e.line, e.chance);
      if e.line[0] == '/' {
        CommandSafe(s, e.fd, e.line, e.chance);
      }
    }
  }

  lemma {:induction false} RunUsersSafe(s: State, events: seq<Event>)
    requires AllUserSafe(s.users) && forall i :: 0 <= i < |events| ==> ColonFree(events[i])
    ensures AllUserSafe(Run(s, events).users)
  {
    hide Step, ColonFree, AllUserSafe;
    if events != [] {
      var front, last := events[..|events| - 1], events[|events| - 1];
      assert forall i :: 0 <= i < |front| ==> front[i] == events[i];
      RunUsersSafe(s, front);
      StepSafe(Run(s, front), last);
    }
  }

  /** After every run in which account names are picked without colons, saving the users in any
      order and loading them on a fresh server gives the same users. */
  lemma RunSavesUsers(s: State, events: seq<Event>, order: seq<string>)
    requires AllUserSafe(s.users) && forall i :: 0 <= i < |events| ==> ColonFree(events[i])
    requires Lists(order, Run(s, events).users.Keys)
    ensures var users := Run(s, events).users;
      PutLines(map[], FileLines(Terminated(UserLines(users, order)))) == users
  {
    hide Run, ColonFree, UserSafe, UserLines, FileLines, PutLines, Terminated;
    RunUsersSafe(s, events);
    SaveLoadUsersIff(Run(s, events).users, order);
  }

  /** While the records a server starts with are proper, no password check against a record of any
      user or room ends in an exception, in any run. */
  lemma RunNeverAborts(s: State, events: seq<Event>, p: Bytes)
    requires Proper(s.users, s.rooms)
    ensures var t := Run(s, events);
      && (forall n :: n in t.users ==> Password.Verify(p, t.users[n]) != Password.Aborts)
      && (forall r :: r in t.rooms ==> Password.Verify(p, t.rooms[r].password) != Password.Aborts)
  {
    hide Run, Password.Verify, IsRecord;
    var t := Run(s, events);
    RunProper(s, events);
    forall n | n in t.users ensures Password.Verify(p, t.users[n]) != Password.Aborts {
      ProperNeverAborts(t.users[n], p);
    }
    forall r | r in t.rooms ensures Password.Verify(p, t.rooms[r].password) != Password.Aborts {
      ProperNeverAborts(t.rooms[r].password, p);
    }
  }
}
