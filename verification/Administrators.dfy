/** Who is an administrator: over every run, exactly who has signed in while one user was registered. */
module Administrators {
  import opened Text
  import opened Commands
  import opened Replies
  import opened Server
  import opened Invariants
  import opened Outcomes
  import Password

  /** The client signs in with this line, by `/login` or `/register`. */
  predicate SignsIn(s: State, e: Event, fd: nat) {
    && e.Received? && e.fd == fd && fd in s.clients && e.line[0] == '/'
    && match Parse(e.line)
       case Login(name, password) => LoginAccepted(s, name, password)
       case Register(name, password) => RegisterAccepted(s, name, password)
       case _ => false
  }

  /** It has an administrator's rights, whether before or from this event on. */
  predicate IsAdmin(s: State, fd: nat) {
    fd in s.clients && s.clients[fd].admin
  }

  /** Signing in as the only registered user there is makes an administrator. */
  ghost predicate Promotes(s: State, e: Event, fd: nat) {
    SignsIn(s, e, fd) && |Step(s, e).users| == 1
  }

  // ------------------------------------------------------------------ one event

  /** What an event may do to the rights of a client that is still there. */
  ghost predicate AdminRight(s: State, t: State, k: nat, promoted: bool) {
    k in t.clients ==> (t.clients[k].admin <==> IsAdmin(s, k) || promoted)
  }

  lemma LoginAdmin(s: State, fd: nat, name: Bytes, password: Bytes, salt: Salt, k: nat)
    requires Healthy(s) && fd in s.clients
    ensures var t := DoLogin(s, fd, name, password, salt);
      AdminRight(s, t, k, k == fd && LoginAccepted(s, name, password) && |t.users| == 1)
  {
    hide Healthy, Told, DoLogin, LoginAccepted, Lookup, NewUser, Bears;
    LoginOutcome(s, fd, name, password, salt);
    BearsOthers(s, DoLogin(s, fd, name, password, salt), fd, name, k);
  }

  lemma RegisterAdmin(s: State, fd: nat, name: Bytes, password: Bytes, salt: Salt, k: nat)
    requires Healthy(s) && fd in s.clients
    ensures var t := DoRegister(s, fd, name, password, salt);
      AdminRight(s, t, k, k == fd && RegisterAccepted(s, name, password) && |t.users| == 1)
  {
    hide Healthy, Told, DoRegister, RegisterAccepted, Lookup, NewUser, Bears;
    RegisterOutcome(s, fd, name, password, salt);
    BearsOthers(s, DoRegister(s, fd, name, password, salt), fd, name, k);
  }

  lemma NickAdmin(s: State, fd: nat, name: Bytes, k: nat)
    requires Healthy(s) && fd in s.clients
    ensures AdminRight(s, DoNick(s, fd, name), k, false)
  {
    hide Healthy, Told, DoNick, Lookup, Bears;
    NickOutcome(s, fd, name);
    BearsOthers(s, DoNick(s, fd, name), fd, name, k);
  }

  lemma BearsOthers(s: State, t: State, fd: nat, name: string, k: nat)
    requires fd in s.clients
    ensures Bears(s, t, fd, name) ==> fd in t.clients && (k != fd ==> (IsAdmin(t, k) <==> IsAdmin(s, k)))
  {
    hide Lookup;
  }

  lemma LeavingAdmin(s: State, fd: nat, target: Bytes, reason: Bytes, k: nat)
    requires Healthy(s) && fd in s.clients
    ensures AdminRight(s, DoQuit(s, fd), k, false) && AdminRight(s, DoKick(s, fd, target, reason), k, false)
    ensures AdminRight(s, Remove(s, fd), k, false)
  {
    hide Healthy, Told, DoQuit, DoKick, Remove, Lookup, Gone, LostMember;
    QuitOutcome(s, fd);
    KickOutcome(s, fd, target, reason);
    RemoveOutcome(s, fd);
    GoneOthers(s, DoQuit(s, fd), fd, k);
    GoneOthers(s, Remove(s, fd), fd, k);
    if Lookup(s, target).Some? {
      FoundIs(s, target);
      GoneOthers(s, DoKick(s, fd, target, reason), Lookup(s, target).value, k);
    }
  }

  lemma GoneOthers(s: State, t: State, fd: nat, k: nat)
    requires fd in s.clients
    ensures Gone(s, t, fd) ==> AdminRight(s, t, k, false)
  {
  }

  /** One client has changed, and not in its rights. */
  lemma ChangedAdmin(s: State, t: State, fd: nat, k: nat)
    requires fd in s.clients && fd in t.clients && t.clients == s.clients[fd := t.clients[fd]]
    requires t.clients[fd].admin == s.clients[fd].admin
    ensures AdminRight(s, t, k, false)
  {
  }

  lemma CreateAdmin(s: State, fd: nat, name: Bytes, isPrivate: bool, password: Bytes, salt: Salt, k: nat)
    requires Healthy(s) && fd in s.clients
    ensures AdminRight(s, DoCreateRoom(s, fd, name, isPrivate, password, salt), k, false)
  {
    hide Healthy, Told, DoCreateRoom, Exact, OtherRoomsSame, AdminRight;
    CreateRoomOutcome(s, fd, name, isPrivate, password, salt);
    ChangedAdmin(s, DoCreateRoom(s, fd, name, isPrivate, password, salt), fd, k);
  }

  lemma JoinAdmin(s: State, fd: nat, name: Bytes, password: Bytes, k: nat)
    requires Healthy(s) && fd in s.clients
    ensures AdminRight(s, DoJoinRoom(s, fd, name, password), k, false)
  {
    hide Healthy, Told, DoJoinRoom, JoinAccepted, JoinAborts, OtherRoomsSame, Password.Verify, AdminRight, Distinct;
    JoinRoomOutcome(s, fd, name, password);
    ChangedAdmin(s, DoJoinRoom(s, fd, name, password), fd, k);
  }

  lemma LeaveAdmin(s: State, fd: nat, k: nat)
    requires Healthy(s) && fd in s.clients
    ensures AdminRight(s, DoLeaveRoom(s, fd), k, false)
  {
    hide Healthy, Told, DoLeaveRoom, LostMember, AdminRight;
    LeaveRoomOutcome(s, fd);
    ChangedAdmin(s, DoLeaveRoom(s, fd), fd, k);
  }

  lemma MuteAdmin(s: State, fd: nat, target: Bytes, time: Bytes, now: int, k: nat)
    requires Healthy(s) && fd in s.clients
    ensures AdminRight(s, DoMute(s, fd, target, time, now), k, false)
    ensures AdminRight(s, DoUnmute(s, fd, target, now), k, false)
  {
    hide Healthy, Told, DoMute, DoUnmute, Lookup, MuteMinutes, Silenced, Out, AdminRight;
    MuteOutcome(s, fd, target, time, now);
    UnmuteOutcome(s, fd, target, now);
    var g := if s.clients[fd].admin && target != "" && Lookup(s, target).Some? then Lookup(s, target).value else fd;
    ChangedAdmin(s, DoMute(s, fd, target, time, now), g, k);
    ChangedAdmin(s, DoUnmute(s, fd, target, now), g, k);
  }

  lemma TextAdmin(s: State, fd: nat, t: State, k: nat)
    requires fd in s.clients && OnlyMessages(s, fd, t)
    ensures AdminRight(s, t, k, false)
  {
  }

  lemma CommandAdmin(s: State, fd: nat, line: Message, chance: Chance, k: nat)
    requires Healthy(s) && fd in s.clients && line[0] == '/'
    ensures var t := DoCommand(s, fd, line, chance);
      AdminRight(s, t, k, SignsIn(s, Received(fd, line, chance), k) && |t.users| == 1)
  {
    hide Healthy, AdminRight, Parse, DoLogin, DoRegister, DoWhisper, DoQuit, DoNick, DoCreateRoom, DoJoinRoom,
      DoLeaveRoom, DoMute, DoUnmute, DoKick, DoUnknown, DoQuery, OnlyMessages, LoginAccepted, RegisterAccepted;
    var c := Parse(line);
    if c.Login? {
      LoginAdmin(s, fd, c.name, c.password, chance.salt, k);
    } else if c.Register? {
      RegisterAdmin(s, fd, c.name, c.password, chance.salt, k);
    } else if c.Nick? {
      NickAdmin(s, fd, c.name, k);
    } else if c.Quit? {
      LeavingAdmin(s, fd, "", "", k);
    } else if c.Kick? {
      LeavingAdmin(s, fd, c.target, c.reason, k);
    } else if c.CreateRoom? {
      CreateAdmin(s, fd, c.name, c.isPrivate, c.password, chance.salt, k);
    } else if c.JoinRoom? {
      JoinAdmin(s, fd, c.name, c.password, k);
    } else if c.LeaveRoom? {
      LeaveAdmin(s, fd, k);
    } else if c.Mute? {
      MuteAdmin(s, fd, c.target, c.time, chance.now, k);
    } else if c.Unmute? {
      MuteAdmin(s, fd, c.target, "", chance.now, k);
    } else {
      RestAdmin(s, fd, line, chance, k);
    }
  }

  lemma RestAdmin(s: State, fd: nat, line: Message, chance: Chance, k: nat)
    requires Healthy(s) && fd in s.clients
    requires var c := Parse(line); c.Whisper? || c.Unknown? || IsQuery(c)
    ensures AdminRight(s, DoCommand(s, fd, line, chance), k, false)
  {
    hide Healthy, Parse, DoLogin, DoRegister, DoWhisper, DoQuit, DoNick, DoCreateRoom, DoJoinRoom, DoLeaveRoom,
      DoMute, DoUnmute, DoKick, DoUnknown, DoQuery, OnlyMessages;
    var c := Parse(line);
    if c.Whisper? {
      TextsKeep(s, fd, line, c.target, c.text, chance.id);
      TextAdmin(s, fd, DoWhisper(s, fd, c.target, c.text, chance.id), k);
    } else if c.Unknown? {
      TextsKeep(s, fd, line, c.word, "", chance.id);
      TextAdmin(s, fd, DoUnknown(s, fd, line, c.word, chance.id), k);
    }
  }

  /** A client has an administrator's rights after an event exactly if it is still there and had them before,
      or the event promotes it. */
  lemma StepAdminIff(s: State, e: Event, k: nat)
    requires Healthy(s)
    ensures IsAdmin(Step(s, e), k) <==> k in Step(s, e).clients && (IsAdmin(s, k) || Promotes(s, e, k))
  {
    hide Healthy, DoCommand, DoMsg, DoPlain, Remove, OnlyMessages, Parse, RemoveDone, LoginAccepted, RegisterAccepted;
    match e
    case Connected(fd) =>
    case Disconnected(fd) =>
      if fd in s.clients {
        LeavingAdmin(s, fd, "", "", k);
      } else {
        RemoveOutcome(s, fd);
        assert Remove(s, fd) == s by {
          NobodyRemoved(s, fd);
        }
      }
    case Received(fd, line, chance) =>
      if fd in s.clients {
        if line[0] == '/' {
          CommandAdmin(s, fd, line, chance, k);
        } else {
          MsgKeeps(s, fd, line, chance.now);
          TextAdmin(s, fd, DoMsg(s, fd, line, chance.now), k);
          PlainKeeps(s, fd, line, chance);
          TextAdmin(s, fd, DoPlain(s, fd, line, chance), k);
        }
      }
  }

  lemma NobodyRemoved(s: State, fd: nat)
    requires fd !in s.clients
    ensures Remove(s, fd) == s
  {
  }

  // ------------------------------------------------------------------ runs

  /** The event promotes it, and it has been connected ever since. */
  ghost predicate PromotedAt(s: State, events: seq<Event>, i: nat, k: nat)
    requires i < |events|
  {
    Promotes(Run(s, events[..i]), events[i], k) && forall j :: i < j <= |events| ==> k in Run(s, events[..j]).clients
  }

  ghost predicate Promoted(s: State, events: seq<Event>, k: nat) {
    exists i :: 0 <= i < |events| && PromotedAt(s, events, i, k)
  }

  /** Over every run from a state without the client, it is an administrator exactly if, since it connected, it
      has signed in while exactly one user was registered. */
  lemma {:induction false} RunAdminIff(s: State, events: seq<Event>, k: nat)
    requires Healthy(s) && k !in s.clients
    ensures IsAdmin(Run(s, events), k) <==> Promoted(s, events, k)
  {
    hide Healthy, Step, Promotes, PromotedAt;
    if events != [] {
      var n := |events| - 1;
      var front := events[..n];
      RunAdminIff(s, front, k);
      RunHealthy(s, front);
      StepAdminIff(Run(s, front), events[n], k);
      PromotedLater(s, events, k);
    }
  }

  lemma PromotedAtLater(s: State, events: seq<Event>, i: nat, k: nat)
    requires i < |events| - 1
    ensures PromotedAt(s, events, i, k) <==>
      PromotedAt(s, events[..|events| - 1], i, k) && k in Run(s, events).clients
  {
    hide Run, Promotes;
    var n := |events| - 1;
    assert events[..n + 1] == events && events[..n][..i] == events[..i];
    assert forall j :: 0 <= j <= n ==> events[..n][..j] == events[..j];
    if PromotedAt(s, events[..n], i, k) && k in Run(s, events).clients {
      forall j | i < j <= n + 1 ensures k in Run(s, events[..j]).clients {
        assert j <= n ==> k in Run(s, events[..n][..j]).clients;
      }
    }
    if PromotedAt(s, events, i, k) {
      forall j | i < j <= n ensures k in Run(s, events[..n][..j]).clients {
        assert events[..n][..j] == events[..j];
      }
    }
  }

  lemma PromotedLater(s: State, events: seq<Event>, k: nat)
    requires events != []
    ensures var n := |events| - 1;
      Promoted(s, events, k) <==>
        k in Run(s, events).clients && (Promoted(s, events[..n], k) || Promotes(Run(s, events[..n]), events[n], k))
  {
    hide Run, Promotes, PromotedAt;
    var n := |events| - 1;
    LastPromoted(s, events, k);
    forall i | 0 <= i < n
      ensures PromotedAt(s, events, i, k) <==> PromotedAt(s, events[..n], i, k) && k in Run(s, events).clients
    {
      PromotedAtLater(s, events, i, k);
    }
  }

  lemma LastPromoted(s: State, events: seq<Event>, k: nat)
    requires events != []
    ensures var n := |events| - 1;
      PromotedAt(s, events, n, k) <==> k in Run(s, events).clients && Promotes(Run(s, events[..n]), events[n], k)
  {
    hide Run, Promotes;
    assert events[..|events|] == events;
  }

  /** So a client that has never signed in under whatever name is refused `/kick`, `/mute` and `/unmute`. */
  lemma NeverSignedInRefused(s: State, events: seq<Event>, fd: nat, line: Message, chance: Chance)
    requires Healthy(s) && fd !in s.clients && fd in Run(s, events).clients
    requires forall i :: 0 <= i < |events| ==> !SignsIn(Run(s, events[..i]), events[i], fd)
    requires line[0] == '/' && (Parse(line).Kick? || Parse(line).Mute? || Parse(line).Unmute?)
    ensures var t := Run(s, events); Refused(t, Step(t, Received(fd, line, chance)), fd, AdminRequired)
  {
    hide Healthy, Parse, DoMute, DoUnmute, DoKick, Refused, Run, SignsIn;
    RunAdminIff(s, events, fd);
    RunHealthy(s, events);
    var t, c := Run(s, events), Parse(line);
    if c.Kick? {
      KickOutcome(t, fd, c.target, c.reason);
    } else if c.Mute? {
      MuteOutcome(t, fd, c.target, c.time, chance.now);
    } else {
      UnmuteOutcome(t, fd, c.target, chance.now);
    }
  }
}
