/** What each command means to those who send it and to everybody else: exactly when it succeeds, what
    then holds, and what stays as it was. */
module Outcomes {
  import opened Text
  import opened Numbers
  import opened Wire
  import opened History
  import opened Replies
  import opened Server
  import opened Invariants
  import opened Delivery
  import opened Limits
  import FileTransfer
  import Emoji
  import Password

  // ------------------------------------------------------------------ vocabulary

  /** A refused command changes nothing, and tells its sender, and nobody else, why. */
  ghost predicate Refused(s: State, t: State, fd: nat, why: Reply) {
    t == s.(sent := t.sent) && Told(s, t, fd, [Say(why)], [])
  }

  /** The sender is told `mine`, and everybody connected then `all`. */
  ghost predicate Told(s: State, t: State, fd: nat, mine: seq<string>, all: seq<string>) {
    forall k :: Out(t, k) == Out(s, k) + (if k == fd then mine else []) + if k in s.clients then all else []
  }

  ghost predicate OtherClientsSame(s: State, t: State, fd: nat) {
    forall g :: g != fd ==> (g in t.clients <==> g in s.clients) && (g in s.clients ==> t.clients[g] == s.clients[g])
  }

  /** The client has the name, and is found under it. Everybody else can still be found, exactly if the
      entry under the old name was the client's own. */
  ghost predicate Bears(s: State, t: State, fd: nat, name: string)
    requires fd in s.clients
  {
    && fd in t.clients && t.clients[fd].name == name && Lookup(t, name) == Some(fd)
    && OtherClientsSame(s, t, fd) && (OthersFound(s, t, fd) <==> OwnsEntry(s, fd))
  }

  /** The client is gone, and nothing in the index leads to it. */
  ghost predicate Gone(s: State, t: State, fd: nat)
    requires fd in s.clients
  {
    && fd !in t.clients && (forall n :: n in t.index ==> t.index[n] != fd)
    && OtherClientsSame(s, t, fd) && (OthersFound(s, t, fd) <==> OwnsEntry(s, fd))
  }

  /** A stored record accepts this password only. */
  ghost predicate Exact(record: string, password: Bytes) {
    forall q: Bytes :: Password.Verify(q, record) == Password.Accepted <==> q == password
  }

  /** The room has lost this member, or has gone with it as the last one. */
  ghost predicate LostMember(s: State, t: State, r: string, name: string) {
    && (forall q :: q != r ==> (q in t.rooms <==> q in s.rooms) && (q in s.rooms ==> t.rooms[q] == s.rooms[q]))
    && (r in t.rooms <==> r in s.rooms && exists m :: m in s.rooms[r].members && m != name)
    && (r in t.rooms ==> t.rooms[r] == s.rooms[r].(members := t.rooms[r].members))
    && (r in t.rooms ==> forall m :: m in t.rooms[r].members <==> m in s.rooms[r].members && m != name)
  }

  // ------------------------------------------------------------------ outputs

  lemma OneTold(s: State, fd: nat, text: string)
    requires fd in s.clients
    ensures Told(s, Send(s, fd, text), fd, [text], [])
  {
  }

  lemma AllTold(s: State, t: State, u: State, fd: nat, mine: seq<string>, text: string)
    requires Told(s, t, fd, mine, []) && t.clients.Keys == s.clients.Keys && u == Broadcast(t, text)
    ensures Told(s, u, fd, mine, [text])
  {
  }

  lemma ToldOn(s: State, t: State, u: State, fd: nat, mine: seq<string>, all: seq<string>)
    requires Told(s, t, fd, mine, all) && u.sent == t.sent
    ensures Told(s, u, fd, mine, all)
  {
  }

  /** First the sender, then one other client, then everybody. */
  lemma ThreeTold(s: State, t: State, fd: nat, k: nat, mine: string, yours: string, all: string, g: nat)
    requires fd in t.clients && k in t.clients && t.clients.Keys == s.clients.Keys && t.sent == s.sent
    ensures Out(Broadcast(Send(Send(t, fd, mine), k, yours), all), g) ==
      Out(s, g) + Once(g == fd, mine) + Once(g == k, yours) + Once(g in s.clients, all)
  {
  }

  /** First the sender, then everybody. */
  lemma SenderThenAll(s: State, t: State, fd: nat, mine: string, all: string)
    requires fd in t.clients && t.clients.Keys == s.clients.Keys && t.sent == s.sent
    ensures Told(s, Broadcast(Send(t, fd, mine), all), fd, [mine], [all])
  {
    hide Send, Broadcast, Told;
    OneTold(t, fd, mine);
    ToldFrom(s, t, Send(t, fd, mine), fd, [mine], []);
    AllTold(s, Send(t, fd, mine), Broadcast(Send(t, fd, mine), all), fd, [mine], all);
  }

  lemma ToldFrom(s: State, t: State, u: State, fd: nat, mine: seq<string>, all: seq<string>)
    requires Told(t, u, fd, mine, all) && t.sent == s.sent && t.clients.Keys == s.clients.Keys
    ensures Told(s, u, fd, mine, all)
  {
  }

  lemma RefusedWith(s: State, fd: nat, reply: Reply)
    requires fd in s.clients
    ensures Refused(s, Send(s, fd, Say(reply)), fd, reply)
  {
    hide Send, Say, Told;
    OneTold(s, fd, Say(reply));
  }

  // ------------------------------------------------------------------ connections

  /** One more client, a guest that is not logged in, no administrator, not muted and in no room; it has been
      sent the welcome line and nothing else, and nobody else notices. */
  ghost predicate ConnectDone(s: State, t: State, fd: nat) {
    && t == s.(clients := t.clients, sent := t.sent)
    && t.clients.Keys == s.clients.Keys + {fd} && OtherClientsSame(s, t, fd)
    && t.clients[fd].name == "Guest_" + NatToString(fd) && t.clients[fd].room == ""
    && !t.clients[fd].loggedIn && !t.clients[fd].admin && !t.clients[fd].muted
    && Out(t, fd) == [Say(Welcome)] && forall k :: k != fd ==> Out(t, k) == Out(s, k)
  }

  lemma ConnectOutcome(s: State, fd: nat)
    requires fd !in s.clients
    ensures ConnectDone(s, Step(s, Connected(fd)), fd)
  {
    hide Say, NatToString;
  }

  // ------------------------------------------------------------------ names

  lemma RenameBears(s: State, fd: nat, name: string)
    requires Healthy(s) && fd in s.clients && Lookup(s, name).None?
    ensures Bears(s, Rename(s, fd, name), fd, name) && Bears(s, SignIn(s, fd, name), fd, name)
    ensures Rename(s, fd, name).clients[fd] == s.clients[fd].(name := name)
    ensures var c, d := s.clients[fd], SignIn(s, fd, name).clients[fd];
      d == c.(name := name, loggedIn := true, admin := d.admin) && (d.admin <==> c.admin || |s.users| == 1)
  {
    hide RoomsOk, OthersFound, OwnsEntry;
    RenameFoundIff(s, fd, name);
    var t, u := Rename(s, fd, name), SignIn(s, fd, name);
    SameIndexFound(s, t, u, fd);
  }

  lemma SameIndexFound(s: State, t: State, u: State, fd: nat)
    requires u.index == t.index && u.clients.Keys == t.clients.Keys
    ensures OthersFound(s, t, fd) <==> OthersFound(s, u, fd)
    ensures forall n :: Lookup(t, n) == Lookup(u, n)
  {
  }

  lemma BearsOn(s: State, t: State, u: State, fd: nat, name: string)
    requires fd in s.clients && Bears(s, t, fd, name) && u.index == t.index && u.clients == t.clients
    ensures Bears(s, u, fd, name)
  {
    hide OthersFound, OwnsEntry;
    SameIndexFound(s, t, u, fd);
  }

  ghost predicate NickDone(s: State, t: State, fd: nat, name: Bytes)
    requires fd in s.clients
  {
    if name != "" && Lookup(s, name).None? then
      && Bears(s, t, fd, name) && t.clients[fd] == s.clients[fd].(name := name)
      && t == s.(clients := t.clients, index := t.index, sent := t.sent)
      && Told(s, t, fd, [Say(NickChanged(name))], [Say(ChangedNick(s.clients[fd].name, name))])
    else Refused(s, t, fd, if name == "" then NickUsage else NameTaken)
  }

  /** `/nick` succeeds exactly with a name nobody can be found under. */
  lemma NickOutcome(s: State, fd: nat, name: Bytes)
    requires Healthy(s) && fd in s.clients
    ensures NickDone(s, DoNick(s, fd, name), fd, name)
  {
    hide Healthy, Send, Broadcast, Say, Told, Refused, Rename, Bears, Lookup;
    if name == "" {
      RefusedWith(s, fd, NickUsage);
    } else if Lookup(s, name).Some? {
      RefusedWith(s, fd, NameTaken);
    } else {
      var t := Rename(s, fd, name);
      RenameBears(s, fd, name);
      SenderThenAll(s, t, fd, Say(NickChanged(name)), Say(ChangedNick(s.clients[fd].name, name)));
      BearsOn(s, t, DoNick(s, fd, name), fd, name);
    }
  }

  /** The client is signed in under the name. */
  ghost predicate SignedOn(s: State, t: State, fd: nat, name: string)
    requires fd in s.clients
  {
    && Bears(s, t, fd, name)
    && t.clients[fd] == s.clients[fd].(name := name, loggedIn := true, admin := t.clients[fd].admin)
    && (t.clients[fd].admin <==> s.clients[fd].admin || |t.users| == 1)
    && t == s.(clients := t.clients, index := t.index, users := t.users, sent := t.sent)
  }

  /** One more registered user, whose record accepts exactly the password; all others as before. */
  ghost predicate NewUser(s: State, t: State, name: string, password: Bytes) {
    && t.users.Keys == s.users.Keys + {name} && (forall n :: n in s.users && n != name ==> t.users[n] == s.users[n])
    && name in t.users && Exact(t.users[name], password)
  }

  predicate LoginAccepted(s: State, name: Bytes, password: Bytes) {
    && name != "" && Lookup(s, name).None?
    && (name in s.users ==> password != "" && Password.Verify(password, s.users[name]) == Password.Accepted)
  }

  /** The stored record is malformed in a way that ends the check with an exception. */
  predicate LoginAborts(s: State, name: Bytes, password: Bytes) {
    && name != "" && Lookup(s, name).None? && name in s.users && password != ""
    && Password.Verify(password, s.users[name]) == Password.Aborts
  }

  ghost predicate LoginDone(s: State, t: State, fd: nat, name: Bytes, password: Bytes)
    requires fd in s.clients
  {
    if LoginAccepted(s, name, password) then
      && SignedOn(s, t, fd, name) && Told(s, t, fd, [Say(LoggedIn(name))], [Say(Joined(name))])
      && if name in s.users || password == "" then t.users == s.users else NewUser(s, t, name, password)
    else if LoginAborts(s, name, password) then t == s
    else
      Refused(s, t, fd,
        if name == "" then LoginUsage
        else if Lookup(s, name).Some? then NameTaken
        else if password == "" then PasswordRequired
        else InvalidPassword)
  }

  lemma HashExact(password: Bytes, salt: Salt)
    ensures Exact(Password.Hash(password, salt), password)
  {
    hide Password.Hash, Password.Verify;
    forall q: Bytes ensures Password.Verify(q, Password.Hash(password, salt)) == Password.Accepted <==> q == password {
      Password.VerifyExact(q, password, salt);
    }
  }

  lemma NewUserStored(s: State, t: State, name: string, password: Bytes, salt: Salt)
    requires t.users == s.users[name := Password.Hash(password, salt)]
    ensures NewUser(s, t, name, password)
  {
    hide Password.Hash, Exact;
    HashExact(password, salt);
  }

  /** What a client is found under depends on clients and index only. */
  lemma BearsFrom(s: State, u: State, t: State, fd: nat, name: string)
    requires fd in s.clients && u.clients == s.clients && u.index == s.index && Bears(u, t, fd, name)
    ensures Bears(s, t, fd, name)
  {
    SameIndexFound(s, s, u, fd);
  }

  lemma SignInSigned(s: State, u: State, fd: nat, name: string)
    requires Healthy(s) && fd in s.clients && Lookup(s, name).None? && u == s.(users := u.users, sent := u.sent)
    ensures var t := SignIn(u, fd, name); SignedOn(s, t, fd, name) && t.clients.Keys == s.clients.Keys
  {
    hide Bears, SignIn, Sound, RoomsOk;
    SameIndexFound(s, s, u, fd);
    RenameBears(u, fd, name);
    BearsFrom(s, u, SignIn(u, fd, name), fd, name);
  }

  lemma SignedOnLater(s: State, t: State, u: State, fd: nat, name: string)
    requires fd in s.clients && SignedOn(s, t, fd, name) && u == t.(sent := u.sent)
    ensures SignedOn(s, u, fd, name)
  {
    hide Bears;
    BearsOn(s, t, u, fd, name);
  }

  lemma SignedInDone(s: State, u: State, fd: nat, name: string)
    requires Healthy(s) && fd in s.clients && Lookup(s, name).None? && u == s.(users := u.users)
    ensures var t := SignedIn(u, fd, name);
      SignedOn(s, t, fd, name) && t.users == u.users && Told(s, t, fd, [Say(LoggedIn(name))], [Say(Joined(name))])
  {
    hide Healthy, SignIn, SignedOn, Told, Say, Send, Broadcast, Lookup;
    var t := SignIn(u, fd, name);
    SignInSigned(s, u, fd, name);
    SenderThenAll(s, t, fd, Say(LoggedIn(name)), Say(Joined(name)));
    SignedOnLater(s, t, SignedIn(u, fd, name), fd, name);
  }

  /** `/login` succeeds exactly with a free name and, if the name is registered, its password. An
      unregistered name with a password is registered with it. */
  lemma LoginOutcome(s: State, fd: nat, name: Bytes, password: Bytes, salt: Salt)
    requires Healthy(s) && fd in s.clients
    ensures LoginDone(s, DoLogin(s, fd, name, password, salt), fd, name, password)
  {
    hide Healthy, Send, Say, Told, Refused, SignedIn, SignedOn, NewUser, Lookup, Password.Verify, Password.Hash;
    if LoginAccepted(s, name, password) {
      var users :=
        if name in s.users || password == "" then s.users else s.users[name := Password.Hash(password, salt)];
      SignedInDone(s, s.(users := users), fd, name);
      if name !in s.users && password != "" {
        NewUserStored(s, DoLogin(s, fd, name, password, salt), name, password, salt);
      }
    } else if !LoginAborts(s, name, password) {
      RefusedWith(s, fd,
        if name == "" then LoginUsage else if Lookup(s, name).Some? then NameTaken
        else if password == "" then PasswordRequired else InvalidPassword);
    }
  }

  predicate RegisterAccepted(s: State, name: Bytes, password: Bytes) {
    name != "" && password != "" && Lookup(s, name).None? && name !in s.users
  }

  ghost predicate RegisterDone(s: State, t: State, fd: nat, name: Bytes, password: Bytes)
    requires fd in s.clients
  {
    if RegisterAccepted(s, name, password) then
      && SignedOn(s, t, fd, name) && NewUser(s, t, name, password)
      && Told(s, t, fd, [Say(Registered(name))], [Say(Joined(name))])
    else
      Refused(s, t, fd,
        if name == "" || password == "" then RegisterUsage
        else if Lookup(s, name).Some? then NameInUse
        else UserExists)
  }

  /** `/register` succeeds exactly with a free, unregistered name and a password, and signs in. */
  lemma RegisterOutcome(s: State, fd: nat, name: Bytes, password: Bytes, salt: Salt)
    requires Healthy(s) && fd in s.clients
    ensures RegisterDone(s, DoRegister(s, fd, name, password, salt), fd, name, password)
  {
    hide Healthy, Send, Broadcast, Say, Told, Refused, SignIn, SignedOn, NewUser, Lookup, Password.Hash;
    if RegisterAccepted(s, name, password) {
      var t := DoRegister(s, fd, name, password, salt);
      var u := s.(users := s.users[name := Password.Hash(password, salt)]);
      var v := Send(u, fd, Say(Registered(name)));
      SignInSigned(s, v, fd, name);
      SignedOnLater(s, SignIn(v, fd, name), t, fd, name);
      NewUserStored(s, t, name, password, salt);
      OneTold(u, fd, Say(Registered(name)));
      ToldFrom(s, u, v, fd, [Say(Registered(name))], []);
      ToldOn(s, v, SignIn(v, fd, name), fd, [Say(Registered(name))], []);
      AllTold(s, SignIn(v, fd, name), t, fd, [Say(Registered(name))], Say(Joined(name)));
    } else {
      RefusedWith(s, fd,
        if name == "" || password == "" then RegisterUsage
        else if Lookup(s, name).Some? then NameInUse else UserExists);
    }
  }

  // ------------------------------------------------------------------ leaving

  lemma RemoveGone(s: State, fd: nat)
    requires Healthy(s) && fd in s.clients
    ensures Gone(s, Remove(s, fd), fd)
  {
    hide RoomsOk, OthersFound, OwnsEntry;
    RemoveFoundIff(s, fd);
  }

  lemma GoneFrom(s: State, u: State, t: State, fd: nat)
    requires fd in s.clients && u.clients == s.clients && u.index == s.index && Gone(u, t, fd)
    ensures Gone(s, t, fd)
  {
    SameIndexFound(s, s, u, fd);
  }

  ghost predicate RemoveDone(s: State, t: State, fd: nat) {
    if fd in s.clients then Gone(s, t, fd) && t == s.(clients := t.clients, index := t.index) else t == s
  }

  /** A closed connection takes the client out, and out of the index. Its room keeps listing it. */
  lemma RemoveOutcome(s: State, fd: nat)
    requires Healthy(s)
    ensures RemoveDone(s, Remove(s, fd), fd)
  {
    hide Healthy, Gone;
    if fd in s.clients {
      RemoveGone(s, fd);
    }
  }

  lemma LeaveLost(s: State, r: string, name: string)
    ensures LostMember(s, LeaveMembers(s, r, name), r, name)
  {
    hide Without, Distinct;
    if r in s.rooms {
      var rest := Without(s.rooms[r].members, name);
      assert rest != [] ==> rest[0] in s.rooms[r].members && rest[0] != name;
      assert forall m :: m in rest ==> m in s.rooms[r].members && m != name;
      assert forall m :: m in s.rooms[r].members && m != name ==> m in rest;
    }
  }

  ghost predicate QuitDone(s: State, t: State, fd: nat)
    requires fd in s.clients
  {
    var c := s.clients[fd];
    && Gone(s, t, fd) && t == s.(clients := t.clients, index := t.index, rooms := t.rooms, sent := t.sent)
    && (if c.room == "" then t.rooms == s.rooms else LostMember(s, t, c.room, c.name))
    && forall g :: Out(t, g) ==
         Out(s, g) + Once(c.room != "" && g in s.clients, Say(LeftRoom(c.name, c.room))) + Once(g == fd, Say(Goodbye))
  }

  lemma QuitTold(s: State, t: State, u: State, fd: nat, all: string, mine: string, speaks: bool, g: nat)
    requires fd in s.clients && t.clients == s.clients && t.sent == s.sent
    requires u == if speaks then Broadcast(t, all) else t
    ensures Out(Send(u, fd, mine), g) == Out(s, g) + Once(speaks && g in s.clients, all) + Once(g == fd, mine)
  {
  }

  lemma LostOn(s: State, t: State, u: State, r: string, name: string)
    requires LostMember(s, t, r, name) && u.rooms == t.rooms
    ensures LostMember(s, u, r, name)
  {
  }

  /** `/quit` takes the client out of the server, the index and its room. */
  lemma QuitOutcome(s: State, fd: nat)
    requires Healthy(s) && fd in s.clients
    ensures QuitDone(s, DoQuit(s, fd), fd)
  {
    hide Sound, RoomsOk, Send, Broadcast, Say, Gone, Remove, LeaveMembers, LostMember;
    var c := s.clients[fd];
    LeaveOk(s, c.room, c.name);
    LeaveLost(s, c.room, c.name);
    var u := if c.room == "" then s
             else Broadcast(LeaveMembers(s, c.room, c.name), Say(LeftRoom(c.name, c.room)));
    var v := Send(u, fd, Say(Goodbye));
    RemoveGone(v, fd);
    GoneFrom(s, v, Remove(v, fd), fd);
    if c.room != "" {
      LostOn(s, LeaveMembers(s, c.room, c.name), DoQuit(s, fd), c.room, c.name);
    }
    var speaks, w := c.room != "", if c.room == "" then s else LeaveMembers(s, c.room, c.name);
    forall g ensures Out(DoQuit(s, fd), g) ==
      Out(s, g) + Once(speaks && g in s.clients, Say(LeftRoom(c.name, c.room))) + Once(g == fd, Say(Goodbye))
    {
      QuitTold(s, w, u, fd, Say(LeftRoom(c.name, c.room)), Say(Goodbye), speaks, g);
    }
  }

  ghost predicate KickDone(s: State, t: State, fd: nat, target: Bytes, reason: Bytes)
    requires fd in s.clients
  {
    if s.clients[fd].admin && target != "" && Lookup(s, target).Some? then
      var k := Lookup(s, target).value;
      && k in s.clients && s.clients[k].name == target && Gone(s, t, k)
      && Lookup(t, target).None? && OthersFound(s, t, k)
      && t == s.(clients := t.clients, index := t.index, sent := t.sent)
      && Told(s, t, k, [Say(YouKicked(reason))], [Say(HasBeenKicked(target, reason))])
    else
      Refused(s, t, fd,
        if !s.clients[fd].admin then AdminRequired else if target == "" then KickUsage else UserNotFound(target))
  }

  /** `/kick` by an administrator takes out exactly the client found under the name, hides nobody else,
      and leaves every room as it is, the target's membership included. */
  lemma KickOutcome(s: State, fd: nat, target: Bytes, reason: Bytes)
    requires Healthy(s) && fd in s.clients
    ensures KickDone(s, DoKick(s, fd, target, reason), fd, target, reason)
  {
    hide Healthy, Send, Broadcast, Say, Gone, Remove, Told, Refused, OthersFound, Lookup;
    if !s.clients[fd].admin {
      RefusedWith(s, fd, AdminRequired);
    } else if target == "" {
      RefusedWith(s, fd, KickUsage);
    } else if Lookup(s, target).None? {
      RefusedWith(s, fd, UserNotFound(target));
    } else {
      var k := Lookup(s, target).value;
      FoundIs(s, target);
      var u := Broadcast(Send(s, k, Say(YouKicked(reason))), Say(HasBeenKicked(target, reason)));
      SenderThenAll(s, s, k, Say(YouKicked(reason)), Say(HasBeenKicked(target, reason)));
      SentHealthy(s, u);
      RemoveGone(u, k);
      GoneFrom(s, u, Remove(u, k), k);
      ToldOn(s, u, Remove(u, k), k, [Say(YouKicked(reason))], [Say(HasBeenKicked(target, reason))]);
      RemoveIndex(u, k);
      GoneOwner(s, Remove(u, k), k, target);
    }
  }

  lemma FoundIs(s: State, name: string)
    requires Healthy(s) && Lookup(s, name).Some?
    ensures var k := Lookup(s, name).value; k in s.clients && s.clients[k].name == name
  {
    hide RoomsOk;
  }

  lemma RemoveIndex(s: State, fd: nat)
    requires fd in s.clients
    ensures var t := Remove(s, fd);
      forall n :: n in t.index ==> n != s.clients[fd].name && n in s.index && t.index[n] == s.index[n]
  {
  }

  /** Whoever can be found owns the entry, so nobody else loses one with it. */
  lemma GoneOwner(s: State, t: State, k: nat, name: string)
    requires k in s.clients && s.clients[k].name == name && Lookup(s, name) == Some(k) && Gone(s, t, k)
    requires forall n :: n in t.index ==> n != name && n in s.index && t.index[n] == s.index[n]
    ensures Lookup(t, name).None? && OthersFound(s, t, k)
  {
  }

  // ------------------------------------------------------------------ muting

  ghost predicate MuteDone(s: State, t: State, fd: nat, target: Bytes, now: int, minutes: int)
    requires fd in s.clients
  {
    if s.clients[fd].admin && target != "" && Lookup(s, target).Some? then
      var k := Lookup(s, target).value;
      && k in s.clients && s.clients[k].name == target && k in t.clients
      && t == s.(clients := s.clients[k := t.clients[k]], sent := t.sent)
      && t.clients[k] == s.clients[k].(muted := t.clients[k].muted, muteEnd := t.clients[k].muteEnd)
      && (forall later :: Silenced(t, k, later) <==> later <= now + 60 * minutes)
      && forall g :: Out(t, g) == Out(s, g) + Once(g == fd, Say(Muted(target, minutes)))
           + Once(g == k, Say(YouMuted(minutes))) + Once(g in s.clients, Say(HasBeenMuted(target, minutes)))
    else
      Refused(s, t, fd,
        if !s.clients[fd].admin then AdminRequired else if target == "" then MuteUsage else UserNotFound(target))
  }

  ghost predicate UnmuteDone(s: State, t: State, fd: nat, target: Bytes)
    requires fd in s.clients
  {
    if s.clients[fd].admin && target != "" && Lookup(s, target).Some? then
      var k := Lookup(s, target).value;
      && k in s.clients && s.clients[k].name == target && k in t.clients
      && t == s.(clients := s.clients[k := t.clients[k]], sent := t.sent)
      && t.clients[k] == s.clients[k].(muted := t.clients[k].muted, muteEnd := t.clients[k].muteEnd)
      && (forall later :: !Silenced(t, k, later))
      && forall g :: Out(t, g) == Out(s, g) + Once(g == fd, Say(Unmuted(target))) + Once(g == k, Say(YouUnmuted))
           + Once(g in s.clients, Say(HasBeenUnmuted(target)))
    else
      Refused(s, t, fd,
        if !s.clients[fd].admin then AdminRequired else if target == "" then UnmuteUsage else UserNotFound(target))
  }

  /** `/mute` by an administrator silences exactly the client found under the name, up to the end of
      the given time. */
  lemma MuteOutcome(s: State, fd: nat, target: Bytes, time: Bytes, now: int)
    requires Healthy(s) && fd in s.clients
    ensures MuteDone(s, DoMute(s, fd, target, time, now), fd, target, now, MuteMinutes(time))
  {
    hide Healthy, Send, Broadcast, Say, Told, Refused, Lookup, MuteMinutes, Once;
    if !s.clients[fd].admin {
      RefusedWith(s, fd, AdminRequired);
    } else if target == "" {
      RefusedWith(s, fd, MuteUsage);
    } else if Lookup(s, target).None? {
      RefusedWith(s, fd, UserNotFound(target));
    } else {
      FoundIs(s, target);
      var k, minutes := Lookup(s, target).value, MuteMinutes(time);
      var t := PutClient(s, k, s.clients[k].(muted := true, muteEnd := now + 60 * minutes));
      var mine, yours, all := Say(Muted(target, minutes)), Say(YouMuted(minutes)), Say(HasBeenMuted(target, minutes));
      assert DoMute(s, fd, target, time, now) == Broadcast(Send(Send(t, fd, mine), k, yours), all);
      forall g ensures Out(DoMute(s, fd, target, time, now), g) ==
        Out(s, g) + Once(g == fd, mine) + Once(g == k, yours) + Once(g in s.clients, all)
      {
        ThreeTold(s, t, fd, k, mine, yours, all, g);
      }
    }
  }

  /** A number of minutes is kept in 1..60 if it fits into 32 bits; that, or no number, is 10. */
  lemma MinutesOfNumber(v: int, more: Bytes)
    requires more == "" || DigitValue(more[0]) >= 10
    ensures MuteMinutes(IntToString(v) + more) ==
      if !(-0x8000_0000 <= v < 0x8000_0000) then 10 else if v < 1 then 1 else if v <= 60 then v else 60
    ensures NoNumber(more) ==> MuteMinutes(more) == 10
  {
    hide Stoi, DigitValue, NatToString;
    StoiOfNumber(v, more);
    if NoNumber(more) {
      StoiOfOther(more);
    }
  }

  /** `/unmute` lets it speak at once. */
  lemma UnmuteOutcome(s: State, fd: nat, target: Bytes, now: int)
    requires Healthy(s) && fd in s.clients
    ensures UnmuteDone(s, DoUnmute(s, fd, target, now), fd, target)
  {
    hide Healthy, Send, Broadcast, Say, Told, Refused, Lookup, Once;
    if !s.clients[fd].admin {
      RefusedWith(s, fd, AdminRequired);
    } else if target == "" {
      RefusedWith(s, fd, UnmuteUsage);
    } else if Lookup(s, target).None? {
      RefusedWith(s, fd, UserNotFound(target));
    } else {
      FoundIs(s, target);
      var k := Lookup(s, target).value;
      var t := PutClient(s, k, s.clients[k].(muted := false, muteEnd := now));
      var mine, yours, all := Say(Unmuted(target)), Say(YouUnmuted), Say(HasBeenUnmuted(target));
      assert DoUnmute(s, fd, target, now) == Broadcast(Send(Send(t, fd, mine), k, yours), all);
      forall g ensures Out(DoUnmute(s, fd, target, now), g) ==
        Out(s, g) + Once(g == fd, mine) + Once(g == k, yours) + Once(g in s.clients, all)
      {
        ThreeTold(s, t, fd, k, mine, yours, all, g);
      }
    }
  }

  // ------------------------------------------------------------------ rooms

  ghost predicate Entered(s: State, t: State, fd: nat, r: string)
    requires fd in s.clients
  {
    t == s.(clients := s.clients[fd := s.clients[fd].(room := r)], rooms := t.rooms, sent := t.sent)
  }

  ghost predicate OtherRoomsSame(s: State, t: State, r: string) {
    forall q :: q != r ==> (q in t.rooms <==> q in s.rooms) && (q in s.rooms ==> t.rooms[q] == s.rooms[q])
  }

  ghost predicate CreateRoomDone(s: State, t: State, fd: nat, name: Bytes, isPrivate: bool, password: Bytes)
    requires fd in s.clients
  {
    if name != "" && name !in s.rooms then
      var me := s.clients[fd].name;
      && Entered(s, t, fd, name) && OtherRoomsSame(s, t, name)
      && name in t.rooms && t.rooms[name].members == [me] && t.rooms[name].creator == me
      && t.rooms[name].isPrivate == isPrivate
      && (isPrivate && password != "" ==> Exact(t.rooms[name].password, password))
      && (!isPrivate || password == "" ==> t.rooms[name].password == "")
      && Told(s, t, fd, [Say(RoomCreated(name))], [Say(RoomCreatedBy(name, me))])
    else Refused(s, t, fd, if name == "" then CreateRoomUsage else RoomExists(name))
  }

  /** `/createroom` succeeds exactly with a new name, and the new room has its creator as its only
      member, whether logged in or not. */
  lemma CreateRoomOutcome(s: State, fd: nat, name: Bytes, isPrivate: bool, password: Bytes, salt: Salt)
    requires Healthy(s) && fd in s.clients
    ensures CreateRoomDone(s, DoCreateRoom(s, fd, name, isPrivate, password, salt), fd, name, isPrivate, password)
  {
    hide Healthy, Send, Broadcast, Say, Told, Refused, Exact, Password.Hash;
    if name == "" {
      RefusedWith(s, fd, CreateRoomUsage);
    } else if name in s.rooms {
      RefusedWith(s, fd, RoomExists(name));
    } else {
      var me := s.clients[fd].name;
      var secret := if isPrivate && password != "" then Password.Hash(password, salt) else "";
      var t := Enter(s.(rooms := s.rooms[name := ChatRoom(name, me, [me], isPrivate, secret)]), fd, name);
      HashExact(password, salt);
      SenderThenAll(s, t, fd, Say(RoomCreated(name)), Say(RoomCreatedBy(name, me)));
    }
  }

  predicate JoinAccepted(s: State, fd: nat, name: Bytes, password: Bytes)
    requires fd in s.clients
  {
    && name != "" && name in s.rooms && s.clients[fd].name !in s.rooms[name].members
    && (s.rooms[name].isPrivate ==>
          password != "" && Password.Verify(password, s.rooms[name].password) == Password.Accepted)
  }

  predicate JoinAborts(s: State, name: Bytes, password: Bytes) {
    && name != "" && name in s.rooms && s.rooms[name].isPrivate && password != ""
    && Password.Verify(password, s.rooms[name].password) == Password.Aborts
  }

  ghost predicate JoinRoomDone(s: State, t: State, fd: nat, name: Bytes, password: Bytes)
    requires fd in s.clients
  {
    if JoinAccepted(s, fd, name, password) then
      var me := s.clients[fd].name;
      && Entered(s, t, fd, name) && OtherRoomsSame(s, t, name)
      && name in t.rooms && t.rooms[name] == s.rooms[name].(members := s.rooms[name].members + [me])
      && Distinct(t.rooms[name].members)
      && Told(s, t, fd, [Say(RoomJoined(name))], [Say(JoinedRoom(me, name))])
    else if JoinAborts(s, name, password) then t == s
    else
      Refused(s, t, fd,
        if name == "" then JoinRoomUsage
        else if name !in s.rooms then RoomUnknown(name)
        else if s.rooms[name].isPrivate && password == "" then RoomPasswordRequired
        else if s.rooms[name].isPrivate && Password.Verify(password, s.rooms[name].password) == Password.Rejected then
          InvalidRoomPassword
        else AlreadyInRoom(name))
  }

  lemma DistinctMore(members: seq<string>, name: string)
    requires Distinct(members) && name !in members
    ensures Distinct(members + [name])
  {
  }

  /** `/joinroom` succeeds exactly with an existing room, its password if it is private, and a name it
      does not list yet. A room the client was in before keeps listing it. */
  lemma JoinRoomOutcome(s: State, fd: nat, name: Bytes, password: Bytes)
    requires Healthy(s) && fd in s.clients
    ensures JoinRoomDone(s, DoJoinRoom(s, fd, name, password), fd, name, password)
  {
    hide Sound, Send, Broadcast, Say, Told, Refused, Distinct, Password.Verify;
    if JoinAccepted(s, fd, name, password) {
      var me := s.clients[fd].name;
      DistinctMore(s.rooms[name].members, me);
      SenderThenAll(s, Enter(JoinMembers(s, name, me), fd, name), fd, Say(RoomJoined(name)), Say(JoinedRoom(me, name)));
    } else if !JoinAborts(s, name, password) {
      RefusedWith(s, fd,
        if name == "" then JoinRoomUsage
        else if name !in s.rooms then RoomUnknown(name)
        else if s.rooms[name].isPrivate && password == "" then RoomPasswordRequired
        else if s.rooms[name].isPrivate && Password.Verify(password, s.rooms[name].password) == Password.Rejected then
          InvalidRoomPassword
        else AlreadyInRoom(name));
    }
  }

  lemma NobodyJoins(s: State, fd: nat, name: Bytes, password: Bytes)
    requires fd in s.clients && name in s.rooms && s.rooms[name].isPrivate && s.rooms[name].password == ""
    ensures !JoinAccepted(s, fd, name, password) && !JoinAborts(s, name, password)
  {
    hide Password.Hash, Password.Unhex;
  }

  /** Once a room has been created, a client of another name can join it, with some password, exactly
      unless it was made private and without a password. */
  lemma JoinableIff(s: State, t: State, fd: nat, name: Bytes, isPrivate: bool, password: Bytes, k: nat)
    requires fd in s.clients && name != "" && name !in s.rooms && CreateRoomDone(s, t, fd, name, isPrivate, password)
    requires k in t.clients && t.clients[k].name != s.clients[fd].name
    ensures (exists q :: JoinAccepted(t, k, name, q)) <==> !isPrivate || password != ""
  {
    hide Told, Say, Entered, OtherRoomsSame, Password.Verify;
    if !isPrivate || password != "" {
      assert JoinAccepted(t, k, name, password);
    } else {
      forall q ensures !JoinAccepted(t, k, name, q) {
        NobodyJoins(t, k, name, q);
      }
    }
  }

  ghost predicate LeaveRoomDone(s: State, t: State, fd: nat)
    requires fd in s.clients
  {
    var c := s.clients[fd];
    if c.room != "" then
      && Entered(s, t, fd, "") && LostMember(s, t, c.room, c.name)
      && Told(s, t, fd, [Say(RoomLeft(c.room))], [Say(LeftRoom(c.name, c.room))])
    else Refused(s, t, fd, NotInRoom)
  }

  /** `/leaveroom` takes the client out of its room, and the room away if nobody else is left. */
  lemma LeaveRoomOutcome(s: State, fd: nat)
    requires Healthy(s) && fd in s.clients
    ensures LeaveRoomDone(s, DoLeaveRoom(s, fd), fd)
  {
    hide Healthy, Send, Broadcast, Say, Told, Refused, LeaveMembers, LostMember;
    var c := s.clients[fd];
    if c.room == "" {
      RefusedWith(s, fd, NotInRoom);
    } else {
      var t := LeaveMembers(s, c.room, c.name);
      LeaveLost(s, c.room, c.name);
      LostOn(s, t, DoLeaveRoom(s, fd), c.room, c.name);
      SenderThenAll(s, Enter(t, fd, ""), fd, Say(RoomLeft(c.room)), Say(LeftRoom(c.name, c.room)));
    }
  }

  // ------------------------------------------------------------------ `MSG` lines

  predicate MsgAccepted(s: State, fd: nat, line: Message, now: int)
    requires fd in s.clients
  {
    Decode(line).Some? && s.clients[fd].loggedIn && !Silenced(s, fd, now)
  }

  /** Who is sent what for an accepted message: the receiver of a private one, the members of a room,
      or everybody; and the sender, if there is no such receiver or room. */
  ghost function Relayed(s: State, fd: nat, line: Message, m: ChatMessage, k: nat): seq<string> {
    if m.kind == PRIVATE then
      if Lookup(s, m.receiver).Some? then Once(Lookup(s, m.receiver) == Some(k), line)
      else Once(k == fd, Say(NoReceiver(m.receiver)))
    else if m.kind == ROOM_MESSAGE then
      if m.receiver in s.rooms then Once(Reaches(s.index, s.rooms[m.receiver].members, k), line)
      else Once(k == fd, Say(NoRoom(m.receiver)))
    else Once(k in s.clients, Encode(m))
  }

  ghost predicate MsgDone(s: State, t: State, fd: nat, line: Message, now: int)
    requires fd in s.clients
  {
    if MsgAccepted(s, fd, line, now) then
      var m := Decode(line).value;
      && (if m.kind == ROOM_MESSAGE && m.receiver !in s.rooms then t.log == s.log && t.history == s.history
          else t.log == s.log + [m] && Stored(s.history, t.history, m))
      && t.clients == s.clients[fd := s.clients[fd].(muted := false)]
      && t == s.(clients := t.clients, history := t.history, log := t.log, sent := t.sent)
      && forall k :: Out(t, k) == Out(s, k) + Relayed(s, fd, line, m, k)
    else
      Refused(s, t, fd,
        if Decode(line).None? then InvalidMessage else if !s.clients[fd].loggedIn then LoginFirst else StillMuted)
  }

  lemma RelayOutcome(s: State, fd: nat, line: Message, m: ChatMessage, k: nat)
    requires Healthy(s) && fd in s.clients
    ensures var t := Relay(s, fd, line, m);
      && (if m.kind == ROOM_MESSAGE && m.receiver !in s.rooms then t.log == s.log && t.history == s.history
          else t.log == s.log + [m] && Stored(s.history, t.history, m))
      && t == s.(history := t.history, log := t.log, sent := t.sent)
      && Out(t, k) == Out(s, k) + Relayed(s, fd, line, m, k)
  {
    hide Say, Encode, Deliver, Add, Distinct, Reaches, Sound, Stored;
    AddStored(s.history, m);
    if m.kind == ROOM_MESSAGE && m.receiver in s.rooms {
      DeliverExact(s, s.rooms[m.receiver].members, line, k);
    }
  }

  lemma RelayedSame(s: State, u: State, fd: nat, line: Message, m: ChatMessage, k: nat)
    requires u.index == s.index && u.rooms == s.rooms && u.clients.Keys == s.clients.Keys
    ensures Relayed(u, fd, line, m, k) == Relayed(s, fd, line, m, k)
  {
    hide Say, Encode, Reaches;
    SameIndexFound(s, s, u, fd);
  }

  /** A `MSG` line is accepted exactly from clients that are logged in, may speak and send something
      that decodes; then exactly those it is for get it once, and it is logged. */
  lemma MsgOutcome(s: State, fd: nat, line: Message, now: int)
    requires Healthy(s) && fd in s.clients
    ensures MsgDone(s, DoMsg(s, fd, line, now), fd, line, now)
  {
    hide Sound, RoomsOk, Send, Say, Decode, Relay, Relayed, Refused, Lookup;
    if Decode(line).None? {
      RefusedWith(s, fd, InvalidMessage);
    } else if !s.clients[fd].loggedIn {
      RefusedWith(s, fd, LoginFirst);
    } else if Silenced(s, fd, now) {
      RefusedWith(s, fd, StillMuted);
    } else {
      var u, m := Unsilence(s, fd), Decode(line).value;
      PutSound(s.clients, s.index, fd, s.clients[fd].(muted := false));
      RelayOutcome(u, fd, line, m, fd);
      forall k ensures Out(DoMsg(s, fd, line, now), k) == Out(s, k) + Relayed(s, fd, line, m, k) {
        RelayOutcome(u, fd, line, m, k);
        RelayedSame(s, u, fd, line, m, k);
      }
    }
  }

  // ------------------------------------------------------------------ files

  ghost predicate TextsGo(s: State, t: State, fd: nat, texts: seq<string>, to: iset<nat>, reply: Reply) {
    && t == s.(sent := t.sent)
    && forall k :: Out(t, k) == Out(s, k) + (if k in to then texts else []) + Once(k == fd, Say(reply))
  }

  /** The sender's file goes to those it is for: they are sent the lines that carry it, in order and once; then
      the sender is told so. */
  ghost predicate FileGoes(s: State, t: State, fd: nat, receiver: string, path: Bytes, file: Bytes, to: iset<nat>,
                           reply: Reply)
    requires fd in s.clients
  {
    exists texts :: FileTransfer.FileIn(texts, s.clients[fd].name, receiver, FileTransfer.FileName(path), file)
      && TextsGo(s, t, fd, texts, to, reply)
  }

  ghost predicate TransferDone(s: State, t: State, fd: nat, path: Bytes, target: Bytes, file: Option<Bytes>)
    requires fd in s.clients
  {
    if path != "" && target != "" && Lookup(s, target).Some? && file.Some? then
      var to := iset{Lookup(s, target).value};
      FileGoes(s, t, fd, target, path, file.value, to, TransferStarted(FileTransfer.FileName(path)))
    else
      Refused(s, t, fd,
        if path == "" || target == "" then TransferUsage
        else if Lookup(s, target).None? then UserNotFound(target)
        else CannotOpen(path))
  }

  /** `/transfer` sends the whole file, in order and once, to exactly the client found under the name. */
  lemma TransferOutcome(s: State, fd: nat, path: Bytes, target: Bytes, file: Option<Bytes>)
    requires Healthy(s) && fd in s.clients
    ensures TransferDone(s, DoTransfer(s, fd, path, target, file), fd, path, target, file)
  {
    hide Healthy, Send, Say, Refused, FileGoes, Lookup, SendTexts, FileTransfer.FileTexts, FileTransfer.FileName;
    if path == "" || target == "" {
      RefusedWith(s, fd, TransferUsage);
    } else if Lookup(s, target).None? {
      RefusedWith(s, fd, UserNotFound(target));
    } else if file.None? {
      RefusedWith(s, fd, CannotOpen(path));
    } else {
      var k, name := Lookup(s, target).value, FileTransfer.FileName(path);
      var texts := FileTransfer.FileTexts(s.clients[fd].name, target, name, file.value);
      FoundIs(s, target);
      forall g ensures Out(SendTexts(s, [k], texts), g) == Out(s, g) + if g in iset{k} then texts else [] {
        SendTextsExact(s, [k], texts, g);
      }
      ThenReply(s, SendTexts(s, [k], texts), fd, target, path, file.value, iset{k}, TransferStarted(name));
    }
  }

  lemma TextsThenReply(s: State, t: State, fd: nat, texts: seq<string>, to: iset<nat>, reply: Reply)
    requires fd in s.clients && t == s.(sent := t.sent)
    requires forall g :: Out(t, g) == Out(s, g) + if g in to then texts else []
    ensures TextsGo(s, Send(t, fd, Say(reply)), fd, texts, to, reply)
  {
    hide Say;
  }

  lemma ThenReply(s: State, t: State, fd: nat, receiver: string, path: Bytes, file: Bytes, to: iset<nat>, reply: Reply)
    requires fd in s.clients && t == s.(sent := t.sent)
    requires var texts := FileTransfer.FileTexts(s.clients[fd].name, receiver, FileTransfer.FileName(path), file);
      forall g :: Out(t, g) == Out(s, g) + if g in to then texts else []
    ensures FileGoes(s, Send(t, fd, Say(reply)), fd, receiver, path, file, to, reply)
  {
    hide Send, Out, Say, TextsGo, FileTransfer.FileTexts, FileTransfer.FileName, FileTransfer.FileIn;
    var texts := FileTransfer.FileTexts(s.clients[fd].name, receiver, FileTransfer.FileName(path), file);
    TextsThenReply(s, t, fd, texts, to, reply);
    FileTransfer.FileInTexts(s.clients[fd].name, receiver, FileTransfer.FileName(path), file);
  }

  ghost predicate ShareFileDone(s: State, t: State, fd: nat, path: Bytes, file: Option<Bytes>)
    requires fd in s.clients
  {
    var r := s.clients[fd].room;
    if path != "" && r != "" && file.Some? then
      var to := iset k | Reaches(s.index, Members(s, r), k);
      FileGoes(s, t, fd, r, path, file.value, to, FileSent(FileTransfer.FileName(path)))
    else Refused(s, t, fd, if path == "" then FileUsage else if r == "" then NotInRoom else CannotOpen(path))
  }

  /** `/file` sends it to exactly the sockets indexed by members of the sender's room, once to each. */
  lemma ShareFileOutcome(s: State, fd: nat, path: Bytes, file: Option<Bytes>)
    requires Healthy(s) && fd in s.clients
    ensures ShareFileDone(s, DoShareFile(s, fd, path, file), fd, path, file)
  {
    hide Sound, Send, Say, Refused, FileGoes, SendTexts, Sockets, Reaches, Distinct, FileTransfer.FileTexts,
      FileTransfer.FileName;
    var r := s.clients[fd].room;
    if path == "" {
      RefusedWith(s, fd, FileUsage);
    } else if r == "" {
      RefusedWith(s, fd, NotInRoom);
    } else if file.None? {
      RefusedWith(s, fd, CannotOpen(path));
    } else {
      var name, members := FileTransfer.FileName(path), Members(s, r);
      var texts := FileTransfer.FileTexts(s.clients[fd].name, r, name, file.value);
      var sockets, to := Sockets(s.index, members), (iset k | Reaches(s.index, members, k));
      MembersDistinct(s, r);
      SocketsDistinct(s, members);
      forall g ensures Out(SendTexts(s, sockets, texts), g) == Out(s, g) + if g in to then texts else [] {
        SendTextsExact(s, sockets, texts, g);
      }
      ThenReply(s, SendTexts(s, sockets, texts), fd, r, path, file.value, to, FileSent(name));
    }
  }

  lemma MembersDistinct(s: State, r: string)
    requires Healthy(s)
    ensures Distinct(Members(s, r))
  {
    hide Sound;
  }

  // ------------------------------------------------------------------ texts

  ghost predicate WhisperDone(s: State, t: State, fd: nat, target: Bytes, text: Bytes, id: Id)
    requires fd in s.clients
  {
    if target != "" && text != "" && Lookup(s, target).Some? then
      var k, me := Lookup(s, target).value, s.clients[fd].name;
      var m := ChatMessage(me, target, PRIVATE, Emoji.Substitute(Emoji.EMOJIS, text), id);
      && k in s.clients && s.clients[k].name == target
      && t == s.(history := t.history, log := s.log + [m], sent := t.sent) && Stored(s.history, t.history, m)
      && forall g :: Out(t, g) == Out(s, g) + Once(g == k, Encode(m)) + Once(g == fd, Encode(m))
    else Refused(s, t, fd, if target == "" || text == "" then WhisperUsage else UserNotFound(target))
  }

  lemma TwoTold(s: State, t: State, k: nat, fd: nat, text: string, g: nat)
    requires k in s.clients && fd in s.clients && t.clients == s.clients && t.sent == s.sent
    ensures Out(Send(Send(t, k, text), fd, text), g) == Out(s, g) + Once(g == k, text) + Once(g == fd, text)
  {
  }

  /** `/whisper`, logged in or not, succeeds exactly with a text and a name somebody is found under; then
      exactly that client and the sender get the message, each once, and it is logged. */
  lemma WhisperOutcome(s: State, fd: nat, target: Bytes, text: Bytes, id: Id)
    requires Healthy(s) && fd in s.clients
    ensures WhisperDone(s, DoWhisper(s, fd, target, text, id), fd, target, text, id)
  {
    hide Healthy, Send, Say, Refused, Lookup, Typed, Encode, Add, Stored, Once, Emoji.Substitute, Emoji.EMOJIS;
    if target == "" || text == "" {
      RefusedWith(s, fd, WhisperUsage);
    } else if Lookup(s, target).None? {
      RefusedWith(s, fd, UserNotFound(target));
    } else {
      FoundIs(s, target);
      TypedIs(s, fd, target, PRIVATE, text, id);
      AddStored(s.history, Typed(s, fd, target, PRIVATE, text, id));
      var k, m := Lookup(s, target).value, Typed(s, fd, target, PRIVATE, text, id);
      forall g ensures Out(DoWhisper(s, fd, target, text, id), g) ==
        Out(s, g) + Once(g == k, Encode(m)) + Once(g == fd, Encode(m))
      {
        TwoTold(s, Record(s, m), k, fd, Encode(m), g);
      }
    }
  }

  /** Who is sent what for a text in no room, or in one: everybody connected, or the members of the
      room; and the sender, if the room is gone. */
  ghost function Spoken(s: State, fd: nat, m: ChatMessage, k: nat): seq<string>
    requires fd in s.clients
  {
    var r := s.clients[fd].room;
    if r == "" then Once(k in s.clients, Encode(m))
    else if r in s.rooms then Once(Reaches(s.index, s.rooms[r].members, k), Encode(m))
    else Once(k == fd, Say(NoRoom(r)))
  }

  ghost predicate PlainDone(s: State, t: State, fd: nat, line: Message, chance: Chance)
    requires fd in s.clients
  {
    if s.clients[fd].loggedIn && !Silenced(s, fd, chance.now) then
      var me, r, content := s.clients[fd].name, s.clients[fd].room, Emoji.Substitute(Emoji.EMOJIS, line);
      var m := ChatMessage(me, r, if r == "" then BROADCAST else ROOM_MESSAGE, content, chance.id);
      && t.clients == s.clients[fd := s.clients[fd].(muted := false)]
      && t == s.(clients := t.clients, history := t.history, log := t.log, sent := t.sent)
      && (if r == "" || r in s.rooms then t.log == s.log + [m] && Stored(s.history, t.history, m)
          else t.log == s.log && t.history == s.history)
      && forall k :: Out(t, k) == Out(s, k) + Spoken(s, fd, m, k)
    else Refused(s, t, fd, if !s.clients[fd].loggedIn then LoginFirst else StillMuted)
  }

  lemma PlainTold(s: State, fd: nat, line: Message, chance: Chance, k: nat)
    requires Healthy(s) && fd in s.clients && s.clients[fd].loggedIn && !Silenced(s, fd, chance.now)
    ensures var t, r := DoPlain(s, fd, line, chance), s.clients[fd].room;
      Out(t, k) == Out(s, k) +
        Spoken(s, fd, Typed(s, fd, r, if r == "" then BROADCAST else ROOM_MESSAGE, line, chance.id), k)
  {
    hide Say, Encode, Typed, Deliver, Add, Distinct, Reaches, Sound, Silenced;
    var r, u := s.clients[fd].room, Unsilence(s, fd);
    PutSound(s.clients, s.index, fd, s.clients[fd].(muted := false));
    if r in s.rooms {
      DeliverExact(u, s.rooms[r].members, Encode(Typed(s, fd, r, ROOM_MESSAGE, line, chance.id)), k);
    }
  }

  /** A plain text is accepted exactly from clients that are logged in and may speak; then exactly those
      it is for get it once, and it is logged. */
  lemma PlainOutcome(s: State, fd: nat, line: Message, chance: Chance)
    requires Healthy(s) && fd in s.clients
    ensures PlainDone(s, DoPlain(s, fd, line, chance), fd, line, chance)
  {
    hide Healthy, Send, Broadcast, Say, Refused, Typed, Encode, Deliver, Add, Stored, Spoken, Silenced,
      Emoji.Substitute, Emoji.EMOJIS;
    if !s.clients[fd].loggedIn {
      RefusedWith(s, fd, LoginFirst);
    } else if Silenced(s, fd, chance.now) {
      RefusedWith(s, fd, StillMuted);
    } else {
      var r := s.clients[fd].room;
      TypedIs(s, fd, r, if r == "" then BROADCAST else ROOM_MESSAGE, line, chance.id);
      var m := Typed(s, fd, r, if r == "" then BROADCAST else ROOM_MESSAGE, line, chance.id);
      AddStored(s.history, m);
      forall k ensures Out(DoPlain(s, fd, line, chance), k) == Out(s, k) + Spoken(s, fd, m, k) {
        PlainTold(s, fd, line, chance, k);
      }
    }
  }

  ghost predicate UnknownDone(s: State, t: State, fd: nat, line: Message, word: Bytes, id: Id)
    requires fd in s.clients
  {
    var r := s.clients[fd].room;
    if r != "" then
      var m := ChatMessage(s.clients[fd].name, r, ROOM_MESSAGE, Emoji.Substitute(Emoji.EMOJIS, line), id);
      && t == s.(history := t.history, log := s.log + [m], sent := t.sent) && Stored(s.history, t.history, m)
      && forall k :: Out(t, k) == Out(s, k) + Once(Reaches(s.index, Members(s, r), k), Encode(m))
    else Refused(s, t, fd, UnknownCommand(word))
  }

  lemma UnknownTold(s: State, fd: nat, line: Message, word: Bytes, id: Id, k: nat)
    requires Healthy(s) && fd in s.clients && s.clients[fd].room != ""
    ensures var t, r := DoUnknown(s, fd, line, word, id), s.clients[fd].room;
      Out(t, k) == Out(s, k) + Once(Reaches(s.index, Members(s, r), k), Encode(Typed(s, fd, r, ROOM_MESSAGE, line, id)))
  {
    hide Say, Encode, Typed, Deliver, Add, Distinct, Sound, Send;
    var r := s.clients[fd].room;
    var m := Typed(s, fd, r, ROOM_MESSAGE, line, id);
    if r in s.rooms {
      DeliverExact(Record(s, m), s.rooms[r].members, Encode(m), k);
    }
  }

  /** An unknown command from somebody in a room, logged in or not, muted or not, goes to its members and
      into the log, even if the room is gone. */
  lemma UnknownOutcome(s: State, fd: nat, line: Message, word: Bytes, id: Id)
    requires Healthy(s) && fd in s.clients
    ensures UnknownDone(s, DoUnknown(s, fd, line, word, id), fd, line, word, id)
  {
    hide Healthy, Send, Say, Refused, Typed, Encode, Deliver, Add, Stored, Reaches, Emoji.Substitute, Emoji.EMOJIS;
    var r := s.clients[fd].room;
    if r == "" {
      RefusedWith(s, fd, UnknownCommand(word));
    } else {
      TypedIs(s, fd, r, ROOM_MESSAGE, line, id);
      AddStored(s.history, Typed(s, fd, r, ROOM_MESSAGE, line, id));
      forall k ensures Out(DoUnknown(s, fd, line, word, id), k) ==
        Out(s, k) + Once(Reaches(s.index, Members(s, r), k), Encode(Typed(s, fd, r, ROOM_MESSAGE, line, id)))
      {
        UnknownTold(s, fd, line, word, id, k);
      }
    }
  }
}
