/** A server that starts from its files: what every such start state fulfils, and what a restart
    keeps. */
module Restart {
  import opened Text
  import opened Wire
  import opened Framing
  import opened History
  import opened Users
  import opened Server
  import opened Invariants
  import opened Membership
  import opened Delivery
  import opened Logs
  import opened Accounts
  import Rosters

  /** `start` loads the users and the history before it accepts anybody; a file that is not there
      loads like an empty one. */
  function Boot(users: string, messages: string): State {
    START.(users := PutLines(map[], FileLines(users)),
           history := LoadText(EMPTY, messages), log := Decoded(FileLines(messages)))
  }

  /** Whatever is in the files, the server starts in a state the results about runs apply to. */
  lemma BootReady(users: string, messages: string)
    ensures var s := Boot(users, messages);
      && Settled(s) && Seated(s.clients, s.rooms) && Rosters.Agrees(s) && Flushed(s.sent)
      && Refines(s.history, s.log) && AllClean(s.clients, s.rooms) && AllSafe(s.log) && AllUserSafe(s.users)
  {
    hide FileLines, Decoded, PutLines, Refines, UserSafe, FileSafe, AddAll;
    EmptyRefines();
    AddAllRefines(EMPTY, [], Decoded(FileLines(messages)));
    assert [] + Decoded(FileLines(messages)) == Decoded(FileLines(messages));
    FileLinesFree(messages);
    DecodedAllSafe(FileLines(messages));
    FileLinesFree(users);
    LoadedAllSafe(FileLines(users));
  }

  /** The state a server with these users and this history starts in again after it has saved them,
      the users in the given order. */
  function Restarted(s: State, order: seq<string>): State
    requires forall n :: n in order ==> n in s.users
  {
    Boot(Terminated(UserLines(s.users, order)), SaveText(s.history))
  }

  ghost predicate Persistent(s: State) {
    Refines(s.history, s.log) && AllSafe(s.log) && AllUserSafe(s.users)
  }

  lemma RestartKeeps(s: State, order: seq<string>, r: string)
    requires Persistent(s) && Lists(order, s.users.Keys)
    ensures var t := Restarted(s, order);
      && Persistent(t) && t.users == s.users
      && t.history.all == s.history.all && Room(t.history, r) == RoomLog(s.history.all, r)
  {
    hide Refines, AllSafe, UserLines, PutLines, FileLines, Terminated, SaveText, LoadText, Decoded, Room, RoomLog,
      UserSafe, Settled, Seated, Flushed, AllClean;
    SaveLoadUsersIff(s.users, order);
    SafeLogReloads(s.history, s.log, r);
    BootReady(Terminated(UserLines(s.users, order)), SaveText(s.history));
  }

  /** Started from any files, run for any time with names free of separators and colons, stopped and
      started again, the server has the same users and the same global history, and for each room
      the global history filtered to it. */
  lemma RunThenRestart(users: string, messages: string, events: seq<Event>, order: seq<string>, r: string)
    requires AllCleanEvents(events) && forall i :: 0 <= i < |events| ==> ColonFree(events[i])
    requires Lists(order, Run(Boot(users, messages), events).users.Keys)
    ensures var s := Run(Boot(users, messages), events);
      var t := Restarted(s, order);
      t.users == s.users && t.history.all == s.history.all && Room(t.history, r) == RoomLog(s.history.all, r)
  {
    hide Run, Boot, Restarted, Healthy, Named, Seated, Flushed, Refines, AllClean, AllSafe, AllUserSafe, AllCleanEvents,
      ColonFree, Room, RoomLog;
    var start := Boot(users, messages);
    BootReady(users, messages);
    RunRefines(start, events);
    RunSafe(start, events);
    RunUsersSafe(start, events);
    RestartKeeps(Run(start, events), order, r);
  }

  /** Two stores that refine the same log are the same store. */
  lemma RefinesUnique(g: Store, h: Store, log: seq<ChatMessage>)
    requires Refines(g, log) && Refines(h, log)
    ensures g == h
  {
    hide RoomLog;
    assert forall r :: r in g.rooms <==> r in h.rooms;
    forall r | r in g.rooms ensures g.rooms[r] == h.rooms[r] {
      assert Room(g, r) == Room(h, r);
    }
    assert g.rooms == h.rooms;
  }

  /** Restarting once more changes nothing at all. */
  lemma RestartTwice(s: State, order: seq<string>, again: seq<string>)
    requires Persistent(s) && Lists(order, s.users.Keys) && Lists(again, s.users.Keys)
    ensures Restarted(s, order).users == s.users
    ensures Restarted(Restarted(s, order), again) == Restarted(s, order)
  {
    hide Refines, AllSafe, AllUserSafe, UserLines, PutLines, FileLines, Terminated, SaveText, AddAll, Decoded, Room,
      RoomLog, Settled, Seated, Flushed, AllClean;
    var t := Restarted(s, order);
    RestartKeeps(s, order, "");
    RestartLog(s, order);
    RestartKeeps(t, again, "");
    RestartLog(t, again);
    var u := Restarted(t, again);
    RefinesUnique(t.history, u.history, t.log);
  }

  /** What is logged after a restart is the saved history. */
  lemma RestartLog(s: State, order: seq<string>)
    requires Persistent(s) && forall n :: n in order ==> n in s.users
    ensures Restarted(s, order).log == s.history.all
  {
    hide Terminated, UserLines, FileLines, PutLines, Decoded, AddAll, FileSafe, UserSafe, RoomLog, Concat, MapEncode;
    forall i | 0 <= i < |s.history.all| ensures FileSafe(s.history.all[i]) {
    }
    SavedText(s.history.all);
  }
}
