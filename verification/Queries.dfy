/** What a query is answered, and what can be read from the answer. */
module Queries {
  import opened Text
  import opened Numbers
  import opened Wire
  import opened Framing
  import opened Commands
  import opened Replies
  import opened History
  import opened Server
  import opened Invariants
  import opened Delivery
  import opened Outcomes

  /** The sender is told the texts, nobody is told anything else, and nothing changes. */
  ghost predicate Answered(s: State, t: State, fd: nat, texts: seq<string>) {
    t == s.(sent := t.sent) && Told(s, t, fd, texts, [])
  }

  // ------------------------------------------------------------------ who is online

  /** The names of the clients that are logged in, one for each of them. */
  ghost predicate NamesOnline(clients: map<nat, Client>, picks: seq<nat>, names: seq<string>) {
    && Distinct(picks) && (forall g :: g in picks <==> g in clients && clients[g].loggedIn)
    && |names| == |picks| && forall i :: 0 <= i < |picks| ==> picks[i] in clients && names[i] == clients[picks[i]].name
  }

  lemma {:induction false} NamesPicked(clients: map<nat, Client>, order: seq<nat>) returns (picks: seq<nat>)
    requires Distinct(order)
    ensures Distinct(picks) && forall g :: g in picks <==> g in order && g in clients && clients[g].loggedIn
    ensures var names := UserNames(clients, order);
      |names| == |picks| && forall i :: 0 <= i < |picks| ==> picks[i] in clients && names[i] == clients[picks[i]].name
  {
    if order == [] {
      picks := [];
    } else {
      var front, last := order[..|order| - 1], order[|order| - 1];
      assert order == front + [last] && last !in front;
      picks := NamesPicked(clients, front);
      if last in clients && clients[last].loggedIn {
        picks := picks + [last];
      }
    }
  }

  // ------------------------------------------------------------------ the lists

  lemma {:induction false} JoinMore(fields: seq<string>, last: string)
    requires fields != []
    ensures Join(fields + [last]) == Join(fields) + "|" + last
  {
    if |fields| == 1 {
      assert (fields + [last])[1..] == [last];
    } else {
      JoinMore(fields[1..], last);
      assert (fields + [last])[1..] == fields[1..] + [last];
    }
  }

  lemma {:induction false} FieldsJoined(head: seq<string>, names: seq<string>)
    requires head != []
    ensures Join(head + names) == Join(head) + Fields(names)
  {
    hide Join;
    if names == [] {
      assert head + names == head;
    } else {
      var front, last := names[..|names| - 1], names[|names| - 1];
      FieldsJoined(head, front);
      JoinMore(head + front, last);
      assert head + names == head + front + [last];
      Regroup(Join(head), Fields(front), last);
    }
  }

  lemma Regroup(a: string, b: string, c: string)
    ensures a + b + "|" + c == a + (b + "|" + c)
  {
  }

  function UserFields(names: seq<string>): seq<string> {
    ["USERS", NatToString(|names|)] + names
  }

  lemma UserListJoined(names: seq<string>)
    ensures UserList(names) == Join(UserFields(names)) + "\n"
  {
    hide NatToString;
    FieldsJoined(["USERS", NatToString(|names|)], names);
    assert ["USERS", NatToString(|names|)][1..] == [NatToString(|names|)];
  }

  /** The number of users and their names can be read from the list exactly when no name holds a separator. */
  lemma UserListReadIff(names: seq<string>)
    ensures UserList(names) == Join(UserFields(names)) + "\n" && Value(UserFields(names)[1], 10) == |names|
    ensures Split(Join(UserFields(names))) == ["USERS", NatToString(|names|)] + names
      <==> forall i :: 0 <= i < |names| ==> Free(names[i], BAR)
  {
    hide NatToString, Split, Join, Free, UserList;
    UserListJoined(names);
    ValueOfNat(|names|);
    SplitJoinIff(UserFields(names));
    CountFree(|names|);
    AllFree("USERS", NatToString(|names|), names);
  }

  lemma AllFree(first: string, second: string, names: seq<string>)
    ensures var fields := [first, second] + names;
      (forall i :: 0 <= i < |fields| ==> Free(fields[i], BAR))
        <==> Free(first, BAR) && Free(second, BAR) && forall i :: 0 <= i < |names| ==> Free(names[i], BAR)
  {
    hide Free;
    var fields := [first, second] + names;
    assert fields[0] == first && fields[1] == second && forall i :: 0 <= i < |names| ==> names[i] == fields[i + 2];
  }

  lemma CountFree(n: nat)
    ensures Free("USERS", BAR) && Free(NatToString(n), BAR)
    ensures OneLine(NatToString(n)) && NatToString(n) != ""
  {
    hide NatToString;
  }

  function RoomListLines(names: seq<string>): seq<string> {
    ["ROOM_LIST|" + NatToString(|names|)] + names
  }

  function MemberListLines(room: string, members: seq<string>): seq<string> {
    ["ROOM_MEMBERS|" + room + "|" + NatToString(|members|)] + members
  }

  lemma ListsTerminated(room: string, names: seq<string>)
    ensures RoomList(names) == Terminated(RoomListLines(names))
    ensures MemberList(room, names) == Terminated(MemberListLines(room, names))
  {
    hide NatToString;
    assert RoomListLines(names)[1..] == names && MemberListLines(room, names)[1..] == names;
  }

  predicate Lineable(name: string) {
    name != "" && OneLine(name)
  }

  lemma AllLineable(first: string, names: seq<string>)
    ensures var lines := [first] + names;
      (forall i :: 0 <= i < |lines| ==> lines[i] != "" && OneLine(lines[i]))
        <==> Lineable(first) && forall i :: 0 <= i < |names| ==> Lineable(names[i])
  {
    hide OneLine;
    var lines := [first] + names;
    assert lines[0] == first && forall i :: 0 <= i < |names| ==> names[i] == lines[i + 1];
  }

  lemma HeadersLineable(room: string, n: nat)
    ensures Lineable("ROOM_LIST|" + NatToString(n))
    ensures Lineable("ROOM_MEMBERS|" + room + "|" + NatToString(n)) <==> OneLine(room)
  {
    hide NatToString;
    CountFree(n);
    FreeParts("ROOM_LIST|", NatToString(n), "", "", NL);
    FreeParts("ROOM_LIST|", NatToString(n), "", "", NUL);
    FreeParts("ROOM_MEMBERS|", room, "|", NatToString(n), NL);
    FreeParts("ROOM_MEMBERS|", room, "|", NatToString(n), NUL);
    assert "ROOM_LIST|" + NatToString(n) + "" + "" == "ROOM_LIST|" + NatToString(n);
  }

  /** The list of rooms arrives as its heading and one room a line, under any cut, exactly when every name is
      one non-empty line. */
  lemma RoomListArrivesIff(names: seq<string>, chunks: seq<string>)
    requires Concat(chunks) == RoomList(names)
    ensures Lines(Concat(CStrings(chunks))) == ["ROOM_LIST|" + NatToString(|names|)] + names
      <==> forall i :: 0 <= i < |names| ==> Lineable(names[i])
  {
    hide NatToString, Lines, Concat, CStrings, Terminated, OneLine, Lineable, RoomList, MemberList;
    ListsTerminated("", names);
    HeadersLineable("", |names|);
    AllLineable("ROOM_LIST|" + NatToString(|names|), names);
    AllArriveIff(RoomListLines(names), chunks);
  }

  /** So does the list of members, if the room's name is one line too. */
  lemma MemberListArrivesIff(room: string, members: seq<string>, chunks: seq<string>)
    requires Concat(chunks) == MemberList(room, members)
    ensures Lines(Concat(CStrings(chunks))) == ["ROOM_MEMBERS|" + room + "|" + NatToString(|members|)] + members
      <==> OneLine(room) && forall i :: 0 <= i < |members| ==> Lineable(members[i])
  {
    hide NatToString, Lines, Concat, CStrings, Terminated, OneLine, Lineable, RoomList, MemberList;
    ListsTerminated(room, members);
    HeadersLineable(room, |members|);
    AllLineable("ROOM_MEMBERS|" + room + "|" + NatToString(|members|), members);
    AllArriveIff(MemberListLines(room, members), chunks);
  }

  lemma {:induction false} RoomNamesAll(rooms: map<string, ChatRoom>, order: seq<string>)
    requires forall r :: r in order ==> r in rooms
    ensures RoomNames(rooms, order) == order
  {
    if order != [] {
      var front, last := order[..|order| - 1], order[|order| - 1];
      assert order == front + [last];
      RoomNamesAll(rooms, front);
    }
  }

  // ------------------------------------------------------------------ the answers

  /** A heading, and a line for each message: when it was, whose it is, and what it says. */
  ghost predicate HistoryAnswer(texts: seq<string>, heading: string, ms: seq<ChatMessage>, stamps: seq<string>) {
    && |texts| == |ms| + 1 && texts[0] == heading + "\n"
    && forall i :: 0 <= i < |ms| ==>
         texts[i + 1] == "SYS|[" + Stamp(stamps, i) + "] " + ms[i].sender + ": " + ms[i].content + "\n"
  }

  lemma HistoryTexts(room: bool, ms: seq<ChatMessage>, stamps: seq<string>)
    ensures HistoryAnswer([Say(Heading(room))] + Shown(ms, stamps),
              if room then "SYS|Room History:" else "SYS|Message History:", ms, stamps)
  {
    hide Say, Heading, ShownText, Stamp;
    HeadingSaid(room);
    forall i | 0 <= i < |ms|
      ensures Say(HistoryLine(ShownText(ms[i], Stamp(stamps, i)))) == ShownLine(ms[i], Stamp(stamps, i)) + "\n"
    {
      ShownSaid(ms[i], Stamp(stamps, i));
    }
  }

  /** What each query is answered, if the hash tables are iterated over in the orders given. */
  ghost predicate QueryDone(s: State, t: State, fd: nat, query: Command, chance: Chance)
    requires fd in s.clients && IsQuery(query)
  {
    var r := s.clients[fd].room;
    match query
    case ShowUsers =>
      Lists(chance.clientOrder, s.clients.Keys) ==>
        exists picks, names :: NamesOnline(s.clients, picks, names)
          && Answered(s, t, fd, [Join(["USERS", NatToString(|names|)] + names) + "\n"])
    case ShowRooms =>
      var names := chance.roomOrder;
      Lists(names, s.rooms.Keys) ==>
        Answered(s, t, fd, [Terminated(["ROOM_LIST|" + NatToString(|names|)] + names)])
    case ShowMembers =>
      if r == "" then Refused(s, t, fd, NotInRoom)
      else
        var members := if r in s.rooms then s.rooms[r].members else [];
        Answered(s, t, fd, [Terminated(["ROOM_MEMBERS|" + r + "|" + NatToString(|members|)] + members)])
    case Help => Answered(s, t, fd, [Say(HelpText)])
    case Info => Answered(s, t, fd, [Say(InfoText(|s.clients|))])
    case ShowHistory(argument) =>
      exists texts :: Answered(s, t, fd, texts)
        && HistoryAnswer(texts, "SYS|Message History:", LastN(s.history.all, Count(argument)), chance.stamps)
    case ShowRoomHistory(argument) =>
      if r == "" then Refused(s, t, fd, NotInRoom)
      else
        exists texts :: Answered(s, t, fd, texts)
          && HistoryAnswer(texts, "SYS|Room History:", LastN(Room(s.history, r), Count(argument)), chance.stamps)
    case Transfer(path, target) => TransferDone(s, t, fd, path, target, chance.file)
    case ShareFile(path) => ShareFileDone(s, t, fd, path, chance.file)
  }

  lemma SentAnswered(s: State, fd: nat, text: string)
    requires fd in s.clients
    ensures Answered(s, Send(s, fd, text), fd, [text])
  {
  }

  lemma TextsAnswered(s: State, fd: nat, texts: seq<string>)
    requires fd in s.clients
    ensures Answered(s, SendTexts(s, [fd], texts), fd, texts)
  {
    hide SendTexts;
    forall k ensures Out(SendTexts(s, [fd], texts), k) == Out(s, k) + if k == fd then texts else [] {
      SendTextsExact(s, [fd], texts, k);
    }
  }

  lemma UsersAnswered(s: State, fd: nat, chance: Chance)
    requires fd in s.clients
    ensures QueryDone(s, DoQuery(s, fd, ShowUsers, chance), fd, ShowUsers, chance)
  {
    hide Answered, Send, UserList, UserNames, NatToString, Join;
    if Lists(chance.clientOrder, s.clients.Keys) {
      var names := UserNames(s.clients, chance.clientOrder);
      var picks := NamesPicked(s.clients, chance.clientOrder);
      UserListJoined(names);
      SentAnswered(s, fd, UserList(names));
      assert NamesOnline(s.clients, picks, names);
    }
  }

  lemma ListsAnswered(s: State, fd: nat, chance: Chance)
    requires fd in s.clients
    ensures QueryDone(s, DoQuery(s, fd, ShowRooms, chance), fd, ShowRooms, chance)
    ensures QueryDone(s, DoQuery(s, fd, ShowMembers, chance), fd, ShowMembers, chance)
  {
    hide Answered, Send, RoomList, MemberList, RoomNames, NatToString, Terminated, Say, Refused;
    var r := s.clients[fd].room;
    ListsTerminated(r, chance.roomOrder);
    SentAnswered(s, fd, RoomList(chance.roomOrder));
    if Lists(chance.roomOrder, s.rooms.Keys) {
      RoomNamesAll(s.rooms, chance.roomOrder);
    }
    RefusedWith(s, fd, NotInRoom);
    ListsTerminated(r, Members(s, r));
    SentAnswered(s, fd, MemberList(r, Members(s, r)));
  }

  lemma HistoryAnsweredDone(s: State, fd: nat, argument: Bytes, chance: Chance)
    requires fd in s.clients
    ensures QueryDone(s, DoQuery(s, fd, ShowHistory(argument), chance), fd, ShowHistory(argument), chance)
    ensures QueryDone(s, DoQuery(s, fd, ShowRoomHistory(argument), chance), fd, ShowRoomHistory(argument), chance)
  {
    hide Answered, Send, SendTexts, Shown, Count, Say, Room, LastN, Refused, HistoryAnswer;
    var r, n := s.clients[fd].room, Count(argument);
    var all, some := LastN(s.history.all, n), LastN(Room(s.history, r), n);
    HistoryTexts(false, all, chance.stamps);
    TextsAnswered(s, fd, [Say(HistoryHeader)] + Shown(all, chance.stamps));
    HistoryTexts(true, some, chance.stamps);
    TextsAnswered(s, fd, [Say(RoomHistoryHeader)] + Shown(some, chance.stamps));
    RefusedWith(s, fd, NotInRoom);
  }

  /** Each query is answered with that, and to its sender alone but for files. */
  lemma QueryOutcome(s: State, fd: nat, query: Command, chance: Chance)
    requires Healthy(s) && fd in s.clients && IsQuery(query)
    ensures QueryDone(s, DoQuery(s, fd, query, chance), fd, query, chance)
  {
    hide Healthy, Send, SendTexts, Say, Shown, Count, UserNames, RoomNames, UserList, RoomList, MemberList, DoTransfer,
      DoShareFile, TransferDone, ShareFileDone, Answered;
    if query.ShowUsers? {
      UsersAnswered(s, fd, chance);
    } else if query.ShowRooms? || query.ShowMembers? {
      ListsAnswered(s, fd, chance);
    } else if query.ShowHistory? || query.ShowRoomHistory? {
      HistoryAnsweredDone(s, fd, query.argument, chance);
    } else if query.Transfer? {
      TransferOutcome(s, fd, query.path, query.target, chance.file);
    } else if query.ShareFile? {
      ShareFileOutcome(s, fd, query.path, chance.file);
    } else {
      SentAnswered(s, fd, Say(if query.Help? then HelpText else InfoText(|s.clients|)));
    }
  }
}
