/** The user file: one `name:record` line per registered user. */
module Users {
  import opened Text
  import opened Framing
  import opened History

  type Registry = map<string, string>

  // ------------------------------------------------------------------ saving

  function UserLine(name: string, record: string): string {
    name + ":" + record
  }

  function UserLines(users: Registry, order: seq<string>): seq<string>
    requires forall n :: n in order ==> n in users
  {
    seq(|order|, i requires 0 <= i < |order| => UserLine(order[i], users[order[i]]))
  }

  method SaveUsers(users: Registry, order: seq<string>) returns (text: string)
    requires Lists(order, users.Keys)
    ensures text == Terminated(UserLines(users, order))
  {
    text := "";
    var i := 0;
    while i < |order|
      invariant 0 <= i <= |order|
      invariant text == Terminated(UserLines(users, order)[..i])
    {
      text := text + (order[i] + ":" + users[order[i]] + "\n");
      TerminatedAppend(UserLines(users, order)[..i], UserLine(order[i], users[order[i]]));
      assert UserLines(users, order)[..i + 1] == UserLines(users, order)[..i] + [UserLine(order[i], users[order[i]])];
      i := i + 1;
    }
    assert UserLines(users, order)[..i] == UserLines(users, order);
  }

  lemma {:induction false} TerminatedAppend(lines: seq<string>, line: string)
    ensures Terminated(lines + [line]) == Terminated(lines) + (line + "\n")
  {
    if lines == [] {
      assert lines + [line] == [line];
    } else {
      assert (lines + [line])[1..] == lines[1..] + [line];
      TerminatedAppend(lines[1..], line);
    }
  }

  // ------------------------------------------------------------------ loading

  /** A line without a colon is skipped; a later line for the same name wins. */
  function PutLine(users: Registry, line: string): Registry {
    var p := Find(line, COLON, 0);
    if p < 0 then users else users[line[..p] := line[p + 1..]]
  }

  function PutLines(users: Registry, lines: seq<string>): Registry {
    if lines == [] then users else PutLine(PutLines(users, lines[..|lines| - 1]), lines[|lines| - 1])
  }

  /** The line is for this user: its name up to the first colon. */
  predicate IsFor(line: string, name: string) {
    Free(name, COLON) && |name| < |line| && line[..|name|] == name && line[|name|] == COLON
  }

  lemma PutLineFor(users: Registry, line: string, name: string)
    ensures var after := PutLine(users, line);
      if IsFor(line, name) then name in after && after[name] == line[|name| + 1..]
      else (name in after <==> name in users) && (name in users ==> after[name] == users[name])
  {
    hide Find;
    if IsFor(line, name) {
      assert forall i :: 0 <= i < |name| ==> line[i] == name[i];
      FindIs(line, COLON, 0, |name|);
    }
  }

  /** No line from the i-th on is for this user. */
  predicate NoneFrom(lines: seq<string>, i: int, name: string) {
    forall j :: 0 <= j < |lines| && i <= j ==> !IsFor(lines[j], name)
  }

  /** Without a line for a user, its record is as before. */
  lemma {:induction false} NoLineKeeps(users: Registry, lines: seq<string>, name: string)
    requires NoneFrom(lines, 0, name)
    ensures var after := PutLines(users, lines);
      (name in after <==> name in users) && (name in users ==> after[name] == users[name])
  {
    hide PutLine, IsFor;
    if lines != [] {
      var front, last := lines[..|lines| - 1], lines[|lines| - 1];
      assert forall i :: 0 <= i < |front| ==> front[i] == lines[i];
      NoLineKeeps(users, front, name);
      PutLineFor(PutLines(users, front), last, name);
    }
  }

  /** The last line for a user tells its record. */
  lemma {:induction false} LastLineWins(users: Registry, lines: seq<string>, name: string, i: nat)
    requires i < |lines| && IsFor(lines[i], name) && NoneFrom(lines, i + 1, name)
    ensures var after := PutLines(users, lines); name in after && after[name] == lines[i][|name| + 1..]
  {
    hide PutLine, IsFor;
    var n := |lines| - 1;
    var front, last := lines[..n], lines[n];
    PutLineFor(PutLines(users, front), last, name);
    if i < n {
      assert forall k :: 0 <= k < n ==> front[k] == lines[k];
      LastLineWins(users, front, name, i);
    }
  }

  method LoadUsers(users: Registry, text: string) returns (loaded: Registry)
    ensures loaded == PutLines(users, FileLines(text))
  {
    hide FileLines, PutLine;
    var lines := FileLines(text);
    loaded := users;
    var i := 0;
    while i < |lines|
      invariant 0 <= i <= |lines| && loaded == PutLines(users, lines[..i])
    {
      loaded := PutLine(loaded, lines[i]);
      assert lines[..i + 1][..i] == lines[..i];
      i := i + 1;
    }
    assert lines[..i] == lines;
  }

  // ------------------------------------------------------------------ round trip

  predicate UserSafe(name: string, record: string) {
    Free(name, COLON) && Free(name, NL) && Free(record, NL)
  }

  lemma PutUserLine(users: Registry, name: string, record: string)
    requires UserSafe(name, record)
    ensures PutLine(users, UserLine(name, record)) == users[name := record]
    ensures UserLine(name, record) != "" && Free(UserLine(name, record), NL)
  {
    hide Find;
    var line := UserLine(name, record);
    assert forall i :: 0 <= i < |name| ==> line[i] == name[i];
    assert forall i :: 0 <= i < |record| ==> line[|name| + 1 + i] == record[i];
    FindIs(line, COLON, 0, |name|);
    assert line[..|name|] == name && line[|name| + 1..] == record;
  }

  lemma {:induction false} PutUserLines(users: Registry, order: seq<string>)
    requires forall n :: n in order ==> n in users && UserSafe(n, users[n])
    ensures PutLines(map[], UserLines(users, order)) == map n | n in order :: users[n]
  {
    hide PutLine, UserLine;
    if order != [] {
      var front, last := order[..|order| - 1], order[|order| - 1];
      assert order == front + [last];
      PutUserLines(users, front);
      assert UserLines(users, order)[..|order| - 1] == UserLines(users, front);
      PutUserLine(PutLines(map[], UserLines(users, front)), last, users[last]);
    }
  }

  lemma LoadedSafe(users: Registry, line: string)
    requires Free(line, NL)
    requires forall n :: n in users ==> UserSafe(n, users[n])
    ensures forall n :: n in PutLine(users, line) ==> UserSafe(n, PutLine(users, line)[n])
  {
    hide Find;
  }

  lemma {:induction false} LoadedAllSafe(lines: seq<string>)
    requires forall i :: 0 <= i < |lines| ==> Free(lines[i], NL)
    ensures forall n :: n in PutLines(map[], lines) ==> UserSafe(n, PutLines(map[], lines)[n])
  {
    hide PutLine, UserSafe, Free;
    if lines != [] {
      LoadedAllSafe(lines[..|lines| - 1]);
      LoadedSafe(PutLines(map[], lines[..|lines| - 1]), lines[|lines| - 1]);
    }
  }

  /** Whatever the iteration order of the hash map, a fresh server reads the saved users back
      exactly when every name is free of colon and newline, and every record of newline. */
  lemma SaveLoadUsersIff(users: Registry, order: seq<string>)
    requires Lists(order, users.Keys)
    ensures PutLines(map[], FileLines(Terminated(UserLines(users, order)))) == users
      <==> forall n :: n in users ==> UserSafe(n, users[n])
  {
    hide PutLine, UserSafe, UserLine, Terminated, Lines, Tail, Free, PutLines;
    var lines := UserLines(users, order);
    FileLinesFree(Terminated(lines));
    LoadedAllSafe(FileLines(Terminated(lines)));
    if forall n :: n in users ==> UserSafe(n, users[n]) {
      forall i | 0 <= i < |lines| ensures lines[i] != "" && Free(lines[i], NL) {
        assert order[i] in order;
        PutUserLine(map[], order[i], users[order[i]]);
      }
      EmptyFree();
      LinesOfTerminated(lines, "");
      assert Terminated(lines) + "" == Terminated(lines);
      assert FileLines(Terminated(lines)) == lines + [];
      assert lines + [] == lines;
      PutUserLines(users, order);
      assert (map n | n in order :: users[n]) == users;
    }
  }

  lemma EmptyFree()
    ensures Free("", NL)
  {
  }
}
