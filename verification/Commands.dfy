/** Command lines: what `handleCommand` reads from them, and the lines the client builds. */
module Commands {
  import opened Text
  import opened Numbers
  import opened Framing

  datatype Command =
    | Login(name: Bytes, password: Bytes)
    | Register(name: Bytes, password: Bytes)
    | Whisper(target: Bytes, text: Bytes)
    | Quit
    | Nick(name: Bytes)
    | CreateRoom(name: Bytes, isPrivate: bool, password: Bytes)
    | JoinRoom(name: Bytes, password: Bytes)
    | LeaveRoom
    | Mute(target: Bytes, time: Bytes)
    | Unmute(target: Bytes)
    | Kick(target: Bytes, reason: Bytes)
    | ShowHistory(argument: Bytes)
    | ShowRoomHistory(argument: Bytes)
    | ShowUsers
    | ShowRooms
    | ShowMembers
    | Help
    | Info
    | Transfer(path: Bytes, target: Bytes)
    | ShareFile(path: Bytes)
    | Unknown(word: Bytes)

  // ------------------------------------------------------------------ stream extraction

  predicate SpaceFree(s: string) {
    forall i :: 0 <= i < |s| ==> !IsSpace(s[i])
  }

  function WordPrefix(s: Bytes): (w: Bytes)
    ensures w <= s && SpaceFree(w)
    ensures |w| < |s| ==> IsSpace(s[|w|])
  {
    if s == "" || IsSpace(s[0]) then "" else [s[0]] + WordPrefix(s[1..])
  }

  /** `std::getline(iss >> std::ws, rest)` on a line without newline. */
  function Rest(s: Bytes): Bytes {
    SkipSpace(s)
  }

  /** `iss >> word`: the word, and what is left in the stream. */
  function Word(s: Bytes): Bytes {
    WordPrefix(Rest(s))
  }

  function AfterWord(s: Bytes): Bytes {
    Rest(s)[|Word(s)|..]
  }

  // ------------------------------------------------------------------ the command table

  function Parse(line: Bytes): Command {
    var cmd, arguments := Word(line), AfterWord(line);
    var first, rest := Word(arguments), Rest(AfterWord(arguments));
    if cmd == "/login" || cmd == "/l" then Login(first, rest)
    else if cmd == "/register" || cmd == "/r" then Register(first, rest)
    else if cmd == "/whisper" || cmd == "/w" then Whisper(first, rest)
    else if cmd == "/quit" || cmd == "/q" then Quit
    else if cmd == "/nick" || cmd == "/n" then Nick(first)
    else if cmd == "/createroom" || cmd == "/cr" then
      var flag := Word(AfterWord(arguments));
      CreateRoom(first, flag == "private" || flag == "1", Word(AfterWord(AfterWord(arguments))))
    else if cmd == "/joinroom" || cmd == "/jr" then JoinRoom(first, rest)
    else if cmd == "/leaveroom" || cmd == "/lr" then LeaveRoom
    else if cmd == "/history" then ShowHistory(first)
    else if cmd == "/roomhistory" then ShowRoomHistory(first)
    else if cmd == "/mute" then Mute(first, rest)
    else if cmd == "/unmute" then Unmute(first)
    else if cmd == "/kick" then Kick(first, rest)
    else if cmd == "/transfer" || cmd == "/t" then Transfer(first, Word(AfterWord(arguments)))
    else if cmd == "/file" then ShareFile(first)
    else if cmd == "/users" || cmd == "/u" then ShowUsers
    else if cmd == "/rooms" || cmd == "/ro" then ShowRooms
    else if cmd == "/roommembers" || cmd == "/rm" then ShowMembers
    else if cmd == "/help" || cmd == "/h" then Help
    else if cmd == "/info" then Info
    else Unknown(cmd)
  }

  /** Commands that only write to sockets. */
  predicate IsQuery(c: Command) {
    c.ShowUsers? || c.ShowRooms? || c.ShowMembers? || c.Help? || c.Info? || c.ShowHistory? || c.ShowRoomHistory?
    || c.Transfer? || c.ShareFile?
  }

  /** Names, targets and room names on command lines never hold white space. */
  lemma ParsedWords(line: Bytes)
    ensures var c := Parse(line);
      && (c.Login? || c.Register? || c.Nick? || c.CreateRoom? || c.JoinRoom? ==> SpaceFree(c.name))
      && (c.Whisper? || c.Mute? || c.Unmute? || c.Kick? ==> SpaceFree(c.target))
  {
    hide WordPrefix, Rest, AfterWord;
  }

  // ------------------------------------------------------------------ the client's command lines

  /** `ChatClient::sendPrivateMessage`. */
  function WhisperLine(receiver: Bytes, message: Bytes): Bytes {
    "/whisper " + receiver + " " + message
  }

  /** `ChatClient::login`. */
  function LoginLine(name: Bytes, password: Bytes): Bytes {
    if password == "" then "/login " + name else "/login " + name + " " + password
  }

  lemma WordOf(word: Bytes, rest: Bytes)
    requires word != "" && SpaceFree(word) && (rest == "" || IsSpace(rest[0]))
    ensures Word(word + rest) == word && AfterWord(word + rest) == rest
  {
    hide WordPrefix;
    var s: Bytes := word + rest;
    assert s[0] == word[0];
    NoLeadingSpace(s);
    WordPrefixOf(word, rest);
    assert s[|word|..] == rest;
  }

  lemma {:induction false} WordPrefixOf(word: Bytes, rest: Bytes)
    requires SpaceFree(word) && (rest == "" || IsSpace(rest[0]))
    ensures WordPrefix(word + rest) == word
  {
    if word == "" {
      assert word + rest == rest;
    } else {
      assert (word + rest)[1..] == word[1..] + rest;
      WordPrefixOf(word[1..], rest);
    }
  }

  lemma SkipOneSpace(s: Bytes)
    ensures Rest(" " + s) == Rest(s) && Word(" " + s) == Word(s) && AfterWord(" " + s) == AfterWord(s)
  {
    assert (" " + s)[1..] == s;
  }

  /** A word, a blank and the remaining text are read back as the word and the text without
      its leading blanks. */
  lemma TwoArguments(cmd: Bytes, word: Bytes, text: Bytes)
    requires cmd != "" && SpaceFree(cmd) && SpaceFree(word)
    ensures var line: Bytes := cmd + (" " + (word + (" " + text)));
      && Word(line) == cmd
      && (word != "" ==> Word(AfterWord(line)) == word && Rest(AfterWord(AfterWord(line))) == Rest(text))
      && (word == "" ==> Word(AfterWord(line)) == Word(text) && AfterWord(AfterWord(line)) == AfterWord(text))
  {
    hide Word, AfterWord, Rest;
    WordOf(cmd, " " + (word + (" " + text)));
    SkipOneSpace(word + (" " + text));
    if word != "" {
      WordOf(word, " " + text);
    } else {
      assert word + (" " + text) == " " + text;
    }
    SkipOneSpace(text);
  }

  /** What a pair of arguments must be like to be read back unchanged. */
  predicate Readable(word: Bytes, text: Bytes) {
    SpaceFree(word) && (text == "" || !IsSpace(text[0])) && (word == "" ==> text == "")
  }

  lemma EmptyWord(text: Bytes)
    ensures Word(text) == "" ==> Rest(text) == "" && AfterWord(text) == ""
    ensures Rest(text) == text <==> text == "" || !IsSpace(text[0])
    ensures SpaceFree(Word(text))
  {
  }

  lemma WhisperParsed(receiver: Bytes, message: Bytes)
    ensures Parse(WhisperLine(receiver, message)) == Whisper(receiver, message) <==> Readable(receiver, message)
  {
    hide Word, AfterWord, Rest, SpaceFree;
    var line := WhisperLine(receiver, message);
    ParsedWords(line);
    if SpaceFree(receiver) {
      assert line == "/whisper" + (" " + (receiver + (" " + message)));
      SlashWords();
      TwoArguments("/whisper", receiver, message);
      EmptyWord(message);
      EmptyWord("");
      SkipNothing();
    }
  }

  lemma SkipNothing()
    ensures Rest("") == "" && Word("") == ""
  {
  }

  lemma SlashWords()
    ensures SpaceFree("/whisper") && SpaceFree("/login")
  {
  }

  lemma LoginParsed(name: Bytes, password: Bytes)
    ensures Parse(LoginLine(name, password)) == Login(name, password) <==> Readable(name, password)
  {
    hide Word, AfterWord, Rest, SpaceFree;
    var line := LoginLine(name, password);
    ParsedWords(line);
    SkipNothing();
    SlashWords();
    if SpaceFree(name) {
      if password == "" {
        assert line == "/login" + (" " + name);
        WordOf("/login", " " + name);
        SkipOneSpace(name);
        if name != "" {
          assert name + "" == name;
          WordOf(name, "");
        } else {
          EmptyWord("");
        }
      } else {
        assert line == "/login" + (" " + (name + (" " + password)));
        TwoArguments("/login", name, password);
        EmptyWord(password);
      }
    }
  }

  // ------------------------------------------------------------------ over the connection

  predicate OneLine(s: string) {
    Free(s, NL) && Free(s, NUL)
  }

  /** Lines written with their newlines arrive as those lines, however they are cut, exactly when none
      is empty or holds a newline or a NUL. */
  lemma AllArriveIff(lines: seq<string>, chunks: seq<string>)
    requires Concat(chunks) == Terminated(lines)
    ensures Lines(Concat(CStrings(chunks))) == lines
      <==> forall i :: 0 <= i < |lines| ==> lines[i] != "" && OneLine(lines[i])
  {
    hide Lines, Concat, CString, Terminated, Free;
    if forall i :: 0 <= i < |lines| ==> lines[i] != "" && OneLine(lines[i]) {
      TerminatedFree(lines, NUL);
      ChunkInvariance(Terminated(lines), chunks);
      NoneFree(NL);
      LinesOfTerminated(lines, "");
      assert Terminated(lines) + "" == Terminated(lines);
    }
    if Lines(Concat(CStrings(chunks))) == lines {
      ConcatFree(CStrings(chunks), NUL);
      LinesFree(Concat(CStrings(chunks)), NUL);
      LinesFree(Concat(CStrings(chunks)), NL);
    }
  }

  lemma NoneFree(c: char)
    ensures Free("", c)
  {
  }

  lemma {:induction false} TerminatedFree(lines: seq<string>, c: char)
    requires c != NL && forall i :: 0 <= i < |lines| ==> Free(lines[i], c)
    ensures Free(Terminated(lines), c)
  {
    if lines != [] {
      TerminatedFree(lines[1..], c);
    }
  }

  /** So a line the client sends arrives as that line exactly when it holds neither newline nor NUL. */
  lemma ArrivesIff(line: string, chunks: seq<string>)
    requires line != "" && Concat(chunks) == line + "\n"
    ensures Lines(Concat(CStrings(chunks))) == [line] <==> OneLine(line)
  {
    hide Lines, Concat, CStrings, Terminated, OneLine;
    TerminatedLine(line);
    AllArriveIff([line], chunks);
    assert [line][0] == line;
  }

  lemma TerminatedLine(line: string)
    ensures Terminated([line]) == line + "\n"
  {
    assert [line][1..] == [];
  }

  lemma OneLineJoined(prefix: string, a: string, b: string)
    requires OneLine(prefix)
    ensures OneLine(prefix + a + " " + b) <==> OneLine(a) && OneLine(b)
    ensures OneLine(prefix + a) <==> OneLine(a)
  {
    var s, t := prefix + a + " " + b, prefix + a;
    assert forall i :: 0 <= i < |a| ==> a[i] == s[|prefix| + i] && a[i] == t[|prefix| + i];
    assert forall i :: 0 <= i < |b| ==> b[i] == s[|prefix| + |a| + 1 + i];
  }

  lemma PrefixesOneLine()
    ensures OneLine("/whisper ") && OneLine("/login ") && OneLine("")
  {
  }

  /** Through the receive loop, under every cut, the server gets the receiver and the text the
      client was given, and nothing else, exactly when the receiver is one word, the text does not
      start with white space, and neither holds a newline or a NUL. */
  lemma WhisperReadBack(receiver: Bytes, message: Bytes, chunks: seq<string>)
    requires Concat(chunks) == WhisperLine(receiver, message) + "\n"
    ensures Lines(Concat(CStrings(chunks))) == [WhisperLine(receiver, message)]
        && Parse(WhisperLine(receiver, message)) == Whisper(receiver, message)
      <==> Readable(receiver, message) && OneLine(receiver) && OneLine(message)
  {
    hide Parse, Lines, Concat, CStrings, Readable, OneLine;
    WhisperParsed(receiver, message);
    ArrivesIff(WhisperLine(receiver, message), chunks);
    PrefixesOneLine();
    OneLineJoined("/whisper ", receiver, message);
  }

  /** The same for a login line, whose password part is left out when it is empty. */
  lemma LoginReadBack(name: Bytes, password: Bytes, chunks: seq<string>)
    requires Concat(chunks) == LoginLine(name, password) + "\n"
    ensures Lines(Concat(CStrings(chunks))) == [LoginLine(name, password)]
        && Parse(LoginLine(name, password)) == Login(name, password)
      <==> Readable(name, password) && OneLine(name) && OneLine(password)
  {
    hide Parse, Lines, Concat, CStrings, Readable, OneLine;
    LoginParsed(name, password);
    ArrivesIff(LoginLine(name, password), chunks);
    PrefixesOneLine();
    OneLineJoined("/login ", name, password);
  }

  /** A text with a newline in it arrives as two lines, the second of which is a line of its own:
      the client sends the newline as it is. */
  lemma NewlineSplits(receiver: Bytes, text: Bytes, more: Bytes, chunks: seq<string>)
    requires OneLine(receiver) && OneLine(text) && OneLine(more) && more != ""
    requires Concat(chunks) == WhisperLine(receiver, text + "\n" + more) + "\n"
    ensures Lines(Concat(CStrings(chunks))) == [WhisperLine(receiver, text), more]
  {
    hide Lines, Concat, CStrings, Terminated, Free;
    var first := WhisperLine(receiver, text);
    PrefixesOneLine();
    OneLineJoined("/whisper ", receiver, text);
    TwoLines(first, more);
    assert Concat(chunks) == first + "\n" + (more + "\n");
    ChunkInvariance(Concat(chunks), chunks);
    LinesOfTerminated([first, more], "");
    assert Terminated([first, more]) + "" == Terminated([first, more]);
  }

  lemma TwoLines(a: string, b: string)
    requires OneLine(a) && OneLine(b)
    ensures Terminated([a, b]) == a + "\n" + (b + "\n")
    ensures Free(a + "\n" + (b + "\n"), NUL) && Free("", NL)
  {
    assert [a, b][1..] == [b];
    TerminatedLine(b);
  }
}
