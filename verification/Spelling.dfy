/** Which command a typed line is, for every command, each of its words and all arguments. */
module Spelling {
  import opened Text
  import opened Numbers
  import opened Commands

  // ------------------------------------------------------------------ the words

  /** The words the help text lists for a command, short forms included. */
  predicate Means(word: string, c: Command) {
    match c
    case Login(_, _) => word == "/login" || word == "/l"
    case Register(_, _) => word == "/register" || word == "/r"
    case Whisper(_, _) => word == "/whisper" || word == "/w"
    case Quit => word == "/quit" || word == "/q"
    case Nick(_) => word == "/nick" || word == "/n"
    case CreateRoom(_, _, _) => word == "/createroom" || word == "/cr"
    case JoinRoom(_, _) => word == "/joinroom" || word == "/jr"
    case LeaveRoom => word == "/leaveroom" || word == "/lr"
    case Mute(_, _) => word == "/mute"
    case Unmute(_) => word == "/unmute"
    case Kick(_, _) => word == "/kick"
    case ShowHistory(_) => word == "/history"
    case ShowRoomHistory(_) => word == "/roomhistory"
    case ShowUsers => word == "/users" || word == "/u"
    case ShowRooms => word == "/rooms" || word == "/ro"
    case ShowMembers => word == "/roommembers" || word == "/rm"
    case Help => word == "/help" || word == "/h"
    case Info => word == "/info"
    case Transfer(_, _) => word == "/transfer" || word == "/t"
    case ShareFile(_) => word == "/file"
    case Unknown(unknown) => word == unknown && !IsCommand(word)
  }

  /** Some command has this word. */
  predicate IsCommand(word: string) {
    || word == "/login" || word == "/l" || word == "/register" || word == "/r" || word == "/whisper" || word == "/w"
    || word == "/quit" || word == "/q" || word == "/nick" || word == "/n" || word == "/createroom" || word == "/cr"
    || word == "/joinroom" || word == "/jr" || word == "/leaveroom" || word == "/lr" || word == "/mute"
    || word == "/unmute" || word == "/kick" || word == "/history" || word == "/roomhistory" || word == "/users"
    || word == "/u" || word == "/rooms" || word == "/ro" || word == "/roommembers" || word == "/rm" || word == "/help"
    || word == "/h" || word == "/info" || word == "/transfer" || word == "/t" || word == "/file"
  }

  lemma AccountWords(word: string)
    requires word == "/login" || word == "/l" || word == "/register" || word == "/r" || word == "/whisper"
      || word == "/w" || word == "/quit" || word == "/q" || word == "/nick" || word == "/n"
    ensures SpaceFree(word) && word[0] == '/'
  {
  }

  lemma RoomWords(word: string)
    requires word == "/createroom" || word == "/cr" || word == "/joinroom" || word == "/jr" || word == "/leaveroom"
      || word == "/lr" || word == "/roommembers" || word == "/rm" || word == "/rooms" || word == "/ro"
    ensures SpaceFree(word) && word[0] == '/'
  {
  }

  lemma OtherWords(word: string)
    requires word == "/mute" || word == "/unmute" || word == "/kick" || word == "/history" || word == "/roomhistory"
      || word == "/users" || word == "/u"
    ensures SpaceFree(word) && word[0] == '/'
  {
  }

  lemma MoreWords(word: string)
    requires word == "/help" || word == "/h" || word == "/info" || word == "/transfer" || word == "/t"
      || word == "/file"
    ensures SpaceFree(word) && word[0] == '/'
  {
  }

  /** Every word is one word, behind a slash. */
  lemma WordsSpaceFree(word: string, c: Command)
    requires Means(word, c) && !c.Unknown?
    ensures SpaceFree(word) && word != "" && word[0] == '/'
  {
    hide SpaceFree;
    if c.Login? || c.Register? || c.Whisper? || c.Quit? || c.Nick? {
      AccountWords(word);
    } else if c.CreateRoom? || c.JoinRoom? || c.LeaveRoom? || c.ShowMembers? || c.ShowRooms? {
      RoomWords(word);
    } else if c.Mute? || c.Unmute? || c.Kick? || c.ShowHistory? || c.ShowRoomHistory? || c.ShowUsers? {
      OtherWords(word);
    } else {
      MoreWords(word);
    }
  }

  // ------------------------------------------------------------------ a word and then anything

  predicate IsBare(c: Command) {
    c.Quit? || c.LeaveRoom? || c.ShowUsers? || c.ShowRooms? || c.ShowMembers? || c.Help? || c.Info?
  }

  lemma LeavingParsed(line: Bytes)
    ensures Word(line) == "/quit" || Word(line) == "/q" ==> Parse(line) == Quit
    ensures Word(line) == "/leaveroom" || Word(line) == "/lr" ==> Parse(line) == LeaveRoom
  {
    hide Word, AfterWord, Rest;
  }

  lemma ListingParsed(line: Bytes)
    ensures Word(line) == "/users" || Word(line) == "/u" ==> Parse(line) == ShowUsers
    ensures Word(line) == "/rooms" || Word(line) == "/ro" ==> Parse(line) == ShowRooms
  {
    hide Word, AfterWord, Rest;
  }

  lemma MembersParsed(line: Bytes)
    ensures Word(line) == "/roommembers" || Word(line) == "/rm" ==> Parse(line) == ShowMembers
  {
    hide Word, AfterWord, Rest;
  }

  lemma HelpParsed(line: Bytes)
    ensures Word(line) == "/help" || Word(line) == "/h" ==> Parse(line) == Help
    ensures Word(line) == "/info" ==> Parse(line) == Info
  {
    hide Word, AfterWord, Rest;
  }

  /** Commands without arguments, whatever follows their word. */
  lemma BareParsed(word: Bytes, c: Command, more: Bytes)
    requires Means(word, c) && IsBare(c) && (more == "" || IsSpace(more[0]))
    ensures Parse(word + more) == c
  {
    hide Word, AfterWord, Rest, SpaceFree, Parse;
    WordsSpaceFree(word, c);
    WordOf(word, more);
    LeavingParsed(word + more);
    ListingParsed(word + more);
    MembersParsed(word + more);
    HelpParsed(word + more);
  }

  /** A line is no command exactly when its first word is none of the words. */
  lemma UnknownParsedIff(word: Bytes, more: Bytes)
    requires word != "" && SpaceFree(word) && (more == "" || IsSpace(more[0]))
    ensures Parse(word + more) == Unknown(word) <==> !IsCommand(word)
  {
    hide Word, AfterWord, Rest, SpaceFree;
    WordOf(word, more);
  }

  // ------------------------------------------------------------------ words and arguments

  function TypedLine(word: Bytes, first: Bytes, rest: Bytes): Bytes {
    word + (" " + (first + (" " + rest)))
  }

  predicate TakesText(c: Command) {
    c.Login? || c.Register? || c.Whisper? || c.JoinRoom? || c.Mute? || c.Kick?
  }

  function First(c: Command): Bytes
    requires TakesText(c)
  {
    match c
    case Login(name, _) => name
    case Register(name, _) => name
    case Whisper(target, _) => target
    case JoinRoom(name, _) => name
    case Mute(target, _) => target
    case Kick(target, _) => target
  }

  function Second(c: Command): Bytes
    requires TakesText(c)
  {
    match c
    case Login(_, password) => password
    case Register(_, password) => password
    case Whisper(_, text) => text
    case JoinRoom(_, password) => password
    case Mute(_, time) => time
    case Kick(_, reason) => reason
  }

  /** The command of the same kind with these arguments. */
  function With(c: Command, first: Bytes, second: Bytes): (d: Command)
    requires TakesText(c)
    ensures TakesText(d) && First(d) == first && Second(d) == second
    ensures c == d <==> First(c) == first && Second(c) == second
  {
    match c
    case Login(_, _) => Login(first, second)
    case Register(_, _) => Register(first, second)
    case Whisper(_, _) => Whisper(first, second)
    case JoinRoom(_, _) => JoinRoom(first, second)
    case Mute(_, _) => Mute(first, second)
    case Kick(_, _) => Kick(first, second)
  }

  lemma AccountChosen(line: Bytes, c: Command)
    requires Means(Word(line), c) && (c.Login? || c.Register? || c.Whisper?)
    ensures Parse(line) == With(c, Word(AfterWord(line)), Rest(AfterWord(AfterWord(line))))
  {
    hide Word, AfterWord, Rest;
  }

  lemma RoomChosen(line: Bytes, c: Command)
    requires Means(Word(line), c) && (c.JoinRoom? || c.Mute? || c.Kick?)
    ensures Parse(line) == With(c, Word(AfterWord(line)), Rest(AfterWord(AfterWord(line))))
  {
    hide Word, AfterWord, Rest;
  }

  lemma TextChosen(line: Bytes, c: Command)
    requires Means(Word(line), c) && TakesText(c)
    ensures Parse(line) == With(c, Word(AfterWord(line)), Rest(AfterWord(AfterWord(line))))
  {
    hide Parse, Word, AfterWord, Rest, Means;
    if c.Login? || c.Register? || c.Whisper? {
      AccountChosen(line, c);
    } else {
      RoomChosen(line, c);
    }
  }

  lemma LineWord(word: Bytes, first: Bytes, rest: Bytes)
    requires word != "" && SpaceFree(word)
    ensures Word(TypedLine(word, first, rest)) == word && Word(word + (" " + first)) == word
  {
    hide Word, AfterWord, Rest;
    WordOf(word, " " + (first + (" " + rest)));
    WordOf(word, " " + first);
  }

  /** A name and then text up to the end of the line: read back exactly when the name is one word and the text
      does not start with white space. */
  lemma TextParsedIff(word: Bytes, c: Command)
    requires Means(word, c) && TakesText(c)
    ensures Parse(TypedLine(word, First(c), Second(c))) == c <==> Readable(First(c), Second(c))
  {
    hide Word, AfterWord, Rest, SpaceFree, Means, Parse, First, Second;
    var line := TypedLine(word, First(c), Second(c));
    WordsSpaceFree(word, c);
    LineWord(word, First(c), Second(c));
    TextChosen(line, c);
    EmptyWord(AfterWord(line));
    if SpaceFree(First(c)) {
      TwoArguments(word, First(c), Second(c));
      EmptyWord(Second(c));
      EmptyWord("");
      SkipNothing();
    }
  }

  /** The same without the text. */
  lemma NameParsedIff(word: Bytes, c: Command)
    requires Means(word, c) && TakesText(c) && Second(c) == ""
    ensures Parse(word + (" " + First(c))) == c <==> SpaceFree(First(c))
  {
    hide Word, AfterWord, Rest, SpaceFree, Means, Parse, First, Second;
    var line: Bytes := word + (" " + First(c));
    WordsSpaceFree(word, c);
    LineWord(word, First(c), "");
    TextChosen(line, c);
    EmptyWord(AfterWord(line));
    OneArgument(word, First(c));
    SkipNothing();
  }

  lemma OneArgument(word: Bytes, first: Bytes)
    requires word != "" && SpaceFree(word)
    ensures var line: Bytes := word + (" " + first);
      && Word(line) == word && (SpaceFree(first) ==> Word(AfterWord(line)) == first && AfterWord(AfterWord(line)) == "")
  {
    hide Word, AfterWord, Rest, SpaceFree;
    WordOf(word, " " + first);
    SkipOneSpace(first);
    if SpaceFree(first) {
      if first != "" {
        assert first + "" == first;
        WordOf(first, "");
      } else {
        SkipNothing();
        EmptyWord("");
      }
    }
  }

  // ------------------------------------------------------------------ single words

  predicate TakesWord(c: Command) {
    c.Nick? || c.Unmute? || c.ShowHistory? || c.ShowRoomHistory? || c.ShareFile?
  }

  function Argument(c: Command): Bytes
    requires TakesWord(c)
  {
    match c
    case Nick(name) => name
    case Unmute(target) => target
    case ShowHistory(argument) => argument
    case ShowRoomHistory(argument) => argument
    case ShareFile(path) => path
  }

  lemma NickChosen(line: Bytes, c: Command)
    requires Means(Word(line), c) && (c.Nick? || c.Unmute? || c.ShareFile?)
    ensures TakesWord(Parse(line)) && (Parse(line) == c <==> Word(AfterWord(line)) == Argument(c))
  {
    hide Word, AfterWord, Rest;
  }

  lemma HistoryChosen(line: Bytes, c: Command)
    requires Means(Word(line), c) && (c.ShowHistory? || c.ShowRoomHistory?)
    ensures TakesWord(Parse(line)) && (Parse(line) == c <==> Word(AfterWord(line)) == Argument(c))
  {
    hide Word, AfterWord, Rest;
  }

  /** One word behind the command, whatever follows: read back exactly when it is one. */
  lemma WordParsedIff(word: Bytes, c: Command, more: Bytes)
    requires Means(word, c) && TakesWord(c) && (more == "" || (IsSpace(more[0]) && Argument(c) != ""))
    ensures Parse(word + (" " + (Argument(c) + more))) == c <==> SpaceFree(Argument(c))
  {
    hide Word, AfterWord, Rest, SpaceFree, Means, Parse, Argument;
    var line: Bytes := word + (" " + (Argument(c) + more));
    WordsSpaceFree(word, c);
    WordOf(word, " " + (Argument(c) + more));
    if c.ShowHistory? || c.ShowRoomHistory? {
      HistoryChosen(line, c);
    } else {
      NickChosen(line, c);
    }
    SkipOneSpace(Argument(c) + more);
    EmptyWord(Argument(c) + more);
    if SpaceFree(Argument(c)) {
      if Argument(c) != "" {
        WordOf(Argument(c), more);
      } else {
        SkipNothing();
      }
    }
  }

  // ------------------------------------------------------------------ several words

  lemma TransferChosen(line: Bytes)
    requires Word(line) == "/transfer" || Word(line) == "/t"
    ensures Parse(line) == Transfer(Word(AfterWord(line)), Word(AfterWord(AfterWord(line))))
  {
    hide Word, AfterWord, Rest;
  }

  /** A file and a name: two words. */
  lemma TransferParsedIff(word: Bytes, path: Bytes, target: Bytes)
    requires Means(word, Transfer(path, target))
    ensures Parse(TypedLine(word, path, target)) == Transfer(path, target)
      <==> SpaceFree(path) && SpaceFree(target) && (path == "" ==> target == "")
  {
    hide Word, AfterWord, Rest, SpaceFree, Parse;
    var c, line := Transfer(path, target), TypedLine(word, path, target);
    WordsSpaceFree(word, c);
    WordOf(word, " " + (path + (" " + target)));
    TransferChosen(line);
    EmptyWord(AfterWord(line));
    EmptyWord(AfterWord(AfterWord(line)));
    if SpaceFree(path) && SpaceFree(target) {
      TwoWords(path, target);
    }
  }

  lemma CreateChosen(line: Bytes)
    requires Word(line) == "/createroom" || Word(line) == "/cr"
    ensures var name, more := Word(AfterWord(line)), AfterWord(AfterWord(line));
      Parse(line) == CreateRoom(name, Word(more) == "private" || Word(more) == "1", Word(AfterWord(more)))
  {
    hide Word, AfterWord, Rest;
  }

  /** A room name alone makes a public room. */
  lemma PublicParsedIff(word: Bytes, name: Bytes)
    requires Means(word, CreateRoom(name, false, ""))
    ensures Parse(word + (" " + name)) == CreateRoom(name, false, "") <==> SpaceFree(name)
  {
    hide Word, AfterWord, Rest, SpaceFree, Parse;
    var line: Bytes := word + (" " + name);
    WordsSpaceFree(word, CreateRoom(name, false, ""));
    LineWord(word, name, "");
    CreateChosen(line);
    EmptyWord(AfterWord(line));
    OneArgument(word, name);
    SkipNothing();
    EmptyWord("");
  }

  function RoomLine(word: Bytes, name: Bytes, flag: Bytes, password: Bytes): Bytes {
    word + (" " + (name + (" " + (flag + (" " + password)))))
  }

  /** A room name, a word that makes it private or not, and a password. */
  lemma CreateParsedIff(word: Bytes, name: Bytes, flag: Bytes, password: Bytes)
    requires Means(word, CreateRoom(name, false, "")) && SpaceFree(flag)
    ensures Parse(RoomLine(word, name, flag, password)) == CreateRoom(name, flag == "private" || flag == "1", password)
      <==> SpaceFree(name) && SpaceFree(password) && (flag == "" ==> password == "") && (name == "" ==> flag == "")
  {
    hide Word, AfterWord, Rest, SpaceFree, Parse;
    var line := RoomLine(word, name, flag, password);
    WordsSpaceFree(word, CreateRoom(name, false, ""));
    WordOf(word, " " + (name + (" " + (flag + (" " + password)))));
    CreateChosen(line);
    EmptyWord(AfterWord(line));
    EmptyWord(AfterWord(AfterWord(line)));
    EmptyWord(AfterWord(AfterWord(AfterWord(line))));
    if SpaceFree(name) && SpaceFree(password) {
      SkipOneSpace(name + (" " + (flag + (" " + password))));
      if name != "" {
        WordOf(name, " " + (flag + (" " + password)));
      } else {
        assert name + (" " + (flag + (" " + password))) == " " + (flag + (" " + password));
      }
      TwoWords(flag, password);
    }
  }

  /** Two words behind a blank. */
  lemma TwoWords(a: Bytes, b: Bytes)
    requires SpaceFree(a) && SpaceFree(b)
    ensures var text: Bytes := " " + (a + (" " + b));
      && (a != "" ==> Word(text) == a && Word(AfterWord(text)) == b)
      && (a == "" ==> Word(text) == b && Word(AfterWord(text)) == "")
      && (b == "" ==> Word(AfterWord(text)) == "" && AfterWord(AfterWord(text)) == "")
  {
    hide Word, AfterWord, Rest, SpaceFree;
    SkipOneSpace(a + (" " + b));
    SkipOneSpace(b);
    SkipNothing();
    EmptyWord("");
    if b != "" {
      assert b + "" == b;
      WordOf(b, "");
    }
    if a != "" {
      WordOf(a, " " + b);
    } else {
      assert a + (" " + b) == " " + b;
    }
  }

  // ------------------------------------------------------------------ every command

  /** The command's arguments are all left out. */
  predicate IsEmpty(c: Command) {
    || (TakesText(c) && First(c) == "" && Second(c) == "") || (TakesWord(c) && Argument(c) == "")
    || c == Transfer("", "") || c == CreateRoom("", false, "")
  }

  /** A word alone is its command without arguments. */
  lemma AloneParsed(word: Bytes, c: Command)
    requires Means(word, c) && IsEmpty(c)
    ensures Parse(word) == c
  {
    hide Word, AfterWord, Rest, SpaceFree, Means, Parse, First, Second, Argument;
    WordsSpaceFree(word, c);
    assert word + "" == word;
    WordOf(word, "");
    SkipNothing();
    EmptyWord("");
    if TakesText(c) {
      TextChosen(word, c);
    } else if c.ShowHistory? || c.ShowRoomHistory? {
      HistoryChosen(word, c);
    } else if TakesWord(c) {
      NickChosen(word, c);
    } else {
      EmptyPairs(word, c);
    }
  }

  lemma EmptyPairs(word: Bytes, c: Command)
    requires Means(word, c) && Word(word) == word && AfterWord(word) == ""
    requires c == Transfer("", "") || c == CreateRoom("", false, "")
    ensures Parse(word) == c
  {
    hide Word, AfterWord, Rest, SpaceFree, Parse;
    SkipNothing();
    EmptyWord("");
    if c.Transfer? {
      TransferChosen(word);
    } else {
      CreateChosen(word);
    }
  }

  /** Nothing follows a word, or white space does. */
  predicate Ends(more: Bytes) {
    more == "" || IsSpace(more[0])
  }

  /** The line is the word and the command's arguments, one blank apart, and these can be told from each other.
      What follows the last word is free; for `/createroom` it is the word that makes the room private or not. */
  predicate SpelledWith(line: Bytes, c: Command, word: Bytes, more: Bytes) {
    if IsBare(c) then Ends(more) && line == word + more
    else if c.Unknown? then word != "" && SpaceFree(word) && Ends(more) && line == word + more
    else if TakesText(c) then
      || (Readable(First(c), Second(c)) && line == TypedLine(word, First(c), Second(c)))
      || (SpaceFree(First(c)) && Second(c) == "" && line == word + (" " + First(c)))
    else if TakesWord(c) then
      && SpaceFree(Argument(c)) && (more == "" || (Ends(more) && Argument(c) != ""))
      && line == word + (" " + (Argument(c) + more))
    else if c.Transfer? then
      && SpaceFree(c.path) && SpaceFree(c.target) && (c.path == "" ==> c.target == "")
      && line == TypedLine(word, c.path, c.target)
    else
      || (!c.isPrivate && c.password == "" && SpaceFree(c.name) && line == word + (" " + c.name))
      || (SpaceFree(c.name) && SpaceFree(more) && SpaceFree(c.password)
          && (c.isPrivate <==> more == "private" || more == "1")
          && (c.name == "" ==> more == "") && (more == "" ==> c.password == "")
          && line == RoomLine(word, c.name, more, c.password))
  }

  /** The line is one of the ways to type the command. */
  ghost predicate Spells(line: Bytes, c: Command) {
    exists word: Bytes, more: Bytes :: SpelledBy(line, c, word, more)
  }

  /** By one of its words: alone, or with its arguments. */
  predicate SpelledBy(line: Bytes, c: Command, word: Bytes, more: Bytes) {
    Means(word, c) && ((IsEmpty(c) && line == word) || SpelledWith(line, c, word, more))
  }

  lemma SpelledWithParsed(line: Bytes, c: Command, word: Bytes, more: Bytes)
    requires Means(word, c) && SpelledWith(line, c, word, more)
    ensures Parse(line) == c
  {
    hide Parse, SpaceFree, Means, IsCommand, First, Second, Argument, TypedLine, RoomLine, Readable;
    if IsBare(c) {
      BareParsed(word, c, more);
    } else if c.Unknown? {
      UnknownMeans(word, c);
      UnknownParsedIff(word, more);
    } else if TakesText(c) {
      TextParsedIff(word, c);
      if Second(c) == "" {
        NameParsedIff(word, c);
      }
    } else if TakesWord(c) {
      WordParsedIff(word, c, more);
    } else if c.Transfer? {
      TransferParsedIff(word, c.path, c.target);
    } else {
      CreateMeans(word, c);
      CreateSpelled(line, c, word, more);
    }
  }

  lemma UnknownMeans(word: Bytes, c: Command)
    requires Means(word, c) && c.Unknown?
    ensures c.word == word && !IsCommand(word)
  {
    hide IsCommand;
  }

  lemma CreateMeans(word: Bytes, c: Command)
    requires Means(word, c) && c.CreateRoom?
    ensures Means(word, CreateRoom(c.name, false, ""))
  {
  }

  lemma CreateSpelled(line: Bytes, c: Command, word: Bytes, more: Bytes)
    requires c.CreateRoom? && Means(word, CreateRoom(c.name, false, "")) && SpelledWith(line, c, word, more)
    ensures Parse(line) == c
  {
    hide Parse, SpaceFree, Means, RoomLine;
    if line == word + (" " + c.name) && !c.isPrivate && c.password == "" && SpaceFree(c.name) {
      PublicParsedIff(word, c.name);
    } else {
      CreateParsedIff(word, c.name, more, c.password);
    }
  }

  /** Every way to type a command is read as that command. */
  lemma SpelledParsed(line: Bytes, c: Command)
    requires Spells(line, c)
    ensures Parse(line) == c
  {
    hide Parse, Means, IsEmpty, SpelledWith;
    var word: Bytes, more: Bytes :| SpelledBy(line, c, word, more);
    if SpelledWith(line, c, word, more) {
      SpelledWithParsed(line, c, word, more);
    } else {
      AloneParsed(word, c);
    }
  }
}
