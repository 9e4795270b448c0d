# SmallChat: model and proofs

SmallChat is a chat server and client over plain sockets. This project models the parts of it that
compute something, and proves what they keep, over every input and every run.

| file | what it models |
|---|---|
| `Text.dfy`, `Numbers.dfy` | byte strings, `std::string::find`, decimal output, `std::stoi` |
| `Base64.dfy` | the codec of `src/common.cpp`: a specification, and its loops over work arrays |
| `Wire.dfy`, `Framing.dfy` | the `MSG` line format, and the receive loop that cuts lines out of chunks |
| `Emoji.dfy` | the emoji table and its repeated replacement passes |
| `Password.dfy`, `Users.dfy` | salted records of the branch without OpenSSL, and the user file |
| `History.dfy` | the bounded histories, the full log they stand for, and the history file |
| `Commands.dfy`, `Spelling.dfy`, `Replies.dfy` | how a command line is read, how each command is typed, and the answers |
| `FileTransfer.dfy` | cutting files into blocks, and putting them together |
| `Server.dfy` | the server's state as a value, and one function for every command and event |
| `Outcomes.dfy`, `Queries.dfy` | what each command and query means: exactly when it succeeds, what then holds, who is told what |
| `Handled.dfy` | received lines: from the characters typed to the outcome |
| `Speech.dfy`, `Administrators.dfy` | who said what to whom, and who is an administrator |
| `Chat.dfy` | the class `ChatServer`: the maps and lists it updates, every handler as a method |
| `Invariants.dfy`, `Membership.dfy`, `Limits.dfy` | what holds over runs of whole commands, and exactly when it stops holding |
| `Rosters.dfy` | member lists against current rooms: exactly which events make them disagree |
| `Delivery.dfy`, `Logs.dfy`, `Accounts.dfy` | who receives a message, what is logged, who is registered |
| `Restart.dfy` | starting from the files, and what a restart keeps |
| `Reached.dfy` | short runs from the start in which inputs that break something are received |
| `Interleaving.dfy`, `Races.dfy`, `Journal.dfy` | client threads side by side, one critical section a step |
| `Locks.dfy` | the mutexes and their order |
| `WriteQueue.dfy` | the write queue of a WebSocket session |

## How it fits together

`Server.State` is the whole state of `ChatServer` as one value: clients, name index, users, rooms, both
histories, and what was written to each socket. A ghost `log` keeps every message ever stored. `Server.Step`
says what one event does to it: a connection, a received line with arbitrary content, a disconnection.
`Server.Run` is any sequence of events. Random salts and ids, the clock, the iteration orders of hash tables,
printed timestamps and the contents of files are arbitrary inputs of an event.

`Outcomes` says of each command, without its steps, exactly when it succeeds and what it then means: who can be
found under which name, who is a member of which room, who is told what, which answer a refusal gets, and what stays as
it was. `Spelling` says which command a line is, and `Handled` puts both together for every received line.

`Chat.ChatServer` has the fields of the original and changes them in place, with the original's loops and early
returns. Each handler ends in exactly the state the function in `Server` gives, has the outcome stated for it, and
keeps the class invariant: a sound index, well-formed rooms, and histories that are the ends of the full log.

Results about runs start from any state with the invariant they are about. `Restart.Boot` is the state a server starts
in with any contents of its two files, and fulfils all of them.

`Interleaving.Section` is finer: one critical section. Checking a name, looking up a user, inserting a record and
committing a name are separate steps of a client's thread, and threads take their steps in any order. The sections
of one command with nothing in between give what `Step` gives, and every `Run` is one of the interleavings.

## Where the code does less than it seems to

Each of these is a property that fails, with its exact condition, and a run or an input where that helps:

- Behind a NUL the cut into chunks decides what is received; it does not matter exactly when nothing but NULs follows
  a NUL (`Framing.CutsAlikeIff`).
- The client sends a newline inside a text as it is, so the rest of the text arrives as a line of its own
  (`Commands.NewlineSplits`); what arrives is what was meant exactly without newline and NUL
  (`Commands.WhisperReadBack`).
- A `MSG` line for one client or a room is passed on without its newline. It makes no line at the receiver, and is
  glued to whatever comes next (`Delivery.StepFlushedIff`, `Delivery.PassedOnUnread`, `Reached.PassedOnReached`).
- The content of a `MSG` line is any bytes, and a history query shows them as they are: each message shown arrives as
  one line exactly without newline and NUL in it (`Delivery.HistoryArrivesIff`). So the server may write a NUL although
  it has never received one (`Reached.ContentReached`).
- A client may take a guest name to come, and is then lost from the index (`Limits.GuestNameStolen`); in general a
  commit hides somebody exactly when it erases or overwrites an entry that is not its own (`Limits.RenameFoundIff`).
- Member lists and current rooms stop agreeing exactly when a client that is in a room takes another name, enters
  another room, is kicked or loses its connection: the old name stays listed (`Rosters.StepAgreesIff`,
  `Reached.StrandedReached`). Of these only a rename can leave a client unlisted in its own room
  (`Membership.RenameSeatedIff`).
- Guests can enter rooms, but are never reached there (`Delivery.ReachedIff`).
- A room made private without a password can be joined by nobody of another name, and only such a room
  (`Outcomes.JoinableIff`).
- A separator in a name makes the history file unreadable for its messages (`Logs.UnsafeNameLosesHistory`,
  `Reached.UnsafeNameReached`).
- Between check and commit, two threads can take one name, one account or one room, or add one name to a room twice
  (`Races.NickRace`, `Races.RegisterRaceReached`, `Races.RoomRace`, `Races.DuplicateMember`). A section destroys
  something in exactly those cases (`Limits.RenameFoundIff`, `Races.RecordsKeptIff`, `Races.RoomsKeptIff`,
  `Races.DistinctKeptIff`).
- The transfer of an empty file is never marked complete (`FileTransfer.CompleteIff`).
- After a write error with more messages waiting, a WebSocket session never writes again (`WriteQueue.StalledIff`,
  `WriteQueue.StalledForever`).

`docs/01_architecture.md` lists two mutexes and a fixed order; the code has six and a fixed order. The model follows
the code. The opposite order of two of them would block (`Locks.OppositeOrdersDeadlock`).

## Model

| member | source | states |
|---|---|---|
| Base64.DecodeEncode | src/common.cpp:22-115 | decoding inverts encoding on every byte string |
| Base64.EncodeLength | src/common.cpp:22-66 | the output takes four characters for every three bytes begun |
| Base64.EncodeChars | src/common.cpp:22-66 | the output holds alphabet characters and `=` only, so no separator, newline or NUL |
| Base64.EncodeAt | src/common.cpp:22-66 | each character of the output stands in the table at the value of its six bits of the input, and is a pad where the input has none |
| Base64.EncodeDecodeIffCanonical | src/common.cpp:71-115 | encoding inverts decoding on exactly the canonical texts of section 3.5 of RFC 4648 |
| Base64.TableFind | src/common.cpp:71-115 | the decoder's value of a character is its position in the table, and 255 for a foreign one |
| Base64.Base64Encode | src/common.cpp:22-66 | the loop over three-byte groups and the padded rest compute the specified encoding |
| Base64.Base64Decode | src/common.cpp:71-115 | the loop over four-character groups, which stops at the first `=` and takes a foreign character as 255, computes the specified decoding |
| Numbers.StoiOfPrinted | src/common.cpp:118-194 | the type field written by the encoder is read back for every 32-bit value |
| Numbers.StoiOfNumber | src/server.cpp:1899-1907 | a decimal number in a text is read as it is up to whatever follows that is no digit, if it fits into 32 bits, and not at all otherwise |
| Wire.DecodeEncodeIff | src/common.cpp:118-194 | the decoder inverts the encoder exactly when neither name holds a separator, whatever the id |
| Wire.DecodeLineIff | src/common.cpp:128-194 | the same for a line whose newline has been removed; then the id must not end in a newline either |
| Wire.DecodeNormalises | src/common.cpp:118-194 | everything the decoder accepts is a fixed point of encoding and decoding |
| Wire.FieldsIff | src/common.cpp:118-126 | an encoded message, split at the separators, is its tag, sender, receiver, type, content and id in this order, exactly when none holds a separator |
| Wire.DecodeIff | src/common.cpp:128-194 | exactly the texts with a tag, four fields free of separators, the third a number, and anything behind are decoded, and to these fields |
| Framing.LineReader.Receive | src/server.cpp:766-777 | one chunk dispatches the complete non-empty lines of buffer and chunk, and leaves the unterminated rest |
| Framing.LineReader.ReceiveAll | src/server.cpp:749-777 | a whole connection dispatches the lines of all it received, however it was cut |
| Framing.ChunkInvariance | src/client.cpp:259-349 | for streams without NUL every chunking is dispatched like the unbroken stream |
| Framing.CutsAlikeIff | src/client.cpp:336-347 | every cut of a stream is received like the unbroken stream exactly when nothing but NULs follows a NUL |
| Framing.EndToEnd | src/client.cpp:337-362 | encoded, concatenated, cut anywhere, framed and decoded, messages come out unchanged with an empty buffer, exactly when names and ids are safe |
| Emoji.ReplaceCode | src/common.cpp:447-451 | one pass over the text, restarting behind each emoji, substitutes one code everywhere |
| Emoji.OneMorePass | src/common.cpp:443-455 | substituting a set of codes and then one more code is substituting all of them at once |
| Emoji.ReplaceEmojis | src/common.cpp:443-455 | for every iteration order of a suitable table, all passes together are one simultaneous substitution |
| Emoji.EmojisGood | src/common.cpp:417-440 | the table is suitable: no code is a prefix of another, none starts inside another, and emojis share no byte with codes |
| Emoji.SubstituteFinal | src/common.cpp:443-455 | no code is left in the result, and substituting again changes nothing |
| Password.VerifyExact | src/server.cpp:86-141 | a record made with a non-empty salt accepts exactly the password it was made from |
| Password.AcceptedIsRecord | src/server.cpp:116-141 | whatever accepts a password is a record of that password |
| Password.HashPassword | src/server.cpp:86-103 | the loops compute the record: the salt in hexadecimal digits, a colon, and a byte for each byte of the password, which is that byte again when its place and the byte of the salt there, around and around, are taken off by exclusive or |
| Password.XorBits | src/server.cpp:91 | a bit of an exclusive or is set exactly when the bits differ |
| Password.HexAt | src/server.cpp:93-101 | every byte is printed as two lower-case digits, the high one first |
| Password.VerifyPassword | src/server.cpp:116-141 | the check, with the two ways it can fail by an exception, computes the specified verdict |
| Password.VerifyAbortsIff | src/server.cpp:116-141 | a check ends in an exception exactly for a salt with a pair of digits that is not read as a number, and for an empty salt and some password |
| Users.SaveUsers | src/server.cpp:409-422 | the file holds one line per user, in the order of iteration |
| Users.LoadUsers | src/server.cpp:385-406 | each line with a colon sets one user, later lines winning |
| Users.LastLineWins | src/server.cpp:385-406 | a user has the record behind its name and a colon in the last line for it, and stays as it was without such a line |
| Users.SaveLoadUsersIff | src/server.cpp:385-422 | a fresh server reads the saved users back exactly when names and records have no newline and names no colon, in every order |
| History.AddRefines | src/server.cpp:552-568 | appending to the bounded lists refines appending to the full log: the last 1000, and the last 1000 of each room |
| History.QueryShowsLog | src/server.cpp:1895-1957 | a history query shows the last messages of the full log, between 1 and 100 of them |
| History.CountOfNumber | src/server.cpp:1899-1907 | the number asked for counts as it is from 1 to 100 and as the nearest of these otherwise; none, no number, or one beyond 32 bits counts as 50 |
| History.DecodedAppend | src/server.cpp:364-382 | the lines of the history file are decoded one by one, and those that do not decode are passed over |
| History.SaveLoadIff | src/server.cpp:364-439 | a saved history is read back exactly when every message in it is safe for a line |
| History.SaveLoadRooms | src/server.cpp:364-439 | then each room's history is the saved one filtered to the room |
| Commands.WhisperReadBack | src/client.cpp:204-209 | through the receive loop, under every cut, the server reads what the client's whisper line was made from and nothing else, exactly for one-word receivers and texts without leading blanks, newlines and NULs |
| Commands.LoginReadBack | src/client.cpp:189-197 | the same for a login line |
| Commands.NewlineSplits | src/client.cpp:510-531 | a text with a newline arrives as two lines |
| Spelling.SpelledParsed | src/server.cpp:1314-2242 | a line made of any of a command's words, alone or with its arguments one blank apart, and where those are words with anything behind them, is read as that command |
| Spelling.BareParsed | src/server.cpp:1465-1874 | commands without arguments are read by each of their words, whatever follows |
| Spelling.TextParsedIff | src/server.cpp:1319-2051 | a name and a text behind a word of `/login`, `/register`, `/whisper`, `/joinroom`, `/mute` or `/kick` are read back exactly when the name is one word and the text does not start with white space |
| Spelling.WordParsedIff | src/server.cpp:1571-2163 | an argument of `/nick`, `/unmute`, `/history`, `/roomhistory` or `/file` is read back exactly when it is one word |
| Spelling.TransferParsedIff | src/server.cpp:2095-2098 | a path and a name behind `/transfer` or `/t` are read back exactly when both are one word |
| Spelling.CreateParsedIff | src/server.cpp:1680-1692 | so are name and password of a room, which is private exactly with `private` or `1` between them |
| Spelling.UnknownParsedIff | src/server.cpp:2242-2251 | a line is no command exactly when its first word is none of the words and short forms |
| Handled.LineOutcome | src/server.cpp:779-1204 | every received line has the outcome of its command, of a `MSG` line or of a text, and a line of the file and receipt formats has none |
| Handled.SpelledOutcome | src/server.cpp:1314-2285 | however a command is typed, its outcome is that of the command |
| Handled.LeavingOutcome | src/server.cpp:1547-1860 | `/quit` and `/q` leave the server, `/leaveroom` and `/lr` the room |
| Invariants.StepHealthy | src/server.cpp:1263-1275 | every event keeps index entries pointing to clients of that name, and rooms under their names with distinct members |
| Invariants.RunHealthy | src/server.cpp:1709-1846 | so this holds after every run, whatever the clients send |
| Accounts.RunNeverAborts | src/server.cpp:116-141 | over runs that start with proper records, no password check against a user or room ends in an exception |
| Invariants.RegisteredForever | src/server.cpp:1352-1437 | over any run a registered record stays and accepts its password and no other |
| Invariants.LoginNeedsPassword | src/server.cpp:1319-1390 | logging in under a registered free name succeeds exactly with its password, and never with an empty one |
| Membership.RunLookupIsScan | src/server.cpp:2300-2315 | over every run in which nobody picks a guest-form name, the lookup by index finds exactly the client a scan of all clients finds |
| Membership.RunSettled | src/server.cpp:1571-1603 | over every such run each client is indexed under its own name, or is a guest nobody can look up |
| Membership.UniqueNames | src/server.cpp:704-717 | in such states no two connected clients share a name |
| Membership.RunUserList | src/server.cpp:1465-1477 | over every such run the user list names exactly the clients logged in, and none twice, in every iteration order |
| Membership.RunSeated | src/server.cpp:1547-1854 | while names change outside rooms only, every client's room exists and lists the client, over every run |
| Membership.RenameSeatedIff | src/server.cpp:1587-1596 | a rename keeps this exactly when the client is in no room, or in one that already lists the new name |
| Rosters.StepAgreesIff | src/server.cpp:1263-1275 | where rooms list exactly the clients in them and nobody picks a guest-form name, an event keeps it so exactly unless a client in a room is renamed by `/login`, `/register` or `/nick`, creates or joins a room, is kicked, or is disconnected |
| Rosters.MoveTidyIff | src/server.cpp:2051-2093 | a client that is renamed or goes while rooms stay as they are leaves every list right exactly if it is in no room |
| Rosters.EnterTidyIff | src/server.cpp:1783-1811 | a client that enters a room does, exactly if it comes from none |
| Rosters.RunRosterExact | src/server.cpp:1547-1854 | over every run with such names and without such events a room lists exactly the names of the clients whose current room it is |
| Limits.RenameFoundIff | src/server.cpp:1378-1390 | committing a name keeps everybody else findable exactly when it neither erases nor overwrites another's entry |
| Limits.RemoveFoundIff | src/server.cpp:1263-1275 | removing a client does, exactly when the entry under its name is its own |
| Limits.SettledHidesNobody | src/server.cpp:1582-1596 | where nobody has picked a guest-form name, neither a rename to a free name nor a departure hides anybody else |
| Limits.GuestNameStolen | src/server.cpp:704 | for any two sockets there is a run after which a connected client is not found under its name |
| Reached.StrandedReached | src/server.cpp:1571-1603 | a client creates a room and is renamed: the room does not list it; or its connection closes: the room lists nobody who is connected |
| Limits.RoomGoneIff | src/server.cpp:1840-1846 | a room goes away in a step exactly when its last member leaves or quits |
| Delivery.DeliverExact | src/server.cpp:829-843 | a room delivery writes once to each socket indexed by a member, and to no other |
| Delivery.ReachedIff | src/server.cpp:2262-2281 | those are the connected members that are not guests |
| Delivery.RoomTextDelivered | src/server.cpp:1128-1175 | a plain line in a room goes once to exactly those sockets, and into the log |
| Delivery.UnknownDelivered | src/server.cpp:2242-2281 | so does a line with an unknown command |
| Delivery.StepFlushedIff | src/server.cpp:811-858 | what is written, queries and files included, stays newline-terminated exactly as long as no `MSG` line is passed on |
| Delivery.RoomTextArrives | src/client.cpp:337-362 | before that, every member reached dispatches, under every cut into chunks, what it did before and then a line that decodes to the text, as long as nothing written to it holds a NUL |
| Delivery.SendTextsExact | src/server.cpp:2143-2156 | each socket gets every line of a file in order, and no other socket any |
| Delivery.PassedOnUnread | src/server.cpp:811-850 | a line passed on makes no line at the receiver, and is glued to the next text |
| Delivery.HistoryArrivesIff | src/server.cpp:1917-1925 | what a history query writes arrives, under every cut into chunks, as the heading and one line a message exactly if no sender, content or printed time holds a newline or a NUL |
| Delivery.HistoryAnswered | src/server.cpp:1895-1964 | a history query writes the heading and the last messages to its client, and nothing to anybody else |
| Reached.PassedOnReached | src/server.cpp:811-850 | for any two sockets and names and any private message there is a run up to which all output ends in newlines, and the message is then passed on without one |
| Reached.ContentReached | src/server.cpp:1917-1925 | for any `MSG` line to all there is a run after which a history query shows its content: as one line exactly without newline and NUL in it, and a NUL is written that was never received |
| Logs.RunRefines | src/server.cpp:552-568 | over every run the histories stay the ends of the full log and of its rooms |
| Logs.RunShowsLog | src/server.cpp:1895-1957 | so history queries show the end of everything ever logged |
| Logs.RunSafe | src/server.cpp:788-1204 | while names are picked without separators, every message logged is safe for the file |
| Logs.RunSavesAndLoads | src/server.cpp:364-439 | the history of such a run comes back from the file, globally and per room |
| Logs.UnsafeNameLosesHistory | src/server.cpp:425-439 | one text to all from a client with a separator in its name, and it does not |
| Reached.UnsafeNameReached | src/server.cpp:425-439 | this happens in a run of a connection, a login and a text, for any such name |
| Accounts.RunSavesUsers | src/server.cpp:385-422 | the users of every run without colons in account names come back from the file |
| Restart.BootReady | src/server.cpp:287-291 | whatever is in the files, the server starts in a state all results about runs apply to |
| Restart.RunThenRestart | src/server.cpp:364-439 | started from any files, run with clean names and restarted, the server has the same users and global history, and each room the global history filtered to it |
| Restart.RestartTwice | src/server.cpp:364-439 | a second restart changes nothing at all |
| Outcomes.ConnectOutcome | src/server.cpp:701-732 | a new connection is a guest named after its socket, not logged in, no administrator, not muted, in no room, has been sent exactly the welcome line, and nobody else notices |
| Outcomes.LoginOutcome | src/server.cpp:1319-1397 | `/login` succeeds exactly with a free name and, if it is registered, its password; then the client is found under the name, and a new record accepts exactly the password |
| Outcomes.RegisterOutcome | src/server.cpp:1398-1463 | `/register` succeeds exactly with a free, unregistered name and a password; then the record accepts exactly that, all others are kept, and the client is signed in |
| Outcomes.NickOutcome | src/server.cpp:1571-1603 | `/nick` succeeds exactly with a free name; then the client is found under it, nobody else changes, and others stay findable exactly if the old entry was its own |
| Outcomes.QuitOutcome | src/server.cpp:1547-1569 | `/quit` leaves no trace of the client in clients, index and its room, and takes the room along exactly if nobody else is left |
| Outcomes.RemoveOutcome | src/server.cpp:1263-1275 | a closed connection leaves no trace of the client in clients and index, and every room as it is |
| Outcomes.KickOutcome | src/server.cpp:2051-2093 | `/kick` works for administrators only, takes out exactly the client found under the name, and hides nobody else |
| Outcomes.MuteOutcome | src/server.cpp:1966-2013 | `/mute` by an administrator silences exactly that client, up to the end of the time and no longer |
| Outcomes.MinutesOfNumber | src/server.cpp:1966-1990 | the minutes given count as they are from 1 to 60 and as the nearest of these otherwise; none, no number, or one beyond 32 bits counts as 10 |
| Outcomes.UnmuteOutcome | src/server.cpp:2015-2049 | `/unmute` lets it speak at once |
| Administrators.StepAdminIff | src/server.cpp:1378-1390 | a client is an administrator after an event exactly if it is still connected, and was one before or signs in with the event while one user is registered |
| Administrators.RunAdminIff | src/server.cpp:1386-1459 | over every run a client that connects in it is an administrator exactly if, since then, it has signed in by `/login` or `/register` while exactly one user was registered |
| Administrators.NeverSignedInRefused | src/server.cpp:1966-2056 | so a client that has never signed in is refused `/kick`, `/mute` and `/unmute` |
| Outcomes.CreateRoomOutcome | src/server.cpp:1680-1735 | `/createroom` succeeds exactly with a new name; the room has exactly its creator, and stores a record that exactly its password opens if it is private with one, and otherwise nothing |
| Outcomes.JoinRoomOutcome | src/server.cpp:1737-1823 | `/joinroom` succeeds exactly with an existing room, its password if private, and a name not listed yet; members stay distinct |
| Outcomes.JoinableIff | src/server.cpp:1693-1781 | once `/createroom` has succeeded, a client of another name can join the room with some password exactly unless it was made private without one |
| Outcomes.LeaveRoomOutcome | src/server.cpp:1825-1860 | `/leaveroom` takes exactly this member out, and the room exactly if nobody else is left |
| Outcomes.MsgOutcome | src/server.cpp:792-872 | a `MSG` line is accepted exactly if it decodes and its sender is logged in and may speak; then exactly those it is for get it once, and it is logged |
| Outcomes.WhisperOutcome | src/server.cpp:1479-1520 | `/whisper` is accepted exactly with a text and a target that can be found; then target and sender get the line once each, nobody else does, and it is logged |
| Outcomes.PlainOutcome | src/server.cpp:1128-1204 | any other text is accepted exactly from a client that is logged in and may speak; then everybody, or exactly those reached in its room, get it once, and it is logged |
| Outcomes.UnknownOutcome | src/server.cpp:2242-2285 | an unknown command in a room is logged and goes once to exactly those reached there; elsewhere it is refused |
| Speech.PlainRead | src/server.cpp:1128-1204 | what those who get a text read from it is its sender, all or the room, and the text with its codes replaced, if no name holds a separator; the history ends in it, and so does that of the room |
| Speech.WhisperRead | src/server.cpp:1479-1520 | a whisper, however it is typed, is read so by its target and its sender, as from the one to the other, and is in no room history |
| Speech.UnknownRead | src/server.cpp:2242-2281 | an unknown command in a room is read so by those reached there, as from its sender to the room |
| Outcomes.TransferOutcome | src/server.cpp:2095-2161 | `/transfer` sends exactly the client found under the name a header with names and size and then the lines of the file, once and in order, from which it can be put together again |
| Outcomes.ShareFileOutcome | src/server.cpp:2163-2240 | `/file` sends them to exactly the sockets indexed by members of the sender's room, once to each |
| Queries.QueryOutcome | src/server.cpp:1465-1964 | every query is answered to its sender alone: the names logged in, one for each client, the rooms, the members, the history with time, sender and content of each message |
| Queries.UserListReadIff | src/common.cpp:232-242 | number and names can be read from the user list exactly when no name holds a separator |
| Queries.RoomListArrivesIff | src/common.cpp:300-307 | the list of rooms arrives, under every cut, as its heading and a line for each room exactly when every name is one non-empty line |
| Queries.MemberListArrivesIff | src/common.cpp:310-317 | so does the list of members, if the name of the room is one line too |
| Chat.ChatServer.Broadcast | src/server.cpp:570-583 | the loop over the clients in any order writes once to each |
| Chat.ChatServer.TakeOut | src/server.cpp:1836-1849 | the erase-remove loop, and the removal of an emptied room |
| Chat.ChatServer.AddMessageToHistory | src/server.cpp:552-568 | the message joins the full log, and the bounded lists stay the ends of the log and of each room |
| Chat.ChatServer.Whisper | src/server.cpp:1479-1520 | the whole new state of `/whisper` |
| Chat.ChatServer.UnknownCommand | src/server.cpp:2242-2285 | the whole new state of an unknown command, sockets collected first and written to afterwards |
| Chat.ChatServer.Plain | src/server.cpp:1128-1204 | the whole new state of any other text |
| Chat.ChatServer.Connect | src/server.cpp:701-732 | the whole new state of a connection |
| Chat.ChatServer.HandleLine | src/server.cpp:779-1204 | a line is dispatched to its handler, and has the outcome of what it is |
| Chat.ChatServer.HandleChunk | src/server.cpp:749-795 | a received chunk is the run of exactly the lines it completes, and keeps the class invariant |
| Chat.ChatServer.SaveMessageHistory | src/server.cpp:425-439 | the loop writes the encoded history |
| Chat.ChatServer.LoadMessageHistory | src/server.cpp:364-382 | the messages of the lines that decode join the log in order, and the histories stay its ends |
| Chat.ChatServer.Start | src/server.cpp:287-291 | loading both files on a new server gives the start state of `Restart` |
| Chat.EncodeUserList | src/common.cpp:232-242 | the loop writes the number of names and each name behind a separator |
| Chat.SendEachIsDeliver | src/server.cpp:2262-2281 | collecting sockets and writing afterwards is the same delivery as writing while walking the members |
| Interleaving.SectionKept | src/server.cpp:1331-1460 | every critical section keeps index and rooms right, whatever other threads did since the last one |
| Interleaving.PlaySafe | src/server.cpp:1263-1275 | so under every interleaving the index is sound, and rooms have members and stand under their names |
| Interleaving.PlayIndexInjective | src/server.cpp:714-717 | under every interleaving no index entry dangles, and no two lead to the same socket |
| Interleaving.SectionRank | src/server.cpp:1319-1860 | every command ends after a bounded number of sections |
| Interleaving.SectionsAreStep | src/server.cpp:1319-2093 | the sections of a command with nothing in between do what the command does as one step |
| Races.StepIsPlayed | src/server.cpp:1319-2093 | with all threads idle, every event can be played out section by section to the same state |
| Races.RunIsPlayed | src/server.cpp:740-1204 | every run of whole commands is one of the interleavings |
| Races.RecordsKeptIff | src/server.cpp:1366-1374 | a section keeps every stored record exactly unless it stores a different one under a name registered since the check |
| Races.RoomsKeptIff | src/server.cpp:1719-1723 | a section takes nothing from a room but the actor's membership exactly unless it stores a room under a name created since the check |
| Races.DistinctKeptIff | src/server.cpp:1803-1811 | a section keeps members distinct exactly unless it adds a name that has been added since the check |
| Races.NickRace | src/server.cpp:1582-1596 | two idle clients each send `/nick`, and there is an interleaving of just these two commands after which both bear the name, and only the later is found |
| Races.DuplicateMember | src/server.cpp:1783-1811 | with a `/nick` and a `/joinroom` of each of two idle clients there is one after which a room lists the name twice |
| Races.RegisterRace | src/server.cpp:1416-1437 | two idle clients each send `/register`, and their sections, taken in turn, let both store a record: one section before the end exactly the first password is accepted, at the end exactly the second, and both are about to be told that they have registered |
| Races.RegisterRaceReached | src/server.cpp:1416-1437 | this can happen to the first two clients of a server, under any name and any two passwords |
| Races.RoomRace | src/server.cpp:1693-1729 | two idle clients each send `/createroom`, and their sections, taken in turn, let both store the room: first it lists just the one, then just the other, and both stand in it |
| Journal.PlayRefines | src/server.cpp:552-568 | under every interleaving the histories stay the ends of the full log and of its rooms |
| Journal.PlayLogsSafe | src/server.cpp:788-1204 | under every interleaving with names without separators, every message logged is safe for the file |
| Journal.PlayThenRestart | src/server.cpp:364-439 | started from any files, under every interleaving with clean names, users and history survive a restart |
| Locks.ScriptDisciplined | src/server.cpp:2265-2268 | every handler takes its mutexes in increasing order and gives them back |
| Locks.NoDeadlock | src/server.cpp:1086-1094 | in every reachable state, with any number of threads, an unfinished thread means that some thread can go on |
| Locks.AllFinish | src/server.cpp:2201-2204 | from every such state all threads can run to their end |
| FileTransfer.Cut | src/server.cpp:2143-2156 | the read loop computes the specified blocks |
| FileTransfer.BlocksExact | src/server.cpp:2143-2156 | one block for every 4096 bytes begun, offsets without gaps, the flag on exactly the last |
| FileTransfer.CompleteIff | src/server.cpp:2220-2235 | a flagged block is sent exactly for non-empty files |
| FileTransfer.ArrivedWhole | src/common.cpp:352-362 | decoded payloads placed at their offsets give the file, in every order of arrival and with repetitions |
| FileTransfer.ReadBackIff | src/common.cpp:352-362 | a block line with its newline is read back exactly when no name holds a separator |
| FileTransfer.TextsCarry | src/server.cpp:2132-2156 | what is sent of a file is a header with names and size, and for every 4096 bytes begun a line with the names, where they start, the bytes in Base64, and whether they are the last |
| FileTransfer.CarriedWhole | src/common.cpp:320-362 | with separator-free names every line behind the header is read back, the payloads placed at their offsets are the file, and exactly the last line says so |
| FileTransfer.StoullOfNumber | src/server.cpp:1024-1028 | the offset is read as it is up to whatever follows that is no digit; a negative one wraps around, and one beyond 64 bits or no number is an exception |
| FileTransfer.NumberedRead | src/server.cpp:1004-1042 | behind three names and a number, what is read depends on whether the number can be read and on the rest |
| FileTransfer.UnnumberedGivesUp | src/server.cpp:1004-1042 | without three names and a number the branch gives up |
| FileTransfer.FramedNeverRead | src/server.cpp:1004-1042 | a framed `FILE_DATA` line is never acted on |
| WriteQueue.WebSocketSession.SendMessage | src/web_server_impl.cpp:161-168 | a submission queues the text, and starts a write exactly when the queue was empty |
| WriteQueue.WebSocketSession.OnWrite | src/web_server_impl.cpp:176-187 | a completion removes the front and starts the next write unless there was an error |
| WriteQueue.NoErrors | src/web_server_impl.cpp:161-187 | without errors a write is outstanding exactly while something is queued, and written plus queued are what was submitted, in order |
| WriteQueue.StalledIff | src/web_server_impl.cpp:176-187 | a session stalls exactly when a write fails with more messages waiting |
| WriteQueue.StalledForever | src/web_server_impl.cpp:161-187 | a stalled session never writes again |

## Left out

- Sockets, `accept`, `select`, TLS, sleeps, console output, Boost, libwebsockets and HTTP: a send is an append to the
  output of a connected socket; a send to a socket that is not connected is lost.
- Interleaving.PlaySafe: whispers, queries, messages, mutes and unknown commands are one section each there (room
  messages walk `rooms_` without its lock, which beside a concurrent change is undefined behaviour), and a client is
  taken out only by its own thread or while that thread is outside a command, since a reference to a removed client is
  undefined behaviour too. Starting a command and reading one's own flags and room are not steps of their own.
- Locks.NoDeadlock: waits for mutexes only. `removeClient` and `stop` join threads while holding a mutex; whether a
  join or a shutdown ends is not part of this model.
- Password.VerifyExact: the branch without OpenSSL, which is the one the build files select; PBKDF2 is not modelled.
- Uncaught exceptions: a password check of a malformed record (one that was in the file at the start), and a
  `FILE_DATA` line whose offset is not a number (`FileTransfer.Throws`), end the process; as an event they leave the
  state alone.
- Chat.ChatServer.Register: writing `users.txt` on the way is `Users.SaveUsers`, and no part of the new state.
- Relay of `FILE_*` and `READ_RECEIPT` lines: these branches look for a newline that framing has removed.
- Timestamps, read status, message callbacks, the WebSocket copies of broadcasts, and the delay before the welcome line.
- The client's parsing of `USERS`, `SYS` and `WELCOME` lines, which expects a separator the server does not write.
- `ClientInfo` objects are values in the map of clients; pointers to them are not modelled.
