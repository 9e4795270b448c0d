/** The texts the server answers with. */
module Replies {
  import opened Numbers

  datatype Reply =
    | LoginUsage | NameTaken | PasswordRequired | InvalidPassword | RegisterUsage | NameInUse | UserExists | NickUsage
    | Goodbye | AdminRequired | MuteUsage | UnmuteUsage | KickUsage | YouUnmuted | CreateRoomUsage | JoinRoomUsage
    | RoomPasswordRequired | InvalidRoomPassword | NotInRoom | InvalidMessage | WhisperUsage | LoginFirst | StillMuted
    | LoggedIn(name: string) | Joined(name: string) | Registered(name: string)
    | NickChanged(name: string) | ChangedNick(oldName: string, name: string)
    | UserNotFound(name: string) | NoReceiver(name: string)
    | Muted(name: string, minutes: int) | YouMuted(minutes: int) | HasBeenMuted(name: string, minutes: int)
    | Unmuted(name: string) | HasBeenUnmuted(name: string)
    | YouKicked(reason: string) | HasBeenKicked(name: string, reason: string)
    | RoomExists(room: string) | RoomCreated(room: string) | RoomCreatedBy(room: string, name: string)
    | RoomUnknown(room: string) | NoRoom(room: string) | AlreadyInRoom(room: string)
    | RoomJoined(room: string) | JoinedRoom(name: string, room: string)
    | RoomLeft(room: string) | LeftRoom(name: string, room: string)
    | UnknownCommand(word: string)
    | HelpText | InfoText(online: nat) | HistoryHeader | RoomHistoryHeader | HistoryLine(text: string)
    | TransferUsage | FileUsage | CannotOpen(path: string)
    | TransferStarted(fileName: string) | FileSent(fileName: string)
    | Welcome

  /** A line's tag and what follows its separator. */
  datatype Parts = Parts(tag: string, text: string)

  function Error(text: string): Parts { Parts("ERROR", text) }

  function Success(text: string): Parts { Parts("OK", text) }

  function System(text: string): Parts { Parts("SYS", text) }

  function Because(reason: string): string {
    if reason == "" then "" else ": " + reason
  }

  function Span(minutes: int): string {
    IntToString(minutes) + " minutes"
  }

  function PartsOf(r: Reply): Parts {
    match r
    case LoginUsage => Error("Usage: /login <name> [password] or /l <name> [password]")
    case NameTaken => Error("Name already taken")
    case PasswordRequired => Error("Password required for existing user")
    case InvalidPassword => Error("Invalid password")
    case RegisterUsage => Error("Usage: /register <name> <password> or /r <name> <password>")
    case NameInUse => Error("Name already in use")
    case UserExists => Error("User already exists")
    case NickUsage => Error("Usage: /nick <name> or /n <name>")
    case Goodbye => Success("Goodbye!")
    case AdminRequired => Error("Admin permission required")
    case MuteUsage => Error("Usage: /mute <name> [time]")
    case UnmuteUsage => Error("Usage: /unmute <name>")
    case KickUsage => Error("Usage: /kick <name> [reason]")
    case YouUnmuted => System("You have been unmuted")
    case CreateRoomUsage => Error("Usage: /createroom <name> [private] [password] or /cr <name> [private] [password]")
    case JoinRoomUsage => Error("Usage: /joinroom <name> [password] or /jr <name> [password]")
    case RoomPasswordRequired => Error("Password required for private room")
    case InvalidRoomPassword => Error("Invalid password for room")
    case NotInRoom => Error("Not in any room")
    case InvalidMessage => Error("Invalid message format")
    case WhisperUsage => Error("Usage: /whisper <name> <message> or /w <name> <message>")
    case LoginFirst => Error("Please login first using /login <name>")
    case StillMuted => Error("You are muted. Please wait until the mute period ends.")
    case LoggedIn(name) => Success("Logged in as " + name)
    case Joined(name) => System(name + " joined the chat")
    case Registered(name) => Success("User registered successfully: " + name)
    case NickChanged(name) => Success("Nickname changed to " + name)
    case ChangedNick(oldName, name) => System(oldName + " changed nickname to " + name)
    case UserNotFound(name) => Error("User not found: " + name)
    case NoReceiver(name) => Error("User " + name + " not found")
    case Muted(name, minutes) => Success("Muted " + name + " for " + Span(minutes))
    case YouMuted(minutes) => System("You have been muted for " + Span(minutes))
    case HasBeenMuted(name, minutes) => System(name + " has been muted for " + Span(minutes))
    case Unmuted(name) => Success("Unmuted " + name)
    case HasBeenUnmuted(name) => System(name + " has been unmuted")
    case YouKicked(reason) => System("You have been kicked from the server" + Because(reason))
    case HasBeenKicked(name, reason) => System(name + " has been kicked from the server" + Because(reason))
    case RoomExists(room) => Error("Room already exists: " + room)
    case RoomCreated(room) => Success("Room created successfully: " + room)
    case RoomCreatedBy(room, name) => System("Room created: " + room + " by " + name)
    case RoomUnknown(room) => Error("Room not found: " + room)
    case NoRoom(room) => Error("Room " + room + " not found")
    case AlreadyInRoom(room) => Error("Already in room: " + room)
    case RoomJoined(room) => Success("Joined room: " + room)
    case JoinedRoom(name, room) => System(name + " joined room: " + room)
    case RoomLeft(room) => Success("Left room: " + room)
    case LeftRoom(name, room) => System(name + " left room: " + room)
    case UnknownCommand(word) => Error("Unknown command: " + word)
    case HelpText =>
      System(
        "Commands:\n"
        + "  /login <name> [password] (/l)    - Login with a name and optional password\n"
        + "  /register <name> <password> (/r) - Register a new user\n"
        + "  /users (/u)           - List online users\n"
        + "  /whisper <name> <msg> (/w) - Send private message\n"
        + "  /help (/h)            - Show this help\n"
        + "  /quit (/q)            - Disconnect\n"
        + "  /nick <name> (/n)     - Change nickname\n"
        + "  /info                 - Show server info\n"
        + "  /createroom <name> [private] [password] (/cr) - Create a chat room\n"
        + "  /joinroom <name> [password] (/jr) - Join a chat room\n"
        + "  /leaveroom (/lr)      - Leave current chat room\n"
        + "  /rooms (/ro)          - List all chat rooms\n"
        + "  /roommembers (/rm)    - List members in current chat room\n"
        + "  /transfer <file> <name> (/t) - Transfer file to user\n"
        + "  /file <file>          - Send file to current chat room\n"
        + "  /history [count]      - Get message history\n"
        + "  /roomhistory [count]  - Get current room message history\n"
        + "  /mute <name> [time]   - Mute user (admin only)\n"
        + "  /unmute <name>        - Unmute user (admin only)\n"
        + "  /kick <name> [reason] - Kick user (admin only)\n")
    case InfoText(online) => System("Server Info:\n  Online users: " + NatToString(online) + "\n"
             + "  Server version: 1.0.0\n  SmallChat - A simple chat server\n")
    case HistoryHeader => System("Message History:")
    case RoomHistoryHeader => System("Room History:")
    case HistoryLine(text) => System(text)
    case TransferUsage => Error("Usage: /transfer <file> <name> or /t <file> <name>")
    case FileUsage => Error("Usage: /file <file>")
    case CannotOpen(path) => Error("Failed to open file: " + path)
    case TransferStarted(fileName) => Success("File transfer started: " + fileName)
    case FileSent(fileName) => Success("File sent to room: " + fileName)
    case Welcome =>
      Parts("WELCOME", "Welcome to SmallChat Server!|Commands: "
            + "/login <name>, /users, /whisper <name> <msg>, /help, /quit")
  }

  function Say(r: Reply): string {
    PartsOf(r).tag + "|" + PartsOf(r).text + "\n"
  }
}
