/** Who said what to whom: what those who get a text can read from it, and what is kept of it. */
module Speech {
  import opened Text
  import opened Numbers
  import opened Wire
  import opened Commands
  import opened Spelling
  import opened History
  import opened Server
  import opened Invariants
  import opened Delivery
  import opened Outcomes
  import opened Handled
  import Emoji

  /** The text `x` on the wire is read as this message: from the sender, to the receiver, of the kind, with the
      emoji codes of what was typed replaced. It is what was logged last, and what the history ends in, as does
      that of the room it was said in. */
  ghost predicate Says(s: State, t: State, x: string, sender: string, receiver: string, kind: Int32, typed: Bytes,
                       id: Id)
  {
    Decode(x).Some? &&
    var m := Decode(x).value;
    && m.sender == sender && m.receiver == receiver && m.kind == kind && m.id == id
    && m.content == Emoji.Substitute(Emoji.EMOJIS, typed)
    && t.log == s.log + [m] && t.history.all != [] && t.history.all[|t.history.all| - 1] == m
    && (kind == ROOM_MESSAGE && receiver != "" ==>
          var said := Room(t.history, receiver); said != [] && said[|said| - 1] == m)
    && forall r :: kind != ROOM_MESSAGE || r != receiver ==> Room(t.history, r) == Room(s.history, r)
  }

  lemma SaysEncoded(s: State, t: State, m: ChatMessage, typed: Bytes, id: Id)
    requires m == ChatMessage(m.sender, m.receiver, m.kind, Emoji.Substitute(Emoji.EMOJIS, typed), id)
    requires t.log == s.log + [m] && Stored(s.history, t.history, m)
    requires Free(m.sender, BAR) && Free(m.receiver, BAR)
    ensures Says(s, t, Encode(m), m.sender, m.receiver, m.kind, typed, id)
  {
    hide Decode, Encode, Emoji.Substitute, Emoji.EMOJIS, Room, Free;
    DecodeEncodeIff(m);
  }

  /** A plain text of somebody who may speak is read by everybody connected, or by those reached in the room, as
      said by its sender, to all or to the room. */
  lemma PlainRead(s: State, fd: nat, line: Message, chance: Chance) returns (x: string)
    requires Healthy(s) && fd in s.clients && s.clients[fd].loggedIn && !Silenced(s, fd, chance.now)
    requires line[0] != '/' && !StartsWith(line, "MSG") && !Ignored(line)
    requires var c := s.clients[fd]; Free(c.name, BAR) && Free(c.room, BAR) && (c.room != "" ==> c.room in s.rooms)
    ensures var t, c := Step(s, Received(fd, line, chance)), s.clients[fd];
      && Says(s, t, x, c.name, c.room, if c.room == "" then BROADCAST else ROOM_MESSAGE, line, chance.id)
      && forall k :: Out(t, k) == Out(s, k) +
           Once(if c.room == "" then k in s.clients else Reaches(s.index, s.rooms[c.room].members, k), x)
  {
    hide Healthy, Emoji.Substitute, Emoji.EMOJIS, DoPlain, Stored, Encode, Says, Silenced, Ignored, StartsWith, Free;
    PlainOutcome(s, fd, line, chance);
    var t, c := DoPlain(s, fd, line, chance), s.clients[fd];
    var kind := if c.room == "" then BROADCAST else ROOM_MESSAGE;
    var m := ChatMessage(c.name, c.room, kind, Emoji.Substitute(Emoji.EMOJIS, line), chance.id);
    x := Encode(m);
    SaysEncoded(s, t, m, line, chance.id);
  }

  /** A whisper is read by its target and its sender as said by the sender to the target, in every spelling. */
  lemma WhisperRead(s: State, fd: nat, target: Bytes, text: Bytes, line: Message, chance: Chance) returns (x: string)
    requires Healthy(s) && fd in s.clients && line[0] == '/' && Spells(line, Whisper(target, text))
    requires target != "" && text != "" && Lookup(s, target).Some?
    requires Free(s.clients[fd].name, BAR) && Free(target, BAR)
    ensures var t := Step(s, Received(fd, line, chance));
      && Says(s, t, x, s.clients[fd].name, target, PRIVATE, text, chance.id)
      && forall k :: Out(t, k) == Out(s, k) + Once(Lookup(s, target) == Some(k), x) + Once(k == fd, x)
  {
    hide Healthy, Emoji.Substitute, Emoji.EMOJIS, Step, Stored, Encode, Says, Free, Spells, Parse, Lookup;
    SpelledOutcome(s, fd, Whisper(target, text), line, chance);
    var t := Step(s, Received(fd, line, chance));
    var m := ChatMessage(s.clients[fd].name, target, PRIVATE, Emoji.Substitute(Emoji.EMOJIS, text), chance.id);
    x := Encode(m);
    SaysEncoded(s, t, m, text, chance.id);
  }

  /** An unknown command in a room is read by those reached there as said by its sender to the room. */
  lemma UnknownRead(s: State, fd: nat, word: Bytes, line: Message, chance: Chance) returns (x: string)
    requires Healthy(s) && fd in s.clients && line[0] == '/' && Spells(line, Unknown(word))
    requires var c := s.clients[fd]; c.room != "" && Free(c.name, BAR) && Free(c.room, BAR)
    ensures var t, c := Step(s, Received(fd, line, chance)), s.clients[fd];
      && Says(s, t, x, c.name, c.room, ROOM_MESSAGE, line, chance.id)
      && forall k :: Out(t, k) == Out(s, k) + Once(Reaches(s.index, Members(s, c.room), k), x)
  {
    hide Healthy, Emoji.Substitute, Emoji.EMOJIS, Step, Stored, Encode, Says, Free, Spells, Parse, Reaches, Members;
    SpelledOutcome(s, fd, Unknown(word), line, chance);
    var t, c := Step(s, Received(fd, line, chance)), s.clients[fd];
    var m := ChatMessage(c.name, c.room, ROOM_MESSAGE, Emoji.Substitute(Emoji.EMOJIS, line), chance.id);
    x := Encode(m);
    SaysEncoded(s, t, m, line, chance.id);
  }
}
