/** The mutexes of `ChatServer` and the order they are taken in: no number of threads running its
    critical sections can block each other for good. */
module Locks {
  import opened Text

  // ------------------------------------------------------------------ scripts

  datatype Mutex = Clients | Users | Rooms | History | Threads | WebSockets

  datatype Op = Acquire(m: Mutex) | Release(m: Mutex)

  /** The critical sections of the code: one mutex alone; the members of a room looked up under the
      rooms lock; a read receipt, which notifies senders under the history lock. */
  datatype Section = Guard(m: Mutex) | RoomMembers | ReadReceipt(notified: nat)

  function Around(m: Mutex, inner: seq<Op>): seq<Op> {
    [Acquire(m)] + inner + [Release(m)]
  }

  function Repeat(n: nat, ops: seq<Op>): seq<Op> {
    if n == 0 then [] else ops + Repeat(n - 1, ops)
  }

  function Ops(section: Section): seq<Op> {
    match section
    case Guard(m) => Around(m, [])
    case RoomMembers => Around(Rooms, Around(Clients, []))
    case ReadReceipt(n) => Around(History, Repeat(n, Around(Clients, [])))
  }

  /** A handler enters its sections one after the other. */
  function Script(sections: seq<Section>): seq<Op> {
    if sections == [] then [] else Ops(sections[0]) + Script(sections[1..])
  }

  // ------------------------------------------------------------------ the lock order

  /** Inside another lock only the clients lock is ever taken. */
  function Level(m: Mutex): nat {
    if m == Clients then 1 else 0
  }

  /** With `held` held, innermost last, the operations take locks in increasing order only, except
      for taking the recursive clients lock again, and give all of them back in reverse. */
  predicate Disciplined(held: seq<Mutex>, ops: seq<Op>)
    decreases |ops|
  {
    if ops == [] then held == []
    else
      match ops[0]
      case Acquire(m) =>
        && (forall i :: 0 <= i < |held| ==> Level(held[i]) < Level(m) || (held[i] == m == Clients))
        && Disciplined(held + [m], ops[1..])
      case Release(m) => held != [] && held[|held| - 1] == m && Disciplined(held[..|held| - 1], ops[1..])
  }

  /** A guarded piece may be put in front of whatever is disciplined without it. */
  lemma {:induction false} GuardedFits(held: seq<Mutex>, m: Mutex, inner: seq<Op>, rest: seq<Op>)
    requires forall i :: 0 <= i < |held| ==> Level(held[i]) < Level(m) || (held[i] == m == Clients)
    requires Disciplined(held + [m], inner + ([Release(m)] + rest))
    ensures Disciplined(held, Around(m, inner) + rest)
  {
    var all := Around(m, inner) + rest;
    assert all == [Acquire(m)] + (inner + ([Release(m)] + rest));
    assert all[1..] == inner + ([Release(m)] + rest);
  }

  lemma {:induction false} ReleaseFits(held: seq<Mutex>, m: Mutex, rest: seq<Op>)
    requires Disciplined(held, rest)
    ensures Disciplined(held + [m], [Release(m)] + rest)
  {
    assert (held + [m])[..|held|] == held && ([Release(m)] + rest)[1..] == rest;
  }

  lemma {:induction false} EmptyGuardFits(held: seq<Mutex>, m: Mutex, rest: seq<Op>)
    requires forall i :: 0 <= i < |held| ==> Level(held[i]) < Level(m) || (held[i] == m == Clients)
    requires Disciplined(held, rest)
    ensures Disciplined(held, Around(m, []) + rest)
  {
    hide Disciplined, Level, Around;
    ReleaseFits(held, m, rest);
    assert [] + ([Release(m)] + rest) == [Release(m)] + rest;
    GuardedFits(held, m, [], rest);
  }

  lemma {:induction false} RepeatFits(n: nat, rest: seq<Op>)
    requires Disciplined([History], rest)
    ensures Disciplined([History], Repeat(n, Around(Clients, [])) + rest)
  {
    hide Disciplined, Around;
    var once := Around(Clients, []);
    if n == 0 {
      assert [] + rest == rest;
    } else {
      RepeatFits(n - 1, rest);
      EmptyGuardFits([History], Clients, Repeat(n - 1, once) + rest);
      assert Repeat(n, once) + rest == once + (Repeat(n - 1, once) + rest);
    }
  }

  lemma SectionFits(section: Section, rest: seq<Op>)
    requires Disciplined([], rest)
    ensures Disciplined([], Ops(section) + rest)
  {
    hide Disciplined, Around, Repeat;
    match section
    case Guard(m) => EmptyGuardFits([], m, rest);
    case RoomMembers =>
      ReleaseFits([], Rooms, rest);
      assert [] + [Rooms] == [Rooms];
      EmptyGuardFits([Rooms], Clients, [Release(Rooms)] + rest);
      GuardedFits([], Rooms, Around(Clients, []), rest);
    case ReadReceipt(n) =>
      ReleaseFits([], History, rest);
      assert [] + [History] == [History];
      RepeatFits(n, [Release(History)] + rest);
      GuardedFits([], History, Repeat(n, Around(Clients, [])), rest);
  }

  /** Every handler keeps the lock order. */
  lemma {:induction false} ScriptDisciplined(sections: seq<Section>)
    ensures Disciplined([], Script(sections))
  {
    hide Disciplined, Ops;
    if sections == [] {
      NothingDisciplined();
    } else {
      ScriptDisciplined(sections[1..]);
      SectionFits(sections[0], Script(sections[1..]));
    }
  }

  lemma NothingDisciplined()
    ensures Disciplined([], [])
  {
  }

  // ------------------------------------------------------------------ threads

  datatype Thread = Thread(held: seq<Mutex>, rest: seq<Op>)

  /** Nobody else holds the mutex, and it is not taken twice unless it is the recursive one. */
  predicate Available(ts: map<nat, Thread>, t: nat, m: Mutex)
    requires t in ts
  {
    && (forall u :: u in ts && u != t ==> m !in ts[u].held)
    && (m in ts[t].held ==> m == Clients)
  }

  predicate CanStep(ts: map<nat, Thread>, t: nat) {
    t in ts && ts[t].rest != [] && (ts[t].rest[0].Acquire? ==> Available(ts, t, ts[t].rest[0].m))
  }

  function Advanced(thread: Thread): Thread
    requires thread.rest != []
  {
    match thread.rest[0]
    case Acquire(m) => Thread(thread.held + [m], thread.rest[1..])
    case Release(_) => Thread(if thread.held == [] then [] else thread.held[..|thread.held| - 1], thread.rest[1..])
  }

  /** A thread's next lock operation, or a new thread for a handler. */
  datatype Move = Take(t: nat) | Spawn(t: nat, sections: seq<Section>)

  predicate Possible(ts: map<nat, Thread>, move: Move) {
    match move
    case Take(t) => CanStep(ts, t)
    case Spawn(t, _) => t in ts ==> ts[t].rest == []
  }

  function Next(ts: map<nat, Thread>, move: Move): map<nat, Thread>
    requires Possible(ts, move)
  {
    match move
    case Take(t) => ts[t := Advanced(ts[t])]
    case Spawn(t, sections) => ts[t := Thread([], Script(sections))]
  }

  predicate Reaches(ts: map<nat, Thread>, moves: seq<Move>, us: map<nat, Thread>)
    decreases |moves|
  {
    if moves == [] then us == ts else Possible(ts, moves[0]) && Reaches(Next(ts, moves[0]), moves[1..], us)
  }

  // ------------------------------------------------------------------ what every reachable state keeps

  /** The scripts still to run keep the order, and no mutex is held by two threads. */
  ghost predicate Good(ts: map<nat, Thread>) {
    && (forall t :: t in ts ==> Disciplined(ts[t].held, ts[t].rest))
    && (forall t, u, m :: t in ts && u in ts && m in ts[t].held && m in ts[u].held ==> t == u)
  }

  lemma NextGood(ts: map<nat, Thread>, move: Move)
    requires Good(ts) && Possible(ts, move)
    ensures Good(Next(ts, move))
  {
    match move
    case Spawn(t, sections) =>
      ScriptDisciplined(sections);
      SpawnGood(ts, t, Script(sections));
    case Take(t) => TakeGood(ts, t);
  }

  lemma SpawnGood(ts: map<nat, Thread>, t: nat, ops: seq<Op>)
    requires Good(ts) && Disciplined([], ops)
    ensures Good(ts[t := Thread([], ops)])
  {
  }

  lemma {:induction false} AdvancedDisciplined(thread: Thread)
    requires Disciplined(thread.held, thread.rest) && thread.rest != []
    ensures Disciplined(Advanced(thread).held, Advanced(thread).rest)
    ensures forall m :: m in Advanced(thread).held ==> m in thread.held || thread.rest[0] == Acquire(m)
  {
  }

  lemma TakeGood(ts: map<nat, Thread>, t: nat)
    requires Good(ts) && CanStep(ts, t)
    ensures Good(ts[t := Advanced(ts[t])])
  {
    hide Disciplined, Advanced;
    AdvancedDisciplined(ts[t]);
    var us := ts[t := Advanced(ts[t])];
    forall u, v, m | u in us && v in us && m in us[u].held && m in us[v].held ensures u == v {
      if u != t && v != t {
        assert m in ts[u].held && m in ts[v].held;
      }
    }
  }

  lemma {:induction false} ReachedGood(ts: map<nat, Thread>, moves: seq<Move>, us: map<nat, Thread>)
    requires Good(ts) && Reaches(ts, moves, us)
    ensures Good(us)
    decreases |moves|
  {
    hide Good, Possible, Next;
    if moves != [] {
      NextGood(ts, moves[0]);
      ReachedGood(Next(ts, moves[0]), moves[1..], us);
    }
  }

  // ------------------------------------------------------------------ no deadlock

  ghost predicate Unfinished(ts: map<nat, Thread>, t: nat) {
    t in ts && ts[t].rest != []
  }

  /** A blocked thread waits for a mutex that another, unfinished thread holds. */
  lemma Blocker(ts: map<nat, Thread>, t: nat) returns (u: nat)
    requires Good(ts) && Unfinished(ts, t) && !CanStep(ts, t)
    ensures ts[t].rest[0].Acquire? && u != t && Unfinished(ts, u) && ts[t].rest[0].m in ts[u].held
  {
    var m := ts[t].rest[0].m;
    assert Disciplined(ts[t].held, ts[t].rest);
    u :| u in ts && u != t && m in ts[u].held;
    assert Disciplined(ts[u].held, ts[u].rest);
  }

  /** Following the holders leads to ever higher locks, and so to a thread that can go on. */
  lemma {:induction false} Runnable(ts: map<nat, Thread>, t: nat) returns (u: nat)
    requires Good(ts) && Unfinished(ts, t)
    ensures CanStep(ts, u)
    decreases if ts[t].rest[0].Acquire? then 2 - Level(ts[t].rest[0].m) else 0
  {
    if CanStep(ts, t) {
      u := t;
    } else {
      var v := Blocker(ts, t);
      assert Disciplined(ts[v].held, ts[v].rest);
      if CanStep(ts, v) {
        u := v;
      } else {
        HolderWaitsHigher(ts, v, ts[t].rest[0].m);
        u := Runnable(ts, v);
      }
    }
  }

  lemma HolderWaitsHigher(ts: map<nat, Thread>, v: nat, m: Mutex)
    requires Good(ts) && Unfinished(ts, v) && m in ts[v].held && !CanStep(ts, v)
    ensures ts[v].rest[0].Acquire? && Level(m) < Level(ts[v].rest[0].m)
  {
    var w := Blocker(ts, v);
    assert Disciplined(ts[v].held, ts[v].rest);
    var n := ts[v].rest[0].m;
    if n == m {
      assert false;
    }
  }

  /** In every reachable state, with any number of threads, an unfinished thread means that some
      thread can go on. */
  lemma NoDeadlock(moves: seq<Move>, ts: map<nat, Thread>, t: nat) returns (u: nat)
    requires Reaches(map[], moves, ts) && Unfinished(ts, t)
    ensures CanStep(ts, u)
  {
    hide Reaches;
    ReachedGood(map[], moves, ts);
    u := Runnable(ts, t);
  }

  function Work(ts: map<nat, Thread>, order: seq<nat>): nat {
    if order == [] then 0 else (if order[0] in ts then |ts[order[0]].rest| else 0) + Work(ts, order[1..])
  }

  lemma {:induction false} WorkFalls(ts: map<nat, Thread>, order: seq<nat>, t: nat, thread: Thread)
    requires t in ts && |thread.rest| < |ts[t].rest|
    requires Distinct(order)
    ensures Work(ts[t := thread], order) <= Work(ts, order)
    ensures t in order ==> Work(ts[t := thread], order) < Work(ts, order)
  {
    if order != [] {
      WorkFalls(ts, order[1..], t, thread);
    }
  }

  /** From every reachable state all threads can still run to their end. */
  lemma {:induction false} AllFinish(ts: map<nat, Thread>, order: seq<nat>)
    returns (moves: seq<Move>, us: map<nat, Thread>)
    requires Good(ts) && Lists(order, ts.Keys)
    ensures Reaches(ts, moves, us) && forall t :: t in us ==> us[t].rest == []
    decreases Work(ts, order)
  {
    hide Good, Advanced;
    if t :| Unfinished(ts, t) {
      var u := Runnable(ts, t);
      var next := ts[u := Advanced(ts[u])];
      TakeGood(ts, u);
      ShorterRest(ts[u]);
      WorkFalls(ts, order, u, Advanced(ts[u]));
      var more, end := AllFinish(next, order);
      moves, us := [Take(u)] + more, end;
      assert moves[1..] == more;
    } else {
      moves, us := [], ts;
      assert forall t :: t in ts ==> !Unfinished(ts, t);
    }
  }

  lemma ShorterRest(thread: Thread)
    requires thread.rest != []
    ensures |Advanced(thread).rest| < |thread.rest|
  {
  }

  // ------------------------------------------------------------------ why the order matters

  /** Two threads that take the rooms and the clients lock in opposite orders can block each other:
      neither of them can ever go on. */
  lemma OppositeOrdersDeadlock()
    ensures var a := Thread([], Around(Rooms, Around(Clients, [])));
      var b := Thread([], Around(Clients, Around(Rooms, [])));
      var ts := map[0 := a, 1 := b];
      && CanStep(ts, 0) && CanStep(Next(ts, Take(0)), 1)
      && var us := Next(Next(ts, Take(0)), Take(1));
         Unfinished(us, 0) && Unfinished(us, 1) && forall t :: !CanStep(us, t)
  {
    var a := Thread([], Around(Rooms, Around(Clients, [])));
    var b := Thread([], Around(Clients, Around(Rooms, [])));
    var ts := map[0 := a, 1 := b];
    assert a.rest[0] == Acquire(Rooms) && b.rest[0] == Acquire(Clients);
    var vs := Next(ts, Take(0));
    assert vs[0] == Thread([] + [Rooms], a.rest[1..]) && vs[1] == b;
    var us := Next(vs, Take(1));
    assert us[0].held == [Rooms] && us[0].rest[0] == Acquire(Clients);
    assert us[1].held == [Clients] && us[1].rest[0] == Acquire(Rooms);
    forall t ensures !CanStep(us, t) {
      if t == 0 {
        assert Clients in us[1].held;
      } else if t == 1 {
        assert Rooms in us[0].held;
      }
    }
  }
}
