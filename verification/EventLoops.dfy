/** The event loop of the UNIX server (unix_socket_api/src/astrolog.c): accepting connections,
    serving ready ones, discarding expired ones, shutting down. */
module EventLoops {
  import opened Wire
  import opened LineSpec
  import opened Machine
  import opened Records
  import opened Heaps
  import opened Shared
  import opened Engines
  import opened Runs
  import opened Timing

  /** How a step of the event loop ends: normally, with the error return that makes main shut
      down, or never. */
  datatype Status = Fine | Failure | Hung

  /** One entry of what epoll_wait returns, with the outcomes of the calls made for it: the listening
      socket, or a registered connection. */
  datatype Report = Listener(acceptOk: bool, mallocOk: bool, epollOk: bool) | On(c: Connection, io: Io, modOk: bool)

  datatype Wait = WaitError | TimedOut(io: Io) | Batch(reports: seq<Report>)

  // ---------- What the reports do to the run ----------

  /** A connection that goes on waits for another direction than before. */
  ghost predicate Turns(w: World, w': World, id: nat) {
    && id in w.links && Serves(w', id)
    && OpOf(w.links[id].conn.mode) != OpOf(w'.links[id].conn.mode)
  }

  /** The connections that the run serves are fewer than `capacity`. */
  ghost predicate HasRoom(w: World, capacity: nat) {
    |ServedBy(w)| < capacity
  }

  ghost function ServedBy(w: World): set<nat> {
    set id | id in w.links && Serves(w, id)
  }

  /** The report of a connection brings one event of it. */
  ghost predicate Happens(c: Connection, io: Io, es: seq<Event>, longer: seq<Event>) {
    longer == es + [Ready(c.id, io)] && Serves(Run(es), c.id)
  }

  /** A report is served: a connection by one event of it, and the listening socket by a new connection
      if and only if there is room for one. */
  ghost predicate Answers(r: Report, es: seq<Event>, longer: seq<Event>, capacity: nat) {
    match r
    case On(c, io, modOk) =>
      Happens(c, io, es, longer) && !Run(longer).hung && (modOk || !Turns(Run(es), Run(longer), c.id))
    case Listener(acceptOk, mallocOk, epollOk) =>
      && acceptOk
      && if HasRoom(Run(es), capacity) then
           mallocOk && epollOk && exists id :: id !in Run(es).links && longer == es + [Accept(id)]
         else longer == es
  }

  /** It makes the event loop end: a connection is not accepted, or epoll does not take the new
      direction of one that goes on. */
  ghost predicate Fails(r: Report, es: seq<Event>, longer: seq<Event>, capacity: nat) {
    match r
    case On(c, io, modOk) => Happens(c, io, es, longer) && !modOk && Turns(Run(es), Run(longer), c.id)
    case Listener(acceptOk, mallocOk, epollOk) =>
      longer == es && (!acceptOk || (HasRoom(Run(es), capacity) && !(mallocOk && epollOk)))
  }

  /** It is never done with. */
  ghost predicate Hangs(r: Report, es: seq<Event>, longer: seq<Event>) {
    r.On? && Happens(r.c, r.io, es, longer) && Run(longer).hung
  }

  /** From the event `from` on, the run is what comes of serving the reports, in order. */
  ghost predicate Follows(reports: seq<Report>, es: seq<Event>, from: nat, capacity: nat)
    decreases |reports|
  {
    if reports == [] then |es| == from
    else
      var n := |reports| - 1;
      exists k: nat :: from <= k <= |es| && Follows(reports[..n], es[..k], from, capacity)
                       && Answers(reports[n], es[..k], es, capacity)
  }

  lemma FollowsMore(reports: seq<Report>, n: nat, es: seq<Event>, longer: seq<Event>, from: nat, capacity: nat)
    requires n < |reports| && from <= |es| && es <= longer
    requires Follows(reports[..n], es, from, capacity) && Answers(reports[n], es, longer, capacity)
    ensures Follows(reports[..n + 1], longer, from, capacity)
  {
    hide Answers;
    assert reports[..n + 1][..n] == reports[..n];
    assert longer[..|es|] == es;
  }

  /** How a batch of reports ends of which `served` have been served since the event `from`: with all of
      them, or with one that fails or hangs. */
  ghost predicate BatchEnds(reports: seq<Report>, served: nat, es: seq<Event>, from: nat, capacity: nat,
                            status: Status) {
    && served <= |reports| && (served == |reports| <==> status == Fine)
    && exists k: nat ::
         && from <= k <= |es| && Follows(reports[..served], es[..k], from, capacity)
         && match status
            case Fine => k == |es|
            case Failure => Fails(reports[served], es[..k], es, capacity)
            case Hung => Hangs(reports[served], es[..k], es)
  }

  lemma BatchIsOver(reports: seq<Report>, served: nat, es: seq<Event>, longer: seq<Event>, from: nat, capacity: nat,
                    status: Status)
    requires served <= |reports| && from <= |es| && es <= longer && Follows(reports[..served], es, from, capacity)
    requires match status
             case Fine => served == |reports| && es == longer
             case Failure => served < |reports| && Fails(reports[served], es, longer, capacity)
             case Hung => served < |reports| && Hangs(reports[served], es, longer)
    ensures BatchEnds(reports, served, longer, from, capacity, status)
  {
    hide Follows, Fails, Hangs;
    assert longer[..|es|] == es;
  }

  // ---------- The rounds of the event loop ----------

  /** One return of epoll_wait: how long the run was then, when the call was made, how long it might
      sleep, when it returned, and with what. */
  datatype Round = Round(at: nat, asked: int, timeout: int, back: int, result: Wait)

  /** epoll, known by what its waits have returned. */
  class Poll {
    ghost var rounds: seq<Round>

    constructor () ensures rounds == [] { rounds := []; }
  }

  /** A round of the event loop, at the end of which the run is `es`: it has slept as long as it may, and
      then it has dropped exactly the connections whose time was over at some time after the wait, or
      served the batch. */
  ghost predicate RoundDone(r: Round, es: seq<Event>, times: seq<int>, capacity: nat, status: Status) {
    && |times| == |es| && r.at <= |es| && SleepsWell(es[..r.at], times[..r.at], r.asked, r.timeout)
    && match r.result
       case WaitError => status == Fine && |es| == r.at
       case TimedOut(_) =>
         status == Fine && exists now :: r.back <= now && Swept(es, times, r.at, now) && NoneDue(es, times, now)
       case Batch(reports) => exists served :: BatchEnds(reports, served, es, r.at, capacity, status)
  }

  /** Up to where the run belongs to the round `i`. */
  function EndOf(rounds: seq<Round>, i: nat, now: nat): nat
    requires i < |rounds|
  {
    if i + 1 < |rounds| then rounds[i + 1].at else now
  }

  /** Only the last round, which ends with `last`, may be one that fails or hangs or whose wait was an
      error. */
  ghost predicate DoneAt(rounds: seq<Round>, i: nat, es: seq<Event>, times: seq<int>, capacity: nat, last: Status)
    requires i < |rounds| && |times| == |es|
  {
    var end := EndOf(rounds, i, |es|);
    && end <= |es|
    && RoundDone(rounds[i], es[..end], times[..end], capacity, if i + 1 < |rounds| then Fine else last)
    && (i + 1 < |rounds| ==> !rounds[i].result.WaitError?)
  }

  /** From the event `from` on, the run is that of the rounds from number `first` on, one right after the
      other. */
  ghost predicate InRounds(rounds: seq<Round>, first: nat, es: seq<Event>, times: seq<int>, from: nat, capacity: nat,
                           last: Status) {
    && first <= |rounds| && |times| == |es|
    && from == (if first < |rounds| then rounds[first].at else |es|)
    && forall i :: first <= i < |rounds| ==> DoneAt(rounds, i, es, times, capacity, last)
  }

  lemma NextRound(rounds: seq<Round>, first: nat, es: seq<Event>, times: seq<int>, from: nat, capacity: nat,
                  r: Round, longer: seq<Event>, more: seq<int>, status: Status)
    requires InRounds(rounds, first, es, times, from, capacity, Fine) && r.at == |es|
    requires forall i :: first <= i < |rounds| ==> !rounds[i].result.WaitError?
    requires es <= longer && times <= more && RoundDone(r, longer, more, capacity, status)
    ensures InRounds(rounds + [r], first, longer, more, from, capacity, status)
  {
    hide RoundDone;
    var all, n := rounds + [r], |rounds|;
    assert |more| == |longer| by { RoundIsTimed(r, longer, more, capacity, status); }
    forall i | first <= i < |all|
      ensures DoneAt(all, i, longer, more, capacity, status)
    {
      if i < n {
        assert DoneAt(rounds, i, es, times, capacity, Fine);
        var end := EndOf(rounds, i, |es|);
        assert EndOf(all, i, |longer|) == end;
        assert longer[..end] == es[..end] && more[..end] == times[..end];
      } else {
        assert longer[..|longer|] == longer && more[..|more|] == more;
      }
    }
  }

  lemma RoundIsTimed(r: Round, es: seq<Event>, times: seq<int>, capacity: nat, status: Status)
    requires RoundDone(r, es, times, capacity, status)
    ensures |times| == |es|
  {
  }

  class Server {
    const engine: Engine
    const poll: Poll

    /** The epoll registrations: which connections, and what they wait for. */
    var interest: map<Connection, Op>

    /** The connections accepted so far, and those freed and closed so far, in order. */
    ghost var accepted: set<Connection>
    ghost var released: seq<Connection>

    /** What has happened so far; the run of the abstract machine that the server is in. */
    ghost var trace: seq<Event>
    /** The time at the end of each of those events. */
    ghost var times: seq<int>

    /** The connections being served, by identity. */
    ghost var byId: map<nat, Connection>
    ghost var nextId: nat

    /** No two connections share a buffer. */
    ghost predicate Apart(held: set<Connection>) {
      forall c, d :: c in held && d in held && c != d ==>
        c.data != d.data && c.buf != d.buf && c.data != d.buf
    }

    /** `c` is between two calls of update_state, in the state that the run says. */
    ghost predicate Settled(c: Connection, w: World)
      reads engine.clock, c`pos, c`len, c`cur, c`rem, c`zodiacIx, c`state, c`op, c`ts, c`entered, c`tally, c.data, c.buf
    {
      && c.Shaped() && AtRest(c.View()) && engine.Due(c)
      && c.id in w.links && w.links[c.id].conn == c.View() && Matches(w.links[c.id], c.tally)
    }

    /** The connections being served are exactly those that the run says are live, and those in
        `mid`, which are being dealt with. */
    ghost predicate Tracks(w: World, held: set<Connection>, mid: set<Connection>)
      reads `byId, `nextId
    {
      && (forall id :: id in w.links && !Terminal(w.links[id].conn) ==> id in byId)
      && (forall id :: id in byId ==> id in w.links && byId[id] in held && byId[id].id == id)
      && (forall id :: id in byId && Terminal(w.links[id].conn) ==> byId[id] in mid)
      && (forall c :: c in held ==> c.id in byId && byId[c.id] == c)
      && (forall id :: id in w.links ==> id < nextId)
    }

    /** Every accepted connection is either in use or has been freed, and once only. */
    ghost predicate Accounted(held: set<Connection>)
      reads `accepted, `released
    {
      && accepted == held + (set c | c in released)
      && (forall i, j :: 0 <= i < j < |released| ==> released[i] != released[j])
      && (forall c :: c in released ==> c !in held)
    }

    /** The server is in the state `w` of the run; the connections in `mid` are being dealt with. */
    ghost predicate Sound(w: World, mid: set<Connection>)
      reads `interest, `accepted, `released, `byId, `nextId, engine.heap`size, engine.heap`held, engine.heap.arr, engine.heap.held, engine.table, engine.table.rows, engine.clock
      reads set c | c in engine.heap.held :: c.data, set c | c in engine.heap.held :: c.buf
    {
      var held := engine.heap.held;
      && engine.heap.Valid() && engine.table.Valid() && w.book == engine.table.book
      && Apart(held) && Tracks(w, held, mid) && Accounted(held)
      && interest.Keys == held
      && (forall c :: c in held && c !in mid ==> Settled(c, w))
    }

    /** Registered interest agrees with what every connection is doing. */
    ghost predicate Agrees(except: set<Connection>)
      reads `interest, engine.heap`size, engine.heap`held, engine.heap.held`op
    {
      forall c :: c in engine.heap.held && c !in except ==> c in interest && interest[c] == c.op
    }

    /** Every deadline counts from the time at which the run says that the connection entered the
        phase it is in, except for those in `except`, which are being dealt with. */
    ghost predicate OnTime(except: set<Connection>)
      requires |times| == |trace|
      reads `trace, `times, engine.heap`size, engine.heap`held, engine.heap.held`entered
    {
      forall c :: c in engine.heap.held && c !in except ==> EnteredAt(trace, times, c.id) == Some(c.entered)
    }

    /** The events are in the order of time. */
    ghost predicate Stamped()
      reads `trace, `times, engine.clock
    {
      && |times| == |trace|
      && (forall i, j :: 0 <= i < j < |times| ==> times[i] <= times[j])
      && (forall i :: 0 <= i < |times| ==> times[i] <= engine.clock.now)
    }

    /** The server is in the state of the run, and everything is on time. */
    ghost predicate Steady()
      reads this, engine.heap`size, engine.heap`held, engine.heap.arr, engine.heap.held, engine.table, engine.table.rows, engine.clock
      reads set c | c in engine.heap.held :: c.data, set c | c in engine.heap.held :: c.buf
    {
      !Run(trace).hung && Sound(Run(trace), {}) && Stamped() && OnTime({})
    }

    ghost predicate Valid()
      reads this, engine.heap`size, engine.heap`held, engine.heap.arr, engine.heap.held, engine.table, engine.table.rows, engine.clock
      reads set c | c in engine.heap.held :: c.data, set c | c in engine.heap.held :: c.buf
    {
      Steady() && Agrees({})
    }

    constructor (capacity: nat)
      ensures Valid() && engine.heap.held == {} && trace == [] && released == []
      ensures fresh(engine) && fresh(engine.heap) && fresh(engine.heap.arr) && fresh(engine.table)
              && fresh(engine.table.rows) && fresh(engine.clock) && fresh(poll) && poll.rounds == []
    {
      engine := new Engine(capacity);
      poll := new Poll();
      interest := map[];
      accepted := {};
      released := [];
      trace := [];
      times := [];
      byId := map[];
      nextId := 0;
    }

    /** remove_server_state: the record is taken out of epoll and the heap by its own slot
        number, freed, and its descriptor closed. Nothing else is. */
    method RemoveServerState(c: Connection)
      requires engine.heap.Valid() && c in engine.heap.held && Accounted(engine.heap.held)
      modifies this`interest, this`released, engine.heap, engine.heap.arr, engine.heap.held`heapIx
      ensures engine.heap.Valid() && engine.heap.held == old(engine.heap.held) - {c}
      ensures engine.heap.size == old(engine.heap.size) - 1
      ensures interest == old(interest) - {c} && released == old(released) + [c]
      ensures Accounted(engine.heap.held)
    {
      interest := interest - {c};
      var removed := engine.heap.Remove(c.heapIx);
      assert removed == c;
      released := released + [c];
    }

    /** `view` is what update_state is called on when `e` happens to the connection `id`. */
    ghost predicate Concerns(w: World, e: Event, id: nat, view: Conn, io: Io) {
      && id in w.links && AtRest(w.links[id].conn)
      && (e == Ready(id, io) || e == Drop(id))
      && (e.Ready? ==> w.links[id].conn == view)
      && (e.Drop? ==> view == Dropped(w.links[id]).conn && !Guard(view))
    }

    /** `c` is as the event `e` of the run finds it when update_state is called: settled for a
        ready connection, put into the error state for an expired one. */
    ghost predicate Handed(c: Connection, w: World, e: Event, io: Io)
      reads engine.clock, c, c.data, c.buf
    {
      && c.Shaped() && Concerns(w, e, c.id, c.View(), io) && Matches(w.links[c.id], c.tally)
      && (e.Ready? ==> engine.Due(c))
    }

    /** The loop of update_state leaves the other connections alone. */
    method RunLoopOn(c: Connection, io: Io) returns (hung: bool)
      requires engine.Owns(c) && c.Shaped() && engine.Startable(c) && Apart(engine.heap.held)
      modifies engine.heap.arr, engine.heap.held`heapIx, engine.heap`swapped
      modifies c, c.data, c.buf, engine.table, engine.table.rows, engine.clock, engine`passes
      ensures engine.heap.Valid() && engine.table.Valid() && c.Shaped()
      ensures var s := old(Goal(c.View(), engine.table.book, io));
              c.View() == s.conn && engine.table.book == s.book
      ensures (Live(c.View()) && engine.Due(c)) || Terminal(c.View())
      ensures Live(c.View()) ==> engine.Clocked(c, old(c.View()).mode, io)
      ensures hung <==> Guard(c.View())
      ensures c.tally == Tallied(old(c.tally), old(c.View()), io)
      ensures old(engine.clock.now) <= engine.clock.now
      ensures old(Terminal(c.View())) ==> engine.ClockStill()
      ensures forall d :: d in engine.heap.held && d != c ==> Untouched(d) && d.op == old(d.op)
    {
      hide Heap.Valid, Table.Valid, Goal, Live, Terminal, Connection.Shaped, Connection.View, BookOk, Engine.Due, Engine.Clocked, Tallied;
      hung := engine.RunLoop(c, io);
    }

    /** The first part of update_state, up to the end of its loop. */
    method Process(c: Connection, io: Io, ghost w: World, ghost e: Event) returns (hung: bool)
      requires Ok(w) && !w.hung && Sound(w, {c}) && c in engine.heap.held && Handed(c, w, e, io)
      modifies engine.heap.arr, engine.heap.held`heapIx, engine.heap`swapped
      modifies c, c.data, c.buf, engine.table, engine.table.rows, engine.clock, engine`passes
      ensures Sound(Next(w, e), {c})
      ensures forall d :: d in engine.heap.held && d != c ==>
                d.op == old(d.op) && d.entered == old(d.entered) && Untouched(d)
      ensures c.Shaped() && c.id in Next(w, e).links && Next(w, e).links[c.id].conn == c.View()
      ensures hung == Next(w, e).hung
      ensures !hung ==> (Terminal(c.View()) || (Settled(c, Next(w, e)) && engine.Clocked(c, old(c.View()).mode, io)))
      ensures old(engine.clock.now) <= engine.clock.now && (e.Drop? ==> engine.ClockStill())
    {
      hide Next, Goal, Update, AtRest, Live, Heap.Valid, Table.Valid, BookOk, Dropped, Concerns, Settled, Handed, Sound;
      hide Untouched, Engine.Startable, Engine.Due, Engine.Clocked, Connection.View, Connection.Shaped, Tallied, Matches, Terminal;
      HandedOver(c, w, e, io);
      NextOn(w, e, c.id, c.View(), io, c.tally);
      ghost var w' := Next(w, e);
      hung := RunLoopOn(c, io);
      TheirOps(engine.heap.held - {c});
      LoopSound(c, w, w');
      if !hung && !Terminal(c.View()) {
        LiveIsNotOver(c.View());
        NowSettled(c, w');
      }
    }

    twostate lemma TheirOps(them: set<Connection>)
      requires forall d :: d in them ==> Untouched(d)
      ensures forall d :: d in them ==> d.op == old(d.op) && d.entered == old(d.entered)
    {
    }

    lemma LiveIsNotOver(v: Conn)
      requires AtRest(v) || Terminal(v)
      ensures !Terminal(v) ==> Live(v) && AtRest(v)
    {
    }

    /** What update_state relies on. */
    lemma HandedOver(c: Connection, w: World, e: Event, io: Io)
      requires Sound(w, {c}) && c in engine.heap.held && Handed(c, w, e, io)
      ensures c.id in w.links && c.Shaped() && Concerns(w, e, c.id, c.View(), io) && Matches(w.links[c.id], c.tally)
      ensures engine.Startable(c) && engine.Owns(c) && Apart(engine.heap.held) && w.book == engine.table.book
      ensures e.Drop? ==> Terminal(c.View())
    {
      hide Heap.Valid, Table.Valid, Settled, Tracks, Accounted, Apart, Matches;
    }

    /** The run and the server take the same step. */
    twostate lemma LoopSound(c: Connection, new w: World, new w': World)
      requires old(Sound(w, {c})) && old(c in engine.heap.held)
      requires old(released) == released && old(accepted) == accepted && old(interest) == interest && old(byId) == byId && old(nextId) == nextId
      requires engine.heap.held == old(engine.heap.held) && engine.heap.Valid() && engine.table.Valid()
      requires forall d :: d in engine.heap.held && d != c ==> Untouched(d)
      requires old(engine.clock.now) <= engine.clock.now
      requires w'.book == engine.table.book && w'.links.Keys == w.links.Keys
      requires forall other :: other in w.links && other != c.id ==> w'.links[other] == w.links[other]
      ensures Sound(w', {c})
    {
      hide Settled, Untouched, Heap.Valid, Table.Valid, Tracks, Accounted, Apart;
      TracksNext(w, w', engine.heap.held, c);
      StaySettled(engine.heap.held - {c}, w, w');
      assert Accounted(engine.heap.held) && Apart(engine.heap.held);
    }

    lemma TracksNext(w: World, w': World, held: set<Connection>, c: Connection)
      requires Tracks(w, held, {c}) && c in held
      requires w'.links.Keys == w.links.Keys
      requires forall other :: other in w.links && other != c.id ==> w'.links[other] == w.links[other]
      ensures Tracks(w', held, {c})
      ensures forall d :: d in held && d != c ==> d.id in w'.links && w'.links[d.id] == w.links[d.id]
    {
    }

    lemma NowSettled(c: Connection, w: World)
      requires c.Shaped() && c.id in w.links && w.links[c.id].conn == c.View() && AtRest(c.View()) && engine.Due(c)
      requires Matches(w.links[c.id], c.tally)
      ensures Settled(c, w)
    {
    }

    /** update_state. The deadline of a connection that goes on counts from the last phase entry:
        within the call if it has left its phase, and as it was before if it has not. */
    method UpdateState(c: Connection, io: Io, modOk: bool, ghost e: Event) returns (status: Status)
      requires var w := Run(trace); !w.hung && Sound(w, {c}) && Handed(c, w, e, io)
      requires Agrees({}) && c in engine.heap.held && Stamped() && OnTime({})
      modifies this, engine.heap, engine.heap.arr, engine.heap.held`heapIx
      modifies c, c.data, c.buf, engine.table, engine.table.rows, engine.clock, engine`passes
      ensures trace == old(trace) + [e] && times == old(times) + [engine.clock.now]
      ensures var w := Run(trace);
              && (status == Hung <==> w.hung)
              && c.id in w.links && (status != Hung ==> Steady())
              && (status == Fine ==> Agrees({}))
              && (status == Failure <==>
                    !modOk && status != Hung && !Terminal(w.links[c.id].conn) && c.op != old(c.op))
              && (status != Hung && Terminal(w.links[c.id].conn) ==>
                    engine.heap.held == old(engine.heap.held) - {c} && released == old(released) + [c])
              && (status != Hung && !Terminal(w.links[c.id].conn) ==>
                    engine.heap.held == old(engine.heap.held) && released == old(released)
                    && c.Shaped() && engine.Clocked(c, old(c.View()).mode, io))
      ensures accepted == old(accepted) && old(released) <= released
      ensures old(engine.clock.now) <= engine.clock.now && (e.Drop? ==> engine.ClockStill())
      ensures forall d :: d in old(engine.heap.held) && d != c ==> Untouched(d)
    {
      hide Run, Next, Sound, Handed, Terminal, AtRest, Connection.View, Connection.Shaped, Settled, OnTime, Stamped;
      hide Engine.Clocked, Begins, Agrees, Untouched, Heap.Valid, Accounted;
      var initOp := c.op;
      var hung := Work(c, io, e);
      if hung {
        return Hung;
      }
      status := Conclude(c, initOp, modOk, Run(trace));
    }

    /** The part of update_state up to the end of its loop, as an event of the run. */
    method Work(c: Connection, io: Io, ghost e: Event) returns (hung: bool)
      requires var w := Run(trace); !w.hung && Sound(w, {c}) && Handed(c, w, e, io)
      requires Agrees({}) && c in engine.heap.held && Stamped() && OnTime({})
      modifies this`trace, this`times, engine.heap.arr, engine.heap.held`heapIx, engine.heap`swapped
      modifies c, c.data, c.buf, engine.table, engine.table.rows, engine.clock, engine`passes
      ensures trace == old(trace) + [e] && times == old(times) + [engine.clock.now] && hung == Run(trace).hung
      ensures Sound(Run(trace), {c}) && Agrees({c}) && c in interest && interest[c] == old(c.op)
      ensures c.Shaped() && c.id in Run(trace).links && Run(trace).links[c.id].conn == c.View()
      ensures !hung ==>
                && Stamped() && OnTime(if Terminal(c.View()) then {c} else {})
                && (Terminal(c.View()) || (Settled(c, Run(trace)) && engine.Clocked(c, old(c.View()).mode, io)))
      ensures old(engine.clock.now) <= engine.clock.now && (e.Drop? ==> engine.ClockStill())
      ensures forall d :: d in engine.heap.held && d != c ==> Untouched(d)
    {
      hide Run, Next, Sound, Handed, Terminal, AtRest, Connection.View, Connection.Shaped, Settled, OnTime, Stamped;
      hide Engine.Clocked, Begins, Agrees, Untouched, Heap.Valid, Accounted;
      ghost var w := Run(trace);
      IdsDiffer(w, {c});
      Serving(c, w, e, io);
      ghost var start := c.View().mode;
      hung := Process(c, io, w, e);
      trace := trace + [e];
      times := times + [engine.clock.now];
      RunMore(old(trace), e);
      StillAgrees(c);
      if !hung {
        OnTimeNext(c, w, e, io, start, Terminal(c.View()));
      }
    }

    lemma IdsDiffer(w: World, mid: set<Connection>)
      requires Sound(w, mid)
      ensures forall c, d :: c in engine.heap.held && d in engine.heap.held && c != d ==> c.id != d.id
    {
      hide Heap.Valid, Table.Valid, Settled, Apart, Accounted;
    }

    lemma Serving(c: Connection, w: World, e: Event, io: Io)
      requires Ok(w) && Handed(c, w, e, io) && !w.hung
      ensures c.Shaped()
      ensures || (e == Drop(c.id) && c.id in Next(w, e).links && Terminal(Next(w, e).links[c.id].conn))
              || (e == Ready(c.id, io) && Serves(w, c.id) && w.links[c.id].conn == c.View())
    {
      hide Connection.View, Connection.Shaped;
    }

    /** Of all registrations only that of `c` may have to change. */
    twostate lemma StillAgrees(c: Connection)
      requires old(Agrees({})) && interest == old(interest) && engine.heap.held == old(engine.heap.held)
      requires c in engine.heap.held && forall d :: d in engine.heap.held && d != c ==> d.op == old(d.op)
      ensures Agrees({c}) && c in interest && interest[c] == old(c.op)
    {
    }

    /** The deadlines are on time after the event, too. */
    twostate lemma OnTimeNext(c: Connection, new w: World, new e: Event, new io: Io, new start: Mode, new over: bool)
      requires engine.heap.held <= old(engine.heap.held) && c in old(engine.heap.held)
      requires old(Stamped()) && old(OnTime({})) && w == Run(old(trace)) && old(engine.clock.now) <= engine.clock.now
      requires trace == old(trace) + [e] && times == old(times) + [engine.clock.now]
      requires forall d :: d in engine.heap.held && d != c ==> d.id != c.id && d.entered == old(d.entered)
      requires e == Drop(c.id) || (e == Ready(c.id, io) && Serves(w, c.id) && w.links[c.id].conn.mode == start)
      requires !over ==>
                 && c.id in Next(w, e).links && c.Shaped() && Next(w, e).links[c.id].conn == c.View()
                 && e == Ready(c.id, io) && engine.Clocked(c, start, io)
      ensures Stamped() && OnTime(if over then {c} else {})
    {
      hide Run, Next, Connection.View, Connection.Shaped;
      forall d | d in engine.heap.held && (d != c || !over)
        ensures EnteredAt(trace, times, d.id) == Some(d.entered)
      {
        EnteredMore(old(trace), old(times), e, engine.clock.now, d.id);
      }
    }

    /** The second part of update_state: a connection that is over is removed, and one that has
        changed direction is registered for the new one. */
    method Conclude(c: Connection, initOp: Op, modOk: bool, ghost w: World) returns (status: Status)
      requires Sound(w, {c}) && Agrees({c}) && c in engine.heap.held && interest[c] == initOp
      requires c.Shaped() && c.id in w.links && w.links[c.id].conn == c.View()
      requires Terminal(c.View()) || Settled(c, w)
      requires Stamped() && OnTime(if Terminal(c.View()) then {c} else {})
      modifies this`interest, this`released, this`byId, engine.heap, engine.heap.arr, engine.heap.held`heapIx
      ensures status != Hung && Sound(w, {}) && Stamped() && OnTime({})
      ensures status == Fine ==> Agrees({})
      ensures status == Failure <==> !modOk && !Terminal(w.links[c.id].conn) && c.op != initOp
      ensures Terminal(w.links[c.id].conn) ==>
                engine.heap.held == old(engine.heap.held) - {c} && released == old(released) + [c]
      ensures !Terminal(w.links[c.id].conn) ==>
                engine.heap.held == old(engine.heap.held) && released == old(released)
    {
      hide Heap.Valid, Table.Valid, BookOk, Settled, Tracks, Accounted, Apart, EnteredAt, OnTime, Stamped, Connection.View;
      OverByState(c);
      if c.state == StateError || c.state == StateSuccess {
        Discard(c, w);
        return Fine;
      }
      StillServed(c, w);
      if initOp != c.op {
        if !modOk {
          return Failure;
        }
        interest := interest[c := c.op];
      }
      return Fine;
    }

    lemma OverByState(c: Connection)
      requires c.Shaped()
      ensures Terminal(c.View()) <==> c.state == StateError || c.state == StateSuccess
    {
    }

    /** The end of a connection. */
    method Discard(c: Connection, ghost w: World)
      requires Sound(w, {c}) && c in engine.heap.held && c.id in w.links && Terminal(w.links[c.id].conn)
      requires Stamped() && OnTime({c})
      modifies this`interest, this`released, this`byId, engine.heap, engine.heap.arr, engine.heap.held`heapIx
      ensures Sound(w, {}) && Stamped() && OnTime({})
      ensures engine.heap.held == old(engine.heap.held) - {c} && engine.heap.size == old(engine.heap.size) - 1
      ensures interest == old(interest) - {c} && released == old(released) + [c]
    {
      hide AtRest, Heap.Valid, Table.Valid, Settled, Accounted, Terminal, Tracks, Apart, EnteredAt;
      byId := byId - {c.id};
      TracksWithout(c, w, engine.heap.held);
      RemoveServerState(c);
    }

    twostate lemma TracksWithout(new c: Connection, new w: World, held: set<Connection>)
      requires c in held && old(Tracks(w, held, {c})) && Terminal(w.links[c.id].conn)
      requires byId == old(byId) - {c.id} && nextId == old(nextId)
      ensures Tracks(w, held - {c}, {})
      ensures Apart(held) ==> Apart(held - {c})
    {
    }

    lemma StillServed(c: Connection, w: World)
      requires Sound(w, {c}) && Settled(c, w)
      ensures Sound(w, {})
    {
    }

    /** Nothing but the slot number of `d` has changed. */
    twostate predicate Untouched(d: Connection)
      reads d`pos, d`len, d`cur, d`rem, d`zodiacIx, d`state, d`op, d`ts, d`entered, d`tally, d.data, d.buf
    {
      && d.pos == old(d.pos) && d.len == old(d.len) && d.cur == old(d.cur) && d.rem == old(d.rem)
      && d.zodiacIx == old(d.zodiacIx) && d.state == old(d.state) && d.op == old(d.op)
      && d.ts == old(d.ts) && d.entered == old(d.entered) && d.tally == old(d.tally)
      && d.data[..] == old(d.data[..]) && d.buf[..] == old(d.buf[..])
    }

    /** Connections that nobody touches stay settled. */
    twostate lemma StaySettled(them: set<Connection>, new w: World, new w': World)
      requires forall d :: d in them ==> old(Settled(d, w)) && Untouched(d)
      requires old(engine.clock.now) <= engine.clock.now
      requires forall d :: d in them ==> d.id in w.links && d.id in w'.links && w'.links[d.id] == w.links[d.id]
      ensures forall d :: d in them ==> Settled(d, w')
    {
    }

    /** One event changes one connection, and as update_state does. */
    lemma NextOn(w: World, e: Event, id: nat, view: Conn, io: Io, tally: Tally)
      requires Ok(w) && !w.hung && Concerns(w, e, id, view, io) && Matches(w.links[id], tally)
      ensures var s, w' := Goal(view, w.book, io), Next(w, e);
              && w'.book == s.book && w'.links.Keys == w.links.Keys && w'.links[id].conn == s.conn
              && (forall other :: other in w.links && other != id ==> w'.links[other] == w.links[other])
              && (w'.hung <==> Guard(s.conn))
              && (AtRest(s.conn) || Terminal(s.conn))
              && Matches(w'.links[id], Tallied(tally, view, io))
    {
      hide Update, BookOk;
      if e.Ready? {
        UpdateKeeps(view, w.book, io);
      }
    }

    lemma RunMore(es: seq<Event>, e: Event)
      ensures Run(es + [e]) == Next(Run(es), e)
    {
      assert (es + [e])[..|es|] == es;
    }

    // ---------- New connections ----------

    /** The record of a new connection, with its deadline, for the slot the heap will give it. */
    method NewRecord() returns (s: Connection)
      modifies engine.clock
      ensures fresh(s) && fresh(s.data) && fresh(s.buf) && s.data != s.buf
      ensures s.id == nextId && s.heapIx == engine.heap.size
      ensures s.Shaped() && s.View() == INITIAL && engine.Due(s) && s.op == Read
      ensures s.tally == Tally(0, [], []) && s.entered == engine.clock.now
      ensures engine.clock.readings == old(engine.clock.readings) + 1
      ensures old(engine.clock.now) <= engine.clock.now
    {
      s := new Connection(nextId, engine.heap.size);
      var now := engine.clock.Sample();
      s.ts := now + Timeout(Read);
      s.entered := now;
    }

    /** create_server_state. */
    method CreateServerState(mallocOk: bool, epollOk: bool) returns (c: Connection?)
      requires Valid()
      modifies this, engine.heap, engine.heap.arr, engine.heap.held`heapIx, engine.clock
      ensures Valid()
      ensures c == null ==> engine.heap.held == old(engine.heap.held) && trace == old(trace)
      ensures c != null ==>
                && fresh(c) && fresh(c.data) && fresh(c.buf)
                && engine.heap.held == old(engine.heap.held) + {c}
                && trace == old(trace) + [Accept(c.id)] && times == old(times) + [c.entered]
                && c.Shaped() && c.View() == INITIAL && c.id !in Run(old(trace)).links
      ensures c == null <==> !mallocOk || !epollOk || old(engine.heap.size) >= engine.heap.arr.Length
      ensures released == old(released) && accepted == old(accepted) + (if c == null then {} else {c})
      ensures c == null ==> times == old(times)
    {
      hide Run, Sound, Next, Heap.Valid, Connection.View, Connection.Shaped, Begins, OnTime, Stamped, Agrees;
      if !mallocOk {
        return null;
      }
      ghost var w := Run(trace);
      c := Add(epollOk, w);
      if c == null {
        ClockAdvances();
      } else {
        trace := trace + [Accept(c.id)];
        times := times + [engine.clock.now];
        RunMore(old(trace), Accept(c.id));
        OnTimeAccept(c, w);
      }
    }

    /** Time passes, and nothing else happens. */
    twostate lemma ClockAdvances()
      requires old(Stamped()) && old(OnTime({})) && trace == old(trace) && times == old(times)
      requires engine.heap.held == old(engine.heap.held) && old(engine.clock.now) <= engine.clock.now
      requires forall d :: d in engine.heap.held ==> d.entered == old(d.entered)
      ensures Stamped() && OnTime({})
    {
    }

    /** A connection that is accepted enters its first phase. */
    twostate lemma OnTimeAccept(new c: Connection, new w: World)
      requires old(Stamped()) && old(OnTime({})) && w == Run(old(trace)) && old(engine.clock.now) <= engine.clock.now
      requires trace == old(trace) + [Accept(c.id)] && times == old(times) + [engine.clock.now]
      requires engine.heap.held == old(engine.heap.held) + {c}
      requires forall d :: d in old(engine.heap.held) ==> d.id != c.id && d.entered == old(d.entered)
      requires !w.hung && c.id !in w.links && c.entered == engine.clock.now
      ensures Stamped() && OnTime({})
    {
      hide Run, Next;
      forall d | d in engine.heap.held
        ensures EnteredAt(trace, times, d.id) == Some(d.entered)
      {
        EnteredMore(old(trace), old(times), Accept(c.id), engine.clock.now, d.id);
      }
    }

    method Add(epollOk: bool, ghost w: World) returns (c: Connection?)
      requires Ok(w) && !w.hung && Sound(w, {}) && Agrees({})
      modifies this`interest, this`accepted, this`byId, this`nextId
      modifies engine.heap, engine.heap.arr, engine.heap.held`heapIx, engine.clock
      ensures Agrees({})
      ensures c == null ==> engine.heap.held == old(engine.heap.held) && Sound(w, {})
      ensures c != null ==>
                && fresh(c) && fresh(c.data) && fresh(c.buf)
                && engine.heap.held == old(engine.heap.held) + {c}
                && Sound(Next(w, Accept(c.id)), {}) && !Next(w, Accept(c.id)).hung
                && c.Shaped() && c.View() == INITIAL
                && c.id !in w.links && c.entered == engine.clock.now
      ensures forall d :: d in old(engine.heap.held) ==> d.id in w.links
      ensures old(engine.clock.now) <= engine.clock.now
      ensures accepted == old(accepted) + (if c == null then {} else {c})
      ensures c == null <==> !epollOk || old(engine.heap.size) >= engine.heap.arr.Length
    {
      hide Heap.Valid, Table.Valid, BookOk, Settled, Accounted, AtRest, Tracks, Apart, Next, Agrees, Untouched;
      hide Connection.View, Connection.Shaped, Engine.Due, Ok;
      FreshId(w);
      TableIsSound(w);
      c := Join(epollOk);
      if c == null {
        NotAdmitted(w);
      } else {
        Admitted(c, w, Next(w, Accept(c.id)));
      }
    }

    /** A new record is made and offered to the heap. */
    method Join(epollOk: bool) returns (c: Connection?)
      requires engine.heap.Valid() && Agrees({})
      modifies this`interest, this`accepted, this`byId, this`nextId
      modifies engine.heap, engine.heap.arr, engine.heap.held`heapIx, engine.clock
      ensures engine.heap.Valid() && Agrees({})
      ensures c == null <==> !epollOk || old(engine.heap.size) >= engine.heap.arr.Length
      ensures c == null ==> engine.heap.held == old(engine.heap.held)
                            && interest == old(interest) && byId == old(byId) && nextId == old(nextId)
                            && accepted == old(accepted)
      ensures c != null ==> c.id == old(nextId) && engine.heap.held == old(engine.heap.held) + {c}
                            && interest == old(interest)[c := Read] && byId == old(byId)[c.id := c]
                            && nextId == c.id + 1 && accepted == old(accepted) + {c}
                            && fresh(c) && fresh(c.data) && fresh(c.buf)
                            && c.Shaped() && c.View() == INITIAL && engine.Due(c)
                            && c.tally == Tally(0, [], []) && c.entered == engine.clock.now
      ensures forall d :: d in old(engine.heap.held) ==> Untouched(d)
      ensures old(engine.clock.now) <= engine.clock.now
    {
      hide Heap.Valid, Connection.View, Connection.Shaped, Engine.Due;
      var s := NewRecord();
      c := Admit(s, epollOk);
    }

    lemma TableIsSound(w: World)
      requires Sound(w, {})
      ensures engine.heap.Valid() && engine.table.Valid() && w.book == engine.table.book
    {
    }

    lemma FreshId(w: World)
      requires Sound(w, {})
      ensures nextId !in w.links
      ensures forall d :: d in engine.heap.held ==> d.id in w.links
    {
      hide Settled, Heap.Valid, Table.Valid, Apart, Accounted;
    }

    /** A connection that is not accepted after all leaves everything as it was. */
    twostate lemma NotAdmitted(new w: World)
      requires old(Sound(w, {})) && engine.heap.held == old(engine.heap.held)
      requires engine.heap.Valid() && engine.table.Valid() && engine.table.book == old(engine.table.book)
      requires interest == old(interest) && byId == old(byId) && nextId == old(nextId)
      requires accepted == old(accepted) && released == old(released)
      requires forall d :: d in engine.heap.held ==> Untouched(d)
      requires old(engine.clock.now) <= engine.clock.now
      ensures Sound(w, {})
    {
      assert forall d :: d in engine.heap.held ==> d.id in w.links;
      hide Settled, Untouched, Heap.Valid, Table.Valid, Apart, Tracks;
      StaySettled(engine.heap.held, w, w);
      assert Tracks(w, engine.heap.held, {}) && Accounted(engine.heap.held);
    }

    /** An accepted connection joins the others. */
    twostate lemma Admitted(new s: Connection, new w: World, new w': World)
      requires Ok(w) && !w.hung && s.id !in w.links && w' == Next(w, Accept(s.id))
      requires old(Sound(w, {})) && old(nextId) == s.id
      requires engine.heap.held == old(engine.heap.held) + {s} && s !in old(engine.heap.held)
      requires engine.heap.Valid() && engine.table.Valid() && engine.table.book == old(engine.table.book)
      requires interest == old(interest)[s := Read] && byId == old(byId)[s.id := s] && nextId == s.id + 1
      requires accepted == old(accepted) + {s} && released == old(released) && s !in released
      requires forall d :: d in old(engine.heap.held) ==> Untouched(d)
      requires forall d :: d in old(engine.heap.held) ==>
                 s.data != d.data && s.buf != d.buf && s.data != d.buf && s.buf != d.data
      requires old(engine.clock.now) <= engine.clock.now
      requires s.Shaped() && s.View() == INITIAL && engine.Due(s) && s.tally == Tally(0, [], [])
      ensures Sound(w', {}) && !w'.hung
    {
      hide Engine.Due, Terminal, Settled, Untouched, Heap.Valid, Table.Valid, Next, Tracks, Apart, Accounted, Ok, BookOk;
      hide Connection.View, Connection.Shaped;
      AcceptOn(w, s.id);
      var held := old(engine.heap.held);
      TracksMore(s, held, w, w');
      StaySettled(held, w, w');
      NowSettled(s, w');
      ApartMore(s, held);
      AccountedMore(s, held);
    }

    lemma AcceptOn(w: World, id: nat)
      requires Ok(w) && !w.hung && id !in w.links
      ensures var w' := Next(w, Accept(id));
              w'.links == w.links[id := Link(INITIAL, Open, [], [], [])] && w'.book == w.book && !w'.hung
    {
    }

    twostate lemma TracksMore(new s: Connection, held: set<Connection>, new w: World, new w': World)
      requires old(Tracks(w, held, {})) && old(nextId) == s.id && nextId == s.id + 1
      requires byId == old(byId)[s.id := s] && s !in held
      requires w'.links == w.links[s.id := Link(INITIAL, Open, [], [], [])]
      ensures Tracks(w', held + {s}, {})
      ensures forall d :: d in held ==> d.id in w.links && d.id in w'.links && w'.links[d.id] == w.links[d.id]
    {
    }

    lemma ApartMore(s: Connection, held: set<Connection>)
      requires Apart(held)
      requires forall d :: d in held ==> s.data != d.data && s.buf != d.buf && s.data != d.buf && s.buf != d.data
      ensures Apart(held + {s})
    {
    }

    twostate lemma AccountedMore(new s: Connection, held: set<Connection>)
      requires old(Accounted(held)) && s !in released
      requires accepted == old(accepted) + {s} && released == old(released)
      ensures Accounted(held + {s})
    {
    }

    method Admit(s: Connection, epollOk: bool) returns (c: Connection?)
      requires engine.heap.Valid() && s !in engine.heap.held && s.heapIx == engine.heap.size
      requires Agrees({}) && s.op == Read
      modifies this`interest, this`accepted, this`byId, this`nextId
      modifies engine.heap, engine.heap.arr, engine.heap.held`heapIx, s`heapIx
      ensures engine.heap.Valid() && Agrees({})
      ensures c == null <==> !epollOk || old(engine.heap.size) >= engine.heap.arr.Length
      ensures c == null ==> engine.heap.held == old(engine.heap.held)
                            && interest == old(interest) && byId == old(byId) && nextId == old(nextId)
                            && accepted == old(accepted)
      ensures c != null ==> c == s && engine.heap.held == old(engine.heap.held) + {s}
                            && interest == old(interest)[s := Read] && byId == old(byId)[old(nextId) := s]
                            && nextId == old(nextId) + 1
                            && accepted == old(accepted) + {s}
    {
      var pushed := engine.heap.Push(s);
      if !pushed {
        return null;
      }
      assert engine.heap.arr[s.heapIx] == s;
      hide Heap.Valid, Heap.Indexed;
      if !epollOk {
        var removed := engine.heap.Remove(s.heapIx);
        return null;
      }
      interest := interest[s := Read];
      byId := byId[nextId := s];
      nextId := nextId + 1;
      accepted := accepted + {s};
      c := s;
    }

    /** process_new_connection. A connection over the limit is turned away without error. */
    method ProcessNewConnection(acceptOk: bool, mallocOk: bool, epollOk: bool) returns (ok: bool, c: Connection?)
      requires Valid()
      modifies this, engine.heap, engine.heap.arr, engine.heap.held`heapIx, engine.clock
      ensures Valid()
      ensures c == null ==> engine.heap.held == old(engine.heap.held) && trace == old(trace) && times == old(times)
      ensures c != null ==>
                && fresh(c) && fresh(c.data) && fresh(c.buf)
                && engine.heap.held == old(engine.heap.held) + {c}
                && trace == old(trace) + [Accept(c.id)] && times == old(times) + [c.entered]
                && c.id !in Run(old(trace)).links
      ensures c != null <==> acceptOk && mallocOk && epollOk && old(engine.heap.size) < engine.heap.arr.Length
      ensures ok <==> acceptOk && (old(engine.heap.size) >= engine.heap.arr.Length || (mallocOk && epollOk))
      ensures released == old(released) && accepted == old(accepted) + (if c == null then {} else {c})
    {
      hide Valid;
      if !acceptOk {
        return false, null;
      }
      if engine.heap.size >= engine.heap.arr.Length {
        return true, null;
      }
      c := CreateServerState(mallocOk, epollOk);
      ok := c != null;
    }

    // ---------- Deadlines ----------

    /** get_cur_time_ns. */
    method Now() returns (now: int)
      requires Valid()
      modifies engine.clock
      ensures Valid() && now == engine.clock.now >= old(engine.clock.now)
      ensures engine.clock.readings == old(engine.clock.readings) + 1
    {
      hide Heap.Valid, Table.Valid, Settled, Run, Tracks, Apart, Accounted;
      ghost var w := Run(trace);
      now := engine.clock.Sample();
      NotAdmitted(w);
      ClockAdvances();
    }

    /** While epoll_wait sleeps, only time passes. */
    method Sleep()
      requires Valid()
      modifies engine.clock
      ensures Valid() && old(engine.clock.now) <= engine.clock.now && engine.clock.readings == old(engine.clock.readings)
    {
      hide Heap.Valid, Table.Valid, Settled, Run, Tracks, Apart, Accounted;
      ghost var w := Run(trace);
      engine.clock.Pass();
      NotAdmitted(w);
      ClockAdvances();
    }

    lemma HeapIsValid()
      requires Valid()
      ensures engine.heap.Valid()
    {
    }

    /** What binary_heap_top returns: a connection with the earliest deadline, if any. */
    ghost predicate IsTop(top: Connection?)
      reads engine.heap`size, engine.heap`held, engine.heap.held`ts
    {
      if top == null then engine.heap.held == {}
      else top in engine.heap.held && forall d :: d in engine.heap.held ==> top.ts <= d.ts
    }

    method NowAndTop() returns (now: int, top: Connection?)
      requires Valid()
      modifies engine.clock
      ensures Valid() && old(engine.clock.now) <= now == engine.clock.now && IsTop(top)
      ensures engine.clock.readings == old(engine.clock.readings) + 1
    {
      hide Valid, Heap.Valid;
      now := Now();
      HeapIsValid();
      top := engine.heap.Top();
    }

    /** min_timeout: how many milliseconds epoll_wait may sleep, or -1 for as long as it takes.
        It does not sleep at all when a deadline has expired, never past any deadline, and until less
        than a millisecond before the earliest. */
    method MinTimeout() returns (t: int)
      requires Valid()
      modifies engine.clock
      ensures Valid()
      ensures t == -1 <==> engine.heap.held == {}
      ensures t != -1 ==> 0 <= t <= 300000
      ensures t > 0 ==> forall c :: c in engine.heap.held ==> engine.clock.now + t * MSEC_NS <= c.ts
      ensures t != -1 ==> exists c :: c in engine.heap.held && c.ts < engine.clock.now + (t + 1) * MSEC_NS
      ensures old(engine.clock.now) <= engine.clock.now && engine.clock.readings == old(engine.clock.readings) + 1
      ensures SleepsWell(trace, times, engine.clock.now, t)
    {
      hide Valid, Heap.Valid, AtRest, SleepsWell;
      var now, top := NowAndTop();
      if top == null {
        SleepsFor(null, -1);
        return -1;
      }
      TopIsDue(top);
      if top.ts <= now {
        SleepsFor(top, 0);
        return 0;
      }
      t := (top.ts - now) / MSEC_NS;
      MillisUntil(now, top.ts);
      SleepsFor(top, t);
    }

    /** What the deadlines of the connections in memory say about the run. */
    lemma SleepsFor(top: Connection?, t: int)
      requires Valid() && IsTop(top)
      requires if top == null then t == -1 else 0 <= t <= 300000 && top.ts < engine.clock.now + (t + 1) * MSEC_NS
      requires top != null && t > 0 ==> engine.clock.now + t * MSEC_NS <= top.ts
      ensures SleepsWell(trace, times, engine.clock.now, t)
    {
      hide Steady, Run, RunsTo;
      Deadlines();
      if top != null {
        assert RunsTo(trace, times, top.id, top.ts);
        assert Serves(Run(trace), top.id) by { RunsToServes(top.id, top.ts); }
      }
      forall id: nat, d | RunsTo(trace, times, id, d)
        ensures top != null && top.ts <= d
      {
        RunsToServes(id, d);
      }
    }

    lemma RunsToServes(id: nat, d: int)
      requires Steady() && RunsTo(trace, times, id, d)
      ensures Serves(Run(trace), id) && exists c :: c in engine.heap.held && c.id == id && c.ts == d
    {
      hide Steady, Run, EnteredAt;
      Deadlines();
      var c :| c in engine.heap.held && c.id == id;
      assert RunsTo(trace, times, id, c.ts);
    }

    /** The connections in memory are those that the run serves, and their deadlines are those of the
        run. */
    lemma Deadlines()
      requires Steady()
      ensures |times| == |trace|
      ensures forall c :: c in engine.heap.held ==> RunsTo(trace, times, c.id, c.ts)
      ensures forall id: nat :: Serves(Run(trace), id) ==> exists c :: c in engine.heap.held && c.id == id
    {
      hide Run, RunsTo, Heap.Valid, Table.Valid, Settled, Apart, Accounted, AtRest;
      forall c | c in engine.heap.held
        ensures RunsTo(trace, times, c.id, c.ts)
      {
        DeadlineIs(c);
      }
      forall id: nat | Serves(Run(trace), id)
        ensures exists c :: c in engine.heap.held && c.id == id
      {
        assert byId[id] in engine.heap.held;
      }
    }

    lemma DeadlineIs(c: Connection)
      requires Steady() && c in engine.heap.held
      ensures RunsTo(trace, times, c.id, c.ts)
    {
      hide Run, EnteredAt, Connection.View, Connection.Shaped, AtRest;
      IsServed(c, Run(trace));
      OpSays(c);
    }

    lemma TopIsDue(c: Connection)
      requires Valid() && c in engine.heap.held
      ensures c.ts <= engine.clock.now + Timeout(Read)
    {
      hide Run, AtRest, Connection.View, Connection.Shaped;
      assert Settled(c, Run(trace));
    }

    lemma MillisUntil(now: int, ts: int)
      requires now < ts <= now + Timeout(Read)
      ensures var t := (ts - now) / MSEC_NS;
              0 <= t <= 300000 && now + t * MSEC_NS <= ts < now + (t + 1) * MSEC_NS
    {
    }

    // ---------- The expiry sweep ----------

    /** The body of the loop of discard_expired_connections: the record is put into the error
        state, and update_state then removes it. It cannot hang, because a connection at rest
        that waits to read has nothing buffered. */
    method Expire(c: Connection, io: Io)
      requires Valid() && c in engine.heap.held
      modifies this, engine.heap, engine.heap.arr, engine.heap.held`heapIx
      modifies c, c.data, c.buf, engine.table, engine.table.rows, engine.clock, engine`passes
      ensures Valid()
      ensures engine.heap.held == old(engine.heap.held) - {c} && released == old(released) + [c]
      ensures trace == old(trace) + [Drop(c.id)] && times == old(times) + [engine.clock.now]
      ensures accepted == old(accepted) && engine.ClockStill()
      ensures forall d :: d in old(engine.heap.held) && d != c ==> Untouched(d)
    {
      hide Run, Next, Sound, Handed, Terminal, Settled, Agrees, OnTime, Stamped, Connection.View, Connection.Shaped;
      ghost var w := Run(trace);
      IsServed(c, w);
      DropOn(w, c.id);
      PutInError(c, w, io);
      Collect(c, io, Drop(c.id));
    }

    lemma IsServed(c: Connection, w: World)
      requires Sound(w, {}) && !w.hung && c in engine.heap.held
      ensures Sound(w, {c}) && Settled(c, w) && Serves(w, c.id) && c.state != StateError
    {
      hide Heap.Valid, Table.Valid, Apart, Accounted;
      SoundAmid(w, c);
    }

    lemma SoundAmid(w: World, c: Connection)
      requires Sound(w, {}) && c in engine.heap.held
      ensures Sound(w, {c})
    {
    }

    method PutInError(c: Connection, ghost w: World, io: Io)
      requires Sound(w, {c}) && c in engine.heap.held && Settled(c, w) && Agrees({}) && c.state != StateError
      modifies c`state
      ensures Sound(w, {c}) && Agrees({}) && Handed(c, w, Drop(c.id), io)
      ensures forall d :: d in engine.heap.held && d != c ==> Untouched(d)
    {
      hide Heap.Valid, Table.Valid, Tracks, Accounted;
      c.state := StateError;
      assert Handed(c, w, Drop(c.id), io);
      assert forall d :: d in engine.heap.held && d != c ==> Untouched(d);
      hide Settled, Untouched, Connection.View, Connection.Shaped;
      LoopSound(c, w, w);
    }

    method Collect(c: Connection, io: Io, ghost e: Event)
      requires Sound(Run(trace), {c}) && !Run(trace).hung && Agrees({}) && c in engine.heap.held && Handed(c, Run(trace), e, io)
      requires Stamped() && OnTime({})
      requires !Next(Run(trace), e).hung && c.id in Next(Run(trace), e).links && Terminal(Next(Run(trace), e).links[c.id].conn)
      modifies this, engine.heap, engine.heap.arr, engine.heap.held`heapIx
      modifies c, c.data, c.buf, engine.table, engine.table.rows, engine.clock, engine`passes
      ensures Valid()
      ensures engine.heap.held == old(engine.heap.held) - {c} && released == old(released) + [c]
      ensures trace == old(trace) + [e] && times == old(times) + [engine.clock.now]
      ensures accepted == old(accepted) && (e.Drop? ==> engine.ClockStill())
      ensures forall d :: d in old(engine.heap.held) && d != c ==> Untouched(d)
    {
      hide Run, Next, Sound, Handed, Agrees, Terminal, OnTime, Stamped, Engine.Clocked;
      RunMore(trace, e);
      var status := UpdateState(c, io, true, e);
    }

    lemma DropOn(w: World, id: nat)
      requires Ok(w) && Serves(w, id)
      ensures var w' := Next(w, Drop(id));
              !w'.hung && id in w'.links && Terminal(w'.links[id].conn)
    {
    }

    method ExpireAndTop(c: Connection, io: Io) returns (top: Connection?)
      requires Valid() && c in engine.heap.held
      modifies this, engine.heap, engine.heap.arr, engine.heap.held`heapIx
      modifies c, c.data, c.buf, engine.table, engine.table.rows, engine.clock, engine`passes
      ensures Valid() && IsTop(top)
      ensures engine.heap.held == old(engine.heap.held) - {c} && released == old(released) + [c]
      ensures trace == old(trace) + [Drop(c.id)] && times == old(times) + [engine.clock.now]
      ensures accepted == old(accepted) && engine.ClockStill()
      ensures forall d :: d in old(engine.heap.held) && d != c ==> Untouched(d)
    {
      hide Valid, Heap.Valid;
      Expire(c, io);
      HeapIsValid();
      top := engine.heap.Top();
    }

    /** discard_expired_connections: reads the clock once, removes exactly the connections whose
        deadline is not after that time, and leaves the others as they are. For the run these are
        the connections whose time for the phase they were in was over. */
    method DiscardExpired(io: Io) returns (now: int)
      requires Valid()
      modifies this, engine.heap, engine.heap.arr, engine.heap.held
      modifies set c | c in engine.heap.held :: c.data, set c | c in engine.heap.held :: c.buf
      modifies engine.table, engine.table.rows, engine.clock, engine`passes
      ensures Valid() && old(engine.clock.now) <= now == engine.clock.now
      ensures engine.clock.readings == old(engine.clock.readings) + 1
      ensures forall c :: c in engine.heap.held <==> c in old(engine.heap.held) && now < old(c.ts)
      ensures forall c :: c in engine.heap.held ==> old(allocated(c)) && Untouched(c)
      ensures forall c :: c in released <==> c in old(released) || (c in old(engine.heap.held) && old(c.ts) <= now)
      ensures accepted == old(accepted) && old(released) <= released && old(trace) <= trace && old(times) <= times
      ensures |trace| - old(|trace|) == |released| - old(|released|)
      ensures Swept(trace, times, old(|trace|), now) && NoneDue(trace, times, now)
    {
      hide Valid, Swept, NoneDue, Heap.Valid;
      ghost var all := engine.heap.held;
      var top;
      now, top := NowAndTop();
      NothingSwept(now);
      while top != null && top.ts <= now
        invariant Valid() && now == engine.clock.now && engine.clock.readings == old(engine.clock.readings) + 1
        invariant engine.heap.held <= all
        invariant forall c :: c in engine.heap.held ==> Untouched(c) && c.ts == old(c.ts)
        invariant forall c :: c in all && c !in engine.heap.held ==> old(c.ts) <= now
        invariant forall c :: c in released <==> c in old(released) || (c in all && c !in engine.heap.held)
        invariant IsTop(top)
        invariant accepted == old(accepted) && old(released) <= released && old(trace) <= trace && old(times) <= times
        invariant |trace| - old(|trace|) == |released| - old(|released|)
        invariant Swept(trace, times, old(|trace|), now)
        decreases engine.heap.held
      {
        ghost var was, late := released, top;
        SweepStep(top, now, old(|trace|));
        top := ExpireAndTop(top, io);
        assert forall c :: c in released <==> c in was || c == late;
      }
      NothingIsDue(top, now);
    }

    lemma NothingIsDue(top: Connection?, now: int)
      requires Valid() && IsTop(top) && (top != null ==> now < top.ts)
      ensures NoneDue(trace, times, now)
    {
      hide Steady, Run, RunsTo;
      Deadlines();
      forall id: nat | Serves(Run(trace), id)
        ensures exists t :: RunsTo(trace, times, id, t) && now < t
      {
        var c :| c in engine.heap.held && c.id == id;
        assert RunsTo(trace, times, id, c.ts) && now < c.ts;
      }
    }

    lemma NothingSwept(now: int)
      requires Valid()
      ensures Swept(trace, times, |trace|, now)
    {
    }

    /** For the run, too, the time of a connection with an expired deadline is over. */
    lemma SweepStep(c: Connection, now: int, from: nat)
      requires Valid() && c in engine.heap.held && c.ts <= now && Swept(trace, times, from, now)
      ensures Swept(trace + [Drop(c.id)], times + [now], from, now)
    {
      hide Valid, ExpiresAt;
      IsOver(c, now);
      var es, ts := trace + [Drop(c.id)], times + [now];
      forall i: nat | from <= i < |es|
        ensures ts[i] == now && ExpiresAt(es, ts, i)
      {
        if i < |trace| {
          ExpiresStill(trace, times, Drop(c.id), now, i);
        }
      }
    }

    lemma IsOver(c: Connection, now: int)
      requires Valid() && c in engine.heap.held && c.ts <= now
      ensures |times| == |trace| && ExpiresAt(trace + [Drop(c.id)], times + [now], |trace|)
    {
      hide Run, RunsTo;
      DeadlineIs(c);
      assert (trace + [Drop(c.id)])[..|trace|] == trace && (times + [now])[..|trace|] == times;
    }

    lemma OpSays(c: Connection)
      requires c.Shaped() && AtRest(c.View())
      ensures OpOf(c.View().mode) == c.op
    {
    }

    // ---------- Shutdown ----------

    /** FREE_HEAP_ELEMS: every connection that is left is freed and closed exactly once. */
    method Shutdown()
      requires Steady()
      modifies this, engine.heap, engine.heap.arr, engine.heap.held`heapIx
      ensures Steady() && engine.heap.held == {} && interest == map[]
      ensures forall c :: c in released <==> c in old(released) || c in old(engine.heap.held)
      ensures forall c :: c in accepted ==> c in released
      ensures forall i, j :: 0 <= i < j < |released| ==> released[i] != released[j]
      ensures accepted == old(accepted) && old(released) <= released && old(trace) <= trace && old(times) <= times
      ensures |times| == |trace| && forall i :: old(|trace|) <= i < |trace| ==> trace[i].Drop?
    {
      hide Steady, Heap.Ordered;
      ghost var all := engine.heap.held;
      SteadyFacts();
      while engine.heap.size > 0
        invariant engine.heap.Valid() && Accounted(engine.heap.held) && interest.Keys == engine.heap.held
        invariant Steady()
        invariant engine.heap.held <= all
        invariant forall c :: c in released <==> c in old(released) || (c in all && c !in engine.heap.held)
        invariant accepted == old(accepted) && old(released) <= released && old(trace) <= trace && old(times) <= times
        invariant |times| == |trace| && forall i :: old(|trace|) <= i < |trace| ==> trace[i].Drop?
        decreases engine.heap.size
      {
        var elem := engine.heap.arr[engine.heap.size - 1];
        Close(elem);
        SteadyFacts();
      }
      assert engine.heap.held == {};
    }

    lemma SteadyFacts()
      requires Steady()
      ensures engine.heap.Valid() && Accounted(engine.heap.held) && interest.Keys == engine.heap.held
      ensures |times| == |trace|
    {
    }

    method Close(c: Connection)
      requires Steady() && c in engine.heap.held
      modifies this`interest, this`released, this`byId, this`trace, this`times, engine.heap, engine.heap.arr, engine.heap.held`heapIx
      ensures Steady()
      ensures engine.heap.held == old(engine.heap.held) - {c} && engine.heap.size == old(engine.heap.size) - 1
      ensures released == old(released) + [c] && trace == old(trace) + [Drop(c.id)] && times == old(times) + [engine.clock.now]
    {
      hide Run, Next, Sound, Terminal, OnTime, Stamped, Begins;
      ghost var w := Run(trace);
      IdsDiffer(w, {});
      SoundAfterDrop(w, c);
      trace := trace + [Drop(c.id)];
      times := times + [engine.clock.now];
      RunMore(old(trace), Drop(c.id));
      OnTimeNext(c, w, Drop(c.id), Io(RecvError, SendError), Done, true);
      Discard(c, Run(trace));
    }

    lemma SoundAfterDrop(w: World, c: Connection)
      requires Ok(w) && !w.hung && Sound(w, {}) && c in engine.heap.held
      ensures var w' := Next(w, Drop(c.id));
              !w'.hung && Sound(w', {c}) && c.id in w'.links && Terminal(w'.links[c.id].conn)
    {
      hide Heap.Valid, Table.Valid, AtRest, Connection.View, Connection.Shaped, Apart, Accounted, Engine.Due;
      assert Settled(c, w);
      DropOn(w, c.id);
    }

    // ---------- The event loop ----------

    /** update_state on a connection that epoll has reported. Its deadline changes if and only if it
        leaves the phase it was in; those of all other connections stay. It fails exactly if epoll does
        not take the new direction of a connection that goes on. */
    method ServeReady(c: Connection, io: Io, modOk: bool) returns (status: Status)
      requires Valid() && c in engine.heap.held
      modifies this, engine.heap, engine.heap.arr, engine.heap.held`heapIx
      modifies c, c.data, c.buf, engine.table, engine.table.rows, engine.clock, engine`passes
      ensures trace == old(trace) + [Ready(c.id, io)] && times == old(times) + [engine.clock.now]
      ensures Serves(Run(old(trace)), c.id)
      ensures status == Failure <==> !modOk && Turns(Run(old(trace)), Run(trace), c.id)
      ensures accepted == old(accepted) && old(released) <= released
      ensures status == Hung <==> Stalls(PhaseAtHand(old(c.View())), AtHand(old(c.View()), io))
      ensures status == Hung ==> Run(trace).hung
      ensures status == Fine ==> Valid()
      ensures status == Failure ==> Steady()
      ensures status != Hung ==> old(engine.heap.held) - {c} <= engine.heap.held <= old(engine.heap.held)
      ensures status != Hung && c in engine.heap.held ==>
                c.Shaped() && engine.Clocked(c, old(c.View()).mode, io)
      ensures forall d :: d in old(engine.heap.held) && d != c ==> Untouched(d)
    {
      hide Run, Next, Sound, Handed, Terminal, Stalls, AtHand, PhaseAtHand, Guard, Update, Connection.View, Connection.Shaped;
      hide Engine.Clocked, OnTime, Stamped, AtRest, BookOk;
      ghost var w := Run(trace);
      ReadyHanded(c, w, io);
      UpdateHangs(c.View(), w.book, io);
      RunMore(trace, Ready(c.id, io));
      OpIsThat(c);
      status := UpdateState(c, io, modOk, Ready(c.id, io));
      if status != Hung && !Terminal(Run(trace).links[c.id].conn) {
        OpIsThat(c);
      }
    }

    /** The direction of a record is that of its connection in the run. */
    lemma OpIsThat(c: Connection)
      requires Steady() && c in engine.heap.held
      ensures c.id in Run(trace).links && OpOf(Run(trace).links[c.id].conn.mode) == c.op
    {
      hide Run, Connection.View, Connection.Shaped, AtRest;
      IsServed(c, Run(trace));
      OpSays(c);
    }

    lemma ReadyHanded(c: Connection, w: World, io: Io)
      requires Valid() && w == Run(trace) && c in engine.heap.held
      ensures Sound(w, {c}) && Handed(c, w, Ready(c.id, io), io) && c.Shaped() && Serves(w, c.id)
      ensures Ok(w) && AtRest(c.View()) && BookOk(w.book)
      ensures Next(w, Ready(c.id, io)).hung == Guard(Update(c.View(), w.book, io).conn)
    {
      hide Run, Update, BookOk;
      SoundAmid(w, c);
      assert Settled(c, w);
    }

    /** What epoll_wait may report: registered connections, each at most once. */
    predicate Reportable(reports: seq<Report>)
      reads `interest
    {
      && (forall i :: 0 <= i < |reports| && reports[i].On? ==> reports[i].c in interest)
      && (forall i, j :: 0 <= i < j < |reports| && reports[i].On? && reports[j].On? ==> reports[i].c != reports[j].c)
    }

    /** From the event `from` on, no event of the run finds its connection gone. */
    ghost predicate NoneGone(es: seq<Event>, from: nat) {
      forall i: nat :: from <= i < |es| && es[i].Ready? ==> Serves(Run(es[..i]), es[i].id)
    }

    lemma NoneGoneMore(es: seq<Event>, from: nat, e: Event)
      requires NoneGone(es, from) && (e.Ready? ==> Serves(Run(es), e.id))
      ensures NoneGone(es + [e], from)
    {
      hide Run;
      var more := es + [e];
      forall i: nat | from <= i < |more| && more[i].Ready?
        ensures Serves(Run(more[..i]), more[i].id)
      {
        assert more[..i] == es[..i];
      }
    }

    lemma NoneGoneJoined(es: seq<Event>, longer: seq<Event>, from: nat)
      requires from <= |es| && es <= longer && NoneGone(es, from) && NoneGone(longer, |es|)
      ensures NoneGone(longer, from)
    {
      hide Run;
      forall i: nat | from <= i < |longer| && longer[i].Ready?
        ensures Serves(Run(longer[..i]), longer[i].id)
      {
        if i < |es| {
          assert longer[..i] == es[..i];
        }
      }
    }

    lemma SweepLeavesNoneGone(es: seq<Event>, times: seq<int>, from: nat, now: int)
      requires Swept(es, times, from, now)
      ensures NoneGone(es, from)
    {
      hide Run, EnteredAt;
      forall i: nat | from <= i < |es|
        ensures !es[i].Ready?
      {
        assert ExpiresAt(es, times, i);
      }
    }

    /** The identities of the records in the first `k` slots. */
    ghost function Ids(k: nat): set<nat>
      requires engine.heap.Valid() && k <= engine.heap.size
      reads engine.heap`size, engine.heap`held, engine.heap.arr, engine.heap.held`ts, engine.heap.held`heapIx
    {
      set i | 0 <= i < k :: engine.heap.arr[i].id
    }

    lemma {:induction false} CountIds(k: nat)
      requires engine.heap.Valid() && k <= engine.heap.size
      requires forall c, d :: c in engine.heap.held && d in engine.heap.held && c != d ==> c.id != d.id
      ensures |Ids(k)| == k
      decreases k
    {
      hide Heap.Ordered;
      if k > 0 {
        CountIds(k - 1);
        var id := engine.heap.arr[k - 1].id;
        assert Ids(k) == Ids(k - 1) + {id};
        assert id !in Ids(k - 1);
      }
    }

    /** The records in memory are as many as the connections that the run serves. */
    lemma RoomIsRoom()
      requires Valid()
      ensures HasRoom(Run(trace), engine.heap.arr.Length) <==> engine.heap.size < engine.heap.arr.Length
    {
      hide Run, Steady, Heap.Ordered, Ids;
      HeapIsValid();
      AllDiffer();
      CountIds(engine.heap.size);
      IdsAreServed();
    }

    lemma AllDiffer()
      requires Steady()
      ensures forall c, d :: c in engine.heap.held && d in engine.heap.held && c != d ==> c.id != d.id
    {
      hide Run, Sound;
      IdsDiffer(Run(trace), {});
    }

    lemma IdsAreServed()
      requires Steady() && engine.heap.Valid()
      ensures Ids(engine.heap.size) == ServedBy(Run(trace))
    {
      hide Run, Steady, Heap.Ordered, DeadlineOf, Serves;
      Deadlines();
      forall id | id in ServedBy(Run(trace))
        ensures id in Ids(engine.heap.size)
      {
        var c :| c in engine.heap.held && c.id == id;
        assert engine.heap.arr[c.heapIx] == c;
      }
      forall id | id in Ids(engine.heap.size)
        ensures id in ServedBy(Run(trace))
      {
        var i :| 0 <= i < engine.heap.size && engine.heap.arr[i].id == id;
        var c := engine.heap.arr[i];
        assert RunsTo(trace, times, c.id, c.ts);
        InLinks(Run(trace), id);
      }
    }

    lemma InLinks(w: World, id: nat)
      requires Serves(w, id)
      ensures id in w.links
    {
    }

    /** The body of the for loop of main: one report is served, unless it fails or hangs. */
    method ServeReport(r: Report) returns (status: Status)
      requires Valid() && (r.On? ==> r.c in engine.heap.held)
      modifies this, engine.heap, engine.heap.arr, engine.heap.held`heapIx
      modifies if r.On? then {r.c} else {}, if r.On? then {r.c.data, r.c.buf} else {}
      modifies engine.table, engine.table.rows, engine.clock, engine`passes
      ensures old(trace) <= trace && old(times) <= times && |times| == |trace| && NoneGone(trace, old(|trace|))
      ensures match status
              case Fine => Valid() && Answers(r, old(trace), trace, engine.heap.arr.Length)
              case Failure => Steady() && Fails(r, old(trace), trace, engine.heap.arr.Length)
              case Hung => Hangs(r, old(trace), trace)
      ensures status == Hung <==> Run(trace).hung
      ensures old(accepted) <= accepted && old(released) <= released
      ensures status != Hung ==>
                && (forall d :: d in old(engine.heap.held) && !(r.On? && r.c == d) ==> d in engine.heap.held)
                && forall d :: d in engine.heap.held ==>
                     d in old(engine.heap.held) || (fresh(d) && fresh(d.data) && fresh(d.buf))
    {
      hide Valid, Steady, Run, Stalls, AtHand, Serves, Turns, HasRoom, NoneGone;
      NothingGone(trace);
      ValidIsTimed();
      match r {
        case Listener(acceptOk, mallocOk, epollOk) =>
          RoomIsRoom();
          var ok, c := ProcessNewConnection(acceptOk, mallocOk, epollOk);
          if c != null {
            NoneGoneMore(old(trace), old(|trace|), Accept(c.id));
          }
          status := if ok then Fine else Failure;
        case On(c, io, modOk) =>
          status := ServeReady(c, io, modOk);
          NoneGoneMore(old(trace), old(|trace|), Ready(c.id, io));
      }
      WhenNotHung(status);
    }

    lemma WhenNotHung(status: Status)
      ensures Valid() && status != Hung ==> Steady()
      ensures Steady() && status != Hung ==> !Run(trace).hung
    {
    }

    lemma NothingGone(es: seq<Event>)
      ensures NoneGone(es, |es|)
    {
    }

    lemma ValidIsTimed()
      requires Valid()
      ensures Steady() && |times| == |trace| && !Run(trace).hung
    {
    }

    /** The for loop of main over one batch of reports, of which it serves `served`: all, unless one
        fails or hangs. Every connection reported is still served by the run when its turn comes, so
        none has been freed meanwhile. */
    method ServeBatch(reports: seq<Report>) returns (status: Status, ghost served: nat)
      requires Valid() && Reportable(reports)
      modifies this, engine.heap, engine.heap.arr, engine.heap.held
      modifies set c | c in engine.heap.held :: c.data, set c | c in engine.heap.held :: c.buf
      modifies engine.table, engine.table.rows, engine.clock, engine`passes
      ensures old(trace) <= trace && NoneGone(trace, old(|trace|)) && |times| == |trace|
      ensures BatchEnds(reports, served, trace, old(|trace|), engine.heap.arr.Length, status)
      ensures status == Fine ==> Valid()
      ensures status == Failure ==> Steady()
      ensures status == Hung <==> Run(trace).hung
      ensures old(accepted) <= accepted && old(released) <= released && old(times) <= times
      ensures status != Hung ==> forall c :: c in engine.heap.held ==>
                c in old(engine.heap.held) || (fresh(c) && fresh(c.data) && fresh(c.buf))
    {
      hide Valid, Steady, Run, Stalls, AtHand, Serves, Follows, NoneGone, BatchEnds;
      Registered();
      ghost var from, capacity := |trace|, engine.heap.arr.Length;
      NothingFollows(reports, trace, capacity);
      NothingGone(trace);
      ValidIsTimed();
      served := 0;
      for i := 0 to |reports|
        invariant Valid() && served == i && from <= |trace| == |times|
        invariant forall k :: i <= k < |reports| && reports[k].On? ==> reports[k].c in engine.heap.held
        invariant old(trace) <= trace && Follows(reports[..i], trace, from, capacity) && NoneGone(trace, from)
        invariant old(accepted) <= accepted && old(released) <= released && old(times) <= times
        invariant forall c :: c in engine.heap.held ==>
                    c in old(engine.heap.held) || (fresh(c) && fresh(c.data) && fresh(c.buf))
      {
        ghost var before := trace;
        status := ServeReport(reports[i]);
        NoneGoneJoined(before, trace, from);
        if status != Fine {
          BatchIsOver(reports, i, before, trace, from, capacity, status);
          return;
        }
        FollowsMore(reports, i, before, trace, from, capacity);
        served := i + 1;
      }
      status := Fine;
      WhenNotHung(Fine);
      BatchIsOver(reports, |reports|, trace, trace, from, capacity, Fine);
    }

    lemma NothingFollows(reports: seq<Report>, es: seq<Event>, capacity: nat)
      ensures Follows(reports[..0], es, |es|, capacity)
    {
    }

    lemma Registered()
      requires Valid()
      ensures interest.Keys == engine.heap.held
    {
    }

    lemma ValidIsSteady()
      requires Valid()
      ensures Steady()
    {
    }

    /** epoll_wait: an error, nothing within the timeout, or a batch of reports. */
    method EpollWait(timeout: int) returns (r: Wait)
      requires Valid()
      modifies poll, engine.clock
      ensures Valid() && (r.Batch? ==> Reportable(r.reports)) && old(engine.clock.now) <= engine.clock.now
      ensures poll.rounds ==
              old(poll.rounds) + [Round(|trace|, old(engine.clock.now), timeout, engine.clock.now, r)]
    {
      hide Valid;
      ghost var asked := engine.clock.now;
      Sleep();
      assert !TimedOut(Io(RecvError, SendError)).Batch?;
      r :| r.Batch? ==> Reportable(r.reports);
      poll.rounds := poll.rounds + [Round(|trace|, asked, timeout, engine.clock.now, r)];
    }

    /** One round of the loop of main. */
    method NextWait() returns (r: Wait, status: Status)
      requires Valid()
      modifies this, poll, engine.heap, engine.heap.arr, engine.heap.held
      modifies set c | c in engine.heap.held :: c.data, set c | c in engine.heap.held :: c.buf
      modifies engine.table, engine.table.rows, engine.clock, engine`passes
      ensures |poll.rounds| == |old(poll.rounds)| + 1 && old(poll.rounds) <= poll.rounds
      ensures poll.rounds[|old(poll.rounds)|].at == |old(trace)| && poll.rounds[|old(poll.rounds)|].result == r
      ensures RoundDone(poll.rounds[|old(poll.rounds)|], trace, times, engine.heap.arr.Length, status)
      ensures match status case Fine => Valid() case Failure => Steady() && !r.WaitError? case Hung => !r.WaitError?
      ensures (status == Hung <==> Run(trace).hung) && |times| == |trace|
      ensures old(accepted) <= accepted && old(released) <= released && old(trace) <= trace && old(times) <= times
      ensures NoneGone(trace, old(|trace|))
      ensures status != Hung ==> forall c :: c in engine.heap.held ==>
                c in old(engine.heap.held) || (fresh(c) && fresh(c.data) && fresh(c.buf))
    {
      hide Valid, Steady, Run, NoneGone, BatchEnds, Swept, SleepsWell, NoneDue;
      NothingGone(trace);
      ValidIsTimed();
      var timeout := MinTimeout();
      r := EpollWait(timeout);
      status := Fine;
      match r {
        case WaitError =>
        case TimedOut(io) =>
          var now := DiscardExpired(io);
          SweepLeavesNoneGone(trace, times, old(|trace|), now);
          ValidIsTimed();
        case Batch(reports) =>
          ghost var served;
          status, served := ServeBatch(reports);
      }
      assert trace[..old(|trace|)] == old(trace) && times[..old(|trace|)] == old(times);
    }

    /** The loop of main for any number of rounds, and what follows it. Every round sleeps as long as it
        may, and does with the result of its wait what is to be done; the loop ends early only if a wait
        or a report fails, or never if a report hangs. Unless it hangs, every connection ever accepted
        has been freed and closed exactly once when it is over. */
    method EventLoop(rounds: nat) returns (hung: bool, ghost closing: nat, ghost last: Status)
      requires Valid()
      modifies this, poll, engine.heap, engine.heap.arr, engine.heap.held
      modifies set c | c in engine.heap.held :: c.data, set c | c in engine.heap.held :: c.buf
      modifies engine.table, engine.table.rows, engine.clock, engine`passes
      ensures (hung <==> Run(trace).hung) && (hung <==> last == Hung)
      ensures !hung ==> Steady() && engine.heap.held == {} && interest == map[]
      ensures !hung ==> forall c :: c in accepted ==> c in released
      ensures !hung ==> forall i, j :: 0 <= i < j < |released| ==> released[i] != released[j]
      ensures old(accepted) <= accepted && old(released) <= released && old(trace) <= trace && old(times) <= times
      ensures NoneGone(trace, old(|trace|))
      ensures old(poll.rounds) <= poll.rounds && |poll.rounds| <= |old(poll.rounds)| + rounds
      ensures |poll.rounds| < |old(poll.rounds)| + rounds ==>
                last != Fine || (|poll.rounds| > |old(poll.rounds)| && poll.rounds[|poll.rounds| - 1].result.WaitError?)
      ensures closing <= |trace| == |times|
      ensures InRounds(poll.rounds, |old(poll.rounds)|, trace[..closing], times[..closing], |old(trace)|,
                       engine.heap.arr.Length, last)
      ensures (hung ==> closing == |trace|) && forall i :: closing <= i < |trace| ==> trace[i].Drop?
    {
      hide Valid, Steady, Run, NoneGone, RoundDone, InRounds;
      ghost var first, from, capacity := |poll.rounds|, |trace|, engine.heap.arr.Length;
      NothingGone(trace);
      ValidIsTimed();
      NoRounds(poll.rounds, trace, times, capacity);
      var n := 0;
      last := Fine;
      while n < rounds
        invariant Valid() && last == Fine && from <= |trace| == |times|
        invariant old(accepted) <= accepted && old(released) <= released && old(trace) <= trace && old(times) <= times
        invariant NoneGone(trace, from)
        invariant old(poll.rounds) <= poll.rounds && |poll.rounds| == first + n <= first + rounds
        invariant InRounds(poll.rounds, first, trace, times, from, capacity, Fine)
        invariant forall i :: first <= i < |poll.rounds| ==> !poll.rounds[i].result.WaitError?
        invariant forall c :: c in engine.heap.held ==>
                    c in old(engine.heap.held) || (fresh(c) && fresh(c.data) && fresh(c.buf))
      {
        ghost var before, past, done := trace, times, poll.rounds;
        var r, status := NextWait();
        NoneGoneJoined(before, trace, from);
        NextRound(done, first, before, past, from, capacity, poll.rounds[|done|], trace, times, status);
        assert done + [poll.rounds[|done|]] == poll.rounds;
        last := status;
        if status == Hung {
          assert trace[..|trace|] == trace && times[..|trace|] == times;
          return true, |trace|, last;
        }
        if r.WaitError? || status == Failure {
          break;
        }
        n := n + 1;
      }
      if last == Fine {
        ValidIsSteady();
      }
      closing := |trace|;
      ghost var before, past := trace, times;
      Shutdown();
      assert trace[..closing] == before && times[..closing] == past;
      DropsLeaveNoneGone(before, trace, from);
      SteadyIsNotHung();
      hung := false;
    }

    lemma DropsLeaveNoneGone(es: seq<Event>, longer: seq<Event>, from: nat)
      requires from <= |es| && es <= longer && NoneGone(es, from)
      requires forall i :: |es| <= i < |longer| ==> longer[i].Drop?
      ensures NoneGone(longer, from)
    {
      hide Run, Serves;
      assert NoneGone(longer, |es|);
      NoneGoneJoined(es, longer, from);
    }

    lemma NoRounds(rounds: seq<Round>, es: seq<Event>, times: seq<int>, capacity: nat)
      requires |times| == |es|
      ensures InRounds(rounds, |rounds|, es, times, |es|, capacity, Fine)
    {
    }

    lemma SteadyIsNotHung()
      requires Steady()
      ensures !Run(trace).hung
    {
    }

    // ---------- What the runs say about the server ----------

    /** Between events every connection being served is a faithful link of the run so far: its
        requests, its replies and its unread bytes are those of the line specification. */
    lemma ServedFaithfully(c: Connection)
      requires Valid() && c in engine.heap.held
      ensures c.id in Run(trace).links && Faithful(Run(trace).links[c.id])
      ensures c.Shaped() && Run(trace).links[c.id].conn == c.View()
      ensures Run(trace).links[c.id].sent == c.tally.sent && Run(trace).links[c.id].received == c.tally.received
    {
      hide Run, Faithful;
      assert Settled(c, Run(trace));
      RunsAreFaithful(trace, c.id);
    }

    /** Between events every deadline is the time of the last event with which the connection
        entered a phase, plus 300 s if it is to read in this phase and 180 s if it is to write. */
    lemma DeadlineIsPhaseEntry(c: Connection)
      requires Valid() && c in engine.heap.held
      ensures exists i: nat ::
                && BeginsAt(trace, i, c.id) && (forall j: nat :: BeginsAt(trace, j, c.id) ==> j <= i)
                && c.ts == times[i] + if c.op == Read then 300 * SEC_NS else 180 * SEC_NS
    {
      hide Run, BeginsAt, EnteredAt, Connection.View, Connection.Shaped, AtRest;
      assert Settled(c, Run(trace));
      EnteredLast(trace, times, c.id, c.entered);
    }

    /** Between events the table in memory means the last prognosis completed for each zodiac. */
    lemma TableIsLatest(z: nat)
      requires Valid()
      ensures z in engine.table.book ==> LastSet(Run(trace).log, z, engine.table.book[z])
      ensures z !in engine.table.book ==> forall i: nat :: !SetsAt(Run(trace).log, i, z)
    {
      hide Run, LastSet;
      RunsAreExplained(trace);
      LatestIsLast(Run(trace).log, z);
    }
  }
}
