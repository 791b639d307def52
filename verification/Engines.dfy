/** The UNIX server (unix_socket_api/src/astrolog.c): the handlers of a connection and the loop of
    update_state. */
module Engines {
  import opened Wire
  import opened LineSpec
  import opened Machine
  import opened Records
  import opened Heaps
  import opened Shared

  /** A handler call that takes a connection from one mode to the other enters a phase, and so
      sets a new deadline. Bytes received or sent inside a phase do not. */
  predicate Enters(before: Mode, after: Mode) {
    match (before, after)
    case (Receiving(p, _), Receiving(q, _)) => p != q
    case (Receiving(_, _), Sending(_, _)) => true
    case (Sending(_, _), Receiving(_, _)) => true
    case _ => false
  }

  /** The part of the server that the handlers work on. */
  class Engine {
    const heap: Heap
    const table: Table
    const clock: Clock
    /** How often a handler has been called, or the default branch taken, in update_state. */
    ghost var passes: nat

    constructor (capacity: nat)
      ensures heap.Valid() && heap.held == {} && heap.arr.Length == capacity
      ensures table.Valid() && table.book == map[]
      ensures fresh(heap) && fresh(heap.arr) && fresh(table) && fresh(table.rows) && fresh(clock)
    {
      heap := new Heap(capacity);
      table := new Table();
      clock := new Clock();
      passes := 0;
    }

    /** The shared structures are well formed and `c` is a connection of this server. */
    ghost predicate Owns(c: Connection)
      reads heap`size, heap`held, heap.arr, heap.held`ts, heap.held`heapIx, table, table.rows
    {
      heap.Valid() && table.Valid() && c in heap.held
    }

    /** What a handler does to the deadline of its connection. */
    twostate predicate Timed(c: Connection, before: Mode, after: Mode)
      reads c, clock
    {
      if Enters(before, after) then
        && old(clock.now) <= clock.now == c.entered && c.ts == c.entered + Timeout(c.op)
        && clock.readings == old(clock.readings) + 1
      else c.entered == old(c.entered) && c.ts == old(c.ts) && clock.now == old(clock.now)
    }

    /** update_server_state_ts: the key is changed in place and the heap repaired afterwards. */
    method UpdateServerStateTs(c: Connection)
      requires heap.Valid() && c in heap.held && c.Shaped()
      modifies c`ts, c`entered, clock, heap.arr, heap.held`heapIx, heap`swapped
      ensures heap.Valid()
      ensures c.Shaped() && c.View() == old(c.View())
      ensures old(clock.now) <= clock.now == c.entered && c.ts == c.entered + Timeout(c.op)
      ensures clock.readings == old(clock.readings) + 1
    {
      hide Heap.Ordered, Heap.InOrder, Heap.OneOff, Connection.View, Connection.Shaped;
      var now := clock.Sample();
      c.ts := now + Timeout(c.op);
      c.entered := now;
      OneKeyChanged(c);
      heap.Update(c.heapIx);
    }

    twostate lemma OneKeyChanged(c: Connection)
      requires old(heap.Valid()) && heap.Indexed() && c in heap.held
      requires heap.held == old(heap.held) && heap.size == old(heap.size)
      requires forall i :: 0 <= i < heap.arr.Length ==> heap.arr[i] == old(heap.arr[i])
      requires forall d :: d in heap.held && d != c ==> d.ts == old(d.ts)
      ensures heap.OneOff(c.heapIx)
    {
      var k := c.heapIx;
      forall j | 0 < j < heap.size && j != k && Parent(j) != k
        ensures heap.InOrder(j)
      {
        assert old(heap.InOrder(j));
      }
      forall j | 0 < j < heap.size && Parent(j) == k && 0 < k
        ensures heap.arr[Parent(k)].ts <= heap.arr[j].ts
      {
        assert old(heap.InOrder(j)) && old(heap.InOrder(k));
      }
    }

    // ---------- Handlers ----------

    /** The part common to parse_star_first_line and parse_client_first_line: the zodiac after the
        request type. The delimiter is overwritten when the line is going to be logged. */
    method ParseZodiac(c: Connection, ptr: nat) returns (zodiac: int)
      requires c.Shaped() && ptr < c.cur && IsLine(c.buf[..c.cur])
      modifies c.buf
      ensures var text := old(c.buf[..c.cur])[ptr..c.cur - 1];
              ZodiacOf(text) == if zodiac < 0 then None else Some(zodiac)
    {
      ghost var line := c.buf[..c.cur];
      LineTail(line, ptr);
      assert c.buf[ptr..ptr + (c.cur - ptr)] == line[ptr..];
      var del := Memchr(c.buf, ptr, c.cur - ptr);
      assert c.buf[ptr..ptr + del] == line[ptr..c.cur - 1];
      zodiac := FindZodiac(c.buf[ptr..ptr + del]);
      if zodiac < 0 || |ZodiacName(zodiac)| != del {
        c.buf[ptr + del] := '\0';
      }
    }

    /** In a line the delimiter after position `ptr` is the last byte. */
    lemma LineTail(line: string, ptr: nat)
      requires IsLine(line) && ptr < |line|
      ensures IndexOf(line[ptr..]) == |line| - 1 - ptr
    {
      IndexOfIs(line[ptr..], |line| - 1 - ptr);
    }

    /** The text after the request type in the line held by `c`, without the delimiter. */
    ghost function TextAfter(c: Connection, kind: string): string
      requires c.Shaped() && c.cur > |kind|
      reads c`pos, c`len, c`cur, c`rem, c`zodiacIx, c`state, c`op, c.buf
    {
      c.buf[..c.cur][|kind|..c.cur - 1]
    }

    /** parse_star_first_line, on a complete line that begins with the star request. */
    method ParseStarFirstLine(c: Connection)
      requires Owns(c) && c.Shaped() && c.state == StateRecvFirstLine
      requires c.cur > |STAR_REQUEST| && IsLine(c.buf[..c.cur])
      modifies c, c.buf, clock, heap.arr, heap.held`heapIx, heap`swapped
      ensures c.tally == old(c.tally)
      ensures heap.Valid() && c.Shaped()
      ensures c.View().pending == old(c.View()).pending
      ensures c.View().mode == match old(ZodiacOf(TextAfter(c, STAR_REQUEST)))
                               case Some(z) => Receiving(Prognosis(z), [])
                               case None => Failed(Read)
      ensures Timed(c, old(c.View()).mode, c.View().mode)
    {
      hide Heap.Indexed, Heap.Ordered, Heap.Valid, Heap.InOrder, Table.Valid, Table.RowMeans, IsFirstDelim, IndexOf, BookOk;
      ghost var rest := c.View().pending;
      var zodiac := ParseZodiac(c, |STAR_REQUEST|);
      if zodiac < 0 {
        c.state := StateError;
        return;
      }
      c.Enter(StateRecvH, Read, BUF_LEN, zodiac);
      assert c.View() == Conn(Receiving(Prognosis(zodiac), []), rest);
      UpdateServerStateTs(c);
    }

    /** parse_client_first_line, on a complete line that begins with the client request. */
    method ParseClientFirstLine(c: Connection)
      requires Owns(c) && c.Shaped() && c.state == StateRecvFirstLine
      requires c.cur > |CLIENT_REQUEST| && IsLine(c.buf[..c.cur])
      modifies c, c.buf, clock, heap.arr, heap.held`heapIx, heap`swapped
      ensures c.tally == old(c.tally)
      ensures heap.Valid() && c.Shaped()
      ensures c.View().pending == old(c.View()).pending
      ensures c.View().mode == match old(ZodiacOf(TextAfter(c, CLIENT_REQUEST)))
                               case Some(z) => Sending(Horoscope, Reply(Get(z), table.book))
                               case None => Failed(Read)
      ensures Timed(c, old(c.View()).mode, c.View().mode)
    {
      hide Heap.Indexed, Heap.Ordered, Heap.Valid, Heap.InOrder, Table.Valid, Table.RowMeans, IsFirstDelim, IndexOf, BookOk, Reply;
      ghost var rest := c.View().pending;
      var zodiac := ParseZodiac(c, |CLIENT_REQUEST|);
      if zodiac < 0 {
        c.state := StateError;
        return;
      }
      var n := CopyReply(c, zodiac);
      c.Enter(StateSendH, Write, n, c.zodiacIx);
      assert c.View() == Conn(Sending(Horoscope, Reply(Get(zodiac), table.book)), rest);
      UpdateServerStateTs(c);
    }

    /** The reply of parse_client_first_line, put where the next send will take it from. */
    method CopyReply(c: Connection, z: nat) returns (n: nat)
      requires table.Valid() && z < ZODIAC_NUM && c.buf.Length == BUF_LEN + 1
      modifies c.buf
      ensures n <= BUF_LEN && c.buf[..n] == Reply(Get(z), table.book)
    {
      n := table.Find(z);
      if n == 0 {
        n := |OUT_OF_LUCK|;
        c.Fill(0, OUT_OF_LUCK);
      } else {
        table.CopyOut(z, c.buf, n);
      }
    }

    /** The clock has not been read. */
    twostate predicate ClockStill()
      reads clock
    {
      clock.now == old(clock.now) && clock.readings == old(clock.readings)
    }

    /** What every handler call does: one call of the abstract machine. */
    twostate predicate Called(c: Connection, io: Io)
      requires old(c.Shaped()) && old(Live(c.View())) && c.Shaped()
      reads c, c.data, c.buf, table, clock
    {
      var s := Call(old(c.View()), old(table.book), io);
      && c.View() == s.conn && table.book == s.book
      && Timed(c, old(c.View()).mode, c.View().mode)
      && c.tally == Tallied(old(c.tally), old(c.View()), io)
    }

    /** The branch of handle_first_line for a line that has come in full. */
    method HandleCompleteFirstLine(c: Connection)
      requires Owns(c) && c.Shaped() && c.state == StateRecvFirstLine && IsLine(c.buf[..c.cur])
      modifies c, c.buf, clock, heap.arr, heap.held`heapIx, heap`swapped
      ensures c.tally == old(c.tally)
      ensures heap.Valid() && c.Shaped()
      ensures var f := FinishLine(First, old(c.buf[..c.cur]), old(c.View()).pending, table.book);
              c.View() == f.conn && f.book == table.book
      ensures Timed(c, old(c.View()).mode, c.View().mode)
    {
      hide Heap.Indexed, Heap.Ordered, Heap.Valid, Heap.InOrder, Table.Valid, Table.RowMeans;
      hide IsFirstDelim, IndexOf, BookOk, FinishLine;
      FinishFirstLine(c.buf[..c.cur], c.View().pending, table.book);
      assert c.cur > |STAR_REQUEST| ==> c.buf[..c.cur][..|STAR_REQUEST|] == c.buf[..|STAR_REQUEST|];
      assert c.cur > |CLIENT_REQUEST| ==> c.buf[..c.cur][..|CLIENT_REQUEST|] == c.buf[..|CLIENT_REQUEST|];
      if c.cur > |STAR_REQUEST| && c.buf[..|STAR_REQUEST|] == STAR_REQUEST {
        ParseStarFirstLine(c);
      } else if c.cur > |CLIENT_REQUEST| && c.buf[..|CLIENT_REQUEST|] == CLIENT_REQUEST {
        ParseClientFirstLine(c);
      } else {
        c.state := StateError;
        c.buf[c.cur - 1] := '\0';
      }
    }

    /** handle_first_line. */
    method HandleFirstLine(c: Connection, io: Io)
      requires Owns(c) && c.Shaped() && Live(c.View()) && c.state == StateRecvFirstLine
      modifies c, c.data, c.buf, clock, heap.arr, heap.held`heapIx, heap`swapped
      ensures heap.Valid() && c.Shaped() && Called(c, io)
    {
      hide Connection.View, Connection.Shaped, Heap.Indexed, Heap.Ordered, Heap.Valid, Heap.InOrder, Table.Valid, Table.RowMeans;
      hide Tallied, IsFirstDelim, IndexOf, BookOk, Receive, Extended, Call, Available, FinishLine, NoDelim;
      c.StateSays();
      ghost var before, book := c.View(), table.book;
      var received := c.ReceiveMore(io);
      CallReceives(before, book, io, c.View().mode.line, c.View().pending);
      c.StateSays();
      if received < 0 {
        c.Fail();
        return;
      }
      if received == 0 {
        if c.cur == 0 {
          c.Succeed();
        } else {
          c.Fail();
        }
        return;
      }
      if c.buf[c.cur - 1] == DELIM {
        HandleCompleteFirstLine(c);
      } else if c.rem == 0 {
        c.Fail();
      }
    }

    /** FinishLine by cases, as handle_first_line goes through them. */
    lemma FinishFirstLine(line: string, rest: string, book: Book)
      requires line != []
      ensures var f := FinishLine(First, line, rest, book);
              f.book == book && f.conn.pending == rest &&
              f.conn.mode ==
              if |line| > |STAR_REQUEST| && line[..|STAR_REQUEST|] == STAR_REQUEST then
                match ZodiacOf(line[|STAR_REQUEST|..|line| - 1])
                case Some(z) => Receiving(Prognosis(z), [])
                case None => Failed(Read)
              else if |line| > |CLIENT_REQUEST| && line[..|CLIENT_REQUEST|] == CLIENT_REQUEST then
                match ZodiacOf(line[|CLIENT_REQUEST|..|line| - 1])
                case Some(z) => Sending(Horoscope, Reply(Get(z), book))
                case None => Failed(Read)
              else Failed(Read)
    {
    }

    /** The branch of handle_recv_h for a prognosis that has come in full. */
    method StorePrognosis(c: Connection)
      requires Owns(c) && c.Shaped() && c.state == StateRecvH
      requires c.zodiacIx < ZODIAC_NUM && IsLine(c.buf[..c.cur])
      modifies c, c.buf, table, table.rows, clock, heap.arr, heap.held`heapIx, heap`swapped
      ensures c.tally == old(c.tally)
      ensures heap.Valid() && table.Valid() && c.Shaped()
      ensures var f := FinishLine(Prognosis(old(c.zodiacIx)), old(c.buf[..c.cur]), old(c.View()).pending, old(table.book));
              c.View() == f.conn && table.book == f.book
      ensures Timed(c, old(c.View()).mode, c.View().mode)
    {
      hide Heap.Indexed, Heap.Ordered, Heap.Valid, Heap.InOrder, Table.RowMeans;
      hide IsFirstDelim, IndexOf, BookOk;
      ghost var rest := c.View().pending;
      table.Store(c.zodiacIx, c.buf, BUF_LEN - c.rem);
      c.buf[c.cur - 1] := '\0';
      c.Fill(0, THANKS);
      c.Enter(StateSendThanks, Write, |THANKS|, ZODIAC_UNKNOWN);
      assert c.View() == Conn(Sending(Thanks, THANKS), rest);
      UpdateServerStateTs(c);
    }

    /** handle_recv_h. */
    method HandleRecvH(c: Connection, io: Io)
      requires Owns(c) && c.Shaped() && Live(c.View()) && c.state == StateRecvH
      modifies c, c.data, c.buf, table, table.rows, clock, heap.arr, heap.held`heapIx, heap`swapped
      ensures heap.Valid() && table.Valid() && c.Shaped() && Called(c, io)
    {
      hide Connection.View, Connection.Shaped, Heap.Indexed, Heap.Ordered, Heap.Valid, Heap.InOrder, Table.Valid, Table.RowMeans;
      hide Tallied, IsFirstDelim, IndexOf, BookOk, Receive, Extended, Call, Available, NoDelim;
      c.StateSays();
      ghost var before, book := c.View(), table.book;
      var received := c.ReceiveMore(io);
      CallReceives(before, book, io, c.View().mode.line, c.View().pending);
      c.StateSays();
      if received < 0 {
        c.Fail();
        return;
      }
      if received == 0 {
        c.Fail();
        return;
      }
      if c.buf[c.cur - 1] == DELIM {
        StorePrognosis(c);
      } else if c.rem == 0 {
        c.Fail();
      }
    }

    /** The branch of handle_send_reply for a reply that has been sent in full. */
    method FinishReply(c: Connection)
      requires Owns(c) && c.Shaped() && c.op == Write && 0 < c.cur
      modifies c, c.buf, clock, heap.arr, heap.held`heapIx, heap`swapped
      ensures c.tally == old(c.tally)
      ensures heap.Valid() && c.Shaped()
      ensures c.View() == Conn(Receiving(First, []), old(c.View()).pending)
      ensures old(clock.now) <= clock.now == c.entered && c.op == Read && c.ts == c.entered + Timeout(c.op)
      ensures clock.readings == old(clock.readings) + 1
    {
      hide Heap.Indexed, Heap.Ordered, Heap.Valid, Heap.InOrder, Table.Valid, Table.RowMeans;
      ghost var rest := c.View().pending;
      c.buf[c.cur - 1] := '\0';
      c.Enter(StateRecvFirstLine, Read, BUF_LEN, c.zodiacIx);
      assert c.View() == Conn(Receiving(First, []), rest);
      UpdateServerStateTs(c);
    }

    /** handle_send_reply. */
    method HandleSendReply(c: Connection, io: Io)
      requires Owns(c) && c.Shaped() && Live(c.View()) && c.op == Write
      modifies c, c.buf, clock, heap.arr, heap.held`heapIx, heap`swapped
      ensures heap.Valid() && c.Shaped() && Called(c, io)
    {
      hide Connection.View, Connection.Shaped, Heap.Indexed, Heap.Ordered, Heap.Valid, Heap.InOrder, Table.Valid, Table.RowMeans;
      hide Tallied, IsFirstDelim, IndexOf, BookOk, NoDelim, Call, AfterSend, Receive;
      c.StateSays();
      CallSends(c.View(), table.book, io);
      var bytes := c.SendMore(io);
      if bytes < 0 {
        c.Fail();
        return;
      }
      if c.rem == 0 {
        FinishReply(c);
      }
    }

    // ---------- The loop of update_state ----------

    /** The switch of update_state; terminal states fall through its default branch. */
    method Dispatch(c: Connection, io: Io)
      requires Owns(c) && c.Shaped() && (Live(c.View()) || Terminal(c.View()))
      modifies c, c.data, c.buf, table, table.rows, clock, heap.arr, heap.held`heapIx, heap`swapped, this`passes
      ensures heap.Valid() && table.Valid() && c.Shaped()
      ensures old(Live(c.View())) ==> Called(c, io)
      ensures old(Terminal(c.View())) ==>
                c.View() == old(c.View()) && table.book == old(table.book) && ClockStill()
                && c.op == old(c.op) && c.tally == old(c.tally)
      ensures passes == old(passes) + 1
    {
      hide Heap.Valid, Heap.Indexed, Table.Valid, Call;
      passes := passes + 1;
      match c.state {
        case StateRecvFirstLine => HandleFirstLine(c, io);
        case StateRecvH => HandleRecvH(c, io);
        case StateSendThanks => HandleSendReply(c, io);
        case StateSendH => HandleSendReply(c, io);
        case _ =>
      }
    }

    /** How far the loop has got: what remains to be done to `c` is what remains of Update. */
    ghost predicate OnTheWay(c: Connection, goal: Step)
      requires c.Shaped() && table.Valid() && (Live(c.View()) || Terminal(c.View()))
      reads c, c.data, c.buf, table, table.rows
    {
      var v := c.View();
      if v.mode.Receiving? then goal == Drive(v, table.book)
      else goal.conn == v && goal.book == table.book
    }

    /** The deadline of a connection that is still being served is its last phase entry plus
        the time allowed for the phase. */
    ghost predicate Due(c: Connection)
      reads c`ts, c`entered, c`op, clock
    {
      c.entered <= clock.now && c.ts == c.entered + Timeout(c.op)
    }

    /** A connection that is being worked on: the goal of the work, and the mode and the phase
        entry it started from. As long as it has not left the phase, its deadline is the same;
        once it has, it counts from the last reading of the clock. */
    ghost predicate InProgress(c: Connection, goal: Step, start: Mode, io: Io, entered: int)
      reads c, c.data, c.buf, clock, table, table.rows, heap`size, heap`held, heap.arr, heap.held`ts, heap.held`heapIx
    {
      && Owns(c) && c.Shaped()
      && (Live(c.View()) || Terminal(c.View()))
      && (Live(c.View()) ==> Due(c) && c.entered == Entry(start, io, c.View().mode, entered, clock.now))
      && |c.View().pending| <= BUF_LEN
      && OnTheWay(c, goal)
      && (Live(c.View()) ==> Onward(start, io, c.View().mode))
    }

    /** When a phase was entered that was entered at `entered` before, and may have been left. */
    function Entry(start: Mode, io: Io, now: Mode, entered: int, time: int): int {
      if Leaves(start, io, now) then time else entered
    }

    /** A prognosis that is being received goes on being received until it is complete, and the
        direction does not change inside a phase. */
    predicate Onward(start: Mode, io: Io, now: Mode) {
      && (start.Receiving? || start.Sending?)
      && (start.Receiving? && start.phase.Prognosis? && now.Receiving? ==> now.phase == start.phase)
      && (!Leaves(start, io, now) ==> OpOf(now) == OpOf(start))
    }

    /** The first pass of the loop, which alone calls recv or send. */
    method FirstPass(c: Connection, io: Io, ghost goal: Step)
      requires Owns(c) && c.Shaped() && Startable(c) && goal == Goal(c.View(), table.book, io)
      modifies c, c.data, c.buf, table, table.rows, clock, heap.arr, heap.held`heapIx, heap`swapped, this`passes
      ensures InProgress(c, goal, old(c.View()).mode, io, old(c.entered))
      ensures c.tally == Tallied(old(c.tally), old(c.View()), io)
      ensures old(Terminal(c.View())) ==> !Guard(c.View()) && ClockStill()
      ensures old(clock.now) <= clock.now
      ensures passes == old(passes) + 1
    {
      hide Heap.Valid, Heap.Indexed, Table.Valid, Table.RowMeans, Call, Drive, NoDelim, BookOk, Goal, Tallied, Startable;
      ghost var v, book := c.View(), table.book;
      FirstStep(c, io);
      Dispatch(c, io);
    }

    /** What the first pass has to do. */
    lemma FirstStep(c: Connection, io: Io)
      requires c.Shaped() && table.Valid() && Startable(c)
      ensures var v, book := c.View(), table.book;
              if Live(v) then
                CallIsOnTheWay(v, book, io) && Due(c)
              else Terminal(v) && !Guard(v) && Goal(v, book, io) == Step(v, book, []) && |v.pending| <= BUF_LEN
                   && Tallied(c.tally, v, io) == c.tally
    {
      hide Drive, NoDelim, BookOk, Receive;
      if Live(c.View()) {
        CallKeeps(c.View(), table.book, io);
      }
    }

    ghost predicate CallIsOnTheWay(v: Conn, book: Book, io: Io)
      requires Live(v) && BookOk(book)
    {
      var s := Call(v, book, io);
      && |s.conn.pending| <= BUF_LEN && BookOk(s.book)
      && (Live(s.conn) || Terminal(s.conn))
      && Goal(v, book, io) == (if s.conn.mode.Receiving? then Drive(s.conn, s.book) else s)
      && (Live(s.conn) ==> Onward(v.mode, io, s.conn.mode))
      && (Live(s.conn) ==> (Leaves(v.mode, io, s.conn.mode) <==> Enters(v.mode, s.conn.mode)))
    }

    /** A further pass consumes at least one buffered byte and needs no recv or send. */
    method NextPass(c: Connection, io: Io, ghost goal: Step, ghost start: Mode, ghost entered: int)
      requires InProgress(c, goal, start, io, entered) && Live(c.View()) && Guard(c.View())
      modifies c, c.data, c.buf, table, table.rows, clock, heap.arr, heap.held`heapIx, heap`swapped, this`passes
      ensures InProgress(c, goal, start, io, entered)
      ensures |c.View().pending| < old(|c.View().pending|)
      ensures c.tally == old(c.tally)
      ensures old(clock.now) <= clock.now
      ensures passes == old(passes) + 1
    {
      hide Heap.Valid, Heap.Indexed, Table.RowMeans, Call, Drive, NoDelim, BookOk;
      CallKeeps(c.View(), table.book, io);
      DrivePass(c.View(), table.book, io);
      Dispatch(c, io);
    }

    /** The do-while loop of update_state. A result `hung` stands for never leaving it. The
        deadline counts from the last phase entry: if the call has left the phase it found, that is
        within the call, and otherwise the deadline is what it was, whatever has been received or
        sent. */
    method RunLoop(c: Connection, io: Io) returns (hung: bool)
      requires Owns(c) && c.Shaped() && Startable(c)
      modifies c, c.data, c.buf, table, table.rows, clock, heap.arr, heap.held`heapIx, heap`swapped, this`passes
      ensures heap.Valid() && table.Valid() && c.Shaped()
      ensures var s := old(Goal(c.View(), table.book, io)); c.View() == s.conn && table.book == s.book
      ensures (Live(c.View()) && Due(c)) || Terminal(c.View())
      ensures Live(c.View()) ==> Clocked(c, old(c.View()).mode, io)
      ensures hung <==> Guard(c.View())
      ensures !hung ==> passes - old(passes) <= BUF_LEN + 1
      ensures c.tally == Tallied(old(c.tally), old(c.View()), io)
      ensures old(clock.now) <= clock.now && (old(Terminal(c.View())) ==> ClockStill())
    {
      ghost var goal, start, entered := Goal(c.View(), table.book, io), c.View().mode, c.entered;
      ghost var tally := Tallied(c.tally, c.View(), io);
      hide Heap.Valid, Table.Valid, BookOk, Goal, Tallied, Clocked, InProgress, Connection.View, Connection.Shaped;
      hide Due, Startable;
      FirstPass(c, io, goal);
      Underway(c, goal, start, io, entered);
      while c.op == Read && c.pos != c.len
        invariant InProgress(c, goal, start, io, entered)
        invariant c.Shaped() && (Guard(c.View()) <==> c.op == Read && c.pos != c.len)
        invariant Terminal(c.View()) <==> c.state == StateError || c.state == StateSuccess
        invariant Live(c.View()) || Terminal(c.View())
        invariant passes - old(passes) + |c.View().pending| <= BUF_LEN + 1
        invariant c.tally == tally
        invariant old(clock.now) <= clock.now
        invariant old(Terminal(c.View())) ==> ClockStill() && !Guard(c.View())
        decreases |c.View().pending|
      {
        if c.state == StateError || c.state == StateSuccess {
          Arrived(c, goal, start, io, entered);
          return true;
        }
        NextPass(c, io, goal, start, entered);
        Underway(c, goal, start, io, entered);
      }
      Arrived(c, goal, start, io, entered);
      hung := false;
    }

    /** What the loop sees of a connection that is being worked on. */
    lemma Underway(c: Connection, goal: Step, start: Mode, io: Io, entered: int)
      requires InProgress(c, goal, start, io, entered)
      ensures c.Shaped() && (Guard(c.View()) <==> c.op == Read && c.pos != c.len)
      ensures Terminal(c.View()) <==> c.state == StateError || c.state == StateSuccess
      ensures Live(c.View()) || Terminal(c.View())
      ensures |c.View().pending| <= BUF_LEN
    {
      hide Heap.Valid, Table.Valid, OnTheWay, Onward, NoDelim;
    }

    /** The effect of update_state on the deadline of a connection that it does not end. */
    twostate predicate Clocked(c: Connection, start: Mode, io: Io)
      requires c.Shaped()
      reads c`pos, c`len, c`cur, c`rem, c`zodiacIx, c`state, c`op, c`ts, c`entered, c.data, c.buf, clock
    {
      if Leaves(start, io, c.View().mode) then
        old(clock.now) <= clock.now == c.entered && c.ts == c.entered + Timeout(c.op)
      else c.entered == old(c.entered) && c.ts == old(c.ts)
    }

    /** Where the loop ends, the work is done. */
    twostate lemma Arrived(c: Connection, new goal: Step, new start: Mode, new io: Io, new entered: int)
      requires old(c.Shaped()) && start == old(c.View()).mode && entered == old(c.entered)
      requires old(Startable(c))
      requires old(clock.now) <= clock.now
      requires InProgress(c, goal, start, io, entered) && (Terminal(c.View()) || !Guard(c.View()))
      ensures c.View() == goal.conn && table.book == goal.book
      ensures heap.Valid() && table.Valid()
      ensures Live(c.View()) ==> Due(c) && Clocked(c, start, io)
    {
      hide Heap.Valid, Heap.Indexed, NoDelim, BookOk, Receive;
    }

    /** What update_state may be called on: a connection at rest, or one that the expiry sweep has
        put into the error state. */
    ghost predicate Startable(c: Connection)
      requires c.Shaped()
      reads c, c.data, c.buf, clock
    {
      |c.View().pending| <= BUF_LEN && !Guard(c.View()) && ((Live(c.View()) && Due(c)) || Terminal(c.View()))
    }
  }

  /** What update_state makes of a connection; a connection that is over stays as it is. */
  ghost function Goal(c: Conn, book: Book, io: Io): Step
    requires BookOk(book)
  {
    if AtRest(c) then Update(c, book, io) else Step(c, book, [])
  }
}
