/** One connection of the UNIX server as a machine over recv chunks and partial sends
    (unix_socket_api/src/astrolog.c, handlers and update_state), with its buffers abstracted to
    the line being accumulated, the reply bytes not yet sent, and the bytes received but not
    yet looked at. */
module Machine {
  import opened Wire
  import opened LineSpec

  /** The prognosis of each zodiac that has one, as a full line. */
  type Book = map<nat, string>

  datatype Op = Read | Write

  datatype Kind = Thanks | Horoscope

  /** server_state_type, with what each state holds. `Failed` remembers the direction in which
      the connection was when it failed, because the loop of update_state looks at it. */
  datatype Mode =
    | Receiving(phase: Phase, line: string)
    | Sending(kind: Kind, unsent: string)
    | Failed(dir: Op)
    | Done

  /** `pending` is interm_buf.data[pos..len]. */
  datatype Conn = Conn(mode: Mode, pending: string)

  const INITIAL: Conn := Conn(Receiving(First, []), [])

  function OpOf(mode: Mode): Op {
    match mode
    case Receiving(_, _) => Read
    case Sending(_, _) => Write
    case Failed(dir) => dir
    case Done => Read
  }

  predicate Terminal(c: Conn) { c.mode.Failed? || c.mode.Done? }

  /** The loop condition of update_state. */
  predicate Guard(c: Conn) { OpOf(c.mode) == Read && c.pending != [] }

  /** What holds of a connection while it is being processed. */
  predicate Live(c: Conn) {
    match c.mode
    case Receiving(ph, line) =>
      |line| < BUF_LEN && NoDelim(line) && (ph.Prognosis? ==> ph.z < ZODIAC_NUM)
    case Sending(_, unsent) => 0 < |unsent| <= BUF_LEN
    case _ => false
  }

  /** What holds between events: nothing is left unread while the server waits to read. */
  predicate AtRest(c: Conn) {
    Live(c) && |c.pending| <= BUF_LEN && !Guard(c)
  }

  // ---------- Requests and replies ----------

  /** Every stored prognosis is one line and belongs to a zodiac. */
  predicate BookOk(book: Book) {
    forall z | z in book :: z < ZODIAC_NUM && IsLine(book[z])
  }

  function Reply(q: Request, book: Book): string {
    match q
    case Set(_, _) => THANKS
    case Get(z) => if z in book then book[z] else OUT_OF_LUCK
  }

  function Apply(q: Request, book: Book): Book {
    match q
    case Set(z, line) => book[z := line]
    case Get(_) => book
  }

  /** A completed request and the reply it was given. */
  datatype Entry = Entry(request: Request, reply: string)

  datatype Step = Step(conn: Conn, book: Book, entries: seq<Entry>)

  function Perform(q: Request, rest: string, book: Book): Step {
    Step(Conn(Sending(if q.Set? then Thanks else Horoscope, Reply(q, book)), rest),
         Apply(q, book), [Entry(q, Reply(q, book))])
  }

  // ---------- Reading what is buffered ----------

  /** How many bytes buffered_recv_until_delim hands over when `room` are wanted. */
  ghost function Delivered(room: nat, pending: string): (n: nat)
    ensures n <= room && n <= |pending|
    ensures room > 0 && pending != [] ==> n > 0
  {
    var size := if room < |pending| then room else |pending|;
    var i := IndexOf(pending[..size]);
    if i < size then i + 1 else size
  }

  /** handle_first_line and handle_recv_h on buffered bytes. */
  ghost function Receive(c: Conn, book: Book): Step
    requires Live(c) && Guard(c)
  {
    var k := Delivered(BUF_LEN - |c.mode.line|, c.pending);
    var line := c.mode.line + c.pending[..k];
    var rest := c.pending[k..];
    if line[|line| - 1] == DELIM then FinishLine(c.mode.phase, line, rest, book)
    else if |line| == BUF_LEN then Step(Conn(Failed(Read), rest), book, [])
    else Step(Conn(Receiving(c.mode.phase, line), rest), book, [])
  }

  ghost function FinishLine(phase: Phase, line: string, rest: string, book: Book): Step {
    match phase
    case Prognosis(z) => Perform(Set(z, line), rest, book)
    case First =>
      match Classify(line)
      case Unknown => Step(Conn(Failed(Read), rest), book, [])
      case Star(z) => Step(Conn(Receiving(Prognosis(z), []), rest), book, [])
      case Client(z) => Perform(Get(z), rest, book)
  }

  /** The delivered bytes are exactly those that the line specification looks at next. */
  lemma DeliveredCuts(line: string, pending: string)
    requires |line| < BUF_LEN && NoDelim(line) && pending != []
    ensures var k := Delivered(BUF_LEN - |line|, pending);
            var longer := line + pending[..k];
            if longer[|longer| - 1] == DELIM then NextLine(line + pending) == Line(longer, pending[k..])
            else if |longer| == BUF_LEN then NextLine(line + pending) == TooLong(pending[k..])
            else k == |pending| && longer == line + pending && NextLine(line + pending).Partial?
  {
    var k := Delivered(BUF_LEN - |line|, pending);
    var longer := line + pending[..k];
    assert line + pending == longer + pending[k..];
    NoDelimBefore(line, pending, k);
    if longer[|longer| - 1] == DELIM {
      NextLineOf(longer, pending[k..]);
    } else {
      assert NoDelim(longer);
      if |longer| == BUF_LEN {
        NextLineExtends(longer, pending[k..]);
        assert longer[BUF_LEN..] + pending[k..] == pending[k..];
      }
    }
  }

  lemma NoDelimBefore(line: string, pending: string, k: nat)
    requires |line| < BUF_LEN && NoDelim(line) && pending != []
    requires k == Delivered(BUF_LEN - |line|, pending)
    ensures var longer := line + pending[..k];
            forall j :: 0 <= j < |longer| - 1 ==> longer[j] != DELIM
    ensures pending[k - 1] != DELIM ==> k == BUF_LEN - |line| || k == |pending|
  {
    var longer := line + pending[..k];
    forall j | 0 <= j < |longer| - 1
      ensures longer[j] != DELIM
    {
      if j >= |line| {
        assert longer[j] == pending[j - |line|];
      }
    }
  }

  /** `longer` is `line` with what buffered_recv_until_delim adds to it from `avail`, and `rest`
      is what it leaves behind. */
  ghost predicate Extended(line: string, avail: string, longer: string, rest: string) {
    && longer != []
    && if longer[|longer| - 1] == DELIM then NextLine(line + avail) == Line(longer, rest)
       else if |longer| == BUF_LEN then NextLine(line + avail) == TooLong(rest)
       else NextLine(line + avail) == Partial && longer == line + avail && rest == []
  }

  lemma DeliveredExtends(line: string, avail: string)
    requires |line| < BUF_LEN && NoDelim(line) && avail != []
    ensures var k := Delivered(BUF_LEN - |line|, avail); Extended(line, avail, line + avail[..k], avail[k..])
  {
    DeliveredCuts(line, avail);
  }

  lemma ReceiveExtends(c: Conn, book: Book, longer: string, rest: string)
    requires Live(c) && Guard(c) && Extended(c.mode.line, c.pending, longer, rest)
    ensures Receive(c, book) ==
            if longer != [] && longer[|longer| - 1] == DELIM then FinishLine(c.mode.phase, longer, rest, book)
            else if |longer| == BUF_LEN then Step(Conn(Failed(Read), rest), book, [])
            else Step(Conn(Receiving(c.mode.phase, longer), rest), book, [])
    ensures longer != [] && (longer[|longer| - 1] == DELIM ==> IsLine(longer))
  {
    hide Classify, Receive;
    ReceiveCuts(c, book);
  }

  /** One call does what the line specification does with the next line. */
  lemma ReceiveCuts(c: Conn, book: Book)
    requires Live(c) && Guard(c)
    ensures match NextLine(c.mode.line + c.pending)
            case Line(line, rest) => Receive(c, book) == FinishLine(c.mode.phase, line, rest, book)
            case TooLong(rest) => Receive(c, book) == Step(Conn(Failed(Read), rest), book, [])
            case Partial => Receive(c, book) == Step(Conn(Receiving(c.mode.phase, c.mode.line + c.pending), []), book, [])
  {
    hide NextLine, Classify;
    DeliveredCuts(c.mode.line, c.pending);
  }

  /** One call is one step of reading a request. */
  lemma ReceiveParses(c: Conn, book: Book)
    requires Live(c) && Guard(c)
    ensures var s := Receive(c, book);
            var parsed := ParseRequest(c.mode.phase, c.mode.line + c.pending);
            match s.conn.mode
            case Receiving(ph, line) =>
              s.entries == [] && s.book == book && parsed == ParseRequest(ph, line + s.conn.pending)
            case Sending(_, _) => parsed.Complete? && s == Perform(parsed.request, parsed.rest, book)
            case Failed(_) => parsed.Bad? && s == Step(Conn(Failed(Read), parsed.rest), book, [])
            case Done => false
  {
    hide Classify, NextLine;
    ReceiveCuts(c, book);
    var s := Receive(c, book);
    assert [] + s.conn.pending == s.conn.pending;
    assert c.mode.line + c.pending + [] == c.mode.line + c.pending;
  }

  /** The first call keeps the invariants and leaves fewer bytes. */
  lemma ReceiveKeeps(c: Conn, book: Book)
    requires Live(c) && Guard(c) && BookOk(book)
    ensures var s := Receive(c, book);
            && |s.conn.pending| < |c.pending|
            && (Live(s.conn) || s.conn.mode == Failed(Read))
            && BookOk(s.book)
            && (s.conn.mode.Receiving? ==> s.entries == [] && s.book == book)
            && (s.conn.mode.Receiving? && c.mode.phase.Prognosis? ==> s.conn.mode.phase == c.mode.phase)
  {
    hide Classify, NextLine;
    ReceiveCuts(c, book);
  }

  /** The loop of update_state after its first pass, run to its end. */
  ghost function Drive(c: Conn, book: Book): (s: Step)
    requires Live(c) && BookOk(book)
    decreases |c.pending|
  {
    if !Guard(c) then Step(c, book, [])
    else
      ReceiveKeeps(c, book);
      var s := Receive(c, book);
      if s.conn.mode.Receiving? then Drive(s.conn, book) else s
  }

  /** The loop reads exactly one request off the line and the bytes at hand, or stops where
      they run out, or fails where the line specification does. */
  lemma {:induction false} DriveParses(c: Conn, book: Book)
    requires Live(c) && c.mode.Receiving? && BookOk(book)
    ensures Drive(c, book) ==
            match ParseRequest(c.mode.phase, c.mode.line + c.pending)
            case Incomplete(ph, p) => Step(Conn(Receiving(ph, p), []), book, [])
            case Complete(q, rest) => Perform(q, rest, book)
            case Bad(rest) => Step(Conn(Failed(Read), rest), book, [])
    decreases |c.pending|
  {
    hide Receive;
    if !Guard(c) {
      assert c.mode.line + c.pending == c.mode.line;
    } else {
      ReceiveParses(c, book);
      ReceiveKeeps(c, book);
      if Receive(c, book).conn.mode.Receiving? {
        DriveParses(Receive(c, book).conn, book);
      }
    }
  }

  lemma DriveKeeps(c: Conn, book: Book)
    requires Live(c) && BookOk(book) && |c.pending| <= BUF_LEN
    ensures var s := Drive(c, book);
            && |s.conn.pending| <= |c.pending|
            && BookOk(s.book)
            && (AtRest(s.conn) || s.conn.mode == Failed(Read))
    decreases |c.pending|
  {
    hide Receive;
    if Guard(c) {
      ReceiveKeeps(c, book);
      if Receive(c, book).conn.mode.Receiving? {
        DriveKeeps(Receive(c, book).conn, book);
      }
    }
  }

  // ---------- When the loop of update_state ends ----------

  /** One pass of the loop body when the guard holds: a handler call while receiving, nothing
      in a terminal state (the `default` branch). */
  ghost function Pass(c: Conn, book: Book): Conn
    requires (Live(c) || Terminal(c)) && Guard(c)
  {
    if Terminal(c) then c else Receive(c, book).conn
  }

  /** The connection after `n` passes, or after fewer if the loop has ended. */
  ghost function After(c: Conn, book: Book, n: nat): Conn
    requires (Live(c) || Terminal(c)) && BookOk(book)
    decreases n
  {
    if n == 0 || !Guard(c) then c
    else
      if Live(c) then
        ReceiveKeeps(c, book);
        After(Pass(c, book), Receive(c, book).book, n - 1)
      else After(c, book, n - 1)
  }

  ghost predicate EndsWithin(c: Conn, book: Book, n: nat)
    requires (Live(c) || Terminal(c)) && BookOk(book)
  {
    !Guard(After(c, book, n))
  }

  /** The bytes at hand hold a malformed request that is not the last thing in them. */
  ghost predicate Stalls(phase: Phase, bytes: string) {
    ParseRequest(phase, bytes).Bad? && ParseRequest(phase, bytes).rest != []
  }

  /** The loop ends if and only if the bytes at hand hold no malformed request with more bytes
      behind it; when it ends, it does so within one pass per buffered byte. */
  lemma LoopEnds(c: Conn, book: Book)
    requires Live(c) && c.mode.Receiving? && BookOk(book)
    ensures (exists n: nat :: EndsWithin(c, book, n)) <==> !Stalls(c.mode.phase, c.mode.line + c.pending)
    ensures !Stalls(c.mode.phase, c.mode.line + c.pending) ==> EndsWithin(c, book, |c.pending|)
  {
    hide Receive, ParseRequest, After;
    if Stalls(c.mode.phase, c.mode.line + c.pending) {
      forall n: nat ensures !EndsWithin(c, book, n) { StallsForEver(c, book, n); }
    } else {
      EndsInTime(c, book);
    }
  }

  lemma NothingStalls(phase: Phase, line: string)
    requires |line| < BUF_LEN && NoDelim(line)
    ensures !Stalls(phase, line)
  {
  }

  lemma StallNeedsBytes(c: Conn)
    requires Live(c) && c.mode.Receiving?
    ensures !Guard(c) ==> !Stalls(c.mode.phase, c.mode.line + c.pending)
  {
    if !Guard(c) {
      assert c.mode.line + c.pending == c.mode.line;
      NothingStalls(c.mode.phase, c.mode.line);
    }
  }

  lemma {:induction false} StallsForEver(c: Conn, book: Book, n: nat)
    requires Live(c) && c.mode.Receiving? && BookOk(book)
    requires Stalls(c.mode.phase, c.mode.line + c.pending)
    ensures !EndsWithin(c, book, n)
    decreases n
  {
    hide Receive;
    StallNeedsBytes(c);
    if n > 0 {
      ReceiveParses(c, book);
      ReceiveKeeps(c, book);
      var s := Receive(c, book);
      if s.conn.mode.Receiving? {
        StallsForEver(s.conn, s.book, n - 1);
      } else {
        Stuck(s.conn, s.book, n - 1);
      }
    }
  }

  lemma {:induction false} EndsInTime(c: Conn, book: Book)
    requires Live(c) && c.mode.Receiving? && BookOk(book)
    requires !Stalls(c.mode.phase, c.mode.line + c.pending)
    ensures EndsWithin(c, book, |c.pending|)
    decreases |c.pending|
  {
    hide Receive, ParseRequest, NoDelim;
    if Guard(c) {
      ReceiveParses(c, book);
      ReceiveKeeps(c, book);
      var s := Receive(c, book);
      if s.conn.mode.Receiving? {
        EndsInTime(s.conn, s.book);
        AfterMore(s.conn, s.book, |s.conn.pending|, |c.pending| - 1);
      } else {
        assert !Guard(s.conn) && After(s.conn, s.book, |c.pending| - 1) == s.conn;
      }
    }
  }

  /** Once the loop has ended, more passes change nothing. */
  lemma {:induction false} AfterMore(c: Conn, book: Book, m: nat, n: nat)
    requires (Live(c) || Terminal(c)) && BookOk(book) && m <= n && EndsWithin(c, book, m)
    ensures EndsWithin(c, book, n)
    decreases m
  {
    hide Receive;
    if m > 0 && Guard(c) {
      if Live(c) {
        ReceiveKeeps(c, book);
        AfterMore(Pass(c, book), Receive(c, book).book, m - 1, n - 1);
      } else {
        AfterMore(c, book, m - 1, n - 1);
      }
    }
  }

  /** A terminal state with bytes still buffered stays as it is for ever. */
  lemma {:induction false} Stuck(c: Conn, book: Book, n: nat)
    requires Terminal(c) && Guard(c) && BookOk(book)
    ensures After(c, book, n) == c
    decreases n
  {
    if n > 0 { Stuck(c, book, n - 1); }
  }

  // ---------- update_state ----------

  /** What recv returns: an error, or at most BUF_LEN bytes, none of them at end of stream. */
  type Chunk = s: string | |s| <= BUF_LEN

  datatype RecvResult = RecvError | Got(bytes: Chunk)

  /** What send returns: an error, or how many bytes it takes (never more than it is given). */
  datatype SendResult = SendError | Accepts(n: nat)

  /** update_state makes at most one of the two calls. */
  datatype Io = Io(recv: RecvResult, send: SendResult)

  function Accepted(n: nat, unsent: string): nat {
    if n < |unsent| then n else |unsent|
  }

  /** The bytes that recv gives to a connection without unread bytes, and those of its reply that
      send takes. */
  function Taken(c: Conn, io: Io): string {
    if c.mode.Receiving? && io.recv.Got? then io.recv.bytes else []
  }

  function Put(c: Conn, io: Io): string {
    if c.mode.Sending? && io.send.Accepts? then c.mode.unsent[..Accepted(io.send.n, c.mode.unsent)] else []
  }

  /** What has gone through the socket of a connection, and in how many calls of recv and send. */
  datatype Tally = Tally(calls: nat, received: string, sent: string)

  function Tallied(t: Tally, c: Conn, io: Io): Tally {
    if Guard(c) || Terminal(c) then t else Tally(t.calls + 1, t.received + Taken(c, io), t.sent + Put(c, io))
  }

  /** A call of update_state that takes a connection from `before` to `after` ends the phase it
      was in: a line of a request has come in full, or a reply has been sent in full. */
  predicate Leaves(before: Mode, io: Io, after: Mode) {
    match before
    case Receiving(ph, _) => !(after.Receiving? && after.phase == ph)
    case Sending(_, unsent) => io.send.Accepts? && io.send.n >= |unsent|
    case _ => false
  }

  /** One handler call: handle_first_line, handle_recv_h or handle_send_reply. */
  ghost function Call(c: Conn, book: Book, io: Io): Step
    requires Live(c)
  {
    match c.mode
    case Receiving(ph, line) =>
      if c.pending != [] then Receive(c, book)
      else
        (match io.recv
         case RecvError => Step(Conn(Failed(Read), []), book, [])
         case Got(bytes) =>
           if bytes != [] then Receive(Conn(c.mode, bytes), book)
           else Step(Conn(if ph == First && line == [] then Done else Failed(Read), []), book, []))
    case Sending(kind, unsent) =>
      match io.send
      case SendError => Step(Conn(Failed(Write), c.pending), book, [])
      case Accepts(n) =>
        var k := Accepted(n, unsent);
        Step(Conn(if k < |unsent| then Sending(kind, unsent[k..]) else Receiving(First, []), c.pending), book, [])
  }

  /** The bytes a connection that is receiving goes on with. */
  function Available(c: Conn, io: Io): string {
    if c.pending != [] then c.pending else if io.recv.Got? then io.recv.bytes else []
  }

  /** A handler call that receives, by the line that it ends up with. */
  lemma CallReceives(c: Conn, book: Book, io: Io, longer: string, rest: string)
    requires Live(c) && c.mode.Receiving?
    requires Available(c, io) != [] ==> Extended(c.mode.line, Available(c, io), longer, rest)
    ensures Available(c, io) != [] ==>
              && longer != [] && (longer[|longer| - 1] == DELIM ==> IsLine(longer))
              && Call(c, book, io) ==
                 if longer[|longer| - 1] == DELIM then FinishLine(c.mode.phase, longer, rest, book)
                 else if |longer| == BUF_LEN then Step(Conn(Failed(Read), rest), book, [])
                 else Step(Conn(Receiving(c.mode.phase, longer), rest), book, [])
    ensures Available(c, io) == [] ==>
              Call(c, book, io) ==
              Step(Conn(if io.recv.Got? && c.mode.phase == First && c.mode.line == [] then Done else Failed(Read), []), book, [])
  {
    hide Receive, Extended, NoDelim, FinishLine;
    if Available(c, io) != [] {
      ReceiveExtends(Conn(c.mode, Available(c, io)), book, longer, rest);
    }
  }

  /** A connection of whose reply send has taken `n` bytes. */
  function AfterSend(c: Conn, n: nat): (d: Conn)
    requires c.mode.Sending?
    ensures d.mode.Sending? && d.pending == c.pending
  {
    c.(mode := c.mode.(unsent := c.mode.unsent[Accepted(n, c.mode.unsent)..]))
  }

  /** A handler call that sends, by what is left to be sent. */
  lemma CallSends(c: Conn, book: Book, io: Io)
    requires Live(c) && c.mode.Sending?
    ensures Call(c, book, io) ==
            match io.send
            case SendError => Step(Conn(Failed(Write), c.pending), book, [])
            case Accepts(n) =>
              if AfterSend(c, n).mode.unsent != [] then Step(AfterSend(c, n), book, [])
              else Step(Conn(Receiving(First, []), c.pending), book, [])
  {
  }

  lemma CallKeeps(c: Conn, book: Book, io: Io)
    requires Live(c) && BookOk(book) && |c.pending| <= BUF_LEN
    ensures var s := Call(c, book, io);
            && BookOk(s.book) && |s.conn.pending| <= BUF_LEN
            && (Live(s.conn) || Terminal(s.conn))
            && (c.pending != [] && c.mode.Receiving? ==> |s.conn.pending| < |c.pending|)
            && (s.conn.mode.Receiving? ==> s.entries == [] && s.book == book)
            && (s.conn.mode == Failed(Write) || s.conn.mode == Done ==> !Guard(s.conn))
            && (c.mode.Receiving? && s.conn.mode.Receiving? && c.mode.phase.Prognosis? ==>
                  s.conn.mode.phase == c.mode.phase)
  {
    hide Receive, BookOk;
    if c.mode.Receiving? && c.pending != [] {
      ReceiveKeeps(c, book);
    } else if c.mode.Receiving? && io.recv.Got? && io.recv.bytes != [] {
      ReceiveKeeps(Conn(c.mode, io.recv.bytes), book);
    }
  }

  /** One call of update_state on a connection at rest: a handler call, then the loop. */
  ghost function Update(c: Conn, book: Book, io: Io): Step
    requires AtRest(c) && BookOk(book)
  {
    CallKeeps(c, book, io);
    var s := Call(c, book, io);
    if s.conn.mode.Receiving? then Drive(s.conn, s.book) else s
  }

  /** One more pass of the loop. */
  lemma DrivePass(c: Conn, book: Book, io: Io)
    requires Live(c) && Guard(c) && BookOk(book) && |c.pending| <= BUF_LEN
    ensures var s := Call(c, book, io);
            Drive(c, book) == if s.conn.mode.Receiving? then
                                (CallKeeps(c, book, io); Drive(s.conn, s.book))
                              else s
  {
    hide Receive, BookOk;
    ReceiveKeeps(c, book);
  }

  /** The same by cases: a fresh chunk, or what was left once a reply is sent, is worked through
      to the next request. */
  lemma UpdateCases(c: Conn, book: Book, io: Io)
    requires AtRest(c) && BookOk(book)
    ensures Live(Conn(Receiving(First, []), c.pending))
    ensures Update(c, book, io) ==
            match c.mode
            case Receiving(ph, line) =>
              (match io.recv
               case RecvError => Step(Conn(Failed(Read), []), book, [])
               case Got(bytes) =>
                 if bytes == [] then
                   Step(Conn(if ph == First && line == [] then Done else Failed(Read), []), book, [])
                 else Drive(Conn(c.mode, bytes), book))
            case Sending(kind, unsent) =>
              match io.send
              case SendError => Step(Conn(Failed(Write), c.pending), book, [])
              case Accepts(n) =>
                var k := Accepted(n, unsent);
                if k < |unsent| then Step(Conn(Sending(kind, unsent[k..]), c.pending), book, [])
                else Drive(Conn(Receiving(First, []), c.pending), book)
  {
    hide Receive, BookOk;
    if c.mode.Receiving? && io.recv.Got? && io.recv.bytes != [] {
      ReceiveKeeps(Conn(c.mode, io.recv.bytes), book);
    }
  }

  /** After update_state the connection is at rest again, or over with nothing left to loop on,
      or the loop never ended. */
  lemma UpdateKeeps(c: Conn, book: Book, io: Io)
    requires AtRest(c) && BookOk(book)
    ensures var s := Update(c, book, io);
            BookOk(s.book) && (AtRest(s.conn) || Terminal(s.conn))
  {
    hide Update, Drive, NoDelim, BookOk;
    UpdateCases(c, book, io);
    if c.mode.Receiving? && io.recv.Got? && io.recv.bytes != [] {
      DriveKeeps(Conn(c.mode, io.recv.bytes), book);
    }
    if c.mode.Sending? {
        DriveKeeps(Conn(Receiving(First, []), c.pending), book);
    }
  }

  /** A connection is over after a call if and only if recv or send has failed, the stream has
      ended, or the bytes at hand hold a malformed request; and with success only if the stream
      has ended between two requests. */
  lemma UpdateEnds(c: Conn, book: Book, io: Io)
    requires AtRest(c) && BookOk(book)
    ensures var d := Update(c, book, io).conn;
            && (d.mode.Done? <==> c.mode == Receiving(First, []) && io.recv == Got([]))
            && (Terminal(d) <==>
                  match c.mode
                  case Receiving(ph, line) =>
                    io.recv.RecvError? || io.recv.bytes == [] || ParseRequest(ph, line + io.recv.bytes).Bad?
                  case _ =>
                    || io.send.SendError?
                    || (io.send.n >= |c.mode.unsent| && ParseRequest(First, c.pending).Bad?))
  {
    hide NextLine, Drive, ParseRequest, NoDelim, Update;
    UpdateCases(c, book, io);
    match c.mode
    case Receiving(ph, line) =>
      if io.recv.Got? && io.recv.bytes != [] {
        DriveParses(Conn(c.mode, io.recv.bytes), book);
      }
    case Sending(_, unsent) =>
      if io.send.Accepts? && io.send.n >= |unsent| {
        DriveParses(Conn(Receiving(First, []), c.pending), book);
        assert [] + c.pending == c.pending;
      }
  }

  /** The bytes update_state works through: a fresh chunk, or what was left when a reply has
      just been sent in full. */
  function AtHand(c: Conn, io: Io): string {
    match c.mode
    case Receiving(_, line) => if io.recv.Got? then line + io.recv.bytes else []
    case Sending(_, unsent) => if io.send.Accepts? && io.send.n >= |unsent| then c.pending else []
    case _ => []
  }

  function PhaseAtHand(c: Conn): Phase {
    if c.mode.Receiving? then c.mode.phase else First
  }

  /** update_state hangs exactly when the bytes at hand stall it. */
  lemma UpdateHangs(c: Conn, book: Book, io: Io)
    requires AtRest(c) && BookOk(book)
    ensures Guard(Update(c, book, io).conn) <==> Stalls(PhaseAtHand(c), AtHand(c, io))
  {
    hide NextLine, Drive, ParseRequest, NoDelim, Update;
    UpdateCases(c, book, io);
    NothingStalls(PhaseAtHand(c), []);
    match c.mode
    case Receiving(ph, line) =>
      if io.recv.Got? {
        if io.recv.bytes == [] {
          assert line + [] == line;
          NothingStalls(ph, line);
        } else {
          DriveParses(Conn(c.mode, io.recv.bytes), book);
        }
      }
    case Sending(_, unsent) =>
      if io.send.Accepts? && io.send.n >= |unsent| {
        DriveParses(Conn(Receiving(First, []), c.pending), book);
        assert [] + c.pending == c.pending;
      }
  }

  /** The do-while loop of update_state comes to an end. */
  ghost predicate Returns(c: Conn, book: Book, io: Io)
    requires AtRest(c) && BookOk(book)
  {
    CallKeeps(c, book, io);
    var s := Call(c, book, io);
    exists n: nat :: EndsWithin(s.conn, s.book, n)
  }

  /** update_state returns if and only if the bytes at hand hold no malformed request with more
      bytes behind it, which can be read off before the call. */
  lemma UpdateReturns(c: Conn, book: Book, io: Io)
    requires AtRest(c) && BookOk(book)
    ensures Returns(c, book, io) <==> !Stalls(PhaseAtHand(c), AtHand(c, io))
  {
    hide Call, Drive, Stalls, After, EndsWithin, BookOk, NoDelim, AtHand;
    UpdateHangs(c, book, io);
    CallKeeps(c, book, io);
    var s := Call(c, book, io);
    if s.conn.mode.Receiving? {
      LoopEnds(s.conn, s.book);
      DriveStalls(s.conn, s.book);
    } else {
      LoopIsOver(s.conn, s.book);
    }
  }

  /** Three bytes in one chunk, a line that is no request and one byte more, are enough: a call of
      update_state on a new connection does not return. */
  lemma StallExample()
    ensures !Returns(INITIAL, map[], Io(Got("X\nY"), SendError))
  {
    hide Returns;
    var s := "X\nY";
    IndexOfIs(s, 1);
    assert s[..2] == "X\n" && s[2..] == "Y";
    assert [] + s == s;
    UpdateReturns(INITIAL, map[], Io(Got(s), SendError));
  }

  lemma DriveStalls(c: Conn, book: Book)
    requires Live(c) && c.mode.Receiving? && BookOk(book)
    ensures Guard(Drive(c, book).conn) <==> Stalls(c.mode.phase, c.mode.line + c.pending)
  {
    hide ParseRequest, Drive;
    DriveParses(c, book);
  }

  lemma LoopIsOver(c: Conn, book: Book)
    requires (Live(c) || Terminal(c)) && BookOk(book) && !c.mode.Receiving?
    ensures (exists n: nat :: EndsWithin(c, book, n)) <==> !Guard(c)
  {
    if Guard(c) {
      forall n: nat ensures !EndsWithin(c, book, n) { Stuck(c, book, n); }
    } else {
      assert EndsWithin(c, book, 0);
    }
  }
}
