/** Runs of the whole server: any number of connections, their events interleaved in any order,
    sharing one book of prognoses. */
module Runs {
  import opened Wire
  import opened LineSpec
  import opened Machine

  /** Why a connection is over: bad input, end of stream, or something that has nothing to do
      with the input (an I/O error, an expired deadline, shutdown). */
  datatype Fate = Open | Refused | AtEof | Broken

  /** A connection with its history: bytes received and sent, requests answered. */
  datatype Link = Link(conn: Conn, fate: Fate, received: string, sent: string, done: seq<Entry>)

  /** The history of a connection is what has gone through its socket. */
  predicate Matches(l: Link, t: Tally) {
    l.received == t.received && l.sent == t.sent
  }

  datatype Logged = Logged(id: nat, entry: Entry)

  /** `hung` is set by a call of update_state that never returns. */
  datatype World = World(links: map<nat, Link>, book: Book, log: seq<Logged>, hung: bool)

  datatype Event = Accept(id: nat) | Ready(id: nat, io: Io) | Drop(id: nat)

  const EMPTY: World := World(map[], map[], [], false)

  predicate Ok(w: World) {
    BookOk(w.book) && forall id | id in w.links :: AtRest(w.links[id].conn) || Terminal(w.links[id].conn)
  }

  predicate Serves(w: World, id: nat) {
    !w.hung && id in w.links && !Terminal(w.links[id].conn)
  }

  function FateOf(before: Conn, io: Io, after: Conn): Fate {
    if !Terminal(after) then Open
    else if before.mode.Receiving? && io.recv == Got([]) then AtEof
    else if before.mode.Receiving? && io.recv.RecvError? then Broken
    else if before.mode.Sending? && io.send.SendError? then Broken
    else Refused
  }

  ghost function Served(l: Link, book: Book, io: Io): Link
    requires AtRest(l.conn) && BookOk(book)
  {
    var s := Update(l.conn, book, io);
    Link(s.conn, FateOf(l.conn, io, s.conn), l.received + Taken(l.conn, io),
         l.sent + Put(l.conn, io), l.done + s.entries)
  }

  function Dropped(l: Link): Link {
    l.(conn := Conn(Failed(OpOf(l.conn.mode)), l.conn.pending), fate := Broken)
  }

  function Tag(id: nat, es: seq<Entry>): seq<Logged> {
    seq(|es|, i requires 0 <= i < |es| => Logged(id, es[i]))
  }

  ghost function Next(w: World, e: Event): (w': World)
    requires Ok(w)
    ensures Ok(w')
  {
    match e
    case Accept(id) =>
      if w.hung || id in w.links then w
      else w.(links := w.links[id := Link(INITIAL, Open, [], [], [])])
    case Ready(id, io) =>
      if !Serves(w, id) then w
      else
        var l := w.links[id];
        var s := Update(l.conn, w.book, io);
        UpdateKeeps(l.conn, w.book, io);
        World(w.links[id := Served(l, w.book, io)], s.book, w.log + Tag(id, s.entries), Guard(s.conn))
    case Drop(id) =>
      if !Serves(w, id) then w
      else w.(links := w.links[id := Dropped(w.links[id])])
  }

  ghost function Run(es: seq<Event>): (w: World)
    ensures Ok(w)
  {
    if es == [] then EMPTY else Next(Run(es[..|es| - 1]), es[|es| - 1])
  }

  // ---------- One connection against the line specification ----------

  function Requests(es: seq<Entry>): seq<Request> {
    seq(|es|, i requires 0 <= i < |es| => es[i].request)
  }

  /** All replies, one after the other. */
  function Replies(es: seq<Entry>): string {
    if es == [] then [] else Replies(es[..|es| - 1]) + es[|es| - 1].reply
  }

  /** A connection against the meaning of the bytes it has received. */
  ghost predicate Faithful(l: Link) {
    var m := Meaning(First, l.received);
    var qs := Requests(l.done);
    match l.conn.mode
    case Receiving(ph, line) =>
      l.fate == Open && m == Transcript(qs, Waiting(ph, line)) && l.sent == Replies(l.done)
    case Sending(_, unsent) =>
      && l.fate == Open
      && m == Prepend(qs, Meaning(First, l.conn.pending))
      && l.sent + unsent == Replies(l.done)
      && l.done != [] && |unsent| <= |l.done[|l.done| - 1].reply|
    case Done =>
      l.fate == AtEof && m == Transcript(qs, Waiting(First, [])) && l.sent == Replies(l.done)
    case Failed(_) =>
      match l.fate
      case Open => false
      case Refused => m == Transcript(qs, Malformed(l.conn.pending)) && l.sent == Replies(l.done)
      case AtEof =>
        m.requests == qs && m.end.Waiting? && m.end != Waiting(First, []) && l.sent == Replies(l.done)
      case Broken => qs <= m.requests && l.sent <= Replies(l.done)
  }

  /** Every reachable connection is faithful, however its input was cut into chunks, its replies
      into sends, and its events interleaved with those of others. */
  lemma {:induction false} RunsAreFaithful(es: seq<Event>, id: nat)
    requires id in Run(es).links
    ensures Faithful(Run(es).links[id])
    decreases |es|
  {
    hide Update, Meaning, Faithful, BookOk;
    if es != [] {
      var w, e := Run(es[..|es| - 1]), es[|es| - 1];
      if id in w.links {
        RunsAreFaithful(es[..|es| - 1], id);
      }
      if e.id == id {
        match e
        case Accept(_) =>
          if id !in w.links { FreshIsFaithful(); }
        case Ready(_, io) =>
          if Serves(w, id) { ServedIsFaithful(w.links[id], w.book, io); }
        case Drop(_) =>
          if Serves(w, id) { DroppedIsFaithful(w.links[id]); }
      }
    }
  }

  lemma FreshIsFaithful()
    ensures Faithful(Link(INITIAL, Open, [], [], []))
  {
    MeaningOfNothing(First);
  }

  lemma DroppedIsFaithful(l: Link)
    requires Faithful(l) && AtRest(l.conn)
    ensures Faithful(Dropped(l))
  {
    hide Meaning;
  }

  lemma ServedIsFaithful(l: Link, book: Book, io: Io)
    requires Faithful(l) && AtRest(l.conn) && BookOk(book)
    ensures Faithful(Served(l, book, io))
  {
    hide Meaning, Drive, BookOk, Update;
    UpdateCases(l.conn, book, io);
    match l.conn.mode
    case Receiving(ph, line) =>
      if io.recv.Got? && io.recv.bytes != [] {
        ChunkIsFaithful(l, book, io);
      } else {
        assert l.received + [] == l.received && l.sent + [] == l.sent && l.done + [] == l.done;
      }
    case Sending(_, unsent) =>
      if io.send.Accepts? {
        SendIsFaithful(l, book, io);
      } else {
        assert l.received + [] == l.received && l.sent + [] == l.sent && l.done + [] == l.done;
      }
  }

  lemma ChunkIsFaithful(l: Link, book: Book, io: Io)
    requires Faithful(l) && AtRest(l.conn) && BookOk(book)
    requires l.conn.mode.Receiving? && io.recv.Got? && io.recv.bytes != []
    ensures Faithful(Served(l, book, io))
  {
    hide Meaning, BookOk, NoDelim, Served;
    var c := Conn(l.conn.mode, io.recv.bytes);
    MeaningExtends(First, l.received, io.recv.bytes);
    DriveIsFaithful(l.(received := l.received + io.recv.bytes), c, book);
    assert l.sent + [] == l.sent;
    assert Served(l, book, io) == Driven(l.(received := l.received + io.recv.bytes), c, book) by { ServedChunk(l, book, io); }
  }

  /** What the loop makes of a connection whose line and buffer are those of `c`. */
  ghost function Driven(l: Link, c: Conn, book: Book): Link
    requires Live(c) && BookOk(book)
  {
    var s := Drive(c, book);
    Link(s.conn, if Terminal(s.conn) then Refused else Open, l.received, l.sent, l.done + s.entries)
  }

  lemma ServedChunk(l: Link, book: Book, io: Io)
    requires AtRest(l.conn) && BookOk(book)
    requires l.conn.mode.Receiving? && io.recv.Got? && io.recv.bytes != []
    ensures Served(l, book, io) == Driven(l.(received := l.received + io.recv.bytes), Conn(l.conn.mode, io.recv.bytes), book)
  {
    hide Drive, Update;
    UpdateCases(l.conn, book, io);
    assert l.sent + [] == l.sent;
  }

  lemma DriveIsFaithful(l: Link, c: Conn, book: Book)
    requires Live(c) && c.mode.Receiving? && BookOk(book)
    requires Meaning(First, l.received) == Prepend(Requests(l.done), Meaning(c.mode.phase, c.mode.line + c.pending))
    requires l.sent == Replies(l.done)
    ensures Faithful(Driven(l, c, book))
  {
    hide Drive, BookOk, NoDelim, Requests, Replies, Live;
    DriveParses(c, book);
    var all := c.mode.line + c.pending;
    MeaningUnfolds(c.mode.phase, all);
    hide Meaning, ParseRequest;
    match ParseRequest(c.mode.phase, all)
    case Incomplete(ph, p) =>
      assert Requests(l.done) + [] == Requests(l.done) && l.done + [] == l.done;
    case Bad(rest) =>
      assert Requests(l.done) + [] == Requests(l.done) && l.done + [] == l.done;
    case Complete(q, rest) =>
      PerformIsFaithful(l, q, rest, book);
      PrependTwice(Requests(l.done), [q], Meaning(First, rest));
  }

  /** A connection that has just completed a request. */
  ghost function Performed(l: Link, q: Request, rest: string, book: Book): Link {
    var s := Perform(q, rest, book);
    Link(s.conn, Open, l.received, l.sent, l.done + s.entries)
  }

  lemma PerformIsFaithful(l: Link, q: Request, rest: string, book: Book)
    requires l.sent == Replies(l.done)
    ensures Meaning(First, l.received) == Prepend(Requests(l.done) + [q], Meaning(First, rest)) ==>
              Faithful(Performed(l, q, rest, book))
  {
    hide Meaning, Requests, Replies;
    var e := Entry(q, Reply(q, book));
    RequestsAppend(l.done, e);
    RepliesAppend(l.done, e);
  }

  lemma MeaningUnfolds(phase: Phase, s: string)
    ensures Meaning(phase, s) ==
            match ParseRequest(phase, s)
            case Incomplete(ph, p) => Transcript([], Waiting(ph, p))
            case Bad(rest) => Transcript([], Malformed(rest))
            case Complete(q, rest) => Prepend([q], Meaning(First, rest))
  {
  }

  lemma RequestsAppend(es: seq<Entry>, e: Entry)
    ensures Requests(es + [e]) == Requests(es) + [e.request]
  {
  }

  lemma RepliesAppend(es: seq<Entry>, e: Entry)
    ensures Replies(es + [e]) == Replies(es) + e.reply
  {
    assert (es + [e])[..|es|] == es;
  }

  lemma SendIsFaithful(l: Link, book: Book, io: Io)
    requires Faithful(l) && AtRest(l.conn) && BookOk(book)
    requires l.conn.mode.Sending? && io.send.Accepts?
    ensures Faithful(Served(l, book, io))
  {
    hide Meaning, BookOk, Drive, Update;
    UpdateCases(l.conn, book, io);
    var unsent := l.conn.mode.unsent;
    var k := Accepted(io.send.n, unsent);
    assert l.received + [] == l.received && l.done + [] == l.done;
    assert (l.sent + unsent[..k]) + unsent[k..] == l.sent + unsent;
    if k == |unsent| {
      assert l.sent + unsent[..k] == l.sent + unsent;
      var c := Conn(Receiving(First, []), l.conn.pending);
      assert [] + c.pending == c.pending;
      DriveIsFaithful(l.(sent := l.sent + unsent), c, book);
      assert Served(l, book, io) == Driven(l.(sent := l.sent + unsent), c, book);
    }
  }

  // ---------- Consequences for one connection ----------

  /** The outcome does not depend on the chunks: for any stream of which the bytes received are
      a prefix, the requests served are a prefix of the stream's requests; a connection refused
      for its input has served all of them, and so has one that has read the whole stream and
      is not in the middle of a reply; and one that has come to the end of the stream succeeds if
      and only if the stream does not end inside a request. */
  lemma ChunkingIsInvisible(es: seq<Event>, id: nat, stream: string)
    requires id in Run(es).links && Run(es).links[id].received <= stream
    ensures var l := Run(es).links[id];
            var m := Meaning(First, stream);
            && Requests(l.done) <= m.requests
            && (l.fate == Refused ==> Requests(l.done) == m.requests && m.end.Malformed?)
            && (l.fate != Broken && l.received == stream && !l.conn.mode.Sending? ==>
                  Requests(l.done) == m.requests)
            && (l.received == stream && l.conn.mode.Receiving? ==>
                  m.end == Waiting(l.conn.mode.phase, l.conn.mode.line))
            && (l.fate == AtEof && l.received == stream ==>
                  m.end.Waiting? && (l.conn.mode.Done? <==> m.end == Waiting(First, [])))
            && (l.conn.mode.Done? ==> l.fate == AtEof)
  {
    hide Run, Meaning, Faithful, Requests;
    RunsAreFaithful(es, id);
    var l := Run(es).links[id];
    ServedIsPrefix(l, stream);
    RefusedIsMalformed(l, stream);
    AllIsServed(l);
    WaitsAsRead(l);
    EndsAsRead(l);
  }

  lemma ServedIsPrefix(l: Link, stream: string)
    requires Faithful(l) && l.received <= stream
    ensures Requests(l.done) <= Meaning(First, stream).requests
  {
    hide Meaning, Requests;
    var more := stream[|l.received|..];
    assert stream == l.received + more;
    MeaningGrows(l.received, more);
  }

  lemma RefusedIsMalformed(l: Link, stream: string)
    requires Faithful(l) && l.received <= stream
    ensures l.fate == Refused ==> Requests(l.done) == Meaning(First, stream).requests && Meaning(First, stream).end.Malformed?
  {
    hide Meaning, Requests;
    var more := stream[|l.received|..];
    assert stream == l.received + more;
    MeaningExtends(First, l.received, more);
  }

  lemma AllIsServed(l: Link)
    requires Faithful(l)
    ensures l.fate != Broken && !l.conn.mode.Sending? ==> Requests(l.done) == Meaning(First, l.received).requests
  {
    hide Meaning, Requests;
  }

  lemma WaitsAsRead(l: Link)
    requires Faithful(l)
    ensures l.conn.mode.Receiving? ==> Meaning(First, l.received).end == Waiting(l.conn.mode.phase, l.conn.mode.line)
  {
    hide Meaning, Requests;
  }

  lemma EndsAsRead(l: Link)
    requires Faithful(l)
    ensures l.conn.mode.Done? ==> l.fate == AtEof
    ensures var end := Meaning(First, l.received).end;
            l.fate == AtEof ==> end.Waiting? && (l.conn.mode.Done? <==> end == Waiting(First, []))
  {
    hide Meaning, Requests;
  }

  /** STATE_SUCCESS is reached only on input that is a concatenation of well-formed requests,
      and only after every one of them has been answered in full. */
  lemma SuccessMeansAnswered(es: seq<Event>, id: nat)
    requires id in Run(es).links && Run(es).links[id].conn.mode.Done?
    ensures var l := Run(es).links[id];
            IsRequests(l.received, Requests(l.done)) && l.sent == Replies(l.done)
  {
    hide Run;
    RunsAreFaithful(es, id);
    CleanEnd(Run(es).links[id].received, Requests(Run(es).links[id].done));
  }

  /** What has been sent is always the replies to the requests served, in order, up to a part of
      the last one. */
  lemma SentIsReplies(es: seq<Event>, id: nat)
    requires id in Run(es).links
    ensures var l := Run(es).links[id];
            && l.sent <= Replies(l.done)
            && (l.fate == Open ==> l.done == [] || Replies(l.done[..|l.done| - 1]) <= l.sent)
  {
    hide Run, Meaning;
    RunsAreFaithful(es, id);
    var l := Run(es).links[id];
    if l.conn.mode.Sending? {
      var all := Replies(l.done);
      var most := Replies(l.done[..|l.done| - 1]);
      assert all == most + l.done[|l.done| - 1].reply;
      assert l.sent == all[..|l.sent|];
    }
  }

  // ---------- The book against the log ----------

  /** The book after all logged requests. */
  function Latest(log: seq<Logged>): Book {
    if log == [] then map[]
    else Apply(log[|log| - 1].entry.request, Latest(log[..|log| - 1]))
  }

  ghost predicate SetsAt(log: seq<Logged>, i: nat, z: nat) {
    i < |log| && log[i].entry.request.Set? && log[i].entry.request.z == z
  }

  /** `line` is what the last prognosis for `z` in the log said. */
  ghost predicate LastSet(log: seq<Logged>, z: nat, line: string) {
    exists i: nat :: SetsAt(log, i, z) && log[i].entry.request.line == line
                     && forall j: nat :: SetsAt(log, j, z) ==> j <= i
  }

  lemma {:induction false} LatestIsLast(log: seq<Logged>, z: nat)
    ensures z in Latest(log) ==> LastSet(log, z, Latest(log)[z])
    ensures z !in Latest(log) ==> forall i: nat :: !SetsAt(log, i, z)
    decreases |log|
  {
    if log != [] {
      var n := |log| - 1;
      var before := log[..n];
      LatestIsLast(before, z);
      assert forall j: nat :: j < n ==> (SetsAt(log, j, z) <==> SetsAt(before, j, z));
      if SetsAt(log, n, z) {
        assert forall j: nat :: SetsAt(log, j, z) ==> j <= n;
      } else if z in Latest(log) {
        var i: nat :| SetsAt(before, i, z) && before[i].entry.request.line == Latest(before)[z]
                      && forall j: nat :: SetsAt(before, j, z) ==> j <= i;
        assert SetsAt(log, i, z) && forall j: nat :: SetsAt(log, j, z) ==> j <= i;
      }
    }
  }

  /** Every logged reply was computed from the requests logged before it. */
  ghost predicate Explained(w: World) {
    && w.book == Latest(w.log)
    && forall i: nat :: i < |w.log| ==> w.log[i].entry.reply == Reply(w.log[i].entry.request, Latest(w.log[..i]))
  }

  lemma {:induction false} RunsAreExplained(es: seq<Event>)
    ensures Explained(Run(es))
    decreases |es|
  {
    hide Update, BookOk;
    if es != [] {
      RunsAreExplained(es[..|es| - 1]);
      var w, e := Run(es[..|es| - 1]), es[|es| - 1];
      if e.Ready? && Serves(w, e.id) {
        UpdateLogs(w.links[e.id].conn, w.book, e.io);
        LogGrows(w, Next(w, e), e.id, Update(w.links[e.id].conn, w.book, e.io).entries);
      }
    }
  }

  lemma LogGrows(w: World, w': World, id: nat, entries: seq<Entry>)
    requires Explained(w) && w'.log == w.log + Tag(id, entries)
    requires entries == [] ==> w'.book == w.book
    requires entries != [] ==> |entries| == 1 && entries[0].reply == Reply(entries[0].request, w.book)
                               && w'.book == Apply(entries[0].request, w.book)
    ensures Explained(w')
  {
    if entries == [] {
      assert w'.log == w.log;
    } else {
      var n := |w.log|;
      assert w'.log[..n] == w.log && w'.log[n].entry == entries[0] && |w'.log| == n + 1;
      assert forall i: nat :: i <= n ==> w'.log[..i] == w.log[..i];
    }
  }

  /** One call of update_state completes at most one request. */
  lemma UpdateLogs(c: Conn, book: Book, io: Io)
    requires AtRest(c) && BookOk(book)
    ensures var s := Update(c, book, io);
            && (s.entries == [] ==> s.book == book)
            && (s.entries != [] ==> |s.entries| == 1 && s.entries[0].reply == Reply(s.entries[0].request, book)
                                    && s.book == Apply(s.entries[0].request, book))
  {
    hide Drive, NoDelim, BookOk, ParseRequest, Update;
    UpdateCases(c, book, io);
    if c.mode.Receiving? && io.recv.Got? && io.recv.bytes != [] {
      DriveParses(Conn(c.mode, io.recv.bytes), book);
    }
    if c.mode.Sending? {
      DriveParses(Conn(Receiving(First, []), c.pending), book);
    }
  }

  /** Across any interleaving, the reply to HOROSCOPE is exactly the line of the last completed
      star request for that zodiac, or the out-of-luck line if there was none. */
  lemma HoroscopeIsLatest(es: seq<Event>, i: nat)
    requires i < |Run(es).log| && Run(es).log[i].entry.request.Get?
    ensures var log := Run(es).log;
            var z, reply := log[i].entry.request.z, log[i].entry.reply;
            || LastSet(log[..i], z, reply)
            || (reply == "YOU ARE OUT OF LUCK!\n" && forall j: nat :: !SetsAt(log[..i], j, z))
  {
    hide Run;
    RunsAreExplained(es);
    LatestIsLast(Run(es).log[..i], Run(es).log[i].entry.request.z);
  }

  /** A star is always thanked, in the log and in what the connections have done. */
  lemma SetsAreThanked(es: seq<Event>, id: nat)
    ensures var w := Run(es);
            && (forall i: nat :: i < |w.log| && w.log[i].entry.request.Set? ==> w.log[i].entry.reply == "THANKS!\n")
            && (id in w.links ==>
                  forall i: nat :: i < |w.links[id].done| && w.links[id].done[i].request.Set? ==>
                    w.links[id].done[i].reply == "THANKS!\n")
  {
    hide Run, Latest;
    RunsAreExplained(es);
    LogInterleaves(es, id);
    var w := Run(es);
    if id in w.links {
      forall i: nat | i < |w.links[id].done| && w.links[id].done[i].request.Set?
        ensures w.links[id].done[i].reply == "THANKS!\n"
      {
        var j := DoneIsLogged(w.log, id, i);
      }
    }
  }

  lemma {:induction false} DoneIsLogged(log: seq<Logged>, id: nat, i: nat) returns (j: nat)
    requires i < |Project(log, id)|
    ensures j < |log| && log[j] == Logged(id, Project(log, id)[i])
    decreases |log|
  {
    var n := |log| - 1;
    if i < |Project(log[..n], id)| {
      j := DoneIsLogged(log[..n], id, i);
    } else {
      j := n;
    }
  }

  /** Every reply is one line. */
  lemma {:induction false} RepliesAreLines(es: seq<Event>, id: nat)
    requires id in Run(es).links
    ensures forall i :: 0 <= i < |Run(es).links[id].done| ==> IsLine(Run(es).links[id].done[i].reply)
    decreases |es|
  {
    hide Update, BookOk;
    if es != [] {
      var w, e := Run(es[..|es| - 1]), es[|es| - 1];
      if id in w.links {
        RepliesAreLines(es[..|es| - 1], id);
      }
      if e.Ready? && e.id == id && Serves(w, id) {
        var entries := Update(w.links[id].conn, w.book, e.io).entries;
        UpdateLogs(w.links[id].conn, w.book, e.io);
        if entries != [] {
          ReplyIsLine(entries[0].request, w.book);
        }
      }
    }
  }

  lemma ReplyIsLine(q: Request, book: Book)
    requires BookOk(book)
    ensures IsLine(Reply(q, book))
  {
  }

  // ---------- The log against the connections ----------

  /** The part of the log that belongs to one connection. */
  function Project(log: seq<Logged>, id: nat): seq<Entry> {
    if log == [] then []
    else Project(log[..|log| - 1], id) + if log[|log| - 1].id == id then [log[|log| - 1].entry] else []
  }

  lemma {:induction false} ProjectTag(log: seq<Logged>, id: nat, es: seq<Entry>, other: nat)
    ensures Project(log + Tag(id, es), other) == Project(log, other) + if id == other then es else []
    decreases |es|
  {
    if es == [] {
      assert log + Tag(id, es) == log;
    } else {
      var n := |es| - 1;
      ProjectTag(log, id, es[..n], other);
      assert (log + Tag(id, es))[..|log| + n] == log + Tag(id, es[..n]);
      assert es[..n] + [es[n]] == es;
    }
  }

  /** The log is an interleaving of what the connections have done, nothing lost or added. */
  lemma {:induction false} LogInterleaves(es: seq<Event>, id: nat)
    ensures var w := Run(es);
            Project(w.log, id) == if id in w.links then w.links[id].done else []
    decreases |es|
  {
    hide Update, BookOk, Project;
    if es == [] {
      ProjectNothing(id);
    } else {
      LogInterleaves(es[..|es| - 1], id);
      var w, e := Run(es[..|es| - 1]), es[|es| - 1];
      if e.Ready? && Serves(w, e.id) {
        ProjectTag(w.log, e.id, Update(w.links[e.id].conn, w.book, e.io).entries, id);
      }
    }
  }

  lemma ProjectNothing(id: nat)
    ensures Project([], id) == []
  {
  }
}
