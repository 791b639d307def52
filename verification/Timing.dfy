/** When the connections of a run have entered their phases (update_ts and its callers,
    unix_socket_api/src/astrolog.c:125-135, 212-216): the reference for their deadlines. A run is
    timed by the reading of the clock at the end of each event. */
module Timing {
  import opened Wire
  import opened LineSpec
  import opened Machine
  import opened Runs
  import opened Shared

  /** With the event `e` the connection `id` enters a phase: it is accepted, or it leaves the phase
      it was in. */
  ghost predicate Begins(w: World, e: Event, id: nat)
    requires Ok(w)
  {
    match e
    case Accept(other) => other == id && !w.hung && id !in w.links
    case Ready(other, io) =>
      other == id && Serves(w, id) && Leaves(w.links[id].conn.mode, io, Next(w, e).links[id].conn.mode)
    case Drop(_) => false
  }

  ghost predicate BeginsAt(es: seq<Event>, i: nat, id: nat) {
    i < |es| && Begins(Run(es[..i]), es[i], id)
  }

  /** When the connection `id` entered the phase it is in. */
  ghost function EnteredAt(es: seq<Event>, times: seq<int>, id: nat): Option<int>
    requires |times| == |es|
  {
    if es == [] then None
    else
      var n := |es| - 1;
      if Begins(Run(es[..n]), es[n], id) then Some(times[n]) else EnteredAt(es[..n], times[..n], id)
  }

  lemma EnteredMore(es: seq<Event>, times: seq<int>, e: Event, t: int, id: nat)
    requires |times| == |es|
    ensures EnteredAt(es + [e], times + [t], id) ==
            if Begins(Run(es), e, id) then Some(t) else EnteredAt(es, times, id)
  {
    hide Begins, Run;
    assert (es + [e])[..|es|] == es && (times + [t])[..|es|] == times;
  }

  /** It is the time of the last event with which the connection entered a phase. */
  lemma {:induction false} EnteredLast(es: seq<Event>, times: seq<int>, id: nat, t: int)
    requires |times| == |es|
    ensures EnteredAt(es, times, id) == Some(t) <==>
              exists i: nat :: BeginsAt(es, i, id) && times[i] == t && forall j: nat :: BeginsAt(es, j, id) ==> j <= i
    decreases |es|
  {
    hide Begins, Run;
    if es != [] {
      var n := |es| - 1;
      EnteredLast(es[..n], times[..n], id, t);
      forall i: nat | i < n
        ensures BeginsAt(es, i, id) <==> BeginsAt(es[..n], i, id)
      {
        assert es[..n][..i] == es[..i];
      }
      if BeginsAt(es, n, id) {
        assert forall i: nat :: BeginsAt(es, i, id) && i != n ==> i < n;
      }
    }
  }

  /** When the time of the connection `id` is over: 300 s after it entered the phase it is in if it is
      to read in it, and 180 s if it is to write. */
  ghost function DeadlineOf(es: seq<Event>, times: seq<int>, id: nat): Option<int>
    requires |times| == |es|
  {
    match EnteredAt(es, times, id)
    case Some(t) =>
      if id in Run(es).links then Some(t + Timeout(OpOf(Run(es).links[id].conn.mode))) else None
    case None => None
  }

  /** The connection `id` is being served, and its time is over at `t`. */
  ghost predicate RunsTo(es: seq<Event>, times: seq<int>, id: nat, t: int) {
    |times| == |es| && Serves(Run(es), id) && DeadlineOf(es, times, id) == Some(t)
  }

  /** Event number `i` drops a connection whose time for the phase it was in was over. */
  ghost predicate ExpiresAt(es: seq<Event>, times: seq<int>, i: nat)
    requires |times| == |es|
  {
    && i < |es| && es[i].Drop?
    && exists t :: RunsTo(es[..i], times[..i], es[i].id, t) && t <= times[i]
  }

  /** From the event `from` on, the events of a run are such drops, at the time `now`. */
  ghost predicate Swept(es: seq<Event>, times: seq<int>, from: nat, now: int) {
    && |times| == |es| && from <= |es|
    && forall i: nat :: from <= i < |es| ==> times[i] == now && ExpiresAt(es, times, i)
  }

  /** At `now` no connection that is being served has its time over. */
  ghost predicate NoneDue(es: seq<Event>, times: seq<int>, now: int) {
    && |times| == |es|
    && forall id: nat :: Serves(Run(es), id) ==> exists t :: RunsTo(es, times, id, t) && now < t
  }

  /** At `now`, `t` is how many milliseconds one may sleep: for ever if no connection is being served;
      otherwise not past the time of any connection, not at all if the time of one is over, and
      until less than a millisecond before the earliest. */
  ghost predicate SleepsWell(es: seq<Event>, times: seq<int>, now: int, t: int) {
    && |times| == |es|
    && (t == -1 <==> forall id: nat :: !Serves(Run(es), id))
    && (t != -1 ==>
          && 0 <= t <= 300000
          && (t > 0 ==> forall id: nat, d :: RunsTo(es, times, id, d) ==> now + t * MSEC_NS <= d)
          && exists id: nat, d :: RunsTo(es, times, id, d) && d < now + (t + 1) * MSEC_NS)
  }

  lemma ExpiresStill(es: seq<Event>, times: seq<int>, e: Event, t: int, i: nat)
    requires |times| == |es| && ExpiresAt(es, times, i)
    ensures ExpiresAt(es + [e], times + [t], i)
  {
    hide Run, RunsTo;
    assert (es + [e])[..i] == es[..i] && (times + [t])[..i] == times[..i];
  }

  /** While it is receiving, a connection that goes on leaves its phase if and only if the line it
      is waiting for has come in full: a part of a line moves no deadline. */
  lemma PhaseEndsWithLine(c: Conn, book: Book, io: Io)
    requires AtRest(c) && BookOk(book) && c.mode.Receiving? && io.recv.Got? && io.recv.bytes != []
    ensures var d := Update(c, book, io).conn;
            Live(d) ==> (Leaves(c.mode, io, d.mode) <==> NextLine(c.mode.line + io.recv.bytes).Line?)
  {
    hide Update, Drive, NextLine, BookOk, NoDelim, Classify;
    UpdateCases(c, book, io);
    DriveParses(Conn(c.mode, io.recv.bytes), book);
    StarMoves(c.mode.phase, c.mode.line + io.recv.bytes);
  }

  /** While it is sending, a connection that goes on leaves its phase if and only if all that was
      left of its reply has been sent: a part of a reply moves no deadline, either. */
  lemma PhaseEndsWithReply(c: Conn, book: Book, io: Io)
    requires AtRest(c) && BookOk(book) && c.mode.Sending?
    ensures var d := Update(c, book, io).conn;
            Live(d) ==> (Leaves(c.mode, io, d.mode) <==> Put(c, io) == c.mode.unsent)
  {
    hide Drive, BookOk, NoDelim, Update;
    UpdateCases(c, book, io);
    var unsent := c.mode.unsent;
    assert unsent[..|unsent|] == unsent;
  }

  /** In any run a connection that goes on enters a phase by an event if and only if the line that it
      was receiving has then come in full, or all its replies so far have then been sent in full. */
  lemma PhaseBegins(es: seq<Event>, i: nat, id: nat)
    requires i < |es| && es[i].Ready? && es[i].id == id && Serves(Run(es[..i]), id)
    requires Serves(Run(es[..i + 1]), id)
    ensures var before, after := Run(es[..i]).links[id], Run(es[..i + 1]).links[id];
            BeginsAt(es, i, id) <==>
              match before.conn.mode
              case Receiving(_, line) => es[i].io.recv.Got? && NextLine(line + es[i].io.recv.bytes).Line?
              case _ => after.sent == Replies(before.done)
  {
    hide Run, Update, BookOk, NextLine, NoDelim, Replies, Meaning;
    var w, io := Run(es[..i]), es[i].io;
    NextOf(es, i);
    var l := w.links[id];
    assert AtRest(l.conn);
    RunsAreFaithful(es[..i], id);
    UpdateEnds(l.conn, w.book, io);
    if l.conn.mode.Receiving? {
      PhaseEndsWithLine(l.conn, w.book, io);
    } else {
      PhaseEndsWithReply(l.conn, w.book, io);
      AllIsSent(l.sent, l.conn.mode.unsent, Put(l.conn, io), Replies(l.done));
    }
  }

  lemma NextOf(es: seq<Event>, i: nat)
    requires i < |es|
    ensures Run(es[..i + 1]) == Next(Run(es[..i]), es[i])
  {
    assert es[..i + 1][..i] == es[..i];
  }

  lemma AllIsSent(sent: string, unsent: string, put: string, all: string)
    requires sent + unsent == all
    ensures sent + put == all <==> put == unsent
  {
    assert (sent + put)[|sent|..] == put && (sent + unsent)[|sent|..] == unsent;
  }

  /** A line that comes in full takes a request to its second line or completes it. */
  lemma StarMoves(phase: Phase, s: string)
    ensures var r := ParseRequest(phase, s);
            match NextLine(s)
            case Line(_, _) => r.Incomplete? ==> phase == First && r.phase != First
            case _ => !r.Complete? && (r.Incomplete? ==> r.phase == phase)
  {
    hide NextLine, Classify;
    if NextLine(s).Line? && phase == First && Classify(NextLine(s).line).Star? {
      PrognosisStays(Classify(NextLine(s).line).z, NextLine(s).rest);
    }
  }
}
