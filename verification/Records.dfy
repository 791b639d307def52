/** The server's connection record (struct server_state, unix_socket_api/src/astrolog.c:42-52),
    with the two fixed buffers and the positions in them, and the reads and writes that work on
    them. `View` says which state of the abstract machine a record stands for. */
module Records {
  import opened Wire
  import opened LineSpec
  import opened Machine

  datatype StateType =
    | StateRecvFirstLine | StateRecvH | StateSendThanks | StateSendH | StateError | StateSuccess

  const ZODIAC_UNKNOWN: int := -1

  /** memchr for the delimiter in a[from..from + n]. */
  method Memchr(a: array<char>, from: nat, n: nat) returns (i: nat)
    requires from + n <= a.Length
    ensures i == IndexOf(a[from..from + n])
  {
    ghost var s := a[from..from + n];
    i := 0;
    while i < n
      invariant i <= n
      invariant forall j :: 0 <= j < i ==> s[j] != DELIM
    {
      if a[from + i] == DELIM {
        IndexOfIs(s, i);
        return;
      }
      assert s[i] == a[from + i];
      i := i + 1;
    }
    assert NoDelim(s);
  }

  /** What a call of buffered_recv_until_delim receives, depending on whether bytes are buffered. */
  function Heard(t: Tally, buffered: bool, recv: RecvResult): Tally {
    if buffered then t else Tally(t.calls + 1, t.received + if recv.Got? then recv.bytes else [], t.sent)
  }

  lemma SplitAt(a: array<char>, from: nat, to: nat, n: nat)
    requires from + n <= to <= a.Length
    ensures a[from..to][..n] == a[from..from + n] && a[from..to][n..] == a[from + n..to]
  {
  }

  lemma JoinAt(a: array<char>, at: nat, n: nat)
    requires at + n <= a.Length
    ensures a[..at + n] == a[..at] + a[at..at + n]
  {
  }

  class Connection {
    ghost const id: nat

    // struct buffer: bytes received but not yet looked at are data[pos..len]
    const data: array<char>
    var pos: nat
    var len: nat

    // the line being received is buf[..cur]; the reply bytes to be sent are buf[cur..cur + rem]
    const buf: array<char>
    var cur: nat
    var rem: nat

    var zodiacIx: int
    var state: StateType
    var op: Op
    var ts: int
    var heapIx: nat

    /** When the record last entered a phase of the protocol. */
    ghost var entered: int
    /** What recv and send have been called for. */
    ghost var tally: Tally

    /** create_server_state, up to the deadline. Buffer contents are whatever malloc returned. */
    constructor (ghost id: nat, slot: nat)
      ensures this.id == id && heapIx == slot && fresh(data) && fresh(buf)
      ensures Shaped() && View() == INITIAL && tally == Tally(0, [], [])
    {
      this.id := id;
      data := new char[BUF_LEN + 1];
      buf := new char[BUF_LEN + 1];
      pos, len := 0, 0;
      cur, rem := 0, BUF_LEN;
      zodiacIx := ZODIAC_UNKNOWN;
      state := StateRecvFirstLine;
      op := Read;
      heapIx := slot;
      ts, entered := 0, 0;
      tally := Tally(0, [], []);
      new;
      data[BUF_LEN] := '\0';
      buf[BUF_LEN] := '\0';
    }

    ghost predicate Shaped()
      reads `pos, `len, `cur, `rem, `zodiacIx, `state, `op
    {
      && data != buf && data.Length == BUF_LEN + 1 && buf.Length == BUF_LEN + 1
      && pos <= len <= BUF_LEN && cur + rem <= BUF_LEN
      && (state == StateRecvFirstLine || state == StateRecvH ==> op == Read && cur + rem == BUF_LEN)
      && (state == StateRecvH ==> 0 <= zodiacIx)
      && (state == StateSendThanks || state == StateSendH ==> op == Write)
      && (state == StateSuccess ==> op == Read)
    }

    ghost function View(): Conn
      requires Shaped()
      reads `pos, `len, `cur, `rem, `zodiacIx, `state, `op, data, buf
    {
      Conn(match state
           case StateRecvFirstLine => Receiving(First, buf[..cur])
           case StateRecvH => Receiving(Prognosis(zodiacIx), buf[..cur])
           case StateSendThanks => Sending(Thanks, buf[cur..cur + rem])
           case StateSendH => Sending(Horoscope, buf[cur..cur + rem])
           case StateError => Failed(op)
           case StateSuccess => Done,
           data[pos..len])
    }

    /** The assignments with which a handler moves the record to its next phase, the buffer being
        used from its start. */
    method Enter(state: StateType, op: Op, rem: nat, zodiacIx: int)
      modifies `cur, `rem, `zodiacIx, `state, `op
      ensures this.state == state && this.op == op && cur == 0 && this.rem == rem && this.zodiacIx == zodiacIx
    {
      cur := 0;
      this.rem := rem;
      this.zodiacIx := zodiacIx;
      this.state := state;
      this.op := op;
    }

    /** memcpy into buf. */
    method Fill(at: nat, bytes: string)
      requires at + |bytes| <= buf.Length
      modifies buf
      ensures buf[at..at + |bytes|] == bytes
      ensures buf[..at] == old(buf[..at])
    {
      forall i | 0 <= i < |bytes| { buf[at + i] := bytes[i]; }
    }

    /** The first half of buffered_recv_until_delim: recv is called only when nothing is
        buffered, and its result is returned when there is nothing to go on with. */
    method Refill(recv: RecvResult) returns (received: int)
      requires Shaped()
      modifies `pos, `len, `tally, data
      ensures Shaped()
      ensures tally == Heard(old(tally), old(pos != len), recv)
      ensures old(pos != len) ==> received > 0 && data[pos..len] == old(data[pos..len])
      ensures old(pos == len) && recv.RecvError? ==> received == -1 && pos == len
      ensures old(pos == len) && recv.Got? ==> received == |recv.bytes| && data[pos..len] == recv.bytes
    {
      if pos != len {
        return len - pos;
      }
      pos, len := 0, 0;
      tally := tally.(calls := tally.calls + 1);
      match recv {
        case RecvError => return -1;
        case Got(bytes) =>
          tally := tally.(received := tally.received + bytes);
          forall i | 0 <= i < |bytes| { data[i] := bytes[i]; }
          len := |bytes|;
          return len;
      }
    }

    /** How many buffered bytes are handed over: at most `rem`, up to the first delimiter. */
    method PieceSize() returns (size: nat)
      requires Shaped() && 0 < rem && pos < len
      ensures 0 < size == Delivered(rem, data[pos..len]) && size <= rem && size <= len - pos
    {
      size := len - pos;
      if rem < size {
        size := rem;
      }
      SplitAt(data, pos, len, size);
      var del := Memchr(data, pos, size);
      if del < size {
        size := del + 1;
      }
    }

    /** The second half: hands over a piece of what is buffered. */
    method Deliver() returns (received: nat)
      requires Shaped() && op == Read && 0 < rem && pos < len
      modifies `pos, buf
      ensures Shaped()
      ensures var avail := old(data[pos..len]);
              && 0 < received == Delivered(rem, avail)
              && buf[cur..cur + received] == avail[..received]
              && data[pos..len] == avail[received..]
      ensures buf[..cur] == old(buf[..cur])
    {
      hide Delivered, IndexOf;
      received := PieceSize();
      SplitAt(data, pos, len, received);
      Fill(cur, data[pos..pos + received]);
      pos := pos + received;
    }

    /** buffered_recv_until_delim into buf at cur_pos, wanting `rem` bytes. */
    method Fetch(recv: RecvResult) returns (received: int)
      requires Shaped() && op == Read && 0 < rem
      modifies `pos, `len, `tally, data, buf
      ensures Shaped()
      ensures tally == Heard(old(tally), old(pos != len), recv)
      ensures buf[..cur] == old(buf[..cur])
      ensures tally.calls == old(tally.calls) + (if old(pos == len) then 1 else 0)
      ensures tally.received == old(tally.received) + if old(pos == len) && recv.Got? then recv.bytes else []
      ensures old(pos == len) && recv.RecvError? ==> received == -1 && pos == len
      ensures old(pos == len) && recv == Got([]) ==> received == 0 && pos == len
      ensures old(pos != len) || (recv.Got? && recv.bytes != []) ==>
                var avail := if old(pos != len) then old(data[pos..len]) else recv.bytes;
                && 0 < received == Delivered(rem, avail)
                && buf[cur..cur + received] == avail[..received]
                && data[pos..len] == avail[received..]
    {
      hide Delivered;
      received := Refill(recv);
      if received > 0 {
        received := Deliver();
      }
    }

    /** cur_pos += n; rem -= n. */
    method Advance(n: nat)
      requires n <= rem
      modifies `cur, `rem
      ensures cur == old(cur) + n && rem == old(rem) - n
      ensures old(Shaped()) && op == Write ==> Shaped()
    {
      cur := cur + n;
      rem := rem - n;
    }

    /** The same, and the positions moved on. */
    method Gather(recv: RecvResult) returns (received: int, ghost avail: string)
      requires Shaped() && op == Read && 0 < rem
      modifies `pos, `len, `cur, `rem, `tally, data, buf
      ensures Shaped() && tally == Heard(old(tally), old(pos != len), recv)
      ensures avail == if old(pos != len) then old(data[pos..len]) else if recv.Got? then recv.bytes else []
      ensures avail == [] ==>
                && received == (if recv.RecvError? then -1 else 0) && pos == len
                && cur == old(cur) && buf[..cur] == old(buf[..cur])
      ensures avail != [] ==>
                && 0 < received == Delivered(old(rem), avail) && cur == old(cur) + received
                && buf[..cur] == old(buf[..cur]) + avail[..received] && data[pos..len] == avail[received..]
    {
      hide Delivered, Heard;
      avail := if pos != len then data[pos..len] else if recv.Got? then recv.bytes else [];
      received := Fetch(recv);
      if received > 0 {
        JoinAt(buf, cur, received);
        Advance(received);
      }
    }

    /** The common beginning of handle_first_line and handle_recv_h: more of the line. */
    method ReceiveMore(io: Io) returns (received: int)
      requires Shaped() && Live(View()) && op == Read
      modifies `pos, `len, `cur, `rem, `tally, data, buf
      ensures tally == Tallied(old(tally), old(View()), io)
      ensures Shaped() && View().mode.Receiving? && View().mode.phase == old(View()).mode.phase
      ensures var c := old(View());
              var avail := Available(c, io);
              if avail != [] then
                && received > 0 && Extended(c.mode.line, avail, View().mode.line, View().pending)
                && buf[..cur] == View().mode.line && cur > 0 && (rem == 0 <==> cur == BUF_LEN)
              else
                received == (if io.recv.RecvError? then -1 else 0) && View() == Conn(c.mode, [])
    {
      hide Delivered, NextLine, Extended, NoDelim, IndexOf, IsFirstDelim, Heard, Tallied;
      HeardIsTallied(io);
      ghost var line, avail := buf[..cur], Available(View(), io);
      if avail != [] {
        DeliveredExtends(line, avail);
      }
      ghost var got;
      received, got := Gather(io.recv);
      assert got == avail;
    }

    lemma HeardIsTallied(io: Io)
      requires Shaped() && Live(View()) && op == Read
      ensures Heard(tally, pos != len, io.recv) == Tallied(tally, View(), io)
    {
      hide NoDelim;
      assert tally.sent + [] == tally.sent;
    }

    lemma SentIsTallied(io: Io, n: nat)
      requires Shaped() && (state == StateSendThanks || state == StateSendH) && n <= rem
      ensures cur + rem <= buf.Length && View().mode.Sending? && |View().mode.unsent| == rem
      ensures Tallied(tally, View(), io) ==
              tally.(calls := tally.calls + 1, sent := tally.sent + Put(View(), io))
      ensures View().mode.unsent[..n] == buf[cur..cur + n]
    {
      SplitAt(buf, cur, cur + rem, n);
      assert tally.received + [] == tally.received;
    }

    /** send on what is left of the reply: the number of bytes taken, or -1. */
    method Send(io: Io) returns (bytes: int)
      requires Shaped() && (state == StateSendThanks || state == StateSendH)
      modifies `tally
      ensures tally == Tallied(old(tally), View(), io)
      ensures bytes == match io.send
                       case SendError => -1
                       case Accepts(n) => Accepted(n, View().mode.unsent)
      ensures io.send.Accepts? ==>
                && bytes == (if io.send.n < rem then io.send.n else rem) && cur + bytes <= buf.Length
                && tally.sent == old(tally.sent) + buf[cur..cur + bytes]
    {
      hide Connection.View, Connection.Shaped, Tallied;
      var n := match io.send case SendError => 0 case Accepts(n) => if n < rem then n else rem;
      SentIsTallied(io, n);
      tally := tally.(calls := tally.calls + 1, sent := tally.sent + buf[cur..cur + n]);
      bytes := if io.send.SendError? then -1 else n;
    }

    /** The common beginning of all replies: what send takes is not sent again. */
    method SendMore(io: Io) returns (bytes: int)
      requires Shaped() && (state == StateSendThanks || state == StateSendH)
      modifies `cur, `rem, `tally
      ensures Shaped() && tally == Tallied(old(tally), old(View()), io)
      ensures io.send.SendError? ==> bytes == -1 && View() == old(View())
      ensures io.send.Accepts? ==>
                && bytes >= 0 && View() == AfterSend(old(View()), io.send.n)
                && (rem == 0 <==> View().mode.unsent == []) && (rem == 0 && old(rem) > 0 ==> cur > 0)
      ensures io.send.Accepts? ==>
                && bytes == (if io.send.n < old(rem) then io.send.n else old(rem))
                && cur == old(cur) + bytes && rem == old(rem) - bytes && old(cur) <= cur <= buf.Length
                && tally.sent == old(tally.sent) + buf[old(cur)..cur]
    {
      hide Tallied, AfterSend, Accepted, Connection.View, Connection.Shaped;
      SentIsTallied(io, 0);
      bytes := Send(io);
      if bytes >= 0 {
        AheadInReply(View(), io.send.n);
        Skip(bytes);
      }
    }

    /** The rest of a reply starts that much later in the buffer. */
    method Skip(n: nat)
      requires Shaped() && (state == StateSendThanks || state == StateSendH) && n <= |View().mode.unsent|
      modifies `cur, `rem
      ensures Shaped()
      ensures var c := old(View()); View() == Conn(Sending(c.mode.kind, c.mode.unsent[n..]), c.pending)
      ensures (rem == 0 <==> View().mode.unsent == []) && (rem == 0 && old(rem) > 0 ==> cur > 0)
      ensures cur == old(cur) + n && rem == old(rem) - n
    {
      SplitAt(buf, cur, cur + rem, n);
      Advance(n);
    }

    lemma AheadInReply(v: Conn, n: nat)
      requires v.mode.Sending?
      ensures Accepted(n, v.mode.unsent) <= |v.mode.unsent|
      ensures AfterSend(v, n) == Conn(Sending(v.mode.kind, v.mode.unsent[Accepted(n, v.mode.unsent)..]), v.pending)
    {
    }

    /** s->state = STATE_ERROR. */
    method Fail()
      requires Shaped()
      modifies `state
      ensures Shaped() && View() == Conn(Failed(op), old(View()).pending)
    {
      state := StateError;
    }

    /** s->state = STATE_SUCCESS. */
    method Succeed()
      requires Shaped() && op == Read
      modifies `state
      ensures Shaped() && View() == Conn(Done, old(View()).pending)
    {
      state := StateSuccess;
    }

    /** What the state of a record says about what it stands for. */
    lemma StateSays()
      requires Shaped()
      ensures state == StateRecvFirstLine ==> View().mode == Receiving(First, buf[..cur]) && op == Read
      ensures state == StateRecvH ==> View().mode == Receiving(Prognosis(zodiacIx), buf[..cur]) && op == Read
      ensures state == StateSendThanks || state == StateSendH ==> View().mode.Sending? && op == Write
      ensures state == StateSendThanks || state == StateSendH ==> |View().mode.unsent| == rem && (Live(View()) ==> rem > 0)
      ensures op == Read ==> (Guard(View()) <==> pos != len)
      ensures op == Write && Live(View()) ==> state == StateSendThanks || state == StateSendH
      ensures cur + rem <= BUF_LEN < buf.Length
    {
    }
  }
}
