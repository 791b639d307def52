/** The Boost.Asio proxy (boost_asio/src/proxy.cpp): a connection object and its handlers. */
module BoostProxy {
  import opened Wire
  import opened BoostServer

  /** The kinds of I/O operation that a proxy connection starts. */
  datatype ProxyIo = ReadingRequest | WritingRequest | ReadingResponse | WritingResponse

  predicate FromStar(line: string) {
    STAR_REQUEST <= line
  }

  /** Whatever the zodiac and the padding, the line of a star is one from a star, and that of a client
      that asks is not. */
  lemma StarsAreStars(zodiac: string, padding: string)
    ensures FromStar("STARS SAY " + zodiac + padding) && !FromStar("HOROSCOPE " + zodiac + padding)
  {
    var star, client := "STARS SAY " + zodiac + padding, "HOROSCOPE " + zodiac + padding;
    assert star[..|STAR_REQUEST|] == STAR_REQUEST;
    assert client[0] != STAR_REQUEST[0];
  }

  /** A star's line, refused, with whatever it sent besides; or any other line, passed on behind what
      the server had sent too much before. */
  datatype ProxyWhat = Refused(line: string, dropped: string) | Passed(line: string, left: string)

  /** Stars are refused and all others are passed on, one line at a time, and answered with one
      line. */
  predicate Proper(x: Served<ProxyWhat>) {
    && NoDelim(x.what.line)
    && match x.what
       case Refused(line, dropped) =>
         FromStar(line) && x.asked == line + [DELIM] + dropped && x.rest == [] && x.response == RESPONSE_FAILURE
       case Passed(line, _) => !FromStar(line) && x.asked == line + [DELIM] && NoDelim(x.response)
  }

  predicate AllProper(log: seq<Served<ProxyWhat>>) {
    forall i :: 0 <= i < |log| ==> Proper(log[i])
  }

  lemma OnlyStarsRefused(log: seq<Served<ProxyWhat>>)
    requires AllProper(log)
    ensures forall i :: 0 <= i < |log| ==>
              && (log[i].what.Refused? <==> "STARS SAY " <= log[i].what.line)
              && (log[i].what.Refused? ==> log[i].response == "DENIED!")
  {
  }

  /** All that the exchanges put on the link to the server, ... */
  function PutOf(log: seq<Served<ProxyWhat>>): string {
    if log == [] then []
    else PutOf(log[..|log| - 1])
         + match log[|log| - 1].what
           case Refused(_, _) => []
           case Passed(line, left) => left + line + [DELIM]
  }

  /** ... and all that they took off it. */
  function TookOf(log: seq<Served<ProxyWhat>>): string {
    if log == [] then []
    else TookOf(log[..|log| - 1])
         + match log[|log| - 1].what
           case Refused(_, _) => []
           case Passed(_, left) => left + log[|log| - 1].response + [DELIM]
  }

  lemma LinkMore(log: seq<Served<ProxyWhat>>, x: Served<ProxyWhat>)
    ensures x.what.Refused? ==> PutOf(log + [x]) == PutOf(log) && TookOf(log + [x]) == TookOf(log)
    ensures x.what.Passed? ==>
              && PutOf(log + [x]) == PutOf(log) + (x.what.left + x.what.line + [DELIM])
              && TookOf(log + [x]) == TookOf(log) + (x.what.left + x.response + [DELIM])
  {
    assert (log + [x])[..|log|] == log;
    assert PutOf(log) + [] == PutOf(log) && TookOf(log) + [] == TookOf(log);
  }

  /** What may happen to a connection. A step that is not possible at the time is skipped. */
  datatype ProxyStep =
    | FromClient(bytes: string) | FromServer(bytes: string) | ToClient(n: nat) | ToServer(n: nat)
    | Completes(op: ProxyIo, error: bool)
    | Times(aborted: bool)

  /** A connection as a value. */
  datatype ProxyState = ProxyState(
    clientBuffer: string, connectionBuffer: string, open: bool, ops: multiset<ProxyIo>, waits: nat, got: string,
    wrote: string, log: seq<Served<ProxyWhat>>, first: string, heard: string, told: string, left: string)

  ghost predicate At(s: ProxyState, op: ProxyIo) {
    s.open && s.ops == multiset{op}
  }

  /** A step is possible: bytes arrive while a read is outstanding and leave while a write is, the
      handler of a read needs a whole line and that of a write an empty buffer unless they fail, and
      a timer has to be waited for. */
  ghost predicate ProxyMay(s: ProxyState, step: ProxyStep) {
    match step
    case FromClient(_) => At(s, ReadingRequest)
    case FromServer(_) => At(s, ReadingResponse)
    case ToClient(n) => At(s, WritingResponse) && n <= |s.clientBuffer|
    case ToServer(n) => At(s, WritingRequest) && n <= |s.connectionBuffer|
    case Completes(op, error) =>
      op in s.ops && (s.open && !error ==>
                        match op
                        case ReadingRequest => !NoDelim(s.clientBuffer)
                        case WritingRequest => s.connectionBuffer == []
                        case ReadingResponse => !NoDelim(s.connectionBuffer)
                        case WritingResponse => s.clientBuffer == [])
    case Times(_) => s.waits > 0
  }

  /** The step takes the connection from `s` to `t`. */
  ghost predicate ProxyTakes(s: ProxyState, step: ProxyStep, t: ProxyState)
    requires ProxyMay(s, step)
  {
    match step
    case FromClient(bytes) => t == s.(clientBuffer := s.clientBuffer + bytes, got := s.got + bytes)
    case FromServer(bytes) => t == s.(connectionBuffer := s.connectionBuffer + bytes, heard := s.heard + bytes)
    case ToClient(n) => t == s.(clientBuffer := s.clientBuffer[n..], wrote := s.wrote + s.clientBuffer[..n])
    case ToServer(n) => t == s.(connectionBuffer := s.connectionBuffer[n..], told := s.told + s.connectionBuffer[..n])
    case Completes(op, error) =>
      if s.open && !error then ProxyHandled(s, op, t) else t == s.(open := false, ops := multiset{})
    case Times(aborted) => t == if s.open && aborted then s else s.(open := false, waits := s.waits - 1)
  }

  /** What the handlers do when nothing has failed. */
  ghost predicate ProxyHandled(s: ProxyState, op: ProxyIo, t: ProxyState)
    requires op == ReadingRequest ==> !NoDelim(s.clientBuffer)
    requires op == ReadingResponse ==> !NoDelim(s.connectionBuffer)
  {
    match op
    case ReadingRequest =>
      var line, rest := FirstLineOf(s.clientBuffer), AfterLine(s.clientBuffer);
      if FromStar(line) then
        t == ProxyResponded(s, Served(line + [DELIM] + rest, [], RESPONSE_FAILURE, Refused(line, rest)))
      else
        t == s.(clientBuffer := rest, connectionBuffer := s.connectionBuffer + line + [DELIM],
                first := line, left := s.connectionBuffer, ops := multiset{WritingRequest})
    case WritingRequest => t == s.(ops := multiset{ReadingResponse})
    case ReadingResponse =>
      var response, rest := FirstLineOf(s.connectionBuffer), AfterLine(s.connectionBuffer);
      t == ProxyResponded(s.(connectionBuffer := rest),
                     Served(s.first + [DELIM], s.clientBuffer, response, Passed(s.first, s.left)))
    case WritingResponse => t == s.(ops := multiset{ReadingRequest})
  }

  function ProxyResponded(s: ProxyState, x: Served<ProxyWhat>): ProxyState {
    s.(clientBuffer := x.rest + x.response + [DELIM], ops := multiset{WritingResponse}, log := s.log + [x])
  }

  /** A step that is possible is taken, and any other is skipped. */
  ghost predicate ProxyGoes(s: ProxyState, step: ProxyStep, t: ProxyState) {
    if ProxyMay(s, step) then ProxyTakes(s, step, t) else t == s
  }

  class ProxyConnection {
    var clientBuffer: string
    var connectionBuffer: string
    /** Both sockets are open. */
    var open: bool
    /** The I/O operations whose handlers have not run yet, and the number of such timer waits. */
    var ops: multiset<ProxyIo>
    var waits: nat
    /** How many handlers have run since the connection was stopped. */
    ghost var late: nat

    /** All that was received from the client and all that was sent to it, the exchanges with it,
        and the line of the one in work. */
    ghost var got: string
    ghost var wrote: string
    ghost var log: seq<Served<ProxyWhat>>
    ghost var first: string

    /** All that was received from the server and all that was sent to it, and what was in the
        buffer before the line in work. */
    ghost var heard: string
    ghost var told: string
    ghost var left: string

    /** While the connection is open exactly one I/O operation and one timer wait are outstanding.
        It is always stopped by one of its own handlers, so one handler more runs then. */
    ghost predicate Valid()
      reads this
    {
      && |ops| <= 1 && waits <= 1
      && (open ==> |ops| == 1 && waits == 1 && late == 0)
      && (!open ==> late + |ops| + waits == 1)
      && Accounted() && LinkAccounted() && AllProper(log)
      && (Doing(WritingRequest) || Doing(ReadingResponse) ==> NoDelim(first) && !FromStar(first))
    }

    /** What was received from the server has been taken by the exchanges or is still in the buffer;
        what was sent to it is the lines passed on. */
    ghost predicate LinkAccounted()
      reads this
    {
      var asking := left + first + [DELIM];
      && (Doing(ReadingRequest) || Doing(WritingResponse) ==>
            heard == TookOf(log) + connectionBuffer && told == PutOf(log))
      && (Doing(WritingRequest) ==> heard == TookOf(log) + left && told + connectionBuffer == PutOf(log) + asking)
      && (Doing(ReadingResponse) ==>
            heard == TookOf(log) + left + connectionBuffer && told == PutOf(log) + asking)
      && (!open ==> TookOf(log) <= heard && told <= PutOf(log) + asking)
    }

    /** What was received from the client has been taken by the exchanges or is in work; what was
        sent to it is what the exchanges say, up to what has still to be sent. */
    ghost predicate Accounted()
      reads this
    {
      && (Doing(ReadingRequest) ==> got == InputOf(log) + clientBuffer && wrote == OutputOf(log))
      && (Doing(WritingRequest) || Doing(ReadingResponse) ==>
            got == InputOf(log) + first + [DELIM] + clientBuffer && wrote == OutputOf(log))
      && (Doing(WritingResponse) ==> got == InputOf(log) && wrote + clientBuffer == OutputOf(log))
      && (!open ==> InputOf(log) <= got && wrote <= OutputOf(log))
    }

    ghost function Now(): ProxyState
      reads this
    {
      ProxyState(clientBuffer, connectionBuffer, open, ops, waits, got, wrote, log, first, heard, told, left)
    }

    function Outstanding(): nat
      reads this
    {
      |ops| + waits
    }

    /** The connection is open, and `op` is what it is waiting for. */
    predicate Doing(op: ProxyIo)
      reads this
    {
      open && ops == multiset{op}
    }

    /** start, on a connected and accepted pair of sockets. */
    constructor ()
      ensures Valid() && Doing(ReadingRequest) && clientBuffer == [] && connectionBuffer == []
      ensures got == [] && wrote == [] && log == [] && heard == [] && told == [] && first == [] && left == []
    {
      clientBuffer, connectionBuffer := [], [];
      open := true;
      ops := multiset{};
      waits, late := 0, 0;
      got, wrote, log, first := [], [], [], [];
      heard, told, left := [], [], [];
      new;
      Start(ReadingRequest);
      StartWaitDeadline();
    }

    method Stop()
      modifies `open
      ensures !open
    {
      open := false;
    }

    /** async_read_until or async_write. */
    method Start(op: ProxyIo)
      modifies `ops
      ensures ops == old(ops) + multiset{op}
    {
      ops := ops + multiset{op};
    }

    method StartWaitDeadline()
      modifies `waits
      ensures waits == old(waits) + 1
    {
      waits := waits + 1;
    }

    /** An operation is over, and its handler runs. */
    method Complete(op: ProxyIo)
      requires op in ops
      modifies `ops, `late
      ensures ops == old(ops) - multiset{op} && late == old(late) + if open then 0 else 1
    {
      ops := ops - multiset{op};
      late := late + if open then 0 else 1;
    }

    /** A timer wait is over, and its handler runs. */
    method CompleteWait()
      requires waits > 0
      modifies `waits, `late
      ensures waits == old(waits) - 1 && late == old(late) + if open then 0 else 1
    {
      waits := waits - 1;
      late := late + if open then 0 else 1;
    }

    /** async_read_until on the client receives something. */
    method ClientArrives(bytes: string)
      requires Valid() && Doing(ReadingRequest)
      modifies `clientBuffer, `got
      ensures Valid() && clientBuffer == old(clientBuffer) + bytes && got == old(got) + bytes
      ensures ProxyGoes(old(Now()), FromClient(bytes), Now())
    {
      hide InputOf, OutputOf, AllProper, NoDelim, ProxyConnection.LinkAccounted;
      clientBuffer := clientBuffer + bytes;
      got := got + bytes;
      assert InputOf(log) + old(clientBuffer) + bytes == InputOf(log) + clientBuffer;
      StillLinked();
    }

    /** async_write to the client sends something. */
    method ClientLeaves(n: nat)
      requires Valid() && Doing(WritingResponse) && n <= |clientBuffer|
      modifies `clientBuffer, `wrote
      ensures Valid() && clientBuffer == old(clientBuffer)[n..] && wrote == old(wrote) + old(clientBuffer)[..n]
      ensures ProxyGoes(old(Now()), ToClient(n), Now())
    {
      hide InputOf, OutputOf, AllProper, NoDelim, ProxyConnection.LinkAccounted;
      wrote := wrote + clientBuffer[..n];
      clientBuffer := clientBuffer[n..];
      assert wrote + clientBuffer == old(wrote) + old(clientBuffer);
      StillLinked();
    }

    /** What goes to and from the client does not concern the link, ... */
    twostate lemma StillLinked()
      requires old(LinkAccounted())
      requires open == old(open) && ops == old(ops) && connectionBuffer == old(connectionBuffer) && log == old(log)
      requires heard == old(heard) && told == old(told) && left == old(left) && first == old(first)
      ensures LinkAccounted()
    {
      hide PutOf, TookOf;
    }

    /** ... nor the other way round. */
    twostate lemma StillAccounted()
      requires old(Accounted())
      requires open == old(open) && ops == old(ops) && clientBuffer == old(clientBuffer) && log == old(log)
      requires got == old(got) && wrote == old(wrote) && first == old(first)
      ensures Accounted()
    {
      hide InputOf, OutputOf;
    }

    /** async_read_until on the server receives something. */
    method ServerArrives(bytes: string)
      requires Valid() && Doing(ReadingResponse)
      modifies `connectionBuffer, `heard
      ensures Valid() && connectionBuffer == old(connectionBuffer) + bytes && heard == old(heard) + bytes
      ensures ProxyGoes(old(Now()), FromServer(bytes), Now())
    {
      hide PutOf, TookOf, AllProper, NoDelim, ProxyConnection.Accounted;
      connectionBuffer := connectionBuffer + bytes;
      heard := heard + bytes;
      assert TookOf(log) + left + old(connectionBuffer) + bytes == TookOf(log) + left + connectionBuffer;
      StillAccounted();
    }

    /** async_write to the server sends something. */
    method ServerLeaves(n: nat)
      requires Valid() && Doing(WritingRequest) && n <= |connectionBuffer|
      modifies `connectionBuffer, `told
      ensures Valid() && connectionBuffer == old(connectionBuffer)[n..] && told == old(told) + old(connectionBuffer)[..n]
      ensures ProxyGoes(old(Now()), ToServer(n), Now())
    {
      hide PutOf, TookOf, AllProper, NoDelim, ProxyConnection.Accounted;
      told := told + connectionBuffer[..n];
      connectionBuffer := connectionBuffer[n..];
      assert told + connectionBuffer == old(told) + old(connectionBuffer);
      StillAccounted();
    }

    /** Whatever the connection is doing, if it is stopped now what was sent was due. */
    lemma WhenStopped()
      requires Valid()
      ensures InputOf(log) <= got && wrote <= OutputOf(log)
      ensures TookOf(log) <= heard && told <= PutOf(log) + (left + first + [DELIM])
    {
      hide InputOf, OutputOf, PutOf, TookOf, AllProper, NoDelim;
      if open {
        var op :| op in ops;
        OnlyOne(ops, op);
        match op {
          case ReadingRequest => assert Doing(ReadingRequest);
          case WritingRequest =>
            assert Doing(WritingRequest);
            assert got == InputOf(log) + (first + [DELIM] + clientBuffer);
            assert told <= told + connectionBuffer;
          case ReadingResponse =>
            assert Doing(ReadingResponse);
            assert got == InputOf(log) + (first + [DELIM] + clientBuffer);
            assert heard == TookOf(log) + (left + connectionBuffer);
          case WritingResponse =>
            assert Doing(WritingResponse);
            assert wrote <= wrote + clientBuffer;
        }
      }
    }

    /** `asked` has been taken out of the client's buffer, and nothing is outstanding but the
        timer. */
    ghost predicate HasTaken(asked: string, rest: string)
      reads this
    {
      && open && ops == multiset{} && waits == 1 && late == 0 && AllProper(log)
      && clientBuffer == rest && got == InputOf(log) + (asked + rest) && wrote == OutputOf(log)
    }

    /** The response goes behind what the buffer holds, and all of it is sent. */
    method Respond(ghost x: Served<ProxyWhat>, response: string)
      requires HasTaken(x.asked, x.rest) && response == x.response && Proper(x)
      requires told == PutOf(log + [x]) && heard == TookOf(log + [x]) + connectionBuffer
      modifies `ops, `clientBuffer, `log
      ensures Valid() && Doing(WritingResponse) && clientBuffer == x.rest + response + [DELIM]
      ensures log == old(log) + [x]
    {
      hide InputOf, OutputOf, PutOf, TookOf, NoDelim, Proper;
      ServedMore(log, x);
      assert OutputOf(log) + x.rest + response + [DELIM] == OutputOf(log) + (x.rest + response + [DELIM]);
      assert InputOf(log) + x.asked + x.rest == InputOf(log) + (x.asked + x.rest);
      clientBuffer := clientBuffer + response + [DELIM];
      log := log + [x];
      Start(WritingResponse);
    }

    /** The branch of handleReadRequest for a star: it is refused, and whatever it sent besides is
        dropped. */
    method Refuse(ghost line: string, ghost rest: string)
      requires HasTaken(line + [DELIM], rest) && NoDelim(line) && FromStar(line)
      requires heard == TookOf(log) + connectionBuffer && told == PutOf(log)
      modifies `ops, `clientBuffer, `log
      ensures Valid() && Doing(WritingResponse) && clientBuffer == RESPONSE_FAILURE + [DELIM]
      ensures log == old(log) + [Served(line + [DELIM] + rest, [], RESPONSE_FAILURE, Refused(line, rest))]
    {
      hide InputOf, OutputOf, PutOf, TookOf, NoDelim, AllProper;
      ghost var x := Served(line + [DELIM] + rest, [], RESPONSE_FAILURE, Refused(line, rest));
      LinkMore(log, x);
      clientBuffer := [];
      assert x.asked + [] == x.asked;
      Respond(x, RESPONSE_FAILURE);
      assert [] + RESPONSE_FAILURE + [DELIM] == RESPONSE_FAILURE + [DELIM];
    }

    /** The branch for any other line. */
    method Forward(line: string, ghost rest: string)
      requires HasTaken(line + [DELIM], rest) && NoDelim(line) && !FromStar(line)
      requires heard == TookOf(log) + connectionBuffer && told == PutOf(log)
      modifies `ops, `connectionBuffer, `first, `left
      ensures Valid() && Doing(WritingRequest) && first == line && left == old(connectionBuffer)
      ensures connectionBuffer == left + line + [DELIM]
    {
      hide InputOf, OutputOf, PutOf, TookOf, NoDelim, AllProper;
      first := line;
      left := connectionBuffer;
      assert InputOf(log) + first + [DELIM] + rest == InputOf(log) + (first + [DELIM] + rest);
      connectionBuffer := connectionBuffer + line + [DELIM];
      Start(WritingRequest);
    }

    /** The common beginning of all I/O handlers: they do nothing once the connection is stopped, and
        stop it on an error. */
    method Resume(op: ProxyIo, error: bool) returns (go: bool)
      requires Valid() && op in ops
      modifies `ops, `late, `open
      ensures go <==> old(open) && !error
      ensures ops == multiset{} && open == go && (go ==> late == old(late)) && (!go ==> Valid())
      ensures old(ops) == multiset{op}
    {
      hide InputOf, OutputOf, PutOf, TookOf, AllProper, NoDelim;
      WhenStopped();
      OnlyOne(ops, op);
      Complete(op);
      if !open {
        return false;
      }
      if error {
        Stop();
        return false;
      }
      go := true;
    }

    /** handleReadRequest: a star is refused, any other line is forwarded. */
    method HandleReadRequest(error: bool)
      requires Valid() && ReadingRequest in ops && (open && !error ==> !NoDelim(clientBuffer))
      modifies this
      ensures Valid() && waits == old(waits) && got == old(got) && wrote == old(wrote)
      ensures heard == old(heard) && told == old(told)
      ensures old(!open) || error ==>
                !open && ops == multiset{} && connectionBuffer == old(connectionBuffer)
                && clientBuffer == old(clientBuffer) && log == old(log) && first == old(first) && left == old(left)
      ensures old(open) && !error ==>
                var line, rest := FirstLineOf(old(clientBuffer)), AfterLine(old(clientBuffer));
                if FromStar(line) then
                  Doing(WritingResponse) && clientBuffer == RESPONSE_FAILURE + [DELIM]
                  && connectionBuffer == old(connectionBuffer) && first == old(first) && left == old(left)
                  && log == old(log)
                            + [Served(line + [DELIM] + rest, [], RESPONSE_FAILURE, Refused(line, rest))]
                else
                  Doing(WritingRequest) && clientBuffer == rest && first == line && left == old(connectionBuffer)
                  && connectionBuffer == left + line + [DELIM] && log == old(log)
      ensures ProxyGoes(old(Now()), ProxyStep.Completes(ReadingRequest, error), Now())
    {
      hide InputOf, OutputOf, PutOf, TookOf, AllProper, FirstLineOf, AfterLine, NoDelim, IndexOf, FromStar;
      var go := Resume(ReadingRequest, error);
      if !go {
        return;
      }
      var line, rest := GetLine(clientBuffer);
      clientBuffer := rest;
      PassOn(line, rest);
    }

    /** The branches of handleReadRequest for a line that has come in full. */
    method PassOn(line: string, ghost rest: string)
      requires HasTaken(line + [DELIM], rest) && NoDelim(line)
      requires heard == TookOf(log) + connectionBuffer && told == PutOf(log)
      modifies `ops, `connectionBuffer, `clientBuffer, `first, `left, `log
      ensures Valid()
      ensures if FromStar(line) then
                Doing(WritingResponse) && clientBuffer == RESPONSE_FAILURE + [DELIM]
                && connectionBuffer == old(connectionBuffer) && first == old(first) && left == old(left)
                && log == old(log)
                          + [Served(line + [DELIM] + rest, [], RESPONSE_FAILURE, Refused(line, rest))]
              else
                Doing(WritingRequest) && clientBuffer == rest && first == line && left == old(connectionBuffer)
                && connectionBuffer == left + line + [DELIM] && log == old(log)
    {
      hide InputOf, OutputOf, PutOf, TookOf, AllProper, NoDelim, ProxyConnection.Valid;
      if STAR_REQUEST <= line {
        Refuse(line, rest);
      } else {
        Forward(line, rest);
      }
    }

    /** handleWriteRequest. */
    method HandleWriteRequest(error: bool)
      requires Valid() && WritingRequest in ops && (open && !error ==> connectionBuffer == [])
      modifies this
      ensures Valid() && waits == old(waits) && got == old(got) && wrote == old(wrote) && log == old(log)
      ensures heard == old(heard) && told == old(told) && left == old(left)
      ensures connectionBuffer == old(connectionBuffer) && clientBuffer == old(clientBuffer) && first == old(first)
      ensures if old(open) && !error then Doing(ReadingResponse) else !open && ops == multiset{}
      ensures ProxyGoes(old(Now()), ProxyStep.Completes(WritingRequest, error), Now())
    {
      hide InputOf, OutputOf, PutOf, TookOf, AllProper, NoDelim;
      assert told + [] == told && TookOf(log) + left + [] == TookOf(log) + left;
      var go := Resume(WritingRequest, error);
      if !go {
        return;
      }
      Start(ReadingResponse);
    }

    /** handleReadResponse. The response is put behind whatever the client buffer still holds. */
    method HandleReadResponse(error: bool)
      requires Valid() && ReadingResponse in ops && (open && !error ==> !NoDelim(connectionBuffer))
      modifies this
      ensures Valid() && waits == old(waits) && got == old(got) && wrote == old(wrote)
      ensures heard == old(heard) && told == old(told) && first == old(first) && left == old(left)
      ensures old(!open) || error ==>
                !open && ops == multiset{} && connectionBuffer == old(connectionBuffer)
                && clientBuffer == old(clientBuffer) && log == old(log)
      ensures old(open) && !error ==>
                var response := FirstLineOf(old(connectionBuffer));
                && Doing(WritingResponse)
                && connectionBuffer == AfterLine(old(connectionBuffer))
                && clientBuffer == old(clientBuffer) + response + [DELIM]
                && log == old(log)
                          + [Served(old(first) + [DELIM], old(clientBuffer), response, Passed(old(first), old(left)))]
      ensures ProxyGoes(old(Now()), ProxyStep.Completes(ReadingResponse, error), Now())
    {
      hide InputOf, OutputOf, PutOf, TookOf, AllProper, FirstLineOf, AfterLine, NoDelim, IndexOf;
      var go := Resume(ReadingResponse, error);
      if !go {
        return;
      }
      var line, rest := GetLine(connectionBuffer);
      ghost var x := Served(first + [DELIM], clientBuffer, line, Passed(first, left));
      LinkMore(log, x);
      assert TookOf(log) + left + (line + [DELIM] + rest) == TookOf(log) + (left + line + [DELIM]) + rest;
      connectionBuffer := rest;
      assert InputOf(log) + first + [DELIM] + clientBuffer == InputOf(log) + (first + [DELIM] + clientBuffer);
      Respond(x, line);
    }

    /** handleWriteResponse. */
    method HandleWriteResponse(error: bool)
      requires Valid() && WritingResponse in ops && (open && !error ==> clientBuffer == [])
      modifies this
      ensures Valid() && waits == old(waits) && got == old(got) && wrote == old(wrote) && log == old(log)
      ensures heard == old(heard) && told == old(told) && first == old(first) && left == old(left)
      ensures connectionBuffer == old(connectionBuffer) && clientBuffer == old(clientBuffer)
      ensures if old(open) && !error then Doing(ReadingRequest) else !open && ops == multiset{}
      ensures ProxyGoes(old(Now()), ProxyStep.Completes(WritingResponse, error), Now())
    {
      hide InputOf, OutputOf, PutOf, TookOf, AllProper, NoDelim;
      assert wrote + [] == wrote && InputOf(log) + [] == InputOf(log);
      var go := Resume(WritingResponse, error);
      if !go {
        return;
      }
      Start(ReadingRequest);
    }

    /** handleDeadline: a wait that was cut short by a new deadline is started again. */
    method HandleDeadline(aborted: bool)
      requires Valid() && waits > 0
      modifies this
      ensures Valid() && ops == old(ops) && got == old(got) && wrote == old(wrote) && log == old(log)
      ensures heard == old(heard) && told == old(told) && left == old(left) && first == old(first)
      ensures connectionBuffer == old(connectionBuffer) && clientBuffer == old(clientBuffer)
      ensures open <==> old(open) && aborted
      ensures waits == if open then 1 else 0
      ensures ProxyGoes(old(Now()), ProxyStep.Times(aborted), Now())
    {
      hide InputOf, OutputOf, PutOf, TookOf, AllProper, NoDelim;
      WhenStopped();
      CompleteWait();
      if !open {
        return;
      }
      if aborted {
        StartWaitDeadline();
      } else {
        Stop();
      }
    }

    /** Whether the handler of `op` can run: a read needs a whole line, a write is over when all
        has been written, and both may fail at any time. */
    predicate Runnable(op: ProxyIo, error: bool)
      reads this
    {
      op in ops && (open && !error ==>
                      match op
                      case ReadingRequest => !NoDelim(clientBuffer)
                      case WritingRequest => connectionBuffer == []
                      case ReadingResponse => !NoDelim(connectionBuffer)
                      case WritingResponse => clientBuffer == [])
    }

    /** Any I/O handler: it keeps the number of outstanding operations while the connection is
        open, and starts nothing once it is stopped. */
    method Handle(op: ProxyIo, error: bool)
      requires Valid() && Runnable(op, error)
      modifies this
      ensures Valid() && waits == old(waits) && (old(!open) ==> !open) && old(log) <= log
      ensures got == old(got) && wrote == old(wrote) && heard == old(heard) && told == old(told)
      ensures Outstanding() == old(Outstanding()) - if open then 0 else 1
      ensures ProxyGoes(old(Now()), ProxyStep.Completes(op, error), Now())
    {
      hide InputOf, OutputOf, ProxyConnection.Accounted, ProxyConnection.LinkAccounted, AllProper, ProxyGoes;
      hide FirstLineOf, AfterLine, NoDelim;
      OnlyOne(ops, op);
      match op {
        case ReadingRequest => HandleReadRequest(error);
        case WritingRequest => HandleWriteRequest(error);
        case ReadingResponse => HandleReadResponse(error);
        case WritingResponse => HandleWriteResponse(error);
      }
    }

    /** One step, if it is possible. */
    method Take(step: ProxyStep)
      requires Valid()
      modifies this
      ensures Valid() && old(log) <= log
      ensures ProxyGoes(old(Now()), step, Now())
    {
      hide NoDelim, InputOf, OutputOf, PutOf, TookOf, AllProper, ProxyConnection.Valid, ProxyTakes;
      match step {
        case FromClient(bytes) =>
          if Doing(ReadingRequest) { ClientArrives(bytes); }
        case FromServer(bytes) =>
          if Doing(ReadingResponse) { ServerArrives(bytes); }
        case ToClient(n) =>
          if Doing(WritingResponse) && n <= |clientBuffer| { ClientLeaves(n); }
        case ToServer(n) =>
          if Doing(WritingRequest) && n <= |connectionBuffer| { ServerLeaves(n); }
        case Completes(op, error) =>
          if Runnable(op, error) { Handle(op, error); }
        case Times(aborted) =>
          if waits > 0 { HandleDeadline(aborted); }
      }
    }

    /** Any run of a connection, whatever server there is behind it. Every step that is possible is
        taken: `states` are the states in between. While the connection is open, one I/O operation and
        one timer wait are outstanding; once it is stopped, one handler more runs and starts nothing.
        Stars are refused and no one else. All that has been sent to the client is the refusals and the
        lines taken off the link, each behind what was in the buffer, up to what is still to be sent;
        and all that has been put on the link is the lines of clients that are no stars. */
    method Run(steps: seq<ProxyStep>) returns (ghost states: seq<ProxyState>)
      requires Valid() && open
      modifies this
      ensures |states| == |steps| + 1 && states[0] == old(Now()) && states[|steps|] == Now()
      ensures forall i :: 0 <= i < |steps| ==> ProxyGoes(states[i], steps[i], states[i + 1])
      ensures open ==> |ops| == 1 && waits == 1 && late == 0
      ensures !open ==> late + |ops| + waits == 1
      ensures AllProper(log)
      ensures forall i :: 0 <= i < |log| ==>
                && (log[i].what.Refused? <==> "STARS SAY " <= log[i].what.line)
                && (log[i].what.Refused? ==> log[i].response == "DENIED!")
      ensures wrote <= OutputOf(log) && InputOf(log) <= got
      ensures TookOf(log) <= heard && told <= PutOf(log) + (left + first + [DELIM])
      ensures Doing(ReadingRequest) ==>
                && wrote == OutputOf(log) && got == InputOf(log) + clientBuffer
                && told == PutOf(log) && heard == TookOf(log) + connectionBuffer
      ensures Valid() && old(log) <= log
    {
      hide NoDelim, InputOf, OutputOf, PutOf, TookOf, AllProper, ProxyConnection.Valid, ProxyGoes;
      states := [Now()];
      for i := 0 to |steps|
        invariant Valid() && old(log) <= log
        invariant |states| == i + 1 && states[0] == old(Now()) && states[i] == Now()
        invariant forall j :: 0 <= j < i ==> ProxyGoes(states[j], steps[j], states[j + 1])
      {
        Take(steps[i]);
        states := states + [Now()];
      }
      WhenStopped();
      ByValid();
      OnlyStarsRefused(log);
    }

    lemma ByValid()
      requires Valid()
      ensures open ==> |ops| == 1 && waits == 1 && late == 0
      ensures !open ==> late + |ops| + waits == 1
      ensures AllProper(log)
      ensures Doing(ReadingRequest) ==>
                && wrote == OutputOf(log) && got == InputOf(log) + clientBuffer
                && told == PutOf(log) && heard == TookOf(log) + connectionBuffer
    {
      hide InputOf, OutputOf, PutOf, TookOf, AllProper;
    }
  }
}
