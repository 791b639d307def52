/** The Boost proxy in front of the Boost server: one connection object of each, the two directions
    of the link between them, a client that may send anything at any time, and other connections
    of the server that set prognoses. Every method of `Link` is one step: some bytes move, or one
    handler runs. */
module BoostLink {
  import opened Wire
  import opened BoostServer
  import opened BoostProxy

  /** What may happen next. A step that is not possible at the time is skipped. */
  datatype Step =
    | ClientSends(bytes: string)
    | ProxyMoves(n: nat)
    | ProxyHandles(proxyOp: ProxyIo, error: bool)
    | ProxyTimes(aborted: bool)
    | ServerMoves(n: nat)
    | ServerHandles(serverOp: ServerIo, error: bool)
    | ServerTimes(aborted: bool)
    | OtherSets(zodiac: string, line: string)

  /** What the stars that talk to the server directly set. */
  function SettingsIn(steps: seq<Step>): seq<Setting> {
    if steps == [] then []
    else
      SettingsIn(steps[..|steps| - 1])
      + match steps[|steps| - 1]
        case OtherSets(zodiac, line) => if NoDelim(line) then [Setting(zodiac, line)] else []
        case _ => []
  }

  /** `answer` is what the server says to the request line `asked`: the prognosis known for the zodiac
      asked for, or that there is none. */
  ghost predicate Responds(known: map<string, string>, asked: string, answer: string) {
    exists z :: Asks(asked, CLIENT_REQUEST, z) && answer == if z in known then known[z] else "YOU ARE OUT OF LUCK!"
  }

  /** The lines that the server has served, with the responses. */
  function GivenOf(log: seq<Served<ServerWhat>>): seq<(string, string)> {
    if log == [] then [] else GivenOf(log[..|log| - 1]) + [(log[|log| - 1].what.line, log[|log| - 1].response)]
  }

  /** The lines that the proxy has passed on, with the responses it took for them. */
  function PassedOf(log: seq<Served<ProxyWhat>>): seq<(string, string)> {
    if log == [] then []
    else PassedOf(log[..|log| - 1])
         + if log[|log| - 1].what.Passed? then [(log[|log| - 1].what.line, log[|log| - 1].response)] else []
  }

  lemma GivenMore(log: seq<Served<ServerWhat>>, x: Served<ServerWhat>)
    ensures GivenOf(log + [x]) == GivenOf(log) + [(x.what.line, x.response)]
  {
    assert (log + [x])[..|log|] == log;
  }

  lemma PassedMore(log: seq<Served<ProxyWhat>>, x: Served<ProxyWhat>)
    ensures PassedOf(log + [x]) == PassedOf(log) + if x.what.Passed? then [(x.what.line, x.response)] else []
  {
    assert (log + [x])[..|log|] == log;
  }

  /** All that crosses the link in the exchanges `xs`: the lines asked, and the responses. */
  function AskedIn(xs: seq<(string, string)>): string {
    if xs == [] then [] else AskedIn(xs[..|xs| - 1]) + xs[|xs| - 1].0 + [DELIM]
  }

  function AnsweredIn(xs: seq<(string, string)>): string {
    if xs == [] then [] else AnsweredIn(xs[..|xs| - 1]) + xs[|xs| - 1].1 + [DELIM]
  }

  /** Nothing but whole lines of clients, each alone, and their responses. */
  predicate Clean(serverLog: seq<Served<ServerWhat>>, proxyLog: seq<Served<ProxyWhat>>) {
    && (forall i :: 0 <= i < |serverLog| ==> serverLog[i].what.Answered? && serverLog[i].rest == [])
    && (forall i :: 0 <= i < |proxyLog| && proxyLog[i].what.Passed? ==> proxyLog[i].what.left == [])
  }

  lemma {:induction false} CleanPut(log: seq<Served<ProxyWhat>>)
    requires Clean([], log)
    ensures PutOf(log) == AskedIn(PassedOf(log))
    decreases |log|
  {
    if log != [] {
      var n := |log| - 1;
      CleanPut(log[..n]);
      var x := log[n];
      if x.what.Passed? {
        assert (PassedOf(log[..n]) + [(x.what.line, x.response)])[..|PassedOf(log[..n])|] == PassedOf(log[..n]);
        assert PutOf(log[..n]) + ([] + x.what.line + [DELIM]) == PutOf(log[..n]) + x.what.line + [DELIM];
      } else {
        assert PassedOf(log[..n]) + [] == PassedOf(log[..n]);
      }
    }
  }

  lemma {:induction false} CleanOutput(log: seq<Served<ServerWhat>>)
    requires Clean(log, [])
    ensures OutputOf(log) == AnsweredIn(GivenOf(log))
    decreases |log|
  {
    if log != [] {
      var n := |log| - 1;
      CleanOutput(log[..n]);
      var x := log[n];
      assert (GivenOf(log[..n]) + [(x.what.line, x.response)])[..|GivenOf(log[..n])|] == GivenOf(log[..n]);
      assert OutputOf(log[..n]) + [] + x.response + [DELIM] == OutputOf(log[..n]) + x.response + [DELIM];
    }
  }

  // ---------- The link as a value ----------

  /** Where the proxy is: between two exchanges, sending a request to the server, receiving the
      response, or stopped. */
  datatype ProxyPlace = Between | Asking | Awaiting | ProxyGone

  datatype ServerPlace = Reading | Writing | ServerGone

  /** All that matters for the link: the two buffers on it, what is on its way in between, the
      last line forwarded, the last response given, the prognoses it was given from, and how many of
      each; and all lines served and all lines relayed so far, with the responses. */
  datatype Picture = Picture(
    proxy: ProxyPlace, proxyBuffer: string, up: string, down: string, server: ServerPlace, serverBuffer: string,
    asked: string, answer: string, known: map<string, string>, forwarded: nat, served: nat, relayed: nat,
    given: seq<(string, string)>, passed: seq<(string, string)>)

  /** All that the server has still to read of what has been forwarded. */
  function Upward(p: Picture): string {
    (if p.server == Reading then p.serverBuffer else []) + p.up + (if p.proxy == Asking then p.proxyBuffer else [])
  }

  /** All that the proxy has still to take of what the server has answered. */
  function Downward(p: Picture): string {
    (if p.proxy == Awaiting then p.proxyBuffer else []) + p.down + (if p.server == Writing then p.serverBuffer else [])
  }

  ghost predicate Sound(p: Picture) {
    && NoDelim(p.asked) && NoDelim(p.answer) && !FromStar(p.asked)
    && (p.server != ServerGone ==> Upward(p) <= p.asked + [DELIM])
    && (p.proxy != ProxyGone ==> Downward(p) <= p.answer + [DELIM])
    // at a boundary both buffers on the link are empty and nothing is on its way
    && (p.proxy == Between ==> p.proxyBuffer == [] && Downward(p) == [] && p.relayed == p.forwarded)
    && (p.proxy == Between && p.server != ServerGone ==>
          Upward(p) == [] && p.served == p.forwarded)
    // the last response given is the prognosis that was asked for, and belongs to the last line
    && p.served <= p.forwarded && p.relayed <= p.forwarded <= p.relayed + 1
    // what the server has served is what the proxy has relayed, up to the exchange in work
    && |p.given| == p.served && |p.passed| == p.relayed
    && (p.given == p.passed || p.given == p.passed + [(p.asked, p.answer)])
    && (p.served > 0 && p.served == p.forwarded ==> Responds(p.known, p.asked, p.answer))
    && (p.server != ServerGone && Upward(p) != [] ==> p.forwarded == p.served + 1)
    && (p.proxy != ProxyGone && Downward(p) != [] ==> p.served > 0 && p.served == p.forwarded)
    // in an exchange exactly one line is on its way, in one direction
    && (p.proxy == Asking || p.proxy == Awaiting ==> p.forwarded == p.relayed + 1)
    && ((p.proxy == Asking || p.proxy == Awaiting) && p.server != ServerGone ==>
          || (Downward(p) == [] && Upward(p) == p.asked + [DELIM] && p.forwarded == p.served + 1)
          || (Upward(p) == [] && Downward(p) == p.answer + [DELIM] && p.forwarded == p.served))
  }

  /** A link before its first exchange. */
  function Nothing(): Picture {
    Picture(Between, [], [], [], Reading, [], [], [], map[], 0, 0, 0, [], [])
  }

  lemma NothingYet()
    ensures Sound(Nothing())
  {
  }

  /** A buffer with a delimiter, in front of what may follow it, is the whole of one line. */
  lemma WholeLine(part: string, rest: string, line: string)
    requires NoDelim(line) && part + rest <= line + [DELIM] && !NoDelim(part)
    ensures part == line + [DELIM] && rest == []
    ensures FirstLineOf(part) == line && AfterLine(part) == []
  {
    var i := IndexOf(part);
    assert (part + rest)[i] == DELIM && (line + [DELIM])[i] == DELIM;
    assert i == |line|;
    assert part == line + [DELIM] + [];
    OneLine(line, []);
  }

  /** Bytes that move from the front of one stretch to the end of the one before it. */
  lemma Moved(a: string, b: string, c: string, n: nat)
    requires n <= |c|
    ensures a + (b + c[..n]) + c[n..] == a + b + c
    ensures (a + c[..n]) + c[n..] + b == a + c + b
  {
    assert c[..n] + c[n..] == c;
  }

  function Forward(p: Picture, line: string): Picture {
    p.(proxy := Asking, proxyBuffer := line + [DELIM], asked := line, forwarded := p.forwarded + 1)
  }

  lemma Forwarding(p: Picture, line: string)
    requires Sound(p) && p.proxy == Between && NoDelim(line) && !FromStar(line)
    ensures var q := Forward(p, line);
            Sound(q) && Downward(q) == [] && (q.server != ServerGone ==> Upward(q) == line + [DELIM])
  {
    assert p.server != ServerGone ==> Upward(p) == [] + p.up + [];
    assert [] + line + [DELIM] == line + [DELIM];
  }

  lemma Forwarded(p: Picture)
    requires Sound(p) && p.proxy == Asking && p.proxyBuffer == []
    ensures Sound(p.(proxy := Awaiting))
  {
    var q := p.(proxy := Awaiting);
    assert Upward(q) == Upward(p) && Downward(q) == Downward(p);
  }

  /** What the proxy has read is the response, whole and alone. */
  lemma ResponseIsWhole(p: Picture)
    requires Sound(p) && p.proxy == Awaiting && !NoDelim(p.proxyBuffer)
    ensures p.proxyBuffer == p.answer + [DELIM] && FirstLineOf(p.proxyBuffer) == p.answer && AfterLine(p.proxyBuffer) == []
    ensures p.down == [] && (p.server == Writing ==> p.serverBuffer == []) && Responds(p.known, p.asked, p.answer)
    ensures p.served == p.forwarded
  {
    hide Responds;
    var rest := p.down + if p.server == Writing then p.serverBuffer else [];
    assert Downward(p) == p.proxyBuffer + rest;
    WholeLine(p.proxyBuffer, rest, p.answer);
  }

  function Relay(p: Picture): Picture {
    p.(proxy := Between, proxyBuffer := [], relayed := p.relayed + 1, passed := p.passed + [(p.asked, p.answer)])
  }

  lemma Relaying(p: Picture)
    requires Sound(p) && p.proxy == Awaiting && p.proxyBuffer != [] && p.served == p.forwarded
    requires p.down == [] && (p.server == Writing ==> p.serverBuffer == [])
    ensures var q := Relay(p);
            Sound(q) && Downward(q) == [] && (q.server != ServerGone ==> Upward(q) == [])
  {
    hide Responds;
    assert Downward(Relay(p)) == [];
    assert Upward(Relay(p)) == Upward(p);
    assert Downward(p) != [];
  }

  lemma Answering(p: Picture)
    requires Sound(p) && p.server == Reading && !NoDelim(p.serverBuffer)
    ensures p.serverBuffer == p.asked + [DELIM] && FirstLineOf(p.serverBuffer) == p.asked && AfterLine(p.serverBuffer) == []
    ensures p.up == [] && (p.proxy == Asking ==> p.proxyBuffer == [])
  {
    var rest := p.up + if p.proxy == Asking then p.proxyBuffer else [];
    assert Upward(p) == p.serverBuffer + rest;
    WholeLine(p.serverBuffer, rest, p.asked);
  }

  function Answer(p: Picture, text: string, known: map<string, string>): Picture {
    p.(server := Writing, serverBuffer := text + [DELIM], answer := text, known := known, served := p.served + 1,
       given := p.given + [(p.asked, text)])
  }

  lemma AnswerPut(p: Picture, text: string, known: map<string, string>)
    requires Sound(p) && p.server == Reading && p.serverBuffer == p.asked + [DELIM] && NoDelim(text)
    requires p.up == [] && (p.proxy == Asking ==> p.proxyBuffer == []) && Responds(known, p.asked, text)
    ensures Sound(Answer(p, text, known))
  {
    hide Responds;
    var q := Answer(p, text, known);
    if p.proxy != ProxyGone {
      assert Downward(p) == [];
      assert Downward(q) == Downward(p) + (text + [DELIM]);
    }
  }

  lemma AnswerSent(p: Picture)
    requires Sound(p) && p.server == Writing && p.serverBuffer == []
    ensures Sound(p.(server := Reading))
  {
    var q := p.(server := Reading);
    assert Upward(q) == Upward(p) && Downward(q) == Downward(p);
  }

  lemma ProxyStops(p: Picture)
    requires Sound(p)
    ensures Sound(p.(proxy := ProxyGone))
  {
  }

  function Gone(p: Picture, buffer: string): Picture {
    p.(server := ServerGone, serverBuffer := buffer)
  }

  lemma ServerStops(p: Picture, buffer: string)
    requires Sound(p)
    ensures Sound(Gone(p, buffer))
  {
  }

  /** Bytes that only move along leave everything as it is. */
  lemma OnlyMoves(p: Picture, q: Picture)
    requires Sound(p) && Upward(q) == Upward(p) && Downward(q) == Downward(p)
    requires q == p.(proxyBuffer := q.proxyBuffer, up := q.up, down := q.down, serverBuffer := q.serverBuffer)
    requires p.proxy == Between ==> q.proxyBuffer == p.proxyBuffer
    ensures Sound(q)
  {
  }

  /** Bytes leave the proxy, arrive at the server, leave the server, arrive at the proxy. */
  lemma LeaveProxy(p: Picture, n: nat)
    requires Sound(p) && p.proxy == Asking && n <= |p.proxyBuffer|
    ensures Sound(p.(proxyBuffer := p.proxyBuffer[n..], up := p.up + p.proxyBuffer[..n]))
  {
    hide Sound;
    Moved(if p.server == Reading then p.serverBuffer else [], p.up, p.proxyBuffer, n);
    OnlyMoves(p, p.(proxyBuffer := p.proxyBuffer[n..], up := p.up + p.proxyBuffer[..n]));
  }

  lemma ReachServer(p: Picture, n: nat)
    requires Sound(p) && p.server == Reading && n <= |p.up|
    ensures Sound(p.(serverBuffer := p.serverBuffer + p.up[..n], up := p.up[n..]))
  {
    hide Sound;
    Moved(p.serverBuffer, if p.proxy == Asking then p.proxyBuffer else [], p.up, n);
    OnlyMoves(p, p.(serverBuffer := p.serverBuffer + p.up[..n], up := p.up[n..]));
  }

  lemma LeaveServer(p: Picture, n: nat)
    requires Sound(p) && p.server == Writing && n <= |p.serverBuffer|
    ensures Sound(p.(serverBuffer := p.serverBuffer[n..], down := p.down + p.serverBuffer[..n]))
  {
    hide Sound;
    Moved(if p.proxy == Awaiting then p.proxyBuffer else [], p.down, p.serverBuffer, n);
    OnlyMoves(p, p.(serverBuffer := p.serverBuffer[n..], down := p.down + p.serverBuffer[..n]));
  }

  lemma ReachProxy(p: Picture, n: nat)
    requires Sound(p) && p.proxy == Awaiting && n <= |p.down|
    ensures Sound(p.(proxyBuffer := p.proxyBuffer + p.down[..n], down := p.down[n..]))
  {
    hide Sound;
    Moved(p.proxyBuffer, if p.server == Writing then p.serverBuffer else [], p.down, n);
    OnlyMoves(p, p.(proxyBuffer := p.proxyBuffer + p.down[..n], down := p.down[n..]));
  }

  lemma ResponseIsText(manager: PrognosisManager, zodiac: string)
    requires manager.Valid()
    ensures NoDelim(Response(manager.prognoses, zodiac))
  {
  }

  lemma ResponseAnswers(known: map<string, string>, line: string)
    requires Understand(line).ClientLine?
    ensures Responds(known, line, Response(known, Understand(line).zodiac))
  {
    hide Understand, Asks;
    UnderstoodIsAsked(line, Understand(line).zodiac);
  }

  lemma NoStar(line: string)
    requires !FromStar(line)
    ensures !Understand(line).StarLine?
  {
  }

  // ---------- Steps ----------

  /** The two connections and what is on its way between them, as a value. */
  datatype LinkState = LinkState(proxy: ProxyState, server: ServerState, up: string, down: string)

  predicate ServerIsAt(s: ServerState, op: ServerIo) {
    s.open && s.ops == multiset{op}
  }

  /** The step, if it is possible, is one of the proxy or of the server, and what moves between them
      leaves one and arrives at the other. */
  ghost predicate LinkGoes(s: LinkState, step: Step, t: LinkState) {
    match step
    case ClientSends(bytes) => ProxyGoes(s.proxy, FromClient(bytes), t.proxy) && t == s.(proxy := t.proxy)
    case ProxyHandles(op, error) =>
      ProxyGoes(s.proxy, ProxyStep.Completes(op, error), t.proxy) && t == s.(proxy := t.proxy)
    case ProxyTimes(aborted) => ProxyGoes(s.proxy, ProxyStep.Times(aborted), t.proxy) && t == s.(proxy := t.proxy)
    case ProxyMoves(n) =>
      if At(s.proxy, WritingRequest) && n <= |s.proxy.connectionBuffer| then
        && ProxyGoes(s.proxy, ToServer(n), t.proxy)
        && t == s.(proxy := t.proxy, up := s.up + s.proxy.connectionBuffer[..n])
      else if At(s.proxy, ReadingResponse) && n <= |s.down| then
        ProxyGoes(s.proxy, FromServer(s.down[..n]), t.proxy) && t == s.(proxy := t.proxy, down := s.down[n..])
      else if At(s.proxy, WritingResponse) && n <= |s.proxy.clientBuffer| then
        ProxyGoes(s.proxy, ToClient(n), t.proxy) && t == s.(proxy := t.proxy)
      else t == s
    case ServerHandles(op, error) =>
      ServerGoes(s.server, ServerStep.Completes(op, error), t.server) && t == s.(server := t.server)
    case ServerTimes(aborted) =>
      ServerGoes(s.server, ServerStep.Times(aborted), t.server) && t == s.(server := t.server)
    case ServerMoves(n) =>
      if ServerIsAt(s.server, ReadRequest) && n <= |s.up| then
        ServerGoes(s.server, Arrives(s.up[..n]), t.server) && t == s.(server := t.server, up := s.up[n..])
      else if ServerIsAt(s.server, WriteResponse) && n <= |s.server.buffer| then
        && ServerGoes(s.server, Leaves(n), t.server)
        && t == s.(server := t.server, down := s.down + s.server.buffer[..n])
      else t == s
    case OtherSets(zodiac, line) =>
      ServerGoes(s.server, OthersSet(zodiac, line), t.server) && t == s.(server := t.server)
  }

  // ---------- The link ----------

  class Link {
    const proxy: ProxyConnection
    const server: ServerConnection

    /** Bytes on their way to the server, and on their way to the proxy. */
    var up: string
    var down: string

    /** The last line forwarded and the last response given, and how many of each. */
    ghost var asked: string
    ghost var answer: string
    /** The prognoses that the server knew when it gave that response. */
    ghost var known: map<string, string>
    ghost var forwarded: nat
    ghost var served: nat
    ghost var relayed: nat

    constructor (manager: PrognosisManager)
      requires manager.Valid()
      ensures Inv() && fresh(proxy) && fresh(server) && server.manager == manager
    {
      hide Sound, Understand, NoDelim, BookOf, AllOwed, AllProper;
      hide ServerConnection.Accounted, ProxyConnection.Accounted, ProxyConnection.LinkAccounted;
      proxy := new ProxyConnection();
      server := new ServerConnection(manager);
      up, down := [], [];
      asked, answer, known := [], [], map[];
      forwarded, served, relayed := 0, 0, 0;
      new;
      NothingYet();
      assert Now() == Nothing();
    }

    ghost function ProxyAt(): ProxyPlace
      reads proxy
    {
      if !proxy.open then ProxyGone
      else if WritingRequest in proxy.ops then Asking
      else if ReadingResponse in proxy.ops then Awaiting
      else Between
    }

    ghost function ServerAt(): ServerPlace
      reads server
    {
      if !server.open then ServerGone else if WriteResponse in server.ops then Writing else Reading
    }

    ghost function Now(): Picture
      reads this, proxy, server
    {
      Picture(ProxyAt(), proxy.connectionBuffer, up, down, ServerAt(), server.buffer,
              asked, answer, known, forwarded, served, relayed, GivenOf(server.log), PassedOf(proxy.log))
    }

    ghost function State(): LinkState
      reads this, proxy, server, server.manager
    {
      LinkState(proxy.Now(), server.Now(), up, down)
    }

    ghost predicate Inv()
      reads this, proxy, server, server.manager
    {
      && proxy.Valid() && server.Valid() && Sound(Now())
      && server.sets == 0 && (forall op :: op in server.ops ==> !op.ReadPrognosis?)
      && Crossing()
    }

    /** What one side has put on the link has reached the other side or is on its way, and is nothing
        but whole lines. */
    ghost predicate Crossing()
      reads this, proxy, server
    {
      && proxy.told == server.got + up && server.wrote == proxy.heard + down
      && proxy.first == asked && proxy.left == [] && Clean(server.log, proxy.log)
    }

    lemma ProxyDoes(op: ProxyIo)
      requires Inv() && op in proxy.ops
      ensures proxy.ops == multiset{op}
    {
      hide Sound;
      hide ProxyConnection.Accounted, ProxyConnection.LinkAccounted, ServerConnection.Accounted, AllOwed, AllProper, Clean;
      hide GivenOf, PassedOf;
      OnlyOne(proxy.ops, op);
    }

    lemma ServerDoes(op: ServerIo)
      requires Inv() && op in server.ops
      ensures server.ops == multiset{op}
    {
      hide Sound;
      hide ProxyConnection.Accounted, ProxyConnection.LinkAccounted, ServerConnection.Accounted, AllOwed, AllProper, Clean;
      hide GivenOf, PassedOf;
      OnlyOne(server.ops, op);
    }

    // ---------- Steps of the proxy ----------

    /** async_read_until on the client: any bytes, as long as there is no whole line. */
    method ClientSends(bytes: string)
      requires Inv() && proxy.Doing(ReadingRequest)
      modifies proxy`clientBuffer, proxy`got
      ensures Inv() && proxy.got == old(proxy.got) + bytes
      ensures ProxyGoes(old(proxy.Now()), FromClient(bytes), proxy.Now())
    {
      hide ProxyGoes, ServerGoes;
      hide Sound;
      hide ProxyConnection.Accounted, ProxyConnection.LinkAccounted, ServerConnection.Accounted, AllOwed, AllProper, Clean;
      hide GivenOf, PassedOf;
      ghost var p := Now();
      proxy.ClientArrives(bytes);
      assert Now() == p;
    }

    /** The read has failed, or its handler runs after the connection was stopped. */
    method ProxyReadFails(error: bool)
      requires Inv() && ReadingRequest in proxy.ops && (!proxy.open || error)
      modifies proxy
      ensures Inv()
      ensures ProxyGoes(old(proxy.Now()), ProxyStep.Completes(ReadingRequest, error), proxy.Now())
    {
      hide ProxyGoes, ServerGoes;
      hide Sound, Upward, Downward, NoDelim, IndexOf, FirstLineOf, AfterLine;
      hide ProxyConnection.Accounted, ProxyConnection.LinkAccounted, ServerConnection.Accounted, AllOwed, AllProper, Clean;
      hide GivenOf, PassedOf;
      ghost var p := Now();
      OnlyOne(proxy.ops, ReadingRequest);
      proxy.HandleReadRequest(error);
      ProxyStops(p);
      assert Now() == p.(proxy := ProxyGone);
    }

    /** handleReadRequest on a whole line, while the other buffer is empty. */
    method TakeLine(ghost line: string) returns (forwards: bool)
      requires proxy.Valid() && proxy.Doing(ReadingRequest) && proxy.connectionBuffer == []
      requires !NoDelim(proxy.clientBuffer) && FirstLineOf(proxy.clientBuffer) == line && Crossing()
      modifies proxy, this`asked, this`forwarded
      ensures proxy.Valid() && forwards == !FromStar(line) && Crossing()
      ensures if forwards then proxy.Doing(WritingRequest) && Now() == Forward(old(Now()), line)
              else proxy.Doing(WritingResponse) && Now() == old(Now())
      ensures ProxyGoes(old(proxy.Now()), ProxyStep.Completes(ReadingRequest, false), proxy.Now())
    {
      hide ProxyGoes, ServerGoes;
      hide NoDelim, FirstLineOf, AfterLine, IndexOf;
      hide ProxyConnection.Accounted, ProxyConnection.LinkAccounted, ServerConnection.Accounted, AllOwed, AllProper;
      hide GivenOf, PassedOf, FromStar;
      ghost var rest := AfterLine(proxy.clientBuffer);
      ghost var x := Served(line + [DELIM] + rest, [], RESPONSE_FAILURE, Refused(line, rest));
      PassedMore(proxy.log, x);
      assert PassedOf(proxy.log) + [] == PassedOf(proxy.log);
      proxy.HandleReadRequest(false);
      forwards := WritingRequest in proxy.ops;
      assert [] + line + [DELIM] == line + [DELIM];
      if forwards {
        asked := line;
        forwarded := forwarded + 1;
      }
    }

    /** The client has sent a line: one that is no star's is put on the link. */
    method ProxyReadsLine()
      requires Inv() && proxy.Doing(ReadingRequest) && !NoDelim(proxy.clientBuffer)
      modifies proxy, this`asked, this`forwarded
      ensures Inv()
      ensures !FromStar(FirstLineOf(old(proxy.clientBuffer))) ==>
                && asked == FirstLineOf(old(proxy.clientBuffer)) && forwarded == old(forwarded) + 1
                && proxy.connectionBuffer == asked + [DELIM] && Downward(Now()) == []
                && (server.open ==> Upward(Now()) == asked + [DELIM])
      ensures ProxyGoes(old(proxy.Now()), ProxyStep.Completes(ReadingRequest, false), proxy.Now())
    {
      hide ProxyGoes, ServerGoes;
      hide Sound, Upward, Downward, NoDelim, IndexOf, FirstLineOf, AfterLine, FromStar;
      hide ProxyConnection.Accounted, ProxyConnection.LinkAccounted, ServerConnection.Accounted, AllOwed, AllProper, Clean;
      hide GivenOf, PassedOf;
      ghost var p := Now();
      BetweenIsEmpty(p);
      ghost var line := FirstLineOf(proxy.clientBuffer);
      var forwards := TakeLine(line);
      if forwards {
        Forwarding(p, line);
      }
    }

    method ProxyRequestRead(error: bool)
      requires Inv() && proxy.Runnable(ReadingRequest, error)
      modifies proxy, this`asked, this`forwarded
      ensures Inv()
      ensures old(proxy.open) && !error && !FromStar(FirstLineOf(old(proxy.clientBuffer))) ==>
                && asked == FirstLineOf(old(proxy.clientBuffer)) && forwarded == old(forwarded) + 1
                && proxy.connectionBuffer == asked + [DELIM] && Downward(Now()) == []
                && (server.open ==> Upward(Now()) == asked + [DELIM])
      ensures ProxyGoes(old(proxy.Now()), ProxyStep.Completes(ReadingRequest, error), proxy.Now())
    {
      hide ProxyGoes, ServerGoes;
      hide Inv, NoDelim, FirstLineOf, AfterLine, IndexOf, Upward, Downward, FromStar;
      ProxyDoes(ReadingRequest);
      if proxy.open && !error {
        ProxyReadsLine();
      } else {
        ProxyReadFails(error);
      }
    }

    lemma BetweenIsEmpty(p: Picture)
      requires Sound(p)
      ensures p.proxy == Between ==> p.proxyBuffer == []
    {
    }

    /** async_write to the server: some of the buffer leaves. */
    method ProxyForwards(n: nat)
      requires Inv() && proxy.Doing(WritingRequest) && n <= |proxy.connectionBuffer|
      modifies proxy`connectionBuffer, proxy`told, this`up
      ensures Inv()
      ensures ProxyGoes(old(proxy.Now()), ToServer(n), proxy.Now())
      ensures up == old(up) + old(proxy.connectionBuffer)[..n]
    {
      hide ProxyGoes, ServerGoes;
      hide Sound, Upward, Downward;
      hide ProxyConnection.Accounted, ProxyConnection.LinkAccounted, ServerConnection.Accounted, AllOwed, AllProper, Clean;
      hide GivenOf, PassedOf;
      ghost var p := Now();
      LeaveProxy(p, n);
      up := up + proxy.connectionBuffer[..n];
      proxy.ServerLeaves(n);
      assert server.got + p.up + p.proxyBuffer[..n] == server.got + up;
      assert Now() == p.(proxyBuffer := p.proxyBuffer[n..], up := p.up + p.proxyBuffer[..n]);
    }

    method ProxyRequestWritten(error: bool)
      requires Inv() && proxy.Runnable(WritingRequest, error)
      modifies proxy
      ensures Inv()
      ensures ProxyGoes(old(proxy.Now()), ProxyStep.Completes(WritingRequest, error), proxy.Now())
    {
      hide ProxyGoes, ServerGoes;
      hide Sound, Upward, Downward;
      hide ProxyConnection.Accounted, ProxyConnection.LinkAccounted, ServerConnection.Accounted, AllOwed, AllProper, Clean;
      hide GivenOf, PassedOf;
      ghost var p := Now();
      OnlyOne(proxy.ops, WritingRequest);
      proxy.HandleWriteRequest(error);
      if proxy.open {
        Forwarded(p);
        assert Now() == p.(proxy := Awaiting);
      } else {
        ProxyStops(p);
        assert Now() == p.(proxy := ProxyGone);
      }
    }

    /** async_read_until on the server: some bytes arrive, as long as there is no whole line. */
    method ProxyReceives(n: nat)
      requires Inv() && proxy.Doing(ReadingResponse) && n <= |down|
      modifies proxy`connectionBuffer, proxy`heard, this`down
      ensures Inv()
      ensures ProxyGoes(old(proxy.Now()), FromServer(old(down)[..n]), proxy.Now())
      ensures down == old(down)[n..]
    {
      hide ProxyGoes, ServerGoes;
      hide Sound, Upward, Downward;
      hide ProxyConnection.Accounted, ProxyConnection.LinkAccounted, ServerConnection.Accounted, AllOwed, AllProper, Clean;
      hide GivenOf, PassedOf;
      ghost var p := Now();
      ReachProxy(p, n);
      proxy.ServerArrives(down[..n]);
      down := down[n..];
      assert old(proxy.heard) + p.down == proxy.heard + down;
      assert Now() == p.(proxyBuffer := p.proxyBuffer + p.down[..n], down := p.down[n..]);
    }

    /** The read has failed, or its handler runs after the connection was stopped. */
    method ProxyResponseFails(error: bool)
      requires Inv() && ReadingResponse in proxy.ops && (!proxy.open || error)
      modifies proxy
      ensures Inv() && !proxy.open
      ensures ProxyGoes(old(proxy.Now()), ProxyStep.Completes(ReadingResponse, error), proxy.Now())
    {
      hide ProxyGoes, ServerGoes;
      hide Sound, Upward, Downward, NoDelim, FirstLineOf, AfterLine;
      hide ProxyConnection.Accounted, ProxyConnection.LinkAccounted, ServerConnection.Accounted, AllOwed, AllProper, Clean;
      hide GivenOf, PassedOf;
      ghost var p := Now();
      OnlyOne(proxy.ops, ReadingResponse);
      proxy.HandleReadResponse(error);
      ProxyStops(p);
      assert Now() == p.(proxy := ProxyGone);
    }

    /** handleReadResponse on a response that is whole and alone. */
    method TakeResponse()
      requires proxy.Valid() && proxy.Doing(ReadingResponse) && !NoDelim(proxy.connectionBuffer)
      requires FirstLineOf(proxy.connectionBuffer) == answer && AfterLine(proxy.connectionBuffer) == [] && Crossing()
      modifies proxy, this`relayed
      ensures Crossing() && proxy.Valid() && proxy.Doing(WritingResponse) && Now() == Relay(old(Now()))
      ensures proxy.clientBuffer == old(proxy.clientBuffer) + answer + [DELIM]
      ensures ProxyGoes(old(proxy.Now()), ProxyStep.Completes(ReadingResponse, false), proxy.Now())
    {
      hide ProxyGoes, ServerGoes;
      hide NoDelim, FirstLineOf, AfterLine, IndexOf;
      hide ProxyConnection.Accounted, ProxyConnection.LinkAccounted, ServerConnection.Accounted, AllOwed, AllProper;
      hide GivenOf, PassedOf;
      PassedMore(proxy.log, Served(asked + [DELIM], proxy.clientBuffer, answer, Passed(asked, [])));
      proxy.HandleReadResponse(false);
      relayed := relayed + 1;
    }

    method ProxyReadsResponse()
      requires Inv() && proxy.Doing(ReadingResponse) && !NoDelim(proxy.connectionBuffer)
      modifies proxy, this`relayed
      ensures Inv() && proxy.open && Now() == Relay(old(Now()))
      ensures old(proxy.connectionBuffer) == answer + [DELIM] && Responds(known, asked, answer)
      ensures proxy.clientBuffer == old(proxy.clientBuffer) + answer + [DELIM]
      ensures Downward(Now()) == [] && (server.open ==> Upward(Now()) == [])
      ensures ProxyGoes(old(proxy.Now()), ProxyStep.Completes(ReadingResponse, false), proxy.Now())
    {
      hide ProxyGoes, ServerGoes;
      hide Sound, Upward, Downward, NoDelim, FirstLineOf, AfterLine, IndexOf, Responds;
      hide ProxyConnection.Accounted, ProxyConnection.LinkAccounted, ServerConnection.Accounted, AllOwed, AllProper, Clean;
      hide GivenOf, PassedOf;
      ghost var p := Now();
      ResponseIsWhole(p);
      TakeResponse();
      Relaying(p);
    }

    method ProxyResponseRead(error: bool)
      requires Inv() && proxy.Runnable(ReadingResponse, error)
      modifies proxy, this`relayed
      ensures Inv()
      ensures proxy.open ==>
                && old(proxy.connectionBuffer) == answer + [DELIM] && relayed == old(relayed) + 1
                && Responds(known, asked, answer)
                && proxy.clientBuffer == old(proxy.clientBuffer) + answer + [DELIM]
                && proxy.connectionBuffer == [] && Downward(Now()) == [] && (server.open ==> Upward(Now()) == [])
      ensures ProxyGoes(old(proxy.Now()), ProxyStep.Completes(ReadingResponse, error), proxy.Now())
    {
      hide ProxyGoes, ServerGoes;
      hide Inv, Upward, Downward, NoDelim, FirstLineOf, AfterLine, IndexOf, Responds;
      ProxyDoes(ReadingResponse);
      if proxy.open && !error {
        ProxyReadsResponse();
      } else {
        ProxyResponseFails(error);
      }
    }

    /** async_write to the client: some of the buffer leaves. */
    method ProxyReplies(n: nat)
      requires Inv() && proxy.Doing(WritingResponse) && n <= |proxy.clientBuffer|
      modifies proxy`clientBuffer, proxy`wrote
      ensures Inv() && proxy.wrote == old(proxy.wrote) + old(proxy.clientBuffer[..n])
      ensures ProxyGoes(old(proxy.Now()), ToClient(n), proxy.Now())
    {
      hide ProxyGoes, ServerGoes;
      hide Sound;
      hide ProxyConnection.Accounted, ProxyConnection.LinkAccounted, ServerConnection.Accounted, AllOwed, AllProper, Clean;
      hide GivenOf, PassedOf;
      ghost var p := Now();
      proxy.ClientLeaves(n);
      assert Now() == p;
    }

    method ProxyReplyWritten(error: bool)
      requires Inv() && proxy.Runnable(WritingResponse, error)
      modifies proxy
      ensures Inv()
      ensures ProxyGoes(old(proxy.Now()), ProxyStep.Completes(WritingResponse, error), proxy.Now())
    {
      hide ProxyGoes, ServerGoes;
      hide Sound, Upward, Downward;
      hide ProxyConnection.Accounted, ProxyConnection.LinkAccounted, ServerConnection.Accounted, AllOwed, AllProper, Clean;
      hide GivenOf, PassedOf;
      ghost var p := Now();
      OnlyOne(proxy.ops, WritingResponse);
      proxy.HandleWriteResponse(error);
      if proxy.open {
        assert Now() == p;
      } else {
        ProxyStops(p);
        assert Now() == p.(proxy := ProxyGone);
      }
    }

    method ProxyDeadline(aborted: bool)
      requires Inv() && proxy.waits > 0
      modifies proxy
      ensures Inv()
      ensures ProxyGoes(old(proxy.Now()), ProxyStep.Times(aborted), proxy.Now())
    {
      hide ProxyGoes, ServerGoes;
      hide Sound, Upward, Downward;
      hide ProxyConnection.Accounted, ProxyConnection.LinkAccounted, ServerConnection.Accounted, AllOwed, AllProper, Clean;
      hide GivenOf, PassedOf;
      ghost var p := Now();
      proxy.HandleDeadline(aborted);
      if proxy.open {
        assert Now() == p;
      } else {
        ProxyStops(p);
        assert Now() == p.(proxy := ProxyGone);
      }
    }

    // ---------- Steps of the server ----------

    method ServerReceives(n: nat)
      requires Inv() && server.Doing(ReadRequest) && n <= |up|
      modifies server`buffer, server`got, this`up
      ensures Inv()
      ensures ServerGoes(old(server.Now()), Arrives(old(up)[..n]), server.Now())
      ensures up == old(up)[n..]
    {
      hide ProxyGoes, ServerGoes;
      hide Sound, Upward, Downward;
      hide ProxyConnection.Accounted, ProxyConnection.LinkAccounted, ServerConnection.Accounted, AllOwed, AllProper, Clean;
      hide GivenOf, PassedOf;
      ghost var p := Now();
      ReachServer(p, n);
      server.Arrive(up[..n]);
      up := up[n..];
      assert old(server.got) + p.up == server.got + up;
      assert Now() == p.(serverBuffer := p.serverBuffer + p.up[..n], up := p.up[n..]);
    }

    /** handleReadRequest on a whole line that no star has sent: one line of text is the answer,
        or the connection is stopped. */
    method Serve(ghost line: string) returns (ghost text: string)
      requires server.Valid() && server.Doing(ReadRequest) && !NoDelim(server.buffer)
      requires FirstLineOf(server.buffer) == line && AfterLine(server.buffer) == [] && !FromStar(line)
      modifies server
      ensures server.Valid()
      ensures server.sets == old(server.sets) && NoDelim(text) && server.got == old(server.got) && server.wrote == old(server.wrote)
      ensures server.log == old(server.log) + if server.open then
                [Served(line + [DELIM], [], text, Answered(line, |server.manager.past|))] else []
      ensures if server.open then
                && server.Doing(WriteResponse) && server.buffer == text + [DELIM]
                && Responds(server.manager.prognoses, line, text)
              else server.ops == multiset{}
      ensures ServerGoes(old(server.Now()), ServerStep.Completes(ReadRequest, false), server.Now())
    {
      hide ProxyGoes, ServerGoes;
      hide NoDelim, FirstLineOf, AfterLine, Understand, Response, IndexOf;
      hide ProxyConnection.Accounted, ProxyConnection.LinkAccounted, ServerConnection.Accounted, AllOwed, AllProper, Clean;
      hide GivenOf, PassedOf;
      NoStar(line);
      server.HandleReadRequest(false);
      text := "";
      if server.open {
        text := Response(server.manager.prognoses, Understand(line).zodiac);
        ResponseIsText(server.manager, Understand(line).zodiac);
        ResponseAnswers(server.manager.prognoses, line);
        assert [] + text + [DELIM] == text + [DELIM];
      } else {
        assert NoDelim("") by { NothingHasNoDelim(); }
      }
    }

    /** The read has failed, or its handler runs after the connection was stopped. */
    method ServerReadFails(error: bool)
      requires Inv() && ReadRequest in server.ops && (!server.open || error)
      modifies server
      ensures Inv()
      ensures ServerGoes(old(server.Now()), ServerStep.Completes(ReadRequest, error), server.Now())
    {
      hide ProxyGoes, ServerGoes;
      hide Sound, Upward, Downward, NoDelim, FirstLineOf, AfterLine, IndexOf, Understand;
      hide ProxyConnection.Accounted, ProxyConnection.LinkAccounted, ServerConnection.Accounted, AllOwed, AllProper, Clean;
      hide GivenOf, PassedOf;
      ghost var p := Now();
      OnlyOne(server.ops, ReadRequest);
      server.HandleReadRequest(error);
      ServerStops(p, server.buffer);
      assert Now() == Gone(p, server.buffer);
    }

    /** The server serves the line that it has read, `asked`. */
    method ServeAsked() returns (ghost text: string)
      requires server.Valid() && server.Doing(ReadRequest) && !NoDelim(server.buffer)
      requires FirstLineOf(server.buffer) == asked && AfterLine(server.buffer) == [] && !FromStar(asked) && Crossing()
      modifies server, this`answer, this`known, this`served
      ensures server.Valid() && Crossing()
      ensures server.sets == old(server.sets) && (server.open ==> server.Doing(WriteResponse))
      ensures !server.open ==> server.ops == multiset{} && Now() == Gone(old(Now()), server.buffer)
      ensures server.open ==>
                && Now() == Answer(old(Now()), text, server.manager.prognoses) && NoDelim(text)
                && Responds(server.manager.prognoses, asked, text)
      ensures ServerGoes(old(server.Now()), ServerStep.Completes(ReadRequest, false), server.Now())
    {
      hide ProxyGoes, ServerGoes;
      hide NoDelim, FirstLineOf, AfterLine, IndexOf, FromStar, Responds;
      hide ProxyConnection.Accounted, ProxyConnection.LinkAccounted, ServerConnection.Accounted, AllOwed, AllProper;
      hide GivenOf, PassedOf;
      text := Serve(asked);
      if server.open {
        GivenMore(old(server.log), Served(asked + [DELIM], [], text, Answered(asked, |server.manager.past|)));
        answer := text;
        known := server.manager.prognoses;
        served := served + 1;
      } else {
        assert server.log == old(server.log);
      }
    }

    /** The server has read the line that was forwarded, whole and alone. */
    method ServerReadsLine()
      requires Inv() && server.Doing(ReadRequest) && !NoDelim(server.buffer)
      modifies server, this`answer, this`known, this`served
      ensures Inv()
      ensures FirstLineOf(old(server.buffer)) == asked && AfterLine(old(server.buffer)) == [] && old(up) == []
      ensures server.open ==>
                && server.buffer == answer + [DELIM] && served == old(served) + 1
                && known == server.manager.prognoses && Responds(known, asked, answer)
      ensures ServerGoes(old(server.Now()), ServerStep.Completes(ReadRequest, false), server.Now())
    {
      hide ProxyGoes, ServerGoes;
      hide Sound, Upward, Downward, NoDelim, FirstLineOf, AfterLine, IndexOf, FromStar, Responds;
      hide ProxyConnection.Accounted, ProxyConnection.LinkAccounted, ServerConnection.Accounted, AllOwed, AllProper, Clean;
      hide GivenOf, PassedOf;
      ghost var p := Now();
      Answering(p);
      AskedIsNoStar(p);
      ghost var text := ServeAsked();
      if server.open {
        AnswerPut(p, text, server.manager.prognoses);
      } else {
        ServerStops(p, server.buffer);
      }
    }

    method ServerRequestRead(error: bool)
      requires Inv() && server.Runnable(ReadRequest, error)
      modifies server, this`answer, this`known, this`served
      ensures Inv()
      ensures old(server.open) && !error ==>
                && FirstLineOf(old(server.buffer)) == asked && AfterLine(old(server.buffer)) == [] && old(up) == []
                && (server.open ==>
                      && server.buffer == answer + [DELIM] && served == old(served) + 1
                      && known == server.manager.prognoses && Responds(known, asked, answer))
      ensures ServerGoes(old(server.Now()), ServerStep.Completes(ReadRequest, error), server.Now())
    {
      hide ProxyGoes, ServerGoes;
      hide Inv, NoDelim, FirstLineOf, AfterLine, IndexOf, Responds;
      ServerDoes(ReadRequest);
      if server.open && !error {
        ServerReadsLine();
      } else {
        ServerReadFails(error);
      }
    }

    lemma NothingHasNoDelim()
      ensures NoDelim("")
    {
    }

    lemma AskedIsNoStar(p: Picture)
      requires Sound(p)
      ensures !FromStar(p.asked)
    {
    }

    method ServerAnswers(n: nat)
      requires Inv() && server.Doing(WriteResponse) && n <= |server.buffer|
      modifies server`buffer, server`wrote, this`down
      ensures Inv()
      ensures ServerGoes(old(server.Now()), Leaves(n), server.Now())
      ensures down == old(down) + old(server.buffer)[..n]
    {
      hide ProxyGoes, ServerGoes;
      hide Sound, Upward, Downward;
      hide ProxyConnection.Accounted, ProxyConnection.LinkAccounted, ServerConnection.Accounted, AllOwed, AllProper, Clean;
      hide GivenOf, PassedOf;
      ghost var p := Now();
      LeaveServer(p, n);
      down := down + server.buffer[..n];
      server.Leave(n);
      assert proxy.heard + p.down + p.serverBuffer[..n] == proxy.heard + down;
      assert Now() == p.(serverBuffer := p.serverBuffer[n..], down := p.down + p.serverBuffer[..n]);
    }

    method ServerResponseWritten(error: bool)
      requires Inv() && server.Runnable(WriteResponse, error)
      modifies server
      ensures Inv()
      ensures ServerGoes(old(server.Now()), ServerStep.Completes(WriteResponse, error), server.Now())
    {
      hide ProxyGoes, ServerGoes;
      hide Sound, Upward, Downward;
      hide ProxyConnection.Accounted, ProxyConnection.LinkAccounted, ServerConnection.Accounted, AllOwed, AllProper, Clean;
      hide GivenOf, PassedOf;
      ghost var p := Now();
      OnlyOne(server.ops, WriteResponse);
      server.HandleWriteResponse(error);
      if server.open {
        AnswerSent(p);
        assert Now() == p.(server := Reading);
      } else {
        ServerStops(p, server.buffer);
        assert Now() == Gone(p, server.buffer);
      }
    }

    method ServerDeadline(aborted: bool)
      requires Inv() && server.waits > 0
      modifies server
      ensures Inv()
      ensures ServerGoes(old(server.Now()), ServerStep.Times(aborted), server.Now())
    {
      hide ProxyGoes, ServerGoes;
      hide Sound, Upward, Downward;
      hide ProxyConnection.Accounted, ProxyConnection.LinkAccounted, ServerConnection.Accounted, AllOwed, AllProper, Clean;
      hide GivenOf, PassedOf;
      ghost var p := Now();
      server.HandleDeadline(aborted);
      if server.open {
        assert Now() == p;
      } else {
        ServerStops(p, server.buffer);
        assert Now() == Gone(p, server.buffer);
      }
    }

    // ---------- Runs ----------

    /** The completion handler of an outstanding I/O operation of the proxy. */
    method ProxyHandler(op: ProxyIo, error: bool)
      requires Inv() && proxy.Runnable(op, error)
      modifies this, proxy
      ensures Inv()
      ensures ProxyGoes(old(proxy.Now()), ProxyStep.Completes(op, error), proxy.Now())
      ensures up == old(up) && down == old(down)
    {
      hide Inv, ProxyGoes, ServerGoes;
      match op {
        case ReadingRequest => ProxyRequestRead(error);
        case WritingRequest => ProxyRequestWritten(error);
        case ReadingResponse => ProxyResponseRead(error);
        case WritingResponse => ProxyReplyWritten(error);
      }
    }

    method ProxyMove(n: nat)
      requires Inv()
      modifies this, proxy
      ensures Inv()
      ensures LinkGoes(old(State()), ProxyMoves(n), State())
    {
      hide Inv, ProxyGoes, ServerGoes;
      if proxy.Doing(WritingRequest) && n <= |proxy.connectionBuffer| {
        ProxyForwards(n);
      } else if proxy.Doing(ReadingResponse) && n <= |down| {
        ProxyReceives(n);
      } else if proxy.Doing(WritingResponse) && n <= |proxy.clientBuffer| {
        ProxyReplies(n);
      }
    }

    /** The completion handler of an outstanding I/O operation of the server; reading a prognosis
        is never one. */
    method ServerHandler(op: ServerIo, error: bool)
      requires Inv() && server.Runnable(op, error)
      modifies this, server
      ensures Inv()
      ensures ServerGoes(old(server.Now()), ServerStep.Completes(op, error), server.Now())
      ensures up == old(up) && down == old(down)
    {
      hide ProxyGoes, ServerGoes;
      match op {
        case ReadRequest => ServerRequestRead(error);
        case WriteResponse => ServerResponseWritten(error);
        case ReadPrognosis(_) => assert false;
      }
    }

    method ServerMove(n: nat)
      requires Inv()
      modifies this, server
      ensures Inv()
      ensures LinkGoes(old(State()), ServerMoves(n), State())
    {
      hide Inv, ProxyGoes, ServerGoes;
      if server.Doing(ReadRequest) && n <= |up| {
        ServerReceives(n);
      } else if server.Doing(WriteResponse) && n <= |server.buffer| {
        ServerAnswers(n);
      }
    }

    /** Another connection of the server sets a prognosis. */
    method OtherSets(zodiac: string, line: string)
      requires Inv() && NoDelim(line)
      modifies server.manager
      ensures Inv() && server.manager.past == old(server.manager.past) + [Setting(zodiac, line)]
      ensures ServerGoes(old(server.Now()), OthersSet(zodiac, line), server.Now())
    {
      hide ProxyGoes, ServerGoes;
      hide Sound, BookOf, NoDelim;
      hide ProxyConnection.Accounted, ProxyConnection.LinkAccounted, ServerConnection.Accounted, AllOwed, AllProper, Clean;
      hide GivenOf, PassedOf;
      server.OtherSets(zodiac, line);
    }

    /** One step, if it is possible. */
    method Take(step: Step)
      requires Inv()
      modifies this, proxy, server, server.manager
      ensures Inv() && LinkGoes(old(State()), step, State())
      ensures server.manager.past == old(server.manager.past) + match step
                                                               case OtherSets(zodiac, line) =>
                                                                 if NoDelim(line) then [Setting(zodiac, line)] else []
                                                               case _ => []
    {
      hide Inv, NoDelim, ProxyTakes, ServerTakes;
      match step {
        case ClientSends(bytes) => if proxy.Doing(ReadingRequest) { ClientSends(bytes); }
        case ProxyMoves(n) => ProxyMove(n);
        case ProxyHandles(op, error) => if proxy.Runnable(op, error) { ProxyHandler(op, error); }
        case ProxyTimes(aborted) => if proxy.waits > 0 { ProxyDeadline(aborted); }
        case ServerMoves(n) => ServerMove(n);
        case ServerHandles(op, error) => if server.Runnable(op, error) { ServerHandler(op, error); }
        case ServerTimes(aborted) => if server.waits > 0 { ServerDeadline(aborted); }
        case OtherSets(zodiac, line) => if NoDelim(line) { OtherSets(zodiac, line); }
      }
    }

    /** Whatever happens, in whatever order (every step that is possible is taken: `states` are the
        states in between), with clients that pipeline as they like and stars
        that talk to the server directly: every exchange is one line each way, this connection
        never sets a prognosis, and what is set is what the others set. The lines that the server has
        served, with the responses it owes to them, are those that the proxy has relayed, in order,
        up to the exchange in work; and nothing else crosses the link. */
    method Run(steps: seq<Step>) returns (ghost states: seq<LinkState>)
      requires Inv()
      modifies this, proxy, server, server.manager
      ensures |states| == |steps| + 1 && states[0] == old(State()) && states[|steps|] == State()
      ensures forall i :: 0 <= i < |steps| ==> LinkGoes(states[i], steps[i], states[i + 1])
      ensures Inv() && server.sets == 0 && proxy.Valid() && server.Valid()
      ensures server.manager.past == old(server.manager.past) + SettingsIn(steps)
      ensures AllOwed(server.log, server.manager.past) && AllProper(proxy.log) && Clean(server.log, proxy.log)
      ensures var given, passed := GivenOf(server.log), PassedOf(proxy.log);
              && (given == passed || given == passed + [(asked, answer)])
              && server.got <= proxy.told <= AskedIn(passed) + (asked + [DELIM])
              && proxy.heard <= server.wrote <= AnsweredIn(given)
    {
      hide Inv, LinkGoes;
      assert steps[..0] == [];
      states := [State()];
      for i := 0 to |steps|
        invariant Inv()
        invariant server.manager.past == old(server.manager.past) + SettingsIn(steps[..i])
        invariant |states| == i + 1 && states[0] == old(State()) && states[i] == State()
        invariant forall j :: 0 <= j < i ==> LinkGoes(states[j], steps[j], states[j + 1])
      {
        assert steps[..i + 1][..i] == steps[..i];
        Take(steps[i]);
        states := states + [State()];
      }
      assert steps[..|steps|] == steps;
      WhatCrosses();
    }

    lemma WhatCrosses()
      requires Inv()
      ensures server.sets == 0 && proxy.Valid() && server.Valid()
      ensures AllOwed(server.log, server.manager.past) && AllProper(proxy.log) && Clean(server.log, proxy.log)
      ensures var given, passed := GivenOf(server.log), PassedOf(proxy.log);
              && (given == passed || given == passed + [(asked, answer)])
              && server.got <= proxy.told <= AskedIn(passed) + (asked + [DELIM])
              && proxy.heard <= server.wrote <= AnsweredIn(given)
    {
      hide InputOf, OutputOf, PutOf, TookOf, GivenOf, PassedOf, AskedIn, AnsweredIn, AllOwed, AllProper;
      hide ProxyConnection.Accounted, ProxyConnection.LinkAccounted, ServerConnection.Accounted, Upward, Downward;
      proxy.WhenStopped();
      server.WhenStopped();
      CleanPut(proxy.log);
      CleanOutput(server.log);
      assert [] + asked + [DELIM] == asked + [DELIM];
    }
  }
}
