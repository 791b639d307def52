/** The Boost.Asio server (boost_asio/src/server.cpp): a connection object and its handlers. */
module BoostServer {
  import opened Wire

  const RESPONSE_SUCCESS: string := "THANKS!"
  const RESPONSE_FAILURE: string := "DENIED!"
  const UNKNOWN_PROGNOSIS: string := "YOU ARE OUT OF LUCK!"

  const ZODIACS: seq<string> := [
    "Aries", "Taurus", "Gemini", "Cancer", "Leo", "Virgo",
    "Libra", "Scorpio", "Sagittarius", "Capricorn", "Aquarius", "Pisces"]

  /** FindZodiac: the first name in the list that `text` starts with. */
  function FirstName(text: string, from: nat): (z: Option<string>)
    ensures z.Some? ==> z.value in ZODIACS && z.value <= text
    ensures z.None? ==> forall i :: from <= i < |ZODIACS| ==> !(ZODIACS[i] <= text)
    decreases |ZODIACS| - from
  {
    if from >= |ZODIACS| then None
    else if ZODIACS[from] <= text then Some(ZODIACS[from])
    else FirstName(text, from + 1)
  }

  /** What a C string holds of a string. */
  function CStr(s: string): string {
    if s == [] || s[0] == '\0' then [] else [s[0]] + CStr(s[1..])
  }

  /** The first line of a buffer, without its delimiter, and what follows the delimiter. */
  ghost function FirstLineOf(buffer: string): (line: string)
    requires !NoDelim(buffer)
    ensures NoDelim(line)
  {
    buffer[..IndexOf(buffer)]
  }

  ghost function AfterLine(buffer: string): string
    requires !NoDelim(buffer)
  {
    buffer[IndexOf(buffer) + 1..]
  }

  lemma OneLine(line: string, rest: string)
    requires NoDelim(line)
    ensures !NoDelim(line + [DELIM] + rest)
    ensures FirstLineOf(line + [DELIM] + rest) == line && AfterLine(line + [DELIM] + rest) == rest
  {
    var t := line + [DELIM] + rest;
    assert t[|line|] == DELIM;
    IndexOfIs(t, |line|);
  }

  datatype Understood = StarLine(zodiac: string) | ClientLine(zodiac: string) | Nonsense

  /** What the server makes of a request line. */
  function Understand(line: string): Understood {
    if STAR_REQUEST <= line then
      match FirstName(CStr(line[|STAR_REQUEST|..]), 0)
      case Some(z) => StarLine(z)
      case None => Nonsense
    else if CLIENT_REQUEST <= line then
      match FirstName(CStr(line[|CLIENT_REQUEST|..]), 0)
      case Some(z) => ClientLine(z)
      case None => Nonsense
    else Nonsense
  }

  /** The line begins with the request `kind` for the zodiac `z`, whatever follows. */
  predicate Asks(line: string, kind: string, z: string) {
    z in ZODIACS && kind + z <= line
  }

  /** A line is understood as a request for a zodiac if and only if it begins with one. */
  lemma UnderstoodIsAsked(line: string, z: string)
    ensures Understand(line) == StarLine(z) <==> Asks(line, STAR_REQUEST, z)
    ensures Understand(line) == ClientLine(z) <==> Asks(line, CLIENT_REQUEST, z)
  {
    hide FirstName, CStr;
    BeginsWith(line, STAR_REQUEST, z);
    BeginsWith(line, CLIENT_REQUEST, z);
    assert STAR_REQUEST[0] != CLIENT_REQUEST[0];
    if STAR_REQUEST <= line {
      FirstIsNamed(line[|STAR_REQUEST|..], z);
    } else if CLIENT_REQUEST <= line {
      FirstIsNamed(line[|CLIENT_REQUEST|..], z);
    }
  }

  lemma BeginsWith(line: string, kind: string, z: string)
    ensures kind + z <= line <==> kind <= line && z <= line[|kind|..]
  {
    if kind + z <= line {
      assert line[..|kind + z|] == kind + z;
      assert line[..|kind|] == kind && line[|kind|..][..|z|] == z;
    }
    if kind <= line && z <= line[|kind|..] {
      assert line == kind + line[|kind|..];
    }
  }

  lemma FirstIsNamed(text: string, z: string)
    ensures FirstName(CStr(text), 0) == Some(z) <==> z in ZODIACS && z <= text
  {
    hide FirstName, CStr;
    if z in ZODIACS {
      var i :| 0 <= i < |ZODIACS| && ZODIACS[i] == z;
      NameIsText(i);
      CStrBegins(z, text);
      var first := FirstName(CStr(text), 0);
      if first.Some? && z <= text {
        var j :| 0 <= j < |ZODIACS| && ZODIACS[j] == first.value;
        OneName(CStr(text), i, j);
      }
    }
  }

  lemma {:induction false} CStrBegins(name: string, s: string)
    requires forall i :: 0 <= i < |name| ==> name[i] != '\0'
    ensures name <= CStr(s) <==> name <= s
    decreases |name|
  {
    if name != [] && s != [] && s[0] == name[0] {
      CStrBegins(name[1..], s[1..]);
      assert CStr(s) == [s[0]] + CStr(s[1..]);
      SameHead(name, s);
      SameHead(name, CStr(s));
    }
  }

  lemma SameHead(a: string, b: string)
    requires a != [] && b != [] && a[0] == b[0]
    ensures a <= b <==> a[1..] <= b[1..]
  {
    assert a == [a[0]] + a[1..] && b == [b[0]] + b[1..];
    if a[1..] <= b[1..] {
      assert b[1..][..|a| - 1] == a[1..];
    }
    if a <= b {
      assert b[1..][..|a| - 1] == b[..|a|][1..];
    }
  }

  lemma NameIsText(i: nat)
    requires i < |ZODIACS|
    ensures forall k :: 0 <= k < |ZODIACS[i]| ==> ZODIACS[i][k] != '\0'
  {
  }

  /** No text begins with two of the names: they differ in their first three letters. */
  lemma OneName(text: string, i: nat, j: nat)
    requires i < |ZODIACS| && j < |ZODIACS| && ZODIACS[i] <= text && ZODIACS[j] <= text
    ensures i == j
  {
    assert text[0] == ZODIACS[i][0] == ZODIACS[j][0];
    assert text[1] == ZODIACS[i][1] == ZODIACS[j][1];
    assert text[2] == ZODIACS[i][2] == ZODIACS[j][2];
  }

  function Response(prognoses: map<string, string>, z: string): string {
    if z in prognoses then prognoses[z] else UNKNOWN_PROGNOSIS
  }

  /** std::getline on a buffer that holds a delimiter: the line without it, and what is left. */
  method GetLine(buffer: string) returns (line: string, rest: string)
    requires !NoDelim(buffer)
    ensures line == FirstLineOf(buffer) && rest == AfterLine(buffer) && buffer == line + [DELIM] + rest
  {
    var i := 0;
    ghost var k := IndexOf(buffer);
    while buffer[i] != DELIM
      invariant i <= k && forall j :: 0 <= j < i ==> buffer[j] != DELIM
      decreases k - i
    {
      i := i + 1;
    }
    IndexOfIs(buffer, i);
    return buffer[..i], buffer[i + 1..];
  }

  /** A prognosis that some star has set. */
  datatype Setting = Setting(zodiac: string, line: string)

  /** What all settings so far leave. */
  function BookOf(past: seq<Setting>): map<string, string> {
    if past == [] then map[]
    else BookOf(past[..|past| - 1])[past[|past| - 1].zodiac := past[|past| - 1].line]
  }

  /** The last setting for `zodiac` is number `i`. */
  ghost predicate LastFor(past: seq<Setting>, zodiac: string, i: nat) {
    && i < |past| && past[i].zodiac == zodiac
    && forall j :: i < j < |past| ==> past[j].zodiac != zodiac
  }

  /** It is what was last set for each zodiac. */
  lemma {:induction false} BookIsLast(past: seq<Setting>, zodiac: string)
    ensures zodiac in BookOf(past) ==> exists i: nat :: LastFor(past, zodiac, i) && BookOf(past)[zodiac] == past[i].line
    ensures zodiac !in BookOf(past) ==> forall i :: 0 <= i < |past| ==> past[i].zodiac != zodiac
    decreases |past|
  {
    if past != [] {
      var n := |past| - 1;
      BookIsLast(past[..n], zodiac);
      if past[n].zodiac == zodiac {
        assert LastFor(past, zodiac, n);
      } else if zodiac in BookOf(past) {
        var i: nat :| LastFor(past[..n], zodiac, i) && BookOf(past[..n])[zodiac] == past[..n][i].line;
        assert LastFor(past, zodiac, i);
      }
    }
  }

  /** What a client that asks for `zodiac` is to be told: what was last set for it, or that nothing
      was. */
  ghost predicate ToldLast(past: seq<Setting>, zodiac: string, response: string) {
    || (exists i: nat :: LastFor(past, zodiac, i) && response == past[i].line)
    || (response == "YOU ARE OUT OF LUCK!" && forall i :: 0 <= i < |past| ==> past[i].zodiac != zodiac)
  }

  /** The response is that. */
  lemma ResponseIsLast(past: seq<Setting>, zodiac: string)
    ensures ToldLast(past, zodiac, Response(BookOf(past), zodiac))
  {
    hide BookOf;
    BookIsLast(past, zodiac);
  }

  class PrognosisManager {
    var prognoses: map<string, string>
    /** All that has been set, in order. */
    ghost var past: seq<Setting>

    constructor () ensures prognoses == map[] && past == [] && Valid() { prognoses, past := map[], []; }

    /** A prognosis is a line without its delimiter. */
    ghost predicate Valid()
      reads this
    {
      prognoses == BookOf(past) && forall z :: z in prognoses ==> NoDelim(prognoses[z])
    }

    method GetPrognosis(zodiac: string) returns (p: Option<string>)
      ensures p == if zodiac in prognoses then Some(prognoses[zodiac]) else None
    {
      p := if zodiac in prognoses then Some(prognoses[zodiac]) else None;
    }

    method SetPrognosis(zodiac: string, prognosis: string)
      requires Valid() && NoDelim(prognosis)
      modifies this
      ensures Valid() && prognoses == old(prognoses)[zodiac := prognosis]
      ensures past == old(past) + [Setting(zodiac, prognosis)]
    {
      ghost var s := Setting(zodiac, prognosis);
      assert (past + [s])[..|past|] == past;
      prognoses := prognoses[zodiac := prognosis];
      past := past + [s];
    }
  }

  // ---------- Server ----------

  /** What one element is all of. */
  lemma OnlyOne<T>(s: multiset<T>, x: T)
    requires |s| <= 1 && x in s
    ensures s == multiset{x} && s - multiset{x} == multiset{}
  {
    assert s == (s - multiset{x}) + multiset{x};
  }

  // ---------- What goes over a connection ----------

  /** An exchange: the bytes of a request, what was in the buffer behind them, the response, and
      what the exchange was. */
  datatype Served<T> = Served(asked: string, rest: string, response: string, what: T)

  /** All that the exchanges have taken from the input. */
  function InputOf<T>(log: seq<Served<T>>): string {
    if log == [] then [] else InputOf(log[..|log| - 1]) + log[|log| - 1].asked + log[|log| - 1].rest
  }

  /** All that is sent in the exchanges: each response goes behind what was in the buffer. */
  function OutputOf<T>(log: seq<Served<T>>): string {
    if log == [] then []
    else OutputOf(log[..|log| - 1]) + log[|log| - 1].rest + log[|log| - 1].response + [DELIM]
  }

  /** The responses alone. */
  function ResponsesOf<T>(log: seq<Served<T>>): string {
    if log == [] then [] else ResponsesOf(log[..|log| - 1]) + log[|log| - 1].response + [DELIM]
  }

  lemma ServedMore<T>(log: seq<Served<T>>, x: Served<T>)
    ensures InputOf(log + [x]) == InputOf(log) + x.asked + x.rest
    ensures OutputOf(log + [x]) == OutputOf(log) + x.rest + x.response + [DELIM]
  {
    assert (log + [x])[..|log|] == log;
  }

  lemma {:induction false} OutputIsLonger<T>(log: seq<Served<T>>)
    ensures |ResponsesOf(log)| <= |OutputOf(log)|
    ensures |ResponsesOf(log)| == |OutputOf(log)| ==> forall i :: 0 <= i < |log| ==> log[i].rest == []
    decreases |log|
  {
    if log != [] {
      OutputIsLonger(log[..|log| - 1]);
    }
  }

  /** The responses alone are sent if and only if no request had anything behind it in the buffer. */
  lemma {:induction false} OnlyResponses<T>(log: seq<Served<T>>)
    ensures OutputOf(log) == ResponsesOf(log) <==> forall i :: 0 <= i < |log| ==> log[i].rest == []
    decreases |log|
  {
    OutputIsLonger(log);
    if log != [] {
      var n := |log| - 1;
      OnlyResponses(log[..n]);
      if forall i :: 0 <= i < |log| ==> log[i].rest == [] {
        assert forall i :: 0 <= i < n ==> log[..n][i] == log[i];
        assert OutputOf(log[..n]) + log[n].rest == OutputOf(log[..n]);
      }
    }
  }

  // ---------- Server connections ----------

  /** A client's line, answered when `at` prognoses had been set; or a star's two lines, of which the
      second was set as number `at`. */
  datatype ServerWhat = Answered(line: string, at: nat) | Thanked(star: string, line: string, at: nat)

  /** A response is the one the server owes: to a client the prognosis last set for the zodiac asked
      for, and to a star the thanks for the prognosis that has just been set. */
  ghost predicate Owed(x: Served<ServerWhat>, past: seq<Setting>) {
    match x.what
    case Answered(line, at) =>
      && NoDelim(line) && x.asked == line + [DELIM] && at <= |past|
      && exists z :: Asks(line, CLIENT_REQUEST, z) && ToldLast(past[..at], z, x.response)
    case Thanked(star, line, at) =>
      && NoDelim(star) && NoDelim(line) && x.asked == star + [DELIM] + line + [DELIM]
      && at < |past| && Asks(star, STAR_REQUEST, past[at].zodiac) && past[at].line == line
      && x.response == "THANKS!"
  }

  lemma AnswerIsOwed(x: Served<ServerWhat>, line: string, past: seq<Setting>)
    requires NoDelim(line) && Understand(line).ClientLine? && x.asked == line + [DELIM]
    requires x.what == Answered(line, |past|) && x.response == Response(BookOf(past), Understand(line).zodiac)
    ensures Owed(x, past)
    ensures ToldLast(past, Understand(line).zodiac, x.response)
  {
    hide NoDelim, Understand, BookOf, Response, ToldLast, Asks;
    UnderstoodIsAsked(line, Understand(line).zodiac);
    ResponseIsLast(past, Understand(line).zodiac);
    assert past[..|past|] == past;
  }

  /** All responses are, and the order of the exchanges is that of the settings. */
  ghost predicate AllOwed(log: seq<Served<ServerWhat>>, past: seq<Setting>) {
    && (forall i :: 0 <= i < |log| ==> Owed(log[i], past))
    && (forall i, j :: 0 <= i < j < |log| ==> log[i].what.at <= log[j].what.at)
  }

  /** What is set later changes nothing in it. */
  lemma StillOwed(log: seq<Served<ServerWhat>>, past: seq<Setting>, more: seq<Setting>)
    requires AllOwed(log, past) && past <= more
    ensures AllOwed(log, more)
  {
    hide ToldLast, Asks, NoDelim;
    forall i | 0 <= i < |log|
      ensures Owed(log[i], more)
    {
      var x := log[i];
      assert Owed(x, past);
      if x.what.Answered? {
        assert more[..x.what.at] == past[..x.what.at];
      }
    }
  }

  lemma OneMoreOwed(log: seq<Served<ServerWhat>>, x: Served<ServerWhat>, past: seq<Setting>)
    requires AllOwed(log, past) && Owed(x, past)
    requires x.what.at == |past| || (x.what.Thanked? && x.what.at == |past| - 1 && AllOwed(log, past[..|past| - 1]))
    ensures AllOwed(log + [x], past)
  {
    hide ToldLast, Asks, NoDelim;
    if x.what.at != |past| {
      assert forall i :: 0 <= i < |log| ==> Owed(log[i], past[..|past| - 1]);
    }
  }

  /** The kinds of I/O operation that a server connection starts. */
  datatype ServerIo = ReadRequest | ReadPrognosis(zodiac: string) | WriteResponse

  /** What may happen to a connection. A step that is not possible at the time is skipped. */
  datatype ServerStep =
    | Arrives(bytes: string) | Leaves(n: nat) | Completes(op: ServerIo, error: bool) | Times(aborted: bool)
    | OthersSet(zodiac: string, line: string)

  /** A connection as a value, with all that has been set. */
  datatype ServerState = ServerState(
    buffer: string, open: bool, ops: multiset<ServerIo>, waits: nat, got: string, wrote: string,
    log: seq<Served<ServerWhat>>, first: string, past: seq<Setting>)

  /** A step is possible: bytes arrive while a read is outstanding and leave while a write is, the
      handler of a read needs a whole line and that of a write an empty buffer unless they fail, and
      a timer has to be waited for. */
  ghost predicate ServerMay(s: ServerState, step: ServerStep) {
    match step
    case Arrives(_) => s.open && s.ops != multiset{WriteResponse}
    case Leaves(n) => s.open && s.ops == multiset{WriteResponse} && n <= |s.buffer|
    case Completes(op, error) =>
      op in s.ops && (s.open && !error ==> if op == WriteResponse then s.buffer == [] else !NoDelim(s.buffer))
    case Times(_) => s.waits > 0
    case OthersSet(_, line) => NoDelim(line)
  }

  /** The step takes the connection from `s` to `t`. */
  ghost predicate ServerTakes(s: ServerState, step: ServerStep, t: ServerState)
    requires ServerMay(s, step)
  {
    match step
    case Arrives(bytes) => t == s.(buffer := s.buffer + bytes, got := s.got + bytes)
    case Leaves(n) => t == s.(buffer := s.buffer[n..], wrote := s.wrote + s.buffer[..n])
    case Completes(op, error) =>
      if s.open && !error then ServerHandled(s, op, t) else t == s.(open := false, ops := multiset{})
    case Times(aborted) => t == if s.open && aborted then s else s.(open := false, waits := s.waits - 1)
    case OthersSet(zodiac, line) => t == s.(past := s.past + [Setting(zodiac, line)])
  }

  /** What the handlers do when nothing has failed. */
  ghost predicate ServerHandled(s: ServerState, op: ServerIo, t: ServerState)
    requires op != WriteResponse ==> !NoDelim(s.buffer)
  {
    match op
    case ReadRequest =>
      var line, rest := FirstLineOf(s.buffer), AfterLine(s.buffer);
      (match Understand(line)
       case StarLine(z) => t == s.(buffer := rest, ops := multiset{ReadPrognosis(z)}, first := line)
       case ClientLine(z) =>
         t == ServerResponded(s, Served(line + [DELIM], rest, Response(BookOf(s.past), z), Answered(line, |s.past|)))
       case Nonsense => t == s.(buffer := rest, open := false, ops := multiset{}))
    case ReadPrognosis(z) =>
      var line, rest := FirstLineOf(s.buffer), AfterLine(s.buffer);
      t == ServerResponded(s.(past := s.past + [Setting(z, line)]),
                     Served(s.first + [DELIM] + line + [DELIM], rest, RESPONSE_SUCCESS, Thanked(s.first, line, |s.past|)))
    case WriteResponse => t == s.(ops := multiset{ReadRequest})
  }

  function ServerResponded(s: ServerState, x: Served<ServerWhat>): ServerState {
    s.(buffer := x.rest + x.response + [DELIM], ops := multiset{WriteResponse}, log := s.log + [x])
  }

  /** A step that is possible is taken, and any other is skipped. */
  ghost predicate ServerGoes(s: ServerState, step: ServerStep, t: ServerState) {
    if ServerMay(s, step) then ServerTakes(s, step, t) else t == s
  }

  class ServerConnection {
    const manager: PrognosisManager
    /** One buffer for reading and for writing. */
    var buffer: string
    var open: bool
    /** The I/O operations whose handlers have not run yet, and the number of such timer waits. */
    var ops: multiset<ServerIo>
    var waits: nat
    /** How many handlers have run since the connection was stopped. */
    ghost var late: nat
    /** How often this connection has set a prognosis. */
    ghost var sets: nat

    /** All that was received and all that was sent, the exchanges, and the star's line of the one
        in work. */
    ghost var got: string
    ghost var wrote: string
    ghost var log: seq<Served<ServerWhat>>
    ghost var first: string

    /** While the connection is open exactly one I/O operation and one timer wait are outstanding.
        It is always stopped by one of its own handlers, so one handler more runs then. */
    ghost predicate Valid()
      reads this, manager
    {
      && manager.Valid()
      && |ops| <= 1 && waits <= 1
      && (open ==> |ops| == 1 && waits == 1 && late == 0)
      && (!open ==> late + |ops| + waits == 1)
      && Accounted() && AllOwed(log, manager.past)
      && (forall z :: Doing(ReadPrognosis(z)) ==> NoDelim(first) && Understand(first) == StarLine(z))
    }

    /** What was received has been taken by the exchanges or is in work; what was sent is what the
        exchanges say, up to what has still to be sent. */
    ghost predicate Accounted()
      reads this
    {
      && (Doing(ReadRequest) ==> got == InputOf(log) + buffer && wrote == OutputOf(log))
      && (forall z :: Doing(ReadPrognosis(z)) ==> got == InputOf(log) + first + [DELIM] + buffer && wrote == OutputOf(log))
      && (Doing(WriteResponse) ==> got == InputOf(log) && wrote + buffer == OutputOf(log))
      && (!open ==> InputOf(log) <= got && wrote <= OutputOf(log))
    }

    ghost function Now(): ServerState
      reads this, manager
    {
      ServerState(buffer, open, ops, waits, got, wrote, log, first, manager.past)
    }

    function Outstanding(): nat
      reads this
    {
      |ops| + waits
    }

    /** The connection is open, and `op` is what it is waiting for. */
    predicate Doing(op: ServerIo)
      reads this
    {
      open && ops == multiset{op}
    }

    /** start, on an accepted connection. */
    constructor (manager: PrognosisManager)
      requires manager.Valid()
      ensures Valid() && this.manager == manager && Doing(ReadRequest) && buffer == [] && sets == 0
      ensures got == [] && wrote == [] && log == []
    {
      this.manager := manager;
      buffer := [];
      open := true;
      ops := multiset{};
      waits, late, sets := 0, 0, 0;
      got, wrote, log, first := [], [], [], [];
      new;
      Start(ReadRequest);
      StartWaitDeadline();
    }

    method Stop()
      modifies `open
      ensures !open
    {
      open := false;
    }

    /** async_read_until or async_write. */
    method Start(op: ServerIo)
      modifies `ops
      ensures ops == old(ops) + multiset{op}
    {
      ops := ops + multiset{op};
    }

    method StartWaitDeadline()
      modifies `waits
      ensures waits == old(waits) + 1
    {
      waits := waits + 1;
    }

    /** An operation is over, and its handler runs. */
    method Complete(op: ServerIo)
      requires op in ops
      modifies `ops, `late
      ensures ops == old(ops) - multiset{op} && late == old(late) + if open then 0 else 1
    {
      ops := ops - multiset{op};
      late := late + if open then 0 else 1;
    }

    /** A timer wait is over, and its handler runs. */
    method CompleteWait()
      requires waits > 0
      modifies `waits, `late
      ensures waits == old(waits) - 1 && late == old(late) + if open then 0 else 1
    {
      waits := waits - 1;
      late := late + if open then 0 else 1;
    }

    /** async_read_until receives something. */
    method Arrive(bytes: string)
      requires Valid() && open && !Doing(WriteResponse)
      modifies `buffer, `got
      ensures Valid() && buffer == old(buffer) + bytes && got == old(got) + bytes
      ensures ServerGoes(old(Now()), Arrives(bytes), Now())
    {
      hide InputOf, OutputOf, AllOwed, Understand;
      buffer := buffer + bytes;
      got := got + bytes;
      assert InputOf(log) + old(buffer) + bytes == InputOf(log) + buffer;
      assert InputOf(log) + first + [DELIM] + old(buffer) + bytes == InputOf(log) + first + [DELIM] + buffer;
    }

    /** async_write sends something. */
    method Leave(n: nat)
      requires Valid() && Doing(WriteResponse) && n <= |buffer|
      modifies `buffer, `wrote
      ensures Valid() && buffer == old(buffer)[n..] && wrote == old(wrote) + old(buffer)[..n]
      ensures ServerGoes(old(Now()), Leaves(n), Now())
    {
      hide InputOf, OutputOf, AllOwed, Understand;
      wrote := wrote + buffer[..n];
      buffer := buffer[n..];
      assert wrote + buffer == old(wrote) + old(buffer);
    }

    /** The common beginning of all I/O handlers: they do nothing once the connection is stopped, and
        stop it on an error. */
    method Resume(op: ServerIo, error: bool) returns (go: bool)
      requires Valid() && op in ops
      modifies `ops, `late, `open
      ensures go <==> old(open) && !error
      ensures ops == multiset{} && open == go && (go ==> late == old(late)) && (!go ==> Valid())
      ensures old(ops) == multiset{op}
    {
      hide InputOf, OutputOf, AllOwed, Understand, NoDelim;
      WhenStopped();
      OnlyOne(ops, op);
      Complete(op);
      if !open {
        return false;
      }
      if error {
        Stop();
        return false;
      }
      go := true;
    }

    /** handleReadRequest. The response is put behind whatever the buffer still holds. */
    method HandleReadRequest(error: bool)
      requires Valid() && ReadRequest in ops && (open && !error ==> !NoDelim(buffer))
      modifies this
      ensures Valid() && waits == old(waits) && sets == old(sets)
      ensures got == old(got) && wrote == old(wrote)
      ensures old(!open) || error ==> !open && ops == multiset{} && buffer == old(buffer) && log == old(log)
      ensures old(open) && !error ==>
                var line, rest := FirstLineOf(old(buffer)), AfterLine(old(buffer));
                match Understand(line)
                case StarLine(z) => Doing(ReadPrognosis(z)) && buffer == rest && first == line && log == old(log)
                case ClientLine(z) =>
                  var response := Response(manager.prognoses, z);
                  && Doing(WriteResponse) && buffer == rest + response + [DELIM] && ToldLast(manager.past, z, response)
                  && log == old(log) + [Served(line + [DELIM], rest, response, Answered(line, |manager.past|))]
                case Nonsense => !open && ops == multiset{} && buffer == rest && log == old(log)
      ensures ServerGoes(old(Now()), Completes(ReadRequest, error), Now())
    {
      hide InputOf, OutputOf, FirstLineOf, AfterLine, NoDelim, IndexOf, Understand, Response, AllOwed, BookOf, ToldLast;
      var go := Resume(ReadRequest, error);
      if !go {
        return;
      }
      var line, rest := GetLine(buffer);
      buffer := rest;
      ServeLine(line, rest);
    }

    /** `asked` has been taken out of the buffer, and nothing is outstanding but the timer. */
    ghost predicate HasTaken(asked: string, rest: string)
      reads this, manager
    {
      && manager.Valid() && AllOwed(log, manager.past) && open && ops == multiset{} && waits == 1 && late == 0
      && buffer == rest && got == InputOf(log) + (asked + rest) && wrote == OutputOf(log)
    }

    /** The branches of handleReadRequest for a line that has come in full. */
    method ServeLine(line: string, rest: string)
      requires HasTaken(line + [DELIM], rest) && NoDelim(line)
      modifies `open, `ops, `first, `buffer, `log
      ensures Valid()
      ensures match Understand(line)
              case StarLine(z) => Doing(ReadPrognosis(z)) && buffer == rest && first == line && log == old(log)
              case ClientLine(z) =>
                var response := Response(manager.prognoses, z);
                && Doing(WriteResponse) && buffer == rest + response + [DELIM] && ToldLast(manager.past, z, response)
                && log == old(log) + [Served(line + [DELIM], rest, response, Answered(line, |manager.past|))]
                && first == old(first)
              case Nonsense => !open && ops == multiset{} && buffer == rest && log == old(log) && first == old(first)
    {
      hide InputOf, OutputOf, NoDelim, CStr, FirstName, BookOf, ToldLast, HasTaken, ServerConnection.Valid;
      if STAR_REQUEST <= line {
        var zodiac := FirstName(CStr(line[|STAR_REQUEST|..]), 0);
        if zodiac.None? {
          Reject(line, rest);
          return;
        }
        AwaitPrognosis(line, rest, zodiac.value);
      } else if CLIENT_REQUEST <= line {
        var zodiac := FirstName(CStr(line[|CLIENT_REQUEST|..]), 0);
        if zodiac.None? {
          Reject(line, rest);
          return;
        }
        Answer(line, rest, zodiac.value);
      } else {
        Reject(line, rest);
      }
    }

    /** The connection is stopped instead. */
    method Reject(ghost line: string, ghost rest: string)
      requires HasTaken(line + [DELIM], rest)
      modifies `open
      ensures Valid() && !open && ops == multiset{} && buffer == rest
    {
      hide InputOf, OutputOf, NoDelim, AllOwed;
      Stop();
    }

    method Answer(line: string, rest: string, zodiac: string)
      requires HasTaken(line + [DELIM], rest) && NoDelim(line) && Understand(line) == ClientLine(zodiac)
      modifies `ops, `buffer, `log
      ensures var response := Response(manager.prognoses, zodiac);
              && Valid() && Doing(WriteResponse) && buffer == rest + response + [DELIM]
              && ToldLast(manager.past, zodiac, response)
              && log == old(log) + [Served(line + [DELIM], rest, response, Answered(line, |manager.past|))]
    {
      hide InputOf, OutputOf, NoDelim, AllOwed, Owed, ToldLast, Understand, BookOf;
      var known := manager.GetPrognosis(zodiac);
      var response := if known.Some? then known.value else UNKNOWN_PROGNOSIS;
      ghost var x := Served(line + [DELIM], rest, response, Answered(line, |manager.past|));
      AnswerIsOwed(x, line, manager.past);
      OneMoreOwed(log, x, manager.past);
      Respond(x, response);
    }

    method AwaitPrognosis(line: string, rest: string, zodiac: string)
      requires HasTaken(line + [DELIM], rest) && NoDelim(line) && Understand(line) == StarLine(zodiac)
      modifies `ops, `first
      ensures Valid() && Doing(ReadPrognosis(zodiac)) && first == line && buffer == rest
    {
      hide InputOf, OutputOf, NoDelim, Understand, AllOwed;
      first := line;
      assert InputOf(log) + first + [DELIM] + rest == InputOf(log) + (first + [DELIM] + rest);
      Start(ReadPrognosis(zodiac));
    }

    /** The response goes behind what the buffer holds, and all of it is sent. */
    method Respond(ghost x: Served<ServerWhat>, response: string)
      requires HasTaken(x.asked, x.rest) && response == x.response && AllOwed(log + [x], manager.past)
      modifies `ops, `buffer, `log
      ensures Valid() && Doing(WriteResponse) && buffer == x.rest + response + [DELIM]
      ensures log == old(log) + [x]
    {
      hide InputOf, OutputOf, NoDelim, AllOwed;
      ServedMore(log, x);
      assert OutputOf(log) + x.rest + response + [DELIM] == OutputOf(log) + (x.rest + response + [DELIM]);
      assert InputOf(log) + x.asked + x.rest == InputOf(log) + (x.asked + x.rest);
      buffer := buffer + response + [DELIM];
      log := log + [x];
      Start(WriteResponse);
    }

    /** handleReadPrognosis. */
    method HandleReadPrognosis(zodiac: string, error: bool)
      requires Valid() && ReadPrognosis(zodiac) in ops && (open && !error ==> !NoDelim(buffer))
      modifies this, manager
      ensures Valid() && waits == old(waits) && got == old(got) && wrote == old(wrote)
      ensures old(!open) || error ==>
                !open && ops == multiset{} && manager.past == old(manager.past) && sets == old(sets) && log == old(log)
      ensures old(open) && !error ==>
                var line, rest := FirstLineOf(old(buffer)), AfterLine(old(buffer));
                && Doing(WriteResponse) && buffer == rest + RESPONSE_SUCCESS + [DELIM]
                && log == old(log) + [Served(old(first) + [DELIM] + line + [DELIM], rest, RESPONSE_SUCCESS,
                                             Thanked(old(first), line, old(|manager.past|)))]
                && manager.past == old(manager.past) + [Setting(zodiac, line)]
                && sets == old(sets) + 1
      ensures ServerGoes(old(Now()), Completes(ReadPrognosis(zodiac), error), Now())
    {
      hide InputOf, OutputOf, FirstLineOf, AfterLine, NoDelim, IndexOf, Understand, AllOwed, BookOf, Asks;
      var go := Resume(ReadPrognosis(zodiac), error);
      if !go {
        return;
      }
      var line, rest := GetLine(buffer);
      ghost var past := manager.past;
      UnderstoodIsAsked(first, zodiac);
      manager.SetPrognosis(zodiac, line);
      sets := sets + 1;
      buffer := rest;
      ghost var x := Served(first + [DELIM] + line + [DELIM], rest, RESPONSE_SUCCESS, Thanked(first, line, |past|));
      assert InputOf(log) + first + [DELIM] + (line + [DELIM] + rest) == InputOf(log) + (x.asked + x.rest);
      assert manager.past[..|past|] == past;
      StillOwed(log, past, manager.past);
      OneMoreOwed(log, x, manager.past);
      Respond(x, RESPONSE_SUCCESS);
    }

    /** handleWriteResponse. */
    method HandleWriteResponse(error: bool)
      requires Valid() && WriteResponse in ops && (open && !error ==> buffer == [])
      modifies this
      ensures Valid() && buffer == old(buffer)
      ensures waits == old(waits) && sets == old(sets) && got == old(got) && wrote == old(wrote) && log == old(log)
      ensures if old(open) && !error then Doing(ReadRequest) else !open && ops == multiset{}
      ensures ServerGoes(old(Now()), Completes(WriteResponse, error), Now())
    {
      hide InputOf, OutputOf, AllOwed, Understand;
      assert wrote + [] == wrote && InputOf(log) + [] == InputOf(log);
      var go := Resume(WriteResponse, error);
      if !go {
        return;
      }
      Start(ReadRequest);
    }

    /** handleDeadline: a wait that was cut short by a new deadline is started again. */
    method HandleDeadline(aborted: bool)
      requires Valid() && waits > 0
      modifies this
      ensures Valid() && buffer == old(buffer) && ops == old(ops)
      ensures sets == old(sets) && got == old(got) && wrote == old(wrote) && log == old(log)
      ensures open <==> old(open) && aborted
      ensures waits == if open then 1 else 0
      ensures ServerGoes(old(Now()), Times(aborted), Now())
    {
      hide InputOf, OutputOf, AllOwed, Understand;
      WhenStopped();
      CompleteWait();
      if !open {
        return;
      }
      if aborted {
        StartWaitDeadline();
      } else {
        Stop();
      }
    }

    /** Whatever the connection is doing, if it is stopped now what was sent was due. */
    lemma WhenStopped()
      requires Valid()
      ensures InputOf(log) <= got && wrote <= OutputOf(log)
    {
      hide InputOf, OutputOf, AllOwed, Understand;
      if open {
        var op :| op in ops;
        OnlyOne(ops, op);
        match op {
          case ReadRequest => assert Doing(ReadRequest);
          case ReadPrognosis(z) =>
            assert Doing(ReadPrognosis(z));
            assert got == InputOf(log) + (first + [DELIM] + buffer);
          case WriteResponse =>
            assert Doing(WriteResponse);
            assert wrote <= wrote + buffer;
        }
      }
    }

    /** Whether the handler of `op` can run: a read needs a whole line, a write is over when all
        has been written, and both may fail at any time. */
    predicate Runnable(op: ServerIo, error: bool)
      reads this
    {
      op in ops && (open && !error ==> if op == WriteResponse then buffer == [] else !NoDelim(buffer))
    }

    /** Any I/O handler: it keeps the number of outstanding operations while the connection is
        open, and starts nothing once it is stopped. */
    method Handle(op: ServerIo, error: bool)
      requires Valid() && Runnable(op, error)
      modifies this, manager
      ensures Valid() && waits == old(waits) && (old(!open) ==> !open) && wrote == old(wrote) && old(log) <= log
      ensures old(manager.past) <= manager.past
      ensures Outstanding() == old(Outstanding()) - if open then 0 else 1
      ensures ServerGoes(old(Now()), Completes(op, error), Now())
    {
      hide InputOf, OutputOf, ServerConnection.Accounted, Understand, FirstLineOf, AfterLine, NoDelim, AllOwed, ServerGoes;
      OnlyOne(ops, op);
      match op {
        case ReadRequest => HandleReadRequest(error);
        case ReadPrognosis(zodiac) => HandleReadPrognosis(zodiac, error);
        case WriteResponse => HandleWriteResponse(error);
      }
    }

    /** Another connection sets a prognosis. */
    method OtherSets(zodiac: string, line: string)
      requires Valid() && NoDelim(line)
      modifies manager
      ensures Valid() && manager.past == old(manager.past) + [Setting(zodiac, line)]
      ensures manager.prognoses == old(manager.prognoses)[zodiac := line]
      ensures ServerGoes(old(Now()), OthersSet(zodiac, line), Now())
    {
      hide InputOf, OutputOf, ServerConnection.Accounted, AllOwed, Understand, BookOf, NoDelim;
      ghost var past := manager.past;
      manager.SetPrognosis(zodiac, line);
      StillOwed(log, past, manager.past);
    }

    /** One step, if it is possible. */
    method Take(step: ServerStep)
      requires Valid()
      modifies this, manager
      ensures Valid() && old(log) <= log && old(manager.past) <= manager.past
      ensures ServerGoes(old(Now()), step, Now())
    {
      hide NoDelim, InputOf, OutputOf, ServerConnection.Valid, AllOwed, ServerTakes;
      match step {
        case Arrives(bytes) =>
          if open && !Doing(WriteResponse) { Arrive(bytes); }
        case Leaves(n) =>
          if Doing(WriteResponse) && n <= |buffer| { Leave(n); }
        case Completes(op, error) =>
          if Runnable(op, error) { Handle(op, error); }
        case Times(aborted) =>
          if waits > 0 { HandleDeadline(aborted); }
        case OthersSet(zodiac, line) =>
          if NoDelim(line) { OtherSets(zodiac, line); }
      }
    }

    /** Any run of a connection, among others that set prognoses. Every step that is possible is taken:
        `states` are the states in between. While the connection is open, one I/O operation and one
        timer wait are outstanding; once it is stopped, one handler more runs and starts nothing. All
        that has been sent is the responses owed, each behind what was in the buffer, up to what is
        still to be sent. */
    method Run(steps: seq<ServerStep>) returns (ghost states: seq<ServerState>)
      requires Valid() && open
      modifies this, manager
      ensures |states| == |steps| + 1 && states[0] == old(Now()) && states[|steps|] == Now()
      ensures forall i :: 0 <= i < |steps| ==> ServerGoes(states[i], steps[i], states[i + 1])
      ensures open ==> |ops| == 1 && waits == 1 && late == 0
      ensures !open ==> late + |ops| + waits == 1
      ensures wrote <= OutputOf(log) && InputOf(log) <= got
      ensures Doing(ReadRequest) ==> wrote == OutputOf(log) && got == InputOf(log) + buffer
      ensures AllOwed(log, manager.past) && old(manager.past) <= manager.past
      ensures Valid() && old(log) <= log
    {
      hide NoDelim, InputOf, OutputOf, ServerConnection.Valid, AllOwed, ServerGoes;
      states := [Now()];
      for i := 0 to |steps|
        invariant Valid() && old(log) <= log && old(manager.past) <= manager.past
        invariant |states| == i + 1 && states[0] == old(Now()) && states[i] == Now()
        invariant forall j :: 0 <= j < i ==> ServerGoes(states[j], steps[j], states[j + 1])
      {
        Take(steps[i]);
        states := states + [Now()];
      }
      WhenStopped();
      ByValid();
    }

    lemma ByValid()
      requires Valid()
      ensures open ==> |ops| == 1 && waits == 1 && late == 0
      ensures !open ==> late + |ops| + waits == 1
      ensures Doing(ReadRequest) ==> wrote == OutputOf(log) && got == InputOf(log) + buffer
      ensures AllOwed(log, manager.past)
    {
      hide InputOf, OutputOf, AllOwed, Understand;
    }
  }

  /** A client that sends a request and one byte more before it is answered gets that byte back, in
      front of the answer. */
  method EchoExample() returns (sent: string)
    ensures sent == "X" + UNKNOWN_PROGNOSIS + "\n"
  {
    var manager := new PrognosisManager();
    var connection := new ServerConnection(manager);
    var bytes := "HOROSCOPE Aries\nX";
    EchoedLine();
    connection.Arrive(bytes);
    assert connection.buffer == bytes;
    connection.HandleReadRequest(false);
    sent := connection.buffer;
  }

  lemma EchoedLine()
    ensures var bytes := "HOROSCOPE Aries\nX";
            && !NoDelim(bytes) && AfterLine(bytes) == "X"
            && Understand(FirstLineOf(bytes)) == ClientLine("Aries")
  {
    var line := "HOROSCOPE Aries";
    assert line + [DELIM] + "X" == "HOROSCOPE Aries\nX";
    OneLine(line, "X");
    AsksAries(line);
  }

  lemma AsksAries(line: string)
    requires line == "HOROSCOPE Aries"
    ensures Understand(line) == ClientLine("Aries")
  {
    assert line[0] != STAR_REQUEST[0];
    assert line[..|CLIENT_REQUEST|] == CLIENT_REQUEST;
    var text := line[|CLIENT_REQUEST|..];
    assert text == "Aries";
    NoZero(text);
    assert ZODIACS[0] <= text;
  }

  lemma {:induction false} NoZero(s: string)
    requires forall i :: 0 <= i < |s| ==> s[i] != '\0'
    ensures CStr(s) == s
    decreases |s|
  {
    if s != [] { NoZero(s[1..]); }
  }
}
