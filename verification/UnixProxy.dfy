/** The UNIX proxy (unix_socket_api/src/proxy.c) with the line functions it uses
    (unix_socket_api/generic/generic.c), for one child that owns its socket to the server. */
module UnixProxy {
  import opened Wire
  import opened LineSpec
  import opened Machine
  import opened Runs

  // ---------- What goes over a socket ----------

  /** A call of send or recv on a socket: the bytes that it moved, none at end of stream, or that it
      failed. */
  datatype Traffic = Out(bytes: string) | In(bytes: string) | SendFailed | RecvFailed

  /** The lines of a stream that are complete, delimiters included. */
  function LinesOf(s: string): seq<string> {
    if s == [] then []
    else if s[|s| - 1] == DELIM then LinesOf(s[..|s| - 1]) + [OpenLine(s[..|s| - 1]) + [DELIM]]
    else LinesOf(s[..|s| - 1])
  }

  /** What follows the last delimiter. */
  function OpenLine(s: string): string {
    if s == [] || s[|s| - 1] == DELIM then []
    else OpenLine(s[..|s| - 1]) + [s[|s| - 1]]
  }

  lemma {:induction false} OpenLineGrows(s: string, more: string)
    requires NoDelim(more)
    ensures LinesOf(s + more) == LinesOf(s) && OpenLine(s + more) == OpenLine(s) + more
    decreases |more|
  {
    var n := |more|;
    if n == 0 {
      assert s + more == s;
    } else {
      OpenLineGrows(s, more[..n - 1]);
      assert (s + more)[..|s| + n - 1] == s + more[..n - 1];
    }
  }

  lemma DelimCloses(s: string)
    ensures LinesOf(s + [DELIM]) == LinesOf(s) + [OpenLine(s) + [DELIM]] && OpenLine(s + [DELIM]) == []
  {
    assert (s + [DELIM])[..|s|] == s;
  }

  lemma LineCompletes(s: string, line: string)
    requires IsLine(line) && OpenLine(s) == []
    ensures LinesOf(s + line) == LinesOf(s) + [line] && OpenLine(s + line) == []
  {
    hide LinesOf, OpenLine;
    var text := line[..|line| - 1];
    OpenLineGrows(s, text);
    DelimCloses(s + text);
    assert text + [DELIM] == line;
    assert [] + text == text;
    assert (s + text) + [DELIM] == s + line;
  }

  /** The account of the traffic with a server that is supposed to answer every line with one
      line: the bytes sent, the answers in order, the part of an answer received so far, and
      whether the server has kept to that. */
  datatype Account = Account(sent: string, answers: seq<string>, partial: string, honest: bool)

  ghost function Post(a: Account, t: Traffic): Account {
    match t
    case Out(bytes) => a.(sent := a.sent + bytes)
    case In(bytes) =>
      var p := a.partial + bytes;
      if bytes == [] || !a.honest then a
      else if |a.answers| >= |LinesOf(a.sent)| then a.(honest := false)
      else if NoDelim(p) then a.(partial := p)
      else if IsFirstDelim(p, |p| - 1) then a.(answers := a.answers + [p], partial := [])
      else a.(honest := false)
    case _ => a
  }

  ghost function AccountOf(history: seq<Traffic>): Account {
    if history == [] then Account([], [], [], true)
    else Post(AccountOf(history[..|history| - 1]), history[|history| - 1])
  }

  lemma AccountMore(history: seq<Traffic>, t: Traffic)
    ensures AccountOf(history + [t]) == Post(AccountOf(history), t)
  {
    assert (history + [t])[..|history|] == history;
  }

  function Received(history: seq<Traffic>): string {
    if history == [] then []
    else Received(history[..|history| - 1])
         + if history[|history| - 1].In? then history[|history| - 1].bytes else []
  }

  lemma ReceivedMore(history: seq<Traffic>, t: Traffic)
    ensures Received(history + [t]) == Received(history) + if t.In? then t.bytes else []
  {
    assert (history + [t])[..|history|] == history;
  }

  function Sent(history: seq<Traffic>): string {
    if history == [] then []
    else Sent(history[..|history| - 1])
         + if history[|history| - 1].Out? then history[|history| - 1].bytes else []
  }

  lemma SentMore(history: seq<Traffic>, t: Traffic)
    ensures Sent(history + [t]) == Sent(history) + if t.Out? then t.bytes else []
  {
    assert (history + [t])[..|history|] == history;
  }

  predicate IsRecv(t: Traffic) {
    t.In? || t.RecvFailed?
  }

  /** What has been received since the last call of send. */
  function Since(history: seq<Traffic>): string {
    if history == [] || !IsRecv(history[|history| - 1]) then []
    else Since(history[..|history| - 1])
         + if history[|history| - 1].In? then history[|history| - 1].bytes else []
  }

  lemma SinceMore(history: seq<Traffic>, t: Traffic)
    ensures Since(history + [t]) ==
            if !IsRecv(t) then [] else Since(history) + if t.In? then t.bytes else []
  {
    assert (history + [t])[..|history|] == history;
  }

  /** Of one line, no part makes more than one line of a stream. */
  lemma PartOfLine(s: string, line: string, k: nat)
    requires IsLine(line) && k <= |line|
    ensures |LinesOf(s + line[..k])| <= |LinesOf(s)| + 1
  {
    hide LinesOf, OpenLine;
    if k < |line| {
      OpenLineGrows(s, line[..k]);
    } else {
      var text := line[..k - 1];
      OpenLineGrows(s, text);
      DelimCloses(s + text);
      assert s + line[..k] == s + text + [DELIM];
    }
  }

  /** With an honest server at the other end, at most one line is sent that is not answered. */
  ghost predicate Patient(history: seq<Traffic>) {
    history != [] ==>
      var n := |history| - 1;
      var a := AccountOf(history[..n]);
      && Patient(history[..n])
      && (history[n].Out? && a.honest ==> |LinesOf(a.sent + history[n].bytes)| <= |a.answers| + 1)
  }

  lemma PatientMore(history: seq<Traffic>, t: Traffic)
    ensures Patient(history + [t]) <==>
              && Patient(history)
              && (t.Out? && AccountOf(history).honest ==>
                    |LinesOf(AccountOf(history).sent + t.bytes)| <= |AccountOf(history).answers| + 1)
  {
    assert (history + [t])[..|history|] == history;
  }

  /** A socket, known by what has gone over it. recv and send may do whatever they may do. */
  class Socket {
    ghost var history: seq<Traffic>

    constructor ()
      ensures history == []
    {
      history := [];
    }

    method Recv(n: nat) returns (r: RecvResult)
      modifies this
      ensures r.Got? ==> |r.bytes| <= n && history == old(history) + [In(r.bytes)]
      ensures r.RecvError? ==> history == old(history) + [RecvFailed]
    {
      assert RecvError.Got? ==> false;
      r :| r.Got? ==> |r.bytes| <= n;
      history := history + [if r.Got? then In(r.bytes) else RecvFailed];
    }

    /** send takes at least one byte or fails. */
    method Send(bytes: string) returns (r: SendResult)
      requires bytes != []
      modifies this
      ensures r.Accepts? ==> 0 < r.n <= |bytes| && history == old(history) + [Out(bytes[..r.n])]
      ensures r.SendError? ==> history == old(history) + [SendFailed]
    {
      assert SendError.Accepts? ==> false;
      r :| r.Accepts? ==> 0 < r.n <= |bytes|;
      history := history + [if r.Accepts? then Out(bytes[..r.n]) else SendFailed];
    }
  }

  // ---------- recv_line and send_all ----------

  /** What recv_line does to the account of a server socket. */
  ghost predicate LineReceived(before: Account, after: Account, r: int, line: string) {
    && after.sent == before.sent
    && (after.honest ==> before.honest)
    && (after.honest && before.partial == [] && r > 0 ==>
          after.answers == before.answers + [line] && after.partial == [] && |before.answers| < |LinesOf(before.sent)|)
    && (after.honest && before.partial == [] && r <= 0 ==> after.answers == before.answers)
    && (after.honest && |before.answers| >= |LinesOf(before.sent)| ==> r <= 0 && after == before)
  }

  /** ... and what it has done when it has received a part of a line. */
  ghost predicate PartReceived(before: Account, a: Account, got: string) {
    && a.sent == before.sent
    && (a.honest ==> before.honest)
    && (a.honest && before.partial == [] ==> a.answers == before.answers && a.partial == got)
    && (a.honest && |before.answers| >= |LinesOf(before.sent)| ==> a == before && got == [])
  }

  lemma ChunkReceived(before: Account, a: Account, got: string, bytes: string)
    requires PartReceived(before, a, got) && NoDelim(got) && bytes != []
    ensures var a', p := Post(a, In(bytes)), got + bytes;
            && (NoDelim(bytes) ==> NoDelim(p) && PartReceived(before, a', p) && LineReceived(before, a', -1, []))
            && (IsFirstDelim(bytes, |bytes| - 1) ==> IsFirstDelim(p, |p| - 1) && LineReceived(before, a', |p|, p))
            && (!NoDelim(bytes) && !IsFirstDelim(bytes, |bytes| - 1) ==> LineReceived(before, a', -1, []))
  {
    var p := got + bytes;
    assert forall i :: 0 <= i < |bytes| ==> p[|got| + i] == bytes[i];
    if !NoDelim(bytes) {
      var i :| 0 <= i < |bytes| && bytes[i] == DELIM;
      assert p[|got| + i] == DELIM;
    }
  }

  lemma NothingBooked(a: Account)
    ensures Post(a, In([])) == Post(a, RecvFailed) == Post(a, SendFailed) == a
  {
  }

  lemma PartIsNoLine(before: Account, a: Account, got: string)
    requires PartReceived(before, a, got)
    ensures forall r | r <= 0 :: LineReceived(before, a, r, [])
  {
  }

  /** Since the history was `before`, `got` has been received, and it holds no delimiter yet. */
  ghost predicate Gathering(before: seq<Traffic>, now: seq<Traffic>, got: string) {
    && NoDelim(got) && before <= now
    && Received(now) == Received(before) + got && Sent(now) == Sent(before) && Since(now) == Since(before) + got
    && (Patient(before) ==> Patient(now))
    && PartReceived(AccountOf(before), AccountOf(now), got)
  }

  /** The bytes `s` cannot be the beginning of a line, as recv_line sees it: there are `n` of them
      without a delimiter, or some behind the first delimiter. */
  ghost predicate NoLine(s: string, n: nat) {
    if NoDelim(s) then |s| == n else IndexOf(s) < |s| - 1
  }

  /** recv_line fails only because recv has failed, or because of what has been received; and the end
      of the stream is seen by recv. */
  ghost predicate WhyNoLine(before: seq<Traffic>, now: seq<Traffic>, n: nat, r: int) {
    && before < now && Received(before) <= Received(now)
    && (r == -1 ==> now[|now| - 1] == RecvFailed || NoLine(Received(now)[|Received(before)|..], n))
    && (r == 0 ==> now[|now| - 1] == In([]))
    && Since(now) == Since(before) + Received(now)[|Received(before)|..]
  }

  /** What recv_line has done when it returns `r`, with the bytes `line`. */
  ghost predicate LineDone(before: seq<Traffic>, now: seq<Traffic>, n: nat, r: int, line: string) {
    && before <= now && Received(before) <= Received(now) && Sent(now) == Sent(before)
    && WhyNoLine(before, now, n, r)
    && (Patient(before) ==> Patient(now))
    && (r > 0 ==> Received(now) == Received(before) + line)
    && (r <= 0 ==> !IsLine(Received(now)[|Received(before)|..]))
    && (r == 0 ==> NoDelim(Received(now)[|Received(before)|..]))
    && LineReceived(AccountOf(before), AccountOf(now), r, line)
  }

  lemma GatheringStarts(history: seq<Traffic>)
    ensures Gathering(history, history, [])
  {
    hide AccountOf, Received, Sent, Patient, Since;
    assert Received(history) + [] == Received(history) && Since(history) + [] == Since(history);
  }

  /** recv fails, or gives nothing. */
  lemma GatheringEnds(before: seq<Traffic>, now: seq<Traffic>, n: nat, got: string, t: Traffic)
    requires Gathering(before, now, got) && (t == In([]) || t == RecvFailed)
    ensures LineDone(before, now + [t], n, if t == In([]) then 0 else -1, [])
  {
    hide AccountOf, Received, Sent, Patient, PartReceived, LineReceived, Post, Since, NoLine;
    AccountMore(now, t);
    ReceivedMore(now, t);
    SentMore(now, t);
    PatientMore(now, t);
    SinceMore(now, t);
    NothingBooked(AccountOf(now));
    assert Received(now) + [] == Received(now) && Sent(now) + [] == Sent(now) && Since(now) + [] == Since(now);
    PartIsNoLine(AccountOf(before), AccountOf(now), got);
    NoLineYet(Received(before), got, Received(now));
    TailOf(Received(before), got);
  }

  /** What one chunk more does to the sums. */
  lemma ChunkCounts(before: seq<Traffic>, now: seq<Traffic>, got: string, bytes: string)
    requires Gathering(before, now, got) && bytes != []
    ensures var now', p := now + [In(bytes)], got + bytes;
            && before < now' && Received(now') == Received(before) + p && Sent(now') == Sent(before)
            && Since(now') == Since(before) + p && Received(now')[|Received(before)|..] == p
            && (Patient(before) ==> Patient(now')) && AccountOf(now') == Post(AccountOf(now), In(bytes))
  {
    hide AccountOf, Received, Sent, Patient, PartReceived, Post, Since, NoDelim;
    var t := In(bytes);
    AccountMore(now, t);
    ReceivedMore(now, t);
    SentMore(now, t);
    PatientMore(now, t);
    SinceMore(now, t);
    assert Received(before) + got + bytes == Received(before) + (got + bytes) && Sent(now) + [] == Sent(now);
    assert Since(before) + got + bytes == Since(before) + (got + bytes);
    TailOf(Received(before), got + bytes);
  }

  lemma GatheringGoesOn(before: seq<Traffic>, now: seq<Traffic>, n: nat, got: string, bytes: string)
    requires Gathering(before, now, got) && bytes != []
    ensures var now', p := now + [In(bytes)], got + bytes;
            && (NoDelim(bytes) ==> Gathering(before, now', p))
            && (IsFirstDelim(bytes, |bytes| - 1) ==> IsFirstDelim(p, |p| - 1) && LineDone(before, now', n, |p|, p))
            && (!IsFirstDelim(bytes, |bytes| - 1) && (!NoDelim(bytes) || |p| == n) ==> LineDone(before, now', n, -1, []))
  {
    hide AccountOf, Received, Sent, Patient, PartReceived, LineReceived, Post, Since, NoLine, NoDelim, IsFirstDelim, IsLine;
    ChunkCounts(before, now, got, bytes);
    PartHasNone(before, now, got);
    ChunkReceived(AccountOf(before), AccountOf(now), got, bytes);
    if !IsFirstDelim(bytes, |bytes| - 1) {
      NotOneLine(got, bytes);
      if !NoDelim(bytes) || |got + bytes| == n {
        NotALine(got, bytes, n);
      }
    }
  }

  lemma PartHasNone(before: seq<Traffic>, now: seq<Traffic>, got: string)
    requires Gathering(before, now, got)
    ensures NoDelim(got) && PartReceived(AccountOf(before), AccountOf(now), got)
  {
    hide AccountOf, PartReceived, Received, Sent, Since, Patient;
  }

  lemma NotALine(got: string, bytes: string, n: nat)
    requires NoDelim(got) && bytes != [] && !IsFirstDelim(bytes, |bytes| - 1) && (!NoDelim(bytes) || |got + bytes| == n)
    ensures NoLine(got + bytes, n)
  {
    var p := got + bytes;
    if NoDelim(bytes) {
      assert NoDelim(p);
    } else {
      var i := IndexOf(bytes);
      assert p[|got| + i] == DELIM;
      assert forall j :: |got| <= j < |got| + i ==> p[j] == bytes[j - |got|];
      IndexOfIs(p, |got| + i);
    }
  }

  /** recv_line: one whole line and nothing behind it, or -1, or 0 at end of stream. */
  method RecvLine(sock: Socket, buf: array<char>, n: nat) returns (r: int)
    requires n <= buf.Length && 0 < n <= BUF_LEN
    modifies sock, buf
    ensures -1 <= r <= n
    ensures r > 0 ==> IsLine(buf[..r]) && Received(sock.history) == Received(old(sock.history)) + buf[..r]
    ensures Received(old(sock.history)) <= Received(sock.history)
    ensures r <= 0 ==> !IsLine(Received(sock.history)[|Received(old(sock.history))|..])
    ensures r == 0 ==> NoDelim(Received(sock.history)[|Received(old(sock.history))|..])
    ensures Sent(sock.history) == Sent(old(sock.history))
    ensures old(sock.history) <= sock.history
    ensures Patient(old(sock.history)) ==> Patient(sock.history)
    ensures LineReceived(AccountOf(old(sock.history)), AccountOf(sock.history), r, if r > 0 then buf[..r] else [])
    ensures WhyNoLine(old(sock.history), sock.history, n, r)
  {
    hide AccountOf, Received, Sent, Patient, LineReceived, Gathering, WhyNoLine;
    var pos: nat := 0;
    GatheringStarts(sock.history);
    while true
      invariant pos < n && Gathering(old(sock.history), sock.history, buf[..pos])
      decreases n - pos
    {
      ghost var h, got := sock.history, buf[..pos];
      var res := sock.Recv(n - pos);
      if res.RecvError? {
        GatheringEnds(old(sock.history), h, n, got, RecvFailed);
        return -1;
      }
      if |res.bytes| == 0 {
        GatheringEnds(old(sock.history), h, n, got, In([]));
        return 0;
      }
      GatheringGoesOn(old(sock.history), h, n, got, res.bytes);
      forall i | 0 <= i < |res.bytes| { buf[pos + i] := res.bytes[i]; }
      pos := pos + |res.bytes|;
      assert buf[..pos] == got + res.bytes;
      var del := IndexOfDelim(res.bytes);
      if del < |res.bytes| {
        if del != |res.bytes| - 1 {
          return -1;
        }
        return pos;
      } else if pos == n {
        return -1;
      }
    }
  }

  lemma TailOf(s: string, tail: string)
    ensures (s + tail)[|s|..] == tail
  {
  }

  lemma NoLineYet(s: string, got: string, longer: string)
    requires longer == s + got && NoDelim(got)
    ensures var tail := longer[|s|..]; !IsLine(tail) && NoDelim(tail)
  {
    TailOf(s, got);
  }

  /** What has come in is a line only if its last byte is the first delimiter of the last chunk. */
  lemma NotOneLine(got: string, bytes: string)
    requires NoDelim(got) && bytes != [] && !IsFirstDelim(bytes, |bytes| - 1)
    ensures !IsLine(got + bytes)
  {
    var p := got + bytes;
    if IsLine(p) {
      assert bytes[|bytes| - 1] == p[|p| - 1];
      assert forall i :: 0 <= i < |bytes| ==> bytes[i] == p[|got| + i];
    }
  }

  /** memchr for the delimiter. */
  method IndexOfDelim(s: string) returns (i: nat)
    ensures i == IndexOf(s)
  {
    i := 0;
    while i < |s|
      invariant i <= |s|
      invariant forall j :: 0 <= j < i ==> s[j] != DELIM
    {
      if s[i] == DELIM {
        IndexOfIs(s, i);
        return;
      }
      i := i + 1;
    }
  }

  /** Since the history was `before` something has been sent, or send has failed. */
  predicate WasSending(before: seq<Traffic>, now: seq<Traffic>, ok: bool) {
    && before < now && !IsRecv(now[|now| - 1])
    && (!ok ==> now[|now| - 1] == SendFailed)
  }

  /** send_all: everything, or a proper part because send has failed. */
  method SendAll(sock: Socket, buf: array<char>, n: nat) returns (ok: bool, ghost done: nat)
    requires n <= buf.Length
    modifies sock
    ensures done <= n && (ok <==> done == n)
    ensures Sent(sock.history) == Sent(old(sock.history)) + buf[..done]
    ensures AccountOf(sock.history) == AccountOf(old(sock.history)).(sent := AccountOf(old(sock.history)).sent + buf[..done])
    ensures Received(sock.history) == Received(old(sock.history))
    ensures old(sock.history) <= sock.history && (n > 0 ==> WasSending(old(sock.history), sock.history, ok))
    ensures old(Patient(sock.history)) && IsLine(buf[..n]) && NothingOwed(AccountOf(old(sock.history))) ==>
              Patient(sock.history)
  {
    hide SentPart;
    var pos: nat := 0;
    ghost var all := buf[..n];
    NothingSent(sock.history, all);
    while pos < n
      invariant pos <= n && SentPart(old(sock.history), sock.history, all, pos)
      invariant old(sock.history) <= sock.history
      invariant pos > 0 ==> WasSending(old(sock.history), sock.history, true)
    {
      ghost var h := sock.history;
      var rest := buf[pos..n];
      var r := sock.Send(rest);
      if r.SendError? {
        SendingFails(old(sock.history), h, all, pos);
        PartIsSent(old(sock.history), sock.history, all, pos);
        assert buf[..pos] == all[..pos];
        return false, pos;
      }
      assert rest[..r.n] == all[pos..pos + r.n];
      MoreSent(old(sock.history), h, all, pos, r.n);
      pos := pos + r.n;
    }
    PartIsSent(old(sock.history), sock.history, all, pos);
    assert buf[..pos] == all[..pos];
    return true, pos;
  }

  /** Of `all`, the first `n` bytes have been sent since the history was `before`, and nothing else
      has happened. */
  ghost predicate SentPart(before: seq<Traffic>, now: seq<Traffic>, all: string, n: nat) {
    && n <= |all| && before <= now
    && Sent(now) == Sent(before) + all[..n]
    && AccountOf(now) == AccountOf(before).(sent := AccountOf(before).sent + all[..n])
    && Received(now) == Received(before)
    && (Patient(before) && IsLine(all) && NothingOwed(AccountOf(before)) ==> Patient(now))
  }

  lemma NothingSent(history: seq<Traffic>, all: string)
    ensures SentPart(history, history, all, 0)
  {
    hide AccountOf, Received, Sent, Patient, NothingOwed, IsLine;
    assert AccountOf(history).sent + all[..0] == AccountOf(history).sent && Sent(history) + all[..0] == Sent(history);
  }

  lemma PartIsSent(before: seq<Traffic>, now: seq<Traffic>, all: string, n: nat)
    requires SentPart(before, now, all, n)
    ensures n <= |all| && before <= now && Sent(now) == Sent(before) + all[..n]
    ensures AccountOf(now) == AccountOf(before).(sent := AccountOf(before).sent + all[..n])
    ensures Received(now) == Received(before)
    ensures Patient(before) && IsLine(all) && NothingOwed(AccountOf(before)) ==> Patient(now)
  {
    hide AccountOf, Received, Sent, Patient, NothingOwed, IsLine;
  }

  lemma MoreSent(before: seq<Traffic>, now: seq<Traffic>, all: string, n: nat, k: nat)
    requires SentPart(before, now, all, n) && n + k <= |all|
    ensures SentPart(before, now + [Out(all[n..n + k])], all, n + k)
  {
    hide AccountOf, Received, Sent, Patient, NothingOwed, IsLine, LinesOf;
    var t := Out(all[n..n + k]);
    AccountMore(now, t);
    ReceivedMore(now, t);
    SentMore(now, t);
    assert all[..n] + all[n..n + k] == all[..n + k];
    if IsLine(all) && NothingOwed(AccountOf(before)) {
      StaysPatient(now, t, AccountOf(before), all, n + k);
    }
  }

  lemma SendingFails(before: seq<Traffic>, now: seq<Traffic>, all: string, n: nat)
    requires SentPart(before, now, all, n)
    ensures SentPart(before, now + [SendFailed], all, n) && before < now + [SendFailed]
  {
    hide AccountOf, Received, Sent, Patient, NothingOwed, IsLine, Post;
    AccountMore(now, SendFailed);
    ReceivedMore(now, SendFailed);
    SentMore(now, SendFailed);
    PatientMore(now, SendFailed);
    NothingBooked(AccountOf(now));
    assert Received(now) + [] == Received(now) && Sent(now) + [] == Sent(now);
  }

  /** All that was asked of an honest server has been answered. */
  ghost predicate NothingOwed(a: Account) {
    a.honest ==> |LinesOf(a.sent)| <= |a.answers|
  }

  lemma StaysPatient(h: seq<Traffic>, t: Traffic, before: Account, line: string, k: nat)
    requires t.Out? && NothingOwed(before) && IsLine(line) && k <= |line|
    requires AccountOf(h).answers == before.answers && AccountOf(h).honest == before.honest
    requires AccountOf(h).sent + t.bytes == before.sent + line[..k]
    ensures Patient(h) ==> Patient(h + [t])
  {
    hide AccountOf, LinesOf, Patient;
    PatientMore(h, t);
    PartOfLine(before.sent, line, k);
  }

  // ---------- The proxy ----------

  datatype ProxyState =
    | RecvRequest | SendDenied | SendRequest | RecvReply | SendReply | ClientError | AstrologError | Success

  datatype Disconnect = FromClient | FromAstrolog | StillConnected

  predicate StartsLine(s: string, i: nat)
    requires i < |s|
  {
    i == 0 || s[i - 1] == DELIM
  }

  /** Every line begins with the first byte of the client request. */
  predicate LinesStartWell(s: string) {
    forall i: nat :: i < |s| && StartsLine(s, i) ==> s[i] == CLIENT_REQUEST[0]
  }

  /** A part of a client request, sent after whatever was sent before, starts no other line. */
  lemma StartsStayWell(s: string, line: string, k: nat)
    requires LinesStartWell(s) && IsLine(line) && CLIENT_REQUEST <= line && k <= |line|
    ensures LinesStartWell(s + line[..k])
  {
    var t := s + line[..k];
    assert line[0] == CLIENT_REQUEST[0];
    forall i: nat | i < |t| && StartsLine(t, i)
      ensures t[i] == CLIENT_REQUEST[0]
    {
      if i < |s| {
        assert StartsLine(s, i);
      }
    }
  }

  // ---------- What a client is told ----------

  /** A line of a client that has been dealt with: refused, or answered with a reply. */
  datatype Exchange = Denied(line: string) | Relayed(line: string, reply: string)

  /** All lines, one after the other. */
  function Heard(log: seq<Exchange>): string {
    if log == [] then [] else Heard(log[..|log| - 1]) + log[|log| - 1].line
  }

  function SaidTo(x: Exchange): string {
    match x
    case Denied(_) => DENIED
    case Relayed(_, reply) => reply
  }

  /** All refusals and replies, one after the other. */
  function Said(log: seq<Exchange>): string {
    if log == [] then [] else Said(log[..|log| - 1]) + SaidTo(log[|log| - 1])
  }

  /** The lines that were forwarded and answered, in order, ... */
  function Forwarded(log: seq<Exchange>): (lines: seq<string>)
    ensures |lines| == |Answers(log)|
  {
    if log == [] then []
    else Forwarded(log[..|log| - 1]) + if log[|log| - 1].Relayed? then [log[|log| - 1].line] else []
  }

  /** ... and the replies to them. */
  function Answers(log: seq<Exchange>): seq<string> {
    if log == [] then []
    else Answers(log[..|log| - 1]) + if log[|log| - 1].Relayed? then [log[|log| - 1].reply] else []
  }

  lemma LogMore(log: seq<Exchange>, x: Exchange)
    ensures Heard(log + [x]) == Heard(log) + x.line && Said(log + [x]) == Said(log) + SaidTo(x)
    ensures Forwarded(log + [x]) == Forwarded(log) + if x.Relayed? then [x.line] else []
    ensures Answers(log + [x]) == Answers(log) + if x.Relayed? then [x.reply] else []
  {
    assert (log + [x])[..|log|] == log;
  }

  /** Client requests and nothing else are relayed. */
  predicate Filtered(x: Exchange) {
    IsLine(x.line) && (x.Relayed? <==> CLIENT_REQUEST <= x.line) && (x.Relayed? ==> IsLine(x.reply))
  }

  // ---------- What the server is asked ----------

  /** No answer is owed, and nothing is half sent or half received. */
  ghost predicate Quiet(a: Account) {
    |a.answers| == |LinesOf(a.sent)| && a.partial == [] && OpenLine(a.sent) == []
  }

  /** The server has been asked exactly `lines`, and has answered all of them, with `answers`. */
  ghost predicate Even(a: Account, lines: seq<string>, answers: seq<string>) {
    Quiet(a) && LinesOf(a.sent) == lines && a.answers == answers
  }

  /** ... and has been asked `line` besides, and not answered it yet. */
  ghost predicate Owed(a: Account, lines: seq<string>, answers: seq<string>, line: string) {
    && |lines| == |answers| && LinesOf(a.sent) == lines + [line] && a.answers == answers
    && a.partial == [] && OpenLine(a.sent) == []
  }

  /** ... and a line was sent in part only, so that no answer to it will come. */
  ghost predicate HalfSent(a: Account, lines: seq<string>, answers: seq<string>) {
    |lines| == |answers| && LinesOf(a.sent) == lines && a.answers == answers && a.partial == []
  }

  lemma RequestSent(a: Account, lines: seq<string>, answers: seq<string>, line: string, k: nat)
    requires Even(a, lines, answers) && IsLine(line) && k <= |line|
    ensures var a' := a.(sent := a.sent + line[..k]);
            if k == |line| then Owed(a', lines, answers, line) else HalfSent(a', lines, answers)
  {
    if k == |line| {
      assert line[..k] == line;
      LineCompletes(a.sent, line);
    } else {
      OpenLineGrows(a.sent, line[..k]);
    }
  }

  /** An honest server's line answers the line that was sent in full. */
  lemma ReplyReceived(a: Account, a': Account, r: int, reply: string,
                      lines: seq<string>, answers: seq<string>, line: string)
    requires LineReceived(a, a', r, reply) && a'.honest
    requires Owed(a, lines, answers, line) || HalfSent(a, lines, answers)
    ensures r > 0 ==> Even(a', lines + [line], answers + [reply])
    ensures r <= 0 ==> (LinesOf(a'.sent) == lines || LinesOf(a'.sent) == lines + [line]) && a'.answers == answers
    ensures HalfSent(a, lines, answers) ==> r <= 0
  {
  }

  lemma SentAsBefore(a: Account, a': Account, r: int, line: string)
    requires LineReceived(a, a', r, line)
    ensures a'.sent == a.sent && (a'.honest ==> a.honest)
  {
  }

  // ---------- Clients, one after the other ----------

  /** What has been done for one client: how long the history of the server socket was when the
      client was accepted, the state reached, what has been dealt with, the line in work and the
      refusal or reply for it. */
  datatype Session = Session(at: nat, state: ProxyState, log: seq<Exchange>, line: string, saying: string)

  /** The line in work and what is said of it are those of the state. */
  predicate Proper(s: Session) {
    && (forall i :: 0 <= i < |s.log| ==> Filtered(s.log[i]))
    && match s.state
       case SendRequest => IsLine(s.line) && CLIENT_REQUEST <= s.line
       case RecvReply => IsLine(s.line) && CLIENT_REQUEST <= s.line
       case AstrologError => IsLine(s.line) && CLIENT_REQUEST <= s.line
       case SendReply => IsLine(s.line) && CLIENT_REQUEST <= s.line && IsLine(s.saying)
       case SendDenied => IsLine(s.line) && !(CLIENT_REQUEST <= s.line) && s.saying == DENIED
       case ClientError => s.saying == [] || (IsLine(s.line) && (CLIENT_REQUEST <= s.line || s.saying == DENIED))
       case _ => s.saying == []
  }

  predicate EndsWith(history: seq<Traffic>, t: Traffic) {
    history != [] && history[|history| - 1] == t
  }

  /** What has gone over the socket of the client: every line received has been dealt with or is in
      work, and all that has been sent are the refusals and replies, the last one possibly in part.
      A line that has not come in full is not dealt with. The session ends only at the end of the
      stream, or because recv or send has failed, or because of what the client has sent. */
  ghost predicate Told(con: Socket, s: Session)
    reads con
  {
    var received, sent, heard, said := Received(con.history), Sent(con.history), Heard(s.log), Said(s.log);
    match s.state
    case RecvRequest => received == heard && sent == said
    case Success =>
      heard <= received && NoDelim(received[|heard|..]) && sent == said && EndsWith(con.history, In([]))
    case ClientError =>
      if s.saying == [] then
        && heard <= received && !IsLine(received[|heard|..]) && sent == said
        && (EndsWith(con.history, RecvFailed) || NoLine(received[|heard|..], BUF_LEN))
      else
        received == heard + s.line && said <= sent && sent < said + s.saying && EndsWith(con.history, SendFailed)
    case _ => received == heard + s.line && sent == said
  }

  /** What a server that had been asked and had answered all of `start` has been asked by the end of
      a session, without the line in work. */
  ghost function AskedBy(start: Account, log: seq<Exchange>): seq<string> {
    LinesOf(start.sent) + Forwarded(log)
  }

  ghost function GivenBy(start: Account, log: seq<Exchange>): seq<string> {
    start.answers + Answers(log)
  }

  /** What has gone over the socket of an honest server: it has been asked just the lines forwarded
      and at most the one in work, and has answered just these. */
  ghost predicate Expected(s: Session, start: Account, a: Account) {
    var lines, answers := AskedBy(start, s.log), GivenBy(start, s.log);
    match s.state
    case RecvReply => Owed(a, lines, answers, s.line) || HalfSent(a, lines, answers)
    case SendReply => Even(a, lines + [s.line], answers + [s.saying])
    case ClientError =>
      if s.saying != [] && CLIENT_REQUEST <= s.line then Even(a, lines + [s.line], answers + [s.saying])
      else Even(a, lines, answers)
    case AstrologError => (LinesOf(a.sent) == lines || LinesOf(a.sent) == lines + [s.line]) && a.answers == answers
    case _ => Even(a, lines, answers)
  }

  /** After the last request no line has come from the server: recv has failed, or the stream has
      ended, or what has come is no line. */
  ghost predicate NoReply(history: seq<Traffic>) {
    EndsWith(history, RecvFailed) || EndsWith(history, In([])) || NoLine(Since(history), BUF_LEN)
  }

  lemma ReplyFails(before: seq<Traffic>, now: seq<Traffic>, r: int)
    requires r >= -1 && Since(before) == [] && WhyNoLine(before, now, BUF_LEN, r)
    ensures before < now && (r <= 0 ==> NoReply(now))
  {
    hide Since, Received, NoLine;
    var tail := Received(now)[|Received(before)|..];
    assert [] + tail == tail;
  }

  ghost predicate Exact(s: Session, start: Account, a: Account) {
    && (start.honest ==> Quiet(start))
    && (a.honest ==> start.honest && Expected(s, start, a))
  }

  /** Up to where the history of the server socket belongs to the session `i`. */
  function EndOf(sessions: seq<Session>, i: nat, now: nat): nat
    requires i < |sessions|
  {
    if i + 1 < |sessions| then sessions[i + 1].at else now
  }

  ghost predicate ExactAt(sessions: seq<Session>, i: nat, history: seq<Traffic>)
    requires i < |sessions|
  {
    var end := EndOf(sessions, i, |history|);
    && sessions[i].at <= end <= |history|
    && Exact(sessions[i], AccountOf(history[..sessions[i].at]), AccountOf(history[..end]))
    && (sessions[i].state == AstrologError ==> NoReply(history[..end]))
  }

  /** From the length `from` on, the history of the server socket is that of the sessions, one right
      after the other. */
  ghost predicate InTurn(sessions: seq<Session>, history: seq<Traffic>, from: nat) {
    && (if sessions == [] then from == |history| else from == sessions[0].at)
    && forall i :: 0 <= i < |sessions| ==> ExactAt(sessions, i, history)
  }

  lemma NextTurn(sessions: seq<Session>, s: Session, history: seq<Traffic>, longer: seq<Traffic>, from: nat)
    requires InTurn(sessions, history, from) && history <= longer && s.at == |history|
    requires Exact(s, AccountOf(history), AccountOf(longer)) && (s.state == AstrologError ==> NoReply(longer))
    ensures InTurn(sessions + [s], longer, from)
  {
    hide Exact, AccountOf, NoReply;
    var more, n := sessions + [s], |sessions|;
    forall i | 0 <= i < |more|
      ensures ExactAt(more, i, longer)
    {
      if i < n {
        assert ExactAt(sessions, i, history);
        var end := EndOf(sessions, i, |history|);
        assert EndOf(more, i, |longer|) == end;
        assert longer[..end] == history[..end] && longer[..sessions[i].at] == history[..sessions[i].at];
      } else {
        assert longer[..|history|] == history && longer[..|longer|] == longer;
      }
    }
  }

  /** Up to the account `a` the server was asked all that is in the log, in order, right after all
      it was asked before, and what was relayed are its answers to just that. */
  ghost predicate Answered(start: Account, log: seq<Exchange>, a: Account) {
    && |LinesOf(start.sent)| == |start.answers|
    && AskedBy(start, log) <= LinesOf(a.sent) && GivenBy(start, log) <= a.answers
  }

  /** A session in which nothing has been dealt with is that of a client that has been sent no more
      than a part of one refusal or reply. */
  lemma NothingDealtWith(con: Socket, s: Session)
    requires Told(con, s) && s.log == []
    ensures Sent(con.history) == [] || (s.state == ClientError && Sent(con.history) < s.saying)
  {
    hide Sent, Received;
    assert [] + s.saying == s.saying;
  }

  /** By the end of a session all that is in its log has been answered; and a reply that did not
      reach the client in full is the answer in the next place. */
  lemma SessionAnswered(s: Session, start: Account, a: Account)
    requires Exact(s, start, a) && a.honest
    ensures Answered(start, s.log, a)
    ensures s.state == SendReply || (s.state == ClientError && s.saying != [] && CLIENT_REQUEST <= s.line) ==>
              var at := |start.answers| + |Answers(s.log)|;
              && at < |a.answers| && a.answers[at] == s.saying
              && at < |LinesOf(a.sent)| && LinesOf(a.sent)[at] == s.line
  {
    hide LinesOf;
  }

  /** In a session, each reply relayed is the answer that the server gave in the place of the very
      line it was relayed for, ... */
  lemma {:induction false} RelayedInPlace(start: Account, log: seq<Exchange>, a: Account, i: nat)
    requires Answered(start, log, a) && i < |log| && log[i].Relayed?
    ensures var at := |start.answers| + |Answers(log[..i])|;
            && at < |a.answers| && a.answers[at] == log[i].reply
            && at < |LinesOf(a.sent)| && LinesOf(a.sent)[at] == log[i].line
    decreases |log|
  {
    hide LinesOf;
    var n := |log| - 1;
    if i < n {
      assert log[..n][..i] == log[..i];
      RelayedInPlace(start, log[..n], a, i);
    }
  }

  /** ... and these places are in the order of the session. */
  lemma PlacesRise(log: seq<Exchange>, i: nat, j: nat)
    requires i < j <= |log| && log[i].Relayed?
    ensures |Answers(log[..i])| < |Answers(log[..j])|
  {
    hide Answers;
    LogMore(log[..i], log[i]);
    assert log[..i] + [log[i]] == log[..i + 1] == log[..j][..i + 1];
    AnswersGrow(log[..j], i + 1);
  }

  lemma {:induction false} AnswersGrow(log: seq<Exchange>, i: nat)
    requires i <= |log|
    ensures |Answers(log[..i])| <= |Answers(log)|
    decreases |log|
  {
    if i == |log| {
      assert log[..i] == log;
    } else {
      assert log[..|log| - 1][..i] == log[..i];
      AnswersGrow(log[..|log| - 1], i);
    }
  }

  class Proxy {
    const astrolog: Socket
    const buf: array<char>
    var len: nat
    var state: ProxyState

    /** The account of the server when the client was accepted, what has been dealt with for the
        client since, the line being dealt with, and the reply being sent. */
    ghost var start: Account
    ghost var log: seq<Exchange>
    ghost var line: string
    ghost var saying: string
    /** The length of the history of the server socket at that accept, and how often the switch of
        process_new_connection has been entered. */
    ghost var at: nat
    ghost var rounds: nat

    constructor (astrolog: Socket)
      requires astrolog.history == []
      ensures Valid() && state == Success && this.astrolog == astrolog && fresh(buf)
    {
      this.astrolog := astrolog;
      buf := new char[BUF_LEN + 1];
      len, state := 0, Success;
      start, log, line, saying := AccountOf([]), [], [], [];
      at, rounds := 0, 0;
    }

    /** The session with the client as far as it has come. */
    ghost function Now(): Session
      reads `at, `state, `log, `line, `saying
    {
      Session(at, state, log, line, saying)
    }

    /** What the server has been asked and has answered, up to the line being dealt with. */
    ghost function Asked(): seq<string>
      reads `start, `log
    {
      AskedBy(start, log)
    }

    ghost function Given(): seq<string>
      reads `start, `log
    {
      GivenBy(start, log)
    }

    ghost predicate Talks(con: Socket)
      reads `at, `state, `log, `line, `saying, con
    {
      Told(con, Now())
    }

    ghost predicate Valid()
      reads `len, `state, `start, `log, `line, `saying, `at, astrolog, buf
    {
      var a := AccountOf(astrolog.history);
      && buf.Length == BUF_LEN + 1
      && LinesStartWell(a.sent) && Patient(astrolog.history)
      && Proper(Now()) && Holds() && Exact(Now(), start, a)
      && (state == RecvReply ==> Since(astrolog.history) == [])
      && (state == AstrologError ==> NoReply(astrolog.history))
    }

    /** What the buffer holds. */
    ghost predicate Holds()
      reads `state, `len, `line, `saying, buf
    {
      match state
      case SendRequest => 0 < len <= BUF_LEN && len <= buf.Length && line == buf[..len]
      case SendReply => 0 < len <= BUF_LEN && len <= buf.Length && saying == buf[..len]
      case SendDenied => 0 < len <= BUF_LEN && len <= buf.Length && saying == buf[..len]
      case _ => true
    }

    /** The branches of handle_recv_request for a line that has come in full. */
    method Filter(bytes: nat)
      requires buf.Length == BUF_LEN + 1 && bytes <= BUF_LEN && line == buf[..bytes] && IsLine(line)
      modifies `len, `state, `saying, buf
      ensures Holds() && state == (if CLIENT_REQUEST <= line then SendRequest else SendDenied)
      ensures state == SendDenied ==> saying == DENIED
      ensures buf[..len] == if CLIENT_REQUEST <= line then line else DENIED
    {
      assert line[bytes - 1] == DELIM;
      buf[bytes - 1] := '\0';
      if bytes > |CLIENT_REQUEST| && buf[..|CLIENT_REQUEST|] == CLIENT_REQUEST {
        buf[bytes - 1] := DELIM;
        assert buf[..bytes] == line;
        assert line[..|CLIENT_REQUEST|] == CLIENT_REQUEST;
        len := bytes;
        state := SendRequest;
      } else {
        len := |DENIED|;
        forall i | 0 <= i < len { buf[i] := DENIED[i]; }
        saying := DENIED;
        state := SendDenied;
      }
    }

    /** handle_recv_request: a client request is passed on as it came, anything else denied. */
    method HandleRecvRequest(con: Socket)
      requires Valid() && state == RecvRequest && con != astrolog && Talks(con)
      modifies `len, `state, `line, `saying, buf, con
      ensures Valid() && Talks(con)
      ensures state == SendRequest || state == SendDenied || state == ClientError || state == Success
      ensures state == SendRequest || state == SendDenied ==>
                IsLine(line) && Received(con.history) == Received(old(con.history)) + line
      ensures state == SendRequest ==> CLIENT_REQUEST <= line && buf[..len] == line
      ensures state == SendDenied ==> !(CLIENT_REQUEST <= line) && buf[..len] == "DENIED!\n"
      ensures old(con.history) < con.history
    {
      hide AccountOf, Received, Sent, Patient, LineReceived, LinesStartWell, Even, Owed, HalfSent, AskedBy, GivenBy;
      hide Since, NoLine, NoReply;
      hide Filtered, Heard, Said, IsFirstDelim, IsLine, NoDelim, LinesOf, Expected, Quiet, Proxy.Holds;
      ghost var a := AccountOf(astrolog.history);
      StartsEven(a);
      var bytes := RecvLine(con, buf, BUF_LEN);
      if bytes < 0 {
        state := ClientError;
        EvenIsExpected(a);
        return;
      }
      if bytes == 0 {
        state := Success;
        EvenIsExpected(a);
        return;
      }
      line := buf[..bytes];
      Filter(bytes);
      EvenIsExpected(a);
    }

    lemma StartsEven(a: Account)
      requires state == RecvRequest
      ensures Expected(Now(), start, a) ==> Even(a, Asked(), Given())
    {
    }

    lemma EvenIsExpected(a: Account)
      requires state == SendRequest || state == SendDenied || (state == ClientError && saying == []) || state == Success
      ensures Even(a, Asked(), Given()) ==> Expected(Now(), start, a)
      ensures state == ClientError || state == Success ==> Holds()
    {
    }

    /** handle_send_request. A failure to send is overwritten by the next state, as in the code;
        with an honest server no answer can come then. */
    method HandleSendRequest(ghost con: Socket) returns (ghost done: nat)
      requires Valid() && state == SendRequest && con != astrolog && Talks(con)
      modifies `len, `state, buf, astrolog
      ensures Valid() && Talks(con) && state == RecvReply && old(astrolog.history) < astrolog.history
      ensures done <= |line| && (done < |line| ==> EndsWith(astrolog.history, SendFailed))
      ensures done < |line| && AccountOf(astrolog.history).honest ==> HalfSent(AccountOf(astrolog.history), Asked(), Given())
      ensures var sent := AccountOf(astrolog.history).sent;
              sent == AccountOf(old(astrolog.history)).sent + line[..done] && LinesStartWell(sent)
    {
      hide AccountOf, Patient, Received, Sent, Owed, HalfSent, Even, Quiet, NothingOwed, LinesStartWell, Heard, Said;
      hide Filtered, AskedBy, GivenBy, NoReply;
      ghost var a := AccountOf(astrolog.history);
      NothingIsOwed(a);
      var ok;
      ok, done := SendAll(astrolog, buf, len);
      StartsStayWell(a.sent, line, done);
      assert buf[..done] == line[..done];
      if a.honest {
        RequestSent(a, Asked(), Given(), line, done);
      }
      if !ok {
        state := AstrologError;
      }
      buf[len - 1] := '\0';
      len := 0;
      state := RecvReply;
    }

    lemma NothingIsOwed(a: Account)
      ensures (a.honest ==> Even(a, Asked(), Given())) ==> NothingOwed(a)
    {
    }

    /** handle_recv_reply. After a request that was not sent in full an honest server sends nothing,
        so the child ends. */
    method HandleRecvReply(ghost con: Socket)
      requires Valid() && state == RecvReply && con != astrolog && Talks(con)
      modifies `len, `state, `saying, buf, astrolog
      ensures Valid() && Talks(con) && old(astrolog.history) < astrolog.history
      ensures state == SendReply || state == AstrologError
      ensures state == AstrologError ==> NoReply(astrolog.history)
      ensures AccountOf(astrolog.history).honest && old(HalfSent(AccountOf(astrolog.history), Asked(), Given())) ==>
                state == AstrologError
      ensures var a := AccountOf(astrolog.history);
              && a.sent == AccountOf(old(astrolog.history)).sent
              && (state == SendReply ==>
                    && IsLine(buf[..len])
                    && (a.honest ==> Even(a, Asked() + [line], Given() + [buf[..len]])))
    {
      hide AccountOf, LinesStartWell, Patient, Received, Sent, LineReceived, Owed, HalfSent, Even, Heard, Said, Filtered;
      hide AskedBy, GivenBy, Quiet, LinesOf, Since, NoLine, NoReply, WhyNoLine;
      ghost var a := AccountOf(astrolog.history);
      ghost var h := astrolog.history;
      var bytes := RecvLine(astrolog, buf, BUF_LEN);
      ReplyFails(h, astrolog.history, bytes);
      ghost var a' := AccountOf(astrolog.history);
      SentAsBefore(a, a', bytes, if bytes > 0 then buf[..bytes] else []);
      if a'.honest {
        ReplyReceived(a, a', bytes, if bytes > 0 then buf[..bytes] else [], Asked(), Given(), line);
      }
      if bytes <= 0 {
        state := AstrologError;
        return;
      }
      saying := buf[..bytes];
      buf[bytes - 1] := '\0';
      buf[bytes - 1] := DELIM;
      assert buf[..bytes] == saying;
      len := bytes;
      state := SendReply;
    }

    /** handle_send_reply, of a reply or of a refusal: when it is sent in full, the line has been
        dealt with. */
    method HandleSendReply(con: Socket)
      requires Valid() && (state == SendReply || state == SendDenied) && con != astrolog && Talks(con)
      modifies `len, `state, `log, `saying, buf, con
      ensures Valid() && Talks(con)
      ensures state == RecvRequest || state == ClientError
      ensures state == RecvRequest ==>
                && Sent(con.history) == Sent(old(con.history)) + old(buf[..len])
                && log == old(log) + [if old(state) == SendReply then Relayed(old(line), old(buf[..len])) else Denied(old(line))]
      ensures state == ClientError ==> log == old(log) && EndsWith(con.history, SendFailed)
      ensures old(con.history) < con.history
    {
      hide AccountOf, LinesStartWell, Patient, Received, Sent, Even, Heard, Said, LinesOf, Forwarded, Answers, IsLine, Quiet;
      hide Since, NoLine, NoReply;
      ghost var x := if state == SendReply then Relayed(line, saying) else Denied(line);
      LogMore(log, x);
      var ok, done := SendAll(con, buf, len);
      assert buf[..done] == saying[..done];
      if !ok {
        assert Said(log) + saying[..done] < Said(log) + saying;
        state := ClientError;
        return;
      }
      assert saying[..done] == saying;
      DealtWith(x);
      buf[len - 1] := '\0';
      len := 0;
      log := log + [x];
      saying := [];
      state := RecvRequest;
    }

    /** What the server was asked and has answered now includes the line that has been dealt with. */
    lemma DealtWith(x: Exchange)
      ensures LinesOf(start.sent) + (Forwarded(log) + [x.line]) == Asked() + [x.line]
      ensures x.Relayed? ==> start.answers + (Answers(log) + [x.reply]) == Given() + [x.reply]
      ensures LinesOf(start.sent) + (Forwarded(log) + []) == Asked() && start.answers + (Answers(log) + []) == Given()
    {
    }

    /** Between clients: nothing is owed by an honest server. */
    ghost predicate Idle()
      reads `len, `state, `start, `log, `line, `saying, `at, astrolog, buf
    {
      Valid() && (state == Success || state == ClientError)
    }

    /** The switch of process_new_connection, for the states that do something. */
    method Dispatch(con: Socket)
      requires Valid() && con != astrolog && Talks(con)
      requires state != ClientError && state != AstrologError && state != Success
      modifies `len, `state, `log, `line, `saying, `rounds, buf, con, astrolog
      ensures Valid() && Talks(con) && old(astrolog.history) <= astrolog.history && rounds == old(rounds) + 1
      ensures old(con.history) <= con.history
      ensures old(|con.history| + |astrolog.history|) < |con.history| + |astrolog.history|
    {
      hide Valid, Proxy.Talks;
      rounds := rounds + 1;
      match state {
        case RecvRequest => HandleRecvRequest(con);
        case SendDenied => HandleSendReply(con);
        case SendRequest => ghost var done := HandleSendRequest(con);
        case RecvReply => HandleRecvReply(con);
        case SendReply => HandleSendReply(con);
      }
    }

    /** process_new_connection, for at most `steps` rounds of its loop. Every round calls recv or
        send. */
    method ProcessNewConnection(con: Socket, steps: nat) returns (d: Disconnect)
      requires Idle() && con != astrolog && con.history == []
      modifies this, buf, con, astrolog
      ensures Valid() && Talks(con) && Proper(Now())
      ensures at == |old(astrolog.history)| && old(astrolog.history) <= astrolog.history
      ensures Exact(Now(), AccountOf(old(astrolog.history)), AccountOf(astrolog.history))
      ensures d == FromClient ==> Idle()
      ensures d == FromAstrolog ==> state == AstrologError
      ensures state == AstrologError ==> NoReply(astrolog.history)
      ensures rounds >= old(rounds) && (d == StillConnected ==> rounds == old(rounds) + steps)
      ensures rounds - old(rounds) <= |con.history| + |astrolog.history| - |old(astrolog.history)|
    {
      hide Valid, Proxy.Talks, AccountOf, Proxy.Idle, Exact, Proper, NoReply;
      Accept(con);
      var n := 0;
      while n < steps
        invariant Valid() && Talks(con) && start == AccountOf(old(astrolog.history))
        invariant at == |old(astrolog.history)| && old(astrolog.history) <= astrolog.history
        invariant n <= steps && rounds == old(rounds) + n
        invariant n <= |con.history| + |astrolog.history| - |old(astrolog.history)|
      {
        match state {
          case ClientError => IsExact(); return FromClient;
          case AstrologError => IsExact(); return FromAstrolog;
          case Success => IsExact(); return FromClient;
          case _ => Dispatch(con);
        }
        n := n + 1;
      }
      IsExact();
      d := StillConnected;
    }

    lemma IsExact()
      requires Valid()
      ensures Exact(Now(), start, AccountOf(astrolog.history)) && Proper(Now())
      ensures state == AstrologError ==> NoReply(astrolog.history)
      ensures state == Success || state == ClientError ==> Idle()
    {
    }

    /** The state in which process_new_connection starts. */
    method Accept(ghost con: Socket)
      requires Idle() && con.history == []
      modifies this
      ensures Valid() && Talks(con) && start == AccountOf(astrolog.history) && at == |astrolog.history|
      ensures rounds == old(rounds)
    {
      hide AccountOf, LinesStartWell, Patient, LinesOf;
      start, log, saying := AccountOf(astrolog.history), [], [];
      at := |astrolog.history|;
      len := 0;
      state := RecvRequest;
      assert LinesOf(start.sent) + [] == LinesOf(start.sent) && start.answers + [] == start.answers;
    }

    /** proxy_child: accepts the connections `cons`, one after the other, and stops at the first
        client during which the server fails. For every client what has gone over its own socket
        is exactly what its session says, and so is, between its accept and the next one, what has
        gone over the socket of an honest server. */
    method Child(cons: seq<Socket>, steps: nat) returns (ghost sessions: seq<Session>, d: Disconnect)
      requires Idle()
      requires forall i :: 0 <= i < |cons| ==> cons[i] != astrolog && cons[i].history == []
      requires forall i, j :: 0 <= i < j < |cons| ==> cons[i] != cons[j]
      modifies this, buf, astrolog, set i | 0 <= i < |cons| :: cons[i]
      ensures Valid() && |sessions| <= |cons| && old(astrolog.history) <= astrolog.history
      ensures forall i :: 0 <= i < |sessions| ==> Told(cons[i], sessions[i]) && Proper(sessions[i])
      ensures forall i :: |sessions| <= i < |cons| ==> cons[i].history == []
      ensures InTurn(sessions, astrolog.history, |old(astrolog.history)|)
      ensures d == FromClient ==> |sessions| == |cons| && Idle()
      ensures d == FromAstrolog ==> sessions != [] && state == AstrologError
      ensures d == StillConnected ==> sessions != [] && rounds >= old(rounds) + steps
    {
      hide AccountOf, Valid, Told, InTurn, Exact, Proper, NoReply, Proxy.Idle;
      sessions := [];
      NoTurns();
      for n := 0 to |cons|
        invariant Idle() && |sessions| == n && old(astrolog.history) <= astrolog.history
        invariant forall i :: 0 <= i < n ==> Told(cons[i], sessions[i]) && Proper(sessions[i])
        invariant forall i :: n <= i < |cons| ==> cons[i].history == []
        invariant InTurn(sessions, astrolog.history, |old(astrolog.history)|)
        invariant rounds >= old(rounds)
      {
        ghost var before := astrolog.history;
        d := ProcessNewConnection(cons[n], steps);
        NextTurn(sessions, Now(), before, astrolog.history, |old(astrolog.history)|);
        sessions := sessions + [Now()];
        if d != FromClient {
          return;
        }
      }
      IdleIsValid();
      d := FromClient;
    }

    lemma NoTurns()
      ensures InTurn([], astrolog.history, |astrolog.history|)
    {
    }

    lemma IdleIsValid()
      ensures Idle() ==> Valid()
    {
    }
  }

  // ---------- The proxy in front of the server ----------

  /** A stream all of whose lines begin well holds no prognosis: read by the server it is client
      requests only, up to where it may be malformed. */
  lemma {:induction false} NoStarInside(s: string)
    requires LinesStartWell(s)
    ensures var m := Meaning(First, s);
            && (forall i :: 0 <= i < |m.requests| ==> m.requests[i].Get?)
            && (m.end.Waiting? ==> m.end.phase == First)
    decreases |s|
  {
    hide Classify, NextLine, LinesStartWell, IndexOf, IsFirstDelim, NoDelim;
    var c := NextLine(s);
    if c.Line? {
      NotStarLine(s, c.line);
      if Classify(c.line).Client? {
        RestStartsWell(s, c.line, c.rest);
        NoStarInside(c.rest);
      }
    }
  }

  lemma NotStarLine(s: string, line: string)
    requires LinesStartWell(s) && line != [] && line <= s
    ensures !Classify(line).Star?
  {
    assert StartsLine(s, 0) && line[0] == s[0] != STAR_REQUEST[0];
  }

  lemma RestStartsWell(s: string, line: string, rest: string)
    requires LinesStartWell(s) && IsLine(line) && s == line + rest
    ensures LinesStartWell(rest)
  {
    forall i: nat | i < |rest| && StartsLine(rest, i)
      ensures rest[i] == CLIENT_REQUEST[0]
    {
      assert StartsLine(s, |line| + i) && s[|line| + i] == rest[i];
    }
  }

  /** However the server cuts up and interleaves what the proxy sends, a proxied connection never
      gets to send a prognosis, and nothing it does changes the book. */
  lemma ProxiedNeverSets(es: seq<Event>, id: nat, stream: string)
    requires id in Run(es).links && Run(es).links[id].received <= stream && LinesStartWell(stream)
    ensures var l := Run(es).links[id];
            && (forall i :: 0 <= i < |l.done| ==> l.done[i].request.Get?)
            && (l.conn.mode.Receiving? ==> l.conn.mode.phase == First)
            && forall i: nat :: i < |Run(es).log| && Run(es).log[i].id == id ==> Run(es).log[i].entry.request.Get?
  {
    hide Run, Meaning;
    RunsAreFaithful(es, id);
    ChunkingIsInvisible(es, id, stream);
    NoStarInside(stream);
    var l := Run(es).links[id];
    PrefixStartsWell(stream, l.received);
    NoStarInside(l.received);
    forall i | 0 <= i < |l.done|
      ensures l.done[i].request.Get?
    {
      assert Requests(l.done)[i] == l.done[i].request;
    }
    LogInterleaves(es, id);
    forall i: nat | i < |Run(es).log| && Run(es).log[i].id == id
      ensures Run(es).log[i].entry.request.Get?
    {
      LoggedIsDone(Run(es).log, i);
    }
  }

  function RepliesOf(es: seq<Entry>): seq<string> {
    seq(|es|, i requires 0 <= i < |es| => es[i].reply)
  }

  lemma {:induction false} RepliesByLines(es: seq<Entry>)
    requires forall i :: 0 <= i < |es| ==> IsLine(es[i].reply)
    ensures LinesOf(Replies(es)) == RepliesOf(es) && OpenLine(Replies(es)) == []
    decreases |es|
  {
    if es != [] {
      var n := |es| - 1;
      RepliesByLines(es[..n]);
      LineCompletes(Replies(es[..n]), es[n].reply);
      assert RepliesOf(es) == RepliesOf(es[..n]) + [es[n].reply];
    }
  }

  lemma {:induction false} LinesOfPrefix(p: string, s: string)
    requires p <= s
    ensures LinesOf(p) <= LinesOf(s)
    decreases |s|
  {
    if p != s {
      LinesOfPrefix(p, s[..|s| - 1]);
    }
  }

  /** The server answers line by line: whatever part of its output has arrived, the complete
      lines in it are the replies to the first requests of the connection, one for each. */
  lemma ServerAnswersByLines(es: seq<Event>, id: nat)
    requires id in Run(es).links
    ensures var l := Run(es).links[id];
            LinesOf(l.sent) <= RepliesOf(l.done) && |l.done| <= |Meaning(First, l.received).requests|
  {
    hide Run, Meaning, LinesOf;
    RunsAreFaithful(es, id);
    RepliesAreLines(es, id);
    SentIsReplies(es, id);
    var l := Run(es).links[id];
    RepliesByLines(l.done);
    LinesOfPrefix(l.sent, Replies(l.done));
    ChunkingIsInvisible(es, id, l.received);
  }

  lemma {:induction false} RequestsNeedLines(phase: Phase, s: string)
    ensures |Meaning(phase, s).requests| <= |LinesOf(s)|
    decreases |s|
  {
    hide LinesOf, ParseRequest;
    match ParseRequest(phase, s)
    case Complete(q, rest) =>
      RequestsNeedLines(First, rest);
      RequestTakesLine(phase, s);
    case _ =>
  }

  lemma RequestTakesLine(phase: Phase, s: string)
    ensures var r := ParseRequest(phase, s); r.Complete? ==> |LinesOf(r.rest)| < |LinesOf(s)|
    decreases |s|
  {
    hide LinesOf, NextLine, Classify;
    var c := NextLine(s);
    if c.Line? {
      LineInFront(c.line, c.rest);
      if phase == First && Classify(c.line).Star? {
        RequestTakesLine(Prognosis(Classify(c.line).z), c.rest);
      }
    }
  }

  lemma {:induction false} LineInFront(line: string, rest: string)
    requires IsLine(line)
    ensures |LinesOf(line + rest)| == 1 + |LinesOf(rest)|
    decreases |rest|
  {
    if rest == [] {
      LineCompletes([], line);
      assert [] + line == line == line + rest;
    } else {
      var n := |rest| - 1;
      LineInFront(line, rest[..n]);
      assert (line + rest)[..|line| + n] == line + rest[..n];
    }
  }

  /** In front of the end of its last line a stream has fewer lines. */
  lemma FewerLines(p: string, s: string)
    requires p < s && OpenLine(s) == []
    ensures |LinesOf(p)| < |LinesOf(s)|
  {
    var n := |s| - 1;
    assert p <= s[..n];
    LinesOfPrefix(p, s[..n]);
  }

  /** Everything received over the socket was sent by the server on the connection `id`, of which
      it had by then received no more than had been sent to it. */
  ghost predicate FromServer(history: seq<Traffic>, id: nat) {
    history != [] ==>
      var n := |history| - 1;
      && FromServer(history[..n], id)
      && (history[n].In? && history[n].bytes != [] ==>
            exists es :: Delivers(es, id, Sent(history[..n]), Received(history[..n]) + history[n].bytes))
  }

  ghost predicate Delivers(es: seq<Event>, id: nat, sent: string, received: string) {
    Receives(es, id, sent) && received <= Run(es).links[id].sent
  }

  /** The account of what was received, as far as all of it was honest. */
  ghost predicate Tallies(a: Account, sent: string, received: string) {
    a.honest && a.sent == sent && LinesOf(received) == a.answers && OpenLine(received) == a.partial && NoDelim(a.partial)
  }

  /** The server of this model is honest: to one that sends no line before the last one has been
      answered it answers every line with one line. */
  lemma {:induction false} ServerIsHonest(history: seq<Traffic>, id: nat)
    requires Patient(history) && FromServer(history, id)
    ensures Tallies(AccountOf(history), Sent(history), Received(history))
    ensures |LinesOf(AccountOf(history).sent)| <= |AccountOf(history).answers| + 1
    decreases |history|
  {
    hide LinesOf, OpenLine, Delivers, Post;
    if history == [] {
      NothingTallies();
    } else {
      var n := |history| - 1;
      var a, t := AccountOf(history[..n]), history[n];
      ServerIsHonest(history[..n], id);
      match t
      case Out(bytes) =>
        PostOut(a, bytes);
        assert Received(history) == Received(history[..n]);
      case In(bytes) =>
        assert Sent(history) == Sent(history[..n]);
        if bytes == [] {
          NothingMoved(history);
        } else {
          var es :| Delivers(es, id, Sent(history[..n]), Received(history[..n]) + bytes);
          HonestStep(a, es, id, Received(history[..n]), bytes);
        }
      case _ => NothingMoved(history);
    }
  }

  /** A call that moves no bytes changes no account. */
  lemma NothingMoved(history: seq<Traffic>)
    requires history != [] && history[|history| - 1] in [In([]), SendFailed, RecvFailed]
    ensures var before := history[..|history| - 1];
            && AccountOf(history) == AccountOf(before) && Sent(history) == Sent(before)
            && Received(history) == Received(before)
  {
    hide Post;
    var before, t := history[..|history| - 1], history[|history| - 1];
    NothingBooked(AccountOf(before));
    assert Sent(before) + [] == Sent(before) && Received(before) + [] == Received(before);
  }

  lemma NothingTallies()
    ensures Tallies(Account([], [], [], true), [], []) && LinesOf([]) == []
  {
  }

  lemma PostOut(a: Account, bytes: string)
    ensures Post(a, Out(bytes)) == a.(sent := a.sent + bytes)
  {
  }

  /** One chunk from the server. */
  lemma HonestStep(a: Account, es: seq<Event>, id: nat, received: string, bytes: string)
    requires Tallies(a, a.sent, received) && bytes != [] && |LinesOf(a.sent)| <= |a.answers| + 1
    requires Delivers(es, id, a.sent, received + bytes)
    ensures var a' := Post(a, In(bytes));
            Tallies(a', a.sent, received + bytes) && a'.sent == a.sent && |a.answers| <= |a'.answers|
  {
    hide LinesOf, OpenLine, Run, IndexOf, IsFirstDelim;
    var all := AnswersSoFar(es, id, a.sent, received + bytes);
    var i := IndexOf(bytes);
    var head := bytes[..i];
    HeadHasNone(bytes);
    OpenLineGrows(received, head);
    if i == |bytes| {
      assert head == bytes;
      FewerUnlessAll(received, bytes, all);
      OneMoreByte(a, bytes);
    } else {
      DelimCloses(received + head);
      DelimAt(bytes, i);
      var upTo := received + bytes[..i + 1];
      assert upTo == received + head + [DELIM];
      assert a.partial + head + [DELIM] == a.partial + bytes[..i + 1];
      assert upTo <= all;
      if upTo != all {
        FewerLines(upTo, all);
      }
      assert |upTo| == |all| && |bytes| == i + 1;
      assert received + bytes == upTo && bytes == bytes[..i + 1];
      FewerUnlessAll(received, bytes, all);
      LineIsBooked(a, bytes);
    }
  }

  lemma HeadHasNone(bytes: string)
    ensures NoDelim(bytes[..IndexOf(bytes)])
  {
  }

  lemma DelimAt(bytes: string, i: nat)
    requires i == IndexOf(bytes) && i < |bytes|
    ensures NoDelim(bytes[..i]) && bytes[..i + 1] == bytes[..i] + [DELIM] && IsFirstDelim(bytes, i)
  {
  }

  lemma FewerUnlessAll(received: string, bytes: string, all: string)
    requires bytes != [] && received + bytes <= all && OpenLine(all) == []
    ensures |LinesOf(received)| < |LinesOf(all)|
  {
    hide LinesOf, OpenLine;
    assert received <= received + bytes;
    FewerLines(received, all);
  }

  lemma OneMoreByte(a: Account, bytes: string)
    requires a.honest && bytes != [] && |a.answers| < |LinesOf(a.sent)| && NoDelim(a.partial) && NoDelim(bytes)
    ensures Post(a, In(bytes)) == a.(partial := a.partial + bytes) && NoDelim(a.partial + bytes)
  {
  }

  lemma LineIsBooked(a: Account, bytes: string)
    requires a.honest && |a.answers| < |LinesOf(a.sent)| && NoDelim(a.partial)
    requires bytes != [] && IsFirstDelim(bytes, |bytes| - 1)
    ensures Post(a, In(bytes)) == a.(answers := a.answers + [a.partial + bytes], partial := [])
  {
    var p := a.partial + bytes;
    assert p[|p| - 1] == DELIM;
    assert IsFirstDelim(p, |p| - 1);
  }

  /** All replies of the server so far: whole lines, and no more of them than it has been sent. */
  lemma AnswersSoFar(es: seq<Event>, id: nat, sent: string, received: string) returns (all: string)
    requires Delivers(es, id, sent, received)
    ensures received <= all && OpenLine(all) == [] && |LinesOf(all)| <= |LinesOf(sent)|
  {
    hide Run, LinesOf, OpenLine, Meaning;
    var l := Run(es).links[id];
    SentIsReplies(es, id);
    RepliesAreLines(es, id);
    ServerAnswersByLines(es, id);
    RepliesByLines(l.done);
    RequestsNeedLines(First, l.received);
    LinesOfPrefix(l.received, sent);
    all := Replies(l.done);
  }

  /** The server has received no more on the connection than was sent to it. */
  ghost predicate Receives(es: seq<Event>, id: nat, sent: string) {
    id in Run(es).links && Run(es).links[id].received <= sent
  }

  /** The connection does not wait for a prognosis and has set none. */
  ghost predicate OnlyAsks(es: seq<Event>, id: nat)
    requires id in Run(es).links
  {
    var mode := Run(es).links[id].conn.mode;
    && (mode.Receiving? ==> mode.phase == First)
    && forall i: nat :: i < |Run(es).log| && Run(es).log[i].id == id ==> Run(es).log[i].entry.request.Get?
  }

  /** The proxy in front of the server of this model: with it the child is never told anything but
      answers to its lines, and whatever it sends, in whatever pieces, no prognosis is set. */
  lemma ProxyAndServer(p: Proxy, id: nat)
    requires p.Valid() && FromServer(p.astrolog.history, id)
    ensures AccountOf(p.astrolog.history).honest && Exact(p.Now(), p.start, AccountOf(p.astrolog.history))
    ensures forall es :: Receives(es, id, Sent(p.astrolog.history)) ==> OnlyAsks(es, id)
  {
    hide Run, LinesOf, OpenLine, AccountOf, LinesStartWell, Patient, FromServer, Exact, Proper, Sent, Received;
    var history := p.astrolog.history;
    ServerIsHonest(history, id);
    forall es | Receives(es, id, Sent(history))
      ensures OnlyAsks(es, id)
    {
      ProxiedNeverSets(es, id, Sent(history));
    }
  }

  lemma {:induction false} LoggedIsDone(log: seq<Logged>, i: nat)
    requires i < |log|
    ensures log[i].entry in Project(log, log[i].id)
    decreases |log|
  {
    if i < |log| - 1 {
      LoggedIsDone(log[..|log| - 1], i);
    }
  }

  lemma PrefixStartsWell(s: string, p: string)
    requires LinesStartWell(s) && p <= s
    ensures LinesStartWell(p)
  {
    forall i: nat | i < |p| && StartsLine(p, i)
      ensures p[i] == CLIENT_REQUEST[0]
    {
      assert StartsLine(s, i);
    }
  }
}
