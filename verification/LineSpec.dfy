/** The server's input language, one line at a time, as a function of the whole byte stream.
    This is the reference that the chunked server is compared with: it knows nothing of recv
    chunks, intermediate buffers or partial sends. */
module LineSpec {
  import opened Wire

  /** Which line of a request is awaited. */
  datatype Phase = First | Prognosis(z: nat)

  /** A completed request. */
  datatype Request = Set(z: nat, line: string) | Get(z: nat)

  // ---------- Cutting one line ----------

  datatype Cut = Line(line: string, rest: string) | Partial | TooLong(rest: string)

  /** Cuts the first line off `s`; a line must end within BUF_LEN bytes. */
  ghost function NextLine(s: string): (c: Cut)
    ensures c.Line? ==> s == c.line + c.rest && IsLine(c.line)
    ensures c.TooLong? ==> |s| >= BUF_LEN && c.rest == s[BUF_LEN..]
    ensures c.Partial? ==> |s| < BUF_LEN && NoDelim(s)
  {
    var i := IndexOf(s);
    if i < |s| && i < BUF_LEN then
      Line(s[..i + 1], s[i + 1..])
    else if |s| < BUF_LEN then Partial
    else TooLong(s[BUF_LEN..])
  }

  lemma NextLineExtends(s: string, more: string)
    ensures NextLine(s).Line? ==> NextLine(s + more) == Line(NextLine(s).line, NextLine(s).rest + more)
    ensures NextLine(s).TooLong? ==> NextLine(s + more) == TooLong(NextLine(s).rest + more)
  {
    var i := IndexOf(s);
    if i < |s| {
      IndexOfIs(s + more, i);
      DropAppend(s, more, i + 1);
      assert (s + more)[..i + 1] == s[..i + 1];
    }
    if |s| >= BUF_LEN {
      DropAppend(s, more, BUF_LEN);
    }
  }

  lemma DropAppend(s: string, more: string, n: nat)
    requires n <= |s|
    ensures (s + more)[n..] == s[n..] + more
  {
  }

  /** A line in front of anything is what NextLine cuts off. */
  lemma NextLineOf(line: string, rest: string)
    requires IsLine(line)
    ensures NextLine(line + rest) == Line(line, rest)
  {
    NextLineExtends(line, rest);
    assert line[..|line|] == line && line[|line|..] == [];
    assert [] + rest == rest;
  }

  // ---------- One request ----------

  datatype Parsed =
    | Incomplete(phase: Phase, partial: string)
    | Complete(request: Request, rest: string)
    | Bad(rest: string)

  /** Reads the next request off the stream: one line for a client, two for a star. */
  ghost function ParseRequest(phase: Phase, s: string): (r: Parsed)
    ensures !r.Incomplete? ==> |r.rest| < |s|
    ensures r.Incomplete? ==> NextLine(r.partial).Partial? && |r.partial| <= |s|
    ensures r.Incomplete? && (phase.Prognosis? ==> phase.z < ZODIAC_NUM) && r.phase.Prognosis? ==> r.phase.z < ZODIAC_NUM
    decreases |s|
  {
    match NextLine(s)
    case Partial => Incomplete(phase, s)
    case TooLong(rest) => Bad(rest)
    case Line(line, rest) =>
      match phase
      case Prognosis(z) => Complete(Set(z, line), rest)
      case First =>
        match Classify(line)
        case Unknown => Bad(rest)
        case Client(z) => Complete(Get(z), rest)
        case Star(z) => ParseRequest(Prognosis(z), rest)
  }

  /** More bytes never change a request already read; an unfinished one resumes from its
      partial line. */
  lemma {:induction false} ParseExtends(phase: Phase, s: string, more: string)
    ensures match ParseRequest(phase, s)
            case Incomplete(ph, p) => ParseRequest(phase, s + more) == ParseRequest(ph, p + more)
            case Complete(q, rest) => ParseRequest(phase, s + more) == Complete(q, rest + more)
            case Bad(rest) => ParseRequest(phase, s + more) == Bad(rest + more)
    decreases |s|
  {
    NextLineExtends(s, more);
    match NextLine(s)
    case Partial =>
    case TooLong(rest) =>
    case Line(line, rest) =>
      if phase.First? && Classify(line).Star? {
        ParseExtends(Prognosis(Classify(line).z), rest, more);
      }
  }

  /** The server reads back what the clients print, and takes no byte of what follows. */
  lemma PrintedIsRead(star: bool, z: nat, padding: string, rest: string)
    requires z < ZODIAC_NUM && NoDelim(padding) && |Print(star, z, padding)| <= BUF_LEN
    ensures ParseRequest(First, Print(star, z, padding) + rest) ==
            if star then ParseRequest(Prognosis(z), rest) else Complete(Get(z), rest)
  {
    hide Print, Classify;
    PrintIsLine(star, z, padding);
    PrintParses(star, z, padding);
    NextLineOf(Print(star, z, padding), rest);
  }

  // ---------- A whole stream ----------

  /** How a stream ends: inside a line, or at input that is no request. */
  datatype End = Waiting(phase: Phase, partial: string) | Malformed(rest: string)

  datatype Transcript = Transcript(requests: seq<Request>, end: End)

  function Prepend(qs: seq<Request>, r: Transcript): Transcript {
    Transcript(qs + r.requests, r.end)
  }

  /** The meaning of a stream: its requests in order, and how it ends. */
  ghost function Meaning(phase: Phase, s: string): (r: Transcript)
    decreases |s|
  {
    match ParseRequest(phase, s)
    case Incomplete(ph, p) => Transcript([], Waiting(ph, p))
    case Bad(rest) => Transcript([], Malformed(rest))
    case Complete(q, rest) => Prepend([q], Meaning(First, rest))
  }

  /** Meaning is compositional: what follows a stream is read from the phase and the partial
      line the stream left behind, and nothing can repair malformed input. */
  lemma {:induction false} MeaningExtends(phase: Phase, s: string, more: string)
    ensures var m := Meaning(phase, s);
            match m.end
            case Waiting(ph, p) => Meaning(phase, s + more) == Prepend(m.requests, Meaning(ph, p + more))
            case Malformed(rest) => Meaning(phase, s + more) == Transcript(m.requests, Malformed(rest + more))
    decreases |s|
  {
    ParseExtends(phase, s, more);
    match ParseRequest(phase, s)
    case Incomplete(ph, p) =>
      PrependNothing(Meaning(ph, p + more));
    case Bad(rest) =>
    case Complete(q, rest) =>
      MeaningExtends(First, rest, more);
      var m := Meaning(First, rest);
      if m.end.Waiting? {
        PrependTwice([q], m.requests, Meaning(m.end.phase, m.end.partial + more));
      }
  }

  lemma PrependNothing(r: Transcript)
    ensures Prepend([], r) == r
  {
    assert [] + r.requests == r.requests;
  }

  lemma PrependTwice(a: seq<Request>, b: seq<Request>, r: Transcript)
    ensures Prepend(a, Prepend(b, r)) == Prepend(a + b, r)
  {
    assert a + (b + r.requests) == (a + b) + r.requests;
  }

  /** A longer stream only adds requests. */
  lemma MeaningGrows(s: string, more: string)
    ensures Meaning(First, s).requests <= Meaning(First, s + more).requests
  {
    MeaningExtends(First, s, more);
  }

  // ---------- Well-formed streams ----------

  /** One request in full: a client line, or a star line followed by its prognosis. */
  ghost predicate IsRequest(s: string, q: Request) {
    match q
    case Get(z) => IsLine(s) && Classify(s) == Client(z)
    case Set(z, line) =>
      exists head: string :: IsLine(head) && Classify(head) == Star(z) && IsLine(line) && s == head + line
  }

  ghost predicate IsRequests(s: string, qs: seq<Request>)
    decreases |qs|
  {
    if qs == [] then s == []
    else exists head: string, tail: string ::
      s == head + tail && IsRequest(head, qs[0]) && IsRequests(tail, qs[1..])
  }

  /** A stream is read to the end exactly when it is a concatenation of well-formed requests. */
  lemma {:induction false} CleanEnd(s: string, qs: seq<Request>)
    ensures Meaning(First, s) == Transcript(qs, Waiting(First, [])) <==> IsRequests(s, qs)
    decreases |s|, |qs|
  {
    if IsRequests(s, qs) {
      CleanEndIf(s, qs);
    }
    if Meaning(First, s) == Transcript(qs, Waiting(First, [])) {
      CleanEndOnlyIf(s, qs);
    }
  }

  lemma {:induction false} CleanEndIf(s: string, qs: seq<Request>)
    requires IsRequests(s, qs)
    ensures Meaning(First, s) == Transcript(qs, Waiting(First, []))
    decreases |qs|
  {
    if qs == [] {
      MeaningOfNothing(First);
    } else {
      var head, tail := SplitRequests(s, qs);
      CleanEndIf(tail, qs[1..]);
      CleanEndStep(head, tail, qs);
    }
  }

  lemma SplitRequests(s: string, qs: seq<Request>) returns (head: string, tail: string)
    requires qs != [] && IsRequests(s, qs)
    ensures s == head + tail && IsRequest(head, qs[0]) && IsRequests(tail, qs[1..])
  {
    head, tail :| s == head + tail && IsRequest(head, qs[0]) && IsRequests(tail, qs[1..]);
  }

  lemma MeaningOfNothing(phase: Phase)
    ensures Meaning(phase, []) == Transcript([], Waiting(phase, []))
  {
  }

  lemma CleanEndStep(head: string, tail: string, qs: seq<Request>)
    requires qs != [] && IsRequest(head, qs[0])
    requires Meaning(First, tail) == Transcript(qs[1..], Waiting(First, []))
    ensures Meaning(First, head + tail) == Transcript(qs, Waiting(First, []))
  {
    hide IsRequest, ParseRequest, NextLine, Classify, IndexOf, IsFirstDelim;
    ParseOne(head, tail, qs[0]);
    assert [qs[0]] + qs[1..] == qs;
  }

  lemma ParseOne(head: string, tail: string, q: Request)
    requires IsRequest(head, q)
    ensures ParseRequest(First, head + tail) == Complete(q, tail)
  {
    hide Classify, NextLine, IndexOf, IsFirstDelim;
    match q
    case Get(z) => NextLineOf(head, tail);
    case Set(z, line) =>
      var star :| IsLine(star) && Classify(star) == Star(z) && IsLine(line) && head == star + line;
      assert head + tail == star + (line + tail);
      NextLineOf(star, line + tail);
      NextLineOf(line, tail);
  }

  lemma {:induction false} CleanEndOnlyIf(s: string, qs: seq<Request>)
    requires Meaning(First, s) == Transcript(qs, Waiting(First, []))
    ensures IsRequests(s, qs)
    decreases |s|
  {
    match ParseRequest(First, s)
    case Incomplete(_, p) =>
      IncompleteEmpty(s);
    case Complete(q, rest) =>
      assert qs == [q] + Meaning(First, rest).requests;
      assert qs[1..] == Meaning(First, rest).requests;
      CleanEndOnlyIf(rest, qs[1..]);
      var head := CompleteHead(s, q, rest);
      assert s == head + rest && IsRequest(head, qs[0]) && IsRequests(rest, qs[1..]);
  }

  lemma IncompleteEmpty(s: string)
    requires ParseRequest(First, s) == Incomplete(First, [])
    ensures s == []
  {
    if NextLine(s).Line? && Classify(NextLine(s).line).Star? {
      var z := Classify(NextLine(s).line).z;
      PrognosisStays(z, NextLine(s).rest);
    }
  }

  lemma PrognosisStays(z: nat, s: string)
    ensures var r := ParseRequest(Prognosis(z), s);
            (r.Incomplete? ==> r.phase == Prognosis(z)) && (r.Complete? ==> r.request.Set?)
  {
  }

  lemma CompleteHead(s: string, q: Request, rest: string) returns (head: string)
    requires ParseRequest(First, s) == Complete(q, rest)
    ensures s == head + rest && IsRequest(head, q)
  {
    var c := NextLine(s);
    head := c.line;
    if Classify(c.line).Star? {
      var d := NextLine(c.rest);
      head := c.line + d.line;
      assert s == head + rest;
    }
  }
}
