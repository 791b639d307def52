/** The text of the astrologer protocol: delimiters, request kinds, zodiac names and replies
    (unix_socket_api/generic/generic.h, generic.c). Bytes are modelled as `char`; nothing
    below depends on their range. */
module Wire {

  /** ASTROLOG_BUF_LEN: the longest line, delimiter included. */
  const BUF_LEN: nat := 80

  const DELIM: char := '\n'

  const STAR_REQUEST: string := "STARS SAY "
  const CLIENT_REQUEST: string := "HOROSCOPE "

  const THANKS: string := "THANKS!\n"
  const DENIED: string := "DENIED!\n"
  const OUT_OF_LUCK: string := "YOU ARE OUT OF LUCK!\n"

  const ZODIAC_NUM: nat := 3

  function ZodiacName(z: nat): string
    requires z < ZODIAC_NUM
  {
    if z == 0 then "Aries" else if z == 1 then "Taurus" else "Gemini"
  }

  /** `text` begins with the name of zodiac `z`. */
  predicate Names(text: string, z: nat) {
    z < ZODIAC_NUM && ZodiacName(z) <= text
  }

  datatype Option<+T> = None | Some(value: T)

  /** Any zodiac that `text` begins with. */
  ghost function ZodiacOf(text: string): (z: Option<nat>)
    ensures z.Some? ==> Names(text, z.value)
    ensures z.None? ==> forall i: nat :: !Names(text, i)
  {
    if exists i: nat :: Names(text, i) then
      var i: nat :| Names(text, i);
      Some(i)
    else None
  }

  /** No zodiac name is a prefix of another, so at most one can match and the order of the
      table is immaterial. */
  lemma ZodiacUnique(text: string, a: nat, b: nat)
    requires Names(text, a) && Names(text, b)
    ensures a == b
    ensures ZodiacOf(text) == Some(a)
  {
    assert ZodiacName(a)[0] == text[0] == ZodiacName(b)[0];
    var z := ZodiacOf(text);
    assert Names(text, a);
    assert z.Some? && ZodiacName(z.value)[0] == text[0];
  }

  /** find_zodiac: the linear search over the table. */
  method FindZodiac(text: string) returns (ix: int)
    ensures ix >= 0 ==> ZodiacOf(text) == Some(ix)
    ensures ix < 0 ==> ix == -1 && ZodiacOf(text) == None
  {
    var i := 0;
    while i < ZODIAC_NUM
      invariant i <= ZODIAC_NUM
      invariant forall j: nat :: j < i ==> !Names(text, j)
    {
      var name := ZodiacName(i);
      if |text| >= |name| && text[..|name|] == name {
        ZodiacUnique(text, i, i);
        return i;
      }
      i := i + 1;
    }
    return -1;
  }

  // ---------- First lines of requests ----------

  datatype FirstLine = Star(z: nat) | Client(z: nat) | Unknown

  /** What the server makes of a complete first line, delimiter included. */
  ghost function Classify(line: string): (r: FirstLine)
    ensures !r.Unknown? ==> r.z < ZODIAC_NUM
  {
    if |line| > |STAR_REQUEST| && STAR_REQUEST <= line then
      match ZodiacOf(line[|STAR_REQUEST|..|line| - 1])
      case Some(z) => Star(z)
      case None => Unknown
    else if |line| > |CLIENT_REQUEST| && CLIENT_REQUEST <= line then
      match ZodiacOf(line[|CLIENT_REQUEST|..|line| - 1])
      case Some(z) => Client(z)
      case None => Unknown
    else Unknown
  }

  /** A request line as the clients print it, with optional padding before the delimiter. */
  function Print(star: bool, z: nat, padding: string): string
    requires z < ZODIAC_NUM
  {
    (if star then STAR_REQUEST else CLIENT_REQUEST) + ZodiacName(z) + padding + [DELIM]
  }

  /** Printing then parsing gives back the request kind and the zodiac, whatever the padding. */
  lemma PrintParses(star: bool, z: nat, padding: string)
    requires z < ZODIAC_NUM
    ensures Classify(Print(star, z, padding)) == if star then Star(z) else Client(z)
  {
    var line := Print(star, z, padding);
    var kind := if star then STAR_REQUEST else CLIENT_REQUEST;
    assert line[..|kind|] == kind;
    assert line[0] == kind[0];
    var text := line[|kind|..|line| - 1];
    assert text == ZodiacName(z) + padding;
    ZodiacUnique(text, z, z);
  }

  /** What is printed is one line if its padding is free of delimiters and it fits the buffer. */
  lemma PrintIsLine(star: bool, z: nat, padding: string)
    requires z < ZODIAC_NUM && NoDelim(padding) && |Print(star, z, padding)| <= BUF_LEN
    ensures IsLine(Print(star, z, padding))
  {
    var head := (if star then STAR_REQUEST else CLIENT_REQUEST) + ZodiacName(z);
    assert NoDelim(head);
    var line := Print(star, z, padding);
    assert line == head + padding + [DELIM];
    forall j | 0 <= j < |line| - 1
      ensures line[j] != DELIM
    {
      assert line[j] == if j < |head| then head[j] else padding[j - |head|];
    }
  }

  /** A line is understood as a request exactly when a client could have printed it. */
  lemma UnderstoodIsPrinted(line: string, star: bool, z: nat)
    requires IsLine(line)
    ensures Classify(line) == (if star then Star(z) else Client(z)) <==>
              z < ZODIAC_NUM && exists padding :: NoDelim(padding) && line == Print(star, z, padding)
  {
    hide Print, Classify;
    if Classify(line) == (if star then Star(z) else Client(z)) {
      var padding := PaddingOf(line, star, z);
    }
    forall padding | z < ZODIAC_NUM && line == Print(star, z, padding)
      ensures Classify(line) == if star then Star(z) else Client(z)
    {
      PrintParses(star, z, padding);
    }
  }

  lemma PaddingOf(line: string, star: bool, z: nat) returns (padding: string)
    requires IsLine(line) && Classify(line) == if star then Star(z) else Client(z)
    ensures z < ZODIAC_NUM && NoDelim(padding) && line == Print(star, z, padding)
  {
    var kind := if star then STAR_REQUEST else CLIENT_REQUEST;
    var text := line[|kind|..|line| - 1];
    assert kind <= line && ZodiacOf(text) == Some(z);
    assert Names(text, z);
    padding := Rejoin(line, kind, ZodiacName(z));
  }

  /** A line taken apart at a prefix, a name behind it and the delimiter. */
  lemma Rejoin(line: string, kind: string, name: string) returns (padding: string)
    requires IsLine(line) && |kind| < |line| && kind <= line && name <= line[|kind|..|line| - 1]
    ensures NoDelim(padding) && line == kind + name + padding + [DELIM]
  {
    var text := line[|kind|..|line| - 1];
    padding := text[|name|..];
    assert text == name + padding;
    assert line == kind + text + [DELIM];
    assert forall j :: 0 <= j < |padding| ==> padding[j] == line[|kind| + |name| + j];
  }

  /** ordinary_client and star_client write their request piece by piece into a buffer. */
  method BuildRequest(buf: array<char>, star: bool, z: nat) returns (pos: nat)
    requires buf.Length == BUF_LEN + 1 && z < ZODIAC_NUM
    modifies buf
    ensures pos <= BUF_LEN && buf[..pos] == Print(star, z, "")
  {
    var kind := if star then STAR_REQUEST else CLIENT_REQUEST;
    pos := 0;
    forall i | 0 <= i < |kind| { buf[pos + i] := kind[i]; }
    pos := pos + |kind|;
    assert buf[..pos] == kind;
    var zodiac := ZodiacName(z);
    forall i | 0 <= i < |zodiac| { buf[pos + i] := zodiac[i]; }
    assert buf[..pos] == kind;
    assert buf[..pos + |zodiac|] == kind + zodiac;
    pos := pos + |zodiac|;
    buf[pos] := DELIM;
    assert buf[..pos] == kind + zodiac;
    pos := pos + 1;
  }

  // ---------- Delimiters ----------

  predicate NoDelim(s: string) {
    forall j :: 0 <= j < |s| ==> s[j] != DELIM
  }

  predicate IsFirstDelim(s: string, i: nat) {
    i < |s| && s[i] == DELIM && forall j :: 0 <= j < i ==> s[j] != DELIM
  }

  lemma {:induction false} FirstDelimExists(s: string) returns (i: nat)
    requires !NoDelim(s)
    ensures IsFirstDelim(s, i)
  {
    if s[0] == DELIM {
      i := 0;
    } else {
      var k := FirstDelimExists(s[1..]);
      i := k + 1;
      assert forall j :: 0 < j < i ==> s[j] == s[1..][j - 1];
    }
  }

  /** Index of the first delimiter, or |s| if there is none (memchr). */
  ghost function IndexOf(s: string): (i: nat)
    ensures i <= |s|
    ensures i == |s| <==> NoDelim(s)
    ensures i < |s| ==> IsFirstDelim(s, i)
  {
    if NoDelim(s) then |s|
    else
      assert exists i: nat :: IsFirstDelim(s, i) by { var i := FirstDelimExists(s); }
      var i: nat :| IsFirstDelim(s, i);
      i
  }

  lemma IndexOfIs(s: string, i: nat)
    requires IsFirstDelim(s, i)
    ensures IndexOf(s) == i
  {
    var k := IndexOf(s);
    assert !NoDelim(s);
  }

  /** A complete line: its last byte, and no other, is the delimiter. */
  predicate IsLine(s: string) {
    0 < |s| <= BUF_LEN && IsFirstDelim(s, |s| - 1)
  }
}
