/** What the connections share besides the heap: the table of prognoses, overwritten in place and
    never cleared (unix_socket_api/src/astrolog.c:54), and the monotonic clock. */
module Shared {
  import opened Wire
  import opened Machine
  import opened Records

  lemma BookGrows(book: Book, z: nat, line: string)
    requires BookOk(book) && z < ZODIAC_NUM && IsLine(line)
    ensures BookOk(book[z := line])
  {
  }

  /** zodiac_prognosises. `book` is what the rows mean: the line of each row that holds a
      delimiter, whatever follows it. */
  class Table {
    const rows: array2<char>
    ghost var book: Book

    ghost predicate Valid()
      reads this, rows
    {
      && rows.Length0 == ZODIAC_NUM && rows.Length1 == BUF_LEN + 1
      && BookOk(book)
      && forall z: nat :: z < ZODIAC_NUM ==> RowMeans(z)
    }

    ghost predicate RowMeans(z: nat)
      requires z < rows.Length0 && rows.Length1 == BUF_LEN + 1 && BookOk(book)
      reads this, rows
    {
      if z in book then forall j: nat :: j < |book[z]| ==> rows[z, j] == book[z][j]
      else forall j: nat :: j < BUF_LEN ==> rows[z, j] != DELIM
    }

    /** Static storage starts zeroed. */
    constructor ()
      ensures Valid() && book == map[] && fresh(rows)
    {
      rows := new char[ZODIAC_NUM, BUF_LEN + 1]((i, j) => '\0');
      book := map[];
    }

    /** handle_recv_h: memcpy of a prognosis over the row of its zodiac. Bytes of a longer older
        prognosis stay behind it. */
    method Store(z: nat, src: array<char>, n: nat)
      requires Valid() && z < ZODIAC_NUM && n <= src.Length && IsLine(src[..n])
      modifies this, rows
      ensures Valid() && book == old(book)[z := src[..n]]
    {
      ghost var line := src[..n];
      BookGrows(book, z, line);
      forall j | 0 <= j < n { rows[z, j] := src[j]; }
      book := book[z := line];
      assert src[..n] == line;
      forall y: nat | y < ZODIAC_NUM
        ensures RowMeans(y)
      {
        if y != z { assert old(RowMeans(y)); }
      }
    }

    /** parse_client_first_line: the length of the prognosis, found by its delimiter, or 0. */
    method Find(z: nat) returns (n: nat)
      requires Valid() && z < ZODIAC_NUM
      ensures n <= BUF_LEN
      ensures z in book ==> n == |book[z]|
      ensures z !in book ==> n == 0
    {
      assert RowMeans(z);
      assert z in book ==> rows[z, |book[z]| - 1] == DELIM;
      assert z in book ==> forall j: nat :: j < |book[z]| - 1 ==> rows[z, j] == book[z][j] != DELIM;
      var i := 0;
      while i < BUF_LEN
        invariant i <= BUF_LEN
        invariant forall j: nat :: j < i ==> rows[z, j] != DELIM
      {
        if rows[z, i] == DELIM {
          return i + 1;
        }
        i := i + 1;
      }
      return 0;
    }

    /** memcpy of a row into a connection's buffer. */
    method CopyOut(z: nat, dst: array<char>, n: nat)
      requires Valid() && z in book && n == |book[z]| && dst.Length == BUF_LEN + 1
      modifies dst
      ensures dst[..n] == book[z]
    {
      forall j | 0 <= j < n { dst[j] := rows[z, j]; }
      assert RowMeans(z);
    }
  }

  /** CLOCK_MONOTONIC, in nanoseconds. */
  class Clock {
    var now: int
    /** How often it has been read. */
    ghost var readings: nat

    constructor () { now, readings := 0, 0; }

    /** Time passes while nobody looks. */
    method Pass()
      modifies this
      ensures old(now) <= now && readings == old(readings)
    {
      var t :| now <= t;
      now := t;
    }

    /** clock_gettime: any time that is not before the last one. */
    method Sample() returns (t: int)
      modifies this
      ensures old(now) <= now == t && readings == old(readings) + 1
    {
      t :| now <= t;
      now := t;
      readings := readings + 1;
    }
  }

  const SEC_NS: int := 1000000000
  const MSEC_NS: int := 1000000

  /** Nanoseconds a connection may spend in a phase. */
  function Timeout(op: Op): int {
    if op == Read then 5 * 60 * SEC_NS else 3 * 60 * SEC_NS
  }
}
