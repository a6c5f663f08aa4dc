/** The record that passes between the agent's parts. */
module Plugins {
  type Byte = b: int | 0 <= b < 256

  datatype Record = Record(source: string, timestamp: int, data: seq<Byte>, metadata: map<string, string>)
}

/** Reading new lines of a file from an offset, and what the records of a read are: the
    consecutive lines of the bytes between the old and the new offset. */
module Scan {
  import opened Prelude
  import Plugins

  type Byte = Plugins.Byte

  const NEWLINE: Byte := 10
  const RETURN: Byte := 13

  /** A file at the time of a scan; one that cannot be opened or read is unreadable. */
  datatype File = Unreadable | Content(bytes: seq<Byte>)

  /** A collected record: the line without its terminator, and the offset of its end, which
      its metadata carries as text. */
  datatype Record = Record(path: string, data: seq<Byte>, offset: int)

  /** The end of the line that starts at `from`, terminator included. */
  function LineEnd(bytes: seq<Byte>, from: nat): (e: nat)
    requires from <= |bytes|
    ensures from <= e <= |bytes| && (from < |bytes| ==> from < e)
    ensures forall i :: from <= i < e - 1 ==> bytes[i] != NEWLINE
    ensures e < |bytes| ==> bytes[e - 1] == NEWLINE
    decreases |bytes| - from
  {
    if from == |bytes| then from
    else if bytes[from] == NEWLINE then from + 1
    else LineEnd(bytes, from + 1)
  }

  /** bytes.TrimRight(line, "\r\n"). */
  function TrimEnd(line: seq<Byte>): (r: seq<Byte>)
    ensures r <= line
    ensures r != [] ==> r[|r| - 1] != NEWLINE && r[|r| - 1] != RETURN
    ensures forall i :: |r| <= i < |line| ==> line[i] == NEWLINE || line[i] == RETURN
  {
    if line == [] || (line[|line| - 1] != NEWLINE && line[|line| - 1] != RETURN) then line
    else TrimEnd(line[..|line| - 1])
  }

  function RecordAt(path: string, bytes: seq<Byte>, from: nat): Record
    requires from <= |bytes|
  {
    var e := LineEnd(bytes, from);
    Record(path, TrimEnd(bytes[from..e]), e)
  }

  /** Whether reading lines from `from` comes to stand exactly at `to`. */
  predicate Reaches(bytes: seq<Byte>, from: nat, to: nat)
    requires to <= |bytes|
    decreases |bytes| - from
  {
    from == to || (from < to && Reaches(bytes, LineEnd(bytes, from), to))
  }

  /** One record for each line between the two offsets. */
  function Lines(path: string, bytes: seq<Byte>, from: nat, to: nat): (r: seq<Record>)
    requires to <= |bytes| && Reaches(bytes, from, to)
    ensures r == [] <==> from == to
    decreases |bytes| - from
  {
    if from == to then []
    else [RecordAt(path, bytes, from)] + Lines(path, bytes, LineEnd(bytes, from), to)
  }

  /** Reading in two steps gives the same records as reading at once. */
  lemma {:induction false} LinesSplit(path: string, bytes: seq<Byte>, a: nat, b: nat, c: nat)
    requires b <= c <= |bytes| && Reaches(bytes, a, b) && Reaches(bytes, b, c)
    ensures Reaches(bytes, a, c)
    ensures Lines(path, bytes, a, c) == Lines(path, bytes, a, b) + Lines(path, bytes, b, c)
    decreases |bytes| - a
  {
    if a < b {
      var e := LineEnd(bytes, a);
      LinesSplit(path, bytes, e, b, c);
      Associate([RecordAt(path, bytes, a)], Lines(path, bytes, e, b), Lines(path, bytes, b, c));
    }
  }

  lemma ReachesNext(bytes: seq<Byte>, from: nat)
    requires from <= |bytes|
    ensures Reaches(bytes, from, LineEnd(bytes, from))
  {
  }

  /** What a single read may return: at most `max` lines, fewer only at the end of the file. */
  ghost predicate ReadsTo(path: string, bytes: seq<Byte>, from: nat, max: nat, records: seq<Record>, to: int) {
    && from <= to <= |bytes| && Reaches(bytes, from, to)
    && records == Lines(path, bytes, from, to)
    && |records| <= max
    && (|records| < max ==> to == |bytes|)
  }

  /** A file that shrank below the stored offset is read from its beginning. */
  function Begin(bytes: seq<Byte>, offset: int): (from: int)
    ensures from <= |bytes|
  {
    if |bytes| < offset then 0 else offset
  }

  /** What reading lines gives once the terminators are put back: the bytes themselves. The
      raw lines hold no inner newline, and only the last can lack a terminator. */
  ghost function RawLines(bytes: seq<Byte>, from: nat, to: nat): seq<seq<Byte>>
    requires to <= |bytes| && Reaches(bytes, from, to)
    decreases |bytes| - from
  {
    if from == to then []
    else [bytes[from..LineEnd(bytes, from)]] + RawLines(bytes, LineEnd(bytes, from), to)
  }

  ghost function Flatten(lines: seq<seq<Byte>>): seq<Byte> {
    if |lines| == 0 then [] else lines[0] + Flatten(lines[1..])
  }

  ghost predicate Whole(line: seq<Byte>) {
    && line != [] && line[|line| - 1] == NEWLINE
    && forall i :: 0 <= i < |line| - 1 ==> line[i] != NEWLINE
  }

  ghost predicate Partial(line: seq<Byte>) {
    line != [] && forall i :: 0 <= i < |line| ==> line[i] != NEWLINE
  }

  lemma FirstLine(bytes: seq<Byte>, from: nat)
    requires from < |bytes|
    ensures var e := LineEnd(bytes, from);
      Whole(bytes[from..e]) || (e == |bytes| && Partial(bytes[from..e]))
  {
    var e := LineEnd(bytes, from);
    assert bytes[from..e][e - from - 1] == bytes[e - 1];
  }

  lemma {:induction false} RawLinesAreTheBytes(bytes: seq<Byte>, from: nat, to: nat)
    requires from <= to <= |bytes| && Reaches(bytes, from, to)
    ensures Flatten(RawLines(bytes, from, to)) == bytes[from..to]
    decreases |bytes| - from
  {
    if from < to {
      var e := LineEnd(bytes, from);
      RawLinesAreTheBytes(bytes, e, to);
      assert RawLines(bytes, from, to)[1..] == RawLines(bytes, e, to);
      assert bytes[from..e] + bytes[e..to] == bytes[from..to];
    }
  }

  ghost predicate LineAt(records: seq<Record>, raw: seq<seq<Byte>>, path: string, atEnd: bool, i: nat)
    requires i < |raw| == |records|
  {
    && records[i].path == path && records[i].data == TrimEnd(raw[i])
    && (Whole(raw[i]) || (i == |raw| - 1 && atEnd && Partial(raw[i])))
  }

  lemma {:induction false} LinesAreTheLines(path: string, bytes: seq<Byte>, from: nat, to: nat)
    requires from <= to <= |bytes| && Reaches(bytes, from, to)
    ensures var raw := RawLines(bytes, from, to); var records := Lines(path, bytes, from, to);
      var atEnd := to == |bytes|;
      && |records| == |raw|
      && forall i :: 0 <= i < |raw| ==> LineAt(records, raw, path, atEnd, i)
    decreases |bytes| - from
  {
    if from < to {
      var e := LineEnd(bytes, from);
      LinesAreTheLines(path, bytes, e, to);
      FirstLine(bytes, from);
      var raw, records := RawLines(bytes, from, to), Lines(path, bytes, from, to);
      var atEnd := to == |bytes|;
      forall i | 0 <= i < |raw| ensures LineAt(records, raw, path, atEnd, i) {
        if i > 0 {
          assert LineAt(Lines(path, bytes, e, to), RawLines(bytes, e, to), path, atEnd, i - 1);
        }
      }
    }
  }

  /** The records between two offsets are the bytes between them, cut after each newline; only
      the last can lack its newline, and only at the end of the file. */
  lemma LinesAreTheBytes(path: string, bytes: seq<Byte>, from: nat, to: nat)
    requires from <= to <= |bytes| && Reaches(bytes, from, to)
    ensures var raw := RawLines(bytes, from, to); var records := Lines(path, bytes, from, to);
      var atEnd := to == |bytes|;
      && Flatten(raw) == bytes[from..to] && |records| == |raw|
      && forall i :: 0 <= i < |raw| ==> LineAt(records, raw, path, atEnd, i)
  {
    RawLinesAreTheBytes(bytes, from, to);
    LinesAreTheLines(path, bytes, from, to);
  }

  // ---- A file that grows between two reads ----

  lemma {:induction false} NoneEndsInside(path: string, bytes: seq<Byte>, from: nat, to: nat, r: Record)
    requires to <= |bytes| && Reaches(bytes, from, to)
    requires 0 < r.offset < |bytes| && bytes[r.offset - 1] != NEWLINE
    ensures r !in Lines(path, bytes, from, to)
    decreases |bytes| - from
  {
    if from < to {
      var e := LineEnd(bytes, from);
      NoneEndsInside(path, bytes, e, to, r);
      assert e == |bytes| || bytes[e - 1] == NEWLINE;
      assert RecordAt(path, bytes, from) != r;
    }
  }

  lemma {:induction false} LastEndsThere(path: string, bytes: seq<Byte>, from: nat, to: nat) returns (r: Record)
    requires from < to <= |bytes| && Reaches(bytes, from, to)
    ensures r in Lines(path, bytes, from, to) && r.offset == to
    decreases |bytes| - from
  {
    var e := LineEnd(bytes, from);
    if e == to {
      r := RecordAt(path, bytes, from);
    } else {
      r := LastEndsThere(path, bytes, e, to);
    }
  }

  lemma {:induction false} ReachesEnd(bytes: seq<Byte>, from: nat)
    requires from <= |bytes|
    ensures Reaches(bytes, from, |bytes|)
    decreases |bytes| - from
  {
    if from < |bytes| {
      ReachesEnd(bytes, LineEnd(bytes, from));
    }
  }

  lemma {:induction false} SameEnd(bytes: seq<Byte>, grown: seq<Byte>, from: nat)
    requires bytes <= grown && from < |bytes| && bytes[|bytes| - 1] == NEWLINE
    ensures LineEnd(grown, from) == LineEnd(bytes, from)
    decreases |bytes| - from
  {
    if bytes[from] != NEWLINE {
      SameEnd(bytes, grown, from + 1);
    }
  }

  lemma {:induction false} SameLines(path: string, bytes: seq<Byte>, grown: seq<Byte>, from: nat)
    requires bytes <= grown && from <= |bytes| && (from < |bytes| ==> bytes[|bytes| - 1] == NEWLINE)
    requires Reaches(bytes, from, |bytes|)
    ensures Reaches(grown, from, |bytes|)
    ensures Lines(path, grown, from, |bytes|) == Lines(path, bytes, from, |bytes|)
    decreases |bytes| - from
  {
    if from < |bytes| {
      var e, n := LineEnd(bytes, from), |bytes|;
      SameEnd(bytes, grown, from);
      SameLines(path, bytes, grown, e);
      assert grown[from..e] == bytes[from..e];
      assert RecordAt(path, grown, from) == RecordAt(path, bytes, from);
    }
  }

  lemma GrowthKeeps(path: string, bytes: seq<Byte>, grown: seq<Byte>, from: nat)
    requires bytes <= grown && from <= |bytes| && (from < |bytes| ==> bytes[|bytes| - 1] == NEWLINE)
    requires Reaches(bytes, from, |bytes|) && Reaches(grown, from, |grown|) && Reaches(grown, |bytes|, |grown|)
    ensures Lines(path, bytes, from, |bytes|) + Lines(path, grown, |bytes|, |grown|) ==
      Lines(path, grown, from, |grown|)
  {
    SameLines(path, bytes, grown, from);
    LinesSplit(path, grown, from, |bytes|, |grown|);
  }

  lemma DiffersAt(first: seq<Record>, rest: seq<Record>, whole: seq<Record>, r: Record)
    requires r in first && r !in whole
    ensures first + rest != whole
  {
    assert r in first + rest;
  }

  lemma {:induction false} GrowthBreaks(path: string, bytes: seq<Byte>, grown: seq<Byte>, from: nat, rest: seq<Record>)
    requires bytes < grown && from < |bytes| && bytes[|bytes| - 1] != NEWLINE
    requires Reaches(bytes, from, |bytes|) && Reaches(grown, from, |grown|)
    ensures Lines(path, bytes, from, |bytes|) + rest != Lines(path, grown, from, |grown|)
  {
    var first, whole := Lines(path, bytes, from, |bytes|), Lines(path, grown, from, |grown|);
    var r := LastEndsThere(path, bytes, from, |bytes|);
    NoneEndsInside(path, grown, from, |grown|, r);
    DiffersAt(first, rest, whole, r);
  }

  /** Reading a file to its end, and the rest after it has grown, gives the records of the
      grown file exactly when the first read did not stop inside a line. */
  lemma GrowthKeepsLinesIff(path: string, bytes: seq<Byte>, grown: seq<Byte>, from: nat)
    requires bytes <= grown && from <= |bytes|
    requires Reaches(bytes, from, |bytes|) && Reaches(grown, from, |grown|) && Reaches(grown, |bytes|, |grown|)
    ensures Lines(path, bytes, from, |bytes|) + Lines(path, grown, |bytes|, |grown|) ==
      Lines(path, grown, from, |grown|)
      <==> from == |bytes| || bytes[|bytes| - 1] == NEWLINE || grown == bytes
  {
    if from == |bytes| || bytes[|bytes| - 1] == NEWLINE {
      GrowthKeeps(path, bytes, grown, from);
    } else if |grown| == |bytes| {
      assert grown == bytes;
    } else {
      assert bytes < grown;
      GrowthBreaks(path, bytes, grown, from, Lines(path, grown, |bytes|, |grown|));
    }
  }

  /** A line that grows after it was read: it comes out as two records instead of one. */
  lemma CutLine(path: string, bytes: seq<Byte>, grown: seq<Byte>)
    requires bytes == [65] && grown == [65, 66]
    ensures Reaches(bytes, 0, 1) && Reaches(grown, 1, 2) && Reaches(grown, 0, 2)
    ensures Lines(path, bytes, 0, 1) + Lines(path, grown, 1, 2) != Lines(path, grown, 0, 2)
  {
    assert LineEnd(bytes, 0) == 1 && LineEnd(grown, 1) == 2 && LineEnd(grown, 0) == 2;
    GrowthKeepsLinesIff(path, bytes, grown, 0);
  }
}
