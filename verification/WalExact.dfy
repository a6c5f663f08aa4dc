/** What the write-ahead buffer reads of any bytes, which records it keeps when it thins, and what a
    closed one does. */
module WalExact {
  import opened Prelude
  import opened Plugins
  import opened Text
  import opened Wal
  import Scan

  /** The word in small or capital letters. */
  predicate SameLetters(s: string, word: string) {
    |s| == |word| && forall i :: 0 <= i < |s| ==>
      s[i] == word[i] || ('a' <= word[i] <= 'z' && s[i] as int == word[i] as int - 32)
  }

  /** A record survives an overflow when its priority is critical, in whatever letters. */
  lemma SurvivesIff(r: Record)
    ensures Critical(r) <==>
      "log_priority" in r.metadata && SameLetters(Trim(Go, r.metadata["log_priority"]), "critical")
  {
  }

  /** Kept are exactly the critical records, in their order. */
  lemma {:induction false} CriticalKeepsOrder(rs: seq<Record>) returns (places: seq<nat>)
    ensures Picks(rs, Critical, places, CriticalOf(rs))
  {
    if |rs| == 0 {
      places := [];
      PicksNone(rs, Critical, places, CriticalOf(rs));
    } else {
      var front, last := rs[..|rs| - 1], rs[|rs| - 1];
      places := CriticalKeepsOrder(front);
      PicksSnoc(front, last, Critical, places, CriticalOf(front));
      assert rs == front + [last];
      places := if Critical(last) then places + [|front|] else places;
    }
  }

  // ---- Reading any bytes ----

  /** A line without the newline that ends it. */
  function Unterminated(line: seq<Byte>): seq<Byte> {
    if |line| > 0 && line[|line| - 1] == 10 then line[..|line| - 1] else line
  }

  predicate TooLong(line: seq<Byte>) {
    |Unterminated(line)| > 65535
  }

  /** What is read of a line: nothing if it is empty, perhaps but for a carriage return at its end,
      or does not decode. */
  function RecordOf(c: Codec, line: seq<Byte>): seq<Record> {
    var text := Unterminated(line);
    var token := if |text| > 0 && text[|text| - 1] == 13 then text[..|text| - 1] else text;
    if |token| == 0 then [] else match c.dec(token)
      case Some(r) => [r]
      case None => []
  }

  function RecordsOf(c: Codec, lines: seq<seq<Byte>>): seq<Record> {
    if |lines| == 0 then [] else RecordOf(c, lines[0]) + RecordsOf(c, lines[1..])
  }

  /** The lines are read up to the first one that is too long. */
  predicate ReadsTo(c: Codec, lines: seq<seq<Byte>>, n: nat, records: seq<Record>, complete: bool) {
    && n <= |lines| && records == RecordsOf(c, lines[..n]) && (complete <==> n == |lines|)
    && (forall i :: 0 <= i < n ==> !TooLong(lines[i])) && (n < |lines| ==> TooLong(lines[n]))
  }

  lemma {:induction false} DropReaches(data: seq<Byte>, e: nat, from: nat)
    requires e <= from <= |data|
    ensures Scan.LineEnd(data, from) == e + Scan.LineEnd(data[e..], from - e)
    decreases |data| - from
  {
    if from < |data| {
      assert data[e..][from - e] == data[from];
      if data[from] != 10 {
        DropReaches(data, e, from + 1);
      }
    }
  }

  /** The lines of the rest of a file. */
  lemma {:induction false} DropLines(data: seq<Byte>, rest: seq<Byte>, e: nat, from: nat)
    requires e <= from <= |data| && rest == data[e..]
    requires Scan.Reaches(data, from, |data|) && Scan.Reaches(rest, from - e, |rest|)
    ensures Scan.RawLines(data, from, |data|) == Scan.RawLines(rest, from - e, |rest|)
    decreases |data| - from
  {
    if from < |data| {
      DropReaches(data, e, from);
      var next := Scan.LineEnd(data, from);
      DropLines(data, rest, e, next);
      assert data[from..next] == rest[from - e..next - e];
    }
  }

  lemma OneMoreRead(c: Codec, first: seq<Byte>, lines: seq<seq<Byte>>, n: nat, records: seq<Record>, complete: bool)
    requires ReadsTo(c, lines, n, records, complete) && !TooLong(first)
    ensures ReadsTo(c, [first] + lines, n + 1, RecordOf(c, first) + records, complete)
  {
    var all := [first] + lines;
    assert all[..n + 1] == [first] + lines[..n];
    assert all[..n + 1][1..] == lines[..n];
  }

  lemma NoneRead(c: Codec, lines: seq<seq<Byte>>)
    requires |lines| > 0 ==> TooLong(lines[0])
    ensures ReadsTo(c, lines, 0, [], |lines| == 0)
  {
  }

  lemma FirstLineIs(data: seq<Byte>, e: nat)
    requires |data| > 0 && e == Scan.LineEnd(data, 0)
    ensures Unterminated(data[..e]) == if data[e - 1] == 10 then data[..e - 1] else data[..e]
    ensures data[..e] == data[0..e]
  {
    assert data[..e][e - 1] == data[e - 1];
    assert data[..e][..e - 1] == data[..e - 1];
  }

  lemma ReadAllStep(c: Codec, data: seq<Byte>, e: nat, line: seq<Byte>, rest: seq<Byte>)
    requires |data| > 0 && e == Scan.LineEnd(data, 0) && line == data[..e] && rest == data[e..]
    ensures ReadAll(c, data) ==
      if TooLong(line) then ([], false) else (RecordOf(c, line) + ReadAll(c, rest).0, ReadAll(c, rest).1)
  {
    FirstLineIs(data, e);
    var text, more := Unterminated(line), ReadAll(c, rest).0;
    var token := DropReturn(text);
    assert [] + more == more;
    if |token| > 0 && c.dec(token).Some? {
      assert RecordOf(c, line) == [c.dec(token).value];
    } else {
      assert RecordOf(c, line) == [];
    }
  }

  lemma LinesStep(data: seq<Byte>, e: nat, line: seq<Byte>, rest: seq<Byte>)
    requires |data| > 0 && e == Scan.LineEnd(data, 0) && line == data[..e] && rest == data[e..]
    requires Scan.Reaches(data, 0, |data|)
    ensures Scan.Reaches(rest, 0, |rest|)
    ensures Scan.RawLines(data, 0, |data|) == [line] + Scan.RawLines(rest, 0, |rest|)
  {
    Scan.ReachesEnd(data, e);
    Scan.ReachesEnd(rest, 0);
    DropLines(data, rest, e, e);
    assert data[0..e] == line;
  }

  /** Reading a file gives the records of its lines up to the first one that the scanner cannot
      take, and says whether there was one. */
  lemma {:induction false} ReadAllIs(c: Codec, data: seq<Byte>) returns (n: nat)
    requires Scan.Reaches(data, 0, |data|)
    ensures ReadsTo(c, Scan.RawLines(data, 0, |data|), n, ReadAll(c, data).0, ReadAll(c, data).1)
    decreases |data|
  {
    n := 0;
    var lines := Scan.RawLines(data, 0, |data|);
    if |data| == 0 {
      NoneRead(c, lines);
    } else {
      var e := Scan.LineEnd(data, 0);
      var line, rest := data[..e], data[e..];
      ReadAllStep(c, data, e, line, rest);
      LinesStep(data, e, line, rest);
      if TooLong(line) {
        NoneRead(c, lines);
      } else {
        var m := ReadAllIs(c, rest);
        OneMoreRead(c, line, Scan.RawLines(rest, 0, |rest|), m, ReadAll(c, rest).0, ReadAll(c, rest).1);
        n := m + 1;
      }
    }
  }

  // ---- A closed buffer ----

  /** A closed buffer changes no more. It takes a write of nothing while it is small enough, and has
      nothing pending when it is empty; everything else fails. */
  lemma ClosedIsExact(c: Codec, max: int, st: State, rs: seq<Record>)
    requires !st.open
    ensures WriteStep(c, max, st, rs) == (st, |rs| == 0 && st.size <= max)
    ensures AckStep(st) == (st, false) && PendingOf(c, st) == if st.size == 0 then Some([]) else None
  {
    if |rs| == 0 {
      assert st.content + Encode(c, rs) == st.content;
    }
  }

  /** An open one is emptied by an acknowledgement, and has pending what can be read of it. */
  lemma OpenIsExact(c: Codec, st: State)
    requires st.open
    ensures AckStep(st).1 && |AckStep(st).0.content| == AckStep(st).0.size == 0 && AckStep(st).0.open
    ensures st.size != 0 ==>
      PendingOf(c, st) == if ReadAll(c, st.content).1 then Some(ReadAll(c, st.content).0) else None
  {
  }
}
