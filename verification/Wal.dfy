/** The write-ahead buffer: records appended to a file as lines, read back with a line scanner
    that gives up on long lines, and thinned to the critical ones when the file is too large. */
module Wal {
  import opened Prelude
  import opened Plugins
  import opened Text
  import Scan

  const NEWLINE := Scan.NEWLINE
  const RETURN := Scan.RETURN

  /** How records are written as lines. */
  datatype Codec = Codec(enc: Record -> seq<Byte>, dec: seq<Byte> -> Option<Record>)

  predicate Critical(r: Record) {
    "log_priority" in r.metadata && EqualsIgnoringCase(Trim(Go, r.metadata["log_priority"]), "critical")
  }

  /** What the encoding of one record has to be: no newline, not empty, not ending in a
      carriage return (which the scanner strips), and decoded to the record again. */
  ghost predicate Faithful(c: Codec) {
    forall r :: var line := c.enc(r);
      && line != [] && line[|line| - 1] != RETURN && c.dec(line) == Some(r)
      && forall i :: 0 <= i < |line| ==> line[i] != NEWLINE
  }

  /** The longest line the scanner returns. */
  const MAX_LINE := 65535

  function Encode(c: Codec, rs: seq<Record>): (s: seq<Byte>) {
    if |rs| == 0 then [] else c.enc(rs[0]) + [NEWLINE] + Encode(c, rs[1..])
  }

  function DropReturn(line: seq<Byte>): (r: seq<Byte>) {
    if |line| > 0 && line[|line| - 1] == RETURN then line[..|line| - 1] else line
  }

  /** All records of a file, and whether the scanner came to the end. Empty lines and lines
      that do not decode are skipped. */
  function ReadAll(c: Codec, data: seq<Byte>): (r: (seq<Record>, bool))
    decreases |data|
  {
    if |data| == 0 then ([], true)
    else
      var e := Scan.LineEnd(data, 0);
      var line := if data[e - 1] == NEWLINE then data[..e - 1] else data[..e];
      if |line| > MAX_LINE then ([], false)
      else
        var (rest, ok) := ReadAll(c, data[e..]);
        var token := DropReturn(line);
        var first := if |token| == 0 then None else c.dec(token);
        (if first.Some? then [first.value] + rest else rest, ok)
  }

  predicate Short(c: Codec, r: Record) {
    |c.enc(r)| <= MAX_LINE
  }

  predicate AllShort(c: Codec, rs: seq<Record>) {
    |rs| == 0 || (Short(c, rs[0]) && AllShort(c, rs[1..]))
  }

  function CriticalOf(rs: seq<Record>): (r: seq<Record>) {
    if |rs| == 0 then []
    else CriticalOf(rs[..|rs| - 1]) + if Critical(rs[|rs| - 1]) then [rs[|rs| - 1]] else []
  }

  // ---- Lines and records ----

  lemma {:induction false} LineEndAt(data: seq<Byte>, from: nat, i: nat)
    requires from <= i < |data| && data[i] == NEWLINE && forall j :: from <= j < i ==> data[j] != NEWLINE
    ensures Scan.LineEnd(data, from) == i + 1
    decreases i - from
  {
    if from < i {
      LineEndAt(data, from + 1, i);
    }
  }

  lemma FirstLineEnds(line: seq<Byte>, rest: seq<Byte>)
    requires forall i :: 0 <= i < |line| ==> line[i] != NEWLINE
    ensures Scan.LineEnd(line + [NEWLINE] + rest, 0) == |line| + 1
  {
    var data := line + [NEWLINE] + rest;
    assert forall i :: 0 <= i < |line| ==> data[i] == line[i];
    LineEndAt(data, 0, |line|);
  }

  lemma {:induction false} ReadFirst(c: Codec, r: Record, rest: seq<Byte>, data: seq<Byte>)
    requires Faithful(c) && data == c.enc(r) + [NEWLINE] + rest
    ensures Short(c, r) ==> ReadAll(c, data).0 == [r] + ReadAll(c, rest).0 && ReadAll(c, data).1 == ReadAll(c, rest).1
    ensures !Short(c, r) ==> !ReadAll(c, data).1
  {
    var line := c.enc(r);
    FirstLineEnds(line, rest);
    assert data[..|line|] == line && data[|line| + 1..] == rest;
  }

  /** Reading back what was written gives the records, unless one is too long. */
  lemma {:induction false} ReadAllOfEncode(c: Codec, rs: seq<Record>)
    requires Faithful(c)
    ensures ReadAll(c, Encode(c, rs)).1 <==> AllShort(c, rs)
    ensures AllShort(c, rs) ==> ReadAll(c, Encode(c, rs)).0 == rs
  {
    if |rs| > 0 {
      var first, more := rs[0], rs[1..];
      var rest, data := Encode(c, more), Encode(c, rs);
      ReadFirst(c, first, rest, data);
      ReadAllOfEncode(c, more);
      assert rs == [first] + more;
    }
  }

  lemma {:induction false} EncodeConcat(c: Codec, a: seq<Record>, b: seq<Record>)
    ensures Encode(c, a + b) == Encode(c, a) + Encode(c, b)
  {
    if |a| == 0 {
      assert a + b == b;
    } else {
      EncodeConcat(c, a[1..], b);
      Associate(c.enc(a[0]) + [NEWLINE], Encode(c, a[1..]), Encode(c, b));
      var all := a + b;
      assert all[0] == a[0] && all[1..] == a[1..] + b;
    }
  }

  lemma {:induction false} ShortConcat(c: Codec, a: seq<Record>, b: seq<Record>)
    ensures AllShort(c, a + b) <==> AllShort(c, a) && AllShort(c, b)
  {
    if |a| == 0 {
      assert a + b == b;
    } else {
      ShortConcat(c, a[1..], b);
      var all := a + b;
      assert all[0] == a[0] && all[1..] == a[1..] + b;
    }
  }

  lemma {:induction false} CriticalConcat(a: seq<Record>, b: seq<Record>)
    ensures CriticalOf(a + b) == CriticalOf(a) + CriticalOf(b)
  {
    if |b| == 0 {
      assert a + b == a;
    } else {
      var front, last, all := b[..|b| - 1], b[|b| - 1], a + b;
      CriticalConcat(a, front);
      assert all[..|all| - 1] == a + front && all[|all| - 1] == last;
      if Critical(last) {
        assert CriticalOf(all) == CriticalOf(a) + CriticalOf(front) + [last];
      } else {
        assert CriticalOf(all) == CriticalOf(a) + CriticalOf(front);
      }
    }
  }

  lemma {:induction false} CriticalIff(a: seq<Record>)
    ensures forall x :: x in CriticalOf(a) <==> x in a && Critical(x)
  {
    if |a| > 0 {
      CriticalIff(a[..|a| - 1]);
      assert a == a[..|a| - 1] + [a[|a| - 1]];
    }
  }

  lemma {:induction false} CriticalTwice(a: seq<Record>)
    ensures CriticalOf(CriticalOf(a)) == CriticalOf(a)
  {
    if |a| > 0 {
      var front, last := a[..|a| - 1], a[|a| - 1];
      CriticalTwice(front);
      if Critical(last) {
        assert CriticalOf(a)[..|CriticalOf(a)| - 1] == CriticalOf(front);
      } else {
        assert CriticalOf(a) == CriticalOf(front);
      }
    }
  }

  lemma {:induction false} ShortIff(c: Codec, rs: seq<Record>)
    ensures AllShort(c, rs) <==> forall r :: r in rs ==> Short(c, r)
  {
    if |rs| > 0 {
      ShortIff(c, rs[1..]);
      assert rs == [rs[0]] + rs[1..];
    }
  }

  lemma CriticalShort(c: Codec, rs: seq<Record>)
    requires AllShort(c, rs)
    ensures AllShort(c, CriticalOf(rs))
  {
    ShortIff(c, rs);
    CriticalIff(rs);
    ShortIff(c, CriticalOf(rs));
  }

  // ---- The operations ----

  /** The file's bytes, the size the buffer believes it has, and whether the file is open. */
  datatype State = State(content: seq<Byte>, size: int, open: bool)

  function OverflowStep(c: Codec, max: int, st: State): (State, bool) {
    if st.size <= max then (st, true)
    else if !st.open then (st, false)
    else
      var (records, ok) := ReadAll(c, st.content);
      if !ok then (st.(open := false), false)
      else
        var kept := Encode(c, CriticalOf(records));
        (State(kept, |kept|, true), true)
  }

  function WriteStep(c: Codec, max: int, st: State, rs: seq<Record>): (State, bool) {
    if !st.open && |rs| > 0 then (st, false)
    else
      var lines := Encode(c, rs);
      OverflowStep(c, max, st.(content := st.content + lines, size := st.size + |lines|))
  }

  function AckStep(st: State): (State, bool) {
    if !st.open then (st, false) else (State([], 0, true), true)
  }

  /** None is an error: the file is closed, or a line is too long for the scanner. */
  function PendingOf(c: Codec, st: State): Option<seq<Record>> {
    if st.size == 0 then Some([])
    else if !st.open then None
    else
      var (records, ok) := ReadAll(c, st.content);
      if ok then Some(records) else None
  }

  // ---- Runs ----

  /** The buffer with every record written since the last accepted Ack. */
  datatype World = World(st: State, written: seq<Record>)

  datatype Event = Write(rs: seq<Record>) | Ack

  ghost predicate Next(c: Codec, max: int, w: World, e: Event, w': World) {
    match e
    case Write(rs) => w'.st == WriteStep(c, max, w.st, rs).0 && w'.written == w.written + rs
    case Ack => w'.st == AckStep(w.st).0 && w'.written == if AckStep(w.st).1 then [] else w.written
  }

  /** A run on a fresh file. */
  ghost predicate Run(c: Codec, max: int, ws: seq<World>, es: seq<Event>) {
    && |ws| == |es| + 1
    && |ws[0].st.content| == 0 && ws[0].st.size == 0 && ws[0].st.open && |ws[0].written| == 0
    && forall i :: 0 <= i < |es| ==> Next(c, max, ws[i], es[i], ws[i + 1])
  }

  /** What is kept of the written records: of the first `k` the critical ones, then all. */
  ghost predicate ThinnedAt(written: seq<Record>, pending: seq<Record>, k: nat) {
    k <= |written| && pending == CriticalOf(written[..k]) + written[k..]
  }

  ghost predicate Thinned(written: seq<Record>, pending: seq<Record>) {
    exists k :: ThinnedAt(written, pending, k)
  }

  /** The buffer holds exactly the lines of `pending`. */
  ghost predicate Holds(c: Codec, w: World, pending: seq<Record>) {
    && w.st.open && w.st.content == Encode(c, pending) && w.st.size == |w.st.content|
    && Thinned(w.written, pending)
    && AllShort(c, pending)
  }

  lemma ThinnedGrows(written: seq<Record>, pending: seq<Record>, rs: seq<Record>)
    requires Thinned(written, pending)
    ensures Thinned(written + rs, pending + rs)
  {
    var k: nat :| ThinnedAt(written, pending, k);
    var all, front, back := written + rs, CriticalOf(written[..k]), written[k..];
    assert all[..k] == written[..k] && all[k..] == back + rs;
    assert front + back + rs == front + (back + rs);
    assert ThinnedAt(all, pending + rs, k);
  }

  /** Keeping the critical ones of what is pending is keeping the critical ones of all. */
  lemma {:induction false} CriticalOfThinned(written: seq<Record>, pending: seq<Record>, k: nat)
    requires k <= |written| && pending == CriticalOf(written[..k]) + written[k..]
    ensures CriticalOf(pending) == CriticalOf(written)
  {
    CriticalConcat(CriticalOf(written[..k]), written[k..]);
    CriticalTwice(written[..k]);
    CriticalConcat(written[..k], written[k..]);
    assert written[..k] + written[k..] == written;
  }

  lemma ThinnedAgain(written: seq<Record>, pending: seq<Record>)
    requires Thinned(written, pending)
    ensures CriticalOf(pending) == CriticalOf(written)
    ensures Thinned(written, CriticalOf(pending))
  {
    var k: nat :| ThinnedAt(written, pending, k);
    CriticalOfThinned(written, pending, k);
    assert written[..|written|] == written;
    assert ThinnedAt(written, CriticalOf(pending), |written|);
  }

  lemma OverflowHolds(c: Codec, max: int, w: World,
                      pending: seq<Record>) returns (pending': seq<Record>)
    requires Faithful(c) && Holds(c, w, pending)
    ensures var (st, ok) := OverflowStep(c, max, w.st);
      ok && Holds(c, w.(st := st), pending') && (st.size <= max || forall x :: x in pending' ==> Critical(x))
  {
    if w.st.size <= max {
      pending' := pending;
    } else {
      pending' := CriticalOf(pending);
      ReadAllOfEncode(c, pending);
      ThinnedAgain(w.written, pending);
      CriticalShort(c, pending);
      CriticalIff(pending);
    }
  }

  /** A successful write leaves a small enough file, or only critical records. */
  lemma WriteHolds(c: Codec, max: int, w: World, rs: seq<Record>, w': World, pending: seq<Record>)
    returns (pending': seq<Record>)
    requires Faithful(c) && Holds(c, w, pending) && Next(c, max, w, Write(rs), w')
    requires AllShort(c, rs)
    ensures Holds(c, w', pending') && WriteStep(c, max, w.st, rs).1
    ensures w'.st.size <= max || forall x :: x in pending' ==> Critical(x)
  {
    var lines := Encode(c, rs);
    EncodeConcat(c, pending, rs);
    ShortConcat(c, pending, rs);
    ThinnedGrows(w.written, pending, rs);
    var grown := World(w.st.(content := w.st.content + lines, size := w.st.size + |lines|), w.written + rs);
    pending' := OverflowHolds(c, max, grown, pending + rs);
  }

  lemma AckHolds(c: Codec, max: int, w: World, w': World,
                 pending: seq<Record>) returns (pending': seq<Record>)
    requires Holds(c, w, pending) && Next(c, max, w, Ack, w')
    ensures Holds(c, w', pending')
  {
    pending' := pending[..0];
    assert ThinnedAt(w'.written, pending', 0);
  }

  ghost predicate Keeps(c: Codec, w: World) {
    exists pending :: Holds(c, w, pending)
  }

  /** What ReadPending returns while the buffer holds `pending`. */
  lemma PendingIsHeld(c: Codec, w: World, pending: seq<Record>)
    requires Faithful(c) && Holds(c, w, pending)
    ensures PendingOf(c, w.st) == Some(pending)
  {
    ReadAllOfEncode(c, pending);
    if |pending| > 0 {
      assert |Encode(c, pending)| > 0;
    }
  }

  /** In every run whose encoded lines fit the scanner, ReadPending gives the written records
      in order, all of them from some point on and before it at least every critical one, and
      the believed size is the file's length. */
  lemma {:induction false} RunKeeps(c: Codec, max: int, ws: seq<World>, es: seq<Event>, n: nat)
    requires Faithful(c) && Run(c, max, ws, es) && n < |ws|
    requires forall i :: 0 <= i < |es| && es[i].Write? ==> AllShort(c, es[i].rs)
    ensures Keeps(c, ws[n])
    ensures var pending := PendingOf(c, ws[n].st);
      pending.Some? && Thinned(ws[n].written, pending.value) && ws[n].st.size == |ws[n].st.content|
  {
    var pending: seq<Record>;
    if n == 0 {
      pending := ws[0].written;
      assert ThinnedAt(ws[0].written, pending, 0);
      assert Holds(c, ws[0], pending);
    } else {
      RunKeeps(c, max, ws, es, n - 1);
      var before :| Holds(c, ws[n - 1], before);
      assert Next(c, max, ws[n - 1], es[n - 1], ws[n]);
      match es[n - 1]
      case Write(rs) => pending := WriteHolds(c, max, ws[n - 1], rs, ws[n], before);
      case Ack => pending := AckHolds(c, max, ws[n - 1], ws[n], before);
    }
    PendingIsHeld(c, ws[n], pending);
  }

  /** In such a run every write succeeds, and leaves a file within the limit or only critical
      records in it. */
  lemma WritesAreBounded(c: Codec, max: int, ws: seq<World>, es: seq<Event>, i: nat)
    requires Faithful(c) && Run(c, max, ws, es) && i < |es| && es[i].Write?
    requires forall i :: 0 <= i < |es| && es[i].Write? ==> AllShort(c, es[i].rs)
    ensures WriteStep(c, max, ws[i].st, es[i].rs).1
    ensures PendingOf(c, ws[i + 1].st).Some?
    ensures ws[i + 1].st.size <= max || forall x :: x in PendingOf(c, ws[i + 1].st).value ==> Critical(x)
  {
    RunKeeps(c, max, ws, es, i);
    var before :| Holds(c, ws[i], before);
    assert Next(c, max, ws[i], es[i], ws[i + 1]);
    var after := WriteHolds(c, max, ws[i], es[i].rs, ws[i + 1], before);
    PendingIsHeld(c, ws[i + 1], after);
  }

  /** Exactly when an overflow leaves the buffer usable: if a pending line is too long for the
      scanner, the file stays closed, and from then on writes, reads and acknowledgements of a
      nonempty buffer all fail. */
  lemma OverflowStaysOpenIff(c: Codec, max: int, st: State, pending: seq<Record>)
    requires Faithful(c) && st.open && st.content == Encode(c, pending)
    ensures OverflowStep(c, max, st).0.open <==> st.size <= max || AllShort(c, pending)
  {
    ReadAllOfEncode(c, pending);
  }

  lemma ClosedStaysClosed(c: Codec, max: int, st: State, rs: seq<Record>)
    requires !st.open && st.size > max >= 0
    ensures WriteStep(c, max, st, rs) == (st, false) && AckStep(st) == (st, false) && PendingOf(c, st) == None
  {
    if |rs| == 0 {
      assert st.content + Encode(c, rs) == st.content;
    }
  }

  lemma {:induction false} EncodeIsLonger(c: Codec, rs: seq<Record>)
    ensures |Encode(c, rs)| >= |rs|
  {
    if |rs| > 0 {
      EncodeIsLonger(c, rs[1..]);
    }
  }

  /** Where it does not: on a fresh file, whatever its limit, a record too long for the scanner is
      written often enough to exceed the limit. The buffer ends up closed and over its size. */
  lemma LongRecordCloses(c: Codec, max: nat, r: Record) returns (ws: seq<World>, es: seq<Event>)
    requires Faithful(c) && !Short(c, r)
    ensures Run(c, max, ws, es) && !ws[|es|].st.open && ws[|es|].st.size > max
  {
    var rs := seq(max + 1, i => r);
    var w := World(State([], 0, true), []);
    var lines := Encode(c, rs);
    var w' := World(WriteStep(c, max, w.st, rs).0, w.written + rs);
    assert w.st.content + lines == lines;
    EncodeIsLonger(c, rs);
    assert rs[0] == r;
    OverflowStaysOpenIff(c, max, State(lines, |lines|, true), rs);
    ws, es := [w, w'], [Write(rs)];
  }

  // ---- The buffer, as it runs ----

  lemma OneLine(c: Codec, r: Record)
    ensures Encode(c, [r]) == c.enc(r) + [NEWLINE]
  {
    assert |[r][1..]| == 0;
  }

  lemma EncodeSnoc(c: Codec, rs: seq<Record>, r: Record)
    ensures Encode(c, rs + [r]) == Encode(c, rs) + c.enc(r) + [NEWLINE]
  {
    EncodeConcat(c, rs, [r]);
    OneLine(c, r);
  }

  /** The result of a read that has these records and this rest to go. */
  ghost function ReadOn(c: Codec, records: seq<Record>, rest: seq<Byte>): (seq<Record>, bool) {
    (records + ReadAll(c, rest).0, ReadAll(c, rest).1)
  }

  lemma ReadOnStep(c: Codec, records: seq<Record>, rest: seq<Byte>)
    requires |rest| > 0
    ensures var e := Scan.LineEnd(rest, 0);
      var line := if rest[e - 1] == NEWLINE then rest[..e - 1] else rest[..e];
      var token := DropReturn(line);
      var first := if |token| == 0 then None else c.dec(token);
      ReadOn(c, records, rest) ==
        if |line| > MAX_LINE then (records, false)
        else ReadOn(c, if first.Some? then records + [first.value] else records, rest[e..])
  {
    var e := Scan.LineEnd(rest, 0);
    var line := if rest[e - 1] == NEWLINE then rest[..e - 1] else rest[..e];
    var more := ReadAll(c, rest[e..]).0;
    if |line| > MAX_LINE {
      assert ReadAll(c, rest) == ([], false) && records + [] == records;
    } else if |DropReturn(line)| > 0 && c.dec(DropReturn(line)).Some? {
      var first := c.dec(DropReturn(line)).value;
      assert records + ([first] + more) == records + [first] + more;
    }
  }

  lemma ReadOnEnds(c: Codec, records: seq<Record>, rest: seq<Byte>)
    requires |rest| == 0
    ensures ReadOn(c, records, rest) == (records, true)
  {
    assert records + [] == records;
  }

  lemma ReadOnStarts(c: Codec, records: seq<Record>, data: seq<Byte>)
    requires |records| == 0
    ensures ReadOn(c, records, data) == ReadAll(c, data)
  {
    assert records + ReadAll(c, data).0 == ReadAll(c, data).0;
  }

  class WalBuffer {
    const codec: Codec
    const maxBytes: int
    var content: seq<Byte>
    var size: int
    var open: bool

    ghost function View(): State
      reads this
    {
      State(content, size, open)
    }

    /** Opens the file, which may hold lines of an earlier process. */
    constructor (codec: Codec, maxBytes: int, found: seq<Byte>)
      ensures View() == State(found, |found|, true) && this.codec == codec
      ensures this.maxBytes == if maxBytes <= 0 then 0x4000_0000 else maxBytes
    {
      this.codec := codec;
      this.maxBytes := if maxBytes <= 0 then 0x4000_0000 else maxBytes;
      content, size, open := found, |found|, true;
    }

    method AppendLines(records: seq<Record>) returns (ok: bool)
      modifies this`content, this`size
      ensures ok <==> open || |records| == 0
      ensures ok ==> content == old(content) + Encode(codec, records) && size == old(size) + |Encode(codec, records)|
      ensures !ok ==> content == old(content) && size == old(size)
    {
      for i := 0 to |records|
        invariant content == old(content) + Encode(codec, records[..i])
        invariant size == old(size) + |Encode(codec, records[..i])|
        invariant i > 0 ==> open
      {
        if !open {
          return false;
        }
        var line := codec.enc(records[i]) + [NEWLINE];
        EncodeSnoc(codec, records[..i], records[i]);
        assert records[..i + 1] == records[..i] + [records[i]];
        content := content + line;
        size := size + |line|;
      }
      assert records[..|records|] == records;
      ok := true;
    }

    method Rewrite(kept: seq<Record>) returns (ok: bool)
      modifies this
      ensures ok && View() == State(Encode(codec, kept), |Encode(codec, kept)|, true)
    {
      content, size, open := [], 0, true;
      ok := AppendLines(kept);
      assert [] + Encode(codec, kept) == Encode(codec, kept);
    }

    static method SelectCritical(records: seq<Record>) returns (kept: seq<Record>)
      ensures kept == CriticalOf(records)
    {
      kept := [];
      for i := 0 to |records|
        invariant kept == CriticalOf(records[..i])
      {
        assert records[..i + 1][..i] == records[..i];
        if Critical(records[i]) {
          kept := kept + [records[i]];
        }
      }
      assert records[..|records|] == records;
    }

    method ReadAllRecords() returns (records: seq<Record>, complete: bool)
      ensures (records, complete) == ReadAll(codec, content)
    {
      records := [];
      var rest := content;
      ReadOnStarts(codec, records, rest);
      while |rest| > 0
        invariant ReadOn(codec, records, rest) == ReadAll(codec, content)
        decreases |rest|
      {
        ReadOnStep(codec, records, rest);
        var end := Scan.LineEnd(rest, 0);
        var line := if rest[end - 1] == NEWLINE then rest[..end - 1] else rest[..end];
        if |line| > MAX_LINE {
          return records, false;
        }
        rest := rest[end..];
        var token := DropReturn(line);
        if |token| == 0 {
          continue;
        }
        var record := codec.dec(token);
        if record.Some? {
          records := records + [record.value];
        }
      }
      ReadOnEnds(codec, records, rest);
      complete := true;
    }

    method TruncateIfOverflow() returns (ok: bool)
      modifies this
      ensures (View(), ok) == OverflowStep(codec, maxBytes, old(View()))
    {
      if size <= maxBytes {
        return true;
      }
      if !open {
        return false;
      }
      open := false;
      var records, complete := ReadAllRecords();
      if !complete {
        return false;
      }
      var kept := SelectCritical(records);
      ok := Rewrite(kept);
    }

    method Write(records: seq<Record>) returns (ok: bool)
      modifies this
      ensures (View(), ok) == WriteStep(codec, maxBytes, old(View()), records)
    {
      ok := AppendLines(records);
      if ok {
        ok := TruncateIfOverflow();
      }
    }

    method ReadPending() returns (r: Option<seq<Record>>)
      ensures r == PendingOf(codec, View())
    {
      if size == 0 {
        return Some([]);
      }
      if !open {
        return None;
      }
      var records, complete := ReadAllRecords();
      r := if complete then Some(records) else None;
    }

    method Ack() returns (ok: bool)
      modifies this
      ensures (View(), ok) == AckStep(old(View()))
    {
      if !open {
        return false;
      }
      content, size := [], 0;
      ok := true;
    }
  }
}
