/** The description of an alert rule: owner and labels printed before the body as a header that
    can be parsed again. */
module RuleText {
  import opened Text

  const HEADER := "[\U{89C4}\U{5219}\U{5143}\U{6570}\U{636E}]"
  const OWNER := "\U{8D1F}\U{8D23}\U{4EBA}\U{FF1A}"
  const LABELS := "\U{6807}\U{7B7E}\U{FF1A}"
  const RULE := "---"
  const COMMA := '\U{FF0C}'

  datatype Parsed = Parsed(body: string, owner: string, labels: seq<string>)

  function Trimmed(s: string): string {
    Trim(JavaScript, s)
  }

  predicate IsLabelList(labels: seq<string>) {
    && (forall i :: 0 <= i < |labels| ==> labels[i] != "" && Tight(JavaScript, labels[i]))
    && (forall i, j :: 0 <= i < j < |labels| ==> labels[i] != labels[j])
  }

  /** Labels trimmed, without empty ones, each once in the order of first appearance. */
  function NormalizeLabels(labels: seq<string>): (r: seq<string>)
    ensures IsLabelList(r)
  {
    if |labels| == 0 then []
    else
      var front := NormalizeLabels(labels[..|labels| - 1]);
      var last := Trimmed(labels[|labels| - 1]);
      if last == "" || last in front then front else front + [last]
  }

  // ---- Printing ----

  /** The lines before the body, for a trimmed owner and a normalised label list. */
  function Head(owner: string, labels: seq<string>): (r: seq<string>)
    ensures |r| > 0
  {
    [HEADER] + (if owner == "" then [] else [OWNER + owner])
    + (if |labels| == 0 then [] else [LABELS + Join(labels, ", ")]) + [RULE]
  }

  function AllLines(body: string, owner: string, labels: seq<string>): seq<string> {
    Head(owner, labels) + if body == "" then [] else [body]
  }

  function Compose(body: string, owner: string, labels: seq<string>): string {
    var b, o, ls := Trimmed(body), Trimmed(owner), NormalizeLabels(labels);
    if o == "" && |ls| == 0 then b
    else Trimmed(Join(AllLines(b, o, ls), "\n"))
  }

  // ---- Parsing ----

  function DropReturn(s: string): (r: string)
    ensures r <= s
  {
    if s != "" && s[|s| - 1] == '\r' then s[..|s| - 1] else s
  }

  /** split(/\r?\n/): a carriage return goes with the newline after it. */
  function DropReturns(parts: seq<string>): (r: seq<string>)
    ensures |r| == |parts|
  {
    seq(|parts|, i requires 0 <= i < |parts| => if i < |parts| - 1 then DropReturn(parts[i]) else parts[i])
  }

  function SplitLines(s: string): (r: seq<string>)
    ensures |r| > 0
  {
    DropReturns(Split(s, '\n'))
  }

  /** Commas of both kinds as ASCII ones. */
  function Plain(s: string): (r: string)
    ensures |r| == |s|
  {
    seq(|s|, i requires 0 <= i < |s| => if s[i] == COMMA then ',' else s[i])
  }

  /** split(/[，,]/). */
  function SplitCommas(s: string): (r: seq<string>) {
    Split(Plain(s), ',')
  }

  /** The scan over the header lines from line `i`: the last owner and labels, and the first
      line after the rule, or 0 when there is none. */
  datatype Fields = Fields(owner: string, labels: seq<string>, start: nat)

  function ScanHeader(lines: seq<string>, i: nat, owner: string, labels: seq<string>): (f: Fields)
    requires i <= |lines|
    ensures f.start <= |lines|
    decreases |lines| - i
  {
    if i == |lines| then Fields(owner, labels, 0)
    else
      var line := Trimmed(lines[i]);
      if line == RULE then Fields(owner, labels, i + 1)
      else if HasPrefix(line, OWNER) then ScanHeader(lines, i + 1, Trimmed(line[|OWNER|..]), labels)
      else if HasPrefix(line, LABELS) then
        ScanHeader(lines, i + 1, owner, NormalizeLabels(SplitCommas(line[|LABELS|..])))
      else ScanHeader(lines, i + 1, owner, labels)
  }

  function Parse(raw: string): Parsed {
    var description := Trimmed(raw);
    if !HasPrefix(description, HEADER) then Parsed(description, "", [])
    else
      var lines := SplitLines(description);
      var f := ScanHeader(lines, 1, "", []);
      Parsed(if f.start > 0 then Trimmed(Join(lines[f.start..], "\n")) else "", f.owner, f.labels)
  }

  lemma EmptyLine()
    ensures !HasPrefix("", OWNER) && !HasPrefix("", LABELS) && "" != RULE
  {
  }

  method ParseDescription(raw: string) returns (p: Parsed)
    ensures p == Parse(raw)
  {
    var description := Trimmed(raw);
    if !HasPrefix(description, HEADER) {
      return Parsed(description, "", []);
    }
    var lines := SplitLines(description);
    var owner: string, labels: seq<string>, start := "", [], 0;
    var index := 1;
    while index < |lines|
      invariant 1 <= index <= |lines| && start == 0
      invariant ScanHeader(lines, index, owner, labels) == ScanHeader(lines, 1, "", [])
    {
      var line := Trimmed(lines[index]);
      if line == "" {
        EmptyLine();
        index := index + 1;
        continue;
      }
      if line == RULE {
        start := index + 1;
        break;
      }
      if HasPrefix(line, OWNER) {
        owner := Trimmed(line[|OWNER|..]);
        index := index + 1;
        continue;
      }
      if HasPrefix(line, LABELS) {
        labels := NormalizeLabels(SplitCommas(line[|LABELS|..]));
      }
      index := index + 1;
    }
    p := Parsed(if start > 0 then Trimmed(Join(lines[start..], "\n")) else "", owner, labels);
  }

  method ComposeDescription(body: string, owner: string, labels: seq<string>) returns (text: string)
    ensures text == Compose(body, owner, labels)
  {
    var b, o, ls := Trimmed(body), Trimmed(owner), NormalizeLabels(labels);
    if o == "" && |ls| == 0 {
      return b;
    }
    var lines := [HEADER];
    if o != "" {
      lines := lines + [OWNER + o];
    }
    if |ls| > 0 {
      lines := lines + [LABELS + Join(ls, ", ")];
    }
    lines := lines + [RULE];
    assert lines == Head(o, ls);
    if b != "" {
      lines := lines + [b];
    }
    assert lines == AllLines(b, o, ls);
    text := Trimmed(Join(lines, "\n"));
  }

  // ---- What parsing can never give ----

  lemma {:induction false} TrimLeftChars(s: string, c: char)
    requires c !in s
    ensures c !in TrimLeft(JavaScript, s)
  {
    if s != "" && Space(JavaScript, s[0]) {
      TrimLeftChars(s[1..], c);
    }
  }

  lemma TrimmedChars(s: string, c: char)
    requires c !in s
    ensures c !in Trimmed(s)
  {
    TrimLeftChars(s, c);
    var left := TrimLeft(JavaScript, s);
    assert Trimmed(s) <= left;
    assert forall i :: 0 <= i < |Trimmed(s)| ==> Trimmed(s)[i] == left[i];
  }

  lemma {:induction false} SplitChars(s: string, sep: char, c: char)
    requires c !in s
    ensures forall p :: p in Split(s, sep) ==> c !in p
  {
    var i := IndexOf(s, sep);
    if i < |s| {
      SplitChars(s[i + 1..], sep, c);
    }
  }

  lemma {:induction false} NormalizeChars(labels: seq<string>, c: char)
    requires forall l :: l in labels ==> c !in l
    ensures forall l :: l in NormalizeLabels(labels) ==> c !in l
  {
    if |labels| > 0 {
      NormalizeChars(labels[..|labels| - 1], c);
      TrimmedChars(labels[|labels| - 1], c);
    }
  }

  /** `parts` is the text cut at every comma of either kind. */
  predicate IsCut(s: string, parts: seq<string>) {
    && |parts| > 0 && ',' !in parts[0] && COMMA !in parts[0]
    && if |parts| == 1 then s == parts[0]
       else
         && parts[0] < s && (s[|parts[0]|] == ',' || s[|parts[0]|] == COMMA)
         && IsCut(s[|parts[0]| + 1..], parts[1..])
  }

  lemma PlainParts(s: string, i: nat)
    requires i <= |s|
    ensures Plain(s)[i..] == Plain(s[i..])
    ensures ',' !in Plain(s)[..i] ==> ',' !in s[..i] && COMMA !in s[..i] && Plain(s)[..i] == s[..i]
  {
    if ',' !in Plain(s)[..i] {
      forall j | 0 <= j < i ensures s[j] != ',' && s[j] != COMMA {
        assert Plain(s)[..i][j] == Plain(s)[j];
      }
    }
  }

  lemma CutOnce(s: string, i: nat, rest: seq<string>)
    requires i < |s| && ',' !in s[..i] && COMMA !in s[..i] && (s[i] == ',' || s[i] == COMMA)
    requires IsCut(s[i + 1..], rest)
    ensures IsCut(s, [s[..i]] + rest)
  {
    var parts := [s[..i]] + rest;
    assert parts[0] == s[..i] && parts[1..] == rest;
  }

  /** A list of labels is cut at the commas, ASCII and full-width, and nowhere else. */
  lemma {:induction false} SplitCommasIs(s: string)
    ensures IsCut(s, SplitCommas(s))
    decreases |s|
  {
    var i := IndexOf(Plain(s), ',');
    PlainParts(s, i);
    if i == |s| {
      SplitWhole(Plain(s), ',');
      assert Plain(s)[..i] == Plain(s) && s[..i] == s;
    } else {
      SplitCommasIs(s[i + 1..]);
      SplitAt(Plain(s), ',', i);
      PlainParts(s, i + 1);
      CutOnce(s, i, SplitCommas(s[i + 1..]));
    }
  }

  /** A label that the printed list keeps apart from the others. */
  predicate CleanLabel(l: string) {
    '\n' !in l && ',' !in l && COMMA !in l
  }

  predicate AllClean(labels: seq<string>) {
    forall l :: l in labels ==> CleanLabel(l)
  }

  lemma ParsedLabelsClean(line: string)
    requires '\n' !in line
    ensures AllClean(NormalizeLabels(SplitCommas(line)))
  {
    var plain := Plain(line);
    assert COMMA !in plain && '\n' !in plain;
    SplitChars(plain, ',', COMMA);
    SplitChars(plain, ',', '\n');
    var parts := SplitCommas(line);
    NormalizeChars(parts, COMMA);
    NormalizeChars(parts, '\n');
    NormalizeChars(parts, ',');
  }

  lemma {:induction false} ScannedIsClean(lines: seq<string>, i: nat, owner: string, labels: seq<string>)
    requires i <= |lines| && (forall l :: l in lines ==> '\n' !in l) && '\n' !in owner && AllClean(labels)
    ensures var f := ScanHeader(lines, i, owner, labels); '\n' !in f.owner && AllClean(f.labels)
    decreases |lines| - i
  {
    if i < |lines| {
      var line := Trimmed(lines[i]);
      TrimmedChars(lines[i], '\n');
      if line != RULE {
        if HasPrefix(line, OWNER) {
          TrimmedChars(line[|OWNER|..], '\n');
          ScannedIsClean(lines, i + 1, Trimmed(line[|OWNER|..]), labels);
        } else if HasPrefix(line, LABELS) {
          ParsedLabelsClean(line[|LABELS|..]);
          ScannedIsClean(lines, i + 1, owner, NormalizeLabels(SplitCommas(line[|LABELS|..])));
        } else {
          ScannedIsClean(lines, i + 1, owner, labels);
        }
      }
    }
  }

  /** A parsed owner holds no newline; a parsed label no newline and no comma of either kind. */
  lemma ParsedIsClean(raw: string)
    ensures '\n' !in Parse(raw).owner && AllClean(Parse(raw).labels)
  {
    var description := Trimmed(raw);
    var parts := Split(description, '\n');
    var lines := SplitLines(description);
    forall l | l in lines ensures '\n' !in l {
      var i :| 0 <= i < |lines| && lines[i] == l;
      assert parts[i] in parts && l <= parts[i];
    }
    ScannedIsClean(lines, 1, "", []);
  }

  // ---- What parsing gives back ----

  lemma TightTrims(s: string)
    requires Tight(JavaScript, s)
    ensures Trimmed(s) == s
  {
    TrimTight(JavaScript, s);
  }

  lemma TrimmedIsTight(s: string)
    ensures Tight(JavaScript, Trimmed(s)) && Trimmed(Trimmed(s)) == Trimmed(s)
  {
    TightTrims(Trimmed(s));
  }

  lemma TrimLeftShrinks(s: string)
    ensures |TrimLeft(JavaScript, s)| <= |s|
  {
  }

  lemma TrimmedShrinks(s: string)
    ensures |Trimmed(s)| <= |s|
  {
    TrimLeftShrinks(s);
  }

  lemma SpaceBefore(l: string)
    requires l != "" && Tight(JavaScript, l)
    ensures Trimmed(" " + l) == l
  {
    var s := " " + l;
    assert s[1..] == l;
    assert TrimLeft(JavaScript, s) == TrimLeft(JavaScript, l) == l;
    TightTrims(l);
  }

  lemma PlainOf(s: string)
    requires COMMA !in s
    ensures Plain(s) == s
  {
  }

  lemma PlainConcat(a: string, b: string)
    ensures Plain(a + b) == Plain(a) + Plain(b)
  {
  }

  lemma SplitOne(l: string)
    requires CleanLabel(l)
    ensures SplitCommas(l) == [l]
  {
    PlainOf(l);
    SplitWhole(l, ',');
  }

  lemma SplitAnother(a: string, l: string)
    requires CleanLabel(l)
    ensures SplitCommas(a + ", " + l) == SplitCommas(a) + [" " + l]
  {
    var tail := " " + l;
    assert a + ", " + l == a + "," + tail;
    PlainConcat(a + ",", tail);
    PlainConcat(a, ",");
    PlainOf(",");
    PlainOf(tail);
    SplitConcat(Plain(a), ',', tail);
    SplitWhole(tail, ',');
  }

  lemma LabelAfter(parts: seq<string>, front: seq<string>, last: string)
    requires NormalizeLabels(parts) == front && IsLabelList(front + [last])
    ensures NormalizeLabels(parts + [" " + last]) == front + [last]
  {
    var labels := front + [last];
    assert labels[|front|] == last;
    assert last !in front by {
      assert forall i :: 0 <= i < |front| ==> labels[i] == front[i];
    }
    SpaceBefore(last);
    assert (parts + [" " + last])[..|parts|] == parts;
  }

  /** Splitting the printed list and normalising gives the list. */
  lemma {:induction false} LabelsReadBack(ls: seq<string>)
    requires |ls| > 0 && IsLabelList(ls) && AllClean(ls)
    ensures NormalizeLabels(SplitCommas(Join(ls, ", "))) == ls
  {
    var n := |ls| - 1;
    var last := ls[n];
    if n == 0 {
      SplitOne(last);
      TightTrims(last);
      assert [last][..0] == [] && ls == [last];
      assert |NormalizeLabels([last][..0])| == 0;
    } else {
      var front, printed := ls[..n], Join(ls[..n], ", ");
      LabelsReadBack(front);
      SplitAnother(printed, last);
      LabelAfter(SplitCommas(printed), front, last);
      assert ls == front + [last];
    }
  }

  // ---- The body ----

  predicate CarriageReturnAt(s: string, i: nat) {
    i + 1 < |s| && s[i] == '\r' && s[i + 1] == '\n'
  }

  ghost predicate HasCrlf(s: string) {
    exists i :: CarriageReturnAt(s, i)
  }

  function Rejoined(body: string): string {
    Join(SplitLines(body), "\n")
  }

  lemma DropReturnsFirst(first: string, rest: seq<string>)
    requires |rest| > 0
    ensures DropReturns([first] + rest) == [DropReturn(first)] + DropReturns(rest)
  {
  }

  lemma SplitLinesFirst(body: string, i: nat)
    requires i < |body| && body[i] == '\n' && '\n' !in body[..i]
    ensures SplitLines(body) == [DropReturn(body[..i])] + SplitLines(body[i + 1..])
  {
    SplitAt(body, '\n', i);
    DropReturnsFirst(body[..i], Split(body[i + 1..], '\n'));
  }

  lemma RejoinedFirst(body: string, i: nat)
    requires i < |body| && body[i] == '\n' && '\n' !in body[..i]
    ensures Rejoined(body) == DropReturn(body[..i]) + "\n" + Rejoined(body[i + 1..])
  {
    SplitLinesFirst(body, i);
    JoinFront(DropReturn(body[..i]), SplitLines(body[i + 1..]), "\n");
  }

  lemma RejoinedWhole(body: string)
    requires '\n' !in body
    ensures Rejoined(body) == body && !HasCrlf(body)
  {
    SplitWhole(body, '\n');
    assert DropReturns([body]) == [body];
  }

  /** What is left of a text whose lines were cut and joined again: all of it, or less. */
  ghost predicate Rejoins(body: string, again: string) {
    if HasCrlf(body) then |again| < |body| else again == body
  }

  lemma CrlfSplits(body: string, i: nat)
    requires i < |body| && body[i] == '\n' && '\n' !in body[..i]
    ensures HasCrlf(body) <==> (i > 0 && body[i - 1] == '\r') || HasCrlf(body[i + 1..])
  {
    var rest := body[i + 1..];
    if HasCrlf(body) {
      var j: nat :| CarriageReturnAt(body, j);
      if j > i {
        assert CarriageReturnAt(rest, j - (i + 1));
      }
    }
    if HasCrlf(rest) {
      var j: nat :| CarriageReturnAt(rest, j);
      assert CarriageReturnAt(body, j + i + 1);
    }
    if i > 0 && body[i - 1] == '\r' {
      assert CarriageReturnAt(body, i - 1);
    }
  }

  lemma RejoinsStep(body: string, i: nat, again: string)
    requires i < |body| && body[i] == '\n' && '\n' !in body[..i] && Rejoins(body[i + 1..], again)
    ensures Rejoins(body, DropReturn(body[..i]) + "\n" + again)
  {
    CrlfSplits(body, i);
    assert body == body[..i] + "\n" + body[i + 1..];
  }

  /** Cutting a text into lines and joining them drops the carriage returns before newlines,
      and nothing else. */
  lemma {:induction false} RejoinedIff(body: string)
    ensures Rejoins(body, Rejoined(body))
  {
    if '\n' !in body {
      RejoinedWhole(body);
    } else {
      var i := IndexOf(body, '\n');
      RejoinedIff(body[i + 1..]);
      RejoinedFirst(body, i);
      RejoinsStep(body, i, Rejoined(body[i + 1..]));
    }
  }

  // ---- The whole text ----

  /** A line of the header: trimmed, not empty, in one piece. */
  predicate HeadLine(l: string) {
    l != "" && Tight(JavaScript, l) && '\n' !in l
  }

  lemma {:induction false} JoinChars(parts: seq<string>, sep: string, c: char)
    requires c !in sep && forall p :: p in parts ==> c !in p
    ensures c !in Join(parts, sep)
  {
    if |parts| > 1 {
      JoinChars(parts[..|parts| - 1], sep, c);
    }
  }

  lemma {:induction false} JoinEnds(parts: seq<string>, sep: string)
    requires |parts| > 0 && forall i :: 0 <= i < |parts| ==> parts[i] != ""
    ensures var s := Join(parts, sep);
      s != "" && s[0] == parts[0][0] && s[|s| - 1] == parts[|parts| - 1][|parts[|parts| - 1]| - 1]
      && HasPrefix(s, parts[0])
  {
    if |parts| > 1 {
      var front := parts[..|parts| - 1];
      JoinEnds(front, sep);
      assert front[0] == parts[0];
    }
  }

  lemma MarkedLine(mark: string, text: string)
    requires HeadLine(mark) && HeadLine(text)
    ensures HeadLine(mark + text) && HasPrefix(mark + text, mark) && (mark + text)[|mark|..] == text
  {
  }

  lemma LabelLineOk(labels: seq<string>)
    requires |labels| > 0 && IsLabelList(labels) && AllClean(labels)
    ensures HeadLine(Join(labels, ", "))
  {
    JoinEnds(labels, ", ");
    JoinChars(labels, ", ", '\n');
    assert Tight(JavaScript, labels[0]) && Tight(JavaScript, labels[|labels| - 1]);
  }

  lemma MarksOk()
    ensures HeadLine(HEADER) && HeadLine(OWNER) && HeadLine(LABELS) && HeadLine(RULE)
  {
  }

  lemma HeadOk(owner: string, labels: seq<string>)
    requires Tight(JavaScript, owner) && '\n' !in owner && IsLabelList(labels) && AllClean(labels)
    ensures forall i :: 0 <= i < |Head(owner, labels)| ==> HeadLine(Head(owner, labels)[i])
  {
    MarksOk();
    if owner != "" {
      MarkedLine(OWNER, owner);
    }
    if |labels| > 0 {
      LabelLineOk(labels);
      MarkedLine(LABELS, Join(labels, ", "));
    }
  }

  /** Header lines do not end in a carriage return. */
  lemma HeadKeepsReturns(head: seq<string>, rest: seq<string>)
    requires forall i :: 0 <= i < |head| ==> HeadLine(head[i])
    ensures DropReturns(head + rest) == head + DropReturns(rest)
  {
    var all := DropReturns(head + rest);
    forall i | 0 <= i < |head| ensures all[i] == head[i] {
      assert HeadLine(head[i]);
    }
    forall i | |head| <= i < |all| ensures all[i] == DropReturns(rest)[i - |head|] {
      assert (head + rest)[i] == rest[i - |head|];
    }
  }

  lemma PiecesOf(head: seq<string>, body: string)
    requires |head| > 0 && forall i :: 0 <= i < |head| ==> HeadLine(head[i])
    ensures SplitLines(Join(head + (if body == "" then [] else [body]), "\n"))
      == head + (if body == "" then [] else SplitLines(body))
  {
    SplitOfJoin(head, '\n');
    if body == "" {
      assert head + [] == head;
      HeadKeepsReturns(head, []);
    } else {
      JoinSnoc(head, body, "\n");
      SplitConcat(Join(head, "\n"), '\n', body);
      HeadKeepsReturns(head, Split(body, '\n'));
    }
  }

  lemma TightText(all: seq<string>)
    requires |all| > 0 && all[0] == HEADER && forall i :: 0 <= i < |all| ==> all[i] != ""
    requires Tight(JavaScript, all[|all| - 1])
    ensures Trimmed(Join(all, "\n")) == Join(all, "\n") && HasPrefix(Join(all, "\n"), HEADER)
  {
    MarksOk();
    JoinEnds(all, "\n");
    TightTrims(Join(all, "\n"));
  }

  lemma TextIsTight(head: seq<string>, body: string)
    requires |head| > 0 && head[0] == HEADER && forall i :: 0 <= i < |head| ==> HeadLine(head[i])
    requires Tight(JavaScript, body)
    ensures var text := Join(head + (if body == "" then [] else [body]), "\n");
      Trimmed(text) == text && HasPrefix(text, HEADER)
  {
    var all := head + if body == "" then [] else [body];
    assert all[|all| - 1] == if body == "" then head[|head| - 1] else body;
    assert HeadLine(head[|head| - 1]);
    forall i | 0 <= i < |all| ensures all[i] != "" {
      assert i < |head| ==> HeadLine(head[i]);
    }
    TightText(all);
  }

  lemma ScanStops(lines: seq<string>, i: nat, owner: string, labels: seq<string>)
    requires i < |lines| && lines[i] == RULE
    ensures ScanHeader(lines, i, owner, labels) == Fields(owner, labels, i + 1)
  {
    MarksOk();
    TightTrims(RULE);
  }

  lemma ScanLabelLine(lines: seq<string>, i: nat, owner: string, labels: seq<string>)
    requires i < |lines| && |labels| > 0 && IsLabelList(labels) && AllClean(labels)
    requires lines[i] == LABELS + Join(labels, ", ")
    ensures ScanHeader(lines, i, owner, []) == ScanHeader(lines, i + 1, owner, labels)
  {
    MarksOk();
    LabelLineOk(labels);
    MarkedLine(LABELS, Join(labels, ", "));
    TightTrims(lines[i]);
    LabelsReadBack(labels);
    assert lines[i][0] == LABELS[0] && LABELS[0] != OWNER[0] && LABELS[0] != RULE[0];
  }

  lemma ScanOwnerLine(lines: seq<string>, i: nat, owner: string, labels: seq<string>)
    requires i < |lines| && owner != "" && Tight(JavaScript, owner) && '\n' !in owner
    requires lines[i] == OWNER + owner
    ensures ScanHeader(lines, i, "", labels) == ScanHeader(lines, i + 1, owner, labels)
  {
    MarksOk();
    MarkedLine(OWNER, owner);
    TightTrims(lines[i]);
    TightTrims(owner);
    assert lines[i][0] == OWNER[0] && OWNER[0] != RULE[0];
  }

  lemma ScanHead(owner: string, labels: seq<string>, rest: seq<string>)
    requires Tight(JavaScript, owner) && '\n' !in owner && IsLabelList(labels) && AllClean(labels)
    ensures ScanHeader(Head(owner, labels) + rest, 1, "", []) == Fields(owner, labels, |Head(owner, labels)|)
  {
    var lines := Head(owner, labels) + rest;
    var i := 1;
    if owner != "" {
      ScanOwnerLine(lines, 1, owner, []);
      i := 2;
    }
    if |labels| > 0 {
      ScanLabelLine(lines, i, owner, labels);
      i := i + 1;
    }
    ScanStops(lines, i, owner, labels);
  }

  /** With a clean owner and clean labels, only the body's line ends are at stake. */
  lemma CleanReadsBack(body: string, owner: string, labels: seq<string>)
    requires Tight(JavaScript, body) && Tight(JavaScript, owner) && '\n' !in owner
    requires IsLabelList(labels) && AllClean(labels)
    ensures Parse(Join(AllLines(body, owner, labels), "\n")) == Parsed(Trimmed(Rejoined(body)), owner, labels)
  {
    var head := Head(owner, labels);
    var text := Join(AllLines(body, owner, labels), "\n");
    HeadOk(owner, labels);
    TextIsTight(head, body);
    PiecesOf(head, body);
    ScanHead(owner, labels, if body == "" then [] else SplitLines(body));
    var lines := SplitLines(text);
    assert lines[|head|..] == if body == "" then [] else SplitLines(body);
    if body == "" {
      RejoinedWhole(body);
    }
  }

  /** When a description reads back as it was written: with neither owner nor labels, if the
      body does not look like a header; otherwise, if the owner is one line, the labels hold
      neither newlines nor commas, and the body has no carriage return before a newline. */
  ghost predicate Printable(body: string, owner: string, labels: seq<string>) {
    if owner == "" && |labels| == 0 then !HasPrefix(body, HEADER)
    else '\n' !in owner && AllClean(labels) && !HasCrlf(body)
  }

  lemma {:induction false} ScanAdvances(lines: seq<string>, i: nat, owner: string, labels: seq<string>)
    requires i <= |lines|
    ensures var f := ScanHeader(lines, i, owner, labels); f.start == 0 || f.start > i
    decreases |lines| - i
  {
    if i < |lines| {
      var line := Trimmed(lines[i]);
      if line != RULE {
        if HasPrefix(line, OWNER) {
          ScanAdvances(lines, i + 1, Trimmed(line[|OWNER|..]), labels);
        } else if HasPrefix(line, LABELS) {
          ScanAdvances(lines, i + 1, owner, NormalizeLabels(SplitCommas(line[|LABELS|..])));
        } else {
          ScanAdvances(lines, i + 1, owner, labels);
        }
      }
    }
  }

  lemma {:induction false} TailIsShorter(parts: seq<string>, i: nat)
    requires 0 < i < |parts|
    ensures |Join(parts[i..], "\n")| < |Join(parts, "\n")|
    decreases i
  {
    var tail := parts[1..];
    assert parts == [parts[0]] + tail;
    JoinFront(parts[0], tail, "\n");
    if i > 1 {
      TailIsShorter(tail, i - 1);
      assert parts[i..] == tail[i - 1..];
    }
  }

  /** The parsed body of a text with a header is shorter than the text. */
  lemma BodyIsShorter(text: string)
    requires Tight(JavaScript, text) && HasPrefix(text, HEADER)
    ensures |Parse(text).body| < |text|
  {
    TightTrims(text);
    var lines := SplitLines(text);
    var f := ScanHeader(lines, 1, "", []);
    RejoinedIff(text);
    ScanAdvances(lines, 1, "", []);
    if 0 < f.start < |lines| {
      TailIsShorter(lines, f.start);
      TrimmedShrinks(Join(lines[f.start..], "\n"));
    } else {
      assert f.start == |lines| ==> |lines[f.start..]| == 0;
    }
  }

  lemma PlainReadsBackIff(body: string)
    requires Tight(JavaScript, body)
    ensures Parse(body) == Parsed(body, "", []) <==> !HasPrefix(body, HEADER)
  {
    TightTrims(body);
    if HasPrefix(body, HEADER) {
      BodyIsShorter(body);
    }
  }

  lemma CleanReadsBackIff(body: string, owner: string, labels: seq<string>)
    requires Tight(JavaScript, body) && Tight(JavaScript, owner) && '\n' !in owner
    requires IsLabelList(labels) && AllClean(labels)
    ensures Parse(Join(AllLines(body, owner, labels), "\n")) == Parsed(body, owner, labels) <==> !HasCrlf(body)
  {
    CleanReadsBack(body, owner, labels);
    RejoinedIff(body);
    TrimmedShrinks(Rejoined(body));
    TightTrims(body);
  }

  lemma ComposedIsTrimmed(body: string, owner: string, labels: seq<string>)
    requires owner != "" || |labels| > 0
    requires Tight(JavaScript, body) && Tight(JavaScript, owner) && '\n' !in owner
    requires IsLabelList(labels) && AllClean(labels)
    ensures var text := Join(AllLines(body, owner, labels), "\n"); Trimmed(text) == text
  {
    HeadOk(owner, labels);
    TextIsTight(Head(owner, labels), body);
  }

  /** Parsing a composed description gives back the trimmed body, the trimmed owner and the
      normalised labels exactly when these are printable. */
  lemma RoundTripIff(body: string, owner: string, labels: seq<string>)
    ensures var b, o, ls := Trimmed(body), Trimmed(owner), NormalizeLabels(labels);
      Parse(Compose(body, owner, labels)) == Parsed(b, o, ls) <==> Printable(b, o, ls)
  {
    var b, o, ls := Trimmed(body), Trimmed(owner), NormalizeLabels(labels);
    TrimmedIsTight(body);
    TrimmedIsTight(owner);
    if o == "" && |ls| == 0 {
      PlainReadsBackIff(b);
      assert ls == [];
    } else if '\n' !in o && AllClean(ls) {
      ComposedIsTrimmed(b, o, ls);
      CleanReadsBackIff(b, o, ls);
    } else {
      ParsedIsClean(Compose(body, owner, labels));
    }
  }

  /** A text that does not read back: an owner with a newline, whatever the rest. */
  lemma OwnerIsCut(body: string, owner: string, labels: seq<string>)
    requires owner == "a\nb"
    ensures Parse(Compose(body, owner, labels)) != Parsed(Trimmed(body), owner, NormalizeLabels(labels))
  {
    assert owner[1] == '\n' && Tight(JavaScript, owner);
    TrimTight(JavaScript, owner);
    RoundTripIff(body, owner, labels);
  }
}
