/** Option and Result, used where the source returns a missing value or an error, and what several
    modules need of numbers and sequences. */
module Prelude {
  datatype Option<+T> = None | Some(value: T)

  datatype Result<+T, +E> = Ok(value: T) | Err(error: E)

  function Max(a: int, b: int): (r: int) {
    if a > b then a else b
  }

  function Min(a: int, b: int): (r: int) {
    if a < b then a else b
  }

  function Sum<T>(s: seq<T>, f: T -> int): int {
    if s == [] then 0 else Sum(s[..|s| - 1], f) + f(s[|s| - 1])
  }

  lemma {:induction false} SumConcat<T>(a: seq<T>, b: seq<T>, f: T -> int)
    ensures Sum(a + b, f) == Sum(a, f) + Sum(b, f)
  {
    if b == [] {
      assert a + b == a;
    } else {
      SumConcat(a, b[..|b| - 1], f);
      assert (a + b)[..|a| + |b| - 1] == a + b[..|b| - 1];
    }
  }

  lemma SumOne<T>(x: T, f: T -> int)
    ensures Sum([x], f) == f(x)
  {
    assert [x][..0] == [];
  }

  lemma SumUpdate<T>(s: seq<T>, i: nat, x: T, f: T -> int)
    requires i < |s|
    ensures Sum(s[i := x], f) == Sum(s, f) - f(s[i]) + f(x)
  {
    var front, back := s[..i], s[i + 1..];
    assert s == front + ([s[i]] + back) && s[i := x] == front + ([x] + back);
    SumConcat(front, [s[i]] + back, f);
    SumConcat(front, [x] + back, f);
    SumConcat([s[i]], back, f);
    SumConcat([x], back, f);
    SumOne(s[i], f);
    SumOne(x, f);
  }

  /** `kept` are the elements at exactly those places where the test holds, in order. */
  ghost predicate Picks<T>(items: seq<T>, p: T -> bool, places: seq<nat>, kept: seq<T>) {
    && |places| == |kept|
    && (forall i, j :: 0 <= i < j < |places| ==> places[i] < places[j])
    && (forall i :: 0 <= i < |places| ==> places[i] < |items| && kept[i] == items[places[i]])
    && forall n :: 0 <= n < |items| ==> (n in places <==> p(items[n]))
  }

  lemma PicksNone<T>(items: seq<T>, p: T -> bool, places: seq<nat>, kept: seq<T>)
    requires |items| == |places| == |kept| == 0
    ensures Picks(items, p, places, kept)
  {
  }

  lemma PicksSnoc<T>(front: seq<T>, x: T, p: T -> bool, places: seq<nat>, kept: seq<T>)
    requires Picks(front, p, places, kept)
    ensures if p(x) then Picks(front + [x], p, places + [|front|], kept + [x]) else Picks(front + [x], p, places, kept)
  {
    assert |front| !in places;
    var more := places + [|front|];
    assert more[|places|] == |front|;
    assert forall n :: n in more <==> n in places || n == |front|;
  }

  /** The results of `f` on the elements, one after the other. */
  function FlatMap<T, U>(s: seq<T>, f: T -> seq<U>): seq<U> {
    if |s| == 0 then [] else FlatMap(s[..|s| - 1], f) + f(s[|s| - 1])
  }

  lemma {:induction false} FlatMapConcat<T, U>(a: seq<T>, b: seq<T>, f: T -> seq<U>)
    ensures FlatMap(a + b, f) == FlatMap(a, f) + FlatMap(b, f)
  {
    if |b| == 0 {
      assert a + b == a;
    } else {
      FlatMapConcat(a, b[..|b| - 1], f);
      assert (a + b)[..|a| + |b| - 1] == a + b[..|b| - 1];
    }
  }

  /** A state after some inputs, one after the other. */
  function Fold<S, T>(f: (S, T) -> S, s: S, xs: seq<T>): S {
    if |xs| == 0 then s else f(Fold(f, s, xs[..|xs| - 1]), xs[|xs| - 1])
  }

  lemma {:induction false} FoldConcat<S, T>(f: (S, T) -> S, s: S, a: seq<T>, b: seq<T>)
    ensures Fold(f, s, a + b) == Fold(f, Fold(f, s, a), b)
  {
    if |b| == 0 {
      assert a + b == a;
    } else {
      FoldConcat(f, s, a, b[..|b| - 1]);
      assert (a + b)[..|a| + |b| - 1] == a + b[..|b| - 1];
    }
  }

  lemma Associate<T>(x: seq<T>, y: seq<T>, z: seq<T>)
    ensures x + y + z == x + (y + z)
  {
  }

  lemma FlatMapOne<T, U>(x: T, f: T -> seq<U>)
    ensures FlatMap([x], f) == f(x)
  {
    assert |[x][..0]| == 0;
  }
}

/** Runs of a state machine, and the one induction principle used on them. */
module Runs {
  ghost predicate Steps<S(!new), E(!new)>(next: (S, E, S) -> bool, ss: seq<S>, es: seq<E>) {
    |ss| == |es| + 1 && forall i {:trigger es[i]} :: 0 <= i < |es| ==> next(ss[i], es[i], ss[i + 1])
  }

  lemma StepsSnoc<S(!new), E(!new)>(next: (S, E, S) -> bool, ss: seq<S>, es: seq<E>, e: E, s: S)
    requires Steps(next, ss, es) && next(ss[|es|], e, s)
    ensures Steps(next, ss + [s], es + [e])
  {
  }

  /** What holds at first and is kept by every step holds at every state of a run. */
  lemma Invariant<S(!new), E(!new)>(next: (S, E, S) -> bool, ss: seq<S>, es: seq<E>, inv: S -> bool)
    requires Steps(next, ss, es) && inv(ss[0])
    requires forall s, e, s' :: inv(s) && next(s, e, s') ==> inv(s')
    ensures forall i :: 0 <= i < |ss| ==> inv(ss[i])
  {
    for i := 0 to |es|
      invariant forall j :: 0 <= j <= i ==> inv(ss[j])
    {
      assert next(ss[i], es[i], ss[i + 1]);
    }
  }

  /** A transitive relation that every step establishes relates any earlier state of a run to
      any later one. */
  lemma Monotone<S(!new), E(!new)>(next: (S, E, S) -> bool, ss: seq<S>, es: seq<E>,
                                   le: (S, S) -> bool)
    requires Steps(next, ss, es)
    requires forall s :: le(s, s)
    requires forall a, b, c :: le(a, b) && le(b, c) ==> le(a, c)
    requires forall i :: 0 <= i < |es| ==> le(ss[i], ss[i + 1])
    ensures forall i, j :: 0 <= i <= j < |ss| ==> le(ss[i], ss[j])
  {
    for n := 0 to |es|
      invariant forall i, j :: 0 <= i <= j <= n ==> le(ss[i], ss[j])
    {
      assert le(ss[n], ss[n + 1]);
    }
  }

  /** What holds of a number and of each next one, up to a larger number, holds of that. */
  lemma {:induction false} Upwards(p: nat -> bool, a: nat, b: nat)
    requires a <= b && p(a)
    requires forall i: nat, j: nat {:trigger p(i), p(j)} :: a <= i < b && j == i + 1 && p(i) ==> p(j)
    ensures p(b)
  {
    if a < b {
      Upwards(p, a, b - 1);
    }
  }
}

/** The string operations of the two host languages that the modelled code relies on.
    A string is a sequence of Unicode scalar values. */
module Text {
  import opened Prelude

  datatype Lang = Go | JavaScript

  /** White space as strings.TrimSpace (Go) and String.prototype.trim (JavaScript) see it:
      U+0085 counts only in Go, U+FEFF only in JavaScript. */
  predicate Space(lang: Lang, c: char) {
    || c == ' ' || ('\t' <= c <= '\r')
    || c == '\U{A0}' || c == '\U{1680}' || '\U{2000}' <= c <= '\U{200A}'
    || c == '\U{2028}' || c == '\U{2029}' || c == '\U{202F}' || c == '\U{205F}' || c == '\U{3000}'
    || (lang.Go? && c == '\U{85}')
    || (lang.JavaScript? && c == '\U{FEFF}')
  }

  /** What the code tests as "the trimmed text is empty"; see BlankIsTrimmedEmpty. */
  predicate Blank(lang: Lang, s: string) {
    forall i :: 0 <= i < |s| ==> Space(lang, s[i])
  }

  function TrimLeft(lang: Lang, s: string): (r: string)
    ensures |r| <= |s|
    ensures r != [] ==> !Space(lang, r[0])
    ensures r == [] <==> Blank(lang, s)
  {
    if s == [] || !Space(lang, s[0]) then s else TrimLeft(lang, s[1..])
  }

  function TrimRight(lang: Lang, s: string): (r: string)
    ensures r <= s
    ensures r != [] ==> !Space(lang, r[|r| - 1])
    ensures r == [] <==> Blank(lang, s)
  {
    if s == [] || !Space(lang, s[|s| - 1]) then s else TrimRight(lang, s[..|s| - 1])
  }

  function Trim(lang: Lang, s: string): (r: string)
    ensures r == [] || (!Space(lang, r[0]) && !Space(lang, r[|r| - 1]))
  {
    TrimRight(lang, TrimLeft(lang, s))
  }

  lemma BlankIsTrimmedEmpty(lang: Lang, s: string)
    ensures Blank(lang, s) <==> Trim(lang, s) == []
  {
  }

  predicate HasPrefix(s: string, p: string) {
    |p| <= |s| && s[..|p|] == p
  }

  /** A string that neither starts nor ends with white space. */
  predicate Tight(lang: Lang, s: string) {
    s == [] || (!Space(lang, s[0]) && !Space(lang, s[|s| - 1]))
  }

  lemma TrimTight(lang: Lang, s: string)
    requires Tight(lang, s)
    ensures Trim(lang, s) == s
  {
    if s != [] {
      assert TrimLeft(lang, s) == s;
    }
  }

  const MAX_INT64: int := 0x7FFF_FFFF_FFFF_FFFF

  predicate Digit(c: char) {
    '0' <= c <= '9'
  }

  predicate Digits(s: string) {
    forall i :: 0 <= i < |s| ==> Digit(s[i])
  }

  /** strconv.FormatInt in base ten, for the non-negative values the cursors take. */
  function FormatNat(n: nat): (s: string)
    ensures s != [] && Digits(s)
  {
    var last := [('0' as int + n % 10) as char];
    if n < 10 then last else FormatNat(n / 10) + last
  }

  function DigitsValue(s: string): (n: int)
    requires Digits(s)
    ensures n >= 0
  {
    if s == [] then 0
    else
      assert Digit(s[|s| - 1]);
      DigitsValue(s[..|s| - 1]) * 10 + (s[|s| - 1] as int - '0' as int)
  }

  /** strconv.ParseInt(s, 10, 64): an optional sign, at least one digit, in range. */
  function ParseInt64(s: string): (r: Option<int>)
    ensures r.Some? ==> -MAX_INT64 - 1 <= r.value <= MAX_INT64
  {
    var signed := s != [] && (s[0] == '-' || s[0] == '+');
    var digits := if signed then s[1..] else s;
    if digits == [] || !Digits(digits) then None
    else
      var v := if signed && s[0] == '-' then -DigitsValue(digits) else DigitsValue(digits);
      if -MAX_INT64 - 1 <= v <= MAX_INT64 then Some(v) else None
  }

  lemma {:induction false} DigitsOfFormat(n: nat)
    ensures DigitsValue(FormatNat(n)) == n
  {
    var s := FormatNat(n);
    var c := ('0' as int + n % 10) as char;
    if n >= 10 {
      DigitsOfFormat(n / 10);
      assert s[..|s| - 1] == FormatNat(n / 10) && s[|s| - 1] == c;
    } else {
      assert s == [c] && s[..|s| - 1] == [];
      assert DigitsValue(s[..|s| - 1]) == 0;
    }
  }

  lemma DigitsAreTight(lang: Lang, s: string)
    requires Digits(s)
    ensures Trim(lang, s) == s
  {
    if s != [] {
      assert Digit(s[0]) && Digit(s[|s| - 1]);
    }
    TrimTight(lang, s);
  }

  /** A cursor printed by the service is read back as the same number. */
  lemma CursorRoundTrip(lang: Lang, n: nat)
    requires n <= MAX_INT64
    ensures FormatNat(n) != [] && Trim(lang, FormatNat(n)) == FormatNat(n)
    ensures ParseInt64(FormatNat(n)) == Some(n)
  {
    var s := FormatNat(n);
    DigitsOfFormat(n);
    DigitsAreTight(lang, s);
    assert Digit(s[0]);
  }

  // ---- Splitting and joining ----

  function IndexOf(s: string, c: char): (i: nat)
    ensures i <= |s| && c !in s[..i] && (i < |s| ==> s[i] == c)
  {
    if s == [] || s[0] == c then 0 else 1 + IndexOf(s[1..], c)
  }

  /** strings.Split with a one-character separator. */
  function Split(s: string, c: char): (parts: seq<string>)
    ensures parts != []
    ensures forall p :: p in parts ==> c !in p
  {
    var i := IndexOf(s, c);
    if i == |s| then [s] else [s[..i]] + Split(s[i + 1..], c)
  }

  function Join(parts: seq<string>, sep: string): (s: string) {
    if parts == [] then ""
    else if |parts| == 1 then parts[0]
    else Join(parts[..|parts| - 1], sep) + sep + parts[|parts| - 1]
  }

  lemma IndexIsFirst(s: string, c: char, i: nat)
    requires i <= |s| && c !in s[..i] && (i < |s| ==> s[i] == c)
    ensures IndexOf(s, c) == i
  {
  }

  lemma SplitAt(s: string, c: char, i: nat)
    requires i < |s| && c !in s[..i] && s[i] == c
    ensures Split(s, c) == [s[..i]] + Split(s[i + 1..], c)
  {
    IndexIsFirst(s, c, i);
  }

  lemma SplitWhole(s: string, c: char)
    requires c !in s
    ensures Split(s, c) == [s]
  {
    IndexIsFirst(s, c, |s|);
  }

  lemma PartsOfConcat(a: string, c: char, b: string, i: nat)
    requires i <= |a|
    ensures (a + [c] + b)[..i] == a[..i]
    ensures i == |a| ==> a[..i] == a && (a + [c] + b)[i] == c && (a + [c] + b)[i + 1..] == b
    ensures i < |a| ==> (a + [c] + b)[i] == a[i] && (a + [c] + b)[i + 1..] == a[i + 1..] + [c] + b
  {
  }

  lemma ConsConcat(x: string, p: seq<string>, q: seq<string>)
    ensures [x] + (p + q) == [x] + p + q
  {
  }

  /** A separator between two texts separates their parts. */
  lemma {:induction false} SplitConcat(a: string, c: char, b: string)
    ensures Split(a + [c] + b, c) == Split(a, c) + Split(b, c)
  {
    var i := IndexOf(a, c);
    PartsOfConcat(a, c, b, i);
    SplitAt(a + [c] + b, c, i);
    if i < |a| {
      var rest := a[i + 1..];
      SplitConcat(rest, c, b);
      SplitAt(a, c, i);
      ConsConcat(a[..i], Split(rest, c), Split(b, c));
    } else {
      SplitWhole(a, c);
    }
  }

  lemma JoinSnoc(parts: seq<string>, p: string, sep: string)
    requires |parts| > 0
    ensures Join(parts + [p], sep) == Join(parts, sep) + sep + p
  {
    assert (parts + [p])[..|parts|] == parts;
  }

  lemma {:induction false} JoinFront(p: string, parts: seq<string>, sep: string)
    requires parts != []
    ensures Join([p] + parts, sep) == p + sep + Join(parts, sep)
  {
    var all := [p] + parts;
    assert all[..|all| - 1] == [p] + parts[..|parts| - 1];
    if |parts| > 1 {
      JoinFront(p, parts[..|parts| - 1], sep);
    } else {
      assert all[..|all| - 1] == [p];
    }
  }

  /** Joining the parts of a split text gives the text back. */
  lemma {:induction false} JoinOfSplit(s: string, c: char)
    ensures Join(Split(s, c), [c]) == s
  {
    var i := IndexOf(s, c);
    if i == |s| {
      SplitWhole(s, c);
    } else {
      var rest := s[i + 1..];
      JoinOfSplit(rest, c);
      SplitAt(s, c, i);
      JoinFront(s[..i], Split(rest, c), [c]);
      assert s == s[..i] + [c] + rest;
    }
  }

  /** Splitting joined parts gives the parts back, when no part holds the separator. */
  lemma {:induction false} SplitOfJoin(parts: seq<string>, c: char)
    requires parts != [] && forall i :: 0 <= i < |parts| ==> c !in parts[i]
    ensures Split(Join(parts, [c]), c) == parts
  {
    var last := parts[|parts| - 1];
    SplitWhole(last, c);
    if |parts| > 1 {
      SplitOfJoin(parts[..|parts| - 1], c);
      SplitConcat(Join(parts[..|parts| - 1], [c]), c, last);
      assert parts == parts[..|parts| - 1] + [last];
    } else {
      assert parts == [last];
    }
  }

  predicate Contains(s: string, t: string) {
    exists i :: 0 <= i <= |s| && HasPrefix(s[i..], t)
  }

  /** The case maps of Go's strings package as far as they give ASCII letters; no further
      character maps to one. */
  function Lower(s: string): (r: string) {
    seq(|s|, i requires 0 <= i < |s| =>
      if 'A' <= s[i] <= 'Z' then (s[i] as int + 32) as char
      else if s[i] == '\U{212A}' then 'k' else if s[i] == '\U{130}' then 'i' else s[i])
  }

  function Upper(s: string): (r: string) {
    seq(|s|, i requires 0 <= i < |s| =>
      if 'a' <= s[i] <= 'z' then (s[i] as int - 32) as char
      else if s[i] == '\U{131}' then 'I' else if s[i] == '\U{17F}' then 'S' else s[i])
  }

  /** strings.EqualFold with a lower-case ASCII text whose letters fold with no other character
      (all but 'k' and 's'). */
  predicate EqualsIgnoringCase(s: string, lower: string) {
    |s| == |lower| && forall i :: 0 <= i < |s| ==>
      (if 'A' <= s[i] <= 'Z' then (s[i] as int + 32) as char else s[i]) == lower[i]
  }

  /** The length of the UTF-8 encoding, which is what Go's len counts. */
  function ByteLen(s: string): (n: nat)
    ensures n >= |s|
  {
    if s == [] then 0
    else
      var c := s[|s| - 1] as int;
      ByteLen(s[..|s| - 1]) + (if c < 0x80 then 1 else if c < 0x800 then 2 else if c < 0x1_0000 then 3 else 4)
  }
}
