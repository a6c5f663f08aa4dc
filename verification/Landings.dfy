/** Where records go when they are added: the line and occurrence counts they leave in the buffer,
    and the one way in which several records leave the counts that a single one would. */
module Landings {
  import opened Normalize
  import opened PullV1
  import opened PullV1Index

  /** What adding one record does to the buffer. */
  ghost predicate Effect(how: How, before: seq<Record>, r: Record, after: seq<Record>) {
    match how
    case Continuation(i) =>
      i < |before| && |after| == |before| && after == before[i := after[i]]
      && Edited(before[i], after[i], r.multiline.lineCount, 0)
    case Again(i) =>
      i < |before| && |after| == |before| && after == before[i := after[i]] && Edited(before[i], after[i], 0, 1)
    case Fresh =>
      |after| == |before| + 1 && after[..|before|] == before && after[|before|].multiline == r.multiline
      && after[|before|].dedup == r.dedup
  }

  lemma AddOneEffect(digest: string -> string, st: State, r: Record)
    requires AllNormal(st.records) && Plain(r)
    ensures Effect(Fate(st, r), st.records, r, AddOne(digest, st, r).records)
  {
    match Fate(st, r)
    case Continuation(i) =>
      assert Normal(st.records[i]);
      ContinuationEdits(digest, st.records[i], r);
    case Again(i) =>
      assert Normal(st.records[i]);
      RepetitionEdits(st.records[i], r.(seqNo := st.nextSeq + 1));
    case Fresh =>
  }

  /** Every record is still there, with no fewer lines and occurrences, and with at most so many
      lines more; a new record has no more than these. */
  ghost predicate Grows(a: seq<Record>, b: seq<Record>, lines: int) {
    && |a| <= |b|
    && (forall q :: 0 <= q < |a| ==> LineCount(a[q]) <= LineCount(b[q]) <= LineCount(a[q]) + lines)
    && (forall q :: |a| <= q < |b| ==> LineCount(b[q]) <= lines)
    && (forall q :: 0 <= q < |a| ==> Occurrences(a[q]) <= Occurrences(b[q]))
  }

  lemma EffectGrows(how: How, before: seq<Record>, r: Record, after: seq<Record>)
    requires Effect(how, before, r, after) && Plain(r)
    ensures Grows(before, after, LineCount(r))
  {
    if how.Fresh? {
      assert forall q :: 0 <= q < |before| ==> after[q] == after[..|before|][q];
    }
  }

  lemma GrowsOn(a: seq<Record>, b: seq<Record>, c: seq<Record>, n: int, m: int)
    requires Grows(a, b, n) && Grows(b, c, m) && n >= 0 && m >= 0
    ensures Grows(a, c, n + m)
  {
  }

  lemma {:induction false} AddAllGrows(digest: string -> string, st: State, rs: seq<Record>)
    requires Sound(st) && AllPlain(rs)
    ensures Grows(st.records, AddAll(digest, st, rs).records, LineSum(rs)) && LineSum(rs) >= |rs|
  {
    if |rs| > 0 {
      var front, last := rs[..|rs| - 1], rs[|rs| - 1];
      var before := AddAll(digest, st, front);
      AddAllGrows(digest, st, front);
      AddAllSound(digest, st, front);
      assert Plain(last);
      AddOneEffect(digest, before, last);
      EffectGrows(Fate(before, last), before.records, last, AddOne(digest, before, last).records);
      GrowsOn(st.records, before.records, AddOne(digest, before, last).records, LineSum(front), LineCount(last));
    }
  }

  // ---- Records that all continue one ----

  /** Each of the records in turn continues the buffered record at `p`. */
  predicate AllContinue(digest: string -> string, st: State, rs: seq<Record>, p: nat) {
    |rs| == 0 ||
      var front := rs[..|rs| - 1];
      AllContinue(digest, st, front, p) && Continued(AddAll(digest, st, front).records, rs[|rs| - 1]) == p
  }

  /** Only the record at `p` has more lines, and it has so many more. */
  ghost predicate OnlyAt(a: seq<Record>, b: seq<Record>, p: nat, lines: int) {
    && |a| == |b| && p < |a| && LineCount(b[p]) == LineCount(a[p]) + lines
    && forall q :: 0 <= q < |a| && q != p ==> LineCount(b[q]) == LineCount(a[q])
  }

  lemma EffectOnlyAt(how: How, before: seq<Record>, r: Record, after: seq<Record>, p: nat)
    requires Effect(how, before, r, after) && Plain(r)
    ensures OnlyAt(before, after, p, LineCount(r)) <==> how == Continuation(p)
  {
  }

  lemma OnlyAtBoth(a: seq<Record>, b: seq<Record>, c: seq<Record>, p: nat, n: int, m: int)
    requires Grows(a, b, n) && Grows(b, c, m)
    ensures OnlyAt(a, c, p, n + m) <==> OnlyAt(a, b, p, n) && OnlyAt(b, c, p, m)
  {
  }

  /** The last of them. */
  lemma LastContinues(digest: string -> string, a: seq<Record>, before: State, last: Record, p: nat,
                      lines: int)
    requires AllNormal(before.records) && Plain(last) && Grows(a, before.records, lines)
    ensures OnlyAt(a, AddOne(digest, before, last).records, p, lines + LineCount(last))
      <==> OnlyAt(a, before.records, p, lines) && Continued(before.records, last) == p
  {
    var after := AddOne(digest, before, last).records;
    AddOneEffect(digest, before, last);
    EffectGrows(Fate(before, last), before.records, last, after);
    EffectOnlyAt(Fate(before, last), before.records, last, after, p);
    OnlyAtBoth(a, before.records, after, p, lines, LineCount(last));
  }

  lemma {:induction false} AllContinueIff(digest: string -> string, st: State, rs: seq<Record>, p: nat)
    requires Sound(st) && AllPlain(rs) && p < |st.records|
    ensures AllContinue(digest, st, rs, p) <==> OnlyAt(st.records, AddAll(digest, st, rs).records, p, LineSum(rs))
  {
    if |rs| > 0 {
      var front, last := rs[..|rs| - 1], rs[|rs| - 1];
      AllContinueIff(digest, st, front, p);
      AddAllGrows(digest, st, front);
      AddAllSound(digest, st, front);
      assert Plain(last);
      LastContinues(digest, st.records, AddAll(digest, st, front), last, p, LineSum(front));
    }
  }

  lemma TwiceReplaced<T>(a: seq<T>, b: seq<T>, c: seq<T>, p: nat)
    requires p < |a| == |b| == |c| && b == a[p := b[p]] && c == b[p := c[p]]
    ensures c == a[p := c[p]]
  {
  }

  lemma ContinuedOnly(digest: string -> string, st: State, r: Record, p: nat)
    requires Continued(st.records, r) == p
    ensures var after := AddOne(digest, st, r).records;
      p < |after| == |st.records| && after == st.records[p := after[p]]
  {
  }

  /** Then nothing else in the buffer changes. */
  lemma {:induction false} AllContinueLeaves(digest: string -> string, st: State, rs: seq<Record>, p: nat)
    requires AllContinue(digest, st, rs, p) && p < |st.records|
    ensures var after := AddAll(digest, st, rs).records;
      |after| == |st.records| && after == st.records[p := after[p]]
  {
    if |rs| > 0 {
      var front, last := rs[..|rs| - 1], rs[|rs| - 1];
      AllContinueLeaves(digest, st, front, p);
      var before := AddAll(digest, st, front).records;
      ContinuedOnly(digest, AddAll(digest, st, front), last, p);
      TwiceReplaced(st.records, before, AddAll(digest, st, rs).records, p);
    }
  }

  // ---- Several records or a single one ----

  /** The same numbers of lines and occurrences everywhere. */
  ghost predicate SameCounts(a: seq<Record>, b: seq<Record>) {
    && |a| == |b|
    && forall q :: 0 <= q < |a| ==> LineCount(a[q]) == LineCount(b[q]) && Occurrences(a[q]) == Occurrences(b[q])
  }

  /** The first record and the single one go to the same place, the buffer's end or a record that
      they continue, and the other records all follow there. */
  predicate SameWay(digest: string -> string, st: State, first: Record, whole: Record, rest: seq<Record>) {
    && Fate(st, first) == Fate(st, whole)
    && match Fate(st, first)
       case Continuation(i) => AllContinue(digest, AddOne(digest, st, first), rest, i)
       case Again(_) => false
       case Fresh => AllContinue(digest, AddOne(digest, st, first), rest, |st.records|)
  }

  lemma AgainIsNotSame(one: seq<Record>, before: seq<Record>, i: nat, whole: Record, how: How, first: Record,
                       mid: seq<Record>, fate: How, late: seq<Record>, last: Record, two: seq<Record>, n: int)
    requires Effect(Again(i), before, whole, one) && Effect(how, before, first, mid) && Plain(first)
    requires Grows(mid, late, n) && Effect(fate, late, last, two) && Plain(last)
    ensures !SameCounts(two, one)
  {
    EffectGrows(how, before, first, mid);
    EffectGrows(fate, late, last, two);
    if |two| == |before| {
      assert !fate.Fresh? && !how.Fresh? && |mid| == |late| == |before|;
      if fate.Continuation? {
        assert LineCount(two[fate.i]) > LineCount(late[fate.i]) >= LineCount(before[fate.i]) == LineCount(one[fate.i]);
      } else if how.Continuation? {
        assert LineCount(two[how.i]) >= LineCount(mid[how.i]) > LineCount(before[how.i]) == LineCount(one[how.i]);
      } else if fate.i == how.i {
        assert Occurrences(two[how.i]) > Occurrences(late[how.i]) >= Occurrences(before[how.i]) + 1;
        assert Occurrences(before[how.i]) + 1 >= Occurrences(one[how.i]);
      } else {
        var q := if fate.i == i then how.i else fate.i;
        assert Occurrences(two[q]) > Occurrences(before[q]) == Occurrences(one[q]);
      }
    }
  }

  lemma CountedIsNotSame(digest: string -> string, one: seq<Record>, before: seq<Record>, i: nat,
                         whole: Record, how: How, first: Record, mid: State, rest: seq<Record>)
    requires Sound(mid) && Plain(first) && AllPlain(rest) && |rest| > 0
    requires Effect(Again(i), before, whole, one) && Effect(how, before, first, mid.records)
    ensures !SameCounts(AddAll(digest, mid, rest).records, one)
  {
    var front, last := rest[..|rest| - 1], rest[|rest| - 1];
    var late := AddAll(digest, mid, front);
    AddAllSound(digest, mid, front);
    AddAllGrows(digest, mid, front);
    assert Plain(last);
    AddOneEffect(digest, late, last);
    AgainIsNotSame(one, before, i, whole, how, first, mid.records, Fate(late, last), late.records, last,
                   AddAll(digest, mid, rest).records, LineSum(front));
  }

  lemma ContinuationIsSame(one: seq<Record>, before: seq<Record>, i: nat, whole: Record, how: How, first: Record,
                           mid: seq<Record>, two: seq<Record>, n: int)
    requires Effect(Continuation(i), before, whole, one) && Effect(how, before, first, mid) && Plain(first)
    requires Grows(mid, two, n) && SameCounts(two, one) && LineCount(whole) == LineCount(first) + n && Plain(whole)
    ensures how == Continuation(i) && OnlyAt(mid, two, i, n)
  {
    EffectGrows(how, before, first, mid);
    assert |before| == |mid| == |two|;
    assert LineCount(two[i]) == LineCount(before[i]) + LineCount(first) + n;
    assert LineCount(mid[i]) >= LineCount(before[i]) + LineCount(first);
    assert forall q :: 0 <= q < |before| && q != i ==>
      LineCount(before[q]) <= LineCount(mid[q]) <= LineCount(two[q]) == LineCount(before[q]);
  }

  lemma FreshIsSame(one: seq<Record>, before: seq<Record>, whole: Record, how: How, first: Record,
                    mid: seq<Record>, two: seq<Record>, n: int)
    requires Effect(Fresh, before, whole, one) && Effect(how, before, first, mid) && Plain(first)
    requires Grows(mid, two, n) && SameCounts(two, one) && LineCount(whole) == LineCount(first) + n && Plain(whole)
    ensures how == Fresh && OnlyAt(mid, two, |before|, n)
  {
    EffectGrows(how, before, first, mid);
    EffectGrows(Fresh, before, whole, one);
    var k := |before|;
    assert forall q :: 0 <= q < k ==> one[q] == one[..k][q] == before[q];
    assert forall q :: 0 <= q < k ==>
      LineCount(before[q]) <= LineCount(mid[q]) <= LineCount(two[q]) == LineCount(before[q]);
    assert LineCount(two[k]) == LineCount(first) + n;
  }

  /** Several records leave the counts that a single one of as many lines would only if they go
      the same way. */
  lemma {:induction false} SameCountsSameWay(digest: string -> string, st: State, first: Record, whole: Record,
                                             rest: seq<Record>)
    requires Sound(st) && Plain(first) && Plain(whole) && AllPlain(rest) && |rest| > 0
    requires LineCount(whole) == LineCount(first) + LineSum(rest)
    requires SameCounts(AddAll(digest, AddOne(digest, st, first), rest).records, AddOne(digest, st, whole).records)
    ensures SameWay(digest, st, first, whole, rest)
  {
    var mid := AddOne(digest, st, first);
    var one, two := AddOne(digest, st, whole).records, AddAll(digest, mid, rest).records;
    AddOneSound(digest, st, first);
    AddOneEffect(digest, st, first);
    AddOneEffect(digest, st, whole);
    AddAllGrows(digest, mid, rest);
    match Fate(st, whole)
    case Again(i) =>
      CountedIsNotSame(digest, one, st.records, i, whole, Fate(st, first), first, mid, rest);
    case Continuation(i) =>
      ContinuationIsSame(one, st.records, i, whole, Fate(st, first), first, mid.records, two, LineSum(rest));
      AllContinueIff(digest, mid, rest, i);
    case Fresh =>
      FreshIsSame(one, st.records, whole, Fate(st, first), first, mid.records, two, LineSum(rest));
      AllContinueIff(digest, mid, rest, |st.records|);
  }
}
