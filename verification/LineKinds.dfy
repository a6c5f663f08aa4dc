/** Which lines continue a record, told from the words they begin with or hold. */
module LineKinds {
  import opened Prelude
  import opened Text
  import opened Normalize

  const TRACE := ["at ", "...", "Caused by:", "Suppressed:", "Traceback"]
  const NPM := ["npm error", "npm err!"]

  /** The word is in the text at this place. */
  ghost predicate IsAt(s: string, k: int, w: string) {
    0 <= k && k + |w| <= |s| && forall i :: 0 <= i < |w| ==> s[k + i] == w[i]
  }

  /** The text begins with one of the words. */
  ghost predicate Begins(s: string, words: seq<string>) {
    exists j :: 0 <= j < |words| && IsAt(s, 0, words[j])
  }

  /** The word is somewhere in the text. */
  ghost predicate Holds(s: string, w: string) {
    exists k :: IsAt(s, k, w)
  }

  ghost predicate Npm(s: string) {
    Begins(Lower(Trim(Go, s)), NPM)
  }

  ghost predicate Header(s: string) {
    var t := Trim(Go, s);
    Holds(t, "Exception") || Holds(t, "Error") || Begins(Upper(t), ["ERROR"]) || Npm(t)
  }

  lemma PrefixIs(s: string, w: string)
    ensures HasPrefix(s, w) <==> IsAt(s, 0, w)
  {
  }

  lemma ContainsIs(s: string, w: string)
    ensures Contains(s, w) <==> Holds(s, w)
  {
    if i :| 0 <= i <= |s| && HasPrefix(s[i..], w) {
      PrefixIs(s[i..], w);
      assert forall k :: 0 <= k < |w| ==> s[i + k] == s[i..][k];
      assert IsAt(s, i, w);
    }
    if k :| IsAt(s, k, w) {
      assert s[k..][..|w|] == w;
    }
  }

  lemma TraceIs(line: string)
    ensures StackTraceContinuation(line) <==> Begins(Trim(Go, line), TRACE)
  {
    var t := Trim(Go, line);
    PrefixIs(t, "at ");
    PrefixIs(t, "...");
    PrefixIs(t, "Caused by:");
    PrefixIs(t, "Suppressed:");
    PrefixIs(t, "Traceback");
    assert TRACE[0] == "at " && TRACE[1] == "..." && TRACE[2] == "Caused by:" && TRACE[3] == "Suppressed:";
    assert TRACE[4] == "Traceback" && |TRACE| == 5;
    assert Begins(t, TRACE) <==>
      IsAt(t, 0, TRACE[0]) || IsAt(t, 0, TRACE[1]) || IsAt(t, 0, TRACE[2]) || IsAt(t, 0, TRACE[3])
      || IsAt(t, 0, TRACE[4]);
  }

  lemma NpmIs(line: string)
    ensures NpmErrorLine(line) <==> Npm(line)
  {
    PrefixIs(Lower(Trim(Go, line)), "npm error");
    PrefixIs(Lower(Trim(Go, line)), "npm err!");
    assert NPM[0] == "npm error" && NPM[1] == "npm err!";
  }

  lemma HeaderIs(line: string)
    ensures ErrorHeader(line) <==> Header(line)
  {
    var t := Trim(Go, line);
    ContainsIs(t, "Exception");
    ContainsIs(t, "Error");
    PrefixIs(Upper(t), "ERROR");
    assert ["ERROR"][0] == "ERROR";
    NpmIs(t);
  }

  /** A text that is not blank continues a record when it is of a stack trace; of npm, after a line
      of npm; or indented, after an error header or in a record of several lines. */
  lemma ContinuesIff(last: string, multiline: bool, body: string)
    ensures Continues(last, multiline, body) <==>
      && !Blank(Go, body)
      && (|| Begins(Trim(Go, body), TRACE)
          || (Npm(last) && Npm(body))
          || (|body| > 0 && (body[0] == ' ' || body[0] == '\t') && (Header(last) || multiline)))
  {
    var line := Trim(Go, body);
    BlankIsTrimmedEmpty(Go, body);
    TrimTight(Go, line);
    TraceIs(line);
    NpmIs(last);
    NpmIs(line);
    HeaderIs(last);
    PrefixIs(body, " ");
    PrefixIs(body, "\t");
  }
}
