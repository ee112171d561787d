/** The rewrite `name.replace(/\s+/g, '_')` used to build the export file name:
    every maximal run of whitespace becomes one underscore, everything else is
    kept in order. */
module WhitespaceRuns {

  /** The characters JavaScript's `\s` class matches: the ECMAScript WhiteSpace
      characters (tab, vertical tab, form feed, the byte order mark and the
      Unicode space separators) and the LineTerminator characters. */
  predicate IsWs(c: char)
    ensures c == ' ' || c == '\t' || c == '\n' || c == '\r' ==> IsWs(c)
    ensures 'a' <= c <= 'z' || 'A' <= c <= 'Z' || '0' <= c <= '9' || c == '_' || c == '-' || c == '.' ==> !IsWs(c)
  {
    c == '\t' || c == '\n' || c == '\U{000B}' || c == '\U{000C}' || c == '\r'
    || c == ' ' || c == '\U{00A0}' || c == '\U{1680}'
    || ('\U{2000}' <= c <= '\U{200A}')
    || c == '\U{2028}' || c == '\U{2029}' || c == '\U{202F}' || c == '\U{205F}'
    || c == '\U{3000}' || c == '\U{FEFF}'
  }

  /** The replacement text of the rewrite. */
  const Separator: char := '_'

  ghost predicate WsFree(s: string) {
    forall i :: 0 <= i < |s| ==> !IsWs(s[i])
  }

  ghost predicate AllWs(s: string) {
    forall i :: 0 <= i < |s| ==> IsWs(s[i])
  }

  /** What is left of `s` after the longest whitespace prefix, the part a greedy
      `\s+` match consumes. */
  function SkipWhitespace(s: string): (r: string)
    ensures |r| <= |s|
    ensures AllWs(s[..|s| - |r|])
    ensures r == [] || !IsWs(r[0])
  {
    if s != [] && IsWs(s[0]) then SkipWhitespace(s[1..]) else s
  }

  /** What `SkipWhitespace` leaves is a suffix of its input: the greedy match
      removes characters only from the front. */
  lemma {:induction false} SkipIsSuffix(s: string)
    ensures var r := SkipWhitespace(s); r == s[|s| - |r|..]
    decreases |s|
  {
    if s != [] && IsWs(s[0]) {
      SkipIsSuffix(s[1..]);
      var r := SkipWhitespace(s[1..]);
      assert s[1..][|s[1..]| - |r|..] == s[|s| - |r|..];
    }
  }

  /** `s.replace(/\s+/g, '_')`: scanning left to right, a whitespace character
      starts a match that extends over the whole run and is replaced by one
      separator; any other character is copied. */
  function CollapseWhitespace(s: string): (r: string)
    ensures |r| <= |s|
    ensures WsFree(r)
    ensures r == [] <==> s == []
    decreases |s|
  {
    if s == [] then []
    else if IsWs(s[0]) then [Separator] + CollapseWhitespace(SkipWhitespace(s[1..]))
    else [s[0]] + CollapseWhitespace(s[1..])
  }

  /** Number of occurrences of `c` in `s`. */
  function Occurrences(c: char, s: string): nat {
    if s == [] then 0 else (if s[0] == c then 1 else 0) + Occurrences(c, s[1..])
  }

  /** Number of maximal whitespace runs in `s`, counted by their last character. */
  function WsRuns(s: string): nat {
    if s == [] then 0
    else (if IsWs(s[0]) && (|s| == 1 || !IsWs(s[1])) then 1 else 0) + WsRuns(s[1..])
  }

  /** `s` with every whitespace character and every separator removed: the
      characters the rewrite neither consumes nor produces. */
  function Visible(s: string): string {
    if s == [] then []
    else if IsWs(s[0]) || s[0] == Separator then Visible(s[1..])
    else [s[0]] + Visible(s[1..])
  }

  /** A string without whitespace is left as it is. */
  lemma {:induction false} CollapseWsFree(s: string)
    requires WsFree(s)
    ensures CollapseWhitespace(s) == s
    decreases |s|
  {
    if s != [] {
      assert !IsWs(s[0]);
      CollapseWsFree(s[1..]);
    }
  }

  /** Rewriting twice gives the same result as rewriting once. */
  lemma CollapseIdempotent(s: string)
    ensures CollapseWhitespace(CollapseWhitespace(s)) == CollapseWhitespace(s)
  {
    CollapseWsFree(CollapseWhitespace(s));
  }

  /** A non-empty run of whitespace in front of a non-whitespace character (or
      the end of the string) becomes exactly one separator. */
  lemma {:induction false} CollapseRun(w: string, b: string)
    requires w != [] && AllWs(w)
    requires b == [] || !IsWs(b[0])
    ensures CollapseWhitespace(w + b) == [Separator] + CollapseWhitespace(b)
  {
    SkipAllWs(w[1..], b);
    assert (w + b)[1..] == w[1..] + b;
  }

  lemma {:induction false} SkipAllWs(w: string, b: string)
    requires AllWs(w)
    requires b == [] || !IsWs(b[0])
    ensures SkipWhitespace(w + b) == b
    decreases |w|
  {
    if w != [] {
      assert (w + b)[1..] == w[1..] + b;
      SkipAllWs(w[1..], b);
    }
  }

  /** The rewrite distributes over a concatenation that does not split a
      whitespace run. Together with the single-character cases and
      `CollapseRun`, this determines the rewrite completely. */
  lemma {:induction false} CollapseConcat(a: string, b: string)
    requires a == [] || b == [] || !IsWs(a[|a| - 1]) || !IsWs(b[0])
    ensures CollapseWhitespace(a + b) == CollapseWhitespace(a) + CollapseWhitespace(b)
    decreases |a|
  {
    if a == [] {
      assert a + b == b;
    } else if b == [] {
      assert a + b == a;
    } else {
      assert (a + b)[1..] == a[1..] + b;
      if |a| == 1 {
        // a single whitespace character or a single copied character
        assert IsWs(a[0]) ==> !IsWs(b[0]);
        assert a[1..] == [];
      } else {
        assert a[1..][|a[1..]| - 1] == a[|a| - 1];
        CollapseConcat(a[1..], b);
        if IsWs(a[0]) && IsWs(a[1]) {
          DropRepeatedWs(a);
          DropRepeatedWs(a + b);
        }
      }
    }
  }

  /** Inside a run, one whitespace character more or less changes nothing. */
  lemma DropRepeatedWs(s: string)
    requires |s| >= 2 && IsWs(s[0]) && IsWs(s[1])
    ensures CollapseWhitespace(s) == CollapseWhitespace(s[1..])
  {
  }

  /** Separators already in `s` are kept and each whitespace run adds exactly
      one more. */
  lemma {:induction false} CollapseSeparators(s: string)
    ensures Occurrences(Separator, CollapseWhitespace(s)) == Occurrences(Separator, s) + WsRuns(s)
    decreases |s|
  {
    if s != [] {
      if IsWs(s[0]) {
        SkipCounts(s);
        CollapseSeparators(SkipWhitespace(s[1..]));
      } else {
        CollapseSeparators(s[1..]);
      }
    }
  }

  /** Skipping the run at the front of `s` drops no separator and exactly one run. */
  lemma {:induction false} SkipCounts(s: string)
    requires s != [] && IsWs(s[0])
    ensures Occurrences(Separator, SkipWhitespace(s[1..])) == Occurrences(Separator, s)
    ensures WsRuns(SkipWhitespace(s[1..])) + 1 == WsRuns(s)
    decreases |s|
  {
    assert !IsWs(Separator);
    assert Occurrences(Separator, s) == Occurrences(Separator, s[1..]);
    if |s| > 1 && IsWs(s[1]) {
      assert WsRuns(s) == WsRuns(s[1..]);
      assert SkipWhitespace(s[1..]) == SkipWhitespace(s[1..][1..]);
      SkipCounts(s[1..]);
    } else {
      assert SkipWhitespace(s[1..]) == s[1..];
      assert WsRuns(s) == 1 + WsRuns(s[1..]);
    }
  }

  /** Every character that is neither whitespace nor a separator survives the
      rewrite, in its original order, and no other such character appears. */
  lemma {:induction false} CollapseKeepsVisible(s: string)
    ensures Visible(CollapseWhitespace(s)) == Visible(s)
    decreases |s|
  {
    if s != [] {
      if IsWs(s[0]) {
        SkipVisible(s);
        CollapseKeepsVisible(SkipWhitespace(s[1..]));
      } else {
        CollapseKeepsVisible(s[1..]);
      }
    }
  }

  lemma {:induction false} SkipVisible(s: string)
    requires s != [] && IsWs(s[0])
    ensures Visible(SkipWhitespace(s[1..])) == Visible(s)
    decreases |s|
  {
    if |s| > 1 && IsWs(s[1]) {
      SkipVisible(s[1..]);
    }
  }
}
