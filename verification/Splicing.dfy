/**
 What a rendered correction keeps (rule_based_corrector.py:89-119): the raw text can be rebuilt from the corrected text
 and the logs, every output stands in the corrected text, and every line is corrected by itself.
 */
module Splicing {
  import opened Text
  import opened RuleCorrector

  // ---------------------------------------------------------------- rebuilding the raw text

  function LogOutput(log: Log): string {
    if log.action.Replaced? then log.corrected else log.original
  }

  /** Walks the corrected text and puts every log's original back. Text that does not fit the logs is left as it is. */
  function Restore(corrected: string, logs: seq<Log>, cursor: nat): string
    decreases |logs|
  {
    if logs == [] then corrected
    else
      var log := logs[0];
      var gap := log.start - cursor;
      if gap < 0 || gap + |LogOutput(log)| > |corrected| then corrected
      else corrected[..gap] + log.original + Restore(corrected[gap + |LogOutput(log)|..], logs[1..], log.end)
  }

  lemma RestoreStep(gap: string, rest: string, logs: seq<Log>, cursor: nat)
    requires logs != [] && logs[0].start == cursor + |gap|
    ensures Restore(gap + LogOutput(logs[0]) + rest, logs, cursor)
         == gap + logs[0].original + Restore(rest, logs[1..], logs[0].end)
  {
    var output := LogOutput(logs[0]);
    var whole := gap + output + rest;
    assert whole[..|gap|] == gap && whole[|gap| + |output|..] == rest;
  }

  lemma Reassemble(text: string, a: nat, b: nat, c: nat)
    requires a <= b <= c <= |text|
    ensures text[a..b] + text[b..c] + text[c..] == text[a..]
  {
  }

  lemma {:induction false} RestoreFrom(text: string, matches: seq<Match>, cursor: nat)
    requires Fits(text, matches, cursor)
    ensures Restore(Splice(text, matches, cursor), LogsOf(matches), cursor) == text[cursor..]
    decreases |matches|
  {
    if matches != [] {
      var m := matches[0];
      RestoreFrom(text, matches[1..], m.end);
      assert LogsOf(matches)[1..] == LogsOf(matches[1..]);
      RestoreStep(text[cursor..m.start], Splice(text, matches[1..], m.end), LogsOf(matches), cursor);
      Reassemble(text, cursor, m.start, m.end);
    }
  }

  /** Corrected text and logs together determine the raw text. */
  lemma RestoreInverts(text: string, matches: seq<Match>)
    requires Fits(text, matches, 0)
    ensures Restore(Splice(text, matches, 0), LogsOf(matches), 0) == text
  {
    RestoreFrom(text, matches, 0);
  }

  /** Matches left for review stay as they are. */
  lemma {:induction false} ReviewedKeepText(text: string, matches: seq<Match>, cursor: nat)
    requires Fits(text, matches, cursor) && forall k :: 0 <= k < |matches| ==> matches[k].action.ForReview?
    ensures Splice(text, matches, cursor) == text[cursor..]
    decreases |matches|
  {
    if matches != [] {
      var m := matches[0];
      ReviewedKeepText(text, matches[1..], m.end);
      Reassemble(text, cursor, m.start, m.end);
    }
  }

  // ---------------------------------------------------------------- outputs stand in the text

  lemma ContainsWithin(before: string, middle: string, after: string, part: string)
    requires Contains(middle, part)
    ensures Contains(before + middle + after, part)
  {
    var i :| 0 <= i <= |middle| && StandsAt(middle, part, i);
    var s := before + middle + after;
    assert s[|before| + i..|before| + i + |part|] == middle[i..i + |part|];
    assert StandsAt(s, part, |before| + i);
  }

  lemma {:induction false} OutputStands(text: string, matches: seq<Match>, cursor: nat, q: nat)
    requires Fits(text, matches, cursor) && q < |matches|
    ensures Contains(Splice(text, matches, cursor), Output(matches[q]))
    decreases |matches|
  {
    var m := matches[0];
    var gap, rest := text[cursor..m.start], Splice(text, matches[1..], m.end);
    if q == 0 {
      assert StandsAt(Output(m), Output(m), 0);
      ContainsWithin(gap, Output(m), rest, Output(m));
    } else {
      OutputStands(text, matches[1..], m.end, q - 1);
      ContainsWithin(gap + Output(m), rest, "", Output(matches[q]));
      assert gap + Output(m) + rest + "" == gap + Output(m) + rest;
    }
  }

  // ---------------------------------------------------------------- line by line

  /** Matches and replacements that stay within one line and are not empty. */
  ghost predicate InsideLines(matches: seq<Match>) {
    forall k {:trigger InsideLine(matches[k])} :: 0 <= k < |matches| ==> InsideLine(matches[k])
  }

  ghost predicate InsideLine(m: Match) {
    BreakFree(m.original) && BreakFree(Output(m)) && Output(m) != ""
  }

  /** End of the line that begins at `cursor`, without its break, and begin of the next. */
  function LineEnd(text: string, cursor: nat): (b: nat)
    requires cursor <= |text|
    ensures cursor <= b <= |text|
  {
    cursor + FirstBreak(text[cursor..])
  }

  function NextLine(text: string, cursor: nat): (n: nat)
    requires cursor <= |text|
    ensures cursor <= n <= |text| && LineEnd(text, cursor) <= n
    ensures cursor < |text| ==> cursor < n
  {
    var b := LineEnd(text, cursor);
    if b == |text| then b else b + BreakLength(text[cursor..], b - cursor)
  }

  /** Number of leading matches that start before `b`. */
  function Leading(matches: seq<Match>, b: nat): (k: nat)
    ensures k <= |matches| && (k < |matches| ==> matches[k].start >= b)
    ensures forall j :: 0 <= j < k ==> matches[j].start < b
  {
    if matches == [] || matches[0].start >= b then 0 else 1 + Leading(matches[1..], b)
  }

  lemma LineShape(text: string, cursor: nat)
    requires cursor < |text|
    ensures var b, n := LineEnd(text, cursor), NextLine(text, cursor);
            && BreakFree(text[cursor..b])
            && (b < |text| ==> b < n && IsBreak(text[b]))
            && (n == b + 2 ==> text[b] == '\r' && text[b + 1] == '\n')
            && (n == b + 1 && text[b] == '\r' && n < |text| ==> text[n] != '\n')
            && n <= b + 2 && (b == |text| ==> n == b)
  {
    var b := LineEnd(text, cursor);
    var rest := text[cursor..];
    forall k | 0 <= k < b - cursor ensures !IsBreak(text[cursor..b][k]) {
      NoneBefore(rest, k);
    }
    if b < |text| {
      assert rest[b - cursor] == text[b];
    }
  }

  /** A match either ends within the line or starts behind its break. */
  lemma MatchAvoidsBreak(text: string, m: Match, cursor: nat)
    requires cursor < |text| && cursor <= m.start < m.end <= |text|
    requires m.original == text[m.start..m.end] && BreakFree(m.original)
    ensures m.start < LineEnd(text, cursor) ==> m.end <= LineEnd(text, cursor)
    ensures m.start >= LineEnd(text, cursor) ==> m.start >= NextLine(text, cursor)
  {
    var b, n := LineEnd(text, cursor), NextLine(text, cursor);
    LineShape(text, cursor);
    forall p | m.start <= p < m.end ensures !IsBreak(text[p]) {
      assert !IsBreak(m.original[p - m.start]);
    }
    assert n == b + 2 ==> IsBreak(text[b + 1]);
  }

  lemma {:induction false} StartsGrow(text: string, matches: seq<Match>, cursor: nat, j: nat)
    requires Fits(text, matches, cursor) && j < |matches|
    ensures cursor <= matches[j].start < matches[j].end <= |text|
    ensures matches[j].original == text[matches[j].start..matches[j].end]
    ensures forall i :: 0 <= i < j ==> matches[i].end <= matches[j].start
    decreases |matches|
  {
    if j > 0 {
      StartsGrow(text, matches[1..], matches[0].end, j - 1);
      assert forall i :: 0 < i < j ==> matches[i] == matches[1..][i - 1];
    }
  }

  /** The matches of the current line and those of later lines. */
  ghost predicate LineCut(text: string, matches: seq<Match>, cursor: nat, k: nat, b: nat, n: nat) {
    && cursor <= b <= n <= |text| && k <= |matches|
    && (forall j :: 0 <= j < k ==> matches[j].end <= b)
    && (forall j :: k <= j < |matches| ==> matches[j].start >= n)
  }

  lemma LeadingCuts(text: string, matches: seq<Match>, cursor: nat)
    requires Fits(text, matches, cursor) && InsideLines(matches) && cursor < |text|
    ensures var b, n := LineEnd(text, cursor), NextLine(text, cursor);
            LineCut(text, matches, cursor, Leading(matches, b), b, n)
  {
    var b, n := LineEnd(text, cursor), NextLine(text, cursor);
    var k := Leading(matches, b);
    forall j | 0 <= j < |matches| ensures if j < k then matches[j].end <= b else matches[j].start >= n {
      StartsGrow(text, matches, cursor, j);
      assert InsideLine(matches[j]);
      MatchAvoidsBreak(text, matches[j], cursor);
      if j > k {
        StartsGrow(text, matches, cursor, k);
        assert matches[k].end <= matches[j].start;
      }
    }
  }

  lemma TailCut(text: string, matches: seq<Match>, cursor: nat, k: nat, b: nat, n: nat)
    requires LineCut(text, matches, cursor, k, b, n) && k > 0 && Fits(text, matches, cursor)
    ensures LineCut(text, matches[1..], matches[0].end, k - 1, b, n)
    ensures matches[..k][1..] == matches[1..][..k - 1] && matches[k..] == matches[1..][k - 1..]
  {
    forall j | 0 <= j < |matches| - 1 ensures matches[1..][j] == matches[j + 1] {
    }
  }

  /** Both parts are again matches in order. */
  lemma {:induction false} FitsCut(text: string, matches: seq<Match>, cursor: nat, k: nat, b: nat, n: nat)
    requires Fits(text, matches, cursor) && LineCut(text, matches, cursor, k, b, n)
    ensures Fits(text[..b], matches[..k], cursor) && Fits(text, matches[k..], n)
    decreases |matches|
  {
    if k == 0 {
      assert matches[k..] == matches;
    } else {
      TailCut(text, matches, cursor, k, b, n);
      FitsCut(text, matches[1..], matches[0].end, k - 1, b, n);
      var m := matches[0];
      assert text[..b][m.start..m.end] == text[m.start..m.end];
      assert matches[..k][0] == m;
    }
  }

  lemma CutText(text: string, cursor: nat, b: nat, n: nat, s: nat)
    requires cursor <= b <= n <= s <= |text|
    ensures text[cursor..s] == text[..b][cursor..] + text[b..n] + text[n..s]
  {
  }

  lemma Regroup4(a: string, b: string, c: string, d: string, e: string)
    ensures a + b + (c + d + e) == a + b + c + d + e
  {
  }

  lemma Regroup5(a: string, b: string, c: string, d: string, e: string)
    ensures (a + b + c) + d + e == a + b + (c + d + e)
  {
  }

  lemma SpliceFromLineEnd(text: string, matches: seq<Match>, cursor: nat, b: nat, n: nat)
    requires Fits(text, matches, cursor) && Fits(text, matches, n) && cursor <= b <= n
    ensures Splice(text, matches, cursor) == text[..b][cursor..] + text[b..n] + Splice(text, matches, n)
  {
    if matches == [] {
      CutText(text, cursor, b, n, |text|);
    } else {
      var m := matches[0];
      CutText(text, cursor, b, n, m.start);
      Regroup5(text[..b][cursor..], text[b..n], text[n..m.start], Output(m), Splice(text, matches[1..], m.end));
    }
  }

  lemma SpliceHead(text: string, matches: seq<Match>, cursor: nat, k: nat, b: nat)
    requires 0 < k <= |matches| && b <= |text| && Fits(text[..b], matches[..k], cursor)
    ensures Fits(text[..b], matches[1..][..k - 1], matches[0].end) && cursor <= matches[0].start <= b
    ensures Splice(text[..b], matches[..k], cursor)
         == text[cursor..matches[0].start] + Output(matches[0])
            + Splice(text[..b], matches[1..][..k - 1], matches[0].end)
  {
    assert matches[..k][1..] == matches[1..][..k - 1] && matches[..k][0] == matches[0];
    assert text[..b][cursor..matches[0].start] == text[cursor..matches[0].start];
  }

  /** Rendering up to the end of a line, its break, and rendering from the next line on. */
  lemma {:induction false} SpliceCut(text: string, matches: seq<Match>, cursor: nat, k: nat, b: nat, n: nat)
    requires Fits(text, matches, cursor) && LineCut(text, matches, cursor, k, b, n)
    requires Fits(text[..b], matches[..k], cursor) && Fits(text, matches[k..], n)
    ensures Splice(text, matches, cursor)
         == Splice(text[..b], matches[..k], cursor) + text[b..n] + Splice(text, matches[k..], n)
    decreases |matches|
  {
    if k == 0 {
      assert matches[k..] == matches && matches[..k] == [];
      SpliceFromLineEnd(text, matches, cursor, b, n);
    } else {
      var m := matches[0];
      TailCut(text, matches, cursor, k, b, n);
      SpliceHead(text, matches, cursor, k, b);
      SpliceCut(text, matches[1..], m.end, k - 1, b, n);
      Regroup4(text[cursor..m.start], Output(m), Splice(text[..b], matches[1..][..k - 1], m.end), text[b..n],
               Splice(text, matches[k..], n));
    }
  }

  /** A rendered line holds no break. */
  lemma {:induction false} SpliceBreakFree(text: string, matches: seq<Match>, cursor: nat)
    requires Fits(text, matches, cursor) && InsideLines(matches) && BreakFree(text[cursor..])
    ensures BreakFree(Splice(text, matches, cursor))
    ensures cursor < |text| ==> Splice(text, matches, cursor) != ""
    decreases |matches|
  {
    if matches != [] {
      var m := matches[0];
      assert InsideLine(m);
      TailInside(matches);
      TailBreakFree(text, cursor, m.start, m.end);
      SpliceBreakFree(text, matches[1..], m.end);
      ConcatBreakFree(text[cursor..m.start], Output(m));
      ConcatBreakFree(text[cursor..m.start] + Output(m), Splice(text, matches[1..], m.end));
    }
  }

  lemma TailInside(matches: seq<Match>)
    requires matches != [] && InsideLines(matches)
    ensures InsideLines(matches[1..])
  {
    forall k | 0 <= k < |matches| - 1 ensures InsideLine(matches[1..][k]) {
      assert InsideLine(matches[k + 1]);
    }
  }

  lemma PartsInside(matches: seq<Match>, k: nat)
    requires k <= |matches| && InsideLines(matches)
    ensures InsideLines(matches[..k]) && InsideLines(matches[k..])
  {
    forall i | 0 <= i < k ensures InsideLine(matches[..k][i]) {
      assert InsideLine(matches[i]);
    }
    forall i | 0 <= i < |matches| - k ensures InsideLine(matches[k..][i]) {
      assert InsideLine(matches[k + i]);
    }
  }

  lemma TailBreakFree(text: string, cursor: nat, b: nat, n: nat)
    requires cursor <= b <= n <= |text| && BreakFree(text[cursor..])
    ensures BreakFree(text[cursor..b]) && BreakFree(text[n..])
  {
    forall k | 0 <= k < b - cursor ensures !IsBreak(text[cursor..b][k]) {
      assert !IsBreak(text[cursor..][k]);
    }
    forall k | 0 <= k < |text| - n ensures !IsBreak(text[n..][k]) {
      assert !IsBreak(text[cursor..][n - cursor + k]);
    }
  }

  lemma ConcatBreakFree(a: string, b: string)
    requires BreakFree(a) && BreakFree(b)
    ensures BreakFree(a + b)
  {
    forall k | 0 <= k < |a + b| ensures !IsBreak((a + b)[k]) {
      if k < |a| {
        assert !IsBreak(a[k]);
      } else {
        assert !IsBreak(b[k - |a|]);
      }
    }
  }

  /** A rendered text begins with a line feed only where the text does. */
  lemma FirstChar(text: string, matches: seq<Match>, n: nat)
    requires Fits(text, matches, n) && InsideLines(matches)
    requires n < |text| ==> text[n] != '\n'
    ensures Splice(text, matches, n) != "" ==> Splice(text, matches, n)[0] != '\n'
  {
    if matches != [] {
      var m := matches[0];
      assert InsideLine(m);
      assert !IsBreak(Output(m)[0]);
    }
  }

  lemma SplitAtBreak(t: string, brk: string, rest: string)
    requires BreakFree(t) && 1 <= |brk| <= 2 && IsBreak(brk[0])
    requires |brk| == 2 ==> brk == "\r\n"
    requires brk == "\r" && rest != "" ==> rest[0] != '\n'
    ensures SplitLines(t + brk + rest) == [t] + SplitLines(rest)
    ensures KeepLines(t + brk + rest) == [t + brk] + KeepLines(rest)
  {
    var s := t + brk + rest;
    assert s[..|t|] == t;
    FirstBreakAt(s, |t|);
    assert BreakLength(s, |t|) == |brk|;
    assert s[..|t| + |brk|] == t + brk;
    assert s[|t| + |brk|..] == rest;
  }

  /** The rendered lines, one per line of the text. */
  ghost function LinesFrom(text: string, matches: seq<Match>, cursor: nat): seq<string>
    requires cursor <= |text| && Fits(text, matches, cursor) && InsideLines(matches)
    decreases |text| - cursor
  {
    if cursor == |text| then []
    else
      var b, n := LineEnd(text, cursor), NextLine(text, cursor);
      var k := Leading(matches, b);
      LeadingCuts(text, matches, cursor);
      FitsCut(text, matches, cursor, k, b, n);
      PartsInside(matches, k);
      [Splice(text[..b], matches[..k], cursor)] + LinesFrom(text, matches[k..], n)
  }

  lemma SplitFrom(text: string, cursor: nat)
    requires cursor < |text|
    ensures var b, n := LineEnd(text, cursor), NextLine(text, cursor);
            && SplitLines(text[cursor..]) == [text[cursor..b]] + SplitLines(text[n..])
            && KeepLines(text[cursor..]) == [text[cursor..n]] + KeepLines(text[n..])
  {
    var b, n := LineEnd(text, cursor), NextLine(text, cursor);
    LineShape(text, cursor);
    if b == |text| {
      assert text[cursor..b] == text[cursor..] && text[n..] == "";
      SplitOne(text[cursor..]);
    } else {
      BreakFollows(text, cursor, []);
      SplitAtBreak(text[cursor..b], text[b..n], text[n..]);
      Reassemble(text, cursor, b, n);
      assert text[cursor..b] + text[b..n] == text[cursor..n];
    }
  }

  /** Line `k` of the corrected text is line `k` of the text with its own matches replaced, for every line. */
  lemma {:induction false} LinesAreCorrected(text: string, matches: seq<Match>, cursor: nat)
    requires cursor <= |text| && Fits(text, matches, cursor) && InsideLines(matches)
    ensures SplitLines(Splice(text, matches, cursor)) == LinesFrom(text, matches, cursor)
    ensures |LinesFrom(text, matches, cursor)| == |SplitLines(text[cursor..])|
    decreases |text| - cursor
  {
    if cursor == |text| {
      NoMatchAtEnd(text, matches, cursor);
    } else {
      var b, n := LineEnd(text, cursor), NextLine(text, cursor);
      var k := Leading(matches, b);
      LeadingCuts(text, matches, cursor);
      FitsCut(text, matches, cursor, k, b, n);
      PartsInside(matches, k);
      SpliceCut(text, matches, cursor, k, b, n);
      SplitFrom(text, cursor);
      LinesAreCorrected(text, matches[k..], n);
      LineIsCorrected(text, matches, cursor, k, b, n);
    }
  }

  lemma NoMatchAtEnd(text: string, matches: seq<Match>, cursor: nat)
    requires cursor == |text| && Fits(text, matches, cursor)
    ensures matches == [] && Splice(text, matches, cursor) == ""
  {
  }

  lemma LineIsCorrected(text: string, matches: seq<Match>, cursor: nat, k: nat, b: nat, n: nat)
    requires cursor < |text| && b == LineEnd(text, cursor) && n == NextLine(text, cursor) && k <= |matches|
    requires Fits(text[..b], matches[..k], cursor) && InsideLines(matches[..k])
    requires Fits(text, matches[k..], n) && InsideLines(matches[k..])
    ensures SplitLines(Splice(text[..b], matches[..k], cursor) + text[b..n] + Splice(text, matches[k..], n))
         == [Splice(text[..b], matches[..k], cursor)] + SplitLines(Splice(text, matches[k..], n))
  {
    var line, rest := Splice(text[..b], matches[..k], cursor), Splice(text, matches[k..], n);
    LineShape(text, cursor);
    assert text[..b][cursor..] == text[cursor..b];
    SpliceBreakFree(text[..b], matches[..k], cursor);
    if b == |text| {
      NoMatchAtEnd(text, matches[k..], n);
      assert line + text[b..n] + rest == line;
      SplitOne(line);
    } else {
      BreakFollows(text, cursor, matches[k..]);
      SplitAtBreak(line, text[b..n], rest);
    }
  }

  lemma BreakFollows(text: string, cursor: nat, later: seq<Match>)
    requires cursor < |text| && LineEnd(text, cursor) < |text|
    requires Fits(text, later, NextLine(text, cursor)) && InsideLines(later)
    ensures var brk := text[LineEnd(text, cursor)..NextLine(text, cursor)];
            var rest := Splice(text, later, NextLine(text, cursor));
            && 1 <= |brk| <= 2 && IsBreak(brk[0]) && (|brk| == 2 ==> brk == "\r\n")
            && (brk == "\r" && rest != "" ==> rest[0] != '\n')
  {
    var b, n := LineEnd(text, cursor), NextLine(text, cursor);
    LineShape(text, cursor);
    if text[b..n] == "\r" {
      assert text[b..n][0] == text[b];
      FirstChar(text, later, n);
    }
  }

  // ---------------------------------------------------------------- where a position is

  /** Index of the line that holds position `p`, counted from the line at `cursor`. */
  function IndexFrom(text: string, cursor: nat, p: nat): nat
    requires cursor <= p < |text|
    decreases |text| - cursor
  {
    var n := NextLine(text, cursor);
    if p < n then 0 else 1 + IndexFrom(text, n, p)
  }

  /** Begin of that line. */
  function StartFrom(text: string, cursor: nat, p: nat): (s: nat)
    requires cursor <= p < |text|
    ensures cursor <= s <= p < NextLine(text, s)
    decreases |text| - cursor
  {
    var n := NextLine(text, cursor);
    if p < n then cursor else StartFrom(text, n, p)
  }

  /** A match lies within the one line that holds its start. */
  lemma {:induction false} MatchInItsLine(text: string, m: Match, cursor: nat)
    requires cursor <= m.start < m.end <= |text| && m.original == text[m.start..m.end] && BreakFree(m.original)
    ensures var i, s := IndexFrom(text, cursor, m.start), StartFrom(text, cursor, m.start);
            && i < |SplitLines(text[cursor..])| && SplitLines(text[cursor..])[i] == text[s..LineEnd(text, s)]
            && s <= m.start < m.end <= LineEnd(text, s)
    decreases |text| - cursor
  {
    var n := NextLine(text, cursor);
    SplitFrom(text, cursor);
    var line, later := text[cursor..LineEnd(text, cursor)], SplitLines(text[n..]);
    if m.start < n {
      MatchAvoidsBreak(text, m, cursor);
      assert ([line] + later)[0] == line;
    } else {
      MatchInItsLine(text, m, n);
      var i := IndexFrom(text, n, m.start);
      assert ([line] + later)[1 + i] == later[i];
    }
  }

  /** Its output stands in the corrected line of that index. */
  lemma {:induction false} OutputInItsLine(text: string, matches: seq<Match>, cursor: nat, q: nat)
    requires cursor <= |text| && Fits(text, matches, cursor) && InsideLines(matches) && q < |matches|
    ensures cursor <= matches[q].start < |text|
    ensures var lines, i := LinesFrom(text, matches, cursor), IndexFrom(text, cursor, matches[q].start);
            i < |lines| && Contains(lines[i], Output(matches[q]))
    decreases |text| - cursor
  {
    StartsGrow(text, matches, cursor, q);
    var b, n := LineEnd(text, cursor), NextLine(text, cursor);
    var k := Leading(matches, b);
    LinesStep(text, matches, cursor, k, b, n);
    var line, later := Splice(text[..b], matches[..k], cursor), LinesFrom(text, matches[k..], n);
    var p := matches[q].start;
    if q < k {
      assert p < n && IndexFrom(text, cursor, p) == 0;
      assert matches[..k][q] == matches[q];
      OutputStands(text[..b], matches[..k], cursor, q);
      assert ([line] + later)[0] == line;
    } else {
      assert p >= n && IndexFrom(text, cursor, p) == 1 + IndexFrom(text, n, p);
      assert matches[k..][q - k] == matches[q];
      OutputInItsLine(text, matches[k..], n, q - k);
      assert ([line] + later)[1 + IndexFrom(text, n, p)] == later[IndexFrom(text, n, p)];
    }
  }

  lemma LinesStep(text: string, matches: seq<Match>, cursor: nat, k: nat, b: nat, n: nat)
    requires cursor < |text| && Fits(text, matches, cursor) && InsideLines(matches)
    requires b == LineEnd(text, cursor) && n == NextLine(text, cursor) && k == Leading(matches, b)
    ensures LineCut(text, matches, cursor, k, b, n)
    ensures Fits(text[..b], matches[..k], cursor) && Fits(text, matches[k..], n)
    ensures InsideLines(matches[..k]) && InsideLines(matches[k..])
    ensures LinesFrom(text, matches, cursor)
         == [Splice(text[..b], matches[..k], cursor)] + LinesFrom(text, matches[k..], n)
  {
    LeadingCuts(text, matches, cursor);
    FitsCut(text, matches, cursor, k, b, n);
    PartsInside(matches, k);
  }

  // ---------------------------------------------------------------- line breaks written and removed

  function WrittenBreaks(matches: seq<Match>): nat {
    if matches == [] then 0
    else
      (if matches[0].action.Replaced? then BreakCount(matches[0].term.canonical) else 0) + WrittenBreaks(matches[1..])
  }

  function RemovedBreaks(matches: seq<Match>): nat {
    if matches == [] then 0
    else
      (if matches[0].action.Replaced? then BreakCount(matches[0].original) else 0) + RemovedBreaks(matches[1..])
  }

  /** A match's part of the corrected text, or of the raw text. */
  function Part(m: Match, written: bool): string {
    if written then Output(m) else m.original
  }

  /** How often a carriage return and a line feed meet where two pieces of the corrected text, or of the raw text, join.
      `returned` says whether what comes before ends in a carriage return. */
  function Seams(text: string, matches: seq<Match>, cursor: nat, returned: bool, written: bool): nat
    requires Fits(text, matches, cursor)
    decreases |matches|
  {
    if matches == [] then Joint(returned, text[cursor..])
    else
      var m := matches[0];
      var gap := text[cursor..m.start];
      var between := Returned(returned, gap);
      Joint(returned, gap) + Joint(between, Part(m, written))
      + Seams(text, matches[1..], m.end, Returned(between, Part(m, written)), written)
  }

  /** The pieces put together: the corrected text, or the raw text again. */
  ghost function Assembled(text: string, matches: seq<Match>, cursor: nat, written: bool): string
    requires Fits(text, matches, cursor)
    decreases |matches|
  {
    if matches == [] then text[cursor..]
    else
      var m := matches[0];
      text[cursor..m.start] + Part(m, written) + Assembled(text, matches[1..], m.end, written)
  }

  lemma {:induction false} AssembledIs(text: string, matches: seq<Match>, cursor: nat)
    requires Fits(text, matches, cursor)
    ensures Assembled(text, matches, cursor, true) == Splice(text, matches, cursor)
    ensures Assembled(text, matches, cursor, false) == text[cursor..]
    decreases |matches|
  {
    if matches != [] {
      var m := matches[0];
      AssembledIs(text, matches[1..], m.end);
      Reassemble(text, cursor, m.start, m.end);
    }
  }

  /** The breaks of the pieces, each counted by itself. */
  ghost function PieceBreaks(text: string, matches: seq<Match>, cursor: nat, written: bool): nat
    requires Fits(text, matches, cursor)
    decreases |matches|
  {
    if matches == [] then BreakCount(text[cursor..])
    else
      var m := matches[0];
      BreakCount(text[cursor..m.start]) + BreakCount(Part(m, written))
      + PieceBreaks(text, matches[1..], m.end, written)
  }

  lemma {:induction false} PiecesDiffer(text: string, matches: seq<Match>, cursor: nat)
    requires Fits(text, matches, cursor)
    ensures PieceBreaks(text, matches, cursor, true) + RemovedBreaks(matches)
         == PieceBreaks(text, matches, cursor, false) + WrittenBreaks(matches)
    decreases |matches|
  {
    if matches != [] {
      PiecesDiffer(text, matches[1..], matches[0].end);
    }
  }

  lemma JoinThree(a: string, b: string, c: string, returned: bool)
    ensures var between := Returned(returned, a);
            BreakCount(a + b + c) + Joint(returned, a) + Joint(between, b) + Joint(Returned(between, b), c)
            == BreakCount(a) + BreakCount(b) + BreakCount(c) + Joint(returned, a + b + c)
  {
    BreakCountAppend(a + b, c);
    BreakCountAppend(a, b);
    if a == "" {
      assert a + b == b && a + b + c == b + c;
      if b == "" {
        assert b + c == c;
      }
    }
  }

  /** The breaks of the whole are those of the pieces, less the seams. */
  lemma {:induction false} AssembledBreaks(text: string, matches: seq<Match>, cursor: nat, returned: bool,
                                           written: bool)
    requires Fits(text, matches, cursor)
    ensures BreakCount(Assembled(text, matches, cursor, written)) + Seams(text, matches, cursor, returned, written)
         == PieceBreaks(text, matches, cursor, written) + Joint(returned, Assembled(text, matches, cursor, written))
    decreases |matches|
  {
    if matches != [] {
      var m := matches[0];
      var gap, part := text[cursor..m.start], Part(m, written);
      var after := Returned(Returned(returned, gap), part);
      AssembledBreaks(text, matches[1..], m.end, after, written);
      JoinThree(gap, part, Assembled(text, matches[1..], m.end, written), returned);
    }
  }

  /** What the corrections do to the number of line breaks. */
  lemma SpliceBreaks(text: string, matches: seq<Match>)
    requires Fits(text, matches, 0)
    ensures BreakCount(Splice(text, matches, 0)) + Seams(text, matches, 0, false, true) + RemovedBreaks(matches)
         == BreakCount(text) + Seams(text, matches, 0, false, false) + WrittenBreaks(matches)
  {
    assert text[0..] == text;
    AssembledIs(text, matches, 0);
    AssembledBreaks(text, matches, 0, false, true);
    AssembledBreaks(text, matches, 0, false, false);
    PiecesDiffer(text, matches, 0);
  }

  // ---------------------------------------------------------------- how the corrected text ends

  lemma {:induction false} FitsInit(text: string, matches: seq<Match>, cursor: nat)
    requires Fits(text, matches, cursor) && matches != []
    ensures var last := |matches| - 1;
            && cursor <= matches[last].start < matches[last].end <= |text|
            && Fits(text[..matches[last].start], matches[..last], cursor)
    decreases |matches|
  {
    if |matches| > 1 {
      FitsInit(text, matches[1..], matches[0].end);
      var last := |matches| - 1;
      assert matches[..last][1..] == matches[1..][..last - 1];
      var m := matches[0];
      assert text[..matches[last].start][m.start..m.end] == text[m.start..m.end];
    }
  }

  lemma SameSlices(text: string, s: nat, a: nat, b: nat)
    requires a <= b <= s <= |text|
    ensures text[..s][a..b] == text[a..b]
  {
  }

  /** The last match and what follows it come last. */
  lemma {:induction false} SpliceLast(text: string, matches: seq<Match>, cursor: nat)
    requires Fits(text, matches, cursor) && matches != []
    requires var last := |matches| - 1;
             matches[last].start <= |text| && Fits(text[..matches[last].start], matches[..last], cursor)
    ensures var last := |matches| - 1;
            && matches[last].end <= |text|
            && Splice(text, matches, cursor)
               == Splice(text[..matches[last].start], matches[..last], cursor) + Output(matches[last])
                  + text[matches[last].end..]
    decreases |matches|
  {
    var last := |matches| - 1;
    var m, l := matches[0], matches[last];
    FitsInit(text, matches, cursor);
    if last == 0 {
      SameSlices(text, l.start, cursor, l.start);
      assert text[..l.start][cursor..] == text[cursor..l.start];
    } else {
      FitsInit(text, matches[1..], m.end);
      assert matches[..last][1..] == matches[1..][..last - 1];
      SpliceLast(text, matches[1..], m.end);
      SameSlices(text, l.start, cursor, m.start);
      Regroup4(text[cursor..m.start], Output(m), Splice(text[..l.start], matches[1..][..last - 1], m.end), Output(l),
               text[l.end..]);
    }
  }

  /** Whether the corrected text ends within a line, read off the raw text, the last match and, when that match reaches
      the end and writes nothing, the matches before it. */
  ghost function OpenAfter(text: string, matches: seq<Match>): nat
    requires Fits(text, matches, 0)
    decreases |matches|
  {
    if matches == [] then OpenEnd(text)
    else
      var last := |matches| - 1;
      var m := matches[last];
      FitsInit(text, matches, 0);
      if m.end < |text| then OpenEnd(text)
      else if Output(m) != "" then OpenEnd(Output(m))
      else OpenAfter(text[..m.start], matches[..last])
  }

  lemma OpenEndOfThree(a: string, b: string, c: string)
    ensures OpenEnd(a + b + c) == if c != "" then OpenEnd(c) else if b != "" then OpenEnd(b) else OpenEnd(a)
  {
    if c == "" {
      assert a + b + c == a + b;
      assert b == "" ==> a + b == a;
    }
  }

  lemma OpenEndOfRest(text: string, n: nat)
    requires n <= |text|
    ensures if n < |text| then text[n..] != "" && OpenEnd(text[n..]) == OpenEnd(text) else text[n..] == ""
  {
  }

  lemma {:induction false} OpenAfterExactly(text: string, matches: seq<Match>)
    requires Fits(text, matches, 0)
    ensures OpenEnd(Splice(text, matches, 0)) == OpenAfter(text, matches)
    decreases |matches|
  {
    if matches == [] {
      assert text[0..] == text;
    } else {
      var last := |matches| - 1;
      var m := matches[last];
      FitsInit(text, matches, 0);
      SpliceLast(text, matches, 0);
      OpenAfterExactly(text[..m.start], matches[..last]);
      OpenEndOfThree(Splice(text[..m.start], matches[..last], 0), Output(m), text[m.end..]);
      OpenEndOfRest(text, m.end);
    }
  }
}
