/** Python's `str.strip`, `str.splitlines` and `"\n".join`, on sequences of characters. */
module Text {

  /** The characters at which `splitlines` breaks. */
  predicate IsBreak(c: char) {
    var n := c as int;
    10 <= n <= 13 || 0x1c <= n <= 0x1e || n == 0x85 || n == 0x2028 || n == 0x2029
  }

  /** The characters `strip` removes; every line break is one of them. */
  predicate IsSpace(c: char) {
    var n := c as int;
    || 9 <= n <= 13 || 0x1c <= n <= 0x20 || n == 0x85 || n == 0xa0 || n == 0x1680 || 0x2000 <= n <= 0x200a
    || n == 0x2028 || n == 0x2029 || n == 0x202f || n == 0x205f || n == 0x3000
  }

  function StripLeft(s: string): string {
    if s != "" && IsSpace(s[0]) then StripLeft(s[1..]) else s
  }

  function StripRight(s: string): string {
    if s != "" && IsSpace(s[|s| - 1]) then StripRight(s[..|s| - 1]) else s
  }

  function Strip(s: string): string {
    StripRight(StripLeft(s))
  }

  lemma {:induction false} StripLeftBegins(s: string)
    ensures StripLeft(s) != "" ==> !IsSpace(StripLeft(s)[0])
  {
    if s != "" && IsSpace(s[0]) {
      StripLeftBegins(s[1..]);
    }
  }

  lemma {:induction false} StripRightEnds(s: string)
    ensures StripRight(s) <= s
    ensures var r := StripRight(s); r != "" ==> !IsSpace(r[|r| - 1])
  {
    if s != "" && IsSpace(s[|s| - 1]) {
      StripRightEnds(s[..|s| - 1]);
    }
  }

  lemma {:induction false} StripLeftExactly(s: string) returns (a: nat)
    ensures a <= |s| && StripLeft(s) == s[a..]
    ensures (forall i :: 0 <= i < a ==> IsSpace(s[i])) && (a < |s| ==> !IsSpace(s[a]))
  {
    a := 0;
    if s != "" && IsSpace(s[0]) {
      var b := StripLeftExactly(s[1..]);
      a := b + 1;
      assert forall i :: 0 < i < a ==> s[i] == s[1..][i - 1];
    }
  }

  lemma {:induction false} StripRightExactly(s: string) returns (b: nat)
    ensures b <= |s| && StripRight(s) == s[..b]
    ensures (forall i :: b <= i < |s| ==> IsSpace(s[i])) && (b > 0 ==> !IsSpace(s[b - 1]))
  {
    b := |s|;
    if s != "" && IsSpace(s[|s| - 1]) {
      var init := s[..|s| - 1];
      b := StripRightExactly(init);
      assert forall i :: 0 <= i < |s| - 1 ==> s[i] == init[i];
    }
  }

  /** What is left is the text from its first to its last character that is no white space. */
  lemma StripExactly(s: string) returns (a: nat, b: nat)
    ensures a <= b <= |s| && Strip(s) == s[a..b]
    ensures forall i :: 0 <= i < a || b <= i < |s| ==> IsSpace(s[i])
    ensures a < b ==> !IsSpace(s[a]) && !IsSpace(s[b - 1])
  {
    a := StripLeftExactly(s);
    var n := StripRightExactly(s[a..]);
    b := a + n;
    assert forall i :: a <= i < |s| ==> s[i] == s[a..][i - a];
  }

  /** Stripping once is enough. */
  lemma StripTwice(s: string)
    ensures Strip(Strip(s)) == Strip(s)
  {
    StripLeftBegins(s);
    StripRightEnds(StripLeft(s));
  }

  /** Index of the first line break, or the length. */
  function FirstBreak(s: string): (i: nat)
    ensures i <= |s| && (i < |s| ==> IsBreak(s[i]))
  {
    if s == "" || IsBreak(s[0]) then 0 else 1 + FirstBreak(s[1..])
  }

  /** "\r\n" is one break. */
  function BreakLength(s: string, i: nat): (n: nat)
    requires i < |s|
    ensures 1 <= n && i + n <= |s|
  {
    if s[i] == '\r' && i + 1 < |s| && s[i + 1] == '\n' then 2 else 1
  }

  function SplitLines(s: string): seq<string> {
    if s == "" then []
    else
      var i := FirstBreak(s);
      if i == |s| then [s] else [s[..i]] + SplitLines(s[i + BreakLength(s, i)..])
  }

  /** `splitlines(keepends=True)`. */
  function KeepLines(s: string): seq<string> {
    if s == "" then []
    else
      var i := FirstBreak(s);
      if i == |s| then [s]
      else
        var n := i + BreakLength(s, i);
        [s[..n]] + KeepLines(s[n..])
  }

  function Join(texts: seq<string>): string {
    if texts == [] then "" else if |texts| == 1 then texts[0] else texts[0] + "\n" + Join(texts[1..])
  }

  predicate BreakFree(s: string) {
    forall k {:trigger IsBreak(s[k])} :: 0 <= k < |s| ==> !IsBreak(s[k])
  }

  lemma {:induction false} NoneBefore(s: string, k: nat)
    requires k < FirstBreak(s)
    ensures !IsBreak(s[k])
  {
    if k > 0 {
      NoneBefore(s[1..], k - 1);
    }
  }

  lemma FirstBreakAt(s: string, i: nat)
    requires i <= |s| && BreakFree(s[..i]) && (i < |s| ==> IsBreak(s[i]))
    ensures FirstBreak(s) == i
  {
    forall k | 0 <= k < i ensures !IsBreak(s[k]) {
      assert !IsBreak(s[..i][k]);
    }
    assert FirstBreak(s) >= i;
    if FirstBreak(s) > i {
      NoneBefore(s, i);
    }
  }

  /** A text followed by "\n" splits off as one line. */
  lemma SplitHead(t: string, rest: string)
    requires BreakFree(t)
    ensures SplitLines(t + "\n" + rest) == [t] + SplitLines(rest)
    ensures KeepLines(t + "\n" + rest) == [t + "\n"] + KeepLines(rest)
  {
    var s := t + "\n" + rest;
    assert s[..|t|] == t;
    FirstBreakAt(s, |t|);
    assert BreakLength(s, |t|) == 1;
    assert s[..|t| + 1] == t + "\n" && s[|t| + 1..] == rest;
  }

  lemma SplitOne(t: string)
    requires BreakFree(t) && t != ""
    ensures SplitLines(t) == [t] && KeepLines(t) == [t]
  {
    assert t[..|t|] == t;
    FirstBreakAt(t, |t|);
  }

  lemma Regroup<T>(a: seq<T>, b: seq<T>, c: seq<T>, d: seq<T>, e: seq<T>)
    ensures a + b + c + d + e == a + b + (c + d + e)
  {
  }

  lemma SplitCons(t: string, joined: string, rest: string)
    requires BreakFree(t)
    ensures SplitLines(t + "\n" + joined + "\n" + rest) == [t] + SplitLines(joined + "\n" + rest)
  {
    Regroup(t, "\n", joined, "\n", rest);
    SplitHead(t, joined + "\n" + rest);
  }

  predicate AllBreakFree(texts: seq<string>) {
    forall k {:trigger BreakFree(texts[k])} :: 0 <= k < |texts| ==> BreakFree(texts[k])
  }

  lemma AllButFirst(texts: seq<string>)
    requires texts != [] && AllBreakFree(texts)
    ensures AllBreakFree(texts[1..])
  {
    var rest := texts[1..];
    forall k | 0 <= k < |rest| ensures BreakFree(rest[k]) {
      assert BreakFree(texts[k + 1]);
    }
  }

  lemma Unshift(a: seq<string>, b: seq<string>)
    requires a != []
    ensures [a[0]] + (a[1..] + b) == a + b
  {
  }

  /** Splitting a join gives the texts back, whatever follows after a final line feed. */
  lemma {:induction false} SplitJoinedLines(texts: seq<string>, rest: string)
    requires texts != [] && AllBreakFree(texts)
    ensures SplitLines(Join(texts) + "\n" + rest) == texts + SplitLines(rest)
  {
    assert BreakFree(texts[0]);
    if |texts| == 1 {
      SplitHead(texts[0], rest);
      assert texts == [texts[0]];
    } else {
      AllButFirst(texts);
      SplitJoinedLines(texts[1..], rest);
      SplitCons(texts[0], Join(texts[1..]), rest);
      Unshift(texts, SplitLines(rest));
    }
  }

  lemma FirstLineBreakFree(s: string)
    ensures BreakFree(s[..FirstBreak(s)])
  {
    var line := s[..FirstBreak(s)];
    forall k | 0 <= k < |line| ensures !IsBreak(line[k]) {
      NoneBefore(s, k);
    }
  }

  lemma ConsBreakFree(t: string, rest: seq<string>)
    requires BreakFree(t) && AllBreakFree(rest)
    ensures AllBreakFree([t] + rest)
  {
    var all := [t] + rest;
    forall k | 0 <= k < |all| ensures BreakFree(all[k]) {
      assert k > 0 ==> all[k] == rest[k - 1];
    }
  }

  lemma {:induction false} LinesBreakFree(s: string)
    ensures AllBreakFree(SplitLines(s))
    decreases |s|
  {
    if s != "" {
      var i := FirstBreak(s);
      FirstLineBreakFree(s);
      if i < |s| {
        var rest := s[i + BreakLength(s, i)..];
        LinesBreakFree(rest);
        ConsBreakFree(s[..i], SplitLines(rest));
      } else {
        assert s[..i] == s;
      }
    }
  }

  lemma {:induction false} JoinInit(texts: seq<string>)
    requires |texts| > 1
    ensures Join(texts) == Join(texts[..|texts| - 1]) + "\n" + texts[|texts| - 1]
  {
    if |texts| == 2 {
      assert texts[..1] == [texts[0]] && texts[1..] == [texts[1]];
    } else {
      JoinInit(texts[1..]);
      assert texts[1..][..|texts| - 2] == texts[..|texts| - 1][1..];
    }
  }

  lemma PrefixBreakFree(texts: seq<string>)
    requires texts != [] && AllBreakFree(texts)
    ensures AllBreakFree(texts[..|texts| - 1]) && BreakFree(texts[|texts| - 1])
  {
    var init := texts[..|texts| - 1];
    forall k | 0 <= k < |init| ensures BreakFree(init[k]) {
      assert BreakFree(texts[k]);
    }
    assert BreakFree(texts[|texts| - 1]);
  }

  lemma SplitJoinedParts(init: seq<string>, last: string)
    requires init != [] && AllBreakFree(init) && BreakFree(last)
    ensures SplitLines(Join(init) + "\n" + last) == if last == "" then init else init + [last]
  {
    SplitJoinedLines(init, last);
    if last == "" {
      assert init + [] == init;
    } else {
      SplitOne(last);
    }
  }

  /** A last text that is empty leaves no line. */
  lemma SplitJoined(texts: seq<string>)
    requires texts != [] && AllBreakFree(texts)
    ensures SplitLines(Join(texts)) == if texts[|texts| - 1] == "" then texts[..|texts| - 1] else texts
  {
    var init, last := texts[..|texts| - 1], texts[|texts| - 1];
    PrefixBreakFree(texts);
    assert texts == init + [last];
    if |texts| == 1 {
      if last != "" {
        SplitOne(last);
      }
    } else {
      JoinInit(texts);
      SplitJoinedParts(init, last);
    }
  }

  /** When a joined text splits back into the very texts: exactly when none of them holds a break and the last one, if
      any, is not empty. */
  lemma SplitInvertsJoin(texts: seq<string>)
    ensures SplitLines(Join(texts)) == texts
       <==> && AllBreakFree(texts)
            && (texts != [] ==> texts[|texts| - 1] != "")
  {
    LinesBreakFree(Join(texts));
    if texts != [] && AllBreakFree(texts) {
      SplitJoined(texts);
    }
  }

  // ---------------------------------------------------------------- which characters

  const BREAKS := "\n\U{b}\U{c}\r\U{1c}\U{1d}\U{1e}\U{85}\U{2028}\U{2029}"
  const BLANKS := "\t\U{1f} \U{a0}\U{1680}\U{2000}\U{2001}\U{2002}\U{2003}\U{2004}\U{2005}\U{2006}\U{2007}" +
                  "\U{2008}\U{2009}\U{200a}\U{202f}\U{205f}\U{3000}"

  lemma BreaksAre(c: char)
    ensures IsBreak(c) <==> c in BREAKS
  {
    assert BREAKS[0] == '\n' && BREAKS[1] as int == 11 && BREAKS[2] as int == 12 && BREAKS[3] == '\r';
    assert BREAKS[4] as int == 0x1c && BREAKS[5] as int == 0x1d && BREAKS[6] as int == 0x1e && BREAKS[7] as int == 0x85;
    assert BREAKS[8] as int == 0x2028 && BREAKS[9] as int == 0x2029;
  }

  lemma BlanksAre(c: char)
    ensures IsSpace(c) <==> c in BREAKS || c in BLANKS
  {
    BreaksAre(c);
  }

  /** A character parts two lines exactly when it is one of Python's ten line boundaries. */
  lemma PartsLines(c: char)
    ensures |SplitLines(['a', c, 'b'])| == 2 <==> c in BREAKS
  {
    BreaksAre(c);
    LineCount(['a', c, 'b']);
    assert ['a', c, 'b'][1..] == [c, 'b'] && [c, 'b'][1..] == ['b'] && ['b'][1..] == "";
  }

  /** It is stripped exactly when it is one of them or of the nineteen other characters of Python's white space. */
  lemma IsStripped(c: char)
    ensures Strip([c]) == "" <==> c in BREAKS || c in BLANKS
  {
    BlanksAre(c);
    var a, b := StripExactly([c]);
    assert [c][0] == c;
  }

  // ---------------------------------------------------------------- counting lines

  predicate IsPair(s: string) {
    |s| > 1 && s[0] == '\r' && s[1] == '\n'
  }

  /** How many line breaks the text holds, "\r\n" being one. */
  function BreakCount(s: string): nat {
    if s == "" then 0
    else if IsPair(s) then 1 + BreakCount(s[2..])
    else (if IsBreak(s[0]) then 1 else 0) + BreakCount(s[1..])
  }

  /** 1 if the text ends within a line. */
  function OpenEnd(s: string): nat {
    if s != "" && !IsBreak(s[|s| - 1]) then 1 else 0
  }

  /** Whether what has been written ends in a carriage return, after `s` has been added to it. */
  predicate Returned(before: bool, s: string) {
    if s == "" then before else s[|s| - 1] == '\r'
  }

  /** 1 if adding `s` joins a carriage return and a line feed into one break. */
  function Joint(returned: bool, s: string): nat {
    if returned && s != "" && s[0] == '\n' then 1 else 0
  }

  lemma {:induction false} BreakCountAppend(a: string, b: string)
    ensures BreakCount(a + b) + Joint(Returned(false, a), b) == BreakCount(a) + BreakCount(b)
    decreases |a|
  {
    if a == "" {
      assert a + b == b;
    } else if IsPair(a) {
      BreakCountAppend(a[2..], b);
      assert (a + b)[2..] == a[2..] + b;
    } else if |a| == 1 {
      BreakCountCons(a[0], b);
      assert a[1..] == "" && a + b == [a[0]] + b;
    } else {
      BreakCountAppend(a[1..], b);
      assert (a + b)[1..] == a[1..] + b;
    }
  }

  lemma BreakCountCons(c: char, b: string)
    ensures BreakCount([c] + b) + Joint(c == '\r', b) == (if IsBreak(c) then 1 else 0) + BreakCount(b)
  {
    var s := [c] + b;
    assert s[1..] == b;
    if IsPair(s) {
      assert s[2..] == b[1..];
    }
  }

  lemma {:induction false} BreakFreeCount(s: string)
    requires BreakFree(s)
    ensures BreakCount(s) == 0
  {
    if s != "" {
      assert !IsBreak(s[0]);
      forall k | 0 <= k < |s[1..]| ensures !IsBreak(s[1..][k]) {
        assert !IsBreak(s[k + 1]);
      }
      BreakFreeCount(s[1..]);
    }
  }

  lemma OnlyLineCount(s: string)
    requires s != "" && FirstBreak(s) == |s|
    ensures BreakCount(s) == 0 && OpenEnd(s) == 1
  {
    FirstLineBreakFree(s);
    assert s[..|s|] == s;
    BreakFreeCount(s);
    NoneBefore(s, |s| - 1);
  }

  /** One break: a pair, or a single character that does not begin one. */
  predicate IsOneBreak(brk: string, rest: string) {
    || brk == "\r\n"
    || (|brk| == 1 && IsBreak(brk[0]) && !(brk[0] == '\r' && rest != "" && rest[0] == '\n'))
  }

  lemma HeadCount(line: string, brk: string, rest: string)
    requires BreakFree(line) && IsOneBreak(brk, rest)
    ensures BreakCount(line + brk + rest) == 1 + BreakCount(rest)
    ensures OpenEnd(line + brk + rest) == OpenEnd(rest)
  {
    BreakCountAppend(line + brk, rest);
    BreakCountAppend(line, brk);
    BreakFreeCount(line);
    assert line != "" ==> !IsBreak(line[|line| - 1]);
    assert BreakCount(brk) == 1 by {
      assert |brk| == 1 ==> brk[1..] == "";
      assert |brk| == 2 ==> brk[2..] == "";
    }
  }

  lemma CutAt(s: string, i: nat, n: nat)
    requires i <= n <= |s|
    ensures s == s[..i] + s[i..n] + s[n..]
  {
  }

  lemma FirstBreakIsOne(s: string)
    requires FirstBreak(s) < |s|
    ensures var i := FirstBreak(s);
            var n := i + BreakLength(s, i);
            IsOneBreak(s[i..n], s[n..])
  {
  }

  /** Every break ends a line, and what follows the last one is a line unless it is empty. */
  lemma {:induction false} LineCount(s: string)
    ensures |SplitLines(s)| == BreakCount(s) + OpenEnd(s)
    decreases |s|
  {
    if s != "" {
      var i := FirstBreak(s);
      if i == |s| {
        OnlyLineCount(s);
      } else {
        var n := i + BreakLength(s, i);
        FirstLineBreakFree(s);
        FirstBreakIsOne(s);
        CutAt(s, i, n);
        HeadCount(s[..i], s[i..n], s[n..]);
        LineCount(s[n..]);
      }
    }
  }
}
