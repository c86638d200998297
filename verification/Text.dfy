/**
 The text vocabulary shared by the Caddyfile modules: Python's `strip`, `splitlines`,
 `"\n".join`, and the net number of braces on a line. Lines are separated by '\n' only.
 */
module Text {

  type Lines = seq<string>

  // ---------------------------------------------------------------- stripping

  predicate IsSpace(c: char) {
    c == ' ' || c == '\t' || c == '\n' || c == '\r' || c == '\U{0B}' || c == '\U{0C}'
  }

  lemma SpaceIs(c: char)
    ensures IsSpace(c) <==> c in " \t\n\r\U{0B}\U{0C}"
  {
  }

  function LStrip(s: string): (r: string)
    ensures |r| <= |s|
    ensures r != "" ==> !IsSpace(r[0])
  {
    if s != "" && IsSpace(s[0]) then LStrip(s[1..]) else s
  }

  function RStrip(s: string): (r: string)
    ensures |r| <= |s|
    ensures r != "" ==> !IsSpace(r[|r| - 1])
  {
    if s != "" && IsSpace(s[|s| - 1]) then RStrip(s[..|s| - 1]) else s
  }

  function Strip(s: string): string {
    RStrip(LStrip(s))
  }

  predicate IsBlank(s: string) {
    Strip(s) == ""
  }

  predicate AllSpace(s: string) {
    forall k :: 0 <= k < |s| ==> IsSpace(s[k])
  }

  lemma {:induction false} LStripPrefix(a: string, b: string)
    requires AllSpace(a)
    ensures LStrip(a + b) == LStrip(b)
  {
    if a == "" {
      assert a + b == b;
    } else {
      assert (a + b)[1..] == a[1..] + b;
      LStripPrefix(a[1..], b);
    }
  }

  lemma {:induction false} RStripSuffix(a: string, b: string)
    requires AllSpace(b)
    ensures RStrip(a + b) == RStrip(a)
  {
    if b == "" {
      assert a + b == a;
    } else {
      assert (a + b)[..|a + b| - 1] == a + b[..|b| - 1];
      RStripSuffix(a, b[..|b| - 1]);
    }
  }

  lemma {:induction false} LStripSpaces(s: string)
    ensures LStrip(s) == s[|s| - |LStrip(s)|..]
    ensures AllSpace(s[..|s| - |LStrip(s)|])
  {
    if s != "" && IsSpace(s[0]) {
      LStripSpaces(s[1..]);
      var n := |s| - |LStrip(s)|;
      assert s[..n] == [s[0]] + s[1..][..n - 1];
    }
  }

  lemma {:induction false} RStripSpaces(s: string)
    ensures RStrip(s) == s[..|RStrip(s)|]
    ensures AllSpace(s[|RStrip(s)|..])
  {
    if s != "" && IsSpace(s[|s| - 1]) {
      RStripSpaces(s[..|s| - 1]);
      assert s[|RStrip(s)|..] == s[..|s| - 1][|RStrip(s)|..] + [s[|s| - 1]];
    }
  }

  lemma LStripTrimmed(s: string)
    requires s == "" || !IsSpace(s[0])
    ensures LStrip(s) == s
  {
  }

  lemma RStripTrimmed(s: string)
    requires s == "" || !IsSpace(s[|s| - 1])
    ensures RStrip(s) == s
  {
  }

  lemma StripTrimmed(s: string)
    requires s != "" ==> !IsSpace(s[0]) && !IsSpace(s[|s| - 1])
    ensures Strip(s) == s
  {
  }

  lemma LStripHead(s: string) returns (before: string)
    ensures AllSpace(before) && s == before + LStrip(s)
  {
    before := s[..|s| - |LStrip(s)|];
    LStripSpaces(s);
  }

  lemma RStripTail(s: string) returns (after: string)
    ensures AllSpace(after) && s == RStrip(s) + after
  {
    after := s[|RStrip(s)|..];
    RStripSpaces(s);
  }

  /** `strip` removes a run of white space at either end and nothing else. */
  lemma StripParts(s: string) returns (before: string, after: string)
    ensures s == before + Strip(s) + after
    ensures AllSpace(before) && AllSpace(after)
    ensures Strip(s) != "" ==> !IsSpace(Strip(s)[0]) && !IsSpace(Strip(s)[|Strip(s)| - 1])
  {
    hide LStrip, RStrip, AllSpace, IsSpace;
    before := LStripHead(s);
    after := RStripTail(LStrip(s));
    assert Strip(s) != "" ==> Strip(s)[0] == LStrip(s)[0];
    assert before + (Strip(s) + after) == before + Strip(s) + after;
  }

  /** White space around a text does not change what `strip` leaves. */
  lemma StripPadded(before: string, s: string, after: string)
    requires AllSpace(before) && AllSpace(after)
    ensures Strip(before + s + after) == Strip(s)
  {
    hide LStrip, RStrip, IsSpace;
    assert before + s + after == before + (s + after);
    LStripPrefix(before, s + after);
    if AllSpace(s) {
      assert AllSpace(s + after);
      AllSpaceStrips(s + after);
      AllSpaceStrips(s);
    } else {
      LStripConcat(s, after);
      RStripSuffix(LStrip(s), after);
    }
  }

  lemma {:induction false} LStripConcat(a: string, b: string)
    requires !AllSpace(a)
    ensures LStrip(a + b) == LStrip(a) + b
  {
    if IsSpace(a[0]) {
      assert (a + b)[1..] == a[1..] + b;
      assert a == [a[0]] + a[1..];
      LStripConcat(a[1..], b);
    }
  }

  lemma {:induction false} RStripConcat(a: string, b: string)
    requires !AllSpace(b)
    ensures RStrip(a + b) == a + RStrip(b)
  {
    if IsSpace(b[|b| - 1]) {
      assert (a + b)[..|a + b| - 1] == a + b[..|b| - 1];
      assert b == b[..|b| - 1] + [b[|b| - 1]];
      RStripConcat(a, b[..|b| - 1]);
    }
  }

  lemma AllSpaceStrips(s: string)
    requires AllSpace(s)
    ensures LStrip(s) == "" && RStrip(s) == "" && Strip(s) == ""
  {
    assert s + "" == s == "" + s;
    LStripPrefix(s, "");
    RStripSuffix("", s);
  }

  lemma BlankIsAllSpace(s: string)
    ensures IsBlank(s) <==> AllSpace(s)
  {
    if IsBlank(s) {
      var b, a := StripParts(s);
      assert s == b + a;
    } else if AllSpace(s) {
      AllSpaceStrips(s);
    }
  }

  lemma StripNothing()
    ensures Strip("") == "" && IsBlank("")
  {
  }

  lemma StripIdempotent(s: string)
    ensures Strip(Strip(s)) == Strip(s)
  {
    var b, a := StripParts(s);
    StripTrimmed(Strip(s));
  }

  lemma StripOfLStrip(s: string)
    ensures Strip(LStrip(s)) == Strip(s)
  {
    LStripTrimmed(LStrip(s));
  }

  lemma StripOfRStrip(s: string)
    ensures Strip(RStrip(s)) == Strip(s)
  {
    var after := RStripTail(s);
    hide LStrip, RStrip;
    var r := RStrip(s);
    assert "" + r + after == s;
    StripPadded("", r, after);
  }

  // ---------------------------------------------------------------- searching and counting

  /** Index of the first `c`, or the length when there is none. */
  function Find(s: string, c: char): (r: nat)
    ensures r <= |s|
    ensures r < |s| ==> s[r] == c
    ensures forall k :: 0 <= k < r ==> s[k] != c
  {
    if s == "" || s[0] == c then 0 else 1 + Find(s[1..], c)
  }

  /** Number of '{' minus number of '}'. */
  function Net(s: string): int {
    if s == "" then 0 else NetChar(s[0]) + Net(s[1..])
  }

  function NetChar(c: char): int {
    if c == '{' then 1 else if c == '}' then -1 else 0
  }

  lemma {:induction false} NetConcat(a: string, b: string)
    ensures Net(a + b) == Net(a) + Net(b)
  {
    if a == "" {
      assert a + b == b;
    } else {
      assert (a + b)[1..] == a[1..] + b;
      NetConcat(a[1..], b);
    }
  }

  predicate NoBraces(s: string) {
    '{' !in s && '}' !in s
  }

  lemma {:induction false} NetNoBraces(s: string)
    requires NoBraces(s)
    ensures Net(s) == 0
  {
    if s != "" {
      NetNoBraces(s[1..]);
    }
  }

  lemma NetStrip(s: string)
    ensures Net(Strip(s)) == Net(s)
  {
    var b, a := StripParts(s);
    assert NoBraces(b) && NoBraces(a);
    NetConcat(b + Strip(s), a);
    NetConcat(b, Strip(s));
    NetNoBraces(b);
    NetNoBraces(a);
  }

  lemma NetOfStripEqual(s: string, t: string)
    requires Strip(s) == Strip(t)
    ensures Net(s) == Net(t)
  {
    NetStrip(s);
    NetStrip(t);
  }

  /** Net braces of a run of lines. */
  function NetLines(ls: Lines): int {
    if ls == [] then 0 else Net(ls[0]) + NetLines(ls[1..])
  }

  lemma {:induction false} NetLinesConcat(a: Lines, b: Lines)
    ensures NetLines(a + b) == NetLines(a) + NetLines(b)
  {
    if a == [] {
      assert a + b == b;
    } else {
      assert (a + b)[1..] == a[1..] + b;
      NetLinesConcat(a[1..], b);
    }
  }

  /** Every line, counted from `depth`, leaves the depth above zero. */
  predicate StaysInside(lines: Lines, depth: int) {
    lines == [] || (depth + Net(lines[0]) > 0 && StaysInside(lines[1..], depth + Net(lines[0])))
  }

  /** Counted from `depth`, no line takes the depth below zero. */
  predicate NeverNegative(lines: Lines, depth: int) {
    lines == [] || (depth + Net(lines[0]) >= 0 && NeverNegative(lines[1..], depth + Net(lines[0])))
  }

  lemma NoNetLines()
    ensures NetLines([]) == 0
  {
  }

  lemma NetLinesStep(ls: Lines)
    requires ls != []
    ensures NetLines(ls) == Net(ls[0]) + NetLines(ls[1..])
  {
  }

  lemma EmptyNet()
    ensures Net("") == 0
  {
  }

  lemma OneBrace()
    ensures Net("{") == 1 && Net("}") == -1 && Net(" ") == 0
  {
    assert "{"[1..] == "" && "}"[1..] == "" && " "[1..] == "";
  }

  // ---------------------------------------------------------------- lines and text

  predicate OneLine(s: string) {
    '\n' !in s
  }

  predicate WellFormed(ls: Lines) {
    forall k :: 0 <= k < |ls| ==> OneLine(ls[k])
  }

  function SplitLines(s: string): (ls: Lines)
    ensures WellFormed(ls)
  {
    if s == "" then []
    else
      var i := Find(s, '\n');
      if i == |s| then [s] else [s[..i]] + SplitLines(s[i + 1..])
  }

  function JoinLines(ls: Lines): string {
    if ls == [] then "" else if |ls| == 1 then ls[0] else ls[0] + "\n" + JoinLines(ls[1..])
  }

  lemma FindInConcat(a: string, c: char, b: string)
    requires c !in a
    ensures Find(a + [c] + b, c) == |a|
  {
    var s := a + [c] + b;
    assert s[|a|] == c;
    forall k | 0 <= k < |a| ensures s[k] != c {
      assert s[k] == a[k];
    }
  }

  lemma JoinCons(first: string, rest: Lines)
    requires rest != []
    ensures JoinLines([first] + rest) == first + "\n" + JoinLines(rest)
  {
    assert ([first] + rest)[1..] == rest;
  }

  lemma CutAt(s: string, i: nat)
    requires i < |s| && s[i] == '\n'
    ensures s == s[..i] + "\n" + s[i + 1..]
  {
  }

  lemma SplitAtNewline(s: string, i: nat)
    requires i == Find(s, '\n') < |s|
    ensures SplitLines(s) == [s[..i]] + SplitLines(s[i + 1..])
    ensures s == s[..i] + "\n" + s[i + 1..]
  {
    hide Find;
    CutAt(s, i);
  }

  lemma {:induction false} JoinSplit(s: string)
    requires s == "" || s[|s| - 1] != '\n'
    ensures JoinLines(SplitLines(s)) == s
  {
    if s != "" {
      var i := Find(s, '\n');
      if i < |s| {
        var rest := s[i + 1..];
        SplitAtNewline(s, i);
        hide Find;
        assert rest != "";
        JoinSplit(rest);
        JoinCons(s[..i], SplitLines(rest));
      }
    }
  }

  lemma {:induction false} SplitJoin(ls: Lines)
    requires WellFormed(ls)
    requires ls != [] && ls[|ls| - 1] != ""
    ensures SplitLines(JoinLines(ls)) == ls
  {
    if |ls| > 1 {
      var rest := ls[1..];
      SplitJoin(rest);
      var t := ls[0] + "\n" + JoinLines(rest);
      FindInConcat(ls[0], '\n', JoinLines(rest));
      assert t[..|ls[0]|] == ls[0];
      assert t[|ls[0]| + 1..] == JoinLines(rest);
    } else {
      assert Find(ls[0], '\n') == |ls[0]|;
    }
  }

  lemma {:induction false} JoinConcat(a: Lines, b: Lines)
    requires a != [] && b != []
    ensures JoinLines(a + b) == JoinLines(a) + "\n" + JoinLines(b)
  {
    assert (a + b)[1..] == a[1..] + b;
    if |a| > 1 {
      JoinConcat(a[1..], b);
      calc {
        JoinLines(a + b);
        a[0] + "\n" + JoinLines(a[1..] + b);
        a[0] + "\n" + (JoinLines(a[1..]) + "\n" + JoinLines(b));
        (a[0] + "\n" + JoinLines(a[1..])) + "\n" + JoinLines(b);
      }
    } else {
      assert a[1..] + b == b;
    }
  }

  // ---------------------------------------------------------------- strip, seen line by line

  function TrimStart(ls: Lines): Lines {
    if ls == [] then []
    else if IsBlank(ls[0]) then TrimStart(ls[1..])
    else [LStrip(ls[0])] + ls[1..]
  }

  function TrimEnd(ls: Lines): Lines {
    if ls == [] then []
    else
      var last := |ls| - 1;
      if IsBlank(ls[last]) then TrimEnd(ls[..last])
      else ls[..last] + [RStrip(ls[last])]
  }

  /** What `strip` does to a text, on its lines. */
  function TrimLines(ls: Lines): Lines {
    TrimEnd(TrimStart(ls))
  }

  lemma {:induction false} LStripJoin(ls: Lines)
    ensures LStrip(JoinLines(ls)) == JoinLines(TrimStart(ls))
  {
    hide LStrip, RStrip;
    if ls == [] {
      AllSpaceStrips("");
    } else {
      var first, rest := ls[0], ls[1..];
      BlankIsAllSpace(first);
      if rest == [] {
        if IsBlank(first) {
          AllSpaceStrips(first);
        }
      } else {
        var tail := JoinLines(rest);
        assert first + "\n" + tail == first + ("\n" + tail);
        assert JoinLines(ls) == first + "\n" + tail;
        if IsBlank(first) {
          LStripPrefix(first + "\n", tail);
          LStripJoin(rest);
        } else {
          LStripConcat(first, "\n" + tail);
          JoinCons(LStrip(first), rest);
        }
      }
    }
  }

  lemma {:induction false} RStripJoin(ls: Lines)
    ensures RStrip(JoinLines(ls)) == JoinLines(TrimEnd(ls))
  {
    if ls != [] {
      var init, last := ls[..|ls| - 1], ls[|ls| - 1];
      assert ls == init + [last];
      BlankIsAllSpace(last);
      if init == [] {
        assert ls == [last];
        if IsBlank(last) {
          AllSpaceStrips(last);
        }
      } else {
        JoinConcat(init, [last]);
        var head := JoinLines(init);
        if IsBlank(last) {
          assert head + "\n" + last == head + ("\n" + last);
          assert AllSpace("\n" + last);
          RStripSuffix(head, "\n" + last);
          RStripJoin(init);
        } else {
          RStripConcat(head + "\n", last);
          JoinConcat(init, [RStrip(last)]);
        }
      }
    }
  }

  /** Stripping a text and trimming its lines are the same thing. */
  lemma StripJoin(ls: Lines)
    ensures Strip(JoinLines(ls)) == JoinLines(TrimLines(ls))
  {
    LStripJoin(ls);
    RStripJoin(TrimStart(ls));
  }

  lemma {:induction false} TrimStartWellFormed(ls: Lines)
    requires WellFormed(ls)
    ensures WellFormed(TrimStart(ls))
  {
    if ls != [] {
      if IsBlank(ls[0]) {
        TrimStartWellFormed(ls[1..]);
      } else {
        LStripSpaces(ls[0]);
        hide LStrip;
      }
    }
  }

  lemma {:induction false} TrimEndWellFormed(ls: Lines)
    requires WellFormed(ls)
    ensures WellFormed(TrimEnd(ls))
    ensures TrimEnd(ls) != [] ==> TrimEnd(ls)[|TrimEnd(ls)| - 1] != ""
  {
    if ls != [] {
      var last := |ls| - 1;
      if IsBlank(ls[last]) {
        hide IsBlank;
        TrimEndWellFormed(ls[..last]);
      } else {
        NotBlankRStrip(ls[last]);
        RStripSpaces(ls[last]);
        hide RStrip, IsBlank;
      }
    }
  }

  lemma NotBlankRStrip(s: string)
    requires !IsBlank(s)
    ensures RStrip(s) != ""
  {
    BlankIsAllSpace(s);
    var after := RStripTail(s);
    hide RStrip;
    assert RStrip(s) == "" ==> s == after;
  }

  /** Lines of a trimmed text: joining and splitting again gives the same lines. */
  lemma SplitTrimmed(ls: Lines)
    requires WellFormed(ls)
    ensures SplitLines(Strip(JoinLines(ls))) == TrimLines(ls)
  {
    StripJoin(ls);
    TrimStartWellFormed(ls);
    TrimEndWellFormed(TrimStart(ls));
    hide TrimStart, TrimEnd, Strip;
    if TrimLines(ls) != [] {
      SplitJoin(TrimLines(ls));
    }
  }

  lemma SplitLinesFront(line: string, b: string)
    requires OneLine(line)
    ensures SplitLines(line + "\n" + b) == [line] + SplitLines(b)
  {
    hide Find, SplitLines;
    var t := line + "\n" + b;
    FindInConcat(line, '\n', b);
    SplitAtNewline(t, |line|);
    assert t[..|line|] == line && t[|line| + 1..] == b;
  }

  lemma SplitOneLine(line: string)
    requires OneLine(line) && line != ""
    ensures SplitLines(line) == [line]
  {
  }

  /** A line break between two texts splits them apart. */
  lemma {:induction false} SplitLinesConcat(a: string, b: string)
    requires a != "" && a[|a| - 1] != '\n'
    ensures SplitLines(a + "\n" + b) == SplitLines(a) + SplitLines(b)
  {
    hide Find, SplitLines;
    var i := Find(a, '\n');
    if i == |a| {
      SplitLinesFront(a, b);
      SplitOneLine(a);
    } else {
      var line, rest := a[..i], a[i + 1..];
      CutAt(a, i);
      SplitLinesConcat(rest, b);
      SplitLinesFront(line, rest);
      SplitLinesFront(line, rest + "\n" + b);
      assert a + "\n" + b == line + "\n" + (rest + "\n" + b);
    }
  }

  lemma SplitLinesBlank(b: string)
    ensures SplitLines("\n" + b) == [""] + SplitLines(b)
  {
    var t := "\n" + b;
    assert Find(t, '\n') == 0;
    assert t[..0] == "" && t[1..] == b;
  }
}
