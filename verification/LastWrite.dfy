/**
 What rewriting the managed options promises on whole texts (app/utils/caddyfile.py,
 `inject_global_options`): the last write wins, and the sites of the text are not touched.
 */
module LastWrite {
  import opened Text
  import opened Parser
  import opened GlobalOptions

  // ---------------------------------------------------------------- stripped texts

  /** No surrounding whitespace: the first and the last line are stripped and not blank. */
  predicate CleanEnds(ls: Lines) {
    ls != [] ==>
      && !IsBlank(ls[0]) && LStrip(ls[0]) == ls[0]
      && !IsBlank(ls[|ls| - 1]) && RStrip(ls[|ls| - 1]) == ls[|ls| - 1]
  }

  lemma TrimStartFixed(ls: Lines)
    requires ls != [] && !IsBlank(ls[0]) && LStrip(ls[0]) == ls[0]
    ensures TrimStart(ls) == ls
  {
    hide *;
    TrimStartBlank(ls[0], ls[1..]);
    FrontAgain(ls, LStrip(ls[0]));
  }

  lemma FrontAgain(ls: Lines, first: string)
    requires ls != [] && first == ls[0]
    ensures ls == [first] + ls[1..] && ls == [ls[0]] + ls[1..]
  {
  }

  lemma TrimEndFixed(ls: Lines)
    requires ls != [] && !IsBlank(ls[|ls| - 1]) && RStrip(ls[|ls| - 1]) == ls[|ls| - 1]
    ensures TrimEnd(ls) == ls
  {
    hide *;
    var init, last := ls[..|ls| - 1], ls[|ls| - 1];
    assert ls == init + [last];
    TrimEndLast(init, last);
  }

  lemma TrimLinesIs(ls: Lines)
    ensures TrimLines(ls) == TrimEnd(TrimStart(ls))
    ensures TrimLines([]) == []
  {
    hide TrimStart, TrimEnd;
    assert TrimStart([]) == [] by { NothingToTrim(); }
    assert TrimEnd([]) == [] by { NothingToTrim(); }
  }

  lemma NothingToTrim()
    ensures TrimStart([]) == [] && TrimEnd([]) == []
  {
  }

  lemma CleanEndsTrim(ls: Lines)
    requires CleanEnds(ls)
    ensures TrimLines(ls) == ls
  {
    hide LStrip, RStrip, IsBlank, TrimStart, TrimEnd, TrimLines;
    TrimLinesIs(ls);
    if ls != [] {
      TrimStartFixed(ls);
      TrimEndFixed(ls);
    }
  }

  lemma {:induction false} TrimStartEnds(ls: Lines)
    requires |TrimStart(ls)| == |ls| && ls != []
    ensures !IsBlank(ls[0]) && TrimStart(ls) == [LStrip(ls[0])] + ls[1..]
  {
    hide LStrip, IsBlank;
    TrimStartShrinks(ls);
  }

  lemma {:induction false} TrimStartShrinks(ls: Lines)
    ensures |TrimStart(ls)| <= |ls|
    ensures ls != [] && IsBlank(ls[0]) ==> |TrimStart(ls)| < |ls|
  {
    hide LStrip, IsBlank;
    if ls != [] {
      TrimStartShrinks(ls[1..]);
    }
  }

  lemma {:induction false} TrimEndShrinks(ls: Lines)
    ensures |TrimEnd(ls)| <= |ls|
    ensures ls != [] && IsBlank(ls[|ls| - 1]) ==> |TrimEnd(ls)| < |ls|
  {
    hide RStrip, IsBlank;
    if ls != [] {
      TrimEndShrinks(ls[..|ls| - 1]);
    }
  }

  lemma TrimEndEnds(ls: Lines)
    requires |TrimEnd(ls)| == |ls| && ls != []
    ensures !IsBlank(ls[|ls| - 1]) && TrimEnd(ls) == ls[..|ls| - 1] + [RStrip(ls[|ls| - 1])]
  {
    hide RStrip, IsBlank;
    TrimEndShrinks(ls);
  }

  lemma TrimmedHasCleanEnds(ls: Lines)
    requires TrimLines(ls) == ls
    ensures CleanEnds(ls)
  {
    hide *;
    TrimLinesIs(ls);
    if ls == [] {
      NoEnds();
    } else {
      var mid, last := TrimStart(ls), |ls| - 1;
      TrimStartShrinks(ls);
      TrimEndShrinks(mid);
      TrimStartEnds(ls);
      TrimEndEnds(mid);
      if last > 0 {
        SameEndLines(ls, mid, LStrip(ls[0]), RStrip(mid[last]));
      } else {
        OneLineEnds(ls[0]);
      }
      CleanEndsIs(ls);
    }
  }

  lemma NoEnds()
    ensures CleanEnds([])
  {
  }

  lemma CleanEndsIs(ls: Lines)
    requires ls != []
    requires !IsBlank(ls[0]) && LStrip(ls[0]) == ls[0] && !IsBlank(ls[|ls| - 1]) && RStrip(ls[|ls| - 1]) == ls[|ls| - 1]
    ensures CleanEnds(ls)
  {
    hide LStrip, RStrip, IsBlank;
  }

  lemma SameEndLines(ls: Lines, mid: Lines, first: string, end: string)
    requires |ls| == |mid| > 1 && mid == [first] + ls[1..] && ls == mid[..|ls| - 1] + [end]
    ensures ls[0] == first && mid[|ls| - 1] == ls[|ls| - 1] == end
  {
  }

  lemma OneLineEnds(s: string)
    requires !IsBlank(s) && s == RStrip(LStrip(s))
    ensures LStrip(s) == s && RStrip(s) == s
  {
    LStripSpaces(s);
    hide LStrip, RStrip, IsBlank;
    assert |LStrip(s)| == |s|;
    assert LStrip(s) == s[0..];
  }

  lemma StrippedLines(b: string)
    requires Strip(b) == b
    ensures CleanEnds(SplitLines(b)) && JoinLines(SplitLines(b)) == b
    ensures SplitLines(b) == [] <==> b == ""
  {
    hide TrimLines, CleanEnds, JoinLines;
    assert RStrip(LStrip(b)) == b;
    JoinSplit(b);
    hide *;
    SplitTrimmed(SplitLines(b));
    TrimmedHasCleanEnds(SplitLines(b));
  }

  /** Lines with clean ends are exactly the lines of a stripped text. */
  lemma CleanText(ls: Lines)
    requires CleanEnds(ls) && WellFormed(ls)
    ensures SplitLines(Strip(JoinLines(ls))) == ls
  {
    hide *;
    CleanEndsTrim(ls);
    SplitTrimmed(ls);
  }

  // ---------------------------------------------------------------- one injection, seen on lines

  lemma UnmanagedWellFormed(ls: Lines)
    requires WellFormed(ls)
    ensures WellFormed(Unmanaged(ls))
  {
    hide IsManaged, OneLine;
    if ls != [] {
      UnmanagedWellFormed(ls[1..]);
    }
  }

  lemma ReplacedText(lines: Lines, k: nat, managed: Lines)
    requires k < |lines| && CleanEnds(lines) && WellFormed(lines) && WellFormed(managed)
    ensures CleanEnds(Replaced(lines, k, managed)) && WellFormed(Replaced(lines, k, managed))
  {
    hide *;
    var next := Replaced(lines, k, managed);
    ReplacedIs(lines, k, managed);
    var c := k + CloseOr(lines[k..], 0);
    var body := if k < c then lines[k + 1..c] else [];
    SliceWellFormed(lines, 0, k + 1);
    SliceWellFormed(lines, k + 1, if k < c then c else k + 1);
    SliceWellFormed(lines, c, |lines|);
    assert lines[0..k + 1] == lines[..k + 1] && lines[c..|lines|] == lines[c..];
    assert body == lines[k + 1..if k < c then c else k + 1];
    UnmanagedWellFormed(body);
    WellFormedParts(lines[..k + 1], managed);
    WellFormedParts(lines[..k + 1] + managed, Unmanaged(body));
    WellFormedParts(lines[..k + 1] + managed + Unmanaged(body), lines[c..]);
    SameEnds(lines, next);
  }

  lemma SliceWellFormed(lines: Lines, i: nat, j: nat)
    requires WellFormed(lines) && i <= j <= |lines|
    ensures WellFormed(lines[i..j])
  {
    hide OneLine;
  }

  lemma WellFormedParts(a: Lines, b: Lines)
    requires WellFormed(a) && WellFormed(b)
    ensures WellFormed(a + b)
  {
    hide OneLine;
  }

  lemma SameEnds(lines: Lines, next: Lines)
    requires CleanEnds(lines) && lines != [] && next != []
    requires next[0] == lines[0] && next[|next| - 1] == lines[|lines| - 1]
    ensures CleanEnds(next)
  {
    hide LStrip, RStrip, IsBlank;
  }

  lemma InjectedLines(b: string, managed: Lines)
    requires Strip(b) == b && managed != [] && WellFormed(managed)
    requires OpenFrom(SplitLines(b), 0) < |SplitLines(b)|
    ensures SplitLines(InjectManaged(b, managed)) == Replaced(SplitLines(b), OpenFrom(SplitLines(b), 0), managed)
    ensures Strip(InjectManaged(b, managed)) == InjectManaged(b, managed)
  {
    hide *;
    var lines := SplitLines(b);
    var k := OpenFrom(lines, 0);
    StrippedLines(b);
    ReplacedText(lines, k, managed);
    CleanText(Replaced(lines, k, managed));
    InjectIntoBlock(b, managed);
    StripIdempotent(JoinLines(Replaced(lines, k, managed)));
  }

  lemma InjectIntoBlock(b: string, managed: Lines)
    requires managed != [] && OpenFrom(SplitLines(b), 0) < |SplitLines(b)|
    ensures InjectManaged(b, managed) == Strip(JoinLines(Replaced(SplitLines(b), OpenFrom(SplitLines(b), 0), managed)))
  {
    hide SplitLines, OpenFrom, Replaced, JoinLines, Strip;
  }

  /** The text holds a block whose second scan is not clean. */
  predicate SecondIsClean(b: string) {
    var lines := SplitLines(b);
    var k := OpenFrom(lines, 0);
    k < |lines| ==> SecondScanIsClean(lines, k)
  }

  lemma TwiceInBlock(b: string, first: Lines, second: Lines)
    requires Strip(b) == b && AreOptions(first) && AreOptions(second)
    requires OpenFrom(SplitLines(b), 0) < |SplitLines(b)|
    ensures InjectManaged(InjectManaged(b, first), second) == InjectManaged(b, second)
       <==> SecondScanIsClean(SplitLines(b), OpenFrom(SplitLines(b), 0))
  {
    OptionsWellFormed(first);
    OptionsWellFormed(second);
    hide *;
    var lines := SplitLines(b);
    var k := OpenFrom(lines, 0);
    var next := Replaced(lines, k, first);
    InjectedLines(b, first);
    InjectedLines(b, second);
    ReplaceTwice(lines, k, first, second);
    InjectedLines(InjectManaged(b, first), second);
    TextOfLines(InjectManaged(InjectManaged(b, first), second), InjectManaged(b, second));
  }

  lemma OptionsWellFormed(managed: Lines)
    requires AreOptions(managed)
    ensures WellFormed(managed) && managed != []
  {
    hide IsManaged, NoBraces, OneLine;
  }

  lemma TextOfLines(a: string, b: string)
    requires Strip(a) == a && Strip(b) == b
    ensures a == b <==> SplitLines(a) == SplitLines(b)
  {
    hide *;
    StrippedLines(a);
    StrippedLines(b);
  }

  // ---------------------------------------------------------------- no block yet

  function NewBlock(managed: Lines, rest: Lines): Lines {
    ["{"] + (managed + (["}"] + (if rest == [] then [] else [""] + rest)))
  }

  lemma NewBlockText(b: string, managed: Lines)
    requires WellFormed(managed)
    ensures var lines := NewBlock(managed, SplitLines(Strip(b)));
            && CleanEnds(lines) && WellFormed(lines)
            && WithNewBlock(b, managed) == Strip(JoinLines(lines))
  {
    hide IsBlank, LStrip, RStrip, Strip, JoinLines, OneLine, CleanEnds, SplitLines, WellFormed;
    var rest := Strip(b);
    var tail, block := SplitLines(rest), ["{"] + managed + ["}"];
    StripIdempotent(b);
    StrippedLines(rest);
    BracesAreClean();
    BlockWellFormed(managed, tail);
    BlockCleanEnds(managed, tail);
    if rest == "" {
      assert NewBlock(managed, tail) == block;
      CleanEndsStrip(block);
    } else {
      assert NewBlock(managed, tail) == block + ([""] + tail);
      JoinConcat(block, [""] + tail);
      JoinCons("", tail);
      assert JoinLines(block) + "\n" + ("" + "\n" + rest) == JoinLines(block) + "\n\n" + rest;
    }
  }

  lemma BracesAreClean()
    ensures !IsBlank("{") && LStrip("{") == "{" && RStrip("{") == "{" && Strip("{") == "{"
    ensures !IsBlank("}") && LStrip("}") == "}" && RStrip("}") == "}" && Strip("}") == "}"
    ensures Net("}") == -1 && OneLine("{") && OneLine("}") && OneLine("") && !IsManaged("{")
  {
    hide *;
    BraceFacts();
    OneChar('{');
    OneChar('}');
  }

  lemma BraceFacts()
    ensures Net("}") == -1 && OneLine("{") && OneLine("}") && OneLine("")
    ensures !IsManaged("{") && !IsSpace('{') && !IsSpace('}')
  {
    assert "}"[1..] == "";
    ShortIsUnmanaged("{");
  }

  lemma ShortIsUnmanaged(line: string)
    requires |line| < 5
    ensures !IsManaged(line)
  {
    hide LStrip;
  }

  lemma OneChar(c: char)
    requires !IsSpace(c)
    ensures LStrip([c]) == [c] && RStrip([c]) == [c] && Strip([c]) == [c] && !IsBlank([c])
  {
    LStripTrimmed([c]);
    RStripTrimmed([c]);
    hide LStrip, RStrip;
  }

  lemma CleanEndsStrip(ls: Lines)
    requires CleanEnds(ls)
    ensures Strip(JoinLines(ls)) == JoinLines(ls)
  {
    hide *;
    StripJoin(ls);
    CleanEndsTrim(ls);
  }

  lemma BlockWellFormed(managed: Lines, tail: Lines)
    requires WellFormed(managed) && WellFormed(tail)
    ensures WellFormed(NewBlock(managed, tail))
  {
    hide OneLine;
    BracesAreClean();
  }

  lemma BlockCleanEnds(managed: Lines, tail: Lines)
    requires CleanEnds(tail)
    ensures CleanEnds(NewBlock(managed, tail))
  {
    hide IsBlank, LStrip, RStrip;
    BracesAreClean();
    var lines := NewBlock(managed, tail);
    assert lines[|lines| - 1] == if tail == [] then "}" else tail[|tail| - 1];
  }

  /** The block made for a text without one is found again, and replaced as a whole. */
  lemma NewBlockAgain(first: Lines, second: Lines, rest: Lines)
    requires AreOptions(first) && AreOptions(second)
    ensures var lines := NewBlock(first, rest);
            lines != [] && OpenFrom(lines, 0) == 0 && Replaced(lines, 0, second) == NewBlock(second, rest)
  {
    hide *;
    var lines, tail := NewBlock(first, rest), ["}"] + (if rest == [] then [] else [""] + rest);
    NewBlockShape(first, rest);
    BracesAreClean();
    OpenBraceNet("{");
    OpenNow(lines);
    SecondClose("{", first, tail);
    CloseStep("}", tail[1..], 1);
    CloseOrIs(tail, 1);
    assert tail == ["}"] + tail[1..];
    OptionNets(first);
    UnmanagedFacts(first);
    ReplacedIs(lines, 0, second);
    BlockSlices("{", first, tail);
    Regroup("{", second, tail);
    NewBlockShape(second, rest);
    OptionsWellFormed(first);
  }

  lemma BlockSlices(opening: string, inner: Lines, tail: Lines)
    ensures var lines := [opening] + (inner + tail);
            && lines[0..] == lines && lines[1..1 + |inner|] == inner && lines[1 + |inner|..] == tail
              && lines[..0 + 1] == [opening]
  {
  }

  lemma Regroup(opening: string, inner: Lines, tail: Lines)
    ensures [opening] + inner + [] + tail == [opening] + (inner + tail)
  {
  }

  lemma NewBlockShape(managed: Lines, rest: Lines)
    ensures NewBlock(managed, rest) == ["{"] + (managed + (["}"] + (if rest == [] then [] else [""] + rest)))
  {
  }

  lemma OpenNow(lines: Lines)
    requires lines != [] && Strip(lines[0]) == "{"
    ensures OpenFrom(lines, 0) == 0
  {
    hide Strip, Net;
  }

  lemma TwiceWithoutBlock(b: string, first: Lines, second: Lines)
    requires AreOptions(first) && AreOptions(second)
    requires OpenFrom(SplitLines(b), 0) == |SplitLines(b)|
    ensures InjectManaged(InjectManaged(b, first), second) == InjectManaged(b, second)
  {
    hide *;
    OptionsWellFormed(first);
    OptionsWellFormed(second);
    var rest, once := SplitLines(Strip(b)), InjectManaged(b, first);
    var lines := NewBlock(first, rest);
    NewBlockText(b, first);
    NewBlockText(b, second);
    InjectNewBlock(b, first);
    InjectNewBlock(b, second);
    CleanText(lines);
    assert SplitLines(once) == lines;
    NewBlockAgain(first, second, rest);
    InjectIntoBlock(once, second);
    assert InjectManaged(once, second) == Strip(JoinLines(NewBlock(second, rest)));
  }

  lemma InjectNewBlock(b: string, managed: Lines)
    requires managed != [] && OpenFrom(SplitLines(b), 0) == |SplitLines(b)|
    ensures InjectManaged(b, managed) == WithNewBlock(b, managed)
  {
    hide SplitLines, OpenFrom, WithNewBlock;
  }

  // ---------------------------------------------------------------- surrounding whitespace

  /** The block opening at the first bare brace is closed before the text ends. */
  predicate ClosedAt(lines: Lines, k: nat)
    requires k < |lines|
  {
    CloseFrom(lines[k..], 0) < |lines| - k
  }

  lemma OpenWithin(lines: Lines)
    ensures OpenFrom(lines, 0) <= |lines|
  {
  }

  lemma OpenStep(first: string, rest: Lines, depth: int)
    ensures OpenFrom([first] + rest, depth)
         == if depth == 0 && Strip(first) == "{" then 0 else 1 + OpenFrom(rest, Max0(depth + Net(first)))
  {
    hide Net, Strip;
    assert ([first] + rest)[1..] == rest;
  }

  lemma BlankLine(line: string)
    requires IsBlank(line)
    ensures Net(line) == 0 && Strip(line) == "" && Strip(line) != "{"
  {
    hide Net;
    NetStrip(line);
    EmptyNet();
  }

  lemma NonBlankLine(line: string)
    ensures Strip(LStrip(line)) == Strip(line) && Strip(RStrip(line)) == Strip(line)
    ensures Net(LStrip(line)) == Net(line) && Net(RStrip(line)) == Net(line)
  {
    hide *;
    StripOfLStrip(line);
    StripOfRStrip(line);
    NetOfStripEqual(LStrip(line), line);
    NetOfStripEqual(RStrip(line), line);
  }

  lemma TrimStartBlank(first: string, rest: Lines)
    ensures IsBlank(first) ==> TrimStart([first] + rest) == TrimStart(rest)
    ensures !IsBlank(first) ==> TrimStart([first] + rest) == [LStrip(first)] + rest
  {
    hide IsBlank, LStrip;
    assert ([first] + rest)[1..] == rest;
  }

  lemma {:induction false} OpenTrimStart(lines: Lines, managed: Lines)
    ensures var next, k, j := TrimStart(lines), OpenFrom(lines, 0), OpenFrom(TrimStart(lines), 0);
            && (k == |lines| <==> j == |next|)
            && (k < |lines| && ClosedAt(lines, k) ==>
                 j < |next| && ClosedAt(next, j) && TrimStart(Replaced(lines, k, managed)) ==
                     Replaced(next, j, managed))
  {
    hide *;
    if lines == [] {
      NothingToTrim();
    } else {
      var first, rest := lines[0], lines[1..];
      assert lines == [first] + rest;
      TrimStartBlank(first, rest);
      OpenStep(first, rest, 0);
      if IsBlank(first) {
        BlankLine(first);
        ZeroStays();
        OpenTrimStart(rest, managed);
        var j := OpenFrom(rest, 0);
        if j < |rest| {
          ReplacedTail(first, rest, j, managed);
          TrimStartBlank(first, Replaced(rest, j, managed));
        }
      } else {
        NonBlankLine(first);
        OpenStep(LStrip(first), rest, 0);
        var k := OpenFrom(lines, 0);
        if k < |lines| && ClosedAt(lines, k) {
          OpenIsBrace(lines);
          ReplacedHead(first, LStrip(first), rest, k, managed);
        }
      }
    }
  }

  lemma ZeroStays()
    ensures Max0(0) == 0
  {
  }

  lemma OpenIsBrace(lines: Lines)
    requires OpenFrom(lines, 0) < |lines|
    ensures Strip(lines[OpenFrom(lines, 0)]) == "{"
  {
    hide *;
    OpenKept(lines, 0, []);
  }

  lemma ReplacedTail(first: string, rest: Lines, j: nat, managed: Lines)
    requires j < |rest|
    ensures Replaced([first] + rest, j + 1, managed) == [first] + Replaced(rest, j, managed)
    ensures ClosedAt([first] + rest, j + 1) <==> ClosedAt(rest, j)
  {
    hide *;
    var lines := [first] + rest;
    var c := j + CloseOr(rest[j..], 0);
    Shifted(first, rest, j, c);
    Shifted(first, rest, j + 1, if j < c then c else j + 1);
    ReplacedIs(lines, j + 1, managed);
    ReplacedIs(rest, j, managed);
    ClosedIs(lines, j + 1);
    ClosedIs(rest, j);
    Prepended(first, rest[..j + 1], managed, Unmanaged(if j < c then rest[j + 1..c] else []), rest[c..]);
  }

  lemma Shifted(first: string, rest: Lines, i: nat, j: nat)
    requires i <= j <= |rest|
    ensures var lines := [first] + rest;
            && lines[i + 1..] == rest[i..] && lines[i + 1..j + 1] == rest[i..j] && lines[j + 1..] == rest[j..]
            && lines[..i + 1] == [first] + rest[..i]
  {
  }

  lemma Prepended(first: string, a: Lines, b: Lines, c: Lines, d: Lines)
    ensures [first] + a + b + c + d == [first] + (a + b + c + d)
  {
  }

  /** A closed block does not end on the line that opens it. */
  lemma CloseIgnoresHead(first: string, other: string, rest: Lines, k: nat)
    requires Net(other) == Net(first) && k <= |rest|
    requires Strip(([first] + rest)[k]) == "{" && ClosedAt([first] + rest, k)
    ensures ClosedAt([other] + rest, k)
    ensures CloseFrom(([first] + rest)[k..], 0) == CloseFrom(([other] + rest)[k..], 0)
    ensures k + CloseFrom(([first] + rest)[k..], 0) > 0
  {
    hide *;
    var lines, next := [first] + rest, [other] + rest;
    ClosedIs(lines, k);
    ClosedIs(next, k);
    if k == 0 {
      OpenBraceNet(first);
      CloseStep(first, rest, 0);
      CloseStep(other, rest, 0);
      assert lines[0..] == lines && next[0..] == next;
    } else {
      assert lines[k..] == next[k..];
    }
  }

  lemma ReplacedParts(first: string, rest: Lines, k: nat, c: nat, managed: Lines)
    requires k <= |rest| && 0 < c <= |rest|
    requires c == k + CloseOr(([first] + rest)[k..], 0)
    ensures Replaced([first] + rest, k, managed)
         == [first] + (rest[..k] + managed + Unmanaged(if k < c then rest[k..c - 1] else []) + rest[c - 1..])
  {
    hide *;
    var lines := [first] + rest;
    ReplacedIs(lines, k, managed);
    if k < c {
      assert lines[k + 1..c] == rest[k..c - 1];
    }
    assert lines[c..] == rest[c - 1..] && lines[..k + 1] == [first] + rest[..k];
    var body := Unmanaged(if k < c then rest[k..c - 1] else []);
    assert [first] + rest[..k] + managed + body + rest[c - 1..] ==
      [first] + (rest[..k] + managed + body + rest[c - 1..]);
  }

  lemma ReplacedHead(first: string, other: string, rest: Lines, k: nat, managed: Lines)
    requires Net(other) == Net(first) && k <= |rest|
    requires Strip(([first] + rest)[k]) == "{" && ClosedAt([first] + rest, k)
    requires !IsBlank(first) && other == LStrip(first)
    ensures ClosedAt([other] + rest, k)
    ensures TrimStart(Replaced([first] + rest, k, managed)) == Replaced([other] + rest, k, managed)
  {
    hide *;
    CloseIgnoresHead(first, other, rest, k);
    ClosedIs([first] + rest, k);
    CloseOrIs(([first] + rest)[k..], 0);
    CloseOrIs(([other] + rest)[k..], 0);
    var c := k + CloseOr(([first] + rest)[k..], 0);
    ReplacedParts(first, rest, k, c, managed);
    ReplacedParts(other, rest, k, c, managed);
    TrimStartBlank(first, rest[..k] + managed + Unmanaged(if k < c then rest[k..c - 1] else []) + rest[c - 1..]);
  }

  lemma ClosedIs(lines: Lines, k: nat)
    requires k < |lines|
    ensures ClosedAt(lines, k) <==> CloseFrom(lines[k..], 0) < |lines| - k
  {
  }

  lemma {:induction false} OpenLast(init: Lines, last: string, depth: int)
    ensures OpenFrom(init, depth) < |init| ==> OpenFrom(init + [last], depth) == OpenFrom(init, depth)
    ensures OpenFrom(init, depth) == |init| ==>
      OpenFrom(init + [last], depth) >= |init| && (Strip(last) != "{" ==> OpenFrom(init + [last], depth) == |init| + 1)
  {
    hide *;
    NoLinesLeft();
    OpenStep(last, [], depth);
    assert [last] + [] == [last];
    if init == [] {
      assert init + [last] == [last];
    } else {
      var first, rest := init[0], init[1..];
      assert init == [first] + rest && init + [last] == [first] + (rest + [last]);
      OpenStep(first, rest, depth);
      OpenStep(first, rest + [last], depth);
      OpenLast(rest, last, Max0(depth + Net(first)));
    }
  }

  lemma NoLinesLeft()
    ensures forall depth :: OpenFrom([], depth) == 0 && CloseFrom([], depth) == 0
  {
  }

  lemma {:induction false} OpenLastSame(init: Lines, last: string, other: string, depth: int)
    requires Strip(last) == Strip(other)
    ensures OpenFrom(init + [last], depth) == OpenFrom(init + [other], depth)
  {
    hide *;
    NoLinesLeft();
    NetOfStripEqual(last, other);
    if init == [] {
      assert init + [last] == [last] + [] && init + [other] == [other] + [];
      OpenStep(last, [], depth);
      OpenStep(other, [], depth);
    } else {
      var first, rest := init[0], init[1..];
      assert init + [last] == [first] + (rest + [last]) && init + [other] == [first] + (rest + [other]);
      OpenStep(first, rest + [last], depth);
      OpenStep(first, rest + [other], depth);
      OpenLastSame(rest, last, other, Max0(depth + Net(first)));
    }
  }

  lemma {:induction false} CloseLastSame(init: Lines, last: string, other: string, depth: int)
    requires Net(last) == Net(other)
    ensures CloseFrom(init + [last], depth) == CloseFrom(init + [other], depth)
  {
    hide *;
    if init == [] {
      assert init + [last] == [last] + [] && init + [other] == [other] + [];
      CloseStep(last, [], depth);
      CloseStep(other, [], depth);
    } else {
      var first, rest := init[0], init[1..];
      assert init + [last] == [first] + (rest + [last]) && init + [other] == [first] + (rest + [other]);
      CloseStep(first, rest + [last], depth);
      CloseStep(first, rest + [other], depth);
      CloseLastSame(rest, last, other, depth + Net(first));
    }
  }

  lemma {:induction false} CloseBeforeLast(init: Lines, last: string, depth: int)
    requires Net(last) == 0 && (init != [] || depth != 0)
    ensures CloseFrom(init + [last], depth) <= |init| ==>
        CloseFrom(init, depth) == CloseFrom(init + [last], depth) < |init|
  {
    hide *;
    NoLinesLeft();
    if init == [] {
      assert init + [last] == [last] + [];
      CloseStep(last, [], depth);
    } else {
      var first, rest := init[0], init[1..];
      assert init == [first] + rest && init + [last] == [first] + (rest + [last]);
      CloseStep(first, rest, depth);
      CloseStep(first, rest + [last], depth);
      if depth + Net(first) != 0 {
        CloseBeforeLast(rest, last, depth + Net(first));
      }
    }
  }

  lemma TrimEndLast(init: Lines, last: string)
    ensures IsBlank(last) ==> TrimEnd(init + [last]) == TrimEnd(init)
    ensures !IsBlank(last) ==> TrimEnd(init + [last]) == init + [RStrip(last)]
  {
    hide IsBlank, RStrip;
    assert (init + [last])[..|init|] == init;
  }

  lemma ReplacedLast(init: Lines, last: string, k: nat, c: nat, managed: Lines)
    requires k < |init| && c == k + CloseOr((init + [last])[k..], 0)
    ensures Replaced(init + [last], k, managed)
         == (init[..k + 1] + managed + Unmanaged(if k < c then init[k + 1..c] else []) + init[c..]) + [last]
  {
    hide *;
    var lines := init + [last];
    ReplacedIs(lines, k, managed);
    if k < c {
      assert lines[k + 1..c] == init[k + 1..c];
    }
    assert lines[c..] == init[c..] + [last] && lines[..k + 1] == init[..k + 1];
  }

  lemma {:induction false} OpenTrimEnd(lines: Lines, managed: Lines)
    requires OpenFrom(lines, 0) < |lines| ==> ClosedAt(lines, OpenFrom(lines, 0))
    ensures var next, k, j := TrimEnd(lines), OpenFrom(lines, 0), OpenFrom(TrimEnd(lines), 0);
            && (k == |lines| ==> j == |next|)
            && (k < |lines| ==>
              k == j < |next| && ClosedAt(next, j)
              && TrimEnd(Replaced(lines, k, managed)) == Replaced(next, j, managed))
  {
    hide *;
    NoLinesLeft();
    if lines == [] {
      NothingToTrim();
    } else {
      var init, last, k := lines[..|lines| - 1], lines[|lines| - 1], OpenFrom(lines, 0);
      assert lines == init + [last];
      TrimEndLast(init, last);
      OpenLast(init, last, 0);
      if k < |lines| {
        CloseOnLast(init, last, k);
      }
      if IsBlank(last) {
        BlankLine(last);
        if k < |init| {
          BlankLastReplaced(init, last, k, managed);
        }
        OpenTrimEnd(init, managed);
      } else {
        NonBlankLine(last);
        OpenLastSame(init, last, RStrip(last), 0);
        if k < |lines| {
          LastReplaced(init, last, k, managed);
        }
      }
    }
  }

  /** A closed block does not open on the last line. */
  lemma CloseOnLast(init: Lines, last: string, k: nat)
    requires k == OpenFrom(init + [last], 0) <= |init| && ClosedAt(init + [last], k)
    ensures k < |init|
  {
    hide *;
    var lines := init + [last];
    OpenIsBrace(lines);
    ClosedIs(lines, k);
    if k == |init| {
      OpenBraceNet(last);
      assert lines[k..] == [last] + [];
      CloseStep(last, [], 0);
    }
  }

  lemma BlankLastReplaced(init: Lines, last: string, k: nat, managed: Lines)
    requires k < |init| && Net(last) == 0 && IsBlank(last) && ClosedAt(init + [last], k)
    ensures ClosedAt(init, k)
    ensures TrimEnd(Replaced(init + [last], k, managed)) == TrimEnd(Replaced(init, k, managed))
  {
    hide *;
    var lines := init + [last];
    ClosedIs(lines, k);
    ClosedIs(init, k);
    assert lines[k..] == init[k..] + [last];
    CloseBeforeLast(init[k..], last, 0);
    CloseOrIs(lines[k..], 0);
    CloseOrIs(init[k..], 0);
    var c := k + CloseOr(lines[k..], 0);
    ReplacedLast(init, last, k, c, managed);
    ReplacedIs(init, k, managed);
    TrimEndLast(Replaced(init, k, managed), last);
  }

  lemma LastReplaced(init: Lines, last: string, k: nat, managed: Lines)
    requires k < |init| && !IsBlank(last) && Net(RStrip(last)) == Net(last) && ClosedAt(init + [last], k)
    ensures ClosedAt(init + [RStrip(last)], k)
    ensures TrimEnd(Replaced(init + [last], k, managed)) == Replaced(init + [RStrip(last)], k, managed)
  {
    hide *;
    var lines, next := init + [last], init + [RStrip(last)];
    ClosedIs(lines, k);
    ClosedIs(next, k);
    assert lines[k..] == init[k..] + [last] && next[k..] == init[k..] + [RStrip(last)];
    CloseLastSame(init[k..], last, RStrip(last), 0);
    CloseOrIs(lines[k..], 0);
    CloseOrIs(next[k..], 0);
    var c := k + CloseOr(lines[k..], 0);
    ReplacedLast(init, last, k, c, managed);
    ReplacedLast(init, RStrip(last), k, c, managed);
    TrimEndLast(init[..k + 1] + managed + Unmanaged(if k < c then init[k + 1..c] else []) + init[c..], last);
  }

  /** The text has no global block, or its global block is closed. */
  predicate BlockIsClosed(b: string) {
    var lines := SplitLines(b);
    var k := OpenFrom(lines, 0);
    k < |lines| ==> ClosedAt(lines, k)
  }

  lemma TrimLinesBlock(lines: Lines, managed: Lines)
    requires OpenFrom(lines, 0) < |lines| ==> ClosedAt(lines, OpenFrom(lines, 0))
    ensures var next, k, j := TrimLines(lines), OpenFrom(lines, 0), OpenFrom(TrimLines(lines), 0);
            && (k == |lines| <==> j == |next|)
            && (k < |lines| ==>
              ClosedAt(next, j) && TrimLines(Replaced(lines, k, managed)) == Replaced(next, j, managed))
  {
    hide *;
    OpenTrimStart(lines, managed);
    OpenTrimEnd(TrimStart(lines), managed);
    TrimLinesIs(lines);
    var k := OpenFrom(lines, 0);
    if k < |lines| {
      TrimLinesIs(Replaced(lines, k, managed));
    }
  }

  lemma {:induction false} JoinSplitEnded(b: string)
    ensures JoinLines(SplitLines(b + "\n")) == b && SplitLines(b + "\n") != []
  {
    hide *;
    var i := Find(b, '\n');
    NoText();
    if i == |b| {
      NoNewline(b);
      SplitLinesFront(b, "");
      assert b + "\n" + "" == b + "\n";
      JoinOne(b);
    } else {
      NewlineAt(b);
      var line, rest := b[..i], b[i + 1..];
      CutAt(b, i);
      JoinSplitEnded(rest);
      SplitLinesFront(line, rest + "\n");
      assert b + "\n" == line + "\n" + (rest + "\n");
      JoinCons(line, SplitLines(rest + "\n"));
    }
  }

  lemma NoText()
    ensures SplitLines("") == []
  {
  }

  lemma JoinOne(line: string)
    ensures JoinLines([line] + []) == line
  {
    assert [line] + [] == [line];
  }

  lemma NoNewline(b: string)
    requires Find(b, '\n') == |b|
    ensures OneLine(b)
  {
  }

  lemma NewlineAt(b: string)
    requires Find(b, '\n') < |b|
    ensures b[Find(b, '\n')] == '\n' && OneLine(b[..Find(b, '\n')])
  {
  }

  /** Stripping a text trims its lines. */
  lemma StrippedIs(b: string)
    ensures SplitLines(Strip(b)) == TrimLines(SplitLines(b))
  {
    hide *;
    if b == "" || b[|b| - 1] != '\n' {
      JoinSplit(b);
      SplitTrimmed(SplitLines(b));
    } else {
      var front := b[..|b| - 1];
      assert b == front + "\n" == "" + front + "\n";
      JoinSplitEnded(front);
      NewlineIsSpace();
      StripPadded("", front, "\n");
      SplitTrimmed(SplitLines(b));
    }
  }

  lemma NewlineIsSpace()
    ensures AllSpace("") && AllSpace("\n")
  {
  }

  /** White space around a text is not seen by the rewrite, as long as its global block is closed. */
  lemma InjectStripped(b: string, managed: Lines)
    requires BlockIsClosed(b) && managed != []
    ensures InjectManaged(b, managed) == InjectManaged(Strip(b), managed)
    ensures OpenFrom(SplitLines(b), 0) == |SplitLines(b)| <==>
        OpenFrom(SplitLines(Strip(b)), 0) == |SplitLines(Strip(b))|
  {
    hide *;
    var lines, next := SplitLines(b), SplitLines(Strip(b));
    BlockIsClosedIs(b);
    StrippedIs(b);
    TrimLinesBlock(lines, managed);
    StripIdempotent(b);
    if OpenFrom(lines, 0) == |lines| {
      InjectNewBlock(b, managed);
      InjectNewBlock(Strip(b), managed);
      NewBlockStripped(b, managed);
    } else {
      InjectIntoBlock(b, managed);
      InjectIntoBlock(Strip(b), managed);
      var replaced := Replaced(lines, OpenFrom(lines, 0), managed);
      StripJoin(replaced);
      StripIdempotent(JoinLines(replaced));
    }
  }

  lemma BlockIsClosedIs(b: string)
    ensures BlockIsClosed(b) <==> (OpenFrom(SplitLines(b), 0) < |SplitLines(b)| ==>
        ClosedAt(SplitLines(b), OpenFrom(SplitLines(b), 0)))
  {
    hide OpenFrom, SplitLines, ClosedAt;
  }

  lemma NewBlockStripped(b: string, managed: Lines)
    ensures WithNewBlock(b, managed) == WithNewBlock(Strip(b), managed)
  {
    StripIdempotent(b);
    hide Strip, JoinLines;
  }

  lemma SecondIsCleanIs(b: string)
    ensures SecondIsClean(b) <==>
      (OpenFrom(SplitLines(b), 0) < |SplitLines(b)| ==> SecondScanIsClean(SplitLines(b), OpenFrom(SplitLines(b), 0)))
  {
    hide OpenFrom, SplitLines, SecondScanIsClean;
  }

  // ---------------------------------------------------------------- the last write wins

  lemma TwiceStripped(b: string, first: Lines, second: Lines)
    requires Strip(b) == b && AreOptions(first) && AreOptions(second)
    ensures InjectManaged(InjectManaged(b, first), second) == InjectManaged(b, second) <==> SecondIsClean(b)
  {
    hide *;
    SecondIsCleanIs(b);
    if OpenFrom(SplitLines(b), 0) == |SplitLines(b)| {
      TwiceWithoutBlock(b, first, second);
    } else {
      TwiceInBlock(b, first, second);
    }
  }

  /** Settings values that take part in the rewrite: at least one, each on one line and free of braces. */
  predicate AreSettings(admin: string, email: string) {
    (admin != "" || email != "") && NoBraces(admin) && OneLine(admin) && NoBraces(email) && OneLine(email)
  }

  lemma SettingsAreOptions(admin: string, email: string)
    requires AreSettings(admin, email)
    ensures AreOptions(ManagedLines(admin, email)) && ManagedLines(admin, email) != []
  {
    hide AreOptions, ManagedLines, NoBraces, OneLine;
    OptionsOfSettings(admin, email);
    OptionsWellFormed(ManagedLines(admin, email));
  }

  lemma InjectIs(b: string, admin: string, email: string)
    ensures Inject(b, admin, email) == InjectManaged(b, ManagedLines(admin, email))
  {
    hide InjectManaged, ManagedLines;
  }

  /**
   The last write wins: two rewrites in a row give what the second alone gives, exactly when the
   scan for the closing brace over the kept lines meets no managed line. The text is stripped, as
   stored baselines are, or its global block is closed or absent.
   */
  lemma LastWriteWins(b: string, admin1: string, email1: string, admin2: string, email2: string)
    requires AreSettings(admin1, email1) && AreSettings(admin2, email2)
    requires Strip(b) == b || BlockIsClosed(b)
    ensures Inject(Inject(b, admin1, email1), admin2, email2) == Inject(b, admin2, email2) <==> SecondIsClean(Strip(b))
  {
    hide *;
    SettingsAreOptions(admin1, email1);
    SettingsAreOptions(admin2, email2);
    var first, second := ManagedLines(admin1, email1), ManagedLines(admin2, email2);
    InjectIs(b, admin1, email1);
    InjectIs(b, admin2, email2);
    InjectIs(InjectManaged(b, first), admin2, email2);
    StripIdempotent(b);
    TwiceStripped(Strip(b), first, second);
    if Strip(b) != b {
      InjectStripped(b, first);
      InjectStripped(b, second);
    }
  }

  /** Removed lines of net zero braces are enough. */
  lemma LastWriteWinsForNetZero(b: string, admin1: string, email1: string, admin2: string, email2: string)
    requires AreSettings(admin1, email1) && AreSettings(admin2, email2)
    requires Strip(b) == b || BlockIsClosed(b)
    requires var lines := SplitLines(Strip(b));
             OpenFrom(lines, 0) < |lines| ==> RemovesNetZero(lines, OpenFrom(lines, 0))
    ensures Inject(Inject(b, admin1, email1), admin2, email2) == Inject(b, admin2, email2)
  {
    hide *;
    var lines := SplitLines(Strip(b));
    SecondIsCleanIs(Strip(b));
    if OpenFrom(lines, 0) < |lines| {
      OpenIsBrace(lines);
      NetZeroIsClean(lines, OpenFrom(lines, 0));
    }
    LastWriteWins(b, admin1, email1, admin2, email2);
  }
}
