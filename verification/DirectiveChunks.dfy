/**
 Where site directives are cut and how a chunk is read (app/utils/caddyfile.py:88-114, 154-188,
 225-254, 279-296), said by the pieces a text is made of.
 */
module DirectiveChunks {
  import opened Text
  import opened Wrappers
  import opened Directives
  import opened Preparation
  import P = Parser
  import U = Unwrapping

  // ---------------------------------------------------------------- comments and closing lines

  lemma SpacesLead(pad: string, c: char, rest: string)
    requires AllSpace(pad) && !IsSpace(c)
    ensures LStrip(pad + [c] + rest) == [c] + rest
    ensures Strip(pad + [c] + rest) != "" && Strip(pad + [c] + rest)[0] == c
    ensures Strip(Strip(pad + [c] + rest)[1..]) == Strip(rest)
  {
    var t := [c] + rest;
    assert pad + [c] + rest == pad + t;
    LStripPrefix(pad, t);
    LStripTrimmed(t);
    hide LStrip, RStrip;
    if AllSpace(rest) {
      RStripSuffix([c], rest);
      RStripTrimmed([c]);
      AllSpaceStrips(rest);
      assert [c][1..] == "";
      StripNothing();
    } else {
      RStripConcat([c], rest);
      assert ([c] + RStrip(rest))[1..] == RStrip(rest);
      StripOfRStrip(rest);
    }
  }

  lemma FirstAfterSpaces(s: string) returns (pad: string, rest: string)
    requires Strip(s) != ""
    ensures AllSpace(pad) && !IsSpace(Strip(s)[0]) && s == pad + [Strip(s)[0]] + rest
  {
    var after: string;
    pad, after := StripParts(s);
    rest := Strip(s)[1..] + after;
    hide Strip, AllSpace, IsSpace;
    assert Strip(s) == [Strip(s)[0]] + Strip(s)[1..];
  }

  /** White space only, or white space before a comment sign. */
  ghost predicate IsSilent(s: string) {
    AllSpace(s) || exists pad: string, rest: string :: AllSpace(pad) && s == pad + "#" + rest
  }

  lemma SilentIs(s: string)
    ensures IsCommentOrEmpty(s) <==> IsSilent(s)
  {
    hide Strip, AllSpace;
    BlankIsAllSpace(s);
    if IsCommentOrEmpty(s) && Strip(s) != "" {
      var pad, rest := FirstAfterSpaces(s);
    }
    forall pad: string, rest: string | AllSpace(pad) && s == pad + "#" + rest ensures IsCommentOrEmpty(s) {
      SpacesLead(pad, '#', rest);
      assert pad + ['#'] + rest == pad + "#" + rest;
    }
  }

  /** A line closes a block exactly if it is white space, a closing brace and nothing but a comment. */
  lemma ClosingLineIs(line: string)
    ensures IsClosingBraceLine(line) <==>
        exists pad: string, rest: string :: AllSpace(pad) && line == pad + "}" + rest && IsSilent(rest)
  {
    hide Strip, AllSpace, IsCommentOrEmpty, IsSilent;
    if IsClosingBraceLine(line) {
      var pad, rest := FirstAfterSpaces(line);
      SpacesLead(pad, '}', rest);
      SilentOfStripped(rest, Strip(line)[1..]);
      SilentIs(rest);
      assert line == pad + "}" + rest;
    }
    forall pad: string, rest: string | AllSpace(pad) && line == pad + "}" + rest && IsSilent(rest)
      ensures IsClosingBraceLine(line)
    {
      SpacesLead(pad, '}', rest);
      assert pad + ['}'] + rest == pad + "}" + rest;
      SilentOfStripped(rest, Strip(line)[1..]);
      SilentIs(rest);
    }
  }

  lemma SilentOfStripped(a: string, b: string)
    requires Strip(a) == Strip(b)
    ensures IsCommentOrEmpty(a) <==> IsCommentOrEmpty(b)
  {
    hide Strip;
  }

  // ---------------------------------------------------------------- a chunk of one line

  lemma FindFirst(head: string, c: char, tail: string)
    requires c !in head
    ensures Find(head + [c] + tail, c) == |head|
    ensures (head + [c] + tail)[..|head|] == head && (head + [c] + tail)[|head| + 1..] == tail
    ensures c in head + [c] + tail
  {
    FindInConcat(head, c, tail);
    assert (head + [c] + tail)[|head|] == c;
  }

  lemma {:induction false} AfterLastIs(body: string, c: char, tail: string)
    requires c !in tail
    ensures AfterLast(body + [c] + tail, c) == |body| + 1
  {
    var s := body + [c] + tail;
    if tail == "" {
      assert s[|s| - 1] == c;
    } else {
      var less := tail[..|tail| - 1];
      assert s[..|s| - 1] == body + [c] + less && s[|s| - 1] == tail[|tail| - 1];
      AfterLastIs(body, c, less);
    }
  }

  lemma {:induction false} NoLast(s: string, c: char)
    requires c !in s
    ensures AfterLast(s, c) == 0
  {
    if s != "" {
      NoLast(s[..|s| - 1], c);
    }
  }

  /** Header, body and what follows the last closing brace; text behind it that is no comment makes it a plain line. */
  lemma InlineIs(head: string, body: string, tail: string)
    requires '{' !in head && '}' !in tail
    ensures var first := head + "{" + body + "}" + tail;
            SplitInline(first) == if IsSilent(tail) then HeaderAndBody(Strip(head), Some(NormalizeBody(body)))
                                  else HeaderAndBody(first, None)
  {
    var first, remainder := head + "{" + body + "}" + tail, body + "}" + tail;
    assert first == head + ['{'] + remainder && remainder == body + ['}'] + tail;
    FindFirst(head, '{', remainder);
    AfterLastIs(body, '}', tail);
    SilentIs(tail);
    assert first[|head| + 1 + |body|] == '}';
    assert remainder[|body| + 1..] == tail && remainder[..|body|] == body;
    hide Strip, NormalizeBody, IsCommentOrEmpty, IsSilent, AfterLast, Find;
  }

  /** When all closing braces stand before the opening one, the body is empty. */
  lemma InlineClosedBefore(head: string, tail: string)
    requires '{' !in head && '}' in head && '}' !in tail
    ensures var first := head + "{" + tail;
            SplitInline(first) == if IsSilent(tail) then HeaderAndBody(Strip(head), Some(""))
                                  else HeaderAndBody(first, None)
  {
    var first := head + "{" + tail;
    assert first == head + ['{'] + tail;
    FindFirst(head, '{', tail);
    NoLast(tail, '}');
    SilentIs(tail);
    var k :| 0 <= k < |head| && head[k] == '}';
    assert first[k] == '}' && tail[0..] == tail;
    EmptyBody();
    hide Strip, NormalizeBody, IsCommentOrEmpty, IsSilent, AfterLast, Find;
  }

  lemma EmptyBody()
    ensures NormalizeBody("") == ""
  {
    StripNothing();
    hide Strip;
    assert SplitLines("") == [] && RStripEach([]) == [];
    assert JoinLines([]) == "";
  }

  lemma InlinePlain(first: string)
    requires '{' !in first || '}' !in first
    ensures SplitInline(first) == HeaderAndBody(first, None)
  {
    hide Strip, NormalizeBody, IsCommentOrEmpty, AfterLast;
  }

  lemma OneLineChunk(chunk: string)
    requires Strip(chunk) != "" && OneLine(Strip(chunk))
    ensures SplitHeader(chunk) == SplitInline(Strip(chunk))
  {
    SplitOneLine(Strip(chunk));
    StripIdempotent(chunk);
    var b, a := StripParts(chunk);
    RStripTrimmed(Strip(chunk));
    hide Strip, SplitLines, RStrip, SplitInline, NormalizeBody;
    assert RStripEach([Strip(chunk)]) == [Strip(chunk)];
  }

  lemma EmptyChunk(chunk: string)
    requires AllSpace(chunk)
    ensures SplitHeader(chunk) == HeaderAndBody("", None)
  {
    AllSpaceStrips(chunk);
    hide Strip;
    assert SplitLines("") == [] && RStripEach([]) == [];
  }

  // ---------------------------------------------------------------- a chunk of several lines

  /** Trimmed lines that are a chunk as `_split_top_level_directives` returns it. */
  predicate IsChunkOf(chunk: string, first: string, inner: Lines, last: string) {
    && WellFormed([first] + inner + [last]) && RightStripped([first] + inner + [last])
    && first != "" && last != "" && LStrip(first) == first
    && chunk == JoinLines([first] + inner + [last])
  }

  lemma {:induction false} JoinedEnds(lines: Lines)
    requires lines != [] && lines[0] != "" && lines[|lines| - 1] != ""
    ensures var t := JoinLines(lines); t != "" && t[0] == lines[0][0]
    ensures var t, last := JoinLines(lines), lines[|lines| - 1]; t[|t| - 1] == last[|last| - 1]
  {
    if |lines| > 1 {
      var rest := lines[1..];
      if |rest| > 1 {
        LastOfJoined(rest);
      }
    }
  }

  lemma {:induction false} LastOfJoined(lines: Lines)
    requires lines != [] && lines[|lines| - 1] != ""
    ensures var t, last := JoinLines(lines), lines[|lines| - 1]; t != "" && t[|t| - 1] == last[|last| - 1]
  {
    if |lines| > 1 {
      LastOfJoined(lines[1..]);
    }
  }

  lemma ChunkLines(chunk: string, first: string, inner: Lines, last: string)
    requires IsChunkOf(chunk, first, inner, last)
    ensures RStripEach(SplitLines(Strip(chunk))) == [first] + inner + [last]
    ensures Strip(first) == first
  {
    var lines := [first] + inner + [last];
    JoinedEnds(lines);
    RStripFact(last);
    assert lines[|lines| - 1] == last && lines[0] == first;
    LStripFact(first);
    StripTrimmed(chunk);
    SplitJoin(lines);
    RStripEachFixed(lines);
    hide RStrip, LStrip, SplitLines, JoinLines;
    assert Strip(first) == RStrip(LStrip(first));
  }

  lemma RStripFact(s: string)
    requires s != "" && RStrip(s) == s
    ensures !IsSpace(s[|s| - 1])
  {
  }

  lemma LStripFact(s: string)
    requires s != "" && LStrip(s) == s
    ensures !IsSpace(s[0])
  {
  }

  /** A first line that ends in an opening brace and a last line that closes: header and inner lines. */
  lemma BlockChunk(chunk: string, header: string, inner: Lines, last: string)
    requires IsChunkOf(chunk, header + "{", inner, last)
    requires exists pad: string, rest: string :: AllSpace(pad) && last == pad + "}" + rest && IsSilent(rest)
    ensures SplitHeader(chunk) == HeaderAndBody(RStrip(header), Some(NormalizeBody(JoinLines(inner))))
  {
    var lines := [header + "{"] + inner + [last];
    ChunkLines(chunk, header + "{", inner, last);
    ClosingLineIs(last);
    hide *;
    assert lines[0] == header + "{" && lines[|lines| - 1] == last && lines[1..|lines| - 1] == inner;
    OpensWithBrace(header + "{");
    HeaderFromLines(chunk, lines);
    assert (header + "{")[..|header + "{"| - 1] == header;
  }

  /** Any other chunk of several lines has its first line as header. */
  lemma PlainChunk(chunk: string, first: string, inner: Lines, last: string)
    requires IsChunkOf(chunk, first, inner, last)
    requires first[|first| - 1] != '{'
        || !exists pad: string, rest: string :: AllSpace(pad) && last == pad + "}" + rest && IsSilent(rest)
    ensures SplitHeader(chunk) == HeaderAndBody(first, Some(NormalizeBody(JoinLines(inner + [last]))))
  {
    var lines := [first] + inner + [last];
    ChunkLines(chunk, first, inner, last);
    ClosingLineIs(last);
    assert lines[0] == first && lines[|lines| - 1] == last && lines[1..] == inner + [last];
    hide Strip, RStrip, LStrip, SplitLines, NormalizeBody, JoinLines, IsClosingBraceLine, RStripEach, SplitInline,
      IsSilent, AllSpace, IsChunkOf;
  }

  // ---------------------------------------------------------------- bodies

  predicate AreBlank(lines: Lines) {
    forall k :: 0 <= k < |lines| ==> AllSpace(lines[k])
  }

  lemma {:induction false} BlankBefore(before: Lines, lines: Lines)
    requires AreBlank(before)
    ensures TrimStart(before + lines) == TrimStart(lines)
  {
    hide IsBlank, AllSpace, LStrip;
    if before == [] {
      assert before + lines == lines;
    } else {
      BlankIsAllSpace(before[0]);
      assert (before + lines)[1..] == before[1..] + lines;
      BlankBefore(before[1..], lines);
    }
  }

  lemma {:induction false} BlankBehind(lines: Lines, after: Lines)
    requires AreBlank(after)
    ensures TrimEnd(lines + after) == TrimEnd(lines)
  {
    hide IsBlank, AllSpace, RStrip;
    if after == [] {
      assert lines + after == lines;
    } else {
      var last := |after| - 1;
      BlankIsAllSpace(after[last]);
      assert (lines + after)[..|lines + after| - 1] == lines + after[..last];
      BlankBehind(lines, after[..last]);
    }
  }

  /**
   A block body is its lines from the first to the last that is not blank, without the white space
   at their ends and the indentation of the first.
   */
  lemma BodyLinesAre(before: Lines, first: string, inner: Lines, after: Lines)
    requires WellFormed(before + ([first] + inner) + after) && AreBlank(before) && AreBlank(after)
    requires !AllSpace(first) && (inner != [] ==> !AllSpace(inner[|inner| - 1]))
    ensures SplitLines(NormalizeBody(JoinLines(before + ([first] + inner) + after))) ==
        [Strip(first)] + RStripEach(inner)
  {
    hide *;
    var lines := before + ([first] + inner) + after;
    var result := [Strip(first)] + RStripEach(inner);
    SplitTrimmed(lines);
    TrimmedMiddle(before, first, inner, after);
    EachTrimmed(first, inner);
    TrimmedAgain(first, inner);
    ResultWellFormed(before, first, inner, after);
    SplitTrimmed(result);
    BodyOfLines(JoinLines(lines), result);
  }

  lemma BodyOfLines(raw: string, lines: Lines)
    requires RStripEach(SplitLines(Strip(raw))) == lines
    ensures NormalizeBody(raw) == Strip(JoinLines(lines))
  {
    hide Strip, JoinLines, RStripEach, SplitLines;
  }

  lemma ResultWellFormed(before: Lines, first: string, inner: Lines, after: Lines)
    requires WellFormed(before + ([first] + inner) + after)
    ensures WellFormed([Strip(first)] + RStripEach(inner))
  {
    var lines := before + ([first] + inner) + after;
    assert lines[|before|] == first;
    StripChars(first);
    forall k | 0 <= k < |inner| ensures OneLine(RStrip(inner[k])) {
      assert lines[|before| + 1 + k] == inner[k];
      RStripSpaces(inner[k]);
    }
    forall k | 0 <= k < |Strip(first)| ensures Strip(first)[k] != '\n' {
      assert Strip(first)[k] in first;
    }
    hide Strip, RStrip;
  }

  /** The lines without the blank ones at both ends, the first without its indentation. */
  function Middle(first: string, inner: Lines): Lines {
    if inner == [] then [Strip(first)]
    else [LStrip(first)] + inner[..|inner| - 1] + [RStrip(inner[|inner| - 1])]
  }

  lemma TrimmedMiddle(before: Lines, first: string, inner: Lines, after: Lines)
    requires AreBlank(before) && AreBlank(after) && !AllSpace(first)
    requires inner != [] ==> !AllSpace(inner[|inner| - 1])
    ensures TrimLines(before + ([first] + inner) + after) == Middle(first, inner)
  {
    hide *;
    var mid, led := [first] + inner, [LStrip(first)] + inner;
    BlankIsAllSpace(first);
    assert before + mid + after == before + (mid + after);
    BlankBefore(before, mid + after);
    TrimStartStep(first, inner + after);
    assert mid + after == [first] + (inner + after);
    assert [LStrip(first)] + (inner + after) == led + after;
    BlankBehind(led, after);
    TrimmedBoth(before + mid + after);
    TrimmedLed(first, inner);
  }

  lemma TrimmedBoth(lines: Lines)
    ensures TrimLines(lines) == TrimEnd(TrimStart(lines))
  {
  }

  lemma TrimmedLed(first: string, inner: Lines)
    requires !AllSpace(first) && (inner != [] ==> !AllSpace(inner[|inner| - 1]))
    ensures TrimEnd([LStrip(first)] + inner) == Middle(first, inner)
  {
    hide *;
    var led := [LStrip(first)] + inner;
    BlankIsAllSpace(first);
    NotBlankLed(first);
    MiddleIs(first, inner);
    if inner == [] {
      assert led[..0] == [] && [] + [RStrip(LStrip(first))] == [RStrip(LStrip(first))];
      TrimEndStep(led);
    } else {
      var last := |inner| - 1;
      BlankIsAllSpace(inner[last]);
      assert led[|led| - 1] == inner[last] && led[..|led| - 1] == [LStrip(first)] + inner[..last];
      TrimEndStep(led);
    }
  }

  lemma MiddleIs(first: string, inner: Lines)
    ensures inner == [] ==> Middle(first, inner) == [Strip(first)]
    ensures inner != [] ==>
        Middle(first, inner) == [LStrip(first)] + inner[..|inner| - 1] + [RStrip(inner[|inner| - 1])]
  {
  }

  lemma NotBlankLed(first: string)
    requires !IsBlank(first)
    ensures !IsBlank(LStrip(first)) && RStrip(LStrip(first)) == Strip(first)
  {
    StripOfLStrip(first);
  }

  lemma TrimStartStep(first: string, rest: Lines)
    requires !IsBlank(first)
    ensures TrimStart([first] + rest) == [LStrip(first)] + rest
  {
    assert ([first] + rest)[1..] == rest;
  }

  lemma TrimEndStep(lines: Lines)
    requires lines != [] && !IsBlank(lines[|lines| - 1])
    ensures TrimEnd(lines) == lines[..|lines| - 1] + [RStrip(lines[|lines| - 1])]
  {
  }

  lemma EachTrimmed(first: string, inner: Lines)
    ensures RStripEach(Middle(first, inner)) == [Strip(first)] + RStripEach(inner)
  {
    hide *;
    MiddleIs(first, inner);
    EachOfOne(Strip(first));
    StrippedOnce(first);
    if inner == [] {
      EachOfNone();
    } else {
      var last := |inner| - 1;
      NotBlankLedStrip(first);
      EachOfOne(LStrip(first));
      EachOfOne(RStrip(inner[last]));
      EachOfOne(inner[last]);
      RStripTwice(inner[last]);
      EachOfBoth([LStrip(first)] + inner[..last], [RStrip(inner[last])]);
      EachOfBoth([LStrip(first)], inner[..last]);
      EachOfBoth(inner[..last], [inner[last]]);
      assert inner[..last] + [inner[last]] == inner;
      assert [Strip(first)] + RStripEach(inner[..last]) + [RStrip(inner[last])] ==
          [Strip(first)] + (RStripEach(inner[..last]) + [RStrip(inner[last])]);
    }
  }

  lemma NotBlankLedStrip(first: string)
    ensures RStrip(LStrip(first)) == Strip(first)
  {
  }

  lemma EachOfOne(line: string)
    ensures RStripEach([line]) == [RStrip(line)]
  {
    hide RStrip;
  }

  lemma EachOfNone()
    ensures RStripEach([]) == []
  {
  }

  lemma EachOfBoth(a: Lines, b: Lines)
    ensures RStripEach(a + b) == RStripEach(a) + RStripEach(b)
  {
    hide RStrip;
  }

  lemma TrimmedAgain(first: string, inner: Lines)
    requires !AllSpace(first) && (inner != [] ==> !AllSpace(inner[|inner| - 1]))
    ensures TrimLines([Strip(first)] + RStripEach(inner)) == [Strip(first)] + RStripEach(inner)
  {
    hide *;
    var lines := [Strip(first)] + RStripEach(inner);
    BlankIsAllSpace(first);
    StrippedOnce(first);
    TrimStartStep(Strip(first), RStripEach(inner));
    TrimmedBoth(lines);
    LastOfEach(first, inner);
    TrimEndStep(lines);
    assert lines[..|lines| - 1] + [lines[|lines| - 1]] == lines;
  }

  lemma LastOfEach(first: string, inner: Lines)
    requires !AllSpace(first) && (inner != [] ==> !AllSpace(inner[|inner| - 1]))
    ensures var lines := [Strip(first)] + RStripEach(inner);
            !IsBlank(lines[|lines| - 1]) && RStrip(lines[|lines| - 1]) == lines[|lines| - 1]
  {
    BlankIsAllSpace(first);
    StrippedOnce(first);
    if inner == [] {
      StripIdempotent(first);
    } else {
      var last := |inner| - 1;
      BlankIsAllSpace(inner[last]);
      StripOfRStrip(inner[last]);
      RStripTwice(inner[last]);
    }
    hide RStrip, Strip, LStrip, AllSpace;
  }

  lemma StrippedOnce(s: string)
    ensures LStrip(Strip(s)) == Strip(s) && RStrip(Strip(s)) == Strip(s)
    ensures !IsBlank(s) ==> !IsBlank(Strip(s))
  {
    var b, a := StripParts(s);
    StripIdempotent(s);
    LStripTrimmed(Strip(s));
    RStripTrimmed(Strip(s));
  }

  lemma NoBodyLines(raw: string)
    requires AllSpace(raw)
    ensures NormalizeBody(raw) == ""
  {
    AllSpaceStrips(raw);
    AllSpaceStrips("");
    EmptyBody();
    hide Strip, JoinLines, RStripEach, SplitLines;
  }

  // ---------------------------------------------------------------- where the text is cut

  lemma {:induction false} CutsFrom(lines: Lines, depth: nat, current: Lines)
    ensures SplitFrom(lines, depth, current).Some? <==> NeverNegative(lines, depth)
  {
    hide Net, Chunk, RStrip, Strip;
    if lines != [] {
      var d, rest := depth + Net(lines[0]), lines[1..];
      NetOfTrimmed(lines[0]);
      if d >= 0 {
        CutsFrom(rest, d, []);
        CutsFrom(rest, d, current + [""]);
        CutsFrom(rest, d, current + [RStrip(lines[0])]);
      }
    }
  }

  /** A text is refused exactly if one of its lines closes more braces than are open. */
  lemma SplitsIff(directives: string)
    ensures SplitTopLevel(directives).Some? <==> NeverNegative(SplitLines(directives), 0)
  {
    hide SplitFrom, NeverNegative, SplitLines;
    CutsFrom(SplitLines(directives), 0, []);
  }

  /** After the first `k` lines of `piece` the chunk goes on: a brace is open, or the last line ends in one. */
  predicate GoesOn(piece: Lines, k: nat)
    requires 0 < k <= |piece|
  {
    NetLines(piece[..k]) > 0
    || (NetLines(piece[..k]) == 0 && EndsWith(Strip(piece[k - 1]), '{') && (k < |piece| ==> !AllSpace(piece[k])))
  }

  predicate StaysOpen(piece: Lines, to: nat)
    requires to <= |piece|
  {
    piece != [] && !AllSpace(piece[0]) && forall k :: 0 < k < to ==> GoesOn(piece, k)
  }

  lemma NetLinesTake(piece: Lines, k: nat)
    requires k < |piece|
    ensures NetLines(piece[..k + 1]) == NetLines(piece[..k]) + Net(piece[k])
  {
    assert piece[..k + 1] == piece[..k] + [piece[k]];
    NetLinesConcat(piece[..k], [piece[k]]);
    assert [piece[k]][1..] == [];
    hide Net;
  }

  lemma RStripEachTake(piece: Lines, k: nat)
    requires k < |piece|
    ensures RStripEach(piece[..k + 1]) == RStripEach(piece[..k]) + [RStrip(piece[k])]
  {
    hide RStrip;
  }

  lemma KeepLine(lines: Lines, depth: nat, current: Lines)
    requires lines != [] && !AllSpace(lines[0])
    requires depth + Net(lines[0]) > 0 || (depth + Net(lines[0]) == 0 && EndsWith(Strip(lines[0]), '{'))
    ensures SplitFrom(lines, depth, current) ==
        SplitFrom(lines[1..], depth + Net(lines[0]), current + [RStrip(lines[0])])
  {
    NetOfTrimmed(lines[0]);
    StripOfRStrip(lines[0]);
    BlankIsAllSpace(lines[0]);
    NetStrip(lines[0]);
    hide Strip, RStrip, Net, Chunk, Prepend, EndsWith;
  }

  lemma KeepBlank(lines: Lines, depth: nat, current: Lines)
    requires lines != [] && AllSpace(lines[0]) && depth > 0
    ensures SplitFrom(lines, depth, current) == SplitFrom(lines[1..], depth, current + [RStrip(lines[0])])
    ensures Net(lines[0]) == 0
  {
    NetOfTrimmed(lines[0]);
    StripOfRStrip(lines[0]);
    AllSpaceStrips(lines[0]);
    hide Strip, RStrip, Net, Chunk, Prepend, EndsWith;
  }

  lemma FlushLine(lines: Lines, depth: nat, current: Lines)
    requires lines != [] && !AllSpace(lines[0])
    requires depth + Net(lines[0]) == 0 && !EndsWith(Strip(lines[0]), '{')
    ensures SplitFrom(lines, depth, current) ==
        Prepend(Strip(JoinLines(current + [RStrip(lines[0])])), SplitFrom(lines[1..], 0, []))
  {
    NetOfTrimmed(lines[0]);
    StripOfRStrip(lines[0]);
    BlankIsAllSpace(lines[0]);
    NetStrip(lines[0]);
    hide Strip, RStrip, Net, Prepend, EndsWith, JoinLines;
  }

  lemma NetTakeNat(piece: Lines, k: nat)
    requires k <= |piece| && piece != [] && (k > 0 ==> GoesOn(piece, k))
    ensures NetLines(piece[..k]) >= 0
  {
    hide Net;
    assert piece[..0] == [];
  }

  /** As long as the chunk goes on, its lines are collected. */
  lemma {:induction false} Collected(piece: Lines, rest: Lines, k: nat)
    requires k <= |piece| && piece != [] && !AllSpace(piece[0])
    requires forall j :: 0 < j <= k ==> GoesOn(piece, j)
    ensures NetLines(piece[..k]) >= 0
    ensures SplitFrom(piece + rest, 0, []) == SplitFrom(piece[k..] + rest, NetLines(piece[..k]), RStripEach(piece[..k]))
  {
    hide *;
    NetTakeNat(piece, k);
    if k == 0 {
      assert piece[..0] == [] && piece[0..] == piece;
      NoNetLines();
      assert RStripEach([]) == [];
    } else {
      Collected(piece, rest, k - 1);
      var lines := piece[k - 1..] + rest;
      assert lines[0] == piece[k - 1] && lines[1..] == piece[k..] + rest;
      NetLinesTake(piece, k - 1);
      RStripEachTake(piece, k - 1);
      var depth := NetLines(piece[..k - 1]);
      GoesOnFacts(piece, k);
      if AllSpace(piece[k - 1]) {
        assert k > 1;
        GoesOnFacts(piece, k - 1);
        KeepBlank(lines, depth, RStripEach(piece[..k - 1]));
      } else {
        KeepLine(lines, depth, RStripEach(piece[..k - 1]));
      }
    }
  }

  lemma GoesOnFacts(piece: Lines, k: nat)
    requires 0 < k <= |piece| && GoesOn(piece, k)
    ensures NetLines(piece[..k]) > 0 || (NetLines(piece[..k]) == 0 && EndsWith(Strip(piece[k - 1]), '{'))
    ensures k < |piece| && AllSpace(piece[k]) ==> NetLines(piece[..k]) > 0
  {
    hide NetLines, EndsWith, Strip, AllSpace;
  }

  lemma ChunkNotEmpty(piece: Lines)
    requires piece != [] && !AllSpace(piece[0])
    ensures Strip(JoinLines(RStripEach(piece))) != ""
  {
    var lines := RStripEach(piece);
    var text := JoinLines(lines);
    RStripSpaces(piece[0]);
    StripOfRStrip(piece[0]);
    BlankIsAllSpace(piece[0]);
    BlankIsAllSpace(lines[0]);
    BlankIsAllSpace(text);
    hide Strip, RStrip;
    PrefixNotSpace(lines[0], text);
  }

  lemma PrefixNotSpace(a: string, b: string)
    requires a <= b && !AllSpace(a)
    ensures !AllSpace(b)
  {
    var k :| 0 <= k < |a| && !IsSpace(a[k]);
    assert !IsSpace(b[k]);
  }

  function Before(chunk: string, rest: Option<seq<string>>): Option<seq<string>> {
    if rest.None? then None else Some([chunk] + rest.value)
  }

  lemma PrependText(chunk: string, rest: Option<seq<string>>)
    requires chunk != ""
    ensures Prepend(chunk, rest) == Before(chunk, rest)
  {
  }

  /** The chunk goes on up to a line at depth zero that opens nothing: there it ends, whatever follows. */
  lemma PieceIsCut(piece: Lines, rest: Lines)
    requires StaysOpen(piece, |piece|) && NetLines(piece) == 0
    requires !AllSpace(piece[|piece| - 1]) && !EndsWith(Strip(piece[|piece| - 1]), '{')
    ensures SplitFrom(piece + rest, 0, []) == Before(Strip(JoinLines(RStripEach(piece))), SplitFrom(rest, 0, []))
  {
    var k := |piece| - 1;
    OpenFacts(piece, |piece|);
    hide *;
    Collected(piece, rest, k);
    var lines := piece[k..] + rest;
    assert lines[0] == piece[k] && lines[1..] == rest && piece[..k + 1] == piece;
    NetLinesTake(piece, k);
    RStripEachTake(piece, k);
    FlushLine(lines, NetLines(piece[..k]), RStripEach(piece[..k]));
    ChunkNotEmpty(piece);
    PrependText(Strip(JoinLines(RStripEach(piece))), SplitFrom(rest, 0, []));
  }

  lemma OpenFacts(piece: Lines, to: nat)
    requires to <= |piece| && StaysOpen(piece, to)
    ensures piece != [] && !AllSpace(piece[0]) && forall k :: 0 < k < to ==> GoesOn(piece, k)
  {
    hide GoesOn;
  }

  /** A chunk that is still open at the end of the text is kept as it is. */
  lemma OpenPieceIsKept(piece: Lines)
    requires StaysOpen(piece, |piece|) && piece != [] && GoesOn(piece, |piece|)
    ensures SplitFrom(piece, 0, []) == Some([Strip(JoinLines(RStripEach(piece)))])
  {
    OpenFacts(piece, |piece|);
    hide *;
    Collected(piece, [], |piece|);
    assert piece[..|piece|] == piece && piece[|piece|..] == [] && piece + [] == piece;
    ChunkNotEmpty(piece);
    assert RStripEach(piece) != [];
    LastChunk(NetLines(piece), RStripEach(piece));
  }

  lemma LastChunk(depth: nat, current: Lines)
    requires current != [] && Strip(JoinLines(current)) != ""
    ensures SplitFrom([], depth, current) == Some([Strip(JoinLines(current))])
  {
    hide Strip, JoinLines;
    assert [Strip(JoinLines(current))] + [] == [Strip(JoinLines(current))];
  }

  /** So is one that ends in an opening brace at depth zero, up to the blank line behind it. */
  lemma BlankLineCuts(piece: Lines, blank: string, rest: Lines)
    requires StaysOpen(piece, |piece|) && piece != [] && GoesOn(piece, |piece|) && NetLines(piece) == 0
    requires AllSpace(blank)
    ensures SplitFrom(piece + ([blank] + rest), 0, []) ==
        Before(Strip(JoinLines(RStripEach(piece))), SplitFrom(rest, 0, []))
  {
    OpenFacts(piece, |piece|);
    hide *;
    Collected(piece, [blank] + rest, |piece|);
    assert piece[..|piece|] == piece && piece[|piece|..] == [] && [] + ([blank] + rest) == [blank] + rest;
    ChunkNotEmpty(piece);
    assert RStripEach(piece) != [];
    FlushAtBlank(blank, rest, RStripEach(piece));
    PrependText(Strip(JoinLines(RStripEach(piece))), SplitFrom(rest, 0, []));
  }

  lemma FlushAtBlank(blank: string, rest: Lines, current: Lines)
    requires AllSpace(blank)
    ensures SplitFrom([blank] + rest, 0, current) ==
        if current == [] then SplitFrom(rest, 0, []) else Prepend(Strip(JoinLines(current)), SplitFrom(rest, 0, []))
  {
    StripOfRStrip(blank);
    AllSpaceStrips(blank);
    hide Strip, RStrip, Net, Prepend, EndsWith, JoinLines;
    assert ([blank] + rest)[0] == blank && ([blank] + rest)[1..] == rest;
  }

  lemma BlankLineSkipped(blank: string, rest: Lines)
    requires AllSpace(blank)
    ensures SplitFrom([blank] + rest, 0, []) == SplitFrom(rest, 0, [])
  {
    hide *;
    FlushAtBlank(blank, rest, []);
  }

  // ---------------------------------------------------------------- normalization

  lemma NormalizePlain(raw: string)
    requires '{' !in raw
    ensures Normalize(raw) == if AllSpace(raw) then None else Some(Strip(raw))
  {
    BlankIsAllSpace(raw);
    StripChars(raw);
    hide Strip, SplitTopLevel, SplitHeader;
    forall k | 0 <= k < |Strip(raw)| ensures Strip(raw)[k] != '{' {
      assert Strip(raw)[k] in raw;
    }
  }

  /** Text around several chunks or an unmatched closing brace is only trimmed. */
  lemma NormalizeSeveral(raw: string)
    requires !AllSpace(raw) && (SplitTopLevel(Strip(raw)).Some? ==> |SplitTopLevel(Strip(raw)).value| != 1)
    ensures Normalize(raw) == Some(Strip(raw))
  {
    BlankIsAllSpace(raw);
    hide Strip, SplitTopLevel, SplitHeader;
  }

  /** A single block is unwrapped unless its header begins with a directive, with or without commas. */
  lemma NormalizeOne(raw: string, chunk: string, header: string, body: Option<string>, word: string, commas: string)
    requires '{' in Strip(raw) && SplitTopLevel(Strip(raw)) == Some([chunk])
    requires SplitHeader(chunk) == HeaderAndBody(header, body)
    requires P.FirstWord(header) == word + commas && (word == "" || word[|word| - 1] != ',')
    requires forall k :: 0 <= k < |commas| ==> commas[k] == ','
    ensures Normalize(raw) ==
        if body.None? || word in P.KEYWORDS then Some(Strip(raw))
        else if AllSpace(body.value) then None else Some(Strip(body.value))
  {
    CommasTaken(word, commas);
    if body.Some? {
      BlankIsAllSpace(body.value);
    }
    hide Strip, SplitTopLevel, SplitHeader;
  }

  lemma {:induction false} CommasTaken(word: string, commas: string)
    requires word == "" || word[|word| - 1] != ','
    requires forall k :: 0 <= k < |commas| ==> commas[k] == ','
    ensures P.RStripChar(word + commas, ',') == word
  {
    if commas == "" {
      assert word + commas == word;
    } else {
      assert (word + commas)[..|word + commas| - 1] == word + commas[..|commas| - 1];
      CommasTaken(word, commas[..|commas| - 1]);
    }
  }

  // ---------------------------------------------------------------- words

  lemma {:induction false} NoWords(s: string)
    requires AllSpace(s)
    ensures Words(s) == []
  {
    if s != "" {
      NoWords(s[1..]);
    }
  }

  /** White space separates words, and nothing else does. */
  lemma {:induction false} WordsApart(a: string, c: char, b: string)
    requires IsSpace(c)
    ensures Words(a + [c] + b) == Words(a) + Words(b)
    decreases |a|
  {
    var s := a + [c] + b;
    if a == "" {
      assert s[0] == c && s[1..] == b && Words(a) == [];
    } else if IsSpace(a[0]) {
      assert s[1..] == a[1..] + [c] + b;
      WordsApart(a[1..], c, b);
    } else {
      var w := P.FirstWord(a);
      FirstWordLength(a);
      WordStops(a, c, b);
      assert s[..|w|] == w && s[|w|..] == a[|w|..] + [c] + b;
      WordsApart(a[|w|..], c, b);
      hide IsSpace, P.FirstWord;
      assert Words(s) == [w] + Words(s[|w|..]);
      assert Words(a) == [w] + Words(a[|w|..]);
    }
  }

  lemma {:induction false} WordStops(a: string, c: char, b: string)
    requires IsSpace(c)
    ensures P.FirstWord(a + [c] + b) == P.FirstWord(a)
  {
    var s := a + [c] + b;
    if a == "" {
      assert s[0] == c;
    } else {
      assert s[0] == a[0] && s[1..] == a[1..] + [c] + b;
      WordStops(a[1..], c, b);
    }
  }

  /** Words are joined with one space between them, and split into the same words again. */
  lemma {:induction false} SpacesBetween(a: seq<string>, b: seq<string>)
    ensures a != [] && b != [] ==> JoinSpaces(a + b) == JoinSpaces(a) + " " + JoinSpaces(b)
    ensures a == [] ==> JoinSpaces(a) == ""
    ensures |a| == 1 ==> JoinSpaces(a) == a[0]
  {
    if a != [] && b != [] {
      assert (a + b)[1..] == a[1..] + b;
      SpacesBetween(a[1..], b);
      if |a| == 1 {
        assert a[1..] + b == b;
      } else {
        assert a[0] + " " + (JoinSpaces(a[1..]) + " " + JoinSpaces(b)) ==
          (a[0] + " " + JoinSpaces(a[1..])) + " " + JoinSpaces(b);
      }
    }
  }

  lemma {:induction false} WordsOfJoined(words: seq<string>)
    requires forall k :: 0 <= k < |words| ==> IsWord(words[k])
    ensures Words(JoinSpaces(words)) == words
  {
    hide IsWord, Words, JoinSpaces;
    SpacesBetween(words, []);
    if words == [] {
      NoWords("");
    } else {
      WordOfWord(words[0]);
      SpacesBetween(words[..1], words[1..]);
      SpacesBetween(words[..1], []);
      assert words == words[..1] + words[1..];
      if |words| > 1 {
        WordsOfJoined(words[1..]);
        WordsApart(words[0], ' ', JoinSpaces(words[1..]));
        assert words[0] + [' '] + JoinSpaces(words[1..]) == words[0] + " " + JoinSpaces(words[1..]);
      } else {
        assert words == [words[0]];
      }
    }
  }

  // ---------------------------------------------------------------- reading the upstream

  ghost predicate IsProxy(chunk: string) {
    exists args: string :: SplitHeader(chunk).header == "reverse_proxy " + args
  }

  /** The upstream is the only argument of the first chunk whose header begins with `reverse_proxy `. */
  lemma {:induction false} FirstProxyAt(chunks: seq<string>, k: nat, args: string)
    requires k < |chunks| && SplitHeader(chunks[k]).header == "reverse_proxy " + args
    requires forall j :: 0 <= j < k ==> !IsProxy(chunks[j])
    ensures FirstProxy(chunks) == if |Words(args)| == 1 then Some(Words(args)[0]) else None
  {
    hide SplitHeader, Words;
    if k == 0 {
      assert SplitHeader(chunks[0]).header[14..] == args;
    } else {
      NotAProxy(chunks[0]);
      FirstProxyAt(chunks[1..], k - 1, args);
    }
  }

  lemma {:induction false} NoProxy(chunks: seq<string>)
    requires forall j :: 0 <= j < |chunks| ==> !IsProxy(chunks[j])
    ensures FirstProxy(chunks) == None
  {
    hide SplitHeader, Words;
    if chunks != [] {
      NotAProxy(chunks[0]);
      NoProxy(chunks[1..]);
    }
  }

  lemma NotAProxy(chunk: string)
    requires !IsProxy(chunk)
    ensures !("reverse_proxy " <= SplitHeader(chunk).header)
  {
    hide SplitHeader;
    PrefixGivesRest("reverse_proxy ", SplitHeader(chunk).header);
  }

  lemma PrefixGivesRest(a: string, b: string)
    ensures a <= b <==> exists rest: string :: b == a + rest
  {
    if a <= b {
      assert b == a + b[|a|..];
    }
  }
}
