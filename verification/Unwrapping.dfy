/**
 When `normalize_caddy_directives` leaves a text alone (app/utils/caddyfile.py). A block that it
 unwraps always gets shorter, so the guard of its last branch decides.
 */
module Unwrapping {
  import opened Text
  import opened Wrappers
  import opened Directives
  import opened Preparation
  import P = Parser

  /** The text is one block whose header is no directive. */
  predicate Unwraps(text: string) {
    && '{' in text
    && SplitTopLevel(text).Some? && |SplitTopLevel(text).value| == 1
    && UnwrapsChunk(SplitTopLevel(text).value[0])
  }

  predicate UnwrapsChunk(chunk: string) {
    SplitHeader(chunk).body.Some? && !IsDirectiveChunk(chunk)
  }

  // ---------------------------------------------------------------- lengths

  /** The characters of the lines with one newline each. */
  function Weight(lines: Lines): nat {
    if lines == [] then 0 else |lines[0]| + 1 + Weight(lines[1..])
  }

  lemma {:induction false} WeightConcat(a: Lines, b: Lines)
    ensures Weight(a + b) == Weight(a) + Weight(b)
  {
    if a == [] {
      assert a + b == b;
    } else {
      assert (a + b)[1..] == a[1..] + b;
      WeightConcat(a[1..], b);
    }
  }

  lemma WeightOne(line: string)
    ensures Weight([line]) == |line| + 1
  {
    assert [line][1..] == [];
  }

  lemma {:induction false} JoinWeight(lines: Lines)
    requires lines != []
    ensures |JoinLines(lines)| + 1 == Weight(lines)
  {
    if |lines| > 1 {
      JoinWeight(lines[1..]);
    }
  }

  lemma {:induction false} SplitWeight(s: string)
    ensures Weight(SplitLines(s)) <= |s| + 1
  {
    if s != "" {
      var i := Find(s, '\n');
      if i < |s| {
        SplitAtNewline(s, i);
        SplitWeight(s[i + 1..]);
        assert SplitLines(s)[1..] == SplitLines(s[i + 1..]);
      } else {
        assert SplitLines(s) == [s];
        WeightOne(s);
      }
    }
  }

  lemma StripLength(s: string)
    ensures |Strip(s)| <= |s|
  {
  }

  lemma {:induction false} RStripEachWeight(lines: Lines)
    ensures Weight(RStripEach(lines)) <= Weight(lines)
  {
    hide RStrip;
    if lines != [] {
      assert RStripEach(lines)[1..] == RStripEach(lines[1..]);
      RStripEachWeight(lines[1..]);
    }
  }

  /** Stripping a text and its lines and joining them again gives nothing longer. */
  lemma TrimmedWeight(s: string)
    ensures Weight(RStripEach(SplitLines(Strip(s)))) <= |s| + 1
    ensures RStripEach(SplitLines(Strip(s))) == [] || |JoinLines(RStripEach(SplitLines(Strip(s))))| <= |s|
  {
    hide *;
    var lines := RStripEach(SplitLines(Strip(s)));
    StripLength(s);
    SplitWeight(Strip(s));
    RStripEachWeight(SplitLines(Strip(s)));
    if lines != [] {
      JoinWeight(lines);
    }
  }

  lemma BodyLength(raw: string)
    ensures |NormalizeBody(raw)| <= |raw|
  {
    hide Strip, RStripEach, SplitLines;
    TrimmedWeight(raw);
    StripLength(JoinLines(RStripEach(SplitLines(Strip(raw)))));
  }

  lemma InlineLength(first: string)
    ensures var r := SplitInline(first); r.body.Some? ==> |r.body.value| < |first|
  {
    hide NormalizeBody, AfterLast, Strip;
    var i := Find(first, '{');
    if i < |first| {
      var remainder := first[i + 1..];
      var close := AfterLast(remainder, '}');
      BodyLength(if close == 0 then "" else remainder[..close - 1]);
    }
  }

  lemma InnerLength(lines: Lines, to: nat)
    requires 1 <= to <= |lines| && |lines| > 1
    ensures |JoinLines(lines[1..to])| + 2 <= Weight(lines)
  {
    hide JoinLines;
    assert lines == [lines[0]] + (lines[1..to] + lines[to..]);
    WeightConcat([lines[0]], lines[1..to] + lines[to..]);
    WeightConcat(lines[1..to], lines[to..]);
    WeightOne(lines[0]);
    if to > 1 {
      JoinWeight(lines[1..to]);
    } else {
      assert lines[1..to] == [] && lines[to..] == [lines[1]] + lines[2..];
      WeightConcat([lines[1]], lines[2..]);
      WeightOne(lines[1]);
      JoinNothing();
    }
  }

  lemma JoinNothing()
    ensures JoinLines([]) == ""
  {
  }

  /** The body of a chunk is shorter than the chunk. */
  lemma HeaderShortens(chunk: string)
    ensures var r := SplitHeader(chunk); r.body.Some? ==> |r.body.value| < |chunk|
  {
    hide *;
    var lines := RStripEach(SplitLines(Strip(chunk)));
    TrimmedWeight(chunk);
    HeaderIs(chunk, lines);
    if lines != [] {
      var last := |lines| - 1;
      StripLength(lines[0]);
      FirstWeight(lines);
      InlineLength(Strip(lines[0]));
      if last > 0 {
        InnerLength(lines, last);
        BodyLength(JoinLines(lines[1..last]));
        InnerLength(lines, |lines|);
        assert lines[1..|lines|] == lines[1..];
        BodyLength(JoinLines(lines[1..]));
      }
    }
  }

  lemma FirstWeight(lines: Lines)
    requires lines != []
    ensures |lines[0]| + 1 <= Weight(lines)
  {
  }

  lemma HeaderIs(chunk: string, lines: Lines)
    requires lines == RStripEach(SplitLines(Strip(chunk)))
    ensures var r := SplitHeader(chunk);
            if lines == [] then r.body.None?
            else if |lines| == 1 then r == SplitInline(Strip(lines[0]))
            else
              && r.body.Some?
              && (r.body.value == NormalizeBody(JoinLines(lines[1..|lines| - 1])) ||
                  r.body.value == NormalizeBody(JoinLines(lines[1..])))
  {
    hide Strip, RStripEach, SplitLines, SplitInline, NormalizeBody, JoinLines, IsClosingBraceLine;
  }

  // ---------------------------------------------------------------- chunks

  predicate Fit(chunks: Option<seq<string>>, weight: nat) {
    chunks.Some? ==> forall k :: 0 <= k < |chunks.value| ==> |chunks.value[k]| < weight
  }

  lemma PrependFits(chunk: string, rest: Option<seq<string>>, weight: nat)
    requires Fit(rest, weight) && (chunk != "" ==> |chunk| < weight)
    ensures Fit(Prepend(chunk, rest), weight)
  {
  }

  lemma FitMore(chunks: Option<seq<string>>, weight: nat, more: nat)
    requires Fit(chunks, weight) && weight <= more
    ensures Fit(chunks, more)
  {
  }

  lemma ChunkWeight(current: Lines)
    requires current != []
    ensures |Chunk(current)| < Weight(current)
  {
    JoinWeight(current);
    StripLength(JoinLines(current));
  }

  /** The collected lines with one more line, right-stripped. */
  lemma MoreWeight(current: Lines, lines: Lines, line: string)
    requires lines != [] && |line| <= |lines[0]|
    ensures Weight(current + [line]) + Weight(lines[1..]) <= Weight(current) + Weight(lines)
  {
    WeightConcat(current, [line]);
    WeightOne(line);
  }

  /** Every chunk fits in the lines it is taken from. */
  lemma {:induction false} ChunksFit(lines: Lines, depth: nat, current: Lines)
    ensures Fit(SplitFrom(lines, depth, current), Weight(current) + Weight(lines))
    decreases |lines|
  {
    hide Strip, RStrip, Net, Chunk, Weight, EndsWith, Prepend, Fit;
    var w := Weight(current) + Weight(lines);
    NoChunksFit(w);
    if current != [] {
      ChunkWeight(current);
    }
    if lines == [] {
      PrependFits(if current == [] then "" else Chunk(current), Some([]), w);
    } else {
      var line, rest := RStrip(lines[0]), lines[1..];
      RStripShortens(lines[0]);
      MoreWeight([], lines, line);
      assert [] + [line] == [line];
      MoreWeight(current, lines, line);
      MoreWeight(current, lines, "");
      ChunksFit(rest, 0, []);
      FitMore(SplitFrom(rest, 0, []), Weight([]) + Weight(rest), w);
      ChunkWeight(current + [line]);
      PrependFits(Chunk(current + [line]), SplitFrom(rest, 0, []), w);
      PrependFits(if current == [] then "" else Chunk(current), SplitFrom(rest, 0, []), w);
      ChunksFit(rest, depth, current + [""]);
      FitMore(SplitFrom(rest, depth, current + [""]), Weight(current + [""]) + Weight(rest), w);
      if depth + Net(Strip(line)) >= 0 {
        var d := depth + Net(Strip(line));
        ChunksFit(rest, d, current + [line]);
        FitMore(SplitFrom(rest, d, current + [line]), Weight(current + [line]) + Weight(rest), w);
      }
    }
  }

  lemma RStripShortens(s: string)
    ensures |RStrip(s)| <= |s|
  {
  }

  lemma NoChunksFit(weight: nat)
    ensures Fit(Some([]), weight) && Fit(None, weight) && Weight([]) == 0
  {
  }

  lemma OnlyChunkLength(text: string)
    requires SplitTopLevel(text).Some? && |SplitTopLevel(text).value| == 1
    ensures |SplitTopLevel(text).value[0]| <= |text|
  {
    hide SplitFrom, SplitLines, Weight;
    ChunksFit(SplitLines(text), 0, []);
    NoChunksFit(0);
    SplitWeight(text);
  }

  // ---------------------------------------------------------------- the fixed points

  lemma NormalizeIs(text: string)
    requires text != "" && Strip(text) == text
    ensures if Unwraps(text) then
              var body := Strip(SplitHeader(SplitTopLevel(text).value[0]).body.value);
              Normalize(text) == if body == "" then None else Some(body)
            else Normalize(text) == Some(text)
  {
    hide SplitTopLevel, SplitHeader, Strip;
  }

  /**
   A trimmed text is a fixed point of the normalization exactly if it is not one block under a
   header that is no directive.
   */
  lemma NormalizeKeeps(text: string)
    requires text != "" && Strip(text) == text
    ensures Normalize(text) == Some(text) <==> !Unwraps(text)
  {
    NormalizeIs(text);
    if Unwraps(text) {
      OnlyChunkLength(text);
      var chunk := SplitTopLevel(text).value[0];
      HeaderShortens(chunk);
      StripLength(SplitHeader(chunk).body.value);
      hide *;
    }
  }

  /** What normalization returns is trimmed and not empty. */
  lemma NormalizedIsTrimmed(raw: string)
    ensures Normalize(raw).Some? ==> Normalize(raw).value != "" && Strip(Normalize(raw).value) == Normalize(raw).value
  {
    hide SplitTopLevel, SplitHeader, Strip;
    StripIdempotent(raw);
    if Unwraps(Strip(raw)) {
      StripIdempotent(SplitHeader(SplitTopLevel(Strip(raw)).value[0]).body.value);
    }
  }

  // ---------------------------------------------------------------- blocks in blocks

  lemma {:induction false} BalancedAppend(a: string, b: string, depth: nat)
    requires Balanced(a, 0) && Balanced(b, depth)
    ensures Balanced(a + b, depth)
  {
    BalancedAppendFrom(a, b, 0, depth);
  }

  lemma {:induction false} BalancedAppendFrom(a: string, b: string, inner: nat, depth: nat)
    requires Balanced(a, inner) && Balanced(b, depth)
    ensures Balanced(a + b, inner + depth)
  {
    if a == "" {
      assert a + b == b;
    } else {
      assert (a + b)[1..] == a[1..] + b;
      BalancedAppendFrom(a[1..], b, inner + NetChar(a[0]), depth);
    }
  }

  lemma {:induction false} PlainIsBalanced(s: string)
    requires NoBraces(s)
    ensures Balanced(s, 0)
  {
    if s != "" {
      PlainIsBalanced(s[1..]);
    }
  }

  lemma OpeningIsBalanced(rest: string)
    requires Balanced(rest, 1)
    ensures Balanced(" {\n" + rest, 0)
  {
    var s := " {\n" + rest;
    assert s[1..] == "{\n" + rest && s[1..][1..] == "\n" + rest && s[1..][1..][1..] == rest;
  }

  lemma ClosingIsBalanced()
    ensures Balanced("\n}", 1)
  {
    var s := "\n}";
    assert s[1..] == "}" && s[1..][1..] == "";
  }

  lemma BlockIsBalanced(header: string, body: string)
    requires IsHeader(header) && Balanced(body, 0)
    ensures Balanced(BlockText(header, body), 0)
  {
    hide Balanced, Strip;
    PlainIsBalanced(header);
    ClosingIsBalanced();
    BalancedAppend(body, "\n}", 1);
    OpeningIsBalanced(body + "\n}");
    BalancedAppend(header, " {\n" + (body + "\n}"), 0);
    assert header + (" {\n" + (body + "\n}")) == BlockText(header, body);
  }

  lemma OpeningLineTrimmed(header: string)
    ensures RStrip(header + " {") == header + " {"
  {
    assert (header + " {")[|header + " {"| - 1] == '{';
    RStripTrimmed(header + " {");
  }

  lemma BlockIsBody(header: string, body: string)
    requires IsHeader(header) && body != "" && IsBody(body)
    ensures IsBody(BlockText(header, body))
  {
    hide *;
    BodyFacts(body);
    HeaderFacts(header);
    SplitBlockText(header, body);
    OpeningLineTrimmed(header);
    OpeningNet();
    BlockTextStripped(header, body);
    BlockLinesTrimmed(header, body);
    IsBodyFrom(BlockText(header, body));
  }

  lemma BlockLinesTrimmed(header: string, body: string)
    requires RightStripped(SplitLines(body)) && RStrip(header + " {") == header + " {" && RStrip("}") == "}"
    ensures RightStripped(BlockLines(header, body))
  {
    hide RStrip, SplitLines;
  }

  lemma IsBodyFrom(body: string)
    requires Strip(body) == body && RightStripped(SplitLines(body))
    ensures IsBody(body)
  {
  }

  lemma HeaderFacts(header: string)
    requires IsHeader(header)
    ensures OneLine(header) && NoBraces(header) && header != "" && Strip(header) == header
  {
  }

  predicate IsWrapper(header: string) {
    IsHeader(header) && P.RStripChar(P.FirstWord(header), ',') !in P.KEYWORDS
  }

  /** A block in a block in a block loses one wrapper on each of three normalizations. */
  lemma ThreeWrappers(outer: string, middle: string, inner: string, body: string)
    requires IsWrapper(outer) && IsWrapper(middle) && IsWrapper(inner) && body != "" && IsBody(body)
        && Balanced(body, 0)
    ensures var text := BlockText(middle, BlockText(inner, body));
            && Normalize(BlockText(outer, text)) == Some(text)
            && Normalize(text) == Some(BlockText(inner, body))
            && Normalize(BlockText(inner, body)) == Some(body)
            && BlockText(inner, body) != body
  {
    hide *;
    Wrapper(outer);
    Wrapper(middle);
    Wrapper(inner);
    NonEmptyBlock(inner, body);
    NonEmptyBlock(middle, BlockText(inner, body));
    BlockIsBody(inner, body);
    BlockIsBalanced(inner, body);
    BlockIsBody(middle, BlockText(inner, body));
    BlockIsBalanced(middle, BlockText(inner, body));
    NormalizeUnwraps(outer, BlockText(middle, BlockText(inner, body)));
    NormalizeTwice(middle, inner, body);
  }

  lemma Wrapper(header: string)
    requires IsWrapper(header)
    ensures IsHeader(header) && P.RStripChar(P.FirstWord(header), ',') !in P.KEYWORDS
  {
    hide IsHeader;
  }

  lemma NonEmptyBlock(header: string, body: string)
    ensures BlockText(header, body) != ""
  {
  }
}
