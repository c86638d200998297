/**
 What the directive builder guarantees (app/utils/caddyfile.py): the built text splits into the
 managed blocks followed by the custom chunks, the upstream is read back from it, and storing it
 does not unwrap it.
 */
module Preparation {
  import opened Text
  import opened Wrappers
  import opened Directives
  import P = Parser

  // ---------------------------------------------------------------- words

  predicate IsWord(w: string) {
    w != "" && forall k :: 0 <= k < |w| ==> !IsSpace(w[k])
  }

  predicate CharsFrom(s: string, source: string) {
    forall k :: 0 <= k < |s| ==> s[k] in source
  }

  ghost predicate AreWords(words: seq<string>, source: string) {
    forall k :: 0 <= k < |words| ==> IsWord(words[k]) && CharsFrom(words[k], source)
  }

  lemma {:induction false} WordsAreWords(s: string)
    ensures AreWords(Words(s), s)
    decreases |s|
  {
    if s == "" {
    } else if IsSpace(s[0]) {
      WordsAreWords(s[1..]);
      WiderSource(Words(s[1..]), s[1..], s);
    } else {
      FirstWordLength(s);
      var w := P.FirstWord(s);
      WordsAreWords(s[|w|..]);
      WiderSource(Words(s[|w|..]), s[|w|..], s);
      assert CharsFrom(w, s);
    }
  }

  lemma WiderSource(words: seq<string>, small: string, large: string)
    requires AreWords(words, small) && CharsFrom(small, large)
    ensures AreWords(words, large)
  {
    forall k | 0 <= k < |words| ensures CharsFrom(words[k], large) {
      forall j | 0 <= j < |words[k]| ensures words[k][j] in large {
        assert words[k][j] in small;
      }
    }
    hide IsWord;
  }

  lemma {:induction false} JoinSpacesEnds(words: seq<string>, source: string)
    requires AreWords(words, source)
    ensures var j := JoinSpaces(words);
            && (words != [] ==> j != "" && !IsSpace(j[0]) && !IsSpace(j[|j| - 1]))
            && forall k :: 0 <= k < |j| ==> j[k] == ' ' || (j[k] in source && !IsSpace(j[k]))
  {
    if words != [] {
      assert IsWord(words[0]) && CharsFrom(words[0], source);
      if |words| > 1 {
        JoinSpacesEnds(words[1..], source);
      }
    }
  }

  lemma InlineEnds(raw: string, name: string)
    ensures var j := NormalizeInline(raw, name);
            && (j != "" ==> !IsSpace(j[0]) && !IsSpace(j[|j| - 1]))
            && OneLine(j)
            && (NoBraces(raw) ==> NoBraces(j))
  {
    hide Strip, Words, JoinSpaces, AreWords;
    var n := Strip(raw);
    var args := if name + " " <= n then Strip(n[|name| + 1..]) else n;
    StripChars(raw);
    if name + " " <= n {
      StripChars(n[|name| + 1..]);
    }
    assert CharsFrom(args, raw);
    WordsAreWords(args);
    WiderSource(Words(args), args, raw);
    JoinSpacesEnds(Words(args), raw);
    JoinNothing();
  }

  lemma JoinNothing()
    ensures JoinSpaces([]) == ""
  {
  }

  lemma StripChars(s: string)
    ensures CharsFrom(Strip(s), s)
  {
    var b, a := StripParts(s);
    var t := Strip(s);
    forall k | 0 <= k < |t| ensures t[k] in s {
      assert s[|b| + k] == t[k];
    }
  }

  lemma WordOfWord(w: string)
    requires IsWord(w)
    ensures Words(w) == [w] && P.FirstWord(w) == w
  {
    FirstWordOfWord(w, "");
    assert w + "" == w && w[|w|..] == "";
  }

  lemma {:induction false} FirstWordOfWord(w: string, rest: string)
    requires IsWord(w) && (rest == "" || IsSpace(rest[0]))
    ensures P.FirstWord(w + rest) == w
  {
    assert (w + rest)[1..] == w[1..] + rest;
    if |w| > 1 {
      FirstWordOfWord(w[1..], rest);
    } else {
      assert w[1..] + rest == rest;
    }
  }

  // ---------------------------------------------------------------- what can be built from

  predicate IsGoodBody(body: string) {
    IsBody(body) && (body != "" ==> Balanced(body, 0))
  }

  predicate IsToken(s: string) {
    IsTokenText(s) && Strip(s) == s
  }

  /** Normalized fields that passed validation. */
  predicate IsBuildable(n: Fields) {
    && IsToken(n.upstream)
    && IsGoodBody(n.proxyOptions) && IsGoodBody(n.header) && IsGoodBody(n.requestBody)
    && IsGoodBody(n.log) && IsGoodBody(n.tls) && IsGoodBody(n.basicAuth)
    && (n.encode != "" ==> IsHeader("encode " + n.encode))
    && Strip(n.custom) == n.custom
  }

  lemma WordPrefixIsHeader(word: string, rest: string)
    requires word != "" && !IsSpace(word[0]) && OneLine(word) && NoBraces(word)
    requires rest != "" && !IsSpace(rest[|rest| - 1]) && OneLine(rest) && NoBraces(rest)
    ensures IsHeader(word + rest)
  {
    StripTrimmed(word + rest);
  }

  lemma ProxyHeader(upstream: string)
    requires IsToken(upstream) && upstream != ""
    ensures IsHeader("reverse_proxy " + upstream) && IsWord(upstream)
  {
    hide Strip;
    WordPrefixIsHeader("reverse_proxy ", upstream);
  }

  lemma PlainWordIsHeader(w: string)
    requires w != "" && forall k :: 0 <= k < |w| ==> w[k] == '_' || 'a' <= w[k] <= 'z'
    ensures IsHeader(w)
  {
    StripTrimmed(w);
    hide Strip;
  }

  lemma NamesAreHeaders()
    ensures IsHeader("basic_auth") && IsHeader("header") && IsHeader("request_body") && IsHeader("log")
        && IsHeader("tls")
  {
    hide IsHeader, Strip;
    PlainWordIsHeader("basic_auth");
    PlainWordIsHeader("header");
    PlainWordIsHeader("request_body");
    PlainWordIsHeader("log");
    PlainWordIsHeader("tls");
  }

  lemma BlockIfChunks(header: string, body: string)
    requires IsHeader(header) && IsGoodBody(body)
    ensures AreChunks(BlockIf(header, body))
  {
    hide Strip, IsOneChunk, IsHeader, IsBody, Balanced;
    if body != "" {
      BlockIsOneChunk(header, body);
      BlockTextStripped(header, body);
    }
  }

  lemma LineChunk(line: string)
    requires IsHeader(line)
    ensures AreChunks([line])
  {
    hide Strip, IsOneChunk;
    LineIsOneChunk(line);
  }

  lemma ChunksAppend(a: seq<string>, b: seq<string>)
    requires AreChunks(a) && AreChunks(b)
    ensures AreChunks(a + b)
  {
    hide Strip, IsOneChunk;
  }

  function ProxyBlocks(n: Fields): seq<string> {
    if n.upstream == "" then []
    else if n.proxyOptions == "" then ["reverse_proxy " + n.upstream]
    else [BlockText("reverse_proxy " + n.upstream, n.proxyOptions)]
  }

  function EncodeBlocks(n: Fields): seq<string> {
    if n.encode == "" then [] else ["encode " + n.encode]
  }

  lemma ManagedParts(n: Fields)
    ensures ManagedBlocks(n) == BlockIf("basic_auth", n.basicAuth) + ProxyBlocks(n) + EncodeBlocks(n)
                                + BlockIf("header", n.header) + BlockIf("request_body", n.requestBody)
                                + BlockIf("log", n.log) + BlockIf("tls", n.tls)
  {
    hide BlockIf, BlockText;
  }

  lemma ProxyChunks(n: Fields)
    requires IsBuildable(n)
    ensures AreChunks(ProxyBlocks(n)) && AreChunks(EncodeBlocks(n))
  {
    hide Strip, IsOneChunk, IsHeader, IsBody, Balanced, AreChunks;
    NoChunks();
    if n.upstream != "" {
      ProxyHeader(n.upstream);
      BlockIfChunks("reverse_proxy " + n.upstream, n.proxyOptions);
      LineChunk("reverse_proxy " + n.upstream);
    }
    if n.encode != "" {
      LineChunk("encode " + n.encode);
    }
  }

  lemma NoChunks()
    ensures AreChunks([])
  {
  }

  lemma ManagedBlocksAreChunks(n: Fields)
    requires IsBuildable(n)
    ensures AreChunks(ManagedBlocks(n))
  {
    NamesAreHeaders();
    hide IsHeader, IsBody, Balanced, AreChunks, ManagedBlocks, BlockIf, ProxyBlocks, EncodeBlocks, IsToken;
    ManagedParts(n);
    ProxyChunks(n);
    BlockIfChunks("basic_auth", n.basicAuth);
    BlockIfChunks("header", n.header);
    BlockIfChunks("request_body", n.requestBody);
    BlockIfChunks("log", n.log);
    BlockIfChunks("tls", n.tls);
    var a := BlockIf("basic_auth", n.basicAuth) + ProxyBlocks(n);
    ChunksAppend(BlockIf("basic_auth", n.basicAuth), ProxyBlocks(n));
    ChunksAppend(a, EncodeBlocks(n));
    ChunksAppend(a + EncodeBlocks(n), BlockIf("header", n.header));
    ChunksAppend(a + EncodeBlocks(n) + BlockIf("header", n.header), BlockIf("request_body", n.requestBody));
    ChunksAppend(a + EncodeBlocks(n) + BlockIf("header", n.header) + BlockIf("request_body", n.requestBody),
      BlockIf("log", n.log));
    ChunksAppend(a + EncodeBlocks(n) + BlockIf("header", n.header) + BlockIf("request_body", n.requestBody)
      + BlockIf("log", n.log),
                 BlockIf("tls", n.tls));
  }

  // ---------------------------------------------------------------- from validation to building

  /** The fields `prepare` validates. */
  function Validated(f: Fields): Fields {
    NormalizeFields(f, TextOr(NormalizeToken(f.upstream)))
  }

  /** The fields the text is built from: the builder normalizes the validated fields once more. */
  function Final(f: Fields): Fields {
    NormalizeFields(Validated(f), Validated(f).upstream)
  }

  function CustomPart(n: Fields): seq<string> {
    if n.custom == "" then [] else [n.custom]
  }

  lemma TokenFixed(value: string)
    ensures var t := TextOr(NormalizeToken(value));
            IsToken(t) && NormalizeToken(t) == Some(t)
  {
    StripIdempotent(value);
    StripNothing();
    hide Strip;
  }

  lemma TokenKept(f: Fields)
    ensures IsToken(Validated(f).upstream)
    ensures NormalizeToken(Validated(f).upstream) == Some(Validated(f).upstream)
  {
    TokenFixed(f.upstream);
    hide NormalizeToken, NormalizeBody, NormalizeInline, Normalize, IsToken;
  }

  lemma BuiltText(f: Fields)
    ensures Prepare(f).directives == JoinParagraphs(ManagedBlocks(Final(f)) + CustomPart(Final(f)))
  {
    hide NormalizeToken, NormalizeFields, ManagedBlocks, JoinParagraphs, FieldErrors, ExtractUpstream;
    TokenKept(f);
  }

  lemma BodyAccepted(name: string, raw: string)
    requires BodyErrors(name, NormalizeBody(raw)) == []
    ensures IsGoodBody(NormalizeBody(raw)) && NormalizeBody(NormalizeBody(raw)) == NormalizeBody(raw)
  {
    NormalizeBodyIsBody(raw);
    NormalizeBodyFixed(NormalizeBody(raw));
    hide NormalizeBody, Balanced, Strip, HasWrapper;
  }

  lemma NormalizeStripped(raw: string)
    ensures Strip(TextOr(Normalize(raw))) == TextOr(Normalize(raw))
  {
    StripNothing();
    hide Strip, SplitHeader, SplitTopLevel;
    var n := Strip(raw);
    StripIdempotent(raw);
    if n != "" && '{' in n {
      var chunks := SplitTopLevel(n);
      if chunks.Some? && |chunks.value| == 1 {
        var body := SplitHeader(chunks.value[0]).body;
        if body.Some? {
          StripIdempotent(body.value);
        }
      }
    }
  }

  predicate NoFieldErrors(n: Fields) {
    && BodyErrors("reverse_proxy", n.proxyOptions) == []
    && BodyErrors("header", n.header) == []
    && BodyErrors("request_body", n.requestBody) == []
    && BodyErrors("log", n.log) == []
    && BodyErrors("tls", n.tls) == []
    && BodyErrors("basic_auth", n.basicAuth) == []
    && NoBraces(n.encode)
    && (n.custom != "" ==> Balanced(n.custom, 0))
  }

  lemma NoErrors(f: Fields, n: Fields)
    requires FieldErrors(f, n) == []
    ensures NoFieldErrors(n)
  {
    hide BodyErrors, CustomErrors, Balanced, NormalizeToken;
  }

  lemma EncodeAccepted(f: Fields)
    requires NoBraces(Validated(f).encode)
    ensures Final(f).encode != "" ==> IsHeader("encode " + Final(f).encode)
  {
    hide NormalizeInline, NormalizeBody, Normalize, NormalizeToken, Strip;
    var e := Validated(f).encode;
    InlineEnds(e, "encode");
    if NormalizeInline(e, "encode") != "" {
      WordPrefixIsHeader("encode ", NormalizeInline(e, "encode"));
    }
  }

  /** Fields without errors build from blocks that stay together. */
  lemma AcceptedIsBuildable(f: Fields)
    requires Prepare(f).errors == []
    ensures IsBuildable(Final(f))
  {
    NoErrors(f, Validated(f));
    hide NormalizeBody, Normalize, NormalizeToken, NormalizeInline, IsGoodBody, IsHeader, IsToken, FieldErrors,
      BodyErrors, Balanced, Strip, Build,
      ExtractUpstream;
    TokenKept(f);
    EncodeAccepted(f);
    BodyAccepted("reverse_proxy", f.proxyOptions);
    BodyAccepted("header", f.header);
    BodyAccepted("request_body", f.requestBody);
    BodyAccepted("log", f.log);
    BodyAccepted("tls", f.tls);
    BodyAccepted("basic_auth", f.basicAuth);
    NormalizeStripped(Validated(f).custom);
  }

  lemma JoinOfCustom(n: Fields)
    ensures JoinParagraphs(CustomPart(n)) == n.custom
  {
  }

  /** The built text splits into one chunk per managed block, in order, then the custom chunks. */
  lemma BuiltSplitsIntoBlocks(f: Fields)
    requires Prepare(f).errors == []
    ensures SplitTopLevel(Prepare(f).directives) == PrependAll(ManagedBlocks(Final(f)), SplitTopLevel(Final(f).custom))
  {
    hide *;
    AcceptedIsBuildable(f);
    ManagedBlocksAreChunks(Final(f));
    BuiltText(f);
    JoinOfCustom(Final(f));
    CustomPartSize(Final(f));
    SplitParagraphs(ManagedBlocks(Final(f)), CustomPart(Final(f)));
  }

  lemma CustomPartSize(n: Fields)
    ensures |CustomPart(n)| <= 1
  {
  }

  // ---------------------------------------------------------------- reading a block's header back

  lemma RightStrippedConcat(a: Lines, b: Lines)
    requires RightStripped(a) && RightStripped(b)
    ensures RightStripped(a + b)
  {
    hide RStrip;
  }

  lemma RightStrippedOne(line: string)
    requires RStrip(line) == line
    ensures RightStripped([line])
  {
    hide RStrip;
  }

  lemma BlockLinesFixed(header: string, body: string)
    requires IsHeader(header) && IsBody(body)
    ensures RStripEach(BlockLines(header, body)) == BlockLines(header, body)
  {
    hide *;
    HeaderLine(header);
    OpeningNet();
    BodyFacts(body);
    BlockLinesAre(header, body);
    RightStrippedOne(header + " {");
    RightStrippedOne("}");
    RightStrippedConcat(SplitLines(body), ["}"]);
    RightStrippedConcat([header + " {"], SplitLines(body) + ["}"]);
    RStripEachFixed(BlockLines(header, body));
  }

  lemma ClosingLine()
    ensures IsClosingBraceLine("}")
  {
    hide Strip;
    OpeningNet();
    StripNothing();
    assert "}"[1..] == "";
  }

  lemma HeaderFromLines(chunk: string, lines: Lines)
    requires lines == RStripEach(SplitLines(Strip(chunk))) && |lines| >= 2
    requires EndsWith(Strip(lines[0]), '{') && IsClosingBraceLine(lines[|lines| - 1])
    ensures var first := Strip(lines[0]);
            SplitHeader(chunk) == HeaderAndBody(RStrip(first[..|first| - 1]),
              Some(NormalizeBody(JoinLines(lines[1..|lines| - 1]))))
  {
    hide Strip, RStrip, LStrip, SplitLines, NormalizeBody, JoinLines, IsClosingBraceLine, RStripEach, SplitInline;
  }

  /** The header of a managed block is what the builder wrote before the brace. */
  lemma HeaderOfBlock(header: string, body: string)
    requires IsHeader(header) && body != "" && IsBody(body)
    ensures SplitHeader(BlockText(header, body)) == HeaderAndBody(header, Some(body))
  {
    hide *;
    BlockTextStripped(header, body);
    HeaderFacts(header);
    BodyFacts(body);
    SplitBlockText(header, body);
    BlockLinesFixed(header, body);
    BlockLinesAre(header, body);
    HeaderLine(header);
    ClosingLine();
    StripHeaderSpace(header);
    var lines, first := BlockLines(header, body), header + " {";
    assert lines[0] == first && lines[|lines| - 1] == "}" && |lines| >= 2;
    OpensWithBrace(first);
    HeaderFromLines(BlockText(header, body), lines);
    assert first[..|first| - 1] == header + " ";
    assert lines[1..|lines| - 1] == SplitLines(body);
    StrippedNoNewlineEnd(body);
    JoinSplit(body);
    NormalizeBodyFixed(body);
  }

  lemma OpensWithBrace(line: string)
    requires line != "" && line[|line| - 1] == '{'
    ensures EndsWith(line, '{')
  {
  }

  lemma StripHeaderSpace(header: string)
    requires IsHeader(header)
    ensures RStrip(header + " ") == header
  {
    StrippedEnds(header);
    RStripSuffix(header, " ");
    RStripTrimmed(header);
    hide RStrip;
  }

  lemma HeaderOfLine(line: string)
    requires IsHeader(line)
    ensures SplitHeader(line) == HeaderAndBody(line, None)
  {
    hide Strip, RStrip, LStrip, SplitLines, NormalizeBody;
    SplitOneLine(line);
    StrippedEnds(line);
    RStripTrimmed(line);
    assert RStripEach([line]) == [line];
    assert Find(line, '{') == |line|;
  }

  lemma ProxyFound(chunk: string, upstream: string, rest: seq<string>)
    requires IsWord(upstream) && SplitHeader(chunk).header == "reverse_proxy " + upstream
    ensures FirstProxy([chunk] + rest) == Some(upstream)
  {
    hide SplitHeader, Words, IsWord;
    WordOfWord(upstream);
    var header := "reverse_proxy " + upstream;
    assert "reverse_proxy " <= header && header[14..] == upstream;
  }

  lemma ProxyChunkFound(n: Fields, rest: seq<string>)
    requires IsBuildable(n) && n.upstream != ""
    ensures FirstProxy(ProxyBlocks(n) + rest) == Some(n.upstream)
  {
    hide FirstProxy, IsHeader, IsWord, IsBody, SplitHeader, BlockText, Balanced;
    var header := "reverse_proxy " + n.upstream;
    ProxyHeader(n.upstream);
    if n.proxyOptions == "" {
      HeaderOfLine(header);
      ProxyFound(header, n.upstream, rest);
    } else {
      HeaderOfBlock(header, n.proxyOptions);
      ProxyFound(BlockText(header, n.proxyOptions), n.upstream, rest);
    }
  }

  lemma SkipChunk(chunk: string, rest: seq<string>)
    requires !("reverse_proxy " <= SplitHeader(chunk).header)
    ensures FirstProxy([chunk] + rest) == FirstProxy(rest)
  {
    hide SplitHeader, Words;
    assert ([chunk] + rest)[1..] == rest;
  }

  lemma AuthBlock(n: Fields)
    requires IsBuildable(n)
    ensures n.basicAuth == "" ==> BlockIf("basic_auth", n.basicAuth) == []
    ensures n.basicAuth != "" ==>
        BlockIf("basic_auth", n.basicAuth) == [BlockText("basic_auth", n.basicAuth)] && IsBody(n.basicAuth)
  {
    hide IsToken, IsBody, Balanced, IsHeader, Strip, BlockText;
  }

  lemma SkipAuthBlock(n: Fields, rest: seq<string>)
    requires IsBuildable(n)
    ensures FirstProxy(BlockIf("basic_auth", n.basicAuth) + rest) == FirstProxy(rest)
  {
    hide *;
    AuthBlock(n);
    NamesAreHeaders();
    if n.basicAuth == "" {
      assert [] + rest == rest;
    } else {
      HeaderOfBlock("basic_auth", n.basicAuth);
      NotProxy();
      SkipChunk(BlockText("basic_auth", n.basicAuth), rest);
    }
  }

  lemma NotProxy()
    ensures !("reverse_proxy " <= "basic_auth")
  {
  }

  /**
   A given upstream is read back from the built directives exactly when the custom part has no
   unmatched closing brace. The builder normalizes the custom part after it was validated, so the
   part that is built can differ from the part that was checked.
   */
  lemma UpstreamReadBack(f: Fields)
    requires Prepare(f).errors == [] && Validated(f).upstream != ""
    ensures Prepare(f).upstream == Some(Validated(f).upstream)
    ensures ExtractUpstream(Prepare(f).directives) == Some(Validated(f).upstream) <==>
        SplitTopLevel(Final(f).custom).Some?
  {
    hide *;
    PreparedUpstream(f);
    FinalUpstream(f);
    AcceptedIsBuildable(f);
    BuiltSplitsIntoBlocks(f);
    var n, directives := Final(f), Prepare(f).directives;
    if SplitTopLevel(n.custom).Some? {
      var tail := SplitTopLevel(n.custom).value;
      PrependAllSome(ManagedBlocks(n), tail);
      ExtractFromChunks(directives, ManagedBlocks(n) + tail);
      var later := EncodeBlocks(n) + BlockIf("header", n.header) + BlockIf("request_body", n.requestBody)
                   + BlockIf("log", n.log) + BlockIf("tls", n.tls);
      ManagedParts(n);
      assert ManagedBlocks(n) + tail == BlockIf("basic_auth", n.basicAuth) + (ProxyBlocks(n) + (later + tail));
      SkipAuthBlock(n, ProxyBlocks(n) + (later + tail));
      ProxyChunkFound(n, later + tail);
    } else {
      PrependAllNone(ManagedBlocks(n));
      ExtractFromNothing(directives);
    }
  }

  lemma PrependAllSome(chunks: seq<string>, tail: seq<string>)
    ensures PrependAll(chunks, Some(tail)) == Some(chunks + tail)
  {
  }

  lemma PrependAllNone(chunks: seq<string>)
    ensures PrependAll(chunks, None) == None
  {
  }

  lemma ExtractFromChunks(directives: string, chunks: seq<string>)
    requires SplitTopLevel(directives) == Some(chunks)
    ensures ExtractUpstream(directives) == FirstProxy(chunks)
  {
    hide SplitTopLevel, FirstProxy;
  }

  lemma ExtractFromNothing(directives: string)
    requires SplitTopLevel(directives) == None
    ensures ExtractUpstream(directives) == None
  {
    hide SplitTopLevel;
  }

  lemma PreparedUpstream(f: Fields)
    requires Validated(f).upstream != ""
    ensures Prepare(f).upstream == Some(Validated(f).upstream)
  {
    hide NormalizeFields, NormalizeToken, Build, FieldErrors, ExtractUpstream;
  }

  lemma FinalUpstream(f: Fields)
    ensures Final(f).upstream == Validated(f).upstream
  {
    hide NormalizeBody, NormalizeInline, Normalize, NormalizeToken;
  }

  /** When the custom part is not itself one wrapped block, the condition above always holds. */
  lemma UpstreamReadBackPlain(f: Fields)
    requires Prepare(f).errors == [] && Validated(f).upstream != ""
    requires Normalize(Validated(f).custom) == Some(Validated(f).custom) || Validated(f).custom == ""
    ensures ExtractUpstream(Prepare(f).directives) == Some(Validated(f).upstream)
  {
    CustomKept(f);
    NoErrors(f, Validated(f));
    UpstreamReadBack(f);
    hide Validated, Final, Prepare, SplitTopLevel, Balanced, ExtractUpstream;
    if Validated(f).custom == "" {
      NothingToSplit();
      JoinNoParagraphs();
    } else {
      BalancedSplits(Validated(f).custom);
    }
  }

  lemma JoinNoParagraphs()
    ensures JoinParagraphs([]) == ""
  {
  }

  lemma CustomKept(f: Fields)
    requires Normalize(Validated(f).custom) == Some(Validated(f).custom) || Validated(f).custom == ""
    ensures Final(f).custom == Validated(f).custom
  {
    StripNothing();
    hide NormalizeBody, NormalizeInline, NormalizeToken, SplitTopLevel, Strip, SplitHeader;
  }

  // ---------------------------------------------------------------- balanced text always splits

  lemma {:induction false} BalancedNeverNegative(s: string, depth: nat)
    requires Balanced(s, depth)
    ensures NeverNegative(SplitLines(s), depth)
  {
    hide Find, Net, Balanced;
    if s != "" {
      var i := Find(s, '\n');
      if i == |s| {
        BalancedWhole(s, depth);
        assert SplitLines(s) == [s];
        assert [s][1..] == [];
      } else {
        BalancedStep(s, depth, i);
        SplitAtNewline(s, i);
        BalancedNeverNegative(s[i + 1..], depth + Net(s[..i]));
      }
    }
  }

  lemma NetOfTrimmed(line: string)
    ensures Net(Strip(RStrip(line))) == Net(line)
    ensures Strip(RStrip(line)) == Strip(line)
    ensures Strip(line) == "" ==> Net(line) == 0
  {
    StripOfRStrip(line);
    NetStrip(line);
    EmptyNet();
    hide Strip, RStrip, Net;
  }

  lemma SplitStepSome(lines: Lines, depth: nat, current: Lines)
    requires lines != [] && depth + Net(lines[0]) >= 0
    requires var d, rest := depth + Net(lines[0]), lines[1..];
             && SplitFrom(rest, d, []).Some? && SplitFrom(rest, d, current + [""]).Some?
             && SplitFrom(rest, d, current + [RStrip(lines[0])]).Some?
    ensures SplitFrom(lines, depth, current).Some?
  {
    hide Strip, RStrip, Net, Chunk, EndsWith;
    NetOfTrimmed(lines[0]);
  }

  lemma {:induction false} NeverNegativeSplits(lines: Lines, depth: nat, current: Lines)
    requires NeverNegative(lines, depth)
    ensures SplitFrom(lines, depth, current).Some?
  {
    hide Net, Chunk, RStrip, Strip;
    if lines != [] {
      var d, rest := depth + Net(lines[0]), lines[1..];
      NeverNegativeSplits(rest, d, []);
      NeverNegativeSplits(rest, d, current + [""]);
      NeverNegativeSplits(rest, d, current + [RStrip(lines[0])]);
      SplitStepSome(lines, depth, current);
    }
  }

  lemma BalancedSplits(s: string)
    requires Balanced(s, 0)
    ensures SplitTopLevel(s).Some?
  {
    hide SplitLines, SplitFrom, Balanced, NeverNegative;
    BalancedNeverNegative(s, 0);
    NeverNegativeSplits(SplitLines(s), 0, []);
  }

  // ---------------------------------------------------------------- storing what was built

  lemma NormalizeOneChunk(text: string, parts: HeaderAndBody)
    requires text != "" && Strip(text) == text && '{' in text
    requires SplitTopLevel(text) == Some([text]) && parts == SplitHeader(text) && parts.body.Some?
    ensures P.RStripChar(P.FirstWord(parts.header), ',') in P.KEYWORDS ==> Normalize(text) == Some(text)
    ensures P.RStripChar(P.FirstWord(parts.header), ',') !in P.KEYWORDS ==>
              Normalize(text) == if Strip(parts.body.value) == "" then None else Some(Strip(parts.body.value))
  {
    hide SplitTopLevel, SplitHeader, Strip;
  }

  /** A text that is one block under a header that is no directive is unwrapped to its body. */
  lemma NormalizeUnwraps(header: string, body: string)
    requires IsHeader(header) && body != "" && IsBody(body) && Balanced(body, 0)
    requires P.RStripChar(P.FirstWord(header), ',') !in P.KEYWORDS
    ensures Normalize(BlockText(header, body)) == Some(body)
  {
    hide *;
    BlockTextStripped(header, body);
    BlockIsOneChunk(header, body);
    SplitLastChunk(BlockText(header, body));
    HeaderOfBlock(header, body);
    BodyFacts(body);
    HasOpeningBrace(header, body);
    NormalizeOneChunk(BlockText(header, body), HeaderAndBody(header, Some(body)));
  }

  lemma HasOpeningBrace(header: string, body: string)
    ensures '{' in BlockText(header, body)
  {
    var t := BlockText(header, body);
    assert t[|header| + 1] == '{';
  }

  predicate IsDirectiveChunk(chunk: string) {
    P.RStripChar(P.FirstWord(SplitHeader(chunk).header), ',') in P.KEYWORDS
  }

  ghost predicate AreDirectives(blocks: seq<string>) {
    forall k :: 0 <= k < |blocks| ==> IsDirectiveChunk(blocks[k])
  }

  lemma DirectivesAppend(a: seq<string>, b: seq<string>)
    requires AreDirectives(a) && AreDirectives(b)
    ensures AreDirectives(a + b)
  {
    hide IsDirectiveChunk;
  }

  lemma NoDirectives()
    ensures AreDirectives([])
  {
  }

  lemma OneDirective(chunk: string, word: string, rest: string)
    requires IsWord(word) && word[|word| - 1] != ',' && word in P.KEYWORDS
    requires rest == "" || IsSpace(rest[0])
    requires SplitHeader(chunk).header == word + rest
    ensures AreDirectives([chunk])
  {
    hide SplitHeader, IsSpace;
    FirstWordOfWord(word, rest);
    assert P.RStripChar(word, ',') == word;
  }

  lemma ManagedWords()
    ensures IsWord("basic_auth") && IsWord("reverse_proxy") && IsWord("encode") && IsWord("header")
    ensures IsWord("request_body") && IsWord("log") && IsWord("tls")
    ensures {"basic_auth", "reverse_proxy", "encode", "header", "request_body", "log", "tls"} <= P.KEYWORDS
  {
  }

  lemma BlockIfDirective(name: string, body: string)
    requires IsHeader(name) && IsWord(name) && name[|name| - 1] != ',' && name in P.KEYWORDS && IsGoodBody(body)
    ensures AreDirectives(BlockIf(name, body))
  {
    hide AreDirectives, IsWord, IsHeader, Balanced, IsBody, BlockText, SplitHeader;
    if body == "" {
      NoDirectives();
    } else {
      HeaderOfBlock(name, body);
      assert name + "" == name;
      OneDirective(BlockText(name, body), name, "");
    }
  }

  lemma LineDirectives(n: Fields)
    requires IsBuildable(n)
    ensures AreDirectives(ProxyBlocks(n)) && AreDirectives(EncodeBlocks(n))
  {
    hide AreDirectives, IsWord, IsHeader, Balanced, IsBody, BlockText, SplitHeader, Strip;
    ManagedWords();
    NoDirectives();
    if n.upstream != "" {
      var header := "reverse_proxy " + n.upstream;
      assert header == "reverse_proxy" + (" " + n.upstream);
      ProxyHeader(n.upstream);
      if n.proxyOptions == "" {
        HeaderOfLine(header);
        OneDirective(header, "reverse_proxy", " " + n.upstream);
      } else {
        HeaderOfBlock(header, n.proxyOptions);
        OneDirective(BlockText(header, n.proxyOptions), "reverse_proxy", " " + n.upstream);
      }
    }
    if n.encode != "" {
      var line := "encode " + n.encode;
      assert line == "encode" + (" " + n.encode);
      HeaderOfLine(line);
      OneDirective(line, "encode", " " + n.encode);
    }
  }

  lemma ManagedBlocksAreDirectives(n: Fields)
    requires IsBuildable(n)
    ensures AreDirectives(ManagedBlocks(n))
  {
    ManagedWords();
    NamesAreHeaders();
    hide IsHeader, IsWord, IsBody, Balanced, AreDirectives, ManagedBlocks, BlockIf, ProxyBlocks, EncodeBlocks, IsToken;
    ManagedParts(n);
    LineDirectives(n);
    BlockIfDirective("basic_auth", n.basicAuth);
    BlockIfDirective("header", n.header);
    BlockIfDirective("request_body", n.requestBody);
    BlockIfDirective("log", n.log);
    BlockIfDirective("tls", n.tls);
    var a := BlockIf("basic_auth", n.basicAuth) + ProxyBlocks(n);
    var b := a + EncodeBlocks(n) + BlockIf("header", n.header);
    var c := b + BlockIf("request_body", n.requestBody) + BlockIf("log", n.log);
    DirectivesAppend(BlockIf("basic_auth", n.basicAuth), ProxyBlocks(n));
    DirectivesAppend(a, EncodeBlocks(n));
    DirectivesAppend(a + EncodeBlocks(n), BlockIf("header", n.header));
    DirectivesAppend(b, BlockIf("request_body", n.requestBody));
    DirectivesAppend(b + BlockIf("request_body", n.requestBody), BlockIf("log", n.log));
    DirectivesAppend(c, BlockIf("tls", n.tls));
  }

  lemma {:induction false} JoinParagraphsStripped(blocks: seq<string>)
    requires blocks != []
    requires forall k :: 0 <= k < |blocks| ==> blocks[k] != "" && Strip(blocks[k]) == blocks[k]
    ensures var t := JoinParagraphs(blocks);
            t != "" && !IsSpace(t[0]) && !IsSpace(t[|t| - 1])
  {
    hide Strip, IsSpace;
    StrippedEnds(blocks[0]);
    if |blocks| > 1 {
      JoinParagraphsStripped(blocks[1..]);
    }
  }

  lemma NormalizeKeeps(text: string)
    requires text != "" && Strip(text) == text
    requires SplitTopLevel(text).Some? && |SplitTopLevel(text).value| == 1 ==>
        IsDirectiveChunk(SplitTopLevel(text).value[0])
    ensures Normalize(text) == Some(text)
  {
    hide SplitTopLevel, SplitHeader, Strip;
  }

  lemma BlocksStripped(n: Fields)
    requires IsBuildable(n) && AreChunks(ManagedBlocks(n))
    ensures var blocks := ManagedBlocks(n) + CustomPart(n);
            forall k :: 0 <= k < |blocks| ==> blocks[k] != "" && Strip(blocks[k]) == blocks[k]
  {
    hide ManagedBlocks, Strip, IsOneChunk, IsGoodBody, IsToken, IsHeader;
  }

  /**
   What `normalize_caddy_directives` stores is what was built, whenever the form contributed at
   least one managed block: the built text is never mistaken for a wrapped site block.
   */
  lemma StoredAsBuilt(f: Fields)
    requires Prepare(f).errors == [] && ManagedBlocks(Final(f)) != []
    ensures Normalize(Prepare(f).directives) == Some(Prepare(f).directives)
  {
    hide *;
    var n, text := Final(f), Prepare(f).directives;
    AcceptedIsBuildable(f);
    ManagedBlocksAreChunks(n);
    ManagedBlocksAreDirectives(n);
    BuiltText(f);
    BlocksStripped(n);
    JoinParagraphsStripped(ManagedBlocks(n) + CustomPart(n));
    StripTrimmed(text);
    BuiltSplitsIntoBlocks(f);
    if SplitTopLevel(n.custom).Some? {
      PrependAllSome(ManagedBlocks(n), SplitTopLevel(n.custom).value);
      FirstDirective(ManagedBlocks(n));
    } else {
      PrependAllNone(ManagedBlocks(n));
    }
    NormalizeKeeps(text);
  }

  lemma FirstDirective(blocks: seq<string>)
    requires AreDirectives(blocks) && blocks != []
    ensures IsDirectiveChunk(blocks[0])
  {
    hide IsDirectiveChunk;
  }

  /** Unwrapping is not idempotent: a block inside a block loses one wrapper on every pass. */
  lemma NormalizeTwice(outer: string, inner: string, body: string)
    requires IsHeader(outer) && IsHeader(inner) && body != "" && IsBody(body) && Balanced(body, 0)
    requires IsBody(BlockText(inner, body)) && Balanced(BlockText(inner, body), 0)
    requires P.RStripChar(P.FirstWord(outer), ',') !in P.KEYWORDS
        && P.RStripChar(P.FirstWord(inner), ',') !in P.KEYWORDS
    ensures Normalize(BlockText(outer, BlockText(inner, body))) == Some(BlockText(inner, body))
    ensures Normalize(BlockText(inner, body)) == Some(body)
    ensures body != BlockText(inner, body)
  {
    hide Normalize, IsHeader, IsBody, Balanced;
    NormalizeUnwraps(outer, BlockText(inner, body));
    NormalizeUnwraps(inner, body);
    assert |BlockText(inner, body)| > |body|;
  }
}
