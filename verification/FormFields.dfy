/**
 What becomes of each field of the site form (app/utils/caddyfile.py:117-151, 191-222, 257-276,
 299-425): its place in the built text, how it is read back, and the errors it is refused with.
 */
module FormFields {
  import opened Text
  import opened Wrappers
  import opened Directives
  import opened Preparation
  import opened DirectiveChunks
  import D = Domains
  import P = Parser

  // ---------------------------------------------------------------- single fields

  /** A field is one token exactly if, trimmed, it holds no white space, brace or comment sign. */
  lemma TokenIs(value: string, before: string, token: string, after: string)
    requires value == before + token + after && AllSpace(before) && AllSpace(after)
    requires token == "" || (!IsSpace(token[0]) && !IsSpace(token[|token| - 1]))
    ensures var plain := forall k :: 0 <= k < |token| ==> token[k] !in " \t\n\r\U{0B}\U{0C}{}#";
            NormalizeToken(value) == if plain then Some(token) else None
  {
    StripPadded(before, token, after);
    StripTrimmed(token);
    forall c: char ensures c in " \t\n\r\U{0B}\U{0C}{}#" <==> IsSpace(c) || c == '{' || c == '}' || c == '#' {
      TokenCharIs(c);
    }
    hide Strip, IsSpace;
  }

  lemma TokenCharIs(c: char)
    ensures c in " \t\n\r\U{0B}\U{0C}{}#" <==> IsSpace(c) || c == '{' || c == '}' || c == '#'
  {
  }

  lemma {:induction false} WordsPadded(before: string, s: string, after: string)
    requires AllSpace(before) && AllSpace(after)
    ensures Words(before + s + after) == Words(s)
  {
    if before != "" {
      assert before + s + after == [] + [before[0]] + (before[1..] + s + after);
      WordsApart("", before[0], before[1..] + s + after);
      DirectiveChunks.NoWords("");
      WordsPadded(before[1..], s, after);
      hide Words;
      assert [] + Words(s) == Words(s);
    } else if after != "" {
      assert before + s + after == s + [after[0]] + after[1..];
      WordsApart(s, after[0], after[1..]);
      DirectiveChunks.NoWords(after[1..]);
      hide Words;
      assert Words(s) + [] == Words(s);
    } else {
      assert before + s + after == s;
    }
  }

  lemma WordsOfStripped(s: string)
    ensures Words(Strip(s)) == Words(s)
  {
    var before, after := StripParts(s);
    WordsPadded(before, Strip(s), after);
    hide *;
  }

  /** The words of the field with one space between them, a leading name and a space left out. */
  lemma InlineWithName(raw: string, name: string, args: string)
    requires Strip(raw) == name + " " + args
    ensures NormalizeInline(raw, name) == JoinSpaces(Words(args))
  {
    WordsOfStripped(args);
    hide Strip, Words, JoinSpaces;
    assert (name + " " + args)[|name| + 1..] == args;
  }

  lemma InlineWithoutName(raw: string, name: string)
    requires forall args: string :: Strip(raw) != name + " " + args
    ensures NormalizeInline(raw, name) == JoinSpaces(Words(raw))
  {
    WordsOfStripped(raw);
    PrefixGivesRest(name + " ", Strip(raw));
    hide Strip, Words, JoinSpaces;
  }

  lemma NoBraceAdded(raw: string, name: string)
    requires NoBraces(name)
    ensures NoBraces(NormalizeInline(raw, name)) <==> NoBraces(raw)
  {
    InlineEnds(raw, name);
    BracesOfStripped(raw);
    hide NormalizeInline, Strip;
    if NoBraces(NormalizeInline(raw, name)) {
      KeptInline(raw, name);
    }
  }

  lemma BracesOfStripped(raw: string)
    ensures NoBraces(Strip(raw)) ==> NoBraces(raw)
  {
    var before, after := StripParts(raw);
    hide Strip;
    assert raw == before + Strip(raw) + after;
    assert NoBraces(before) && NoBraces(after);
  }

  lemma KeptInline(raw: string, name: string)
    requires NoBraces(name) && NoBraces(NormalizeInline(raw, name))
    ensures NoBraces(raw)
  {
    BracesOfStripped(raw);
    hide Strip, Words, JoinSpaces, NoBraces;
    var n := Strip(raw);
    if name + " " <= n {
      var args := n[|name| + 1..];
      assert n == name + " " + args;
      InlineWithName(raw, name, args);
      JoinedKeepsBraces(args);
      NoBracesJoin(name, args);
    } else {
      PrefixGivesRest(name + " ", n);
      InlineWithoutName(raw, name);
      JoinedKeepsBraces(raw);
    }
  }

  lemma NoBracesJoin(name: string, args: string)
    requires NoBraces(name) && NoBraces(args)
    ensures NoBraces(name + " " + args)
  {
  }

  /** Splitting into words and joining them loses no brace. */
  lemma {:induction false} JoinedKeepsBraces(s: string)
    requires NoBraces(JoinSpaces(Words(s)))
    ensures NoBraces(s)
    decreases |s|
  {
    if s == "" {
    } else if IsSpace(s[0]) {
      JoinedKeepsBraces(s[1..]);
    } else {
      var w := P.FirstWord(s);
      FirstWordLength(s);
      var rest := s[|w|..];
      assert Words(s) == [w] + Words(rest) && s == w + rest;
      SpacesBetween([w], Words(rest));
      SpacesBetween([w], []);
      hide Words, JoinSpaces, IsSpace;
      if Words(rest) == [] {
        assert [w] + [] == [w];
        SpacesBetween([], []);
      } else {
        assert JoinSpaces(Words(s)) == w + " " + JoinSpaces(Words(rest));
        BracesOfParts(w, JoinSpaces(Words(rest)));
      }
      JoinedKeepsBraces(rest);
    }
  }

  lemma BracesOfParts(a: string, b: string)
    requires NoBraces(a + " " + b)
    ensures NoBraces(a) && NoBraces(b)
  {
    var s := a + " " + b;
    assert forall k :: 0 <= k < |a| ==> s[k] == a[k];
    assert forall k :: 0 <= k < |b| ==> s[|a| + 1 + k] == b[k];
  }

  // ---------------------------------------------------------------- the built text

  /** Blocks are joined with one blank line between them. */
  lemma {:induction false} BlankLinesBetween(a: seq<string>, b: seq<string>)
    ensures a != [] && b != [] ==> JoinParagraphs(a + b) == JoinParagraphs(a) + "\n\n" + JoinParagraphs(b)
    ensures a == [] ==> JoinParagraphs(a) == ""
    ensures |a| == 1 ==> JoinParagraphs(a) == a[0]
  {
    if a != [] && b != [] {
      assert (a + b)[1..] == a[1..] + b;
      BlankLinesBetween(a[1..], b);
      if |a| == 1 {
        assert a[1..] + b == b;
      } else {
        assert a[0] + "\n\n" + (JoinParagraphs(a[1..]) + "\n\n" + JoinParagraphs(b)) ==
            (a[0] + "\n\n" + JoinParagraphs(a[1..])) + "\n\n" + JoinParagraphs(b);
      }
    }
  }

  /** A block of the built text, if its field is not blank. */
  function Written(name: string, body: string): seq<string> {
    if body == "" then [] else [name + " {\n" + body + "\n}"]
  }

  function WrittenProxy(upstream: string, options: string): seq<string> {
    if upstream == "" then []
    else if options == "" then ["reverse_proxy " + upstream]
    else ["reverse_proxy " + upstream + " {\n" + options + "\n}"]
  }

  /** A line of the built text, if its arguments are not blank. */
  function WrittenLine(start: string, args: string): seq<string> {
    if args == "" then [] else [start + args]
  }

  /** The field an error speaks of, by the directive it stands for. */
  function BodyField(f: Fields, name: string): string {
    match name
    case "reverse_proxy" => f.proxyOptions
    case "header" => f.header
    case "request_body" => f.requestBody
    case "log" => f.log
    case "tls" => f.tls
    case "basic_auth" => f.basicAuth
    case _ => ""
  }

  lemma BuiltFrom(f: Fields)
    ensures Build(f) ==
        match NormalizeToken(f.upstream)
        case None => None
        case Some(upstream) =>
          Some(JoinParagraphs(
            Written("basic_auth", NormalizeBody(f.basicAuth))
            + WrittenProxy(upstream, NormalizeBody(f.proxyOptions))
            + WrittenLine("encode ", NormalizeInline(f.encode, "encode"))
            + Written("header", NormalizeBody(f.header))
            + Written("request_body", NormalizeBody(f.requestBody))
            + Written("log", NormalizeBody(f.log))
            + Written("tls", NormalizeBody(f.tls))
            + WrittenLine("", TextOr(Normalize(f.custom)))))
  {
    hide NormalizeToken, NormalizeBody, NormalizeInline, Normalize, JoinParagraphs, TextOr;
    var custom := TextOr(Normalize(f.custom));
    assert "" + custom == custom;
  }

  lemma NormalizedTwice(raw: string)
    ensures NormalizeBody(NormalizeBody(raw)) == NormalizeBody(raw)
  {
    NormalizeBodyIsBody(raw);
    NormalizeBodyFixed(NormalizeBody(raw));
  }

  /**
   The text `prepare_domain_directives` builds, with or without errors: one block for each field
   that is not blank, in this order. Normalizing the fields twice changes only the `encode` line and
   the custom part.
   */
  lemma FormText(f: Fields)
    ensures var upstream := TextOr(NormalizeToken(f.upstream));
            var encode := NormalizeInline(NormalizeInline(f.encode, "encode"), "encode");
            Prepare(f).directives == JoinParagraphs(
              Written("basic_auth", NormalizeBody(f.basicAuth))
              + WrittenProxy(upstream, NormalizeBody(f.proxyOptions))
              + WrittenLine("encode ", encode)
              + Written("header", NormalizeBody(f.header))
              + Written("request_body", NormalizeBody(f.requestBody))
              + Written("log", NormalizeBody(f.log))
              + Written("tls", NormalizeBody(f.tls))
              + WrittenLine("", TextOr(Normalize(TextOr(Normalize(f.custom))))))
  {
    hide *;
    TokenKept(f);
    ValidatedIs(f);
    BuiltFrom(Validated(f));
    PreparedFrom(f);
    NormalizedTwice(f.basicAuth);
    NormalizedTwice(f.proxyOptions);
    NormalizedTwice(f.header);
    NormalizedTwice(f.requestBody);
    NormalizedTwice(f.log);
    NormalizedTwice(f.tls);
  }

  lemma PreparedFrom(f: Fields)
    requires Build(Validated(f)).Some?
    ensures Prepare(f).directives == Build(Validated(f)).value
  {
    hide Build, FieldErrors, ExtractUpstream, NormalizeFields, NormalizeToken;
  }

  lemma ValidatedIs(f: Fields)
    ensures Validated(f) == Fields(
              TextOr(NormalizeToken(f.upstream)), NormalizeBody(f.proxyOptions), NormalizeInline(f.encode, "encode"),
              NormalizeBody(f.header), NormalizeBody(f.requestBody), NormalizeBody(f.log), NormalizeBody(f.tls),
              NormalizeBody(f.basicAuth), TextOr(Normalize(f.custom)))
  {
    hide NormalizeToken, NormalizeBody, NormalizeInline, Normalize, TextOr;
  }

  // ---------------------------------------------------------------- reading the form back

  function Headers(chunks: seq<string>): (r: seq<HeaderAndBody>)
    ensures |r| == |chunks|
    ensures forall k :: 0 <= k < |chunks| ==> r[k] == SplitHeader(chunks[k])
  {
    seq(|chunks|, k requires 0 <= k < |chunks| => SplitHeader(chunks[k]))
  }

  lemma HeadersConcat(a: seq<string>, b: seq<string>)
    ensures Headers(a + b) == Headers(a) + Headers(b)
  {
    hide SplitHeader;
  }

  /** A block read back from the built text. */
  function Read(name: string, body: string): seq<HeaderAndBody> {
    if body == "" then [] else [HeaderAndBody(name, Some(body))]
  }

  function ReadProxy(upstream: string, options: string): seq<HeaderAndBody> {
    if upstream == "" then []
    else [HeaderAndBody("reverse_proxy " + upstream, if options == "" then None else Some(options))]
  }

  function ReadEncode(args: string): seq<HeaderAndBody> {
    if args == "" then [] else [HeaderAndBody("encode " + args, None)]
  }

  lemma BlockReadBack(name: string, body: string)
    requires IsHeader(name) && IsGoodBody(body)
    ensures Headers(BlockIf(name, body)) == Read(name, body)
  {
    hide IsHeader, IsBody, Balanced, BlockText, SplitHeader;
    if body != "" {
      HeaderOfBlock(name, body);
    }
  }

  lemma ProxyReadBack(n: Fields)
    requires IsBuildable(n)
    ensures Headers(ProxyBlocks(n)) == ReadProxy(n.upstream, n.proxyOptions)
    ensures Headers(EncodeBlocks(n)) == ReadEncode(n.encode)
  {
    hide IsHeader, IsBody, Balanced, BlockText, SplitHeader, IsToken, Strip;
    if n.upstream != "" {
      ProxyHeader(n.upstream);
      if n.proxyOptions == "" {
        HeaderOfLine("reverse_proxy " + n.upstream);
      } else {
        HeaderOfBlock("reverse_proxy " + n.upstream, n.proxyOptions);
      }
    }
    if n.encode != "" {
      HeaderOfLine("encode " + n.encode);
    }
  }

  lemma BuildableBodies(n: Fields)
    requires IsBuildable(n)
    ensures IsGoodBody(n.header) && IsGoodBody(n.requestBody) && IsGoodBody(n.log) && IsGoodBody(n.tls)
        && IsGoodBody(n.basicAuth)
  {
    hide IsGoodBody;
  }

  lemma ManagedReadBack(n: Fields)
    requires IsBuildable(n)
    ensures Headers(ManagedBlocks(n)) ==
        Read("basic_auth", n.basicAuth) + ReadProxy(n.upstream, n.proxyOptions) + ReadEncode(n.encode)
        + Read("header", n.header) + Read("request_body", n.requestBody) + Read("log", n.log) + Read("tls", n.tls)
  {
    hide *;
    NamesAreHeaders();
    BuildableBodies(n);
    ManagedParts(n);
    ProxyReadBack(n);
    BlockReadBack("basic_auth", n.basicAuth);
    BlockReadBack("header", n.header);
    BlockReadBack("request_body", n.requestBody);
    BlockReadBack("log", n.log);
    BlockReadBack("tls", n.tls);
    var a := BlockIf("basic_auth", n.basicAuth) + ProxyBlocks(n);
    var b := a + EncodeBlocks(n);
    var c := b + BlockIf("header", n.header);
    var d := c + BlockIf("request_body", n.requestBody);
    var e := d + BlockIf("log", n.log);
    HeadersConcat(BlockIf("basic_auth", n.basicAuth), ProxyBlocks(n));
    HeadersConcat(a, EncodeBlocks(n));
    HeadersConcat(b, BlockIf("header", n.header));
    HeadersConcat(c, BlockIf("request_body", n.requestBody));
    HeadersConcat(d, BlockIf("log", n.log));
    HeadersConcat(e, BlockIf("tls", n.tls));
  }

  /**
   Reading an accepted form back: the chunks of the built text have the headers and bodies of the
   fields, in order, and behind them stand the chunks of the custom part.
   */
  lemma FormReadBack(f: Fields, custom: seq<string>)
    requires Prepare(f).errors == [] && SplitTopLevel(TextOr(Normalize(TextOr(Normalize(f.custom))))) == Some(custom)
    ensures var upstream := TextOr(NormalizeToken(f.upstream));
            var encode := NormalizeInline(NormalizeInline(f.encode, "encode"), "encode");
            && SplitTopLevel(Prepare(f).directives).Some?
            && Headers(SplitTopLevel(Prepare(f).directives).value) ==
              Read("basic_auth", NormalizeBody(f.basicAuth))
              + ReadProxy(upstream, NormalizeBody(f.proxyOptions))
              + ReadEncode(encode)
              + Read("header", NormalizeBody(f.header))
              + Read("request_body", NormalizeBody(f.requestBody))
              + Read("log", NormalizeBody(f.log))
              + Read("tls", NormalizeBody(f.tls))
              + Headers(custom)
  {
    hide *;
    AcceptedIsBuildable(f);
    BuiltSplitsIntoBlocks(f);
    ManagedReadBack(Final(f));
    FinalIs(f);
    FinalUpstream(f);
    ValidatedIs(f);
    PrependAllSome(ManagedBlocks(Final(f)), custom);
    HeadersConcat(ManagedBlocks(Final(f)), custom);
  }

  lemma FinalIs(f: Fields)
    ensures var n := Final(f);
            && n.proxyOptions == NormalizeBody(f.proxyOptions) && n.header == NormalizeBody(f.header)
            && n.requestBody == NormalizeBody(f.requestBody) && n.log == NormalizeBody(f.log)
            && n.tls == NormalizeBody(f.tls) && n.basicAuth == NormalizeBody(f.basicAuth)
            && n.encode == NormalizeInline(NormalizeInline(f.encode, "encode"), "encode")
            && n.custom == TextOr(Normalize(TextOr(Normalize(f.custom))))
  {
    NormalizedTwice(f.basicAuth);
    NormalizedTwice(f.proxyOptions);
    NormalizedTwice(f.header);
    NormalizedTwice(f.requestBody);
    NormalizedTwice(f.log);
    NormalizedTwice(f.tls);
    hide NormalizeBody, NormalizeInline, Normalize, NormalizeToken, TextOr;
  }

  /** Without a token the upstream is the one the built text itself names. */
  lemma UpstreamFromText(f: Fields)
    ensures Prepare(f).upstream ==
        match NormalizeToken(f.upstream)
        case None => ExtractUpstream(Prepare(f).directives)
        case Some(token) => if token == "" then ExtractUpstream(Prepare(f).directives) else Some(token)
  {
    hide NormalizeToken, Build, FieldErrors, ExtractUpstream, NormalizeBody, NormalizeInline, Normalize;
  }

  // ---------------------------------------------------------------- what is refused

  /** Every closing brace has a partner before it, and none is left open. */
  ghost predicate BracesMatch(s: string) {
    Net(s) == 0 && forall k :: 0 <= k <= |s| ==> Net(s[..k]) >= 0
  }

  lemma {:induction false} BalancedFrom(s: string, depth: nat)
    ensures Balanced(s, depth) <==> depth + Net(s) == 0 && forall k :: 0 <= k <= |s| ==> depth + Net(s[..k]) >= 0
  {
    if s == "" {
      assert s[..0] == "";
    } else {
      var d := depth + NetChar(s[0]);
      assert s[..1] == [s[0]] && [s[0]][1..] == "";
      assert Net(s[..1]) == NetChar(s[0]);
      forall k | 1 <= k <= |s| ensures Net(s[..k]) == NetChar(s[0]) + Net(s[1..][..k - 1]) {
        assert s[..k][1..] == s[1..][..k - 1];
      }
      assert s[..0] == "";
      if d >= 0 {
        BalancedFrom(s[1..], d);
        PrefixesShift(s, depth);
      }
    }
  }

  lemma PrefixesShift(s: string, depth: nat)
    requires s != "" && depth + NetChar(s[0]) >= 0
    requires forall k :: 1 <= k <= |s| ==> Net(s[..k]) == NetChar(s[0]) + Net(s[1..][..k - 1])
    ensures (forall k :: 0 <= k <= |s| ==> depth + Net(s[..k]) >= 0) <==>
            (forall k :: 0 <= k <= |s[1..]| ==> depth + NetChar(s[0]) + Net(s[1..][..k]) >= 0)
  {
    var t, d := s[1..], depth + NetChar(s[0]);
    assert Net(s[..0]) == 0;
    hide Net, NetChar;
    if forall k :: 0 <= k <= |s| ==> depth + Net(s[..k]) >= 0 {
      forall k | 0 <= k <= |t| ensures d + Net(t[..k]) >= 0 {
        assert Net(s[..k + 1]) == NetChar(s[0]) + Net(s[1..][..k + 1 - 1]);
      }
    }
    if forall k :: 0 <= k <= |t| ==> d + Net(t[..k]) >= 0 {
      forall k | 0 <= k <= |s| ensures depth + Net(s[..k]) >= 0 {
        if k > 0 {
          assert Net(s[..k]) == NetChar(s[0]) + Net(s[1..][..k - 1]);
        }
      }
    }
  }

  lemma BalancedIs(s: string)
    ensures Balanced(s, 0) <==> BracesMatch(s)
  {
    BalancedFrom(s, 0);
  }

  /** The body begins with the directive's own name, and white space or an opening brace behind it. */
  ghost predicate GivesWrapper(name: string, body: string) {
    exists c: char, rest: string :: body == name + [c] + rest && (IsSpace(c) || c == '{')
  }

  lemma WrapperIs(name: string, body: string)
    ensures HasWrapper(name, body) <==> GivesWrapper(name, body)
  {
    hide IsSpace;
    if HasWrapper(name, body) {
      assert body == name + [body[|name|]] + body[|name| + 1..];
    }
  }

  lemma BodyErrorsAre(name: string, raw: string)
    ensures var body := NormalizeBody(raw);
            BodyErrors(name, body) == if body == "" then []
                                      else if GivesWrapper(name, body) then [WrapperGiven(name)]
                                      else if !BracesMatch(body) then [UnbalancedBlock(name)]
                                      else []
  {
    NormalizeBodyIsBody(raw);
    WrapperIs(name, NormalizeBody(raw));
    BalancedIs(NormalizeBody(raw));
    hide HasWrapper, GivesWrapper, Balanced, BracesMatch, NormalizeBody, Strip, SplitLines, RightStripped;
  }

  /** White space, the word `import`, and white space or the end of the line. */
  ghost predicate Imports(line: string) {
    exists pad: string, rest: string :: AreImportParts(line, pad, rest)
  }

  predicate AreImportParts(line: string, pad: string, rest: string) {
    AllSpace(pad) && line == pad + "import" + rest && (rest == "" || IsSpace(rest[0]))
  }

  lemma ImportLineIs(line: string)
    ensures IsImportLine(line) <==> Imports(line)
  {
    hide IsSpace, LStrip, AllSpace;
    if IsImportLine(line) {
      var pad := LStripHead(line);
      var rest := LStrip(line)[6..];
      assert rest != "" ==> rest[0] == LStrip(line)[6];
      ImportsFrom(line, pad, rest);
    }
    if Imports(line) {
      var pad: string, rest: string :| AreImportParts(line, pad, rest);
      LineImports(line, pad, rest);
    }
  }

  lemma ImportsFrom(line: string, pad: string, rest: string)
    requires AllSpace(pad) && line == pad + ("import" + rest) && (rest == "" || IsSpace(rest[0]))
    ensures Imports(line)
  {
    assert line == pad + "import" + rest;
    assert AreImportParts(line, pad, rest);
  }

  lemma LineImports(line: string, pad: string, rest: string)
    requires AreImportParts(line, pad, rest)
    ensures IsImportLine(line)
  {
    hide IsSpace, LStrip, AllSpace;
    var s := "import" + rest;
    assert line == pad + s;
    LStripPrefix(pad, s);
    NotSpaceLed(rest);
    assert LStrip(line) == s;
    assert "import" <= s && |s| == 6 + |rest|;
    if rest != "" {
      assert s[6] == rest[0];
    }
  }

  lemma NotSpaceLed(rest: string)
    ensures LStrip("import" + rest) == "import" + rest
  {
    assert ("import" + rest)[0] == 'i';
  }

  ghost predicate HasImportLine(custom: string) {
    exists k :: 0 <= k < |SplitLines(custom)| && Imports(SplitLines(custom)[k])
  }

  predicate IsImportChunk(chunk: string) {
    D.Lower(P.FirstWord(SplitHeader(chunk).header)) == "import"
  }

  lemma {:induction false} ImportsCounted(chunks: seq<string>, last: string)
    ensures CountImports(chunks + [last]) == CountImports(chunks) + (if IsImportChunk(last) then 1 else 0)
    ensures CountImports([]) == 0
  {
    hide SplitHeader, P.FirstWord, D.Lower;
    if chunks == [] {
      assert [] + [last] == [last] && [last][1..] == [];
    } else {
      assert (chunks + [last])[1..] == chunks[1..] + [last];
      ImportsCounted(chunks[1..], last);
    }
  }

  lemma {:induction false} ImportsFound(chunks: seq<string>)
    ensures CountImports(chunks) > 0 <==> exists k :: 0 <= k < |chunks| && IsImportChunk(chunks[k])
  {
    hide IsImportChunk;
    if chunks != [] {
      var last := |chunks| - 1;
      assert chunks == chunks[..last] + [chunks[last]];
      ImportsCounted(chunks[..last], chunks[last]);
      ImportsFound(chunks[..last]);
      hide CountImports;
      if exists k :: 0 <= k < last && IsImportChunk(chunks[..last][k]) {
        var k :| 0 <= k < last && IsImportChunk(chunks[..last][k]);
        assert IsImportChunk(chunks[k]);
      }
      if exists k :: 0 <= k < |chunks| && IsImportChunk(chunks[k]) {
        var k :| 0 <= k < |chunks| && IsImportChunk(chunks[k]);
        assert k < last ==> IsImportChunk(chunks[..last][k]);
      }
    }
  }

  /** The errors of the custom part: one for an import line, otherwise one for each import chunk. */
  lemma CustomErrorsAre(custom: string)
    ensures CustomErrors(custom) ==
        if custom == "" then []
        else if HasImportLine(custom) then [ImportDenied]
        else match SplitTopLevel(custom)
             case None => [UnmatchedClosingBrace]
             case Some(chunks) => seq(CountImports(chunks), _ => ImportDenied)
  {
    forall line: string ensures IsImportLine(line) <==> Imports(line) {
      ImportLineIs(line);
    }
    hide IsImportLine, Imports, SplitLines, SplitTopLevel, CountImports;
  }

  predicate IsBlockField(name: string) {
    name in {"reverse_proxy", "header", "request_body", "log", "tls", "basic_auth"}
  }

  /** The order in which the errors are looked for. */
  function Place(e: BuildError): nat {
    match e
    case UpstreamNotToken => 0
    case OptionsWithoutUpstream => 1
    case WrapperGiven(name) => NamePlace(name)
    case UnbalancedBlock(name) => NamePlace(name)
    case EncodeWithBraces => 8
    case CustomUnbalanced => 9
    case ImportDenied => 10
    case UnmatchedClosingBrace => 10
  }

  function NamePlace(name: string): nat {
    match name
    case "reverse_proxy" => 2
    case "header" => 3
    case "request_body" => 4
    case "log" => 5
    case "tls" => 6
    case "basic_auth" => 7
    case _ => 11
  }

  /** Exactly when each error is given. */
  ghost predicate Finds(f: Fields, e: BuildError) {
    var custom := TextOr(Normalize(f.custom));
    match e
    case UpstreamNotToken => NormalizeToken(f.upstream).None?
    case OptionsWithoutUpstream => TextOr(NormalizeToken(f.upstream)) == "" && NormalizeBody(f.proxyOptions) != ""
    case WrapperGiven(name) => IsBlockField(name) && GivesWrapper(name, NormalizeBody(BodyField(f, name)))
    case UnbalancedBlock(name) =>
      && IsBlockField(name) && !GivesWrapper(name, NormalizeBody(BodyField(f, name)))
      && !BracesMatch(NormalizeBody(BodyField(f, name)))
    case EncodeWithBraces => !NoBraces(f.encode)
    case CustomUnbalanced => !BracesMatch(custom)
    case ImportDenied =>
      || HasImportLine(custom)
      || (custom != "" && SplitTopLevel(custom).Some?
          && exists k :: 0 <= k < |SplitTopLevel(custom).value| && IsImportChunk(SplitTopLevel(custom).value[k]))
    case UnmatchedClosingBrace => custom != "" && !HasImportLine(custom) && SplitTopLevel(custom).None?
  }

  /** Each in its place, and all before `limit`. */
  predicate InOrder(errors: seq<BuildError>, limit: nat) {
    && (forall k :: 0 <= k < |errors| ==> Place(errors[k]) < limit)
    && (forall i, j :: 0 <= i < j < |errors| ==> Place(errors[i]) < Place(errors[j]))
  }

  /** Exactly the errors found in the places before `limit`. */
  ghost predicate AreFound(f: Fields, errors: seq<BuildError>, limit: nat) {
    InOrder(errors, limit) && forall e :: e in errors <==> Finds(f, e) && Place(e) < limit
  }

  lemma FoundNext(f: Fields, errors: seq<BuildError>, more: seq<BuildError>, place: nat)
    requires AreFound(f, errors, place) && |more| <= 1
    requires forall e :: e in more <==> Finds(f, e) && Place(e) == place
    ensures AreFound(f, errors + more, place + 1)
  {
    hide Finds, Place;
    assert forall e :: e in errors + more <==> e in errors || e in more;
  }

  lemma NothingFound(f: Fields)
    ensures AreFound(f, [], 0)
  {
  }

  lemma NameOfPlace(name: string)
    ensures IsBlockField(name) <==> 2 <= NamePlace(name) <= 7
    ensures !IsBlockField(name) ==> NamePlace(name) == 11
  {
  }

  lemma SamePlace(a: string, b: string)
    requires IsBlockField(a) && NamePlace(a) == NamePlace(b)
    ensures a == b
  {
  }

  lemma BodyErrorFound(f: Fields, name: string)
    requires IsBlockField(name)
    ensures var more := BodyErrors(name, NormalizeBody(BodyField(f, name)));
            |more| <= 1 && forall e :: e in more <==> Finds(f, e) && Place(e) == NamePlace(name)
  {
    var body := NormalizeBody(BodyField(f, name));
    BodyErrorsAre(name, BodyField(f, name));
    NameOfPlace(name);
    NoBracesInNothing();
    var more := BodyErrors(name, body);
    forall e ensures e in more <==> Finds(f, e) && Place(e) == NamePlace(name) {
      if e.WrapperGiven? || e.UnbalancedBlock? {
        if Place(e) == NamePlace(name) {
          SamePlace(name, e.name);
        }
      }
      hide BodyErrors, NormalizeBody, GivesWrapper, BracesMatch, NamePlace, HasImportLine, IsImportChunk, IsBlockField,
        BodyField;
    }
    hide BodyErrors, NormalizeBody, GivesWrapper, BracesMatch, Place, Finds;
  }

  lemma NoBracesInNothing()
    ensures BracesMatch("") && forall name: string :: !GivesWrapper(name, "")
  {
  }

  lemma SinglePlaces(e: BuildError)
    ensures Place(e) == 0 ==> e == UpstreamNotToken
    ensures Place(e) == 1 ==> e == OptionsWithoutUpstream
    ensures Place(e) == 8 ==> e == EncodeWithBraces
    ensures Place(e) == 9 ==> e == CustomUnbalanced
    ensures Place(e) == 10 ==> e == ImportDenied || e == UnmatchedClosingBrace
    ensures Place(e) <= 7 || e.WrapperGiven? || e.UnbalancedBlock? || 8 <= Place(e) <= 10
  {
    if e.WrapperGiven? || e.UnbalancedBlock? {
      NameOfPlace(e.name);
    }
    hide NamePlace;
  }

  lemma OneError(f: Fields, found: bool, error: BuildError)
    requires found <==> Finds(f, error)
    requires forall e :: Place(e) == Place(error) ==> e == error
    ensures forall e :: e in (if found then [error] else []) <==> Finds(f, e) && Place(e) == Place(error)
  {
    hide Place, Finds;
  }

  lemma SimpleErrors(f: Fields)
    ensures Finds(f, UpstreamNotToken) <==> NormalizeToken(f.upstream).None?
    ensures Finds(f, OptionsWithoutUpstream) <==>
        TextOr(NormalizeToken(f.upstream)) == "" && NormalizeBody(f.proxyOptions) != ""
    ensures Finds(f, EncodeWithBraces) <==> !NoBraces(f.encode)
    ensures Finds(f, CustomUnbalanced) <==> !BracesMatch(TextOr(Normalize(f.custom)))
    ensures Place(UpstreamNotToken) == 0 && Place(OptionsWithoutUpstream) == 1
    ensures Place(EncodeWithBraces) == 8 && Place(CustomUnbalanced) == 9
  {
    hide NormalizeToken, NormalizeBody, Normalize, BracesMatch, TextOr, NoBraces;
  }

  lemma EncodeBraces(f: Fields)
    ensures !NoBraces(f.encode) <==>
        '{' in NormalizeInline(f.encode, "encode") || '}' in NormalizeInline(f.encode, "encode")
  {
    NoBraceAdded(f.encode, "encode");
    hide NormalizeInline;
  }

  /** The errors before those of the custom part's directives. */
  lemma FrontErrors(f: Fields) returns (front: seq<BuildError>)
    ensures AreFound(f, front, 10)
    ensures Prepare(f).errors == front + CustomErrors(TextOr(Normalize(f.custom)))
  {
    hide *;
    var n := Validated(f);
    ValidatedIs(f);
    SimpleErrors(f);
    EncodeBraces(f);
    BalancedIs(n.custom);
    MatchInNothing();
    NamePlaces(f);
    forall e ensures Place(e) == 0 ==> e == UpstreamNotToken ensures Place(e) == 1 ==> e == OptionsWithoutUpstream
      ensures Place(e) == 8 ==> e == EncodeWithBraces ensures Place(e) == 9 ==> e == CustomUnbalanced
    {
      SinglePlaces(e);
    }
    OneError(f, NormalizeToken(f.upstream).None?, UpstreamNotToken);
    OneError(f, n.upstream == "" && n.proxyOptions != "", OptionsWithoutUpstream);
    OneError(f, '{' in n.encode || '}' in n.encode, EncodeWithBraces);
    OneError(f, n.custom != "" && !Balanced(n.custom, 0), CustomUnbalanced);
    var a := if NormalizeToken(f.upstream).None? then [UpstreamNotToken] else [];
    var b := if n.upstream == "" && n.proxyOptions != "" then [OptionsWithoutUpstream] else [];
    var c := if '{' in n.encode || '}' in n.encode then [EncodeWithBraces] else [];
    var d := if n.custom != "" && !Balanced(n.custom, 0) then [CustomUnbalanced] else [];
    NothingFound(f);
    assert [] + a == a;
    FoundNext(f, [], a, 0);
    FoundNext(f, a, b, 1);
    var bodies := BodiesFound(f, a + b);
    FoundNext(f, bodies, c, 8);
    FoundNext(f, bodies + c, d, 9);
    front := bodies + c + d;
    ErrorsOfFields(f, n);
    PreparedErrors(f);
  }

  lemma MatchInNothing()
    ensures BracesMatch("")
  {
  }

  lemma NamePlaces(f: Fields)
    ensures NamePlace("reverse_proxy") == 2 && NamePlace("header") == 3 && NamePlace("request_body") == 4
    ensures NamePlace("log") == 5 && NamePlace("tls") == 6 && NamePlace("basic_auth") == 7
    ensures IsBlockField("reverse_proxy") && IsBlockField("header") && IsBlockField("request_body")
    ensures IsBlockField("log") && IsBlockField("tls") && IsBlockField("basic_auth")
    ensures BodyField(f, "reverse_proxy") == f.proxyOptions && BodyField(f, "header") == f.header
    ensures BodyField(f, "request_body") == f.requestBody && BodyField(f, "log") == f.log
    ensures BodyField(f, "tls") == f.tls && BodyField(f, "basic_auth") == f.basicAuth
  {
  }

  lemma BodiesFound(f: Fields, before: seq<BuildError>) returns (r: seq<BuildError>)
    requires AreFound(f, before, 2)
    ensures AreFound(f, r, 8)
    ensures r == before
      + BodyErrors("reverse_proxy", NormalizeBody(f.proxyOptions)) + BodyErrors("header", NormalizeBody(f.header))
      + BodyErrors("request_body", NormalizeBody(f.requestBody)) + BodyErrors("log", NormalizeBody(f.log))
      + BodyErrors("tls", NormalizeBody(f.tls)) + BodyErrors("basic_auth", NormalizeBody(f.basicAuth))
  {
    hide *;
    NamePlaces(f);
    r := BodyFound(f, before, "reverse_proxy");
    r := BodyFound(f, r, "header");
    r := BodyFound(f, r, "request_body");
    r := BodyFound(f, r, "log");
    r := BodyFound(f, r, "tls");
    r := BodyFound(f, r, "basic_auth");
  }

  lemma BodyFound(f: Fields, errors: seq<BuildError>, name: string) returns (r: seq<BuildError>)
    requires IsBlockField(name) && AreFound(f, errors, NamePlace(name))
    ensures r == errors + BodyErrors(name, NormalizeBody(BodyField(f, name))) && AreFound(f, r, NamePlace(name) + 1)
  {
    hide *;
    BodyErrorFound(f, name);
    r := errors + BodyErrors(name, NormalizeBody(BodyField(f, name)));
    FoundNext(f, errors, BodyErrors(name, NormalizeBody(BodyField(f, name))), NamePlace(name));
  }

  lemma PreparedErrors(f: Fields)
    ensures Prepare(f).errors == FieldErrors(f, Validated(f))
  {
    hide Build, FieldErrors, ExtractUpstream, NormalizeFields, NormalizeToken;
  }

  lemma ErrorsOfFields(f: Fields, n: Fields)
    ensures FieldErrors(f, n) ==
        (if NormalizeToken(f.upstream).None? then [UpstreamNotToken] else [])
        + (if n.upstream == "" && n.proxyOptions != "" then [OptionsWithoutUpstream] else [])
        + BodyErrors("reverse_proxy", n.proxyOptions) + BodyErrors("header", n.header)
        + BodyErrors("request_body", n.requestBody) + BodyErrors("log", n.log)
        + BodyErrors("tls", n.tls) + BodyErrors("basic_auth", n.basicAuth)
        + (if '{' in n.encode || '}' in n.encode then [EncodeWithBraces] else [])
        + (if n.custom != "" && !Balanced(n.custom, 0) then [CustomUnbalanced] else [])
        + CustomErrors(n.custom)
  {
    hide BodyErrors, CustomErrors, Balanced, NormalizeToken;
  }

  lemma LastErrors(f: Fields, e: BuildError)
    ensures e in CustomErrors(TextOr(Normalize(f.custom))) <==> Finds(f, e) && Place(e) == 10
  {
    var custom := TextOr(Normalize(f.custom));
    CustomErrorsAre(custom);
    SinglePlaces(e);
    NoImportInNothing();
    if custom != "" && SplitTopLevel(custom).Some? {
      ImportsFound(SplitTopLevel(custom).value);
      RepeatedError(CountImports(SplitTopLevel(custom).value), e);
    }
    hide CustomErrors, CountImports, IsImportChunk, HasImportLine, SplitTopLevel, Normalize, TextOr, NormalizeToken,
      NormalizeBody, GivesWrapper, BracesMatch, BodyField, NamePlace, IsBlockField, NoBraces;
  }

  lemma RepeatedError(n: nat, e: BuildError)
    ensures e in seq(n, _ => ImportDenied) <==> n > 0 && e == ImportDenied
  {
    if n > 0 {
      assert seq(n, _ => ImportDenied)[0] == ImportDenied;
    }
  }

  lemma NoImportInNothing()
    ensures !HasImportLine("")
  {
  }

  /** The errors of a form, each exactly when it is found. */
  lemma ErrorsAre(f: Fields, e: BuildError)
    ensures e in Prepare(f).errors <==> Finds(f, e)
  {
    hide *;
    var front := FrontErrors(f);
    var last := CustomErrors(TextOr(Normalize(f.custom)));
    LastErrors(f, e);
    InFront(f, front, e);
    NoOtherName(f, e);
    SinglePlaces(e);
    assert e in front + last <==> e in front || e in last;
  }

  lemma InFront(f: Fields, front: seq<BuildError>, e: BuildError)
    requires AreFound(f, front, 10)
    ensures e in front <==> Finds(f, e) && Place(e) < 10
  {
    hide Finds, Place, InOrder;
  }

  lemma NoOtherName(f: Fields, e: BuildError)
    ensures Finds(f, e) ==> Place(e) <= 10
  {
    if e.WrapperGiven? || e.UnbalancedBlock? {
      NameOfPlace(e.name);
    }
    hide NamePlace, IsBlockField, GivesWrapper, BracesMatch, NormalizeBody, Normalize, HasImportLine, IsImportChunk;
  }

  /** They are listed in the order they are looked for; only a denied import can be listed repeatedly. */
  lemma ErrorsAscend(f: Fields, i: nat, j: nat)
    requires i < j < |Prepare(f).errors|
    ensures var errors := Prepare(f).errors;
            Place(errors[i]) < Place(errors[j]) || errors[i] == errors[j] == ImportDenied
  {
    hide *;
    var front := FrontErrors(f);
    var last := CustomErrors(TextOr(Normalize(f.custom)));
    var errors := front + last;
    InOrderAt(f, front);
    if j < |front| {
      assert errors[i] == front[i] && errors[j] == front[j];
    } else {
      assert errors[j] == last[j - |front|] && errors[j] in last;
      LastErrors(f, errors[j]);
      if i < |front| {
        assert errors[i] == front[i];
      } else {
        assert errors[i] == last[i - |front|];
        SeveralLast(TextOr(Normalize(f.custom)), i - |front|, j - |front|);
      }
    }
  }

  lemma InOrderAt(f: Fields, front: seq<BuildError>)
    requires AreFound(f, front, 10)
    ensures forall k :: 0 <= k < |front| ==> Place(front[k]) < 10
    ensures forall i, j :: 0 <= i < j < |front| ==> Place(front[i]) < Place(front[j])
  {
    hide Finds, Place;
  }

  lemma SeveralLast(custom: string, i: nat, j: nat)
    requires i < j < |CustomErrors(custom)|
    ensures CustomErrors(custom)[i] == CustomErrors(custom)[j] == ImportDenied
  {
    CustomErrorsAre(custom);
    hide CustomErrors, HasImportLine, SplitTopLevel, CountImports;
  }
}
