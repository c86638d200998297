/**
 Site directives (app/utils/caddyfile.py): splitting them into top-level chunks, building them
 from the form's fields, and reading the upstream back.
 */
module Directives {
  import opened Text
  import opened Wrappers
  import D = Domains
  import P = Parser

  // ---------------------------------------------------------------- top-level chunks

  function Chunk(current: Lines): string {
    Strip(JoinLines(current))
  }

  function Prepend(chunk: string, rest: Option<seq<string>>): Option<seq<string>> {
    if rest.None? || chunk == "" then rest else Some([chunk] + rest.value)
  }

  predicate EndsWith(s: string, c: char) {
    s != "" && s[|s| - 1] == c
  }

  /** The loop of `_split_top_level_directives` from a given depth; None for an unmatched '}'. */
  function SplitFrom(lines: Lines, depth: nat, current: Lines): Option<seq<string>> {
    if lines == [] then
      if current == [] then Some([]) else Prepend(Chunk(current), Some([]))
    else
      var line := RStrip(lines[0]);
      var stripped := Strip(line);
      if stripped == "" then
        if depth == 0 then
          if current == [] then SplitFrom(lines[1..], 0, [])
          else Prepend(Chunk(current), SplitFrom(lines[1..], 0, []))
        else SplitFrom(lines[1..], depth, current + [""])
      else
        var d := depth + Net(stripped);
        if d < 0 then None
        else if d == 0 && !EndsWith(stripped, '{') then
          Prepend(Chunk(current + [line]), SplitFrom(lines[1..], 0, []))
        else SplitFrom(lines[1..], d, current + [line])
  }

  function SplitTopLevel(directives: string): Option<seq<string>> {
    SplitFrom(SplitLines(directives), 0, [])
  }

  function PrependAll(chunks: seq<string>, rest: Option<seq<string>>): Option<seq<string>> {
    if rest.None? then None else Some(chunks + rest.value)
  }

  function KeepChunk(chunk: string): seq<string> {
    if chunk == "" then [] else [chunk]
  }

  lemma PrependKept(chunks: seq<string>, chunk: string, rest: Option<seq<string>>)
    ensures PrependAll(chunks, Prepend(chunk, rest)) == PrependAll(chunks + KeepChunk(chunk), rest)
  {
    if rest.Some? {
      assert chunks + ([chunk] + rest.value) == (chunks + [chunk]) + rest.value;
      assert chunks + [] == chunks;
    }
  }

  /** The loop itself; the exception of the source is the None result. */
  method SplitTopLevelDirectives(directives: string) returns (r: Option<seq<string>>)
    ensures r == SplitTopLevel(directives)
  {
    hide Strip, RStrip, Net, JoinLines, SplitLines;
    var lines := SplitLines(directives);
    var chunks: seq<string> := [];
    var current: Lines := [];
    var depth: int := 0;
    assert lines[0..] == lines;
    assert forall r: Option<seq<string>> :: PrependAll([], r) == r by {
      forall r: Option<seq<string>> ensures PrependAll([], r) == r {
        assert r.Some? ==> [] + r.value == r.value;
      }
    }
    for i := 0 to |lines|
      invariant depth >= 0
      invariant SplitFrom(lines, 0, []) == PrependAll(chunks, SplitFrom(lines[i..], depth, current))
    {
      var line := RStrip(lines[i]);
      var stripped := Strip(line);
      ghost var rest := SplitFrom(lines[i..][1..], 0, []);
      assert lines[i..][1..] == lines[i + 1..];
      if stripped == "" {
        if depth == 0 && current != [] {
          PrependKept(chunks, Chunk(current), rest);
          chunks := chunks + KeepChunk(Chunk(current));
          current := [];
        } else if depth > 0 {
          current := current + [""];
        }
      } else {
        current := current + [line];
        depth := depth + Net(stripped);
        if depth < 0 {
          return None;
        }
        if depth == 0 && !EndsWith(stripped, '{') {
          PrependKept(chunks, Chunk(current), rest);
          chunks := chunks + KeepChunk(Chunk(current));
          current := [];
        }
      }
    }
    if current != [] {
      PrependKept(chunks, Chunk(current), Some([]));
      chunks := chunks + KeepChunk(Chunk(current));
    }
    assert chunks + [] == chunks;
    r := Some(chunks);
  }

  // ---------------------------------------------------------------- header and body of a chunk

  predicate IsCommentOrEmpty(s: string) {
    var t := Strip(s);
    t == "" || t[0] == '#'
  }

  predicate IsClosingBraceLine(line: string) {
    var s := Strip(line);
    s != "" && s[0] == '}' && IsCommentOrEmpty(s[1..])
  }

  function RStripEach(ls: Lines): (r: Lines)
    ensures |r| == |ls|
    ensures forall k :: 0 <= k < |ls| ==> r[k] == RStrip(ls[k])
  {
    seq(|ls|, k requires 0 <= k < |ls| => RStrip(ls[k]))
  }

  function NormalizeBody(raw: string): string {
    Strip(JoinLines(RStripEach(SplitLines(Strip(raw)))))
  }

  /** Index after the last `c`, or 0 when there is none. */
  function AfterLast(s: string, c: char): (r: nat)
    ensures r <= |s| && (r > 0 ==> s[r - 1] == c)
  {
    if s == "" then 0 else if s[|s| - 1] == c then |s| else AfterLast(s[..|s| - 1], c)
  }

  datatype HeaderAndBody = HeaderAndBody(header: string, body: Option<string>)

  function SplitInline(first: string): HeaderAndBody {
    var i := Find(first, '{');
    if i == |first| || '}' !in first then HeaderAndBody(first, None)
    else
      var remainder := first[i + 1..];
      var close := AfterLast(remainder, '}');
      var body := if close == 0 then "" else remainder[..close - 1];
      if IsCommentOrEmpty(remainder[close..]) then HeaderAndBody(Strip(first[..i]), Some(NormalizeBody(body)))
      else HeaderAndBody(first, None)
  }

  function SplitHeader(chunk: string): HeaderAndBody {
    var lines := RStripEach(SplitLines(Strip(chunk)));
    if lines == [] then HeaderAndBody("", None)
    else
      var first := Strip(lines[0]);
      var last := |lines| - 1;
      if last == 0 then SplitInline(first)
      else if EndsWith(first, '{') && IsClosingBraceLine(lines[last]) then
        HeaderAndBody(RStrip(first[..|first| - 1]), Some(NormalizeBody(JoinLines(lines[1..last]))))
      else HeaderAndBody(first, Some(NormalizeBody(JoinLines(lines[1..]))))
  }

  /** `normalize_caddy_directives`: unwrap a text that is one block under a non-directive header. */
  function Normalize(raw: string): Option<string> {
    var n := Strip(raw);
    if n == "" then None
    else if '{' !in n then Some(n)
    else
      var chunks := SplitTopLevel(n);
      if chunks.None? || |chunks.value| != 1 then Some(n)
      else
        var parts := SplitHeader(chunks.value[0]);
        if parts.body.None? || P.RStripChar(P.FirstWord(parts.header), ',') in P.KEYWORDS then Some(n)
        else if Strip(parts.body.value) == "" then None
        else Some(Strip(parts.body.value))
  }

  // ---------------------------------------------------------------- words

  function Words(s: string): seq<string>
    decreases |s|
  {
    if s == "" then []
    else if IsSpace(s[0]) then Words(s[1..])
    else
      var w := P.FirstWord(s);
      FirstWordLength(s);
      [w] + Words(s[|w|..])
  }

  lemma {:induction false} FirstWordLength(s: string)
    ensures |P.FirstWord(s)| <= |s|
    ensures P.FirstWord(s) == s[..|P.FirstWord(s)|]
    ensures s != "" && !IsSpace(s[0]) ==> P.FirstWord(s) != ""
    ensures forall k :: 0 <= k < |P.FirstWord(s)| ==> !IsSpace(s[k])
  {
    if s != "" && !IsSpace(s[0]) {
      FirstWordLength(s[1..]);
    }
  }

  function JoinSpaces(words: seq<string>): string {
    if words == [] then "" else if |words| == 1 then words[0] else words[0] + " " + JoinSpaces(words[1..])
  }

  // ---------------------------------------------------------------- building

  /** The form's fields; an empty string stands for an absent value. */
  datatype Fields = Fields(
    upstream: string, proxyOptions: string, encode: string, header: string, requestBody: string,
    log: string, tls: string, basicAuth: string, custom: string)

  predicate IsTokenText(s: string) {
    forall k :: 0 <= k < |s| ==> !IsSpace(s[k]) && s[k] != '{' && s[k] != '}' && s[k] != '#'
  }

  function NormalizeToken(value: string): Option<string> {
    var n := Strip(value);
    if IsTokenText(n) then Some(n) else None
  }

  function NormalizeInline(raw: string, name: string): string {
    var n := Strip(raw);
    var args := if name + " " <= n then Strip(n[|name| + 1..]) else n;
    JoinSpaces(Words(args))
  }

  function TextOr(o: Option<string>): string {
    if o.None? then "" else o.value
  }

  function NormalizeFields(f: Fields, upstream: string): Fields {
    Fields(upstream, NormalizeBody(f.proxyOptions), NormalizeInline(f.encode, "encode"), NormalizeBody(f.header),
           NormalizeBody(f.requestBody), NormalizeBody(f.log), NormalizeBody(f.tls), NormalizeBody(f.basicAuth),
           TextOr(Normalize(f.custom)))
  }

  function BlockText(header: string, body: string): string {
    header + " {\n" + body + "\n}"
  }

  function BlockIf(header: string, body: string): seq<string> {
    if body == "" then [] else [BlockText(header, body)]
  }

  /** The managed chunks in the order the source appends them. */
  function ManagedBlocks(n: Fields): seq<string> {
    BlockIf("basic_auth", n.basicAuth)
    + (if n.upstream == "" then []
       else if n.proxyOptions == "" then ["reverse_proxy " + n.upstream]
       else [BlockText("reverse_proxy " + n.upstream, n.proxyOptions)])
    + (if n.encode == "" then [] else ["encode " + n.encode])
    + BlockIf("header", n.header)
    + BlockIf("request_body", n.requestBody)
    + BlockIf("log", n.log)
    + BlockIf("tls", n.tls)
  }

  function JoinParagraphs(blocks: seq<string>): string {
    if blocks == [] then "" else if |blocks| == 1 then blocks[0] else blocks[0] + "\n\n" + JoinParagraphs(blocks[1..])
  }

  /** `build_domain_directives`; None when the upstream is not one token (the source raises). */
  function Build(f: Fields): Option<string> {
    match NormalizeToken(f.upstream)
    case None => None
    case Some(upstream) =>
      var n := NormalizeFields(f, upstream);
      Some(JoinParagraphs(ManagedBlocks(n) + (if n.custom == "" then [] else [n.custom])))
  }

  // ---------------------------------------------------------------- validation

  predicate Balanced(s: string, depth: nat) {
    if s == "" then depth == 0
    else depth + NetChar(s[0]) >= 0 && Balanced(s[1..], depth + NetChar(s[0]))
  }

  predicate HasWrapper(name: string, body: string) {
    name < body && (IsSpace(body[|name|]) || body[|name|] == '{')
  }

  datatype BuildError =
    | UpstreamNotToken
    | OptionsWithoutUpstream
    | WrapperGiven(name: string)
    | UnbalancedBlock(name: string)
    | EncodeWithBraces
    | CustomUnbalanced
    | ImportDenied
    | UnmatchedClosingBrace

  function BodyErrors(name: string, body: string): seq<BuildError> {
    if Strip(body) == "" then []
    else if HasWrapper(name, Strip(body)) then [WrapperGiven(name)]
    else if !Balanced(Strip(body), 0) then [UnbalancedBlock(name)]
    else []
  }

  predicate IsImportLine(line: string) {
    var s := LStrip(line);
    "import" <= s && (|s| == 6 || IsSpace(s[6]))
  }

  function CustomErrors(custom: string): seq<BuildError> {
    if custom == "" then []
    else if exists k :: 0 <= k < |SplitLines(custom)| && IsImportLine(SplitLines(custom)[k]) then [ImportDenied]
    else
      var chunks := SplitTopLevel(custom);
      if chunks.None? then [UnmatchedClosingBrace]
      else seq(CountImports(chunks.value), _ => ImportDenied)
  }

  function CountImports(chunks: seq<string>): nat {
    if chunks == [] then 0
    else (if D.Lower(P.FirstWord(SplitHeader(chunks[0]).header)) == "import" then 1 else 0) + CountImports(chunks[1..])
  }

  function FieldErrors(f: Fields, n: Fields): seq<BuildError> {
    (if NormalizeToken(f.upstream).None? then [UpstreamNotToken] else [])
    + (if n.upstream == "" && n.proxyOptions != "" then [OptionsWithoutUpstream] else [])
    + BodyErrors("reverse_proxy", n.proxyOptions)
    + BodyErrors("header", n.header)
    + BodyErrors("request_body", n.requestBody)
    + BodyErrors("log", n.log)
    + BodyErrors("tls", n.tls)
    + BodyErrors("basic_auth", n.basicAuth)
    + (if '{' in n.encode || '}' in n.encode then [EncodeWithBraces] else [])
    + (if n.custom != "" && !Balanced(n.custom, 0) then [CustomUnbalanced] else [])
    + CustomErrors(n.custom)
  }

  datatype Prepared = Prepared(upstream: Option<string>, directives: string, errors: seq<BuildError>)

  /** `prepare_domain_directives`: normalize, validate, then build from the normalized fields. */
  function Prepare(f: Fields): Prepared {
    var n := NormalizeFields(f, TextOr(NormalizeToken(f.upstream)));
    var built := TextOr(Build(n));
    var upstream := if n.upstream != "" then Some(n.upstream) else ExtractUpstream(built);
    Prepared(upstream, built, FieldErrors(f, n))
  }

  // ---------------------------------------------------------------- reading the upstream back

  function FirstProxy(chunks: seq<string>): Option<string> {
    if chunks == [] then None
    else
      var header := SplitHeader(chunks[0]).header;
      if "reverse_proxy " <= header then
        var args := Words(header[14..]);
        if |args| == 1 then Some(args[0]) else None
      else FirstProxy(chunks[1..])
  }

  function ExtractUpstream(directives: string): Option<string> {
    match SplitTopLevel(directives)
    case None => None
    case Some(chunks) => FirstProxy(chunks)
  }

  // ---------------------------------------------------------------- splitting what was built

  predicate RightStripped(lines: Lines) {
    forall k :: 0 <= k < |lines| ==> RStrip(lines[k]) == lines[k]
  }

  /** Inside a block every line is collected. */
  lemma {:induction false} CollectInside(body: Lines, rest: Lines, depth: nat, current: Lines)
    requires depth > 0 && StaysInside(body, depth) && RightStripped(body)
    ensures depth + NetLines(body) > 0
    ensures SplitFrom(body + rest, depth, current) == SplitFrom(rest, depth + NetLines(body), current + body)
  {
    hide *;
    if body == [] {
      assert body + rest == rest && current + body == current;
      NoNetLines();
    } else {
      InsideTail(body, depth);
      InsideStep(body, rest, depth, current);
      NetLinesStep(body);
      CollectInside(body[1..], rest, depth + Net(body[0]), current + [body[0]]);
      assert (current + [body[0]]) + body[1..] == current + body;
    }
  }

  lemma InsideTail(body: Lines, depth: nat)
    requires body != [] && depth > 0 && StaysInside(body, depth) && RightStripped(body)
    ensures depth + Net(body[0]) > 0 && RStrip(body[0]) == body[0]
    ensures StaysInside(body[1..], depth + Net(body[0])) && RightStripped(body[1..])
  {
    hide Net, RStrip;
  }

  lemma BlankStep(lines: Lines, depth: nat, current: Lines)
    requires lines != [] && lines[0] == "" && depth > 0
    ensures SplitFrom(lines, depth, current) == SplitFrom(lines[1..], depth, current + [""])
  {
    hide Chunk, Prepend, EndsWith, Net;
  }

  lemma TextStep(lines: Lines, depth: nat, current: Lines)
    requires lines != [] && RStrip(lines[0]) == lines[0] && Strip(lines[0]) != ""
    requires depth + Net(Strip(lines[0])) > 0
    ensures SplitFrom(lines, depth, current) ==
        SplitFrom(lines[1..], depth + Net(Strip(lines[0])), current + [lines[0]])
  {
    hide Chunk, Prepend, EndsWith, Net, Strip, RStrip;
  }

  lemma InsideStep(body: Lines, rest: Lines, depth: nat, current: Lines)
    requires body != [] && depth > 0 && depth + Net(body[0]) > 0 && RStrip(body[0]) == body[0]
    ensures SplitFrom(body + rest, depth, current) ==
        SplitFrom(body[1..] + rest, depth + Net(body[0]), current + [body[0]])
  {
    hide *;
    var line := body[0];
    NetStrip(line);
    BlankRightStripped(line);
    assert (body + rest)[0] == line && (body + rest)[1..] == body[1..] + rest;
    if line == "" {
      EmptyNet();
      BlankStep(body + rest, depth, current);
    } else {
      TextStep(body + rest, depth, current);
    }
  }

  lemma BlankRightStripped(line: string)
    requires RStrip(line) == line
    ensures Strip(line) == "" <==> line == ""
  {
    BlankIsAllSpace(line);
    if AllSpace(line) {
      AllSpaceStrips(line);
    }
  }

  // ---------------------------------------------------------------- balanced bodies

  lemma {:induction false} BalancedConcat(a: string, b: string, depth: nat)
    requires Balanced(a + b, depth)
    ensures depth + Net(a) >= 0 && Balanced(b, depth + Net(a))
  {
    if a == "" {
      assert a + b == b;
    } else {
      assert (a + b)[1..] == a[1..] + b;
      BalancedConcat(a[1..], b, depth + NetChar(a[0]));
    }
  }

  lemma BalancedStep(s: string, depth: nat, i: nat)
    requires Balanced(s, depth) && i == Find(s, '\n') < |s|
    ensures depth + Net(s[..i]) >= 0 && Balanced(s[i + 1..], depth + Net(s[..i]))
  {
    hide Find;
    CutAt(s, i);
    var line, rest := s[..i], s[i + 1..];
    BalancedConcat(line + "\n", rest, depth);
    NetConcat(line, "\n");
    assert Net("\n") == 0;
  }

  lemma BalancedWhole(s: string, depth: nat)
    requires Balanced(s, depth)
    ensures Net(s) + depth == 0
  {
    assert s == s + "";
    BalancedConcat(s, "", depth);
  }

  /** A body balanced character by character never leaves its block, counted line by line. */
  lemma {:induction false} BalancedStaysInside(s: string, depth: nat)
    requires Balanced(s, depth)
    ensures StaysInside(SplitLines(s), 1 + depth) && NetLines(SplitLines(s)) + depth == 0
  {
    hide Find, Net, Balanced;
    if s == "" {
      BalancedWhole(s, depth);
      EmptyNet();
    } else {
      var i := Find(s, '\n');
      if i == |s| {
        BalancedWhole(s, depth);
        assert SplitLines(s) == [s];
        assert [s][1..] == [];
      } else {
        BalancedStep(s, depth, i);
        SplitAtNewline(s, i);
        BalancedStaysInside(s[i + 1..], depth + Net(s[..i]));
      }
    }
  }

  // ---------------------------------------------------------------- normalized bodies

  /** A text as `_normalize_block_body` returns it: trimmed, and no line ends in white space. */
  predicate IsBody(body: string) {
    Strip(body) == body && RightStripped(SplitLines(body))
  }

  lemma {:induction false} TrimStartRightStripped(ls: Lines)
    requires RightStripped(ls)
    ensures RightStripped(TrimStart(ls))
  {
    if ls != [] {
      if IsBlank(ls[0]) {
        hide IsBlank, RStrip;
        TrimStartRightStripped(ls[1..]);
      } else {
        HalfStripped(ls[0]);
        hide LStrip, RStrip, IsBlank;
      }
    }
  }

  lemma HalfStripped(s: string)
    requires RStrip(s) == s
    ensures RStrip(LStrip(s)) == LStrip(s)
  {
    LStripSpaces(s);
    RStripTrimmed(LStrip(s));
  }

  lemma RStripTwice(s: string)
    ensures RStrip(RStrip(s)) == RStrip(s)
  {
    RStripTrimmed(RStrip(s));
  }

  lemma {:induction false} TrimEndRightStripped(ls: Lines)
    requires RightStripped(ls)
    ensures RightStripped(TrimEnd(ls))
  {
    hide IsBlank, RStrip;
    if ls != [] {
      var last := |ls| - 1;
      if IsBlank(ls[last]) {
        TrimEndRightStripped(ls[..last]);
      }
    }
  }

  lemma RStripEachWellFormed(ls: Lines)
    requires WellFormed(ls)
    ensures WellFormed(RStripEach(ls)) && RightStripped(RStripEach(ls))
  {
    forall k | 0 <= k < |ls| ensures OneLine(RStrip(ls[k])) && RStrip(RStrip(ls[k])) == RStrip(ls[k]) {
      RStripTwice(ls[k]);
      RStripSpaces(ls[k]);
    }
  }

  lemma NormalizeBodyIsBody(raw: string)
    ensures IsBody(NormalizeBody(raw))
  {
    var lines := RStripEach(SplitLines(Strip(raw)));
    RStripEachWellFormed(SplitLines(Strip(raw)));
    hide Strip, TrimStart, TrimEnd, RightStripped, SplitLines, JoinLines, RStripEach;
    SplitTrimmed(lines);
    TrimStartRightStripped(lines);
    TrimEndRightStripped(TrimStart(lines));
    StripIdempotent(JoinLines(lines));
  }

  lemma RStripEachFixed(ls: Lines)
    requires RightStripped(ls)
    ensures RStripEach(ls) == ls
  {
    hide RStrip;
  }

  lemma StrippedEnds(s: string)
    requires Strip(s) == s && s != ""
    ensures !IsSpace(s[0]) && !IsSpace(s[|s| - 1])
  {
    var b, a := StripParts(s);
    hide Strip;
  }

  lemma StrippedNoNewlineEnd(s: string)
    requires Strip(s) == s
    ensures s == "" || s[|s| - 1] != '\n'
  {
    if s != "" {
      StrippedEnds(s);
    }
  }

  lemma NormalizeBodyFixed(body: string)
    requires IsBody(body)
    ensures NormalizeBody(body) == body
  {
    hide Strip, JoinLines, SplitLines, RightStripped, RStripEach;
    RStripEachFixed(SplitLines(body));
    StrippedNoNewlineEnd(body);
    JoinSplit(body);
  }

  // ---------------------------------------------------------------- one managed block is one chunk

  /** A chunk header the builder writes: one line, no braces, no white space at its ends. */
  predicate IsHeader(h: string) {
    h != "" && OneLine(h) && NoBraces(h) && Strip(h) == h
  }

  function BlockLines(header: string, body: string): Lines {
    [header + " {"] + (SplitLines(body) + ["}"])
  }

  lemma SplitBlockText(header: string, body: string)
    requires OneLine(header) && body != "" && Strip(body) == body
    ensures SplitLines(BlockText(header, body)) == BlockLines(header, body)
  {
    hide Strip, SplitLines;
    StrippedNoNewlineEnd(body);
    SplitLinesFront(header + " {", body + "\n}");
    SplitLinesConcat(body, "}");
    SplitOneLine("}");
    assert BlockText(header, body) == (header + " {") + "\n" + (body + "\n}");
    assert body + "\n" + "}" == body + "\n}";
  }

  lemma BlockTextStripped(header: string, body: string)
    requires IsHeader(header)
    ensures Strip(BlockText(header, body)) == BlockText(header, body) != ""
  {
    var t := BlockText(header, body);
    StrippedEnds(header);
    assert t[0] == header[0] && t[|t| - 1] == '}';
    StripTrimmed(t);
  }

  lemma HeaderLine(header: string)
    requires IsHeader(header)
    ensures Net(header + " {") == 1 && RStrip(header + " {") == header + " {" && Strip(header + " {") == header + " {"
  {
    hide Strip, RStrip, LStrip;
    var line := header + " {";
    StrippedEnds(header);
    StripTrimmed(line);
    RStripTrimmed(line);
    NetConcat(header, " {");
    NetNoBraces(header);
    OpeningNet();
  }

  lemma OpeningNet()
    ensures Net(" {") == 1 && Net("}") == -1 && Strip("}") == "}" && RStrip("}") == "}"
  {
    hide Net, Strip, RStrip, LStrip;
    OneBrace();
    NetConcat(" ", "{");
    assert " " + "{" == " {";
    StripTrimmed("}");
    RStripTrimmed("}");
  }

  lemma FlushStep(lines: Lines, depth: nat, current: Lines)
    requires lines != [] && RStrip(lines[0]) == lines[0] == Strip(lines[0]) != ""
    requires depth + Net(lines[0]) == 0 && !EndsWith(lines[0], '{')
    ensures SplitFrom(lines, depth, current) == Prepend(Chunk(current + [lines[0]]), SplitFrom(lines[1..], 0, []))
  {
    hide Chunk, Prepend, EndsWith, Net, Strip, RStrip;
  }

  /** `block` is cut off as one chunk, whatever follows it. */
  ghost predicate IsOneChunk(block: string) {
    forall rest: Lines :: SplitFrom(SplitLines(block) + rest, 0, []) == Prepend(block, SplitFrom(rest, 0, []))
  }

  lemma BlockIsOneChunk(header: string, body: string)
    requires IsHeader(header) && body != "" && IsBody(body) && Balanced(body, 0)
    ensures IsOneChunk(BlockText(header, body))
  {
    var block, inner, opening := BlockText(header, body), SplitLines(body), header + " {";
    forall rest: Lines ensures SplitFrom(SplitLines(block) + rest, 0, []) == Prepend(block, SplitFrom(rest, 0, [])) {
      CutOneBlock(header, body, rest);
    }
    hide SplitLines, SplitFrom, Prepend;
  }

  lemma CutOneBlock(header: string, body: string, rest: Lines)
    requires IsHeader(header) && body != "" && IsBody(body) && Balanced(body, 0)
    ensures var block := BlockText(header, body);
            SplitFrom(SplitLines(block) + rest, 0, []) == Prepend(block, SplitFrom(rest, 0, []))
  {
    hide *;
    var block, inner, opening := BlockText(header, body), SplitLines(body), header + " {";
    BodyFacts(body);
    HeaderFacts(header);
    HeaderLine(header);
    OpeningNet();
    SplitBlockText(header, body);
    BalancedStaysInside(body, 0);
    var lines := SplitLines(block) + rest;
    BlockLinesAre(header, body);
    assert lines == [opening] + (inner + (["}"] + rest));
    TextStep(lines, 0, []);
    assert lines[1..] == inner + (["}"] + rest) && [] + [opening] == [opening];
    CollectInside(inner, ["}"] + rest, 1, [opening]);
    var closing := ["}"] + rest;
    NotEndsWith();
    FlushStep(closing, 1, [opening] + inner);
    assert closing[1..] == rest;
    assert ([opening] + inner) + ["}"] == [opening] + (inner + ["}"]);
    ChunkOfBlock(header, body);
  }

  lemma NotEndsWith()
    ensures !EndsWith("}", '{')
  {
  }

  lemma BlockLinesAre(header: string, body: string)
    ensures BlockLines(header, body) == [header + " {"] + (SplitLines(body) + ["}"])
  {
  }

  lemma HeaderFacts(header: string)
    requires IsHeader(header)
    ensures header != "" && OneLine(header)
  {
  }

  lemma BodyFacts(body: string)
    requires IsBody(body)
    ensures Strip(body) == body && RightStripped(SplitLines(body))
  {
  }

  lemma ChunkOfBlock(header: string, body: string)
    requires IsHeader(header) && body != "" && IsBody(body)
    ensures Chunk([header + " {"] + (SplitLines(body) + ["}"])) == BlockText(header, body)
  {
    hide Strip, SplitLines, JoinLines;
    var inner := SplitLines(body);
    StrippedNoNewlineEnd(body);
    JoinSplit(body);
    BodyHasLines(body);
    JoinCons(header + " {", inner + ["}"]);
    JoinConcat(inner, ["}"]);
    JoinSingle("}");
    BlockTextStripped(header, body);
    assert (header + " {") + "\n" + (body + "\n" + "}") == BlockText(header, body);
  }

  lemma JoinSingle(line: string)
    ensures JoinLines([line]) == line
  {
  }

  lemma BodyHasLines(body: string)
    requires body != ""
    ensures SplitLines(body) != []
  {
  }

  lemma LineIsOneChunk(line: string)
    requires IsHeader(line)
    ensures IsOneChunk(line)
  {
    forall rest: Lines ensures SplitFrom(SplitLines(line) + rest, 0, []) == Prepend(line, SplitFrom(rest, 0, [])) {
      CutOneLine(line, rest);
    }
    hide SplitLines, SplitFrom, Prepend;
  }

  lemma CutOneLine(line: string, rest: Lines)
    requires IsHeader(line)
    ensures SplitFrom(SplitLines(line) + rest, 0, []) == Prepend(line, SplitFrom(rest, 0, []))
  {
    hide SplitFrom, Prepend, SplitLines, Strip, RStrip, LStrip, Net;
    SplitOneLine(line);
    NetNoBraces(line);
    StrippedEnds(line);
    RStripTrimmed(line);
    var lines := [line] + rest;
    FlushStep(lines, 0, []);
    assert lines[1..] == rest && [] + [line] == [line];
    JoinSingle(line);
  }

  // ---------------------------------------------------------------- the whole text

  lemma SkipBlankLine(rest: Lines)
    ensures SplitFrom([""] + rest, 0, []) == SplitFrom(rest, 0, [])
  {
    AllSpaceStrips("");
    hide Strip, RStrip, Net, Chunk, Prepend;
    assert ([""] + rest)[1..] == rest;
  }

  lemma CutChunk(block: string, rest: Lines)
    requires IsOneChunk(block)
    ensures SplitFrom(SplitLines(block) + rest, 0, []) == Prepend(block, SplitFrom(rest, 0, []))
  {
    hide SplitLines, SplitFrom, Prepend;
  }

  lemma SplitAfterChunk(block: string, rest: string)
    requires IsOneChunk(block) && block != "" && Strip(block) == block
    ensures SplitTopLevel(block + "\n\n" + rest) == Prepend(block, SplitTopLevel(rest))
  {
    hide SplitLines, SplitFrom, Prepend, Strip, IsOneChunk;
    StrippedNoNewlineEnd(block);
    var after := "\n" + rest;
    SplitLinesConcat(block, after);
    SplitLinesBlank(rest);
    assert block + "\n" + after == block + "\n\n" + rest;
    CutChunk(block, [""] + SplitLines(rest));
    SkipBlankLine(SplitLines(rest));
  }

  lemma NoLinesLeft()
    ensures SplitFrom([], 0, []) == Some([])
  {
  }

  lemma SplitLastChunk(block: string)
    requires IsOneChunk(block) && block != ""
    ensures SplitTopLevel(block) == Some([block])
  {
    hide SplitLines, IsOneChunk, SplitFrom;
    assert SplitLines(block) + [] == SplitLines(block);
    CutChunk(block, []);
    NoLinesLeft();
    assert [block] + [] == [block];
  }

  ghost predicate AreChunks(blocks: seq<string>) {
    forall k :: 0 <= k < |blocks| ==> IsOneChunk(blocks[k]) && blocks[k] != "" && Strip(blocks[k]) == blocks[k]
  }

  /** Chunks joined by blank lines split into exactly those chunks, then the chunks of the tail. */
  lemma {:induction false} SplitParagraphs(blocks: seq<string>, tail: seq<string>)
    requires AreChunks(blocks) && |tail| <= 1
    ensures SplitTopLevel(JoinParagraphs(blocks + tail)) == PrependAll(blocks, SplitTopLevel(JoinParagraphs(tail)))
  {
    hide SplitTopLevel, IsOneChunk, Strip;
    if blocks == [] {
      assert blocks + tail == tail;
      NoChunksBefore(SplitTopLevel(JoinParagraphs(tail)));
    } else {
      var first, more := blocks[0], blocks[1..] + tail;
      assert blocks + tail == [first] + more && ([first] + more)[1..] == more;
      SplitParagraphs(blocks[1..], tail);
      if more == [] {
        SplitLastChunk(first);
        NothingToSplit();
        assert tail == [] && blocks == [first] && blocks + [] == blocks;
        assert JoinParagraphs([first] + more) == first;
      } else {
        SplitAfterChunk(first, JoinParagraphs(more));
        PrependFirst(first, blocks[1..], SplitTopLevel(JoinParagraphs(tail)));
        assert blocks == [first] + blocks[1..];
      }
    }
  }

  lemma NothingToSplit()
    ensures SplitTopLevel(JoinParagraphs([])) == Some([])
  {
  }

  lemma NoChunksBefore(rest: Option<seq<string>>)
    ensures PrependAll([], rest) == rest
  {
    assert rest.Some? ==> [] + rest.value == rest.value;
  }

  lemma PrependFirst(first: string, chunks: seq<string>, rest: Option<seq<string>>)
    requires first != ""
    ensures Prepend(first, PrependAll(chunks, rest)) == PrependAll([first] + chunks, rest)
  {
    if rest.Some? {
      assert [first] + (chunks + rest.value) == ([first] + chunks) + rest.value;
    }
  }
}
