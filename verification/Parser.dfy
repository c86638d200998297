/**
 `parse_caddyfile` (app/utils/caddyfile.py): one pass over the lines cuts a Caddyfile into
 plain lines and brace blocks; site blocks are taken out, everything else is the baseline.
 */
module Parser {
  import opened Text
  import D = Domains

  // ---------------------------------------------------------------- block headers

  const KEYWORDS: set<string> := {
    "abort", "basic_auth", "basicauth", "bind", "encode", "error", "file_server", "handle",
    "handle_errors", "handle_path", "header", "import", "invoke", "log", "map", "method",
    "metrics", "php_fastcgi", "redir", "request_body", "respond", "reverse_proxy", "rewrite",
    "root", "route", "templates", "tls", "try_files", "uri", "vars"
  }

  lemma KeywordsHaveNoDot(word: string)
    requires word in KEYWORDS
    ensures '.' !in word
  {
  }

  function RStripChar(s: string, c: char): (r: string)
    ensures |r| <= |s| && r == s[..|r|]
  {
    if s != "" && s[|s| - 1] == c then RStripChar(s[..|s| - 1], c) else s
  }

  function SplitOn(s: string, c: char): (parts: seq<string>)
    ensures parts != []
  {
    var i := Find(s, c);
    if i == |s| then [s] else [s[..i]] + SplitOn(s[i + 1..], c)
  }

  function FirstWord(s: string): string {
    if s == "" || IsSpace(s[0]) then "" else [s[0]] + FirstWord(s[1..])
  }

  function DropPrefix(s: string, prefix: string): string {
    if prefix <= s then s[|prefix|..] else s
  }

  function DropScheme(s: string): string {
    if "http://" <= s then s[7..] else DropPrefix(s, "https://")
  }

  predicate IsPort(s: string) {
    s != "" && forall k :: 0 <= k < |s| ==> D.IsDigit(s[k])
  }

  /** One entry of a site label: optional scheme, optional wildcard, dotted name, optional port. */
  predicate IsAddress(entry: string) {
    var host := DropPrefix(DropScheme(D.Lower(entry)), "*.");
    var i := Find(host, ':');
    D.IsDotted(host[..i]) && (i < |host| ==> IsPort(host[i + 1..]))
  }

  predicate IsSiteLabel(header: string) {
    var cleaned := RStripChar(Strip(header), ',');
    && cleaned != "" && cleaned[0] != '@' && cleaned[0] != '/'
    && RStripChar(D.Lower(FirstWord(cleaned)), ',') !in KEYWORDS
    && (var parts := SplitOn(cleaned, ',');
        forall k :: 0 <= k < |parts| ==> IsAddress(Strip(parts[k])))
  }

  predicate IsSnippetNameChar(c: char) {
    'a' <= c <= 'z' || 'A' <= c <= 'Z' || '0' <= c <= '9' || c == '_' || c == '-'
  }

  predicate IsSnippetHeader(header: string) {
    var h := Strip(header);
    && |h| > 2 && h[0] == '(' && h[|h| - 1] == ')'
    && forall k :: 0 < k < |h| - 1 ==> IsSnippetNameChar(h[k])
  }

  function CleanDomains(parts: seq<string>): seq<string> {
    if parts == [] then []
    else
      var bare := DropScheme(Strip(parts[0]));
      var host := bare[..Find(bare, ':')];
      (if host == "" then [] else [D.Lower(host)]) + CleanDomains(parts[1..])
  }

  function DomainOfLabel(header: string): string {
    D.JoinNames(CleanDomains(SplitOn(header, ',')))
  }

  // ---------------------------------------------------------------- segments

  datatype Kind = PlainLine | GlobalOptions | Snippet | Site | Other

  datatype Segment = Segment(kind: Kind, lines: Lines)

  predicate OpensBlock(line: string) {
    var s := Strip(line);
    s != "" && s[0] != '#' && '{' in s
  }

  function HeaderOf(line: string): string {
    var s := Strip(line);
    Strip(s[..Find(s, '{')])
  }

  function KindOf(line: string): Kind {
    if !OpensBlock(line) then PlainLine
    else
      var header := HeaderOf(line);
      if IsBlank(header) then GlobalOptions
      else if IsSnippetHeader(header) then Snippet
      else if IsSiteLabel(header) then Site
      else Other
  }

  /** How many further lines a block at `depth` takes: until it closes or the text ends. */
  function BlockTail(lines: Lines, depth: int): (n: nat)
    ensures n <= |lines|
  {
    if lines == [] || depth <= 0 then 0 else 1 + BlockTail(lines[1..], depth + Net(lines[0]))
  }

  predicate Closes(lines: Lines, depth: int) {
    depth <= 0 || (lines != [] && Closes(lines[1..], depth + Net(lines[0])))
  }

  /** Lines taken by the segment at the front. */
  function SizeOf(lines: Lines): (n: nat)
    requires lines != []
    ensures 1 <= n <= |lines|
  {
    if OpensBlock(lines[0]) then 1 + BlockTail(lines[1..], Net(lines[0])) else 1
  }

  function Segments(lines: Lines): seq<Segment>
    decreases |lines|
  {
    if lines == [] then []
    else
      var n := SizeOf(lines);
      [Segment(KindOf(lines[0]), lines[..n])] + Segments(lines[n..])
  }

  /** The text ends inside a block that is still open. */
  predicate EndsOpen(lines: Lines)
    decreases |lines|
  {
    lines != [] &&
    var n := SizeOf(lines);
    if n < |lines| then EndsOpen(lines[n..])
    else OpensBlock(lines[0]) && !Closes(lines[1..], Net(lines[0]))
  }

  // ---------------------------------------------------------------- the parse result

  datatype ParsedCaddyfile = ParsedCaddyfile(globalBlock: string, snippets: seq<string>, sites: seq<(string, string)>)

  function InlineBody(line: string): string {
    var s := Strip(line);
    var i := Find(s, '{');
    if i == |s| then "" else Strip(RStripChar(Strip(s[i + 1..]), '}'))
  }

  function BodyOf(block: Lines): string
    requires block != []
  {
    if Net(Strip(block[0])) == 0 then InlineBody(block[0])
    else Strip(JoinLines(if |block| > 2 then block[1..|block| - 1] else []))
  }

  function SiteOf(block: Lines): (string, string)
    requires block != []
  {
    (DomainOfLabel(HeaderOf(block[0])), BodyOf(block))
  }

  function BaselineOf(segments: seq<Segment>): Lines {
    if segments == [] then []
    else (if segments[0].kind == Site then [] else segments[0].lines) + BaselineOf(segments[1..])
  }

  function SnippetsOf(segments: seq<Segment>): seq<string> {
    if segments == [] then []
    else (if segments[0].kind == Snippet then [JoinLines(segments[0].lines)] else []) + SnippetsOf(segments[1..])
  }

  function SitesOf(segments: seq<Segment>): seq<(string, string)> {
    if segments == [] then []
    else
      var s := segments[0];
      (if s.kind == Site && s.lines != [] then [SiteOf(s.lines)] else []) + SitesOf(segments[1..])
  }

  function Flatten(segments: seq<Segment>): Lines {
    if segments == [] then [] else segments[0].lines + Flatten(segments[1..])
  }

  function ParseSegments(segments: seq<Segment>): ParsedCaddyfile {
    ParsedCaddyfile(Strip(JoinLines(BaselineOf(segments))), SnippetsOf(segments), SitesOf(segments))
  }

  function Parse(content: string): ParsedCaddyfile {
    ParseSegments(Segments(SplitLines(content)))
  }

  // ---------------------------------------------------------------- the loop of the source

  lemma {:induction false} BaselineConcat(a: seq<Segment>, b: seq<Segment>)
    ensures BaselineOf(a + b) == BaselineOf(a) + BaselineOf(b)
  {
    if a == [] {
      assert a + b == b;
    } else {
      assert (a + b)[1..] == a[1..] + b;
      BaselineConcat(a[1..], b);
    }
  }

  lemma {:induction false} SnippetsConcat(a: seq<Segment>, b: seq<Segment>)
    ensures SnippetsOf(a + b) == SnippetsOf(a) + SnippetsOf(b)
  {
    if a == [] {
      assert a + b == b;
    } else {
      assert (a + b)[1..] == a[1..] + b;
      SnippetsConcat(a[1..], b);
    }
  }

  lemma {:induction false} SitesConcat(a: seq<Segment>, b: seq<Segment>)
    ensures SitesOf(a + b) == SitesOf(a) + SitesOf(b)
  {
    hide SiteOf;
    if a == [] {
      assert a + b == b;
    } else {
      assert (a + b)[1..] == a[1..] + b;
      SitesConcat(a[1..], b);
    }
  }

  lemma SingleSegment(s: Segment)
    ensures BaselineOf([s]) == if s.kind == Site then [] else s.lines
    ensures SnippetsOf([s]) == if s.kind == Snippet then [JoinLines(s.lines)] else []
    ensures SitesOf([s]) == if s.kind == Site && s.lines != [] then [SiteOf(s.lines)] else []
  {
    assert [s][1..] == [];
  }

  /** What the three lists of the loop hold after the segments `done`. */
  ghost predicate Collected(done: seq<Segment>, parts: seq<string>, snippets: seq<string>,
      sites: seq<(string, string)>) {
    && JoinLines(parts) == JoinLines(BaselineOf(done))
    && (parts == [] <==> BaselineOf(done) == [])
    && snippets == SnippetsOf(done)
    && sites == SitesOf(done)
  }

  lemma CollectSegment(done: seq<Segment>, s: Segment, parts: seq<string>, snippets: seq<string>,
      sites: seq<(string, string)>)
    requires Collected(done, parts, snippets, sites) && s.lines != []
    ensures Collected(done + [s],
                      if s.kind == Site then parts else parts + [JoinLines(s.lines)],
                      if s.kind == Snippet then snippets + [JoinLines(s.lines)] else snippets,
                      if s.kind == Site then sites + [SiteOf(s.lines)] else sites)
  {
    hide JoinLines, SiteOf;
    BaselineConcat(done, [s]);
    SnippetsConcat(done, [s]);
    SitesConcat(done, [s]);
    SingleSegment(s);
    assert BaselineOf(done) + [] == BaselineOf(done) && snippets + [] == snippets && sites + [] == sites;
    if s.kind != Site {
      JoinAppended(parts, BaselineOf(done), s.lines);
    }
  }

  lemma JoinAppended(parts: seq<string>, before: Lines, block: Lines)
    requires JoinLines(parts) == JoinLines(before) && (parts == [] <==> before == []) && block != []
    ensures JoinLines(parts + [JoinLines(block)]) == JoinLines(before + block)
  {
    if parts == [] {
      assert parts + [JoinLines(block)] == [JoinLines(block)] && before + block == block;
    } else {
      JoinConcat(parts, [JoinLines(block)]);
      JoinConcat(before, block);
    }
  }

  lemma NothingCollected()
    ensures Collected([], [], [], [])
  {
  }

  lemma AllCollected(content: string, done: seq<Segment>, parts: seq<string>, snippets: seq<string>,
      sites: seq<(string, string)>)
    requires Collected(done, parts, snippets, sites)
    requires done == Segments(SplitLines(content))
    ensures Parse(content) == ParsedCaddyfile(Strip(JoinLines(parts)), snippets, sites)
  {
    hide Strip, JoinLines, BaselineOf, SnippetsOf, SitesOf, Segments, SplitLines;
  }

  method ParseCaddyfile(content: string) returns (parsed: ParsedCaddyfile)
    ensures parsed == Parse(content)
  {
    hide Net, Strip, JoinLines, KindOf, OpensBlock, SiteOf, SplitLines, SizeOf, Segments, Collected, Parse;
    var lines := SplitLines(content);
    var parts: seq<string>, snippets: seq<string>, sites: seq<(string, string)> := [], [], [];
    ghost var done: seq<Segment> := [];
    var i := 0;
    NothingCollected();
    assert lines[0..] == lines && done + Segments(lines) == Segments(lines);
    while i < |lines|
      invariant 0 <= i <= |lines|
      invariant Segments(lines) == done + Segments(lines[i..])
      invariant Collected(done, parts, snippets, sites)
    {
      ghost var n := SizeOf(lines[i..]);
      ghost var segment := Segment(KindOf(lines[i]), lines[i..i + n]);
      NextSegment(lines, i, done);
      CollectSegment(done, segment, parts, snippets, sites);
      if OpensBlock(lines[i]) {
        var block, end := TakeBlock(lines, i);
        var kind := KindOf(lines[i]);
        if kind == Site {
          sites := sites + [SiteOf(block)];
        } else {
          parts := parts + [JoinLines(block)];
          if kind == Snippet {
            snippets := snippets + [JoinLines(block)];
          }
        }
        i := end;
      } else {
        PlainStep(lines, i);
        parts := parts + [lines[i]];
        i := i + 1;
      }
      done := done + [segment];
    }
    NoMoreSegments(lines, i, done);
    AllCollected(content, done, parts, snippets, sites);
    parsed := ParsedCaddyfile(Strip(JoinLines(parts)), snippets, sites);
  }

  lemma NoMoreSegments(lines: Lines, i: nat, done: seq<Segment>)
    requires i == |lines| && Segments(lines) == done + Segments(lines[i..])
    ensures done == Segments(lines)
  {
    assert lines[i..] == [];
  }

  lemma PlainStep(lines: Lines, i: nat)
    requires i < |lines| && !OpensBlock(lines[i])
    ensures SizeOf(lines[i..]) == 1
    ensures JoinLines(lines[i..i + 1]) == lines[i]
    ensures KindOf(lines[i]) == PlainLine
  {
    hide OpensBlock;
    assert lines[i..][0] == lines[i];
  }

  lemma NextSegment(lines: Lines, i: nat, done: seq<Segment>)
    requires i < |lines|
    requires Segments(lines) == done + Segments(lines[i..])
    ensures var n := SizeOf(lines[i..]);
            Segments(lines) == (done + [Segment(KindOf(lines[i]), lines[i..i + n])]) + Segments(lines[i + n..])
  {
    hide *;
    var rest := lines[i..];
    var n := SizeOf(rest);
    SegmentsStep(rest);
    SliceOfRest(lines, i, n);
    MoveOne(done, Segment(KindOf(lines[i]), rest[..n]), Segments(rest[n..]));
  }

  lemma SliceOfRest(lines: Lines, i: nat, n: nat)
    requires i + n <= |lines|
    ensures lines[i..][..n] == lines[i..i + n] && lines[i..][n..] == lines[i + n..]
  {
  }

  lemma MoveOne(done: seq<Segment>, segment: Segment, tail: seq<Segment>)
    ensures done + ([segment] + tail) == (done + [segment]) + tail
  {
  }

  /** The inner loop: collect lines until the brace depth is back to zero. */
  method TakeBlock(lines: Lines, i: nat) returns (block: Lines, end: nat)
    requires i < |lines| && OpensBlock(lines[i])
    ensures end == i + SizeOf(lines[i..])
    ensures block == lines[i..end]
  {
    hide Net, OpensBlock;
    block := [lines[i]];
    var depth := Net(lines[i]);
    end := i + 1;
    assert lines[i..][1..] == lines[end..];
    while end < |lines| && depth > 0
      invariant i < end <= |lines|
      invariant block == lines[i..end]
      invariant 1 + BlockTail(lines[i + 1..], Net(lines[i])) == (end - i) + BlockTail(lines[end..], depth)
    {
      assert lines[end..][1..] == lines[end + 1..];
      block := block + [lines[end]];
      depth := depth + Net(lines[end]);
      end := end + 1;
    }
  }

  // ---------------------------------------------------------------- every line exactly once

  /** The segments, put back together, are the input: nothing lost, repeated or reordered. */
  lemma {:induction false} SegmentsCoverLines(lines: Lines)
    ensures Flatten(Segments(lines)) == lines
    decreases |lines|
  {
    hide SizeOf, KindOf;
    if lines != [] {
      var n := SizeOf(lines);
      SegmentsCoverLines(lines[n..]);
      assert lines == lines[..n] + lines[n..];
    }
  }

  lemma {:induction false} SegmentsNonEmpty(lines: Lines)
    ensures forall k :: 0 <= k < |Segments(lines)| ==> Segments(lines)[k].lines != []
    decreases |lines|
  {
    if lines != [] {
      SegmentsNonEmpty(lines[SizeOf(lines)..]);
    }
  }

  // ---------------------------------------------------------------- concatenation

  lemma {:induction false} TailConcat(a: Lines, b: Lines, depth: int)
    ensures Closes(a, depth) ==> BlockTail(a + b, depth) == BlockTail(a, depth)
    ensures !Closes(a, depth) ==> BlockTail(a, depth) == |a|
    ensures !Closes(a, depth) ==> depth + NetLines(a) > 0
    ensures !Closes(a, depth) ==> BlockTail(a + b, depth) == |a| + BlockTail(b, depth + NetLines(a))
    ensures Closes(a + b, depth) <==> Closes(a, depth) || Closes(b, depth + NetLines(a))
  {
    hide Net;
    if a == [] {
      assert a + b == b;
    } else if depth > 0 {
      assert (a + b)[1..] == a[1..] + b;
      TailConcat(a[1..], b, depth + Net(a[0]));
    }
  }

  lemma SegmentsStep(lines: Lines)
    requires lines != []
    ensures var n := SizeOf(lines);
            Segments(lines) == [Segment(KindOf(lines[0]), lines[..n])] + Segments(lines[n..])
  {
    hide SizeOf, KindOf;
  }

  lemma OneSegmentEndsOpen(lines: Lines)
    requires lines != [] && SizeOf(lines) == |lines|
    ensures EndsOpen(lines) <==> OpensBlock(lines[0]) && !Closes(lines[1..], Net(lines[0]))
  {
    hide SizeOf, OpensBlock, Closes, Net;
  }

  lemma SizeConcat(a: Lines, b: Lines)
    requires a != []
    requires SizeOf(a) < |a| || !EndsOpen(a)
    ensures SizeOf(a + b) == SizeOf(a)
  {
    hide Net, OpensBlock, BlockTail, Closes, EndsOpen;
    var ab := a + b;
    assert ab[0] == a[0] && ab[1..] == a[1..] + b;
    TailConcat(a[1..], b, Net(a[0]));
    if SizeOf(a) == |a| {
      OneSegmentEndsOpen(a);
    }
  }

  lemma EndsOpenStep(lines: Lines)
    requires lines != [] && SizeOf(lines) < |lines|
    ensures EndsOpen(lines) <==> EndsOpen(lines[SizeOf(lines)..])
  {
    hide SizeOf, OpensBlock, Closes, Net;
  }

  lemma NothingOpen()
    ensures !EndsOpen([]) && Segments([]) == []
  {
  }

  lemma {:induction false} DistributesWhenClosed(a: Lines, b: Lines)
    requires !EndsOpen(a)
    ensures Segments(a + b) == Segments(a) + Segments(b)
    ensures EndsOpen(a + b) <==> EndsOpen(b)
    decreases |a|
  {
    hide *;
    NothingOpen();
    if a == [] {
      assert a + b == b;
    } else if b == [] {
      assert a + b == a;
    } else {
      var n, ab := SizeOf(a), a + b;
      SizeConcat(a, b);
      SegmentsStep(a);
      SegmentsStep(ab);
      assert ab[..n] == a[..n] && ab[n..] == a[n..] + b;
      EndsOpenStep(ab);
      if n < |a| {
        EndsOpenStep(a);
      } else {
        assert a[n..] == [];
      }
      DistributesWhenClosed(a[n..], b);
    }
  }

  lemma OpenBlockGrows(a: Lines, b: Lines)
    requires EndsOpen(a) && b != [] && SizeOf(a) == |a|
    ensures SizeOf(a + b) > |a|
    ensures Segments(a + b)[0].lines != a
  {
    hide OpensBlock, KindOf, Net;
    assert (a + b)[1..] == a[1..] + b;
    TailConcat(a[1..], b, Net(a[0]));
    assert |(a + b)[..SizeOf(a + b)]| > |a|;
  }

  lemma {:induction false} MergesWhenOpen(a: Lines, b: Lines)
    requires EndsOpen(a) && b != []
    ensures Segments(a + b) != Segments(a) + Segments(b)
    decreases |a|
  {
    hide OpensBlock, KindOf, Net, BlockTail, Closes, SizeOf, Segments;
    var n := SizeOf(a);
    SegmentsStep(a);
    if n < |a| {
      SizeConcat(a, b);
      SegmentsStep(a + b);
      assert (a + b)[..n] == a[..n] && (a + b)[n..] == a[n..] + b;
      MergesWhenOpen(a[n..], b);
      assert Segments(a + b)[1..] == Segments(a[n..] + b);
      assert (Segments(a) + Segments(b))[1..] == Segments(a[n..]) + Segments(b);
    } else {
      OpenBlockGrows(a, b);
      assert a[..n] == a;
      assert (Segments(a) + Segments(b))[0] == Segments(a)[0];
    }
  }

  /** Parsing distributes over concatenation exactly when the first part leaves no block open. */
  lemma ParseDistributes(a: Lines, b: Lines)
    ensures Segments(a + b) == Segments(a) + Segments(b) <==> !EndsOpen(a) || b == []
  {
    if !EndsOpen(a) {
      DistributesWhenClosed(a, b);
    } else if b == [] {
      assert a + b == a && Segments(a) + Segments(b) == Segments(a);
    } else {
      MergesWhenOpen(a, b);
    }
  }

  // ---------------------------------------------------------------- parsing the extracted baseline again

  predicate NoSites(lines: Lines) {
    SitesOf(Segments(lines)) == []
  }

  /** No segment of the text is a site block, segment by segment. */
  lemma NoSitesStep(lines: Lines)
    requires lines != []
    ensures NoSites(lines) <==> KindOf(lines[0]) != Site && NoSites(lines[SizeOf(lines)..])
  {
    SegmentsStep(lines);
    hide SizeOf, KindOf, Segments, SiteOf;
  }

  lemma NoSitesEmpty()
    ensures NoSites([])
  {
  }

  lemma NoSitesAppend(a: Lines, b: Lines)
    requires !EndsOpen(a) && NoSites(a) && NoSites(b)
    ensures NoSites(a + b)
  {
    DistributesWhenClosed(a, b);
    SitesConcat(Segments(a), Segments(b));
    hide Segments, SitesOf, EndsOpen;
  }

  lemma BaselineStep(lines: Lines)
    requires lines != []
    ensures var n := SizeOf(lines);
            BaselineOf(Segments(lines)) == (if KindOf(lines[0]) == Site then [] else lines[..n])
              + BaselineOf(Segments(lines[n..]))
  {
    SegmentsStep(lines);
    hide SizeOf, KindOf, Segments;
  }

  /** A text made of one segment. */
  lemma OneSegment(block: Lines)
    requires block != [] && SizeOf(block) == |block|
    ensures NoSites(block) <==> KindOf(block[0]) != Site
  {
    hide *;
    NoSitesStep(block);
    NoSitesEmpty();
    assert block[|block|..] == [];
  }

  lemma SizeOfFront(lines: Lines)
    requires lines != []
    ensures var n := SizeOf(lines);
            SizeOf(lines[..n]) == n && (n < |lines| ==> !EndsOpen(lines[..n]))
  {
    hide Net, OpensBlock, EndsOpen;
    var n := SizeOf(lines);
    var front, rest := lines[1..n], lines[n..];
    assert lines[1..] == front + rest && lines[..n][1..] == front;
    TailConcat(front, rest, Net(lines[0]));
    OneSegmentEndsOpen(lines[..n]);
  }

  /** Taking the site blocks out leaves a text without site blocks. */
  lemma {:induction false} BaselineHasNoSites(lines: Lines)
    ensures NoSites(BaselineOf(Segments(lines)))
    decreases |lines|
  {
    if lines == [] {
    } else {
      hide *;
      var n := SizeOf(lines);
      var front, rest := lines[..n], BaselineOf(Segments(lines[n..]));
      BaselineStep(lines);
      BaselineHasNoSites(lines[n..]);
      SizeOfFront(lines);
      OneSegment(front);
      assert [] + rest == rest;
      if KindOf(lines[0]) != Site {
        if n == |lines| {
          NoLines();
          assert lines[n..] == [] && front + [] == front;
        } else {
          NoSitesAppend(front, rest);
        }
      }
    }
  }

  lemma NoLines()
    ensures BaselineOf(Segments([])) == []
  {
  }

  /** Only what `strip` keeps of each line decides how a text is segmented. */
  predicate SameStripped(a: Lines, b: Lines) {
    |a| == |b| && forall k :: 0 <= k < |a| ==> Strip(a[k]) == Strip(b[k])
  }

  lemma {:induction false} BlockTailStripped(a: Lines, b: Lines, depth: int)
    requires SameStripped(a, b)
    ensures BlockTail(a, depth) == BlockTail(b, depth)
  {
    hide Strip, Net;
    if a != [] && depth > 0 {
      NetOfStripEqual(a[0], b[0]);
      BlockTailStripped(a[1..], b[1..], depth + Net(a[0]));
    }
  }

  lemma FrontStripped(a: Lines, b: Lines)
    requires SameStripped(a, b) && a != []
    ensures SizeOf(a) == SizeOf(b) && KindOf(a[0]) == KindOf(b[0])
  {
    hide Strip, BlockTail, Net, KindOf;
    assert Strip(a[0]) == Strip(b[0]);
    NetOfStripEqual(a[0], b[0]);
    KindStripped(a[0], b[0]);
    BlockTailStripped(a[1..], b[1..], Net(a[0]));
  }

  lemma KindStripped(a: string, b: string)
    requires Strip(a) == Strip(b)
    ensures KindOf(a) == KindOf(b) && (OpensBlock(a) <==> OpensBlock(b))
  {
    hide Strip, IsSiteLabel, IsSnippetHeader, Find;
  }

  lemma {:induction false} NoSitesStripped(a: Lines, b: Lines)
    requires SameStripped(a, b) && NoSites(a)
    ensures NoSites(b)
    decreases |a|
  {
    hide Strip, SizeOf, KindOf, NoSites;
    if a == [] {
      assert b == [];
    } else {
      FrontStripped(a, b);
      NoSitesStep(a);
      NoSitesStep(b);
      var n := SizeOf(a);
      NoSitesStripped(a[n..], b[n..]);
    }
  }

  lemma BlankIsPlain(line: string)
    requires IsBlank(line)
    ensures !OpensBlock(line) && KindOf(line) == PlainLine
  {
    hide Strip;
  }

  lemma NoSitesDropFirst(lines: Lines)
    requires lines != [] && IsBlank(lines[0]) && NoSites(lines)
    ensures NoSites(lines[1..])
  {
    hide NoSites, OpensBlock, KindOf, IsBlank;
    BlankIsPlain(lines[0]);
    NoSitesStep(lines);
  }

  lemma {:induction false} NoSitesTrimStart(lines: Lines)
    requires NoSites(lines)
    ensures NoSites(TrimStart(lines))
  {
    hide NoSites, IsBlank, LStrip, Strip;
    if lines != [] {
      if IsBlank(lines[0]) {
        NoSitesDropFirst(lines);
        NoSitesTrimStart(lines[1..]);
      } else {
        StripOfLStrip(lines[0]);
        NoSitesStripped(lines, TrimStart(lines));
      }
    }
  }

  lemma DropLastSize(init: Lines, last: string)
    requires init != []
    ensures var n := SizeOf(init + [last]);
            SizeOf(init) == if n <= |init| then n else |init|
  {
    hide Net, OpensBlock;
    var lines := init + [last];
    assert lines[1..] == init[1..] + [last] && lines[0] == init[0];
    TailConcat(init[1..], [last], Net(init[0]));
  }

  lemma {:induction false} NoSitesDropLast(init: Lines, last: string)
    requires NoSites(init + [last])
    ensures NoSites(init)
    decreases |init|
  {
    hide *;
    var lines := init + [last];
    if init == [] {
      NoSitesEmpty();
    } else {
      var n := SizeOf(lines);
      NoSitesStep(lines);
      NoSitesStep(init);
      DropLastSize(init, last);
      if n <= |init| {
        assert lines[n..] == init[n..] + [last];
        NoSitesDropLast(init[n..], last);
      } else {
        assert init[SizeOf(init)..] == [];
        NoSitesEmpty();
      }
    }
  }

  lemma {:induction false} NoSitesTrimEnd(lines: Lines)
    requires NoSites(lines)
    ensures NoSites(TrimEnd(lines))
  {
    hide NoSites, IsBlank, RStrip, Strip;
    if lines != [] {
      var init, last := lines[..|lines| - 1], lines[|lines| - 1];
      assert lines == init + [last];
      if IsBlank(last) {
        NoSitesDropLast(init, last);
        NoSitesTrimEnd(init);
      } else {
        StripOfRStrip(last);
        NoSitesStripped(lines, TrimEnd(lines));
      }
    }
  }

  lemma {:induction false} BaselineOfAll(segments: seq<Segment>)
    requires SitesOf(segments) == [] && forall k :: 0 <= k < |segments| ==> segments[k].lines != []
    ensures BaselineOf(segments) == Flatten(segments)
  {
    hide SiteOf;
    if segments != [] {
      BaselineOfAll(segments[1..]);
    }
  }

  lemma NoSitesKeepsAll(lines: Lines)
    requires NoSites(lines)
    ensures BaselineOf(Segments(lines)) == lines
  {
    SegmentsNonEmpty(lines);
    SegmentsCoverLines(lines);
    BaselineOfAll(Segments(lines));
  }

  lemma {:induction false} WellFormedConcat(segments: seq<Segment>)
    requires WellFormed(Flatten(segments))
    ensures WellFormed(BaselineOf(segments))
  {
    if segments != [] {
      var head, rest := segments[0].lines, Flatten(segments[1..]);
      var all := head + rest;
      forall k | 0 <= k < |head| ensures OneLine(head[k]) {
        assert head[k] == all[k];
      }
      forall k | 0 <= k < |rest| ensures OneLine(rest[k]) {
        assert rest[k] == all[|head| + k];
      }
      hide OneLine;
      WellFormedConcat(segments[1..]);
    }
  }

  /** The extracted baseline holds no site, and extracting it again changes nothing. */
  lemma ReparseBaseline(content: string)
    ensures var p := Parse(content);
            Parse(p.globalBlock).sites == [] && Parse(p.globalBlock).globalBlock == p.globalBlock
  {
    var lines := SplitLines(content);
    var b := BaselineOf(Segments(lines));
    BaselineHasNoSites(lines);
    SegmentsCoverLines(lines);
    WellFormedConcat(Segments(lines));
    SplitTrimmed(b);
    NoSitesTrimStart(b);
    NoSitesTrimEnd(TrimStart(b));
    NoSitesKeepsAll(TrimLines(b));
    hide Segments, TrimStart, TrimEnd, BaselineOf, SitesOf, SnippetsOf, JoinLines, SplitLines, Strip;
    StripIdempotent(JoinLines(b));
    StripJoin(b);
  }
}
