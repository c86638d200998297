/**
 What `parse_caddyfile` makes of each piece of a Caddyfile (app/utils/caddyfile.py:623-743): which
 lines are one block, what kind of block it is, and what it adds to sites, snippets and baseline.
 */
module ParsedBlocks {
  import opened Text
  import opened Parser
  import D = Domains
  import L = SiteLabels

  // ---------------------------------------------------------------- kinds

  /** A line opens a block exactly if there is a brace on it and it is no comment. */
  lemma OpensIs(pad: string, rest: string)
    requires AllSpace(pad) && rest != "" && !IsSpace(rest[0])
    ensures OpensBlock(pad + rest) <==> '{' in rest && rest[0] != '#'
  {
    var line := pad + rest;
    LStripPrefix(pad, rest);
    LStripTrimmed(rest);
    RStripSpaces(rest);
    hide LStrip, RStrip;
    var s := Strip(line);
    assert s == RStrip(rest) && rest[..|s|] == s;
    NoBraceInSpace(rest[|s|..]);
    assert rest == s + rest[|s|..];
    StartsWithText(rest, s);
  }

  lemma StartsWithText(rest: string, s: string)
    requires rest != "" && !IsSpace(rest[0]) && s <= rest && AllSpace(rest[|s|..])
    ensures s != "" && s[0] == rest[0]
  {
  }

  lemma NoBraceInSpace(s: string)
    requires AllSpace(s)
    ensures '{' !in s
  {
  }

  lemma BlankOpensNothing(line: string)
    requires AllSpace(line)
    ensures !OpensBlock(line)
  {
    AllSpaceStrips(line);
    hide Strip;
  }

  /** `(name)`, with white space around it or not. */
  predicate IsSnippetText(head: string, before: string, name: string, after: string) {
    && AllSpace(before) && AllSpace(after) && head == before + ("(" + name + ")") + after && name != ""
    && forall k :: 0 <= k < |name| ==> IsNameChar(name[k])
  }

  /** A letter, a digit, an underscore or a dash. */
  predicate IsNameChar(c: char) {
    c in {'_', '-'} || '0' <= c <= '9' || 'a' <= D.LowerChar(c) <= 'z'
  }

  lemma SnippetHeaderIs(head: string)
    ensures IsSnippetHeader(head) <==>
        exists before: string, name: string, after: string :: IsSnippetText(head, before, name, after)
  {
    hide *;
    if IsSnippetHeader(head) {
      var before, after := StripParts(head);
      var name := NameInside(head);
      Surrounded(head, before, name, after);
    }
    forall before: string, name: string, after: string | IsSnippetText(head, before, name, after)
      ensures IsSnippetHeader(head)
    {
      Enclosed(head, before, name, after);
    }
  }

  lemma NameCharIs(c: char)
    ensures IsSnippetNameChar(c) <==> IsNameChar(c)
  {
  }

  lemma NameInside(head: string) returns (name: string)
    requires IsSnippetHeader(head)
    ensures Strip(head) == "(" + name + ")" && name != "" && forall k :: 0 <= k < |name| ==> IsNameChar(name[k])
  {
    var h := Strip(head);
    name := h[1..|h| - 1];
    hide Strip, IsSnippetNameChar, IsNameChar;
    forall k | 0 <= k < |name| ensures IsNameChar(name[k]) {
      NameCharIs(h[k + 1]);
    }
  }

  lemma Surrounded(head: string, before: string, name: string, after: string)
    requires head == before + Strip(head) + after && AllSpace(before) && AllSpace(after)
    requires Strip(head) == "(" + name + ")" && name != "" && forall k :: 0 <= k < |name| ==> IsNameChar(name[k])
    ensures IsSnippetText(head, before, name, after)
  {
    hide Strip, IsNameChar, AllSpace;
  }

  lemma Enclosed(head: string, before: string, name: string, after: string)
    requires IsSnippetText(head, before, name, after)
    ensures Strip(head) == "(" + name + ")" && IsSnippetHeader(head)
  {
    var h := "(" + name + ")";
    StripPadded(before, h, after);
    StripTrimmed(h);
    hide Strip, IsNameChar, IsSnippetNameChar, AllSpace, IsSpace;
    forall k | 0 < k < |h| - 1 ensures IsSnippetNameChar(h[k]) {
      NameCharIs(name[k - 1]);
    }
  }

  lemma HeaderIs(pad: string, head: string, tail: string)
    requires AllSpace(pad) && '{' !in head && (head == "" || !IsSpace(head[0]))
    ensures HeaderOf(pad + head + "{" + tail) == Strip(head)
  {
    hide Strip, LStrip, RStrip, IsSpace;
    var line := pad + head + "{" + tail;
    StripFront(pad, head, tail);
    var cut := RStrip("{" + tail)[1..];
    assert Strip(line) == head + ['{'] + cut;
    FindInConcat(head, '{', cut);
    assert (head + ['{'] + cut)[..|head|] == head;
  }

  lemma StripFront(pad: string, head: string, tail: string)
    requires AllSpace(pad) && (head == "" || !IsSpace(head[0]))
    ensures var end := RStrip("{" + tail);
            end != "" && end[0] == '{' && Strip(pad + head + "{" + tail) == head + [end[0]] + end[1..]
  {
    hide LStrip, RStrip, AllSpace;
    var rest := "{" + tail;
    BraceNotSpace(tail);
    assert pad + head + "{" + tail == pad + (head + rest);
    LStripPrefix(pad, head + rest);
    LStripTrimmed(head + rest);
    RStripConcat(head, rest);
    assert RStrip(rest) == [RStrip(rest)[0]] + RStrip(rest)[1..];
  }

  lemma BraceNotSpace(tail: string)
    ensures !AllSpace("{" + tail) && !IsSpace('{') && RStrip("{" + tail) != "" && RStrip("{" + tail)[0] == '{'
  {
    var rest := "{" + tail;
    assert rest[0] == '{';
    RStripSpaces(rest);
    BlankIsAllSpace(rest);
    LStripTrimmed(rest);
    hide LStrip, RStrip;
    StartsWithText(rest, RStrip(rest));
  }

  /** The kind of a block by the text in front of its first brace. */
  lemma KindIs(pad: string, head: string, tail: string)
    requires AllSpace(pad) && '{' !in head && (head == "" || (!IsSpace(head[0]) && head[0] != '#'))
    ensures var kind := KindOf(pad + head + "{" + tail);
            && (kind == GlobalOptions <==> AllSpace(head))
            && (kind == Snippet <==>
                  exists before: string, name: string, after: string :: IsSnippetText(head, before, name, after))
            && (kind == Site <==> !AllSpace(head) && IsSiteLabel(Strip(head)))
            && kind != PlainLine
  {
    var line := pad + head + "{" + tail;
    assert line == pad + (head + "{" + tail);
    OpensIs(pad, head + "{" + tail);
    assert (head + "{" + tail)[|head|] == '{';
    HeaderIs(pad, head, tail);
    BlankIsAllSpace(Strip(head));
    BlankIsAllSpace(head);
    StripIdempotent(head);
    SnippetHeaderIs(head);
    SnippetStripped(head);
    if IsSnippetHeader(head) {
      NotALabel(head);
    }
    hide Strip, AllSpace, IsSiteLabel, IsSnippetHeader, OpensBlock, HeaderOf;
  }

  lemma SnippetStripped(head: string)
    ensures IsSnippetHeader(Strip(head)) <==> IsSnippetHeader(head)
    ensures IsSnippetHeader(head) ==> Strip(head) != ""
  {
    StripIdempotent(head);
    hide Strip;
  }

  /** No snippet header is a site label. */
  lemma NotALabel(head: string)
    requires IsSnippetHeader(head)
    ensures !IsSiteLabel(Strip(head))
  {
    StripIdempotent(head);
    var s := Strip(head);
    hide Strip, IsAddress;
    L.NothingTaken(s, ',');
    if IsSiteLabel(s) {
      SnippetPart(s);
    }
  }

  lemma SnippetPart(s: string)
    requires Strip(s) == s && |s| > 2 && s[0] == '(' && s[|s| - 1] == ')'
    requires forall k :: 0 < k < |s| - 1 ==> IsSnippetNameChar(s[k])
    ensures var parts := SplitOn(s, ','); parts == [s] && !IsAddress(Strip(parts[0]))
  {
    NoDotInside(s);
    hide *;
    OnePart(s);
    if IsAddress(s) {
      L.EntryStart(s);
      assert false;
    }
  }

  lemma OnePart(s: string)
    requires ',' !in s
    ensures SplitOn(s, ',') == [s]
  {
    L.SplitOnJoined([s], ',');
  }

  lemma NoDotInside(s: string)
    requires |s| > 2 && s[0] == '(' && s[|s| - 1] == ')' && forall k :: 0 < k < |s| - 1 ==> IsSnippetNameChar(s[k])
    ensures '.' !in s && ',' !in s
  {
  }

  // ---------------------------------------------------------------- which lines are one block

  /** The braces of the first line are open behind every line but the last, where they are closed. */
  predicate IsBlock(block: Lines) {
    block != [] && OpensBlock(block[0]) && NetLines(block) <= 0 && forall k :: 0 < k < |block| ==>
        NetLines(block[..k]) > 0
  }

  /** They are open behind every line. */
  predicate IsOpenBlock(block: Lines) {
    block != [] && OpensBlock(block[0]) && forall k :: 0 < k <= |block| ==> NetLines(block[..k]) > 0
  }

  lemma {:induction false} TailTaken(lines: Lines, depth: int, n: nat)
    requires n <= |lines| && forall k :: 0 <= k < n ==> depth + NetLines(lines[..k]) > 0
    requires n < |lines| ==> depth + NetLines(lines[..n]) <= 0
    ensures BlockTail(lines, depth) == n
    ensures Closes(lines, depth) <==> depth + NetLines(lines[..n]) <= 0
    decreases |lines|
  {
    hide Net;
    NoNetLines();
    assert lines[..0] == [];
    if n > 0 {
      assert depth + NetLines(lines[..0]) > 0;
      var d := depth + Net(lines[0]);
      forall k | 0 <= k < |lines| ensures d + NetLines(lines[1..][..k]) == depth + NetLines(lines[..k + 1]) {
        NetOfTail(lines, k);
      }
      TailTaken(lines[1..], d, n - 1);
    }
  }

  lemma NetOfTail(lines: Lines, k: nat)
    requires k < |lines|
    ensures NetLines(lines[..k + 1]) == Net(lines[0]) + NetLines(lines[1..][..k])
  {
    NetLinesStep(lines[..k + 1]);
    assert lines[..k + 1][1..] == lines[1..][..k];
    hide Net, NetLines;
  }

  /** Such lines are one segment, and nothing is left open behind them. */
  lemma BlockIsSegment(block: Lines)
    requires IsBlock(block)
    ensures Segments(block) == [Segment(KindOf(block[0]), block)] && !EndsOpen(block)
  {
    hide Net, OpensBlock, KindOf;
    var rest, depth := block[1..], Net(block[0]);
    NoNetLines();
    assert block[..|block|] == block && rest[..|rest|] == rest;
    forall k | 0 <= k < |block| ensures depth + NetLines(rest[..k]) == NetLines(block[..k + 1]) {
      NetOfTail(block, k);
    }
    TailTaken(rest, depth, |rest|);
    assert block[|block|..] == [] && [Segment(KindOf(block[0]), block)] + [] == [Segment(KindOf(block[0]), block)];
  }

  /** Lines whose braces stay open are one segment too, which takes all that follows. */
  lemma OpenBlockIsSegment(block: Lines)
    requires IsOpenBlock(block)
    ensures Segments(block) == [Segment(KindOf(block[0]), block)] && EndsOpen(block)
  {
    hide Net, OpensBlock, KindOf;
    var rest, depth := block[1..], Net(block[0]);
    NoNetLines();
    assert block[..|block|] == block && rest[..|rest|] == rest;
    forall k | 0 <= k < |block| ensures depth + NetLines(rest[..k]) == NetLines(block[..k + 1]) {
      NetOfTail(block, k);
    }
    TailTaken(rest, depth, |rest|);
    assert block[|block|..] == [] && [Segment(KindOf(block[0]), block)] + [] == [Segment(KindOf(block[0]), block)];
  }

  lemma PlainIsSegment(line: string)
    requires !OpensBlock(line)
    ensures Segments([line]) == [Segment(PlainLine, [line])] && !EndsOpen([line])
  {
    hide Net, OpensBlock;
    assert [line][1..] == [] && [line][..1] == [line];
    assert [Segment(PlainLine, [line])] + [] == [Segment(PlainLine, [line])];
  }

  // ---------------------------------------------------------------- what a piece adds

  /** What stands in front and behind is parsed as it would be alone. */
  lemma PiecesApart(front: Lines, piece: Lines, tail: Lines, s: Segment)
    requires !EndsOpen(front) && !EndsOpen(piece) && Segments(piece) == [s]
    ensures var all := Segments(front + (piece + tail));
            && SitesOf(all) == SitesOf(Segments(front)) + (SitesOf([s]) + SitesOf(Segments(tail)))
            && BaselineOf(all) == BaselineOf(Segments(front)) + (BaselineOf([s]) + BaselineOf(Segments(tail)))
            && SnippetsOf(all) == SnippetsOf(Segments(front)) + (SnippetsOf([s]) + SnippetsOf(Segments(tail)))
  {
    hide *;
    ParseDistributes(front, piece + tail);
    ParseDistributes(piece, tail);
    SitesConcat(Segments(front), Segments(piece + tail));
    SitesConcat(Segments(piece), Segments(tail));
    BaselineConcat(Segments(front), Segments(piece + tail));
    BaselineConcat(Segments(piece), Segments(tail));
    SnippetsConcat(Segments(front), Segments(piece + tail));
    SnippetsConcat(Segments(piece), Segments(tail));
  }

  /** A line outside blocks that opens none stays in the baseline. */
  lemma PlainLineWithin(front: Lines, line: string, tail: Lines)
    requires !EndsOpen(front) && !OpensBlock(line)
    ensures var all := Segments(front + ([line] + tail));
            && SitesOf(all) == SitesOf(Segments(front)) + SitesOf(Segments(tail))
            && BaselineOf(all) == BaselineOf(Segments(front)) + ([line] + BaselineOf(Segments(tail)))
            && SnippetsOf(all) == SnippetsOf(Segments(front)) + SnippetsOf(Segments(tail))
  {
    hide *;
    PlainIsSegment(line);
    PiecesApart(front, [line], tail, Segment(PlainLine, [line]));
    SingleSegment(Segment(PlainLine, [line]));
    NothingAdded(SitesOf(Segments(tail)));
    NothingAdded(SnippetsOf(Segments(tail)));
  }

  lemma NothingAdded<T>(s: seq<T>)
    ensures [] + s == s
  {
  }

  /**
   A closed block: a site block adds its domains with its inner lines, trimmed, to the sites and
   nothing to the baseline; any other block stays in the baseline, and a snippet is listed as well.
   */
  lemma BlockWithin(front: Lines, first: string, inner: Lines, last: string, tail: Lines)
    requires var block := [first] + inner + [last]; !EndsOpen(front) && IsBlock(block)
    ensures var block, kind := [first] + inner + [last], KindOf(first);
            var all := Segments(front + (block + tail));
            var site := (DomainOfLabel(HeaderOf(first)), Strip(JoinLines(inner)));
            && SitesOf(all) ==
                 SitesOf(Segments(front)) + ((if kind == Site then [site] else []) + SitesOf(Segments(tail)))
            && BaselineOf(all) ==
                 BaselineOf(Segments(front)) + ((if kind == Site then [] else block) + BaselineOf(Segments(tail)))
            && SnippetsOf(all) ==
                 SnippetsOf(Segments(front))
                 + ((if kind == Snippet then [JoinLines(block)] else []) + SnippetsOf(Segments(tail)))
  {
    hide *;
    var block := [first] + inner + [last];
    BlockIsSegment(block);
    PiecesApart(front, block, tail, Segment(KindOf(first), block));
    SingleSegment(Segment(KindOf(first), block));
    OpensOnFirst(block);
    LongBody(first, inner, last);
  }

  lemma OpensOnFirst(block: Lines)
    requires IsBlock(block) && |block| > 1
    ensures Net(block[0]) > 0
  {
    assert NetLines(block[..1]) > 0;
    NetOfTail(block, 0);
    NoNetLines();
    hide Net;
    assert block[1..][..0] == [];
  }

  lemma LongBody(first: string, inner: Lines, last: string)
    requires Net(first) != 0
    ensures SiteOf([first] + inner + [last]) == (DomainOfLabel(HeaderOf(first)), Strip(JoinLines(inner)))
  {
    var block := [first] + inner + [last];
    NetStrip(first);
    hide Strip, Net, DomainOfLabel, HeaderOf;
    assert block[1..|block| - 1] == inner && block[0] == first;
  }

  /** A line that closes more braces than it opens is a block without a body. */
  lemma ClosingLineHasNoBody(line: string)
    requires Net(line) < 0
    ensures BodyOf([line]) == ""
  {
    NetStrip(line);
    StripNothing();
    hide Strip, Net;
    assert JoinLines([]) == "";
  }

  /**
   A site block that is still open at the end of the text loses its last line: whatever stands on
   it, it is neither in the directives nor in the baseline.
   */
  lemma OpenSiteLosesLine(front: Lines, first: string, inner: Lines, last: string)
    requires var block := [first] + inner + [last]; !EndsOpen(front) && IsOpenBlock(block) && KindOf(first) == Site
    ensures var all := Segments(front + ([first] + inner + [last]));
            && SitesOf(all) == SitesOf(Segments(front)) + [(DomainOfLabel(HeaderOf(first)), Strip(JoinLines(inner)))]
            && BaselineOf(all) == BaselineOf(Segments(front))
  {
    hide *;
    var block := [first] + inner + [last];
    OpenBlockIsSegment(block);
    ParseDistributes(front, block);
    SitesConcat(Segments(front), Segments(block));
    BaselineConcat(Segments(front), Segments(block));
    SingleSegment(Segment(Site, block));
    OpenOnFirst(block);
    LongBody(first, inner, last);
    assert BaselineOf(Segments(front)) + [] == BaselineOf(Segments(front));
  }

  lemma OpenOnFirst(block: Lines)
    requires IsOpenBlock(block)
    ensures Net(block[0]) > 0
  {
    assert NetLines(block[..1]) > 0;
    NetOfTail(block, 0);
    NoNetLines();
    hide Net;
    assert block[1..][..0] == [];
  }

  // ---------------------------------------------------------------- the domains of a label

  /** The domains of a label: those of its addresses, in order, joined by commas. */
  lemma DomainsOfLabel(header: string, parts: seq<string>, names: seq<string>)
    requires parts == SplitOn(header, ',') && |names| == |parts|
    requires forall k :: 0 <= k < |parts| ==> IsDomainOf(Strip(parts[k]), names[k])
    ensures DomainOfLabel(header) == D.JoinNames(names)
  {
    hide IsDomainOf, Strip, D.JoinNames;
    CleanedAre(parts, names);
  }

  /** An address with its scheme in small letters, and its wildcard and name. */
  ghost predicate IsDomainOf(entry: string, name: string) {
    exists scheme, star, host, port ::
      L.IsEntry(entry, scheme, star, host, port) && scheme <= entry && name == star + host
  }

  lemma {:induction false} CleanedAre(parts: seq<string>, names: seq<string>)
    requires |names| == |parts| && forall k :: 0 <= k < |parts| ==> IsDomainOf(Strip(parts[k]), names[k])
    ensures CleanDomains(parts) == names
  {
    hide *;
    if parts == [] {
      NothingCleaned();
    } else {
      OneCleaned(Strip(parts[0]), names[0]);
      FirstCleaned(parts);
      CleanedAre(parts[1..], names[1..]);
      assert names == [names[0]] + names[1..];
    }
  }

  lemma OneCleaned(entry: string, name: string)
    requires IsDomainOf(entry, name)
    ensures CleanDomains([entry]) == [name]
  {
    var scheme, star, host, port :| L.IsEntry(entry, scheme, star, host, port) && scheme <= entry
      && name == star + host;
    hide *;
    L.DomainOfEntry(entry, scheme, star, host, port);
  }

  lemma FirstCleaned(parts: seq<string>)
    requires parts != []
    ensures CleanDomains(parts) == CleanDomains([Strip(parts[0])]) + CleanDomains(parts[1..])
  {
    hide *;
    StripIdempotent(parts[0]);
    var one := [Strip(parts[0])];
    CleanStep(parts);
    CleanStep(one);
    NothingCleaned();
    assert one[1..] == [];
  }

  /** The domain of one part, if there is one. */
  function Cleaned(part: string): seq<string> {
    var bare := DropScheme(Strip(part));
    var host := bare[..Find(bare, ':')];
    if host == "" then [] else [D.Lower(host)]
  }

  lemma CleanStep(parts: seq<string>)
    requires parts != []
    ensures CleanDomains(parts) == Cleaned(parts[0]) + CleanDomains(parts[1..])
    ensures forall part: string :: Strip(part) == Strip(parts[0]) ==> Cleaned(part) == Cleaned(parts[0])
  {
    hide Strip, DropScheme, D.Lower;
  }

  lemma NothingCleaned()
    ensures CleanDomains([]) == []
  {
  }
}
