/**
 Sites written on one line (app/utils/caddyfile.py:694-707): what `parse_caddyfile` takes for their
 directives.
 */
module InlineSites {
  import opened Text
  import opened Wrappers
  import opened Parser
  import opened SiteBlocks
  import opened RoundTrip
  import D = Domains
  import B = Directives
  import K = SitesKept

  // ---------------------------------------------------------------- the body of one line

  /** Only closing braces. */
  predicate AreClosing(s: string) {
    forall k :: 0 <= k < |s| ==> s[k] == '}'
  }

  lemma {:induction false} RunTaken(x: string, run: string)
    requires AreClosing(run) && (x == "" || x[|x| - 1] != '}')
    ensures RStripChar(x + run, '}') == x
  {
    if run == "" {
      assert x + run == x;
    } else {
      var rest := run[..|run| - 1];
      assert (x + run)[..|x + run| - 1] == x + rest;
      RunTaken(x, rest);
    }
  }

  lemma FoundAt(head: string, tail: string)
    requires '{' !in head
    ensures Find(head + "{" + tail, '{') == |head|
    ensures (head + "{" + tail)[..|head|] == head && (head + "{" + tail)[|head| + 1..] == tail
  {
    var s := head + "{" + tail;
    assert s[|head|] == '{' && forall k :: 0 <= k < |head| ==> s[k] == head[k];
  }

  /**
   The body of a line, with any braces in it: the text behind its first opening brace, without the
   run of closing braces at its end, trimmed.
   */
  lemma InlineBodyIs(line: string, head: string, tail: string, x: string, run: string)
    requires Strip(line) == head + "{" + tail && '{' !in head
    requires Strip(tail) == x + run && AreClosing(run) && (x == "" || x[|x| - 1] != '}')
    ensures InlineBody(line) == Strip(x)
  {
    FoundAt(head, tail);
    RunTaken(x, run);
    hide Strip, Find, RStripChar;
  }

  // ---------------------------------------------------------------- one site on one line

  function InlineSite(domain: string, body: string): string {
    domain + " { " + body + " }"
  }

  /** Directives that fit on the line: trimmed, and with as many braces closed as opened. */
  predicate FitsInline(body: string) {
    Strip(body) == body && OneLine(body) && Net(body) == 0
  }

  lemma InlineParts(domain: string, body: string)
    ensures InlineSite(domain, body) == (domain + " ") + "{" + (" " + body + " }")
    ensures InlineSite(domain, body) == (domain + " {") + (" " + body + " ") + "}"
  {
  }

  lemma InlineTail(body: string)
    requires Strip(body) == body
    ensures Strip(" " + body + " }") == (if body == "" then "" else body + " ") + "}"
    ensures Strip(body + " ") == body && Strip("") == ""
  {
    StripNothing();
    var all := body + " }";
    assert AllSpace(" ") && AllSpace("");
    if body == "" {
      assert " " + body + " }" == "  " + "}" + "" && AllSpace("  ");
      StripPadded("  ", "}", "");
      StripTrimmed("}");
      assert "" + " " == " ";
      AllSpaceStrips(" ");
    } else {
      B.StrippedEnds(body);
      assert all[0] == body[0] && all[|all| - 1] == '}';
      StripTrimmed(all);
      assert " " + body + " }" == " " + all + "";
      StripPadded(" ", all, "");
      assert "" + body + " " == body + " " && all == (body + " ") + "}";
      StripPadded("", body, " ");
    }
    hide *;
  }

  lemma InlineLine(domain: string, body: string)
    requires D.IsStored(domain) && FitsInline(body)
    ensures var line := InlineSite(domain, body);
            && OneLine(line) && Strip(line) == line && Net(line) == 0
            && OpensBlock(line) && HeaderOf(line) == domain && KindOf(line) == Site
  {
    hide *;
    var line := InlineSite(domain, body);
    FitsIs(body);
    StoredHeader(domain);
    StoredLabel(domain);
    LabelChars(domain);
    StoredIsSiteLabel(domain);
    B.HeaderLine(domain);
    B.OpeningNet();
    InlineParts(domain, body);
    HeaderLineFacts(domain);
    InlineNet(domain, body);
    InlineShape(domain, body);
    FoundAt(domain + " ", " " + body + " }");
    HeaderAt(line, domain);
    NotSnippet(domain);
    SiteKind(line);
  }

  lemma FitsIs(body: string)
    requires FitsInline(body)
    ensures Strip(body) == body && OneLine(body) && Net(body) == 0
  {
  }

  lemma InlineNet(domain: string, body: string)
    requires Net(domain + " {") == 1 && Net("}") == -1 && Net(body) == 0
    ensures Net(InlineSite(domain, body)) == 0
  {
    InlineParts(domain, body);
    NetConcat(domain + " {", " " + body + " ");
    NetConcat(domain + " {" + (" " + body + " "), "}");
    NetConcat(" " + body, " ");
    NetConcat(" ", body);
    OneBrace();
    hide *;
  }

  lemma InlineShape(domain: string, body: string)
    requires IsLabelText(domain) && domain != "" && D.IsAlnum(domain[0]) && '{' !in domain && domain[0] != '#'
        && OneLine(body)
    ensures var line := InlineSite(domain, body);
            OneLine(line) && line != "" && Strip(line) == line && line[0] != '#' && '{' in line && '{' !in domain + " "
  {
    var line := InlineSite(domain, body);
    InlineParts(domain, body);
    assert line[0] == domain[0] && line[|line| - 1] == '}' && line[|domain| + 1] == '{';
    StripTrimmed(line);
    hide Strip;
  }

  lemma HeaderAt(line: string, domain: string)
    requires Strip(line) == line != "" && line[0] != '#' && '{' in line
    requires Find(line, '{') == |domain| + 1 <= |line| && line[..|domain| + 1] == domain + " "
        && Strip(domain) == domain
    ensures HeaderOf(line) == domain && OpensBlock(line)
  {
    assert AllSpace(" ") && AllSpace("");
    StripPadded("", domain, " ");
    assert "" + domain + " " == domain + " ";
    hide Strip, Find;
  }

  /** The parsed directives of such a site are the ones written, braces and all. */
  lemma InlineSiteOf(domain: string, body: string)
    requires D.IsStored(domain) && FitsInline(body)
    ensures SiteOf([InlineSite(domain, body)]) == (domain, body)
  {
    hide *;
    var line := InlineSite(domain, body);
    FitsIs(body);
    InlineLine(domain, body);
    InlineParts(domain, body);
    StoredIsSiteLabel(domain);
    StoredLabel(domain);
    LabelChars(domain);
    NoBraceBefore(domain);
    InlineTail(body);
    EndsInSpace(body);
    InlineBodyIs(line, domain + " ", " " + body + " }", if body == "" then "" else body + " ", "}");
    SiteOfLine(line);
  }

  lemma NoBraceBefore(domain: string)
    requires '{' !in domain
    ensures '{' !in domain + " "
  {
  }

  lemma EndsInSpace(body: string)
    ensures (body + " ")[|body + " "| - 1] != '}' && AreClosing("}")
  {
  }

  lemma SiteOfLine(line: string)
    requires Strip(line) == line && Net(line) == 0
    ensures SiteOf([line]) == (DomainOfLabel(HeaderOf(line)), InlineBody(line))
  {
    hide Strip, Net, DomainOfLabel, HeaderOf, InlineBody;
  }

  // ---------------------------------------------------------------- inside a text

  lemma InlineSegment(domain: string, body: string)
    requires D.IsStored(domain) && FitsInline(body)
    ensures var lines := [InlineSite(domain, body)];
            && SizeOf(lines) == 1 && !EndsOpen(lines)
            && SitesOf(Segments(lines)) == [(domain, body)] && BaselineOf(Segments(lines)) == []
  {
    hide *;
    var line := InlineSite(domain, body);
    InlineLine(domain, body);
    InlineSiteOf(domain, body);
    K.SizeOfIs(line, []);
    K.TailDone([]);
    assert [line] + [] == [line] && [line][1..] == [] && [line][..1] == [line];
    NothingOpen();
    NetLinesStep([line]);
    NoNetLines();
    K.BalancedFront([line], 1);
    SegmentsStep([line]);
    OneSiteSegment(line, (domain, body));
  }

  lemma OneSiteSegment(line: string, site: (string, string))
    requires Segments([line]) == [Segment(Site, [line])] + [] && SiteOf([line]) == site
    ensures SitesOf(Segments([line])) == [site] && BaselineOf(Segments([line])) == []
  {
    hide Segments, SiteOf;
    assert [Segment(Site, [line])] + [] == [Segment(Site, [line])];
    assert [Segment(Site, [line])][1..] == [];
    assert SitesOf([]) == [] && BaselineOf([]) == [];
  }

  /**
   In a longer text: where nothing is open, the line is the one site it stands for and adds nothing
   to the baseline.
   */
  lemma InlineSiteWithin(front: Lines, domain: string, body: string, tail: Lines)
    requires !EndsOpen(front) && D.IsStored(domain) && FitsInline(body)
    ensures var lines := front + ([InlineSite(domain, body)] + tail);
            && SitesOf(Segments(lines)) == SitesOf(Segments(front)) + ([(domain, body)] + SitesOf(Segments(tail)))
            && BaselineOf(Segments(lines)) == BaselineOf(Segments(front)) + BaselineOf(Segments(tail))
  {
    hide *;
    var line := [InlineSite(domain, body)];
    InlineSegment(domain, body);
    DistributesWhenClosed(front, line + tail);
    DistributesWhenClosed(line, tail);
    SitesConcat(Segments(front), Segments(line + tail));
    SitesConcat(Segments(line), Segments(tail));
    BaselineConcat(Segments(front), Segments(line + tail));
    BaselineConcat(Segments(line), Segments(tail));
    assert [] + BaselineOf(Segments(tail)) == BaselineOf(Segments(tail));
  }

  /** A text that is one such line parses to that site and an empty baseline. */
  lemma InlineSiteParses(domain: string, body: string)
    requires D.IsStored(domain) && FitsInline(body)
    ensures var p := Parse(InlineSite(domain, body));
            p.sites == [(domain, body)] && p.globalBlock == "" && p.snippets == []
  {
    hide *;
    var line := InlineSite(domain, body);
    InlineLine(domain, body);
    InlineSegment(domain, body);
    SegmentsStep([line]);
    NothingOpen();
    assert [line][1..] == [] && [line][..1] == [line];
    NotEmpty(domain, body);
    SplitOneLine(line);
    ParsedLine(line);
  }

  lemma NotEmpty(domain: string, body: string)
    ensures InlineSite(domain, body) != ""
  {
  }

  lemma ParsedLine(line: string)
    requires SplitLines(line) == [line] && Segments([line]) == [Segment(Site, [line])] + []
    requires BaselineOf(Segments([line])) == []
    ensures Parse(line).sites == SitesOf(Segments([line])) && Parse(line).globalBlock == ""
        && Parse(line).snippets == []
  {
    StripNothing();
    hide Segments, SitesOf, SplitLines, Strip;
    assert ([Segment(Site, [line])] + [])[1..] == [];
    assert SnippetsOf([]) == [];
  }
}
