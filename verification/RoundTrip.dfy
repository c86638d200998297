/**
 Parsing the full generated Caddyfile gives the sites and the baseline back
 (app/services/caddyfile_manager.py `build_full_caddyfile`, app/utils/caddyfile.py `parse_caddyfile`).
 */
module RoundTrip {
  import opened Text
  import opened Wrappers
  import opened Parser
  import opened SiteBlocks
  import D = Domains
  import B = Directives
  import S = Sorting
  import Pre = Preparation

  // ---------------------------------------------------------------- a stored domain is a site label

  /** Text made of letters, digits, dashes and dots. */
  predicate IsHostText(s: string) {
    forall k :: 0 <= k < |s| ==> D.IsAlnum(s[k]) || s[k] == '-' || s[k] == '.'
  }

  predicate NoSpaces(s: string) {
    forall k :: 0 <= k < |s| ==> !IsSpace(s[k])
  }

  lemma HostTextChars(s: string)
    requires IsHostText(s)
    ensures ',' !in s && ':' !in s && NoSpaces(s) && Find(s, ':') == |s|
    ensures D.Lower(s) == s
  {
    hide D.Lower;
    D.LowerFixed(s);
  }

  lemma HostTextPrefixes(s: string)
    requires IsHostText(s) && s != "" && D.IsAlnum(s[0])
    ensures DropScheme(s) == s && DropPrefix(s, "*.") == s
  {
    assert "http://"[4] == ':' && "https://"[5] == ':' && "*."[0] == '*';
  }

  lemma NameFacts(name: string)
    requires D.IsName(name)
    ensures ',' !in name && NoSpaces(name) && name != "" && '.' in name
    ensures Strip(name) == name && D.Lower(name) == name
    ensures DropScheme(name) == name && DropPrefix(name, "*.") == name
    ensures Find(name, ':') == |name|
    ensures name[|name| - 1] != ','
    ensures D.IsDotted(name)
  {
    hide D.Lower, Find, DropScheme, DropPrefix, D.LabelsFit;
    D.NameChars(name);
    StripTrimmed(name);
    HostTextChars(name);
    HostTextPrefixes(name);
  }

  lemma NameIsAddress(name: string)
    requires D.IsName(name)
    ensures IsAddress(name)
  {
    hide D.IsName, Strip, D.Lower, DropScheme, DropPrefix, D.IsDotted, Find;
    NameFacts(name);
    assert name[..|name|] == name;
  }

  predicate StripsTo(parts: seq<string>, names: seq<string>) {
    |parts| == |names| && forall k :: 0 <= k < |parts| ==> Strip(parts[k]) == names[k]
  }

  lemma StripsToCons(part: string, parts: seq<string>, names: seq<string>)
    requires names != [] && Strip(part) == names[0] && StripsTo(parts, names[1..])
    ensures StripsTo([part] + parts, names)
  {
    hide Strip;
  }

  lemma NoCommaPadded(pad: string, name: string)
    requires AllSpace(pad) && ',' !in name
    ensures ',' !in pad + name
  {
  }

  lemma JoinNamesStep(names: seq<string>)
    requires names != [] && D.AllNames(names)
    ensures D.IsName(names[0]) && D.AllNames(names[1..])
    ensures names[1..] == [] ==> D.JoinNames(names) == names[0]
    ensures names[1..] != [] ==> D.JoinNames(names) == names[0] + ", " + D.JoinNames(names[1..])
  {
    hide D.IsName;
  }

  lemma OneSpace()
    ensures AllSpace(" ") && AllSpace("")
  {
  }

  lemma {:induction false} SplitJoined(pad: string, names: seq<string>)
    requires D.AllNames(names) && names != [] && AllSpace(pad)
    ensures StripsTo(SplitOn(pad + D.JoinNames(names), ','), names)
    decreases |names|
  {
    hide *;
    JoinNamesStep(names);
    OneSpace();
    var name, rest := names[0], names[1..];
    NameFacts(name);
    NoCommaPadded(pad, name);
    var first := pad + name;
    StripPadded(pad, name, "");
    assert pad + name + "" == first;
    if rest == [] {
      SplitOnNothing(first, ',');
      NothingStrips();
      StripsToCons(first, [], names);
      assert [first] + [] == [first];
    } else {
      SplitJoined(" ", rest);
      var tail := " " + D.JoinNames(rest);
      SplitOnFirst(first, ',', tail);
      assert pad + (name + ", " + D.JoinNames(rest)) == first + [','] + tail;
      StripsToCons(first, SplitOn(tail, ','), names);
    }
  }

  lemma NothingStrips()
    ensures StripsTo([], [])
  {
  }

  lemma SplitOnNothing(s: string, c: char)
    requires c !in s
    ensures SplitOn(s, c) == [s]
  {
    assert Find(s, c) == |s|;
  }

  lemma SplitOnFirst(a: string, c: char, b: string)
    requires c !in a
    ensures SplitOn(a + [c] + b, c) == [a] + SplitOn(b, c)
  {
    FindInConcat(a, c, b);
    var t := a + [c] + b;
    assert t[..|a|] == a && t[|a| + 1..] == b;
  }

  lemma {:induction false} CleanNames(parts: seq<string>, names: seq<string>)
    requires StripsTo(parts, names) && D.AllNames(names)
    ensures CleanDomains(parts) == names
  {
    hide Strip, D.IsName, DropScheme, D.Lower, Find;
    if names != [] {
      NameFacts(names[0]);
      assert names[0] != "" by {
        D.NameChars(names[0]);
      }
      assert names[0][..|names[0]|] == names[0];
      CleanNames(parts[1..], names[1..]);
      assert names == [names[0]] + names[1..];
    }
  }

  lemma CommaWord(name: string)
    requires NoSpaces(name) && name != ""
    ensures NoSpaces(name + ",")
  {
  }

  lemma DropComma(name: string)
    requires name != "" && name[|name| - 1] != ','
    ensures RStripChar(name, ',') == name && RStripChar(name + ",", ',') == name
  {
    assert (name + ",")[..|name|] == name;
  }

  lemma FirstWordOfDomain(domain: string, names: seq<string>)
    requires names != [] && D.AllNames(names) && domain == D.JoinNames(names)
    ensures RStripChar(D.Lower(FirstWord(domain)), ',') == names[0]
  {
    hide D.IsName, Strip, IsSpace, D.IsDotted, Find, DropScheme, DropPrefix, D.Lower, FirstWord, RStripChar, NoSpaces;
    var name := names[0];
    NameFacts(name);
    DropComma(name);
    if |names| == 1 {
      WordFront(name, "");
      assert name + "" == name;
    } else {
      var word, rest := name + ",", " " + D.JoinNames(names[1..]);
      SpaceIsSpace();
      CommaWord(name);
      WordFront(word, rest);
      assert domain == word + rest;
      LowerConcat(name, ",");
    }
  }

  lemma SpaceIsSpace()
    ensures IsSpace(' ') && !IsSpace(',')
  {
  }

  lemma {:induction false} LowerConcat(a: string, b: string)
    ensures D.Lower(a + b) == D.Lower(a) + D.Lower(b)
    ensures D.Lower(",") == ","
  {
    if a == "" {
      assert a + b == b;
    } else {
      assert (a + b)[1..] == a[1..] + b;
      LowerConcat(a[1..], b);
    }
  }

  lemma {:induction false} WordFront(w: string, rest: string)
    requires w != "" && NoSpaces(w)
    requires rest == "" || IsSpace(rest[0])
    ensures FirstWord(w + rest) == w
  {
    assert (w + rest)[1..] == w[1..] + rest;
    if |w| > 1 {
      WordFront(w[1..], rest);
    } else {
      assert w[1..] + rest == rest;
    }
  }

  /** A stored domain is recognised as a site label and read back unchanged. */
  lemma StoredIsSiteLabel(domain: string)
    requires D.IsStored(domain)
    ensures IsSiteLabel(domain) && DomainOfLabel(domain) == domain
  {
    hide D.IsName, Strip, IsAddress, D.Lower, FirstWord, SplitOn, CleanDomains, D.IsStored, KEYWORDS, D.SplitNames,
      D.JoinNames, IsLabelText,
      D.NamesOf, NoSpaces, Find, DropScheme, DropPrefix, D.IsDotted;
    var names := D.NamesOf(domain);
    D.StoredParts(domain);
    StoredLabel(domain);
    FirstWordOfDomain(domain, names);
    NameFacts(names[0]);
    if names[0] in KEYWORDS {
      KeywordsHaveNoDot(names[0]);
    }
    var parts := SplitOn(domain, ',');
    assert "" + domain == domain;
    SplitJoined("", names);
    CleanNames(parts, names);
    forall k | 0 <= k < |parts| ensures IsAddress(Strip(parts[k])) {
      NameIsAddress(names[k]);
    }
    assert RStripChar(domain, ',') == domain;
  }

  // ---------------------------------------------------------------- one printed block

  function BodyLines(row: SiteRow): Lines {
    SplitLines(BodyText(row.directives, Strip(row.upstream)))
  }

  /** The lines between a printed block's header and its closing brace. */
  function Inner(row: SiteRow, rules: Rules): Lines {
    (if rules.needsHeaders(row.directives) then ["    import security_headers", ""] else [])
        + IndentEach(BodyLines(row))
  }

  function PrintedLines(row: SiteRow, rules: Rules): Lines {
    BlockOf(row.domain, Inner(row, rules))
  }

  lemma BodyTextFacts(directives: string, upstream: string)
    ensures var b := BodyText(directives, upstream);
            b != "" && !IsSpace(b[0]) && !IsSpace(b[|b| - 1])
  {
    hide B.Normalize, B.NormalizeToken, Strip, IsSpace;
    Pre.NormalizeStripped(directives);
    Pre.TokenFixed(upstream);
    PlaceholderEnds();
    NormalizedNonEmpty(directives);
    var b := BodyText(directives, upstream);
    if B.Normalize(directives).Some? {
      B.StrippedEnds(b);
    } else if B.NormalizeToken(upstream).Some? && B.NormalizeToken(upstream).value != "" {
      B.StrippedEnds(B.NormalizeToken(upstream).value);
    }
  }

  lemma NormalizedNonEmpty(directives: string)
    ensures B.Normalize(directives).Some? ==> B.Normalize(directives).value != ""
  {
    hide B.SplitTopLevel, B.SplitHeader, Strip;
  }

  lemma PlaceholderEnds()
    ensures PLACEHOLDER != "" && !IsSpace(PLACEHOLDER[0]) && !IsSpace(PLACEHOLDER[|PLACEHOLDER| - 1]) && !IsSpace('r')
  {
  }

  lemma {:induction false} LastLine(s: string)
    requires s != "" && s[|s| - 1] != '\n'
    ensures var ls := SplitLines(s);
            ls != [] && ls[|ls| - 1] != "" && ls[|ls| - 1][|ls[|ls| - 1]| - 1] == s[|s| - 1]
  {
    hide Find, SplitLines;
    var i := Find(s, '\n');
    if i < |s| {
      SplitAtNewline(s, i);
      LastLine(s[i + 1..]);
      LastOfCons(s[..i], SplitLines(s[i + 1..]));
    } else {
      SplitOneLine(s);
    }
  }

  lemma LastOfCons(line: string, ls: Lines)
    requires ls != []
    ensures ([line] + ls)[|ls|] == ls[|ls| - 1] && |[line] + ls| == |ls| + 1
  {
  }

  lemma {:induction false} FirstLine(s: string)
    requires s != "" && s[0] != '\n'
    ensures SplitLines(s) != [] && SplitLines(s)[0] != "" && SplitLines(s)[0][0] == s[0]
  {
    var i := Find(s, '\n');
    if i < |s| {
      SplitAtNewline(s, i);
    }
  }

  lemma NotBlank(s: string, k: nat)
    requires k < |s| && !IsSpace(s[k])
    ensures !IsBlank(s)
  {
    BlankIsAllSpace(s);
  }

  lemma NewlineIsSpace()
    ensures IsSpace('\n')
  {
  }

  lemma BodyLineFacts(row: SiteRow)
    ensures var ls := BodyLines(row);
            ls != [] && WellFormed(ls) && !IsBlank(ls[0]) && !IsBlank(ls[|ls| - 1])
  {
    hide BodyText, Strip, SplitLines, IsSpace, IsBlank;
    var b := BodyText(row.directives, Strip(row.upstream));
    BodyTextFacts(row.directives, Strip(row.upstream));
    NewlineIsSpace();
    LastLine(b);
    FirstLine(b);
    var ls := BodyLines(row);
    NotBlank(ls[0], 0);
    NotBlank(ls[|ls| - 1], |ls[|ls| - 1]| - 1);
  }

  lemma {:induction false} IndentEachFacts(ls: Lines)
    requires WellFormed(ls)
    ensures var r := IndentEach(ls);
            |r| == |ls| && WellFormed(r) && forall k :: 0 <= k < |ls| ==> r[k] == Indent(ls[k])
  {
    hide IsBlank;
    if ls != [] {
      IndentEachFacts(ls[1..]);
    }
  }

  lemma IndentNonBlank(line: string)
    requires !IsBlank(line)
    ensures Indent(line) == "    " + line != "" && !IsBlank(Indent(line))
    ensures Indent(line)[|Indent(line)| - 1] == line[|line| - 1] || line == ""
  {
    BlankIsAllSpace(line);
    BlankIsAllSpace("    " + line);
    hide IsBlank;
    if AllSpace("    " + line) {
      forall k | 0 <= k < |line| ensures IsSpace(line[k]) {
        assert ("    " + line)[k + 4] == line[k];
      }
    }
  }

  /** The indented lines, joined and split again. */
  lemma IndentedText(row: SiteRow)
    ensures var j := JoinLines(IndentEach(BodyLines(row)));
            j != "" && j[|j| - 1] != '\n' && SplitLines(j) == IndentEach(BodyLines(row))
  {
    hide BodyLines, IsBlank, Indent, IndentEach, JoinLines, SplitLines;
    var ls := BodyLines(row);
    BodyLineFacts(row);
    IndentEachFacts(ls);
    IndentNonBlank(ls[|ls| - 1]);
    SplitJoin(IndentEach(ls));
    JoinedEnd(IndentEach(ls));
  }

  lemma {:induction false} JoinedEnd(ls: Lines)
    requires ls != [] && WellFormed(ls) && ls[|ls| - 1] != ""
    ensures JoinLines(ls) != "" && JoinLines(ls)[|JoinLines(ls)| - 1] != '\n'
  {
    if |ls| > 1 {
      JoinedEnd(ls[1..]);
    }
  }

  lemma PreviewText(row: SiteRow)
    requires D.IsStored(row.domain)
    ensures Preview(row.domain, Strip(row.upstream), row.directives, true)
            == Some(row.domain + " {\n" + JoinLines(IndentEach(BodyLines(row))) + "\n}")
  {
    hide D.IsStored, Label, BodyText, IndentEach, JoinLines, SplitLines, Strip;
    StoredLabel(row.domain);
  }

  lemma OneLineDomain(domain: string)
    requires D.IsStored(domain)
    ensures OneLine(domain + " {")
  {
    hide D.IsStored, Label, Strip;
    StoredLabel(domain);
  }

  lemma SplitPreview(domain: string, j: string)
    requires D.IsStored(domain) && j != "" && j[|j| - 1] != '\n'
    ensures SplitLines(domain + " {\n" + j + "\n}") == BlockOf(domain, SplitLines(j))
  {
    hide D.IsStored, SplitLines;
    OneLineDomain(domain);
    SplitLinesFront(domain + " {", j + "\n}");
    SplitLinesConcat(j, "}");
    SplitOneLine("}");
    assert domain + " {\n" + j + "\n}" == (domain + " {") + "\n" + (j + "\n}");
    assert j + "\n" + "}" == j + "\n}";
  }

  lemma SplitWithImport(domain: string, j: string)
    requires D.IsStored(domain) && j != "" && j[|j| - 1] != '\n'
    ensures var line := "    import security_headers";
            SplitLines((domain + " {") + "\n" + line + "\n" + ("\n" + j + "\n}")) ==
              BlockOf(domain, [line, ""] + SplitLines(j))
  {
    hide *;
    var line, tail := "    import security_headers", j + "\n}";
    OneLineDomain(domain);
    SplitLinesConcat(j, "}");
    OpeningLine();
    SplitOneLine("}");
    assert j + "\n" + "}" == tail;
    SplitLinesBlank(tail);
    ImportChars();
    SplitLinesFront(line, "\n" + tail);
    SplitLinesFront(domain + " {", line + "\n" + ("\n" + tail));
    assert (domain + " {") + "\n" + line + "\n" + ("\n" + j + "\n}") ==
      (domain + " {") + "\n" + (line + "\n" + ("\n" + tail));
    assert [line] + ([""] + (SplitLines(j) + ["}"])) == ([line, ""] + SplitLines(j)) + ["}"];
    BlockShape(domain, [line, ""] + SplitLines(j));
  }

  lemma OpeningLine()
    ensures OneLine("}")
  {
  }

  lemma BlockShape(domain: string, inner: Lines)
    ensures BlockOf(domain, inner) == [domain + " {"] + (inner + ["}"])
  {
  }

  lemma GeneratedText(domain: string, upstream: string, directives: string, headers: bool, j: string)
    requires OneLine(domain + " {")
    requires Preview(domain, upstream, directives, true) == Some(domain + " {\n" + j + "\n}")
    ensures Generated(domain, upstream, directives, true, headers, false)
            == Some(if headers then (domain + " {") + "\n" + "    import security_headers" + "\n" + ("\n" + j + "\n}")
                    else domain + " {\n" + j + "\n}")
  {
    hide Preview, OneLine;
    var preview := domain + " {\n" + j + "\n}";
    if headers {
      var first := domain + " {";
      assert preview == first + ['\n'] + (j + "\n}");
      NoNewline(first);
      FindInConcat(first, '\n', j + "\n}");
      assert preview[..|first|] == first && preview[|first|..] == "\n" + j + "\n}";
      assert ImportLines(true, false) == ["    import security_headers"];
      B.JoinSingle("    import security_headers");
    }
  }

  lemma NoNewline(s: string)
    requires OneLine(s)
    ensures '\n' !in s
  {
  }

  /** The text of a printed block and its lines. */
  lemma PrintedText(row: SiteRow, rules: Rules)
    requires D.IsStored(row.domain)
    ensures BlockText(row, rules).Some?
    ensures var t := BlockText(row, rules).value;
            t != "" && t[|t| - 1] == '}' && SplitLines(t) == PrintedLines(row, rules)
  {
    hide D.IsStored, IndentEach, JoinLines, SplitLines, Strip, BodyLines, Preview, Generated, OneLine;
    var j := JoinLines(IndentEach(BodyLines(row)));
    var headers := rules.needsHeaders(row.directives);
    PreviewText(row);
    OneLineDomain(row.domain);
    IndentedText(row);
    GeneratedText(row.domain, Strip(row.upstream), row.directives, headers, j);
    if headers {
      SplitWithImport(row.domain, j);
    } else {
      SplitPreview(row.domain, j);
      assert [] + SplitLines(j) == SplitLines(j);
    }
  }

  // ---------------------------------------------------------------- one printed block, parsed

  /** The directives' own braces never close the site block and are closed where they end. */
  predicate IsEnclosed(row: SiteRow) {
    NeverNegative(BodyLines(row), 0) && NetLines(BodyLines(row)) == 0
  }

  lemma NetIndent(line: string)
    ensures Net(Indent(line)) == Net(line)
  {
    hide Strip, Net;
    BlankIsAllSpace(line);
    NetStrip(line);
    EmptyNet();
    NetConcat("    ", line);
    FourSpaces();
  }

  lemma FourSpaces()
    ensures Net("    ") == 0
  {
  }

  lemma {:induction false} IndentKeepsDepth(ls: Lines, depth: int)
    ensures NetLines(IndentEach(ls)) == NetLines(ls)
    ensures StaysInside(IndentEach(ls), depth + 1) <==> NeverNegative(ls, depth)
  {
    hide Net, Indent;
    if ls != [] {
      NetIndent(ls[0]);
      IndentKeepsDepth(ls[1..], depth + Net(ls[0]));
    }
  }

  lemma ImportNet()
    ensures NetLines(["    import security_headers", ""]) == 0
    ensures Net("    import security_headers") == 0 && Net("") == 0
  {
    hide Net, NetLines;
    ImportChars();
    NetNoBraces("    import security_headers");
    EmptyNet();
    NetLinesStep(["    import security_headers", ""]);
    assert ["    import security_headers", ""][1..] == [""];
    NetLinesStep([""]);
    assert [""][1..] == [];
    NoNetLines();
  }

  lemma ImportChars()
    ensures NoBraces("    import security_headers") && OneLine("    import security_headers")
  {
  }

  lemma InnerDepth(row: SiteRow, rules: Rules)
    ensures NetLines(Inner(row, rules)) == NetLines(BodyLines(row))
    ensures StaysInside(Inner(row, rules), 1) <==> NeverNegative(BodyLines(row), 0)
  {
    hide Net, BodyLines, IndentEach;
    var body := IndentEach(BodyLines(row));
    var imports := ["    import security_headers", ""];
    ImportNet();
    IndentKeepsDepth(BodyLines(row), 0);
    if rules.needsHeaders(row.directives) {
      NetLinesConcat(imports, body);
      var all := imports + body;
      assert all[0] == imports[0] && all[1..] == [""] + body;
      assert ([""] + body)[1..] == body;
      assert StaysInside(all, 1) <==> StaysInside([""] + body, 1);
    } else {
      assert [] + body == body;
    }
  }

  lemma {:induction false} StaysMeansOpen(ls: Lines, depth: int)
    requires depth > 0
    ensures StaysInside(ls, depth) <==> !Closes(ls, depth)
    ensures StaysInside(ls, depth) ==> depth + NetLines(ls) > 0
  {
    hide Net;
    if ls != [] && depth + Net(ls[0]) > 0 {
      StaysMeansOpen(ls[1..], depth + Net(ls[0]));
    }
  }

  /** The line that opens a block under `name`. */
  lemma OpeningLineFacts(name: string)
    requires name != "" && Strip(name) == name && '{' !in name && name[0] != '#'
    ensures var line := name + " {";
            Strip(line) == line && OpensBlock(line) && HeaderOf(line) == name
  {
    hide Strip, Find;
    var line := name + " {";
    B.StrippedEnds(name);
    StripTrimmed(line);
    BraceAt(name);
    OneSpace();
    StripPadded("", name, " ");
    assert "" + name + " " == name + " " == line[..|name| + 1];
  }

  lemma LabelChars(domain: string)
    requires IsLabelText(domain) && domain != "" && D.IsAlnum(domain[0])
    ensures '{' !in domain && domain[0] != '#'
  {
  }

  lemma SiteKind(line: string)
    requires OpensBlock(line) && !IsSnippetHeader(HeaderOf(line)) && !IsBlank(HeaderOf(line))
    ensures KindOf(line) == Site <==> IsSiteLabel(HeaderOf(line))
  {
    hide OpensBlock, IsSnippetHeader, IsBlank, HeaderOf, IsSiteLabel;
  }

  lemma HeaderLineFacts(domain: string)
    requires D.IsStored(domain)
    ensures var line := domain + " {";
            OpensBlock(line) && Net(line) == 1 && HeaderOf(line) == domain && KindOf(line) == Site
  {
    hide *;
    StoredHeader(domain);
    StoredLabel(domain);
    LabelChars(domain);
    StoredIsSiteLabel(domain);
    B.HeaderLine(domain);
    OpeningLineFacts(domain);
    NotSnippet(domain);
    SiteKind(domain + " {");
  }

  lemma NotInConcat(a: string, b: string, c: char)
    requires c !in a && c !in b
    ensures c !in a + b
  {
  }

  lemma BraceAt(name: string)
    requires '{' !in name
    ensures Find(name + " {", '{') == |name| + 1
    ensures '{' in name + " {"
  {
    hide *;
    NotInConcat(name, " ", '{');
    FindInConcat(name + " ", '{', "");
    assert (name + " ") + ['{'] + "" == name + " {";
    assert (name + " {")[|name| + 1] == '{';
  }

  lemma NotSnippet(domain: string)
    requires Strip(domain) == domain != "" && D.IsAlnum(domain[0])
    ensures !IsSnippetHeader(domain) && !IsBlank(domain)
  {
    hide Strip;
  }

  /**
   A printed block takes exactly its own lines, whatever follows, if and only if its directives
   are enclosed.
   */
  lemma BlockTakesItsLines(row: SiteRow, rules: Rules, rest: Lines)
    requires D.IsStored(row.domain)
    ensures var block := PrintedLines(row, rules);
            && KindOf(block[0]) == Site
            && (IsEnclosed(row) ==> SizeOf(block + rest) == |block| && !EndsOpen(block))
            && (rest != [] ==> (SizeOf(block + rest) == |block| <==> IsEnclosed(row)))
  {
    hide *;
    var inner := Inner(row, rules);
    var header, closing := row.domain + " {", ["}"] + rest;
    PrintedShape(row, rules);
    var block := PrintedLines(row, rules);
    HeaderLineFacts(row.domain);
    B.OpeningNet();
    InnerDepth(row, rules);
    StaysMeansOpen(inner, 1);
    TailConcat(inner, closing, 1);
    TailConcat(inner, ["}"], 1);
    assert (block + rest)[1..] == inner + closing && block[1..] == inner + ["}"];
    assert (block + rest)[0] == header && block[0] == header;
    SizeOfBlock(block + rest);
    SizeOfBlock(block);
    Enclosed(row);
    ClosingTail(rest, 1 + NetLines(inner));
    ClosingTail([], 1 + NetLines(inner));
    assert ["}"] + [] == ["}"] && block + [] == block;
    if StaysInside(inner, 1) {
      if NetLines(inner) == 0 {
        OneSegmentEndsOpen(block);
      }
    } else {
      ShortTail(inner, 1);
    }
  }

  lemma PrintedShape(row: SiteRow, rules: Rules)
    ensures PrintedLines(row, rules) == [row.domain + " {"] + (Inner(row, rules) + ["}"])
  {
    hide Inner;
  }

  lemma SizeOfBlock(lines: Lines)
    requires lines != [] && OpensBlock(lines[0])
    ensures SizeOf(lines) == 1 + BlockTail(lines[1..], Net(lines[0]))
  {
    hide OpensBlock, BlockTail, Net;
  }

  lemma Enclosed(row: SiteRow)
    ensures IsEnclosed(row) <==> NeverNegative(BodyLines(row), 0) && NetLines(BodyLines(row)) == 0
  {
    hide BodyLines;
  }

  lemma ClosingTail(rest: Lines, depth: int)
    requires Net("}") == -1
    ensures depth == 1 ==> BlockTail(["}"] + rest, depth) == 1 && Closes(["}"] + rest, depth)
    ensures depth > 1 && rest != [] ==> BlockTail(["}"] + rest, depth) > 1
    ensures depth > 1 ==> !Closes(["}"], depth)
  {
    hide Net;
    assert (["}"] + rest)[1..] == rest;
  }

  lemma {:induction false} ShortTail(ls: Lines, depth: int)
    requires Closes(ls, depth)
    ensures BlockTail(ls, depth) <= |ls|
  {
  }

  // ---------------------------------------------------------------- the printed sites, one after another

  /** Each printed block with the blank line before it. */
  function RowLines(rows: seq<SiteRow>, rules: Rules): Lines {
    if rows == [] then [] else ([""] + PrintedLines(rows[0], rules)) + RowLines(rows[1..], rules)
  }

  function Blanks(n: nat): Lines {
    if n == 0 then [] else [""] + Blanks(n - 1)
  }

  /** What parsing must give back for a printed row: its label and its inner lines, stripped. */
  function EntryOf(row: SiteRow, rules: Rules): (string, string) {
    (row.domain, Strip(JoinLines(Inner(row, rules))))
  }

  function EntriesOf(rows: seq<SiteRow>, rules: Rules): seq<(string, string)> {
    if rows == [] then [] else [EntryOf(rows[0], rules)] + EntriesOf(rows[1..], rules)
  }

  predicate IsPrintable(row: SiteRow) {
    D.IsStored(row.domain) && IsEnclosed(row)
  }

  predicate ArePrintable(rows: seq<SiteRow>) {
    forall k :: 0 <= k < |rows| ==> IsPrintable(rows[k])
  }

  lemma BlockEntry(row: SiteRow, rules: Rules)
    requires D.IsStored(row.domain)
    ensures SiteOf(PrintedLines(row, rules)) == EntryOf(row, rules)
  {
    hide D.IsStored, Strip, Net, JoinLines, KindOf, OpensBlock, IsSiteLabel, DomainOfLabel, HeaderOf, InlineBody, Inner;
    var inner := Inner(row, rules);
    var block := PrintedLines(row, rules);
    HeaderLineFacts(row.domain);
    StoredIsSiteLabel(row.domain);
    NetStrip(row.domain + " {");
    InnerNonEmpty(row, rules);
    assert |block| > 2 && block[1..|block| - 1] == inner;
  }

  lemma InnerNonEmpty(row: SiteRow, rules: Rules)
    ensures Inner(row, rules) != []
  {
    hide BodyLines, IndentEach;
    BodyLineFacts(row);
    IndentEachFacts(BodyLines(row));
  }

  lemma BlockSegments(row: SiteRow, rules: Rules)
    requires IsPrintable(row)
    ensures var block := PrintedLines(row, rules);
            && SitesOf(Segments(block)) == [EntryOf(row, rules)]
            && BaselineOf(Segments(block)) == []
            && !EndsOpen(block)
  {
    hide PrintedLines, KindOf, EndsOpen, SizeOf, Segments, IsEnclosed, EntryOf, SiteOf, D.IsStored;
    var block := PrintedLines(row, rules);
    BlockTakesItsLines(row, rules, []);
    assert block + [] == block;
    BlockHasHeader(row, rules);
    SegmentsStep(block);
    NothingOpen();
    assert block[..|block|] == block && block[|block|..] == [];
    BlockEntry(row, rules);
    SingleSegment(Segment(Site, block));
  }

  lemma BlockHasHeader(row: SiteRow, rules: Rules)
    ensures PrintedLines(row, rules) != []
  {
  }

  lemma BlankSegment()
    ensures SitesOf(Segments([""])) == [] && BaselineOf(Segments([""])) == [""] && !EndsOpen([""])
  {
    AllSpaceStrips("");
    hide Strip, KindOf, OpensBlock;
    BlankIsPlain("");
    SegmentsStep([""]);
    NothingOpen();
    assert [""][..1] == [""] && [""][1..] == [];
    SingleSegment(Segment(PlainLine, [""]));
  }

  /** Three facts about a text that leaves nothing open. */
  ghost predicate Parses(lines: Lines, sites: seq<(string, string)>, baseline: Lines) {
    SitesOf(Segments(lines)) == sites && BaselineOf(Segments(lines)) == baseline && !EndsOpen(lines)
  }

  lemma ParsesAppend(a: Lines, aSites: seq<(string, string)>, aBase: Lines, b: Lines, bSites: seq<(string, string)>,
      bBase: Lines)
    requires Parses(a, aSites, aBase) && Parses(b, bSites, bBase)
    ensures Parses(a + b, aSites + bSites, aBase + bBase)
  {
    hide Segments, EndsOpen, SitesOf, BaselineOf;
    DistributesWhenClosed(a, b);
    SitesConcat(Segments(a), Segments(b));
    BaselineConcat(Segments(a), Segments(b));
  }

  lemma BlankParses()
    ensures Parses([""], [], [""]) && Parses([], [], [])
  {
    hide Segments, EndsOpen;
    BlankSegment();
    NothingOpen();
  }

  lemma BlockParses(row: SiteRow, rules: Rules)
    requires IsPrintable(row)
    ensures Parses(PrintedLines(row, rules), [EntryOf(row, rules)], [])
  {
    hide Segments, EndsOpen, IsPrintable, PrintedLines, EntryOf;
    BlockSegments(row, rules);
  }

  lemma {:induction false} RowsParse(rows: seq<SiteRow>, rules: Rules)
    requires ArePrintable(rows)
    ensures Parses(RowLines(rows, rules), EntriesOf(rows, rules), Blanks(|rows|))
  {
    hide Parses, IsPrintable, PrintedLines, EntryOf;
    BlankParses();
    if rows != [] {
      var block, entry := PrintedLines(rows[0], rules), EntryOf(rows[0], rules);
      BlockParses(rows[0], rules);
      RowsParse(rows[1..], rules);
      ParsesAppend([""], [], [""], block, [entry], []);
      ParsesAppend([""] + block, [] + [entry], [""] + [], RowLines(rows[1..], rules), EntriesOf(rows[1..], rules),
        Blanks(|rows| - 1));
      assert [] + [entry] == [entry] && [""] + [] == [""];
    }
  }

  // ---------------------------------------------------------------- the text and its lines

  predicate IsPart(t: string) {
    t != "" && t[|t| - 1] != '\n'
  }

  predicate AreParts(parts: seq<string>) {
    forall k :: 0 <= k < |parts| ==> IsPart(parts[k])
  }

  /** Lines of parts joined by blank lines, with a blank line before each. */
  function PartLines(parts: seq<string>): Lines {
    if parts == [] then [] else ([""] + SplitLines(parts[0])) + PartLines(parts[1..])
  }

  lemma {:induction false} SplitParts(parts: seq<string>)
    requires AreParts(parts) && parts != []
    ensures [""] + SplitLines(B.JoinParagraphs(parts)) == PartLines(parts)
  {
    hide SplitLines;
    if |parts| == 1 {
      assert PartLines(parts[1..]) == [];
    } else {
      var first, rest := parts[0], B.JoinParagraphs(parts[1..]);
      SplitParts(parts[1..]);
      SplitLinesConcat(first, "\n" + rest);
      SplitLinesBlank(rest);
      assert first + "\n" + ("\n" + rest) == first + "\n\n" + rest;
      assert ([""] + SplitLines(first)) + ([""] + SplitLines(rest)) ==
        [""] + (SplitLines(first) + ([""] + SplitLines(rest)));
    }
  }

  lemma {:induction false} PartLinesConcat(a: seq<string>, b: seq<string>)
    ensures PartLines(a + b) == PartLines(a) + PartLines(b)
  {
    hide SplitLines;
    if a == [] {
      assert a + b == b;
    } else {
      assert (a + b)[1..] == a[1..] + b;
      PartLinesConcat(a[1..], b);
    }
  }

  lemma BlockTextsStep(rows: seq<SiteRow>, rules: Rules)
    requires rows != [] && BlockText(rows[0], rules).Some? && BlockTexts(rows[1..], rules).Some?
    ensures BlockTexts(rows, rules) == Some([BlockText(rows[0], rules).value] + BlockTexts(rows[1..], rules).value)
    ensures RowLines(rows, rules) == ([""] + PrintedLines(rows[0], rules)) + RowLines(rows[1..], rules)
  {
    hide BlockText, PrintedLines;
  }

  lemma PartsCons(text: string, texts: seq<string>)
    requires IsPart(text) && AreParts(texts)
    ensures AreParts([text] + texts)
    ensures PartLines([text] + texts) == ([""] + SplitLines(text)) + PartLines(texts)
  {
    hide IsPart, SplitLines;
    assert ([text] + texts)[1..] == texts;
  }

  lemma PrintedPart(row: SiteRow, rules: Rules)
    requires IsPrintable(row)
    ensures BlockText(row, rules).Some?
    ensures IsPart(BlockText(row, rules).value) && SplitLines(BlockText(row, rules).value) == PrintedLines(row, rules)
  {
    hide SplitLines, PrintedLines, BlockText, D.IsStored, IsEnclosed;
    PrintedText(row, rules);
  }

  lemma PrintableCons(rows: seq<SiteRow>)
    requires rows != [] && ArePrintable(rows)
    ensures IsPrintable(rows[0]) && ArePrintable(rows[1..])
  {
    hide IsPrintable;
  }

  lemma NoTexts(rules: Rules)
    ensures BlockTexts([], rules) == Some([]) && AreParts([]) && PartLines([]) == [] && RowLines([], rules) == []
  {
  }

  /** All printable rows can be printed, and their texts have exactly the lines above. */
  lemma {:induction false} RowTexts(rows: seq<SiteRow>, rules: Rules)
    requires ArePrintable(rows)
    ensures BlockTexts(rows, rules).Some?
    ensures var texts := BlockTexts(rows, rules).value;
            AreParts(texts) && PartLines(texts) == RowLines(rows, rules) && (texts == [] <==> rows == [])
  {
    hide *;
    NoTexts(rules);
    if rows != [] {
      PrintableCons(rows);
      PrintedPart(rows[0], rules);
      RowTexts(rows[1..], rules);
      BlockTextsStep(rows, rules);
      PartsCons(BlockText(rows[0], rules).value, BlockTexts(rows[1..], rules).value);
    }
  }

  // ---------------------------------------------------------------- the head: snippet and baseline

  lemma SnippetNets()
    ensures Net("(security_headers) {") == 1 && Net("    header {") == 1 && Net("    }") == -1 && Net("}") == -1
  {
    hide *;
    B.OpeningNet();
    SnippetHeaders();
    NetNoBraces("(security_headers)");
    NetNoBraces("    header");
    FourSpaces();
    NetConcat("(security_headers)", " {");
    NetConcat("    header", " {");
    NetConcat("    ", "}");
    assert "(security_headers)" + " {" == "(security_headers) {";
    assert "    header" + " {" == "    header {";
    assert "    " + "}" == "    }";
  }

  lemma SnippetHeaders()
    ensures NoBraces("(security_headers)") && NoBraces("    header")
    ensures OneLine("(security_headers) {") && OneLine("    header {") && OneLine("    }") && OneLine("}")
  {
  }

  predicate IsPlainText(s: string) {
    NoBraces(s) && OneLine(s)
  }

  lemma PlainConcat(a: string, b: string)
    requires IsPlainText(a) && IsPlainText(b)
    ensures IsPlainText(a + b)
  {
  }

  lemma StrictTransportPart0()
    ensures IsPlainText("        Strict-Transport-Security ")
  {
  }

  lemma StrictTransportPart1()
    ensures IsPlainText("\"max-age=31536000; ")
  {
  }

  lemma StrictTransportPart2()
    ensures IsPlainText("includeSubDomains; preload\"")
  {
  }

  lemma StrictTransportPlain()
    ensures IsPlainText(STRICT_TRANSPORT)
  {
    hide IsPlainText;
    StrictTransportPart0();
    StrictTransportPart1();
    StrictTransportPart2();
    PlainConcat("        Strict-Transport-Security ", "\"max-age=31536000; ");
    PlainConcat("        Strict-Transport-Security " + "\"max-age=31536000; ", "includeSubDomains; preload\"");
  }

  lemma ContentTypePart0()
    ensures IsPlainText("        X-Content-Type-Options ")
  {
  }

  lemma ContentTypePart1()
    ensures IsPlainText("\"nosniff\"")
  {
  }

  lemma ContentTypePlain()
    ensures IsPlainText(CONTENT_TYPE)
  {
    hide IsPlainText;
    ContentTypePart0();
    ContentTypePart1();
    PlainConcat("        X-Content-Type-Options ", "\"nosniff\"");
  }

  lemma FrameOptionsPart0()
    ensures IsPlainText("        X-Frame-Options ")
  {
  }

  lemma FrameOptionsPart1()
    ensures IsPlainText("\"SAMEORIGIN\"")
  {
  }

  lemma FrameOptionsPlain()
    ensures IsPlainText(FRAME_OPTIONS)
  {
    hide IsPlainText;
    FrameOptionsPart0();
    FrameOptionsPart1();
    PlainConcat("        X-Frame-Options ", "\"SAMEORIGIN\"");
  }

  lemma ReferrerPolicyPart0()
    ensures IsPlainText("        Referrer-Policy ")
  {
  }

  lemma ReferrerPolicyPart1()
    ensures IsPlainText("\"strict-origin-when-cross-origin\"")
  {
  }

  lemma ReferrerPolicyPlain()
    ensures IsPlainText(REFERRER_POLICY)
  {
    hide IsPlainText;
    ReferrerPolicyPart0();
    ReferrerPolicyPart1();
    PlainConcat("        Referrer-Policy ", "\"strict-origin-when-cross-origin\"");
  }

  lemma NoServerPlain()
    ensures IsPlainText(NO_SERVER)
  {
  }

  lemma NoPoweredByPlain()
    ensures IsPlainText(NO_POWERED_BY)
  {
  }

  lemma SnippetBodyPlain()
    ensures |SNIPPET_BODY| == 6 && forall k :: 0 <= k < 6 ==> IsPlainText(SNIPPET_BODY[k])
  {
    hide IsPlainText;
    StrictTransportPlain();
    ContentTypePlain();
    FrameOptionsPlain();
    ReferrerPolicyPlain();
    NoServerPlain();
    NoPoweredByPlain();
    hide STRICT_TRANSPORT, CONTENT_TYPE, FRAME_OPTIONS, REFERRER_POLICY, NO_SERVER, NO_POWERED_BY;
  }

  lemma {:induction false} PlainBodyStays(ls: Lines, depth: int)
    requires depth > 0 && forall k :: 0 <= k < |ls| ==> IsPlainText(ls[k])
    ensures StaysInside(ls, depth) && NetLines(ls) == 0 && WellFormed(ls)
  {
    hide Net;
    if ls != [] {
      NetNoBraces(ls[0]);
      PlainBodyStays(ls[1..], depth);
    }
  }

  lemma SnippetShape()
    ensures SNIPPET_LINES == ["(security_headers) {"] + (["    header {"] + (SNIPPET_BODY + ["    }", "}"]))
  {
    hide SNIPPET_BODY;
  }

  lemma SnippetIsNoSite()
    ensures OpensBlock("(security_headers) {") && KindOf("(security_headers) {") != Site
  {
    hide Strip, IsSiteLabel, OpensBlock, HeaderOf, IsBlank, IsSnippetHeader, KindOf;
    var name := "(security_headers)";
    StripTrimmed(name);
    OpeningLineFacts(name);
    assert name + " {" == "(security_headers) {";
    ParenthesisIsNoLabel(name);
    NoLabelNoSite("(security_headers) {");
  }

  lemma NoLabelNoSite(line: string)
    requires !IsSiteLabel(HeaderOf(line))
    ensures KindOf(line) != Site
  {
    hide IsSiteLabel, HeaderOf, OpensBlock, IsSnippetHeader;
  }

  lemma ParenthesisIsNoLabel(name: string)
    requires Strip(name) == name && name != "" && name[0] == '(' && ',' !in name
    ensures !IsSiteLabel(name)
  {
    hide Strip, KEYWORDS, FirstWord, IsAddress;
    assert name[|name| - 1] in name;
    assert RStripChar(name, ',') == name;
    SplitOnNothing(name, ',');
    NotAnAddress(name);
    assert !IsAddress(Strip(SplitOn(name, ',')[0]));
  }

  lemma NotAnAddress(entry: string)
    requires entry != "" && entry[0] == '('
    ensures !IsAddress(entry)
  {
    var lower := D.Lower(entry);
    assert lower[0] == '(';
    assert DropPrefix(DropScheme(lower), "*.") == lower;
    var host := lower[..Find(lower, ':')];
    if D.IsDotted(host) {
      D.DottedChars(host);
    }
  }

  /** The built-in snippet is one closed block that is not a site. */
  lemma SnippetParses()
    ensures Parses(SNIPPET_LINES, [], SNIPPET_LINES)
  {
    hide *;
    var first, second, tail := "(security_headers) {", "    header {", ["    }", "}"];
    var body := SNIPPET_BODY + tail;
    SnippetShape();
    SnippetNets();
    SnippetBodyPlain();
    PlainBodyStays(SNIPPET_BODY, 2);
    StaysMeansOpen(SNIPPET_BODY, 2);
    TailConcat(SNIPPET_BODY, tail, 2);
    TwoClosings();
    SnippetIsNoSite();
    assert SNIPPET_LINES[0] == first && SNIPPET_LINES[1..] == [second] + body && ([second] + body)[1..] == body;
    TailStep([second] + body, 1);
    SizeOfBlock(SNIPPET_LINES);
    OneSegmentEndsOpen(SNIPPET_LINES);
    assert |SNIPPET_LINES| == |SNIPPET_LINES[1..]| + 1;
    OneSegment(SNIPPET_LINES);
    NoSitesParses(SNIPPET_LINES);
  }

  lemma TwoClosings()
    requires Net("    }") == -1 && Net("}") == -1
    ensures BlockTail(["    }", "}"], 2) == 2 && Closes(["    }", "}"], 2)
  {
    hide Net;
    assert ["    }", "}"][1..] == ["}"] && ["}"][1..] == [];
  }

  lemma TailStep(lines: Lines, depth: int)
    requires lines != [] && depth > 0
    ensures BlockTail(lines, depth) == 1 + BlockTail(lines[1..], depth + Net(lines[0]))
    ensures Closes(lines, depth) <==> Closes(lines[1..], depth + Net(lines[0]))
  {
    hide Net;
  }

  lemma NoSitesParses(lines: Lines)
    requires NoSites(lines) && !EndsOpen(lines)
    ensures Parses(lines, [], lines)
  {
    hide EndsOpen, Segments;
    NoSitesKeepsAll(lines);
  }

  /** A baseline the round trip holds for: trimmed, no site block, no block left open. */
  predicate IsCleanBaseline(baseline: string) {
    Strip(baseline) == baseline && NoSites(SplitLines(baseline)) && !EndsOpen(SplitLines(baseline))
  }

  lemma PartParses(text: string, sites: seq<(string, string)>, base: Lines)
    requires IsPart(text) && Parses(SplitLines(text), sites, base)
    ensures AreParts([text]) && Parses(PartLines([text]), sites, [""] + base)
  {
    hide Parses, SplitLines;
    BlankParses();
    ParsesAppend([""], [], [""], SplitLines(text), sites, base);
    assert [] + sites == sites;
    assert PartLines([text]) == [""] + SplitLines(text) by {
      assert [text][1..] == [];
      assert ([""] + SplitLines(text)) + [] == [""] + SplitLines(text);
    }
  }

  lemma SnippetPart()
    ensures IsPart(SnippetText()) && SplitLines(SnippetText()) == SNIPPET_LINES
  {
    hide JoinLines, SplitLines, SNIPPET_BODY;
    SnippetShape();
    SnippetWellFormed();
    assert SNIPPET_LINES[|SNIPPET_LINES| - 1] == "}";
    SplitJoin(SNIPPET_LINES);
    JoinedEnd(SNIPPET_LINES);
  }

  lemma SnippetWellFormed()
    ensures WellFormed(SNIPPET_LINES)
  {
    hide SNIPPET_BODY, OneLine;
    SnippetBodyPlain();
    PlainBodyStays(SNIPPET_BODY, 1);
    SnippetHeaders();
    SnippetShape();
  }

  lemma BaselinePart(baseline: string)
    requires IsCleanBaseline(baseline) && baseline != ""
    ensures IsPart(baseline) && Parses(SplitLines(baseline), [], SplitLines(baseline))
  {
    hide NoSites, EndsOpen, SplitLines, Strip, Parses;
    B.StrippedNoNewlineEnd(baseline);
    NoSitesParses(SplitLines(baseline));
  }

  lemma PartsAppend(a: seq<string>, b: seq<string>)
    requires AreParts(a) && AreParts(b)
    ensures AreParts(a + b)
  {
    hide IsPart;
  }

  lemma SnippetHead()
    ensures AreParts([SnippetText()]) && Parses(PartLines([SnippetText()]), [], PartLines([SnippetText()]))
  {
    hide Parses, SnippetText, SNIPPET_LINES;
    SnippetPart();
    SnippetParses();
    PartParses(SnippetText(), [], SNIPPET_LINES);
    OnePart(SnippetText());
  }

  lemma BaselineHead(baseline: string)
    requires IsCleanBaseline(baseline) && baseline != ""
    ensures AreParts([baseline]) && Parses(PartLines([baseline]), [], PartLines([baseline]))
  {
    hide Parses, SplitLines, IsCleanBaseline;
    BaselinePart(baseline);
    PartParses(baseline, [], SplitLines(baseline));
    OnePart(baseline);
  }

  lemma OnePart(text: string)
    ensures PartLines([text]) == [""] + SplitLines(text)
  {
    assert [text][1..] == [];
    assert ([""] + SplitLines(text)) + [] == [""] + SplitLines(text);
  }

  /** The head of the file parses to baseline lines only. */
  lemma HeadParses(baseline: string, rules: Rules)
    requires IsCleanBaseline(baseline)
    ensures var head := HeadParts(baseline, rules);
            AreParts(head) && Parses(PartLines(head), [], PartLines(head))
  {
    hide Parses, SplitLines, IsCleanBaseline, SnippetText, IsPart;
    var a: seq<string> := if rules.snippetDefined(baseline) then [] else [SnippetText()];
    var b: seq<string> := if baseline == "" then [] else [baseline];
    BlankParses();
    SnippetHead();
    if baseline != "" {
      BaselineHead(baseline);
    }
    PartsAppend(a, b);
    PartLinesConcat(a, b);
    ParsesAppend(PartLines(a), [], PartLines(a), PartLines(b), [], PartLines(b));
    var none: seq<(string, string)> := [];
    assert none + none == none && HeadParts(baseline, rules) == a + b;
    assert PartLines([]) == [];
  }

  // ---------------------------------------------------------------- the whole file

  lemma TrimEndDrop(ls: Lines, last: string)
    requires IsBlank(last)
    ensures TrimEnd(ls + [last]) == TrimEnd(ls)
  {
    hide IsBlank, RStrip;
    assert (ls + [last])[..|ls|] == ls;
  }

  lemma {:induction false} TrimEndBlanks(ls: Lines, n: nat)
    ensures TrimEnd(ls + Blanks(n)) == TrimEnd(ls)
  {
    hide TrimEnd, IsBlank;
    if n == 0 {
      assert ls + Blanks(0) == ls;
    } else {
      BlanksEnd(n);
      StripNothing();
      TrimEndDrop(ls + Blanks(n - 1), "");
      assert (ls + Blanks(n - 1)) + [""] == ls + Blanks(n);
      TrimEndBlanks(ls, n - 1);
    }
  }

  lemma {:induction false} BlanksEnd(n: nat)
    requires n > 0
    ensures Blanks(n) == Blanks(n - 1) + [""]
  {
    if n > 1 {
      BlanksEnd(n - 1);
    }
  }

  /** Blank lines around a text are stripped off. */
  lemma StripBlanks(ls: Lines, n: nat)
    ensures Strip(JoinLines(ls + Blanks(n))) == Strip(JoinLines(ls))
    ensures Strip(JoinLines([""] + ls)) == Strip(JoinLines(ls))
  {
    hide Strip, JoinLines, TrimEnd, LStrip;
    StripJoin(ls + Blanks(n));
    StripJoin(ls);
    StripJoin([""] + ls);
    StripNothing();
    assert ([""] + ls)[1..] == ls;
    TrimBlanksBehind(ls, n);
  }

  lemma TrimBlanksBehind(ls: Lines, n: nat)
    ensures TrimLines(ls + Blanks(n)) == TrimLines(ls)
  {
    hide TrimEnd, LStrip, IsBlank;
    TrimStartBlanks(ls, n);
    if TrimStart(ls + Blanks(n)) != [] {
      TrimEndBlanks(TrimStart(ls), n);
    } else {
      TrimEndBlanks([], n);
    }
  }

  lemma {:induction false} TrimStartBlanks(ls: Lines, n: nat)
    ensures TrimStart(ls + Blanks(n)) == if TrimStart(ls) == [] then [] else TrimStart(ls) + Blanks(n)
  {
    hide LStrip, IsBlank;
    StripNothing();
    if ls == [] {
      assert ls + Blanks(n) == Blanks(n);
      OnlyBlanks(n);
    } else {
      assert (ls + Blanks(n))[1..] == ls[1..] + Blanks(n);
      if IsBlank(ls[0]) {
        TrimStartBlanks(ls[1..], n);
      } else {
        assert [LStrip(ls[0])] + (ls[1..] + Blanks(n)) == ([LStrip(ls[0])] + ls[1..]) + Blanks(n);
      }
    }
  }

  lemma {:induction false} OnlyBlanks(n: nat)
    requires IsBlank("")
    ensures TrimStart(Blanks(n)) == []
  {
    hide IsBlank;
    if n > 0 {
      OnlyBlanks(n - 1);
    }
  }

  /** Parsing a text and parsing it with one blank line in front give the same. */
  lemma ParseBehindBlank(text: string, sites: seq<(string, string)>, base: Lines)
    requires Parses([""] + SplitLines(text), sites, base)
    ensures Parse(text).sites == sites
    ensures Parse(text).globalBlock == Strip(JoinLines(base))
  {
    hide Segments, EndsOpen, SplitLines, JoinLines, Strip, SitesOf, BaselineOf, SnippetsOf;
    var ls := SplitLines(text);
    BlankSegment();
    DistributesWhenClosed([""], ls);
    SitesConcat(Segments([""]), Segments(ls));
    BaselineConcat(Segments([""]), Segments(ls));
    assert [] + SitesOf(Segments(ls)) == SitesOf(Segments(ls));
    StripBlanks(BaselineOf(Segments(ls)), 0);
  }

  lemma {:induction false} EnabledPrintable(rows: seq<SiteRow>)
    requires forall k :: 0 <= k < |rows| && rows[k].enabled ==> IsPrintable(rows[k])
    ensures ArePrintable(Enabled(rows))
  {
    hide IsPrintable;
    if rows != [] {
      EnabledPrintable(rows[1..]);
    }
  }

  lemma ListedPrintable(rows: seq<SiteRow>)
    requires forall k :: 0 <= k < |rows| && rows[k].enabled ==> IsPrintable(rows[k])
    ensures ArePrintable(Listed(rows))
  {
    hide IsPrintable, ByDomain, Enabled, S.Sort;
    EnabledPrintable(rows);
    S.SortMembers(Enabled(rows), ByDomain);
    forall k | 0 <= k < |Listed(rows)| ensures IsPrintable(Listed(rows)[k]) {
      assert Listed(rows)[k] in Enabled(rows);
    }
  }

  lemma FullText(baseline: string, rows: seq<SiteRow>, rules: Rules)
    requires BlockTexts(Listed(rows), rules).Some?
    ensures FullCaddyfile(baseline, rows, rules) ==
        Some(B.JoinParagraphs(HeadParts(baseline, rules) + BlockTexts(Listed(rows), rules).value))
  {
    hide BlockTexts, Listed, HeadParts;
  }

  /**
   Parsing the full generated Caddyfile gives back exactly the enabled sites in domain order, each
   with its own label and its inner lines, and the head of the file as the baseline.
   */
  lemma FullCaddyfileRoundTrip(baseline: string, rows: seq<SiteRow>, rules: Rules)
    requires IsCleanBaseline(baseline)
    requires forall k :: 0 <= k < |rows| && rows[k].enabled ==> IsPrintable(rows[k])
    ensures FullCaddyfile(baseline, rows, rules).Some?
    ensures var p := Parse(FullCaddyfile(baseline, rows, rules).value);
            && p.sites == EntriesOf(Listed(rows), rules)
            && p.globalBlock == Strip(B.JoinParagraphs(HeadParts(baseline, rules)))
  {
    ListedPrintable(rows);
    hide *;
    var head, listed := HeadParts(baseline, rules), Listed(rows);
    RowTexts(listed, rules);
    var blocks := BlockTexts(listed, rules).value;
    FullText(baseline, rows, rules);
    HeadParses(baseline, rules);
    RowsParse(listed, rules);
    PartLinesConcat(head, blocks);
    PartsAppend(head, blocks);
    ParsesAppend(PartLines(head), [], PartLines(head), PartLines(blocks), EntriesOf(listed, rules), Blanks(|listed|));
    assert [] + EntriesOf(listed, rules) == EntriesOf(listed, rules);
    TextOfParts(head + blocks, EntriesOf(listed, rules), PartLines(head) + Blanks(|listed|));
    StripBlanks(PartLines(head), |listed|);
    HeadText(head);
  }

  lemma TextOfParts(parts: seq<string>, sites: seq<(string, string)>, base: Lines)
    requires AreParts(parts) && Parses(PartLines(parts), sites, base)
    ensures Parse(B.JoinParagraphs(parts)).sites == sites
    ensures Parse(B.JoinParagraphs(parts)).globalBlock == Strip(JoinLines(base))
  {
    hide Parses, Strip, JoinLines, Parse;
    if parts == [] {
      ParseNothing(sites, base);
    } else {
      SplitParts(parts);
      ParseBehindBlank(B.JoinParagraphs(parts), sites, base);
    }
  }

  lemma ParseNothing(sites: seq<(string, string)>, base: Lines)
    requires Parses([], sites, base)
    ensures Parse("").sites == sites && Parse("").globalBlock == Strip(JoinLines(base))
  {
  }

  lemma HeadText(parts: seq<string>)
    requires AreParts(parts)
    ensures Strip(JoinLines(PartLines(parts))) == Strip(B.JoinParagraphs(parts))
  {
    hide Strip, JoinLines;
    if parts == [] {
      NoTextAtAll();
    } else {
      var text := B.JoinParagraphs(parts);
      SplitParts(parts);
      StripBlanks(SplitLines(text), 0);
      PartsEnd(parts);
      JoinSplit(text);
    }
  }

  lemma NoTextAtAll()
    ensures JoinLines([]) == ""
  {
  }

  lemma {:induction false} PartsEnd(parts: seq<string>)
    requires AreParts(parts) && parts != []
    ensures IsPart(B.JoinParagraphs(parts))
  {
    if |parts| > 1 {
      PartsEnd(parts[1..]);
    }
  }

  // ---------------------------------------------------------------- bodies up to indentation

  function StripEach(ls: Lines): (r: Lines)
    ensures |r| == |ls| && forall k :: 0 <= k < |ls| ==> r[k] == Strip(ls[k])
  {
    seq(|ls|, k requires 0 <= k < |ls| => Strip(ls[k]))
  }

  lemma StripIndent(line: string)
    ensures Strip(Indent(line)) == Strip(line)
  {
    hide Strip;
    FourSpacesOnly();
    StripPadded("    ", line, "");
    assert "    " + line + "" == "    " + line;
    StripNothing();
  }

  lemma FourSpacesOnly()
    ensures AllSpace("    ") && AllSpace("")
  {
  }

  lemma StripIndentEach(ls: Lines)
    requires WellFormed(ls)
    ensures StripEach(IndentEach(ls)) == StripEach(ls)
  {
    hide Strip, Indent, IndentEach;
    IndentEachFacts(ls);
    forall k | 0 <= k < |ls| ensures Strip(IndentEach(ls)[k]) == Strip(ls[k]) {
      StripIndent(ls[k]);
    }
  }

  lemma StripEachCons(first: string, ls: Lines)
    ensures StripEach([first] + ls) == [Strip(first)] + StripEach(ls)
  {
    hide Strip;
  }

  lemma TrimStartKeeps(ls: Lines)
    requires ls != [] && !IsBlank(ls[0])
    ensures TrimStart(ls) == [LStrip(ls[0])] + ls[1..]
  {
    hide IsBlank, LStrip;
  }

  lemma StripTrimStart(ls: Lines)
    requires ls != [] && !IsBlank(ls[0])
    ensures |TrimStart(ls)| == |ls| && StripEach(TrimStart(ls)) == StripEach(ls)
    ensures TrimStart(ls)[0] == LStrip(ls[0]) && TrimStart(ls)[1..] == ls[1..]
  {
    hide *;
    TrimStartKeeps(ls);
    StripOfLStrip(ls[0]);
    StripEachCons(ls[0], ls[1..]);
    StripEachCons(LStrip(ls[0]), ls[1..]);
    assert ls == [ls[0]] + ls[1..];
  }

  lemma StripEachSnoc(ls: Lines, last: string)
    ensures StripEach(ls + [last]) == StripEach(ls) + [Strip(last)]
  {
    hide Strip;
  }

  lemma TrimEndKeeps(ls: Lines, last: string)
    requires !IsBlank(last)
    ensures TrimEnd(ls + [last]) == ls + [RStrip(last)]
  {
    hide IsBlank, RStrip;
    assert (ls + [last])[..|ls|] == ls;
  }

  lemma StripTrimEnd(ls: Lines)
    requires ls != [] && !IsBlank(ls[|ls| - 1])
    ensures StripEach(TrimEnd(ls)) == StripEach(ls)
  {
    hide *;
    var init, last := ls[..|ls| - 1], ls[|ls| - 1];
    assert ls == init + [last];
    StripOfRStrip(last);
    TrimEndKeeps(init, last);
    StripEachSnoc(init, last);
    StripEachSnoc(init, RStrip(last));
  }

  lemma StripTrimBoth(ls: Lines)
    requires ls != [] && !IsBlank(ls[0]) && !IsBlank(ls[|ls| - 1])
    ensures StripEach(TrimLines(ls)) == StripEach(ls)
  {
    hide TrimStart, TrimEnd, Strip, LStrip;
    StripTrimStart(ls);
    StripOfLStrip(ls[0]);
    var t := TrimStart(ls);
    assert |ls| > 1 ==> t[|t| - 1] == t[1..][|t| - 2] == ls[1..][|ls| - 2];
    StripTrimEnd(t);
  }

  lemma ImportEnds()
    ensures Strip("import security_headers") == "import security_headers"
    ensures "    " + "import security_headers" == "    import security_headers"
  {
    hide Strip;
    StripTrimmed("import security_headers");
  }

  lemma ImportStripped()
    ensures Strip("    import security_headers") == "import security_headers" && Strip("") == ""
    ensures !IsBlank("    import security_headers")
  {
    hide Strip;
    var line := "import security_headers";
    ImportEnds();
    FourSpacesOnly();
    StripPadded("    ", line, "");
    assert "    " + line + "" == "    " + line;
    StripNothing();
  }

  lemma InnerEnds(row: SiteRow, rules: Rules)
    ensures var inner := Inner(row, rules);
            inner != [] && WellFormed(inner) && !IsBlank(inner[0]) && !IsBlank(inner[|inner| - 1])
  {
    hide Strip, IsBlank, BodyLines, IndentEach, Indent, OneLine;
    var ls := BodyLines(row);
    BodyLineFacts(row);
    IndentEachFacts(ls);
    IndentNonBlank(ls[0]);
    IndentNonBlank(ls[|ls| - 1]);
    ImportStripped();
    ImportChars();
    EmptyIsOneLine();
  }

  lemma EmptyIsOneLine()
    ensures OneLine("")
  {
  }

  lemma StripEachConcat(a: Lines, b: Lines)
    ensures StripEach(a + b) == StripEach(a) + StripEach(b)
  {
    hide Strip;
  }

  lemma StrippedInner(row: SiteRow, rules: Rules)
    ensures StripEach(Inner(row, rules))
            == (if rules.needsHeaders(row.directives) then ["import security_headers", ""] else [])
                + StripEach(BodyLines(row))
  {
    hide Strip, BodyLines, IndentEach, StripEach;
    BodyLineFacts(row);
    StripIndentEach(BodyLines(row));
    StrippedImports();
    var imports := ["    import security_headers", ""];
    StripEachConcat(imports, IndentEach(BodyLines(row)));
    assert [] + IndentEach(BodyLines(row)) == IndentEach(BodyLines(row));
    assert [] + StripEach(BodyLines(row)) == StripEach(BodyLines(row));
  }

  lemma StrippedImports()
    ensures StripEach(["    import security_headers", ""]) == ["import security_headers", ""]
  {
    hide Strip;
    ImportStripped();
    var s := StripEach(["    import security_headers", ""]);
    assert s[0] == "import security_headers" && s[1] == "";
  }

  /** A parsed body is the printed directives up to indentation, behind the optional import line. */
  lemma BodyUpToIndentation(row: SiteRow, rules: Rules)
    ensures StripEach(SplitLines(EntryOf(row, rules).1))
            == (if rules.needsHeaders(row.directives) then ["import security_headers", ""] else [])
                + StripEach(BodyLines(row))
  {
    hide Inner, SplitLines, Strip, JoinLines, TrimLines, StripEach;
    InnerEnds(row, rules);
    SplitTrimmed(Inner(row, rules));
    StripTrimBoth(Inner(row, rules));
    StrippedInner(row, rules);
  }
}
