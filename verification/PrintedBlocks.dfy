/**
 One printed site block, piece by piece (app/utils/caddyfile.py:136-140, 467-513, 584-613): which
 label it has, what it shows, and where its import lines stand.
 */
module PrintedBlocks {
  import opened Text
  import opened Wrappers
  import opened SiteBlocks
  import D = Domains
  import B = Directives

  // ---------------------------------------------------------------- the label

  /** The name that is split: the trimmed one, or a stand-in for a blank one. */
  ghost predicate IsShown(name: string, shown: string) {
    if AllSpace(name) then shown == "example.com"
    else exists before: string, after: string :: name == before + shown + after && IsTrimmedBy(before, shown, after)
  }

  predicate IsTrimmedBy(before: string, shown: string, after: string) {
    AllSpace(before) && AllSpace(after) && shown != "" && !IsSpace(shown[0]) && !IsSpace(shown[|shown| - 1])
  }

  lemma ShownIs(name: string, shown: string)
    requires IsShown(name, shown)
    ensures shown == if Strip(name) == "" then "example.com" else Strip(name)
  {
    BlankIsAllSpace(name);
    if !AllSpace(name) {
      var before, after :| name == before + shown + after && IsTrimmedBy(before, shown, after);
      StripPadded(before, shown, after);
      StripTrimmed(shown);
    }
    hide Strip, AllSpace;
  }

  /**
   The label: refused for a line break or a brace inside the name or for a name that is no domain
   list; otherwise the distinct names in order, each with a scheme exactly if there is no TLS.
   */
  lemma LabelIs(name: string, shown: string, ssl: bool)
    requires IsShown(name, shown)
    ensures Label(name, ssl).None? <==>
        '\n' in shown || '\r' in shown || '{' in shown || '}' in shown || D.SplitNames(shown).Err?
    ensures ssl && Label(name, ssl).Some? ==> Label(name, ssl).value == D.JoinNames(D.SplitNames(shown).value)
  {
    ShownIs(name, shown);
    hide Strip, D.SplitNames, D.JoinNames, WithScheme;
  }

  lemma PlainLabelIs(name: string, shown: string, entries: seq<string>)
    requires IsShown(name, shown) && Label(name, false).Some?
    requires D.SplitNames(shown).Ok? && |entries| == |D.SplitNames(shown).value|
    requires forall k :: 0 <= k < |entries| ==> entries[k] == "http://" + D.SplitNames(shown).value[k]
    ensures Label(name, false) == Some(D.JoinNames(entries))
  {
    ShownIs(name, shown);
    SchemesAre(D.SplitNames(shown).value, entries);
    hide Strip, D.SplitNames, D.JoinNames, WithScheme;
  }

  lemma {:induction false} SchemesAre(names: seq<string>, entries: seq<string>)
    requires |entries| == |names| && forall k :: 0 <= k < |names| ==> entries[k] == "http://" + names[k]
    ensures WithScheme(names) == entries
  {
    if names != [] {
      SchemesAre(names[1..], entries[1..]);
      assert entries == [entries[0]] + entries[1..];
    }
  }

  /** Names are joined with a comma and a space between them. */
  lemma {:induction false} CommasBetween(a: seq<string>, b: seq<string>)
    ensures a != [] && b != [] ==> D.JoinNames(a + b) == D.JoinNames(a) + ", " + D.JoinNames(b)
    ensures a == [] ==> D.JoinNames(a) == ""
    ensures |a| == 1 ==> D.JoinNames(a) == a[0]
  {
    if a != [] && b != [] {
      assert (a + b)[1..] == a[1..] + b;
      CommasBetween(a[1..], b);
      if |a| == 1 {
        assert a[1..] + b == b;
      } else {
        assert a[0] + ", " + (D.JoinNames(a[1..]) + ", " + D.JoinNames(b)) ==
            (a[0] + ", " + D.JoinNames(a[1..])) + ", " + D.JoinNames(b);
      }
    }
  }

  // ---------------------------------------------------------------- what is shown

  /** The stored directives, else a proxy line for the upstream, else a remark. */
  lemma ShownDirectives(directives: string, upstream: string)
    ensures BodyText(directives, upstream) ==
        match (B.Normalize(directives), B.NormalizeToken(upstream))
        case (Some(d), _) => d
        case (None, Some(u)) => if |u| > 0 then "reverse_proxy " + u else "# Add Caddy directives here"
        case (None, None) => "# Add Caddy directives here"
  {
    hide B.Normalize, B.NormalizeToken;
  }

  /** The lines indented by four spaces, blank ones empty. */
  predicate AreIndented(lines: Lines, shown: Lines) {
    && |shown| == |lines|
    && forall k :: 0 <= k < |lines| ==> shown[k] == if AllSpace(lines[k]) then "" else "    " + lines[k]
  }

  lemma {:induction false} IndentedAre(lines: Lines, shown: Lines)
    requires AreIndented(lines, shown)
    ensures IndentEach(lines) == shown
  {
    hide AllSpace, IsBlank, Indent;
    if lines != [] {
      IndentIs(lines[0]);
      IndentedAre(lines[1..], shown[1..]);
      assert shown == [shown[0]] + shown[1..];
    }
  }

  lemma IndentIs(line: string)
    ensures Indent(line) == if AllSpace(line) then "" else "    " + line
  {
    BlankIsAllSpace(line);
    hide AllSpace, IsBlank;
  }

  lemma HasLines(directives: string, upstream: string)
    ensures SplitLines(BodyText(directives, upstream)) != []
  {
    NormalizedNotEmpty(directives);
    hide B.Normalize, B.NormalizeToken;
    assert BodyText(directives, upstream) != "";
  }

  lemma NormalizedNotEmpty(raw: string)
    ensures B.Normalize(raw) != Some("")
  {
    hide Strip, B.SplitTopLevel, B.SplitHeader;
  }

  lemma EnclosedText(first: string, inner: Lines)
    requires inner != []
    ensures JoinLines([first] + (inner + ["}"])) == first + "\n" + JoinLines(inner) + "\n}"
  {
    JoinCons(first, inner + ["}"]);
    JoinConcat(inner, ["}"]);
    B.JoinSingle("}");
    hide JoinLines;
    assert first + "\n" + (JoinLines(inner) + "\n" + "}") == first + "\n" + JoinLines(inner) + "\n}";
  }

  /** The preview: label and opening brace, the indented lines, the closing brace. */
  lemma PreviewIs(name: string, upstream: string, directives: string, ssl: bool, shown: Lines)
    requires AreIndented(SplitLines(BodyText(directives, upstream)), shown)
    ensures Preview(name, upstream, directives, ssl) ==
        match Label(name, ssl)
        case None => None
        case Some(siteLabel) => Some(JoinLines([siteLabel + " {"] + (shown + ["}"])))
  {
    hide *;
    IndentedAre(SplitLines(BodyText(directives, upstream)), shown);
    HasLines(directives, upstream);
    PreviewFrom(name, upstream, directives, ssl);
    assert shown != [] by { SameLength(SplitLines(BodyText(directives, upstream)), shown); }
    if Label(name, ssl).Some? {
      var siteLabel := Label(name, ssl).value;
      EnclosedText(siteLabel + " {", shown);
      assert siteLabel + " {\n" == siteLabel + " {" + "\n";
    }
  }

  lemma SameLength(lines: Lines, shown: Lines)
    requires AreIndented(lines, shown) && lines != []
    ensures shown != []
  {
  }

  lemma PreviewFrom(name: string, upstream: string, directives: string, ssl: bool)
    ensures Preview(name, upstream, directives, ssl) ==
        match Label(name, ssl)
        case None => None
        case Some(siteLabel) =>
          Some(siteLabel + " {\n" + JoinLines(IndentEach(SplitLines(BodyText(directives, upstream)))) + "\n}")
  {
    hide Label, BodyText, JoinLines, SplitLines, IndentEach;
  }

  // ---------------------------------------------------------------- the import lines

  lemma LabelIsOneLine(name: string, ssl: bool)
    ensures Label(name, ssl).Some? ==> OneLine(Label(name, ssl).value + " {")
  {
    hide Strip;
    if Label(name, ssl).Some? {
      var n := if Strip(name) == "" then "example.com" else Strip(name);
      var names := D.SplitNames(n).value;
      SplitAreNames(n);
      if ssl {
        NamesOnOneLine(names);
      } else {
        SchemeOnOneLine(names);
        NamesOnOneLine(WithScheme(names));
      }
    }
  }

  predicate AreOneLine(texts: seq<string>) {
    forall k :: 0 <= k < |texts| ==> OneLine(texts[k])
  }

  lemma SplitAreNames(raw: string)
    ensures D.SplitNames(raw).Ok? ==> AreOneLine(D.SplitNames(raw).value)
  {
    if D.SplitNames(raw).Ok? {
      D.SplitNamesGood(raw);
      var names := D.SplitNames(raw).value;
      forall k | 0 <= k < |names| ensures OneLine(names[k]) {
        D.NameChars(names[k]);
      }
    }
    hide D.IsName, D.SplitNames;
  }

  lemma {:induction false} SchemeOnOneLine(names: seq<string>)
    requires AreOneLine(names)
    ensures AreOneLine(WithScheme(names))
  {
    if names != [] {
      SchemeOnOneLine(names[1..]);
    }
  }

  lemma {:induction false} NamesOnOneLine(names: seq<string>)
    requires AreOneLine(names)
    ensures OneLine(D.JoinNames(names))
  {
    if |names| > 1 {
      NamesOnOneLine(names[1..]);
    }
  }

  function ImportedLines(headers: bool, log: bool): Lines {
    if headers && log then ["    import security_headers", "    import default_log", ""]
    else if headers then ["    import security_headers", ""]
    else if log then ["    import default_log", ""]
    else []
  }

  /** The import lines stand behind the label, with an empty line between them and the directives. */
  lemma GeneratedIs(name: string, upstream: string, directives: string, ssl: bool, headers: bool, log: bool,
      shown: Lines)
    requires AreIndented(SplitLines(BodyText(directives, upstream)), shown)
    ensures Generated(name, upstream, directives, ssl, headers, log) ==
        match Label(name, ssl)
        case None => None
        case Some(siteLabel) =>
          Some(JoinLines([siteLabel + " {"] + (ImportedLines(headers, log) + (shown + ["}"]))))
  {
    PreviewIs(name, upstream, directives, ssl, shown);
    LabelIsOneLine(name, ssl);
    hide *;
    GeneratedFrom(name, upstream, directives, ssl, headers, log);
    if Label(name, ssl).Some? {
      var first, rest := Label(name, ssl).value + " {", shown + ["}"];
      JoinCons(first, rest);
      HeadLine(first, JoinLines(rest));
      if headers || log {
        WithImports(first, headers, log, rest);
      } else {
        NoImports();
        assert [] + rest == rest;
      }
    }
  }

  lemma NoImports()
    ensures ImportedLines(false, false) == []
  {
  }

  lemma GeneratedFrom(name: string, upstream: string, directives: string, ssl: bool, headers: bool, log: bool)
    ensures Generated(name, upstream, directives, ssl, headers, log) ==
        match Preview(name, upstream, directives, ssl)
        case None => None
        case Some(preview) =>
          if headers || log then
            Some(preview[..Find(preview, '\n')] + "\n" + JoinLines(ImportLines(headers, log)) + "\n"
                 + preview[Find(preview, '\n')..])
          else Some(preview)
  {
    hide Preview, JoinLines, ImportLines;
  }

  lemma HeadLine(first: string, rest: string)
    requires OneLine(first)
    ensures var text := first + "\n" + rest;
            Find(text, '\n') == |first| && text[..|first|] == first && text[|first|..] == "\n" + rest
  {
    FindInConcat(first, '\n', rest);
    assert first + ['\n'] + rest == first + "\n" + rest;
  }

  lemma WithImports(first: string, headers: bool, log: bool, rest: Lines)
    requires (headers || log) && rest != []
    ensures JoinLines([first] + (ImportedLines(headers, log) + rest)) ==
        first + "\n" + JoinLines(ImportLines(headers, log)) + "\n" + ("\n" + JoinLines(rest))
  {
    hide *;
    var imports := ImportLines(headers, log);
    ImportsAre(headers, log);
    JoinCons(first, (imports + [""]) + rest);
    JoinCons("", rest);
    JoinConcat(imports, [""] + rest);
    assert imports + ([""] + rest) == (imports + [""]) + rest;
    assert "" + "\n" + JoinLines(rest) == "\n" + JoinLines(rest);
    assert first + "\n" + (JoinLines(imports) + "\n" + ("\n" + JoinLines(rest))) ==
        first + "\n" + JoinLines(imports) + "\n" + ("\n" + JoinLines(rest));
  }

  lemma ImportsAre(headers: bool, log: bool)
    requires headers || log
    ensures ImportLines(headers, log) != [] && ImportedLines(headers, log) == ImportLines(headers, log) + [""]
  {
  }
}
