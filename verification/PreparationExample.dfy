/**
 A concrete form whose upstream is not read back from the directives built from it: the custom
 part is a block whose body is again a block, and its second unwrapping leaves a lone brace.
 */
module PreparationExample {
  import opened Text
  import opened Wrappers
  import opened Directives
  import opened Preparation
  import D = Domains
  import P = Parser

  const INNER := "x { {\n}\n}"

  function Custom(): string {
    BlockText("a", INNER)
  }

  function Form(): Fields {
    Fields("u", "", "", "", "", "", "", "", Custom())
  }

  lemma InnerLines()
    ensures SplitLines(INNER) == ["x { {", "}", "}"]
  {
    hide SplitLines;
    SplitLinesFront("x { {", "}\n}");
    SplitLinesFront("}", "}");
    SplitOneLine("}");
    assert "x { {" + "\n" + "}\n}" == INNER && "}" + "\n" + "}" == "}\n}";
    assert ["x { {"] + (["}"] + ["}"]) == ["x { {", "}", "}"];
  }

  lemma FirstLine()
    ensures Net("x { {") == 2 && Strip("x { {") == "x { {" && RStrip("x { {") == "x { {"
  {
    hide Strip, RStrip, LStrip;
    StripTrimmed("x { {");
    RStripTrimmed("x { {");
  }

  lemma InnerIsBody()
    ensures IsBody(INNER) && Balanced(INNER, 0)
  {
    hide RStrip, Strip, SplitLines;
    InnerLines();
    FirstLine();
    OpeningNet();
    StripTrimmed(INNER);
  }

  lemma UnwrappedOnce()
    ensures Normalize(Custom()) == Some(INNER)
  {
    hide Normalize, IsBody, Balanced;
    InnerIsBody();
    PlainWordIsHeader("a");
    assert P.FirstWord("a") == "a" && P.RStripChar("a", ',') == "a";
    NormalizeUnwraps("a", INNER);
  }

  lemma InnerSplits()
    ensures SplitTopLevel(INNER) == Some([INNER])
  {
    hide *;
    InnerLines();
    FirstLine();
    OpeningNet();
    NotEndsWith();
    NoLinesLeft();
    var lines := ["x { {", "}", "}"];
    TextStep(lines, 0, []);
    assert lines[1..] == ["}", "}"] && [] + ["x { {"] == ["x { {"];
    TextStep(lines[1..], 2, ["x { {"]);
    assert lines[1..][1..] == ["}"] && ["x { {"] + ["}"] == ["x { {", "}"];
    FlushStep(["}"], 1, ["x { {", "}"]);
    assert ["}"][1..] == [] && ["x { {", "}"] + ["}"] == lines;
    InnerChunk();
    TopLevel(INNER);
  }

  lemma TopLevel(s: string)
    ensures SplitTopLevel(s) == SplitFrom(SplitLines(s), 0, [])
    ensures Prepend(INNER, Some([])) == Some([INNER])
  {
    assert [INNER] + [] == [INNER];
  }

  lemma InnerChunk()
    ensures Chunk(["x { {", "}", "}"]) == INNER
  {
    hide Strip, SplitLines, JoinLines;
    InnerLines();
    JoinSplit(INNER);
    StripTrimmed(INNER);
  }

  lemma InnerHeader()
    ensures SplitHeader(INNER) == HeaderAndBody("x {", Some("}"))
  {
    hide *;
    var lines := ["x { {", "}", "}"];
    InnerIsBody();
    BodyFacts(INNER);
    InnerLines();
    FirstLine();
    OpeningNet();
    ClosingLine();
    RStripEachFixed(lines);
    OpensWithBrace("x { {");
    HeaderFromLines(INNER, lines);
    assert lines[1..2] == ["}"] && "x { {"[..4] == "x { ";
    JoinSingle("}");
    SplitOneLine("}");
    RightStrippedOne("}");
    OneLineBody("}");
    NormalizeBodyFixed("}");
    TrimHeader();
  }

  lemma OneLineBody(line: string)
    requires SplitLines(line) == [line] && Strip(line) == line && RightStripped([line])
    ensures IsBody(line)
  {
    hide Strip, SplitLines, RightStripped;
  }

  lemma TrimHeader()
    ensures RStrip("x { ") == "x {"
  {
    RStripSuffix("x {", " ");
    RStripTrimmed("x {");
    assert "x {" + " " == "x { ";
    hide RStrip;
  }

  lemma UnwrappedTwice()
    ensures Normalize(INNER) == Some("}")
  {
    hide Normalize, SplitTopLevel, SplitHeader, Strip;
    InnerSplits();
    InnerHeader();
    StripTrimmed(INNER);
    OpeningNet();
    assert INNER[2] == '{';
    assert P.FirstWord("x {") == "x" && P.RStripChar("x", ',') == "x";
    NormalizeOneChunk(INNER, HeaderAndBody("x {", Some("}")));
  }

  lemma LoneBrace()
    ensures SplitTopLevel("}") == None
  {
    hide Strip, RStrip, Net, SplitLines;
    OpeningNet();
    SplitOneLine("}");
  }

  lemma EmptyFields()
    ensures NormalizeBody("") == "" && NormalizeInline("", "encode") == "" && NormalizeToken("u") == Some("u")
  {
    hide Strip;
    StripNothing();
    StripTrimmed("u");
  }

  lemma FormNormalized()
    ensures Validated(Form()) == Fields("u", "", "", "", "", "", "", "", INNER)
    ensures Final(Form()) == Fields("u", "", "", "", "", "", "", "", "}")
  {
    hide NormalizeBody, NormalizeInline, NormalizeToken, Normalize, Custom;
    EmptyFields();
    UnwrappedOnce();
    UnwrappedTwice();
  }

  lemma NoImports()
    ensures CustomErrors(INNER) == []
  {
    hide SplitTopLevel, SplitHeader, SplitLines, Strip;
    InnerLines();
    InnerSplits();
    InnerHeader();
    assert P.FirstWord("x {") == "x" && D.Lower("x") == "x";
    assert CountImports([INNER]) == 0 by {
      assert [INNER][1..] == [];
    }
    var lines := ["x { {", "}", "}"];
    assert forall k :: 0 <= k < 3 ==> !IsImportLine(lines[k]);
  }

  lemma NoBodyErrors(name: string)
    ensures BodyErrors(name, "") == []
  {
    hide HasWrapper, Balanced;
  }

  lemma NoErrorsIn(f: Fields, n: Fields)
    requires NormalizeToken(f.upstream).Some? && n == Fields("u", "", "", "", "", "", "", "", INNER)
    requires Balanced(INNER, 0) && CustomErrors(INNER) == []
    ensures FieldErrors(f, n) == []
  {
    hide NormalizeToken, BodyErrors, CustomErrors, Balanced;
    NoBodyErrors("reverse_proxy");
    NoBodyErrors("header");
    NoBodyErrors("request_body");
    NoBodyErrors("log");
    NoBodyErrors("tls");
    NoBodyErrors("basic_auth");
  }

  lemma ErrorsOf(f: Fields)
    ensures Prepare(f).errors == FieldErrors(f, Validated(f))
  {
    hide NormalizeToken, NormalizeFields, FieldErrors, Build, ExtractUpstream;
  }

  lemma UpstreamOfForm()
    ensures Form().upstream == "u"
  {
  }

  lemma FormAccepted()
    ensures Prepare(Form()).errors == []
  {
    hide *;
    FormNormalized();
    NoImports();
    InnerIsBody();
    EmptyFields();
    UpstreamOfForm();
    ErrorsOf(Form());
    NoErrorsIn(Form(), Validated(Form()));
  }

  /** The form below has no errors, yet its upstream cannot be read back from what was built. */
  lemma UpstreamCanBeLost()
    ensures Prepare(Form()).errors == [] && Validated(Form()).upstream == "u"
    ensures ExtractUpstream(Prepare(Form()).directives) != Some("u")
  {
    hide *;
    FormAccepted();
    FormNormalized();
    LoneBrace();
    UpstreamReadBack(Form());
  }
}
