/**
 A concrete site that `create` accepts and whose stored directives change when only its name is
 updated.
 */
module SitesExample {
  import opened Text
  import opened Wrappers
  import opened Directives
  import opened Preparation
  import D = Domains
  import P = Parser
  import U = Unwrapping
  import Sites

  const BODY := "respond"
  const HOST := "a.de"

  function Stored(): string {
    BlockText("b", BlockText("c", BODY))
  }

  function NewSite(): Sites.NewSite {
    Sites.NewSite("s", HOST, BlockText("a", Stored()), true)
  }

  lemma HostIsName()
    ensures D.IsName(HOST)
  {
    assert Find(HOST, '.') == 1 && HOST[..1] == "a" && HOST[2..] == "de";
    assert Find("de", '.') == 2;
  }

  lemma HostIsStored()
    ensures D.NormalizeList(HOST) == Ok(HOST) && D.NamesOf(HOST) == [HOST]
  {
    HostIsName();
    hide D.IsName;
    assert D.JoinNames([HOST]) == HOST;
    D.SplitJoinNames([HOST]);
  }

  lemma Body()
    ensures BODY != "" && IsBody(BODY) && Balanced(BODY, 0)
  {
    StripTrimmed(BODY);
    RStripTrimmed(BODY);
    SplitOneLine(BODY);
    U.PlainIsBalanced(BODY);
    hide Strip, RStrip, SplitLines, Balanced;
  }

  lemma WordWraps(word: string)
    requires word in ["a", "b", "c"]
    ensures U.IsWrapper(word) && !("reverse_proxy " <= word)
  {
    PlainWordIsHeader(word);
    assert P.FirstWord(word) == word && P.RStripChar(word, ',') == word;
  }

  lemma InnerBlock()
    ensures IsBody(BlockText("c", BODY)) && Balanced(BlockText("c", BODY), 0) && BlockText("c", BODY) != ""
  {
    hide *;
    Body();
    WordWraps("c");
    U.Wrapper("c");
    U.BlockIsBody("c", BODY);
    U.BlockIsBalanced("c", BODY);
    U.NonEmptyBlock("c", BODY);
  }

  /** There is no upstream to read from the directives: the first header names no proxy. */
  lemma NoUpstream()
    ensures ExtractUpstream(BlockText("b", BlockText("c", BODY))) == None
  {
    hide *;
    var text := BlockText("b", BlockText("c", BODY));
    InnerBlock();
    WordWraps("b");
    U.Wrapper("b");
    U.NonEmptyBlock("b", BlockText("c", BODY));
    BlockIsOneChunk("b", BlockText("c", BODY));
    SplitLastChunk(text);
    HeaderOfBlock("b", BlockText("c", BODY));
    ExtractFromChunks(text, [text]);
    NoProxy(text);
  }

  lemma NoProxy(text: string)
    requires !("reverse_proxy " <= SplitHeader(text).header)
    ensures FirstProxy([text]) == None
  {
    hide SplitHeader;
    assert [text][1..] == [];
  }

  lemma Fallback(urlOk: string -> bool)
    requires urlOk("http://a.de")
    ensures Sites.Upstream("http://" + HOST, urlOk) == Ok("http://a.de")
  {
    assert "http://" + HOST == "http://a.de";
    StripTrimmed("http://a.de");
    hide Strip;
  }

  lemma Names()
    ensures Sites.SiteName("s") == Ok("s") && Sites.SiteName("t") == Ok("t")
  {
    StripTrimmed("s");
    StripTrimmed("t");
    hide Strip;
  }

  lemma Accepted(urlOk: string -> bool)
    requires urlOk("http://a.de") && Normalize(NewSite().directives) == Some(Stored())
        && ExtractUpstream(Stored()) == None
    ensures Sites.Create(map[], NewSite(), urlOk).Ok?
  {
    hide Normalize, ExtractUpstream, BlockText, Strip, D.NormalizeList, D.NamesOf, Sites.Upstream,
      Sites.SiteName, Stored;
    HostIsStored();
    Fallback(urlOk);
    Names();
    Placeholder();
  }

  lemma Placeholder()
    ensures Sites.PLACEHOLDER_URL != "http://a.de"
  {
    assert |Sites.PLACEHOLDER_URL| != |"http://a.de"|;
  }

  /** Renaming the site strips the wrapper that two normalizations had left. */
  lemma RenameRewrites(urlOk: string -> bool)
    requires urlOk("http://a.de")
    ensures var site := Sites.Create(map[], NewSite(), urlOk);
            && site.Ok? && site.value.directives == Some("c {\nrespond\n}")
            && Sites.AllStored(map[0 := site.value])
            && var renamed := Sites.Update(map[0 := site.value], 0, Sites.Change(Some("t"), None, None, None), urlOk);
               renamed.Ok? && renamed.value.directives == Some("respond")
  {
    hide Sites.Create, Sites.Update, Sites.SiteName, Normalize, IsBody, Balanced, U.IsWrapper, D.IsStored,
      ExtractUpstream;
    Body();
    WordWraps("a");
    WordWraps("b");
    WordWraps("c");
    U.ThreeWrappers("a", "b", "c", BODY);
    NoUpstream();
    Accepted(urlOk);
    Names();
    assert BlockText("c", BODY) == "c {\nrespond\n}";
    Sites.RenameUnwraps(map[], NewSite(), 0, "t", "a", "b", "c", BODY, urlOk);
  }
}
