/**
 When rewriting the managed options changes the sites of a Caddyfile (app/utils/caddyfile.py:675-802):
 the exact condition on the global block, whatever follows it, and two texts on which lines below
 `admin` are kept that belong to it.
 */
module SitesLost {
  import opened Text
  import opened Wrappers
  import opened Parser
  import opened GlobalOptions
  import opened LastWrite
  import opened SitesKept
  import D = Domains
  import R = RoundTrip
  import SitesExample

  // ---------------------------------------------------------------- a site that follows

  const NEXT_SITE: Lines := [SitesExample.HOST + " {", "}"]

  lemma NextSite()
    ensures |NEXT_SITE| == 2 && NEXT_SITE == [NEXT_SITE[0]] + ["}"] && NEXT_SITE[1..] == ["}"]
    ensures OpensBlock(NEXT_SITE[0]) && Net(NEXT_SITE[0]) == 1 && KindOf(NEXT_SITE[0]) == Site && Net("}") == -1
  {
    hide *;
    SitesExample.HostIsStored();
    StoredIs(SitesExample.HOST);
    R.HeaderLineFacts(SitesExample.HOST);
    BracesAreClean();
    NextSiteIs();
  }

  lemma StoredIs(domain: string)
    requires D.NormalizeList(domain) == Ok(domain)
    ensures D.IsStored(domain)
  {
    hide D.NormalizeList;
  }

  lemma NextSiteIs()
    ensures |NEXT_SITE| == 2 && NEXT_SITE == [SitesExample.HOST + " {"] + ["}"] && NEXT_SITE[1..] == ["}"]
  {
    hide SitesExample.HOST;
  }

  lemma NextSiteParses()
    ensures SizeOf(NEXT_SITE) == 2 && |SitesOf(Segments(NEXT_SITE))| == 1
  {
    hide *;
    NextSite();
    NextSiteTail(1);
    SizeOfIs(NEXT_SITE[0], ["}"]);
    SegmentsStep(NEXT_SITE);
    NothingOpen();
    assert NEXT_SITE[2..] == [] && NEXT_SITE[..2] == NEXT_SITE;
    OneSite(NEXT_SITE);
  }

  lemma OneSite(block: Lines)
    requires block != [] && Segments(block) == [Segment(Site, block)] + []
    ensures |SitesOf(Segments(block))| == 1
  {
    hide Segments, SiteOf;
    assert ([Segment(Site, block)] + [])[1..] == [];
    assert SitesOf([]) == [];
  }

  /** Inside an open block the site is just two more of its lines. */
  lemma NextSiteTail(depth: int)
    requires depth > 0
    ensures BlockTail(NEXT_SITE, depth) == 2
    ensures depth == 1 ==> BlockTail(["}"], depth) == 1
  {
    hide *;
    NextSite();
    TailStep(NEXT_SITE[0], ["}"], depth);
    TailStep("}", [], depth + 1);
    TailStep("}", [], depth);
    assert ["}"] == ["}"] + [];
    EmptyTail(depth);
    EmptyTail(depth - 1);
  }

  lemma EmptyTail(depth: int)
    ensures BlockTail([], depth) == 0
  {
  }

  /** A site behind a text that ends inside a block is taken into that block. */
  lemma {:induction false} Swallowed(lines: Lines)
    requires EndsOpen(lines)
    ensures |SitesOf(Segments(lines + NEXT_SITE))| == |SitesOf(Segments(lines))|
    decreases |lines|
  {
    hide *;
    EndsOpenHasLines(lines);
    NextSite();
    var all, n := lines + NEXT_SITE, SizeOf(lines);
    SegmentsStep(lines);
    SegmentsStep(all);
    assert all[0] == lines[0] && all[1..] == lines[1..] + NEXT_SITE;
    if n < |lines| {
      SizeConcat(lines, NEXT_SITE);
      EndsOpenStep(lines);
      Swallowed(lines[n..]);
      assert all[..n] == lines[..n] && all[n..] == lines[n..] + NEXT_SITE;
      SitesCount(KindOf(lines[0]), lines[..n], Segments(lines[n..]));
      SitesCount(KindOf(lines[0]), lines[..n], Segments(all[n..]));
    } else {
      OneSegmentEndsOpen(lines);
      TailConcat(lines[1..], NEXT_SITE, Net(lines[0]));
      NextSiteTail(Net(lines[0]) + NetLines(lines[1..]));
      SizeOfIs(lines[0], all[1..]);
      assert all == [lines[0]] + all[1..];
      assert all[..|all|] == all && all[|all|..] == [] && lines[..n] == lines && lines[n..] == [];
      SitesCount(KindOf(lines[0]), lines, Segments([]));
      SitesCount(KindOf(lines[0]), all, Segments([]));
    }
  }

  lemma EndsOpenHasLines(lines: Lines)
    requires EndsOpen(lines)
    ensures lines != []
  {
  }

  lemma SitesCount(kind: Kind, block: Lines, rest: seq<Segment>)
    requires block != []
    ensures |SitesOf([Segment(kind, block)] + rest)| == (if kind == Site then 1 else 0) + |SitesOf(rest)|
  {
    hide SiteOf;
    assert ([Segment(kind, block)] + rest)[1..] == rest;
  }

  // ---------------------------------------------------------------- whatever follows

  lemma {:induction false} CloseAppend(lines: Lines, tail: Lines, depth: int)
    requires CloseFrom(lines, depth) < |lines|
    ensures CloseFrom(lines + tail, depth) == CloseFrom(lines, depth)
  {
    hide Net;
    assert (lines + tail)[1..] == lines[1..] + tail;
    if depth + Net(lines[0]) != 0 {
      CloseAppend(lines[1..], tail, depth + Net(lines[0]));
    }
  }

  /** A text that ends with its global block: what is appended is not looked at. */
  predicate EndsWithBlock(lines: Lines, k: nat) {
    && k < |lines| && Strip(lines[k]) == "{"
    && CloseFrom(lines[k..], 0) == |lines| - k - 1
  }

  lemma Appended(lines: Lines, k: nat, tail: Lines, managed: Lines)
    requires EndsWithBlock(lines, k)
    ensures Replaced(lines + tail, k, managed) == Replaced(lines, k, managed) + tail
    ensures BlockBefore(lines + tail, k) == BlockBefore(lines, k) == lines[k..]
    ensures BlockKept(lines + tail, k) == BlockKept(lines, k)
    ensures (lines + tail)[..k] == lines[..k] && (lines + tail)[k] == lines[k]
  {
    hide *;
    var all, c := lines + tail, |lines| - 1;
    EndsIs(lines, k);
    CloseAppend(lines[k..], tail, 0);
    SlicesOfAppended(lines, tail, k);
    EndIs(lines, k);
    EndIs(all, k);
    OpenBraceNet(lines[k]);
    CloseStep(lines[k], lines[k + 1..], 0);
    assert lines[k..] == [lines[k]] + lines[k + 1..];
    BlockShapes(lines, k);
    BlockShapes(all, k);
    BlockParts(lines, k, managed);
    BlockParts(all, k, managed);
    assert lines[c + 1..] == [] && all[c + 1..] == tail;
    Regrouped(lines[..k], [lines[k]] + (managed + BlockKept(lines, k)[1..]), tail);
    assert lines[k..] == [lines[k]] + (lines[k + 1..c] + [lines[c]]);
  }

  lemma SlicesOfAppended(lines: Lines, tail: Lines, k: nat)
    requires k < |lines|
    ensures var all, c := lines + tail, |lines| - 1;
            && all[k..] == lines[k..] + tail && all[..k] == lines[..k] && all[k] == lines[k] && all[c] == lines[c]
            && (k < c ==> all[k + 1..c] == lines[k + 1..c])
  {
  }

  lemma Regrouped(a: Lines, b: Lines, tail: Lines)
    ensures a + (b + tail) == (a + (b + [])) + tail
  {
    assert b + [] == b;
  }

  predicate SurvivesBefore(lines: Lines, k: nat, managed: Lines, tail: Lines)
    requires k < |lines|
  {
    SitesOf(Segments(Replaced(lines + tail, k, managed))) == SitesOf(Segments(lines + tail))
  }

  /** The rewritten block is left open: a site that follows is swallowed. */
  lemma FollowerIsLost(lines: Lines, k: nat, managed: Lines)
    requires EndsWithBlock(lines, k) && AreOptions(managed)
    requires !EndsOpen(lines[..k]) && !EndsOpen(BlockBefore(lines, k)) && EndsOpen(BlockKept(lines, k))
    ensures |SitesOf(Segments(Replaced(lines + NEXT_SITE, k, managed)))| ==
        |SitesOf(Segments(Replaced(lines, k, managed)))|
    ensures |SitesOf(Segments(lines + NEXT_SITE))| == |SitesOf(Segments(lines))| + 1
  {
    hide *;
    EndsIs(lines, k);
    var was, kept := BlockBefore(lines, k), BlockKept(lines, k);
    Appended(lines, k, [], managed);
    Appended(lines, k, NEXT_SITE, managed);
    EndIs(lines, k);
    BlockParts(lines, k, managed);
    var next := [lines[k]] + (managed + kept[1..]);
    assert lines[BlockEnd(lines, k) + 1..] == [];
    ManagedInside(lines[k], managed, kept[1..]);
    assert Replaced(lines, k, managed) == lines[..k] + next;
    DistributesWhenClosed(lines[..k], next);
    Swallowed(Replaced(lines, k, managed));
    assert lines == lines[..k] + was;
    DistributesWhenClosed(lines[..k], was);
    DistributesWhenClosed(lines, NEXT_SITE);
    SitesConcat(Segments(lines), Segments(NEXT_SITE));
    NextSiteParses();
  }

  lemma EndsIs(lines: Lines, k: nat)
    requires EndsWithBlock(lines, k)
    ensures k < |lines| && Strip(lines[k]) == "{" && CloseFrom(lines[k..], 0) == |lines| - k - 1
  {
    hide Strip, CloseFrom;
  }

  /**
   Exactly when the sites survive the rewrite, whatever follows the global block: when the block
   without its managed lines still leaves nothing open and holds the same sites.
   */
  lemma SurviveWhateverFollows(lines: Lines, k: nat, managed: Lines)
    requires EndsWithBlock(lines, k) && AreOptions(managed)
    requires !EndsOpen(lines[..k]) && !EndsOpen(BlockBefore(lines, k))
    ensures (forall tail: Lines :: SurvivesBefore(lines, k, managed, tail)) <==>
              !EndsOpen(BlockKept(lines, k)) && KeepsBlockSites(lines, k)
  {
    hide *;
    EndsIs(lines, k);
    if EndsOpen(BlockKept(lines, k)) {
      FollowerIsLost(lines, k, managed);
      SurvivesIs(lines, k, managed, []);
      SurvivesIs(lines, k, managed, NEXT_SITE);
      assert lines + [] == lines;
    } else {
      forall tail: Lines ensures SurvivesBefore(lines, k, managed, tail) <==> KeepsBlockSites(lines, k) {
        SurvivesWhenClosed(lines, k, managed, tail);
      }
      assert SurvivesBefore(lines, k, managed, []) <==> KeepsBlockSites(lines, k);
    }
  }

  lemma SurvivesIs(lines: Lines, k: nat, managed: Lines, tail: Lines)
    requires k < |lines|
    ensures SurvivesBefore(lines, k, managed, tail) <==>
              SitesOf(Segments(Replaced(lines + tail, k, managed))) == SitesOf(Segments(lines + tail))
  {
    hide SitesOf, Segments, Replaced;
  }

  lemma SurvivesWhenClosed(lines: Lines, k: nat, managed: Lines, tail: Lines)
    requires EndsWithBlock(lines, k) && AreOptions(managed)
    requires !EndsOpen(lines[..k]) && !EndsOpen(BlockBefore(lines, k)) && !EndsOpen(BlockKept(lines, k))
    ensures SurvivesBefore(lines, k, managed, tail) <==> KeepsBlockSites(lines, k)
  {
    hide *;
    EndsIs(lines, k);
    Appended(lines, k, tail, managed);
    SeparateIs(lines + tail, k);
    SeparateIs(lines, k);
    SurvivesIs(lines, k, managed, tail);
    SitesKeptExactly(lines + tail, k, managed);
  }

  // ---------------------------------------------------------------- a text that loses its site

  const OPENED: Lines := ["{", "log {", "admin }", "}"]

  lemma OpenedIs()
    ensures |OPENED| == 4 && OPENED == ["{"] + (["log {", "admin }"] + ["}"]) && OPENED[0] == "{"
    ensures OPENED[0..] == OPENED && OPENED[..0] == [] && OPENED[1..3] == ["log {", "admin }"] && OPENED[3] == "}"
  {
  }

  lemma OpenedEnds()
    ensures EndsWithBlock(OPENED, 0) && BlockEnd(OPENED, 0) == 3
  {
    hide *;
    OpenedIs();
    PlainNets();
    BracesAreClean();
    CloseStep("{", ["log {", "admin }", "}"], 0);
    CloseStep("log {", ["admin }", "}"], 1);
    CloseStep("admin }", ["}"], 2);
    CloseStep("}", [], 1);
    assert ["log {", "admin }", "}"] == ["log {"] + ["admin }", "}"] && ["admin }", "}"] == ["admin }"] + ["}"]
      && ["}"] == ["}"] + [];
    assert OPENED == ["{"] + ["log {", "admin }", "}"];
    EndsWithIs(OPENED, 0);
    EndIs(OPENED, 0);
  }

  lemma EndsWithIs(lines: Lines, k: nat)
    requires k < |lines|
    ensures EndsWithBlock(lines, k) <==> Strip(lines[k]) == "{" && CloseFrom(lines[k..], 0) == |lines| - k - 1
  {
    hide Strip, CloseFrom;
  }

  lemma OpenedKept()
    ensures BlockBefore(OPENED, 0) == OPENED && BlockKept(OPENED, 0) == ["{", "log {", "}"]
  {
    hide *;
    OpenedIs();
    OpenedEnds();
    BlockShapes(OPENED, 0);
    PlainManaged();
    UnmanagedEmpty();
    UnmanagedLast([], "log {");
    UnmanagedLast(["log {"], "admin }");
    assert [] + ["log {"] == ["log {"] && ["log {"] + ["admin }"] == ["log {", "admin }"];
    assert ["{"] + (["log {"] + ["}"]) == ["{", "log {", "}"];
  }

  lemma OpenedIsClosed()
    ensures !EndsOpen(OPENED) && SitesOf(Segments(OPENED)) == []
  {
    hide *;
    OpenedIs();
    PlainNets();
    BracesAreClean();
    var body := ["log {", "admin }"];
    TwoNets("log {", "admin }");
    NetOfBlock("{", body, "}");
    TailStep("log {", ["admin }", "}"], 1);
    TailStep("admin }", ["}"], 2);
    TailStep("}", [], 1);
    EmptyTail(0);
    assert body + ["}"] == ["log {"] + ["admin }", "}"] && ["admin }", "}"] == ["admin }"] + ["}"]
      && ["}"] == ["}"] + [];
    OneBlock("{", body, "}");
  }

  lemma TwoNets(a: string, b: string)
    ensures NetLines([a, b]) == Net(a) + Net(b)
  {
    hide *;
    NetLinesStep([a, b]);
    OneNet(b);
    assert [a, b][1..] == [b];
  }

  lemma KeptStaysOpen()
    ensures EndsOpen(["{", "log {", "}"]) && SitesOf(Segments(["{", "log {", "}"])) == []
  {
    hide *;
    var block, inner := ["{", "log {", "}"], ["log {", "}"];
    PlainNets();
    BracesAreClean();
    OpenBraceKind("{");
    assert block == ["{"] + inner && block[1..] == inner && inner == ["log {"] + ["}"] && ["}"] == ["}"] + [];
    TailStep("log {", ["}"], 1);
    TailStep("}", [], 2);
    EmptyTail(1);
    SizeOfIs("{", inner);
    TwoNets("log {", "}");
    StaysOpen(inner);
    OneSegmentEndsOpen(block);
    SitesStep(block);
    assert block[3..] == [];
    NothingSited();
  }

  lemma StaysOpen(inner: Lines)
    requires inner == ["log {", "}"] && Net("log {") == 1 && Net("}") == -1
    ensures !Closes(inner, 1)
  {
    hide Net;
    assert inner[1..] == ["}"] && ["}"][1..] == [];
    assert !Closes([], 1);
    assert !Closes(["}"], 2);
  }

  /** Lines that are the lines of a stripped text. */
  lemma TextOf(lines: Lines)
    requires CleanEnds(lines) && WellFormed(lines)
    ensures var b := JoinLines(lines); Strip(b) == b && SplitLines(b) == lines
  {
    hide *;
    CleanText(lines);
    CleanEndsStrip(lines);
  }

  lemma NextSiteIsClean(first: Lines)
    requires WellFormed(first) && first != [] && first[0] == "{"
    ensures CleanEnds(first + NEXT_SITE) && WellFormed(first + NEXT_SITE) && OpenFrom(first + NEXT_SITE, 0) == 0
  {
    hide *;
    NextSite();
    BracesAreClean();
    HostLineIsOne();
    WellFormedParts(first, NEXT_SITE);
    CleanEndsIs(first + NEXT_SITE);
    OpenNow(first + NEXT_SITE);
  }

  lemma HostLineIsOne()
    ensures WellFormed(NEXT_SITE) && Net("{") == 1
  {
    assert OneLine("a.de {") && OneLine("}");
    OneBrace();
    hide OneLine, Net;
  }

  lemma OpenedLines()
    ensures WellFormed(OPENED)
  {
    assert OneLine("{") && OneLine("log {") && OneLine("admin }") && OneLine("}");
    hide OneLine;
  }

  /** A closed block and a site behind it: every rewrite swallows the site. */
  lemma SiteCanBeLost(admin: string, email: string)
    requires AreSettings(admin, email)
    ensures var b := JoinLines(OPENED + NEXT_SITE);
            Strip(b) == b && BlockIsClosed(b) && |Parse(b).sites| == 1 && Parse(Inject(b, admin, email)).sites == []
  {
    hide *;
    var lines, managed := OPENED + NEXT_SITE, ManagedLines(admin, email);
    var b := JoinLines(lines);
    OpenedIs();
    OpenedLines();
    OpenedEnds();
    OpenedKept();
    OpenedIsClosed();
    KeptStaysOpen();
    NothingOpen();
    NextSiteIsClean(OPENED);
    TextOf(lines);
    SettingsAreOptions(admin, email);
    FollowerIsLost(OPENED, 0, managed);
    RewrittenHasNone(managed);
    InjectIs(b, admin, email);
    OptionsWellFormed(managed);
    InjectedLines(b, managed);
    ParsedSites(b);
    ParsedSites(Inject(b, admin, email));
    EndsIs(OPENED, 0);
    CloseAppend(OPENED, NEXT_SITE, 0);
    assert lines[0..] == lines;
    BlockIsClosedIs(b);
    ClosedIs(lines, 0);
  }

  lemma RewrittenHasNone(managed: Lines)
    requires AreOptions(managed)
    ensures SitesOf(Segments(Replaced(OPENED, 0, managed))) == []
  {
    hide *;
    OpenedIs();
    OpenedEnds();
    OpenedKept();
    KeptStaysOpen();
    BracesAreClean();
    BlockParts(OPENED, 0, managed);
    var inner := BlockKept(OPENED, 0)[1..];
    ManagedInside("{", managed, inner);
    assert OPENED[4..] == [];
    assert Replaced(OPENED, 0, managed) == ["{"] + (managed + inner);
  }

  // ---------------------------------------------------------------- an admin block

  const ADMIN_BLOCK: Lines := ["{", "admin localhost {", "origins x", "}", "}"]

  lemma AdminIs()
    ensures |ADMIN_BLOCK| == 5 && ADMIN_BLOCK[0] == "{" && ADMIN_BLOCK[4] == "}" && ADMIN_BLOCK[0..] == ADMIN_BLOCK
        && ADMIN_BLOCK[..0] == []
    ensures ADMIN_BLOCK[1..4] == ["admin localhost {"] + ["origins x", "}"]
    ensures ADMIN_BLOCK == ["{"] + (["admin localhost {", "origins x", "}"] + ["}"])
  {
  }

  lemma AdminNets()
    ensures Net("{") == 1 && Net("}") == -1 && Net("admin localhost {") == 1 && Net("origins x") == 0
    ensures IsManaged("admin localhost {") && !IsManaged("origins x") && !IsManaged("}")
    ensures WellFormed(ADMIN_BLOCK)
  {
    hide *;
    PlainNets();
    AdminPieces();
    AdminLines();
    NetConcat("admin localhost ", "{");
    NetNoBraces("admin localhost ");
    NetNoBraces("origins x");
    AdminLine("localhost {");
    LStripTrimmed("origins x");
    OtherStart("origins x");
    ShortIsUnmanaged("}");
  }

  lemma AdminPieces()
    ensures "admin localhost {" == "admin localhost " + "{" == "admin " + "localhost {"
    ensures NoBraces("admin localhost ") && NoBraces("origins x") && "origins x" != "" && !IsSpace("origins x"[0])
        && "origins x"[0] == 'o'
  {
  }

  lemma AdminLines()
    ensures WellFormed(ADMIN_BLOCK)
  {
    assert OneLine("{") && OneLine("admin localhost {") && OneLine("origins x") && OneLine("}");
    hide OneLine;
  }

  lemma OtherStart(line: string)
    requires line != "" && line[0] == 'o' && LStrip(line) == line
    ensures !IsManaged(line)
  {
    hide LStrip;
  }

  lemma AdminEnds()
    ensures EndsWithBlock(ADMIN_BLOCK, 0) && BlockEnd(ADMIN_BLOCK, 0) == 4
  {
    hide *;
    AdminIs();
    AdminNets();
    BracesAreClean();
    CloseStep("{", ["admin localhost {", "origins x", "}", "}"], 0);
    CloseStep("admin localhost {", ["origins x", "}", "}"], 1);
    CloseStep("origins x", ["}", "}"], 2);
    CloseStep("}", ["}"], 2);
    CloseStep("}", [], 1);
    assert ["admin localhost {", "origins x", "}", "}"] == ["admin localhost {"] + ["origins x", "}", "}"];
    assert ["origins x", "}", "}"] == ["origins x"] + ["}", "}"] && ["}", "}"] == ["}"] + ["}"] && ["}"] == ["}"] + [];
    assert ADMIN_BLOCK == ["{"] + ["admin localhost {", "origins x", "}", "}"];
    EndsWithIs(ADMIN_BLOCK, 0);
    EndIs(ADMIN_BLOCK, 0);
  }

  lemma AdminKept()
    ensures BlockBefore(ADMIN_BLOCK, 0) == ADMIN_BLOCK && BlockKept(ADMIN_BLOCK, 0) == ["{", "origins x", "}", "}"]
    ensures NetLines(Removed(ADMIN_BLOCK[1..4])) == 1
  {
    hide *;
    AdminIs();
    AdminNets();
    AdminEnds();
    BlockShapes(ADMIN_BLOCK, 0);
    OneManaged("admin localhost {", "origins x", "}");
    assert ["{"] + (["origins x", "}"] + ["}"]) == ["{", "origins x", "}", "}"];
    assert ["admin localhost {"] + ["origins x", "}"] == ["admin localhost {", "origins x", "}"];
  }

  lemma OneManaged(a: string, b: string, c: string)
    requires IsManaged(a) && !IsManaged(b) && !IsManaged(c)
    ensures Unmanaged([a, b, c]) == [b, c] && NetLines(Removed([a, b, c])) == Net(a)
  {
    hide IsManaged, Net;
    assert [a, b, c][1..] == [b, c] && [b, c][1..] == [c] && [c][1..] == [];
    assert Unmanaged([c]) == [c] && Unmanaged([b, c]) == [b, c];
    assert Removed([c]) == [] && Removed([b, c]) == [] && Removed([a, b, c]) == [a];
    assert [a][1..] == [];
  }

  lemma AdminIsClosed()
    ensures !EndsOpen(ADMIN_BLOCK) && SitesOf(Segments(ADMIN_BLOCK)) == [] && NetLines(ADMIN_BLOCK) == 0
  {
    hide *;
    AdminIs();
    AdminNets();
    BracesAreClean();
    var body := ["admin localhost {", "origins x", "}"];
    ThreeNets("admin localhost {", "origins x", "}");
    NetOfBlock("{", body, "}");
    TailStep("admin localhost {", ["origins x", "}", "}"], 1);
    TailStep("origins x", ["}", "}"], 2);
    TailStep("}", ["}"], 2);
    TailStep("}", [], 1);
    EmptyTail(0);
    assert body + ["}"] == ["admin localhost {"] + ["origins x", "}", "}"];
    assert ["origins x", "}", "}"] == ["origins x"] + ["}", "}"] && ["}", "}"] == ["}"] + ["}"] && ["}"] == ["}"] + [];
    OneBlock("{", body, "}");
  }

  lemma ThreeNets(a: string, b: string, c: string)
    ensures NetLines([a, b, c]) == Net(a) + Net(b) + Net(c)
  {
    hide *;
    NetLinesStep([a, b, c]);
    TwoNets(b, c);
    assert [a, b, c][1..] == [b, c];
  }

  /** Without its first line the admin block closes the global one, and one brace is left over. */
  lemma AdminKeptIsClosed()
    ensures !EndsOpen(["{", "origins x", "}", "}"]) && SitesOf(Segments(["{", "origins x", "}", "}"])) == []
  {
    hide *;
    var front, rest := ["{"] + (["origins x"] + ["}"]), ["}"];
    AdminNets();
    BracesAreClean();
    OneNet("origins x");
    NetOfBlock("{", ["origins x"], "}");
    TailStep("origins x", ["}"], 1);
    TailStep("}", [], 1);
    EmptyTail(0);
    assert ["}"] == ["}"] + [];
    OneBlock("{", ["origins x"], "}");
    assert ["{", "origins x", "}", "}"] == front + rest;
    DistributesWhenClosed(front, rest);
    SitesConcat(Segments(front), Segments(rest));
    LoneBrace();
    NothingAdded(SitesOf(Segments(front)));
  }

  lemma NothingAdded(sites: seq<(string, string)>)
    ensures sites + [] == sites
  {
  }

  lemma OneNet(line: string)
    ensures NetLines([line]) == Net(line)
  {
    hide *;
    NetLinesStep([line]);
    NoNetLines();
    assert [line][1..] == [];
  }

  lemma LoneBrace()
    ensures !EndsOpen(["}"]) && SitesOf(Segments(["}"])) == []
  {
    BracesAreClean();
    assert Strip("}") == "}" && '{' !in "}";
    assert !OpensBlock("}") && KindOf("}") == PlainLine;
    SitesStep(["}"]);
    hide OpensBlock, KindOf, Strip, Segments;
    assert SizeOf(["}"]) == 1 && ["}"][1..] == [];
    NothingSited();
  }

  /**
   An `admin` block loses its first line only. The sites of such a text stay what they were, but a
   closing brace is left over at its top level.
   */
  lemma AdminBlockLeavesBrace(admin: string, email: string)
    requires AreSettings(admin, email)
    ensures var b := JoinLines(ADMIN_BLOCK + NEXT_SITE);
            var next := Inject(b, admin, email);
            && Strip(b) == b && BlockIsClosed(b) && |Parse(b).sites| == 1
            && Parse(next).sites == Parse(b).sites
            && NetLines(SplitLines(b)) == 0 && NetLines(SplitLines(next)) == -1
  {
    hide *;
    var lines, managed := ADMIN_BLOCK + NEXT_SITE, ManagedLines(admin, email);
    var b := JoinLines(lines);
    AdminIs();
    AdminNets();
    AdminEnds();
    AdminKept();
    AdminIsClosed();
    AdminKeptIsClosed();
    NothingOpen();
    NextSiteIsClean(ADMIN_BLOCK);
    TextOf(lines);
    SettingsAreOptions(admin, email);
    OptionsWellFormed(managed);
    Appended(ADMIN_BLOCK, 0, NEXT_SITE, managed);
    SeparateIs(lines, 0);
    ApartIs(lines);
    InjectIs(b, admin, email);
    InjectedLines(b, managed);
    ParseKeepsSites(b, admin, email);
    DistributesWhenClosed(ADMIN_BLOCK, NEXT_SITE);
    SitesConcat(Segments(ADMIN_BLOCK), Segments(NEXT_SITE));
    NextSiteParses();
    ParsedSites(b);
    EndsIs(ADMIN_BLOCK, 0);
    CloseAppend(ADMIN_BLOCK, NEXT_SITE, 0);
    assert lines[0..] == lines;
    BlockIsClosedIs(b);
    ClosedIs(lines, 0);
    NextSite();
    TwoNets(NEXT_SITE[0], "}");
    assert NEXT_SITE == [NEXT_SITE[0], "}"];
    NetLinesConcat(ADMIN_BLOCK, NEXT_SITE);
    BracesOfRewritten(ADMIN_BLOCK, 0, managed);
    NetLinesConcat(Replaced(ADMIN_BLOCK, 0, managed), NEXT_SITE);
  }
}
