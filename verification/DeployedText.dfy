/**
 The Caddyfile a synchronization writes, parsed again (app/services/caddyfile_manager.py
 `build_full_caddyfile`, app/utils/caddyfile.py): the managed options and the marker are in it, and
 the sites are still exactly those of the table.
 */
module DeployedText {
  import opened Text
  import opened Wrappers
  import opened Parser
  import opened GlobalOptions
  import opened LastWrite
  import opened SitesKept
  import opened OptionsRewritten
  import opened RoundTrip
  import B = SiteBlocks
  import D = Domains
  import Dir = Directives
  import S = Sorting
  import T = Sites
  import opened Sync
  import Counting

  // ---------------------------------------------------------------- a baseline stays clean

  lemma CleanIs(baseline: string)
    ensures IsCleanBaseline(baseline) <==>
      Strip(baseline) == baseline && Parse(baseline).sites == [] && !EndsOpen(SplitLines(baseline))
  {
    ParsedSites(baseline);
    hide Parse, Segments, SitesOf, EndsOpen, SplitLines, Strip;
  }

  lemma InjectedIsStripped(b: string, admin: string, email: string)
    requires Strip(b) == b && AreSettings(admin, email)
    ensures Strip(Inject(b, admin, email)) == Inject(b, admin, email)
  {
    hide *;
    var managed := ManagedLines(admin, email);
    SettingsAreOptions(admin, email);
    OptionsWellFormed(managed);
    InjectIs(b, admin, email);
    if OpenFrom(SplitLines(b), 0) == |SplitLines(b)| {
      InjectNewBlock(b, managed);
      NewBlockText(b, managed);
      StripIdempotent(JoinLines(NewBlock(managed, SplitLines(Strip(b)))));
    } else {
      InjectedLines(b, managed);
    }
  }

  /** The settings are unset, or printable in one line each. */
  predicate AreUsable(admin: string, email: string) {
    (admin == "" && email == "") || AreSettings(admin, email)
  }

  lemma SafelyIs(lines: Lines)
    ensures RewritesSafely(lines) <==> IsApart(lines) && KeepsSites(lines)
  {
    hide IsApart, KeepsSites;
  }

  /** Writing the managed options into a clean baseline gives a clean baseline. */
  lemma InjectKeepsClean(b: string, admin: string, email: string)
    requires IsCleanBaseline(b) && RewritesSafely(SplitLines(b)) && AreUsable(admin, email)
    ensures IsCleanBaseline(Inject(b, admin, email))
  {
    hide Strip, Inject, EndsOpen, Parse, SplitLines, RewritesSafely, IsApart, KeepsSites, IsCleanBaseline, AreSettings,
      BlockIsClosed;
    CleanIs(b);
    CleanIs(Inject(b, admin, email));
    if admin == "" && email == "" {
      NothingWritten(b);
    } else {
      InjectedIsStripped(b, admin, email);
      SafelyIs(SplitLines(b));
      ParseKeepsSites(b, admin, email);
    }
  }

  // ---------------------------------------------------------------- the marker

  predicate ArePlain(lines: Lines) {
    forall k :: 0 <= k < |lines| ==> '{' !in lines[k]
  }

  lemma PlainLineStep(lines: Lines)
    requires lines != [] && '{' !in lines[0]
    ensures SizeOf(lines) == 1 && KindOf(lines[0]) != Site && (EndsOpen(lines) <==> EndsOpen(lines[1..]))
  {
    var b, a := StripParts(lines[0]);
    assert !OpensBlock(lines[0]);
    hide OpensBlock, Strip, Net;
    if |lines| == 1 {
      assert lines[1..] == [];
    }
  }

  /** Lines without an opening brace hold no site and leave nothing open. */
  lemma {:induction false} PlainLines(lines: Lines)
    requires ArePlain(lines)
    ensures !EndsOpen(lines) && SitesOf(Segments(lines)) == []
  {
    if lines == [] {
      NothingOpen();
    } else {
      PlainLineStep(lines);
      SitesStep(lines);
      PlainLines(lines[1..]);
      hide *;
    }
  }

  const MARKER_LINES := [MARKER, EDIT_NOTICE, OWNER_NOTICE]

  predicate IsQuiet(s: string) {
    '{' !in s && OneLine(s)
  }

  lemma QuietConcat(a: string, b: string)
    requires IsQuiet(a) && IsQuiet(b)
    ensures IsQuiet(a + b)
  {
  }

  lemma MarkerIsQuiet()
    ensures IsQuiet("### MANAGED ") && IsQuiet("BY CADDYBUDDY ###")
  {
  }

  lemma EditIsQuiet()
    ensures IsQuiet("# Do not edit this file manually.")
  {
  }

  lemma OwnerIsQuiet()
    ensures IsQuiet("# Configuration is managed by ")
  {
  }

  lemma PersistedIsQuiet()
    ensures IsQuiet("CaddyBuddy and persisted in SQLite.")
  {
  }

  lemma NoticesArePlain()
    ensures IsQuiet(MARKER) && IsQuiet(EDIT_NOTICE) && IsQuiet(OWNER_NOTICE)
  {
    hide IsQuiet;
    MarkerIsQuiet();
    EditIsQuiet();
    OwnerIsQuiet();
    PersistedIsQuiet();
    QuietConcat("### MANAGED ", "BY CADDYBUDDY ###");
    QuietConcat("# Configuration is managed by ", "CaddyBuddy and persisted in SQLite.");
  }

  lemma MarkerIsPlain()
    ensures ArePlain(MARKER_LINES)
  {
    NoticesArePlain();
    hide MARKER, EDIT_NOTICE, OWNER_NOTICE;
  }

  lemma MarkerSplits(rendered: string)
    ensures SplitLines(MarkerText() + rendered) == MARKER_LINES + SplitLines(rendered)
  {
    MarkerIsOneLinePerLine();
    MarkerPiecesJoined(rendered);
    hide *;
    var a, b, c := MARKER_LINES[0], MARKER_LINES[1], MARKER_LINES[2];
    SplitLinesFront(a, b + "\n" + (c + "\n" + rendered));
    SplitLinesFront(b, c + "\n" + rendered);
    SplitLinesFront(c, rendered);
    ThreeLines();
    assert [a] + ([b] + ([c] + SplitLines(rendered))) == [a, b, c] + SplitLines(rendered);
  }

  lemma ThreeLines()
    ensures |MARKER_LINES| == 3 && MARKER_LINES == [MARKER_LINES[0], MARKER_LINES[1], MARKER_LINES[2]]
  {
  }

  lemma MarkerIsOneLinePerLine()
    ensures |MARKER_LINES| == 3 && OneLine(MARKER_LINES[0]) && OneLine(MARKER_LINES[1]) && OneLine(MARKER_LINES[2])
  {
    MarkerLine();
    NoticesArePlain();
    hide MARKER, EDIT_NOTICE, OWNER_NOTICE, OneLine;
  }

  lemma Pieces(a: string, b: string, c: string, rest: string)
    ensures (a + "\n" + (b + "\n" + c + "\n")) + rest == a + "\n" + (b + "\n" + (c + "\n" + rest))
  {
  }

  lemma NoticeIs()
    ensures NOTICE == EDIT_NOTICE + "\n" + OWNER_NOTICE + "\n"
    ensures |MARKER_LINES| == 3 && MARKER_LINES[0] == MARKER && MARKER_LINES[1] == EDIT_NOTICE
        && MARKER_LINES[2] == OWNER_NOTICE
  {
    hide MARKER, EDIT_NOTICE, OWNER_NOTICE;
  }

  lemma MarkerTextIs()
    ensures MarkerText() == MARKER + "\n" + NOTICE
  {
    hide MARKER, NOTICE;
  }

  lemma MarkerPiecesJoined(rendered: string)
    ensures |MARKER_LINES| == 3
    ensures MarkerText() + rendered == MARKER_LINES[0] + "\n"
        + (MARKER_LINES[1] + "\n" + (MARKER_LINES[2] + "\n" + rendered))
  {
    hide *;
    NoticeIs();
    MarkerTextIs();
    Pieces(MARKER, EDIT_NOTICE, OWNER_NOTICE, rendered);
  }

  /** The marker in front of a text does not change its sites. */
  lemma MarkerKeepsSites(rendered: string)
    ensures Parse(MarkerText() + rendered).sites == Parse(rendered).sites
  {
    hide *;
    var lines := SplitLines(rendered);
    MarkerSplits(rendered);
    MarkerIsPlain();
    PlainLines(MARKER_LINES);
    DistributesWhenClosed(MARKER_LINES, lines);
    SitesConcat(Segments(MARKER_LINES), Segments(lines));
    ParsedSites(rendered);
    ParsedSites(MarkerText() + rendered);
    assert [] + SitesOf(Segments(lines)) == SitesOf(Segments(lines));
  }

  // ---------------------------------------------------------------- what is deployed

  /** The baseline a synchronization renders from, before the options are written into it. */
  function Source(s: System, probe: Probe): string {
    Strip(Baseline(s.db, s.file, probe))
  }

  lemma RenderIs(w: World, s: System, probe: Probe)
    ensures Render(w, s, probe) ==
      B.FullCaddyfile(Inject(Source(s, probe), w.netloc(s.db.adminUrl), s.db.email), SiteRows(s.db.sites), w.rules)
  {
    hide Baseline, Inject, B.FullCaddyfile, SiteRows, Strip;
  }

  /** Directives of enabled rows close the braces they open. */
  predicate AreEnclosed(rows: seq<B.SiteRow>) {
    forall k :: 0 <= k < |rows| && rows[k].enabled ==> IsEnclosed(rows[k])
  }

  lemma RowsPrintable(t: T.Table)
    requires T.Good(t) && AreEnclosed(SiteRows(t))
    ensures forall k :: 0 <= k < |SiteRows(t)| && SiteRows(t)[k].enabled ==> IsPrintable(SiteRows(t)[k])
  {
    hide D.IsStored, IsEnclosed, T.Disjoint;
  }

  /**
   What a synchronization writes on disk, marker and managed options included, parses back to
   exactly the enabled sites of the table, in domain order.
   */
  lemma DeployedRoundTrip(w: World, s: System, probe: Probe)
    requires T.Good(s.db.sites) && AreEnclosed(SiteRows(s.db.sites))
    requires IsCleanBaseline(Source(s, probe)) && RewritesSafely(SplitLines(Source(s, probe)))
    requires AreUsable(w.netloc(s.db.adminUrl), s.db.email)
    ensures Render(w, s, probe).Some?
    ensures Parse(MarkerText() + Render(w, s, probe).value).sites == EntriesOf(B.Listed(SiteRows(s.db.sites)), w.rules)
  {
    hide *;
    var admin, email := w.netloc(s.db.adminUrl), s.db.email;
    InjectKeepsClean(Source(s, probe), admin, email);
    RowsPrintable(s.db.sites);
    FullCaddyfileRoundTrip(Inject(Source(s, probe), admin, email), SiteRows(s.db.sites), w.rules);
    RenderIs(w, s, probe);
    MarkerKeepsSites(Render(w, s, probe).value);
  }

  // ---------------------------------------------------------------- which baseline is deployed

  /** Which text the rendered file is made from: the stored one, the snapshot's, the unmanaged file's, or none. */
  lemma RenderCases(w: World, s: System, probe: Probe)
    ensures var admin, email, rows := w.netloc(s.db.adminUrl), s.db.email, SiteRows(s.db.sites);
            var snapshot := s.db.snapshot.Some? && s.db.snapshot.value != "";
            var unmanaged := s.file.Some? && s.file.value != "" && probe == Accessible && !Marked(s.file.value);
            && (s.db.baseline != "" ==>
                  Render(w, s, probe) == B.FullCaddyfile(Inject(Strip(s.db.baseline), admin, email), rows, w.rules))
            && (s.db.baseline == "" && snapshot ==>
                  var text := Strip(Parse(s.db.snapshot.value).globalBlock);
                  Render(w, s, probe) == B.FullCaddyfile(Inject(text, admin, email), rows, w.rules))
            && (s.db.baseline == "" && !snapshot && unmanaged ==>
                  var text := Strip(Parse(s.file.value).globalBlock);
                  Render(w, s, probe) == B.FullCaddyfile(Inject(text, admin, email), rows, w.rules))
            && (s.db.baseline == "" && !snapshot && !unmanaged ==>
                  Render(w, s, probe) == B.FullCaddyfile(Inject("", admin, email), rows, w.rules))
  {
    hide *;
    RenderIs(w, s, probe);
    SourceCases(s, probe);
  }

  lemma SourceCases(s: System, probe: Probe)
    ensures var snapshot := s.db.snapshot.Some? && s.db.snapshot.value != "";
            var unmanaged := s.file.Some? && s.file.value != "" && probe == Accessible && !Marked(s.file.value);
            Source(s, probe) == if s.db.baseline != "" then Strip(s.db.baseline)
                                else if snapshot then Strip(Parse(s.db.snapshot.value).globalBlock)
                                else if unmanaged then Strip(Parse(s.file.value).globalBlock)
                                else ""
  {
    StripNothing();
    if s.db.snapshot.Some? {
      StripIdempotent(Parse(s.db.snapshot.value).globalBlock);
    }
    if s.file.Some? {
      StripIdempotent(Parse(s.file.value).globalBlock);
    }
    hide Marked, Strip, Parse;
  }

  /** The part of the file above the sites: the snippet, unless it is defined already, then the baseline. */
  function HeadText(baseline: string, rules: B.Rules): string {
    if rules.snippetDefined(baseline) then baseline
    else if baseline == "" then B.SnippetText()
    else B.SnippetText() + "\n\n" + baseline
  }

  lemma HeadIs(baseline: string, rules: B.Rules)
    ensures Dir.JoinParagraphs(B.HeadParts(baseline, rules)) == HeadText(baseline, rules)
  {
    var snippet := B.SnippetText();
    hide B.SnippetText;
    assert [snippet] + [baseline] == [snippet, baseline] && [snippet, baseline][1..] == [baseline];
    assert [snippet] + [] == [snippet] && [] + [baseline] == [baseline];
  }

  /** With a stored baseline, the rendered file parses back to that baseline with the settings written into it. */
  lemma StoredBaselineIsDeployed(w: World, s: System, probe: Probe)
    requires s.db.baseline != "" && T.Good(s.db.sites) && AreEnclosed(SiteRows(s.db.sites))
    requires IsCleanBaseline(Strip(s.db.baseline)) && RewritesSafely(SplitLines(Strip(s.db.baseline)))
    requires AreUsable(w.netloc(s.db.adminUrl), s.db.email)
    ensures Render(w, s, probe).Some?
    ensures var baseline := Inject(Strip(s.db.baseline), w.netloc(s.db.adminUrl), s.db.email);
            Parse(Render(w, s, probe).value).globalBlock == Strip(HeadText(baseline, w.rules))
  {
    hide *;
    var text, admin, email := Strip(s.db.baseline), w.netloc(s.db.adminUrl), s.db.email;
    RenderCases(w, s, probe);
    InjectKeepsClean(text, admin, email);
    RowsPrintable(s.db.sites);
    FullCaddyfileRoundTrip(Inject(text, admin, email), SiteRows(s.db.sites), w.rules);
    HeadIs(Inject(text, admin, email), w.rules);
  }

  // ---------------------------------------------------------------- the sites of the table

  lemma {:induction false} IdsFound(rows: T.Rows, n: nat, id: nat)
    requires id in rows && id < n
    ensures id in IdsBelow(rows, n)
  {
    if id < n - 1 {
      IdsFound(rows, n - 1, id);
    }
  }

  lemma FoundInListing(rows: T.Rows, ids: seq<nat>, row: B.SiteRow)
    requires forall k :: 0 <= k < |ids| ==> ids[k] in rows
    ensures row in T.Listing(rows, ids) <==> exists k :: 0 <= k < |ids| && T.RowOf(rows[ids[k]]) == row
  {
    hide T.RowOf;
    var listing := T.Listing(rows, ids);
    if row in listing {
      var k :| 0 <= k < |listing| && listing[k] == row;
      assert T.RowOf(rows[ids[k]]) == row;
    }
    if k :| 0 <= k < |ids| && T.RowOf(rows[ids[k]]) == row {
      assert listing[k] == row;
    }
  }

  lemma ListedMembers(rows: seq<B.SiteRow>, row: B.SiteRow)
    ensures row in B.Listed(rows) <==> row in rows && row.enabled
  {
    hide B.Listed;
    B.ListedCounts(rows, row);
    assert row in B.Listed(rows) <==> row in multiset(B.Listed(rows));
    assert row in rows <==> row in multiset(rows);
  }

  /** The listed rows are exactly those of the enabled sites of the table. */
  lemma ListedSites(t: T.Table, row: B.SiteRow)
    requires T.Good(t)
    ensures row in B.Listed(SiteRows(t)) <==>
              exists id :: id in t.rows && t.rows[id].enabled && T.RowOf(t.rows[id]) == row
  {
    var rows, ids := t.rows, IdsBelow(t.rows, t.nextId);
    ListedMembers(SiteRows(t), row);
    FoundInListing(rows, ids, row);
    hide B.Listed, T.AllStored, T.Disjoint, IdsBelow;
    if id :| id in rows && rows[id].enabled && T.RowOf(rows[id]) == row {
      IdsFound(rows, t.nextId, id);
      var k :| 0 <= k < |ids| && ids[k] == id;
    }
  }

  lemma ListedDomains(t: T.Table, i: nat, j: nat)
    requires T.Good(t) && i < j < |B.Listed(SiteRows(t))|
    ensures B.Listed(SiteRows(t))[i].domain != B.Listed(SiteRows(t))[j].domain
  {
    var listed := B.Listed(SiteRows(t));
    T.NoHostInTwoBlocks(t.rows, IdsBelow(t.rows, t.nextId));
    hide B.Listed, D.IsStored, T.Names, T.Disjoint, T.AllStored, IdsBelow, B.Label;
    T.NamesNotEmpty(listed[i].domain);
  }

  lemma {:induction false} EntryAt(rows: seq<B.SiteRow>, rules: B.Rules, k: nat)
    requires k < |rows|
    ensures |EntriesOf(rows, rules)| == |rows| && EntriesOf(rows, rules)[k] == EntryOf(rows[k], rules)
  {
    hide EntryOf;
    if |rows| > 1 {
      EntryAt(rows[1..], rules, if k > 0 then k - 1 else 0);
    }
  }

  /**
   What a synchronization writes on disk parses back to the enabled sites of the table: each of them
   has its entry, each entry is one of theirs, and the domains strictly ascend.
   */
  lemma DeployedSites(w: World, s: System, probe: Probe)
    requires T.Good(s.db.sites) && AreEnclosed(SiteRows(s.db.sites))
    requires IsCleanBaseline(Source(s, probe)) && RewritesSafely(SplitLines(Source(s, probe)))
    requires AreUsable(w.netloc(s.db.adminUrl), s.db.email)
    ensures Render(w, s, probe).Some?
    ensures var sites, rows := Parse(MarkerText() + Render(w, s, probe).value).sites, s.db.sites.rows;
            && (forall id :: id in rows && rows[id].enabled ==> EntryOf(T.RowOf(rows[id]), w.rules) in sites)
            && (forall k :: 0 <= k < |sites| ==>
                  exists id :: id in rows && rows[id].enabled && sites[k] == EntryOf(T.RowOf(rows[id]), w.rules))
            && (forall k :: 0 <= k < |sites| ==> exists id :: id in rows && rows[id].domain == sites[k].0)
            && (forall i, j :: 0 <= i < j < |sites| ==> S.TextLe(sites[i].0, sites[j].0) && sites[i].0 != sites[j].0)
  {
    hide *;
    var t, rules := s.db.sites, w.rules;
    DeployedRoundTrip(w, s, probe);
    var listed, sites := B.Listed(SiteRows(t)), EntriesOf(B.Listed(SiteRows(t)), rules);
    EntriesSize(listed, rules);
    forall id | id in t.rows && t.rows[id].enabled ensures EntryOf(T.RowOf(t.rows[id]), rules) in sites {
      ListedSites(t, T.RowOf(t.rows[id]));
      var k :| 0 <= k < |listed| && listed[k] == T.RowOf(t.rows[id]);
      EntryAt(listed, rules, k);
    }
    forall k | 0 <= k < |sites|
      ensures exists id :: id in t.rows && t.rows[id].enabled && sites[k] == EntryOf(T.RowOf(t.rows[id]), rules)
      ensures exists id :: id in t.rows && t.rows[id].domain == sites[k].0
    {
      EntryAt(listed, rules, k);
      ListedSites(t, listed[k]);
      var id :| id in t.rows && t.rows[id].enabled && T.RowOf(t.rows[id]) == listed[k];
      EntryDomain(t.rows[id], rules);
    }
    forall i, j | 0 <= i < j < |sites| ensures S.TextLe(sites[i].0, sites[j].0) && sites[i].0 != sites[j].0 {
      EntryAt(listed, rules, i);
      EntryAt(listed, rules, j);
      EntryLabel(listed[i], rules);
      EntryLabel(listed[j], rules);
      B.ListedAscends(SiteRows(t), i, j);
      ListedDomains(t, i, j);
    }
  }

  lemma EntriesSize(rows: seq<B.SiteRow>, rules: B.Rules)
    ensures |EntriesOf(rows, rules)| == |rows|
  {
    if rows != [] {
      EntryAt(rows, rules, 0);
    }
  }

  lemma EntryLabel(row: B.SiteRow, rules: B.Rules)
    ensures EntryOf(row, rules).0 == row.domain
  {
    hide Inner, JoinLines, Strip;
  }

  lemma EntryDomain(site: T.Site, rules: B.Rules)
    ensures EntryOf(T.RowOf(site), rules).0 == site.domain
  {
    hide Inner, JoinLines, Strip;
  }

  // ---------------------------------------------------------------- where a clean baseline comes from

  lemma {:induction false} ClosesStripped(a: Lines, b: Lines, depth: int)
    requires SameStripped(a, b)
    ensures Closes(a, depth) <==> Closes(b, depth)
  {
    hide Strip, Net;
    if a != [] && depth > 0 {
      NetOfStripEqual(a[0], b[0]);
      ClosesStripped(a[1..], b[1..], depth + Net(a[0]));
    }
  }

  lemma OneStripped(a: Lines, b: Lines)
    requires SameStripped(a, b) && a != []
    ensures SizeOf(a) == SizeOf(b) && (OpensBlock(a[0]) <==> OpensBlock(b[0]))
    ensures Closes(a[1..], Net(a[0])) <==> Closes(b[1..], Net(b[0]))
  {
    hide Strip, SizeOf, OpensBlock, Net, Closes;
    FrontStripped(a, b);
    assert Strip(a[0]) == Strip(b[0]);
    KindStripped(a[0], b[0]);
    NetOfStripEqual(a[0], b[0]);
    ClosesStripped(a[1..], b[1..], Net(a[0]));
  }

  lemma {:induction false} OpenStripped(a: Lines, b: Lines)
    requires SameStripped(a, b)
    ensures EndsOpen(a) <==> EndsOpen(b)
    decreases |a|
  {
    hide Strip, SizeOf, OpensBlock, Net, Closes;
    if a != [] {
      OneStripped(a, b);
      var n := SizeOf(a);
      if n < |a| {
        OpenStripped(a[n..], b[n..]);
      }
    }
  }

  /** A text that ends open still does with a blank line behind it. */
  lemma {:induction false} OpenWithBlank(init: Lines, last: string)
    requires IsBlank(last) && EndsOpen(init)
    ensures EndsOpen(init + [last])
    decreases |init|
  {
    hide *;
    var lines, n := init + [last], 0;
    EndsOpenSome(init);
    n := SizeOf(init);
    assert lines[0] == init[0] && lines[1..] == init[1..] + [last];
    if n < |init| {
      SizeConcat(init, [last]);
      EndsOpenStep(init);
      EndsOpenStep(lines);
      OpenWithBlank(init[n..], last);
      assert lines[n..] == init[n..] + [last];
    } else {
      OneSegmentEndsOpen(init);
      TailConcat(init[1..], [last], Net(init[0]));
      BlankStaysOpen(last, Net(init[0]) + NetLines(init[1..]));
      SizeOfIs(init[0], lines[1..]);
      assert lines == [init[0]] + lines[1..];
      OneSegmentEndsOpen(lines);
    }
  }

  lemma EndsOpenSome(lines: Lines)
    requires EndsOpen(lines)
    ensures lines != []
  {
  }

  lemma BlankStaysOpen(last: string, depth: int)
    requires IsBlank(last) && depth > 0
    ensures !Closes([last], depth) && BlockTail([last], depth) == 1
  {
    NetStrip(last);
    EmptyNet();
    hide Net, Strip;
    assert [last][1..] == [];
  }

  lemma {:induction false} ClosedTrimStart(lines: Lines)
    requires !EndsOpen(lines)
    ensures !EndsOpen(TrimStart(lines))
  {
    hide EndsOpen, IsBlank, LStrip, Strip;
    if lines != [] {
      if IsBlank(lines[0]) {
        BlankFront(lines);
        ClosedTrimStart(lines[1..]);
      } else {
        StripOfLStrip(lines[0]);
        OpenStripped(lines, TrimStart(lines));
      }
    }
  }

  lemma BlankFront(lines: Lines)
    requires lines != [] && IsBlank(lines[0])
    ensures EndsOpen(lines) <==> EndsOpen(lines[1..])
  {
    BlankIsPlain(lines[0]);
    NetStrip(lines[0]);
    EmptyNet();
    NoNetLines();
    NetLinesStep(lines[..1]);
    assert lines[..1][1..] == [];
    BalancedFront(lines, 1);
    hide *;
  }

  lemma {:induction false} ClosedTrimEnd(lines: Lines)
    requires !EndsOpen(lines)
    ensures !EndsOpen(TrimEnd(lines))
  {
    hide EndsOpen, IsBlank, RStrip, Strip;
    if lines != [] {
      var init, last := lines[..|lines| - 1], lines[|lines| - 1];
      assert lines == init + [last];
      if IsBlank(last) {
        if EndsOpen(init) {
          OpenWithBlank(init, last);
        }
        ClosedTrimEnd(init);
      } else {
        StripOfRStrip(last);
        OpenStripped(lines, TrimEnd(lines));
      }
    }
  }

  /** Taking the site blocks out of a text that ends in no open block opens none. */
  lemma {:induction false} BaselineStaysClosed(lines: Lines)
    requires !EndsOpen(lines)
    ensures !EndsOpen(BaselineOf(Segments(lines)))
    decreases |lines|
  {
    hide *;
    NothingOpen();
    NoLines();
    if lines != [] {
      var n := SizeOf(lines);
      var front, rest := lines[..n], BaselineOf(Segments(lines[n..]));
      BaselineStep(lines);
      SizeOfFront(lines);
      assert [] + rest == rest;
      if n < |lines| {
        EndsOpenStep(lines);
      } else {
        assert front == lines && lines[n..] == [];
      }
      BaselineStaysClosed(lines[n..]);
      DistributesWhenClosed(front, rest);
    }
  }

  /** The baseline an onboarding takes out of a file is clean, unless the file ends inside a block. */
  lemma ExtractedIsClean(content: string)
    requires !EndsOpen(SplitLines(content))
    ensures IsCleanBaseline(Parse(content).globalBlock)
  {
    hide *;
    var lines := SplitLines(content);
    var base := BaselineOf(Segments(lines));
    ExtractedIs(content);
    SegmentsCoverLines(lines);
    WellFormedConcat(Segments(lines));
    SplitTrimmed(base);
    BaselineStaysClosed(lines);
    TrimLinesIs(base);
    ClosedTrimStart(base);
    ClosedTrimEnd(TrimStart(base));
    ReparseBaseline(content);
    StripIdempotent(JoinLines(base));
    CleanIs(Parse(content).globalBlock);
  }

  lemma ExtractedIs(content: string)
    ensures Parse(content).globalBlock == Strip(JoinLines(BaselineOf(Segments(SplitLines(content)))))
  {
    hide Segments, BaselineOf, SitesOf, SnippetsOf, JoinLines, SplitLines, Strip;
  }
}
