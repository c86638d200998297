/**
 A concrete deployment in which a lost answer goes unnoticed: a site is deleted, Caddy loads the
 configuration without it, the answer gets lost, everything else is rolled back, and from then on
 the synchronization reports that nothing has to be done.
 */
module LostLoadExample {
  import opened Text
  import opened Wrappers
  import opened Sync
  import opened SyncSafety
  import opened SyncFailures
  import B = SiteBlocks
  import D = Domains
  import Dir = Directives
  import G = GlobalOptions
  import P = Parser
  import R = RoundTrip
  import S = Sorting
  import SitesExample
  import RollbackExample
  import T = Sites

  /** An adapter that tells texts apart by their number of sites is enough here. */
  ghost predicate IsWorld(w: World) {
    && !w.rules.snippetDefined("") && w.netloc("http://localhost:2019") == ""
    && forall text :: w.adapt(text) == Adapted(|P.Parse(text).sites|)
  }

  function OneSite(): T.Site {
    T.Site("s", SitesExample.HOST, "http://a.de", Some(SitesExample.BODY), true)
  }

  function Row(): B.SiteRow {
    B.SiteRow("s", SitesExample.HOST, SitesExample.BODY, "http://a.de", true)
  }

  function Rendered(w: World, rows: seq<B.SiteRow>): Option<string> {
    B.FullCaddyfile("", rows, w.rules)
  }

  /** The rows of a deployment that was last synchronized with the text `r`. */
  function RowsSyncedTo(w: World, t: T.Table, r: string): Db {
    Db(t, "", None, "http://localhost:2019", "", Some(w.sha(r)), Some(w.sha(r)), None, map[], [])
  }

  function SyncedTo(w: World, t: T.Table, r: string): System {
    System(RowsSyncedTo(w, t, r), Some(MarkerText() + r), Payload(w, r))
  }

  function LostWeather(): Weather {
    var disk := Disk(Renamed, true, true, true, "");
    Weather(Accessible, true, false, None, true, disk, Lost, disk)
  }

  // ---------------------------------------------------------------- what is rendered

  lemma RowIsPrintable()
    ensures R.IsPrintable(Row())
  {
    hide *;
    SitesExample.HostIsStored();
    HostOfRow();
    BodyOfRow();
    OneLineEncloses(SitesExample.BODY);
    R.Enclosed(Row());
    PrintableIs(Row());
  }

  lemma HostOfRow()
    ensures Row().domain == SitesExample.HOST
    ensures NoBraces(SitesExample.BODY)
    ensures D.NormalizeList(SitesExample.HOST) == Ok(SitesExample.HOST) ==> D.IsStored(SitesExample.HOST)
  {
    hide D.NormalizeList;
  }

  lemma PrintableIs(row: B.SiteRow)
    requires D.IsStored(row.domain) && R.IsEnclosed(row)
    ensures R.IsPrintable(row)
  {
    hide D.IsStored, R.IsEnclosed;
  }

  lemma OneLineEncloses(line: string)
    requires NoBraces(line)
    ensures NeverNegative([line], 0) && NetLines([line]) == 0
  {
    NetNoBraces(line);
    NoNetLines();
    NetLinesStep([line]);
    hide Net, NetLines;
    assert [line][1..] == [];
  }

  lemma BodyOfRow()
    ensures R.BodyLines(Row()) == [SitesExample.BODY]
  {
    var body := SitesExample.BODY;
    StripTrimmed(body);
    assert '{' !in body;
    assert Dir.Normalize(body) == Some(body);
    SplitOneLine(body);
    hide Dir.Normalize, Strip, SplitLines;
  }

  lemma OneListed()
    ensures B.Listed([Row()]) == [Row()]
  {
    assert [Row()][1..] == [];
    assert B.Enabled([Row()]) == [Row()];
  }

  /** The two rendered texts, with one site and with none. */
  lemma RenderedTexts(w: World)
    requires IsWorld(w)
    ensures Rendered(w, [Row()]).Some? && |P.Parse(Rendered(w, [Row()]).value).sites| == 1
    ensures Rendered(w, []).Some? && P.Parse(Rendered(w, []).value).sites == [] && !IsBlank(Rendered(w, []).value)
  {
    hide *;
    EmptyIsClean();
    RowIsPrintable();
    OneListed();
    RollbackExample.NothingListed();
    RulesAre(w);
    R.FullCaddyfileRoundTrip("", [Row()], w.rules);
    R.FullCaddyfileRoundTrip("", [], w.rules);
    RollbackExample.HeadIsNotBlank("", w.rules);
    Entries(w.rules);
    RenderedIs(w, [Row()]);
    RenderedIs(w, []);
  }

  lemma RulesAre(w: World)
    requires IsWorld(w)
    ensures !w.rules.snippetDefined("")
  {
  }

  lemma RenderedIs(w: World, rows: seq<B.SiteRow>)
    ensures Rendered(w, rows) == B.FullCaddyfile("", rows, w.rules)
  {
    hide B.FullCaddyfile;
  }

  lemma Entries(rules: B.Rules)
    ensures |R.EntriesOf([Row()], rules)| == 1 && R.EntriesOf([], rules) == []
  {
    hide R.EntryOf;
    assert [Row()][1..] == [];
  }

  lemma EmptyIsClean()
    ensures R.IsCleanBaseline("")
  {
    StripNothing();
    P.NothingOpen();
    P.NoSitesEmpty();
    hide Strip, P.EndsOpen, P.NoSites;
  }

  lemma RenderOf(w: World, s: System)
    requires IsWorld(w) && s.db.adminUrl == "http://localhost:2019"
    requires s.db.baseline == "" && s.db.snapshot == None && s.db.email == ""
    requires s.file.Some? && Marked(s.file.value)
    ensures Render(w, s, Accessible) == Rendered(w, SiteRows(s.db.sites))
  {
    StripNothing();
    hide Marked, Strip, SiteRows, B.FullCaddyfile;
  }

  lemma PayloadCounts(w: World, r: string)
    requires IsWorld(w)
    requires !IsBlank(r)
    ensures Payload(w, r) == Adapted(|P.Parse(r).sites|)
  {
    hide IsBlank, P.Parse;
  }

  lemma PayloadOf(w: World, r: string)
    requires IsWorld(w)
    ensures Payload(w, r) == EmptyConfig || Payload(w, r) == Adapted(|P.Parse(r).sites|)
  {
    hide IsBlank, P.Parse;
  }

  // ---------------------------------------------------------------- the tables

  const FULL: T.Table := T.Table(map[0 := OneSite()], 1)
  const EMPTY: T.Table := T.Table(map[], 1)

  lemma FullTable()
    ensures T.Good(FULL) && SiteRows(FULL) == [Row()]
  {
    hide *;
    SitesExample.HostIsStored();
    HostOfRow();
    FullIs();
    OneRowIsGood(OneSite());
    OneRowListed(OneSite());
  }

  lemma FullIs()
    ensures FULL == T.Table(map[0 := OneSite()], 1) && OneSite().domain == SitesExample.HOST
        && T.RowOf(OneSite()) == Row()
  {
  }

  lemma OneRowIsGood(site: T.Site)
    requires D.IsStored(site.domain)
    ensures T.Good(T.Table(map[0 := site], 1))
  {
    hide D.IsStored, T.Names;
  }

  lemma OneRowListed(site: T.Site)
    ensures SiteRows(T.Table(map[0 := site], 1)) == [T.RowOf(site)]
  {
    var rows: T.Rows := map[0 := site];
    assert IdsBelow(rows, 0) == [];
    assert IdsBelow(rows, 1) == [0];
    hide T.RowOf;
  }

  lemma EmptyTable()
    ensures SiteRows(EMPTY) == []
  {
    assert IdsBelow(EMPTY.rows, 1) == [] by {
      assert IdsBelow(EMPTY.rows, 0) == [];
    }
  }

  lemma Deleted(w: World, r: string)
    requires T.Good(FULL)
    ensures Mutated(w, RowsSyncedTo(w, FULL, r), T.Deleting(0)) == Some(RowsSyncedTo(w, EMPTY, r))
  {
    hide D.IsStored, T.Names;
    assert map[0 := OneSite()] - {0} == map[];
  }

  lemma UpToDate(w: World, t: T.Table, r: string)
    ensures IsUpToDate(w, SyncedTo(w, t, r), r, Accessible)
    ensures var s := SyncedTo(w, t, r); Inspect(s.file, Accessible).marked && !Inspect(s.file, Accessible).error
    ensures Marked(MarkerText() + r)
  {
    MarkerIsSeen(r);
    hide Marked, MarkerText, Payload;
  }

  lemma NotUpToDate(w: World, s: System, r: string, other: string)
    requires s.db.lastSynced == Some(w.sha(other)) && w.sha(r) != w.sha(other)
    ensures !IsUpToDate(w, s, r, Accessible)
  {
    hide Inspect, MarkerText;
  }

  lemma SyncedIs(w: World, t: T.Table, r: string)
    ensures var s := SyncedTo(w, t, r);
            && s == System(RowsSyncedTo(w, t, r), Some(MarkerText() + r), Payload(w, r))
            && s.db.sites == t && s.db.baseline == "" && s.db.snapshot == None && s.db.email == ""
            && s.db.adminUrl == "http://localhost:2019" && s.db.lastSynced == Some(w.sha(r))
  {
    hide MarkerText, Payload;
  }

  lemma WeatherIs()
    ensures var x := LostWeather();
            x.probe == Accessible && x.adapts && x.readable && Succeeds(x.write) && x.load == Lost
                && Succeeds(x.restore)
  {
  }

  /** The request is rolled back, "no_change" is answered afterwards, and Caddy runs without the site. */
  lemma NoChangeCanBeFalse(w: World)
    requires IsWorld(w) && forall a, b :: w.sha(a) == w.sha(b) ==> a == b
    ensures Rendered(w, [Row()]).Some?
    ensures var s := SyncedTo(w, FULL, Rendered(w, [Row()]).value);
            && T.Good(s.db.sites) && Coherent(w, s.file, s.running)
            && var t := MutateStep(w, s, T.Deleting(0), LostWeather(), true);
               && !t.1 && t.0.db == s.db && t.0.file == s.file
               && SyncStep(w, t.0, false, true, LostWeather()).1 == NoChange
               && Render(w, t.0, Accessible).Some? && t.0.running != Payload(w, Render(w, t.0, Accessible).value)
  {
    hide *;
    RenderedTexts(w);
    var full, none, x := Rendered(w, [Row()]).value, Rendered(w, []).value, LostWeather();
    var s := SyncedTo(w, FULL, full);
    var changed := s.(db := RowsSyncedTo(w, EMPTY, full));
    FullTable();
    EmptyTable();
    WeatherIs();
    SyncedIs(w, FULL, full);
    SyncedIs(w, EMPTY, full);
    UpToDate(w, FULL, full);
    WrittenIsCoherent(w, full);
    Deleted(w, full);
    RenderOf(w, s);
    RenderOf(w, changed);
    NotUpToDate(w, changed, none, full);
    SyncStepIs(w, s, false, true, x);
    ReachesIs(w, changed, none, false, true, x);
    PayloadCounts(w, none);
    PayloadOf(w, full);
    LostLoadIsHidden(w, s, T.Deleting(0), x, x);
  }
}
