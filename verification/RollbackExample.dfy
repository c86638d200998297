/**
 A concrete onboarding whose rollback leaves Caddyfile and Caddy in disagreement: the default config
 replaced a managed file, Caddy was loaded, and then the savepoint could not be released.
 */
module RollbackExample {
  import opened Text
  import opened Wrappers
  import opened Sync
  import opened SyncSafety
  import opened Onboarding
  import opened OnboardingSafety
  import B = SiteBlocks
  import Dir = Directives
  import G = GlobalOptions
  import P = Parser
  import K = SitesKept
  import DT = DeployedText
  import Y = Sync
  import S = Sorting
  import T = Sites

  /** The takeover reaches its synchronization and every call of it succeeds. */
  predicate GoesWell(a: Attempt) {
    a.settingsOk && a.first == Accessible && a.reachable && Works(a.x)
  }

  /** A takeover that goes well deploys what it renders. */
  lemma Deploys(world: World, s: System, wizard: Wizard, a: Attempt)
    requires T.Good(s.db.sites) && s.file.Some? && GoesWell(a) && wizard.adminUrl != ""
    requires Render(world, AdoptedSystem(world, s, wizard), a.x.probe).Some?
    ensures Synchronized(world, s, wizard, a)
    ensures var adopted := AdoptedSystem(world, s, wizard);
            SyncStep(world, adopted, true, false, a.x).0.running ==
              Payload(world, Render(world, adopted, a.x.probe).value)
  {
    hide *;
    var adopted := AdoptedSystem(world, s, wizard);
    AdoptedIs(world, s, wizard);
    WellIs(a);
    ForcedStep(world, adopted, a.x);
    DeployGoes(world, adopted, Render(world, adopted, a.x.probe).value, a.x);
    SynchronizedIs(world, s, wizard, a);
  }

  lemma AdoptedIs(world: World, s: System, wizard: Wizard)
    requires T.Good(s.db.sites) && s.file.Some?
    ensures AdoptedSystem(world, s, wizard).file == s.file
        && AdoptedSystem(world, s, wizard).db.adminUrl == wizard.adminUrl
  {
    hide T.Good, ImportedBaseline, P.Parse;
  }

  lemma WellIs(a: Attempt)
    requires GoesWell(a)
    ensures a.settingsOk && a.first == Accessible && a.reachable && Works(a.x)
  {
  }

  predicate Works(x: Weather) {
    x.adapts && x.readable && Succeeds(x.write) && x.load == Accepted
  }

  lemma ForcedStep(w: World, s: System, x: Weather)
    requires Render(w, s, x.probe).Some?
    ensures SyncStep(w, s, true, false, x) == Y.Deploy(w, s, Render(w, s, x.probe).value, x)
  {
    hide Render, Y.Deploy;
  }

  lemma DeployGoes(w: World, s: System, r: string, x: Weather)
    requires Works(x) && s.db.adminUrl != "" && s.file.Some?
    ensures Y.Deploy(w, s, r, x).1 == Synced && Y.Deploy(w, s, r, x).0.running == Payload(w, r)
  {
    WriteCases(s.file, MarkerText() + r, x.write);
    hide MarkerText, Payload, IsBlank, Reformatted, Write, Succeeds;
  }

  // ---------------------------------------------------------------- the deployment

  const STARTER := "# starter"

  function ExampleWorld(): World {
    World(B.Rules(_ => false, _ => false), _ => true, _ => "", text => text, _ => Adapted(1), "")
  }

  function NoSites(): T.Table {
    T.Table(map[], 0)
  }

  /** A managed file with nothing behind its marker, which Caddy runs as the empty configuration. */
  function Before(): System {
    System(Db(NoSites(), "", None, "", "", None, None, None, map[], []), Some(MarkerText()), EmptyConfig)
  }

  function Checked(): Facts {
    Facts("http://localhost:2019", true, "", true, true, true, Some(true), true, true, true, true, true, true, true)
  }

  function Chosen(): Wizard {
    InitialWizard().(mode := Some(DefaultConfig), status := InProgress, ran := true, passed := true)
  }

  /** Everything succeeds but the release of the savepoint; the backup is restored. */
  function Unreleased(): Attempt {
    var disk := Disk(Renamed, true, true, true, "");
    Attempt(Checked(), Preparation(Some(STARTER), true, true, true, true), true, Accessible, true,
            Weather(Accessible, true, false, None, true, disk, Accepted, disk), Accessible, false, true)
  }

  lemma BeforeIsGood()
    ensures T.Good(Before().db.sites) && Before().file == Some(MarkerText()) && Before().running == EmptyConfig
    ensures Marked(MarkerText()) && Coherent(ExampleWorld(), Some(MarkerText()), EmptyConfig)
  {
    WrittenIsCoherent(ExampleWorld(), "");
    assert MarkerText() + "" == MarkerText();
    assert Payload(ExampleWorld(), "") == EmptyConfig;
    hide Marked, MarkerText, Payload;
  }

  lemma StarterLine()
    ensures STARTER != "" && !IsSpace(STARTER[0]) && !IsSpace(STARTER[|STARTER| - 1]) && '{' !in STARTER
        && OneLine(STARTER)
    ensures |STARTER| < |MARKER|
  {
  }

  lemma OneLineUnmarked(line: string)
    requires OneLine(line) && line != "" && Strip(line) == line && |line| < |MARKER|
    ensures !Marked(line)
  {
    SplitOneLine(line);
    hide Strip, SplitLines, MARKER;
  }

  lemma OneLineWithoutSites(line: string)
    requires OneLine(line) && line != "" && '{' !in line
    ensures P.Parse(line).sites == []
  {
    SplitOneLine(line);
    DT.PlainLines([line]);
    K.ParsedSites(line);
    hide P.Parse, P.Segments, P.SitesOf, SplitLines;
  }

  lemma StarterFacts()
    ensures !Marked(STARTER) && P.Parse(STARTER).sites == []
  {
    hide *;
    StarterLine();
    StripTrimmed(STARTER);
    OneLineUnmarked(STARTER);
    OneLineWithoutSites(STARTER);
  }

  /** Without sites the rendered text is the head of the file, which begins with the snippet. */
  lemma RendersSnippet(s: System)
    requires s.db.sites == NoSites()
    ensures var r := Render(ExampleWorld(), s, Accessible); r.Some? && !IsBlank(r.value)
  {
    var baseline := G.Inject(Strip(Baseline(s.db, s.file, Accessible)), "", s.db.email);
    NoRows();
    var w := ExampleWorld();
    assert Render(w, s, Accessible) == B.FullCaddyfile(baseline, [], w.rules) by {
      hide Baseline, G.Inject, B.FullCaddyfile, Strip, SiteRows;
    }
    HeadIsNotBlank(baseline, w.rules);
    hide *;
  }

  lemma NoRows()
    ensures SiteRows(NoSites()) == []
  {
    assert IdsBelow(NoSites().rows, 0) == [];
  }

  lemma NothingListed()
    ensures B.Listed([]) == []
  {
    S.SortPermutes(B.Enabled([]), B.ByDomain);
    hide S.Sort;
    assert |multiset(B.Listed([]))| == 0;
  }

  lemma HeadIsNotBlank(baseline: string, rules: B.Rules)
    requires !rules.snippetDefined(baseline)
    ensures var r := B.FullCaddyfile(baseline, [], rules); r.Some? && !IsBlank(r.value)
  {
    NothingListed();
    var parts := B.HeadParts(baseline, rules);
    SnippetStart();
    assert parts[0] == B.SnippetText();
    assert parts + [] == parts;
    JoinStart(parts);
    NotBlank(Dir.JoinParagraphs(parts));
    hide B.Listed, B.SnippetText;
  }

  lemma SnippetStart()
    ensures B.SnippetText() != "" && B.SnippetText()[0] == '('
  {
    assert B.SNIPPET_LINES[0] == "(security_headers) {";
    hide B.SNIPPET_BODY;
  }

  lemma JoinStart(parts: seq<string>)
    requires parts != [] && parts[0] != ""
    ensures Dir.JoinParagraphs(parts) != "" && Dir.JoinParagraphs(parts)[0] == parts[0][0]
  {
  }

  lemma NotBlank(s: string)
    requires s != "" && !IsSpace(s[0])
    ensures !IsBlank(s)
  {
    BlankIsAllSpace(s);
    hide IsBlank;
  }

  lemma AdoptedHasNoSites(s: System, wizard: Wizard)
    requires s.db.sites == NoSites() && s.file == Some(STARTER) && T.Good(NoSites())
    ensures AdoptedSystem(ExampleWorld(), s, wizard).db.sites == NoSites()
  {
    StarterFacts();
    hide T.Good, P.Parse, STARTER, ImportedBaseline;
  }

  lemma PreflightPasses()
    ensures Starts(Chosen(), true)
    ensures var checked := Preflight(Chosen(), Before().file, Checked());
            Continues(checked) && checked.mode == Some(DefaultConfig) && checked.adminUrl != ""
  {
    hide MarkerText;
  }

  /** Before the run the marked file and Caddy agree; it ends failed, with the same file, and they do not. */
  lemma RollbackBreaksAgreement()
    ensures var w, s := ExampleWorld(), Before();
            && T.Good(s.db.sites) && Marked(s.file.value) && Coherent(w, s.file, s.running) && Reliable(Unreleased().x)
            && var r := Execute(w, s, Chosen(), true, Unreleased());
               r.0.file == s.file && !Coherent(w, r.0.file, r.0.running)
  {
    var w, s, a, wizard := ExampleWorld(), Before(), Unreleased(), Chosen();
    BeforeIsGood();
    AttemptFacts();
    hide *;
    var checked := Preflight(wizard, s.file, a.facts);
    var start, backed := s.(file := Some(STARTER)), WithBackup(checked, s.file);
    PreflightPasses();
    ContinuesIs(checked);
    ExecuteIs(w, s, wizard, true, a);
    AdoptedHasNoSites(start, backed);
    RendersSnippet(AdoptedSystem(w, start, backed));
    BackupKeepsUrl(checked, s.file);
    Deploys(w, start, backed, a);
    PayloadIs(Render(w, AdoptedSystem(w, start, backed), Accessible).value);
    RollbackDisagrees(w, s, wizard, checked, a);
  }

  lemma BackupKeepsUrl(wizard: Wizard, file: Option<string>)
    ensures WithBackup(wizard, file).adminUrl == wizard.adminUrl
  {
  }

  lemma PayloadIs(r: string)
    requires !IsBlank(r)
    ensures Payload(ExampleWorld(), r) == Adapted(1) != EmptyConfig
  {
    hide IsBlank;
  }

  lemma AttemptFacts()
    ensures var a := Unreleased();
            && GoesWell(a) && Reliable(a.x) && StarterIsUnmarked(a) && !a.released && a.restored && a.prepare.noted
            && a.prepare.content == Some(STARTER) && a.x.probe == Accessible && a.facts == Checked()
            && Prepare(Before().file, a.prepare).2
    ensures Chosen().mode == Some(DefaultConfig) && Before().db.sites == NoSites()
    ensures DeploysDefault(Chosen().mode) && Chosen().mode != Some(Missing)
  {
    StarterFacts();
    hide Marked, MarkerText, P.Parse, STARTER;
  }
}
