/**
 Synchronization (app/services/caddyfile_manager.py): one desired configuration kept equal in the
 database, in the Caddyfile on disk and in the running Caddy. Every external call may fail; its
 outcome is an input.
 */
module Sync {
  import opened Text
  import opened Wrappers
  import D = Domains
  import P = Parser
  import G = GlobalOptions
  import B = SiteBlocks
  import T = Sites
  import Counting

  // ---------------------------------------------------------------- the parts of a deployment

  /** A configuration loaded into Caddy: the empty one, or what adapting a text gives. */
  datatype Config = EmptyConfig | Adapted(id: int)

  /** What does not change: text tests, URL parsing, the hash, and Caddy's adapter. */
  datatype World = World(
    rules: B.Rules,
    urlOk: string -> bool,
    netloc: string -> string,
    sha: string -> string,
    adapt: string -> Config,
    defaultBaseline: string
  )

  datatype Problem = ConfigInvalid | AdminUnavailable | WriteFailed | FileProblem | NotPersisted

  datatype Status = NoChange | Synced | ValidationFailed | SyncFailed | OnboardingRequired | OnboardingFailed | Raised

  datatype Event = Event(status: Status, sha: Option<string>, problem: Option<Problem>)

  /** The rows the synchronization reads and writes. An empty text stands for an unset value. */
  datatype Db = Db(
    sites: T.Table,
    baseline: string,
    snapshot: Option<string>,
    adminUrl: string,
    email: string,
    renderedSha: Option<string>,
    lastSynced: Option<string>,
    lastError: Option<Problem>,
    versions: map<string, bool>,
    events: seq<Event>
  )

  /** The database as one session sees it, the Caddyfile, and the configuration Caddy runs. */
  datatype System = System(db: Db, file: Option<string>, running: Config)

  // ---------------------------------------------------------------- the marker

  const MARKER := "### MANAGED " + "BY CADDYBUDDY ###"
  const EDIT_NOTICE := "# Do not edit this file manually."
  const OWNER_NOTICE := "# Configuration is managed by " + "CaddyBuddy and persisted in SQLite."
  const NOTICE := EDIT_NOTICE + "\n" + OWNER_NOTICE + "\n"

  function MarkerText(): string {
    MARKER + "\n" + NOTICE
  }

  /** `_has_managed_marker` on the lines of a file. */
  predicate MarkedLines(lines: Lines) {
    lines != [] && if IsBlank(lines[0]) then MarkedLines(lines[1..]) else Strip(lines[0]) == MARKER
  }

  predicate Marked(text: string) {
    MarkedLines(SplitLines(text))
  }

  method HasManagedMarker(text: string) returns (r: bool)
    ensures r == Marked(text)
  {
    hide Strip, SplitLines, IsBlank;
    var lines := SplitLines(text);
    var i := 0;
    while i < |lines|
      invariant i <= |lines| && MarkedLines(lines) == MarkedLines(lines[i..])
    {
      assert lines[i..][1..] == lines[i + 1..];
      if !IsBlank(lines[i]) {
        return Strip(lines[i]) == MARKER;
      }
      i := i + 1;
    }
    return false;
  }

  lemma MarkerLine()
    ensures OneLine(MARKER) && Strip(MARKER) == MARKER && !IsBlank(MARKER)
  {
    var front, back := "### MANAGED ", "BY CADDYBUDDY ###";
    MarkerPieces();
    assert MARKER == front + back;
    hide *;
    StripTrimmed(front + back);
    MarkerIsOneLine(front, back);
  }

  lemma MarkerPieces()
    ensures OneLine("### MANAGED ") && OneLine("BY CADDYBUDDY ###")
    ensures !IsSpace('#')
  {
  }

  lemma MarkerIsOneLine(front: string, back: string)
    requires OneLine(front) && OneLine(back)
    requires front != "" && Strip(front + back) == front + back
    ensures OneLine(front + back) && !IsBlank(front + back)
  {
    hide Strip;
  }

  /** Whatever is rendered behind it, the marker text marks a file. */
  lemma MarkerIsSeen(rendered: string)
    ensures Marked(MarkerText() + rendered)
  {
    MarkerLine();
    MarkerSplit(rendered);
    hide Strip, SplitLines, IsBlank, OneLine;
    SplitLinesFront(MARKER, NOTICE + rendered);
  }

  lemma MarkerSplit(rendered: string)
    ensures MarkerText() + rendered == MARKER + "\n" + (NOTICE + rendered)
  {
    hide MARKER, NOTICE;
  }

  // ---------------------------------------------------------------- reading the file

  datatype Probe = Accessible | ReadOnly | Unreadable

  datatype Seen = Seen(error: bool, content: Option<string>, marked: bool)

  /** `_inspect_caddyfile_sync`. */
  function Inspect(file: Option<string>, probe: Probe): Seen {
    if file.None? || probe == Unreadable then Seen(true, None, false)
    else Seen(probe == ReadOnly, file, Marked(file.value))
  }

  /** `get_baseline_caddyfile`: the stored value, else the snapshot's, else the unmanaged file's. */
  function Baseline(db: Db, file: Option<string>, probe: Probe): string {
    if db.baseline != "" then db.baseline
    else if db.snapshot.Some? && db.snapshot.value != "" then Strip(P.Parse(db.snapshot.value).globalBlock)
    else
      var seen := Inspect(file, probe);
      if !seen.error && seen.content.Some? && seen.content.value != "" && !seen.marked
      then Strip(P.Parse(seen.content.value).globalBlock)
      else ""
  }

  // ---------------------------------------------------------------- rendering

  function IdsBelow(rows: T.Rows, n: nat): (ids: seq<nat>)
    ensures forall k :: 0 <= k < |ids| ==> ids[k] in rows && ids[k] < n
    ensures Counting.Distinct(ids)
  {
    if n == 0 then [] else IdsBelow(rows, n - 1) + if n - 1 in rows then [n - 1] else []
  }

  function SiteRows(t: T.Table): seq<B.SiteRow> {
    T.Listing(t.rows, IdsBelow(t.rows, t.nextId))
  }

  /** `build_full_caddyfile`; None where it raises. */
  function Render(w: World, s: System, probe: Probe): Option<string> {
    var baseline := G.Inject(Strip(Baseline(s.db, s.file, probe)), w.netloc(s.db.adminUrl), s.db.email);
    B.FullCaddyfile(baseline, SiteRows(s.db.sites), w.rules)
  }

  function Payload(w: World, rendered: string): Config {
    if IsBlank(rendered) then EmptyConfig else w.adapt(rendered)
  }

  // ---------------------------------------------------------------- writing the file

  /** Outcomes of the two write strategies: rename a temporary file, or rewrite in place. */
  datatype Atomic = Renamed | Refused | Unsupported
  datatype Disk = Disk(atomic: Atomic, readable: bool, inPlace: bool, restored: bool, leftover: string)

  /** `_write_caddyfile_sync`: the file afterwards, and whether the write is reported as done. */
  function Write(file: Option<string>, content: string, d: Disk): (Option<string>, bool) {
    if file.None? then (file, false)
    else match d.atomic
      case Renamed => (Some(content), true)
      case Refused => (file, false)
      case Unsupported =>
        if d.inPlace then (Some(content), true)
        else if d.readable && d.restored then (file, false)
        else (Some(d.leftover), false)
  }

  /** A write that fails leaves the file as it was. */
  predicate FailsSafely(d: Disk) {
    d.atomic == Unsupported && !d.inPlace ==> d.readable && d.restored
  }

  predicate Succeeds(d: Disk) {
    d.atomic == Renamed || (d.atomic == Unsupported && d.inPlace)
  }

  datatype Load = Accepted | Rejected | Lost

  /** Outcomes of the external calls of one synchronization. */
  datatype Weather = Weather(
    probe: Probe, adapts: bool, formatWarning: bool, formatted: Option<string>, readable: bool, write: Disk, load: Load,
        restore: Disk
  )

  /** Writes that fail do so safely, rollback writes succeed, a rejected load changes nothing. */
  predicate Reliable(x: Weather) {
    FailsSafely(x.write) && Succeeds(x.restore) && x.load != Lost
  }

  // ---------------------------------------------------------------- one synchronization

  function Failed(db: Db, status: Status, sha: string, problem: Problem): Db {
    db.(lastError := Some(problem), events := db.events + [Event(status, Some(sha), Some(problem))])
  }

  function WithVersion(db: Db, sha: string): Db {
    db.(renderedSha := Some(sha), versions := if sha in db.versions then db.versions else db.versions[sha := false])
  }

  function Succeeded(db: Db, sha: string): Db {
    db.(versions := db.versions[sha := true], lastSynced := Some(sha), lastError := None,
      events := db.events + [Event(Synced, Some(sha), None)])
  }

  /** `_auto_reformat_baseline`. */
  function Reformatted(s: System, x: Weather): Db {
    var baseline := Baseline(s.db, s.file, x.probe);
    if IsBlank(baseline) || x.formatted.None? || Strip(x.formatted.value) == Strip(baseline) then s.db
    else s.db.(baseline := Strip(x.formatted.value))
  }

  predicate IsUpToDate(w: World, s: System, r: string, probe: Probe) {
    var seen := Inspect(s.file, probe);
    && s.db.lastError.None? && s.db.lastSynced == Some(w.sha(r))
    && !seen.error && seen.marked && seen.content == Some(MarkerText() + r)
  }

  /** Everything after the up-to-date test, for the rendered text `r`. */
  function Deploy(w: World, s: System, r: string, x: Weather): (System, Status) {
    var sha, content := w.sha(r), MarkerText() + r;
    var db := WithVersion(s.db, sha);
    if !IsBlank(r) && !x.adapts then (s.(db := Failed(db, ValidationFailed, sha, ConfigInvalid)), ValidationFailed)
    else if s.db.adminUrl == "" then (s.(db := Failed(db, SyncFailed, sha, AdminUnavailable)), SyncFailed)
    else if s.file.None? || !x.readable then (s.(db := Failed(db, SyncFailed, sha, WriteFailed)), SyncFailed)
    else
      var written := Write(s.file, content, x.write);
      if !written.1 then (System(Failed(db, SyncFailed, sha, WriteFailed), written.0, s.running), SyncFailed)
      else if x.load != Accepted then
        var running := if x.load == Lost then Payload(w, r) else s.running;
        (System(Failed(db, SyncFailed, sha, AdminUnavailable), Write(written.0, s.file.value, x.restore).0, running),
            SyncFailed)
      else
        var loaded := System(Succeeded(db, sha), written.0, Payload(w, r));
        (if !IsBlank(r) && x.formatWarning then loaded.(db := Reformatted(loaded, x)) else loaded, Synced)
  }

  /** `_sync_caddy_configuration_locked`. */
  function SyncStep(w: World, s: System, force: bool, requireMarker: bool, x: Weather): (System, Status) {
    var seen := Inspect(s.file, x.probe);
    if requireMarker && (seen.error || !seen.marked) then (s, OnboardingRequired)
    else
      match Render(w, s, x.probe)
      case None => (s, Raised)
      case Some(r) =>
        if !force && IsUpToDate(w, s, r, x.probe) then
          var db := WithVersion(s.db, w.sha(r));
          (s.(db := db.(lastError := None, events := db.events + [Event(NoChange, Some(w.sha(r)), None)])), NoChange)
        else Deploy(w, s, r, x)
  }

  // ---------------------------------------------------------------- onboarding

  /** One parsed site is imported unless its creation raises. */
  function ImportOne(w: World, t: T.Table, site: (string, string)): (r: (T.Table, bool))
    requires T.Good(t)
    ensures T.Good(r.0)
  {
    hide *;
    ImportedStaysGood(w, t, site);
    match NewSiteOf(site)
    case None => (t, false)
    case Some(n) => T.GoodIsStored(t); (T.Step(t, T.Creating(n), w.urlOk), T.Create(t.rows, n, w.urlOk).Ok?)
  }

  function NewSiteOf(site: (string, string)): Option<T.NewSite> {
    match D.SplitNames(site.0)
    case Err(_) => None
    case Ok(names) =>
      D.SplitNamesGood(site.0);
      Some(T.NewSite(names[0], site.0, site.1, true))
  }

  lemma ImportedStaysGood(w: World, t: T.Table, site: (string, string))
    requires T.Good(t)
    ensures NewSiteOf(site).Some? ==>
        T.AllStored(t.rows) && T.Good(T.Step(t, T.Creating(NewSiteOf(site).value), w.urlOk))
  {
    hide T.Good, T.Step, NewSiteOf, T.AllStored;
    T.GoodIsStored(t);
    if NewSiteOf(site).Some? {
      T.StepKeepsGood(t, T.Creating(NewSiteOf(site).value), w.urlOk);
    }
  }

  /** The table after importing the sites in order, and how many were imported. */
  function Import(w: World, t: T.Table, sites: seq<(string, string)>, n: nat): (r: (T.Table, nat))
    requires T.Good(t) && n <= |sites|
    ensures T.Good(r.0)
  {
    if n == 0 then (t, 0)
    else
      var before := Import(w, t, sites, n - 1);
      var next := ImportOne(w, before.0, sites[n - 1]);
      (next.0, before.1 + if next.1 then 1 else 0)
  }

  /** The baseline an onboarding stores. */
  function ImportedBaseline(w: World, parsed: P.ParsedCaddyfile, imported: nat): string {
    var baseline := Strip(parsed.globalBlock);
    if baseline == "" && parsed.snippets == [] && imported == 0 then Strip(w.defaultBaseline) else baseline
  }

  /** The rows an onboarding writes before it synchronizes. */
  function Adopted(w: World, db: Db, content: string): Db
    requires T.Good(db.sites)
  {
    var parsed := P.Parse(content);
    var imported := Import(w, db.sites, parsed.sites, |parsed.sites|);
    db.(sites := imported.0, baseline := ImportedBaseline(w, parsed, imported.1), snapshot := Some(content))
  }

  datatype Outcome = AlreadyManaged | Onboarded | NotOnboarded

  function Noted(db: Db, problem: Problem): Db {
    db.(lastError := Some(problem), events := db.events + [Event(OnboardingFailed, None, Some(problem))])
  }

  /** The end of an onboarding, once the synchronization has answered. */
  function Verified(s: System, status: Status, last: Probe): (System, Outcome) {
    if status == Raised then (s, NotOnboarded)
    else if status != Synced && status != NoChange then
      (s.(db := s.db.(events := s.db.events + [Event(OnboardingFailed, None, s.db.lastError)])), NotOnboarded)
    else
      var seen := Inspect(s.file, last);
      if seen.error || !seen.marked then (s.(db := Noted(s.db, NotPersisted)), NotOnboarded)
      else (s.(db := s.db.(lastError := None)), Onboarded)
  }

  /** `onboard_caddy`. */
  function OnboardStep(w: World, s: System, first: Probe, reachable: bool, x: Weather, last: Probe): (System, Outcome)
    requires T.Good(s.db.sites)
  {
    var seen := Inspect(s.file, first);
    if seen.marked then (s, AlreadyManaged)
    else if seen.error then (s.(db := s.db.(lastError := Some(FileProblem))), NotOnboarded)
    else if !reachable then (s.(db := Noted(s.db, AdminUnavailable)), NotOnboarded)
    else
      var adopted := s.(db := Adopted(w, s.db, s.file.value));
      var synced := SyncStep(w, adopted, true, false, x);
      Verified(synced.0, synced.1, last)
  }

  // ---------------------------------------------------------------- site requests

  /** The rows after one site request, or None where the repository raises or finds no site. */
  function Mutated(w: World, db: Db, op: T.Op): Option<Db>
    requires T.Good(db.sites)
  {
    T.GoodIsStored(db.sites);
    var ok := match op
      case Creating(site) => T.Create(db.sites.rows, site, w.urlOk).Ok?
      case Updating(id, change) => id in db.sites.rows && T.Update(db.sites.rows, id, change, w.urlOk).Ok?
      case Deleting(id) => id in db.sites.rows;
    if ok then Some(db.(sites := T.Step(db.sites, op, w.urlOk))) else None
  }

  /** Commit on success, rollback otherwise; a failing commit is rolled back too. */
  function Finish(before: Db, after: System, success: bool, commits: bool): System {
    after.(db := if success && commits then after.db else before)
  }

  function Successful(status: Status): bool {
    status == Synced || status == NoChange
  }

  /** A site create, update or delete through the API: mutate, synchronize, commit or roll back. */
  function MutateStep(w: World, s: System, op: T.Op, x: Weather, commits: bool): (System, bool)
    requires T.Good(s.db.sites)
  {
    match Mutated(w, s.db, op)
    case None => (s, false)
    case Some(db) =>
      var synced := SyncStep(w, s.(db := db), false, true, x);
      (Finish(s.db, synced.0, Successful(synced.1), commits), Successful(synced.1) && commits)
  }

  // ---------------------------------------------------------------- the object the steps change

  class Deployment {
    const w: World
    var committed: Db
    var session: Db
    var file: Option<string>
    var running: Config

    constructor (w: World, db: Db, file: Option<string>, running: Config)
      ensures this.w == w && committed == db && View() == System(db, file, running)
    {
      this.w := w;
      committed, session, this.file, this.running := db, db, file, running;
    }

    /** What the current session sees. */
    function View(): System
      reads this
    {
      System(session, file, running)
    }

    method ReplaceAtomically(content: string, d: Disk) returns (done: bool)
      requires file.Some?
      modifies this`file
      ensures done == (d.atomic == Renamed) && file == if done then Some(content) else old(file)
    {
      done := d.atomic == Renamed;
      if done {
        file := Some(content);
      }
    }

    /** `_write_caddyfile_in_place`: keeps the old text to put it back when the rewrite fails. */
    method WriteInPlace(content: string, d: Disk) returns (done: bool)
      requires file.Some?
      modifies this`file
      ensures done == d.inPlace
      ensures file == if done then Some(content) else if d.readable && d.restored then old(file) else Some(d.leftover)
    {
      var original: Option<string> := None;
      if d.readable {
        original := file;
      }
      if d.inPlace {
        file := Some(content);
        return true;
      }
      file := Some(d.leftover);
      if original.Some? && d.restored {
        file := original;
      }
      return false;
    }

    method WriteCaddyfile(content: string, d: Disk) returns (done: bool)
      modifies this`file
      ensures (file, done) == Write(old(file), content, d)
    {
      if file.None? {
        return false;
      }
      done := ReplaceAtomically(content, d);
      if !done && d.atomic == Unsupported {
        done := WriteInPlace(content, d);
      }
    }

    method Fail(status: Status, sha: string, problem: Problem)
      modifies this`session
      ensures session == Failed(old(session), status, sha, problem)
    {
      session := session.(lastError := Some(problem),
          events := session.events + [Event(status, Some(sha), Some(problem))]);
    }

    /** `_sync_caddy_configuration_locked`. */
    method Sync(force: bool, requireMarker: bool, x: Weather) returns (status: Status)
      modifies this
      ensures (View(), status) == SyncStep(w, old(View()), force, requireMarker, x)
      ensures committed == old(committed)
    {
      hide SyncStep, Deploy, Inspect, Render, IsUpToDate, WithVersion, Failed, Succeeded, Reformatted, Write, Payload,
        IsBlank, Strip, MarkerText;
      ghost var start := View();
      SyncStepIs(w, start, force, requireMarker, x);
      var seen := Inspect(file, x.probe);
      if requireMarker && (seen.error || !seen.marked) {
        return OnboardingRequired;
      }
      var rendered := Render(w, View(), x.probe);
      if rendered.None? {
        return Raised;
      }
      var r := rendered.value;
      var sha := w.sha(r);
      var current := !force && IsUpToDate(w, View(), r, x.probe);
      session := WithVersion(session, sha);
      if current {
        session := session.(lastError := None, events := session.events + [Event(NoChange, Some(sha), None)]);
        return NoChange;
      }
      DeployIs(w, start, r, x);
      if !IsBlank(r) && !x.adapts {
        Fail(ValidationFailed, sha, ConfigInvalid);
        return ValidationFailed;
      }
      WithVersionIs(start.db, sha);
      if session.adminUrl == "" {
        Fail(SyncFailed, sha, AdminUnavailable);
        return SyncFailed;
      }
      if file.None? || !x.readable {
        Fail(SyncFailed, sha, WriteFailed);
        return SyncFailed;
      }
      var previous := file.value;
      var done := WriteCaddyfile(MarkerText() + r, x.write);
      if !done {
        Fail(SyncFailed, sha, WriteFailed);
        return SyncFailed;
      }
      if x.load != Rejected {
        running := Payload(w, r);
      }
      if x.load != Accepted {
        var restored := WriteCaddyfile(previous, x.restore);
        Fail(SyncFailed, sha, AdminUnavailable);
        return SyncFailed;
      }
      session := Succeeded(session, sha);
      if !IsBlank(r) && x.formatWarning {
        session := Reformatted(View(), x);
      }
      return Synced;
    }

    /** `_run_sync_followup`, with the answer turned into success or an HTTP error. */
    method SyncFollowup(x: Weather, commits: bool) returns (success: bool, status: Status)
      modifies this
      ensures var synced := SyncStep(w, old(View()), false, true, x);
              && status == synced.1 && success == (Successful(status) && commits)
              && View() == Finish(old(committed), synced.0, Successful(status), commits)
      ensures committed == session
    {
      hide SyncStep;
      status := Sync(false, true, x);
      if Successful(status) && commits {
        committed := session;
        return true, status;
      }
      session := committed;
      return false, status;
    }

    /** `create_site`, `update_site` and `delete_site` of the API, in a fresh session. */
    method MutateSite(op: T.Op, x: Weather, commits: bool) returns (success: bool)
      requires session == committed && T.Good(committed.sites)
      modifies this
      ensures (View(), success) == MutateStep(w, old(View()), op, x, commits)
      ensures committed == session
    {
      hide SyncStep, Mutated, T.Good;
      var mutated := Mutated(w, session, op);
      if mutated.None? {
        session := committed;
        return false;
      }
      session := mutated.value;
      var status;
      success, status := SyncFollowup(x, commits);
    }

    /** The import loop of `onboard_caddy`. */
    method ImportSites(sites: seq<(string, string)>) returns (imported: nat)
      requires T.Good(session.sites)
      modifies this`session
      ensures var r := Import(w, old(session.sites), sites, |sites|);
              session == old(session).(sites := r.0) && imported == r.1
    {
      hide T.Good, ImportOne;
      imported := 0;
      ghost var start := session;
      for n := 0 to |sites|
        invariant var r := Import(w, start.sites, sites, n); session == start.(sites := r.0) && imported == r.1
      {
        var one := ImportOne(w, session.sites, sites[n]);
        session := session.(sites := one.0);
        if one.1 {
          imported := imported + 1;
        }
      }
    }

    /** `onboard_caddy`. */
    method Onboard(first: Probe, reachable: bool, x: Weather, last: Probe) returns (outcome: Outcome)
      requires T.Good(session.sites)
      modifies this
      ensures (View(), outcome) == OnboardStep(w, old(View()), first, reachable, x, last)
      ensures committed == old(committed)
    {
      hide T.Good, Inspect, SyncStep, Import, Strip, P.Parse;
      var seen := Inspect(file, first);
      InspectedContent(file, first);
      if seen.marked {
        return AlreadyManaged;
      }
      if seen.error {
        session := session.(lastError := Some(FileProblem));
        return NotOnboarded;
      }
      if !reachable {
        session := Noted(session, AdminUnavailable);
        return NotOnboarded;
      }
      var parsed := P.Parse(file.value);
      var imported := ImportSites(parsed.sites);
      session := session.(baseline := ImportedBaseline(w, parsed, imported), snapshot := file);
      var status := Sync(true, false, x);
      if status == Raised {
        return NotOnboarded;
      }
      if status != Synced && status != NoChange {
        session := session.(events := session.events + [Event(OnboardingFailed, None, session.lastError)]);
        return NotOnboarded;
      }
      var again := Inspect(file, last);
      if again.error || !again.marked {
        session := Noted(session, NotPersisted);
        return NotOnboarded;
      }
      session := session.(lastError := None);
      return Onboarded;
    }
  }

  lemma InspectedContent(file: Option<string>, probe: Probe)
    ensures !Inspect(file, probe).error ==> file.Some? && Inspect(file, probe).content == file
  {
    hide Marked;
  }

  lemma SyncStepIs(w: World, s: System, force: bool, requireMarker: bool, x: Weather)
    ensures var seen, rendered := Inspect(s.file, x.probe), Render(w, s, x.probe);
            SyncStep(w, s, force, requireMarker, x) ==
              if requireMarker && (seen.error || !seen.marked) then (s, OnboardingRequired)
              else if rendered.None? then (s, Raised)
              else if !force && IsUpToDate(w, s, rendered.value, x.probe) then
                var db := WithVersion(s.db, w.sha(rendered.value));
                (s.(db := db.(lastError := None, events := db.events
                    + [Event(NoChange, Some(w.sha(rendered.value)), None)])), NoChange)
              else Deploy(w, s, rendered.value, x)
  {
    hide Inspect, Render, IsUpToDate, WithVersion, Deploy;
  }

  lemma WithVersionIs(db: Db, sha: string)
    ensures WithVersion(db, sha).adminUrl == db.adminUrl
  {
  }

  lemma DeployIs(w: World, s: System, r: string, x: Weather)
    ensures var sha, db := w.sha(r), WithVersion(s.db, w.sha(r));
            var written := Write(s.file, MarkerText() + r, x.write);
            var loaded := System(Succeeded(db, sha), written.0, Payload(w, r));
            Deploy(w, s, r, x) ==
              if !IsBlank(r) && !x.adapts then (s.(db := Failed(db, ValidationFailed, sha, ConfigInvalid)),
                ValidationFailed)
              else if s.db.adminUrl == "" then (s.(db := Failed(db, SyncFailed, sha, AdminUnavailable)), SyncFailed)
              else if s.file.None? || !x.readable then (s.(db := Failed(db, SyncFailed, sha, WriteFailed)), SyncFailed)
              else if !written.1 then (System(Failed(db, SyncFailed, sha, WriteFailed), written.0, s.running),
                SyncFailed)
              else if x.load != Accepted then
                (System(Failed(db, SyncFailed, sha, AdminUnavailable), Write(written.0, s.file.value, x.restore).0,
                        if x.load == Lost then Payload(w, r) else s.running), SyncFailed)
              else (if !IsBlank(r) && x.formatWarning then loaded.(db := Reformatted(loaded, x)) else loaded, Synced)
  {
    hide Write, WithVersion, Failed, Succeeded, Reformatted, Payload, IsBlank, MarkerText;
  }
}
