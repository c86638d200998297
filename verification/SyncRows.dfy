/**
 What synchronizations and onboardings write into the rows (app/services/caddyfile_manager.py:602-923),
 said with the fields of the rows and the outcomes of the calls alone.
 */
module SyncRows {
  import opened Text
  import opened Wrappers
  import opened Sync
  import opened SyncSafety
  import B = SiteBlocks
  import D = Domains
  import P = Parser
  import T = Sites

  // ---------------------------------------------------------------- which answer is given

  /** The file can be read and written, and is managed. */
  predicate IsManagedFile(file: Option<string>, probe: Probe) {
    file.Some? && probe == Accessible && Marked(file.value)
  }

  /** Nothing has changed since the last successful synchronization. */
  predicate NothingNew(w: World, s: System, r: string, probe: Probe) {
    && s.db.lastError == None && s.db.lastSynced == Some(w.sha(r))
    && probe == Accessible && s.file == Some(MarkerText() + r)
  }

  lemma UpToDateIs(w: World, s: System, r: string, probe: Probe)
    ensures IsUpToDate(w, s, r, probe) <==> NothingNew(w, s, r, probe)
  {
    MarkerIsSeen(r);
    hide Marked, MarkerText;
  }

  lemma ManagedIs(file: Option<string>, probe: Probe)
    ensures !Inspect(file, probe).error && Inspect(file, probe).marked <==> IsManagedFile(file, probe)
  {
    hide Marked;
  }

  /** The write is reported as done. */
  predicate IsWritten(d: Disk) {
    d.atomic == Renamed || (d.atomic == Unsupported && d.inPlace)
  }

  /** The first reason, in the order of the source, why a deployment fails, if there is one. */
  function Reason(s: System, r: string, x: Weather): Option<Problem> {
    if !IsBlank(r) && !x.adapts then Some(ConfigInvalid)
    else if s.db.adminUrl == "" then Some(AdminUnavailable)
    else if s.file.None? || !x.readable || !IsWritten(x.write) then Some(WriteFailed)
    else if x.load != Accepted then Some(AdminUnavailable)
    else None
  }

  lemma WrittenIs(file: Option<string>, content: string, d: Disk)
    ensures Write(file, content, d).1 <==> file.Some? && IsWritten(d)
    ensures file.None? ==> Write(file, content, d).0 == None
  {
  }

  /** Each answer, with the condition under which it is given. */
  lemma AnswerIs(w: World, s: System, force: bool, requireMarker: bool, x: Weather)
    ensures var answer, rendered := SyncStep(w, s, force, requireMarker, x).1, Render(w, s, x.probe);
            if requireMarker && !IsManagedFile(s.file, x.probe) then answer == OnboardingRequired
            else if rendered.None? then answer == Raised
            else
              var r := rendered.value;
              && (answer == NoChange <==> !force && NothingNew(w, s, r, x.probe))
              && (answer == ValidationFailed <==> answer != NoChange && Reason(s, r, x) == Some(ConfigInvalid))
              && (answer == SyncFailed <==>
                    answer != NoChange && Reason(s, r, x).Some? && Reason(s, r, x) != Some(ConfigInvalid))
              && (answer == Synced <==> answer != NoChange && Reason(s, r, x) == None)
  {
    hide *;
    SyncStepIs(w, s, force, requireMarker, x);
    ManagedIs(s.file, x.probe);
    var rendered := Render(w, s, x.probe);
    if rendered.Some? {
      UpToDateIs(w, s, rendered.value, x.probe);
      DeployedAs(w, s, rendered.value, x);
    }
  }

  /** Rows and answer of a deployment. */
  lemma DeployedAs(w: World, s: System, r: string, x: Weather)
    ensures var d, sha, problem := Deploy(w, s, r, x), w.sha(r), Reason(s, r, x);
            && d.1 == (if problem == None then Synced else if problem ==
              Some(ConfigInvalid) then ValidationFailed else SyncFailed)
            && d.0.db.lastError == problem
            && d.0.db.lastSynced == (if problem == None then Some(sha) else s.db.lastSynced)
            && d.0.db.renderedSha == Some(sha)
            && d.0.db.versions == s.db.versions[sha := problem == None || (sha in s.db.versions && s.db.versions[sha])]
            && d.0.db.events == s.db.events + [Event(d.1, Some(sha), problem)]
            && d.0.db.sites == s.db.sites && d.0.db.snapshot == s.db.snapshot
            && d.0.db.adminUrl == s.db.adminUrl && d.0.db.email == s.db.email
            && (problem != None || IsBlank(r) || !x.formatWarning ==> d.0.db.baseline == s.db.baseline)
  {
    DeployIs(w, s, r, x);
    WrittenIs(s.file, MarkerText() + r, x.write);
    hide Deploy, Write, Payload, IsBlank, MarkerText, IsWritten, Baseline, Strip;
  }

  /**
   What is written into the rows: every answer but the first two is recorded with the hash of the
   rendered text and its problem, only a success moves the last synchronized hash and marks the
   version, and nothing else changes but, after a format warning, the baseline.
   */
  lemma RowsAre(w: World, s: System, force: bool, requireMarker: bool, x: Weather)
    ensures var t, rendered := SyncStep(w, s, force, requireMarker, x), Render(w, s, x.probe);
            if t.1 == OnboardingRequired || t.1 == Raised then t.0 == s
            else
              && rendered.Some?
              && var sha, was, now := w.sha(rendered.value), s.db, t.0.db;
                 && now.renderedSha == Some(sha) && now.events == was.events + [Event(t.1, Some(sha), now.lastError)]
                 && (now.lastError == None <==> t.1 == Synced || t.1 == NoChange)
                 && now.lastSynced == (if t.1 == Synced then Some(sha) else was.lastSynced)
                 && now.versions == was.versions[sha := t.1 == Synced || (sha in was.versions && was.versions[sha])]
                 && now.sites == was.sites && now.snapshot == was.snapshot
                 && now.adminUrl == was.adminUrl && now.email == was.email
                 && (t.1 != Synced || IsBlank(rendered.value) || !x.formatWarning ==> now.baseline == was.baseline)
  {
    hide *;
    SyncStepIs(w, s, force, requireMarker, x);
    var rendered := Render(w, s, x.probe);
    if rendered.Some? {
      DeployedAs(w, s, rendered.value, x);
      VersionIs(s.db, w.sha(rendered.value));
    }
  }

  lemma VersionIs(db: Db, sha: string)
    ensures WithVersion(db, sha) ==
      db.(renderedSha := Some(sha), versions := db.versions[sha := sha in db.versions && db.versions[sha]])
  {
    if sha in db.versions {
      assert db.versions[sha := db.versions[sha]] == db.versions;
    }
  }

  /** After a format warning the stored baseline is the formatted one, trimmed, if there is one and it differs. */
  lemma BaselineIsReformatted(w: World, s: System, force: bool, requireMarker: bool, x: Weather)
    requires SyncStep(w, s, force, requireMarker, x).1 == Synced && s.db.baseline != ""
    ensures Render(w, s, x.probe).Some?
    ensures var r, now := Render(w, s, x.probe).value, SyncStep(w, s, force, requireMarker, x).0.db.baseline;
            now == if !IsBlank(r) && x.formatWarning && !IsBlank(s.db.baseline)
                      && x.formatted.Some? && Strip(x.formatted.value) != Strip(s.db.baseline)
                   then Strip(x.formatted.value) else s.db.baseline
  {
    hide *;
    SyncStepIs(w, s, force, requireMarker, x);
    var r := Render(w, s, x.probe).value;
    ReformatIs(w, s, r, x);
  }

  lemma ReformatIs(w: World, s: System, r: string, x: Weather)
    requires Deploy(w, s, r, x).1 == Synced && s.db.baseline != ""
    ensures Deploy(w, s, r, x).0.db.baseline ==
              if !IsBlank(r) && x.formatWarning && !IsBlank(s.db.baseline)
                 && x.formatted.Some? && Strip(x.formatted.value) != Strip(s.db.baseline)
              then Strip(x.formatted.value) else s.db.baseline
  {
    DeployIs(w, s, r, x);
    hide Deploy, Write, Payload, IsBlank, MarkerText, Strip, Failed;
  }

  /** The configuration of a rendered text: the empty one for nothing but white space, else what the adapter gives. */
  lemma PayloadIs(w: World, r: string)
    ensures Payload(w, r) == if Strip(r) == "" then EmptyConfig else w.adapt(r)
  {
    hide Strip;
  }

  // ---------------------------------------------------------------- importing sites

  /**
   Importing one parsed site: it is added enabled, named after its first host, with its domain and
   directives normalized, exactly if the repository takes it; else the table stays as it was.
   */
  lemma ImportOneIs(w: World, t: T.Table, site: (string, string))
    requires T.Good(t)
    ensures var r, names := ImportOne(w, t, site), D.SplitNames(site.0);
            && T.AllStored(t.rows)
            && (names.Err? ==> r == (t, false))
            && (names.Ok? ==>
                  && names.value != []
                  && var row := T.Create(t.rows, T.NewSite(names.value[0], site.0, site.1, true), w.urlOk);
                     && r.1 == row.Ok?
                     && r.0 == if row.Ok? then T.Table(t.rows[t.nextId := row.value], t.nextId + 1) else t)
  {
    T.GoodIsStored(t);
    if D.SplitNames(site.0).Ok? {
      D.SplitNamesGood(site.0);
    }
    hide T.Create, T.Good, T.AllStored, D.SplitNames;
  }

  /** The sites of `sites[..n]` that were imported. */
  lemma {:induction false} ImportIs(w: World, t: T.Table, sites: seq<(string, string)>, n: nat)
    requires T.Good(t) && n <= |sites|
    ensures var r := Import(w, t, sites, n);
            && r.0.nextId == t.nextId + r.1 && r.1 <= n
            && (forall id :: id in t.rows ==> id in r.0.rows && r.0.rows[id] == t.rows[id])
            && (forall id :: id in r.0.rows && id !in t.rows ==>
                  && t.nextId <= id < r.0.nextId && r.0.rows[id].enabled
                  && exists k :: 0 <= k < n && D.NormalizeList(sites[k].0) == Ok(r.0.rows[id].domain))
            && (forall id :: t.nextId <= id < r.0.nextId ==> id in r.0.rows)
  {
    hide *;
    if n == 0 {
      NothingImported(w, t, sites);
    } else {
      ImportIs(w, t, sites, n - 1);
      var before := Import(w, t, sites, n - 1);
      ImportStep(w, t, sites, n);
      ImportOneIs(w, before.0, sites[n - 1]);
      GoodIds(t);
      GoodIds(before.0);
      if D.SplitNames(sites[n - 1].0).Ok? {
        CreatedIs(before.0.rows, T.NewSite(D.SplitNames(sites[n - 1].0).value[0], sites[n - 1].0, sites[n - 1].1, true),
          w.urlOk);
      }
    }
  }

  lemma NothingImported(w: World, t: T.Table, sites: seq<(string, string)>)
    requires T.Good(t)
    ensures Import(w, t, sites, 0) == (t, 0) && forall id :: id in t.rows ==> id < t.nextId
  {
    hide T.AllStored, T.Disjoint;
  }

  lemma ImportStep(w: World, t: T.Table, sites: seq<(string, string)>, n: nat)
    requires T.Good(t) && 0 < n <= |sites|
    ensures var before := Import(w, t, sites, n - 1);
            && T.Good(before.0)
            && var next := ImportOne(w, before.0, sites[n - 1]);
               Import(w, t, sites, n) == (next.0, before.1 + if next.1 then 1 else 0)
  {
    hide T.Good, ImportOne;
  }

  lemma GoodIds(t: T.Table)
    requires T.Good(t)
    ensures forall id :: id in t.rows ==> id < t.nextId
  {
    hide T.AllStored, T.Disjoint;
  }

  /** A created row is enabled as asked, under its normalized domain. */
  lemma CreatedIs(rows: T.Rows, site: T.NewSite, urlOk: string -> bool)
    requires T.AllStored(rows)
    ensures var r := T.Create(rows, site, urlOk);
            r.Ok? ==> r.value.enabled == site.enabled && D.NormalizeList(site.domain) == Ok(r.value.domain)
  {
    hide T.Taken, D.IsStored, D.NormalizeList, T.DerivedUpstream, D.NamesOf, T.SiteName;
  }

  // ---------------------------------------------------------------- what an onboarding stores

  /** The baseline an onboarding stores: what the file holds besides its sites, or the default for an empty file. */
  lemma AdoptedBaseline(w: World, db: Db, content: string)
    requires T.Good(db.sites)
    ensures var adopted, parsed := Adopted(w, db, content), P.Parse(content);
            var imported := Import(w, db.sites, parsed.sites, |parsed.sites|);
            && adopted.sites == imported.0 && adopted.snapshot == Some(content)
            && (Strip(parsed.globalBlock) != "" || parsed.snippets != [] || imported.1 > 0 ==>
                  adopted.baseline == Strip(parsed.globalBlock))
            && (Strip(parsed.globalBlock) == "" && parsed.snippets == [] && imported.1 == 0 ==>
                  adopted.baseline == Strip(w.defaultBaseline))
            && adopted.adminUrl == db.adminUrl && adopted.email == db.email && adopted.events == db.events
            && adopted.lastError == db.lastError && adopted.lastSynced == db.lastSynced
            && adopted.versions == db.versions && adopted.renderedSha == db.renderedSha
  {
    hide T.Good, Import, P.Parse, Strip;
  }

  /** Each outcome of an onboarding, with what it records. */
  lemma OnboardRecords(w: World, s: System, first: Probe, reachable: bool, x: Weather, last: Probe)
    requires T.Good(s.db.sites)
    ensures var t := OnboardStep(w, s, first, reachable, x, last);
            if s.file.Some? && first != Unreadable && Marked(s.file.value) then t == (s, AlreadyManaged)
            else if s.file.None? || first != Accessible then
              t == (s.(db := s.db.(lastError := Some(FileProblem))), NotOnboarded)
            else if !reachable then
              && t.1 == NotOnboarded && t.0.file == s.file && t.0.running == s.running
              && t.0.db == s.db.(lastError := Some(AdminUnavailable),
                                 events := s.db.events + [Event(OnboardingFailed, None, Some(AdminUnavailable))])
            else
              var synced := SyncStep(w, s.(db := Adopted(w, s.db, s.file.value)), true, false, x);
              && (t.1 == Onboarded <==> synced.1 == Synced && IsManagedFile(synced.0.file, last))
              && (t.1 != Onboarded ==> t.1 == NotOnboarded)
              && t.0.file == synced.0.file && t.0.running == synced.0.running
              && (t.1 == Onboarded ==> t.0.db == synced.0.db.(lastError := None))
              && (synced.1 == Synced && t.1 != Onboarded ==>
                    t.0.db == synced.0.db.(lastError := Some(NotPersisted),
                      events := synced.0.db.events + [Event(OnboardingFailed, None, Some(NotPersisted))]))
              && (synced.1 != Synced && synced.1 != Raised ==>
                    t.0.db == synced.0.db.(
                      events := synced.0.db.events + [Event(OnboardingFailed, None, synced.0.db.lastError)]))
              && (synced.1 == Raised ==> t.0.db == synced.0.db)
  {
    hide T.Good, Inspect, Adopted, SyncStep, Verified, Noted, Marked, IsManagedFile;
    InspectIs(s.file, first);
    NotedIs(s.db, AdminUnavailable);
    if s.file.Some? {
      var synced := SyncStep(w, s.(db := Adopted(w, s.db, s.file.value)), true, false, x);
      ForcedIsNotNoChange(w, s.(db := Adopted(w, s.db, s.file.value)), false, x);
      VerifiedRecords(synced.0, synced.1, last);
    }
  }

  lemma InspectIs(file: Option<string>, probe: Probe)
    ensures Inspect(file, probe).marked <==> file.Some? && probe != Unreadable && Marked(file.value)
    ensures Inspect(file, probe).error <==> file.None? || probe != Accessible
  {
    hide Marked;
  }

  lemma NotedIs(db: Db, problem: Problem)
    ensures Noted(db, problem) ==
              db.(lastError := Some(problem), events := db.events + [Event(OnboardingFailed, None, Some(problem))])
  {
  }

  lemma VerifiedRecords(s: System, status: Status, last: Probe)
    requires status != NoChange
    ensures var t := Verified(s, status, last);
            && (t.1 == Onboarded <==> status == Synced && IsManagedFile(s.file, last))
            && (t.1 != Onboarded ==> t.1 == NotOnboarded) && t.0.file == s.file && t.0.running == s.running
            && t.0.db ==
                 if t.1 == Onboarded then s.db.(lastError := None)
                 else if status == Synced then
                   s.db.(lastError := Some(NotPersisted), events := s.db.events
                     + [Event(OnboardingFailed, None, Some(NotPersisted))])
                 else if status == Raised then s.db
                 else s.db.(events := s.db.events + [Event(OnboardingFailed, None, s.db.lastError)])
  {
    ManagedIs(s.file, last);
    hide Inspect, Marked;
  }

  // ---------------------------------------------------------------- site requests

  /** A request raises, and changes nothing, exactly if the repository refuses it or does not know the site. */
  lemma RequestIs(w: World, db: Db, op: T.Op)
    requires T.Good(db.sites)
    ensures T.AllStored(db.sites.rows)
    ensures Mutated(w, db, op) == None <==>
              match op
              case Creating(site) => T.Create(db.sites.rows, site, w.urlOk).Err?
              case Updating(id, change) => id !in db.sites.rows || T.Update(db.sites.rows, id, change, w.urlOk).Err?
              case Deleting(id) => id !in db.sites.rows
  {
    T.GoodIsStored(db.sites);
    hide T.Good, T.Create, T.Update, T.Step, T.AllStored;
  }

  // ---------------------------------------------------------------- what is committed

  /**
   What an action leaves: file and running Caddy as its calls left them, and the rows of its session
   exactly if it succeeded and the commit did, else the old ones. An edit touches three fields only.
   */
  lemma ActionIs(w: World, s: System, a: Action, commits: bool)
    requires T.Good(s.db.sites)
    ensures var t := Act(w, s, a, commits);
            match a
            case SyncNow(force, x) =>
              var y := SyncStep(w, s, force, true, x);
              && t.file == y.0.file && t.running == y.0.running
              && t.db == if commits && (y.1 == Synced || y.1 == NoChange) then y.0.db else s.db
            case OnboardNow(first, reachable, x, last) =>
              var y := OnboardStep(w, s, first, reachable, x, last);
              && t.file == y.0.file && t.running == y.0.running
              && t.db == if commits && (y.1 == Onboarded || y.1 == AlreadyManaged) then y.0.db else s.db
            case Request(op, x) => t == MutateStep(w, s, op, x, commits).0
            case Edit(baseline, adminUrl, email) =>
              && t.file == s.file && t.running == s.running
              && (!commits ==> t.db == s.db)
              && (commits ==> t.db.baseline == baseline && t.db.adminUrl == adminUrl && t.db.email == email
                              && t.db == s.db.(baseline := t.db.baseline, adminUrl := t.db.adminUrl,
                                email := t.db.email))
  {
    hide T.Good, SyncStep, OnboardStep, MutateStep;
  }
}
