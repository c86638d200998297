/**
 What every run of synchronizations, onboardings and site requests keeps
 (app/services/caddyfile_manager.py, app/routers/caddy_api.py).
 */
module SyncSafety {
  import opened Text
  import opened Wrappers
  import opened Sync
  import T = Sites

  // ---------------------------------------------------------------- one synchronization

  /** A marked file holds the marker and a text whose configuration is the running one. */
  predicate Coherent(w: World, file: Option<string>, running: Config) {
    file.Some? && Marked(file.value) ==>
      MarkerText() <= file.value && running == Payload(w, file.value[|MarkerText()|..])
  }

  lemma WrittenIsCoherent(w: World, r: string)
    ensures Coherent(w, Some(MarkerText() + r), Payload(w, r))
    ensures Marked(MarkerText() + r)
  {
    MarkerIsSeen(r);
    hide Marked, MarkerText, Payload;
    assert (MarkerText() + r)[|MarkerText()|..] == r;
  }

  lemma CoherentText(w: World, r: string, running: Config)
    requires Coherent(w, Some(MarkerText() + r), running)
    ensures running == Payload(w, r)
  {
    MarkerIsSeen(r);
    hide Marked, MarkerText, Payload;
    assert (MarkerText() + r)[|MarkerText()|..] == r;
  }

  /** The file and the running configuration after the deployment of `r`, under reliable failures. */
  lemma DeployOutcome(w: World, s: System, r: string, x: Weather)
    requires Reliable(x)
    ensures var d := Deploy(w, s, r, x);
            && (d.1 == Synced || d.1 == SyncFailed || d.1 == ValidationFailed)
            && (d.1 == Synced ==> d.0.file == Some(MarkerText() + r) && d.0.running == Payload(w, r))
            && (d.1 != Synced ==> d.0.file == s.file && d.0.running == s.running)
  {
    DeployIs(w, s, r, x);
    hide Deploy, WithVersion, Failed, Succeeded, Reformatted, Payload, IsBlank, MarkerText;
  }

  /** A synchronization that reports success has deployed its text, whatever else went wrong. */
  lemma DeployedText(w: World, s: System, r: string, x: Weather)
    requires Deploy(w, s, r, x).1 == Synced
    ensures Deploy(w, s, r, x).0.file == Some(MarkerText() + r) && Deploy(w, s, r, x).0.running == Payload(w, r)
    ensures Deploy(w, s, r, x).0.db.sites == s.db.sites
  {
    DeployIs(w, s, r, x);
    ReformatKeepsSites(System(Succeeded(WithVersion(s.db, w.sha(r)), w.sha(r)),
      Write(s.file, MarkerText() + r, x.write).0, Payload(w, r)), x);
    hide Deploy, Failed, Reformatted, Payload, IsBlank, MarkerText;
  }

  lemma ReformatKeepsSites(s: System, x: Weather)
    ensures Reformatted(s, x).sites == s.db.sites
  {
    hide Baseline, IsBlank, Strip;
  }

  /** Every answer and what it says about file and runtime. */
  lemma SyncOutcome(w: World, s: System, force: bool, requireMarker: bool, x: Weather)
    ensures var rendered, t := Render(w, s, x.probe), SyncStep(w, s, force, requireMarker, x);
            && (t.1 == Synced ==>
              rendered.Some? && t.0.file == Some(MarkerText() + rendered.value)
              && t.0.running == Payload(w, rendered.value))
            && (t.1 == NoChange ==>
              rendered.Some? && t.0.file == s.file == Some(MarkerText() + rendered.value) && t.0.running == s.running)
            && (Reliable(x) && t.1 != Synced ==> t.0.file == s.file && t.0.running == s.running)
            && (Successful(t.1) ==> t.0.db.sites == s.db.sites)
  {
    hide *;
    SyncStepIs(w, s, force, requireMarker, x);
    SuccessfulIs(SyncStep(w, s, force, requireMarker, x).1);
    var rendered := Render(w, s, x.probe);
    if rendered.Some? {
      var r := rendered.value;
      WithVersionKeeps(s.db, w.sha(r));
      DeployAnswers(w, s, r, x);
      if Reliable(x) {
        DeployOutcome(w, s, r, x);
      }
      if Deploy(w, s, r, x).1 == Synced {
        DeployedText(w, s, r, x);
      }
      UpToDateFile(w, s, r, x.probe);
    }
  }

  lemma SuccessfulIs(status: Status)
    ensures Successful(status) <==> status == Synced || status == NoChange
  {
  }

  lemma WithVersionKeeps(db: Db, sha: string)
    ensures WithVersion(db, sha).sites == db.sites && WithVersion(db, sha).baseline == db.baseline
    ensures WithVersion(db, sha).snapshot == db.snapshot
  {
  }

  lemma DeployAnswers(w: World, s: System, r: string, x: Weather)
    ensures Deploy(w, s, r, x).1 != NoChange
  {
    DeployIs(w, s, r, x);
    hide Deploy, WithVersion, Failed, Succeeded, Reformatted, Payload, IsBlank, MarkerText, Write;
  }

  lemma UpToDateFile(w: World, s: System, r: string, probe: Probe)
    ensures IsUpToDate(w, s, r, probe) ==> s.file == Some(MarkerText() + r)
  {
    InspectedContent(s.file, probe);
    hide Inspect, MarkerText;
  }

  /** The invariant, step by step. */
  lemma SyncKeepsCoherent(w: World, s: System, force: bool, requireMarker: bool, x: Weather)
    requires Reliable(x) && Coherent(w, s.file, s.running)
    ensures var t := SyncStep(w, s, force, requireMarker, x); Coherent(w, t.0.file, t.0.running)
  {
    hide *;
    SyncOutcome(w, s, force, requireMarker, x);
    var rendered := Render(w, s, x.probe);
    if rendered.Some? {
      WrittenIsCoherent(w, rendered.value);
    }
  }

  /** A "no_change" answer means that Caddy already runs the rendered configuration. */
  lemma NoChangeIsRunning(w: World, s: System, force: bool, requireMarker: bool, x: Weather)
    requires Coherent(w, s.file, s.running)
    requires SyncStep(w, s, force, requireMarker, x).1 == NoChange
    ensures var rendered := Render(w, s, x.probe);
            rendered.Some? && s.running == Payload(w, rendered.value)
  {
    hide *;
    SyncOutcome(w, s, force, requireMarker, x);
    CoherentText(w, Render(w, s, x.probe).value, s.running);
  }

  // ---------------------------------------------------------------- synchronizing twice

  /** The baseline does not come from the file itself. */
  predicate BaselineIsStored(s: System) {
    s.db.baseline != "" || (s.db.snapshot.Some? && s.db.snapshot.value != "")
    || (s.file.Some? && (s.file.value == "" || Marked(s.file.value)))
  }

  lemma SameBaseline(s: System, t: System, probe: Probe, other: Probe)
    requires BaselineIsStored(s) && t.db.baseline == s.db.baseline && t.db.snapshot == s.db.snapshot
    requires t.file.Some? && Marked(t.file.value)
    ensures Baseline(t.db, t.file, other) == Baseline(s.db, s.file, probe)
  {
    hide Marked;
  }

  lemma RenderFrom(w: World, s: System, t: System, probe: Probe, other: Probe)
    requires Baseline(t.db, t.file, other) == Baseline(s.db, s.file, probe)
    requires t.db.sites == s.db.sites && t.db.adminUrl == s.db.adminUrl && t.db.email == s.db.email
    ensures Render(w, t, other) == Render(w, s, probe)
  {
    hide Baseline, SiteRows, Strip;
  }

  /** Rows after a successful deployment without a format warning. */
  lemma DeployedRows(w: World, s: System, r: string, x: Weather)
    requires Deploy(w, s, r, x).1 == Synced && !x.formatWarning
    ensures var db := Deploy(w, s, r, x).0.db;
            && db.sites == s.db.sites && db.adminUrl == s.db.adminUrl && db.email == s.db.email
            && db.baseline == s.db.baseline && db.snapshot == s.db.snapshot
            && db.lastError == None && db.lastSynced == Some(w.sha(r))
  {
    DeployIs(w, s, r, x);
    hide Deploy, Write, Failed, Reformatted, Payload, IsBlank, MarkerText;
  }

  lemma NowUpToDate(w: World, s: System, r: string, probe: Probe)
    requires s.db.lastError == None && s.db.lastSynced == Some(w.sha(r))
    requires s.file == Some(MarkerText() + r) && probe == Accessible
    ensures IsUpToDate(w, s, r, probe) && Inspect(s.file, probe).marked && !Inspect(s.file, probe).error
  {
    MarkerIsSeen(r);
    hide Marked, MarkerText;
  }

  /**
   After a successful synchronization without a format warning, an unforced one answers
   "no_change" and touches nothing but the event list.
   */
  lemma SecondSyncIsNoChange(w: World, s: System, force: bool, requireMarker: bool, x: Weather, y: Weather)
    requires SyncStep(w, s, force, requireMarker, x).1 == Synced && !x.formatWarning
    requires requireMarker || BaselineIsStored(s)
    requires y.probe == Accessible
    ensures var t := SyncStep(w, s, force, requireMarker, x).0;
            var u := SyncStep(w, t, false, true, y);
            && u.1 == NoChange && u.0.file == t.file && u.0.running == t.running
            && u.0.db.sites == t.db.sites && u.0.db.baseline == t.db.baseline && u.0.db.snapshot == t.db.snapshot
            && Render(w, t, y.probe) == Render(w, s, x.probe)
  {
    hide *;
    SyncStepIs(w, s, force, requireMarker, x);
    SyncOutcome(w, s, force, requireMarker, x);
    var r := Render(w, s, x.probe).value;
    DeployedRows(w, s, r, x);
    var t := SyncStep(w, s, force, requireMarker, x).0;
    if requireMarker {
      MarkedIsStored(s, x.probe);
    }
    MarkerIsSeen(r);
    SameBaseline(s, t, x.probe, y.probe);
    RenderFrom(w, s, t, x.probe, y.probe);
    NowUpToDate(w, t, r, y.probe);
    SyncStepIs(w, t, false, true, y);
    WithVersionKeeps(t.db, w.sha(r));
  }

  lemma MarkedIsStored(s: System, probe: Probe)
    requires Inspect(s.file, probe).marked
    ensures BaselineIsStored(s)
  {
    hide Marked;
  }

  // ---------------------------------------------------------------- where the conditions are needed

  /**
   A restore write that fails after a rejected load leaves the new text on disk, or what is left of
   the old one; the file and the runtime agree then exactly when that text, if it is marked, adapts
   to what Caddy already runs.
   */
  lemma RefusedRestore(w: World, s: System, r: string, x: Weather)
    requires Succeeds(x.write) && x.load == Rejected && !Succeeds(x.restore)
    requires (IsBlank(r) || x.adapts) && s.db.adminUrl != "" && s.file.Some? && x.readable
    ensures var t := Deploy(w, s, r, x).0;
            && t.file == Some(if FailsSafely(x.restore) then MarkerText() + r else x.restore.leftover)
            && t.running == s.running
            && (FailsSafely(x.restore) ==> (Coherent(w, t.file, t.running) <==> s.running == Payload(w, r)))
  {
    hide *;
    DeployIs(w, s, r, x);
    WriteCases(s.file, MarkerText() + r, x.write);
    WriteCases(Some(MarkerText() + r), s.file.value, x.restore);
    TextAgrees(w, r, s.running);
  }

  /** A deployed text agrees with the configuration it adapts to, and with no other. */
  lemma TextAgrees(w: World, r: string, running: Config)
    ensures Coherent(w, Some(MarkerText() + r), running) <==> running == Payload(w, r)
  {
    hide *;
    WrittenIsCoherent(w, r);
    if Coherent(w, Some(MarkerText() + r), running) {
      CoherentText(w, r, running);
    }
  }

  lemma WriteCases(file: Option<string>, content: string, d: Disk)
    requires file.Some?
    ensures Succeeds(d) ==> Write(file, content, d) == (Some(content), true)
    ensures !Succeeds(d) && FailsSafely(d) ==> Write(file, content, d) == (file, false)
    ensures !Succeeds(d) && !FailsSafely(d) ==> Write(file, content, d) == (Some(d.leftover), false)
  {
  }

  // ---------------------------------------------------------------- onboarding

  /** The file, the runtime and the sites after an onboarding. */
  lemma OnboardOutcome(w: World, s: System, first: Probe, reachable: bool, x: Weather, last: Probe)
    requires T.Good(s.db.sites) && Reliable(x)
    ensures var t := OnboardStep(w, s, first, reachable, x, last);
            && (t.1 == Onboarded || t.1 == AlreadyManaged ==> t.0.file.Some? && Marked(t.0.file.value))
            && (Coherent(w, s.file, s.running) ==> Coherent(w, t.0.file, t.0.running))
            && T.Good(t.0.db.sites)
  {
    hide *;
    OnboardIs(w, s, first, reachable, x, last);
    InspectedMark(s.file, first);
    var seen := Inspect(s.file, first);
    if !seen.marked && !seen.error && reachable {
      var adopted := s.(db := Adopted(w, s.db, s.file.value));
      AdoptedIsGood(w, s.db, s.file.value);
      if Coherent(w, s.file, s.running) {
        SyncKeepsCoherent(w, adopted, true, false, x);
      }
      var synced := SyncStep(w, adopted, true, false, x);
      SyncKeepsSites(w, adopted, true, false, x);
      VerifiedIs(synced.0, synced.1, last);
      InspectedMark(synced.0.file, last);
    }
  }

  lemma OnboardIs(w: World, s: System, first: Probe, reachable: bool, x: Weather, last: Probe)
    requires T.Good(s.db.sites)
    ensures var seen, t := Inspect(s.file, first), OnboardStep(w, s, first, reachable, x, last);
            if seen.marked then t == (s, AlreadyManaged)
            else if seen.error || !reachable then
              t.1 == NotOnboarded && t.0.file == s.file && t.0.running == s.running && t.0.db.sites == s.db.sites
            else
              && s.file.Some?
              && var adopted := s.(db := Adopted(w, s.db, s.file.value));
                 var synced := SyncStep(w, adopted, true, false, x);
                 t == Verified(synced.0, synced.1, last)
  {
    InspectedContent(s.file, first);
    hide Inspect, SyncStep, Adopted, Verified, T.Good;
  }

  lemma InspectedMark(file: Option<string>, probe: Probe)
    ensures Inspect(file, probe).marked ==> file.Some? && Marked(file.value)
    ensures !Inspect(file, probe).error ==> file.Some? && Inspect(file, probe).marked == Marked(file.value)
  {
    hide Marked;
  }

  lemma AdoptedIsGood(w: World, db: Db, content: string)
    requires T.Good(db.sites)
    ensures T.Good(Adopted(w, db, content).sites)
  {
    hide T.Good, Import, ImportedBaseline;
  }

  lemma VerifiedIs(s: System, status: Status, last: Probe)
    ensures var t := Verified(s, status, last);
            && t.0.file == s.file && t.0.running == s.running && t.0.db.sites == s.db.sites
            && t.1 != AlreadyManaged
            && (t.1 == Onboarded <==>
              Successful(status) && !Inspect(s.file, last).error && Inspect(s.file, last).marked)
  {
    hide Inspect;
  }

  lemma SyncKeepsSites(w: World, s: System, force: bool, requireMarker: bool, x: Weather)
    ensures SyncStep(w, s, force, requireMarker, x).0.db.sites == s.db.sites
  {
    hide *;
    SyncStepIs(w, s, force, requireMarker, x);
    var rendered := Render(w, s, x.probe);
    if rendered.Some? {
      WithVersionKeeps(s.db, w.sha(rendered.value));
      DeployKeepsSites(w, s, rendered.value, x);
    }
  }

  lemma DeployKeepsSites(w: World, s: System, r: string, x: Weather)
    ensures Deploy(w, s, r, x).0.db.sites == s.db.sites
  {
    DeployIs(w, s, r, x);
    ReformatKeepsSites(System(Succeeded(WithVersion(s.db, w.sha(r)), w.sha(r)),
      Write(s.file, MarkerText() + r, x.write).0, Payload(w, r)), x);
    hide Deploy, Reformatted, Payload, IsBlank, MarkerText;
  }

  /**
   An onboarding that succeeds by synchronizing leaves a deployment in which the next unforced
   synchronization has nothing to do.
   */
  lemma OnboardedIsSettled(w: World, s: System, first: Probe, reachable: bool, x: Weather, last: Probe, y: Weather)
    requires T.Good(s.db.sites) && !x.formatWarning && y.probe == Accessible
    requires OnboardStep(w, s, first, reachable, x, last).1 == Onboarded
    ensures var t := OnboardStep(w, s, first, reachable, x, last).0;
            var u := SyncStep(w, t, false, true, y);
            u.1 == NoChange && u.0.file == t.file && u.0.running == t.running
  {
    hide *;
    OnboardIs(w, s, first, reachable, x, last);
    var adopted := s.(db := Adopted(w, s.db, s.file.value));
    var synced := SyncStep(w, adopted, true, false, x);
    VerifiedIs(synced.0, synced.1, last);
    SuccessfulIs(synced.1);
    ForcedIsNotNoChange(w, adopted, false, x);
    AdoptedIsStored(w, s);
    SecondSyncIsNoChange(w, adopted, true, false, x, y);
    ClearedError(w, adopted, x, synced.0, last, y);
  }

  lemma ForcedIsNotNoChange(w: World, s: System, requireMarker: bool, x: Weather)
    ensures SyncStep(w, s, true, requireMarker, x).1 != NoChange
  {
    hide *;
    SyncStepIs(w, s, true, requireMarker, x);
    if Render(w, s, x.probe).Some? {
      DeployAnswers(w, s, Render(w, s, x.probe).value, x);
    }
  }

  lemma AdoptedIsStored(w: World, s: System)
    requires T.Good(s.db.sites) && s.file.Some?
    ensures BaselineIsStored(s.(db := Adopted(w, s.db, s.file.value)))
  {
    hide T.Good, Import, ImportedBaseline, Marked;
  }

  /** Clearing the error once more changes nothing: a successful synchronization has cleared it. */
  lemma ClearedError(w: World, s: System, x: Weather, t: System, last: Probe, y: Weather)
    requires (t, Synced) == SyncStep(w, s, true, false, x) && !x.formatWarning
    requires Verified(t, Synced, last).1 == Onboarded
    ensures Verified(t, Synced, last).0 == t
  {
    hide Render, Strip, Inspect, Deploy, IsUpToDate;
    SyncStepIs(w, s, true, false, x);
    DeployedRows(w, s, Render(w, s, x.probe).value, x);
  }

  // ---------------------------------------------------------------- site requests are all or nothing

  /**
   A site create, update or delete through the API is all or nothing: on success the rows, the file
   and the running configuration are those of the changed database, otherwise all three are as
   they were.
   */
  lemma SiteRequestIsAllOrNothing(w: World, s: System, op: T.Op, x: Weather)
    requires T.Good(s.db.sites) && Reliable(x) && Coherent(w, s.file, s.running)
    ensures var t := MutateStep(w, s, op, x, true);
            if t.1 then
              && Mutated(w, s.db, op).Some?
              && var changed := s.(db := Mutated(w, s.db, op).value);
                 var rendered := Render(w, changed, x.probe);
                 && t.0.db.sites == T.Step(s.db.sites, op, w.urlOk)
                 && rendered.Some? && t.0.file == Some(MarkerText() + rendered.value)
                   && t.0.running == Payload(w, rendered.value)
            else t.0 == s
  {
    hide *;
    MutateIs(w, s, op, x, true);
    if Mutated(w, s.db, op).Some? {
      var changed := s.(db := Mutated(w, s.db, op).value);
      MutatedSites(w, s.db, op);
      SyncOutcome(w, changed, false, true, x);
      var status := SyncStep(w, changed, false, true, x).1;
      SuccessfulIs(status);
      if status == NoChange {
        NoChangeIsRunning(w, changed, false, true, x);
      }
    }
  }

  lemma MutateIs(w: World, s: System, op: T.Op, x: Weather, commits: bool)
    requires T.Good(s.db.sites)
    ensures var mutated, t := Mutated(w, s.db, op), MutateStep(w, s, op, x, commits);
            if mutated.None? then t == (s, false)
            else
              var synced := SyncStep(w, s.(db := mutated.value), false, true, x);
              && t.0.file == synced.0.file && t.0.running == synced.0.running
              && t.1 == (Successful(synced.1) && commits)
              && t.0.db == if t.1 then synced.0.db else s.db
  {
    hide T.Good, Mutated, SyncStep, Successful;
  }

  lemma MutatedSites(w: World, db: Db, op: T.Op)
    requires T.Good(db.sites)
    ensures T.AllStored(db.sites.rows)
    ensures Mutated(w, db, op).Some? ==> Mutated(w, db, op).value == db.(sites := T.Step(db.sites, op, w.urlOk))
  {
    T.GoodIsStored(db.sites);
    hide T.Good, T.Create, T.Update, T.Step, T.AllStored;
  }

  /**
   The one gap: when the synchronization deployed a new text and the commit fails, the rows are the
   old ones while the file and the runtime are the new ones.
   */
  lemma FailedCommit(w: World, s: System, op: T.Op, x: Weather)
    requires T.Good(s.db.sites) && Reliable(x) && Coherent(w, s.file, s.running)
    requires Mutated(w, s.db, op).Some?
    ensures var t := MutateStep(w, s, op, x, false);
            var changed := s.(db := Mutated(w, s.db, op).value);
            && !t.1 && t.0.db == s.db
            && (t.0 != s <==> SyncStep(w, changed, false, true, x).1 == Synced
                              && (s.file != Some(MarkerText() + Render(w, changed, x.probe).value)
                                  || s.running != Payload(w, Render(w, changed, x.probe).value)))
  {
    hide *;
    MutateIs(w, s, op, x, false);
    var changed := s.(db := Mutated(w, s.db, op).value);
    SyncOutcome(w, changed, false, true, x);
  }

  // ---------------------------------------------------------------- all runs

  datatype Action =
    | SyncNow(force: bool, x: Weather)
    | OnboardNow(first: Probe, reachable: bool, x: Weather, last: Probe)
    | Request(op: T.Op, x: Weather)
    | Edit(baseline: string, adminUrl: string, email: string)

  predicate ActsReliably(a: Action) {
    a.Edit? || Reliable(a.x)
  }

  /** One action in its own session; the database is what was committed last. */
  function Act(w: World, s: System, a: Action, commits: bool): System
    requires T.Good(s.db.sites)
  {
    match a
    case SyncNow(force, x) =>
      var t := SyncStep(w, s, force, true, x);
      Finish(s.db, t.0, Successful(t.1), commits)
    case OnboardNow(first, reachable, x, last) =>
      var t := OnboardStep(w, s, first, reachable, x, last);
      Finish(s.db, t.0, t.1 != NotOnboarded, commits)
    case Request(op, x) => MutateStep(w, s, op, x, commits).0
    case Edit(baseline, adminUrl, email) =>
      if commits then s.(db := s.db.(baseline := baseline, adminUrl := adminUrl, email := email)) else s
  }

  predicate Safe(w: World, s: System) {
    T.Good(s.db.sites) && Coherent(w, s.file, s.running)
  }

  lemma ActKeepsSafe(w: World, s: System, a: Action, commits: bool)
    requires Safe(w, s) && ActsReliably(a)
    ensures Safe(w, Act(w, s, a, commits))
  {
    hide T.Good, Coherent, SyncStep, OnboardStep, MutateStep, Mutated, Reliable, Successful, T.Step;
    match a
    case SyncNow(force, x) =>
      SyncKeepsCoherent(w, s, force, true, x);
      SyncKeepsSites(w, s, force, true, x);
    case OnboardNow(first, reachable, x, last) =>
      OnboardOutcome(w, s, first, reachable, x, last);
    case Request(op, x) =>
      MutateIs(w, s, op, x, commits);
      if Mutated(w, s.db, op).Some? {
        var changed := s.(db := Mutated(w, s.db, op).value);
        MutatedSites(w, s.db, op);
        T.StepKeepsGood(s.db.sites, op, w.urlOk);
        SyncKeepsCoherent(w, changed, false, true, x);
        SyncKeepsSites(w, changed, false, true, x);
      }
    case Edit(_, _, _) =>
  }

  datatype Turn = Turn(action: Action, commits: bool)

  function Run(w: World, s: System, turns: seq<Turn>): System
    requires Safe(w, s) && forall k :: 0 <= k < |turns| ==> ActsReliably(turns[k].action)
    decreases |turns|
  {
    if turns == [] then s
    else
      hide *;
      SafeIsGood(w, s);
      ActKeepsSafe(w, s, turns[0].action, turns[0].commits);
      Run(w, Act(w, s, turns[0].action, turns[0].commits), turns[1..])
  }

  lemma SafeIsGood(w: World, s: System)
    requires Safe(w, s)
    ensures T.Good(s.db.sites) && Coherent(w, s.file, s.running)
  {
    hide T.Good, Coherent;
  }

  /**
   In every run, with adapt, write, load and commit failing arbitrarily but reliably: a marked file
   always holds the marker and a text whose configuration is running, and no host name belongs to
   two sites.
   */
  lemma {:induction false} RunKeepsSafe(w: World, s: System, turns: seq<Turn>)
    requires Safe(w, s) && forall k :: 0 <= k < |turns| ==> ActsReliably(turns[k].action)
    ensures Safe(w, Run(w, s, turns))
    decreases |turns|
  {
    hide Safe, Act, ActsReliably;
    if turns != [] {
      SafeIsGood(w, s);
      ActKeepsSafe(w, s, turns[0].action, turns[0].commits);
      RunKeepsSafe(w, Act(w, s, turns[0].action, turns[0].commits), turns[1..]);
    }
  }

  /** A run takes its actions one after the other. */
  lemma {:induction false} RunLast(w: World, s: System, turns: seq<Turn>, last: Turn)
    requires Safe(w, s) && forall k :: 0 <= k < |turns| ==> ActsReliably(turns[k].action)
    requires ActsReliably(last.action)
    ensures Run(w, s, []) == s && Safe(w, Run(w, s, turns)) && T.Good(Run(w, s, turns).db.sites)
    ensures forall k :: 0 <= k < |turns + [last]| ==> ActsReliably((turns + [last])[k].action)
    ensures Run(w, s, turns + [last]) == Act(w, Run(w, s, turns), last.action, last.commits)
    decreases |turns|
  {
    hide Safe, Act, ActsReliably, T.Good;
    RunKeepsSafe(w, s, turns);
    SafeIsGood(w, Run(w, s, turns));
    SafeIsGood(w, s);
    if turns == [] {
      assert [] + [last] == [last] && [last][1..] == [];
      ActKeepsSafe(w, s, last.action, last.commits);
    } else {
      assert (turns + [last])[1..] == turns[1..] + [last];
      ActKeepsSafe(w, s, turns[0].action, turns[0].commits);
      RunLast(w, Act(w, s, turns[0].action, turns[0].commits), turns[1..], last);
    }
  }

  /** In every reachable deployment a "no_change" answer tells the truth about the running Caddy. */
  lemma NoChangeAfterAnyRun(w: World, s: System, turns: seq<Turn>, x: Weather)
    requires Safe(w, s) && forall k :: 0 <= k < |turns| ==> ActsReliably(turns[k].action)
    requires SyncStep(w, Run(w, s, turns), false, true, x).1 == NoChange
    ensures var t := Run(w, s, turns);
            var rendered := Render(w, t, x.probe);
            rendered.Some? && t.file == Some(MarkerText() + rendered.value) && t.running == Payload(w, rendered.value)
  {
    hide *;
    RunKeepsSafe(w, s, turns);
    var t := Run(w, s, turns);
    SafeIsGood(w, t);
    NoChangeIsRunning(w, t, false, true, x);
    SyncOutcome(w, t, false, true, x);
  }
}
