/**
 What the onboarding wizard keeps (app/services/caddy_onboarding.py): failed attempts give the
 Caddyfile back, and a completed wizard stands for a managed Caddyfile.
 */
module OnboardingSafety {
  import opened Text
  import opened Wrappers
  import opened Sync
  import opened SyncSafety
  import opened Onboarding
  import opened Enablement
  import T = Sites

  // ---------------------------------------------------------------- the parts of an execution

  /** The guards of `execute_onboarding` before it does anything. */
  predicate Starts(wizard: Wizard, confirmed: bool) {
    PreflightOk(wizard) && confirmed && wizard.mode.Some?
  }

  /** The guards behind the second preflight. */
  predicate Continues(checked: Wizard) {
    PreflightOk(checked) && (NeedsWritable(checked.mode) ==> checked.writable)
  }

  /** How an execution goes on. */
  lemma ExecuteIs(world: World, s: System, wizard: Wizard, confirmed: bool, a: Attempt)
    requires T.Good(s.db.sites)
    ensures var r := Execute(world, s, wizard, confirmed, a);
            if !Starts(wizard, confirmed) then r == (s, wizard, false)
            else
              var checked := Preflight(wizard, s.file, a.facts);
              if !PreflightOk(checked) then r == (s, checked, true)
              else if wizard.mode == Some(Missing) then
                r.0.file == s.file && r.0.running == s.running && r.0.db.sites == s.db.sites
                    && r.1 == MarkCompleted(checked) && r.2
              else if !Continues(checked) then r == (s, MarkFailed(checked, CleanupRequired, true), true)
              else if DeploysDefault(wizard.mode) then r == ExecuteDefault(world, s, wizard, checked, a)
              else
                var taken := TakeOver(world, s, checked, a);
                (r.0, r.1) == Conclude(taken.0, taken.1, checked, false, None, a) && r.2
  {
    if wizard.mode.Some? {
      PreflightKeeps(wizard, s.file, a.facts);
    }
    hide T.Good, Preflight, TakeOver, Conclude, MarkFailed, MarkCompleted, ExecuteDefault;
  }

  lemma PrepareIs(file: Option<string>, p: Preparation)
    ensures var r := Prepare(file, p);
            if r.2 then r.0 == p.content && r.0.Some? && r.1 == file else r.0 == file
  {
  }

  lemma ConcludeIs(s: System, done: bool, wizard: Wizard, prepared: bool, backup: Option<string>, a: Attempt)
    ensures var r := Conclude(s, done, wizard, prepared, backup, a);
            && r.0.running == s.running && r.0.db == s.db
            && r.0.file == (if !done && prepared && a.restored then backup else s.file)
            && (r.1.status == Completed <==> done) && (r.1.status == Stopped <==> !done) && r.1.mode == wizard.mode
  {
  }

  lemma StatusIs(wizard: Wizard, issue: Issue, confirmed: bool)
    ensures MarkFailed(wizard, issue, confirmed).status == Stopped
        && MarkFailed(wizard, issue, confirmed).mode == wizard.mode
    ensures MarkCompleted(wizard).status == Completed && MarkCompleted(wizard).mode == wizard.mode
  {
  }

  lemma PreflightStatus(wizard: Wizard, file: Option<string>, f: Facts)
    requires wizard.mode.Some?
    ensures var w := Preflight(wizard, file, f);
            && (w.status == InProgress || w.status == Stopped) && w.mode == wizard.mode
            && (w.status == InProgress <==> PreflightOk(w))
  {
    PreflightIs(wizard, file, f);
    hide FileIssues, DefaultIssues, ApiIssues, InspectPath, DeploysDefault, Preflight;
  }

  // ---------------------------------------------------------------- what a takeover leaves

  /** A takeover that does not succeed and whose file can be read back changed nothing on disk. */
  lemma NotOnboardedKeepsFile(w: World, s: System, first: Probe, reachable: bool, x: Weather, last: Probe)
    requires T.Good(s.db.sites) && Reliable(x) && last == Accessible
    ensures var t := OnboardStep(w, s, first, reachable, x, last);
            t.1 == NotOnboarded || t.1 == AlreadyManaged ==> t.0.file == s.file && t.0.running == s.running
  {
    hide *;
    OnboardIs(w, s, first, reachable, x, last);
    var seen := Inspect(s.file, first);
    if !seen.marked && !seen.error && reachable {
      var adopted := s.(db := Adopted(w, s.db, s.file.value));
      var synced := SyncStep(w, adopted, true, false, x);
      SyncOutcome(w, adopted, true, false, x);
      ForcedIsNotNoChange(w, adopted, false, x);
      VerifiedIs(synced.0, synced.1, last);
      SuccessfulIs(synced.1);
      if synced.1 == Synced {
        ReadBack(Render(w, adopted, x.probe).value, last);
      }
    }
  }

  lemma ReadBack(r: string, probe: Probe)
    requires probe == Accessible
    ensures var seen := Inspect(Some(MarkerText() + r), probe); !seen.error && seen.marked
  {
    MarkerIsSeen(r);
    hide Marked, MarkerText;
  }

  lemma OnboardedIsMarked(w: World, s: System, first: Probe, reachable: bool, x: Weather, last: Probe)
    requires T.Good(s.db.sites)
    ensures var t := OnboardStep(w, s, first, reachable, x, last);
            && (t.1 != NotOnboarded ==> t.0.file.Some? && Marked(t.0.file.value))
            && T.Good(t.0.db.sites)
  {
    hide *;
    OnboardIs(w, s, first, reachable, x, last);
    InspectedMark(s.file, first);
    OutcomeCases(OnboardStep(w, s, first, reachable, x, last).1);
    var seen := Inspect(s.file, first);
    if !seen.marked && !seen.error && reachable {
      var adopted := s.(db := Adopted(w, s.db, s.file.value));
      AdoptedIsGood(w, s.db, s.file.value);
      SyncKeepsSites(w, adopted, true, false, x);
      var synced := SyncStep(w, adopted, true, false, x);
      VerifiedIs(synced.0, synced.1, last);
      InspectedMark(synced.0.file, last);
    }
  }

  lemma OutcomeCases(o: Outcome)
    ensures o != NotOnboarded <==> o == Onboarded || o == AlreadyManaged
  {
  }

  lemma TakeOverIs(world: World, s: System, wizard: Wizard, a: Attempt)
    requires T.Good(s.db.sites)
    ensures var r := TakeOver(world, s, wizard, a);
            if !a.settingsOk then r == (s, false)
            else
              exists db: Db :: && db.sites == s.db.sites
                && var t := OnboardStep(world, s.(db := db), a.first, a.reachable, a.x, a.last);
                   && r.0.file == t.0.file && r.0.running == t.0.running && r.1 == (t.1 != NotOnboarded && a.released)
                   && r.0.db.sites == if r.1 then t.0.db.sites else s.db.sites
  {
    hide T.Good, OnboardStep;
    if a.settingsOk {
      var db := s.db.(adminUrl := wizard.adminUrl, email := if wizard.email == "" then s.db.email else wizard.email);
      var t := OnboardStep(world, s.(db := db), a.first, a.reachable, a.x, a.last);
      assert TakeOver(world, s, wizard, a).0.file == t.0.file;
    }
  }

  /** File, runtime and sites after a takeover. */
  lemma TakeOverOutcome(world: World, s: System, wizard: Wizard, a: Attempt)
    requires T.Good(s.db.sites)
    ensures var r := TakeOver(world, s, wizard, a);
            && (r.1 ==> r.0.file.Some? && Marked(r.0.file.value))
            && (Reliable(a.x) && Coherent(world, s.file, s.running) ==> Coherent(world, r.0.file, r.0.running))
            && (Reliable(a.x) && a.released && a.last == Accessible && !r.1 ==>
              r.0.file == s.file && r.0.running == s.running)
            && T.Good(r.0.db.sites)
  {
    hide *;
    TakeOverIs(world, s, wizard, a);
    if a.settingsOk {
      var db: Db :| && db.sites == s.db.sites
                    && var t := OnboardStep(world, s.(db := db), a.first, a.reachable, a.x, a.last);
                       var r := TakeOver(world, s, wizard, a);
                       && r.0.file == t.0.file && r.0.running == t.0.running
                         && r.1 == (t.1 != NotOnboarded && a.released)
                       && r.0.db.sites == if r.1 then t.0.db.sites else s.db.sites;
      var settled := s.(db := db);
      OnboardedIsMarked(world, settled, a.first, a.reachable, a.x, a.last);
      if Reliable(a.x) {
        OnboardOutcome(world, settled, a.first, a.reachable, a.x, a.last);
        if a.last == Accessible {
          NotOnboardedKeepsFile(world, settled, a.first, a.reachable, a.x, a.last);
        }
      }
    }
  }

  // ---------------------------------------------------------------- the default-config modes

  /** The wizard as the takeover in a default-config mode sees it, with the path of its backup noted. */
  function WithBackup(wizard: Wizard, file: Option<string>): (w: Wizard)
    ensures w.mode == wizard.mode
  {
    if file.Some? then wizard.(backup := file) else wizard
  }

  /** What an execution leaves that deploys the default config. */
  lemma DefaultCases(world: World, s: System, stored: Wizard, checked: Wizard, a: Attempt)
    requires T.Good(s.db.sites)
    ensures var r, prepared := ExecuteDefault(world, s, stored, checked, a), Prepare(s.file, a.prepare);
            if !prepared.2 then r.0 == s && r.1.status == Stopped && r.1.mode == checked.mode && r.2
            else if s.file.Some? && !a.prepare.noted then r == (s.(file := a.prepare.content), stored, false)
            else
              var taken := TakeOver(world, s.(file := a.prepare.content), WithBackup(checked, s.file), a);
              && r.0.db == taken.0.db && r.0.running == taken.0.running && r.2 && r.1.mode == checked.mode
              && r.0.file == (if !taken.1 && a.restored then s.file else taken.0.file)
              && (r.1.status == Completed <==> taken.1) && (r.1.status == Stopped <==> !taken.1)
  {
    PrepareIs(s.file, a.prepare);
    hide T.Good, Prepare, TakeOver, Conclude, MarkFailed;
    var noted := WithBackup(checked, s.file);
    StatusIs(checked, NotPrepared, true);
    var taken := TakeOver(world, s.(file := a.prepare.content), noted, a);
    ConcludeIs(taken.0, taken.1, noted, true, s.file, a);
  }

  /**
   In the modes that deploy the default config, an execution that ends failed leaves the Caddyfile
   text as it was, absent if it was absent, unless the restore itself fails.
   */
  lemma FailedExecutionKeepsFile(world: World, s: System, wizard: Wizard, confirmed: bool, a: Attempt)
    requires T.Good(s.db.sites) && DeploysDefault(wizard.mode) && a.restored
    ensures var r := Execute(world, s, wizard, confirmed, a);
            r.2 && r.1.status == Stopped ==> r.0.file == s.file
  {
    hide *;
    ExecuteIs(world, s, wizard, confirmed, a);
    if Starts(wizard, confirmed) {
      StartsIs(wizard, confirmed);
      DefaultIsNotMissing(wizard.mode);
      DefaultCases(world, s, wizard, Preflight(wizard, s.file, a.facts), a);
    }
  }

  lemma DefaultIsNotMissing(mode: Option<Mode>)
    requires DeploysDefault(mode)
    ensures mode != Some(Missing) && NeedsWritable(mode)
  {
  }

  /** If the path of the backup cannot be saved, the execution raises and leaves the default config on disk. */
  lemma UnnotedBackup(world: World, s: System, wizard: Wizard, a: Attempt)
    requires T.Good(s.db.sites) && DeploysDefault(wizard.mode) && Starts(wizard, true) && wizard.mode.Some?
    requires Continues(Preflight(wizard, s.file, a.facts))
    requires s.file.Some? && Prepare(s.file, a.prepare).2 && !a.prepare.noted
    ensures Execute(world, s, wizard, true, a) == (s.(file := a.prepare.content), wizard, false)
  {
    hide *;
    ExecuteIs(world, s, wizard, true, a);
    DefaultIsNotMissing(wizard.mode);
    ContinuesIs(Preflight(wizard, s.file, a.facts));
    DefaultCases(world, s, wizard, Preflight(wizard, s.file, a.facts), a);
  }

  lemma ContinuesIs(checked: Wizard)
    requires Continues(checked)
    ensures PreflightOk(checked)
  {
    hide PreflightOk, NeedsWritable;
  }

  // ---------------------------------------------------------------- completion and coherence

  /** "completed" in any mode but "missing" is reached only with a marked Caddyfile. */
  lemma CompletedIsMarked(world: World, s: System, wizard: Wizard, confirmed: bool, a: Attempt)
    requires T.Good(s.db.sites) && wizard.status != Completed
    ensures var r := Execute(world, s, wizard, confirmed, a);
            && r.1.mode == wizard.mode && T.Good(r.0.db.sites)
            && (r.1.status == Completed && r.1.mode != Some(Missing) ==> r.0.file.Some? && Marked(r.0.file.value))
  {
    hide *;
    ExecuteIs(world, s, wizard, confirmed, a);
    if Starts(wizard, confirmed) {
      StartsIs(wizard, confirmed);
      var checked := Preflight(wizard, s.file, a.facts);
      PreflightStatus(wizard, s.file, a.facts);
      StatusIs(checked, CleanupRequired, true);
      if DeploysDefault(wizard.mode) {
        DefaultOutcome(world, s, wizard, checked, a);
      } else {
        PlainOutcome(world, s, checked, a);
      }
    }
  }

  lemma StartsIs(wizard: Wizard, confirmed: bool)
    requires Starts(wizard, confirmed)
    ensures wizard.mode.Some? && wizard.status == InProgress
  {
  }

  predicate StarterIsUnmarked(a: Attempt) {
    a.prepare.content.Some? ==> !Marked(a.prepare.content.value)
  }

  /** A marked file is given back only while nothing can fail once Caddy was reconfigured. */
  predicate RollsBackSafely(file: Option<string>, a: Attempt) {
    file.Some? && Marked(file.value) && a.restored ==> a.released && a.last == Accessible
  }

  lemma PlainOutcome(world: World, s: System, checked: Wizard, a: Attempt)
    requires T.Good(s.db.sites)
    ensures var taken := TakeOver(world, s, checked, a);
            var r := Conclude(taken.0, taken.1, checked, false, None, a);
            && r.1.mode == checked.mode && T.Good(r.0.db.sites)
            && (r.1.status == Completed ==> r.0.file.Some? && Marked(r.0.file.value))
            && (Reliable(a.x) && Coherent(world, s.file, s.running) ==> Coherent(world, r.0.file, r.0.running))
  {
    hide *;
    TakeOverOutcome(world, s, checked, a);
    var taken := TakeOver(world, s, checked, a);
    ConcludeIs(taken.0, taken.1, checked, false, None, a);
  }

  lemma DefaultOutcome(world: World, s: System, stored: Wizard, checked: Wizard, a: Attempt)
    requires T.Good(s.db.sites) && stored.status != Completed && stored.mode == checked.mode
    ensures var r := ExecuteDefault(world, s, stored, checked, a);
            && r.1.mode == checked.mode && T.Good(r.0.db.sites)
            && (r.1.status == Completed ==> r.0.file.Some? && Marked(r.0.file.value))
            && (Reliable(a.x) && StarterIsUnmarked(a) && RollsBackSafely(s.file, a)
                && Coherent(world, s.file, s.running) ==>
                  Coherent(world, r.0.file, r.0.running))
  {
    hide *;
    DefaultCases(world, s, stored, checked, a);
    PrepareIs(s.file, a.prepare);
    if Prepare(s.file, a.prepare).2 {
      if StarterIsUnmarked(a) {
        StarterIsCoherent(world, a, s.running);
      }
      if !(s.file.Some? && !a.prepare.noted) {
        TakeOverOutcome(world, s.(file := a.prepare.content), WithBackup(checked, s.file), a);
        RollsBackIs(s.file, a);
        if s.file.None? || !Marked(s.file.value) {
          UnmarkedIsCoherent(world, s.file, ExecuteDefault(world, s, stored, checked, a).0.running);
        }
      }
    }
  }

  lemma RollsBackIs(file: Option<string>, a: Attempt)
    ensures RollsBackSafely(file, a) <==> (file.Some? && Marked(file.value) && a.restored ==>
        a.released && a.last == Accessible)
  {
    hide Marked;
  }

  lemma StarterIsCoherent(w: World, a: Attempt, running: Config)
    requires StarterIsUnmarked(a)
    ensures Coherent(w, a.prepare.content, running)
  {
    hide Marked, MarkerText, Payload;
  }

  lemma UnmarkedIsCoherent(w: World, file: Option<string>, running: Config)
    requires file.None? || !Marked(file.value)
    ensures Coherent(w, file, running)
  {
    hide Marked, MarkerText, Payload;
  }

  /** An execution keeps file and runtime in agreement. */
  lemma ExecuteKeepsCoherent(world: World, s: System, wizard: Wizard, confirmed: bool, a: Attempt)
    requires T.Good(s.db.sites) && Coherent(world, s.file, s.running) && wizard.status != Completed
    requires Reliable(a.x) && StarterIsUnmarked(a) && RollsBackSafely(s.file, a)
    ensures var r := Execute(world, s, wizard, confirmed, a); Coherent(world, r.0.file, r.0.running)
  {
    hide *;
    ExecuteIs(world, s, wizard, confirmed, a);
    if Starts(wizard, confirmed) {
      StartsIs(wizard, confirmed);
      var checked := Preflight(wizard, s.file, a.facts);
      PreflightStatus(wizard, s.file, a.facts);
      if DeploysDefault(wizard.mode) {
        DefaultOutcome(world, s, wizard, checked, a);
      } else {
        PlainOutcome(world, s, checked, a);
      }
    }
  }

  // ---------------------------------------------------------------- when a rollback breaks the agreement

  /** The rows the takeover synchronizes with, once its settings are stored and the file adopted. */
  function AdoptedSystem(world: World, s: System, wizard: Wizard): System
    requires T.Good(s.db.sites) && s.file.Some?
  {
    var settings := s.db.(adminUrl := wizard.adminUrl,
      email := if wizard.email == "" then s.db.email else wizard.email);
    s.(db := Adopted(world, settings, s.file.value))
  }

  /** The takeover of an unmarked file reached its synchronization, and that deployed a new text. */
  predicate Synchronized(world: World, s: System, wizard: Wizard, a: Attempt)
    requires T.Good(s.db.sites) && s.file.Some?
  {
    && a.settingsOk && a.first == Accessible && a.reachable
    && SyncStep(world, AdoptedSystem(world, s, wizard), true, false, a.x).1 == Synced
  }

  /** The configuration Caddy runs after a takeover of an unmarked file. */
  lemma TakenRuns(world: World, s: System, wizard: Wizard, a: Attempt)
    requires T.Good(s.db.sites) && s.file.Some? && !Marked(s.file.value) && Reliable(a.x)
    ensures var taken := TakeOver(world, s, wizard, a);
            && taken.0.running == (if Synchronized(world, s, wizard, a)
                                   then SyncStep(world, AdoptedSystem(world, s, wizard), true, false, a.x).0.running
                                     else s.running)
            && (taken.1 <==> Synchronized(world, s, wizard, a) && a.released && a.last == Accessible)
  {
    hide *;
    var settings := s.db.(adminUrl := wizard.adminUrl,
      email := if wizard.email == "" then s.db.email else wizard.email);
    var adopted := AdoptedSystem(world, s, wizard);
    TakenIs(world, s, wizard, a);
    SynchronizedIs(world, s, wizard, a);
    if a.settingsOk {
      var start := s.(db := settings);
      OnboardIs(world, start, a.first, a.reachable, a.x, a.last);
      OutcomeCases(OnboardStep(world, start, a.first, a.reachable, a.x, a.last).1);
      AccessibleIs(s.file, a.first);
      if a.first == Accessible && a.reachable {
        var synced := SyncStep(world, adopted, true, false, a.x);
        SyncOutcome(world, adopted, true, false, a.x);
        ForcedIsNotNoChange(world, adopted, false, a.x);
        VerifiedIs(synced.0, synced.1, a.last);
        SuccessfulIs(synced.1);
        if synced.1 == Synced {
          WrittenIsRead(Render(world, adopted, a.x.probe).value, a.last);
        }
      }
    }
  }

  lemma WrittenIsRead(r: string, probe: Probe)
    ensures !Inspect(Some(MarkerText() + r), probe).error && Inspect(Some(MarkerText() + r), probe).marked <==>
        probe == Accessible
  {
    MarkerIsSeen(r);
    hide Marked, MarkerText;
  }

  lemma AccessibleIs(file: Option<string>, probe: Probe)
    requires file.Some? && !Marked(file.value)
    ensures !Inspect(file, probe).marked && (!Inspect(file, probe).error <==> probe == Accessible)
  {
    hide Marked;
  }

  lemma TakenIs(world: World, s: System, wizard: Wizard, a: Attempt)
    requires T.Good(s.db.sites) && s.file.Some?
    ensures var settings := s.db.(adminUrl := wizard.adminUrl,
        email := if wizard.email == "" then s.db.email else wizard.email);
            var taken := TakeOver(world, s, wizard, a);
            && T.Good(settings.sites)
            && AdoptedSystem(world, s, wizard) == s.(db := Adopted(world, settings, s.file.value))
            && if !a.settingsOk then taken == (s, false)
               else
                 var t := OnboardStep(world, s.(db := settings), a.first, a.reachable, a.x, a.last);
                 taken.0.running == t.0.running && taken.1 == (t.1 != NotOnboarded && a.released)
  {
    hide T.Good, OnboardStep, Adopted;
  }

  lemma SynchronizedIs(world: World, s: System, wizard: Wizard, a: Attempt)
    requires T.Good(s.db.sites) && s.file.Some?
    ensures Synchronized(world, s, wizard, a) <==>
              && a.settingsOk && a.first == Accessible && a.reachable
              && SyncStep(world, AdoptedSystem(world, s, wizard), true, false, a.x).1 == Synced
  {
    hide T.Good, SyncStep, AdoptedSystem;
  }

  /**
   The rollback over a managed file, exactly: the old text is back, and it agrees with the running
   Caddy if and only if the failed takeover did not deploy its text or that text gives the
   configuration that ran before. A takeover that deployed and failed has failed behind the load: in
   its last inspection or at the release of its savepoint.
   */
  lemma RollbackAgreement(world: World, s: System, stored: Wizard, checked: Wizard, a: Attempt)
    requires T.Good(s.db.sites) && Reliable(a.x) && StarterIsUnmarked(a)
    requires s.file.Some? && Marked(s.file.value) && Coherent(world, s.file, s.running)
    requires Prepare(s.file, a.prepare).2 && a.prepare.noted && a.restored
    requires !TakeOver(world, s.(file := a.prepare.content), WithBackup(checked, s.file), a).1
    ensures a.prepare.content.Some?
    ensures var start, wizard := s.(file := a.prepare.content), WithBackup(checked, s.file);
            var r := ExecuteDefault(world, s, stored, checked, a);
            var deployed := Synchronized(world, start, wizard, a);
            && r.0.file == s.file
            && (Coherent(world, r.0.file, r.0.running) <==>
                  !deployed || SyncStep(world, AdoptedSystem(world, start, wizard), true, false, a.x).0.running ==
                      s.running)
            && (deployed ==> !a.released || a.last != Accessible)
  {
    hide *;
    PrepareIs(s.file, a.prepare);
    var start, wizard := s.(file := a.prepare.content), WithBackup(checked, s.file);
    DefaultCases(world, s, stored, checked, a);
    StarterIs(a);
    TakenRuns(world, start, wizard, a);
    SameMarkedFile(world, s.file.value, s.running, ExecuteDefault(world, s, stored, checked, a).0.running);
  }

  lemma StarterIs(a: Attempt)
    requires StarterIsUnmarked(a) && a.prepare.content.Some?
    ensures !Marked(a.prepare.content.value)
  {
    hide Marked;
  }

  /** A marked file agrees with one configuration only. */
  lemma SameMarkedFile(w: World, file: string, running: Config, other: Config)
    requires Marked(file) && Coherent(w, Some(file), running)
    ensures Coherent(w, Some(file), other) <==> other == running
  {
    hide Marked, MarkerText, Payload;
  }

  /**
   The failing run: the default config replaced a managed file, Caddy was loaded with a different
   configuration, and then the savepoint could not be released. The old text is back on disk, marked,
   and no longer what Caddy runs.
   */
  lemma RollbackDisagrees(world: World, s: System, stored: Wizard, checked: Wizard, a: Attempt)
    requires T.Good(s.db.sites) && Reliable(a.x) && StarterIsUnmarked(a)
    requires s.file.Some? && Marked(s.file.value) && Coherent(world, s.file, s.running)
    requires Prepare(s.file, a.prepare).2 && a.prepare.noted && a.restored && !a.released
    requires a.prepare.content.Some?
    requires var start := s.(file := a.prepare.content);
             && Synchronized(world, start, WithBackup(checked, s.file), a)
             && SyncStep(world, AdoptedSystem(world, start, WithBackup(checked, s.file)), true, false, a.x).0.running !=
               s.running
    ensures var r := ExecuteDefault(world, s, stored, checked, a);
            r.0.file == s.file && !Coherent(world, r.0.file, r.0.running)
  {
    hide *;
    StarterIs(a);
    TakenRuns(world, s.(file := a.prepare.content), WithBackup(checked, s.file), a);
    RollbackAgreement(world, s, stored, checked, a);
  }

  // ---------------------------------------------------------------- assisted enablement

  /**
   When the assisted enablement gives the Caddyfile back: exactly when the rewrite failed or changed
   nothing, or else the restart failed, the API stayed unreachable or the second preflight raised, and
   the restore succeeded. In all those failures the wizard ends failed.
   */
  lemma FailedEnablementKeepsFile(file: Option<string>, wizard: Wizard, e: Assist)
    requires MayEnable(wizard, e) && !e.reachableBefore
    ensures var r, rewritten := Enable(file, wizard, e), Rewritten(file, e);
            var answers := e.restarts && Answers(e.polls) && !e.raises;
            && (r.0 == file <==> !rewritten.1 || rewritten.0.caddyfile == file || (!answers && e.restored))
            && (!rewritten.1 || !answers ==> r.1.status == Stopped && r.2)
  {
    RewrittenBackup(file, e);
    hide Answers, Rewritten, Preflight;
  }

  /**
   Once the API answers and the second preflight has run, the rewritten Caddyfile stays, even if
   that preflight finds an issue and the wizard ends failed.
   */
  lemma EnablementStays(file: Option<string>, wizard: Wizard, e: Assist)
    requires MayEnable(wizard, e) && !e.reachableBefore && Rewritten(file, e).1
    requires e.restarts && Answers(e.polls) && !e.raises
    ensures var r := Enable(file, wizard, e);
            && r.0 == Rewritten(file, e).0.caddyfile && r.0.Some?
            && (r.1.status == Stopped <==> Issues(wizard.mode.value, e.facts, InspectPath(true, e.facts, false)) != [])
  {
    PreflightIs(wizard, Rewritten(file, e).0.caddyfile, e.facts);
    RewrittenBackup(file, e);
    hide Answers, Rewritten, Preflight, ApiIssues, FileIssues, DefaultIssues, InspectPath;
  }

  // ---------------------------------------------------------------- all wizard runs

  /** A preflight does not look at the status it finds: it can reopen a completed wizard. */
  lemma PreflightReopens(wizard: Wizard, file: Option<string>, f: Facts)
    requires wizard.mode.Some? && wizard.status == Completed
    ensures var w := Preflight(wizard, file, f);
            && w.status != Completed
            && (PreflightOk(w) <==> Issues(wizard.mode.value, f,
              InspectPath(file.Some?, f, DeploysDefault(wizard.mode))) == [])
  {
    PreflightIs(wizard, file, f);
    hide Preflight, ApiIssues, FileIssues, DefaultIssues, InspectPath;
  }

  datatype Step =
    | Start(mode: Mode)
    | Choose
    | Check(facts: Facts)
    | TryExecute(confirmed: bool, a: Attempt)
    | TryEnable(e: Assist)
    | Reset
    | Deploy(action: Action, commits: bool)

  /** `_reset_preflight_state`. */
  function Cleared(w: Wizard): Wizard {
    w.(ran := false, passed := false, issues := [], completedAt := false, confirmed := false, backup := None,
      writable := false, apiOnly := false)
  }

  /** One step of the wizard, or one action on the deployment; a step that raises stores nothing. */
  function Take(world: World, s: System, w: Wizard, step: Step): (System, Wizard)
    requires T.Good(s.db.sites)
  {
    match step
    case Start(mode) => (s, if w.status == Completed then w else Cleared(w).(status := InProgress, mode := Some(mode)))
    case Choose => (s, if w.status == Completed then w else Cleared(w).(status := NotStarted, mode := None))
    case Check(facts) => (s, if w.mode.None? then w else Preflight(w, s.file, facts))
    case TryExecute(confirmed, a) => var r := Execute(world, s, w, confirmed, a); (r.0, r.1)
    case TryEnable(e) => var r := Enable(s.file, w, e);
      (s.(file := r.0, running := RunsAfter(world, s.file, s.running, w, e)), r.1)
    case Reset => (s, InitialWizard())
    case Deploy(action, commits) => (Act(world, s, action, commits), w)
  }

  predicate IsMarked(file: Option<string>) {
    file.Some? && Marked(file.value)
  }

  /** A completed wizard stands for a managed Caddyfile, or for a Caddy that was not there yet. */
  predicate Kept(s: System, w: Wizard) {
    T.Good(s.db.sites) && (w.status == Completed ==> w.mode == Some(Missing) || IsMarked(s.file))
  }

  lemma KeptIs(s: System, w: Wizard)
    ensures Kept(s, w) <==>
        T.Good(s.db.sites) && (w.status == Completed ==> w.mode == Some(Missing) || IsMarked(s.file))
  {
    hide T.Good, IsMarked;
  }

  lemma IsMarkedIs(file: Option<string>)
    ensures IsMarked(file) <==> file.Some? && Marked(file.value)
  {
    hide Marked;
  }

  lemma WizardStepKeeps(world: World, s: System, w: Wizard, step: Step)
    requires Kept(s, w) && !step.TryExecute? && !step.Deploy?
    ensures Kept(Take(world, s, w, step).0, Take(world, s, w, step).1)
    ensures !step.TryEnable? ==> Take(world, s, w, step).0 == s
  {
    hide T.Good, IsMarked, Execute, Preflight, Act, Enable;
    match step
    case Check(facts) => if w.mode.Some? { PreflightStatus(w, s.file, facts); }
    case TryEnable(e) => EnableCompletes(s.file, w, e);
    case _ =>
  }

  lemma ExecuteStepKeeps(world: World, s: System, w: Wizard, confirmed: bool, a: Attempt)
    requires Kept(s, w) && T.Good(s.db.sites)
    ensures var r := Execute(world, s, w, confirmed, a);
            && Kept(r.0, r.1)
            && (Coherent(world, s.file, s.running) && Reliable(a.x) && StarterIsUnmarked(a)
                && RollsBackSafely(s.file, a) ==>
                  Coherent(world, r.0.file, r.0.running))
  {
    hide *;
    var r := Execute(world, s, w, confirmed, a);
    KeptIs(s, w);
    KeptIs(r.0, r.1);
    IsMarkedIs(r.0.file);
    if w.status != Completed {
      CompletedIsMarked(world, s, w, confirmed, a);
      if Coherent(world, s.file, s.running) && Reliable(a.x) && StarterIsUnmarked(a) && RollsBackSafely(s.file, a) {
        ExecuteKeepsCoherent(world, s, w, confirmed, a);
      }
    } else {
      CompletedRefuses(world, s, w, confirmed, a);
    }
  }

  /** Actions on the deployment never take the marker off the file. */
  lemma ActKeepsMark(world: World, s: System, action: Action, commits: bool)
    requires T.Good(s.db.sites) && ActsReliably(action)
    ensures var t := Act(world, s, action, commits);
            T.Good(t.db.sites) && (IsMarked(s.file) ==> IsMarked(t.file))
  {
    hide *;
    ActIs(world, s, action, commits);
    IsMarkedIs(s.file);
    IsMarkedIs(Act(world, s, action, commits).file);
    match action
    case SyncNow(force, x) =>
      SyncKeepsMark(world, s, force, x);
    case OnboardNow(first, reachable, x, last) =>
      OnboardedIsMarked(world, s, first, reachable, x, last);
      OnboardIs(world, s, first, reachable, x, last);
      InspectedMark(s.file, first);
    case Request(op, x) =>
      MutateIs(world, s, op, x, commits);
      if Mutated(world, s.db, op).Some? {
        var changed := s.(db := Mutated(world, s.db, op).value);
        MutatedSites(world, s.db, op);
        T.StepKeepsGood(s.db.sites, op, world.urlOk);
        SyncKeepsMark(world, changed, false, x);
      }
    case Edit(_, _, _) =>
  }

  lemma SyncKeepsMark(world: World, s: System, force: bool, x: Weather)
    requires Reliable(x)
    ensures var t := SyncStep(world, s, force, true, x).0;
            t.db.sites == s.db.sites && (IsMarked(s.file) ==> IsMarked(t.file))
  {
    hide *;
    SyncOutcome(world, s, force, true, x);
    SyncKeepsSites(world, s, force, true, x);
    var rendered := Render(world, s, x.probe);
    IsMarkedIs(SyncStep(world, s, force, true, x).0.file);
    if rendered.Some? {
      MarkerIsSeen(rendered.value);
    }
  }

  lemma ActIs(world: World, s: System, action: Action, commits: bool)
    requires T.Good(s.db.sites)
    ensures var t := Act(world, s, action, commits);
            match action
            case SyncNow(force, x) =>
              var r := SyncStep(world, s, force, true, x);
              t.file == r.0.file && t.running == r.0.running && (t.db == s.db || t.db == r.0.db)
            case OnboardNow(first, reachable, x, last) =>
              var r := OnboardStep(world, s, first, reachable, x, last);
              t.file == r.0.file && t.running == r.0.running && (t.db == s.db || t.db == r.0.db)
            case Request(op, x) => t == MutateStep(world, s, op, x, commits).0
            case Edit(_, _, _) => t.file == s.file && t.running == s.running && t.db.sites == s.db.sites
    ensures action.Request? || action.Edit? || action.SyncNow? || action.OnboardNow?
    ensures ActsReliably(action) && !action.Edit? ==> Reliable(action.x)
  {
    hide T.Good, SyncStep, OnboardStep, MutateStep, Reliable;
  }

  /** A step after which file and runtime still agree, given that they did before. */
  ghost predicate AgreesAfter(world: World, s: System, w: Wizard, step: Step) {
    match step
    case TryExecute(_, a) => Reliable(a.x) && StarterIsUnmarked(a) && RollsBackSafely(s.file, a)
    case TryEnable(e) => IgnoresMarker(world) && HasPlainSettings(e) && EnablesInAgreement(world, s, w, e)
    case Deploy(action, _) => ActsReliably(action)
    case _ => true
  }

  lemma TakeKeeps(world: World, s: System, w: Wizard, step: Step)
    requires Kept(s, w) && T.Good(s.db.sites) && (step.Deploy? ==> ActsReliably(step.action))
    ensures var t := Take(world, s, w, step);
            && Kept(t.0, t.1)
            && (Safe(world, s) && AgreesAfter(world, s, w, step) ==> Safe(world, t.0))
  {
    hide *;
    SafeIs(world, s);
    AgreesIs(world, s, w, step);
    var t := Take(world, s, w, step);
    SafeIs(world, t.0);
    KeptIs(s, w);
    KeptIs(t.0, t.1);
    match step
    case TryExecute(confirmed, a) =>
      TakeExecute(world, s, w, confirmed, a);
      ExecuteStepKeeps(world, s, w, confirmed, a);
    case Deploy(action, commits) =>
      TakeDeploy(world, s, w, action, commits);
      ActKeepsMark(world, s, action, commits);
      if Safe(world, s) {
        ActKeepsSafe(world, s, action, commits);
      }
    case TryEnable(e) =>
      WizardStepKeeps(world, s, w, step);
      TakeEnable(world, s, w, e);
      if Safe(world, s) && AgreesAfter(world, s, w, step) {
        CoherentIsWellMarked(world, s.file, s.running);
        EnableAgreement(world, s, w, e);
      }
    case _ => WizardStepKeeps(world, s, w, step);
  }

  lemma TakeEnable(world: World, s: System, w: Wizard, e: Assist)
    requires T.Good(s.db.sites)
    ensures var t := Take(world, s, w, TryEnable(e)).0;
            t.file == Enable(s.file, w, e).0 && t.running == RunsAfter(world, s.file, s.running, w, e) && t.db == s.db
  {
    hide T.Good, Enable, RunsAfter;
  }

  lemma SafeIs(world: World, s: System)
    ensures Safe(world, s) <==> T.Good(s.db.sites) && Coherent(world, s.file, s.running)
  {
    hide T.Good, Coherent;
  }

  lemma AgreesIs(world: World, s: System, w: Wizard, step: Step)
    ensures AgreesAfter(world, s, w, step) <==>
              match step
              case TryExecute(_, a) => Reliable(a.x) && StarterIsUnmarked(a) && RollsBackSafely(s.file, a)
              case TryEnable(e) => IgnoresMarker(world) && HasPlainSettings(e) && EnablesInAgreement(world, s, w, e)
              case Deploy(action, _) => ActsReliably(action)
              case _ => true
  {
    hide Reliable, StarterIsUnmarked, RollsBackSafely, ActsReliably, IgnoresMarker, HasPlainSettings,
      EnablesInAgreement;
  }

  lemma TakeExecute(world: World, s: System, w: Wizard, confirmed: bool, a: Attempt)
    requires T.Good(s.db.sites)
    ensures var r := Execute(world, s, w, confirmed, a); Take(world, s, w, TryExecute(confirmed, a)) == (r.0, r.1)
  {
    hide T.Good, Execute;
  }

  lemma TakeDeploy(world: World, s: System, w: Wizard, action: Action, commits: bool)
    requires T.Good(s.db.sites)
    ensures Take(world, s, w, Deploy(action, commits)) == (Act(world, s, action, commits), w)
  {
    hide T.Good, Act;
  }

  lemma CompletedRefuses(world: World, s: System, w: Wizard, confirmed: bool, a: Attempt)
    requires T.Good(s.db.sites) && w.status == Completed
    ensures Execute(world, s, w, confirmed, a) == (s, w, false)
  {
    ExecuteIs(world, s, w, confirmed, a);
    hide T.Good, Execute, ExecuteDefault, Preflight, TakeOver;
  }

  lemma EnableCompletes(file: Option<string>, w: Wizard, e: Assist)
    ensures var r := Enable(file, w, e);
            if w.status == Completed then r == (file, w, false) else r.1.status != Completed
  {
    if MayAssist(w.mode) {
      PreflightStatus(w, file, e.facts);
      PreflightStatus(w, Rewritten(file, e).0.caddyfile, e.facts);
    }
    hide Answers, Rewritten, Preflight;
  }

  /** Consecutive states of a deployment and its wizard. */
  predicate IsRun(world: World, states: seq<(System, Wizard)>, steps: seq<Step>) {
    && |states| == |steps| + 1
    && forall k :: 0 <= k < |steps| && T.Good(states[k].0.db.sites) ==>
         states[k + 1] == Take(world, states[k].0, states[k].1, steps[k])
  }

  predicate DeploysReliably(steps: seq<Step>) {
    forall k :: 0 <= k < |steps| && steps[k].Deploy? ==> ActsReliably(steps[k].action)
  }

  ghost predicate AllAgree(world: World, states: seq<(System, Wizard)>, steps: seq<Step>)
    requires |states| == |steps| + 1
  {
    forall k :: 0 <= k < |steps| ==> AgreesAfter(world, states[k].0, states[k].1, steps[k])
  }

  /**
   In every run of the wizard and of actions on the deployment, a completed wizard stands for a
   managed Caddyfile. With reliable failures, rollbacks and enablements that end in agreement, file and
   runtime agree throughout and no host name belongs to two sites.
   */
  lemma {:induction false} RunKeepsKept(world: World, states: seq<(System, Wizard)>, steps: seq<Step>)
    requires IsRun(world, states, steps) && Kept(states[0].0, states[0].1) && DeploysReliably(steps)
    ensures forall k :: 0 <= k < |states| ==> Kept(states[k].0, states[k].1)
    ensures Safe(world, states[0].0) && AllAgree(world, states, steps) ==>
        forall k :: 0 <= k < |states| ==> Safe(world, states[k].0)
  {
    hide Kept, Safe, Take, AgreesAfter, ActsReliably, T.Good;
    if steps != [] {
      var n := |steps| - 1;
      var before := states[..n + 1];
      RunKeepsKept(world, before, steps[..n]);
      assert before[n] == states[n] && before[0] == states[0];
      KeptIs(states[n].0, states[n].1);
      TakeKeeps(world, states[n].0, states[n].1, steps[n]);
      forall k | 0 <= k < |states| ensures Kept(states[k].0, states[k].1) {
        if k <= n { assert before[k] == states[k]; }
      }
      if Safe(world, states[0].0) && AllAgree(world, states, steps) {
        assert AllAgree(world, before, steps[..n]);
        forall k | 0 <= k < |states| ensures Safe(world, states[k].0) {
          assert Safe(world, before[n].0);
          if k <= n { assert before[k] == states[k]; }
        }
      }
    }
  }
}
