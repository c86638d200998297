/**
 The onboarding wizard (app/services/caddy_onboarding.py): preflight, execution with its file
 rollback, and the assisted enablement of Caddy's Admin API.
 */
module Onboarding {
  import opened Text
  import opened Wrappers
  import opened Sync
  import G = GlobalOptions
  import T = Sites

  datatype Mode = Host | Docker | Missing | ExistingConfig | Unconfigured | DefaultConfig

  datatype WizardStatus = NotStarted | InProgress | Stopped | Completed

  datatype Issue =
    | BadUrl | BadEmail | BadPath | Unreachable | WrongVersion | ConfigUnreadable
    | FileUnusable | FileUnwritable | NoDefaultConfig | CleanupRequired | NotPrepared | NotExecuted | NotEnabled

  /** The wizard's stored state. */
  datatype Wizard = Wizard(
    status: WizardStatus, mode: Option<Mode>, adminUrl: string, email: string, ran: bool, passed: bool,
    issues: seq<Issue>, completedAt: bool, confirmed: bool, backup: Option<string>, writable: bool, apiOnly: bool)

  function InitialWizard(): Wizard {
    Wizard(NotStarted, None, "http://localhost:2019", "", false, false, [], false, false, None, false, false)
  }

  predicate DeploysDefault(mode: Option<Mode>) {
    mode == Some(Unconfigured) || mode == Some(DefaultConfig)
  }

  predicate NeedsWritable(mode: Option<Mode>) {
    mode == Some(Host) || mode == Some(ExistingConfig) || DeploysDefault(mode)
  }

  predicate MayAssist(mode: Option<Mode>) {
    mode == Some(Host) || mode == Some(ExistingConfig)
  }

  /** `preflight_ok`. */
  predicate PreflightOk(w: Wizard) {
    w.status == InProgress && w.ran && w.issues == []
  }

  // ---------------------------------------------------------------- preflight

  /** What the preflight finds out about the world. `version` is None when none is reported. */
  datatype Facts = Facts(
    adminUrl: string, urlValid: bool, email: string, emailValid: bool, pathValid: bool,
    reachable: bool, versionIsTwo: Option<bool>, configReadable: bool,
    parentWritable: bool, regular: bool, readable: bool, writable: bool, defaultExists: bool, defaultReadable: bool)

  /** `_inspect_caddyfile_path`: readable, writable, and whether there is an error. */
  function InspectPath(present: bool, f: Facts, allowCreate: bool): (bool, bool, bool) {
    if !f.pathValid then (false, false, true)
    else if !present then (false, allowCreate && f.parentWritable, !(allowCreate && f.parentWritable))
    else if !f.regular || !f.readable then (false, false, true)
    else (true, f.writable, !f.writable)
  }

  function FileIssues(mode: Mode, inspected: (bool, bool, bool)): seq<Issue> {
    if !inspected.2 || mode == Docker || mode == Missing then []
    else if mode == ExistingConfig && inspected.0 then [FileUnwritable]
    else [FileUnusable]
  }

  function DefaultIssues(mode: Mode, f: Facts): seq<Issue> {
    if DeploysDefault(Some(mode)) && !(f.defaultExists && f.defaultReadable) then [NoDefaultConfig] else []
  }

  function Note(issues: seq<Issue>, found: bool, issue: Issue): seq<Issue> {
    if found then issues + [issue] else issues
  }

  /** Issues with the three fields and the Admin API, in the order they are looked for. */
  function ApiIssues(mode: Mode, f: Facts): seq<Issue> {
    var reachable := f.urlValid && f.reachable;
    Note(Note(Note(Note(Note(Note([],
      !f.urlValid, BadUrl),
      !f.emailValid, BadEmail),
      !f.pathValid, BadPath),
      !reachable && mode != Missing, Unreachable),
      reachable && f.versionIsTwo == Some(false), WrongVersion),
      mode == ExistingConfig && !(reachable && f.configReadable), ConfigUnreadable)
  }

  function Issues(mode: Mode, f: Facts, inspected: (bool, bool, bool)): seq<Issue> {
    ApiIssues(mode, f) + FileIssues(mode, inspected) + DefaultIssues(mode, f)
  }

  /** `run_onboarding_preflight`, for a chosen mode. It does not look at the status it finds. */
  function Preflight(w: Wizard, file: Option<string>, f: Facts): Wizard
    requires w.mode.Some?
  {
    var mode := w.mode.value;
    var inspected := InspectPath(file.Some?, f, DeploysDefault(w.mode));
    var issues := Issues(mode, f, inspected);
    w.(status := if issues == [] then InProgress else Stopped, adminUrl := f.adminUrl, email := f.email, ran := true,
       passed := issues == [], issues := issues, backup := None, writable := inspected.1,
       apiOnly := mode == Docker && inspected.2)
  }

  function MarkFailed(w: Wizard, issue: Issue, confirmed: bool): Wizard {
    w.(status := Stopped, completedAt := false, issues := [issue], confirmed := confirmed)
  }

  function MarkCompleted(w: Wizard): Wizard {
    w.(status := Completed, completedAt := true, issues := [], confirmed := true)
  }

  // ---------------------------------------------------------------- execution

  /** Outcomes of preparing the default config: `content` is None when it cannot be read or rendered. */
  datatype Preparation = Preparation(content: Option<string>, readable: bool, backedUp: bool, written: bool,
      noted: bool)

  datatype Attempt = Attempt(facts: Facts, prepare: Preparation, settingsOk: bool, first: Probe, reachable: bool,
      x: Weather, last: Probe, released: bool, restored: bool)

  /** `_prepare_default_config_sync`: the file afterwards, the backup, and whether it succeeded. */
  function Prepare(file: Option<string>, p: Preparation): (Option<string>, Option<string>, bool) {
    if p.content.None? then (file, None, false)
    else if file.Some? && (!p.readable || !p.backedUp) then (file, None, false)
    else if !p.written then (file, None, false)
    else (p.content, file, true)
  }

  /** `_rollback_prepared_default_config_sync`: back to the backup, or no file if there was none. */
  function RolledBack(file: Option<string>, backup: Option<string>, restored: bool): Option<string> {
    if restored then backup else file
  }

  /** The settings and the takeover, in one savepoint. */
  function TakeOver(world: World, s: System, wizard: Wizard, a: Attempt): (System, bool)
    requires T.Good(s.db.sites)
  {
    if !a.settingsOk then (s, false)
    else
      var settled := s.(db := s.db.(adminUrl := wizard.adminUrl,
        email := if wizard.email == "" then s.db.email else wizard.email));
      var t := OnboardStep(world, settled, a.first, a.reachable, a.x, a.last);
      if t.1 != NotOnboarded && a.released then (t.0, true) else (t.0.(db := s.db), false)
  }

  /** The end of an execution: completed, or rolled back and failed. */
  function Conclude(s: System, done: bool, wizard: Wizard, prepared: bool, backup: Option<string>,
      a: Attempt): (System, Wizard) {
    if done then (s, MarkCompleted(wizard))
    else (if prepared then s.(file := RolledBack(s.file, backup, a.restored)) else s,
      MarkFailed(wizard, NotExecuted, true))
  }

  /**
   The rest of an execution in a mode that deploys the default config. A backup path that cannot be
   saved raises past the handler of the preparation: the rows are rolled back, the file is not.
   */
  function ExecuteDefault(world: World, s: System, stored: Wizard, checked: Wizard, a: Attempt): (System, Wizard, bool)
    requires T.Good(s.db.sites)
  {
    var prepared := Prepare(s.file, a.prepare);
    var noted := if prepared.2 && prepared.1.Some? then checked.(backup := prepared.1) else checked;
    if !prepared.2 then (s, MarkFailed(noted, NotPrepared, true), true)
    else if prepared.1.Some? && !a.prepare.noted then (s.(file := prepared.0), stored, false)
    else
      var taken := TakeOver(world, s.(file := prepared.0), noted, a);
      var r := Conclude(taken.0, taken.1, noted, true, prepared.1, a);
      (r.0, r.1, true)
  }

  /** `execute_onboarding`; the flag is false where it raises. */
  function Execute(world: World, s: System, wizard: Wizard, confirmed: bool, a: Attempt): (System, Wizard, bool)
    requires T.Good(s.db.sites)
  {
    if !PreflightOk(wizard) || wizard.status == Completed || !confirmed || wizard.mode.None? then (s, wizard, false)
    else
      var checked := Preflight(wizard, s.file, a.facts);
      if !PreflightOk(checked) then (s, checked, true)
      else if checked.mode == Some(Missing) then
        (s.(db := s.db.(adminUrl := checked.adminUrl,
            email := if checked.email == "" then s.db.email else checked.email)), MarkCompleted(checked), true)
      else if NeedsWritable(checked.mode) && !checked.writable
        then (s, MarkFailed(checked, CleanupRequired, true), true)
      else if DeploysDefault(checked.mode) then ExecuteDefault(world, s, wizard, checked, a)
      else
        var taken := TakeOver(world, s, checked, a);
        var r := Conclude(taken.0, taken.1, checked, false, None, a);
        (r.0, r.1, true)
  }

  // ---------------------------------------------------------------- assisted enablement

  datatype Assist = Assist(
    restartable: bool, loopback: bool, writable: bool, swappable: bool, reachableBefore: bool,
    endpoint: string, email: string, readable: bool, backedUp: bool, written: bool,
    restarts: bool, polls: seq<bool>, facts: Facts, raises: bool, restored: bool, restartsAgain: bool,
    left: Config, leftAgain: Config)

  const POLLS := 10

  predicate Answers(polls: seq<bool>) {
    exists k :: 0 <= k < |polls| && k < POLLS && polls[k]
  }

  function WithFinalNewline(text: string): string {
    if text != "" && text[|text| - 1] == '\n' then text else text + "\n"
  }

  /** The Caddyfile, and the backup file written beside it once there is one. */
  datatype Files = Files(caddyfile: Option<string>, backup: Option<string>)

  /** `_enable_admin_in_caddyfile_sync`: back the text up, then rewrite it; false where it raises. */
  function Rewritten(file: Option<string>, e: Assist): (Files, bool) {
    if file.None? || !e.readable || !e.backedUp then (Files(file, None), false)
    else if !e.written then (Files(file, file), false)
    else (Files(Some(WithFinalNewline(G.Inject(file.value, e.endpoint, e.email))), file), true)
  }

  /** `_restore_caddyfile_sync`: the backup's text, if it can be read and written. */
  function Restored(files: Files, restored: bool): Option<string> {
    if restored && files.backup.Some? then files.backup else files.caddyfile
  }

  predicate MayEnable(wizard: Wizard, e: Assist) {
    MayAssist(wizard.mode) && wizard.status != Completed && e.restartable && e.loopback && e.writable && e.swappable
  }

  /** `enable_admin_api_and_reprobe`: the file and the wizard; the flag is false where it raises. */
  function Enable(file: Option<string>, wizard: Wizard, e: Assist): (Option<string>, Wizard, bool) {
    if !MayEnable(wizard, e) then (file, wizard, false)
    else if e.reachableBefore then (file, Preflight(wizard, file, e.facts), true)
    else
      var rewritten := Rewritten(file, e);
      var files := rewritten.0;
      if !rewritten.1 then (files.caddyfile, MarkFailed(wizard, NotEnabled, false), true)
      else if e.restarts && Answers(e.polls) && !e.raises
        then (files.caddyfile, Preflight(wizard, files.caddyfile, e.facts), true)
      else
        var failed := MarkFailed(wizard, NotEnabled, false);
        var kept := if e.restored && e.restartsAgain then failed else failed.(backup := files.backup);
        (Restored(files, e.restored), kept, true)
  }

  /**
   What Caddy runs afterwards. A restarted Caddy runs what its Caddyfile adapts to; after a restart
   that failed it runs `left`, and `leftAgain` if the second one failed, whatever that is.
   */
  function RunsAfter(world: World, file: Option<string>, running: Config, wizard: Wizard, e: Assist): Config {
    var rewritten := Rewritten(file, e);
    if !MayEnable(wizard, e) || e.reachableBefore || !rewritten.1 then running
    else if e.restored && !(e.restarts && Answers(e.polls) && !e.raises) then
      if e.restartsAgain then Payload(world, TextIn(file)) else e.leftAgain
    else if e.restarts then Payload(world, TextIn(rewritten.0.caddyfile))
    else e.left
  }

  function TextIn(file: Option<string>): string {
    if file.Some? then file.value else ""
  }

  // ---------------------------------------------------------------- the wizard as an object

  class OnboardingWizard {
    const deployment: Deployment
    var status: WizardStatus
    var mode: Option<Mode>
    var adminUrl: string
    var email: string
    var ran: bool
    var passed: bool
    var issues: seq<Issue>
    var completedAt: bool
    var confirmed: bool
    var backup: Option<string>
    var writable: bool
    var apiOnly: bool

    function State(): Wizard
      reads this
    {
      Wizard(status, mode, adminUrl, email, ran, passed, issues, completedAt, confirmed, backup, writable, apiOnly)
    }

    constructor (deployment: Deployment)
      ensures this.deployment == deployment && State() == InitialWizard()
    {
      this.deployment := deployment;
      status, mode, adminUrl, email := NotStarted, None, "http://localhost:2019", "";
      ran, passed, issues, completedAt, confirmed, backup, writable, apiOnly :=
          false, false, [], false, false, None, false, false;
    }

    /** The stored state, as a rolled-back session leaves it. */
    method Load(w: Wizard)
      modifies this
      ensures State() == w
    {
      status, mode, adminUrl, email, ran, passed, issues, completedAt, confirmed, backup, writable, apiOnly :=
        w.status, w.mode, w.adminUrl, w.email, w.ran, w.passed, w.issues, w.completedAt, w.confirmed, w.backup,
            w.writable, w.apiOnly;
    }

    method RunPreflight(f: Facts)
      requires mode.Some?
      modifies this
      ensures State() == Preflight(old(State()), deployment.file, f)
    {
      hide FileIssues, DefaultIssues, ApiIssues, InspectPath, DeploysDefault, Preflight;
      PreflightIs(State(), deployment.file, f);
      var api := LookAtApi(f);
      var inspected := InspectPath(deployment.file.Some?, f, DeploysDefault(mode));
      var found := api + FileIssues(mode.value, inspected) + DefaultIssues(mode.value, f);
      Record(found, inspected.1, mode == Some(Docker) && inspected.2, f);
    }

    /** The fields a preflight sets at its end. */
    method Record(found: seq<Issue>, isWritable: bool, isApiOnly: bool, f: Facts)
      modifies this
      ensures State() == old(State()).(status := if found == [] then InProgress else Stopped, adminUrl := f.adminUrl,
        email := f.email, ran := true, passed := found == [], issues := found, backup := None, writable := isWritable,
        apiOnly := isApiOnly)
    {
      RecordVerdict(found);
      adminUrl, email, backup, writable, apiOnly := f.adminUrl, f.email, None, isWritable, isApiOnly;
    }

    method RecordVerdict(found: seq<Issue>)
      modifies this
      ensures State() == old(State()).(status := if found == [] then InProgress else Stopped, ran := true,
          passed := found == [], issues := found)
    {
      status := if found == [] then InProgress else Stopped;
      ran, passed, issues := true, found == [], found;
    }

    method LookAtApi(f: Facts) returns (found: seq<Issue>)
      requires mode.Some?
      ensures found == ApiIssues(mode.value, f)
    {
      found := [];
      if !f.urlValid { found := found + [BadUrl]; }
      if !f.emailValid { found := found + [BadEmail]; }
      if !f.pathValid { found := found + [BadPath]; }
      var reachable := f.urlValid && f.reachable;
      if !reachable && mode != Some(Missing) { found := found + [Unreachable]; }
      if reachable && f.versionIsTwo == Some(false) { found := found + [WrongVersion]; }
      if mode == Some(ExistingConfig) && !(reachable && f.configReadable) { found := found + [ConfigUnreadable]; }
    }

    method Fail(issue: Issue, isConfirmed: bool)
      modifies this
      ensures State() == MarkFailed(old(State()), issue, isConfirmed)
    {
      status, completedAt, issues, confirmed := Stopped, false, [issue], isConfirmed;
    }

    method Complete()
      modifies this
      ensures State() == MarkCompleted(old(State()))
    {
      status, completedAt, issues, confirmed := Completed, true, [], true;
    }

    method PrepareDefault(p: Preparation) returns (saved: Option<string>, done: bool)
      modifies deployment`file
      ensures (deployment.file, saved, done) == Prepare(old(deployment.file), p)
    {
      saved := None;
      if p.content.None? {
        return saved, false;
      }
      if deployment.file.Some? {
        if !p.readable || !p.backedUp {
          return saved, false;
        }
        saved := deployment.file;
      }
      if !p.written {
        return None, false;
      }
      deployment.file := p.content;
      return saved, true;
    }

    /** The savepoint: the rows go back to what they were when anything in it fails. */
    method TakeOverCaddy(a: Attempt) returns (done: bool)
      requires T.Good(deployment.session.sites)
      modifies deployment
      ensures (deployment.View(), done) == TakeOver(deployment.w, old(deployment.View()), State(), a)
    {
      hide T.Good, OnboardStep;
      if !a.settingsOk {
        return false;
      }
      var savepoint := deployment.session;
      deployment.session := savepoint.(adminUrl := adminUrl, email := if email == "" then savepoint.email else email);
      var outcome := deployment.Onboard(a.first, a.reachable, a.x, a.last);
      if outcome == NotOnboarded || !a.released {
        deployment.session := savepoint;
        return false;
      }
      return true;
    }

    method ExecuteOnboarding(isConfirmed: bool, a: Attempt) returns (answered: bool)
      requires T.Good(deployment.session.sites)
      modifies this, deployment
      ensures (deployment.View(), State(), answered) ==
          Execute(deployment.w, old(deployment.View()), old(State()), isConfirmed, a)
    {
      hide T.Good, Preflight, TakeOver, Conclude, ExecuteDefault, MarkFailed, MarkCompleted;
      if !PreflightOk(State()) || status == Completed || !isConfirmed || mode.None? {
        return false;
      }
      var stored := State();
      PreflightKeeps(stored, deployment.file, a.facts);
      RunPreflight(a.facts);
      if !PreflightOk(State()) {
        return true;
      }
      if mode == Some(Missing) {
        var rows := deployment.session;
        deployment.session := rows.(adminUrl := adminUrl, email := if email == "" then rows.email else email);
        Complete();
        return true;
      }
      if NeedsWritable(mode) && !writable {
        Fail(CleanupRequired, true);
        return true;
      }
      if DeploysDefault(mode) {
        answered := DeployDefault(stored, a);
        return;
      }
      FinishExecution(false, None, a);
      return true;
    }

    method DeployDefault(stored: Wizard, a: Attempt) returns (answered: bool)
      requires T.Good(deployment.session.sites)
      modifies this, deployment
      ensures (deployment.View(), State(), answered) ==
          ExecuteDefault(deployment.w, old(deployment.View()), stored, old(State()), a)
    {
      hide T.Good, TakeOver, Conclude, Prepare, MarkFailed;
      var saved, prepared := PrepareDefault(a.prepare);
      if !prepared {
        Fail(NotPrepared, true);
        UnpreparedFile(old(deployment.file), a.prepare);
        return true;
      }
      if saved.Some? {
        backup := saved;
        if !a.prepare.noted {
          Load(stored);
          return false;
        }
      }
      FinishExecution(true, saved, a);
      return true;
    }

    /** The takeover, and the rollback of the prepared file when it fails. */
    method FinishExecution(prepared: bool, saved: Option<string>, a: Attempt)
      requires T.Good(deployment.session.sites)
      modifies this, deployment
      ensures var taken := TakeOver(deployment.w, old(deployment.View()), old(State()), a);
              (deployment.View(), State()) == Conclude(taken.0, taken.1, old(State()), prepared, saved, a)
    {
      hide T.Good, TakeOver, MarkFailed, MarkCompleted;
      var done := TakeOverCaddy(a);
      if done {
        Complete();
        return;
      }
      if prepared {
        deployment.file := RolledBack(deployment.file, saved, a.restored);
      }
      Fail(NotExecuted, true);
    }

    method RewriteCaddyfile(e: Assist) returns (saved: Option<string>, done: bool)
      modifies deployment`file
      ensures (Files(deployment.file, saved), done) == Rewritten(old(deployment.file), e)
    {
      saved := None;
      if deployment.file.None? || !e.readable || !e.backedUp {
        return saved, false;
      }
      saved := deployment.file;
      if !e.written {
        return saved, false;
      }
      deployment.file := Some(WithFinalNewline(G.Inject(deployment.file.value, e.endpoint, e.email)));
      return saved, true;
    }

    method EnableAdminApi(e: Assist) returns (answered: bool)
      modifies this, deployment`file, deployment`running
      ensures (deployment.file, State(), answered) == Enable(old(deployment.file), old(State()), e)
      ensures deployment.running == RunsAfter(deployment.w, old(deployment.file), old(deployment.running),
          old(State()), e)
    {
      hide Preflight, MarkFailed, Rewritten, Restored, Answers, Payload;
      if !MayEnable(State(), e) {
        return false;
      }
      if e.reachableBefore {
        RunPreflight(e.facts);
        return true;
      }
      ghost var was := deployment.file;
      var saved, done := RewriteCaddyfile(e);
      RewrittenBackup(was, e);
      if !done {
        Fail(NotEnabled, false);
        return true;
      }
      var reachable := false;
      if e.restarts {
        deployment.running := Payload(deployment.w, TextIn(deployment.file));
        reachable := Poll(e.polls);
      } else {
        deployment.running := e.left;
      }
      if reachable && !e.raises {
        RunPreflight(e.facts);
        return true;
      }
      GiveBack(saved, e.restored, e.restartsAgain, e.leftAgain);
      return true;
    }

    /** After a failed enablement: the backup's text, a second restart, and the backup kept if either fails. */
    method GiveBack(saved: Option<string>, restored: bool, restartsAgain: bool, leftAgain: Config)
      requires saved.Some?
      modifies this, deployment`file, deployment`running
      ensures deployment.file == Restored(Files(old(deployment.file), saved), restored)
      ensures var failed := MarkFailed(old(State()), NotEnabled, false);
              State() == if restored && restartsAgain then failed else failed.(backup := saved)
      ensures deployment.running ==
        if !restored then old(deployment.running) else if restartsAgain then Payload(deployment.w, saved.value)
          else leftAgain
    {
      hide Payload;
      if restored {
        deployment.file := saved;
        deployment.running := if restartsAgain then Payload(deployment.w, saved.value) else leftAgain;
      }
      Fail(NotEnabled, false);
      if !restored || !restartsAgain {
        backup := saved;
      }
    }

    /** The polling loop after the restart. */
    method Poll(polls: seq<bool>) returns (reachable: bool)
      ensures reachable == Answers(polls)
    {
      var k := 0;
      while k < POLLS && k < |polls|
        invariant 0 <= k <= POLLS && k <= |polls| && forall i :: 0 <= i < k ==> !polls[i]
      {
        if polls[k] {
          return true;
        }
        k := k + 1;
      }
      return false;
    }
  }

  lemma PreflightIs(w: Wizard, file: Option<string>, f: Facts)
    requires w.mode.Some?
    ensures var mode, inspected := w.mode.value, InspectPath(file.Some?, f, DeploysDefault(w.mode));
            var issues := ApiIssues(mode, f) + FileIssues(mode, inspected) + DefaultIssues(mode, f);
            Preflight(w, file, f) ==
              Wizard(if issues == [] then InProgress else Stopped, w.mode, f.adminUrl, f.email, true,
                     issues == [], issues, w.completedAt, w.confirmed, None, inspected.1, mode == Docker && inspected.2)
  {
    hide FileIssues, DefaultIssues, ApiIssues, InspectPath, DeploysDefault;
  }

  lemma PreflightKeeps(wizard: Wizard, file: Option<string>, f: Facts)
    requires wizard.mode.Some?
    ensures Preflight(wizard, file, f).mode == wizard.mode
  {
    hide Issues, InspectPath;
  }

  lemma UnpreparedFile(file: Option<string>, p: Preparation)
    ensures !Prepare(file, p).2 ==> Prepare(file, p).0 == file
  {
  }

  /** The rewrite keeps the text it read as the backup, and a failing rewrite changes nothing. */
  lemma RewrittenBackup(file: Option<string>, e: Assist)
    ensures var r := Rewritten(file, e);
            && (r.1 ==> r.0.backup == file && file.Some? && r.0.caddyfile.Some?)
            && (!r.1 ==> r.0.caddyfile == file)
  {
    hide WithFinalNewline;
  }
}
