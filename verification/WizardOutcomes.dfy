/**
 The onboarding wizard step by step (app/services/caddy_onboarding.py:558-702, 764-1176): which issues
 a preflight finds, and what each ending of an execution or an enablement stores, said with the
 fields of the wizard and the outcomes of the calls alone.
 */
module WizardOutcomes {
  import opened Text
  import opened Wrappers
  import opened Sync
  import opened Onboarding
  import G = GlobalOptions
  import T = Sites
  import opened SyncSafety
  import opened OnboardingSafety

  // ---------------------------------------------------------------- preflight

  /** The order in which the issues are looked for. */
  function Place(issue: Issue): nat {
    match issue
    case BadUrl => 0
    case BadEmail => 1
    case BadPath => 2
    case Unreachable => 3
    case WrongVersion => 4
    case ConfigUnreadable => 5
    case FileUnusable => 6
    case FileUnwritable => 6
    case NoDefaultConfig => 7
    case _ => 8
  }

  predicate UsesDefault(mode: Mode) {
    mode == Unconfigured || mode == DefaultConfig
  }

  /** The file is there and readable but not writable. */
  predicate IsReadOnlyFile(file: Option<string>, f: Facts) {
    f.pathValid && file.Some? && f.regular && f.readable && !f.writable
  }

  /** The file can be read and written, or is absent where the default config may be put. */
  predicate IsUsableFile(mode: Mode, file: Option<string>, f: Facts) {
    && f.pathValid
    && if file.Some? then f.regular && f.readable && f.writable else UsesDefault(mode) && f.parentWritable
  }

  lemma InspectedIs(mode: Mode, file: Option<string>, f: Facts)
    ensures var inspected := InspectPath(file.Some?, f, DeploysDefault(Some(mode)));
            && (inspected.2 <==> !IsUsableFile(mode, file, f))
            && (inspected.1 <==> IsUsableFile(mode, file, f))
            && (inspected.0 <==> f.pathValid && file.Some? && f.regular && f.readable)
  {
  }

  /** Each in its place, and all before `limit`. */
  predicate InOrder(issues: seq<Issue>, limit: nat) {
    && (forall k :: 0 <= k < |issues| ==> Place(issues[k]) < limit)
    && (forall i, j :: 0 <= i < j < |issues| ==> Place(issues[i]) < Place(issues[j]))
  }

  lemma NoteIs(issues: seq<Issue>, found: bool, issue: Issue)
    requires InOrder(issues, Place(issue))
    ensures var r := Note(issues, found, issue);
            && (forall i :: i in r <==> i in issues || (found && i == issue)) && InOrder(r, Place(issue) + 1)
  {
    hide Place;
    assert forall i :: i in issues + [issue] <==> i in issues || i == issue;
  }

  lemma ApiIssuesAre(mode: Mode, f: Facts)
    ensures var issues, reachable := ApiIssues(mode, f), f.urlValid && f.reachable;
            && InOrder(issues, 6)
            && forall i :: i in issues <==>
                 match i
                 case BadUrl => !f.urlValid
                 case BadEmail => !f.emailValid
                 case BadPath => !f.pathValid
                 case Unreachable => mode != Missing && !reachable
                 case WrongVersion => reachable && f.versionIsTwo == Some(false)
                 case ConfigUnreadable => mode == ExistingConfig && !(reachable && f.configReadable)
                 case _ => false
  {
    hide Note, InOrder;
    var reachable := f.urlValid && f.reachable;
    assert InOrder([], 0) by { NothingInOrder(); }
    var a := Note([], !f.urlValid, BadUrl);
    NoteIs([], !f.urlValid, BadUrl);
    var b := Note(a, !f.emailValid, BadEmail);
    NoteIs(a, !f.emailValid, BadEmail);
    var c := Note(b, !f.pathValid, BadPath);
    NoteIs(b, !f.pathValid, BadPath);
    var d := Note(c, !reachable && mode != Missing, Unreachable);
    NoteIs(c, !reachable && mode != Missing, Unreachable);
    var e := Note(d, reachable && f.versionIsTwo == Some(false), WrongVersion);
    NoteIs(d, reachable && f.versionIsTwo == Some(false), WrongVersion);
    NoteIs(e, mode == ExistingConfig && !(reachable && f.configReadable), ConfigUnreadable);
  }

  lemma NothingInOrder()
    ensures InOrder([], 0)
  {
  }

  /** Each issue, exactly when it is found. */
  lemma IssuesAre(w: Wizard, file: Option<string>, f: Facts, i: Issue)
    requires w.mode.Some?
    ensures var mode, reachable := w.mode.value, f.urlValid && f.reachable;
            i in Preflight(w, file, f).issues <==>
              match i
              case BadUrl => !f.urlValid
              case BadEmail => !f.emailValid
              case BadPath => !f.pathValid
              case Unreachable => mode != Missing && !reachable
              case WrongVersion => reachable && f.versionIsTwo == Some(false)
              case ConfigUnreadable => mode == ExistingConfig && !(reachable && f.configReadable)
              case FileUnwritable => mode == ExistingConfig && IsReadOnlyFile(file, f)
              case FileUnusable =>
                && mode != Docker && mode != Missing && !IsUsableFile(mode, file, f)
                && !(mode == ExistingConfig && IsReadOnlyFile(file, f))
              case NoDefaultConfig => UsesDefault(mode) && !(f.defaultExists && f.defaultReadable)
              case _ => false
  {
    hide *;
    var mode := w.mode.value;
    ApiIssuesAre(mode, f);
    FoundTogether(mode, file, f);
    PreflightLists(w, file, f);
    ListedTogether(ApiIssues(mode, f), FileIssues(mode, InspectPath(file.Some?, f, DeploysDefault(w.mode))),
      DefaultIssues(mode, f), i);
  }

  lemma PreflightLists(w: Wizard, file: Option<string>, f: Facts)
    requires w.mode.Some?
    ensures var mode, inspected := w.mode.value, InspectPath(file.Some?, f, DeploysDefault(w.mode));
            Preflight(w, file, f).issues == ApiIssues(mode, f) + FileIssues(mode, inspected) + DefaultIssues(mode, f)
    ensures w.mode == Some(w.mode.value)
  {
    hide InspectPath, ApiIssues, FileIssues, DefaultIssues, DeploysDefault;
  }

  lemma ListedTogether(a: seq<Issue>, b: seq<Issue>, c: seq<Issue>, i: Issue)
    ensures i in a + b + c <==> i in a || i in b || i in c
  {
  }

  lemma FoundTogether(mode: Mode, file: Option<string>, f: Facts)
    ensures var inspected := InspectPath(file.Some?, f, DeploysDefault(Some(mode)));
            var files, defaults := FileIssues(mode, inspected), DefaultIssues(mode, f);
            && (forall i :: i in files <==>
                  && mode != Docker && mode != Missing && !IsUsableFile(mode, file, f)
                  && i == if mode == ExistingConfig && IsReadOnlyFile(file, f) then FileUnwritable else FileUnusable)
            && (forall i :: i in defaults <==>
                  i == NoDefaultConfig && UsesDefault(mode) && !(f.defaultExists && f.defaultReadable))
            && |files| <= 1 && |defaults| <= 1
            && (mode == ExistingConfig && IsReadOnlyFile(file, f) ==> !IsUsableFile(mode, file, f))
  {
  }

  /** They are listed in that order, each at most once. */
  lemma IssuesAscend(w: Wizard, file: Option<string>, f: Facts)
    requires w.mode.Some?
    ensures InOrder(Preflight(w, file, f).issues, 8)
  {
    hide *;
    var mode := w.mode.value;
    var inspected := InspectPath(file.Some?, f, DeploysDefault(w.mode));
    ApiIssuesAre(mode, f);
    FoundTogether(mode, file, f);
    PreflightLists(w, file, f);
    InOrderTogether(ApiIssues(mode, f), FileIssues(mode, inspected), DefaultIssues(mode, f));
  }

  lemma InOrderTogether(a: seq<Issue>, b: seq<Issue>, c: seq<Issue>)
    requires InOrder(a, 6) && |b| <= 1 && |c| <= 1
    requires forall i :: i in b ==> i == FileUnwritable || i == FileUnusable
    requires forall i :: i in c ==> i == NoDefaultConfig
    ensures InOrder(a + b + c, 8)
  {
    assert b != [] ==> b[0] in b;
    assert c != [] ==> c[0] in c;
  }

  /** What a preflight stores: it goes on exactly if it found nothing. */
  lemma PreflightStores(w: Wizard, file: Option<string>, f: Facts)
    requires w.mode.Some?
    ensures var r := Preflight(w, file, f);
            && (r.issues == [] <==> r.status == InProgress) && (r.issues != [] <==> r.status == Stopped)
            && (r.passed <==> r.issues == []) && r.ran && r.adminUrl == f.adminUrl && r.email == f.email
            && r.backup == None && r.mode == w.mode && r.completedAt == w.completedAt && r.confirmed == w.confirmed
            && (r.writable <==> IsUsableFile(w.mode.value, file, f))
            && (r.apiOnly <==> w.mode == Some(Docker) && !IsUsableFile(w.mode.value, file, f))
            && (PreflightOk(r) <==> r.issues == [])
  {
    InspectedIs(w.mode.value, file, f);
    PreflightIs(w, file, f);
    hide InspectPath, ApiIssues, FileIssues, DefaultIssues, IsUsableFile, DeploysDefault;
  }

  // ---------------------------------------------------------------- execution

  /** The stored settings, with the wizard's URL and its address, if it has one. */
  function Settled(db: Db, wizard: Wizard): Db {
    db.(adminUrl := wizard.adminUrl, email := if wizard.email != "" then wizard.email else db.email)
  }

  function Ended(wizard: Wizard, issue: Issue): Wizard {
    wizard.(status := Stopped, completedAt := false, issues := [issue], confirmed := true)
  }

  function Done(wizard: Wizard): Wizard {
    wizard.(status := Completed, completedAt := true, issues := [], confirmed := true)
  }

  /** The takeover succeeds if the onboarding does and its savepoint is released; else the rows are the old ones. */
  lemma TakeOverIs(world: World, s: System, wizard: Wizard, a: Attempt)
    requires T.Good(s.db.sites)
    ensures T.Good(Settled(s.db, wizard).sites)
    ensures var r := TakeOver(world, s, wizard, a);
            var t := OnboardStep(world, s.(db := Settled(s.db, wizard)), a.first, a.reachable, a.x, a.last);
            if !a.settingsOk then r == (s, false)
            else if (t.1 == Onboarded || t.1 == AlreadyManaged) && a.released then r == (t.0, true)
            else r == (t.0.(db := s.db), false)
  {
    hide T.Good, OnboardStep;
  }

  /** Everything about the default config has worked: it was read, the old file backed up, and it was written. */
  predicate IsPrepared(file: Option<string>, p: Preparation) {
    p.content.Some? && (file.Some? ==> p.readable && p.backedUp) && p.written
  }

  lemma PreparedIs(file: Option<string>, p: Preparation)
    ensures Prepare(file, p) == if IsPrepared(file, p) then (p.content, file, true) else (file, None, false)
  {
  }

  /** The wizard may be executed. */
  predicate IsReady(wizard: Wizard, confirmed: bool) {
    wizard.status == InProgress && wizard.ran && wizard.issues == [] && confirmed && wizard.mode.Some?
  }

  /** An execution before it touches anything. */
  lemma ExecutionStarts(world: World, s: System, wizard: Wizard, confirmed: bool, a: Attempt)
    requires T.Good(s.db.sites)
    ensures var r := Execute(world, s, wizard, confirmed, a);
            if !IsReady(wizard, confirmed) then r == (s, wizard, false)
            else
              var checked := Preflight(wizard, s.file, a.facts);
              if checked.issues != [] then r == (s, checked, true)
              else if wizard.mode == Some(Missing) then r == (s.(db := Settled(s.db, checked)), Done(checked), true)
              else if wizard.mode != Some(Docker) && !IsUsableFile(wizard.mode.value, s.file, a.facts) then
                r == (s, Ended(checked, CleanupRequired), true)
              else if UsesDefault(wizard.mode.value) then r == ExecuteDefault(world, s, wizard, checked, a)
              else
                var taken := TakeOver(world, s, checked, a);
                r == (taken.0, if taken.1 then Done(checked) else Ended(checked, NotExecuted), true)
  {
    if wizard.mode.Some? {
      PreflightStores(wizard, s.file, a.facts);
    }
    hide T.Good, Preflight, TakeOver, ExecuteDefault, IsUsableFile;
  }

  /** An execution that deploys the default config. */
  lemma DefaultExecution(world: World, s: System, stored: Wizard, checked: Wizard, a: Attempt)
    requires T.Good(s.db.sites)
    ensures var r := ExecuteDefault(world, s, stored, checked, a);
            if !IsPrepared(s.file, a.prepare) then r == (s, Ended(checked, NotPrepared), true)
            else if s.file.Some? && !a.prepare.noted then r == (s.(file := a.prepare.content), stored, false)
            else
              var noted := if s.file.Some? then checked.(backup := s.file) else checked;
              var taken := TakeOver(world, s.(file := a.prepare.content), noted, a);
              if taken.1 then r == (taken.0, Done(noted), true)
              else
                r == (if a.restored then taken.0.(file := s.file) else taken.0, Ended(noted, NotExecuted), true)
  {
    PreparedIs(s.file, a.prepare);
    hide T.Good, Prepare, TakeOver, IsPrepared;
  }

  // ---------------------------------------------------------------- assisted enablement

  /** Reading, backing up and writing have worked. */
  predicate IsRewritten(file: Option<string>, e: Assist) {
    file.Some? && e.readable && e.backedUp && e.written
  }

  /** The rewritten text: the old one with the Admin API's endpoint in its options, and a line break at its end. */
  lemma RewriteIs(file: Option<string>, e: Assist)
    ensures var r := Rewritten(file, e);
            && (r.1 <==> IsRewritten(file, e))
            && (!r.1 ==> r.0.caddyfile == file)
            && (r.1 ==>
                  && r.0.backup == file
                  && var text := G.Inject(file.value, e.endpoint, e.email);
                     r.0.caddyfile == Some(if text != "" && text[|text| - 1] == '\n' then text else text + "\n"))
  {
    hide G.Inject;
  }

  /** One of the first ten attempts reaches the API. */
  lemma AnswersIs(polls: seq<bool>)
    ensures Answers(polls) <==> true in polls[..if |polls| < 10 then |polls| else 10]
  {
    var first := polls[..if |polls| < 10 then |polls| else 10];
    if Answers(polls) {
      var k :| 0 <= k < |polls| && k < POLLS && polls[k];
      assert first[k];
    }
    if true in first {
      var k :| 0 <= k < |first| && first[k];
      assert polls[k];
    }
  }

  /** The enablement is offered. */
  predicate IsOffered(wizard: Wizard, e: Assist) {
    && (wizard.mode == Some(Host) || wizard.mode == Some(ExistingConfig)) && wizard.status != Completed
    && e.restartable && e.loopback && e.writable && e.swappable
  }

  /** What the wizard stores after an enablement. */
  lemma EnableStores(file: Option<string>, wizard: Wizard, e: Assist)
    ensures var r, rewritten := Enable(file, wizard, e), Rewritten(file, e).0.caddyfile;
            var failed := wizard.(status := Stopped, completedAt := false, issues := [NotEnabled], confirmed := false);
            if !IsOffered(wizard, e) then r == (file, wizard, false)
            else if e.reachableBefore then r == (file, Preflight(wizard, file, e.facts), true)
            else if !IsRewritten(file, e) then r == (file, failed, true)
            else if e.restarts && Answers(e.polls) && !e.raises then
              r == (rewritten, Preflight(wizard, rewritten, e.facts), true)
            else
              r == (if e.restored then file else rewritten,
                    if e.restored && e.restartsAgain then failed else failed.(backup := file), true)
  {
    RewriteIs(file, e);
    hide Rewritten, Preflight, Answers;
  }

  /**
   What Caddy runs after an enablement: what the text it was last restarted from adapts to, or what
   a failed restart left.
   */
  lemma EnableRuns(world: World, file: Option<string>, running: Config, wizard: Wizard, e: Assist)
    ensures var now, rewritten := RunsAfter(world, file, running, wizard, e), Rewritten(file, e).0.caddyfile;
            if !IsOffered(wizard, e) || e.reachableBefore || !IsRewritten(file, e) then now == running
            else
              && file.Some? && rewritten.Some?
              && now ==
                   if e.restarts && ((Answers(e.polls) && !e.raises) || !e.restored)
                     then Payload(world, rewritten.value)
                   else if !e.restored then e.left
                   else if e.restartsAgain then Payload(world, file.value)
                   else e.leftAgain
  {
    RewriteIs(file, e);
    hide Rewritten, Answers, Payload;
  }

  /** A wizard that has not begun. */
  lemma StartsEmpty()
    ensures var w := InitialWizard();
            && w.status == NotStarted && w.mode == None && w.adminUrl == "http://localhost:2019" && w.email == ""
            && w.issues == [] && w.backup == None
            && !w.ran && !w.passed && !w.completedAt && !w.confirmed && !w.writable && !w.apiOnly
  {
  }

  // ---------------------------------------------------------------- one step of a run

  /** Settings and location are kept, and what a preflight found is forgotten. */
  predicate IsReopened(was: Wizard, w: Wizard) {
    && w.adminUrl == was.adminUrl && w.email == was.email
    && w == InitialWizard().(status := w.status, mode := w.mode, adminUrl := w.adminUrl, email := w.email)
  }

  /** What each step of the wizard leaves; a completed wizard is neither started nor moved. */
  lemma StepIs(world: World, s: System, w: Wizard, step: Step)
    requires T.Good(s.db.sites)
    ensures var t := Take(world, s, w, step);
            match step
            case Start(mode) =>
              && t.0 == s && (w.status == Completed ==> t.1 == w)
              && (w.status != Completed ==> IsReopened(w, t.1) && t.1.status == InProgress && t.1.mode == Some(mode))
            case Choose =>
              && t.0 == s && (w.status == Completed ==> t.1 == w)
              && (w.status != Completed ==> IsReopened(w, t.1) && t.1.status == NotStarted && t.1.mode == None)
            case Check(facts) => t.0 == s && (w.mode == None ==> t.1 == w)
              && (w.mode != None ==> t.1 == Preflight(w, s.file, facts))
            case TryExecute(confirmed, a) =>
              var r := Execute(world, s, w, confirmed, a); t.0 == r.0 && t.1 == r.1
            case TryEnable(e) =>
              var r := Enable(s.file, w, e);
              && t.1 == r.1 && t.0.file == r.0 && t.0.db == s.db
              && t.0.running == RunsAfter(world, s.file, s.running, w, e)
            case Reset => t.0 == s && t.1 == InitialWizard()
            case Deploy(action, commits) => t.0 == Act(world, s, action, commits) && t.1 == w
  {
    hide T.Good, Preflight, Execute, Enable, RunsAfter, Act;
  }
}
