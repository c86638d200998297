/**
 Synchronizations under arbitrary failures (app/services/caddyfile_manager.py): what is on disk and
 what Caddy runs when a write, a restore or a load fails in any way, and exactly when they agree.
 */
module SyncFailures {
  import opened Text
  import opened Wrappers
  import opened Sync
  import opened SyncSafety
  import T = Sites

  /** The synchronization gets as far as writing the rendered text. */
  predicate ReachesWrite(w: World, s: System, r: string, force: bool, requireMarker: bool, x: Weather) {
    && (requireMarker ==> !Inspect(s.file, x.probe).error && Inspect(s.file, x.probe).marked)
    && (force || !IsUpToDate(w, s, r, x.probe))
    && (IsBlank(r) || x.adapts) && s.db.adminUrl != "" && s.file.Some? && x.readable
  }

  /** What a write that does not succeed leaves of the text before it. */
  function Remains(was: string, d: Disk): string {
    if FailsSafely(d) then was else d.leftover
  }

  function FileAfter(was: string, next: string, x: Weather): string {
    if !Succeeds(x.write) then Remains(was, x.write)
    else if x.load == Accepted then next
    else if Succeeds(x.restore) then was
    else Remains(next, x.restore)
  }

  /** A load counts as soon as Caddy got it, whether its answer arrived or not. */
  function RunningAfter(before: Config, next: Config, x: Weather): Config {
    if Succeeds(x.write) && x.load != Rejected then next else before
  }

  /** File and runtime after a synchronization, whatever fails in it. */
  lemma AnyWeather(w: World, s: System, force: bool, requireMarker: bool, x: Weather)
    ensures var rendered, t := Render(w, s, x.probe), SyncStep(w, s, force, requireMarker, x).0;
            if rendered.Some? && ReachesWrite(w, s, rendered.value, force, requireMarker, x) then
              && s.file.Some?
              && t.file == Some(FileAfter(s.file.value, MarkerText() + rendered.value, x))
              && t.running == RunningAfter(s.running, Payload(w, rendered.value), x)
            else t.file == s.file && t.running == s.running
  {
    hide *;
    var rendered := Render(w, s, x.probe);
    SyncStepIs(w, s, force, requireMarker, x);
    if rendered.Some? {
      ReachesIs(w, s, rendered.value, force, requireMarker, x);
      DeployAnyWeather(w, s, rendered.value, x);
    }
  }

  lemma ReachesIs(w: World, s: System, r: string, force: bool, requireMarker: bool, x: Weather)
    ensures ReachesWrite(w, s, r, force, requireMarker, x) <==>
              && (requireMarker ==> !Inspect(s.file, x.probe).error && Inspect(s.file, x.probe).marked)
              && (force || !IsUpToDate(w, s, r, x.probe))
              && (IsBlank(r) || x.adapts) && s.db.adminUrl != "" && s.file.Some? && x.readable
  {
    hide Inspect, IsUpToDate, IsBlank;
  }

  lemma DeployAnyWeather(w: World, s: System, r: string, x: Weather)
    ensures var t := Deploy(w, s, r, x).0;
            if (IsBlank(r) || x.adapts) && s.db.adminUrl != "" && s.file.Some? && x.readable then
              && t.file == Some(FileAfter(s.file.value, MarkerText() + r, x))
              && t.running == RunningAfter(s.running, Payload(w, r), x)
            else t.file == s.file && t.running == s.running
  {
    DeployIs(w, s, r, x);
    if s.file.Some? {
      WriteCases(s.file, MarkerText() + r, x.write);
      WriteCases(Some(MarkerText() + r), s.file.value, x.restore);
    }
    hide Deploy, Write, WithVersion, Failed, Succeeded, Reformatted, Payload, IsBlank, MarkerText, Succeeds,
      FailsSafely;
  }

  // ---------------------------------------------------------------- when file and runtime agree

  /**
   Whether what is left agrees with what runs: `next` is the configuration of the rendered text.
   A failed write needs its leftover to agree. After a rejected load the old text must be back, or
   the new one mean the same. After a lost load, which Caddy carried out, it is the other way round.
   */
  predicate StaysInAgreement(w: World, was: string, before: Config, next: Config, x: Weather) {
    if !Succeeds(x.write) then FailsSafely(x.write) || Coherent(w, Some(x.write.leftover), before)
    else
      match x.load
      case Accepted => true
      case Rejected =>
        if Succeeds(x.restore) then true
        else if FailsSafely(x.restore) then before == next
        else Coherent(w, Some(x.restore.leftover), before)
      case Lost =>
        if Succeeds(x.restore) then !Marked(was) || before == next
        else if FailsSafely(x.restore) then true
        else Coherent(w, Some(x.restore.leftover), next)
  }

  /** In every weather: the agreement of file and runtime is kept exactly under that condition. */
  lemma AgreementInAnyWeather(w: World, s: System, force: bool, requireMarker: bool, x: Weather)
    requires Coherent(w, s.file, s.running)
    ensures var rendered, t := Render(w, s, x.probe), SyncStep(w, s, force, requireMarker, x).0;
            Coherent(w, t.file, t.running) <==>
              (rendered.Some? && ReachesWrite(w, s, rendered.value, force, requireMarker, x) ==>
                 StaysInAgreement(w, s.file.value, s.running, Payload(w, rendered.value), x))
  {
    hide *;
    AnyWeather(w, s, force, requireMarker, x);
    var rendered := Render(w, s, x.probe);
    if rendered.Some? && ReachesWrite(w, s, rendered.value, force, requireMarker, x) {
      var was, next := s.file.value, Payload(w, rendered.value);
      TextAgrees(w, rendered.value, s.running);
      TextAgrees(w, rendered.value, next);
      OtherConfig(w, was, s.running, next);
      AgreementCases(w, was, rendered.value, s.running, next, x);
    }
  }

  lemma AgreementCases(w: World, was: string, r: string, before: Config, next: Config, x: Weather)
    requires Coherent(w, Some(was), before)
    requires Coherent(w, Some(was), next) <==> !Marked(was) || before == next
    requires Coherent(w, Some(MarkerText() + r), before) <==> before == next
    requires Coherent(w, Some(MarkerText() + r), next)
    ensures Coherent(w, Some(FileAfter(was, MarkerText() + r, x)), RunningAfter(before, next, x)) <==>
              StaysInAgreement(w, was, before, next, x)
  {
    hide Coherent, MarkerText, Marked, Succeeds, FailsSafely;
  }

  /** A text that agrees with one configuration agrees with another one exactly if it is not marked. */
  lemma OtherConfig(w: World, was: string, before: Config, next: Config)
    requires Coherent(w, Some(was), before)
    ensures Coherent(w, Some(was), next) <==> !Marked(was) || before == next
  {
    hide Marked, MarkerText, Payload;
  }

  /** Whatever was out of step before, a synchronization that answers "synced" brings file and runtime together. */
  lemma SyncedAgrees(w: World, s: System, force: bool, requireMarker: bool, x: Weather)
    requires SyncStep(w, s, force, requireMarker, x).1 == Synced
    ensures var t := SyncStep(w, s, force, requireMarker, x).0;
            t.file.Some? && Marked(t.file.value) && Coherent(w, t.file, t.running)
  {
    hide *;
    SyncOutcome(w, s, force, requireMarker, x);
    WrittenIsCoherent(w, Render(w, s, x.probe).value);
  }

  // ---------------------------------------------------------------- a failure nobody hears of

  /**
   A site request whose load Caddy carried out without answering: the request fails, its rows are
   rolled back together with the noted error, and the old text is put back. The next unforced
   synchronization answers "no_change", which is true exactly if the request changed nothing in the
   configuration.
   */
  lemma LostLoadIsHidden(w: World, s: System, op: T.Op, x: Weather, y: Weather)
    requires T.Good(s.db.sites) && Coherent(w, s.file, s.running)
    requires SyncStep(w, s, false, true, y).1 == NoChange
    requires Mutated(w, s.db, op).Some?
    requires var changed := s.(db := Mutated(w, s.db, op).value);
             var rendered := Render(w, changed, x.probe);
             rendered.Some? && ReachesWrite(w, changed, rendered.value, false, true, x)
    requires Succeeds(x.write) && x.load == Lost && Succeeds(x.restore)
    ensures var changed := s.(db := Mutated(w, s.db, op).value);
            var next := Payload(w, Render(w, changed, x.probe).value);
            var t := MutateStep(w, s, op, x, true);
            && !t.1 && t.0 == s.(running := next)
            && SyncStep(w, t.0, false, true, y).1 == NoChange
            && Render(w, t.0, y.probe).Some?
            && (t.0.running == Payload(w, Render(w, t.0, y.probe).value) <==> next == s.running)
  {
    hide *;
    var changed := s.(db := Mutated(w, s.db, op).value);
    var r := Render(w, changed, x.probe).value;
    var t := MutateStep(w, s, op, x, true);
    MutateIs(w, s, op, x, true);
    AnyWeather(w, changed, false, true, x);
    LostAnswer(w, changed, r, x);
    LostTables(s.file.value, MarkerText() + r, s.running, Payload(w, r), x);
    NoChangeIsRunning(w, s, false, true, y);
    SyncStepIs(w, s, false, true, y);
    SyncStepIs(w, t.0, false, true, y);
    RunningIsNotRead(w, s, Payload(w, r), y);
    DeployAnswers(w, s, Render(w, s, y.probe).value, y);
  }

  lemma LostTables(was: string, next: string, before: Config, config: Config, x: Weather)
    requires Succeeds(x.write) && x.load == Lost && Succeeds(x.restore)
    ensures FileAfter(was, next, x) == was && RunningAfter(before, config, x) == config
  {
  }

  lemma LostAnswer(w: World, s: System, r: string, x: Weather)
    requires Render(w, s, x.probe) == Some(r) && ReachesWrite(w, s, r, false, true, x)
    requires Succeeds(x.write) && x.load == Lost
    ensures s.file.Some? && !Successful(SyncStep(w, s, false, true, x).1)
  {
    hide *;
    ReachesIs(w, s, r, false, true, x);
    SyncStepIs(w, s, false, true, x);
    DeployIs(w, s, r, x);
    WriteCases(s.file, MarkerText() + r, x.write);
    SuccessfulIs(SyncStep(w, s, false, true, x).1);
  }

  /** What Caddy runs is read neither by the rendering nor by the test for changes. */
  lemma RunningIsNotRead(w: World, s: System, other: Config, x: Weather)
    ensures var t := s.(running := other);
            && Render(w, t, x.probe) == Render(w, s, x.probe)
            && forall r :: IsUpToDate(w, t, r, x.probe) <==> IsUpToDate(w, s, r, x.probe)
  {
    hide Baseline, Strip, Inspect, MarkerText, SiteRows;
  }
}
