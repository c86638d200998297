/**
 Caddyfile and Caddy after an assisted enablement of the Admin API
 (app/services/caddy_onboarding.py:558-628, 947-1064). A restarted Caddy reads its Caddyfile, so an
 enablement can also bring the two back together.
 */
module Enablement {
  import opened Text
  import opened Wrappers
  import opened Parser
  import opened GlobalOptions
  import opened LastWrite
  import opened DeployedText
  import opened Sync
  import opened SyncSafety
  import opened SyncFailures
  import opened Onboarding

  /** Marked texts begin with the whole marker text, as the application writes it. */
  predicate IsWellMarked(file: Option<string>) {
    file.Some? && Marked(file.value) ==> MarkerText() <= file.value
  }

  /** The adapter skips the marker's comment lines. */
  ghost predicate IgnoresMarker(w: World) {
    forall r :: Payload(w, MarkerText() + r) == Payload(w, r)
  }

  // ---------------------------------------------------------------- what a restart loads

  /** A Caddy that was started from a text agrees with it. */
  lemma BootedAgrees(w: World, text: string)
    requires IgnoresMarker(w) && IsWellMarked(Some(text))
    ensures Coherent(w, Some(text), Payload(w, text))
  {
    hide Marked, MarkerText, Payload;
    if Marked(text) {
      assert text == MarkerText() + text[|MarkerText()|..];
    }
  }

  lemma CoherentIsWellMarked(w: World, file: Option<string>, running: Config)
    requires Coherent(w, file, running)
    ensures IsWellMarked(file)
  {
    hide Marked, MarkerText, Payload;
  }

  // ---------------------------------------------------------------- the marker survives the rewrite

  lemma MarkedStep(first: string, rest: Lines)
    ensures MarkedLines([first] + rest) <==> if IsBlank(first) then MarkedLines(rest) else Strip(first) == MARKER
  {
    hide Strip, IsBlank, MARKER;
    assert ([first] + rest)[1..] == rest;
  }

  /** Once a line is not blank, what follows it does not matter. */
  lemma {:induction false} MarkedFront(front: Lines, k: nat, a: Lines, b: Lines)
    requires k < |front| && !IsBlank(front[k])
    ensures MarkedLines(front + a) <==> MarkedLines(front + b)
  {
    hide *;
    var rest := front[1..];
    assert front + a == [front[0]] + (rest + a) && front + b == [front[0]] + (rest + b);
    MarkedStep(front[0], rest + a);
    MarkedStep(front[0], rest + b);
    if IsBlank(front[0]) {
      MarkedFront(rest, k - 1, a, b);
    }
  }

  lemma {:induction false} MarkedTrimStart(lines: Lines)
    ensures MarkedLines(TrimStart(lines)) <==> MarkedLines(lines)
  {
    hide Strip, LStrip, MARKER;
    if lines != [] {
      if IsBlank(lines[0]) {
        MarkedTrimStart(lines[1..]);
      } else {
        StripOfLStrip(lines[0]);
      }
    }
  }

  lemma {:induction false} MarkedTrimEnd(lines: Lines)
    ensures MarkedLines(TrimEnd(lines)) <==> MarkedLines(lines)
  {
    hide *;
    TrimEndIs(lines);
    if lines != [] {
      var init, last := lines[..|lines| - 1], lines[|lines| - 1];
      assert lines == init + [last];
      if IsBlank(last) {
        MarkedTrimEnd(init);
        MarkedBlankEnd(init, last);
      } else {
        StripOfRStrip(last);
        MarkedSameEnd(init, last, RStrip(last));
      }
    }
  }

  lemma TrimEndIs(lines: Lines)
    ensures TrimEnd(lines) ==
      if lines == [] then []
      else if IsBlank(lines[|lines| - 1]) then TrimEnd(lines[..|lines| - 1])
      else lines[..|lines| - 1] + [RStrip(lines[|lines| - 1])]
  {
    hide IsBlank, RStrip;
  }

  lemma {:induction false} MarkedBlankEnd(init: Lines, last: string)
    requires IsBlank(last)
    ensures MarkedLines(init + [last]) <==> MarkedLines(init)
  {
    hide *;
    NothingMarked();
    if init == [] {
      assert init + [last] == [last] + [];
      MarkedStep(last, []);
    } else {
      var rest := init[1..];
      assert init + [last] == [init[0]] + (rest + [last]) && init == [init[0]] + rest;
      MarkedStep(init[0], rest + [last]);
      MarkedStep(init[0], rest);
      MarkedBlankEnd(rest, last);
    }
  }

  lemma NothingMarked()
    ensures !MarkedLines([])
  {
  }

  lemma {:induction false} MarkedSameEnd(init: Lines, a: string, b: string)
    requires Strip(a) == Strip(b)
    ensures MarkedLines(init + [a]) <==> MarkedLines(init + [b])
  {
    hide *;
    BlankIs(a);
    BlankIs(b);
    if init == [] {
      assert init + [a] == [a] + [] && init + [b] == [b] + [];
      MarkedStep(a, []);
      MarkedStep(b, []);
    } else {
      var rest := init[1..];
      assert init + [a] == [init[0]] + (rest + [a]) && init + [b] == [init[0]] + (rest + [b]);
      MarkedStep(init[0], rest + [a]);
      MarkedStep(init[0], rest + [b]);
      MarkedSameEnd(rest, a, b);
    }
  }

  lemma BlankIs(s: string)
    ensures IsBlank(s) <==> Strip(s) == ""
  {
    hide Strip;
  }

  /** Stripping the text of lines keeps or leaves out the mark. */
  lemma MarkedText(lines: Lines)
    requires WellFormed(lines)
    ensures Marked(Strip(JoinLines(lines))) <==> MarkedLines(lines)
  {
    hide *;
    SplitTrimmed(lines);
    TrimLinesIs(lines);
    MarkedTrimStart(lines);
    MarkedTrimEnd(TrimStart(lines));
    MarkedIs(Strip(JoinLines(lines)));
  }

  lemma MarkedIs(text: string)
    ensures Marked(text) <==> MarkedLines(SplitLines(text))
  {
    hide SplitLines, MarkedLines;
  }

  /** A line break at the end changes neither the mark nor the beginning. */
  lemma FinalNewline(text: string)
    ensures Marked(WithFinalNewline(text)) <==> Marked(text)
    ensures text <= WithFinalNewline(text)
  {
    if text == "" || text[|text| - 1] != '\n' {
      BreakAtEnd(text);
      MarkedIs(text);
      MarkedIs(text + "\n");
      if text == "" {
        StripNothing();
        MarkedStep("", []);
        NothingMarked();
        assert [""] + [] == [""];
      }
    }
    hide *;
  }

  lemma BreakAtEnd(text: string)
    requires text == "" || text[|text| - 1] != '\n'
    ensures SplitLines("") == [] && SplitLines(text + "\n") == if text == "" then [""] else SplitLines(text)
  {
    if text == "" {
      assert OneLine("");
      SplitLinesFront("", "");
      assert "" + "\n" + "" == text + "\n" && [""] + [] == [""];
    } else {
      BreakBehind(text);
    }
    hide *;
  }

  lemma {:induction false} BreakBehind(text: string)
    requires text != "" && text[|text| - 1] != '\n'
    ensures SplitLines(text + "\n") == SplitLines(text)
  {
    hide *;
    FirstBreak(text);
    var i := Find(text, '\n');
    if i == |text| {
      SplitLinesFront(text, "");
      SplitOneLine(text);
      EmptySplits();
      assert text + "\n" + "" == text + "\n" && [text] + [] == [text];
    } else {
      var line, rest := text[..i], text[i + 1..];
      SplitAtNewline(text, i);
      BreakBehind(rest);
      SplitLinesFront(line, rest + "\n");
      assert line + "\n" + (rest + "\n") == text + "\n";
    }
  }

  lemma FirstBreak(text: string)
    requires text != "" && text[|text| - 1] != '\n'
    ensures var i := Find(text, '\n');
            && i <= |text| && OneLine(text[..i])
            && (i == |text| ==> OneLine(text))
            && (i < |text| ==> text[i] == '\n' && i + 1 < |text| && text[i + 1..][|text| - i - 2] != '\n')
  {
    assert text[..|text|] == text;
  }

  lemma EmptySplits()
    ensures SplitLines("") == []
  {
  }

  // ---------------------------------------------------------------- the rewritten text

  lemma BraceIsNotBlank(line: string)
    requires Strip(line) == "{"
    ensures !IsBlank(line) && line != MARKER
  {
    MarkerLine();
    assert |MARKER| > 1;
    hide Strip, MARKER;
  }

  /** Rewriting a text with a global block keeps what comes before the block, and so the mark. */
  lemma RewrittenBlockMark(text: string, managed: Lines)
    requires managed != [] && WellFormed(managed) && OpenFrom(SplitLines(text), 0) < |SplitLines(text)|
    ensures Marked(InjectManaged(text, managed)) <==> Marked(text)
  {
    hide *;
    var lines := SplitLines(text);
    var k := OpenFrom(lines, 0);
    var front := lines[..k + 1];
    OpenIsBrace(lines);
    BraceIsNotBlank(lines[k]);
    InjectIntoBlock(text, managed);
    SplitIsWellFormed(text);
    var next := Replaced(lines, k, managed);
    var behind := ReplacedLines(lines, k, managed);
    MarkedText(next);
    MarkedIs(text);
    assert lines == front + lines[k + 1..];
    MarkedFront(front, k, behind, lines[k + 1..]);
  }

  lemma SplitIsWellFormed(text: string)
    ensures WellFormed(SplitLines(text))
  {
  }

  lemma ReplacedLines(lines: Lines, k: nat, managed: Lines) returns (behind: Lines)
    requires k < |lines| && WellFormed(lines) && WellFormed(managed)
    ensures WellFormed(Replaced(lines, k, managed)) && Replaced(lines, k, managed) == lines[..k + 1] + behind
  {
    hide *;
    var c := k + CloseOr(lines[k..], 0);
    var body := if k < c then lines[k + 1..c] else [];
    ReplacedIs(lines, k, managed);
    SliceWellFormed(lines, 0, k + 1);
    SliceWellFormed(lines, c, |lines|);
    if k < c {
      SliceWellFormed(lines, k + 1, c);
    }
    assert lines[0..k + 1] == lines[..k + 1] && lines[c..|lines|] == lines[c..];
    NothingWellFormed();
    UnmanagedWellFormed(body);
    WellFormedParts(Unmanaged(body), lines[c..]);
    WellFormedParts(managed, Unmanaged(body) + lines[c..]);
    behind := managed + (Unmanaged(body) + lines[c..]);
    WellFormedParts(lines[..k + 1], behind);
    assert lines[..k + 1] + managed + Unmanaged(body) + lines[c..] == lines[..k + 1] + behind;
  }

  lemma NothingWellFormed()
    ensures WellFormed([])
  {
  }

  /** A text without a global block gets one in front, before any marker. */
  lemma NewBlockUnmarks(text: string, managed: Lines)
    requires managed != [] && WellFormed(managed) && OpenFrom(SplitLines(text), 0) == |SplitLines(text)|
    ensures !Marked(InjectManaged(text, managed))
  {
    hide *;
    var lines := NewBlock(managed, SplitLines(Strip(text)));
    InjectNewBlock(text, managed);
    NewBlockText(text, managed);
    NewBlockShape(managed, SplitLines(Strip(text)));
    MarkedText(lines);
    BracesAreClean();
    BraceIsNotBlank("{");
    MarkedStep("{", lines[1..]);
    assert lines == ["{"] + lines[1..];
    BraceIsNoMarker();
  }

  lemma BraceIsNoMarker()
    ensures "{" != MARKER
  {
    MarkerLine();
    assert |MARKER| > 1;
  }

  // ---------------------------------------------------------------- the marker text stays in front

  lemma {:induction false} JoinNotBlank(lines: Lines, k: nat)
    requires k < |lines| && !AllSpace(lines[k])
    ensures !AllSpace(JoinLines(lines))
  {
    var text := JoinLines(lines);
    if |lines| > 1 {
      var rest := JoinLines(lines[1..]);
      assert text == lines[0] + "\n" + rest;
      if k == 0 {
        var i :| 0 <= i < |lines[0]| && !IsSpace(lines[0][i]);
        assert text[i] == lines[0][i];
      } else {
        JoinNotBlank(lines[1..], k - 1);
        var i :| 0 <= i < |rest| && !IsSpace(rest[i]);
        assert text[|lines[0]| + 1 + i] == rest[i];
      }
    }
  }

  lemma MarkerStart()
    ensures MarkerText() != "" && !IsSpace(MarkerText()[0])
  {
    MarkerPieces();
    assert MARKER[0] == '#';
    hide EDIT_NOTICE, OWNER_NOTICE;
  }

  lemma StripBehindMarker(text: string)
    requires !AllSpace(text)
    ensures Strip(MarkerText() + text) == MarkerText() + RStrip(text)
  {
    MarkerStart();
    hide MarkerText, IsSpace, RStrip, LStrip;
    LStripTrimmed(MarkerText() + text);
    RStripConcat(MarkerText(), text);
  }

  lemma JoinBehindMarker(rest: Lines)
    requires rest != []
    ensures JoinLines(MARKER_LINES + rest) == MarkerText() + JoinLines(rest)
  {
    hide *;
    ThreeLines();
    var a, b, c := MARKER_LINES[0], MARKER_LINES[1], MARKER_LINES[2];
    MarkerPiecesJoined(JoinLines(rest));
    JoinCons(c, rest);
    JoinCons(b, [c] + rest);
    JoinCons(a, [b] + ([c] + rest));
    assert MARKER_LINES + rest == [a] + ([b] + ([c] + rest));
  }

  lemma MarkerLinesAreNoBlock()
    ensures |MARKER_LINES| == 3 && forall k :: 0 <= k < 3 ==> Strip(MARKER_LINES[k]) != "{"
  {
    hide *;
    MarkerIsPlain();
    ThreeLines();
    PlainIs(MARKER_LINES);
    forall k | 0 <= k < 3 ensures Strip(MARKER_LINES[k]) != "{" {
      BraceWithin(MARKER_LINES[k]);
    }
  }

  lemma PlainIs(lines: Lines)
    requires ArePlain(lines)
    ensures forall k :: 0 <= k < |lines| ==> '{' !in lines[k]
  {
  }

  lemma BraceWithin(line: string)
    ensures Strip(line) == "{" ==> '{' in line
  {
    var before, after := StripParts(line);
    hide Strip;
    if Strip(line) == "{" {
      assert line[|before|] == '{';
    }
  }

  /** A rewritten text that began with the marker text and has a global block still begins with it. */
  lemma MarkerTextStays(r: string, managed: Lines)
    requires managed != [] && WellFormed(managed)
    requires var lines := SplitLines(MarkerText() + r); OpenFrom(lines, 0) < |lines|
    ensures MarkerText() <= InjectManaged(MarkerText() + r, managed)
  {
    hide *;
    var text := MarkerText() + r;
    var lines := SplitLines(text);
    var k := OpenFrom(lines, 0);
    MarkerSplits(r);
    MarkerLinesAreNoBlock();
    OpenIsBrace(lines);
    BraceIsNotBlank(lines[k]);
    BlankIsAllSpace(lines[k]);
    assert forall i :: 0 <= i < 3 ==> lines[i] == MARKER_LINES[i];
    assert k >= 3;
    SplitIsWellFormed(text);
    var behind := ReplacedLines(lines, k, managed);
    var next := Replaced(lines, k, managed);
    var rest := next[3..];
    assert next == MARKER_LINES + rest && rest[k - 3] == lines[k];
    JoinNotBlank(rest, k - 3);
    JoinBehindMarker(rest);
    StripBehindMarker(JoinLines(rest));
    InjectIntoBlock(text, managed);
  }

  /** Rewriting keeps a well-marked text well marked. */
  lemma RewriteKeepsMark(text: string, endpoint: string, email: string)
    requires IsWellMarked(Some(text)) && endpoint != "" && OneLine(endpoint) && OneLine(email)
    ensures IsWellMarked(Some(WithFinalNewline(Inject(text, endpoint, email))))
  {
    hide *;
    var managed := ManagedLines(endpoint, email);
    var next := InjectManaged(text, managed);
    SettingsLines(endpoint, email);
    InjectIs(text, endpoint, email);
    FinalNewline(next);
    WellMarkedIs(text);
    WellMarkedIs(WithFinalNewline(next));
    if OpenFrom(SplitLines(text), 0) == |SplitLines(text)| {
      NewBlockUnmarks(text, managed);
    } else {
      OpenWithin(SplitLines(text));
      RewrittenBlockMark(text, managed);
      if Marked(text) {
        var r := text[|MarkerText()|..];
        assert text == MarkerText() + r;
        MarkerTextStays(r, managed);
        PrefixOfPrefix(MarkerText(), next, WithFinalNewline(next));
      }
    }
  }

  lemma PrefixOfPrefix(a: string, b: string, c: string)
    requires a <= b <= c
    ensures a <= c
  {
  }

  lemma WellMarkedIs(text: string)
    ensures IsWellMarked(Some(text)) <==> (Marked(text) ==> MarkerText() <= text)
  {
    hide Marked, MarkerText;
  }

  lemma SettingsLines(endpoint: string, email: string)
    requires endpoint != "" && OneLine(endpoint) && OneLine(email)
    ensures ManagedLines(endpoint, email) != [] && WellFormed(ManagedLines(endpoint, email))
  {
    assert OneLine("    admin " + endpoint) && OneLine("    email " + email);
    hide OneLine;
  }

  // ---------------------------------------------------------------- agreement after an enablement

  /** The enablement got as far as changing the Caddyfile. */
  predicate Changes(file: Option<string>, wizard: Wizard, e: Assist) {
    MayEnable(wizard, e) && !e.reachableBefore && Rewritten(file, e).1
  }

  predicate Succeeded(e: Assist) {
    e.restarts && Answers(e.polls) && !e.raises
  }

  /**
   Whether Caddyfile and Caddy agree afterwards. After a success, after the old text was put back and
   Caddy restarted from it, and after a lost restore behind a restart they do, whatever was before.
   Otherwise a restart failed, and what it left running must be what the text on disk stands for.
   */
  predicate EnablesInAgreement(world: World, s: System, wizard: Wizard, e: Assist) {
    var next := TextIn(Rewritten(s.file, e).0.caddyfile);
    if !Changes(s.file, wizard, e) then Coherent(world, s.file, s.running)
    else if Succeeded(e) then true
    else if e.restored then
      e.restartsAgain || !Marked(TextIn(s.file)) || e.leftAgain == Payload(world, TextIn(s.file))
    else
      e.restarts || !Marked(next) || e.left == Payload(world, next)
  }

  /** The managed lines of an enablement are lines: the endpoint is `host:port`, the address one word. */
  predicate HasPlainSettings(e: Assist) {
    e.endpoint != "" && OneLine(e.endpoint) && OneLine(e.email)
  }

  /** What the assisted enablement leaves, case by case. */
  lemma EnableLeaves(world: World, s: System, wizard: Wizard, e: Assist)
    ensures var file := Enable(s.file, wizard, e).0;
            var running := RunsAfter(world, s.file, s.running, wizard, e);
            var rewritten := Rewritten(s.file, e).0.caddyfile;
            if !Changes(s.file, wizard, e) then file == s.file && running == s.running
            else
              && s.file.Some? && rewritten.Some?
              && file == (if e.restored && !Succeeded(e) then s.file else rewritten)
              && running ==
                   if e.restored && !Succeeded(e) then
                     if e.restartsAgain then Payload(world, TextIn(s.file)) else e.leftAgain
                   else if e.restarts then Payload(world, TextIn(rewritten)) else e.left
  {
    RewrittenBackup(s.file, e);
    hide Rewritten, Preflight, MarkFailed, Answers, Payload, MayAssist;
  }

  /** The rewritten text of an enablement is well marked if the old one was. */
  lemma RewrittenIsWellMarked(file: Option<string>, e: Assist)
    requires IsWellMarked(file) && Rewritten(file, e).1 && HasPlainSettings(e)
    ensures IsWellMarked(Rewritten(file, e).0.caddyfile)
  {
    RewriteKeepsMark(file.value, e.endpoint, e.email);
    hide Inject, IsWellMarked, WithFinalNewline;
  }

  /** After an assisted enablement: exactly when Caddyfile and Caddy agree, whether they did before or not. */
  lemma EnableAgreement(world: World, s: System, wizard: Wizard, e: Assist)
    requires IgnoresMarker(world) && IsWellMarked(s.file) && HasPlainSettings(e)
    ensures Coherent(world, Enable(s.file, wizard, e).0, RunsAfter(world, s.file, s.running, wizard, e)) <==>
              EnablesInAgreement(world, s, wizard, e)
  {
    hide *;
    EnableLeaves(world, s, wizard, e);
    InAgreementIs(world, s, wizard, e);
    if Changes(s.file, wizard, e) {
      var was, next := TextIn(s.file), TextIn(Rewritten(s.file, e).0.caddyfile);
      ChangesIs(s.file, wizard, e);
      TextInIs(s.file);
      TextInIs(Rewritten(s.file, e).0.caddyfile);
      RewrittenIsWellMarked(s.file, e);
      BootedAgrees(world, was);
      BootedAgrees(world, next);
      OtherConfig(world, was, Payload(world, was), e.leftAgain);
      OtherConfig(world, next, Payload(world, next), e.left);
      SucceededIs(e);
    }
  }

  lemma TextInIs(file: Option<string>)
    ensures file.Some? ==> file == Some(TextIn(file))
  {
  }

  lemma SucceededIs(e: Assist)
    ensures Succeeded(e) ==> e.restarts
  {
  }

  lemma ChangesIs(file: Option<string>, wizard: Wizard, e: Assist)
    ensures Changes(file, wizard, e) ==> Rewritten(file, e).1
  {
    hide Rewritten, MayEnable;
  }

  lemma InAgreementIs(world: World, s: System, wizard: Wizard, e: Assist)
    ensures var next := TextIn(Rewritten(s.file, e).0.caddyfile);
            EnablesInAgreement(world, s, wizard, e) <==>
              if !Changes(s.file, wizard, e) then Coherent(world, s.file, s.running)
              else if Succeeded(e) then true
              else if e.restored then
                e.restartsAgain || !Marked(TextIn(s.file)) || e.leftAgain == Payload(world, TextIn(s.file))
              else
                e.restarts || !Marked(next) || e.left == Payload(world, next)
  {
    hide Rewritten, Changes, Succeeded, Coherent, Marked, Payload, TextIn;
  }
}
