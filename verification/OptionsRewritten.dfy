/**
 What `inject_global_options` does to a text (app/utils/caddyfile.py:746-802), said in terms of its
 lines, their braces and their words alone.
 */
module OptionsRewritten {
  import opened Text
  import opened Parser
  import opened GlobalOptions
  import opened LastWrite

  // ---------------------------------------------------------------- braces

  /** The net number of a line is its opening braces less its closing ones. */
  lemma {:induction false} NetCounts(s: string)
    ensures Net(s) + multiset(s)['}'] == multiset(s)['{']
  {
    if s != "" {
      NetCounts(s[1..]);
      assert s == [s[0]] + s[1..];
      assert multiset(s) == multiset{s[0]} + multiset(s[1..]);
    }
  }

  /** The net number of the lines from `i` up to `j`. */
  function NetBetween(lines: Lines, i: nat, j: nat): int
    requires i <= j <= |lines|
  {
    NetLines(lines[i..j])
  }

  lemma NetBetweenStep(lines: Lines, i: nat)
    requires 0 < i <= |lines|
    ensures NetBetween(lines, 0, i) == Net(lines[0]) + NetBetween(lines[1..], 0, i - 1)
    ensures forall j :: 0 < j <= i ==> NetBetween(lines, j, i) == NetBetween(lines[1..], j - 1, i - 1)
  {
    NetLinesStep(lines[0..i]);
    assert lines[0..i][1..] == lines[1..][0..i - 1];
    hide Net, NetLines;
    forall j | 0 < j <= i ensures NetBetween(lines, j, i) == NetBetween(lines[1..], j - 1, i - 1) {
      assert lines[j..i] == lines[1..][j - 1..i - 1];
    }
  }

  /** The running depth, which never counts below zero, is zero in front of line `i`. */
  predicate IsTopLevel(lines: Lines, i: nat, depth: int)
    requires i <= |lines|
  {
    depth + NetBetween(lines, 0, i) <= 0 && forall j :: 0 <= j <= i ==> NetBetween(lines, j, i) <= 0
  }

  lemma TopLevelStep(lines: Lines, i: nat, depth: int)
    requires 0 < i <= |lines| && depth >= 0
    ensures IsTopLevel(lines, i, depth) <==> IsTopLevel(lines[1..], i - 1, Max0(depth + Net(lines[0])))
  {
    hide Net, NetBetween;
    var rest := lines[1..];
    NetBetweenStep(lines, i);
    if IsTopLevel(rest, i - 1, Max0(depth + Net(lines[0]))) {
      assert NetBetween(rest, 0, i - 1) <= 0;
      forall j | 0 <= j <= i ensures NetBetween(lines, j, i) <= 0 {
        if j > 0 {
          assert NetBetween(rest, j - 1, i - 1) <= 0;
        }
      }
    }
    if IsTopLevel(lines, i, depth) {
      var n := i - 1;
      forall j | 0 <= j <= n ensures NetBetween(rest, j, n) <= 0 {
        assert NetBetween(lines, j + 1, i) <= 0;
      }
      assert NetBetween(rest, 0, i - 1) <= 0;
    }
  }

  predicate IsOpening(lines: Lines, i: nat, depth: int)
    requires i < |lines|
  {
    Strip(lines[i]) == "{" && IsTopLevel(lines, i, depth)
  }

  /** The first opening is at line `k`, or there is none and `k` is the number of lines. */
  predicate IsFirst(lines: Lines, k: nat, depth: int) {
    && k <= |lines| && (k < |lines| ==> IsOpening(lines, k, depth))
    && forall i :: 0 <= i < k ==> !IsOpening(lines, i, depth)
  }

  /** The block opens at the first bare brace at the top level, if there is one. */
  lemma {:induction false} OpensAtFirst(lines: Lines, depth: int)
    requires depth >= 0
    ensures IsFirst(lines, OpenFrom(lines, depth), depth)
  {
    if lines != [] {
      TopLevelStart(lines, depth);
      if !(depth == 0 && Strip(lines[0]) == "{") {
        var next, rest := Max0(depth + Net(lines[0])), lines[1..];
        OpensAtFirst(rest, next);
        hide Strip, Net, IsTopLevel;
        forall i | 0 <= i < |rest| ensures IsOpening(lines, i + 1, depth) <==> IsOpening(rest, i, next) {
          TopLevelStep(lines, i + 1, depth);
        }
        forall i | 0 <= i < OpenFrom(lines, depth) ensures !IsOpening(lines, i, depth) {
          if i > 0 {
            assert IsOpening(lines, i - 1 + 1, depth) <==> IsOpening(rest, i - 1, next);
          }
        }
      }
    }
  }

  lemma TopLevelStart(lines: Lines, depth: int)
    requires lines != [] && depth >= 0
    ensures IsTopLevel(lines, 0, depth) <==> depth == 0
  {
    NoNetLines();
    assert lines[0..0] == [];
  }

  /** The block ends where its braces first balance, else with the text. */
  lemma {:induction false} ClosesAtFirst(lines: Lines, depth: int)
    ensures var c := CloseFrom(lines, depth);
            && (c < |lines| ==> depth + NetBetween(lines, 0, c + 1) == 0)
            && forall i :: 0 < i <= c ==> depth + NetBetween(lines, 0, i) != 0
  {
    hide Net, NetBetween;
    if lines != [] {
      var next, rest := depth + Net(lines[0]), lines[1..];
      ClosesAtFirst(rest, next);
      forall i | 0 < i <= |lines| ensures depth + NetBetween(lines, 0, i) == next + NetBetween(rest, 0, i - 1) {
        NetBetweenStep(lines, i);
      }
      NothingBetween(rest);
      forall i | 0 < i <= CloseFrom(lines, depth) ensures depth + NetBetween(lines, 0, i) != 0 {
        if i > 1 {
          assert next + NetBetween(rest, 0, i - 1) != 0;
        }
      }
    }
  }

  lemma NothingBetween(lines: Lines)
    ensures NetBetween(lines, 0, 0) == 0
  {
    NoNetLines();
  }

  // ---------------------------------------------------------------- which lines are removed

  predicate IsWordEnd(rest: string) {
    rest == "" || !('a' <= rest[0] <= 'z' || 'A' <= rest[0] <= 'Z' || '0' <= rest[0] <= '9' || rest[0] == '_')
  }

  /** The line is white space, then `admin` or `email` as a whole word, then anything. */
  predicate IsOption(line: string, pad: string, word: string, rest: string) {
    line == pad + word + rest && AllSpace(pad) && (word == "admin" || word == "email") && IsWordEnd(rest)
  }

  /** Those lines are the ones the rewrite takes out, and no others. */
  lemma RemovedIs(line: string)
    ensures IsManaged(line) <==> exists pad, word, rest :: IsOption(line, pad, word, rest)
  {
    if IsManaged(line) {
      var pad := LStripHead(line);
      var s := LStrip(line);
      var word, rest := s[..5], s[5..];
      assert word == "admin" || word == "email";
      assert line == pad + word + rest;
      assert IsOption(line, pad, word, rest);
    }
    if pad, word, rest :| IsOption(line, pad, word, rest) {
      OptionIsManaged(line, pad, word, rest);
    }
  }

  lemma OptionIsManaged(line: string, pad: string, word: string, rest: string)
    requires IsOption(line, pad, word, rest)
    ensures IsManaged(line)
  {
    var s := word + rest;
    assert line == pad + s;
    LStripPrefix(pad, s);
    LStripTrimmed(s);
    assert |word| == 5 && word <= s && (rest != "" ==> s[5] == rest[0]);
    hide LStrip;
  }

  /** The lines at some places, in order. */
  function At(lines: Lines, places: seq<nat>): Lines
    requires forall p :: 0 <= p < |places| ==> places[p] < |lines|
  {
    seq(|places|, p requires 0 <= p < |places| => lines[places[p]])
  }

  /** The places of the lines that stay, in ascending order: each of them, and nothing else. */
  ghost predicate ArePlacesKept(lines: Lines, places: seq<nat>) {
    && (forall p :: 0 <= p < |places| ==> places[p] < |lines|)
    && (forall p, q :: 0 <= p < q < |places| ==> places[p] < places[q])
    && (forall i :: 0 <= i < |lines| ==> (i in places <==>
      !exists pad, word, rest :: IsOption(lines[i], pad, word, rest)))
  }

  lemma {:induction false} KeptPlaces(lines: Lines) returns (places: seq<nat>)
    ensures ArePlacesKept(lines, places) && Unmanaged(lines) == At(lines, places)
  {
    hide IsManaged, IsOption, ArePlacesKept;
    places := [];
    if lines == [] {
      NoPlaces();
    } else {
      var init, last := lines[..|lines| - 1], lines[|lines| - 1];
      var before := KeptPlaces(init);
      assert lines == init + [last];
      UnmanagedLast(init, last);
      RemovedIs(last);
      PlacesStep(init, last, before);
      places := if IsManaged(last) then before else before + [|init|];
    }
  }

  lemma NoPlaces()
    ensures ArePlacesKept([], [])
  {
  }

  lemma PlacesStep(init: Lines, last: string, before: seq<nat>)
    requires ArePlacesKept(init, before)
    ensures var lines := init + [last];
            var more := before + [|init|];
            var gone := exists pad, word, rest :: IsOption(last, pad, word, rest);
            && ArePlacesKept(init, before)
            && (forall p :: 0 <= p < |before| ==> before[p] < |lines|) && At(lines, before) == At(init, before)
            && (forall p :: 0 <= p < |more| ==> more[p] < |lines|) && At(lines, more) == At(init, before) + [last]
            && ArePlacesKept(lines, if gone then before else more)
  {
    hide IsOption;
    var lines, n := init + [last], |init|;
    var more := before + [n];
    assert n !in before && more[|before|] == n;
    forall i | 0 <= i < n ensures lines[i] == init[i] && (i in more <==> i in before) {
      if i in more {
        var p :| 0 <= p < |more| && more[p] == i;
        assert before[p] == i;
      }
    }
    assert lines[n] == last;
  }

  // ---------------------------------------------------------------- the rewritten lines

  /** The global block of the text reaches from line `k` to line `c`. */
  ghost predicate IsBlock(lines: Lines, k: nat, c: nat) {
    && k <= c < |lines| && IsFirst(lines, k, 0)
    && (forall i :: k < i <= c ==> NetBetween(lines, k, i) != 0)
    && (NetBetween(lines, k, c + 1) == 0 || c == |lines| - 1)
  }

  lemma BetweenInTail(lines: Lines, k: nat, i: nat)
    requires k <= i <= |lines|
    ensures NetBetween(lines, k, i) == NetBetween(lines[k..], 0, i - k)
  {
    assert lines[k..i] == lines[k..][0..i - k];
  }

  lemma BlockFound(lines: Lines)
    ensures var k := OpenFrom(lines, 0);
            IsFirst(lines, k, 0) && (k < |lines| ==> IsBlock(lines, k, k + CloseOr(lines[k..], 0)))
  {
    hide *;
    OpensAtFirst(lines, 0);
    OpenWithin(lines);
    if OpenFrom(lines, 0) < |lines| {
      BlockReaches(lines, OpenFrom(lines, 0));
    }
  }

  lemma BlockReaches(lines: Lines, k: nat)
    requires k < |lines| && IsFirst(lines, k, 0)
    ensures IsBlock(lines, k, k + CloseOr(lines[k..], 0))
  {
    hide IsFirst, NetBetween, CloseFrom;
    ClosesAtFirst(lines[k..], 0);
    forall i | k <= i <= |lines| ensures NetBetween(lines, k, i) == NetBetween(lines[k..], 0, i - k) {
      BetweenInTail(lines, k, i);
    }
  }

  /** The option lines the settings stand for. */
  function Settings(admin: string, email: string): Lines {
    if admin != "" && email != "" then ["    admin " + admin, "    email " + email]
    else if admin != "" then ["    admin " + admin]
    else if email != "" then ["    email " + email]
    else []
  }

  /**
   The whole rewrite of a text with a global block: the lines up to the opening brace, the settings,
   the lines of the block that are no `admin` or `email` option, and the rest from the closing brace.
   */
  lemma RewrittenText(b: string, admin: string, email: string) returns (k: nat, c: nat, places: seq<nat>)
    requires admin != "" || email != ""
    requires !IsFirst(SplitLines(b), |SplitLines(b)|, 0)
    ensures var lines := SplitLines(b);
            && IsBlock(lines, k, c)
            && (if k < c then ArePlacesKept(lines[k + 1..c], places) else places == [])
            && var kept := if k < c then At(lines[k + 1..c], places) else [];
               Inject(b, admin, email) == Strip(JoinLines(lines[..k + 1] + Settings(admin, email) + kept + lines[c..]))
  {
    hide *;
    var lines, managed := SplitLines(b), ManagedLines(admin, email);
    BlockFound(lines);
    OpenWithin(lines);
    k := OpenFrom(lines, 0);
    c := k + CloseOr(lines[k..], 0);
    places := [];
    if k < c {
      places := KeptPlaces(lines[k + 1..c]);
    }
    UnmanagedEmpty();
    ReplacedIs(lines, k, managed);
    SettingsAre(admin, email);
    InjectIs(b, admin, email);
    InjectIntoBlock(b, managed);
    BlockBounds(lines, k, c);
  }

  lemma BlockBounds(lines: Lines, k: nat, c: nat)
    requires IsBlock(lines, k, c)
    ensures k <= c < |lines|
  {
    hide IsOpening, NetLines;
  }

  lemma SettingsAre(admin: string, email: string)
    ensures ManagedLines(admin, email) == Settings(admin, email)
    ensures admin != "" || email != "" ==> Settings(admin, email) != []
  {
  }

  /** A text without a global block gets one in front; without settings nothing is written at all. */
  lemma TextWithoutBlock(b: string, admin: string, email: string)
    requires IsFirst(SplitLines(b), |SplitLines(b)|, 0)
    ensures admin != "" || email != "" ==>
              Inject(b, admin, email) ==
                "{\n" + JoinLines(Settings(admin, email)) + "\n}" + (if Strip(b) == "" then "" else "\n\n" + Strip(b))
    ensures admin == "" && email == "" ==> Inject(b, admin, email) == Strip(b)
  {
    hide *;
    var lines, managed := SplitLines(b), ManagedLines(admin, email);
    BlockFound(lines);
    OpenWithin(lines);
    SettingsAre(admin, email);
    InjectIs(b, admin, email);
    if admin == "" && email == "" {
      NothingWritten(b);
    } else {
      NoBlock(lines);
      InjectNewBlock(b, managed);
      BlockAsText(managed);
      WithBlockIs(b, managed);
      StripIdempotent(b);
      if Strip(b) != "" {
        TrimmedBlock(JoinLines(managed), Strip(b));
      }
    }
  }

  lemma NoBlock(lines: Lines)
    requires IsFirst(lines, |lines|, 0)
    ensures OpenFrom(lines, 0) == |lines|
  {
    OpensAtFirst(lines, 0);
    hide IsOpening;
  }

  lemma NothingWritten(b: string)
    ensures Inject(b, "", "") == Strip(b)
  {
    hide Strip;
  }

  lemma BlockAsText(managed: Lines)
    requires managed != []
    ensures JoinLines(["{"] + managed + ["}"]) == "{\n" + JoinLines(managed) + "\n}"
  {
    hide JoinLines;
    assert ["{"] + managed + ["}"] == ["{"] + (managed + ["}"]);
    JoinCons("{", managed + ["}"]);
    JoinConcat(managed, ["}"]);
    JoinOne("}");
  }

  lemma JoinOne(line: string)
    ensures JoinLines([line]) == line
  {
  }

  lemma WithBlockIs(b: string, managed: Lines)
    ensures var block := JoinLines(["{"] + managed + ["}"]);
            WithNewBlock(b, managed) == if Strip(b) == "" then block else Strip(block + "\n\n" + Strip(b))
  {
    hide JoinLines, Strip;
  }

  lemma TrimmedBlock(inner: string, rest: string)
    requires Strip(rest) == rest != ""
    ensures Strip("{\n" + inner + "\n}" + "\n\n" + rest) == "{\n" + inner + "\n}" + "\n\n" + rest
  {
    var before, after := StripParts(rest);
    var text := "{\n" + inner + "\n}" + "\n\n" + rest;
    assert text[0] == '{' && text[|text| - 1] == rest[|rest| - 1];
    StripTrimmed(text);
    hide Strip;
  }
}
