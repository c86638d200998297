/**
 The editor's brace matcher (app/static/js/caddy-editor-braces.js) and the comment stripper that
 must agree with it on where the code of a line ends (app/utils/caddyfile.py, `_strip_caddy_comment`).
 */
module Braces {
  import opened Text

  // ---------------------------------------------------------------- reading a line

  datatype Reading = Code | Quoted | Escaped | Comment

  function Next(r: Reading, c: char): Reading {
    match r
    case Code => if c == '"' then Quoted else if c == '#' then Comment else Code
    case Quoted => if c == '\\' then Escaped else if c == '"' then Code else Quoted
    case Escaped => Quoted
    case Comment => Comment
  }

  /** How the character at `k` is read. */
  function ReadingAt(line: string, k: nat): Reading
    requires k <= |line|
  {
    if k == 0 then Code else Next(ReadingAt(line, k - 1), line[k - 1])
  }

  predicate IsCut(line: string, k: nat)
    requires k < |line|
  {
    ReadingAt(line, k) == Code && line[k] == '#'
  }

  /** A brace outside quotes and comments. */
  predicate IsLive(line: string, k: nat)
    requires k < |line|
  {
    ReadingAt(line, k) == Code && (line[k] == '{' || line[k] == '}')
  }

  datatype Token = Token(pos: nat, open: bool)

  /** Live braces among the first `k` characters of a line that starts at `offset`. */
  function LineTokens(line: string, offset: nat, k: nat): seq<Token>
    requires k <= |line|
  {
    if k == 0 then []
    else LineTokens(line, offset, k - 1) + if IsLive(line, k - 1)
      then [Token(offset + k - 1, line[k - 1] == '{')] else []
  }

  lemma {:induction false} CommentStays(line: string, k: nat, n: nat)
    requires k < n <= |line| && IsCut(line, k)
    ensures ReadingAt(line, n) == Comment
  {
    if n > k + 1 {
      CommentStays(line, k, n - 1);
    }
  }

  lemma {:induction false} CommentIsSilent(line: string, offset: nat, k: nat, n: nat)
    requires k < n <= |line| && IsCut(line, k)
    ensures LineTokens(line, offset, n) == LineTokens(line, offset, k)
  {
    hide ReadingAt;
    if n > k + 1 {
      CommentIsSilent(line, offset, k, n - 1);
      CommentStays(line, k, n - 1);
    }
  }

  // ---------------------------------------------------------------- where the code of a line ends

  /** No comment starts among the first `k` characters. */
  predicate NoCut(line: string, k: nat)
    requires k <= |line|
  {
    forall i :: 0 <= i < k ==> !IsCut(line, i)
  }

  /** The end of the code of a line: its first comment sign, or its length. */
  predicate IsCodeEnd(line: string, end: nat) {
    end <= |line| && NoCut(line, end) && (end < |line| ==> IsCut(line, end))
  }

  /** Flags of the two loops, which keep `inQuote` and `escaped` instead of a reading. */
  predicate Flags(r: Reading, inQuote: bool, escaped: bool) {
    match r
    case Code => !inQuote && !escaped
    case Quoted => inQuote && !escaped
    case Escaped => inQuote && escaped
    case Comment => false
  }

  function CutFrom(line: string, k: nat): (end: nat)
    requires k <= |line| && NoCut(line, k)
    ensures IsCodeEnd(line, end)
    decreases |line| - k
  {
    if k == |line| || IsCut(line, k) then k else CutFrom(line, k + 1)
  }

  function CodeEnd(line: string): (end: nat)
    ensures IsCodeEnd(line, end)
  {
    CutFrom(line, 0)
  }

  lemma FlagStep(line: string, k: nat, inQuote: bool, escaped: bool)
    requires k < |line| && Flags(ReadingAt(line, k), inQuote, escaped)
    ensures !inQuote && line[k] == '#' <==> IsCut(line, k)
    ensures escaped ==> inQuote
    ensures !IsCut(line, k) ==> Flags(ReadingAt(line, k + 1),
        if escaped || (inQuote && line[k] == '\\') then inQuote else if line[k] == '"' then !inQuote else inQuote,
        !escaped && inQuote && line[k] == '\\')
  {
  }

  /** `_strip_caddy_comment`: keeps the code of the line up to trailing white space. */
  method StripComment(line: string) returns (r: string)
    ensures r == RStrip(line[..CodeEnd(line)])
  {
    LineStart(line, 0);
    hide RStrip, CodeEnd, IsCut, Flags, ReadingAt;
    var inQuote, escaped := false, false;
    var result := "";
    var i := 0;
    while i < |line|
      invariant i <= |line| && result == line[..i] && NoCut(line, i)
      invariant Flags(ReadingAt(line, i), inQuote, escaped)
    {
      var c := line[i];
      FlagStep(line, i, inQuote, escaped);
      if escaped {
        result, escaped := result + [c], false;
      } else if c == '\\' && inQuote {
        result, escaped := result + [c], true;
      } else if c == '"' {
        inQuote := !inQuote;
        result := result + [c];
      } else if c == '#' && !inQuote {
        break;
      } else {
        result := result + [c];
      }
      i := i + 1;
    }
    CodeEndIsUnique(line, i, CodeEnd(line));
    r := RStrip(result);
  }

  /** There is only one end of the code, so the scanner and the stripper cut a line at the same place. */
  lemma CodeEndIsUnique(line: string, end: nat, other: nat)
    requires IsCodeEnd(line, end) && IsCodeEnd(line, other)
    ensures end == other
  {
    hide IsCut;
    if end < other {
      NoCutBefore(line, other, end);
    } else if other < end {
      NoCutBefore(line, end, other);
    }
  }

  lemma NoCutBefore(line: string, n: nat, k: nat)
    requires k < n <= |line| && NoCut(line, n)
    ensures !IsCut(line, k)
  {
    hide IsCut;
  }

  lemma {:induction false} SamePrefix(line: string, m: nat, offset: nat, k: nat)
    requires k <= m <= |line|
    ensures ReadingAt(line[..m], k) == ReadingAt(line, k)
    ensures LineTokens(line[..m], offset, k) == LineTokens(line, offset, k)
  {
    hide Next;
    if k > 0 {
      SamePrefix(line, m, offset, k - 1);
    }
  }

  lemma {:induction false} SpacesAreSilent(line: string, offset: nat, m: nat, k: nat)
    requires m <= k <= |line| && forall i :: m <= i < k ==> IsSpace(line[i])
    ensures LineTokens(line, offset, k) == LineTokens(line, offset, m)
  {
    hide ReadingAt;
    if k > m {
      SpacesAreSilent(line, offset, m, k - 1);
    }
  }

  /**
   The scanner and the stripper agree on every line: what the stripper keeps has the same live
   braces, at the same places, as the line it was given, and no comment is left in it.
   */
  lemma StripperKeepsBraces(line: string, offset: nat)
    ensures var kept := RStrip(line[..CodeEnd(line)]);
            && LineTokens(kept, offset, |kept|) == LineTokens(line, offset, |line|)
            && CodeEnd(kept) == |kept|
  {
    var end := CodeEnd(line);
    var kept := RStrip(line[..end]);
    RStripSpaces(line[..end]);
    hide RStrip, CodeEnd, ReadingAt, LineTokens;
    if end < |line| {
      CommentIsSilent(line, offset, end, |line|);
    }
    assert forall i :: |kept| <= i < end ==> IsSpace(line[i]) by {
      assert forall i :: |kept| <= i < end ==> line[i] == line[..end][|kept|..][i - |kept|];
    }
    assert kept == line[..|kept|];
    SpacesAreSilent(line, offset, |kept|, end);
    SamePrefix(line, |kept|, offset, |kept|);
    forall i | 0 <= i < |kept| ensures !IsCut(kept, i) {
      SamePrefix(line, |kept|, offset, i);
      assert !IsCut(line, i);
    }
    CodeEndIsUnique(kept, CodeEnd(kept), |kept|);
  }

  // ---------------------------------------------------------------- a document

  /** JavaScript's `split("\n")`: a final line break gives a last empty line. */
  function Split(doc: string): (lines: Lines)
    ensures lines != []
  {
    var i := Find(doc, '\n');
    if i == |doc| then [doc] else [doc[..i]] + Split(doc[i + 1..])
  }

  /** Offset of line `n` in the document. */
  function Offset(lines: Lines, n: nat): nat
    requires n <= |lines|
  {
    if n == 0 then 0 else Offset(lines, n - 1) + |lines[n - 1]| + 1
  }

  function TokensOf(lines: Lines, n: nat): seq<Token>
    requires n <= |lines|
  {
    if n == 0 then [] else TokensOf(lines, n - 1) + LineTokens(lines[n - 1], Offset(lines, n - 1), |lines[n - 1]|)
  }

  /** The braces of a document outside quotes and comments, in order. */
  function Tokens(doc: string): seq<Token> {
    var lines := Split(doc);
    TokensOf(lines, |lines|)
  }

  lemma {:induction false} OffsetStep(first: string, rest: Lines, n: nat)
    requires n <= |rest|
    ensures Offset([first] + rest, n + 1) == |first| + 1 + Offset(rest, n)
  {
    var lines := [first] + rest;
    if n == 0 {
      assert Offset(lines, 1) == Offset(lines, 0) + |lines[0]| + 1;
    } else {
      OffsetStep(first, rest, n - 1);
      assert lines[n] == rest[n - 1];
    }
  }

  /** Line and column name the right character of the document. */
  lemma {:induction false} CharacterAt(doc: string, n: nat, k: nat)
    requires n < |Split(doc)| && k < |Split(doc)[n]|
    ensures var p := Offset(Split(doc), n) + k; p < |doc| && doc[p] == Split(doc)[n][k]
    decreases |doc|
  {
    hide *;
    var i, lines := Find(doc, '\n'), Split(doc);
    SplitStep(doc);
    FirstOffset(lines);
    if i < |doc| {
      var first, rest := doc[..i], doc[i + 1..];
      var tail := Split(rest);
      assert lines == [first] + tail;
      if n > 0 {
        assert lines[n] == tail[n - 1];
        CharacterAt(rest, n - 1, k);
        OffsetStep(first, tail, n - 1);
        assert rest[Offset(tail, n - 1) + k] == doc[i + 1 + Offset(tail, n - 1) + k];
      }
    }
  }

  lemma SplitStep(doc: string)
    ensures var i := Find(doc, '\n');
            Split(doc) == if i == |doc| then [doc] else [doc[..i]] + Split(doc[i + 1..])
  {
    hide Find;
  }

  lemma FirstOffset(lines: Lines)
    ensures Offset(lines, 0) == 0
  {
  }

  // ---------------------------------------------------------------- the matcher

  /** Index lists: closing braces met with an empty stack, and the stack of open braces. */
  datatype Matching = Matching(orphans: seq<nat>, stack: seq<nat>)

  function Match(tokens: seq<Token>, n: nat): Matching
    requires n <= |tokens|
  {
    if n == 0 then Matching([], [])
    else
      var m := Match(tokens, n - 1);
      if tokens[n - 1].open then m.(stack := m.stack + [n - 1])
      else if m.stack == [] then m.(orphans := m.orphans + [n - 1])
      else m.(stack := m.stack[..|m.stack| - 1])
  }

  datatype Problem = UnmatchedClosing | UnmatchedOpening
  datatype Diagnostic = Diagnostic(start: nat, end: nat, problem: Problem)

  predicate InRange(indices: seq<nat>, n: nat) {
    forall k :: 0 <= k < |indices| ==> indices[k] < n
  }

  function Report(tokens: seq<Token>, indices: seq<nat>, problem: Problem): (r: seq<Diagnostic>)
    requires InRange(indices, |tokens|)
    ensures |r| == |indices|
    ensures forall k :: 0 <= k < |r| ==> r[k] == Diagnostic(tokens[indices[k]].pos, tokens[indices[k]].pos + 1, problem)
  {
    seq(|indices|, k requires 0 <= k < |indices| => Diagnostic(tokens[indices[k]].pos, tokens[indices[k]].pos + 1,
      problem))
  }

  function Positions(tokens: seq<Token>, indices: seq<nat>): (r: seq<nat>)
    requires InRange(indices, |tokens|)
    ensures |r| == |indices|
    ensures forall k :: 0 <= k < |r| ==> r[k] == tokens[indices[k]].pos
  {
    seq(|indices|, k requires 0 <= k < |indices| => tokens[indices[k]].pos)
  }

  lemma {:induction false} MatchInRange(tokens: seq<Token>, n: nat)
    requires n <= |tokens|
    ensures var m := Match(tokens, n);
            InRange(m.stack, n) && InRange(m.orphans, n)
  {
    if n > 0 {
      MatchInRange(tokens, n - 1);
    }
  }

  lemma {:induction false} MatchPrefix(tokens: seq<Token>, more: seq<Token>, n: nat)
    requires n <= |tokens|
    ensures Match(tokens + more, n) == Match(tokens, n)
  {
    if n > 0 {
      MatchPrefix(tokens, more, n - 1);
    }
  }

  /** Where the loops stand after the tokens `seen`: open positions and diagnostics so far. */
  ghost predicate Reached(seen: seq<Token>, stack: seq<nat>, diagnostics: seq<Diagnostic>) {
    var m := Match(seen, |seen|);
    MatchInRange(seen, |seen|);
    stack == Positions(seen, m.stack) && diagnostics == Report(seen, m.orphans, UnmatchedClosing)
  }

  lemma ReachedStart()
    ensures Reached([], [], [])
  {
  }

  lemma ReachedOpening(seen: seq<Token>, stack: seq<nat>, diagnostics: seq<Diagnostic>, pos: nat)
    requires Reached(seen, stack, diagnostics)
    ensures Reached(seen + [Token(pos, true)], stack + [pos], diagnostics)
  {
    var next, n := seen + [Token(pos, true)], |seen|;
    MatchPrefix(seen, [Token(pos, true)], n);
    MatchInRange(seen, n);
    MatchInRange(next, n + 1);
  }

  lemma ReachedClosing(seen: seq<Token>, stack: seq<nat>, diagnostics: seq<Diagnostic>, pos: nat)
    requires Reached(seen, stack, diagnostics)
    ensures var next := seen + [Token(pos, false)];
            if stack == [] then Reached(next, [], diagnostics + [Diagnostic(pos, pos + 1, UnmatchedClosing)])
            else Reached(next, stack[..|stack| - 1], diagnostics)
  {
    var next, n := seen + [Token(pos, false)], |seen|;
    MatchPrefix(seen, [Token(pos, false)], n);
    MatchInRange(seen, n);
    MatchInRange(next, n + 1);
  }

  function Diagnostics(tokens: seq<Token>): seq<Diagnostic> {
    MatchInRange(tokens, |tokens|);
    var m := Match(tokens, |tokens|);
    Report(tokens, m.orphans, UnmatchedClosing) + Report(tokens, m.stack, UnmatchedOpening)
  }

  lemma ReachedEnd(seen: seq<Token>, stack: seq<nat>, diagnostics: seq<Diagnostic>)
    requires Reached(seen, stack, diagnostics)
    ensures diagnostics + seq(|stack|, k requires 0 <= k < |stack| => Diagnostic(stack[k], stack[k] + 1,
        UnmatchedOpening)) == Diagnostics(seen)
  {
    MatchInRange(seen, |seen|);
  }

  lemma TokenStep(line: string, offset: nat, k: nat, inQuote: bool, escaped: bool)
    requires k < |line| && Flags(ReadingAt(line, k), inQuote, escaped)
    ensures var c := line[k];
            var live := !inQuote && (c == '{' || c == '}');
            LineTokens(line, offset, k + 1) == LineTokens(line, offset, k)
              + (if live then [Token(offset + k, c == '{')] else [])
  {
  }

  lemma LineStart(line: string, offset: nat)
    ensures Flags(ReadingAt(line, 0), false, false) && LineTokens(line, offset, 0) == []
  {
  }

  lemma NextLine(lines: Lines, n: nat)
    requires n < |lines|
    ensures Offset(lines, n + 1) == Offset(lines, n) + |lines[n]| + 1
    ensures TokensOf(lines, n + 1) == TokensOf(lines, n) + LineTokens(lines[n], Offset(lines, n), |lines[n]|)
    ensures Offset(lines, 0) == 0 && TokensOf(lines, 0) == []
  {
  }

  lemma AllTokens(doc: string)
    ensures Tokens(doc) == TokensOf(Split(doc), |Split(doc)|)
    ensures Offset(Split(doc), 0) == 0 && TokensOf(Split(doc), 0) == []
  {
    hide Split;
  }

  /** `scanBraces`, character by character. */
  method ScanBraces(doc: string) returns (diagnostics: seq<Diagnostic>)
    ensures diagnostics == Diagnostics(Tokens(doc))
  {
    hide *;
    var stack: seq<nat> := [];
    diagnostics := [];
    var offset := 0;
    var lines := Split(doc);
    ghost var seen: seq<Token> := [];
    ReachedStart();
    AllTokens(doc);
    for n := 0 to |lines|
      invariant offset == Offset(lines, n) && seen == TokensOf(lines, n)
      invariant Reached(seen, stack, diagnostics)
    {
      var line := lines[n];
      var inQuote, escaped := false, false;
      var index := 0;
      ghost var before := seen;
      LineStart(line, offset);
      while index < |line|
        invariant index <= |line| && Flags(ReadingAt(line, index), inQuote, escaped)
        invariant seen == before + LineTokens(line, offset, index)
        invariant Reached(seen, stack, diagnostics)
      {
        var c := line[index];
        FlagStep(line, index, inQuote, escaped);
        TokenStep(line, offset, index, inQuote, escaped);
        if escaped {
          escaped := false;
        } else if inQuote && c == '\\' {
          escaped := true;
        } else if c == '"' {
          inQuote := !inQuote;
        } else if !inQuote && c == '#' {
          CommentIsSilent(line, offset, index, |line|);
          break;
        } else if !inQuote {
          var position := offset + index;
          if c == '{' {
            ReachedOpening(seen, stack, diagnostics, position);
            stack := stack + [position];
            seen := seen + [Token(position, true)];
          } else if c == '}' {
            ReachedClosing(seen, stack, diagnostics, position);
            seen := seen + [Token(position, false)];
            if stack == [] {
              diagnostics := diagnostics + [Diagnostic(position, position + 1, UnmatchedClosing)];
            } else {
              stack := stack[..|stack| - 1];
            }
          }
        }
        index := index + 1;
      }
      NextLine(lines, n);
      seen := before + LineTokens(line, offset, |line|);
      offset := offset + |line| + 1;
    }
    ReachedEnd(seen, stack, diagnostics);
    var open := seq(|stack|, k requires 0 <= k < |stack| => Diagnostic(stack[k], stack[k] + 1, UnmatchedOpening));
    diagnostics := diagnostics + open;
  }

  // ---------------------------------------------------------------- partners

  /** Openings minus closings among the first `n` tokens. */
  function Depth(tokens: seq<Token>, n: nat): int
    requires n <= |tokens|
  {
    if n == 0 then 0 else Depth(tokens, n - 1) + if tokens[n - 1].open then 1 else -1
  }

  /** An opening and a closing brace are partners when the braces between them are balanced. */
  predicate Partners(tokens: seq<Token>, i: nat, j: nat) {
    && i < j < |tokens| && tokens[i].open && !tokens[j].open
    && Depth(tokens, j) == Depth(tokens, i + 1)
    && (forall x :: i < x <= j ==> Depth(tokens, x) >= Depth(tokens, i + 1))
  }

  /** No partner among the first `n` tokens. */
  ghost predicate Lonely(tokens: seq<Token>, k: nat, n: nat) {
    forall j: nat | j < n :: !Partners(tokens, k, j) && !Partners(tokens, j, k)
  }

  predicate Increasing(s: seq<nat>) {
    forall i, j :: 0 <= i < j < |s| ==> s[i] < s[j]
  }

  /** Depths the matcher's two lists stand for after `n` tokens. */
  predicate Levels(tokens: seq<Token>, n: nat, m: Matching)
    requires n <= |tokens|
  {
    && InRange(m.stack, n) && InRange(m.orphans, n) && Increasing(m.stack) && Increasing(m.orphans)
    && Depth(tokens, n) == |m.stack| - |m.orphans|
    && (forall k :: 0 <= k < |m.stack| ==> tokens[m.stack[k]].open && Depth(tokens, m.stack[k]) == k - |m.orphans|)
    && (forall k, x :: 0 <= k < |m.stack| && m.stack[k] < x <= n ==> Depth(tokens, x) > k - |m.orphans|)
    && (forall k :: 0 <= k < |m.orphans| ==> !tokens[m.orphans[k]].open && Depth(tokens, m.orphans[k]) == -k)
    && (forall k, x :: 0 <= k < |m.orphans| && 0 <= x <= m.orphans[k] ==> Depth(tokens, x) >= -k)
    && (forall x :: 0 <= x <= n ==> Depth(tokens, x) >= -|m.orphans|)
  }

  lemma {:induction false} MatchLevels(tokens: seq<Token>, n: nat)
    requires n <= |tokens|
    ensures Levels(tokens, n, Match(tokens, n))
  {
    if n > 0 {
      hide *;
      MatchLevels(tokens, n - 1);
      MatchStep(tokens, n);
      var m := Match(tokens, n - 1);
      if tokens[n - 1].open {
        LevelsOpen(tokens, n, m);
      } else if m.stack == [] {
        LevelsOrphan(tokens, n, m);
      } else {
        LevelsPop(tokens, n, m);
      }
    } else {
      LevelsStart(tokens);
    }
  }

  lemma LevelsStart(tokens: seq<Token>)
    ensures Levels(tokens, 0, Match(tokens, 0))
  {
  }

  lemma MatchStep(tokens: seq<Token>, n: nat)
    requires 0 < n <= |tokens|
    ensures var m := Match(tokens, n - 1);
            Match(tokens, n) ==
              if tokens[n - 1].open then Matching(m.orphans, m.stack + [n - 1])
              else if m.stack == [] then Matching(m.orphans + [n - 1], m.stack)
              else Matching(m.orphans, m.stack[..|m.stack| - 1])
  {
  }

  lemma DepthStep(tokens: seq<Token>, n: nat)
    requires 0 < n <= |tokens|
    ensures Depth(tokens, n) == Depth(tokens, n - 1) + if tokens[n - 1].open then 1 else -1
  {
  }

  lemma LevelsOpen(tokens: seq<Token>, n: nat, m: Matching)
    requires 0 < n <= |tokens| && Levels(tokens, n - 1, m) && tokens[n - 1].open
    ensures Levels(tokens, n, Matching(m.orphans, m.stack + [n - 1]))
  {
    DepthStep(tokens, n);
    hide Depth;
  }

  lemma LevelsOrphan(tokens: seq<Token>, n: nat, m: Matching)
    requires 0 < n <= |tokens| && Levels(tokens, n - 1, m) && !tokens[n - 1].open && m.stack == []
    ensures Levels(tokens, n, Matching(m.orphans + [n - 1], m.stack))
  {
    DepthStep(tokens, n);
    hide Depth;
  }

  lemma LevelsPop(tokens: seq<Token>, n: nat, m: Matching)
    requires 0 < n <= |tokens| && Levels(tokens, n - 1, m) && !tokens[n - 1].open && m.stack != []
    ensures Levels(tokens, n, Matching(m.orphans, m.stack[..|m.stack| - 1]))
  {
    DepthStep(tokens, n);
    hide Depth;
    var rest := m.stack[..|m.stack| - 1];
    forall k, x | 0 <= k < |rest| && rest[k] < x <= n ensures Depth(tokens, x) > k - |m.orphans| {
      assert m.stack[k] == rest[k];
    }
  }

  lemma PopIsPartner(tokens: seq<Token>, n: nat, m: Matching)
    requires 0 < n <= |tokens| && Levels(tokens, n - 1, m) && !tokens[n - 1].open && m.stack != []
    ensures Partners(tokens, m.stack[|m.stack| - 1], n - 1)
  {
    var top := m.stack[|m.stack| - 1];
    DepthStep(tokens, top + 1);
    hide Depth, Increasing;
    assert forall x :: top < x <= n - 1 ==> Depth(tokens, x) > Depth(tokens, top);
    PartnersIs(tokens, top, n - 1);
  }

  lemma PartnersIs(tokens: seq<Token>, i: nat, j: nat)
    requires i < j < |tokens| && tokens[i].open && !tokens[j].open
    requires Depth(tokens, j) == Depth(tokens, i + 1)
    requires forall x :: i < x <= j ==> Depth(tokens, x) >= Depth(tokens, i + 1)
    ensures Partners(tokens, i, j)
  {
    hide Depth;
  }

  /** Each of the first `n` tokens is in one of the two lists or has met its partner. */
  ghost predicate Settled(tokens: seq<Token>, n: nat, m: Matching) {
    forall k: nat | k < n :: k in m.stack || k in m.orphans || !Lonely(tokens, k, n)
  }

  lemma {:induction false} MatchSettles(tokens: seq<Token>, n: nat)
    requires n <= |tokens|
    ensures Settled(tokens, n, Match(tokens, n))
  {
    if n > 0 {
      hide *;
      MatchSettles(tokens, n - 1);
      MatchLevels(tokens, n - 1);
      MatchInRange(tokens, n - 1);
      MatchStep(tokens, n);
      var m := Match(tokens, n - 1);
      if !tokens[n - 1].open && m.stack != [] {
        PopIsPartner(tokens, n, m);
      }
      SettledNext(tokens, n, m, Match(tokens, n));
    } else {
      NothingToSettle(tokens);
    }
  }

  lemma NothingToSettle(tokens: seq<Token>)
    ensures Settled(tokens, 0, Match(tokens, 0))
  {
    hide Lonely;
  }

  lemma SettledNext(tokens: seq<Token>, n: nat, m: Matching, next: Matching)
    requires 0 < n <= |tokens| && Settled(tokens, n - 1, m) && InRange(m.stack, n - 1)
    requires next == if tokens[n - 1].open then Matching(m.orphans, m.stack + [n - 1])
                     else if m.stack == [] then Matching(m.orphans + [n - 1], m.stack)
                     else Matching(m.orphans, m.stack[..|m.stack| - 1])
    requires !tokens[n - 1].open && m.stack != [] ==> Partners(tokens, m.stack[|m.stack| - 1], n - 1)
    ensures Settled(tokens, n, next)
  {
    forall k: nat | k < n ensures k in next.stack || k in next.orphans || !Lonely(tokens, k, n) {
      hide *;
      SettledStep(tokens, n, m, next, k);
    }
    hide Partners, Lonely;
  }

  lemma SettledStep(tokens: seq<Token>, n: nat, m: Matching, next: Matching, k: nat)
    requires 0 < n <= |tokens| && k < n && Settled(tokens, n - 1, m) && InRange(m.stack, n - 1)
    requires next == if tokens[n - 1].open then Matching(m.orphans, m.stack + [n - 1])
                     else if m.stack == [] then Matching(m.orphans + [n - 1], m.stack)
                     else Matching(m.orphans, m.stack[..|m.stack| - 1])
    requires !tokens[n - 1].open && m.stack != [] ==> Partners(tokens, m.stack[|m.stack| - 1], n - 1)
    ensures k in next.stack || k in next.orphans || !Lonely(tokens, k, n)
  {
    hide Partners;
    if k == n - 1 {
      if tokens[n - 1].open {
        assert next.stack[|m.stack|] == k;
      } else if m.stack == [] {
        assert next.orphans[|m.orphans|] == k;
      }
    } else if k in m.stack {
      var x :| 0 <= x < |m.stack| && m.stack[x] == k;
      if x < |next.stack| {
        assert next.stack[x] == k;
      }
    } else if k in m.orphans {
      var x :| 0 <= x < |m.orphans| && m.orphans[x] == k;
      assert next.orphans[x] == k;
    }
  }

  lemma StackIsLonely(tokens: seq<Token>, m: Matching, k: nat)
    requires Levels(tokens, |tokens|, m) && k < |m.stack|
    ensures Lonely(tokens, m.stack[k], |tokens|)
  {
    var i := m.stack[k];
    DepthStep(tokens, i + 1);
    hide Depth;
    forall j: nat | j < |tokens| ensures !Partners(tokens, i, j) && !Partners(tokens, j, i) {
      if i < j {
        DepthStep(tokens, j + 1);
        assert Depth(tokens, j + 1) > k - |m.orphans|;
      }
    }
  }

  lemma OrphanIsLonely(tokens: seq<Token>, m: Matching, k: nat)
    requires Levels(tokens, |tokens|, m) && k < |m.orphans|
    ensures Lonely(tokens, m.orphans[k], |tokens|)
  {
    var j := m.orphans[k];
    hide Depth;
    forall i: nat | i < |tokens| ensures !Partners(tokens, i, j) && !Partners(tokens, j, i) {
      if i < j {
        DepthStep(tokens, i + 1);
        assert Depth(tokens, i) + k >= 0;
      }
    }
  }

  /**
   What the matcher reports: exactly the tokens without a partner, each once and in order, the
   closing braces first.
   */
  lemma MatchFindsLonely(tokens: seq<Token>)
    ensures var m := Match(tokens, |tokens|);
            && Increasing(m.orphans) && Increasing(m.stack) && InRange(m.orphans, |tokens|)
              && InRange(m.stack, |tokens|)
            && (forall k: nat :: k in m.orphans <==> k < |tokens| && !tokens[k].open && Lonely(tokens, k, |tokens|))
            && (forall k: nat :: k in m.stack <==> k < |tokens| && tokens[k].open && Lonely(tokens, k, |tokens|))
  {
    var n := |tokens|;
    var m := Match(tokens, n);
    MatchLevels(tokens, n);
    MatchSettles(tokens, n);
    hide Match, Depth, Partners, Lonely;
    forall k | 0 <= k < |m.stack| ensures Lonely(tokens, m.stack[k], n) {
      StackIsLonely(tokens, m, k);
    }
    forall k | 0 <= k < |m.orphans| ensures Lonely(tokens, m.orphans[k], n) {
      OrphanIsLonely(tokens, m, k);
    }
  }

  /** Balanced: no prefix closes more than it opens, and all is closed in the end. */
  predicate BalancedTokens(tokens: seq<Token>) {
    Depth(tokens, |tokens|) == 0 && forall x :: 0 <= x <= |tokens| ==> Depth(tokens, x) >= 0
  }

  /** Nothing is reported exactly for balanced documents. */
  lemma NothingReportedIffBalanced(tokens: seq<Token>)
    ensures Diagnostics(tokens) == [] <==> BalancedTokens(tokens)
  {
    MatchLevels(tokens, |tokens|);
    hide Match, Depth;
    var m := Match(tokens, |tokens|);
    if BalancedTokens(tokens) && m.orphans != [] {
      var last := m.orphans[|m.orphans| - 1];
      DepthStep(tokens, last + 1);
    }
  }

  /** A brace has at most one partner. */
  lemma PartnerIsUnique(tokens: seq<Token>, i: nat, j: nat, other: nat)
    requires Partners(tokens, i, j)
    ensures Partners(tokens, i, other) ==> other == j
    ensures Partners(tokens, other, j) ==> other == i
  {
    hide Depth;
    if Partners(tokens, i, other) {
      DepthStep(tokens, j + 1);
      DepthStep(tokens, other + 1);
    }
    if Partners(tokens, other, j) {
      DepthStep(tokens, i + 1);
      DepthStep(tokens, other + 1);
    }
  }
}
