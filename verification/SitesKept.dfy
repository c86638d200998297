/**
 Rewriting the managed options does not touch the sites `parse_caddyfile` finds
 (app/utils/caddyfile.py:675-802), and where the stated conditions are needed.
 */
module SitesKept {
  import opened Text
  import opened Parser
  import opened GlobalOptions
  import opened LastWrite

  /** Top-level lines that open no block, such as comments, leave no brace open. */
  predicate QuietTop(lines: Lines)
    decreases |lines|
  {
    lines != [] ==>
      && (!OpensBlock(lines[0]) ==> Net(lines[0]) <= 0)
      && QuietTop(lines[SizeOf(lines)..])
  }

  lemma {:induction false} OpenSkipsBlock(lines: Lines, depth: int)
    ensures var t := BlockTail(lines, depth);
            OpenFrom(lines, Max0(depth)) == t + OpenFrom(lines[t..], 0)
  {
    hide Net, Strip;
    if lines != [] && depth > 0 {
      OpenSkipsBlock(lines[1..], depth + Net(lines[0]));
      var t := BlockTail(lines[1..], depth + Net(lines[0]));
      assert lines[1..][t..] == lines[t + 1..];
    } else {
      assert lines[0..] == lines;
    }
  }

  lemma OpenSkipsSegment(lines: Lines)
    requires lines != [] && Strip(lines[0]) != "{"
    requires !OpensBlock(lines[0]) ==> Net(lines[0]) <= 0
    ensures OpenFrom(lines, 0) == SizeOf(lines) + OpenFrom(lines[SizeOf(lines)..], 0)
  {
    hide *;
    var first, rest := lines[0], lines[1..];
    assert lines == [first] + rest;
    OpenStep(first, rest, 0);
    SizeOfIs(first, rest);
    MaxStays(Net(first));
    if OpensBlock(first) {
      OpenSkipsBlock(rest, Net(first));
    }
    var n := SizeOf(lines);
    assert lines[n..] == rest[n - 1..];
    assert rest[0..] == rest;
  }

  lemma MaxStays(n: int)
    ensures Max0(0 + n) == Max0(n) && (n <= 0 ==> Max0(n) == 0)
  {
  }

  lemma SizeOfIs(first: string, rest: Lines)
    ensures SizeOf([first] + rest) == if OpensBlock(first) then 1 + BlockTail(rest, Net(first)) else 1
  {
    hide OpensBlock, Net;
    assert ([first] + rest)[1..] == rest;
  }

  lemma QuietStep(lines: Lines)
    requires QuietTop(lines) && lines != []
    ensures (!OpensBlock(lines[0]) ==> Net(lines[0]) <= 0) && QuietTop(lines[SizeOf(lines)..])
  {
    hide OpensBlock, Net, SizeOf;
  }

  /** The brace that opens the global block stands between two blocks of the parser. */
  lemma {:induction false} OpensBetweenSegments(lines: Lines)
    requires QuietTop(lines) && OpenFrom(lines, 0) < |lines|
    ensures !EndsOpen(lines[..OpenFrom(lines, 0)])
    decreases |lines|
  {
    hide *;
    var k := OpenFrom(lines, 0);
    NothingOpen();
    NoLinesLeft();
    assert lines == [lines[0]] + lines[1..];
    OpenStep(lines[0], lines[1..], 0);
    if Strip(lines[0]) == "{" {
      assert lines[..k] == [];
    } else {
      QuietStep(lines);
      OpenSkipsSegment(lines);
      var n := SizeOf(lines);
      SizeOfFront(lines);
      OpensBetweenSegments(lines[n..]);
      assert lines[..k] == lines[..n] + lines[n..][..k - n];
      DistributesWhenClosed(lines[..n], lines[n..][..k - n]);
    }
  }

  lemma {:induction false} TailFiltered(body: Lines, rest: Lines, depth: int)
    requires NetZeroWhenManaged(body) && BlockTail(body + rest, depth) >= |body|
    ensures BlockTail(Unmanaged(body) + rest, depth) == |Unmanaged(body)| + BlockTail(body + rest, depth) - |body|
  {
    hide *;
    UnmanagedEmpty();
    if body == [] {
      assert body + rest == rest && Unmanaged(body) + rest == rest;
    } else {
      var next, kept := depth + Net(body[0]), Unmanaged(body[1..]) + rest;
      assert body + rest == [body[0]] + (body[1..] + rest);
      TailStep(body[0], body[1..] + rest, depth);
      NetZeroStep(body);
      TailFiltered(body[1..], rest, next);
      UnmanagedStep(body);
      if !IsManaged(body[0]) {
        assert Unmanaged(body) + rest == [body[0]] + kept;
        TailStep(body[0], kept, depth);
      } else {
        assert Unmanaged(body) == Unmanaged(body[1..]);
      }
    }
  }

  lemma TailStep(first: string, rest: Lines, depth: int)
    ensures BlockTail([first] + rest, depth) == if depth <= 0 then 0 else 1 + BlockTail(rest, depth + Net(first))
  {
    hide Net;
    assert ([first] + rest)[1..] == rest;
  }

  lemma {:induction false} TailSkipsZero(zero: Lines, rest: Lines, depth: int)
    requires depth > 0 && forall k :: 0 <= k < |zero| ==> Net(zero[k]) == 0
    ensures BlockTail(zero + rest, depth) == |zero| + BlockTail(rest, depth)
  {
    hide *;
    if zero == [] {
      assert zero + rest == rest;
    } else {
      assert zero + rest == [zero[0]] + (zero[1..] + rest);
      TailStep(zero[0], zero[1..] + rest, depth);
      TailSkipsZero(zero[1..], rest, depth);
    }
  }

  lemma OpenBraceKind(line: string)
    requires Strip(line) == "{"
    ensures OpensBlock(line) && KindOf(line) == GlobalOptions
  {
    hide LStrip, RStrip, Strip, IsSnippetHeader, IsSiteLabel;
    assert Find("{", '{') == 0;
    assert "{"[..0] == "";
    AllSpaceStrips("");
  }

  lemma SitesStep(lines: Lines)
    requires lines != [] && KindOf(lines[0]) != Site
    ensures SitesOf(Segments(lines)) == SitesOf(Segments(lines[SizeOf(lines)..]))
  {
    SegmentsStep(lines);
    hide SizeOf, KindOf, Segments, SiteOf;
  }

  /** The sites of three parts of which the first two leave nothing open. */
  lemma SitesOfThree(a: Lines, b: Lines, c: Lines)
    requires !EndsOpen(a) && !EndsOpen(b)
    ensures SitesOf(Segments(a + (b + c))) == SitesOf(Segments(a)) + (SitesOf(Segments(b)) + SitesOf(Segments(c)))
    ensures EndsOpen(a + (b + c)) <==> EndsOpen(c)
  {
    hide *;
    DistributesWhenClosed(a, b + c);
    DistributesWhenClosed(b, c);
    SitesConcat(Segments(a), Segments(b + c));
    SitesConcat(Segments(b), Segments(c));
  }

  /** A front segment whose braces balance leaves nothing open. */
  lemma BalancedFront(lines: Lines, n: nat)
    requires lines != [] && SizeOf(lines) == n && NetLines(lines[..n]) <= 0
    ensures EndsOpen(lines) <==> EndsOpen(lines[n..])
  {
    hide *;
    var block := lines[..n];
    SizeOfFront(lines);
    OneSegmentEndsOpen(block);
    TailConcat(block[1..], [], Net(block[0]));
    NetLinesStep(block);
    DistributesWhenClosed(block, lines[n..]);
    assert block + lines[n..] == lines;
  }

  lemma {:induction false} CloseNets(lines: Lines, depth: int)
    requires CloseFrom(lines, depth) < |lines|
    ensures depth + NetLines(lines[..CloseFrom(lines, depth) + 1]) == 0
  {
    hide *;
    var front, c := lines[..CloseFrom(lines, depth) + 1], CloseFrom(lines, depth);
    FrontAgain(lines, lines[0]);
    CloseStep(lines[0], lines[1..], depth);
    NetLinesStep(front);
    NoNetLines();
    if c == 0 {
      assert front[1..] == [];
    } else {
      CloseNets(lines[1..], depth + Net(lines[0]));
      assert front[1..] == lines[1..][..c];
    }
  }

  lemma {:induction false} UnmanagedNet(body: Lines)
    requires NetZeroWhenManaged(body)
    ensures NetLines(Unmanaged(body)) == NetLines(body)
  {
    hide *;
    UnmanagedEmpty();
    if body != [] {
      NetZeroStep(body);
      UnmanagedStep(body);
      UnmanagedNet(body[1..]);
      NetLinesStep(body);
      if !IsManaged(body[0]) {
        var kept := [body[0]] + Unmanaged(body[1..]);
        NetLinesStep(kept);
        assert kept[1..] == Unmanaged(body[1..]);
      } else {
        assert Unmanaged(body) == Unmanaged(body[1..]);
      }
    }
  }

  lemma {:induction false} ZeroNets(lines: Lines)
    requires forall k :: 0 <= k < |lines| ==> Net(lines[k]) == 0
    ensures NetLines(lines) == 0
  {
    hide Net;
    if lines != [] {
      ZeroNets(lines[1..]);
    }
  }

  lemma NetOfParts(first: string, a: Lines, b: Lines, last: string)
    ensures NetLines([first] + (a + (b + [last]))) == Net(first) + NetLines(a) + NetLines(b) + Net(last)
  {
    hide *;
    var tail := b + [last];
    NetLinesStep([first] + (a + tail));
    assert ([first] + (a + tail))[1..] == a + tail;
    NetLinesConcat(a, tail);
    NetLinesConcat(b, [last]);
    NetLinesStep([last]);
    assert [last][1..] == [];
    NoNetLines();
  }

  // ---------------------------------------------------------------- the block before and after

  /** The last line of the global block, as the rewriter sees it. */
  function BlockEnd(lines: Lines, k: nat): (c: nat)
    requires k < |lines|
    ensures k <= c < |lines|
  {
    k + CloseOr(lines[k..], 0)
  }

  function BlockBefore(lines: Lines, k: nat): Lines
    requires k < |lines|
  {
    lines[k..BlockEnd(lines, k) + 1]
  }

  /** The block without its managed lines. The new ones go below its first line. */
  function BlockKept(lines: Lines, k: nat): Lines
    requires k < |lines|
  {
    var c := BlockEnd(lines, k);
    [lines[k]] + ((if k < c then Unmanaged(lines[k + 1..c]) else []) + [lines[c]])
  }

  lemma {:induction false} ZeroStaysOpen(zero: Lines, depth: int)
    requires depth > 0 && forall k :: 0 <= k < |zero| ==> Net(zero[k]) == 0
    ensures !Closes(zero, depth)
  {
    hide Net;
    if zero != [] {
      ZeroStaysOpen(zero[1..], depth);
    }
  }

  /** Lines without braces below the first line of a block change neither its sites nor where it ends. */
  lemma ManagedInside(first: string, managed: Lines, rest: Lines)
    requires Strip(first) == "{" && AreOptions(managed)
    ensures SitesOf(Segments([first] + (managed + rest))) == SitesOf(Segments([first] + rest))
    ensures EndsOpen([first] + (managed + rest)) <==> EndsOpen([first] + rest)
  {
    hide *;
    var a, b, n := [first] + (managed + rest), [first] + rest, BlockTail(rest, 1);
    OpenBraceNet(first);
    OpenBraceKind(first);
    OptionNets(managed);
    ZeroNets(managed);
    SizeOfIs(first, managed + rest);
    SizeOfIs(first, rest);
    TailSkipsZero(managed, rest, 1);
    ZeroStaysOpen(managed, 1);
    TailConcat(managed, rest, 1);
    SitesStep(a);
    SitesStep(b);
    SameBehind(first, managed, rest, n);
    if n < |rest| {
      EndsOpenStep(a);
      EndsOpenStep(b);
    } else {
      OneSegmentEndsOpen(a);
      OneSegmentEndsOpen(b);
    }
  }

  lemma SameBehind(first: string, managed: Lines, rest: Lines, n: nat)
    requires n <= |rest|
    ensures ([first] + (managed + rest))[1 + |managed| + n..] == rest[n..] == ([first] + rest)[1 + n..]
    ensures ([first] + (managed + rest))[1..] == managed + rest && ([first] + rest)[1..] == rest
  {
  }

  lemma BlockParts(lines: Lines, k: nat, managed: Lines)
    requires k < |lines|
    ensures var c := BlockEnd(lines, k);
            var inner := BlockKept(lines, k)[1..];
            && BlockKept(lines, k) == [lines[k]] + inner
            && Replaced(lines, k, managed) == lines[..k] + (([lines[k]] + (managed + inner)) + lines[c + 1..])
            && lines == lines[..k] + (BlockBefore(lines, k) + lines[c + 1..])
  {
    hide CloseOr, Unmanaged;
    var c := BlockEnd(lines, k);
    assert lines[c..] == [lines[c]] + lines[c + 1..];
    assert lines[..k + 1] == lines[..k] + [lines[k]];
  }

  /** The text up to the block, the block before and the block after each leave nothing open. */
  predicate IsSeparate(lines: Lines, k: nat)
    requires k < |lines|
  {
    !EndsOpen(lines[..k]) && !EndsOpen(BlockBefore(lines, k)) && !EndsOpen(BlockKept(lines, k))
  }

  /** The removed lines add and take no site inside the block. */
  predicate KeepsBlockSites(lines: Lines, k: nat)
    requires k < |lines|
  {
    SitesOf(Segments(BlockKept(lines, k))) == SitesOf(Segments(BlockBefore(lines, k)))
  }

  /** On lines: the sites of the text stay as they were exactly if those of the block alone do. */
  lemma SitesKeptExactly(lines: Lines, k: nat, managed: Lines)
    requires k < |lines| && Strip(lines[k]) == "{" && AreOptions(managed) && IsSeparate(lines, k)
    ensures SitesOf(Segments(Replaced(lines, k, managed))) == SitesOf(Segments(lines)) <==> KeepsBlockSites(lines, k)
    ensures EndsOpen(Replaced(lines, k, managed)) <==> EndsOpen(lines)
  {
    hide *;
    var front, tail := lines[..k], lines[BlockEnd(lines, k) + 1..];
    var was, kept := BlockBefore(lines, k), BlockKept(lines, k);
    SeparateIs(lines, k);
    BlockParts(lines, k, managed);
    var next := [lines[k]] + (managed + kept[1..]);
    ManagedInside(lines[k], managed, kept[1..]);
    SitesOfThree(front, was, tail);
    SitesOfThree(front, next, tail);
    Cancel(SitesOf(Segments(front)), SitesOf(Segments(next)), SitesOf(Segments(was)), SitesOf(Segments(tail)));
  }

  lemma SeparateIs(lines: Lines, k: nat)
    requires k < |lines|
    ensures IsSeparate(lines, k) <==>
        !EndsOpen(lines[..k]) && !EndsOpen(BlockBefore(lines, k)) && !EndsOpen(BlockKept(lines, k))
    ensures KeepsBlockSites(lines, k) <==>
        SitesOf(Segments(BlockKept(lines, k))) == SitesOf(Segments(BlockBefore(lines, k)))
  {
    hide EndsOpen, BlockBefore, BlockKept, SitesOf, Segments;
  }

  lemma Cancel<A>(front: seq<A>, a: seq<A>, b: seq<A>, tail: seq<A>)
    ensures front + (a + tail) == front + (b + tail) <==> a == b
  {
    if front + (a + tail) == front + (b + tail) {
      assert |front + (a + tail)| == |front| + |a| + |tail| && |front + (b + tail)| == |front| + |b| + |tail|;
      assert (front + (a + tail))[|front|..|front| + |a|] == a && (front + (b + tail))[|front|..|front| + |b|] == b;
    }
  }

  // ---------------------------------------------------------------- balanced removed lines

  /** The parser closes the global block on the line the rewriter takes for its end. */
  predicate ClosesCleanly(lines: Lines, k: nat)
    requires k < |lines|
  {
    CloseFrom(lines[k..], 0) < |lines| - k && SizeOf(lines[k..]) == 1 + CloseFrom(lines[k..], 0)
  }

  lemma ClosesCleanlyIs(lines: Lines, k: nat)
    requires k < |lines|
    ensures ClosesCleanly(lines, k) <==>
      (CloseFrom(lines[k..], 0) < |lines| - k && SizeOf(lines[k..]) == 1 + CloseFrom(lines[k..], 0))
  {
    hide CloseFrom, SizeOf;
  }

  lemma RemovesIs(lines: Lines, k: nat)
    requires k < |lines| && RemovesNetZero(lines, k) && CloseOr(lines[k..], 0) > 0
    ensures NetZeroWhenManaged(lines[k + 1..k + CloseOr(lines[k..], 0)])
  {
    hide CloseOr, NetZeroWhenManaged;
  }

  /** A block that is one segment of the parser holds no site and leaves nothing open. */
  lemma OneBlock(first: string, body: Lines, last: string)
    requires Strip(first) == "{" && NetLines([first] + (body + [last])) == 0
    requires BlockTail(body + [last], 1) == |body| + 1
    ensures !EndsOpen([first] + (body + [last])) && SitesOf(Segments([first] + (body + [last]))) == []
  {
    hide *;
    var block := [first] + (body + [last]);
    OpenBraceNet(first);
    OpenBraceKind(first);
    SizeOfIs(first, body + [last]);
    NothingOpen();
    NoSitesEmpty();
    assert block[..|block|] == block && block[|block|..] == [];
    BalancedFront(block, |block|);
    SitesStep(block);
    NothingSited();
  }

  lemma NothingSited()
    ensures SitesOf(Segments([])) == []
  {
  }

  lemma NetOfBlock(first: string, body: Lines, last: string)
    ensures NetLines([first] + (body + [last])) == Net(first) + NetLines(body) + Net(last)
  {
    hide *;
    NetLinesStep([first] + (body + [last]));
    assert ([first] + (body + [last]))[1..] == body + [last];
    NetLinesConcat(body, [last]);
    NetLinesStep([last]);
    assert [last][1..] == [];
    NoNetLines();
  }

  /** Removed lines with balanced braces in a block that parser and rewriter close alike are enough. */
  lemma NetZeroIsSafe(lines: Lines, k: nat)
    requires k < |lines| && Strip(lines[k]) == "{" && ClosesCleanly(lines, k) && RemovesNetZero(lines, k)
    ensures !EndsOpen(BlockBefore(lines, k)) && !EndsOpen(BlockKept(lines, k)) && KeepsBlockSites(lines, k)
  {
    hide *;
    var first, c := lines[k], BlockEnd(lines, k);
    ClosesCleanlyIs(lines, k);
    EndIs(lines, k);
    OpenBraceNet(first);
    OpenBraceKind(first);
    CloseStep(first, lines[k + 1..], 0);
    assert lines[k..] == [first] + lines[k + 1..];
    var body, last, tail := lines[k + 1..c], lines[c], lines[c + 1..];
    RemovesIs(lines, k);
    BlockShapes(lines, k);
    CloseNets(lines[k..], 0);
    assert lines[k..][..c - k + 1] == [first] + (body + [last]);
    NetOfBlock(first, body, last);
    NetOfBlock(first, Unmanaged(body), last);
    UnmanagedNet(body);
    assert lines[k + 1..] == (body + [last]) + tail;
    SizeOfIs(first, lines[k + 1..]);
    TailWithin(body + [last], tail, 1);
    TailFiltered(body, [last], 1);
    OneBlock(first, body, last);
    OneBlock(first, Unmanaged(body), last);
    SeparateIs(lines, k);
  }

  lemma EndIs(lines: Lines, k: nat)
    requires k < |lines| && CloseFrom(lines[k..], 0) < |lines| - k
    ensures BlockEnd(lines, k) == k + CloseFrom(lines[k..], 0) && BlockEnd(lines, k) == k + CloseOr(lines[k..], 0)
  {
    hide CloseFrom;
  }

  lemma BlockShapes(lines: Lines, k: nat)
    requires k < |lines| && k < BlockEnd(lines, k)
    ensures var c := BlockEnd(lines, k);
            && BlockBefore(lines, k) == [lines[k]] + (lines[k + 1..c] + [lines[c]])
            && BlockKept(lines, k) == [lines[k]] + (Unmanaged(lines[k + 1..c]) + [lines[c]])
  {
    hide CloseOr, Unmanaged;
  }

  /** A block that ends within its own lines ends there whatever follows. */
  lemma TailWithin(a: Lines, b: Lines, depth: int)
    requires BlockTail(a + b, depth) == |a|
    ensures BlockTail(a, depth) == |a|
  {
    TailConcat(a, b, depth);
    hide BlockTail, Net;
  }

  // ---------------------------------------------------------------- the braces of the whole text

  /** The lines the rewriter takes out of the block. */
  function Removed(lines: Lines): Lines {
    if lines == [] then [] else (if IsManaged(lines[0]) then [lines[0]] else []) + Removed(lines[1..])
  }

  lemma {:induction false} RemovedNets(lines: Lines)
    ensures NetLines(Unmanaged(lines)) + NetLines(Removed(lines)) == NetLines(lines)
  {
    hide IsManaged, Net;
    if lines != [] {
      RemovedNets(lines[1..]);
      var first, kept, gone := lines[0], Unmanaged(lines[1..]), Removed(lines[1..]);
      assert ([first] + kept)[1..] == kept && ([first] + gone)[1..] == gone && [] + kept == kept && [] + gone == gone;
    }
  }

  /** Rewriting takes the braces of the removed lines out of the balance of the text, and no others. */
  lemma BracesOfRewritten(lines: Lines, k: nat, managed: Lines)
    requires k < |lines| && k < BlockEnd(lines, k) && AreOptions(managed)
    ensures NetLines(Replaced(lines, k, managed)) ==
        NetLines(lines) - NetLines(Removed(lines[k + 1..BlockEnd(lines, k)]))
  {
    hide *;
    var c := BlockEnd(lines, k);
    var first, body, last, tail := lines[k], lines[k + 1..c], lines[c], lines[c + 1..];
    var kept := Unmanaged(body) + [last];
    BlockParts(lines, k, managed);
    BlockShapes(lines, k);
    assert BlockKept(lines, k)[1..] == kept;
    OptionNets(managed);
    ZeroNets(managed);
    RemovedNets(body);
    NetOfThree(lines[..k], [first] + (body + [last]), tail);
    NetOfThree(lines[..k], [first] + (managed + kept), tail);
    NetOfBlock(first, body, last);
    NetOfParts(first, managed, Unmanaged(body), last);
  }

  lemma NetOfThree(a: Lines, b: Lines, c: Lines)
    ensures NetLines(a + (b + c)) == NetLines(a) + NetLines(b) + NetLines(c)
  {
    NetLinesConcat(a, b + c);
    NetLinesConcat(b, c);
    hide NetLines;
  }

  // ---------------------------------------------------------------- on texts

  /** The global block, if there is one, stands apart from the rest, before and after the rewrite. */
  predicate IsApart(lines: Lines) {
    var k := OpenFrom(lines, 0);
    k < |lines| ==> IsSeparate(lines, k)
  }

  predicate KeepsSites(lines: Lines) {
    var k := OpenFrom(lines, 0);
    k < |lines| ==> KeepsBlockSites(lines, k)
  }

  /** What a text must satisfy for its sites to survive the rewrite. */
  predicate RewritesSafely(lines: Lines) {
    IsApart(lines) && KeepsSites(lines)
  }

  lemma ApartIs(lines: Lines)
    ensures var k := OpenFrom(lines, 0);
            && (k < |lines| ==>
              (IsApart(lines) <==> IsSeparate(lines, k)) && (KeepsSites(lines) <==> KeepsBlockSites(lines, k)))
            && (k == |lines| ==> IsApart(lines) && KeepsSites(lines))
  {
    hide OpenFrom, IsSeparate, KeepsBlockSites;
  }

  /** Comments that open no brace, a block closed alike and balanced removed lines are always safe. */
  lemma QuietIsSafe(lines: Lines)
    requires QuietTop(lines)
    requires var k := OpenFrom(lines, 0); k < |lines| ==> ClosesCleanly(lines, k) && RemovesNetZero(lines, k)
    ensures RewritesSafely(lines)
  {
    var k := OpenFrom(lines, 0);
    ApartIs(lines);
    if k < |lines| {
      OpenIsBrace(lines);
      OpensBetweenSegments(lines);
      NetZeroIsSafe(lines, k);
      SeparateIs(lines, k);
    }
    hide *;
  }

  lemma NewBlockSize(managed: Lines, rest: Lines)
    requires AreOptions(managed)
    ensures var lines := NewBlock(managed, rest);
            lines != [] && KindOf(lines[0]) != Site && SizeOf(lines) == |managed| + 2
  {
    hide *;
    var tail := if rest == [] then [] else [""] + rest;
    NewBlockShape(managed, rest);
    BracesAreClean();
    OpenBraceKind("{");
    OpenBraceNet("{");
    OptionNets(managed);
    SizeOfIs("{", managed + (["}"] + tail));
    TailSkipsZero(managed, ["}"] + tail, 1);
    TailStep("}", tail, 1);
    TailDone(tail);
  }

  lemma TailDone(lines: Lines)
    ensures BlockTail(lines, 0) == 0
  {
  }

  lemma NewBlockSites(managed: Lines, rest: Lines)
    requires AreOptions(managed)
    ensures SitesOf(Segments(NewBlock(managed, rest))) == SitesOf(Segments(rest))
    ensures EndsOpen(NewBlock(managed, rest)) <==> EndsOpen(rest)
  {
    hide *;
    var lines, n := NewBlock(managed, rest), |managed| + 2;
    NewBlockSize(managed, rest);
    NewBlockShape(managed, rest);
    SitesStep(lines);
    NewBlockNets(managed);
    assert lines[..n] == ["{"] + (managed + ([] + ["}"]));
    BalancedFront(lines, n);
    if rest == [] {
      assert lines[n..] == [];
    } else {
      assert lines[n..] == [""] + rest;
      EmptyLine();
      SizeOfIs("", rest);
      SitesStep([""] + rest);
      assert ([""] + rest)[1..] == rest;
      assert ([""] + rest)[..1] == [""];
      BalancedFront([""] + rest, 1);
    }
  }

  lemma NewBlockNets(managed: Lines)
    requires AreOptions(managed)
    ensures NetLines(["{"] + (managed + ([] + ["}"]))) == 0 && NetLines([""]) == 0
  {
    hide *;
    NetOfParts("{", managed, [], "}");
    OptionNets(managed);
    ZeroNets(managed);
    BracesAreClean();
    OpenBraceNet("{");
    NoNetLines();
    EmptyNet();
    NetLinesStep([""]);
    assert [""][1..] == [];
  }

  lemma EmptyLine()
    ensures !OpensBlock("") && KindOf("") != Site
  {
    AllSpaceStrips("");
    BlankIsPlain("");
  }

  lemma ParsedSites(b: string)
    ensures Parse(b).sites == SitesOf(Segments(SplitLines(b)))
  {
    hide Segments, SitesOf, SplitLines, SnippetsOf, BaselineOf, JoinLines, Strip;
  }

  /**
   The sites parsed from the rewritten text are those parsed from the text exactly if the removed
   lines add and take none inside the global block; and no block is left open that was not.
   */
  lemma ParseKeepsSites(b: string, admin: string, email: string)
    requires AreSettings(admin, email)
    requires Strip(b) == b || BlockIsClosed(b)
    requires IsApart(SplitLines(Strip(b)))
    ensures Parse(Inject(b, admin, email)).sites == Parse(Strip(b)).sites <==> KeepsSites(SplitLines(Strip(b)))
    ensures EndsOpen(SplitLines(Inject(b, admin, email))) <==> EndsOpen(SplitLines(Strip(b)))
  {
    hide *;
    var managed, text := ManagedLines(admin, email), Strip(b);
    var lines := SplitLines(text);
    SettingsAreOptions(admin, email);
    OptionsWellFormed(managed);
    InjectIs(b, admin, email);
    StripIdempotent(b);
    if text != b {
      InjectStripped(b, managed);
    }
    ParsedSites(text);
    ParsedSites(InjectManaged(text, managed));
    ApartIs(lines);
    if OpenFrom(lines, 0) == |lines| {
      InjectNewBlock(text, managed);
      NewBlockText(text, managed);
      CleanText(NewBlock(managed, lines));
      NewBlockSites(managed, lines);
    } else {
      OpenIsBrace(lines);
      InjectedLines(text, managed);
      SitesKeptExactly(lines, OpenFrom(lines, 0), managed);
    }
  }

  // ---------------------------------------------------------------- where the conditions are needed

  /** A removed line that closes a nested block: the net-zero condition is needed. */
  const CLOSING_OPTION: Lines := ["{", "log {", "admin }", "}", "admin off", "}"]

  lemma PlainNets()
    ensures Net("{") == 1 && Net("}") == -1 && Net("log {") == 1 && Net("admin }") == -1 && Net("admin off") == 0
  {
    OneBrace();
    assert "}"[1..] == "";
    assert "log {" == "log " + "{";
    NetConcat("log ", "{");
    NetNoBraces("log ");
    assert "admin }" == "admin " + "}";
    NetConcat("admin ", "}");
    NetNoBraces("admin ");
    NetNoBraces("admin off");
  }

  lemma PlainManaged()
    ensures !IsManaged("log {") && !IsManaged("}") && IsManaged("admin }") && IsManaged("admin off")
  {
    hide *;
    ShortIsUnmanaged("}");
    OtherWord("log {");
    AdminLine("}");
    AdminLine("off");
    assert "admin " + "}" == "admin }" && "admin " + "off" == "admin off";
  }

  lemma OtherWord(line: string)
    requires line != "" && line[0] == 'l'
    ensures !IsManaged(line)
  {
    LStripTrimmed(line);
    hide LStrip;
  }

  lemma AdminLine(value: string)
    ensures IsManaged("admin " + value)
  {
    var line := "admin " + value;
    assert line[0] == 'a' && line[5] == ' ' && "admin" <= line;
    LStripTrimmed(line);
    hide LStrip;
  }

  lemma ClosingScan()
    ensures CloseFrom(CLOSING_OPTION, 0) == 3
    ensures CloseFrom(["log {", "}", "admin off", "}"], 1) == 3
  {
    var l := CLOSING_OPTION;
    hide *;
    PlainNets();
    CloseStep("}", ["admin off", "}"], 1);
    CloseStep("admin }", ["}", "admin off", "}"], 2);
    CloseStep("log {", ["admin }", "}", "admin off", "}"], 1);
    CloseStep("{", ["log {", "admin }", "}", "admin off", "}"], 0);
    assert l == ["{"] + ["log {", "admin }", "}", "admin off", "}"] by { ClosingOption(); }
    assert ["log {", "admin }", "}", "admin off", "}"] == ["log {"] + ["admin }", "}", "admin off", "}"];
    assert ["admin }", "}", "admin off", "}"] == ["admin }"] + ["}", "admin off", "}"];
    assert ["}", "admin off", "}"] == ["}"] + ["admin off", "}"];
    CloseStep("log {", ["}", "admin off", "}"], 1);
    CloseStep("}", ["admin off", "}"], 2);
    CloseStep("admin off", ["}"], 1);
    CloseStep("}", [], 1);
    assert ["log {", "}", "admin off", "}"] == ["log {"] + ["}", "admin off", "}"];
    assert ["admin off", "}"] == ["admin off"] + ["}"];
    assert ["}"] == ["}"] + [];
  }

  lemma ClosingOption()
    ensures CLOSING_OPTION == ["{"] + ["log {", "admin }", "}", "admin off", "}"] && |CLOSING_OPTION| == 6
  {
  }

  /** The text of the counterexample, with its lines. */
  lemma ClosingText()
    ensures var b := JoinLines(CLOSING_OPTION);
            Strip(b) == b && SplitLines(b) == CLOSING_OPTION && OpenFrom(CLOSING_OPTION, 0) == 0
  {
    hide *;
    ClosingOption();
    BracesAreClean();
    ClosingEnds();
    CleanText(CLOSING_OPTION);
    CleanEndsStrip(CLOSING_OPTION);
    OpenNow(CLOSING_OPTION);
  }

  lemma ClosingEnds()
    ensures CleanEnds(CLOSING_OPTION) && WellFormed(CLOSING_OPTION)
  {
    hide *;
    ClosingOption();
    BracesAreClean();
    CleanEndsIs(CLOSING_OPTION);
    ClosingLines();
  }

  lemma ClosingLines()
    ensures WellFormed(CLOSING_OPTION)
  {
    assert OneLine("{") && OneLine("log {") && OneLine("admin }") && OneLine("}") && OneLine("admin off");
    hide OneLine;
  }

  lemma ClosingIsUnclean()
    ensures !SecondScanIsClean(CLOSING_OPTION, 0)
  {
    hide *;
    var lines, body, kept := CLOSING_OPTION, ["log {", "admin }"], ["log {", "}", "admin off", "}"];
    ClosingOption();
    ClosingScan();
    PlainManaged();
    assert lines[0..] == lines;
    CloseOrIs(lines, 0);
    BehindIs(lines, 0);
    assert lines[1..3] == body;
    UnmanagedEmpty();
    UnmanagedLast([], "log {");
    UnmanagedLast(["log {"], "admin }");
    assert body == ["log {"] + ["admin }"] && [] + ["log {"] == ["log {"];
    assert lines[3..] == ["}", "admin off", "}"];
    assert Behind(lines, 0) == kept;
    CloseOrIs(kept, 1);
    SecondScanIs(lines, 0, kept[..3]);
    ManagedSeen(kept[..3], 2);
  }

  lemma SecondScanIs(lines: Lines, k: nat, seen: Lines)
    requires k < |lines| && seen == Behind(lines, k)[..CloseOr(Behind(lines, k), 1)]
    ensures SecondScanIsClean(lines, k) <==> NoManaged(seen)
  {
    hide Behind, CloseOr, NoManaged;
  }

  lemma ManagedSeen(lines: Lines, k: nat)
    requires k < |lines| && IsManaged(lines[k])
    ensures !NoManaged(lines)
  {
    hide IsManaged;
  }

  /** The last write does not always win: a stripped text with a closed block where it loses. */
  lemma LastWriteCanLose(admin1: string, email1: string, admin2: string, email2: string)
    requires AreSettings(admin1, email1) && AreSettings(admin2, email2)
    ensures var b := JoinLines(CLOSING_OPTION);
            && Strip(b) == b && BlockIsClosed(b)
            && Inject(Inject(b, admin1, email1), admin2, email2) != Inject(b, admin2, email2)
  {
    hide *;
    var b := JoinLines(CLOSING_OPTION);
    ClosingText();
    ClosingOption();
    ClosingScan();
    ClosingIsUnclean();
    BlockIsClosedIs(b);
    ClosedIs(CLOSING_OPTION, 0);
    assert CLOSING_OPTION[0..] == CLOSING_OPTION;
    SecondIsCleanIs(b);
    LastWriteWins(b, admin1, email1, admin2, email2);
  }
}
