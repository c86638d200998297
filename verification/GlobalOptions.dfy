/**
 `inject_global_options` (app/utils/caddyfile.py): the managed `admin` and `email` lines of the
 global options block.
 */
module GlobalOptions {
  import opened Text
  import opened Parser

  // ---------------------------------------------------------------- finding the block

  function Max0(n: int): int {
    if n < 0 then 0 else n
  }

  /** Index of the first bare "{" at depth zero, or the number of lines. */
  function OpenFrom(lines: Lines, depth: int): (k: nat)
    ensures k <= |lines|
  {
    if lines == [] then 0
    else if depth == 0 && Strip(lines[0]) == "{" then 0
    else 1 + OpenFrom(lines[1..], Max0(depth + Net(lines[0])))
  }

  /** Index of the first line after which the running depth is zero, or the number of lines. */
  function CloseFrom(lines: Lines, depth: int): (k: nat)
    ensures k <= |lines|
  {
    if lines == [] then 0
    else if depth + Net(lines[0]) == 0 then 0
    else 1 + CloseFrom(lines[1..], depth + Net(lines[0]))
  }

  /** The closing index, which falls back to the last line. */
  function CloseOr(lines: Lines, depth: int): (k: nat)
    requires lines != []
    ensures k < |lines|
  {
    if CloseFrom(lines, depth) < |lines| then CloseFrom(lines, depth) else |lines| - 1
  }

  // ---------------------------------------------------------------- managed lines

  predicate IsWordChar(c: char) {
    'a' <= c <= 'z' || 'A' <= c <= 'Z' || '0' <= c <= '9' || c == '_'
  }

  predicate IsManaged(line: string) {
    var s := LStrip(line);
    && ("admin" <= s || "email" <= s)
    && (|s| == 5 || !IsWordChar(s[5]))
  }

  function Unmanaged(lines: Lines): Lines {
    if lines == [] then []
    else (if IsManaged(lines[0]) then [] else [lines[0]]) + Unmanaged(lines[1..])
  }

  function ManagedLines(admin: string, email: string): Lines {
    (if admin == "" then [] else ["    admin " + admin]) + (if email == "" then [] else ["    email " + email])
  }

  // ---------------------------------------------------------------- the function

  /** The new lines when a block opens at `k`. */
  function Replaced(lines: Lines, k: nat, managed: Lines): Lines
    requires k < |lines|
  {
    var c := k + CloseOr(lines[k..], 0);
    lines[..k + 1] + managed + (if k < c then Unmanaged(lines[k + 1..c]) else []) + lines[c..]
  }

  /** The new text when no block opens. */
  function WithNewBlock(baseline: string, managed: Lines): string {
    var block := JoinLines(["{"] + managed + ["}"]);
    var rest := Strip(baseline);
    if rest == "" then block else Strip(block + "\n\n" + rest)
  }

  function InjectManaged(baseline: string, managed: Lines): string {
    if managed == [] then Strip(baseline)
    else
      var lines := SplitLines(baseline);
      var k := OpenFrom(lines, 0);
      if k == |lines| then WithNewBlock(baseline, managed)
      else Strip(JoinLines(Replaced(lines, k, managed)))
  }

  /** `inject_global_options`; an empty string stands for an absent option. */
  function Inject(baseline: string, admin: string, email: string): string {
    InjectManaged(baseline, ManagedLines(admin, email))
  }

  method InjectGlobalOptions(baseline: string, admin: string, email: string) returns (r: string)
    ensures r == Inject(baseline, admin, email)
  {
    hide Net, Strip, JoinLines, SplitLines, Unmanaged, OpenFrom, CloseFrom, CloseOr, WithNewBlock, IsManaged, Replaced;
    var managed: Lines := [];
    if admin != "" {
      managed := managed + ["    admin " + admin];
    }
    if email != "" {
      managed := managed + ["    email " + email];
    }
    assert managed == ManagedLines(admin, email);
    if managed == [] {
      return Strip(baseline);
    }
    var lines := SplitLines(baseline);
    var open := FindOpen(lines);
    if open == |lines| {
      return WithNewBlock(baseline, managed);
    }
    var close := FindClose(lines, open);
    var body := KeepUnmanaged(if open < close then lines[open + 1..close] else []);
    var newLines := lines[..open + 1] + managed + body + lines[close..];
    ReplacedIs(lines, open, managed);
    r := Strip(JoinLines(newLines));
  }

  lemma ReplacedIs(lines: Lines, k: nat, managed: Lines)
    requires k < |lines|
    ensures var c := k + CloseOr(lines[k..], 0);
            Replaced(lines, k, managed) == lines[..k + 1] + managed + Unmanaged(if k < c then lines[k + 1..c] else [])
              + lines[c..]
  {
    hide CloseOr;
  }

  method FindOpen(lines: Lines) returns (open: nat)
    ensures open == OpenFrom(lines, 0)
  {
    hide Net, Strip;
    var depth := 0;
    open := 0;
    while open < |lines|
      invariant open <= |lines|
      invariant OpenFrom(lines, 0) == open + OpenFrom(lines[open..], depth)
    {
      assert lines[open..][1..] == lines[open + 1..];
      if depth == 0 && Strip(lines[open]) == "{" {
        return;
      }
      depth := Max0(depth + Net(lines[open]));
      open := open + 1;
    }
  }

  method FindClose(lines: Lines, open: nat) returns (close: nat)
    requires open < |lines|
    ensures close == open + CloseOr(lines[open..], 0)
  {
    hide Net;
    var depth := 0;
    close := open;
    while close < |lines|
      invariant open <= close <= |lines|
      invariant CloseFrom(lines[open..], 0) == close - open + CloseFrom(lines[close..], depth)
    {
      assert lines[close..][1..] == lines[close + 1..];
      depth := depth + Net(lines[close]);
      if depth == 0 {
        return;
      }
      close := close + 1;
    }
    close := |lines| - 1;
  }

  method KeepUnmanaged(lines: Lines) returns (kept: Lines)
    ensures kept == Unmanaged(lines)
  {
    hide *;
    kept := [];
    UnmanagedEmpty();
    assert lines[..0] == [];
    for i := 0 to |lines|
      invariant kept == Unmanaged(lines[..i])
    {
      assert lines[..i + 1] == lines[..i] + [lines[i]];
      UnmanagedLast(lines[..i], lines[i]);
      if !IsManaged(lines[i]) {
        kept := kept + [lines[i]];
      }
    }
    assert lines[..|lines|] == lines;
  }

  // ---------------------------------------------------------------- which lines survive

  predicate NoManaged(lines: Lines) {
    forall k :: 0 <= k < |lines| ==> !IsManaged(lines[k])
  }

  predicate AllManaged(lines: Lines) {
    forall k :: 0 <= k < |lines| ==> IsManaged(lines[k])
  }

  lemma {:induction false} UnmanagedConcat(a: Lines, b: Lines)
    ensures Unmanaged(a + b) == Unmanaged(a) + Unmanaged(b)
  {
    hide IsManaged;
    if a == [] {
      assert a + b == b;
    } else {
      assert (a + b)[1..] == a[1..] + b;
      UnmanagedConcat(a[1..], b);
    }
  }

  lemma UnmanagedEmpty()
    ensures Unmanaged([]) == []
  {
  }

  lemma UnmanagedLast(lines: Lines, line: string)
    ensures Unmanaged(lines + [line]) == (if IsManaged(line) then Unmanaged(lines) else Unmanaged(lines) + [line])
  {
    UnmanagedConcat(lines, [line]);
    hide IsManaged;
    assert [line][1..] == [];
  }

  lemma {:induction false} UnmanagedFacts(lines: Lines)
    ensures NoManaged(Unmanaged(lines)) && |Unmanaged(lines)| <= |lines|
    ensures Unmanaged(lines) == lines <==> NoManaged(lines)
    ensures AllManaged(lines) ==> Unmanaged(lines) == []
  {
    hide IsManaged;
    if lines != [] {
      UnmanagedFacts(lines[1..]);
      if IsManaged(lines[0]) {
        assert |Unmanaged(lines)| < |lines|;
      } else {
        assert Unmanaged(lines) == lines <==> Unmanaged(lines[1..]) == lines[1..];
        assert lines == [lines[0]] + lines[1..];
      }
    }
  }

  // ---------------------------------------------------------------- injecting twice

  /** Option lines as the settings give them: one line each, no braces. */
  predicate AreOptions(managed: Lines) {
    managed != [] && forall k :: 0 <= k < |managed| ==>
        IsManaged(managed[k]) && NoBraces(managed[k]) && OneLine(managed[k]) && managed[k] != ""
  }

  lemma OptionLine(word: string, value: string)
    requires word == "admin" || word == "email"
    requires NoBraces(value) && OneLine(value)
    ensures var line := "    " + word + " " + value;
            IsManaged(line) && NoBraces(line) && OneLine(line) && line != ""
  {
    var tail := word + " " + value;
    assert "    " + word + " " + value == "    " + tail;
    PaddedOption("    ", tail);
  }

  lemma PaddedOption(pad: string, tail: string)
    requires AllSpace(pad) && NoBraces(pad) && OneLine(pad)
    requires ("admin" <= tail || "email" <= tail) && |tail| > 5 && tail[5] == ' '
    requires NoBraces(tail) && OneLine(tail)
    ensures var line := pad + tail;
            IsManaged(line) && NoBraces(line) && OneLine(line) && line != ""
  {
    hide *;
    LStripPrefix(pad, tail);
    NotSpace(tail);
    LStripTrimmed(tail);
    ManagedTail(pad + tail, tail);
    OptionText(pad, tail);
  }

  lemma NotSpace(tail: string)
    requires "admin" <= tail || "email" <= tail
    ensures tail != "" && !IsSpace(tail[0])
  {
    assert "admin"[0] == 'a' && "email"[0] == 'e';
  }

  lemma ManagedTail(line: string, tail: string)
    requires LStrip(line) == tail && ("admin" <= tail || "email" <= tail) && |tail| > 5 && tail[5] == ' '
    ensures IsManaged(line)
  {
    hide LStrip;
  }

  lemma OptionText(pad: string, tail: string)
    requires NoBraces(pad) && OneLine(pad) && NoBraces(tail) && OneLine(tail) && tail != ""
    ensures NoBraces(pad + tail) && OneLine(pad + tail) && pad + tail != ""
  {
  }

  lemma ManagedIs(admin: string, email: string)
    ensures admin == "" && email != "" ==> ManagedLines(admin, email) == ["    email " + email]
    ensures admin != "" && email == "" ==> ManagedLines(admin, email) == ["    admin " + admin]
    ensures admin != "" && email != "" ==> ManagedLines(admin, email) == ["    admin " + admin, "    email " + email]
  {
  }

  lemma OptionsOfSettings(admin: string, email: string)
    requires admin != "" || email != ""
    requires NoBraces(admin) && OneLine(admin) && NoBraces(email) && OneLine(email)
    ensures AreOptions(ManagedLines(admin, email))
  {
    hide IsManaged, NoBraces, OneLine;
    OptionLine("admin", admin);
    OptionLine("email", email);
    assert "    " + "admin" + " " + admin == "    admin " + admin;
    assert "    " + "email" + " " + email == "    email " + email;
    ManagedIs(admin, email);
  }

  lemma {:induction false} OpenKept(lines: Lines, depth: int, tail: Lines)
    requires OpenFrom(lines, depth) < |lines|
    ensures var k := OpenFrom(lines, depth);
            && OpenFrom(lines[..k + 1] + tail, depth) == k
            && Strip(lines[k]) == "{"
  {
    hide Net, Strip;
    var k := OpenFrom(lines, depth);
    if k > 0 {
      OpenKept(lines[1..], Max0(depth + Net(lines[0])), tail);
      var all := lines[..k + 1] + tail;
      assert all[0] == lines[0] && all[1..] == lines[1..][..k] + tail;
    }
  }

  lemma OpenBraceNet(line: string)
    requires Strip(line) == "{"
    ensures Net(line) == 1
  {
    hide Net;
    NetStrip(line);
    OneBrace();
  }

  lemma {:induction false} CloseSkipsZero(zero: Lines, rest: Lines, depth: int)
    requires depth != 0 && forall k :: 0 <= k < |zero| ==> Net(zero[k]) == 0
    ensures CloseFrom(zero + rest, depth) == |zero| + CloseFrom(rest, depth)
  {
    hide Net;
    if zero == [] {
      assert zero + rest == rest;
    } else {
      assert (zero + rest)[1..] == zero[1..] + rest;
      CloseSkipsZero(zero[1..], rest, depth);
    }
  }

  lemma OptionNets(managed: Lines)
    requires AreOptions(managed)
    ensures forall k :: 0 <= k < |managed| ==> Net(managed[k]) == 0
    ensures AllManaged(managed) && WellFormed(managed)
  {
    hide Net, IsManaged;
    forall k | 0 <= k < |managed| ensures Net(managed[k]) == 0 {
      NetNoBraces(managed[k]);
    }
  }

  /** Kept body and closing part of the block, as they stand behind the managed lines. */
  function Behind(lines: Lines, k: nat): (r: Lines)
    requires k < |lines|
    ensures r != []
  {
    var c := k + CloseOr(lines[k..], 0);
    (if k < c then Unmanaged(lines[k + 1..c]) else []) + lines[c..]
  }

  /**
   What decides whether a second injection replaces the first one: the second scan for the closing
   brace runs over the kept lines, and must meet no managed line before it stops.
   */
  predicate SecondScanIsClean(lines: Lines, k: nat)
    requires k < |lines|
  {
    NoManaged(Behind(lines, k)[..CloseOr(Behind(lines, k), 1)])
  }

  lemma ReplacedShape(lines: Lines, k: nat, managed: Lines)
    requires k < |lines|
    ensures Replaced(lines, k, managed) == lines[..k + 1] + (managed + Behind(lines, k))
  {
    hide CloseFrom, Unmanaged;
  }

  lemma SecondClose(first: string, managed: Lines, behind: Lines)
    requires Net(first) == 1 && behind != [] && AreOptions(managed)
    ensures CloseOr([first] + (managed + behind), 0) == 1 + |managed| + CloseOr(behind, 1)
  {
    hide Net;
    OptionNets(managed);
    CloseSkipsZero(managed, behind, 1);
    assert ([first] + (managed + behind))[1..] == managed + behind;
  }

  /** The block behind the managed lines, as a second injection sees it. */
  lemma BehindAgain(lines: Lines, k: nat, first: Lines)
    requires k < |lines| && Strip(lines[k]) == "{" && AreOptions(first)
    ensures var next, behind := Replaced(lines, k, first), Behind(lines, k);
            var j := CloseOr(behind, 1);
            k < |next| && Behind(next, k) == Unmanaged(behind[..j]) + behind[j..]
  {
    hide Net, Strip, IsManaged, CloseFrom, Unmanaged, Behind, AreOptions, CloseOr, Replaced;
    var next, behind := Replaced(lines, k, first), Behind(lines, k);
    var j := CloseOr(behind, 1);
    ReplacedShape(lines, k, first);
    OpenBraceNet(lines[k]);
    SecondClose(lines[k], first, behind);
    var tail := first + behind;
    assert next[k..] == [lines[k]] + tail;
    var c := k + CloseOr(next[k..], 0);
    assert next[k + 1..c] == first + behind[..j] && next[c..] == behind[j..];
    OptionNets(first);
    UnmanagedFacts(first);
    UnmanagedConcat(first, behind[..j]);
    BehindIs(next, k);
    assert [] + Unmanaged(behind[..j]) == Unmanaged(behind[..j]);
  }

  lemma BehindIs(lines: Lines, k: nat)
    requires k < |lines|
    ensures var c := k + CloseOr(lines[k..], 0);
            Behind(lines, k) == (if k < c then Unmanaged(lines[k + 1..c]) else []) + lines[c..]
  {
    hide CloseOr, Unmanaged;
  }

  /** On lines: the second injection gives what it would have given alone exactly in the clean case. */
  lemma ReplaceTwice(lines: Lines, k: nat, first: Lines, second: Lines)
    requires k == OpenFrom(lines, 0) < |lines| && AreOptions(first) && AreOptions(second)
    ensures var next := Replaced(lines, k, first);
            && OpenFrom(next, 0) == k < |next|
            && (Replaced(next, k, second) == Replaced(lines, k, second) <==> SecondScanIsClean(lines, k))
  {
    hide Net, Strip, IsManaged, CloseFrom, Unmanaged, Behind, AreOptions, CloseOr, Replaced, OpenFrom, NoManaged;
    var next, behind := Replaced(lines, k, first), Behind(lines, k);
    ReplacedShape(lines, k, first);
    var j := CloseOr(behind, 1);
    OpenKept(lines, 0, first + behind);
    ReplacedShape(lines, k, second);
    BehindAgain(lines, k, first);
    ReplacedShape(next, k, second);
    assert next[..k + 1] == lines[..k + 1];
    UnmanagedFacts(behind[..j]);
    assert behind == behind[..j] + behind[j..];
    var a, b := Unmanaged(behind[..j]), behind[j..];
    SameTail(lines[..k + 1], second, a + b, behind);
    SameHead(a, behind[..j], b);
  }

  lemma SameTail(head: Lines, managed: Lines, x: Lines, y: Lines)
    ensures head + (managed + x) == head + (managed + y) <==> x == y
  {
    if head + (managed + x) == head + (managed + y) {
      assert x == (head + (managed + x))[|head| + |managed|..];
      assert y == (head + (managed + y))[|head| + |managed|..];
    }
  }

  lemma SameHead(x: Lines, y: Lines, tail: Lines)
    ensures x + tail == y + tail <==> x == y
  {
    if x + tail == y + tail {
      assert |x| == |y|;
      assert x == (x + tail)[..|x|] && y == (y + tail)[..|y|];
    }
  }

  // ---------------------------------------------------------------- when the second scan is clean

  predicate NetZeroWhenManaged(lines: Lines) {
    forall k :: 0 <= k < |lines| && IsManaged(lines[k]) ==> Net(lines[k]) == 0
  }

  lemma {:induction false} CloseFiltered(body: Lines, rest: Lines, depth: int)
    requires NetZeroWhenManaged(body) && depth != 0
    requires CloseFrom(body + rest, depth) >= |body|
    ensures CloseFrom(Unmanaged(body) + rest, depth) == |Unmanaged(body)| + CloseFrom(body + rest, depth) - |body|
  {
    hide *;
    UnmanagedEmpty();
    if body == [] {
      assert body + rest == rest && Unmanaged(body) + rest == rest;
    } else {
      var next, kept := depth + Net(body[0]), Unmanaged(body[1..]) + rest;
      assert body + rest == [body[0]] + (body[1..] + rest);
      CloseStep(body[0], body[1..] + rest, depth);
      NetZeroStep(body);
      CloseFiltered(body[1..], rest, next);
      UnmanagedStep(body);
      if !IsManaged(body[0]) {
        assert Unmanaged(body) + rest == [body[0]] + kept;
        CloseStep(body[0], kept, depth);
      } else {
        assert Unmanaged(body) == Unmanaged(body[1..]);
      }
    }
  }

  lemma UnmanagedStep(lines: Lines)
    requires lines != []
    ensures Unmanaged(lines) == (if IsManaged(lines[0]) then [] else [lines[0]]) + Unmanaged(lines[1..])
  {
    hide IsManaged;
  }

  lemma CloseStep(first: string, rest: Lines, depth: int)
    ensures CloseFrom([first] + rest, depth) == if depth + Net(first) == 0 then 0
        else 1 + CloseFrom(rest, depth + Net(first))
  {
    hide Net;
    assert ([first] + rest)[1..] == rest;
  }

  lemma NetZeroStep(lines: Lines)
    requires NetZeroWhenManaged(lines) && lines != []
    ensures NetZeroWhenManaged(lines[1..]) && (IsManaged(lines[0]) ==> Net(lines[0]) == 0)
  {
    hide Net, IsManaged;
  }

  /** Whatever is removed from the block leaves the running depth alone. */
  predicate RemovesNetZero(lines: Lines, k: nat)
    requires k < |lines|
  {
    var c := k + CloseOr(lines[k..], 0);
    k < c ==> NetZeroWhenManaged(lines[k + 1..c])
  }

  lemma CloseBeforeEnd(lines: Lines)
    requires lines != [] && Net(lines[0]) == 1 && |lines| > 1
    ensures var c := CloseOr(lines, 0);
            && 1 <= c
            && (CloseFrom(lines[1..], 1) == c - 1 || CloseFrom(lines[1..], 1) == |lines| - 1 == c)
  {
    hide Net;
  }

  /** Removed lines of net zero braces are enough for the second scan to be clean, closed block or not. */
  lemma NetZeroIsClean(lines: Lines, k: nat)
    requires k < |lines| && Strip(lines[k]) == "{" && RemovesNetZero(lines, k)
    ensures SecondScanIsClean(lines, k)
  {
    hide Net, Strip, IsManaged, CloseFrom, Unmanaged, CloseOr, NoManaged;
    OpenBraceNet(lines[k]);
    var block := lines[k..];
    var c := CloseOr(block, 0);
    if |block| > 1 {
      CloseBeforeEnd(block);
      var body, rest := lines[k + 1..k + c], lines[k + c..];
      assert block[1..] == body + rest;
      CloseFiltered(body, rest, 1);
      UnmanagedFacts(body);
      BehindIs(lines, k);
      CloseOrIs(Unmanaged(body) + rest, 1);
      assert (Unmanaged(body) + rest)[..CloseOr(Unmanaged(body) + rest, 1)] == Unmanaged(body);
    } else {
      SingleLineIsClean(lines, k);
    }
  }

  lemma CloseOrIs(lines: Lines, depth: int)
    requires lines != []
    ensures CloseOr(lines, depth) == if CloseFrom(lines, depth) < |lines| then CloseFrom(lines, depth) else |lines| - 1
  {
  }

  lemma SingleLineIsClean(lines: Lines, k: nat)
    requires k + 1 == |lines|
    ensures SecondScanIsClean(lines, k)
  {
    hide CloseFrom, IsManaged;
    assert Behind(lines, k) == lines[k..];
  }

  /** The managed lines between the braces of the rewritten block. */
  function Managed(lines: Lines): Lines {
    if lines == [] then []
    else (if IsManaged(lines[0]) then [lines[0]] else []) + Managed(lines[1..])
  }

  lemma {:induction false} ManagedConcat(a: Lines, b: Lines)
    ensures Managed(a + b) == Managed(a) + Managed(b)
  {
    hide IsManaged;
    if a == [] {
      assert a + b == b;
    } else {
      assert (a + b)[1..] == a[1..] + b;
      ManagedConcat(a[1..], b);
    }
  }

  lemma {:induction false} ManagedFacts(lines: Lines)
    ensures Managed(lines) == [] <==> NoManaged(lines)
    ensures AllManaged(lines) ==> Managed(lines) == lines
  {
    hide IsManaged;
    if lines != [] {
      ManagedFacts(lines[1..]);
    }
  }

  /**
   The managed lines are the only `admin` and `email` lines of the rewritten block exactly in the
   clean case.
   */
  lemma OnlyManagedLines(lines: Lines, k: nat, managed: Lines)
    requires k == OpenFrom(lines, 0) < |lines| && AreOptions(managed)
    ensures var next := Replaced(lines, k, managed);
            var close := k + CloseOr(next[k..], 0);
            && k < close < |next|
            && (Managed(next[k + 1..close]) == managed <==> SecondScanIsClean(lines, k))
  {
    hide Net, Strip, IsManaged, CloseFrom, Unmanaged, Behind, AreOptions, CloseOr, Replaced, OpenFrom, NoManaged,
      Managed, AllManaged;
    var next, behind := Replaced(lines, k, managed), Behind(lines, k);
    ReplacedShape(lines, k, managed);
    OpenKept(lines, 0, []);
    OpenBraceNet(lines[k]);
    SecondClose(lines[k], managed, behind);
    var j := CloseOr(behind, 1);
    assert next[k..] == [lines[k]] + (managed + behind);
    assert next[k + 1..k + 1 + |managed| + j] == managed + behind[..j];
    ManagedConcat(managed, behind[..j]);
    OptionNets(managed);
    ManagedFacts(managed);
    ManagedFacts(behind[..j]);
  }

  /**
   The lines up to the opening brace and from the closing one on are kept as they are. Inside the
   block everything but the managed lines is kept, in order, exactly when the block does not open on
   the last line; an opening last line is written twice.
   */
  lemma OtherLinesKept(lines: Lines, k: nat, managed: Lines)
    requires k == OpenFrom(lines, 0) < |lines| && AreOptions(managed)
    ensures var next, tail := Replaced(lines, k, managed), lines[k + CloseOr(lines[k..], 0)..];
            lines[..k + 1] <= next && |tail| <= |next| && next[|next| - |tail|..] == tail
    ensures Unmanaged(Replaced(lines, k, managed)) == Unmanaged(lines) <==> k + 1 < |lines|
  {
    hide *;
    OpenKept(lines, 0, []);
    OpenBraceNet(lines[k]);
    BraceIsUnmanaged(lines[k]);
    ReplacedIs(lines, k, managed);
    EndOfBlock(lines, k);
    var c := k + CloseOr(lines[k..], 0);
    EndsKept(lines[..k + 1], managed, Unmanaged(if k < c then lines[k + 1..c] else []), lines[c..]);
    if k < c {
      var head, body, tail := lines[..k + 1], lines[k + 1..c], lines[c..];
      KeptParts(head, managed, body, tail);
      assert lines == head + body + tail;
      UnmanagedInParts(lines, head, body, tail);
    } else {
      KeptParts(lines[..k + 1], managed, [], lines[k..]);
      UnmanagedEmpty();
      OpeningTwice(lines, k);
    }
  }

  lemma EndsKept(a: Lines, b: Lines, c: Lines, d: Lines)
    ensures var next := a + b + c + d;
            a <= next && |d| <= |next| && next[|next| - |d|..] == d
  {
  }

  lemma EndOfBlock(lines: Lines, k: nat)
    requires k < |lines| && Net(lines[k]) == 1
    ensures CloseOr(lines[k..], 0) == 0 <==> k + 1 == |lines|
  {
    hide *;
    assert lines[k..] == [lines[k]] + lines[k + 1..];
    CloseOrIs(lines[k..], 0);
    CloseStep(lines[k], lines[k + 1..], 0);
  }

  lemma KeptParts(head: Lines, managed: Lines, body: Lines, tail: Lines)
    requires AreOptions(managed)
    ensures Unmanaged(head + managed + Unmanaged(body) + tail) == Unmanaged(head) + Unmanaged(body) + Unmanaged(tail)
  {
    hide *;
    OptionNets(managed);
    UnmanagedFacts(managed);
    UnmanagedAgain(body);
    UnmanagedFour(head, managed, Unmanaged(body), tail);
  }

  lemma UnmanagedInParts(lines: Lines, a: Lines, b: Lines, c: Lines)
    requires lines == a + b + c
    ensures Unmanaged(lines) == Unmanaged(a) + Unmanaged(b) + Unmanaged(c)
  {
    hide *;
    UnmanagedConcat(a + b, c);
    UnmanagedConcat(a, b);
  }

  lemma OpeningTwice(lines: Lines, k: nat)
    requires k + 1 == |lines| && !IsManaged(lines[k])
    ensures |Unmanaged(lines[..k + 1]) + Unmanaged(lines[k..])| > |Unmanaged(lines)|
  {
    hide *;
    UnmanagedEmpty();
    UnmanagedLast([], lines[k]);
    assert lines[k..] == [] + [lines[k]];
    assert lines[..k + 1] == lines;
  }

  lemma UnmanagedFour(a: Lines, b: Lines, c: Lines, d: Lines)
    ensures Unmanaged(a + b + c + d) == Unmanaged(a) + Unmanaged(b) + Unmanaged(c) + Unmanaged(d)
  {
    hide *;
    UnmanagedConcat(a + b + c, d);
    UnmanagedConcat(a + b, c);
    UnmanagedConcat(a, b);
  }

  lemma UnmanagedAgain(lines: Lines)
    ensures Unmanaged(Unmanaged(lines)) == Unmanaged(lines)
  {
    hide *;
    UnmanagedFacts(lines);
    UnmanagedFacts(Unmanaged(lines));
  }

  lemma BraceIsUnmanaged(line: string)
    requires Strip(line) == "{"
    ensures !IsManaged(line)
  {
    hide *;
    var before, after := StripParts(line);
    assert before + Strip(line) + after == before + ("{" + after);
    LStripPrefix(before, "{" + after);
    OpeningBrace(after);
    StartsWithBrace(line);
  }

  lemma StartsWithBrace(line: string)
    requires LStrip(line) != "" && LStrip(line)[0] == '{'
    ensures !IsManaged(line)
  {
    hide LStrip;
    assert "admin"[0] == 'a' && "email"[0] == 'e';
  }

  lemma OpeningBrace(after: string)
    ensures LStrip("{" + after) == "{" + after
  {
  }
}
