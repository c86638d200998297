/**
 Which names the application stores and which it refuses (app/utils/domains.py), said by the labels of
 a name and the words of a list.
 */
module DomainNames {
  import opened Text
  import opened Wrappers
  import opened Domains
  import Parser
  import opened SiteLabels

  const SMALL := "abcdefghijklmnopqrstuvwxyz"
  const DIGITS := "0123456789"

  // ---------------------------------------------------------------- one name

  lemma CharIs(c: char)
    ensures IsLowerAlpha(c) <==> c in SMALL
    ensures IsDigit(c) <==> c in DIGITS
    ensures IsAlnum(c) <==> c in SMALL || c in DIGITS
  {
  }

  /** Small letters, digits and dashes, and no dash at either end. */
  lemma LabelIs(s: string)
    ensures IsLabel(s) <==>
              && s != "" && s[0] != '-' && s[|s| - 1] != '-'
              && forall k :: 0 <= k < |s| ==> s[k] in SMALL || s[k] in DIGITS || s[k] == '-'
  {
    forall k | 0 <= k < |s| ensures IsAlnum(s[k]) <==> s[k] in SMALL || s[k] in DIGITS {
      CharIs(s[k]);
    }
    CharIs('-');
    assert '-' !in SMALL && '-' !in DIGITS;
    hide IsAlnum, SMALL, DIGITS;
  }

  lemma TldIs(s: string)
    ensures IsTld(s) <==> 2 <= |s| <= 63 && forall k :: 0 <= k < |s| ==> s[k] in SMALL
  {
    forall k | 0 <= k < |s| ensures IsLowerAlpha(s[k]) <==> s[k] in SMALL {
      CharIs(s[k]);
    }
    hide IsLowerAlpha, SMALL;
  }

  lemma SplitOnStep(s: string, c: char)
    ensures var i := Find(s, c);
            Parser.SplitOn(s, c) == if i == |s| then [s] else [s[..i]] + Parser.SplitOn(s[i + 1..], c)
  {
    hide Find;
  }

  lemma NoDotInTld(s: string)
    requires IsTld(s)
    ensures Find(s, '.') == |s|
  {
  }

  predicate AreLabels(parts: seq<string>) {
    forall k :: 0 <= k < |parts| - 1 ==> IsLabel(parts[k])
  }

  predicate AreShort(parts: seq<string>) {
    forall k :: 0 <= k < |parts| - 1 ==> |parts[k]| <= 63
  }

  lemma OneMorePart(first: string, more: seq<string>)
    requires more != []
    ensures var parts := [first] + more;
            && (AreLabels(parts) <==> IsLabel(first) && AreLabels(more))
            && (AreShort(parts) <==> |first| <= 63 && AreShort(more))
            && parts[|parts| - 1] == more[|more| - 1]
  {
    hide IsLabel;
    var parts := [first] + more;
    assert parts[0] == first;
    assert forall k :: 0 < k < |parts| ==> parts[k] == more[k - 1];
    assert forall k :: 0 <= k < |more| ==> more[k] == parts[k + 1];
  }

  lemma {:induction false} DottedIs(s: string)
    ensures var parts := Parser.SplitOn(s, '.');
            IsDotted(s) <==> |parts| >= 2 && IsTld(parts[|parts| - 1]) && AreLabels(parts)
    ensures LabelsFit(s) <==> AreShort(Parser.SplitOn(s, '.'))
  {
    hide IsLabel, IsTld, Find, Parser.SplitOn, AreLabels, AreShort;
    var i := Find(s, '.');
    SplitOnStep(s, '.');
    if i < |s| {
      var rest := s[i + 1..];
      DottedIs(rest);
      SplitOnStep(rest, '.');
      OneMorePart(s[..i], Parser.SplitOn(rest, '.'));
      if IsTld(rest) {
        NoDotInTld(rest);
      }
      OnePartOnly(rest);
    } else {
      OnePartOnly(s);
    }
  }

  lemma OnePartOnly(s: string)
    ensures AreLabels([s]) && AreShort([s])
  {
  }

  /** A stored name: at least two labels of at most 63 characters, the last of small letters, 253 characters in all. */
  lemma NameIs(s: string)
    ensures IsName(s) <==>
              && |s| <= 253
              && var parts := Parser.SplitOn(s, '.');
                 var last := |parts| - 1;
                 && last >= 1 && IsTld(parts[last])
                 && forall k :: 0 <= k < last ==> IsLabel(parts[k]) && |parts[k]| <= 63
  {
    DottedIs(s);
    hide IsDotted, LabelsFit, IsTld, IsLabel, Parser.SplitOn;
  }

  predicate AreDots(s: string) {
    forall k :: 0 <= k < |s| ==> s[k] == '.'
  }

  lemma {:induction false} DotsTaken(s: string, dots: string)
    requires AreDots(dots) && (s == "" || s[|s| - 1] != '.')
    ensures RStripDots(s + dots) == s
  {
    if dots == "" {
      assert s + dots == s;
    } else {
      var rest := dots[..|dots| - 1];
      assert (s + dots)[..|s + dots| - 1] == s + rest;
      DotsTaken(s, rest);
    }
  }

  lemma LowerEnds(s: string, dots: string)
    requires AreDots(dots) && (s == "" || s[|s| - 1] != '.')
    ensures Lower(s + dots) == Lower(s) + dots && (s == "" || Lower(s)[|s| - 1] != '.') && |Lower(s)| == |s|
  {
    var a, b := Lower(s + dots), Lower(s) + dots;
    forall k | 0 <= k < |a| ensures a[k] == b[k] {
      LowerAt(s + dots, k);
      if k < |s| {
        LowerAt(s, k);
      }
    }
    if s != "" {
      LowerAt(s, |s| - 1);
    }
    hide Lower;
    assert a == b;
  }

  /** A typed name: white space around it, capital letters and dots at its end make no difference; else each refusal. */
  lemma TypedName(before: string, typed: string, dots: string, after: string)
    requires AllSpace(before) && AllSpace(after) && AreDots(dots)
    requires Strip(typed + dots) == typed + dots && (typed == "" || typed[|typed| - 1] != '.')
    ensures var r, name := NormalizeName(before + typed + dots + after), Lower(typed);
            r == if typed == "" then Err(Required) else if |typed| > 253 then Err(TooLong)
                 else if IsName(name) then Ok(name) else Err(Invalid)
  {
    hide *;
    ThreePieces(before, typed, dots, after);
    StripPadded(before, typed + dots, after);
    LowerEnds(typed, dots);
    DotsTaken(Lower(typed), dots);
    NormalizedAs(before + typed + dots + after, Lower(typed));
  }

  lemma ThreePieces(a: string, b: string, c: string, d: string)
    ensures a + b + c + d == a + (b + c) + d
  {
  }

  lemma NormalizedAs(value: string, n: string)
    requires RStripDots(Lower(Strip(value))) == n
    ensures NormalizeName(value) ==
              if n == "" then Err(Required) else if |n| > 253 then Err(TooLong)
              else if IsName(n) then Ok(n) else Err(Invalid)
  {
    hide Strip, Lower, RStripDots, IsName;
  }

  // ---------------------------------------------------------------- the words of a list

  lemma NoWords()
    ensures Tokens("") == []
  {
  }

  lemma OneWord(word: string)
    requires word != "" && forall k :: 0 <= k < |word| ==> !IsSpace(word[k]) && word[k] != ','
    ensures Tokens(word) == [word]
  {
    assert WordLength(word) == |word|;
    assert word[..|word|] == word && word[|word|..] == "";
  }

  /** White space and commas separate, and only they. */
  lemma {:induction false} WordsApart(a: string, c: char, b: string)
    requires IsSpace(c) || c == ','
    ensures Tokens(a + [c] + b) == Tokens(a) + Tokens(b)
    decreases |a|
  {
    var s := a + [c] + b;
    if a == "" {
      assert s[0] == c && s[1..] == b && Tokens(a) == [];
    } else if IsSeparator(a[0]) {
      assert s[1..] == a[1..] + [c] + b;
      WordsApart(a[1..], c, b);
    } else {
      var n := WordLength(a);
      WordStops(a, c, b);
      WordIsLong(a);
      assert s[..n] == a[..n] && s[n..] == a[n..] + [c] + b;
      WordsApart(a[n..], c, b);
      hide IsSeparator, WordLength;
      assert Tokens(s) == [s[..n]] + Tokens(s[n..]);
      assert Tokens(a) == [a[..n]] + Tokens(a[n..]);
    }
  }

  lemma WordIsLong(a: string)
    requires a != "" && !IsSeparator(a[0])
    ensures WordLength(a) > 0
  {
  }

  lemma {:induction false} WordStops(a: string, c: char, b: string)
    requires IsSeparator(c)
    ensures WordLength(a + [c] + b) == WordLength(a)
  {
    var s := a + [c] + b;
    if a == "" {
      assert s[0] == c;
    } else {
      assert s[0] == a[0] && s[1..] == a[1..] + [c] + b;
      WordStops(a[1..], c, b);
    }
  }

  // ---------------------------------------------------------------- the names of a list

  /** Each word is a name, and these are the names they stand for. */
  predicate StandFor(words: seq<string>, names: seq<string>) {
    |names| == |words| && forall k :: 0 <= k < |words| ==> NormalizeName(words[k]) == Ok(names[k])
  }

  /** The names without repetition, in the order in which they first appear: name `i` at place `places[i]`. */
  predicate AreFirst(all: seq<string>, names: seq<string>, places: seq<nat>) {
    && |places| == |names|
    && (forall k :: 0 <= k < |all| ==> all[k] in names)
    && (forall i :: 0 <= i < |names| ==> places[i] < |all| && all[places[i]] == names[i])
    && (forall i, q :: 0 <= i < |names| && 0 <= q < places[i] ==> all[q] != names[i])
    && (forall i, j :: 0 <= i < j < |names| ==> places[i] < places[j])
  }

  lemma OneMoreName(all: seq<string>, names: seq<string>, places: seq<nat>, n: string)
    requires AreFirst(all, names, places)
    ensures n in names ==> AreFirst(all + [n], names, places)
    ensures n !in names ==> AreFirst(all + [n], names + [n], places + [|all|])
  {
    var next := all + [n];
    assert forall k :: 0 <= k < |all| ==> next[k] == all[k];
    assert forall k :: 0 <= k < |all| ==> all[k] in names;
    if n !in names {
      assert (names + [n])[|names|] == n;
      assert forall k :: 0 <= k < |next| ==> next[k] in names + [n];
    }
  }

  lemma NobodyStands(words: seq<string>)
    ensures StandFor(words[..0], []) && (words == [] ==> StandFor(words, []))
  {
  }

  lemma StandStep(words: seq<string>, n: string, tail: seq<string>)
    requires words != [] && NormalizeName(words[0]) == Ok(n)
    ensures StandFor(words[1..], tail) ==> StandFor(words, [n] + tail)
    ensures |tail| < |words[1..]| && StandFor(words[1..][..|tail|], tail) ==> StandFor(words[..|tail| + 1], [n] + tail)
  {
    hide NormalizeName;
    var all, rest := [n] + tail, words[1..];
    assert forall k :: 0 < k < |words| ==> words[k] == rest[k - 1];
    assert forall k :: 0 < k < |all| ==> all[k] == tail[k - 1];
  }

  lemma CollectStep(words: seq<string>, names: seq<string>)
    ensures words == [] ==> Collect(words, names) == Ok(names)
    ensures words != [] ==>
              match NormalizeName(words[0])
              case Err(e) => Collect(words, names) == Err(e)
              case Ok(n) => Collect(words, names) == Collect(words[1..], if n in names then names else names + [n])
  {
    hide NormalizeName;
  }

  /** How a run of the loop over the words ends. */
  predicate EndsAs(words: seq<string>, r: Result<seq<string>, DomainError>, seen: seq<string>, more: seq<string>,
      after: seq<nat>) {
    match r
    case Ok(all) => StandFor(words, more) && AreFirst(seen + more, all, after)
    case Err(e) => |more| < |words| && StandFor(words[..|more|], more) && NormalizeName(words[|more|]) == Err(e)
  }

  lemma EndsStep(words: seq<string>, r: Result<seq<string>, DomainError>, seen: seq<string>, n: string,
      tail: seq<string>, after: seq<nat>)
    requires words != [] && NormalizeName(words[0]) == Ok(n) && EndsAs(words[1..], r, seen + [n], tail, after)
    ensures EndsAs(words, r, seen, [n] + tail, after)
  {
    hide NormalizeName, AreFirst, StandFor;
    StandStep(words, n, tail);
    assert seen + [n] + tail == seen + ([n] + tail);
  }

  /** The loop over the words: the names of all of them, or the refusal of the first that is no name. */
  lemma {:induction false} CollectIs(words: seq<string>, seen: seq<string>, names: seq<string>, places: seq<nat>)
      returns (more: seq<string>, after: seq<nat>)
    requires AreFirst(seen, names, places)
    ensures EndsAs(words, Collect(words, names), seen, more, after)
  {
    hide *;
    more, after := [], places;
    CollectStep(words, names);
    if words == [] || NormalizeName(words[0]).Err? {
      EndsNow(words, Collect(words, names), seen, names, places);
    } else {
      var n := NormalizeName(words[0]).value;
      OneMoreName(seen, names, places, n);
      var tail: seq<string>;
      if n in names {
        tail, after := CollectIs(words[1..], seen + [n], names, places);
      } else {
        tail, after := CollectIs(words[1..], seen + [n], names + [n], places + [|seen|]);
      }
      EndsStep(words, Collect(words, names), seen, n, tail, after);
      more := [n] + tail;
    }
  }

  lemma EndsNow(words: seq<string>, r: Result<seq<string>, DomainError>, seen: seq<string>, names: seq<string>,
      places: seq<nat>)
    requires AreFirst(seen, names, places)
    requires words == [] ==> r == Ok(names)
    requires words != [] ==> NormalizeName(words[0]).Err? && r == Err(NormalizeName(words[0]).error)
    ensures EndsAs(words, r, seen, [], places)
  {
    hide NormalizeName, AreFirst, StandFor;
    NobodyStands(words);
    assert seen + [] == seen;
  }

  /** A list of names, in full: the names of its words in order of first appearance, or the first refusal. */
  lemma ListIs(value: string) returns (all: seq<string>, places: seq<nat>)
    ensures var words := Tokens(Strip(value));
            match SplitNames(value)
            case Ok(names) => words != [] && StandFor(words, all) && AreFirst(all, names, places)
            case Err(e) =>
              if words == [] then e == Required
              else |all| < |words| && StandFor(words[..|all|], all) && NormalizeName(words[|all|]) == Err(e)
  {
    hide *;
    var words := Tokens(Strip(value));
    NothingFirst();
    all, places := CollectIs(words, [], [], []);
    SplitIs(value);
    EndsFromNothing(words, Collect(words, []), all, places);
  }

  lemma SplitIs(value: string)
    ensures var words := Tokens(Strip(value)); SplitNames(value) == if words == [] then Err(Required)
        else Collect(words, [])
  {
    hide Tokens, Strip, Collect;
  }

  lemma EndsFromNothing(words: seq<string>, r: Result<seq<string>, DomainError>, all: seq<string>, places: seq<nat>)
    requires EndsAs(words, r, [], all, places)
    ensures match r
            case Ok(names) => StandFor(words, all) && AreFirst(all, names, places)
            case Err(e) => |all| < |words| && StandFor(words[..|all|], all) && NormalizeName(words[|all|]) == Err(e)
  {
    hide NormalizeName, AreFirst, StandFor;
    assert [] + all == all;
  }

  lemma NothingFirst()
    ensures AreFirst([], [], [])
  {
  }
}
