/**
 Domain names (app/utils/domains.py): one name is normalized and checked against the DNS
 grammar, a comma or space separated list is split into distinct normalized names.
 */
module Domains {
  import opened Counting
  import opened Text
  import opened Wrappers

  datatype DomainError = Required | TooLong | Invalid

  // ---------------------------------------------------------------- one name

  function LowerChar(c: char): char {
    if 'A' <= c <= 'Z' then (c as int + 32) as char else c
  }

  function Lower(s: string): (r: string)
    ensures |r| == |s|
  {
    if s == "" then "" else [LowerChar(s[0])] + Lower(s[1..])
  }

  predicate IsLowerAlpha(c: char) {
    'a' <= c <= 'z'
  }

  predicate IsDigit(c: char) {
    '0' <= c <= '9'
  }

  predicate IsAlnum(c: char) {
    IsLowerAlpha(c) || IsDigit(c)
  }

  predicate IsLabel(s: string) {
    && s != ""
    && IsAlnum(s[0]) && IsAlnum(s[|s| - 1])
    && forall k :: 0 <= k < |s| ==> IsAlnum(s[k]) || s[k] == '-'
  }

  predicate IsTld(s: string) {
    2 <= |s| <= 63 && forall k :: 0 <= k < |s| ==> IsLowerAlpha(s[k])
  }

  /** One or more labels, each followed by a dot, then a top-level domain. */
  predicate IsDotted(s: string) {
    var i := Find(s, '.');
    i < |s| && IsLabel(s[..i]) && (IsTld(s[i + 1..]) || IsDotted(s[i + 1..]))
  }

  predicate LabelsFit(s: string) {
    var i := Find(s, '.');
    i < |s| ==> i <= 63 && LabelsFit(s[i + 1..])
  }

  /** A name as the application stores it. */
  predicate IsName(s: string) {
    |s| <= 253 && IsDotted(s) && LabelsFit(s)
  }

  function RStripDots(s: string): string {
    if s != "" && s[|s| - 1] == '.' then RStripDots(s[..|s| - 1]) else s
  }

  function NormalizeName(value: string): (r: Result<string, DomainError>)
    ensures r.Ok? ==> IsName(r.value)
  {
    var n := RStripDots(Lower(Strip(value)));
    if n == "" then Err(Required)
    else if |n| > 253 then Err(TooLong)
    else if IsName(n) then Ok(n)
    else Err(Invalid)
  }

  // ---------------------------------------------------------------- lists of names

  predicate IsSeparator(c: char) {
    IsSpace(c) || c == ','
  }

  function WordLength(s: string): (n: nat)
    ensures n <= |s|
    ensures forall k :: 0 <= k < n ==> !IsSeparator(s[k])
    ensures n < |s| ==> IsSeparator(s[n])
  {
    if s == "" || IsSeparator(s[0]) then 0 else 1 + WordLength(s[1..])
  }

  function Tokens(s: string): seq<string>
    decreases |s|
  {
    if s == "" then []
    else if IsSeparator(s[0]) then Tokens(s[1..])
    else
      var n := WordLength(s);
      [s[..n]] + Tokens(s[n..])
  }

  predicate AllNames(names: seq<string>) {
    forall k :: 0 <= k < |names| ==> IsName(names[k])
  }

  /** Names in order of first appearance; the first bad token decides the error. */
  function Collect(tokens: seq<string>, names: seq<string>): Result<seq<string>, DomainError> {
    if tokens == [] then Ok(names)
    else
      match NormalizeName(tokens[0])
      case Err(e) => Err(e)
      case Ok(n) => Collect(tokens[1..], if n in names then names else names + [n])
  }

  function SplitNames(value: string): Result<seq<string>, DomainError> {
    var tokens := Tokens(Strip(value));
    if tokens == [] then Err(Required) else Collect(tokens, [])
  }

  function JoinNames(names: seq<string>): string {
    if names == [] then ""
    else if |names| == 1 then names[0]
    else names[0] + ", " + JoinNames(names[1..])
  }

  function NormalizeList(value: string): Result<string, DomainError> {
    match SplitNames(value)
    case Err(e) => Err(e)
    case Ok(names) => Ok(JoinNames(names))
  }

  /** The loop of `split_domain_names`, which keeps a set of the names already seen. */
  method SplitDomainNames(value: string) returns (r: Result<seq<string>, DomainError>)
    ensures r == SplitNames(value)
    ensures r.Ok? ==> r.value != [] && Distinct(r.value) && AllNames(r.value)
  {
    hide IsName, NormalizeName;
    var tokens := Tokens(Strip(value));
    if tokens == [] {
      return Err(Required);
    }
    var seen: set<string> := {};
    var names: seq<string> := [];
    for i := 0 to |tokens|
      invariant Collect(tokens, []) == Collect(tokens[i..], names)
      invariant seen == set n | n in names
      invariant Distinct(names) && AllNames(names)
      invariant i > 0 ==> names != []
    {
      assert tokens[i..][1..] == tokens[i + 1..];
      var normalized := NormalizeName(tokens[i]);
      if normalized.Err? {
        return Err(normalized.error);
      }
      if normalized.value !in seen {
        seen := seen + {normalized.value};
        names := names + [normalized.value];
      }
    }
    r := Ok(names);
  }

  // ---------------------------------------------------------------- properties

  /** What every stored name is made of. */
  lemma {:induction false} DottedChars(s: string)
    requires IsDotted(s)
    ensures |s| >= 4
    ensures forall k :: 0 <= k < |s| ==> IsAlnum(s[k]) || s[k] == '-' || s[k] == '.'
    ensures IsAlnum(s[0]) && IsLowerAlpha(s[|s| - 1])
    ensures '.' in s
  {
    hide *;
    var i := Find(s, '.');
    DottedStep(s);
    var first, rest := s[..i], s[i + 1..];
    if IsTld(rest) {
      TldChars(rest);
    } else {
      DottedChars(rest);
    }
    CutAtDot(s, i);
    LabelAndRest(first, rest);
  }

  lemma DottedStep(s: string)
    requires IsDotted(s)
    ensures var i := Find(s, '.');
            i < |s| && s[i] == '.' && IsLabel(s[..i]) && (IsTld(s[i + 1..]) || IsDotted(s[i + 1..]))
  {
    hide Find, IsLabel, IsTld;
  }

  lemma CutAtDot(s: string, i: nat)
    requires i < |s| && s[i] == '.'
    ensures s == s[..i] + "." + s[i + 1..]
  {
  }

  lemma TldChars(s: string)
    requires IsTld(s)
    ensures |s| >= 2 && IsAlnum(s[0]) && IsLowerAlpha(s[|s| - 1])
    ensures forall k :: 0 <= k < |s| ==> IsAlnum(s[k]) || s[k] == '-' || s[k] == '.'
  {
  }

  lemma LabelAndRest(first: string, rest: string)
    requires IsLabel(first) && |rest| >= 2 && IsLowerAlpha(rest[|rest| - 1])
    requires forall k :: 0 <= k < |rest| ==> IsAlnum(rest[k]) || rest[k] == '-' || rest[k] == '.'
    ensures var s := first + "." + rest;
            && |s| >= 4 && IsAlnum(s[0]) && IsLowerAlpha(s[|s| - 1]) && '.' in s
            && forall k :: 0 <= k < |s| ==> IsAlnum(s[k]) || s[k] == '-' || s[k] == '.'
  {
    hide IsAlnum, IsLowerAlpha;
    var s := first + "." + rest;
    assert s[|first|] == '.';
  }

  lemma NameChars(s: string)
    requires IsName(s)
    ensures |s| >= 4
    ensures forall k :: 0 <= k < |s| ==> IsAlnum(s[k]) || s[k] == '-' || s[k] == '.'
    ensures IsAlnum(s[0]) && IsLowerAlpha(s[|s| - 1])
    ensures '.' in s
  {
    DottedChars(s);
  }

  /** Lower-casing works on each character by itself: capital letters become small ones, others stay. */
  lemma {:induction false} LowerAt(s: string, k: nat)
    requires k < |s|
    ensures if 'A' <= s[k] <= 'Z' then Lower(s)[k] as int - 'a' as int == s[k] as int - 'A' as int
            else Lower(s)[k] == s[k]
  {
    if k > 0 {
      LowerAt(s[1..], k - 1);
    }
  }

  lemma {:induction false} LowerFixed(s: string)
    requires forall k :: 0 <= k < |s| ==> !('A' <= s[k] <= 'Z')
    ensures Lower(s) == s
  {
    if s != "" {
      LowerFixed(s[1..]);
    }
  }

  lemma NormalizeNameFixed(s: string)
    requires IsName(s)
    ensures NormalizeName(s) == Ok(s)
  {
    hide *;
    NameChars(s);
    NameIsPlain(s);
    StripTrimmed(s);
    LowerFixed(s);
    PlainIsNormal(s);
  }

  lemma NameIsPlain(s: string)
    requires s != "" && IsAlnum(s[0]) && IsLowerAlpha(s[|s| - 1])
    requires forall k :: 0 <= k < |s| ==> IsAlnum(s[k]) || s[k] == '-' || s[k] == '.'
    ensures !IsSpace(s[0]) && !IsSpace(s[|s| - 1]) && s[|s| - 1] != '.'
    ensures forall k :: 0 <= k < |s| ==> !('A' <= s[k] <= 'Z')
  {
  }

  lemma PlainIsNormal(s: string)
    requires IsName(s) && s != "" && s[|s| - 1] != '.' && Lower(Strip(s)) == s
    ensures NormalizeName(s) == Ok(s)
  {
    hide Strip, Lower, IsDotted, LabelsFit;
  }

  lemma {:induction false} CollectGood(tokens: seq<string>, names: seq<string>)
    requires Distinct(names) && AllNames(names)
    requires tokens != [] || names != []
    ensures Collect(tokens, names).Ok? ==>
              var r := Collect(tokens, names).value;
              r != [] && Distinct(r) && AllNames(r)
  {
    hide IsName, NormalizeName;
    if tokens != [] {
      match NormalizeName(tokens[0])
      case Err(_) =>
      case Ok(n) => CollectGood(tokens[1..], if n in names then names else names + [n]);
    }
  }

  lemma SplitNamesGood(value: string)
    requires SplitNames(value).Ok?
    ensures var r := SplitNames(value).value;
            r != [] && Distinct(r) && AllNames(r)
  {
    CollectGood(Tokens(Strip(value)), []);
  }

  lemma {:induction false} CollectFixed(names: seq<string>, done: seq<string>)
    requires Distinct(done + names) && AllNames(names)
    ensures Collect(names, done) == Ok(done + names)
  {
    hide IsName;
    if names == [] {
      assert done + names == done;
    } else {
      NormalizeNameFixed(names[0]);
      var all := done + names;
      forall k | 0 <= k < |done| ensures done[k] != names[0] {
        assert all[k] == done[k] && all[|done|] == names[0];
      }
      assert all == (done + [names[0]]) + names[1..];
      CollectFixed(names[1..], done + [names[0]]);
    }
  }

  lemma WordAtFront(w: string, rest: string)
    requires w != "" && forall k :: 0 <= k < |w| ==> !IsSeparator(w[k])
    requires rest == "" || IsSeparator(rest[0])
    ensures Tokens(w + rest) == [w] + Tokens(rest)
  {
    var s := w + rest;
    assert forall k :: 0 <= k < |w| ==> s[k] == w[k];
    assert rest != "" ==> s[|w|] == rest[0];
    assert WordLength(s) == |w|;
    assert s[..|w|] == w && s[|w|..] == rest;
  }

  lemma SkipCommaSpace(t: string)
    ensures Tokens(", " + t) == Tokens(t)
  {
    assert (", " + t)[1..] == " " + t;
    assert (" " + t)[1..] == t;
  }

  lemma {:induction false} TokensOfJoined(names: seq<string>)
    requires AllNames(names)
    ensures Tokens(JoinNames(names)) == names
    ensures names != [] ==> JoinNames(names) != ""
    ensures names != [] ==> IsAlnum(JoinNames(names)[0]) && IsLowerAlpha(JoinNames(names)[|JoinNames(names)| - 1])
  {
    hide IsName;
    if names != [] {
      NameChars(names[0]);
      if |names| == 1 {
        WordAtFront(names[0], "");
        assert names[0] + "" == names[0];
        assert names == [names[0]];
      } else {
        var rest := names[1..];
        TokensOfJoined(rest);
        var t := JoinNames(rest);
        assert names[0] + ", " + t == names[0] + (", " + t);
        WordAtFront(names[0], ", " + t);
        SkipCommaSpace(t);
        hide Tokens, JoinNames;
        assert names == [names[0]] + rest;
      }
    }
  }

  /** Splitting a joined list of stored names gives the same names back. */
  lemma SplitJoinNames(names: seq<string>)
    requires names != [] && Distinct(names) && AllNames(names)
    ensures SplitNames(JoinNames(names)) == Ok(names)
  {
    TokensOfJoined(names);
    StripTrimmed(JoinNames(names));
    CollectFixed(names, []);
    assert [] + names == names;
  }

  /** `normalize_domain_list` is idempotent: a stored domain value normalizes to itself. */
  lemma NormalizeListIdempotent(value: string)
    requires NormalizeList(value).Ok?
    ensures NormalizeList(NormalizeList(value).value) == NormalizeList(value)
    ensures SplitNames(NormalizeList(value).value) == SplitNames(value)
  {
    SplitNamesGood(value);
    SplitJoinNames(SplitNames(value).value);
  }

  /** A domain column value: a non-empty list of distinct normalized names. */
  predicate IsStored(domain: string) {
    NormalizeList(domain) == Ok(domain)
  }

  function NamesOf(domain: string): seq<string>
    requires IsStored(domain)
  {
    SplitNames(domain).value
  }

  lemma StoredParts(domain: string)
    requires IsStored(domain)
    ensures NamesOf(domain) != [] && Distinct(NamesOf(domain))
    ensures AllNames(NamesOf(domain))
    ensures JoinNames(NamesOf(domain)) == domain
  {
    SplitNamesGood(domain);
  }
}
