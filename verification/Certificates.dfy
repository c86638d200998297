/**
 Choosing a certificate for a domain (app/services/certificates.py). Times are microseconds.
 */
module Certificates {
  import opened Text
  import opened Wrappers
  import D = Domains

  // ---------------------------------------------------------------- one name

  function Normal(s: string): string {
    Strip(D.Lower(s))
  }

  /** A name is taken without surrounding white space and in small letters. */
  lemma NormalIs(before: string, name: string, after: string)
    requires AllSpace(before) && AllSpace(after) && Strip(name) == name
    requires forall k :: 0 <= k < |name| ==> !('A' <= name[k] <= 'Z')
    ensures Normal(before + name + after) == name
  {
    var s := before + name + after;
    forall k | 0 <= k < |s| ensures !('A' <= s[k] <= 'Z') {
      if k < |before| {
        assert s[k] == before[k];
      } else if k < |before| + |name| {
        assert s[k] == name[k - |before|];
      } else {
        assert s[k] == after[k - |before| - |name|];
      }
    }
    D.LowerFixed(s);
    StripPadded(before, name, after);
    hide Strip, D.Lower;
  }

  /** Capital letters make no difference. */
  lemma NormalIgnoresCase(a: string, b: string)
    requires D.Lower(a) == D.Lower(b)
    ensures Normal(a) == Normal(b)
  {
    hide D.Lower, Strip;
  }

  datatype Match = Exact | Wildcard | NoMatch

  predicate EndsIn(s: string, suffix: string) {
    |suffix| <= |s| && s[|s| - |suffix|..] == suffix
  }

  /** `dns_name_covers`. */
  function Covers(certName: string, domain: string): Match {
    var n, d := Normal(certName), Normal(domain);
    if n == "" || d == "" then NoMatch
    else if n == d then Exact
    else if "*." <= n && EndsIn(d, n[1..]) then
      var remainder := d[..|d| - |n[1..]|];
      if remainder != "" && '.' !in remainder then Wildcard else NoMatch
    else NoMatch
  }

  /** A name covers a domain exactly when the two are the same name. */
  lemma ExactIsSame(certName: string, domain: string)
    ensures Covers(certName, domain) == Exact <==> Normal(certName) == Normal(domain) != ""
  {
    hide Normal;
  }

  /** `domain` is `base` with exactly one more label in front. */
  ghost predicate OneLabelAbove(domain: string, base: string) {
    exists first: string :: first != "" && '.' !in first && domain == first + "." + base
  }

  lemma CoversLabel(certName: string, domain: string, base: string, first: string)
    requires Normal(certName) != Normal(domain) && Normal(certName) == "*." + base
    requires first != "" && '.' !in first && Normal(domain) == first + "." + base
    ensures Covers(certName, domain) == Wildcard
  {
    hide Normal;
    var n, d := Normal(certName), Normal(domain);
    assert n[1..] == "." + base;
    assert d == first + n[1..];
    assert d[|d| - |n[1..]|..] == n[1..] && d[..|d| - |n[1..]|] == first;
  }

  lemma LabelCovered(certName: string, domain: string) returns (base: string, first: string)
    requires Covers(certName, domain) == Wildcard
    ensures Normal(certName) != Normal(domain) && Normal(certName) == "*." + base
    ensures first != "" && '.' !in first && Normal(domain) == first + "." + base
  {
    hide Normal;
    var n, d := Normal(certName), Normal(domain);
    base, first := n[2..], d[..|d| - |n[1..]|];
    assert n == "*." + base && n[1..] == "." + base;
    assert d == first + n[1..];
    assert first + ("." + base) == first + "." + base;
  }

  /** A wildcard covers exactly one extra label: not the base itself, and not two labels. */
  lemma WildcardIsOneLabel(certName: string, domain: string)
    ensures Covers(certName, domain) == Wildcard <==>
              Normal(certName) != Normal(domain)
              && exists base: string :: Normal(certName) == "*." + base && OneLabelAbove(Normal(domain), base)
  {
    hide Normal, Covers;
    var n, d := Normal(certName), Normal(domain);
    if Covers(certName, domain) == Wildcard {
      var base, first := LabelCovered(certName, domain);
      assert OneLabelAbove(d, base);
    } else if n != d && exists base: string :: n == "*." + base && OneLabelAbove(d, base) {
      var base: string :| n == "*." + base && OneLabelAbove(d, base);
      var first: string :| first != "" && '.' !in first && d == first + "." + base;
      CoversLabel(certName, domain, base, first);
    }
  }

  // ---------------------------------------------------------------- one certificate

  datatype Source = San | CommonName

  datatype Name = Name(value: string, source: Source)

  datatype Chosen = Chosen(kind: Match, source: Source, name: string)

  /** The first name that covers the domain exactly. */
  function FirstExact(names: seq<Name>, domain: string): Option<Chosen> {
    if names == [] then None
    else if Covers(names[0].value, domain) == Exact then Some(Chosen(Exact, names[0].source, names[0].value))
    else FirstExact(names[1..], domain)
  }

  function FirstWildcard(names: seq<Name>, domain: string): Option<Chosen> {
    if names == [] then None
    else if Covers(names[0].value, domain) == Wildcard then Some(Chosen(Wildcard, names[0].source, names[0].value))
    else FirstWildcard(names[1..], domain)
  }

  /** An exact name is preferred to a wildcard, an earlier one to a later one. */
  function Choice(names: seq<Name>, domain: string): Option<Chosen> {
    match FirstExact(names, domain)
    case Some(c) => Some(c)
    case None => FirstWildcard(names, domain)
  }

  /** Some name is chosen exactly when some name covers the domain. */
  lemma {:induction false} ChoiceExists(names: seq<Name>, domain: string)
    ensures Choice(names, domain).Some? <==> exists k :: 0 <= k < |names| && Covers(names[k].value, domain) != NoMatch
    ensures FirstExact(names, domain).Some? <==> exists k :: 0 <= k < |names| && Covers(names[k].value, domain) == Exact
  {
    hide Covers;
    if names != [] {
      ChoiceExists(names[1..], domain);
      assert forall k :: 0 <= k < |names[1..]| ==> names[k + 1] == names[1..][k];
    }
  }

  /** The chosen name: the first of its kind, and a wildcard only if no name covers the domain exactly. */
  lemma {:induction false} ChosenIs(names: seq<Name>, domain: string) returns (k: nat)
    requires Choice(names, domain).Some?
    ensures var c := Choice(names, domain).value;
            && k < |names| && c == Chosen(c.kind, names[k].source, names[k].value)
            && c.kind == Covers(names[k].value, domain) != NoMatch
            && (forall j :: 0 <= j < k ==> Covers(names[j].value, domain) != c.kind)
            && (c.kind == Wildcard ==> forall j :: 0 <= j < |names| ==> Covers(names[j].value, domain) != Exact)
  {
    hide Covers;
    var rest := names[1..];
    var m := Covers(names[0].value, domain);
    ChoiceExists(names, domain);
    if m == Exact || (m == Wildcard && FirstExact(names, domain).None?) {
      k := 0;
    } else {
      var l := ChosenIs(rest, domain);
      k := l + 1;
      assert forall j :: 0 < j < |names| ==> names[j] == rest[j - 1];
    }
  }

  /** The loop of `certificate_coverage_for_domain`. */
  method CoverageForDomain(names: seq<Name>, domain: string) returns (r: Option<Chosen>)
    ensures r == if Normal(domain) == "" then None else Choice(names, Normal(domain))
  {
    hide Covers;
    var d := Normal(domain);
    if d == "" {
      return None;
    }
    var wildcard: Option<Chosen> := None;
    for i := 0 to |names|
      invariant FirstExact(names, d) == FirstExact(names[i..], d)
      invariant FirstWildcard(names, d) == if wildcard.Some? then wildcard else FirstWildcard(names[i..], d)
    {
      assert names[i..][1..] == names[i + 1..];
      var m := Covers(names[i].value, d);
      if m == NoMatch {
        continue;
      }
      if m == Wildcard {
        if wildcard.None? {
          wildcard := Some(Chosen(Wildcard, names[i].source, names[i].value));
        }
        continue;
      }
      return Some(Chosen(Exact, names[i].source, names[i].value));
    }
    return wildcard;
  }

  /** The inner loop of `find_certificate_for_domain`, which keeps one variable for both kinds. */
  method ChooseName(names: seq<Name>, d: string) returns (r: Option<Chosen>)
    ensures r == Choice(names, d)
  {
    hide Covers;
    r := None;
    for i := 0 to |names|
      invariant FirstExact(names, d) == FirstExact(names[i..], d)
      invariant FirstWildcard(names, d) == if r.Some? then r else FirstWildcard(names[i..], d)
    {
      assert names[i..][1..] == names[i + 1..];
      var m := Covers(names[i].value, d);
      if m == NoMatch {
        continue;
      }
      if m == Wildcard {
        if r.None? {
          r := Some(Chosen(Wildcard, names[i].source, names[i].value));
        }
        continue;
      }
      return Some(Chosen(Exact, names[i].source, names[i].value));
    }
  }

  // ---------------------------------------------------------------- dates

  const SECOND := 1_000_000
  const DAY_SECONDS := 86400

  datatype Status = Valid | Pending | Expired

  datatype Info = Info(valid: bool, status: Status, daysRemaining: int, expires: int, complete: bool, chosen: Chosen)

  /** Whole seconds, rounded toward zero. */
  function Seconds(micros: int): int {
    if micros >= 0 then micros / SECOND else -((-micros) / SECOND)
  }

  /** `certificate_info_from_dates`, for a certificate with an expiry. */
  function InfoFromDates(issued: Option<int>, expires: int, now: int, complete: bool, chosen: Chosen): Info {
    var seconds := Seconds(expires - now);
    var started := issued.None? || issued.value <= now;
    var valid := started && seconds > 0;
    Info(valid, if valid then Valid else if !started then Pending else Expired,
         if seconds > 0 then (seconds + DAY_SECONDS - 1) / DAY_SECONDS else 0, expires, complete, chosen)
  }

  /** Valid means issued, and at least one whole second before expiry; the last day counts as one. */
  lemma ValidWindow(issued: Option<int>, expires: int, now: int, complete: bool, chosen: Chosen)
    ensures var i := InfoFromDates(issued, expires, now, complete, chosen);
            && (i.valid <==> (issued.None? || issued.value <= now) && expires - now >= SECOND)
            && (i.daysRemaining > 0 <==> expires - now >= SECOND)
            && (i.daysRemaining > 0 ==> (i.daysRemaining - 1) * DAY_SECONDS * SECOND < expires - now)
  {
    var left := expires - now;
    if left >= 0 {
      assert left == (left / SECOND) * SECOND + left % SECOND;
    }
  }

  /** Status and days: "pending" before the start, else "expired"; days are counted in full and rounded up. */
  lemma StatusIs(issued: Option<int>, expires: int, now: int, complete: bool, chosen: Chosen)
    ensures var i := InfoFromDates(issued, expires, now, complete, chosen);
            && (i.status == Valid <==> (issued.None? || issued.value <= now) && expires - now >= 1_000_000)
            && (i.status == Pending <==> issued.Some? && issued.value > now)
            && (expires - now < 1_000_000 ==> i.daysRemaining == 0)
            && (expires - now >= 1_000_000 ==>
                  (i.daysRemaining - 1) * 86400 < (expires - now) / 1_000_000 <= i.daysRemaining * 86400)
            && i.expires == expires && i.complete == complete && i.chosen == chosen
  {
    ValidWindow(issued, expires, now, complete, chosen);
  }

  // ---------------------------------------------------------------- the best certificate

  datatype Certificate = Certificate(names: seq<Name>, issued: Option<int>, expires: Option<int>, complete: bool)

  /** Dated and covering the domain. */
  predicate Eligible(c: Certificate, d: string) {
    c.expires.Some? && Choice(c.names, d).Some?
  }

  function InfoOf(c: Certificate, d: string, now: int): Info
    requires Eligible(c, d)
  {
    InfoFromDates(c.issued, c.expires.value, now, c.complete, Choice(c.names, d).value)
  }

  /** Smaller is better: valid, complete, named exactly by a SAN entry, latest expiry. */
  datatype Rank = Rank(invalid: bool, incomplete: bool, inexact: bool, expires: int)

  function RankOf(i: Info): Rank {
    Rank(!i.valid, !i.complete, !(i.chosen.kind == Exact && i.chosen.source == San), i.expires)
  }

  predicate Better(a: Rank, b: Rank) {
    if a.invalid != b.invalid then b.invalid
    else if a.incomplete != b.incomplete then b.incomplete
    else if a.inexact != b.inexact then b.inexact
    else a.expires > b.expires
  }

  /** `k` is the first eligible certificate of the best rank. */
  predicate IsBest(certs: seq<Certificate>, d: string, now: int, k: nat) {
    && k < |certs| && Eligible(certs[k], d)
    && forall j :: 0 <= j < |certs| && Eligible(certs[j], d) ==>
         && !Better(RankOf(InfoOf(certs[j], d, now)), RankOf(InfoOf(certs[k], d, now)))
         && (j < k ==> Better(RankOf(InfoOf(certs[k], d, now)), RankOf(InfoOf(certs[j], d, now))))
  }

  predicate NoneEligible(certs: seq<Certificate>, d: string) {
    forall j :: 0 <= j < |certs| ==> !Eligible(certs[j], d)
  }

  lemma BetterIsStrict(a: Rank, b: Rank, c: Rank)
    ensures !(Better(a, b) && Better(b, a))
    ensures Better(a, b) && !Better(c, b) ==> Better(a, c)
    ensures !Better(a, b) && Better(c, b) ==> Better(c, a)
  {
  }

  /** The certificate is valid now, with at least one whole second left. */
  predicate IsValid(c: Certificate, now: int) {
    (c.issued.None? || c.issued.value <= now) && c.expires.Some? && c.expires.value - now >= 1_000_000
  }

  /** The certificate is chosen for an exact SAN entry. */
  predicate IsNamed(c: Certificate, d: string) {
    exists k :: 0 <= k < |c.names| && Covers(c.names[k].value, d) == Exact && c.names[k].source == San
      && forall j :: 0 <= j < k ==> Covers(c.names[j].value, d) != Exact
  }

  lemma RankIs(c: Certificate, d: string, now: int)
    requires Eligible(c, d)
    ensures RankOf(InfoOf(c, d, now)) == Rank(!IsValid(c, now), !c.complete, !IsNamed(c, d), c.expires.value)
  {
    StatusIs(c.issued, c.expires.value, now, c.complete, Choice(c.names, d).value);
    ValidWindow(c.issued, c.expires.value, now, c.complete, Choice(c.names, d).value);
    var k := ChosenIs(c.names, d);
    hide Covers, Choice;
  }

  /**
   What the best certificate has over any other one that covers the domain: it is valid if that one
   is; equally valid, it is complete if that one is; then it is named exactly if that one is; and
   then it expires latest, and is the first of those that do.
   */
  lemma BestIs(certs: seq<Certificate>, d: string, now: int, k: nat, j: nat)
    requires IsBest(certs, d, now, k) && j < |certs| && Eligible(certs[j], d)
    ensures var a, b := certs[k], certs[j];
            && (IsValid(b, now) ==> IsValid(a, now))
            && (IsValid(a, now) == IsValid(b, now) ==>
                  && (b.complete ==> a.complete)
                  && (a.complete == b.complete ==>
                        && (IsNamed(b, d) ==> IsNamed(a, d))
                        && (IsNamed(a, d) == IsNamed(b, d) ==>
                              a.expires.value >= b.expires.value && (a.expires == b.expires ==> k <= j))))
  {
    RankIs(certs[k], d, now);
    RankIs(certs[j], d, now);
    hide Choice, InfoFromDates, RankOf, IsValid, IsNamed;
  }

  /** `find_certificate_for_domain`: the first certificate of least rank, or none iff none is eligible. */
  method FindCertificate(certs: seq<Certificate>, domain: string, now: int) returns (r: Option<Info>, ghost best: nat)
    ensures r.None? <==> Normal(domain) == "" || NoneEligible(certs, Normal(domain))
    ensures r.Some? ==> IsBest(certs, Normal(domain), now, best) && r.value == InfoOf(certs[best], Normal(domain), now)
  {
    hide Choice, InfoFromDates, RankOf, Better, Normal;
    var d := Normal(domain);
    best := 0;
    if d == "" {
      return None, best;
    }
    r := None;
    for i := 0 to |certs|
      invariant r.None? <==> NoneEligible(certs[..i], d)
      invariant r.Some? ==> best < i && IsBest(certs[..i], d, now, best) && r.value == InfoOf(certs[best], d, now)
    {
      assert certs[..i + 1] == certs[..i] + [certs[i]];
      var chosen := ChooseName(certs[i].names, d);
      if chosen.None? || certs[i].expires.None? {
        continue;
      }
      var info := InfoFromDates(certs[i].issued, certs[i].expires.value, now, certs[i].complete, chosen.value);
      if r.None? || Better(RankOf(info), RankOf(r.value)) {
        NextBest(certs, d, now, i, best, r.Some?);
        r, best := Some(info), i;
      } else {
        KeepBest(certs, d, now, i, best);
      }
    }
    assert certs[..|certs|] == certs;
  }

  lemma NextBest(certs: seq<Certificate>, d: string, now: int, i: nat, best: nat, some: bool)
    requires i < |certs| && Eligible(certs[i], d)
    requires if some then best < i && IsBest(certs[..i], d, now, best)
        && Better(RankOf(InfoOf(certs[i], d, now)), RankOf(InfoOf(certs[best], d, now)))
             else NoneEligible(certs[..i], d)
    ensures IsBest(certs[..i + 1], d, now, i)
  {
    hide Choice, InfoFromDates, RankOf, Better;
    forall j | 0 <= j < |certs[..i + 1]| && Eligible(certs[..i + 1][j], d)
      ensures !Better(RankOf(InfoOf(certs[j], d, now)), RankOf(InfoOf(certs[i], d, now)))
      ensures j < i ==> Better(RankOf(InfoOf(certs[i], d, now)), RankOf(InfoOf(certs[j], d, now)))
    {
      var mine := RankOf(InfoOf(certs[i], d, now));
      if j < i {
        assert certs[..i][j] == certs[j];
        if some {
          BetterIsStrict(mine, RankOf(InfoOf(certs[best], d, now)), RankOf(InfoOf(certs[j], d, now)));
          BetterIsStrict(mine, RankOf(InfoOf(certs[j], d, now)), mine);
        }
      } else {
        BetterIsStrict(mine, mine, mine);
      }
    }
  }

  lemma KeepBest(certs: seq<Certificate>, d: string, now: int, i: nat, best: nat)
    requires i < |certs| && Eligible(certs[i], d) && best < i && IsBest(certs[..i], d, now, best)
    requires !Better(RankOf(InfoOf(certs[i], d, now)), RankOf(InfoOf(certs[best], d, now)))
    ensures IsBest(certs[..i + 1], d, now, best)
  {
    hide Choice, InfoFromDates, RankOf, Better;
    forall j | 0 <= j < |certs[..i + 1]| && Eligible(certs[..i + 1][j], d)
      ensures !Better(RankOf(InfoOf(certs[j], d, now)), RankOf(InfoOf(certs[best], d, now)))
      ensures j < best ==> Better(RankOf(InfoOf(certs[best], d, now)), RankOf(InfoOf(certs[j], d, now)))
    {
      if j < i {
        assert certs[..i][j] == certs[j];
      }
    }
  }
}
