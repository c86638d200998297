/**
 The site table (app/repositories/sites.py, app/models/entities.py): domain ownership checks,
 creation, update and deletion, and what they keep true of all sites together.
 */
module Sites {
  import opened Text
  import opened Wrappers
  import D = Domains
  import B = Directives
  import C = SiteBlocks
  import S = Sorting
  import Counting
  import U = Unwrapping

  // ---------------------------------------------------------------- rows

  datatype Site = Site(name: string, domain: string, upstream: string, directives: Option<string>, enabled: bool)

  datatype SiteError = Duplicate | Invalid | NotFound

  type Rows = map<nat, Site>

  const PLACEHOLDER_URL := "http://placeholder.invalid"

  /** `_normalize_site_name`. */
  function SiteName(value: string): Result<string, SiteError> {
    var n := Strip(value);
    if n == "" || '\n' in n || '\r' in n then Err(Invalid) else Ok(n)
  }

  function Domain(value: string): Result<string, SiteError> {
    match D.NormalizeList(value)
    case Err(_) => Err(Invalid)
    case Ok(d) => Ok(d)
  }

  /** `_normalize_upstream_url`; `urlOk` stands for what `urlsplit` is asked about a stripped text. */
  function Upstream(value: string, urlOk: string -> bool): Result<string, SiteError> {
    var n := Strip(value);
    if n == "" || '\n' in n || '\r' in n || !urlOk(n) then Err(Invalid) else Ok(n)
  }

  predicate HasScheme(s: string) {
    s != "" && ("://" <= s || HasScheme(s[1..]))
  }

  /** `_derive_legacy_upstream_url` as the repository calls it, with a fallback host. */
  function DerivedUpstream(directives: string, host: string, urlOk: string -> bool): Result<string, SiteError> {
    match B.ExtractUpstream(directives)
    case None => Upstream("http://" + host, urlOk)
    case Some(u) => Upstream(if HasScheme(u) then u else "http://" + u, urlOk)
  }

  /** The names a stored domain value stands for. */
  function Names(domain: string): set<string>
    requires D.IsStored(domain)
  {
    set n | n in D.NamesOf(domain)
  }

  predicate AllStored(rows: Rows) {
    forall id :: id in rows ==> D.IsStored(rows[id].domain)
  }

  /** No host name belongs to two sites. */
  predicate Disjoint(rows: Rows)
    requires AllStored(rows)
  {
    forall i, j :: i in rows && j in rows && i != j ==> Names(rows[i].domain) !! Names(rows[j].domain)
  }

  /** Another site than `exclude` owns one of the names. */
  predicate Taken(rows: Rows, domain: string, exclude: Option<nat>)
    requires AllStored(rows) && D.IsStored(domain)
  {
    exists id :: id in rows && Some(id) != exclude && !(Names(domain) !! Names(rows[id].domain))
  }

  lemma NormalizedIsStored(value: string)
    ensures Domain(value).Ok? ==> D.IsStored(Domain(value).value)
  {
    if D.NormalizeList(value).Ok? {
      D.NormalizeListIdempotent(value);
    }
  }

  // ---------------------------------------------------------------- requests

  datatype NewSite = NewSite(name: string, domain: string, directives: string, enabled: bool)
  datatype Change = Change(name: Option<string>, domain: Option<string>, directives: Option<string>,
      enabled: Option<bool>)

  /** The row a creation would add, once its domain is known to be free. */
  function NewRow(site: NewSite, name: string, domain: string, urlOk: string -> bool): Result<Site, SiteError>
    requires D.IsStored(domain)
  {
    D.StoredParts(domain);
    match B.Normalize(site.directives)
    case None => Err(Invalid)
    case Some(directives) =>
      match DerivedUpstream(directives, D.NamesOf(domain)[0], urlOk)
      case Err(e) => Err(e)
      case Ok(upstream) =>
        if site.enabled && upstream == PLACEHOLDER_URL then Err(Invalid)
        else Ok(Site(name, domain, upstream, B.Normalize(directives), site.enabled))
  }

  function Create(rows: Rows, site: NewSite, urlOk: string -> bool): Result<Site, SiteError>
    requires AllStored(rows)
  {
    NormalizedIsStored(site.domain);
    match SiteName(site.name)
    case Err(e) => Err(e)
    case Ok(name) =>
      match Domain(site.domain)
      case Err(e) => Err(e)
      case Ok(domain) =>
        if Taken(rows, domain, None) then Err(Duplicate) else NewRow(site, name, domain, urlOk)
  }

  /** Directives and upstream after a change; the column normalizes whatever it is assigned. */
  function ChangedBody(was: Site, domain: string, directives: Option<string>,
      urlOk: string -> bool): Result<(Option<string>, string), SiteError>
    requires D.IsStored(domain)
  {
    D.StoredParts(domain);
    match directives
    case None => Ok((if was.directives.None? then None else B.Normalize(was.directives.value), was.upstream))
    case Some(raw) =>
      match B.Normalize(raw)
      case None => Err(Invalid)
      case Some(d) =>
        match DerivedUpstream(d, D.NamesOf(domain)[0], urlOk)
        case Err(e) => Err(e)
        case Ok(u) => Ok((B.Normalize(d), u))
  }

  function ChangedDomain(rows: Rows, id: nat, domain: Option<string>): Result<string, SiteError>
    requires AllStored(rows) && id in rows
  {
    match domain
    case None => Ok(rows[id].domain)
    case Some(value) =>
      NormalizedIsStored(value);
      match Domain(value)
      case Err(e) => Err(e)
      case Ok(d) => if Taken(rows, d, Some(id)) then Err(Duplicate) else Ok(d)
  }

  lemma ChangedDomainStored(rows: Rows, id: nat, domain: Option<string>)
    requires AllStored(rows) && id in rows
    ensures var r := ChangedDomain(rows, id, domain);
            r.Ok? ==> D.IsStored(r.value) && (domain.None? || !Taken(rows, r.value, Some(id)))
    ensures domain.None? ==> ChangedDomain(rows, id, domain) == Ok(rows[id].domain)
  {
    hide D.NormalizeList, D.IsStored, Taken;
    if domain.Some? {
      NormalizedIsStored(domain.value);
    }
  }

  function Update(rows: Rows, id: nat, change: Change, urlOk: string -> bool): Result<Site, SiteError>
    requires AllStored(rows) && id in rows
  {
    var was := rows[id];
    ChangedDomainStored(rows, id, change.domain);
    match if change.name.None? then Ok(was.name) else SiteName(change.name.value)
    case Err(e) => Err(e)
    case Ok(name) =>
      match ChangedDomain(rows, id, change.domain)
      case Err(e) => Err(e)
      case Ok(domain) =>
        match ChangedBody(was, domain, change.directives, urlOk)
        case Err(e) => Err(e)
        case Ok(body) =>
          var enabled := if change.enabled.None? then was.enabled else change.enabled.value;
          if enabled && body.1 == PLACEHOLDER_URL then Err(Invalid)
          else Ok(Site(name, domain, body.1, body.0, enabled))
  }

  // ---------------------------------------------------------------- the repository

  class SiteTable {
    var rows: Rows
    var nextId: nat
    const urlOk: string -> bool

    ghost predicate Valid()
      reads this
    {
      && (forall id :: id in rows ==> id < nextId)
      && AllStored(rows) && Disjoint(rows)
    }

    constructor (urlOk: string -> bool)
      ensures Valid() && rows == map[] && this.urlOk == urlOk
    {
      rows, nextId := map[], 0;
      this.urlOk := urlOk;
    }

    /** `domain_exists`: visits the other rows until one shares a name. */
    method DomainExists(domain: string, exclude: Option<nat>) returns (taken: bool)
      requires Valid() && D.IsStored(domain)
      ensures taken == Taken(rows, domain, exclude)
    {
      hide D.IsStored, Names;
      var left := rows.Keys;
      while left != {}
        invariant left <= rows.Keys
        invariant forall id :: id in rows && id !in left && Some(id) != exclude ==>
            Names(domain) !! Names(rows[id].domain)
        decreases |left|
      {
        var id: nat :| id in left;
        if Some(id) != exclude && !(Names(domain) !! Names(rows[id].domain)) {
          return true;
        }
        left := left - {id};
      }
      return false;
    }

    method CreateSite(site: NewSite) returns (r: Result<nat, SiteError>)
      requires Valid()
      modifies this
      ensures Valid()
      ensures match Create(old(rows), site, urlOk) {
                case Err(e) => r == Err(e) && rows == old(rows)
                case Ok(row) => r == Ok(old(nextId)) && old(nextId) !in old(rows)
                  && rows == old(rows)[old(nextId) := row]
              }
    {
      hide D.NormalizeList, D.IsStored, NewRow, SiteName, Taken, Disjoint, AllStored, Domain;
      var name := SiteName(site.name);
      if name.Err? { return Err(name.error); }
      NormalizedIsStored(site.domain);
      var domain := Domain(site.domain);
      if domain.Err? { return Err(domain.error); }
      var taken := DomainExists(domain.value, None);
      if taken { return Err(Duplicate); }
      var row := MakeRow(site, name.value, domain.value);
      if row.Err? { return Err(row.error); }
      NewRowDomain(site, name.value, domain.value, urlOk);
      AddKeepsDisjoint(rows, nextId, row.value);
      rows, nextId, r := rows[nextId := row.value], nextId + 1, Ok(nextId);
    }

    method MakeRow(site: NewSite, name: string, domain: string) returns (r: Result<Site, SiteError>)
      requires D.IsStored(domain)
      ensures r == NewRow(site, name, domain, urlOk)
    {
      hide D.NormalizeList, D.IsStored, DerivedUpstream, B.Normalize, D.NamesOf;
      var directives := B.Normalize(site.directives);
      if directives.None? { return Err(Invalid); }
      D.StoredParts(domain);
      var upstream := DerivedUpstream(directives.value, D.NamesOf(domain)[0], urlOk);
      if upstream.Err? { return Err(upstream.error); }
      if site.enabled && upstream.value == PLACEHOLDER_URL { return Err(Invalid); }
      return Ok(Site(name, domain, upstream.value, B.Normalize(directives.value), site.enabled));
    }

    method UpdateSite(id: nat, change: Change) returns (r: Result<nat, SiteError>)
      requires Valid()
      modifies this
      ensures Valid() && nextId == old(nextId)
      ensures if id !in old(rows) then r == Err(NotFound) && rows == old(rows)
              else match Update(old(rows), id, change, urlOk) {
                case Err(e) => r == Err(e) && rows == old(rows)
                case Ok(row) => r == Ok(id) && rows == old(rows)[id := row]
              }
    {
      hide D.NormalizeList, D.IsStored, ChangedBody, ChangedDomain, SiteName, Taken, Disjoint, AllStored;
      if id !in rows { return Err(NotFound); }
      var site := rows[id];
      var name := if change.name.None? then Ok(site.name) else SiteName(change.name.value);
      if name.Err? { return Err(name.error); }
      var domain := NextDomain(id, change.domain);
      ChangedDomainStored(rows, id, change.domain);
      if domain.Err? { return Err(domain.error); }
      var body := NextBody(site, domain.value, change.directives);
      if body.Err? { return Err(body.error); }
      var enabled := if change.enabled.None? then site.enabled else change.enabled.value;
      if enabled && body.value.1 == PLACEHOLDER_URL { return Err(Invalid); }
      var row := Site(name.value, domain.value, body.value.1, body.value.0, enabled);
      ReplaceKeepsDisjoint(rows, id, row);
      ReplaceKeepsIds(rows, id, row);
      rows, r := rows[id := row], Ok(id);
    }

    method NextDomain(id: nat, domain: Option<string>) returns (r: Result<string, SiteError>)
      requires Valid() && id in rows
      ensures r == ChangedDomain(rows, id, domain)
    {
      hide D.NormalizeList, D.IsStored, Taken, Disjoint;
      if domain.None? { return Ok(rows[id].domain); }
      NormalizedIsStored(domain.value);
      r := Domain(domain.value);
      if r.Ok? {
        var taken := DomainExists(r.value, Some(id));
        if taken { return Err(Duplicate); }
      }
    }

    method NextBody(site: Site, domain: string, directives: Option<string>)
        returns (r: Result<(Option<string>, string), SiteError>)
      requires D.IsStored(domain)
      ensures r == ChangedBody(site, domain, directives, urlOk)
    {
      hide D.IsStored, DerivedUpstream, B.Normalize, D.NamesOf;
      var next, upstream := site.directives, site.upstream;
      if directives.Some? {
        next := B.Normalize(directives.value);
        if next.None? { return Err(Invalid); }
        D.StoredParts(domain);
        var derived := DerivedUpstream(next.value, D.NamesOf(domain)[0], urlOk);
        if derived.Err? { return Err(derived.error); }
        upstream := derived.value;
      }
      return Ok((if next.None? then None else B.Normalize(next.value), upstream));
    }

    method DeleteSite(id: nat) returns (found: bool)
      requires Valid()
      modifies this
      ensures Valid() && nextId == old(nextId)
      ensures found == (id in old(rows)) && rows == old(rows) - {id}
    {
      hide D.IsStored, Names;
      found := id in rows;
      rows := rows - {id};
    }
  }

  lemma NewRowDomain(site: NewSite, name: string, domain: string, urlOk: string -> bool)
    requires D.IsStored(domain)
    ensures var r := NewRow(site, name, domain, urlOk); r.Ok? ==> r.value.domain == domain && r.value.name == name
  {
    hide D.IsStored, DerivedUpstream, B.Normalize, D.NamesOf;
  }

  lemma AddKeepsDisjoint(rows: Rows, id: nat, row: Site)
    requires AllStored(rows) && Disjoint(rows) && id !in rows
    requires D.IsStored(row.domain) && !Taken(rows, row.domain, None)
    ensures AllStored(rows[id := row]) && Disjoint(rows[id := row])
  {
    hide D.IsStored, Names;
    assert forall j :: j in rows ==> Some(j) != None;
  }

  lemma ReplaceKeepsDisjoint(rows: Rows, id: nat, row: Site)
    requires AllStored(rows) && Disjoint(rows) && id in rows
    requires D.IsStored(row.domain) && (row.domain == rows[id].domain || !Taken(rows, row.domain, Some(id)))
    ensures AllStored(rows[id := row]) && Disjoint(rows[id := row])
  {
    hide D.IsStored, Names;
    assert forall j: nat :: j != id ==> Some(j) != Some(id);
  }

  lemma ReplaceKeepsIds(rows: Rows, id: nat, row: Site)
    requires id in rows
    ensures rows[id := row].Keys == rows.Keys
  {
  }

  // ---------------------------------------------------------------- all runs

  datatype Table = Table(rows: Rows, nextId: nat)

  datatype Op = Creating(site: NewSite) | Updating(id: nat, change: Change) | Deleting(id: nat)

  predicate Good(t: Table) {
    (forall id :: id in t.rows ==> id < t.nextId) && AllStored(t.rows) && Disjoint(t.rows)
  }

  /** One repository call; a call that raises leaves the table alone. */
  function Step(t: Table, op: Op, urlOk: string -> bool): Table
    requires AllStored(t.rows)
  {
    match op
    case Creating(site) =>
      var r := Create(t.rows, site, urlOk);
      if r.Ok? then Table(t.rows[t.nextId := r.value], t.nextId + 1) else t
    case Updating(id, change) =>
      if id !in t.rows then t
      else
        var r := Update(t.rows, id, change, urlOk);
        if r.Ok? then Table(t.rows[id := r.value], t.nextId) else t
    case Deleting(id) => Table(t.rows - {id}, t.nextId)
  }

  lemma CreatedDomain(rows: Rows, site: NewSite, urlOk: string -> bool)
    requires AllStored(rows)
    ensures var r := Create(rows, site, urlOk);
            r.Ok? ==> D.IsStored(r.value.domain) && !Taken(rows, r.value.domain, None)
  {
    hide NewRow, Taken, D.IsStored, Domain, SiteName, AllStored;
    NormalizedIsStored(site.domain);
    var name, domain := SiteName(site.name), Domain(site.domain);
    if name.Ok? && domain.Ok? {
      NewRowDomain(site, name.value, domain.value, urlOk);
    }
  }

  lemma UpdatedDomain(rows: Rows, id: nat, change: Change, urlOk: string -> bool)
    requires AllStored(rows) && id in rows
    ensures var r := Update(rows, id, change, urlOk);
            r.Ok? ==>
              && D.IsStored(r.value.domain)
              && (r.value.domain == rows[id].domain || !Taken(rows, r.value.domain, Some(id)))
  {
    hide ChangedBody, ChangedDomain, Taken, D.IsStored, SiteName;
    ChangedDomainStored(rows, id, change.domain);
  }

  lemma StepKeepsGood(t: Table, op: Op, urlOk: string -> bool)
    requires Good(t)
    ensures Good(Step(t, op, urlOk))
  {
    hide Create, Update, Disjoint, Taken, D.IsStored, Names;
    match op
    case Creating(site) =>
      CreatedDomain(t.rows, site, urlOk);
      var r := Create(t.rows, site, urlOk);
      if r.Ok? { AddKeepsDisjoint(t.rows, t.nextId, r.value); }
    case Updating(id, change) =>
      if id in t.rows {
        UpdatedDomain(t.rows, id, change, urlOk);
        var r := Update(t.rows, id, change, urlOk);
        if r.Ok? { ReplaceKeepsDisjoint(t.rows, id, r.value); }
      }
    case Deleting(id) =>
      RemoveKeepsDisjoint(t.rows, id);
  }

  lemma RemoveKeepsDisjoint(rows: Rows, id: nat)
    requires AllStored(rows) && Disjoint(rows)
    ensures AllStored(rows - {id}) && Disjoint(rows - {id})
  {
    hide D.IsStored, Names;
  }

  lemma GoodIsStored(t: Table)
    requires Good(t)
    ensures AllStored(t.rows)
  {
  }

  function Run(t: Table, ops: seq<Op>, urlOk: string -> bool): Table
    requires Good(t)
    decreases |ops|
  {
    if ops == [] then t
    else
      hide *;
      StepKeepsGood(t, ops[0], urlOk);
      GoodIsStored(t);
      Run(Step(t, ops[0], urlOk), ops[1..], urlOk)
  }

  /** After any sequence of calls no host name belongs to two sites. */
  lemma {:induction false} RunKeepsDisjoint(t: Table, ops: seq<Op>, urlOk: string -> bool)
    requires Good(t)
    ensures Good(Run(t, ops, urlOk))
    decreases |ops|
  {
    hide Good, Step;
    if ops != [] {
      GoodIsStored(t);
      StepKeepsGood(t, ops[0], urlOk);
      RunKeepsDisjoint(Step(t, ops[0], urlOk), ops[1..], urlOk);
    }
  }

  /** A run takes its calls one after the other. */
  lemma {:induction false} RunLast(t: Table, ops: seq<Op>, op: Op, urlOk: string -> bool)
    requires Good(t)
    ensures Run(t, [], urlOk) == t && Good(Run(t, ops, urlOk)) && AllStored(Run(t, ops, urlOk).rows)
    ensures Run(t, ops + [op], urlOk) == Step(Run(t, ops, urlOk), op, urlOk)
    decreases |ops|
  {
    hide Good, Step, AllStored;
    RunKeepsDisjoint(t, ops, urlOk);
    GoodIsStored(Run(t, ops, urlOk));
    GoodIsStored(t);
    if ops == [] {
      assert [] + [op] == [op] && [op][1..] == [];
      StepKeepsGood(t, op, urlOk);
    } else {
      assert (ops + [op])[1..] == ops[1..] + [op];
      StepKeepsGood(t, ops[0], urlOk);
      RunLast(Step(t, ops[0], urlOk), ops[1..], op, urlOk);
    }
  }

  // ---------------------------------------------------------------- the generated blocks

  function RowOf(site: Site): C.SiteRow {
    C.SiteRow(site.name, site.domain, if site.directives.None? then "" else site.directives.value, site.upstream,
      site.enabled)
  }

  /** The rows of a listing of the table, whatever its order. */
  function Listing(rows: Rows, ids: seq<nat>): (r: seq<C.SiteRow>)
    requires forall k :: 0 <= k < |ids| ==> ids[k] in rows
    ensures |r| == |ids| && forall k :: 0 <= k < |r| ==> r[k] == RowOf(rows[ids[k]])
  {
    seq(|ids|, k requires 0 <= k < |ids| => RowOf(rows[ids[k]]))
  }

  predicate StoredRows(rows: seq<C.SiteRow>) {
    forall k :: 0 <= k < |rows| ==> D.IsStored(rows[k].domain)
  }

  predicate Apart(rows: seq<C.SiteRow>)
    requires StoredRows(rows)
  {
    forall i, j :: 0 <= i < j < |rows| ==> Names(rows[i].domain) !! Names(rows[j].domain)
  }

  lemma {:induction false} EnabledMembers(rows: seq<C.SiteRow>)
    ensures multiset(C.Enabled(rows)) <= multiset(rows)
  {
    if rows != [] {
      EnabledMembers(rows[1..]);
      assert rows == [rows[0]] + rows[1..];
    }
  }

  lemma NamesNotEmpty(domain: string)
    requires D.IsStored(domain)
    ensures Names(domain) != {}
  {
    hide D.IsStored, D.NamesOf;
    D.StoredParts(domain);
    assert D.NamesOf(domain)[0] in Names(domain);
  }

  /** Being apart only depends on how often each row occurs. */
  lemma ApartSubset(rows: seq<C.SiteRow>, some: seq<C.SiteRow>)
    requires StoredRows(rows) && Apart(rows) && multiset(some) <= multiset(rows)
    ensures StoredRows(some) && Apart(some)
  {
    hide D.IsStored, Names;
    forall k | 0 <= k < |some| ensures D.IsStored(some[k].domain) {
      FoundIn(rows, some, k);
    }
    forall i, j | 0 <= i < j < |some| ensures Names(some[i].domain) !! Names(some[j].domain) {
      NoTwins(rows, some[i]);
      if some[i] == some[j] {
        Counting.TwiceCounts(some, i, j);
      }
      FoundIn(rows, some, i);
      FoundIn(rows, some, j);
      var a :| 0 <= a < |rows| && rows[a] == some[i];
      var b :| 0 <= b < |rows| && rows[b] == some[j];
      assert if a < b then Names(rows[a].domain) !! Names(rows[b].domain)
        else Names(rows[b].domain) !! Names(rows[a].domain);
    }
  }

  lemma NoTwins(rows: seq<C.SiteRow>, row: C.SiteRow)
    requires StoredRows(rows) && Apart(rows)
    ensures multiset(rows)[row] < 2
  {
    hide D.IsStored, Names;
    if multiset(rows)[row] >= 2 {
      var a, b := Counting.TwoPlaces(rows, row);
      NamesNotEmpty(rows[a].domain);
    }
  }

  lemma FoundIn(rows: seq<C.SiteRow>, some: seq<C.SiteRow>, k: nat)
    requires multiset(some) <= multiset(rows) && k < |some|
    ensures exists a :: 0 <= a < |rows| && rows[a] == some[k]
  {
    assert some[k] in multiset(some);
    assert some[k] in rows;
  }

  /**
   In a table reached by any run, the blocks `build_full_caddyfile` prints never name a host twice:
   each block's label is its row's domain value, and those values share no name.
   */
  lemma NoHostInTwoBlocks(rows: Rows, ids: seq<nat>)
    requires AllStored(rows) && Disjoint(rows)
    requires Counting.Distinct(ids) && forall k :: 0 <= k < |ids| ==> ids[k] in rows
    ensures var listed := C.Listed(Listing(rows, ids));
            && StoredRows(listed) && Apart(listed)
            && forall k :: 0 <= k < |listed| ==> C.Label(listed[k].domain, true) == Some(listed[k].domain)
  {
    hide D.IsStored, Names, C.Label, C.Enabled, S.Sort;
    var all := Listing(rows, ids);
    var listed := C.Listed(all);
    EnabledMembers(all);
    S.SortPermutes(C.Enabled(all), C.ByDomain);
    ApartSubset(all, listed);
    forall k | 0 <= k < |listed| ensures C.Label(listed[k].domain, true) == Some(listed[k].domain) {
      C.StoredLabel(listed[k].domain);
    }
  }

  // ---------------------------------------------------------------- what an update rewrites

  /** The directives column holds what a normalization returned. */
  predicate TrimmedRow(row: Site) {
    row.directives.Some? ==> row.directives.value != "" && Strip(row.directives.value) == row.directives.value
  }

  predicate AllTrimmed(rows: Rows) {
    forall id :: id in rows ==> TrimmedRow(rows[id])
  }

  lemma NewRowTrimmed(rows: Rows, site: NewSite, urlOk: string -> bool)
    requires AllStored(rows)
    ensures var r := Create(rows, site, urlOk); r.Ok? ==> TrimmedRow(r.value)
  {
    hide B.Normalize, DerivedUpstream, Taken, D.IsStored, Domain, SiteName, D.NamesOf, Strip;
    if B.Normalize(site.directives).Some? {
      U.NormalizedIsTrimmed(B.Normalize(site.directives).value);
    }
  }

  lemma UpdatedTrimmed(rows: Rows, id: nat, change: Change, urlOk: string -> bool)
    requires AllStored(rows) && id in rows
    ensures var r := Update(rows, id, change, urlOk); r.Ok? ==> TrimmedRow(r.value)
  {
    hide B.Normalize, DerivedUpstream, D.IsStored, ChangedDomain, SiteName, D.NamesOf, Strip;
    ChangedDomainStored(rows, id, change.domain);
    if rows[id].directives.Some? {
      U.NormalizedIsTrimmed(rows[id].directives.value);
    }
    if change.directives.Some? && B.Normalize(change.directives.value).Some? {
      U.NormalizedIsTrimmed(B.Normalize(change.directives.value).value);
    }
  }

  lemma StepKeepsTrimmed(t: Table, op: Op, urlOk: string -> bool)
    requires Good(t) && AllTrimmed(t.rows)
    ensures AllTrimmed(Step(t, op, urlOk).rows)
  {
    hide Create, Update, TrimmedRow, Disjoint, AllStored;
    match op
    case Creating(site) => NewRowTrimmed(t.rows, site, urlOk);
    case Updating(id, change) =>
      if id in t.rows {
        UpdatedTrimmed(t.rows, id, change, urlOk);
      }
    case Deleting(id) =>
  }

  lemma {:induction false} RunKeepsTrimmed(t: Table, ops: seq<Op>, urlOk: string -> bool)
    requires Good(t) && AllTrimmed(t.rows)
    ensures AllTrimmed(Run(t, ops, urlOk).rows)
    decreases |ops|
  {
    hide Good, Step, AllTrimmed;
    if ops != [] {
      GoodIsStored(t);
      StepKeepsGood(t, ops[0], urlOk);
      StepKeepsTrimmed(t, ops[0], urlOk);
      RunKeepsTrimmed(Step(t, ops[0], urlOk), ops[1..], urlOk);
    }
  }

  /**
   The directives column normalizes on every assignment, so an update that does not mention the
   directives rewrites them exactly if they are one block under a header that is no directive.
   */
  lemma UntouchedDirectives(rows: Rows, id: nat, change: Change, urlOk: string -> bool)
    requires AllStored(rows) && id in rows && TrimmedRow(rows[id]) && change.directives.None?
    requires Update(rows, id, change, urlOk).Ok?
    ensures var next, was := Update(rows, id, change, urlOk).value, rows[id];
            && next.upstream == was.upstream
            && (next.directives != was.directives <==> was.directives.Some? && U.Unwraps(was.directives.value))
  {
    UntouchedIs(rows, id, change, urlOk);
    if rows[id].directives.Some? {
      U.NormalizeKeeps(rows[id].directives.value);
    }
    hide *;
  }

  lemma UntouchedIs(rows: Rows, id: nat, change: Change, urlOk: string -> bool)
    requires AllStored(rows) && id in rows && change.directives.None?
    requires Update(rows, id, change, urlOk).Ok?
    ensures var next, was := Update(rows, id, change, urlOk).value, rows[id];
            && next.upstream == was.upstream
            && next.directives == if was.directives.None? then None else B.Normalize(was.directives.value)
  {
    hide B.Normalize, Taken, D.IsStored, SiteName, ChangedDomain;
    ChangedDomainStored(rows, id, change.domain);
  }

  lemma CreatedDirectives(rows: Rows, site: NewSite, urlOk: string -> bool)
    requires AllStored(rows) && Create(rows, site, urlOk).Ok?
    ensures B.Normalize(site.directives).Some?
    ensures Create(rows, site, urlOk).value.directives == B.Normalize(B.Normalize(site.directives).value)
  {
    hide B.Normalize, DerivedUpstream, Taken, D.IsStored, Domain, SiteName, D.NamesOf;
  }

  /** A created site whose directives lose their last wrapper when it is only renamed. */
  lemma RenameUnwraps(rows: Rows, site: NewSite, id: nat, name: string, outer: string, middle: string, inner: string,
      body: string, urlOk: string -> bool)
    requires AllStored(rows) && Disjoint(rows) && id !in rows
    requires U.IsWrapper(outer) && U.IsWrapper(middle) && U.IsWrapper(inner)
    requires body != "" && B.IsBody(body) && B.Balanced(body, 0)
    requires site.directives == B.BlockText(outer, B.BlockText(middle, B.BlockText(inner, body)))
    requires Create(rows, site, urlOk).Ok? && SiteName(name).Ok?
    ensures var row := Create(rows, site, urlOk).value;
            && row.directives == Some(B.BlockText(inner, body))
            && AllStored(rows[id := row])
            && var renamed := Update(rows[id := row], id, Change(Some(name), None, None, None), urlOk);
               renamed.Ok? && renamed.value.directives == Some(body) != row.directives
  {
    var row, change := Create(rows, site, urlOk).value, Change(Some(name), None, None, None);
    CreatedDirectives(rows, site, urlOk);
    CreatedDomain(rows, site, urlOk);
    AddKeepsDisjoint(rows, id, row);
    U.ThreeWrappers(outer, middle, inner, body);
    RenameAccepted(rows, site, id, name, urlOk);
    UntouchedIs(rows[id := row], id, change, urlOk);
    hide *;
  }

  lemma RenameAccepted(rows: Rows, site: NewSite, id: nat, name: string, urlOk: string -> bool)
    requires AllStored(rows) && Create(rows, site, urlOk).Ok? && AllStored(rows[id := Create(rows, site, urlOk).value])
    requires SiteName(name).Ok?
    ensures Update(rows[id := Create(rows, site, urlOk).value], id, Change(Some(name), None, None, None), urlOk).Ok?
  {
    hide B.Normalize, DerivedUpstream, Taken, D.IsStored, Domain, SiteName, D.NamesOf;
  }
}
