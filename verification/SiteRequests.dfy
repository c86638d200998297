/**
 Each site request in full (app/repositories/sites.py:60-268): what a creation or an update stores or
 why it is refused, said with the fields of the request and the row alone.
 */
module SiteRequests {
  import opened Text
  import opened Wrappers
  import opened Sites
  import B = Directives
  import D = Domains

  // ---------------------------------------------------------------- the fields

  /** Trimmed, not empty, on one line. */
  predicate IsPlainLine(s: string) {
    s != "" && Strip(s) == s && '\n' !in s && '\r' !in s
  }

  lemma NameIs(value: string)
    ensures SiteName(value) == if IsPlainLine(Strip(value)) then Ok(Strip(value)) else Err(Invalid)
  {
    StripIdempotent(value);
    hide Strip;
  }

  lemma UpstreamIs(value: string, urlOk: string -> bool)
    ensures Upstream(value, urlOk) ==
              if IsPlainLine(Strip(value)) && urlOk(Strip(value)) then Ok(Strip(value)) else Err(Invalid)
  {
    StripIdempotent(value);
    hide Strip;
  }

  /** The text is cut in two by a "://". */
  predicate IsCut(s: string, before: string, after: string) {
    s == before + "://" + after
  }

  lemma {:induction false} SchemeIs(s: string)
    ensures HasScheme(s) <==> exists before, after :: IsCut(s, before, after)
  {
    if s == "" {
      assert forall before, after :: !IsCut(s, before, after);
    } else {
      var rest := s[1..];
      SchemeIs(rest);
      if "://" <= s {
        assert IsCut(s, "", s[3..]);
      } else {
        if before, after :| IsCut(rest, before, after) {
          assert IsCut(s, [s[0]] + before, after);
        }
        if before, after :| IsCut(s, before, after) {
          CutLater(s, before, after);
        }
      }
    }
  }

  lemma CutLater(s: string, before: string, after: string)
    requires IsCut(s, before, after) && !("://" <= s)
    ensures s != "" && IsCut(s[1..], before[1..], after)
  {
    assert "://" <= "" + "://" + after;
  }

  /** The upstream of a site: the one its directives name, with a scheme, or its first host. */
  function UpstreamText(directives: string, host: string): string {
    match B.ExtractUpstream(directives)
    case Some(u) => if HasScheme(u) then u else "http://" + u
    case None => "http://" + host
  }

  lemma DerivedIs(directives: string, host: string, urlOk: string -> bool)
    ensures DerivedUpstream(directives, host, urlOk) == Upstream(UpstreamText(directives, host), urlOk)
  {
    hide B.ExtractUpstream, Upstream, HasScheme;
  }

  /** Another site of the table has one of the names. */
  ghost predicate IsOwned(rows: Rows, names: seq<string>, except: Option<nat>)
    requires AllStored(rows)
  {
    exists id, name :: id in rows && Some(id) != except && name in names && name in D.NamesOf(rows[id].domain)
  }

  lemma TakenIs(rows: Rows, domain: string, except: Option<nat>)
    requires AllStored(rows) && D.IsStored(domain)
    ensures Taken(rows, domain, except) <==> IsOwned(rows, D.NamesOf(domain), except)
  {
    hide D.IsStored, D.NamesOf;
    if Taken(rows, domain, except) {
      var id :| id in rows && Some(id) != except && !(Names(domain) !! Names(rows[id].domain));
      var name :| name in Names(domain) && name in Names(rows[id].domain);
      assert name in D.NamesOf(domain) && name in D.NamesOf(rows[id].domain);
    }
    if IsOwned(rows, D.NamesOf(domain), except) {
      var id, name :| id in rows && Some(id) != except && name in D.NamesOf(domain)
        && name in D.NamesOf(rows[id].domain);
      assert name in Names(domain) && name in Names(rows[id].domain);
    }
  }

  /** The placeholder stands for no upstream: an enabled site may not have it. */
  predicate MayHave(upstream: string, enabled: bool) {
    !(enabled && upstream == "http://placeholder.invalid")
  }

  // ---------------------------------------------------------------- creating

  /** A creation: the row it stores, or why it is refused, in the order of the source. */
  lemma CreateIs(rows: Rows, site: NewSite, urlOk: string -> bool)
    requires AllStored(rows)
    ensures var r, name, domain := Create(rows, site, urlOk), Strip(site.name), D.NormalizeList(site.domain);
            if !IsPlainLine(name) || domain.Err? then r == Err(Invalid)
            else
              && D.IsStored(domain.value) && D.NamesOf(domain.value) != []
              && if IsOwned(rows, D.NamesOf(domain.value), None) then r == Err(Duplicate)
                 else
                   match B.Normalize(site.directives)
                   case None => r == Err(Invalid)
                   case Some(directives) =>
                     var upstream := Strip(UpstreamText(directives, D.NamesOf(domain.value)[0]));
                     if IsPlainLine(upstream) && urlOk(upstream) && MayHave(upstream, site.enabled)
                     then r == Ok(Site(name, domain.value, upstream, B.Normalize(directives), site.enabled))
                     else r == Err(Invalid)
  {
    hide *;
    NameIs(site.name);
    NormalizedIsStored(site.domain);
    DomainIs(site.domain);
    var domain := D.NormalizeList(site.domain);
    if domain.Ok? {
      D.StoredParts(domain.value);
      TakenIs(rows, domain.value, None);
      NewRowIs(site, Strip(site.name), domain.value, urlOk);
    }
    CreateCases(rows, site, urlOk);
  }

  lemma DomainIs(value: string)
    ensures Domain(value) == match D.NormalizeList(value) case Ok(d) => Ok(d) case Err(_) => Err(Invalid)
  {
    hide D.NormalizeList;
  }

  lemma CreateCases(rows: Rows, site: NewSite, urlOk: string -> bool)
    requires AllStored(rows)
    ensures var r, name, domain := Create(rows, site, urlOk), SiteName(site.name), Domain(site.domain);
            if name.Err? then r == Err(name.error)
            else if domain.Err? then r == Err(domain.error)
            else
              && D.IsStored(domain.value)
              && r == if Taken(rows, domain.value, None) then Err(Duplicate)
                else NewRow(site, name.value, domain.value, urlOk)
  {
    NormalizedIsStored(site.domain);
    hide SiteName, Domain, Taken, NewRow, AllStored, D.IsStored;
  }

  lemma NewRowIs(site: NewSite, name: string, domain: string, urlOk: string -> bool)
    requires D.IsStored(domain)
    ensures D.NamesOf(domain) != []
    ensures var r := NewRow(site, name, domain, urlOk);
            match B.Normalize(site.directives)
            case None => r == Err(Invalid)
            case Some(directives) =>
              var upstream := Strip(UpstreamText(directives, D.NamesOf(domain)[0]));
              if IsPlainLine(upstream) && urlOk(upstream) && MayHave(upstream, site.enabled)
              then r == Ok(Site(name, domain, upstream, B.Normalize(directives), site.enabled))
              else r == Err(Invalid)
  {
    D.StoredParts(domain);
    var directives := B.Normalize(site.directives);
    if directives.Some? {
      DerivedIs(directives.value, D.NamesOf(domain)[0], urlOk);
      UpstreamIs(UpstreamText(directives.value, D.NamesOf(domain)[0]), urlOk);
    }
    hide B.Normalize, DerivedUpstream, Upstream, UpstreamText, IsPlainLine, Strip, D.IsStored, D.NamesOf;
  }

  // ---------------------------------------------------------------- updating

  /** The domain of a site after an update, or why it is refused. */
  lemma ChangedDomainIs(rows: Rows, id: nat, domain: Option<string>)
    requires AllStored(rows) && id in rows
    ensures var r := ChangedDomain(rows, id, domain);
            match domain
            case None => r == Ok(rows[id].domain)
            case Some(value) =>
              match D.NormalizeList(value)
              case Err(_) => r == Err(Invalid)
              case Ok(d) =>
                && D.IsStored(d)
                && r == if IsOwned(rows, D.NamesOf(d), Some(id)) then Err(Duplicate) else Ok(d)
  {
    if domain.Some? {
      NormalizedIsStored(domain.value);
      DomainIs(domain.value);
      if D.NormalizeList(domain.value).Ok? {
        TakenIs(rows, D.NormalizeList(domain.value).value, Some(id));
      }
    }
    hide D.NormalizeList, D.IsStored, Taken, IsOwned, D.NamesOf, Domain;
  }

  /** Directives and upstream after an update. */
  lemma ChangedBodyIs(was: Site, domain: string, directives: Option<string>, urlOk: string -> bool)
    requires D.IsStored(domain)
    ensures D.NamesOf(domain) != []
    ensures var r := ChangedBody(was, domain, directives, urlOk);
            match directives
            case None => r == Ok((if was.directives.None? then None else B.Normalize(was.directives.value),
              was.upstream))
            case Some(raw) =>
              match B.Normalize(raw)
              case None => r == Err(Invalid)
              case Some(d) =>
                var upstream := Strip(UpstreamText(d, D.NamesOf(domain)[0]));
                r == if IsPlainLine(upstream) && urlOk(upstream) then Ok((B.Normalize(d), upstream)) else Err(Invalid)
  {
    D.StoredParts(domain);
    if directives.Some? && B.Normalize(directives.value).Some? {
      var d := B.Normalize(directives.value).value;
      DerivedIs(d, D.NamesOf(domain)[0], urlOk);
      UpstreamIs(UpstreamText(d, D.NamesOf(domain)[0]), urlOk);
    }
    hide B.Normalize, DerivedUpstream, Upstream, UpstreamText, IsPlainLine, Strip, D.IsStored, D.NamesOf;
  }

  lemma UpdateCases(rows: Rows, id: nat, change: Change, urlOk: string -> bool)
    requires AllStored(rows) && id in rows
    ensures var r, was, domain := Update(rows, id, change, urlOk), rows[id], ChangedDomain(rows, id, change.domain);
            var name := if change.name.Some? then SiteName(change.name.value) else Ok(was.name);
            if name.Err? then r == Err(name.error)
            else if domain.Err? then r == Err(domain.error)
            else
              && D.IsStored(domain.value)
              && var body := ChangedBody(was, domain.value, change.directives, urlOk);
                 var enabled := if change.enabled.Some? then change.enabled.value else was.enabled;
                 if body.Err? then r == Err(body.error)
                 else if !MayHave(body.value.1, enabled) then r == Err(Invalid)
                 else r == Ok(Site(name.value, domain.value, body.value.1, body.value.0, enabled))
  {
    ChangedDomainStored(rows, id, change.domain);
    hide SiteName, ChangedDomain, ChangedBody, AllStored, D.IsStored, Taken;
  }

  /** An update: each field is the requested one, made fit as above, or the old one. */
  lemma UpdateIs(rows: Rows, id: nat, change: Change, urlOk: string -> bool)
    requires AllStored(rows) && id in rows
    ensures var r, was, domain := Update(rows, id, change, urlOk), rows[id], ChangedDomain(rows, id, change.domain);
            if change.name.Some? && !IsPlainLine(Strip(change.name.value)) then r == Err(Invalid)
            else if domain.Err? then r == Err(domain.error)
            else
              && D.IsStored(domain.value)
              && var body := ChangedBody(was, domain.value, change.directives, urlOk);
                 var enabled := if change.enabled.Some? then change.enabled.value else was.enabled;
                 var name := if change.name.Some? then Strip(change.name.value) else was.name;
                 if body.Err? then r == Err(body.error)
                 else if !MayHave(body.value.1, enabled) then r == Err(Invalid)
                 else r == Ok(Site(name, domain.value, body.value.1, body.value.0, enabled))
  {
    hide *;
    UpdateCases(rows, id, change, urlOk);
    if change.name.Some? {
      NameIs(change.name.value);
    }
  }

  /** Each call on the table: one row added under a new number, one replaced, one taken out, or nothing at all. */
  lemma StepIs(t: Table, op: Op, urlOk: string -> bool)
    requires AllStored(t.rows)
    ensures var r := Step(t, op, urlOk);
            match op
            case Creating(site) =>
              var row := Create(t.rows, site, urlOk);
              if row.Ok? then r.nextId == t.nextId + 1 && r.rows == t.rows[t.nextId := row.value] else r == t
            case Updating(id, change) =>
              if id in t.rows && Update(t.rows, id, change, urlOk).Ok?
              then r.nextId == t.nextId && r.rows == t.rows[id := Update(t.rows, id, change, urlOk).value]
              else r == t
            case Deleting(id) =>
              && r.nextId == t.nextId && id !in r.rows
              && (forall other :: other in r.rows <==> other in t.rows && other != id)
              && (forall other :: other in r.rows ==> r.rows[other] == t.rows[other])
  {
    hide Create, Update, AllStored;
  }

  /** A site as it is printed. */
  lemma RowIs(site: Site)
    ensures var row := RowOf(site);
            && row.name == site.name && row.domain == site.domain && row.upstream == site.upstream
            && row.enabled == site.enabled && row.directives ==
              (match site.directives case Some(d) => d case None => "")
  {
  }
}
