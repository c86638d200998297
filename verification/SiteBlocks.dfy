/**
 Printing site blocks and the full Caddyfile (app/utils/caddyfile.py and
 app/services/caddyfile_manager.py).
 */
module SiteBlocks {
  import opened Text
  import opened Wrappers
  import D = Domains
  import P = Parser
  import B = Directives
  import S = Sorting

  // ---------------------------------------------------------------- one block

  const PLACEHOLDER := "# Add Caddy directives here"

  /** The directives a block shows: the stored ones, else a proxy line, else a placeholder. */
  function BodyText(directives: string, upstream: string): string {
    match B.Normalize(directives)
    case Some(d) => d
    case None =>
      match B.NormalizeToken(upstream)
      case Some(u) => if u == "" then PLACEHOLDER else "reverse_proxy " + u
      case None => PLACEHOLDER
  }

  function Indent(line: string): string {
    if IsBlank(line) then "" else "    " + line
  }

  function IndentEach(ls: Lines): Lines {
    if ls == [] then [] else [Indent(ls[0])] + IndentEach(ls[1..])
  }

  predicate IsLabelText(s: string) {
    OneLine(s) && '\r' !in s && NoBraces(s)
  }

  function WithScheme(names: seq<string>): seq<string> {
    if names == [] then [] else ["http://" + names[0]] + WithScheme(names[1..])
  }

  /** `build_domain_site_preview`'s label; None where the source raises. */
  function Label(name: string, ssl: bool): Option<string> {
    var n := if Strip(name) == "" then "example.com" else Strip(name);
    if !IsLabelText(n) then None
    else
      match D.SplitNames(n)
      case Err(_) => None
      case Ok(names) => Some(if ssl then D.JoinNames(names) else D.JoinNames(WithScheme(names)))
  }

  function BlockOf(siteLabel: string, inner: Lines): Lines {
    [siteLabel + " {"] + (inner + ["}"])
  }

  function Preview(name: string, upstream: string, directives: string, ssl: bool): Option<string> {
    match Label(name, ssl)
    case None => None
    case Some(siteLabel) =>
      Some(siteLabel + " {\n" + JoinLines(IndentEach(SplitLines(BodyText(directives, upstream)))) + "\n}")
  }

  function ImportLines(headers: bool, log: bool): Lines {
    (if headers then ["    import security_headers"] else [])
    + (if log then ["    import default_log"] else [])
  }

  /** `build_generated_site_block`: the preview with the import lines put under its header. */
  function Generated(name: string, upstream: string, directives: string, ssl: bool, headers: bool,
      log: bool): Option<string> {
    match Preview(name, upstream, directives, ssl)
    case None => None
    case Some(preview) =>
      if !headers && !log then Some(preview)
      else
        var i := Find(preview, '\n');
        Some(preview[..i] + "\n" + JoinLines(ImportLines(headers, log)) + "\n" + preview[i..])
  }

  // ---------------------------------------------------------------- the full Caddyfile

  datatype SiteRow = SiteRow(name: string, domain: string, directives: string, upstream: string, enabled: bool)

  /** The two text tests `build_full_caddyfile` makes, left uninterpreted. */
  datatype Rules = Rules(snippetDefined: string -> bool, needsHeaders: string -> bool)

  const STRICT_TRANSPORT := "        Strict-Transport-Security " + "\"max-age=31536000; "
      + "includeSubDomains; preload\""
  const CONTENT_TYPE := "        X-Content-Type-Options " + "\"nosniff\""
  const FRAME_OPTIONS := "        X-Frame-Options " + "\"SAMEORIGIN\""
  const REFERRER_POLICY := "        Referrer-Policy " + "\"strict-origin-when-cross-origin\""
  const NO_SERVER := "        -Server"
  const NO_POWERED_BY := "        -X-Powered-By"

  const SNIPPET_BODY: Lines := [STRICT_TRANSPORT, CONTENT_TYPE, FRAME_OPTIONS, REFERRER_POLICY, NO_SERVER,
      NO_POWERED_BY]

  /** The built-in `security_headers` snippet. */
  const SNIPPET_LINES: Lines := ["(security_headers) {", "    header {"] + SNIPPET_BODY + ["    }", "}"]

  function SnippetText(): string {
    JoinLines(SNIPPET_LINES)
  }

  predicate ByDomain(a: SiteRow, b: SiteRow) {
    S.TextLe(a.domain, b.domain)
  }

  function Enabled(rows: seq<SiteRow>): seq<SiteRow> {
    if rows == [] then []
    else (if rows[0].enabled then [rows[0]] else []) + Enabled(rows[1..])
  }

  function Listed(rows: seq<SiteRow>): seq<SiteRow> {
    S.Sort(Enabled(rows), ByDomain)
  }

  lemma {:induction false} EnabledCounts(rows: seq<SiteRow>, row: SiteRow)
    ensures multiset(Enabled(rows))[row] == if row.enabled then multiset(rows)[row] else 0
  {
    if rows != [] {
      var first, rest := rows[0], Enabled(rows[1..]);
      EnabledCounts(rows[1..], row);
      assert rows == [first] + rows[1..];
      assert multiset([first] + rest) == multiset{first} + multiset(rest);
      assert [] + rest == rest;
    }
  }

  /** The listed rows are the enabled ones, each as often as it was there, and no others. */
  lemma ListedCounts(rows: seq<SiteRow>, row: SiteRow)
    ensures multiset(Listed(rows))[row] == if row.enabled then multiset(rows)[row] else 0
  {
    EnabledCounts(rows, row);
    S.SortPermutes(Enabled(rows), ByDomain);
    hide Enabled, S.Sort;
  }

  /** They come by domain, as texts are ordered. */
  lemma ListedAscends(rows: seq<SiteRow>, i: nat, j: nat)
    requires i < j < |Listed(rows)|
    ensures S.TextLe(Listed(rows)[i].domain, Listed(rows)[j].domain)
  {
    ByDomainIsOrder();
    S.SortSorts(Enabled(rows), ByDomain);
    hide Enabled, S.Sort, S.TextLe;
    assert ByDomain(Listed(rows)[i], Listed(rows)[j]);
  }

  lemma ByDomainIsOrder()
    ensures S.IsOrder(ByDomain)
  {
    hide S.TextLe;
    forall a, b ensures ByDomain(a, b) || ByDomain(b, a) {
      S.TextLeTotal(a.domain, b.domain);
    }
    forall a, b, c | ByDomain(a, b) && ByDomain(b, c) ensures ByDomain(a, c) {
      S.TextLeTransitive(a.domain, b.domain, c.domain);
    }
  }

  function BlockText(row: SiteRow, rules: Rules): Option<string> {
    Generated(row.domain, Strip(row.upstream), row.directives, true, rules.needsHeaders(row.directives), false)
  }

  /** The blocks of all rows, or None if one of them cannot be printed. */
  function BlockTexts(rows: seq<SiteRow>, rules: Rules): Option<seq<string>> {
    if rows == [] then Some([])
    else
      match BlockText(rows[0], rules)
      case None => None
      case Some(t) =>
        match BlockTexts(rows[1..], rules)
        case None => None
        case Some(rest) => Some([t] + rest)
  }

  function HeadParts(baseline: string, rules: Rules): seq<string> {
    (if rules.snippetDefined(baseline) then [] else [SnippetText()]) + (if baseline == "" then [] else [baseline])
  }

  /** `build_full_caddyfile` after the managed options were put into the baseline. */
  function FullCaddyfile(baseline: string, rows: seq<SiteRow>, rules: Rules): Option<string> {
    match BlockTexts(Listed(rows), rules)
    case None => None
    case Some(blocks) => Some(B.JoinParagraphs(HeadParts(baseline, rules) + blocks))
  }

  // ---------------------------------------------------------------- labels of stored domains

  predicate IsListChar(c: char) {
    D.IsAlnum(c) || c == '-' || c == '.' || c == ',' || c == ' '
  }

  predicate IsListText(s: string) {
    forall k :: 0 <= k < |s| ==> IsListChar(s[k])
  }

  lemma ListTextConcat(a: string, b: string)
    requires IsListText(a) && IsListText(b)
    ensures IsListText(a + b)
  {
    hide IsListChar;
  }

  lemma {:induction false} JoinedChars(names: seq<string>)
    requires D.AllNames(names)
    ensures IsListText(D.JoinNames(names))
  {
    hide D.IsName;
    if names != [] {
      D.NameChars(names[0]);
      assert IsListText(names[0]) && IsListText(", ");
      if |names| > 1 {
        hide IsListText;
        JoinedChars(names[1..]);
        ListTextConcat(names[0], ", ");
        ListTextConcat(names[0] + ", ", D.JoinNames(names[1..]));
      }
    }
  }

  /** A stored domain is its own label. */
  lemma StoredLabel(domain: string)
    requires D.IsStored(domain)
    ensures Label(domain, true) == Some(domain) && IsLabelText(domain)
    ensures domain != "" && Strip(domain) == domain && D.IsAlnum(domain[0]) && D.IsLowerAlpha(domain[|domain| - 1])
  {
    hide D.SplitNames, D.JoinNames, Strip, D.IsName;
    var names := D.NamesOf(domain);
    D.StoredParts(domain);
    D.TokensOfJoined(names);
    JoinedChars(names);
    StripTrimmed(domain);
  }

  lemma StoredHeader(domain: string)
    requires D.IsStored(domain)
    ensures B.IsHeader(domain)
  {
    hide D.IsStored, Strip;
    StoredLabel(domain);
  }
}
