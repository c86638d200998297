# CaddyBuddy: a verified model

CaddyBuddy manages a Caddy web server. It keeps one desired configuration, stored in a database,
equal in three places: the database, the Caddyfile on disk and the configuration the running Caddy
has loaded. This project models the parts of it where something can go wrong between steps or
between texts, and proves what they keep.

The proofs use Dafny 4.11. `dafny verify dfyconfig.toml` checks the whole project.

## What is modelled

**The Caddyfile text engine.** Texts are strings, read as lines. `Text` holds the shared vocabulary
(strip, split, join, net braces). `Parser` is the block parser; `ParsedBlocks` says what it makes of
each block, `SiteLabels` which headers it takes for sites and `InlineSites` what it makes of a site
on one line. `SiteBlocks` is the printer of site blocks and of the full Caddyfile, `PrintedBlocks`
says what one block looks like, and `RoundTrip` proves that parsing undoes printing. `GlobalOptions`
is the rewriter of the managed `admin` and `email` options and `OptionsRewritten` says what it
writes; `LastWrite` and `SitesKept` prove that the last write wins and that the sites stay the same,
each with its exact condition, and `SitesLost` gives the texts on which they do not. `Directives` is
the directive splitter and the builder behind the site form: `DirectiveChunks` says where texts are
cut and how chunks are read, `FormFields` what becomes of each field, `Preparation` and
`PreparationExample` what is read back from the built text, and `Unwrapping` when the normalization
of directives leaves a text alone. `DeployedText` shows that what is written to disk parses back to
the sites of the table. `Braces` is the brace matcher of the editor together with the comment
stripper that must agree with it.

**Sites and domains.** `Domains` normalizes names and lists of names, and `DomainNames` says which
texts are names and lists of names. `Sites` is the site repository as a class over its table, with
what every sequence of calls keeps; `SiteRequests` gives each call field by field, and
`SitesExample` is a site that a rename rewrites.

**Synchronization and onboarding.** `Sync` models one deployment as an object with the committed
rows, the rows its session sees, the file and the running configuration. Every outside call has an
outcome that is an input: reading, the two ways of writing, adapting, loading, committing. The
adapter itself is an unknown function from texts to configurations. `SyncSafety` proves what every
run keeps under "reliable" failures: a failed write leaves the old text, a rollback write succeeds, a
load that fails changes nothing. `SyncFailures` drops all three and gives the outcome and the exact
condition of agreement for every combination; `LostLoadExample` is one deployment in which the
failure goes unnoticed. `SyncRows` says what a synchronization, an onboarding and a request write
into the rows. `Onboarding` is the wizard and `WizardOutcomes` says what each of its steps stores.
`Enablement` is the assisted enablement of the Admin API together with what a restarted Caddy runs,
`OnboardingSafety` what failures of the wizard leave behind and what runs of all of this together
keep, `RollbackExample` one run that ends in disagreement.

**One-time values.** `Otp` interleaves clients that read a user row, compute, and then update the row
conditionally. `Passkeys` does the same for challenges, and treats the signature counter.

**Kernels.** `Schedule` (calendar and jitter), `Events` (the event bus), `CertificateCache`
(generations), `Certificates` (choosing a certificate) and `Paths` (pruning paths). `Sorting`,
`Counting` and `Wrappers` are shared helpers.

Code that changes things step by step is modelled as methods and classes and proved against a
function of the old state; the properties are lemmas about that function. Pure code is functions.

## Findings

Some promises hold only under a condition, which the lemmas state:

- The last write wins in the global options block exactly when the second scan for the closing brace
  meets no `admin` or `email` line. A removed line with balanced braces never breaks this; a removed
  line that closes a nested block does (`SitesKept.LastWriteCanLose`).
- The sites of a Caddyfile survive the rewrite of the global options, whatever follows, exactly when
  the block without its `admin` and `email` lines leaves nothing open and holds the same sites
  (`SitesLost.SurviveWhateverFollows`). A removed line that closes a nested block makes the block
  swallow the next site (`SitesLost.SiteCanBeLost`). Of an `admin` block only the first line is
  removed: the sites are kept, but the text has a closing brace too many
  (`SitesLost.AdminBlockLeavesBrace`).
- A global block that opens on the very last line has its opening line written twice
  (`GlobalOptions.OtherLinesKept`).
- A site block that is still open at the end of a Caddyfile loses its last line when it is parsed
  (`ParsedBlocks.OpenSiteLosesLine`).
- A site address with its scheme in capital letters is recognized as a site label, but the domain
  taken from it is the scheme (`SiteLabels.CapitalSchemeIsLost`).
- The directive builder checks the custom directives and then normalizes them once more while
  building, so a form accepted without errors can build a text whose upstream cannot be read back
  (`PreparationExample.UpstreamCanBeLost`).
- The directives column normalizes on every assignment and the normalization unwraps one block per
  pass, so even an update that only renames a site changes its directives when they are one block
  under a header that is no directive, and only then (`Sites.UntouchedDirectives`,
  `SitesExample.RenameRewrites`).
- A site request is all or nothing up to its commit. If the commit fails after a new text was
  deployed, the database is old while disk and Caddy are new (`SyncSafety.FailedCommit`).
- A load that Caddy carried out although its answer was lost is rolled back in the database and on
  disk together with the noted error, so the next synchronization reports "no_change" while Caddy
  runs something else (`SyncFailures.LostLoadIsHidden`, `LostLoadExample.NoChangeCanBeFalse`).
- A TOTP counter is accepted without comparing the secret it was verified with: a client that loaded
  the row before OTP was disabled and enrolled again still gets a code of the old secret accepted
  (`Otp.OldSecretIsAccepted`, `Otp.SecretIsCurrent`).
- An onboarding that cannot save the path of its backup raises and leaves the starter config on disk,
  since only two kinds of exceptions are caught there (`OnboardingSafety.UnnotedBackup`).
- A rollback over a file that was already managed gives the old text back but not the old running
  configuration. They disagree exactly when the takeover had deployed a text with another
  configuration and then lost its last inspection or its savepoint
  (`OnboardingSafety.RollbackAgreement`, `RollbackExample.RollbackBreaksAgreement`).
- The generation check of the certificate cache speaks about when a lookup read the generation, not
  about when the fetch it joined began. A stored result is older than the last invalidation exactly
  when the lookup joined a fetch that was (`CertificateCache.StoredIsFresh`,
  `CertificateCache.JoinedFetchCanBeStale`).
- A certificate in its last second counts as expired (`Certificates.ValidWindow`).

## Model

| member | source | states |
|---|---|---|
| `Parser.ParseCaddyfile` | app/utils/caddyfile.py:675-743 | the line loop, with its inner brace-depth loop, returns the segmented parse and stops on every input |
| `Parser.TakeBlock` | app/utils/caddyfile.py:703-715 | the inner loop takes exactly the lines of one block |
| `Parser.SegmentsCoverLines` | app/utils/caddyfile.py:686-741 | conservation: the segments put back together are the input lines, none lost, repeated or reordered |
| `Parser.ParseDistributes` | app/utils/caddyfile.py:686-741 | parsing distributes over concatenation if and only if the first part leaves no block open (or the second is empty) |
| `Parser.ReparseBaseline` | app/utils/caddyfile.py:718-743 | extraction is idempotent: re-parsing the extracted baseline finds no site and returns the same baseline |
| `Parser.BaselineHasNoSites` | app/utils/caddyfile.py:718-741 | removing the site blocks leaves lines in which no site block appears |
| `ParsedBlocks.KindIs` | app/utils/caddyfile.py:631-654 | the kind of a block by the text in front of its first brace: global options if blank, a snippet if a name in parentheses, a site if a site label, else something else |
| `ParsedBlocks.BlankOpensNothing` | app/utils/caddyfile.py:690-695 | a blank line opens no block |
| `ParsedBlocks.ClosingLineHasNoBody` | app/utils/caddyfile.py:703-716 | a line that closes more braces than it opens is a block without a body |
| `ParsedBlocks.BlockWithin` | app/utils/caddyfile.py:686-741 | anywhere at the top level a closed site block adds its domains with its inner lines to the sites and nothing to the baseline; any other block stays in the baseline, and a snippet is listed too |
| `ParsedBlocks.PlainLineWithin` | app/utils/caddyfile.py:690-695 | a line outside blocks that opens none stays in the baseline |
| `ParsedBlocks.OpenSiteLosesLine` | app/utils/caddyfile.py:708-718 | a site block still open at the end of the text loses its last line: it is neither in the directives nor in the baseline |
| `ParsedBlocks.DomainsOfLabel` | app/utils/caddyfile.py:657-672 | the domains of a label are those of its addresses, in order, joined by commas |
| `InlineSites.InlineBodyIs` | app/utils/caddyfile.py:694-707 | the body of a one-line site, with any braces in it: the text behind the first opening brace without the run of closing braces at its end, trimmed |
| `InlineSites.InlineSiteParses` | app/utils/caddyfile.py:675-743 | a text that is one site on one line, its directives trimmed and closing as many braces as they open, parses to its domain with these directives and an empty baseline |
| `InlineSites.InlineSiteWithin` | app/utils/caddyfile.py:675-743 | so does such a line inside a longer text, where nothing is open: it is one site and adds nothing to the baseline |
| `SiteLabels.EntryIs` | app/utils/caddyfile.py:641-654 | an address is, in small letters, a scheme or none, a wildcard or none, a dotted name and a port or none, and nothing else is one |
| `SiteLabels.LabelIs` | app/utils/caddyfile.py:641-654 | a header is a site label if and only if every part between its commas is such an address |
| `SiteLabels.DomainOfEntry` | app/utils/caddyfile.py:657-672 | the domain of an address is its wildcard and name in small letters, without scheme and port |
| `SiteLabels.CapitalSchemeIsLost` | app/utils/caddyfile.py:641-672 | an address with a scheme in capital letters is a site label, but the domain taken from it is the scheme |
| `SiteBlocks.StoredLabel` | app/utils/caddyfile.py:467-500 | a stored domain value is printed as its own label |
| `PrintedBlocks.LabelIs` | app/utils/caddyfile.py:136-140 | a label is refused exactly for a line break or a brace in the name or for a name that is no domain list; otherwise it is the distinct names in order |
| `PrintedBlocks.PlainLabelIs` | app/utils/caddyfile.py:467-484 | without TLS every name has the plain scheme |
| `PrintedBlocks.CommasBetween` | app/utils/domains.py:74-90 | names are joined with a comma and a space between them |
| `PrintedBlocks.ShownDirectives` | app/utils/caddyfile.py:486-499 | a block shows the normalized directives, else a proxy line for the upstream, else a remark |
| `PrintedBlocks.GeneratedIs` | app/utils/caddyfile.py:467-613 | the printed block in full: label, the import lines asked for with an empty line behind them, the directives indented, the closing brace |
| `SiteBlocks.ListedCounts` | app/services/caddyfile_manager.py:578-583 | the printed rows are the enabled ones, each as often as the table has it |
| `SiteBlocks.ListedAscends` | app/services/caddyfile_manager.py:578-583 | they are printed by ascending domain |
| `Sorting.TextLeIs` | app/services/caddyfile_manager.py:578-583 | texts are ordered by their first different character, and a beginning comes before the longer text |
| `RoundTrip.StoredIsSiteLabel` | app/utils/caddyfile.py:641-672 | every label the printer writes is recognized as a site label and gives its domain value back |
| `RoundTrip.PrintedText` | app/utils/caddyfile.py:584-612 | the printed block is the label line, the optional import line, the indented directives and the closing brace |
| `RoundTrip.BlockTakesItsLines` | app/utils/caddyfile.py:686-741 | a printed block is parsed as a site of exactly its own lines, whatever follows, if and only if its directives stay inside the braces |
| `RoundTrip.FullCaddyfileRoundTrip` | app/services/caddyfile_manager.py:562-585 | parsing the full generated Caddyfile gives exactly the enabled sites in domain order, each with its label and inner lines, and the head of the file as baseline |
| `RoundTrip.BodyUpToIndentation` | app/utils/caddyfile.py:467-612 | a parsed body is the normalized directives line by line up to indentation, behind the optional import line |
| `GlobalOptions.InjectGlobalOptions` | app/utils/caddyfile.py:751-802 | both scans and the filter, as loops, compute the rewritten text |
| `GlobalOptions.FindOpen` | app/utils/caddyfile.py:772-779 | finds the first bare brace at depth zero of the floored running depth |
| `GlobalOptions.FindClose` | app/utils/caddyfile.py:787-793 | finds the line where the depth returns to zero, or the last line |
| `GlobalOptions.KeepUnmanaged` | app/utils/caddyfile.py:795-799 | drops exactly the managed lines |
| `OptionsRewritten.RemovedIs` | app/utils/caddyfile.py:748-799 | a line of the block is one to take out if and only if it is white space, `admin` or `email`, and then nothing or a character that is no letter, digit or underscore |
| `OptionsRewritten.OpensAtFirst` | app/utils/caddyfile.py:772-779 | the block opens at the first bare brace in front of which the running depth, floored at zero, is zero |
| `OptionsRewritten.ClosesAtFirst` | app/utils/caddyfile.py:787-793 | the block ends at the first line behind which its braces balance, or with the text |
| `OptionsRewritten.NetCounts` | app/utils/caddyfile.py:778-791 | the braces of a line count as its opening ones less its closing ones |
| `OptionsRewritten.RewrittenText` | app/utils/caddyfile.py:751-802 | the rewritten text in full: lines up to the brace, settings, exactly the lines of the block that are no such option, in order, and the rest |
| `OptionsRewritten.TextWithoutBlock` | app/utils/caddyfile.py:781-784 | a text without a block gets one with the settings in front; without settings it stays as it is |
| `GlobalOptions.ReplaceTwice` | app/utils/caddyfile.py:772-802 | on lines: a second rewrite gives what it would have given alone if and only if its scan for the closing brace meets no managed line |
| `GlobalOptions.NetZeroIsClean` | app/utils/caddyfile.py:787-799 | removed lines with balanced braces are enough for that, closed block or not |
| `GlobalOptions.OnlyManagedLines` | app/utils/caddyfile.py:751-802 | the settings lines are the only admin and email lines of the rewritten block, under the same condition and only then |
| `GlobalOptions.OtherLinesKept` | app/utils/caddyfile.py:795-802 | the lines up to the opening brace are the front of the result, those from the closing brace its end, and all lines that are not managed are kept in order, the last if and only if the block does not open on the last line |
| `LastWrite.LastWriteWins` | app/utils/caddyfile.py:751-802 | last write wins on whole texts: two rewrites equal the second alone if and only if the second scan is clean |
| `LastWrite.LastWriteWinsForNetZero` | app/utils/caddyfile.py:751-802 | last write wins whenever the removed lines have balanced braces |
| `LastWrite.InjectStripped` | app/utils/caddyfile.py:772-802 | surrounding white space does not change the result while the global block is closed or absent |
| `LastWrite.TwiceWithoutBlock` | app/utils/caddyfile.py:781-784 | a text without a global block gets one, and a second rewrite replaces it as a whole |
| `LastWrite.StrippedIs` | app/utils/caddyfile.py:768-802 | stripping a text trims its lines |
| `Text.SpaceIs` | app/utils/caddyfile.py:61-65 | white space is blank, tab, line feed, carriage return, vertical tab and form feed |
| `SitesKept.ParseKeepsSites` | app/utils/caddyfile.py:675-802 | the sites parsed from the rewritten text are those parsed from the text if and only if the removed lines add and take none inside the global block; a block is left open at the end exactly if one was |
| `SitesKept.SitesKeptExactly` | app/utils/caddyfile.py:772-802 | on lines: where the text before the block and the block before and after leave nothing open, the sites of the text stay the same if and only if those of the block alone do |
| `SitesKept.QuietIsSafe` | app/utils/caddyfile.py:772-802 | comments that open no brace, a block that parser and rewriter close alike and balanced removed lines are enough for that |
| `SitesKept.BracesOfRewritten` | app/utils/caddyfile.py:787-802 | rewriting takes the braces of the removed lines out of the balance of the text, and no others |
| `SitesLost.SurviveWhateverFollows` | app/utils/caddyfile.py:675-802 | the sites survive the rewrite whatever follows the global block if and only if the block without its managed lines leaves nothing open and holds the same sites |
| `SitesLost.SiteCanBeLost` | app/utils/caddyfile.py:675-802 | a stripped text with a closed block and one site behind it that every rewrite swallows |
| `SitesLost.AdminBlockLeavesBrace` | app/utils/caddyfile.py:795-799 | a text with an `admin` block: its site is kept, but a closing brace is left over at the top level |
| `SitesKept.OpensBetweenSegments` | app/utils/caddyfile.py:772-779 | while top-level comments open no brace, the brace the rewriter finds stands between two blocks of the parser |
| `SitesKept.LastWriteCanLose` | app/utils/caddyfile.py:751-802 | a stripped text with a closed block whose removed line closes a nested block, on which the last write loses |
| `Directives.SplitTopLevelDirectives` | app/utils/caddyfile.py:225-254 | the splitting loop, with its error for an unmatched closing brace |
| `Directives.SplitParagraphs` | app/utils/caddyfile.py:225-254 | paragraphs that are chunks are split into exactly those chunks |
| `DirectiveChunks.SplitsIff` | app/utils/caddyfile.py:225-254 | splitting fails if and only if some line closes more braces than are open |
| `DirectiveChunks.PieceIsCut` | app/utils/caddyfile.py:225-254 | a chunk ends at the first line at depth zero that does not end in an opening brace, whatever follows |
| `DirectiveChunks.OpenPieceIsKept` | app/utils/caddyfile.py:225-254 | a chunk still open at the end is kept |
| `DirectiveChunks.BlankLineCuts` | app/utils/caddyfile.py:225-254 | at depth zero a blank line ends a chunk |
| `DirectiveChunks.BlankLineSkipped` | app/utils/caddyfile.py:225-254 | between chunks blank lines are skipped |
| `DirectiveChunks.BlockChunk` | app/utils/caddyfile.py:279-296 | header and body of a chunk of several lines whose last line closes its first, with or without a comment behind the brace |
| `DirectiveChunks.PlainChunk` | app/utils/caddyfile.py:279-296 | any other chunk of several lines has its first line as header and the rest as body |
| `DirectiveChunks.InlineIs` | app/utils/caddyfile.py:279-296 | header and body of a block on one line, unless text that is no comment follows its last brace |
| `DirectiveChunks.InlineClosedBefore` | app/utils/caddyfile.py:279-296 | a line whose closing braces all stand before the opening one is a block with an empty body |
| `DirectiveChunks.InlinePlain` | app/utils/caddyfile.py:279-296 | a line without both braces has no body |
| `DirectiveChunks.OneLineChunk` | app/utils/caddyfile.py:279-296 | a chunk of one line is read as that line, trimmed |
| `DirectiveChunks.EmptyChunk` | app/utils/caddyfile.py:279-296 | a blank chunk has neither header nor body |
| `DirectiveChunks.BodyLinesAre` | app/utils/caddyfile.py:143-144 | a block body is its lines from the first to the last that is not blank, right-trimmed, the first without indentation |
| `DirectiveChunks.NoBodyLines` | app/utils/caddyfile.py:143-144 | a blank body is empty |
| `DirectiveChunks.NormalizeOne` | app/utils/caddyfile.py:88-114 | a single block is unwrapped unless its header begins with a known directive, commas behind it ignored |
| `DirectiveChunks.NormalizePlain` | app/utils/caddyfile.py:88-94 | a text without an opening brace is only trimmed, and a blank one is none |
| `DirectiveChunks.NormalizeSeveral` | app/utils/caddyfile.py:97-102 | so is a text of several chunks or with an unmatched closing brace |
| `DirectiveChunks.WordsOfJoined` | app/utils/caddyfile.py:147-151 | words joined by spaces are split into the same words |
| `DirectiveChunks.FirstProxyAt` | app/utils/caddyfile.py:428-445 | the upstream is the only argument of the first `reverse_proxy` chunk; with several arguments there is none |
| `FormFields.TokenIs` | app/utils/caddyfile.py:122-133 | a field is a token if and only if, trimmed, it has no white space, brace or comment sign in it |
| `FormFields.FormText` | app/utils/caddyfile.py:299-425 | the built text, errors or not: one block for each field that is not blank, in the fixed order, a blank line between them |
| `FormFields.BlankLinesBetween` | app/utils/caddyfile.py:349-351 | the blocks are joined with one blank line between them |
| `FormFields.FormReadBack` | app/utils/caddyfile.py:279-425 | an accepted form is read back: the chunks of the built text have the headers and bodies of the fields, in order, and then come the custom chunks |
| `FormFields.UpstreamFromText` | app/utils/caddyfile.py:414-425 | without a token the upstream reported is the one the built text names |
| `FormFields.ErrorsAre` | app/utils/caddyfile.py:191-276 | each error is reported if and only if its field has that fault |
| `FormFields.ErrorsAscend` | app/utils/caddyfile.py:354-413 | errors come in the order of the fields, each once, only a denied import repeatedly |
| `Preparation.AcceptedIsBuildable` | app/utils/caddyfile.py:354-425 | fields accepted without errors build from blocks that stay together |
| `Preparation.BuiltSplitsIntoBlocks` | app/utils/caddyfile.py:225-425 | splitting the built directives gives one chunk per managed block in order, then the custom chunks |
| `Preparation.UpstreamReadBack` | app/utils/caddyfile.py:354-445 | the given upstream is read back from the built text if and only if the built custom part has no unmatched closing brace |
| `Preparation.UpstreamReadBackPlain` | app/utils/caddyfile.py:354-445 | it is read back whenever normalization leaves the custom part alone |
| `PreparationExample.UpstreamCanBeLost` | app/utils/caddyfile.py:88-114 | a form accepted without errors whose upstream is lost, because the custom part is unwrapped after it was checked |
| `Preparation.HeaderOfBlock` | app/utils/caddyfile.py:279-296 | header and body of a printed block are read back |
| `Preparation.StoredAsBuilt` | app/utils/caddyfile.py:88-114 | what the builder produced from at least one managed block is stored unchanged |
| `Preparation.NormalizeUnwraps` | app/utils/caddyfile.py:88-114 | a single block under a header that is no directive is unwrapped to its body |
| `Preparation.NormalizeTwice` | app/utils/caddyfile.py:88-114 | unwrapping is not idempotent: a block inside a block loses one wrapper on every pass |
| `Braces.ScanBraces` | app/static/js/caddy-editor-braces.js:6-66 | the two scanning loops report the matcher's result on the live braces of the document |
| `Braces.MatchFindsLonely` | app/static/js/caddy-editor-braces.js:33-63 | the matcher reports exactly the braces without a partner, each once and in order |
| `Braces.NothingReportedIffBalanced` | app/static/js/caddy-editor-braces.js:6-66 | nothing is reported if and only if the live braces are balanced |
| `Braces.PartnerIsUnique` | app/static/js/caddy-editor-braces.js:33-47 | a brace has at most one partner |
| `Braces.CharacterAt` | app/static/js/caddy-editor-braces.js:9-50 | offset plus column names the character of the line in the document |
| `Braces.StripComment` | app/utils/caddyfile.py:159-179 | keeps the line up to its first comment sign outside quotes, without trailing white space |
| `Braces.StripperKeepsBraces` | app/utils/caddyfile.py:159-179 | what the stripper keeps has the same live braces at the same places as the whole line, and no comment |
| `Domains.SplitDomainNames` | app/utils/domains.py:44-71 | the loop returns distinct normalized names in order of first appearance, or the first error |
| `Domains.NormalizeListIdempotent` | app/utils/domains.py:74-90 | normalizing a list is idempotent and keeps the names |
| `Domains.SplitJoinNames` | app/utils/domains.py:44-90 | splitting a joined list of names gives the names back |
| `Domains.NormalizeNameFixed` | app/utils/domains.py:19-41 | a stored name normalizes to itself |
| `DomainNames.NameIs` | app/utils/domains.py:10-41 | a name is stored if and only if it has at least two labels of letters, digits and inner dashes, of at most 63 characters, the last of two or more letters, and 253 characters in all |
| `DomainNames.TldIs` | app/utils/domains.py:10-13 | the last part of a name is two to 63 small letters |
| `DomainNames.OneWord` | app/utils/domains.py:15-16 | a text without white space and commas is one word of a list |
| `DomainNames.WordsApart` | app/utils/domains.py:15-16 | white space and commas separate the words of a list, and only they |
| `DomainNames.TypedName` | app/utils/domains.py:19-41 | white space around a typed name, capital letters and dots at its end make no difference; otherwise which refusal is given |
| `DomainNames.ListIs` | app/utils/domains.py:44-71 | a list in full: the names of its words in order of first appearance, or the refusal of the first word that is no name |
| `Sites.SiteTable.DomainExists` | app/repositories/sites.py:150-174 | the row loop answers whether another site owns one of the names |
| `Sites.SiteTable.CreateSite` | app/repositories/sites.py:176-214 | adds the row or leaves the table alone, and keeps the names of all sites disjoint |
| `Sites.SiteTable.UpdateSite` | app/repositories/sites.py:216-264 | replaces the row or leaves the table alone, and keeps the names of all sites disjoint |
| `Sites.SiteTable.DeleteSite` | app/repositories/sites.py:266-268 | removes exactly the row |
| `Sites.StepKeepsGood` | app/repositories/sites.py:150-268 | every repository call keeps the names of all sites pairwise disjoint |
| `Sites.RunKeepsDisjoint` | app/repositories/sites.py:150-268 | after any sequence of creates, updates, deletes and imports no host name belongs to two sites |
| `Sites.RunLast` | app/repositories/sites.py:150-268 | a run takes its calls one after the other, each on the table the ones before it left |
| `SiteRequests.CreateIs` | app/repositories/sites.py:176-214 | a creation is refused for the first fault in the order of the checks; otherwise the stored row, field by field |
| `SiteRequests.UpdateIs` | app/repositories/sites.py:216-264 | an update: each field is the requested one, normalized, or the old one, or the first fault |
| `SiteRequests.TakenIs` | app/repositories/sites.py:150-174 | a domain is taken if and only if another site has one of its names |
| `SiteRequests.DerivedIs` | app/repositories/sites.py:77-89 | the upstream kept beside the directives is the one they name, with a scheme put before it if it has none, or the site's own address |
| `SiteRequests.SchemeIs` | app/repositories/sites.py:77-89 | an upstream counts as having a scheme if and only if `://` stands anywhere in it |
| `SiteRequests.ChangedDomainIs` | app/repositories/sites.py:234-245 | the domain after an update: the old one, the requested one normalized, or the refusal of a name or of a taken domain |
| `SiteRequests.ChangedBodyIs` | app/repositories/sites.py:246-254 | directives and upstream after an update: both old, or both from the requested directives, which must not be blank |
| `SiteRequests.RowIs` | app/services/caddyfile_manager.py:578-583 | which fields of a site the printer gets |
| `SiteRequests.StepIs` | app/repositories/sites.py:150-268 | each call adds one row under a new number, replaces one, takes one out or does nothing |
| `Sites.NoHostInTwoBlocks` | app/services/caddyfile_manager.py:578-583 | in such a table no host name appears in the labels of two generated blocks |
| `Sites.RunKeepsTrimmed` | app/models/entities.py:429-434 | after any sequence of calls the stored directives are trimmed and not empty |
| `Unwrapping.NormalizeKeeps` | app/utils/caddyfile.py:88-114 | a trimmed text is a fixed point of the normalization if and only if it is not a single block under a header that is no directive |
| `Unwrapping.HeaderShortens` | app/utils/caddyfile.py:279-296 | the body read from a chunk is always shorter than the chunk |
| `Sites.UntouchedDirectives` | app/models/entities.py:429-434 | an update that does not mention the directives changes them if and only if they are one block under a header that is no directive |
| `Sites.RenameUnwraps` | app/repositories/sites.py:176-264 | a site created from a block in a block in a block is stored with one wrapper, and a mere rename takes that one away |
| `SitesExample.RenameRewrites` | app/repositories/sites.py:176-264 | such a site in full: created in an empty table, renamed, and its directives changed |
| `DeployedText.InjectKeepsClean` | app/utils/caddyfile.py:751-802 | writing the managed options into a clean baseline gives a clean baseline, under the conditions under which its sites are kept |
| `DeployedText.ExtractedIsClean` | app/utils/caddyfile.py:675-743 | the baseline taken out of a file is clean unless the file ends inside a block |
| `DeployedText.DeployedRoundTrip` | app/services/caddyfile_manager.py:467-585 | what a synchronization writes, marker and managed options included, parses back to exactly the enabled sites of the table in domain order, for a clean baseline and directives that stay inside their braces |
| `DeployedText.DeployedSites` | app/services/caddyfile_manager.py:562-585 | over the table itself, under the same conditions: every enabled site has its entry in the deployed file, every entry is one of theirs, and the domains strictly ascend |
| `DeployedText.RenderCases` | app/services/caddyfile_manager.py:436-480 | which text is deployed: the stored baseline if there is one, else the snapshot's, else that of an unmanaged readable file, else none |
| `DeployedText.StoredBaselineIsDeployed` | app/services/caddyfile_manager.py:436-585 | with a stored baseline that the rewrite keeps clean the rendered file parses back to it with the settings written into it, whatever snapshot and file hold |
| `Sync.HasManagedMarker` | app/services/caddyfile_manager.py:134-140 | the loop decides by the first line that is not blank |
| `Sync.MarkerIsSeen` | app/services/caddyfile_manager.py:130-140 | whatever is rendered behind it, the marker text marks a file |
| `Sync.Deployment.WriteInPlace` | app/services/caddyfile_manager.py:385-408 | the new text, or the old one put back, or what a failed rewrite left |
| `Sync.Deployment.WriteCaddyfile` | app/services/caddyfile_manager.py:411-433 | the two write strategies and when the second is tried |
| `Sync.Deployment.Sync` | app/services/caddyfile_manager.py:602-773 | one synchronization, step by step, over session rows, file and running configuration |
| `Sync.Deployment.ImportSites` | app/services/caddyfile_manager.py:829-848 | the import loop creates each parsed site, skipping those whose creation raises |
| `Sync.Deployment.Onboard` | app/services/caddyfile_manager.py:785-923 | one onboarding: checks, import, baseline, forced synchronization, verification |
| `Sync.Deployment.SyncFollowup` | app/routers/caddy_api.py:52-69 | commit on success, rollback on any failure, including a failing commit |
| `Sync.Deployment.MutateSite` | app/routers/caddy_api.py:166-278 | the transaction shape of site create, update and delete |
| `SyncSafety.SyncOutcome` | app/services/caddyfile_manager.py:602-773 | for every answer, what file and running configuration are: "synced" has deployed the rendered text, any other answer has touched neither |
| `SyncRows.AnswerIs` | app/services/caddyfile_manager.py:602-773 | each answer of a synchronization is given exactly under its condition |
| `SyncRows.RowsAre` | app/services/caddyfile_manager.py:602-773 | what is written into the rows for each answer: hashes, event, error and version, and otherwise at most the baseline after a format warning |
| `SyncRows.BaselineIsReformatted` | app/services/caddyfile_manager.py:588-599 | after a success the stored baseline is the formatted one exactly if Caddy warned and the formatted one is there and differs |
| `SyncRows.ImportOneIs` | app/services/caddyfile_manager.py:829-848 | a parsed site is imported enabled, named after its first host, if and only if the repository takes it |
| `SyncRows.ImportIs` | app/services/caddyfile_manager.py:829-848 | an import keeps all sites and adds the imported ones, each under the next number |
| `SyncRows.AdoptedBaseline` | app/services/caddyfile_manager.py:822-868 | the baseline an onboarding stores: the file without its sites, or the default one for a file that holds nothing |
| `SyncRows.OnboardRecords` | app/services/caddyfile_manager.py:785-923 | each outcome of an onboarding and what it records |
| `SyncRows.RequestIs` | app/routers/caddy_api.py:166-278 | a site request raises if and only if the repository refuses it or does not know the site |
| `SyncRows.ActionIs` | app/routers/caddy_api.py:52-69 | what an action leaves: file and running Caddy as its calls left them, and the rows of its session if and only if it succeeded and the commit did |
| `SyncSafety.SyncKeepsCoherent` | app/services/caddyfile_manager.py:602-773 | a marked file holds the marker and a text whose configuration is running |
| `SyncSafety.NoChangeIsRunning` | app/services/caddyfile_manager.py:628-646 | a "no_change" answer means Caddy already runs the rendered configuration |
| `SyncSafety.SecondSyncIsNoChange` | app/services/caddyfile_manager.py:602-773 | after a success without format warning an unforced synchronization answers "no_change" and leaves file, runtime, sites and baseline alone |
| `SyncSafety.OnboardOutcome` | app/services/caddyfile_manager.py:785-923 | a successful onboarding ends with a marked file, and the agreement of file and runtime and the disjointness of sites are kept |
| `SyncSafety.OnboardedIsSettled` | app/services/caddyfile_manager.py:785-923 | after an onboarding the next unforced synchronization has nothing to do |
| `SyncSafety.SiteRequestIsAllOrNothing` | app/routers/caddy_api.py:166-278 | a site request leaves database, disk and running Caddy all new on success and all old on failure |
| `SyncSafety.FailedCommit` | app/routers/caddy_api.py:64-68 | with a failing commit the rows are the old ones, and the rest differs exactly when a new text was deployed |
| `SyncSafety.RefusedRestore` | app/services/caddyfile_manager.py:729-744 | when the restore write fails after a rejected load, the new text or a leftover is on disk, and the new text agrees with the runtime if and only if it adapts to what already runs |
| `SyncFailures.AnyWeather` | app/services/caddyfile_manager.py:360-433 | file and runtime after a synchronization, whatever write, load or restore fails and however |
| `SyncFailures.AgreementInAnyWeather` | app/services/caddyfile_manager.py:602-773 | in every weather the agreement of file and runtime is kept if and only if the leftover of a failed write agrees, the restore after a rejected load worked or was needless, and after a lost load the other way round |
| `SyncFailures.SyncedAgrees` | app/services/caddyfile_manager.py:602-773 | whatever was out of step before, a synchronization that answers "synced" brings file and runtime together |
| `SyncFailures.LostLoadIsHidden` | app/routers/caddy_api.py:52-69 | a site request whose load took effect without an answer is rolled back with its noted error; the next unforced synchronization answers "no_change", which is true if and only if nothing changed in the configuration |
| `LostLoadExample.NoChangeCanBeFalse` | app/routers/caddy_api.py:52-69 | one such deployment in full: a deleted site, a lost answer, and a "no_change" that is false |
| `SyncSafety.RunKeepsSafe` | app/services/caddyfile_manager.py:602-923 | over every run of synchronizations, onboardings, site requests and edits: file and runtime agree and no host belongs to two sites |
| `SyncSafety.RunLast` | app/services/caddyfile_manager.py:602-923 | a run takes its actions one after the other, each in the state the ones before it left |
| `SyncSafety.NoChangeAfterAnyRun` | app/services/caddyfile_manager.py:628-646 | in every reachable deployment "no_change" tells the truth |
| `Onboarding.OnboardingWizard.RunPreflight` | app/services/caddy_onboarding.py:764-937 | the issues found in order, and the fields the wizard stores |
| `Onboarding.OnboardingWizard.ExecuteOnboarding` | app/services/caddy_onboarding.py:1067-1176 | one execution: preflight, preparation, savepoint, completion or rollback |
| `Onboarding.OnboardingWizard.EnableAdminApi` | app/services/caddy_onboarding.py:947-1064 | the assisted enablement with its rollback: file, wizard and what the restarted Caddy runs |
| `Onboarding.OnboardingWizard.PrepareDefault` | app/services/caddy_onboarding.py:656-702 | backup and replacement of the Caddyfile by the starter config |
| `Onboarding.OnboardingWizard.TakeOverCaddy` | app/services/caddy_onboarding.py:1135-1153 | settings and takeover in one savepoint |
| `Onboarding.OnboardingWizard.Poll` | app/services/caddy_onboarding.py:1016-1024 | the polling loop answers whether one of its attempts reaches the API |
| `WizardOutcomes.IssuesAre` | app/services/caddy_onboarding.py:764-937 | each issue is found if and only if its fact holds |
| `WizardOutcomes.IssuesAscend` | app/services/caddy_onboarding.py:764-937 | issues are listed in the order of the checks, each once |
| `WizardOutcomes.PreflightStores` | app/services/caddy_onboarding.py:764-937 | what a preflight stores; it goes on if and only if it found nothing |
| `WizardOutcomes.StartsEmpty` | app/services/caddy_onboarding.py:354-420 | what a wizard holds before it has begun |
| `WizardOutcomes.ExecutionStarts` | app/services/caddy_onboarding.py:1067-1112 | when an execution raises or fails before it touches anything |
| `WizardOutcomes.DefaultExecution` | app/services/caddy_onboarding.py:1113-1176 | an execution that deploys the default config: wizard, rows and file for each way it ends |
| `WizardOutcomes.EnableStores` | app/services/caddy_onboarding.py:947-1064 | what the wizard stores after an assisted enablement |
| `WizardOutcomes.EnableRuns` | app/services/caddy_onboarding.py:947-1064 | what Caddy runs afterwards: the configuration of the text it was last restarted from, or what a failed restart left |
| `WizardOutcomes.StepIs` | app/services/caddy_onboarding.py:354-420 | what each step of the wizard leaves; a completed wizard is neither started anew nor moved |
| `WizardOutcomes.AnswersIs` | app/services/caddy_onboarding.py:1016-1024 | the API is asked ten times at most |
| `OnboardingSafety.FailedExecutionKeepsFile` | app/services/caddy_onboarding.py:1067-1176 | in the default-config modes an execution that ends failed leaves the Caddyfile text as it was, absent if it was absent |
| `OnboardingSafety.UnnotedBackup` | app/services/caddy_onboarding.py:1113-1133 | if the backup path cannot be saved, the execution raises, the wizard keeps its old state and the starter config stays on disk |
| `OnboardingSafety.NotOnboardedKeepsFile` | app/services/caddyfile_manager.py:785-923 | an onboarding that fails leaves file and runtime alone when the file can be read back |
| `OnboardingSafety.CompletedIsMarked` | app/services/caddy_onboarding.py:1067-1160 | "completed" in any mode but "missing" is reached only with a marked Caddyfile |
| `OnboardingSafety.ExecuteKeepsCoherent` | app/services/caddy_onboarding.py:1067-1176 | an execution keeps file and running configuration in agreement, unless it gives back a marked file after a lost inspection or savepoint |
| `OnboardingSafety.RollbackAgreement` | app/services/caddy_onboarding.py:1113-1176 | after a rollback over a marked file the two agree if and only if the failed takeover deployed nothing or deployed what ran before; a takeover that deployed failed behind the load |
| `OnboardingSafety.RollbackDisagrees` | app/services/caddy_onboarding.py:1135-1176 | the failing runs: deployed, then the savepoint lost, and the old file is no longer what runs |
| `RollbackExample.RollbackBreaksAgreement` | app/services/caddy_onboarding.py:1067-1176 | one such run in full, from a deployment in agreement to one that is not |
| `OnboardingSafety.FailedEnablementKeepsFile` | app/services/caddy_onboarding.py:1006-1064 | the Caddyfile is afterwards the one before if and only if the rewrite failed or changed nothing, or a later step failed and the backup was restored |
| `OnboardingSafety.EnablementStays` | app/services/caddy_onboarding.py:1016-1031 | once the API answers the rewritten file stays, even if the second preflight finds an issue |
| `Enablement.EnableAgreement` | app/services/caddy_onboarding.py:947-1064 | after an assisted enablement file and runtime agree if and only if nothing happened and they did before, or it succeeded, or Caddy was restarted from the text now on disk, or a failed restart left that running or the text is not marked |
| `Enablement.RewriteKeepsMark` | app/services/caddy_onboarding.py:558-602 | rewriting the Caddyfile keeps a marked text beginning with the marker text |
| `OnboardingSafety.PreflightReopens` | app/services/caddy_onboarding.py:764-937 | a preflight reopens a completed wizard |
| `OnboardingSafety.RunKeepsKept` | app/services/caddy_onboarding.py:354-1176 | in every run of wizard steps, synchronizations, onboardings, site requests and edits a completed wizard stands for a marked Caddyfile or the "missing" mode; with reliable failures, no rollback and no enablement that parts them, file and runtime also agree throughout and hosts stay disjoint |
| `Otp.SerializeRecoveryCodes` | app/utils/otp.py:75-83 | the loop hashes every normalized code in order, or rejects the list |
| `Otp.ConsumeRecoveryCode` | app/utils/otp.py:86-105 | the loop removes the first matching hash and nothing else |
| `Otp.IssuedIsFound` | app/utils/otp.py:75-105 | every issued code is found in the serialized list |
| `Otp.Client.StartEnrollment` | app/repositories/users.py:156-176 | replaces the secret only while OTP is disabled |
| `Otp.Client.BeginEnrollment` | app/services/auth.py:217-224 | starts an enrollment from what the client has loaded |
| `Otp.Client.ConfirmEnrollment` | app/services/auth.py:236-261 | enables OTP only for the secret that is still pending |
| `Otp.Client.ConsumeCounter` | app/repositories/users.py:207-225 | records a counter only if it is newer |
| `Otp.Client.ReplaceCodes` | app/repositories/users.py:227-248 | replaces the code list only if it is still the one that was read |
| `Otp.Client.VerifyFactor` | app/services/auth.py:263-288 | verifies against the loaded row and consumes against the shared one |
| `Otp.Client.DisableOtp` | app/repositories/users.py:250-267 | removes secret, codes and counter |
| `Otp.RunKeepsSound` | app/repositories/users.py:156-267 | under any interleaving accepted plus stored codes are exactly the issued ones and accepted counters strictly increase from the enrollment counter |
| `Otp.AcceptedAtMostOnce` | app/repositories/users.py:227-248 | each of distinct issued codes is accepted at most once per enrollment |
| `Otp.RecoveryAccepted` | app/services/auth.py:270-288 | a code is accepted if and only if it is among the loaded codes and the stored list is unchanged since |
| `Otp.FreshReadAccepts` | app/services/auth.py:263-288 | right after a read any stored code can be spent, and only that one leaves the list |
| `Otp.CounterNotReplayed` | app/repositories/users.py:207-225 | a TOTP counter once accepted is never accepted again within its enrollment, as section 5.2 of RFC 6238 asks |
| `Otp.TotpAccepted` | app/services/auth.py:263-276 | a counter is accepted if and only if the loaded and the stored row are enabled and the stored counter is older; the secrets are not compared |
| `Otp.BeginAccepted` | app/services/auth.py:217-224 | an enrollment begins if and only if neither the loaded nor the stored row is enabled; it replaces the secret and forgets codes and counter |
| `Otp.ConfirmAccepted` | app/repositories/users.py:178-205 | it is confirmed if and only if a counter was verified, neither row is enabled, and the loaded secret is there and still the stored one |
| `Otp.EnabledByConfirmation` | app/repositories/users.py:156-205 | in every interleaving the secret of an enabled row is the one that the client whose confirmation enabled it had loaded and verified |
| `Otp.NoSecretNoTotp` | app/services/auth.py:263-288 | without a loaded secret nothing is accepted as a counter |
| `Otp.CodeIs` | app/utils/otp.py:68-83 | a recovery code is sixteen hexadecimal digits in small letters |
| `Otp.SpellingIsIgnored` | app/utils/otp.py:75-105 | white space around a typed code and capital letters make no difference |
| `Otp.SecretIsCurrent` | app/repositories/users.py:156-225 | in every interleaving a client that loaded the current enrollment verifies with the stored secret if and only if nobody has disabled OTP since |
| `Otp.OldSecretIsAccepted` | app/repositories/users.py:207-225 | the interleaving in which a counter of the old secret is accepted after a new enrollment |
| `Passkeys.ChallengeTable.StoreChallenge` | app/repositories/passkeys.py:148-172 | stores a new challenge value or refuses |
| `Passkeys.ChallengeTable.ConsumeChallenge` | app/repositories/passkeys.py:174-205 | deletes and answers a live challenge of the ceremony, or answers unknown |
| `Passkeys.ChallengeTable.PurgeExpired` | app/repositories/passkeys.py:207-211 | deletes exactly the expired rows |
| `Passkeys.RunKeepsSound` | app/repositories/passkeys.py:148-211 | each issuance is consumed at most once, only in its ceremony, before expiry, for its user |
| `Passkeys.StoreIs` | app/repositories/passkeys.py:148-172 | a challenge is refused exactly for a registration without a user, a malformed text or a value still in the table |
| `Passkeys.ConsumeIs` | app/repositories/passkeys.py:174-205 | a challenge is accepted if and only if it is stored for that ceremony and not expired, and answers its user |
| `Passkeys.UsesAre` | app/repositories/passkeys.py:174-205 | every accepted consumption is recorded with the issuance it used, and nothing else is |
| `Passkeys.AnswersLast` | app/repositories/passkeys.py:148-211 | each consumption of a run answers from the table the operations before it left |
| `Passkeys.RunLast` | app/repositories/passkeys.py:148-211 | so does every operation of a run |
| `Passkeys.SecondConsumeFails` | app/repositories/passkeys.py:174-205 | a consumed challenge is unknown after any further operations that do not issue its value again |
| `Passkeys.PurgingIsInvisible` | app/repositories/passkeys.py:174-211 | purging never changes the answer of a later consumption when time does not go back and no leftover value is reissued |
| `Passkeys.ReuseShowsThePurge` | app/repositories/passkeys.py:148-211 | a reissued value shows the purge if and only if an expired row of that value was there |
| `Passkeys.Passkey.RecordAuthentication` | app/repositories/passkeys.py:115-146 | stores an advancing counter, leaves a regressing one |
| `Passkeys.CountsNeverGoBack` | app/repositories/passkeys.py:115-146 | accepted counts never decrease and strictly grow once positive, as section 6.1.1 of Web Authentication Level 2 asks |
| `Passkeys.RecordIs` | app/repositories/passkeys.py:115-146 | a count is accepted if and only if it is larger than the stored one or both are zero |
| `Schedule.NextScheduleTime` | app/utils/ssllabs.py:138-168 | the loop stops and returns the first occurrence strictly after the minimum |
| `Schedule.NextIsUnique` | app/utils/ssllabs.py:138-168 | there is only one such time |
| `Schedule.NextIsLeast` | app/utils/ssllabs.py:138-168 | it is the least occurrence later than the minimum, jitter included; without a minimum the first occurrence |
| `Schedule.JitterIs` | app/utils/ssllabs.py:116-157 | the jitter is the key's digest modulo one day and a second for weekly scans, two days and a second for monthly ones |
| `Schedule.StepLength` | app/utils/ssllabs.py:123-135 | weekly steps are 7 days, monthly ones 28 to 31 days, at the same time of day |
| `Schedule.MonthlyDay` | app/utils/ssllabs.py:123-135 | after k monthly steps the day is the start day or the length of the shortest month passed |
| `Schedule.MonthIsUnique` | app/utils/ssllabs.py:123-135 | the calendar gives each day one month |
| `Schedule.Target.MarkScanState` | app/services/ssllabs.py:645-703 | after a completed scan a scheduled target is never still due |
| `Schedule.RescheduleStaysOnGrid` | app/services/ssllabs.py:688-703 | rescheduling gives a later time on the same grid, with the jitter added once |
| `Schedule.RunStaysOnGrid` | app/services/ssllabs.py:688-703 | over any run of completed scans jitter never accumulates |
| `Events.EventBus.Subscribe` | app/services/events.py:222-235 | hands out a pending stream, or refuses at the limit |
| `Events.EventBus.BeginNext` | app/services/events.py:124-131 | the first half of a read: stops a closed stream, activates a new one |
| `Events.EventBus.CompleteNext` | app/services/events.py:133-139 | the second half of a read delivers the next event in the order of publication |
| `Events.EventBus.CancelNext` | app/services/events.py:133-136 | a cancelled read loses nothing |
| `Events.EventBus.Close` | app/services/events.py:157-158 | a reader that leaves gives its slot back |
| `Events.EventBus.Release` | app/services/events.py:141-155 | frees the slot once |
| `Events.EventBus.CloseFromBus` | app/services/events.py:160-162 | closes an active stream and wakes its reader |
| `Events.EventBus.Publish` | app/services/events.py:237-249 | every active stream gets the event or is closed because its queue is full |
| `Events.EventBus.Shutdown` | app/services/events.py:216-220 | closes every open stream |
| `Events.EventBus.Guarantees` | app/services/events.py:114-254 | a reader got a gap-free prefix of the events since its activation; queues and slots stay bounded; closed streams hold no slot |
| `Events.SoundTake` | app/services/events.py:124-139 | taking an item keeps received plus queued events equal to what was published |
| `Events.SoundDeliver` | app/services/events.py:164-165 | delivering an event keeps an active stream complete |
| `CertificateCache.Dictionaries.Invalidate` | app/services/dashboard.py:54-61 | raises the generation of the name and drops its entry, as one step of the interleaving |
| `CertificateCache.Dictionaries.Lookup` | app/services/dashboard.py:405-412 | answers exactly the entries that are not too old |
| `CertificateCache.Dictionaries.ReadGenerations` | app/services/dashboard.py:420-421 | is one step of the interleaving: the lookup is recorded with the generations it read |
| `CertificateCache.Dictionaries.JoinFetch` | app/services/dashboard.py:364-369 | joins the running fetch of the name or starts one, as one step of the interleaving |
| `CertificateCache.Dictionaries.FinishFetch` | app/services/dashboard.py:371-376 | takes the fetch out unless another has its place |
| `CertificateCache.Dictionaries.StoreResults` | app/services/dashboard.py:427-443 | stores exactly the results whose generation is still the one that was read and prunes, as one step of the interleaving |
| `CertificateCache.Dictionaries.Prune` | app/services/dashboard.py:64-70 | keeps at most the limit and evicts only entries no newer than every kept one |
| `CertificateCache.RunKeepsCurrent` | app/services/dashboard.py:54-70 | under any interleaving a cached entry was stored by a lookup that read the generation after the last invalidation, and the cache stays within its limit |
| `CertificateCache.StoredAre` | app/services/dashboard.py:427-443 | a result replaces the entry of its name if and only if the generation read is still that of the name |
| `CertificateCache.FetchesAre` | app/services/dashboard.py:364-376 | a fetch of a name runs from the first join after the last one ended |
| `CertificateCache.GenerationsAre` | app/services/dashboard.py:54-61 | only an invalidation raises the generation of a name, which begins at zero, and drops its entry |
| `CertificateCache.EntriesStay` | app/services/dashboard.py:54-61 | other steps than a store leave the entries of other names alone |
| `CertificateCache.NamedIs` | app/services/dashboard.py:427-443 | of several results for a name the last is taken |
| `CertificateCache.StoredIsFresh` | app/services/dashboard.py:364-443 | in every run a stored result comes from a fetch begun after the last invalidation of its name if and only if, at the join, no fetch was running or the running one began after it |
| `CertificateCache.JoinFound` | app/services/dashboard.py:364-443 | in every run a stored name was joined at an earlier step by the lookup that stores it |
| `CertificateCache.RunStaysFresh` | app/services/dashboard.py:364-443 | if that guard holds at every join, no cached result is ever older than the last invalidation of its name |
| `CertificateCache.JoinedFetchCanBeStale` | app/services/dashboard.py:364-376 | a lookup after an invalidation can join a fetch from before it and cache its result |
| `Certificates.WildcardIsOneLabel` | app/services/certificates.py:105-123 | a wildcard covers exactly one extra label |
| `Certificates.CoverageForDomain` | app/services/certificates.py:126-149 | the first exact name, else the first wildcard |
| `Certificates.ChooseName` | app/services/certificates.py:312-329 | the inner loop of the search makes the same choice |
| `Certificates.ChoiceExists` | app/services/certificates.py:126-149 | a name is chosen if and only if one covers the domain |
| `Certificates.ValidWindow` | app/services/certificates.py:196-244 | valid means issued and at least one whole second before expiry |
| `Certificates.FindCertificate` | app/services/certificates.py:305-359 | the first certificate of least rank among the dated ones covering the domain, or none if and only if there is none |
| `Certificates.BestIs` | app/services/certificates.py:305-359 | the chosen certificate beats any other one: valid first, then complete, then named exactly, then the latest expiry, then the first |
| `Certificates.ChosenIs` | app/services/certificates.py:126-149 | the chosen name is the first of its kind, and a wildcard only if no name is exactly the domain |
| `Certificates.ExactIsSame` | app/services/certificates.py:105-123 | a name is an exact match if and only if it is the domain, case and outer white space ignored |
| `Certificates.NormalIs` | app/services/certificates.py:105-112 | a name is taken without surrounding white space |
| `Certificates.NormalIgnoresCase` | app/services/certificates.py:105-112 | capital letters make no difference |
| `Certificates.StatusIs` | app/services/certificates.py:196-244 | each status by its dates, and the days remaining rounded up |
| `Paths.PruneDuplicatePaths` | app/services/caddy.py:436-443 | an antichain of the input in which every input path has exactly one ancestor or itself |

## Left out

- Characters: lower-casing and the word boundary after `admin` and `email` are modelled for ASCII only, and lines are separated by a line feed only; Python's other line separators and Unicode white space are not part of this model.
- The two text tests of the renderer (whether a text defines a snippet, whether directives already set headers) are unknown functions of the text, so nothing is claimed about them.
- Local indentation formatting, renewal decision tables, badge classes, URL normalizers, the weekly rank history and the banner: branches that reading settles.
- HTTP, DNS, TLS, subprocess and Admin API traffic: only outcomes are modelled, and the adapter is one unknown deterministic function.
- Files are optional texts with failing writes; permissions, ownership, fsync and the backup file's own loss (an outcome of the restore) are not modelled further, and the operation guard is mutual exclusion of whole operations.
- A missing Caddyfile path setting is not modelled: it answers "onboarding_required" or an onboarding error before anything is touched, like an unreadable file. The wizard and the settings name the same path.
- The database is rows with commit, rollback and atomic conditional updates; isolation levels, retries and connection errors in the middle of a request are not modelled. A rolled-back verification would give a one-time value back.
- Hash functions are unknown functions; the stored list of recovery-code hashes stands for its JSON text, and ill-formed stored lists are not modelled.
- `Onboarding.OnboardingWizard.EnableAdminApi`: takes it that a successful restart loads the Caddyfile; a Caddy started with another configuration file or resuming an older one is not modelled, because the source knows neither. What a failed restart leaves running is an input.
- `Enablement.EnableAgreement`: asks that the adapter skips the comment lines of the marker, because a restart adapts the file with them and a synchronization without them.
- `Onboarding.OnboardingWizard.RunPreflight`: does not model warnings and the texts of messages, because nothing depends on them; an unwritable file outside the import mode is the same issue as an unreadable one.
- `SitesKept.ParseKeepsSites`: asks that the text before the block and the block before and after leave nothing open, because otherwise the block's end depends on the lines that follow; `SitesLost.SurviveWhateverFollows` settles that case over all that may follow.
- `Schedule.NextScheduleTime`: does not model the overflow after the year 9999, because the calendar here has no last year.
- `CertificateCache.Dictionaries.Prune`: leaves open which of two entries of the same age is evicted, because the source takes the older insertion only by the stability of its sort.
- `CertificateCache.Dictionaries.Lookup`: does not model the normalization and the duplicate removal of the asked names, because they happen before the lock is taken.
- `Certificates.FindCertificate`: compares expiry times exactly, where the source compares floating-point timestamps, because expiry dates are whole seconds.
- `Events.EventBus.Shutdown`: does not model a shutdown requested when the event loop is already closed, because streams cannot be closed safely then.
- `Sync.Deployment.Onboard`: does not store the original file's hash and the onboarding status text, because nothing else reads them here.
