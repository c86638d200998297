/**
 Which block headers are site labels and which domains they stand for (app/utils/caddyfile.py:623-672),
 said by the pieces a label is made of.
 */
module SiteLabels {
  import opened Text
  import opened Parser
  import D = Domains

  // ---------------------------------------------------------------- cutting at a character

  function JoinOn(parts: seq<string>, c: char): string {
    if parts == [] then "" else if |parts| == 1 then parts[0] else parts[0] + [c] + JoinOn(parts[1..], c)
  }

  /** The parts put together again are the text, and none holds the character. */
  lemma {:induction false} SplitOnIs(s: string, c: char)
    ensures JoinOn(SplitOn(s, c), c) == s
    ensures forall k :: 0 <= k < |SplitOn(s, c)| ==> c !in SplitOn(s, c)[k]
  {
    var i := Find(s, c);
    if i < |s| {
      var rest := SplitOn(s[i + 1..], c);
      SplitOnIs(s[i + 1..], c);
      assert SplitOn(s, c) == [s[..i]] + rest;
      assert SplitOn(s, c)[1..] == rest;
      assert s == s[..i] + [c] + s[i + 1..];
    }
  }

  /** And there is only one way to cut a text like that. */
  lemma {:induction false} SplitOnJoined(parts: seq<string>, c: char)
    requires parts != [] && forall k :: 0 <= k < |parts| ==> c !in parts[k]
    ensures SplitOn(JoinOn(parts, c), c) == parts
  {
    var s := JoinOn(parts, c);
    if |parts| > 1 {
      var rest := JoinOn(parts[1..], c);
      SplitOnJoined(parts[1..], c);
      assert s == parts[0] + [c] + rest;
      FindInConcat(parts[0], c, rest);
      assert s[..|parts[0]|] == parts[0] && s[|parts[0]| + 1..] == rest;
    } else {
      assert Find(s, c) == |s|;
    }
  }

  /** Taking a character off the end: nothing else goes, and none of it stays. */
  lemma {:induction false} RStripCharIs(s: string, c: char)
    ensures var r := RStripChar(s, c);
            && r <= s && (r != "" ==> r[|r| - 1] != c) && forall k :: |r| <= k < |s| ==> s[k] == c
  {
    if s != "" && s[|s| - 1] == c {
      RStripCharIs(s[..|s| - 1], c);
    }
  }

  lemma NothingTaken(s: string, c: char)
    requires s == "" || s[|s| - 1] != c
    ensures RStripChar(s, c) == s
  {
  }

  /** The first word: no white space in it, and white space or nothing behind it. */
  lemma {:induction false} FirstWordIs(s: string)
    ensures var w := FirstWord(s);
            && w <= s && (forall k :: 0 <= k < |w| ==> !IsSpace(w[k])) && (|w| < |s| ==> IsSpace(s[|w|]))
  {
    if s != "" && !IsSpace(s[0]) {
      FirstWordIs(s[1..]);
      assert s == [s[0]] + s[1..];
    }
  }

  // ---------------------------------------------------------------- one entry of a label

  predicate IsPortText(port: string) {
    port == "" || (|port| > 1 && port[0] == ':' && forall k :: 1 <= k < |port| ==> port[k] in "0123456789")
  }

  /** In small letters: a scheme or none, a wildcard or none, a dotted name, a port or none. */
  predicate IsEntry(entry: string, scheme: string, star: string, host: string, port: string) {
    && D.Lower(entry) == scheme + star + host + port
    && (scheme == "" || scheme == "http://" || scheme == "https://") && (star == "" || star == "*.")
    && D.IsDotted(host) && IsPortText(port)
  }

  lemma PortText(port: string)
    ensures IsPortText(port) <==> port == "" || (port[0] == ':' && IsPort(port[1..]))
  {
    if port != "" {
      assert forall k :: 1 <= k < |port| ==> port[k] == port[1..][k - 1];
      assert forall k :: 0 <= k < |port[1..]| ==> port[1..][k] == port[k + 1];
      forall k | 1 <= k < |port| ensures D.IsDigit(port[k]) <==> port[k] in "0123456789" {
        DigitIs(port[k]);
      }
    }
    hide D.IsDigit;
  }

  lemma DigitIs(c: char)
    ensures D.IsDigit(c) <==> c in "0123456789"
  {
  }

  /** Taking scheme and wildcard off the front leaves name and port. */
  lemma FrontTaken(scheme: string, star: string, rest: string)
    requires scheme == "" || scheme == "http://" || scheme == "https://"
    requires star == "" || star == "*."
    requires rest != "" && D.IsAlnum(rest[0]) && '/' !in rest
    ensures DropScheme(scheme + star + rest) == star + rest
    ensures DropPrefix(star + rest, "*.") == rest
  {
    var all := star + rest;
    assert '/' !in all;
    if scheme == "" {
      assert scheme + star + rest == all;
      assert "http://"[5] == '/' && "https://"[6] == '/';
    } else {
      assert scheme + star + rest == scheme + all;
      assert (scheme + all)[..|scheme|] == scheme && (scheme + all)[|scheme|..] == all;
      assert "http://"[4] == ':' && "https://"[4] == 's';
      if scheme == "https://" {
        assert (scheme + all)[4] == 's';
      }
    }
    if star == "" {
      assert all == rest && "*."[0] == '*';
    }
  }

  lemma HostAndPort(host: string, port: string)
    requires D.IsDotted(host) && IsPortText(port)
    ensures var rest := host + port;
            && Find(rest, ':') == |host| && rest[..|host|] == host
            && (|host| < |rest| ==> rest[|host| + 1..] == port[1..]) && (port == "" <==> |host| == |rest|)
            && rest != "" && D.IsAlnum(rest[0]) && '/' !in rest
  {
    D.DottedChars(host);
    var rest := host + port;
    assert forall k :: 0 <= k < |host| ==> rest[k] == host[k];
    assert forall k :: |host| <= k < |rest| ==> rest[k] == port[k - |host|];
    assert port != "" ==> rest[|host|] == ':';
    forall k | 0 <= k < |rest| ensures rest[k] != '/' {
      if k > |host| {
        assert port[k - |host|] in "0123456789";
      }
    }
  }

  /** An entry is an address of the parser, and the parser takes no other text for one. */
  lemma EntryIs(entry: string)
    ensures IsAddress(entry) <==> exists scheme, star, host, port :: IsEntry(entry, scheme, star, host, port)
  {
    hide *;
    if IsAddress(entry) {
      AddressIsEntry(entry);
    }
    if scheme, star, host, port :| IsEntry(entry, scheme, star, host, port) {
      EntryIsAddress(entry, scheme, star, host, port);
    }
  }

  lemma SchemeCut(all: string) returns (scheme: string)
    ensures all == scheme + DropScheme(all) && (scheme == "" || scheme == "http://" || scheme == "https://")
  {
    scheme := all[..|all| - |DropScheme(all)|];
  }

  lemma StarCut(bare: string) returns (star: string)
    ensures bare == star + DropPrefix(bare, "*.") && (star == "" || star == "*.")
  {
    star := bare[..|bare| - |DropPrefix(bare, "*.")|];
  }

  lemma PortCut(rest: string) returns (host: string, port: string)
    ensures var i := Find(rest, ':');
            && i <= |rest| && host == rest[..i] && port == rest[i..] && rest == host + port
            && (port == "" <==> i == |rest|) && (port != "" ==> port[0] == ':' && port[1..] == rest[i + 1..])
  {
    host, port := rest[..Find(rest, ':')], rest[Find(rest, ':')..];
  }

  lemma AddressParts(entry: string)
    requires IsAddress(entry)
    ensures var rest := DropPrefix(DropScheme(D.Lower(entry)), "*.");
            var i := Find(rest, ':');
            i <= |rest| && D.IsDotted(rest[..i]) && (i < |rest| ==> IsPort(rest[i + 1..]))
  {
    hide D.IsDotted, D.Lower, DropPrefix, DropScheme, IsPort;
  }

  lemma AddressIsEntry(entry: string)
    requires IsAddress(entry)
    ensures exists scheme, star, host, port :: IsEntry(entry, scheme, star, host, port)
  {
    hide *;
    var all := D.Lower(entry);
    var bare := DropScheme(all);
    var rest := DropPrefix(bare, "*.");
    AddressParts(entry);
    var scheme := SchemeCut(all);
    var star := StarCut(bare);
    var host, port := PortCut(rest);
    PortText(port);
    Regroup(scheme, star, host, port);
    EntryFrom(entry, scheme, star, host, port);
  }

  lemma Regroup(a: string, b: string, c: string, d: string)
    ensures a + (b + (c + d)) == a + b + c + d
  {
  }

  lemma EntryFrom(entry: string, scheme: string, star: string, host: string, port: string)
    requires D.Lower(entry) == scheme + star + host + port
    requires (scheme == "" || scheme == "http://" || scheme == "https://") && (star == "" || star == "*.")
    requires D.IsDotted(host) && IsPortText(port)
    ensures IsEntry(entry, scheme, star, host, port)
  {
    hide D.Lower, D.IsDotted, IsPortText;
  }

  lemma EntryIsAddress(entry: string, scheme: string, star: string, host: string, port: string)
    requires IsEntry(entry, scheme, star, host, port)
    ensures IsAddress(entry)
  {
    hide *;
    EntryParts(entry, scheme, star, host, port);
    HostAndPort(host, port);
    FrontTaken(scheme, star, host + port);
    PortText(port);
    assert scheme + star + host + port == scheme + star + (host + port);
    AddressFrom(entry, scheme + star + (host + port), star + (host + port), host, port);
  }

  lemma AddressFrom(entry: string, all: string, bare: string, host: string, port: string)
    requires D.Lower(entry) == all && DropScheme(all) == bare && DropPrefix(bare, "*.") == host + port
    requires D.IsDotted(host) && Find(host + port, ':') == |host| && (host + port)[..|host|] == host
    requires |host| < |host + port| ==> (host + port)[|host| + 1..] == port[1..]
    requires port == "" || IsPort(port[1..])
    ensures IsAddress(entry)
  {
    hide D.Lower, DropScheme, DropPrefix, D.IsDotted, Find, IsPort;
  }

  // ---------------------------------------------------------------- a whole label

  lemma LowerHas(s: string, c: char)
    requires !('a' <= c <= 'z') && !('A' <= c <= 'Z')
    ensures c in D.Lower(s) <==> c in s
  {
    if c in s {
      var k :| 0 <= k < |s| && s[k] == c;
      D.LowerAt(s, k);
      assert D.Lower(s)[k] == c;
    }
    if c in D.Lower(s) {
      var k :| 0 <= k < |s| && D.Lower(s)[k] == c;
      D.LowerAt(s, k);
      assert s[k] == c;
    }
    hide D.Lower;
  }

  /** Every entry has a dot and begins with neither `@` nor `/`. */
  lemma EntryStart(entry: string)
    requires IsAddress(entry)
    ensures '.' in entry && entry != "" && entry[0] != '@' && entry[0] != '/'
    ensures forall k :: 0 <= k < |entry| ==> !IsSpace(entry[k])
  {
    hide D.IsDotted, D.Lower, IsAddress;
    EntryIs(entry);
    var scheme, star, host, port :| IsEntry(entry, scheme, star, host, port);
    D.DottedChars(host);
    EntryChars(entry, scheme, star, host, port);
    LowerHas(entry, '.');
    assert host[0] in D.Lower(entry);
    D.LowerAt(entry, 0);
    forall k | 0 <= k < |entry| ensures !IsSpace(entry[k]) {
      D.LowerAt(entry, k);
    }
  }

  lemma EntryChars(entry: string, scheme: string, star: string, host: string, port: string)
    requires IsEntry(entry, scheme, star, host, port)
    requires host != "" && '.' in host && D.IsAlnum(host[0])
    requires forall k :: 0 <= k < |host| ==> D.IsAlnum(host[k]) || host[k] == '-' || host[k] == '.'
    ensures var all := D.Lower(entry);
            && '.' in all && all != "" && all[0] != '@' && all[0] != '/'
            && forall k :: 0 <= k < |all| ==> !IsSpace(all[k])
  {
    hide D.IsDotted, D.Lower;
    var all, front := D.Lower(entry), scheme + star;
    assert all == front + (host + port);
    assert forall k :: 0 <= k < |front| ==> all[k] == front[k] && !IsSpace(front[k]) && front[k] != '@';
    assert forall k :: |front| <= k < |front| + |host| ==> all[k] == host[k - |front|];
    forall k | 0 <= k < |all| ensures !IsSpace(all[k]) {
      if k >= |front| + |host| {
        var i := k - |front| - |host|;
        assert all[k] == port[i];
        if i > 0 {
          assert port[i] in "0123456789";
        }
      }
    }
    var d :| 0 <= d < |host| && host[d] == '.';
    assert all[|front| + d] == '.';
    if front == "" {
      assert all[0] == host[0];
    } else {
      assert all[0] == front[0] && (front[0] == 'h' || front[0] == '*');
    }
  }

  /** Each part is an entry, with or without white space around it. */
  predicate AreEntries(parts: seq<string>) {
    forall k :: 0 <= k < |parts| ==> IsAddress(Strip(parts[k]))
  }

  /**
   A header is a site label exactly if each part between its commas is an entry, once white space and
   the commas at its end are gone. The other guards of the parser never decide.
   */
  lemma LabelIs(header: string)
    ensures IsSiteLabel(header) <==> AreEntries(SplitOn(RStripChar(Strip(header), ','), ','))
  {
    hide *;
    var cleaned := RStripChar(Strip(header), ',');
    LabelParts(header);
    CleanedStart(header);
    if AreEntries(SplitOn(cleaned, ',')) {
      LabelGuards(cleaned, SplitOn(cleaned, ','));
    }
  }

  lemma LabelParts(header: string)
    ensures var cleaned := RStripChar(Strip(header), ',');
            IsSiteLabel(header) <==>
              && cleaned != "" && cleaned[0] != '@' && cleaned[0] != '/'
              && RStripChar(D.Lower(FirstWord(cleaned)), ',') !in KEYWORDS
              && AreEntries(SplitOn(cleaned, ','))
  {
    hide IsAddress, Strip, D.Lower, KEYWORDS, SplitOn, RStripChar, FirstWord;
  }

  lemma CleanedStart(header: string)
    ensures var cleaned := RStripChar(Strip(header), ','); cleaned == "" || !IsSpace(cleaned[0])
  {
    var before, after := StripParts(header);
    RStripCharIs(Strip(header), ',');
    hide Strip, RStripChar, IsSpace;
  }

  lemma LabelGuards(cleaned: string, parts: seq<string>)
    requires parts == SplitOn(cleaned, ',') && AreEntries(parts)
    requires cleaned == "" || !IsSpace(cleaned[0])
    ensures cleaned != "" && cleaned[0] != '@' && cleaned[0] != '/'
    ensures RStripChar(D.Lower(FirstWord(cleaned)), ',') !in KEYWORDS
  {
    hide IsAddress, Strip, D.Lower, KEYWORDS, FirstWord, RStripChar;
    var first := parts[0];
    EntryStart(Strip(first));
    SplitOnIs(cleaned, ',');
    FirstPart(cleaned, parts);
    var before, after := StripParts(first);
    var entry := Strip(first);
    assert before + (entry + after) == first && cleaned[0] == first[0];
    NothingBefore(before, entry + after);
    assert first == entry + after && entry <= first <= cleaned;
    assert cleaned[0] == entry[0];
    FirstWordIs(cleaned);
    var word := FirstWord(cleaned);
    WordCovers(cleaned, word, entry);
    LowerHas(word, '.');
    RStripCharIs(D.Lower(word), ',');
    DotStays(D.Lower(word), RStripChar(D.Lower(word), ','), ',');
    if RStripChar(D.Lower(word), ',') in KEYWORDS {
      KeywordsHaveNoDot(RStripChar(D.Lower(word), ','));
    }
  }

  lemma NothingBefore(before: string, rest: string)
    requires AllSpace(before) && before + rest != "" && !IsSpace((before + rest)[0])
    ensures before == ""
  {
  }

  lemma FirstPart(s: string, parts: seq<string>)
    requires parts != [] && JoinOn(parts, ',') == s
    ensures parts[0] <= s
  {
  }

  lemma WordCovers(s: string, word: string, entry: string)
    requires entry <= s && word <= s && '.' in entry && forall k :: 0 <= k < |entry| ==> !IsSpace(entry[k])
    requires |word| < |s| ==> IsSpace(s[|word|])
    ensures '.' in word
  {
    assert forall k :: 0 <= k < |entry| ==> s[k] == entry[k];
    var k :| 0 <= k < |entry| && entry[k] == '.';
    assert word[k] == s[k] == entry[k];
  }

  lemma DotStays(s: string, r: string, c: char)
    requires '.' in s && c != '.' && r <= s && forall k :: |r| <= k < |s| ==> s[k] == c
    ensures '.' in r
  {
    var k :| 0 <= k < |s| && s[k] == '.';
    assert r[k] == '.';
  }

  // ---------------------------------------------------------------- the domains of a label

  /** The domain an entry stands for, if its scheme is in small letters: wildcard and name, in small letters. */
  lemma DomainOfEntry(entry: string, scheme: string, star: string, host: string, port: string)
    requires IsEntry(entry, scheme, star, host, port) && scheme <= entry
    ensures CleanDomains([entry]) == [star + host]
  {
    hide *;
    var rest, name := entry[|scheme|..], star + host;
    EntryParts(entry, scheme, star, host, port);
    HostAndPort(host, port);
    D.DottedChars(host);
    LowerSlice(entry, |scheme|, |entry|);
    TailOfEntry(entry, scheme, rest, star, host, port);
    assert D.Lower(rest) == star + (host + port);
    SchemeTaken(scheme, rest, star, host + port);
    NameHasNoColon(star, host);
    ColonAt(rest, name, port);
    LowerSlice(rest, 0, |name|);
    EntryTrimmed(entry, scheme, star, host, port);
    FrontOfLower(rest, name, port);
    CleanOne(entry, rest, name);
  }

  lemma EntryParts(entry: string, scheme: string, star: string, host: string, port: string)
    requires IsEntry(entry, scheme, star, host, port)
    ensures D.Lower(entry) == scheme + star + host + port && |D.Lower(entry)| == |entry| && |scheme| <= |entry|
    ensures (scheme == "" || scheme == "http://" || scheme == "https://") && (star == "" || star == "*.")
    ensures D.IsDotted(host) && IsPortText(port)
  {
    hide D.IsDotted, D.Lower, IsPortText;
  }

  lemma TailOfEntry(entry: string, scheme: string, rest: string, star: string, host: string, port: string)
    requires scheme <= entry && rest == entry[|scheme|..] && |D.Lower(entry)| == |entry|
    requires D.Lower(entry)[|scheme|..|entry|] == D.Lower(entry[|scheme|..|entry|])
    requires D.Lower(entry) == scheme + star + host + port
    ensures entry == scheme + rest && D.Lower(rest) == star + host + port
  {
    hide *;
    BehindFront(D.Lower(entry), scheme, star, host, port);
    EntryCut(entry, scheme);
  }

  lemma BehindFront(whole: string, front: string, star: string, host: string, port: string)
    requires whole == front + star + host + port
    ensures |front| <= |whole| && whole[|front|..|whole|] == star + host + port
  {
    assert whole == front + (star + host + port);
  }

  lemma EntryCut(entry: string, scheme: string)
    requires scheme <= entry
    ensures entry[|scheme|..|entry|] == entry[|scheme|..] && entry == scheme + entry[|scheme|..]
  {
  }

  lemma NameHasNoColon(star: string, host: string)
    requires star == "" || star == "*."
    requires forall k :: 0 <= k < |host| ==> D.IsAlnum(host[k]) || host[k] == '-' || host[k] == '.'
    ensures ':' !in star + host
  {
  }

  lemma FrontOfLower(rest: string, name: string, port: string)
    requires D.Lower(rest) == name + port && |name| <= |rest|
    requires D.Lower(rest[0..|name|]) == D.Lower(rest)[0..|name|]
    ensures D.Lower(rest[..|name|]) == name
  {
    hide D.Lower;
    assert rest[0..|name|] == rest[..|name|];
  }

  lemma CleanOne(entry: string, rest: string, name: string)
    requires Strip(entry) == entry && DropScheme(entry) == rest && Find(rest, ':') == |name| && |name| <= |rest|
    requires D.Lower(rest[..|name|]) == name != ""
    ensures CleanDomains([entry]) == [name]
  {
    hide Strip, DropScheme, Find;
    var parts := [entry];
    assert parts[1..] == [];
  }

  lemma LowerSlice(s: string, i: nat, j: nat)
    requires i <= j <= |s|
    ensures |D.Lower(s)| == |s| && D.Lower(s[i..j]) == D.Lower(s)[i..j]
  {
    hide D.Lower;
    var a, b := D.Lower(s[i..j]), D.Lower(s)[i..j];
    forall k | 0 <= k < |a| ensures a[k] == b[k] {
      D.LowerAt(s[i..j], k);
      D.LowerAt(s, i + k);
    }
    assert a == b;
  }

  lemma SchemeTaken(scheme: string, rest: string, star: string, tail: string)
    requires scheme == "" || scheme == "http://" || scheme == "https://"
    requires D.Lower(rest) == star + tail && (star == "" || star == "*.") && tail != "" && '/' !in tail
    ensures DropScheme(scheme + rest) == rest
  {
    LowerHas(rest, '/');
    hide D.Lower;
    assert '/' !in rest;
    if scheme == "" {
      assert scheme + rest == rest && "http://"[5] == '/' && "https://"[6] == '/';
    } else {
      assert (scheme + rest)[..|scheme|] == scheme && (scheme + rest)[|scheme|..] == rest;
      assert "http://"[4] == ':' && (scheme == "https://" ==> (scheme + rest)[4] == 's');
    }
  }

  lemma ColonAt(rest: string, name: string, port: string)
    requires D.Lower(rest) == name + port && ':' !in name && IsPortText(port)
    ensures Find(rest, ':') == |name|
  {
    LowerIndex(rest, name + port, ':');
    hide D.Lower;
    if port != "" {
      assert (name + port)[|name|] == ':';
    }
    assert forall k :: 0 <= k < |name| ==> (name + port)[k] == name[k];
  }

  lemma LowerIndex(s: string, lowered: string, c: char)
    requires D.Lower(s) == lowered && !('a' <= c <= 'z') && !('A' <= c <= 'Z')
    ensures forall k :: 0 <= k < |s| ==> (s[k] == c <==> lowered[k] == c)
  {
    forall k | 0 <= k < |s| ensures s[k] == c <==> lowered[k] == c {
      D.LowerAt(s, k);
    }
    hide D.Lower;
  }

  lemma EntryTrimmed(entry: string, scheme: string, star: string, host: string, port: string)
    requires IsEntry(entry, scheme, star, host, port)
    ensures Strip(entry) == entry
  {
    EntryIs(entry);
    EntryStart(entry);
    StripTrimmed(entry);
    hide *;
  }

  /**
   A scheme in capital letters makes a label, but not a domain: what is taken for the domain is the
   scheme.
   */
  lemma CapitalSchemeIsLost()
    ensures IsSiteLabel("HTTP://a.de") && DomainOfLabel("HTTP://a.de") == "http"
    ensures !D.IsName("http")
  {
    CapitalEntry();
    CapitalLabel();
    CapitalDomain();
    NoSuchName();
  }

  lemma CapitalEntry()
    ensures IsAddress("HTTP://a.de")
  {
    EntryIs("HTTP://a.de");
    LowerCapital();
    DottedExample();
    assert IsEntry("HTTP://a.de", "http://", "", "a.de", "") by {
      hide D.Lower, D.IsDotted;
      assert "http://" + "" + "a.de" + "" == "http://a.de";
    }
    hide *;
  }

  lemma LowerCapital()
    ensures D.Lower("HTTP://a.de") == "http://a.de"
  {
    hide *;
    var s := "HTTP://a.de";
    LowerWord();
    CapitalPieces();
    LowerSlice(s, 0, 4);
    LowerSlice(s, 4, 11);
    D.LowerFixed("://a.de");
    Halves(D.Lower(s), 4);
  }

  lemma CapitalPieces()
    ensures |"HTTP://a.de"| == 11 && "HTTP://a.de"[0..4] == "HTTP" && "HTTP://a.de"[4..11] == "://a.de"
    ensures forall k :: 0 <= k < 7 ==> !('A' <= "://a.de"[k] <= 'Z')
    ensures "http" + "://a.de" == "http://a.de"
  {
  }

  lemma Halves(s: string, n: nat)
    requires n <= |s|
    ensures s == s[0..n] + s[n..|s|]
  {
  }

  lemma DottedExample()
    ensures D.IsDotted("a.de")
  {
    assert Find("a.de", '.') == 1 && "a.de"[..1] == "a" && "a.de"[2..] == "de";
  }

  lemma CapitalLabel()
    requires IsAddress("HTTP://a.de")
    ensures IsSiteLabel("HTTP://a.de")
  {
    hide *;
    var s := "HTTP://a.de";
    CapitalShape();
    StripTrimmed(s);
    LabelIs(s);
    NothingTaken(s, ',');
    SplitOnJoined([s], ',');
    OnePart(s, ',');
    OneEntry(s);
  }

  lemma OneEntry(s: string)
    requires IsAddress(s) && Strip(s) == s
    ensures AreEntries([s])
  {
    hide IsAddress, Strip;
  }

  lemma CapitalShape()
    ensures var s := "HTTP://a.de";
            s != "" && !IsSpace(s[0]) && !IsSpace(s[|s| - 1]) && s[|s| - 1] != ',' && ',' !in s
    ensures DropScheme("HTTP://a.de") == "HTTP://a.de" && Find("HTTP://a.de", ':') == 4 && "HTTP://a.de"[..4] == "HTTP"
  {
    var s := "HTTP://a.de";
    assert s[4] == ':' && s[0] != 'h' && "http://"[0] == 'h' && "https://"[0] == 'h';
  }

  lemma OnePart(s: string, c: char)
    ensures JoinOn([s], c) == s
  {
  }

  lemma CapitalDomain()
    ensures DomainOfLabel("HTTP://a.de") == "http"
  {
    hide *;
    var s := "HTTP://a.de";
    CapitalShape();
    StripTrimmed(s);
    LowerWord();
    OnePart(s, ',');
    SplitOnJoined([s], ',');
    CleanOne(s, s, "http");
    OneDomain(s, "http");
  }

  lemma LowerWord()
    ensures D.Lower("HTTP") == "http"
  {
    var s, r := "HTTP", D.Lower("HTTP");
    forall k | 0 <= k < 4 ensures r[k] == "http"[k] {
      D.LowerAt(s, k);
    }
    hide D.Lower;
  }

  lemma OneDomain(header: string, domain: string)
    requires SplitOn(header, ',') == [header] && CleanDomains([header]) == [domain]
    ensures DomainOfLabel(header) == domain
  {
    hide SplitOn, CleanDomains;
  }

  lemma NoSuchName()
    ensures !D.IsName("http")
  {
    assert Find("http", '.') == 4;
  }
}
