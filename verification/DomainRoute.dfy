/** Domain entries as users type them: a host, a host with a path, or a full URL. */
module DomainRoute {
  import opened Text

  datatype Parsed = EmptyEntry | Parsed(host: string, path: string)

  const CATCH_ALL := "/*"

  /** The text ends in a slash and an asterisk, the wildcard segment. */
  predicate EndsWild(s: string) {
    |s| >= 2 && s[|s| - 2] == '/' && s[|s| - 1] == '*'
  }

  function Rooted(p: string): string {
    if p != "" && p[0] == '/' then p else ['/'] + p
  }

  /** The pattern without its wildcard segment and without slashes at its end. */
  function Stem(q: string): string {
    TrimRightSlash(if EndsWild(q) then q[..|q| - 2] else q)
  }

  function WithWildcard(stem: string): string {
    if stem == "" then CATCH_ALL else stem + ['/', '*']
  }

  /** Normalises a URL path pattern. */
  function NormalizePath(raw: string): string {
    var p := TrimSpace(raw);
    if p == "" || p == "/" || p == CATCH_ALL then CATCH_ALL
    else WithWildcard(Stem(Rooted(p)))
  }

  function StripScheme(entry: string): string {
    var lower := ToLower(entry);
    if HasPrefix(lower, "http://") then entry[7..]
    else if HasPrefix(lower, "https://") then entry[8..]
    else entry
  }

  function RawHost(e: string): string {
    var slash := IndexOf(e, '/');
    if slash == -1 then e else e[..slash]
  }

  function RawPath(e: string): string {
    var slash := IndexOf(e, '/');
    if slash == -1 then CATCH_ALL else e[slash..]
  }

  /** Lower-cased, trimmed, and cut at the first colon. */
  function CleanHost(rawHost: string): string {
    var host := TrimSpace(ToLower(rawHost));
    if ':' in host then Split(host, ':')[0] else host
  }

  /** Splits an entry into a lower-case host and a normalised path. */
  function ParseDomainRoute(raw: string): Parsed {
    var entry := TrimSpace(raw);
    if entry == "" then EmptyEntry
    else
      var e := StripScheme(entry);
      Parsed(CleanHost(RawHost(e)), NormalizePath(RawPath(e)))
  }

  /* ---- host syntax ---- */

  /** One label of a host name: letters, digits and inner hyphens, at most 63 characters. */
  predicate Label(s: string) {
    && 1 <= |s| <= 63
    && IsAlnum(s[0]) && IsAlnum(s[|s| - 1])
    && forall c :: c in s ==> IsAlnum(c) || c == '-'
  }

  predicate TopLevel(s: string) {
    |s| >= 2 && forall c :: c in s ==> IsAlpha(c)
  }

  /** Dot-separated labels ending in an alphabetic top-level domain (RFC 1035 section 2.3.1,
      with the leading digit allowed by RFC 1123 section 2.1). */
  predicate ValidDomain(d: string) {
    var labels := Split(d, '.');
    && |d| <= 253
    && |labels| >= 2
    && (forall i :: 0 <= i < |labels| - 1 ==> Label(labels[i]))
    && TopLevel(labels[|labels| - 1])
  }

  function JoinDots(labels: seq<string>): string
    requires labels != []
  {
    if |labels| == 1 then labels[0] else labels[0] + ['.'] + JoinDots(labels[1..])
  }

  lemma {:induction false} SplitOfJoin(labels: seq<string>)
    requires labels != [] && forall l :: l in labels ==> '.' !in l
    ensures Split(JoinDots(labels), '.') == labels
  {
    assert labels[0] in labels;
    if |labels| == 1 {
      SplitNone(labels[0], '.');
    } else {
      SplitOfJoin(labels[1..]);
      SplitCons(labels[0], '.', JoinDots(labels[1..]));
    }
  }

  lemma LabelIff(l: string)
    ensures Label(l) <==>
              && 1 <= |l| <= 63 && l[0] != '-' && l[|l| - 1] != '-'
              && forall c :: c in l ==> 'a' <= c <= 'z' || 'A' <= c <= 'Z' || '0' <= c <= '9' || c == '-'
  {
    assert l != "" ==> l[0] in l && l[|l| - 1] in l;
  }

  lemma TopLevelIff(l: string)
    ensures TopLevel(l) <==> |l| >= 2 && forall c :: c in l ==> 'a' <= c <= 'z' || 'A' <= c <= 'Z'
  {
  }

  /** Dotted labels are a valid domain if and only if there are at least two, together at most 253
      characters, the last is a top-level one, and each of the others is a label. */
  lemma ValidDomainOfLabels(labels: seq<string>)
    requires labels != [] && forall l :: l in labels ==> '.' !in l
    ensures ValidDomain(JoinDots(labels)) <==>
              && |labels| >= 2 && |JoinDots(labels)| <= 253
              && TopLevel(labels[|labels| - 1])
              && forall i :: 0 <= i < |labels| - 1 ==> Label(labels[i])
  {
    hide Label, TopLevel, Split, JoinDots;
    SplitOfJoin(labels);
  }

  predicate HostChar(c: char) {
    IsAlnum(c) || c == '-' || c == '.'
  }

  lemma ValidDomainChars(d: string)
    requires ValidDomain(d)
    ensures d != "" && IsAlnum(d[0])
    ensures forall c :: c in d ==> HostChar(c)
  {
    var labels := Split(d, '.');
    forall c | c in d && c != '.' ensures HostChar(c) {
      SplitCovers(d, '.', c);
      var p :| p in labels && c in p;
      assert exists i :: 0 <= i < |labels| && labels[i] == p;
    }
    assert Label(labels[0]);
    var i := IndexOf(d, '.');
    assert labels[0] == d[..i];
    assert d[..i][0] == d[0];
  }

  /* ---- normal paths ---- */

  predicate ProperStem(stem: string) {
    |stem| >= 2 && stem[0] == '/' && stem[|stem| - 1] != '/'
  }

  /** The catch-all, or a stem that starts but does not end with a slash, followed by the wildcard segment. */
  predicate NormalPath(p: string) {
    p == CATCH_ALL || (EndsWild(p) && ProperStem(p[..|p| - 2]))
  }

  lemma StemShape(q: string)
    requires q != "" && q[0] == '/'
    ensures Stem(q) == "" || ProperStem(Stem(q))
  {
    var cut := if EndsWild(q) then q[..|q| - 2] else q;
    TrimRightSlashIsPrefix(cut);
    assert Stem(q) != "" ==> Stem(q)[0] == cut[..|Stem(q)|][0];
  }

  lemma WithWildcardNormal(stem: string)
    requires stem == "" || ProperStem(stem)
    ensures NormalPath(WithWildcard(stem))
  {
    if stem != "" {
      var p := stem + ['/', '*'];
      assert p[..|p| - 2] == stem;
    }
  }

  lemma NormalizeIsNormal(raw: string)
    ensures NormalPath(NormalizePath(raw))
  {
    var p := TrimSpace(raw);
    StemShape(Rooted(p));
    WithWildcardNormal(Stem(Rooted(p)));
  }

  lemma StemOfNormal(p: string)
    requires NormalPath(p) && p != CATCH_ALL
    ensures WithWildcard(Stem(p)) == p
  {
    assert Stem(p) == p[..|p| - 2];
    assert p == p[..|p| - 2] + ['/', '*'];
  }

  lemma NormalTrimmed(p: string)
    requires NormalPath(p)
    ensures p != "" && p[0] == '/' && p[|p| - 1] == '*' && TrimSpace(p) == p && Rooted(p) == p
  {
    assert Trimmed(p);
    TrimSpaceFixed(p);
  }

  /** The normal paths are exactly the fixed points of normalisation. */
  lemma NormalPathsAreFixedPoints(p: string)
    ensures NormalPath(p) <==> NormalizePath(p) == p
  {
    NormalizeIsNormal(p);
    if NormalPath(p) {
      NormalTrimmed(p);
      if p != CATCH_ALL {
        StemOfNormal(p);
      }
    }
  }

  lemma NormalizeIdempotent(p: string)
    ensures NormalizePath(NormalizePath(p)) == NormalizePath(p)
  {
    NormalizeIsNormal(p);
    NormalPathsAreFixedPoints(NormalizePath(p));
  }

  ghost predicate Slashes(s: string) {
    forall c :: c in s ==> c == '/'
  }

  lemma {:induction false} SlashesTrimmed(s: string) returns (tail: string)
    ensures s == TrimRightSlash(s) + tail && Slashes(tail)
  {
    tail := "";
    if s != "" && s[|s| - 1] == '/' {
      var rest := SlashesTrimmed(s[..|s| - 1]);
      tail := rest + [s[|s| - 1]];
      assert s == s[..|s| - 1] + [s[|s| - 1]];
    }
  }

  /** A path is read as a stem, then slashes, then perhaps one wildcard segment; with a slash put in front if
      it has none. The stem with a wildcard segment is its normal form. */
  lemma NormalizeMeans(raw: string) returns (stem: string, tail: string, wild: string)
    ensures var p := TrimSpace(raw); stem + tail + wild == if p != "" && p[0] == '/' then p else ['/'] + p
    ensures Slashes(tail) && wild in {"", CATCH_ALL} && (stem == "" || stem[|stem| - 1] != '/')
    ensures wild == "" ==> !HasSuffix(stem + tail, CATCH_ALL)
    ensures NormalizePath(raw) == if stem == "" then "/*" else stem + "/*"
  {
    hide TrimSpace;
    var p := TrimSpace(raw);
    var q := Rooted(p);
    wild := if EndsWild(q) then CATCH_ALL else "";
    var cut := if EndsWild(q) then q[..|q| - 2] else q;
    assert q == cut + wild;
    tail := SlashesTrimmed(cut);
    TrimRightSlashIsPrefix(cut);
    stem := TrimRightSlash(cut);
    assert HasSuffix(q, CATCH_ALL) ==> EndsWild(q) by {
      assert HasSuffix(q, CATCH_ALL) ==> q[|q| - 2..][0] == '/' && q[|q| - 2..][1] == '*';
    }
    assert stem == Stem(q);
    if p == "" || p == "/" || p == CATCH_ALL {
      ShortStem(q);
    }
  }

  lemma ShortStem(q: string)
    requires q == "/" || q == CATCH_ALL
    ensures Stem(q) == ""
  {
    assert "/"[..0] == "" && CATCH_ALL[..0] == "";
  }

  /* ---- parsing ---- */

  lemma CleanHostLower(rawHost: string)
    ensures NoUpper(CleanHost(rawHost))
  {
    ToLowerFixed(rawHost);
    var host := TrimSpace(ToLower(rawHost));
    TrimSpaceTrims(ToLower(rawHost));
    var first := Split(host, ':')[0];
    assert first in Split(host, ':');
  }

  lemma ParsedShape(raw: string)
    requires ParseDomainRoute(raw).Parsed?
    ensures NoUpper(ParseDomainRoute(raw).host)
    ensures NormalPath(ParseDomainRoute(raw).path)
  {
    var e := StripScheme(TrimSpace(raw));
    CleanHostLower(RawHost(e));
    NormalizeIsNormal(RawPath(e));
  }

  predicate HostText(h: string) {
    ':' !in h && '/' !in h
  }

  lemma ParsedHost(raw: string)
    requires ParseDomainRoute(raw).Parsed?
    ensures HostText(ParseDomainRoute(raw).host)
  {
    var e := StripScheme(TrimSpace(raw));
    var text := ToLower(RawHost(e));
    assert '/' !in RawHost(e);
    assert '/' !in text;
    TrimSpaceTrims(text);
    var host := TrimSpace(text);
    assert Split(host, ':')[0] in Split(host, ':');
  }

  /** A colon with no slash before it cannot come out of a host followed by a slash. */
  lemma NoScheme(h: string, rest: string, scheme: string, k: nat)
    requires HostText(h)
    requires rest == "" || rest[0] == '/'
    requires k < |scheme| && scheme[k] == ':' && forall j :: 0 <= j < k ==> scheme[j] != '/'
    ensures !HasPrefix(ToLower(h + rest), scheme)
  {
    var lower := ToLower(h + rest);
    PrefixAt(lower, scheme, k);
    if k < |lower| {
      if k < |h| {
        assert h[k] in h && lower[k] != ':';
      } else {
        PrefixAt(lower, scheme, |h|);
        assert lower[|h|] == '/';
      }
    }
  }

  lemma HostHasNoScheme(h: string, rest: string)
    requires HostText(h)
    requires rest == "" || rest[0] == '/'
    ensures StripScheme(h + rest) == h + rest
  {
    NoScheme(h, rest, "http://", 4);
    NoScheme(h, rest, "https://", 5);
  }

  lemma LastHostChar(h: string)
    requires ValidDomain(h)
    ensures h != "" && HostChar(h[|h| - 1]) && Trimmed(h) && HostText(h)
  {
    ValidDomainChars(h);
    assert h[|h| - 1] in h && h[0] in h;
  }

  lemma HostPathSplit(h: string, rest: string)
    requires '/' !in h
    requires rest == "" || rest[0] == '/'
    ensures RawHost(h + rest) == h
    ensures RawPath(h + rest) == if rest == "" then CATCH_ALL else rest
  {
    var e := h + rest;
    if rest == "" {
      assert e == h;
    } else {
      assert e == h + ['/'] + rest[1..];
      IndexOfAfter(h, '/', rest[1..]);
    }
  }

  /** A lower-case host followed by any path text parses to the trimmed host and the normalised path. */
  lemma ParseOfHostText(h: string, rest: string)
    requires HostText(h) && NoUpper(h) && rest != "" && rest[0] == '/' && !IsSpace(rest[|rest| - 1])
    ensures ParseDomainRoute(h + rest) == Parsed(TrimSpace(h), NormalizePath(rest))
  {
    var lead := TrimLeftSplits(h);
    TrimLeftIsSuffix(h);
    var h' := TrimLeft(h);
    assert HostText(h') && NoUpper(h');
    assert Trimmed(h' + rest);
    assert h + rest == lead + (h' + rest) + "";
    TrimSpaceUnique(lead, h' + rest, "");
    HostHasNoScheme(h', rest);
    HostPathSplit(h', rest);
    ToLowerFixed(h');
    TrimSpaceTrims(h');
    assert TrimLeft(h') == h';
  }

  /** A valid lower-case host, with or without path text after it. */
  lemma ParseOfHostAndPath(h: string, rest: string)
    requires ValidDomain(h) && NoUpper(h)
    requires rest == "" || (rest[0] == '/' && !IsSpace(rest[|rest| - 1]))
    ensures ParseDomainRoute(h + rest) == Parsed(h, NormalizePath(if rest == "" then CATCH_ALL else rest))
  {
    LastHostChar(h);
    TrimSpaceFixed(h);
    if rest == "" {
      assert h + rest == h;
      HostHasNoScheme(h, rest);
      HostPathSplit(h, rest);
      ToLowerFixed(h);
    } else {
      ParseOfHostText(h, rest);
    }
  }

  lemma SchemeDrops(scheme: string, e: string)
    requires ToLower(scheme) in {"http://", "https://"}
    ensures StripScheme(scheme + e) == e
  {
    var all := scheme + e;
    var lower := ToLower(all);
    assert lower[..|scheme|] == ToLower(scheme);
    assert |scheme| == 8 ==> lower[4] == ToLower(scheme)[4] == 's';
    PrefixAt(lower, "http://", 4);
    assert all[|scheme|..] == e;
  }

  /** A port, when there is one: a colon and some text without slash. */
  predicate PortText(port: string) {
    port == "" || (|port| >= 2 && port[0] == ':' && '/' !in port && !IsSpace(port[|port| - 1]))
  }

  lemma NoSchemeBeforePort(h: string, port: string, rest: string, scheme: string, k: nat)
    requires HostText(h) && PortText(port) && (rest == "" || rest[0] == '/')
    requires k + 1 < |scheme| && scheme[k] == ':' && scheme[k + 1] == '/'
    requires forall j :: 0 <= j < k ==> scheme[j] != '/' && scheme[j] != ':'
    ensures !HasPrefix(ToLower(h + port + rest), scheme)
  {
    var all := h + port + rest;
    var lower := ToLower(all);
    if port == "" {
      assert all == h + rest;
      NoScheme(h, rest, scheme, k);
    } else {
      PrefixAt(lower, scheme, k);
      PrefixAt(lower, scheme, k + 1);
      if |h| < k {
        PrefixAt(lower, scheme, |h|);
        assert all[|h|] == ':';
      } else if |h| == k {
        assert all[k + 1] == port[1] && port[1] in port;
      } else {
        assert all[k] == h[k] && h[k] in h;
      }
    }
  }

  /** A full URL parses like its parts: the scheme and the port are dropped, the host is lower-cased, and the
      path is normalised. */
  lemma UrlParses(scheme: string, h: string, port: string, rest: string)
    requires scheme == "" || (ToLower(scheme) in {"http://", "https://"} && !IsSpace(scheme[0]))
    requires HostText(h) && h != "" && Trimmed(h) && PortText(port)
    requires rest == "" || (rest[0] == '/' && !IsSpace(rest[|rest| - 1]))
    ensures ParseDomainRoute(scheme + h + port + rest)
            == Parsed(ToLower(h), NormalizePath(if rest == "" then "/*" else rest))
  {
    hide NormalizePath, CleanHost, StripScheme, RawHost, RawPath, TrimSpace, HostText, PortText;
    var e := h + port + rest;
    var entry := scheme + h + port + rest;
    assert entry == scheme + e;
    LastOfUrl(h, port, rest);
    assert Trimmed(entry);
    TrimSpaceFixed(entry);
    NoSchemeLeft(scheme, h, port, rest);
    assert e == (h + port) + rest;
    NoSlashBeforePath(h, port);
    HostPathSplit(h + port, rest);
    PortDrops(h, port);
  }

  lemma NoSlashBeforePath(h: string, port: string)
    requires HostText(h) && PortText(port)
    ensures '/' !in h + port
  {
  }

  lemma NoSchemeLeft(scheme: string, h: string, port: string, rest: string)
    requires scheme == "" || ToLower(scheme) in {"http://", "https://"}
    requires HostText(h) && PortText(port) && (rest == "" || rest[0] == '/')
    ensures StripScheme(scheme + (h + port + rest)) == h + port + rest
  {
    hide HostText, PortText;
    if scheme == "" {
      assert scheme + (h + port + rest) == h + port + rest;
      NoSchemeBeforePort(h, port, rest, "http://", 4);
      NoSchemeBeforePort(h, port, rest, "https://", 5);
    } else {
      SchemeDrops(scheme, h + port + rest);
    }
  }

  lemma LastOfUrl(h: string, port: string, rest: string)
    requires h != "" && Trimmed(h) && PortText(port) && (rest == "" || !IsSpace(rest[|rest| - 1]))
    ensures var e := h + port + rest; e != "" && e[0] == h[0] && !IsSpace(e[0]) && !IsSpace(e[|e| - 1])
  {
    var e := h + port + rest;
    if rest != "" {
      assert e[|e| - 1] == rest[|rest| - 1];
    } else if port != "" {
      assert e[|e| - 1] == port[|port| - 1];
    } else {
      assert e == h;
    }
  }

  lemma PortDrops(h: string, port: string)
    requires HostText(h) && h != "" && Trimmed(h) && PortText(port)
    ensures CleanHost(h + port) == ToLower(h)
  {
    var lower := ToLower(h + port);
    assert lower == ToLower(h) + ToLower(port);
    LastOfUrl(h, port, "");
    assert h + port + "" == h + port;
    assert Trimmed(lower);
    TrimSpaceFixed(lower);
    assert ':' !in ToLower(h);
    if port == "" {
      assert lower == ToLower(h);
    } else {
      assert ToLower(port)[0] == ':';
      assert lower == ToLower(h) + [':'] + ToLower(port)[1..];
      SplitCons(ToLower(h), ':', ToLower(port)[1..]);
    }
  }

  /** Parsing what an entry parsed to trims the host and changes nothing else. */
  lemma ParseAgain(raw: string)
    requires ParseDomainRoute(raw).Parsed?
    ensures var r := ParseDomainRoute(raw); ParseDomainRoute(r.host + r.path) == Parsed(TrimSpace(r.host), r.path)
  {
    hide ParseDomainRoute;
    var r := ParseDomainRoute(raw);
    ParsedShape(raw);
    ParsedHost(raw);
    NormalTrimmed(r.path);
    ParseOfHostText(r.host, r.path);
    NormalPathsAreFixedPoints(r.path);
  }

  /** Every entry parses to a fixed point, except those whose host is left with white space at an end. */
  lemma FixedPointIffTrimmed(raw: string)
    requires ParseDomainRoute(raw).Parsed?
    ensures var r := ParseDomainRoute(raw); ParseDomainRoute(r.host + r.path) == r <==> Trimmed(r.host)
  {
    hide ParseDomainRoute;
    var r := ParseDomainRoute(raw);
    ParseAgain(raw);
    TrimSpaceTrims(r.host);
    if Trimmed(r.host) {
      TrimSpaceFixed(r.host);
    }
  }

  /** In particular, hosts that pass the domain check. */
  lemma ParserFixedPoint(raw: string)
    requires ParseDomainRoute(raw).Parsed?
    requires ValidDomain(ParseDomainRoute(raw).host)
    ensures var r := ParseDomainRoute(raw); ParseDomainRoute(r.host + r.path) == r
  {
    hide ParseDomainRoute;
    FixedPointIffTrimmed(raw);
    LastHostChar(ParseDomainRoute(raw).host);
  }

  /** White space before a port survives the first parse and is trimmed by the second. */
  lemma SpaceBeforePort()
    ensures ParseDomainRoute("a :8") == Parsed("a ", CATCH_ALL)
    ensures ParseDomainRoute("a " + CATCH_ALL) == Parsed("a", CATCH_ALL)
  {
    FirstParse("a :8");
    ParseAgain("a :8");
    assert "a " == "a" + " ";
    TrimRightDrops("a", " ");
  }

  lemma FirstParse(raw: string)
    requires raw == "a :8"
    ensures ParseDomainRoute(raw) == Parsed("a ", CATCH_ALL)
  {
    assert Trimmed(raw);
    TrimSpaceFixed(raw);
    assert StripScheme(raw) == raw by {
      PrefixAt(ToLower(raw), "http://", 0);
      PrefixAt(ToLower(raw), "https://", 0);
    }
    assert RawHost(raw) == raw && RawPath(raw) == CATCH_ALL by {
      assert forall i :: 0 <= i < |raw| ==> raw[i] != '/';
    }
    NormalPathsAreFixedPoints(CATCH_ALL);
    PortCut(raw);
  }

  lemma PortCut(raw: string)
    requires raw == "a :8"
    ensures CleanHost(raw) == "a "
  {
    assert NoUpper(raw);
    ToLowerFixed(raw);
    assert Trimmed(raw);
    TrimSpaceFixed(raw);
    assert raw[2] == ':';
    assert raw == "a " + [':'] + "8";
    SplitCons("a ", ':', "8");
  }

  /* ---- the add-domain form ---- */

  datatype StoredEntry = Refused | Stored(entry: string)

  predicate NamesNoPath(rawPath: string) {
    rawPath == "" || rawPath == CATCH_ALL || rawPath == "/"
  }

  function EntryFor(parsed: Parsed, rawPath: string): string
    requires parsed.Parsed?
  {
    if !NamesNoPath(rawPath) then parsed.host + NormalizePath(rawPath)
    else if parsed.path != "" && parsed.path != CATCH_ALL then parsed.host + parsed.path
    else parsed.host
  }

  /** The entry the add-domain handler stores for its two form fields. */
  function CanonicalEntry(domainField: string, pathField: string): StoredEntry {
    var rawDomain := TrimSpace(ToLower(domainField));
    var rawPath := TrimSpace(pathField);
    if rawDomain == "" then Refused
    else
      var parsed := ParseDomainRoute(rawDomain);
      if parsed.EmptyEntry? then Stored(if NamesNoPath(rawPath) then "" else rawDomain + NormalizePath(rawPath))
      else if parsed.host == "" && !NamesNoPath(rawPath) then Stored(rawDomain + NormalizePath(rawPath))
      else Stored(EntryFor(parsed, rawPath))
  }

  /** The path the user asked for: the path field when it names one, else the path typed in the domain field. */
  function IntendedPath(domainField: string, pathField: string): string {
    var p := TrimSpace(pathField);
    var typed := ParseDomainRoute(domainField);
    if !NamesNoPath(p) then NormalizePath(p)
    else if typed.Parsed? then typed.path
    else CATCH_ALL
  }

  lemma NormalizeLower(p: string)
    ensures NormalizePath(ToLower(p)) == ToLower(NormalizePath(p))
  {
    hide TrimSpace, ToLower, Stem, Rooted, WithWildcard;
    TrimSpaceLower(p);
    var t := TrimSpace(p);
    LowerKeepsSigns(t);
    LowerKeepsSigns(CATCH_ALL);
    RootedLower(t);
    StemLower(Rooted(t));
    WithWildcardLower(Stem(Rooted(t)));
  }

  lemma RootedLower(t: string)
    ensures Rooted(ToLower(t)) == ToLower(Rooted(t))
  {
    assert t != "" ==> (ToLower(t)[0] == '/' <==> t[0] == '/');
  }

  lemma WithWildcardLower(stem: string)
    ensures WithWildcard(ToLower(stem)) == ToLower(WithWildcard(stem))
  {
    if stem == "" {
      assert ToLower(CATCH_ALL) == CATCH_ALL && ToLower(stem) == "";
    } else {
      assert ToLower(stem + ['/', '*']) == ToLower(stem) + ['/', '*'];
    }
  }

  lemma LowerKeepsSigns(t: string)
    ensures (ToLower(t) == "") == (t == "") && (ToLower(t) == "/") == (t == "/") && (ToLower(t) == CATCH_ALL) == (t == CATCH_ALL)
    ensures EndsWild(ToLower(t)) == EndsWild(t)
  {
    var l := ToLower(t);
    assert forall i :: 0 <= i < |t| ==> (l[i] == '/' <==> t[i] == '/') && (l[i] == '*' <==> t[i] == '*');
  }

  lemma StemLower(q: string)
    ensures Stem(ToLower(q)) == ToLower(Stem(q))
  {
    LowerKeepsSigns(q);
    if EndsWild(q) {
      assert ToLower(q)[..|q| - 2] == ToLower(q[..|q| - 2]);
      TrimRightSlashLower(q[..|q| - 2]);
    } else {
      TrimRightSlashLower(q);
    }
  }

  /** Lower-casing an entry before parsing leaves the host as it was and lower-cases the path. */
  lemma ParseLower(raw: string)
    ensures ParseDomainRoute(ToLower(raw)).EmptyEntry? == ParseDomainRoute(raw).EmptyEntry?
    ensures ParseDomainRoute(raw).Parsed? ==>
              ParseDomainRoute(ToLower(raw)) == Parsed(ParseDomainRoute(raw).host, ToLower(ParseDomainRoute(raw).path))
  {
    hide TrimSpace, NormalizePath, CleanHost, StripScheme, RawHost, RawPath;
    TrimSpaceLower(raw);
    var entry := TrimSpace(raw);
    SchemeLower(entry);
    var e := StripScheme(entry);
    SplitLower(e);
    CleanHostIgnoresCase(RawHost(e));
    NormalizeLower(RawPath(e));
  }

  lemma SchemeLower(entry: string)
    ensures StripScheme(ToLower(entry)) == ToLower(StripScheme(entry))
  {
    hide LowerChar;
    ToLowerFixed(entry);
    var lower := ToLower(entry);
    if HasPrefix(lower, "http://") {
      assert lower[7..] == ToLower(entry[7..]);
    } else if HasPrefix(lower, "https://") {
      assert lower[8..] == ToLower(entry[8..]);
    }
  }

  lemma SplitLower(e: string)
    ensures RawHost(ToLower(e)) == ToLower(RawHost(e))
    ensures RawPath(ToLower(e)) == ToLower(RawPath(e))
  {
    hide IndexOf, LowerChar;
    IndexOfLower(e, '/');
    var slash := IndexOf(e, '/');
    if slash == -1 {
      LowerKeepsSigns(CATCH_ALL);
    } else {
      assert ToLower(e)[..slash] == ToLower(e[..slash]) && ToLower(e)[slash..] == ToLower(e[slash..]);
    }
  }

  lemma CleanHostIgnoresCase(h: string)
    ensures CleanHost(ToLower(h)) == CleanHost(h)
  {
    ToLowerFixed(h);
  }

  lemma TrimBeforeParse(raw: string)
    ensures ParseDomainRoute(TrimSpace(raw)) == ParseDomainRoute(raw)
  {
    TrimSpaceTrims(raw);
    TrimSpaceFixed(TrimSpace(raw));
  }

  lemma NormalEntryParses(h: string, path: string)
    requires ValidDomain(h) && NoUpper(h) && NormalPath(path)
    ensures ParseDomainRoute(h + path) == Parsed(h, path)
    ensures ParseDomainRoute(h) == Parsed(h, CATCH_ALL)
  {
    hide ParseDomainRoute, NormalizePath, ValidDomain, TrimSpace;
    NormalTrimmed(path);
    NormalPathsAreFixedPoints(path);
    ParseOfHostAndPath(h, path);
    NormalPathsAreFixedPoints(CATCH_ALL);
    ParseOfHostAndPath(h, "");
    assert h + "" == h;
  }

  /** What the handler stores parses back to the host typed. The path is the one asked for exactly when
      the path field names it or the domain field's path has no upper-case letter: the handler lower-cases
      the whole domain field. */
  lemma StoredEntryMeansIntent(domainField: string, pathField: string)
    requires ParseDomainRoute(domainField).Parsed?
    requires ValidDomain(ParseDomainRoute(domainField).host)
    ensures CanonicalEntry(domainField, pathField).Stored?
    ensures var stored := ParseDomainRoute(CanonicalEntry(domainField, pathField).entry);
      && stored.Parsed? && stored.host == ParseDomainRoute(domainField).host
      && (stored.path == IntendedPath(domainField, pathField)
          <==> !NamesNoPath(TrimSpace(pathField)) || NoUpper(ParseDomainRoute(domainField).path))
      && (TrimSpace(pathField) in {"", "/", "/*"} ==> stored.path == ToLower(ParseDomainRoute(domainField).path))
      && (TrimSpace(pathField) !in {"", "/", "/*"} ==> stored.path == NormalizePath(pathField))
  {
    hide ParseDomainRoute, ValidDomain, TrimSpace, NormalizePath;
    var typed, names := ParseDomainRoute(domainField), !NamesNoPath(TrimSpace(pathField));
    ParseLower(domainField);
    ToLowerFixed(typed.path);
    NormalizeTrimmed(pathField);
    StoredEntryIs(domainField, pathField);
  }

  lemma NormalizeTrimmed(p: string)
    ensures NormalizePath(TrimSpace(p)) == NormalizePath(p)
  {
    TrimSpaceTrims(p);
    TrimSpaceFixed(TrimSpace(p));
  }

  /** A blank domain field is refused, whatever the path field holds, and nothing else is refused here. */
  lemma OnlyBlankIsRefused(domainField: string, pathField: string)
    ensures CanonicalEntry(domainField, pathField).Refused? <==> forall c :: c in domainField ==> IsSpace(c)
  {
    TrimSpaceLower(domainField);
    var lead, tail := TrimSpaceSplits(domainField);
    if Blank(domainField) {
      TrimSpaceUnique(domainField, "", "");
      assert domainField + "" + "" == domainField;
    } else {
      var t := TrimSpace(domainField);
      assert t != "" by {
        assert t == "" ==> domainField == lead + tail;
      }
      assert ToLower(t) != "";
    }
  }

  lemma StoredEntryIs(domainField: string, pathField: string)
    requires ParseDomainRoute(ToLower(domainField)).Parsed?
    requires ValidDomain(ParseDomainRoute(ToLower(domainField)).host)
    ensures CanonicalEntry(domainField, pathField).Stored?
    ensures var r := ParseDomainRoute(ToLower(domainField));
      ParseDomainRoute(CanonicalEntry(domainField, pathField).entry)
      == Parsed(r.host, if NamesNoPath(TrimSpace(pathField)) then r.path else NormalizePath(TrimSpace(pathField)))
  {
    TrimBeforeParse(ToLower(domainField));
    var r := ParseDomainRoute(ToLower(domainField));
    ParsedShape(ToLower(domainField));
    LastHostChar(r.host);
    var np := NormalizePath(TrimSpace(pathField));
    NormalizeIsNormal(TrimSpace(pathField));
    NormalTrimmed(r.path);
    var stored := EntryFor(r, TrimSpace(pathField));
    assert CanonicalEntry(domainField, pathField) == Stored(stored);
    NormalEntryParses(r.host, r.path);
    NormalEntryParses(r.host, np);
  }

  lemma TwoLabels(first: string, top: string)
    requires Label(first) && TopLevel(top) && |first| + |top| < 253 && '.' !in first && '.' !in top
    ensures ValidDomain(first + ['.'] + top)
  {
    hide Label, TopLevel, Split;
    SplitCons(first, '.', top);
    SplitNone(top, '.');
    assert Split(first + ['.'] + top, '.') == [first, top];
  }

  lemma ShortDomain()
    ensures ValidDomain("b.co") && NoUpper("b.co")
  {
    hide ValidDomain, Split;
    TwoLabels("b", "co");
    assert "b.co" == "b" + ['.'] + "co";
  }

  /** The path of `b.co/A`, with the path field left empty, is stored in lower case. */
  lemma TypedCaseIsLost()
    ensures IntendedPath("b.co/A", "") == "/A/*"
    ensures CanonicalEntry("b.co/A", "") == Stored("b.co/a/*")
  {
    hide ValidDomain, ParseDomainRoute;
    ShortDomain();
    assert "b.co/A" == "b.co" + "/A";
    ParseOfHostAndPath("b.co", "/A");
    assert Trimmed("/A");
    TrimSpaceFixed("/A");
    assert NormalizePath("/A") == "/A/*";
    ParseLower("b.co/A");
    assert ToLower("/A/*") == "/a/*";
    var low := ToLower("b.co/A");
    TrimBeforeParse(low);
    assert TrimSpace(low) != "" by {
      assert Trimmed(low);
      TrimSpaceFixed(low);
    }
    assert EntryFor(Parsed("b.co", "/a/*"), "") == "b.co/a/*";
  }
}
