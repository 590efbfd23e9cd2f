/**
 * The SSRF egress filter of the forwarding proxy: `isAllowedUrl` decides, without any
 * network access, whether a caller-supplied URL may be contacted.
 *
 * URL parsing is the WHATWG `URL` class and is not modelled: the filter receives what the
 * parser produced, `None` when `new URL(...)` throws, otherwise the parsed `protocol`
 * (lower-case scheme plus ":") and the serialised `hostname`. The WHATWG parser writes
 * IPv6 hosts in brackets ("[::1]"), so the checks below that expect a bare IPv6 text
 * only fire on hostnames the parser never produces; the model keeps that behaviour.
 */
module Egress {
  import opened Wrappers
  import opened Strings

  /** The two parts of a parsed URL that the filter inspects. */
  datatype ParsedUrl = ParsedUrl(protocol: string, hostname: string)

  const AllowedProtocols: seq<string> := ["http:", "https:"]

  /** `LOCALHOST_PATTERNS`: exact hostnames that are loopback aliases. */
  const LocalhostPatterns: seq<string> := ["localhost", "127.0.0.1", "::1", "0.0.0.0"]

  /** `BLOCKED_HOSTNAMES`: exact hostnames of cloud metadata services. */
  const BlockedHostnames: seq<string> := ["metadata.google.internal", "metadata.goog", "169.254.169.254"]

  /** The prefix of the IPv4-mapped IPv6 branch. */
  const MappedPrefix: string := "::ffff:"

  // ---------------------------------------------------------------------------------
  // The regular expressions, written out character by character.
  // ---------------------------------------------------------------------------------

  /** `\d` in a regular expression without the `u` flag: an ASCII digit. */
  predicate IsDigit(c: char) { '0' <= c <= '9' }

  predicate AllDigits(s: string) {
    forall i | 0 <= i < |s| :: IsDigit(s[i])
  }

  /**
   * `s` starts with exactly `k` digits, and then either ends (when this is the last of
   * `n` groups) or continues with a dot and `n - 1` more groups.
   */
  predicate RunThen(s: string, k: nat, n: nat)
    requires 1 <= n
    decreases n, 0
  {
    k <= |s| && AllDigits(s[..k]) &&
    if n == 1 then k == |s|
    else k < |s| && s[k] == '.' && DigitRuns(s[k + 1..], n - 1)
  }

  /** `s` matches `\d{1,3}(\.\d{1,3}){n-1}` in full. */
  predicate DigitRuns(s: string, n: nat)
    decreases n, 1
  {
    1 <= n && (RunThen(s, 1, n) || RunThen(s, 2, n) || RunThen(s, 3, n))
  }

  /** The alternation `(1[6-9]|2\d|3[0-1])` on the two characters `a` and `b`. */
  predicate SecondOctet172(a: char, b: char) {
    (a == '1' && '6' <= b <= '9') || (a == '2' && IsDigit(b)) || (a == '3' && '0' <= b <= '1')
  }

  /** `new RegExp("^" + p, "i").test(h)` for a literal `p`: a case-insensitive prefix test. */
  predicate StartsWithIgnoringCase(h: string, p: string) {
    |p| <= |h| && ToLower(h[..|p|]) == ToLower(p)
  }

  /** The shapes of the entries of `BLOCKED_IP_PATTERNS`. */
  datatype IpPattern =
    | TenDot          // /^10\.\d{1,3}\.\d{1,3}\.\d{1,3}$/
    | OneSevenTwo     // /^172\.(1[6-9]|2\d|3[0-1])\.\d{1,3}\.\d{1,3}$/
    | OneNineTwo      // /^192\.168\.\d{1,3}\.\d{1,3}$/
    | LinkLocal       // /^169\.254\.\d{1,3}\.\d{1,3}$/
    | AllInterfaces   // /^0\.0\.0\.0$/
    | V6Prefix(prefix: string)  // /^\[?prefix/i

  /** `pattern.test(h)`. */
  predicate Test(pattern: IpPattern, h: string) {
    match pattern
    case TenDot => "10." <= h && DigitRuns(h[3..], 3)
    case OneSevenTwo =>
      "172." <= h && 7 <= |h| && SecondOctet172(h[4], h[5]) && h[6] == '.' && DigitRuns(h[7..], 2)
    case OneNineTwo => "192.168." <= h && DigitRuns(h[8..], 2)
    case LinkLocal => "169.254." <= h && DigitRuns(h[8..], 2)
    case AllInterfaces => h == "0.0.0.0"
    case V6Prefix(p) =>
      StartsWithIgnoringCase(h, p) || (0 < |h| && h[0] == '[' && StartsWithIgnoringCase(h[1..], p))
  }

  /** `BLOCKED_IP_PATTERNS`, in source order. */
  const BlockedIpPatterns: seq<IpPattern> := [
    TenDot, OneSevenTwo, OneNineTwo, LinkLocal, AllInterfaces,
    V6Prefix("fe80:"), V6Prefix("fc00:"), V6Prefix("fd00:"), V6Prefix("::ffff:")
  ]

  /** `patterns.some((pattern) => pattern.test(h))`. */
  predicate AnyMatches(patterns: seq<IpPattern>, h: string) {
    exists i | 0 <= i < |patterns| :: Test(patterns[i], h)
  }

  // ---------------------------------------------------------------------------------
  // isAllowedUrl
  // ---------------------------------------------------------------------------------

  /** The test applied to the text after "::ffff:": the loopback list and the four IPv4 ranges. */
  predicate MappedIpv4Blocked(ipv4Part: string) {
    || ipv4Part in LocalhostPatterns
    || Test(TenDot, ipv4Part)
    || Test(OneSevenTwo, ipv4Part)
    || Test(OneNineTwo, ipv4Part)
    || Test(LinkLocal, ipv4Part)
  }

  /** The checks `isAllowedUrl` makes once the hostname is lower-cased, as its chain of early returns. */
  predicate HostnameAllowed(hostname: string): (allowed: bool)
    ensures hostname in LocalhostPatterns || hostname in BlockedHostnames ==> !allowed
    ensures allowed ==> !AnyMatches(BlockedIpPatterns, hostname)
  {
    if hostname in LocalhostPatterns then false
    else if MappedPrefix <= hostname && MappedIpv4Blocked(hostname[|MappedPrefix|..]) then false
    else if AnyMatches(BlockedIpPatterns, hostname) then false
    else if hostname in BlockedHostnames then false
    else true
  }

  /**
   * `isAllowedUrl(urlString)` where `url` is the outcome of `new URL(urlString)`:
   * `None` stands for the parser throwing, which the `catch` turns into `false`.
   */
  function IsAllowedUrl(url: Option<ParsedUrl>): (allowed: bool)
    ensures allowed ==> url.Some? && (url.value.protocol == "http:" || url.value.protocol == "https:")
    ensures url.Some? && url.value.protocol !in AllowedProtocols ==> !allowed
  {
    match url
    case None => false
    case Some(u) =>
      if u.protocol !in AllowedProtocols then false
      else HostnameAllowed(ToLower(u.hostname))
  }

  // ---------------------------------------------------------------------------------
  // An independent description of the denied hostnames.
  // ---------------------------------------------------------------------------------

  /** One textual octet: one to three ASCII digits (no numeric bound). */
  ghost predicate IsDigitRun(g: string) {
    1 <= |g| <= 3 && AllDigits(g)
  }

  /** The groups `gs` joined with dots. */
  ghost function JoinDots(gs: seq<string>): string
    requires |gs| > 0
  {
    if |gs| == 1 then gs[0] else gs[0] + "." + JoinDots(gs[1..])
  }

  /** `s` is `n` textual octets joined with dots. */
  ghost predicate IsDottedRuns(s: string, n: nat) {
    exists gs: seq<string> ::
      && |gs| == n && n > 0
      && (forall i | 0 <= i < n :: IsDigitRun(gs[i]))
      && s == JoinDots(gs)
  }

  function DigitValue(c: char): int { c as int - '0' as int }

  /** The second octet of 172.16.0.0/12 as text: exactly two digits whose value is between 16 and 31. */
  ghost predicate Private172Octet(a: char, b: char) {
    IsDigit(a) && IsDigit(b) && 16 <= 10 * DigitValue(a) + DigitValue(b) <= 31
  }

  /** `p` or "[" followed by `p` begins `h`. */
  ghost predicate BracketPrefixed(h: string, p: string) {
    p <= h || "[" + p <= h
  }

  /**
   * The lower-case hostnames the filter denies, described as sets rather than as a chain
   * of tests: the seven exact names, the four IPv4 ranges read textually, and every
   * hostname that begins, after an optional "[", with one of the four IPv6 prefixes.
   */
  ghost predicate DeniedHostname(h: string) {
    || h in {"localhost", "127.0.0.1", "::1", "0.0.0.0",
             "metadata.google.internal", "metadata.goog", "169.254.169.254"}
    || ("10." <= h && IsDottedRuns(h[3..], 3))
    || ("172." <= h && 7 <= |h| && Private172Octet(h[4], h[5]) && h[6] == '.' && IsDottedRuns(h[7..], 2))
    || ("192.168." <= h && IsDottedRuns(h[8..], 2))
    || ("169.254." <= h && IsDottedRuns(h[8..], 2))
    || BracketPrefixed(h, "fe80:")
    || BracketPrefixed(h, "fc00:")
    || BracketPrefixed(h, "fd00:")
    || BracketPrefixed(h, "::ffff:")
  }

  // ---------------------------------------------------------------------------------
  // Lemmas
  // ---------------------------------------------------------------------------------

  /** A scan that accepts `s` splits it into `n` textual octets. */
  lemma {:induction false} DigitRunsSound(s: string, n: nat)
    requires DigitRuns(s, n)
    ensures IsDottedRuns(s, n)
  {
    var k: nat := if RunThen(s, 1, n) then 1 else if RunThen(s, 2, n) then 2 else 3;
    assert RunThen(s, k, n);
    if n == 1 {
      assert k == |s| && s[..k] == s;
      var gs := [s];
      assert |gs| == n && n > 0 && (forall i | 0 <= i < n :: IsDigitRun(gs[i])) && s == JoinDots(gs);
    } else {
      assert k < |s| && s[k] == '.' && DigitRuns(s[k + 1..], n - 1);
      DigitRunsSound(s[k + 1..], n - 1);
      var rest :| && |rest| == n - 1 && n - 1 > 0
                  && (forall i | 0 <= i < n - 1 :: IsDigitRun(rest[i]))
                  && s[k + 1..] == JoinDots(rest);
      var gs := [s[..k]] + rest;
      assert gs[0] == s[..k] && gs[1..] == rest;
      assert s == s[..k] + "." + s[k + 1..];
      assert JoinDots(gs) == s[..k] + "." + JoinDots(rest);
      assert forall i | 0 <= i < n :: IsDigitRun(gs[i]) by {
        forall i | 0 <= i < n ensures IsDigitRun(gs[i]) {
          if i > 0 {
            assert gs[i] == rest[i - 1];
          }
        }
      }
      assert |gs| == n && n > 0 && s == JoinDots(gs);
    }
  }

  /** Every text of `n` textual octets joined with dots is accepted by the scan. */
  lemma {:induction false} DigitRunsComplete(gs: seq<string>)
    requires |gs| > 0
    requires forall i | 0 <= i < |gs| :: IsDigitRun(gs[i])
    ensures DigitRuns(JoinDots(gs), |gs|)
  {
    var s := JoinDots(gs);
    var k := |gs[0]|;
    assert IsDigitRun(gs[0]);
    if |gs| == 1 {
      assert s[..k] == gs[0];
      assert RunThen(s, k, 1);
    } else {
      var rest := gs[1..];
      assert forall i | 0 <= i < |rest| :: IsDigitRun(rest[i]) by {
        forall i | 0 <= i < |rest| ensures IsDigitRun(rest[i]) {
          assert rest[i] == gs[i + 1];
        }
      }
      DigitRunsComplete(rest);
      assert s == gs[0] + "." + JoinDots(rest);
      assert s[..k] == gs[0];
      assert s[k] == '.';
      assert s[k + 1..] == JoinDots(rest);
      assert RunThen(s, k, |gs|);
    }
  }

  /** The character scan for `\d{1,3}(\.\d{1,3}){n-1}` is exactly "n textual octets joined with dots". */
  lemma DigitRunsMeaning(s: string, n: nat)
    ensures DigitRuns(s, n) <==> IsDottedRuns(s, n)
  {
    if DigitRuns(s, n) {
      DigitRunsSound(s, n);
    }
    if IsDottedRuns(s, n) {
      var gs :| && |gs| == n && n > 0
                && (forall i | 0 <= i < n :: IsDigitRun(gs[i]))
                && s == JoinDots(gs);
      DigitRunsComplete(gs);
    }
  }

  /** The regex alternation `(1[6-9]|2\d|3[0-1])` is the two-digit numbers 16 to 31. */
  lemma SecondOctet172Meaning(a: char, b: char)
    ensures SecondOctet172(a, b) <==> Private172Octet(a, b)
  {
  }

  /** On a lower-case hostname, the case-insensitive prefix `^\[?p` is a plain prefix test. */
  lemma V6PrefixMeaning(h: string, p: string)
    requires IsLowerCase(h) && IsLowerCase(p)
    ensures Test(V6Prefix(p), h) <==> BracketPrefixed(h, p)
  {
    ToLowerOfLowerCase(p);
    if |p| <= |h| {
      assert IsLowerCase(h[..|p|]);
      ToLowerOfLowerCase(h[..|p|]);
    }
    if 0 < |h| {
      assert IsLowerCase(h[1..]);
      if |p| <= |h[1..]| {
        assert IsLowerCase(h[1..][..|p|]);
        ToLowerOfLowerCase(h[1..][..|p|]);
      }
      calc {
        "[" + p <= h;
        <==> |p| + 1 <= |h| && h[..|p| + 1] == "[" + p;
        <==> |p| + 1 <= |h| && h[0] == '[' && h[1..][..|p|] == p;
      }
    }
  }

  /** `BLOCKED_IP_PATTERNS.some(...)` is the disjunction of its nine tests. */
  lemma AnyBlockedIpPattern(h: string)
    ensures AnyMatches(BlockedIpPatterns, h) <==>
      || Test(TenDot, h) || Test(OneSevenTwo, h) || Test(OneNineTwo, h) || Test(LinkLocal, h)
      || Test(AllInterfaces, h)
      || Test(V6Prefix("fe80:"), h) || Test(V6Prefix("fc00:"), h) || Test(V6Prefix("fd00:"), h)
      || Test(V6Prefix("::ffff:"), h)
  {
    var ps := BlockedIpPatterns;
    if AnyMatches(ps, h) {
      var i :| 0 <= i < |ps| && Test(ps[i], h);
      assert i == 0 || i == 1 || i == 2 || i == 3 || i == 4 || i == 5 || i == 6 || i == 7 || i == 8;
    }
    assert ps[0] == TenDot && ps[1] == OneSevenTwo && ps[2] == OneNineTwo && ps[3] == LinkLocal;
    assert ps[4] == AllInterfaces && ps[5] == V6Prefix("fe80:") && ps[6] == V6Prefix("fc00:");
    assert ps[7] == V6Prefix("fd00:") && ps[8] == V6Prefix("::ffff:");
  }

  /**
   * Whatever follows "::ffff:", the later pattern `^\[?::ffff:` matches the hostname, so
   * the unwrap branch never decides anything the pattern list would not.
   */
  lemma MappedPrefixMatchesPattern(h: string)
    requires MappedPrefix <= h
    ensures Test(V6Prefix("::ffff:"), h)
  {
    assert h[..|MappedPrefix|] == MappedPrefix;
  }

  /** The unwrap branch for "::ffff:" can be dropped: the chain denies exactly what the lists and patterns deny. */
  lemma HostnameAllowedByLists(h: string)
    ensures HostnameAllowed(h) <==>
      !(h in LocalhostPatterns || AnyMatches(BlockedIpPatterns, h) || h in BlockedHostnames)
  {
    AnyBlockedIpPattern(h);
    if MappedPrefix <= h {
      MappedPrefixMatchesPattern(h);
    }
  }

  /** The four IPv4 range patterns are the four textual ranges of `DeniedHostname`. */
  lemma Ipv4PatternsMeaning(h: string)
    ensures Test(TenDot, h) <==> "10." <= h && IsDottedRuns(h[3..], 3)
    ensures Test(OneSevenTwo, h) <==>
      "172." <= h && 7 <= |h| && Private172Octet(h[4], h[5]) && h[6] == '.' && IsDottedRuns(h[7..], 2)
    ensures Test(OneNineTwo, h) <==> "192.168." <= h && IsDottedRuns(h[8..], 2)
    ensures Test(LinkLocal, h) <==> "169.254." <= h && IsDottedRuns(h[8..], 2)
  {
    if "10." <= h {
      DigitRunsMeaning(h[3..], 3);
    }
    if "172." <= h && 7 <= |h| {
      SecondOctet172Meaning(h[4], h[5]);
      DigitRunsMeaning(h[7..], 2);
    }
    if "192.168." <= h {
      DigitRunsMeaning(h[8..], 2);
    }
    if "169.254." <= h {
      DigitRunsMeaning(h[8..], 2);
    }
  }

  /** The four IPv6 prefix patterns, on a lower-case hostname. */
  lemma Ipv6PatternsMeaning(h: string)
    requires IsLowerCase(h)
    ensures (|| Test(V6Prefix("fe80:"), h) || Test(V6Prefix("fc00:"), h)
             || Test(V6Prefix("fd00:"), h) || Test(V6Prefix("::ffff:"), h)) <==>
            (|| BracketPrefixed(h, "fe80:") || BracketPrefixed(h, "fc00:")
             || BracketPrefixed(h, "fd00:") || BracketPrefixed(h, "::ffff:"))
  {
    V6PrefixMeaning(h, "fe80:");
    V6PrefixMeaning(h, "fc00:");
    V6PrefixMeaning(h, "fd00:");
    V6PrefixMeaning(h, "::ffff:");
  }

  /** The two exact lists together with `^0\.0\.0\.0$` are the seven exact names of `DeniedHostname`. */
  lemma ExactNamesMeaning(h: string)
    ensures (h in LocalhostPatterns || Test(AllInterfaces, h) || h in BlockedHostnames) <==>
      h in {"localhost", "127.0.0.1", "::1", "0.0.0.0",
            "metadata.google.internal", "metadata.goog", "169.254.169.254"}
  {
  }

  /** The chain of tests on a lower-case hostname denies exactly the hostnames `DeniedHostname` describes. */
  lemma HostnameAllowedMeaning(h: string)
    requires IsLowerCase(h)
    ensures HostnameAllowed(h) <==> !DeniedHostname(h)
  {
    HostnameAllowedByLists(h);
    AnyBlockedIpPattern(h);
    Ipv4PatternsMeaning(h);
    Ipv6PatternsMeaning(h);
    ExactNamesMeaning(h);
  }

  /**
   * The verdict in full: a URL is allowed exactly when it parsed, its protocol is
   * "http:" or "https:", and its lower-cased hostname is not a denied hostname.
   */
  lemma IsAllowedUrlMeaning(url: Option<ParsedUrl>)
    ensures IsAllowedUrl(url) <==>
      && url.Some?
      && (url.value.protocol == "http:" || url.value.protocol == "https:")
      && !DeniedHostname(ToLower(url.value.hostname))
  {
    if url.Some? {
      ToLowerIsLowerCase(url.value.hostname);
      HostnameAllowedMeaning(ToLower(url.value.hostname));
    }
  }

  /** The verdict ignores letter case in the hostname: upper-casing it changes nothing. */
  lemma HostnameCaseInsensitive(protocol: string, hostname: string)
    ensures IsAllowedUrl(Some(ParsedUrl(protocol, ToUpper(hostname)))) ==
            IsAllowedUrl(Some(ParsedUrl(protocol, hostname)))
  {
    ToLowerOfToUpper(hostname);
  }

  /** Every hostname that starts with "::ffff:", in any letter case and with or without "[", is denied. */
  lemma MappedHostsDenied(protocol: string, hostname: string)
    requires BracketPrefixed(ToLower(hostname), MappedPrefix)
    ensures !IsAllowedUrl(Some(ParsedUrl(protocol, hostname)))
  {
    IsAllowedUrlMeaning(Some(ParsedUrl(protocol, hostname)));
  }

  /** A URL the parser rejects, or one whose protocol is neither "http:" nor "https:", is denied. */
  lemma OnlyHttpSchemes(url: Option<ParsedUrl>)
    requires url.None? || (url.value.protocol != "http:" && url.value.protocol != "https:")
    ensures !IsAllowedUrl(url)
  {
  }

  /** The exact loopback and metadata names are denied for both schemes. */
  lemma ExactNamesDenied(protocol: string, hostname: string)
    requires hostname in LocalhostPatterns || hostname in BlockedHostnames
    ensures !IsAllowedUrl(Some(ParsedUrl(protocol, hostname)))
  {
    assert IsLowerCase(hostname);
    ToLowerOfLowerCase(hostname);
  }

  /** Digits and dots contain no upper-case letter. */
  lemma DottedIsLowerCase(s: string)
    requires forall i | 0 <= i < |s| :: IsDigit(s[i]) || s[i] == '.'
    ensures ToLower(s) == s
  {
    ToLowerOfLowerCase(s);
  }

  /** Every host "10.a.b.c" with one to three digits in each of a, b, c is denied. */
  lemma TenRangeDenied(protocol: string, a: string, b: string, c: string)
    requires IsDigitRun(a) && IsDigitRun(b) && IsDigitRun(c)
    ensures !IsAllowedUrl(Some(ParsedUrl(protocol, "10." + a + "." + b + "." + c)))
  {
    var h := "10." + a + "." + b + "." + c;
    var gs := [a, b, c];
    assert gs[1..] == [b, c] && [b, c][1..] == [c];
    assert JoinDots([b, c]) == b + "." + JoinDots([c]) == b + "." + c;
    assert JoinDots(gs) == a + "." + (b + "." + c);
    assert h[3..] == JoinDots(gs);
    assert forall i | 0 <= i < 3 :: IsDigitRun(gs[i]);
    DottedIsLowerCase(h);
    IsAllowedUrlMeaning(Some(ParsedUrl(protocol, h)));
  }

  /** Every host "172.xy.a.b" whose two-digit second octet xy lies between 16 and 31 is denied. */
  lemma OneSevenTwoRangeDenied(protocol: string, x: char, y: char, a: string, b: string)
    requires Private172Octet(x, y) && IsDigitRun(a) && IsDigitRun(b)
    ensures !IsAllowedUrl(Some(ParsedUrl(protocol, "172." + [x, y] + "." + a + "." + b)))
  {
    var h := "172." + [x, y] + "." + a + "." + b;
    assert DeniedHostname(h) by {
      var gs := [a, b];
      assert h[7..] == JoinDots(gs);
      assert forall i | 0 <= i < 2 :: IsDigitRun(gs[i]);
      assert h[4] == x && h[5] == y && h[6] == '.';
    }
    assert ToLower(h) == h by {
      assert IsDigit(x) && IsDigit(y);
      DottedIsLowerCase(h);
    }
    IsAllowedUrlMeaning(Some(ParsedUrl(protocol, h)));
  }

  /**
   * Every host "192.168.a.b" and every link-local host "169.254.a.b", the metadata
   * address among them, is denied.
   */
  lemma SixteenBitRangesDenied(protocol: string, prefix: string, a: string, b: string)
    requires prefix == "192.168." || prefix == "169.254."
    requires IsDigitRun(a) && IsDigitRun(b)
    ensures !IsAllowedUrl(Some(ParsedUrl(protocol, prefix + a + "." + b)))
  {
    var h := prefix + a + "." + b;
    var gs := [a, b];
    assert |prefix| == 8 && h[..8] == prefix;
    assert h[8..] == JoinDots(gs);
    assert forall i | 0 <= i < 2 :: IsDigitRun(gs[i]);
    assert IsDottedRuns(h[8..], 2);
    assert prefix <= h;
    DottedIsLowerCase(h);
    IsAllowedUrlMeaning(Some(ParsedUrl(protocol, h)));
  }

  /** The ranges are textual: "10.999.0.1" is not an IPv4 address, yet it is denied. */
  lemma TextualRangeDenied()
    ensures !IsAllowedUrl(Some(ParsedUrl("http:", "10.999.0.1")))
  {
    TenRangeDenied("http:", "999", "0", "1");
    assert "10." + "999" + "." + "0" + "." + "1" == "10.999.0.1";
  }

  /** The embedded-IPv4 example: "::ffff:127.0.0.1" is denied. */
  lemma MappedLoopbackDenied()
    ensures !IsAllowedUrl(Some(ParsedUrl("http:", "::ffff:127.0.0.1")))
  {
    assert ToLower("::ffff:127.0.0.1") == "::ffff:127.0.0.1" by {
      assert IsLowerCase("::ffff:127.0.0.1");
      ToLowerOfLowerCase("::ffff:127.0.0.1");
    }
    assert MappedPrefix <= "::ffff:127.0.0.1";
    MappedHostsDenied("http:", "::ffff:127.0.0.1");
  }

  /** No entry of the deny lists covers "example.com". */
  lemma ExampleComNotDenied()
    ensures !DeniedHostname("example.com")
  {
    var h := "example.com";
    assert h[0] == 'e' && h[1] == 'x';
  }

  /** An ordinary public hostname passes every check. */
  lemma PublicHostAllowed()
    ensures IsAllowedUrl(Some(ParsedUrl("https:", "example.com")))
  {
    assert ToLower("example.com") == "example.com" by {
      assert IsLowerCase("example.com");
      ToLowerOfLowerCase("example.com");
    }
    ExampleComNotDenied();
    IsAllowedUrlMeaning(Some(ParsedUrl("https:", "example.com")));
  }

  /** No entry of the deny lists covers "[::1]": the list names only the bare "::1". */
  lemma BracketedLoopbackNotDenied()
    ensures !DeniedHostname("[::1]")
  {
    var h := "[::1]";
    assert h[0] == '[' && h[1] == ':' && h[2] == ':' && h[3] == '1';
  }

  /**
   * The bracketed IPv6 loopback "[::1]", the form the WHATWG parser produces for
   * "http://[::1]/", matches no entry and is allowed.
   */
  lemma BracketedLoopbackAllowed()
    ensures IsAllowedUrl(Some(ParsedUrl("http:", "[::1]")))
  {
    assert ToLower("[::1]") == "[::1]" by {
      assert IsLowerCase("[::1]");
      ToLowerOfLowerCase("[::1]");
    }
    BracketedLoopbackNotDenied();
    IsAllowedUrlMeaning(Some(ParsedUrl("http:", "[::1]")));
  }

  /** "[fd12::1]" lies in fd00::/8 but does not begin with the text "fd00:"; no entry covers it. */
  lemma UniqueLocalExampleNotDenied()
    ensures !DeniedHostname("[fd12::1]")
  {
    var h := "[fd12::1]";
    assert h[0] == '[' && h[1] == 'f' && h[2] == 'd' && h[3] == '1' && h[4] == '2';
  }

  /**
   * The IPv6 patterns are text prefixes, not address ranges: "[fd12::1]", a unique-local
   * address, is allowed.
   */
  lemma UniqueLocalExampleAllowed()
    ensures IsAllowedUrl(Some(ParsedUrl("http:", "[fd12::1]")))
  {
    assert ToLower("[fd12::1]") == "[fd12::1]" by {
      assert IsLowerCase("[fd12::1]");
      ToLowerOfLowerCase("[fd12::1]");
    }
    UniqueLocalExampleNotDenied();
    IsAllowedUrlMeaning(Some(ParsedUrl("http:", "[fd12::1]")));
  }
}
