/** The crawl budget of a run: which page addresses it admits and when a definition's budget is acceptable. */
module CrawlPolicy {
  /** The outcome of parsing a page address; the empty address parses to four empty parts. */
  datatype PageUrl = Unparsable(raw: string) | PageUrl(scheme: string, user: bool, host: string, rest: string)

  const EMPTY_URL := PageUrl("", false, "", "")

  datatype Budget = Budget(
    maxDiscoveredPerPage: int,
    maxTasks: int,
    maxPages: int,
    maxDepth: int,
    maxDurationSeconds: int,
    maxDomains: int,
    allowedDomains: seq<string>)

  function LowerChar(c: char): char {
    if 'A' <= c <= 'Z' then ((c as int) + 32) as char else c
  }

  predicate EqualFold(a: string, b: string) {
    |a| == |b| && forall i :: 0 <= i < |a| ==> LowerChar(a[i]) == LowerChar(b[i])
  }

  /** A web address without credentials whose host is listed, letter case aside. */
  predicate Admits(b: Budget, url: PageUrl) {
    && url.PageUrl?
    && (url.scheme == "http" || url.scheme == "https")
    && url.host != ""
    && !url.user
    && exists i :: 0 <= i < |b.allowedDomains| && EqualFold(url.host, b.allowedDomains[i])
  }

  /** The letter case of a host does not matter, on either side. */
  lemma AdmissionIgnoresCase(b: Budget, c: Budget, url: PageUrl, host: string)
    requires url.PageUrl? && EqualFold(host, url.host) && |c.allowedDomains| == |b.allowedDomains|
    requires forall i :: 0 <= i < |b.allowedDomains| ==> EqualFold(c.allowedDomains[i], b.allowedDomains[i])
    ensures Admits(b, url) <==> Admits(c, url.(host := host))
  {
    assert forall i :: 0 <= i < |b.allowedDomains| ==>
             (EqualFold(url.host, b.allowedDomains[i]) <==> EqualFold(host, c.allowedDomains[i]));
  }

  method Allows(b: Budget, url: PageUrl) returns (ok: bool)
    ensures ok <==> Admits(b, url)
  {
    if url.Unparsable? || (url.scheme != "http" && url.scheme != "https") || url.host == "" || url.user {
      return false;
    }
    for i := 0 to |b.allowedDomains|
      invariant forall j :: 0 <= j < i ==> !EqualFold(url.host, b.allowedDomains[j])
    {
      if EqualFold(url.host, b.allowedDomains[i]) {
        return true;
      }
    }
    return false;
  }

  predicate InRange(b: Budget) {
    && 1 <= b.maxDiscoveredPerPage <= 1000
    && 1 <= b.maxTasks <= 10000
    && 1 <= b.maxPages <= 10000
    && 1 <= b.maxDepth <= 1000
    && 1 <= b.maxDurationSeconds <= 86400
    && 1 <= b.maxDomains <= 32
  }

  /** The six limits in the order of the definition, and how far each may go. */
  lemma EachLimitHasItsRange(b: Budget)
    ensures var limits := [b.maxDiscoveredPerPage, b.maxTasks, b.maxPages, b.maxDepth, b.maxDurationSeconds,
                           b.maxDomains];
            InRange(b) <==> forall i :: 0 <= i < 6 ==> 1 <= limits[i] <= [1000, 10000, 10000, 1000, 86400, 32][i]
  {
    var limits := [b.maxDiscoveredPerPage, b.maxTasks, b.maxPages, b.maxDepth, b.maxDurationSeconds, b.maxDomains];
    if forall i :: 0 <= i < 6 ==> 1 <= limits[i] <= [1000, 10000, 10000, 1000, 86400, 32][i] {
      assert 1 <= limits[0] <= 1000 && 1 <= limits[1] <= 10000 && 1 <= limits[2] <= 10000;
      assert 1 <= limits[3] <= 1000 && 1 <= limits[4] <= 86400 && 1 <= limits[5] <= 32;
    }
  }

  function Lowered(s: string): string {
    seq(|s|, i requires 0 <= i < |s| => LowerChar(s[i]))
  }

  /** No slash, wildcard or space. */
  predicate Plain(host: string) {
    forall i :: 0 <= i < |host| ==> host[i] !in {'/', '*', ' ', '\t', '\n'}
  }

  /**
   A bare lowercase hostname; `parses` says that an address made of the string has it as hostname and nothing else.
   */
  predicate Exact(host: string, parses: string -> bool) {
    parses(host) && host == Lowered(host) && Plain(host)
  }

  /** What publication demands of a budget. */
  ghost predicate Acceptable(b: Budget, entry: PageUrl, parses: string -> bool) {
    && InRange(b)
    && 1 <= |b.allowedDomains| <= 32
    && (forall i :: 0 <= i < |b.allowedDomains| ==> Exact(b.allowedDomains[i], parses))
    && (forall i, j :: 0 <= i < j < |b.allowedDomains| ==> b.allowedDomains[i] != b.allowedDomains[j])
    && Admits(b, entry)
  }

  method Validate(b: Budget, entry: PageUrl, parses: string -> bool) returns (ok: bool)
    ensures ok <==> Acceptable(b, entry, parses)
  {
    var fields := [
      (b.maxDiscoveredPerPage, 1000), (b.maxTasks, 10000), (b.maxPages, 10000),
      (b.maxDepth, 1000), (b.maxDurationSeconds, 86400), (b.maxDomains, 32)];
    for i := 0 to |fields|
      invariant forall j :: 0 <= j < i ==> 1 <= fields[j].0 <= fields[j].1
    {
      if fields[i].0 < 1 || fields[i].0 > fields[i].1 {
        assert !InRange(b);
        return false;
      }
    }
    assert InRange(b) by {
      assert fields[0] == (b.maxDiscoveredPerPage, 1000) && fields[1] == (b.maxTasks, 10000);
      assert fields[2] == (b.maxPages, 10000) && fields[3] == (b.maxDepth, 1000);
      assert fields[4] == (b.maxDurationSeconds, 86400) && fields[5] == (b.maxDomains, 32);
    }
    if |b.allowedDomains| == 0 || |b.allowedDomains| > 32 {
      return false;
    }
    var seen: set<string> := {};
    for i := 0 to |b.allowedDomains|
      invariant seen == set j | 0 <= j < i :: b.allowedDomains[j]
      invariant forall j :: 0 <= j < i ==> Exact(b.allowedDomains[j], parses)
      invariant forall j, k :: 0 <= j < k < i ==> b.allowedDomains[j] != b.allowedDomains[k]
    {
      var host := b.allowedDomains[i];
      if !Exact(host, parses) || host in seen {
        return false;
      }
      seen := seen + {host};
    }
    ok := Allows(b, entry);
  }

  /** The budget of a definition that states none: its entry host only. */
  function Defaults(entry: PageUrl): Budget {
    Budget(100, 1000, 500, 100, 1800, 1,
           if entry.PageUrl? && entry.host != "" then [Lowered(entry.host)] else [])
  }

  /**
   The budget of a definition that states none is acceptable exactly if the entry is a web page with a bare
   hostname.
   */
  lemma DefaultsAreAcceptable(entry: PageUrl, parses: string -> bool)
    ensures Acceptable(Defaults(entry), entry, parses) <==>
              && entry.PageUrl? && (entry.scheme == "http" || entry.scheme == "https") && entry.host != ""
              && !entry.user
              && parses(Lowered(entry.host)) && Plain(entry.host)
  {
    if entry.PageUrl? && entry.host != "" {
      var host := Defaults(entry).allowedDomains[0];
      assert EqualFold(entry.host, host);
      forall i | 0 <= i < |host| ensures LowerChar(host[i]) == host[i] && host[i] == LowerChar(entry.host[i]) {
        LoweringOnce(entry.host[i]);
      }
      assert host == Lowered(host);
      assert Plain(host) <==> Plain(entry.host);
    }
  }

  lemma LoweringOnce(c: char)
    ensures LowerChar(LowerChar(c)) == LowerChar(c)
  {
  }
}
