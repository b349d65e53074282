/** The external-link policy: which URLs the reader hands to the desktop. A
    link opens externally when it parses, its scheme is on the allowed list and
    its host contains none of the blocked domains. The blocked-domain list is
    maintained in place, normalised (lower case, trimmed) and free of
    case-insensitive duplicates. */
module Links {
  import opened Text

  /** What the policy sees of a QUrl: whether it parsed, its scheme and its
      host (empty for a URL without an authority, such as `mailto:`). */
  datatype Url = Url(valid: bool, scheme: string, host: string)

  /** The signals openExternalLink emits. */
  datatype LinkEvent = LinkOpened(url: Url) | LinkBlocked(url: Url, reason: string)

  /** QStringList::contains(s, Qt::CaseInsensitive) compares whole strings
      case-insensitively. */
  predicate EqualsCI(a: string, b: string) {
    ToLower(a) == ToLower(b)
  }

  predicate ContainsEntryCI(list: seq<string>, s: string) {
    exists i :: 0 <= i < |list| && EqualsCI(list[i], s)
  }

  /** The form addBlockedDomain and removeBlockedDomain store and remove. */
  function Normalize(domain: string): (r: string)
    ensures IsLower(r)
  {
    LowerTrimCommute(domain);
    Trim(ToLower(domain))
  }

  /** The host matches a blocked entry. */
  predicate Blocks(host: string, blocked: seq<string>) {
    exists i :: 0 <= i < |blocked| && ContainsCI(ToLower(host), blocked[i])
  }

  /** The decision of shouldOpenExternally, as a reference. */
  predicate Opens(allowed: seq<string>, blocked: seq<string>, url: Url) {
    url.valid && ToLower(url.scheme) in allowed && !Blocks(url.host, blocked)
  }

  /** QStringList::removeAll: every element equal to `x` goes, the rest keep
      their order. */
  function RemoveAll(list: seq<string>, x: string): (r: seq<string>)
    ensures x !in r
    ensures forall y :: y in r <==> y in list && y != x
    ensures |r| <= |list|
    ensures x !in list ==> r == list
  {
    if list == [] then []
    else if list[0] == x then RemoveAll(list[1..], x)
    else [list[0]] + RemoveAll(list[1..], x)
  }

  /** No two entries are equal up to case. */
  predicate DistinctCI(list: seq<string>) {
    forall i, j :: 0 <= i < j < |list| ==> !EqualsCI(list[i], list[j])
  }

  /** Removing entries keeps a list free of duplicates. */
  lemma {:induction false} RemoveAllDistinct(list: seq<string>, x: string)
    requires DistinctCI(list)
    ensures DistinctCI(RemoveAll(list, x))
  {
    if list != [] {
      assert DistinctCI(list[1..]) by {
        forall i, j | 0 <= i < j < |list[1..]| ensures !EqualsCI(list[1..][i], list[1..][j]) {
          assert list[1..][i] == list[i + 1] && list[1..][j] == list[j + 1];
        }
      }
      RemoveAllDistinct(list[1..], x);
      if list[0] != x {
        var rest := RemoveAll(list[1..], x);
        forall j | 0 <= j < |rest| ensures !EqualsCI(list[0], rest[j]) {
          assert rest[j] in list[1..];
          var k :| 0 <= k < |list[1..]| && list[1..][k] == rest[j];
          assert list[k + 1] == rest[j];
        }
        var r := [list[0]] + rest;
        forall i, j | 0 <= i < j < |r| ensures !EqualsCI(r[i], r[j]) {
          if i > 0 {
            assert r[i] == rest[i - 1] && r[j] == rest[j - 1];
          } else {
            assert r[j] == rest[j - 1];
          }
        }
      }
    }
  }

  /** An empty entry occurs in every host, so it blocks every link. */
  lemma EmptyEntryBlocksAll(host: string, blocked: seq<string>)
    requires "" in blocked
    ensures Blocks(host, blocked)
  {
    var i :| 0 <= i < |blocked| && blocked[i] == "";
    assert MatchAt(ToLower(ToLower(host)), ToLower(""), 0);
  }

  /** A domain made only of whitespace passes the emptiness check, normalises
      to the empty entry, and so blocks every link once added. */
  lemma BlankDomainNormalizesEmpty(domain: string)
    requires AllSpace(domain)
    ensures Normalize(domain) == ""
  {
    ToLowerKeepsSpace(domain);
    TrimIsInfix(ToLower(domain));
  }

  /** Once a domain has been added (some normalised entry equals it up to
      case), every host containing the normalised domain, in any case, is
      blocked. */
  lemma AddedDomainBlocks(blocked: seq<string>, domain: string, host: string)
    requires forall i :: 0 <= i < |blocked| ==> IsLower(blocked[i])
    requires ContainsEntryCI(blocked, Normalize(domain))
    requires Occurs(ToLower(host), Normalize(domain))
    ensures Blocks(host, blocked)
  {
    var i :| 0 <= i < |blocked| && EqualsCI(blocked[i], Normalize(domain));
    assert blocked[i] == Normalize(domain);
    ToLowerIdempotent(host);
    LowerFixed(blocked[i]);
  }

  /** Appending a lower-case entry that no entry equals up to case keeps
      the list lower case and free of duplicates, and the entry is then on it. */
  lemma AppendKeepsNormalized(list: seq<string>, d: string)
    requires DistinctCI(list) && forall i :: 0 <= i < |list| ==> IsLower(list[i])
    requires IsLower(d) && !ContainsEntryCI(list, d)
    ensures DistinctCI(list + [d]) && forall i :: 0 <= i < |list + [d]| ==> IsLower((list + [d])[i])
    ensures ContainsEntryCI(list + [d], d)
  {
    var r := list + [d];
    forall i, j | 0 <= i < j < |r| ensures !EqualsCI(r[i], r[j]) {
      if j < |list| {
        assert r[i] == list[i] && r[j] == list[j];
      } else {
        assert r[i] == list[i] && r[j] == d;
      }
    }
    assert r[|list|] == d && EqualsCI(d, d);
  }

  class LinkService {
    var allowedSchemes: seq<string>
    var blockedDomains: seq<string>

    /** Every blocked entry is normalised and none repeats up to case. */
    ghost predicate Valid()
      reads this
    {
      DistinctCI(blockedDomains) && forall i :: 0 <= i < |blockedDomains| ==> IsLower(blockedDomains[i])
    }

    /** The default policy: http, https, mailto and ftp, nothing blocked. */
    constructor ()
      ensures allowedSchemes == ["http", "https", "mailto", "ftp"] && blockedDomains == []
      ensures Valid()
    {
      allowedSchemes := ["http", "https", "mailto", "ftp"];
      blockedDomains := [];
    }

    /** shouldOpenExternally: the scheme check, then a scan of the blocked
        list that stops at the first entry the host contains. */
    method ShouldOpenExternally(url: Url) returns (ok: bool)
      ensures ok == Opens(allowedSchemes, blockedDomains, url)
    {
      if !url.valid {
        return false;
      }
      var scheme := ToLower(url.scheme);
      if scheme !in allowedSchemes {
        return false;
      }
      var host := ToLower(url.host);
      var i := 0;
      while i < |blockedDomains|
        invariant 0 <= i <= |blockedDomains|
        invariant forall j :: 0 <= j < i ==> !ContainsCI(host, blockedDomains[j])
      {
        if ContainsCI(host, blockedDomains[i]) {
          return false;
        }
        i := i + 1;
      }
      return true;
    }

    /** addBlockedDomain: empty input is ignored; otherwise the normalised
        domain is appended unless an entry equal to it up to case is present. */
    method AddBlockedDomain(domain: string)
      requires Valid()
      modifies this`blockedDomains
      ensures Valid()
      ensures domain == [] ==> blockedDomains == old(blockedDomains)
      ensures domain != [] && ContainsEntryCI(old(blockedDomains), Normalize(domain)) ==>
        blockedDomains == old(blockedDomains)
      ensures domain != [] && !ContainsEntryCI(old(blockedDomains), Normalize(domain)) ==>
        blockedDomains == old(blockedDomains) + [Normalize(domain)]
      ensures domain != [] ==> ContainsEntryCI(blockedDomains, Normalize(domain))
    {
      if domain == [] {
        return;
      }
      var normalizedDomain := Normalize(domain);
      if !ContainsEntryCI(blockedDomains, normalizedDomain) {
        AppendKeepsNormalized(blockedDomains, normalizedDomain);
        blockedDomains := blockedDomains + [normalizedDomain];
      }
    }

    /** removeBlockedDomain: empty input is ignored; otherwise every entry
        equal (exactly) to the normalised domain is removed. */
    method RemoveBlockedDomain(domain: string)
      requires Valid()
      modifies this`blockedDomains
      ensures Valid()
      ensures domain == [] ==> blockedDomains == old(blockedDomains)
      ensures domain != [] ==> blockedDomains == RemoveAll(old(blockedDomains), Normalize(domain))
    {
      if domain == [] {
        return;
      }
      var normalizedDomain := Normalize(domain);
      RemoveAllDistinct(blockedDomains, normalizedDomain);
      blockedDomains := RemoveAll(blockedDomains, normalizedDomain);
      forall i | 0 <= i < |blockedDomains| ensures IsLower(blockedDomains[i]) {
        assert blockedDomains[i] in old(blockedDomains);
      }
    }

    /** openExternalLink, with the desktop's answer to openUrl as a parameter:
        an invalid URL and a URL the policy rejects are blocked with their
        reasons, and only a URL the policy accepts is ever opened. */
    method OpenExternalLink(url: Url, desktopOpens: bool) returns (event: LinkEvent)
      ensures event.url == url
      ensures !url.valid ==> event == LinkBlocked(url, "Invalid URL")
      ensures url.valid && !Opens(allowedSchemes, blockedDomains, url) ==>
        event == LinkBlocked(url, "Link scheme or domain is not allowed")
      ensures Opens(allowedSchemes, blockedDomains, url) ==>
        event == (if desktopOpens then LinkOpened(url) else LinkBlocked(url, "Failed to open link"))
      ensures event.LinkOpened? ==> Opens(allowedSchemes, blockedDomains, url)
    {
      if !url.valid {
        return LinkBlocked(url, "Invalid URL");
      }
      var ok := ShouldOpenExternally(url);
      if !ok {
        return LinkBlocked(url, "Link scheme or domain is not allowed");
      }
      if desktopOpens {
        event := LinkOpened(url);
      } else {
        event := LinkBlocked(url, "Failed to open link");
      }
    }
  }

  const DefaultSchemes: seq<string> := ["http", "https", "mailto", "ftp"]

  /** The default policy accepts the four standard schemes in any case and
      rejects the internal `cdoc` and the `file` schemes. */
  lemma DefaultSchemesDecide(url: Url)
    requires url.valid
    ensures ToLower(url.scheme) in DefaultSchemes ==> Opens(DefaultSchemes, [], url)
    ensures url.scheme == "cdoc" || url.scheme == "file" ==> !Opens(DefaultSchemes, [], url)
  {
    if url.scheme == "cdoc" {
      assert ToLower(url.scheme) == "cdoc";
    } else if url.scheme == "file" {
      assert ToLower(url.scheme) == "file";
    }
  }

}
