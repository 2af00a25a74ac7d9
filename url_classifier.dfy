/**
 * The URL tokenizer of the URL classifier: the Wayback Machine prefix is
 * removed, the domain and the directory part of the path are cut out with
 * `find`/`rfind` and slicing, the path is split on '/', the domain is
 * appended, and the tokens are joined with " U_" for the fastText model.
 * The fastText model itself is a parameter.
 */
module UrlClassifier {
  import opened PyStr
  import Confidence

  const WaybackPrefix: string := "https://web.archive.org/web/"

  /**
   * `remove_wayback_prefix`: without the prefix the URL is unchanged;
   * with it, the prefix and everything through the next '/' (the
   * timestamp) go, and with no further '/' the whole remainder is kept.
   */
  function RemoveWaybackPrefix(url: string): (r: string)
    ensures !StartsWith(url, WaybackPrefix) ==> r == url
    ensures StartsWith(url, WaybackPrefix) ==>
      var rest := url[|WaybackPrefix|..];
      if '/' in rest then
        |r| < |rest| && r == rest[|rest| - |r|..]
        && rest[|rest| - |r| - 1] == '/' && '/' !in rest[..|rest| - |r| - 1]
      else r == rest
  {
    if StartsWith(url, WaybackPrefix) then
      var rest := url[|WaybackPrefix|..];
      FindChar(rest, '/');
      Slice(rest, Find(rest, "/") + 1, |rest|)
    else url
  }

  /** Wrapping a URL in a Wayback address and removing the prefix gives it back. */
  lemma WaybackRoundTrip(timestamp: string, target: string)
    requires '/' !in timestamp
    ensures RemoveWaybackPrefix(WaybackPrefix + timestamp + "/" + target) == target
  {
    var url := WaybackPrefix + timestamp + "/" + target;
    assert StartsWith(url, WaybackPrefix) by { assert url[..|WaybackPrefix|] == WaybackPrefix; }
    var rest := url[|WaybackPrefix|..];
    assert rest == timestamp + "/" + target;
    assert rest[..|timestamp|] == timestamp;
    FindCharAt(rest, '/', |timestamp|);
    assert rest[|timestamp| + 1..] == target;
  }

  /** A prefix followed by no '/' at all: the remainder is returned whole. */
  lemma WaybackWithoutSlash(rest: string)
    requires '/' !in rest
    ensures RemoveWaybackPrefix(WaybackPrefix + rest) == rest
  {
    var url := WaybackPrefix + rest;
    assert url[..|WaybackPrefix|] == WaybackPrefix;
    assert url[|WaybackPrefix|..] == rest;
  }

  /** `remove_prefix`. */
  function RemovePrefix(url: string, prefix: string): (r: string)
    ensures StartsWith(url, prefix) ==> prefix + r == url
    ensures !StartsWith(url, prefix) ==> r == url
  {
    if StartsWith(url, prefix) then url[|prefix|..] else url
  }

  /** Removing a prefix that was just added gives the rest back. */
  lemma RemovePrefixAdded(prefix: string, rest: string)
    ensures RemovePrefix(prefix + rest, prefix) == rest
  {
    assert (prefix + rest)[..|prefix|] == prefix;
  }

  /** The three scheme removals of `extract_domain`, one after the other. */
  function StripSchemes(url: string): (p: string)
    ensures |p| <= |url| && p == url[|url| - |p|..]
  {
    RemovePrefix(RemovePrefix(RemovePrefix(url, "http://"), "https://"), "ftp://")
  }

  /** The host part: up to the first '/', or all but the last character when there is none. */
  function HostPart(p: string): (h: string)
    ensures '/' in p ==> |h| < |p| && h == p[..|h|] && p[|h|] == '/' && '/' !in h
    ensures '/' !in p && p != [] ==> h == p[..|p| - 1]
    ensures p == [] ==> h == []
  {
    FindChar(p, '/');
    Slice(p, 0, Find(p, "/"))
  }

  /** A port is cut off at a ':' found at index 2 or later; a ':' at index 0 or 1 is kept. */
  function DropPort(h: string): (d: string)
    ensures '/' !in h ==> '/' !in d
    ensures |d| <= |h| && d == h[..|d|]
    ensures ':' !in h ==> d == h
    ensures d == h || (2 <= |d| < |h| && h[|d|] == ':' && ':' !in d)
    ensures ':' in d ==> d == h && (d[0] == ':' || d[1] == ':')
  {
    FindChar(h, ':');
    var colon := Find(h, ":");
    if colon > 1 then h[..colon] else h
  }

  /**
   * `extract_domain`: the host of the scheme-stripped URL, with a port cut
   * off at a ':' found at index 2 or later; a ':' at index 0 or 1 is kept.
   */
  function ExtractDomain(url: string): (d: string)
    ensures '/' !in d
  {
    DomainOf(StripSchemes(url))
  }

  /** The domain of a scheme-stripped URL. */
  function DomainOf(p: string): (d: string)
    ensures '/' !in d
    ensures |d| <= |p| && d == p[..|d|]
    ensures var h := HostPart(p);
      && (':' !in h ==> d == h)
      && (d == h || (2 <= |d| < |h| && h[|d|] == ':' && ':' !in d))
      && (':' in d ==> d == h && (d[0] == ':' || d[1] == ':'))
  {
    var h := HostPart(p);
    var d := DropPort(h);
    PrefixOfPrefix(p, h, d);
    d
  }

  /** A prefix of a prefix is a prefix. */
  lemma PrefixOfPrefix(p: string, h: string, d: string)
    requires |h| <= |p| && h == p[..|h|]
    requires |d| <= |h| && d == h[..|d|]
    ensures |d| <= |p| && d == p[..|d|]
  {
  }

  /** Schemes are `name://` with a name free of ':' and '/'. */
  lemma NotSchemePrefix(host: string, rest: string, name: string)
    requires ':' !in host && '/' !in host && ':' !in name && '/' !in name
    requires rest != [] && rest[0] == '/'
    ensures !StartsWith(host + rest, name + "://")
  {
    var s, prefix := host + rest, name + "://";
    var n := |name|;
    if |prefix| <= |s| {
      if n < |host| {
        assert s[..|prefix|][n] != prefix[n];
      } else if n == |host| {
        assert s[..|prefix|][n] == '/';
      } else {
        assert prefix[|host|] == name[|host|];
        assert s[..|prefix|][|host|] != prefix[|host|];
      }
    }
  }

  predicate IsScheme(scheme: string) {
    scheme == "http://" || scheme == "https://" || scheme == "ftp://"
  }

  /** The scheme of an ordinary URL is removed and nothing after it. */
  lemma StripSchemesOfUrl(scheme: string, host: string, rest: string)
    requires IsScheme(scheme)
    requires ':' !in host && '/' !in host
    requires rest != [] && rest[0] == '/'
    ensures StripSchemes(scheme + host + rest) == host + rest
  {
    var hr := host + rest;
    assert scheme + host + rest == scheme + hr;
    assert !StartsWith(hr, "http://") && !StartsWith(hr, "https://") && !StartsWith(hr, "ftp://") by {
      NotSchemePrefix(host, rest, "http");
      NotSchemePrefix(host, rest, "https");
      NotSchemePrefix(host, rest, "ftp");
      assert "http" + "://" == "http://" && "https" + "://" == "https://" && "ftp" + "://" == "ftp://";
    }
    StripSchemesAfter(scheme, hr);
  }

  /** A scheme is removed from the front of anything that does not itself begin with a scheme. */
  lemma StripSchemesAfter(scheme: string, s: string)
    requires IsScheme(scheme)
    requires !StartsWith(s, "http://") && !StartsWith(s, "https://") && !StartsWith(s, "ftp://")
    ensures StripSchemes(scheme + s) == s
  {
    RemovePrefixAdded(scheme, s);
    if scheme == "https://" {
      var u := scheme + s;
      assert u[4] == 's';
      assert !StartsWith(u, "http://");
    } else if scheme == "ftp://" {
      var u := scheme + s;
      assert u[0] == 'f';
      assert !StartsWith(u, "http://");
      assert !StartsWith(u, "https://");
    }
  }

  /**
   * Stacked schemes in the order the removals run both go: "http://https://x"
   * becomes x (less a further "ftp://").
   */
  lemma StripStackedSchemes(x: string)
    ensures StripSchemes("http://" + "https://" + x) == RemovePrefix(x, "ftp://")
    ensures !StartsWith(x, "ftp://") ==> StripSchemes("http://" + "https://" + x) == x
  {
    assert "http://" + "https://" + x == "http://" + ("https://" + x);
    RemovePrefixAdded("http://", "https://" + x);
    RemovePrefixAdded("https://", x);
  }

  /** In the other order only the outer scheme goes: "https://http://x" keeps "http://". */
  lemma StripReversedSchemes(x: string)
    ensures StripSchemes("https://" + "http://" + x) == "http://" + x
  {
    var u := "https://" + "http://" + x;
    assert u == "https://" + ("http://" + x);
    assert u[4] == 's';
    RemovePrefixAdded("https://", "http://" + x);
    assert ("http://" + x)[0] == 'h';
  }

  /** A host followed by ":port" with a port that does not begin with '/' is not a scheme either. */
  lemma NotSchemePrefixPort(host: string, rest: string, name: string)
    requires ':' !in host && '/' !in host && ':' !in name && '/' !in name
    requires |rest| >= 2 && rest[0] == ':' && rest[1] != '/'
    ensures !StartsWith(host + rest, name + "://")
  {
    var s, prefix := host + rest, name + "://";
    var n := |name|;
    if |prefix| <= |s| {
      if n < |host| {
        assert s[..|prefix|][n] != prefix[n];
      } else if n == |host| {
        assert s[..|prefix|][n + 1] != prefix[n + 1];
      } else {
        assert prefix[|host|] == name[|host|];
        assert s[..|prefix|][|host|] != prefix[|host|];
      }
    }
  }

  /** The domain of an ordinary URL is its host. */
  lemma DomainOfUrl(scheme: string, host: string, rest: string)
    requires IsScheme(scheme)
    requires ':' !in host && '/' !in host
    requires rest != [] && rest[0] == '/'
    ensures ExtractDomain(scheme + host + rest) == host
  {
    StripSchemesOfUrl(scheme, host, rest);
    var p := host + rest;
    assert p[..|host|] == host;
    FindCharAt(p, '/', |host|);
  }

  /** A host with no '/' after it loses its last character. */
  lemma DomainWithoutSlash(scheme: string, host: string)
    requires IsScheme(scheme)
    requires ':' !in host && '/' !in host && host != []
    ensures ExtractDomain(scheme + host) == host[..|host| - 1]
  {
    var u := scheme + host;
    RemovePrefixAdded(scheme, host);
    if scheme == "http://" {
      assert !StartsWith(host, "https://") by { assert "https://"[6] == '/'; if |host| >= 8 { assert host[6] != '/'; } }
      assert !StartsWith(host, "ftp://") by { assert "ftp://"[4] == '/'; if |host| >= 6 { assert host[4] != '/'; } }
    } else if scheme == "https://" {
      assert u[4] == 's';
      assert !StartsWith(host, "ftp://") by { assert "ftp://"[4] == '/'; if |host| >= 6 { assert host[4] != '/'; } }
    } else {
      assert u[0] == 'f';
      assert !StartsWith(u, "http://");
      assert !StartsWith(u, "https://");
    }
    assert StripSchemes(u) == host;
  }

  /**
   * The part of the URL after the first occurrence of the domain, with a
   * leading ":port/" skipped.
   */
  function AfterDomain(url: string, d: string): (rest: string)
    ensures |rest| <= |url|
  {
    var tail := Slice(url, Find(url, d) + |d|, |url|);
    FindChar(tail, ':');
    if Find(tail, ":") == 0 then Slice(tail, Find(tail, "/") + 1, |tail|) else tail
  }

  /** Where `extract_uri` cuts: at the last '/', or before the last character when there is none. */
  function DirectoryEnd(rest: string): (n: nat)
    ensures n <= |rest|
    ensures '/' in rest ==> n < |rest| && rest[n] == '/' && '/' !in rest[n + 1..]
    ensures '/' !in rest && rest != [] ==> n == |rest| - 1
  {
    RFindChar(rest, '/');
    Clip(RFind(rest, "/"), |rest|)
  }

  /** The directory part of what follows the domain, cut before the first '?'. */
  function DirectoryPart(rest: string): (uri: string)
    ensures '?' !in uri
    ensures var n := DirectoryEnd(rest);
      |uri| <= n && uri == rest[..|uri|]
      && ('?' !in rest[..n] ==> |uri| == n)
      && ('?' in rest[..n] ==> rest[|uri|] == '?')
  {
    var dir := Slice(rest, 0, RFind(rest, "/"));
    assert dir == rest[..DirectoryEnd(rest)];
    FindChar(dir, '?');
    var q := Find(dir, "?");
    if q >= 0 then dir[..q] else dir
  }

  /**
   * `extract_uri`: the part after the domain up to its last '/' (the file
   * name is dropped), cut before the first '?'.
   */
  function ExtractUri(url: string): (uri: string)
    ensures '?' !in uri
    ensures var rest := AfterDomain(url, ExtractDomain(url)); var n := DirectoryEnd(rest);
      |uri| <= n && uri == rest[..|uri|]
      && ('?' !in rest[..n] ==> |uri| == n)
      && ('?' in rest[..n] ==> rest[|uri|] == '?')
  {
    DirectoryPart(AfterDomain(url, ExtractDomain(url)))
  }

  /**
   * `extract_url_tokens`: the path segments of the uri (some possibly
   * empty) followed by the domain.
   */
  function ExtractUrlTokens(url: string): (tokens: seq<string>)
    ensures |tokens| == Count(ExtractUri(url), '/') + 2
    ensures tokens[|tokens| - 1] == ExtractDomain(url)
    ensures Join("/", tokens[..|tokens| - 1]) == ExtractUri(url)
  {
    var uri := ExtractUri(url);
    JoinSplit(uri, '/');
    var tokens := Split(uri, '/') + [ExtractDomain(url)];
    assert tokens[..|tokens| - 1] == Split(uri, '/');
    tokens
  }

  /**
   * A host that `find` locates right after the scheme: its first character
   * does not occur in the scheme, it holds a '.', which no scheme does, or it
   * is too long to fit inside the scheme's name.
   */
  predicate FoundAfterScheme(scheme: string, host: string) {
    host != [] && (host[0] !in scheme || '.' in host || |scheme| - 2 <= |host|)
  }

  /** Such a host is first found right after the scheme. */
  lemma FindHostAfterScheme(scheme: string, host: string, rest: string)
    requires IsScheme(scheme)
    requires ':' !in host && '/' !in host && FoundAfterScheme(scheme, host)
    ensures Find(scheme + host + rest, host) == |scheme|
  {
    var url := scheme + host + rest;
    var c := |scheme| - 3;
    assert scheme[c] == ':' && scheme[c + 1] == '/' && scheme[c + 2] == '/';
    assert '.' !in scheme;
    assert OccursAt(url, host, |scheme|) by { assert url[|scheme|..|scheme| + |host|] == host; }
    forall j | 0 <= j < |scheme| ensures !OccursAt(url, host, j) {
      // the mismatch is at the host's first character, at the scheme's ':',
      // or at the host's '.'
      var k: int;
      if host[0] !in scheme || c <= j {
        k := 0;
      } else if c < j + |host| {
        k := c - j;
      } else {
        k :| 0 <= k < |host| && host[k] == '.';
      }
      assert url[j + k] == scheme[j + k];
      assert url[j..j + |host|][k] != host[k];
    }
  }

  /** After the host of an ordinary URL comes its path, beginning with '/'. */
  lemma AfterDomainOfUrl(scheme: string, host: string, rest: string)
    requires IsScheme(scheme)
    requires ':' !in host && '/' !in host && FoundAfterScheme(scheme, host)
    requires rest != [] && rest[0] == '/'
    ensures AfterDomain(scheme + host + rest, host) == rest
  {
    var url := scheme + host + rest;
    FindHostAfterScheme(scheme, host, rest);
    assert url[|scheme| + |host|..] == rest;
    AfterDomainAt(url, host, |scheme| + |host|);
  }

  /** When the domain is first found just before a '/', what follows it is the path. */
  lemma AfterDomainAt(url: string, d: string, k: int)
    requires Find(url, d) + |d| == k
    requires 0 <= k < |url| && url[k] == '/'
    ensures AfterDomain(url, d) == url[k..]
  {
    var tail := url[k..];
    FindChar(tail, ':');
  }

  /** The directory part of a path `dirs/file`. */
  lemma DirectoryOfPath(dirs: string, file: string)
    requires '/' !in file
    ensures DirectoryEnd(dirs + "/" + file) == |dirs|
  {
    var rest := dirs + "/" + file;
    assert rest[|dirs| + 1..] == file;
    RFindCharAt(rest, '/', |dirs|);
  }

  /** The directory part of a path `dirs/file` without '?' is `dirs`. */
  lemma DirectoryPartOfPath(dirs: string, file: string)
    requires '?' !in dirs && '/' !in file
    ensures DirectoryPart(dirs + "/" + file) == dirs
  {
    var rest := dirs + "/" + file;
    DirectoryOfPath(dirs, file);
    assert rest[..|dirs|] == dirs;
  }

  /** The uri is the directory part of what follows the domain, when it holds no '?'. */
  lemma UriOfPath(url: string, dirs: string, file: string)
    requires AfterDomain(url, ExtractDomain(url)) == dirs + "/" + file
    requires '?' !in dirs && '/' !in file
    ensures ExtractUri(url) == dirs
  {
    DirectoryPartOfPath(dirs, file);
  }

  /** The domain, uri and tokens of an ordinary URL `scheme host dirs/file`. */
  lemma TokensOfUrl(scheme: string, host: string, dirs: string, file: string)
    requires IsScheme(scheme)
    requires ':' !in host && '/' !in host && FoundAfterScheme(scheme, host)
    requires dirs == [] || dirs[0] == '/'
    requires '?' !in dirs && '/' !in file
    ensures var url := scheme + host + dirs + "/" + file;
      ExtractDomain(url) == host && ExtractUri(url) == dirs
      && ExtractUrlTokens(url) == Split(dirs, '/') + [host]
  {
    var rest := dirs + "/" + file;
    var url := scheme + host + dirs + "/" + file;
    assert url == scheme + host + rest;
    assert rest[0] == '/';
    assert ExtractDomain(url) == host by { DomainOfUrl(scheme, host, rest); }
    assert AfterDomain(url, host) == rest by { AfterDomainOfUrl(scheme, host, rest); }
    UriOfPath(url, dirs, file);
  }

  /**
   * A URL with a port: the domain is the host, and the ":port/" after it is
   * skipped together with the '/' that begins the path.
   */
  lemma AfterDomainWithPort(scheme: string, host: string, port: string, path: string)
    requires IsScheme(scheme)
    requires ':' !in host && '/' !in host && FoundAfterScheme(scheme, host) && 2 <= |host|
    requires port != [] && '/' !in port
    ensures var url := scheme + host + ":" + port + "/" + path;
      ExtractDomain(url) == host && AfterDomain(url, host) == path
  {
    var rest := ":" + port + "/" + path;
    var url := scheme + host + ":" + port + "/" + path;
    assert url == scheme + host + rest;
    assert rest[..|port| + 2] == ":" + port + "/";
    DomainWithPort(scheme, host, rest, port);
    assert Find(url, host) == |scheme| by { FindHostAfterScheme(scheme, host, rest); }
    assert url[|scheme| + |host|..] == rest;
    AfterDomainAtPort(url, host, |scheme| + |host|, port, path);
  }

  /** When the domain is first found just before ":port/", what follows it is the rest of the path. */
  lemma AfterDomainAtPort(url: string, d: string, k: int, port: string, path: string)
    requires Find(url, d) + |d| == k
    requires 0 <= k <= |url| && url[k..] == ":" + port + "/" + path
    requires port != [] && '/' !in port
    ensures AfterDomain(url, d) == path
  {
    var rest := ":" + port + "/" + path;
    assert Slice(url, k, |url|) == rest;
    PathAfterPort(port, path);
  }

  /** The domain of `scheme host:port...` is the host. */
  lemma DomainWithPort(scheme: string, host: string, rest: string, port: string)
    requires IsScheme(scheme)
    requires ':' !in host && '/' !in host && 2 <= |host|
    requires port != [] && '/' !in port
    requires |rest| > |port| + 1 && rest[..|port| + 2] == ":" + port + "/"
    ensures ExtractDomain(scheme + host + rest) == host
  {
    var p := host + rest;
    assert scheme + host + rest == scheme + p;
    assert StripSchemes(scheme + p) == p by {
      assert rest[0] == ':' && rest[1] == port[0];
      NotSchemePrefixPort(host, rest, "http");
      NotSchemePrefixPort(host, rest, "https");
      NotSchemePrefixPort(host, rest, "ftp");
      assert "http" + "://" == "http://" && "https" + "://" == "https://" && "ftp" + "://" == "ftp://";
      StripSchemesAfter(scheme, p);
    }
    HostWithPort(host, rest, port);
  }

  /** The host part of `host:port/...` is `host:port`, and cutting its port leaves the host. */
  lemma HostWithPort(host: string, rest: string, port: string)
    requires ':' !in host && '/' !in host && 2 <= |host|
    requires '/' !in port
    requires |rest| > |port| + 1 && rest[..|port| + 2] == ":" + port + "/"
    ensures DomainOf(host + rest) == host
  {
    var p := host + rest;
    var h := host + ":" + port;
    assert p[..|h|] == h && p[|h|] == '/';
    FindCharAt(p, '/', |h|);
    assert HostPart(p) == h;
    assert h[..|host|] == host;
    FindCharAt(h, ':', |host|);
  }

  /** ":port/path" after the domain leaves the path. */
  lemma PathAfterPort(port: string, path: string)
    requires port != [] && '/' !in port
    ensures var rest := ":" + port + "/" + path;
      Find(rest, ":") == 0 && Slice(rest, Find(rest, "/") + 1, |rest|) == path
  {
    var rest := ":" + port + "/" + path;
    FindCharAt(rest, ':', 0);
    assert rest[..|port| + 1] == ":" + port;
    FindCharAt(rest, '/', |port| + 1);
    assert rest[|port| + 2..] == path;
  }

  /**
   * The domain, uri and tokens of a URL with a port, `scheme host:port/dirs/file`:
   * unlike a URL without a port, the uri does not keep the '/' that begins the path.
   */
  lemma TokensOfPortUrl(scheme: string, host: string, port: string, dirs: string, file: string)
    requires IsScheme(scheme)
    requires ':' !in host && '/' !in host && FoundAfterScheme(scheme, host) && 2 <= |host|
    requires port != [] && '/' !in port
    requires '?' !in dirs && '/' !in file
    ensures var url := scheme + host + ":" + port + "/" + dirs + "/" + file;
      ExtractDomain(url) == host && ExtractUri(url) == dirs
      && ExtractUrlTokens(url) == Split(dirs, '/') + [host]
  {
    var path := dirs + "/" + file;
    var url := scheme + host + ":" + port + "/" + dirs + "/" + file;
    assert url == scheme + host + ":" + port + "/" + path;
    AfterDomainWithPort(scheme, host, port, path);
    UriOfPath(url, dirs, file);
  }

  /** A host beginning with a letter of its scheme is still found after the scheme. */
  lemma SchemeLetterHostExample()
    ensures ExtractDomain("https://pubs.acs.org/doi/x.pdf") == "pubs.acs.org"
    ensures ExtractUri("https://pubs.acs.org/doi/x.pdf") == "/doi"
  {
    var host, dirs := "pubs.acs.org", "/doi";
    assert "https://pubs.acs.org/doi/x.pdf" == "https://" + host + dirs + "/" + "x.pdf";
    TokensOfUrl("https://", host, dirs, "x.pdf");
  }

  /** With a port, the '/' that begins the path is skipped: the uri is "a", not "/a". */
  lemma PortExample()
    ensures ExtractDomain("http://h.org:8080/a/b.pdf") == "h.org"
    ensures ExtractUri("http://h.org:8080/a/b.pdf") == "a"
  {
    var host, port, dirs := "h.org", "8080", "a";
    assert "http://h.org:8080/a/b.pdf" == "http://" + host + ":" + port + "/" + dirs + "/" + "b.pdf";
    TokensOfPortUrl("http://", host, port, dirs, "b.pdf");
  }

  /** The example of the unit tests: the Wayback prefix and timestamp go. */
  lemma WaybackExample()
    ensures RemoveWaybackPrefix(WaybackPrefix + "20200102030405" + "/" + "http://fatcat.wiki/one.pdf")
         == "http://fatcat.wiki/one.pdf"
  {
    WaybackRoundTrip("20200102030405", "http://fatcat.wiki/one.pdf");
  }

  /** The example of the unit tests: the domain is the host and the uri is empty. */
  lemma DomainExample()
    ensures ExtractDomain("http://fatcat.wiki/one.pdf") == "fatcat.wiki"
    ensures ExtractUri("http://fatcat.wiki/one.pdf") == ""
  {
    var host := "fatcat.wiki";
    assert "http://fatcat.wiki/one.pdf" == "http://" + host + "" + "/" + "one.pdf";
    assert host[0] !in "http://";
    TokensOfUrl("http://", host, "", "one.pdf");
  }

  /** `gen_tokens`: the tokens joined with " U_". */
  function GenTokens(tokens: seq<string>): (line: string)
    ensures tokens == [] ==> line == ""
    ensures |tokens| == 1 ==> line == tokens[0]
    ensures |tokens| >= 1 ==> |line| == SumLengths(tokens) + 3 * (|tokens| - 1)
  {
    if tokens == [] then ""
    else JoinLength(" U_", tokens); Join(" U_", tokens)
  }

  /** Two tokens are separated by exactly " U_". */
  lemma GenTokensPair(a: string, b: string)
    ensures GenTokens([a, b]) == a + " U_" + b
  {
    assert [a, b][1..] == [b];
    assert Join(" U_", [a, b]) == a + " U_" + Join(" U_", [b]);
  }

  /** The line always ends with the last token. */
  lemma GenTokensEndsWithLast(tokens: seq<string>)
    requires |tokens| >= 1
    ensures var line := GenTokens(tokens); var last := tokens[|tokens| - 1];
      |last| <= |line| && line[|line| - |last|..] == last
  {
    JoinEndsWithLast(" U_", tokens);
  }

  /** The domain of a URL as the classifier sees it, after the Wayback prefix is removed. */
  function UrlDomain(url: string): (d: string)
    ensures '/' !in d
  {
    ExtractDomain(RemoveWaybackPrefix(url))
  }

  /** The line fed to the URL model. */
  function UrlLine(url: string): string
  {
    GenTokens(ExtractUrlTokens(RemoveWaybackPrefix(url)))
  }

  /** The line fed to the model ends with the URL's domain. */
  lemma UrlLineEndsWithDomain(url: string)
    ensures var line, d := UrlLine(url), UrlDomain(url);
      |d| <= |line| && line[|line| - |d|..] == d
  {
    var tokens := ExtractUrlTokens(RemoveWaybackPrefix(url));
    GenTokensEndsWithLast(tokens);
  }

  /**
   * `classify_url`: the encoded confidence of the model's first prediction
   * on the token line.
   */
  function ClassifyUrl(predict: string -> Confidence.Prediction, url: string): (e: real)
    ensures 0.0 <= e <= 1.0
  {
    var p := predict(UrlLine(url));
    Confidence.Encode(p.labelName, p.probability)
  }

  /** The score says "research" exactly when the model's label does (for a positive probability). */
  lemma ClassifyUrlDecodes(predict: string -> Confidence.Prediction, url: string)
    requires 0.0 < predict(UrlLine(url)).probability <= 1.0
    ensures Confidence.Decode(ClassifyUrl(predict, url)).0 == Confidence.Research
        <==> Confidence.IsResearchLabel(predict(UrlLine(url)).labelName)
  {
    var p := predict(UrlLine(url));
    Confidence.DecodeEncode(p.labelName, p.probability);
  }
}
