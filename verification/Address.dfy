/** The address in a storage URI, `cog://host[:port][/path]`, as each backend takes it apart. */
module Address {
  import opened Wrappers

  const SCHEME := "cog://"
  const DEFAULT_PORT := "17001"

  datatype Parsed = Rejected | Address(host: string, port: string)

  /** Index of the first accepted character at or behind `p`, or the length. */
  function FindOf(s: string, p: nat, accept: set<char>): (n: nat)
    requires p <= |s|
    ensures p <= n <= |s| && (n < |s| ==> s[n] in accept) && forall i :: p <= i < n ==> s[i] !in accept
    decreases |s| - p
  {
    if p == |s| || s[p] in accept then p else FindOf(s, p + 1, accept)
  }

  /** The text before the first accepted character. */
  function Cut(s: string, accept: set<char>): string
  {
    s[..FindOf(s, 0, accept)]
  }

  predicate Has(s: string, c: char)
  {
    exists i :: 0 <= i < |s| && s[i] == c
  }

  /** Both constructors reject other schemes, and any argument behind a question mark. */
  predicate Accepted(uri: string)
  {
    SCHEME <= uri && !Has(uri, '?')
  }

  /** The port is looked for behind the host, in `uri`. */
  function PortOf(uri: string, host: string): string
    requires |SCHEME| + |host| <= |uri|
  {
    var colon := FindOf(uri, |SCHEME| + |host|, {':'});
    if colon < |uri| then Cut(uri[colon + 1..], {'/'}) else DEFAULT_PORT
  }

  /** The simple backend: what the constructor has accepted is taken apart on opening. */
  function SimpleAddress(uri: string): Parsed
  {
    if !Accepted(uri) then Rejected
    else
      var host := Cut(uri[|SCHEME|..], {':', '/'});
      Address(host, PortOf(uri, host))
  }

  /** The channel cuts arguments off the URI before it looks for a port, but not before it looks
      for the host.  A search from behind the end finds nothing. */
  function ChannelAddress(uri: string): Parsed
  {
    if !(SCHEME <= uri) then Rejected
    else
      var plain := Cut(uri, {'?'});
      var host := Cut(uri[|SCHEME|..], {':', '/'});
      Address(host, if |SCHEME| + |host| <= |plain| then PortOf(plain, host) else DEFAULT_PORT)
  }

  /** The production backend: its constructor, then the channel. */
  function ProductionAddress(uri: string): Parsed
  {
    if Accepted(uri) then ChannelAddress(uri) else Rejected
  }

  lemma FindInFront(a: string, b: string, accept: set<char>)
    requires (forall c <- a :: c !in accept) && (b == "" || b[0] in accept)
    ensures FindOf(a + b, 0, accept) == |a| && Cut(a + b, accept) == a
  {
    var s := a + b;
    var n := FindOf(s, 0, accept);
    assert forall i :: 0 <= i < |a| ==> s[i] == a[i] && a[i] in a;
    assert b != "" ==> s[|a|] == b[0];
  }

  /** Both backends take every URI apart alike. */
  lemma BackendsAgree(uri: string)
    ensures ProductionAddress(uri) == SimpleAddress(uri)
  {
    if Accepted(uri) {
      assert uri + "" == uri;
      forall c | c in uri ensures c != '?' {
        var i :| 0 <= i < |uri| && uri[i] == c;
      }
      FindInFront(uri, "", {'?'});
    }
  }

  function Printed(host: string, port: Option<string>, path: string): string
  {
    SCHEME + (host + ((if port.None? then "" else ":" + port.value) + path))
  }

  predicate PlainHost(host: string)
  {
    forall c <- host :: c != ':' && c != '/' && c != '?'
  }

  /** A path is empty or begins with a slash. */
  predicate IsPath(path: string)
  {
    (path == "" || path[0] == '/') && !Has(path, '?')
  }

  lemma HostFound(host: string, rest: string)
    requires PlainHost(host) && (rest == "" || rest[0] == ':' || rest[0] == '/') && !Has(rest, '?')
    ensures var uri := SCHEME + (host + rest);
            Accepted(uri) && SimpleAddress(uri) == Address(host, PortOf(uri, host)) && uri[|SCHEME| + |host|..] == rest
  {
    var uri := SCHEME + (host + rest);
    assert uri[|SCHEME|..] == host + rest;
    FindInFront(host, rest, {':', '/'});
    forall i | 0 <= i < |uri| ensures uri[i] != '?' {
      if i < |SCHEME| {
        assert uri[i] == SCHEME[i];
      } else if i < |SCHEME| + |host| {
        assert uri[i] == host[i - |SCHEME|] && uri[i] in host;
      } else {
        assert uri[i] == rest[i - |SCHEME| - |host|];
      }
    }
  }

  lemma {:induction false} FindShifted(s: string, p: nat, q: nat, accept: set<char>)
    requires p <= q <= |s|
    ensures FindOf(s, q, accept) == p + FindOf(s[p..], q - p, accept)
    decreases |s| - q
  {
    if q < |s| && s[q] !in accept {
      FindShifted(s, p, q + 1, accept);
    }
  }

  /** The port in what follows the host. */
  function PortIn(rest: string): string
  {
    var n := FindOf(rest, 0, {':'});
    if n < |rest| then Cut(rest[n + 1..], {'/'}) else DEFAULT_PORT
  }

  lemma SuffixOfSuffix(s: string, p: nat, n: nat)
    requires p + n <= |s|
    ensures s[p..][n..] == s[p + n..]
  {
  }

  lemma PortFound(uri: string, host: string)
    requires |SCHEME| + |host| <= |uri|
    ensures PortOf(uri, host) == PortIn(uri[|SCHEME| + |host|..])
  {
    var p := |SCHEME| + |host|;
    FindShifted(uri, p, p, {':'});
    var n := FindOf(uri[p..], 0, {':'});
    if p + n < |uri| {
      SuffixOfSuffix(uri, p, n + 1);
    }
  }

  lemma NoQuestion(port: string, path: string)
    requires PlainHost(port) && !Has(path, '?')
    ensures !Has(":" + (port + path), '?')
  {
    var rest := ":" + (port + path);
    forall i | 0 <= i < |rest| ensures rest[i] != '?' {
      assert i == 0 || (i <= |port| && rest[i] == port[i - 1] && port[i - 1] in port)
             || (i > |port| && rest[i] == path[i - 1 - |port|]);
    }
  }

  lemma PortInExplicit(port: string, path: string)
    requires PlainHost(port) && IsPath(path)
    ensures PortIn(":" + (port + path)) == port
  {
    var rest := ":" + (port + path);
    assert FindOf(rest, 0, {':'}) == 0 && rest[1..] == port + path;
    FindInFront(port, path, {'/'});
  }

  /** Taking apart inverts putting together, for every host, port and path: an explicit port is
      found whatever the path. */
  lemma ExplicitPortFound(host: string, port: string, path: string)
    requires PlainHost(host) && PlainHost(port) && IsPath(path)
    ensures SimpleAddress(Printed(host, Some(port), path)) == ProductionAddress(Printed(host, Some(port), path)) == Address(host, port)
  {
    var rest := ":" + (port + path);
    var uri := Printed(host, Some(port), path);
    assert uri == SCHEME + (host + rest) by {
      assert (":" + port) + path == rest;
    }
    NoQuestion(port, path);
    HostFound(host, rest);
    PortFound(uri, host);
    PortInExplicit(port, path);
    BackendsAgree(uri);
  }

  /** Exactly which URIs are rejected: those of other schemes, and those with arguments. */
  lemma RejectedExactly(uri: string)
    ensures SimpleAddress(uri) == ProductionAddress(uri)
    ensures SimpleAddress(uri).Rejected? <==> !("cog://" <= uri) || '?' in uri
  {
    BackendsAgree(uri);
    if '?' in uri {
      var i :| 0 <= i < |uri| && uri[i] == '?';
      assert Has(uri, '?');
    }
  }

  /** Without an explicit port the default is taken exactly when the path has no colon, or its
      first colon happens to be followed by the default. */
  lemma DefaultPortTaken(host: string, path: string)
    requires PlainHost(host) && IsPath(path)
    ensures var uri := Printed(host, None, path);
            var n := FindOf(path, 0, {':'});
            && SimpleAddress(uri) == ProductionAddress(uri)
            && SimpleAddress(uri).Address? && SimpleAddress(uri).host == host
            && (SimpleAddress(uri).port == DEFAULT_PORT <==> n == |path| || Cut(path[n + 1..], {'/'}) == DEFAULT_PORT)
  {
    WithoutPort(host, path);
    PortInPath(path);
    var n := FindOf(path, 0, {':'});
    EitherWay(PortIn(path), if n == |path| then "" else Cut(path[n + 1..], {'/'}), DEFAULT_PORT, n == |path|);
    BackendsAgree(Printed(host, None, path));
  }

  /** An address in which the default is not taken, because the path's colon is taken for the port's; and one
      in which it is. */
  lemma ColonInPathTaken()
    ensures SimpleAddress("cog://h/a:b") == ProductionAddress("cog://h/a:b") == Address("h", "b")
    ensures SimpleAddress("cog://h/") == ProductionAddress("cog://h/") == Address("h", "17001")
  {
    assert Printed("h", None, "/a:b") == "cog://h/a:b" && Printed("h", None, "/") == "cog://h/";
    WithoutPort("h", "/a:b");
    PortInPath("/a:b");
    ColonFound();
    BackendsAgree("cog://h/a:b");
    WithoutPort("h", "/");
    PortInPath("/");
    assert FindOf("/", 0, {':'}) == FindOf("/", 1, {':'}) == 1;
    BackendsAgree("cog://h/");
  }

  lemma ColonFound()
    ensures FindOf("/a:b", 0, {':'}) == 2 && Cut("/a:b"[3..], {'/'}) == "b"
  {
    assert FindOf("/a:b", 2, {':'}) == 2 && FindOf("/a:b", 1, {':'}) == 2;
    assert "/a:b"[3..] == "b" && FindOf("b", 0, {'/'}) == FindOf("b", 1, {'/'}) == 1 && "b"[..1] == "b";
  }

  lemma WithoutPort(host: string, path: string)
    requires PlainHost(host) && IsPath(path)
    ensures SimpleAddress(Printed(host, None, path)) == Address(host, PortIn(path))
  {
    var uri := Printed(host, None, path);
    assert uri == SCHEME + (host + path) by { assert "" + path == path; }
    HostFound(host, path);
    PortFound(uri, host);
  }

  lemma PortInPath(path: string)
    ensures var n := FindOf(path, 0, {':'});
            PortIn(path) == if n == |path| then DEFAULT_PORT else Cut(path[n + 1..], {'/'})
  {
  }

  lemma EitherWay(port: string, found: string, default: string, none: bool)
    requires port == if none then default else found
    ensures port == default <==> none || found == default
  {
  }
}
