/** The endpoints and prefixes a URI may carry, written as grammars. */
module CloudUriGrammar {
  import opened Common
  import opened Strings
  import opened CloudUri

  // ---------------------------------------------------------------- endpoints

  /** Nothing, or a colon and digits. */
  predicate PortPart(s: string) {
    s == "" || (s[0] == ':' && s[1..] != "" && AllDigits(s[1..]))
  }

  predicate HostChar(c: char) {
    IsAlnum(c) || c == '.' || c == '-'
  }

  /** A host name of letters, digits, dots and hyphens, or an IPv6 address in brackets. */
  predicate HostPart(s: string, env: Env) {
    || (s != "" && forall i :: 0 <= i < |s| ==> HostChar(s[i]))
    || (|s| >= 2 && s[0] == '[' && Last(s) == ']' && ']' !in s[1..|s| - 1] && env.ipv6(s[1..|s| - 1]))
  }

  ghost predicate Authority(s: string, env: Env) {
    exists host, port :: s == host + port && HostPart(host, env) && PortPart(port)
  }

  lemma BracketsSplit(address: string, rest: string)
    requires ']' !in address
    ensures var s := "[" + address + "]" + rest; SplitOnce(s[1..], ']') == Some((address, rest))
  {
    var s := "[" + address + "]" + rest;
    assert s[1..] == address + "]" + rest;
    SplitOnceAt(address, ']', rest);
  }

  lemma BracketsCut(host: string)
    requires |host| >= 2 && host[0] == '[' && Last(host) == ']'
    ensures host == "[" + host[1..|host| - 1] + "]"
  {
  }

  lemma Bracketed(a: string, address: string, b: string, rest: string)
    requires |a| == 1 && |b| == 1
    ensures var host := a + address + b;
            host[1..|host| - 1] == address && a + (address + b + rest) == host + rest
  {
  }

  lemma BracketsAccepted(s: string, env: Env)
    requires s != "" && s[0] == '[' && ValidAuthority(s, env)
    ensures Authority(s, env)
  {
    var (address, rest) := SplitOnce(s[1..], ']').value;
    var host := "[" + address + "]";
    assert s == "[" + s[1..];
    Bracketed("[", address, "]", rest);
    assert HostPart(host, env) && PortPart(rest);
  }

  lemma BracketsForm(s: string, host: string, port: string, env: Env)
    requires s != "" && s[0] == '[' && s == host + port && HostPart(host, env) && PortPart(port)
    ensures ValidAuthority(s, env)
  {
    assert host != "" && host[0] == s[0];
    BracketsCut(host);
    BracketsSplit(host[1..|host| - 1], port);
  }

  lemma {:induction false} SplitLastAt(a: string, c: char, b: string)
    requires c !in b
    ensures SplitLast(a + [c] + b, c) == Some((a, b))
    decreases |b|
  {
    var s := a + [c] + b;
    if b == "" {
      assert s == a + [c] && s[..|s| - 1] == a;
    } else {
      var front := b[..|b| - 1];
      assert b == front + [Last(b)] && s[..|s| - 1] == a + [c] + front;
      SplitLastAt(a, c, front);
    }
  }

  lemma PlainAccepted(s: string, env: Env)
    requires s != "" && s[0] != '[' && ValidAuthority(s, env)
    ensures Authority(s, env)
  {
    match SplitLast(s, ':') {
      case Some((host, port)) =>
        var rest := ":" + port;
        Associates(host, ":", port);
        assert s == host + rest && rest[1..] == port;
        assert HostPart(host, env) && PortPart(rest);
      case None =>
        assert s == s + "";
        assert HostPart(s, env) && PortPart("");
    }
  }

  lemma PlainForm(s: string, host: string, port: string, env: Env)
    requires s != "" && s[0] != '[' && s == host + port && HostPart(host, env) && PortPart(port)
    ensures ValidAuthority(s, env)
  {
    assert host != "" && host[0] == s[0] && ':' !in host;
    if port == "" {
      assert s == host;
    } else {
      assert port == ":" + port[1..];
      Associates(host, ":", port[1..]);
      SplitLastAt(host, ':', port[1..]);
    }
  }

  predicate EndpointChar(c: char) {
    c !in ['@', '?', '#', '&', '%', '\\'] && !IsControl(c) && !IsSpace(c)
  }

  /** A scheme, an authority and a path, of allowed characters. */
  ghost predicate Endpoint(s: string, env: Env) {
    && (forall i :: 0 <= i < |s| ==> EndpointChar(s[i]))
    && exists scheme, authority, path :: EndpointAs(s, scheme, authority, path, env)
  }

  ghost predicate EndpointAs(s: string, scheme: string, authority: string, path: string, env: Env) {
    && s == scheme + (authority + path) && (scheme == "http://" || scheme == "https://")
    && '/' !in authority && Authority(authority, env) && (path == "" || path[0] == '/')
  }

  lemma AuthorityIff(s: string, env: Env)
    ensures ValidAuthority(s, env) <==> Authority(s, env)
  {
    if ValidAuthority(s, env) {
      if s[0] == '[' { BracketsAccepted(s, env); } else { PlainAccepted(s, env); }
    }
    if host, port :| s == host + port && HostPart(host, env) && PortPart(port) {
      assert host != "" && s[0] == host[0];
      if s[0] == '[' { BracketsForm(s, host, port, env); } else { PlainForm(s, host, port, env); }
    }
  }

  lemma PathSplit(authority: string, path: string)
    requires '/' !in authority && (path == "" || path[0] == '/')
    ensures Split(authority + path, '/')[0] == authority
  {
    if path == "" {
      assert authority + path == authority;
      SplitAt(authority, '/', "");
    } else {
      assert path == "/" + path[1..];
      Associates(authority, "/", path[1..]);
      SplitAt(authority, '/', path[1..]);
    }
  }

  lemma PathRest(s: string) returns (authority: string, path: string)
    ensures s == authority + path && '/' !in authority && (path == "" || path[0] == '/')
    ensures authority == Split(s, '/')[0]
  {
    var i := IndexOf(s, '/');
    if i.None? {
      authority, path := s, "";
    } else {
      authority, path := s[..i.value], s[i.value..];
    }
    PathSplit(authority, path);
    assert s == authority + path;
  }

  lemma Schemes(s: string)
    ensures !(StartsWith(s, "http://") && StartsWith(s, "https://"))
  {
    assert "http://"[4] != "https://"[4];
  }

  /** An endpoint is accepted exactly when it is of this form. */
  lemma EndpointIff(s: string, env: Env)
    ensures ValidEndpoint(s, env) <==> Endpoint(s, env)
  {
    Schemes(s);
    if ValidEndpoint(s, env) {
      var scheme := if StartsWith(s, "http://") then "http://" else "https://";
      var rest := s[|scheme|..];
      var authority, path := PathRest(rest);
      AuthorityIff(authority, env);
      assert EndpointAs(s, scheme, authority, path, env);
      assert forall i :: 0 <= i < |s| ==> EndpointChar(s[i]);
    }
    if Endpoint(s, env) {
      var scheme, authority, path :| EndpointAs(s, scheme, authority, path, env);
      PathSplit(authority, path);
      AuthorityIff(authority, env);
      assert s[|scheme|..] == authority + path && StartsWith(s, scheme);
      assert forall i :: 0 <= i < |s| ==> EndpointChar(s[i]);
    }
  }

  // ---------------------------------------------------------------- prefixes

  predicate PrefixChar(c: char) {
    c != '\\' && !IsControl(c) && c != '?' && c != '#'
  }

  predicate PrefixSegment(s: string) {
    '/' !in s && s != "" && s != "." && s != ".."
  }

  /** Nothing, or segments joined by slashes, perhaps with one more slash at the end. */
  ghost predicate Prefix(s: string) {
    && (forall i :: 0 <= i < |s| ==> PrefixChar(s[i]))
    && (s == "" || exists segments :: PrefixOf(s, segments))
  }

  ghost predicate PrefixOf(s: string, segments: seq<string>) {
    && segments != [] && (forall i :: 0 <= i < |segments| ==> PrefixSegment(segments[i]))
    && (s == Join(segments, '/') || s == Join(segments, '/') + "/")
  }

  lemma {:induction false} JoinEnds(segments: seq<string>)
    requires segments != [] && forall i :: 0 <= i < |segments| ==> PrefixSegment(segments[i])
    ensures var s := Join(segments, '/'); s != "" && s[0] != '/' && Last(s) != '/'
  {
    if |segments| > 1 { JoinEnds(segments[1..]); }
  }

  lemma EndsWithSlash(s: string)
    requires s != ""
    ensures (EndsWith(s, "/") <==> Last(s) == '/') && (StartsWith(s, "/") <==> s[0] == '/')
  {
    assert s[|s| - 1..] == [Last(s)];
    if s[0] == '/' { assert s == "/" + s[1..]; }
  }

  lemma PrefixIsValid(s: string, segments: seq<string>)
    requires PrefixOf(s, segments) && forall i :: 0 <= i < |s| ==> PrefixChar(s[i])
    ensures ValidPrefix(s)
  {
    var base := Join(segments, '/');
    JoinEnds(segments);
    EndsWithSlash(base);
    EndsWithSlash(s);
    assert s != base ==> s[..|s| - 1] == base;
    assert PrefixBase(s) == base && s[0] == base[0];
    SplitJoin(segments, '/');
  }

  lemma ValidIsPrefix(s: string) returns (segments: seq<string>)
    requires ValidPrefix(s) && s != ""
    ensures PrefixOf(s, segments) && forall i :: 0 <= i < |s| ==> PrefixChar(s[i])
  {
    var base := PrefixBase(s);
    EndsWithSlash(s);
    if Last(s) == '/' { assert s == base + "/"; } else { assert s == base; }
    segments := Split(base, '/');
    JoinSplit(base, '/');
    assert forall i :: 0 <= i < |base| ==> base[i] == s[i];
  }

  /** A prefix is accepted exactly when it is of this form. */
  lemma PrefixIff(s: string)
    ensures ValidPrefix(s) <==> Prefix(s)
  {
    if s != "" {
      if ValidPrefix(s) {
        var segments := ValidIsPrefix(s);
        assert PrefixOf(s, segments);
      }
      if Prefix(s) {
        var segments :| PrefixOf(s, segments);
        PrefixIsValid(s, segments);
      }
    }
  }
}
