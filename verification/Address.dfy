/** The internal address on its way from the Go configuration through the environment variable to
    the C++ side. */
module Address {
  import opened Text

  datatype HostPort = HostPort(host: string, port: string)

  /** Go's `net.SplitHostPort`; None is any of its errors. */
  function NetSplit(a: string): (r: Option<HostPort>)
    ensures r.Some? ==> ':' !in r.value.port
  {
    var i := RFind(a, ':');
    if i < 0 then None
    else if a[0] == '[' then
      var end := Find(a, ']');
      if end == |a| || end + 1 != i then None
      else if '[' in a[1..] || ']' in a[end + 1..] then None
      else Some(HostPort(a[1..end], a[i + 1..]))
    else if ':' in a[..i] || '[' in a || ']' in a then None
    else Some(HostPort(a[..i], a[i + 1..]))
  }

  /** `splitHostPort` with its defaults. */
  function Resolve(address: string, defaultPort: string): HostPort
  {
    if address == "" then HostPort("0.0.0.0", defaultPort)
    else
      match NetSplit(address)
      case None => HostPort(address, defaultPort)
      case Some(hp) =>
        HostPort(if hp.host == "" then "0.0.0.0" else hp.host, if hp.port == "" then defaultPort else hp.port)
  }

  /** Go's `net.JoinHostPort`. */
  function Join(hp: HostPort): string
  {
    if ':' in hp.host then "[" + hp.host + "]:" + hp.port else hp.host + ":" + hp.port
  }

  /** The C++ side: split at the first colon; None is the abort. An absent colon is `npos`, which is
      never below `size() - 1`, not even for the empty string where that wraps around. */
  function CppSplit(addr: string): Option<HostPort>
  {
    var pos := Find(addr, ':');
    if 1 <= pos < |addr| - 1 then Some(HostPort(addr[..pos], addr[pos + 1..])) else None
  }

  /** What `splitHostPort` returns, for every configured address. */
  lemma ResolvedParts(address: string, defaultPort: string)
    requires defaultPort != "" && ':' !in defaultPort
    ensures Resolve(address, defaultPort).host != "" && Resolve(address, defaultPort).port != ""
    ensures ':' !in Resolve(address, defaultPort).port
  {
    hide NetSplit;
  }

  predicate Plain(s: string) { ':' !in s && '[' !in s && ']' !in s }

  lemma SplitPlain(host: string, port: string)
    requires Plain(host) && Plain(port)
    ensures NetSplit(host + ":" + port) == Some(HostPort(host, port))
  {
    var a := host + [':'] + port;
    RFindAt(host, port, ':');
    assert a[..|host|] == host && a[|host| + 1..] == port;
    assert '[' !in a && ']' !in a;
  }

  lemma SplitBracketed(host: string, port: string)
    requires '[' !in host && ']' !in host && Plain(port)
    ensures NetSplit("[" + host + "]:" + port) == Some(HostPort(host, port))
  {
    var a := "[" + host + "]:" + port;
    assert a == ("[" + host + "]") + [':'] + port && a == ("[" + host) + [']'] + (":" + port);
    RFindAt("[" + host + "]", port, ':');
    assert ']' !in "[" + host;
    FindAt("[" + host, ":" + port, ']');
    var end := |host| + 1;
    assert a[1..end] == host && a[end + 2..] == port && a[1..] == host + "]:" + port && a[end + 1..] == ":" + port;
  }

  lemma SplitNoColon(a: string)
    requires ':' !in a
    ensures NetSplit(a).None?
  {
    var i := RFind(a, ':');
  }

  /** Splitting succeeds exactly on a host and a port with one colon between, or with the host in brackets,
      and neither holds a bracket; only a bracketed host may hold colons. */
  lemma NetSplitsIff(a: string, hp: HostPort)
    ensures NetSplit(a) == Some(hp) <==>
      && Plain(hp.port) && '[' !in hp.host && ']' !in hp.host
      && (a == "[" + hp.host + "]:" + hp.port || (':' !in hp.host && a == hp.host + ":" + hp.port))
  {
    if NetSplit(a) == Some(hp) {
      SplitParts(a, hp);
    } else if Plain(hp.port) && '[' !in hp.host && ']' !in hp.host {
      hide NetSplit;
      SplitBracketed(hp.host, hp.port);
      if ':' !in hp.host { SplitPlain(hp.host, hp.port); }
    }
  }

  lemma SplitParts(a: string, hp: HostPort)
    requires NetSplit(a) == Some(hp)
    ensures Plain(hp.port) && '[' !in hp.host && ']' !in hp.host
    ensures a == "[" + hp.host + "]:" + hp.port || (':' !in hp.host && a == hp.host + ":" + hp.port)
  {
    var i := RFind(a, ':');
    if a[0] == '[' {
      var end := Find(a, ']');
      assert a == [a[0]] + a[1..end] + [a[end]] + [a[i]] + a[i + 1..];
      assert forall j :: 0 <= j < |hp.host| ==> hp.host[j] == a[1..][j];
      assert forall j :: 0 <= j < |hp.port| ==> hp.port[j] == a[end + 1..][j + 1] == a[1..][i + j];
    } else {
      assert a == a[..i] + [a[i]] + a[i + 1..];
    }
  }

  /** The C++ side aborts exactly when there is no colon, or the first one has nothing before or after it. */
  lemma CppAbortsIff(addr: string)
    ensures CppSplit(addr).None? <==> ':' !in addr || addr[0] == ':' || ':' !in addr[..|addr| - 1]
  {
    var pos := Find(addr, ':');
    if ':' in addr {
      assert pos < |addr| && addr[pos] == ':';
      assert pos < |addr| - 1 ==> addr[..|addr| - 1][pos] == ':';
    }
  }

  /** A configured host and port are taken over, each replaced by its default where it is empty; a bare host
      gets the default port, and brackets around a host are taken off. */
  lemma ResolvesConfigured(host: string, port: string, defaultPort: string)
    requires '[' !in host && ']' !in host && Plain(port)
    ensures
      var h := if host == "" then "0.0.0.0" else host;
      var p := if port == "" then defaultPort else port;
      && (Plain(host) ==> Resolve(host + ":" + port, defaultPort) == HostPort(h, p))
      && (Plain(host) ==> Resolve(host, defaultPort) == HostPort(h, defaultPort))
      && Resolve("[" + host + "]:" + port, defaultPort) == HostPort(h, p)
  {
    hide NetSplit;
    SplitBracketed(host, port);
    if Plain(host) {
      SplitPlain(host, port);
      SplitNoColon(host);
    }
  }

  /** What cannot be split is taken as the host: a second colon outside brackets. */
  lemma ResolvesUnsplit(a: string, b: string, c: string, defaultPort: string)
    requires '[' !in a
    ensures Resolve(a + ":" + b + ":" + c, defaultPort) == HostPort(a + ":" + b + ":" + c, defaultPort)
  {
    var s := a + ":" + b + ":" + c;
    assert s[|a|] == ':' && s[|a| + 1 + |b|] == ':';
    var i := RFind(s, ':');
    assert i >= |a| + 1 + |b|;
    assert s[..i][|a|] == ':';
    assert s[0] == if a == "" then ':' else a[0];
  }

  /** What Go joins, Go splits again, IPv6 hosts included. */
  lemma JoinSplits(hp: HostPort)
    requires '[' !in hp.host && ']' !in hp.host && Plain(hp.port)
    ensures NetSplit(Join(hp)) == Some(hp)
  {
    hide NetSplit;
    if ':' in hp.host { SplitBracketed(hp.host, hp.port); } else { SplitPlain(hp.host, hp.port); }
  }

  lemma FirstColon(host: string, rest: string)
    requires host != "" && ':' !in host && rest != ""
    ensures CppSplit(host + ":" + rest) == Some(HostPort(host, rest))
  {
    var a := host + [':'] + rest;
    FindAt(host, rest, ':');
    assert a[..|host|] == host && a[|host| + 1..] == rest;
  }

  /** For every configured address the C++ side gets past its abort guard, and it gets back the host
      and port that Go resolved if and only if the host has no colon. */
  lemma AddressRoundTrip(address: string, defaultPort: string)
    requires defaultPort != "" && ':' !in defaultPort
    ensures CppSplit(Join(Resolve(address, defaultPort))).Some?
    ensures CppSplit(Join(Resolve(address, defaultPort))) == Some(Resolve(address, defaultPort))
       <==> ':' !in Resolve(address, defaultPort).host
  {
    hide Resolve, Find, CppSplit;
    ResolvedParts(address, defaultPort);
    var hp := Resolve(address, defaultPort);
    if ':' !in hp.host {
      FirstColon(hp.host, hp.port);
    } else {
      BracketedHost(hp.host, hp.port);
    }
  }

  /** A host with a colon is bracketed, and the first colon then cuts it in two. */
  lemma BracketedHost(host: string, port: string)
    requires ':' in host
    ensures
      var r := CppSplit("[" + host + "]:" + port);
      port != "" ==> r.Some? && r.value.host != host
  {
    var i := Find(host, ':');
    var head, tail := host[..i], host[i + 1..];
    assert host == head + ":" + tail;
    var rest := tail + "]:" + port;
    assert "[" + host + "]:" + port == ("[" + head) + ":" + rest;
    assert ':' !in "[" + head;
    FirstColon("[" + head, rest);
    assert ("[" + head)[0] == '[';
    assert "[" + head != host;
  }
}
