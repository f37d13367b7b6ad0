/** Splitting a URL (section 3 of RFC 3986) by searching for its delimiters. */
module UrlParser {
  import opened CText

  const DEFAULT_PORT := 80

  datatype Url = Url(protocol: string, host: string, port: int, path: string, query: string)

  datatype Option<T> = None | Some(value: T)

  /** `find` between two iterators: the first place of `c` in the range, or its end. */
  function IndexIn(s: string, c: char, from: nat, to: nat): (i: nat)
    requires from <= to <= |s|
    ensures from <= i <= to && (i < to ==> s[i] == c)
    ensures forall k :: from <= k < i ==> s[k] != c
    decreases |s| - from
  {
    if from == to || s[from] == c then from else IndexIn(s, c, from + 1, to)
  }

  /** Where the host begins: behind "://" if that follows the first colon and is itself followed by something. */
  function HostStart(uri: string): (i: nat)
    ensures i <= |uri|
  {
    var colon := IndexIn(uri, ':', 0, |uri|);
    if |uri| - colon > 3 && uri[colon..colon + 3] == "://" then colon + 3 else 0
  }

  /** The end of host and port: the path, or without one the query. */
  function AuthorityEnd(uri: string): (i: nat)
    ensures i <= |uri|
  {
    var path := IndexIn(uri, '/', HostStart(uri), |uri|);
    if path < |uri| then path else IndexIn(uri, '?', 0, |uri|)
  }

  /** The port as `atoi` reads it; 0 stands for the default. */
  function PortOf(text: string): int {
    if Atoi(text) == 0 then DEFAULT_PORT else Atoi(text)
  }

  /** The components; none when a component would end before it begins, where the source fails. */
  function ParseUrl(uri: string): Option<Url> {
    var n := |uri|;
    var query, colon, host := IndexIn(uri, '?', 0, n), IndexIn(uri, ':', 0, n), HostStart(uri);
    var path, end := IndexIn(uri, '/', host, n), AuthorityEnd(uri);
    if end < host || (path < n && query < path) then None
    else
      var hostEnd := IndexIn(uri, ':', host, end);
      Some(Url(if host > 0 then uri[..colon] else "",
               uri[host..hostEnd],
               if hostEnd < end then PortOf(uri[hostEnd + 1..end]) else DEFAULT_PORT,
               if path < n then uri[path..query] else "",
               uri[query..]))
  }

  class Turl {
    var url: Url
    var error: bool

    constructor ()
      ensures url == Url("", "", DEFAULT_PORT, "", "") && !error
    {
      url, error := Url("", "", DEFAULT_PORT, "", ""), false;
    }

    /** Takes the protocol off, if there is one; returns where the host begins. */
    method TakeProtocol(uri: string) returns (hostStart: nat)
      requires url.protocol == ""
      modifies this`url
      ensures hostStart == HostStart(uri)
      ensures url == old(url).(protocol := if hostStart > 0 then uri[..IndexIn(uri, ':', 0, |uri|)] else "")
    {
      var protocolEnd := IndexIn(uri, ':', 0, |uri|);
      hostStart := 0;
      if protocolEnd != |uri| {
        var prot := uri[protocolEnd..];
        if |prot| > 3 && prot[..3] == "://" {
          url := url.(protocol := uri[..protocolEnd]);
          hostStart := protocolEnd + 3;
        }
      }
    }

    /** Splits host and port, which end at `end`. */
    method TakeHost(uri: string, start: nat, end: nat)
      requires start <= end <= |uri| && url.port == DEFAULT_PORT && (end < |uri| ==> uri[end] != ':')
      modifies this`url
      ensures var hostEnd := IndexIn(uri, ':', start, end);
              url == old(url).(host := uri[start..hostEnd],
                               port := if hostEnd < end then PortOf(uri[hostEnd + 1..end]) else DEFAULT_PORT)
    {
      var hostEnd := IndexIn(uri, ':', start, end);
      url := url.(host := uri[start..hostEnd]);
      if hostEnd != |uri| && uri[hostEnd] == ':' {
        hostEnd := hostEnd + 1;
        var port := Atoi(uri[hostEnd..end]);
        url := url.(port := if port == 0 then DEFAULT_PORT else port);
      }
    }

    /** Parses into freshly initialised fields; `ok` is false where the source fails. */
    method Parse(uri: string) returns (ok: bool)
      requires url == Url("", "", DEFAULT_PORT, "", "")
      modifies this
      ensures uri == "" ==> ok && error && url == old(url)
      ensures uri != "" ==> !error && (ok <==> ParseUrl(uri).Some?) && (ok ==> url == ParseUrl(uri).value)
    {
      ok := true;
      error := uri == "";
      if error {
        return;
      }
      var uriEnd := |uri|;
      var queryStart := IndexIn(uri, '?', 0, uriEnd);
      var hostStart := TakeProtocol(uri);
      var pathStart := IndexIn(uri, '/', hostStart, uriEnd);
      var portEnd := if pathStart != uriEnd then pathStart else queryStart;
      if portEnd < hostStart || (pathStart != uriEnd && queryStart < pathStart) {
        ok := false;
        return;
      }
      TakeHost(uri, hostStart, portEnd);
      if pathStart != uriEnd {
        url := url.(path := uri[pathStart..queryStart]);
      }
      if queryStart != uriEnd {
        url := url.(query := uri[queryStart..]);
      }
    }
  }

  // ---------------------------------------------------------------- the round trip

  predicate Free(s: string, c: char) {
    forall i :: 0 <= i < |s| ==> s[i] != c
  }

  function PortText(port: Option<nat>): string {
    if port.Some? then ":" + Decimal(port.value) else ""
  }

  function Compose(protocol: string, host: string, port: Option<nat>, path: string, query: string): string {
    protocol + ("://" + (host + (PortText(port) + (path + query))))
  }

  /** Components as section 3 allows them in their places; ports are decimal and not zero. */
  predicate Components(protocol: string, host: string, port: Option<nat>, path: string, query: string) {
    && Free(protocol, ':') && Free(protocol, '?')
    && Free(host, ':') && Free(host, '/') && Free(host, '?')
    && (port.Some? ==> port.value != 0)
    && (path != "" ==> path[0] == '/') && Free(path, '?')
    && (query != "" ==> query[0] == '?')
    && (host != "" || port.Some? || path != "" || query != "")
  }

  lemma FirstAt(s: string, c: char, from: nat, to: nat, k: nat)
    requires from <= k <= to <= |s| && (k < to ==> s[k] == c)
    requires forall i :: from <= i < k ==> s[i] != c
    ensures IndexIn(s, c, from, to) == k
  {
  }

  predicate FreeIn(s: string, c: char, from: nat, to: nat)
    requires from <= to <= |s|
  {
    forall i :: from <= i < to ==> s[i] != c
  }

  lemma FreeSlice(s: string, c: char, from: nat, to: nat, part: string)
    requires from <= to <= |s| && s[from..to] == part && Free(part, c)
    ensures FreeIn(s, c, from, to)
  {
    forall i | from <= i < to ensures s[i] != c {
      assert s[i] == part[i - from];
    }
  }

  /** Where the components lie in `u`. */
  predicate Parts(u: string, protocol: string, host: string, port: string, path: string, query: string) {
    var p := |protocol|;
    var h := p + 3;
    var x := h + |host|;
    var a := x + |port|;
    var b := a + |path|;
    && |u| == b + |query|
    && u[..p] == protocol && u[p..h] == "://" && u[h..x] == host
    && u[x..a] == port && u[a..b] == path && u[b..] == query
  }

  /** A piece of the tail of `u` that starts at `at`. */
  lemma Cut(u: string, at: nat, part: string, rest: string)
    requires at <= |u| && u[at..] == part + rest
    ensures at + |part| <= |u| && u[at..at + |part|] == part && u[at + |part|..] == rest
  {
    assert u[at..][..|part|] == part && u[at..][|part|..] == rest;
  }

  lemma TailParts(u: string, at: nat, text: string, path: string, query: string)
    requires at <= |u| && u[at..] == text + (path + query)
    ensures var a := at + |text|; var b := a + |path|;
            |u| == b + |query| && u[at..a] == text && u[a..b] == path && u[b..] == query
  {
    Cut(u, at, text, path + query);
    Cut(u, at + |text|, path, query);
  }

  lemma ComposeParts(protocol: string, host: string, port: Option<nat>, path: string, query: string)
    ensures Parts(Compose(protocol, host, port, path, query), protocol, host, PortText(port), path, query)
  {
    ConcatParts(Compose(protocol, host, port, path, query), protocol, host, PortText(port), path, query,
                host + (PortText(port) + (path + query)));
  }

  lemma ConcatParts(u: string, protocol: string, host: string, text: string, path: string, query: string, rest: string)
    requires u == protocol + ("://" + rest) && rest == host + (text + (path + query))
    ensures Parts(u, protocol, host, text, path, query)
  {
    assert u[0..] == u;
    Cut(u, 0, protocol, "://" + rest);
    Cut(u, |protocol|, "://", rest);
    HostParts(u, |protocol| + 3, host, text, path, query, rest);
  }

  lemma HostParts(u: string, h: nat, host: string, text: string, path: string, query: string, rest: string)
    requires h <= |u| && u[h..] == rest && rest == host + (text + (path + query))
    ensures var x := h + |host|; var a := x + |text|; var b := a + |path|;
            |u| == b + |query| && u[h..x] == host && u[x..a] == text && u[a..b] == path && u[b..] == query
  {
    Cut(u, h, host, text + (path + query));
    TailParts(u, h + |host|, text, path, query);
  }

  lemma PortFree(port: Option<nat>)
    ensures Free(PortText(port), '/') && Free(PortText(port), '?')
    ensures port.Some? ==> PortText(port)[0] == ':' && PortText(port)[1..] == Decimal(port.value)
  {
  }

  lemma ProtocolFound(u: string, protocol: string, host: string, port: string, path: string, query: string)
    requires Parts(u, protocol, host, port, path, query) && Free(protocol, ':') && |u| > |protocol| + 3
    ensures IndexIn(u, ':', 0, |u|) == |protocol| && HostStart(u) == |protocol| + 3
  {
    FreeSlice(u, ':', 0, |protocol|, protocol);
    assert u[|protocol|] == "://"[0];
    FirstAt(u, ':', 0, |u|, |protocol|);
  }

  lemma FreeJoin(u: string, c: char, from: nat, mid: nat, to: nat)
    requires from <= mid <= to <= |u| && FreeIn(u, c, from, mid) && FreeIn(u, c, mid, to)
    ensures FreeIn(u, c, from, to)
  {
  }

  /** A piece without `c` extends a stretch without `c`. */
  lemma FreeGrows(u: string, c: char, at: nat, part: string)
    requires at + |part| <= |u| && u[at..at + |part|] == part && Free(part, c) && FreeIn(u, c, 0, at)
    ensures FreeIn(u, c, 0, at + |part|)
  {
    FreeSlice(u, c, at, at + |part|, part);
    FreeJoin(u, c, 0, at, at + |part|);
  }

  lemma FrontFree(u: string, protocol: string, host: string, port: string, path: string, query: string)
    requires Parts(u, protocol, host, port, path, query)
    requires Free(protocol, '?') && Free(host, '?') && Free(port, '?') && Free(path, '?')
    ensures FreeIn(u, '?', 0, |u| - |query|)
  {
    FreeGrows(u, '?', 0, protocol);
    FreeGrows(u, '?', |protocol|, "://");
    FreeGrows(u, '?', |protocol| + 3, host);
    FreeGrows(u, '?', |protocol| + 3 + |host|, port);
    FreeGrows(u, '?', |protocol| + 3 + |host| + |port|, path);
  }

  lemma QueryFound(u: string, front: nat, query: string)
    requires |u| == front + |query| && u[front..] == query && FreeIn(u, '?', 0, front)
    requires query != "" ==> query[0] == '?'
    ensures IndexIn(u, '?', 0, |u|) == front
  {
    if query != "" { assert u[front] == query[0]; }
    FirstAt(u, '?', 0, |u|, front);
  }

  lemma AuthorityFree(u: string, protocol: string, host: string, port: string, path: string, query: string)
    requires Parts(u, protocol, host, port, path, query) && Free(host, '/') && Free(port, '/')
    ensures FreeIn(u, '/', |protocol| + 3, |protocol| + 3 + |host| + |port|)
  {
    var h := |protocol| + 3;
    var a := h + |host| + |port|;
    FreeSlice(u, '/', h, h + |host|, host);
    FreeSlice(u, '/', h + |host|, a, port);
  }

  lemma PathAt(u: string, h: nat, a: nat, path: string, query: string)
    requires h <= a && |u| == a + |path| + |query| && u[a..] == path + query && FreeIn(u, '/', h, a)
    requires (path != "" ==> path[0] == '/') && (query != "" ==> query[0] == '?')
    ensures var at := IndexIn(u, '/', h, |u|);
            if path != "" then at == a else if Free(query, '/') then at == |u| else a < at < |u|
  {
    if path != "" {
      assert u[a] == (path + query)[0];
      FirstAt(u, '/', h, |u|, a);
    } else {
      assert path + query == query;
      if Free(query, '/') {
        FreeSlice(u, '/', a, |u|, query);
        FirstAt(u, '/', h, |u|, |u|);
      } else {
        SlashBehind(u, a, h, query);
      }
    }
  }

  lemma SliceSplit(u: string, a: nat, m: nat)
    requires a <= m <= |u|
    ensures u[a..] == u[a..m] + u[m..]
  {
  }

  lemma PathFound(u: string, protocol: string, host: string, port: string, path: string, query: string)
    requires Parts(u, protocol, host, port, path, query) && Free(host, '/') && Free(port, '/')
    requires (path != "" ==> path[0] == '/') && (query != "" ==> query[0] == '?')
    ensures var h, a := |protocol| + 3, |protocol| + 3 + |host| + |port|;
            var at := IndexIn(u, '/', h, |u|);
            if path != "" then at == a else if Free(query, '/') then at == |u| else a < at < |u|
  {
    var a := |protocol| + 3 + |host| + |port|;
    SliceSplit(u, a, a + |path|);
    AuthorityFree(u, protocol, host, port, path, query);
    PathAt(u, |protocol| + 3, a, path, query);
  }

  lemma SlashBehind(u: string, a: nat, h: nat, query: string)
    requires h <= a <= |u| && u[a..] == query && query != "" && query[0] == '?' && !Free(query, '/')
    requires FreeIn(u, '/', h, a)
    ensures a < IndexIn(u, '/', h, |u|) < |u|
  {
    var k :| 0 <= k < |query| && query[k] == '/';
    assert u[a + k] == query[k] && u[a] == query[0];
  }

  lemma HostFound(u: string, protocol: string, host: string, port: string, path: string, query: string)
    requires Parts(u, protocol, host, port, path, query) && Free(host, ':') && (port != "" ==> port[0] == ':')
    ensures var h, x := |protocol| + 3, |protocol| + 3 + |host|;
            IndexIn(u, ':', h, x + |port|) == x && (port != "" ==> u[x + 1..x + |port|] == port[1..])
  {
    var h := |protocol| + 3;
    var x := h + |host|;
    FreeSlice(u, ':', h, x, host);
    if port != "" {
      assert u[x..x + |port|][0] == port[0] && u[x + 1..x + |port|] == u[x..x + |port|][1..];
    }
    FirstAt(u, ':', h, x + |port|, x);
  }

  /** The URL that lies between delimiters at these places. */
  function Between(u: string, p: nat, x: nat, path: nat, query: nat): Url
    requires p + 3 <= x <= path <= query <= |u|
  {
    Url(u[..p], u[p + 3..x], if x < path then PortOf(u[x + 1..path]) else DEFAULT_PORT, u[path..query], u[query..])
  }

  /** The delimiters of a URL with a protocol lie at these places. */
  predicate Delimited(u: string, p: nat, x: nat, path: nat, query: nat) {
    && p + 3 <= x <= path <= query <= |u|
    && IndexIn(u, ':', 0, |u|) == p && HostStart(u) == p + 3 && IndexIn(u, '?', 0, |u|) == query
    && IndexIn(u, '/', p + 3, |u|) == (if path < query then path else |u|)
    && IndexIn(u, ':', p + 3, path) == x
  }

  lemma ParseAt(u: string, p: nat, x: nat, path: nat, query: nat)
    requires Delimited(u, p, x, path, query)
    ensures ParseUrl(u) == Some(Between(u, p, x, path, query))
  {
    assert path == query ==> u[path..query] == "";
  }

  lemma BetweenParts(u: string, protocol: string, host: string, text: string, path: string, query: string,
                     x: nat, a: nat, b: nat, value: int)
    requires Parts(u, protocol, host, text, path, query)
    requires x == |protocol| + 3 + |host| && a == x + |text| && b == a + |path|
    requires text != "" ==> u[x + 1..a] == text[1..]
    requires value == if text != "" then PortOf(text[1..]) else DEFAULT_PORT
    ensures Between(u, |protocol|, x, a, b) == Url(protocol, host, value, path, query)
  {
  }

  lemma PortBack(port: Option<nat>)
    requires port.Some? ==> port.value != 0
    ensures (if PortText(port) != "" then PortOf(PortText(port)[1..]) else DEFAULT_PORT)
         == if port.Some? then port.value else DEFAULT_PORT
  {
    if port.Some? {
      PortFree(port);
      AtoiDecimal(port.value);
    }
  }

  /** Where host, port and path end. */
  predicate Ends(protocol: string, host: string, port: Option<nat>, path: string, x: nat, a: nat, b: nat) {
    x == |protocol| + 3 + |host| && a == x + |PortText(port)| && b == a + |path|
  }

  /** All delimiters of a URL with a path, or without a slash in its query. */
  lemma PartsDelimited(u: string, protocol: string, host: string, port: Option<nat>, path: string, query: string,
                       x: nat, a: nat, b: nat)
    requires Components(protocol, host, port, path, query) && (path != "" || Free(query, '/'))
    requires Parts(u, protocol, host, PortText(port), path, query) && Ends(protocol, host, port, path, x, a, b)
    ensures Delimited(u, |protocol|, x, a, b)
  {
    var text := PortText(port);
    PortFree(port);
    ProtocolFound(u, protocol, host, text, path, query);
    FrontFree(u, protocol, host, text, path, query);
    QueryFound(u, |u| - |query|, query);
    PathFound(u, protocol, host, text, path, query);
    HostFound(u, protocol, host, text, path, query);
  }

  lemma PartsBetween(u: string, protocol: string, host: string, port: Option<nat>, path: string, query: string,
                     x: nat, a: nat, b: nat, url: Url)
    requires Components(protocol, host, port, path, query)
    requires Parts(u, protocol, host, PortText(port), path, query) && Ends(protocol, host, port, path, x, a, b)
    requires url == Url(protocol, host, if port.Some? then port.value else DEFAULT_PORT, path, query)
    ensures |protocol| + 3 <= x <= a <= b <= |u| && Between(u, |protocol|, x, a, b) == url
  {
    PortFree(port);
    HostFound(u, protocol, host, PortText(port), path, query);
    PortBack(port);
    BetweenParts(u, protocol, host, PortText(port), path, query, x, a, b, url.port);
  }

  lemma PartsSplit(u: string, protocol: string, host: string, port: Option<nat>, path: string, query: string, url: Url)
    requires Components(protocol, host, port, path, query) && (path != "" || Free(query, '/'))
    requires Parts(u, protocol, host, PortText(port), path, query)
    requires url == Url(protocol, host, if port.Some? then port.value else DEFAULT_PORT, path, query)
    ensures ParseUrl(u) == Some(url)
  {
    var x := |protocol| + 3 + |host|;
    var a := x + |PortText(port)|;
    var b := a + |path|;
    PartsDelimited(u, protocol, host, port, path, query, x, a, b);
    PartsBetween(u, protocol, host, port, path, query, x, a, b, url);
    ParseAt(u, |protocol|, x, a, b);
  }

  lemma PartsFail(u: string, protocol: string, host: string, port: Option<nat>, path: string, query: string)
    requires Components(protocol, host, port, path, query) && path == "" && !Free(query, '/')
    requires Parts(u, protocol, host, PortText(port), path, query)
    ensures ParseUrl(u) == None
  {
    PortFree(port);
    ProtocolFound(u, protocol, host, PortText(port), path, query);
    FrontFree(u, protocol, host, PortText(port), path, query);
    QueryFound(u, |u| - |query|, query);
    PathFound(u, protocol, host, PortText(port), path, query);
  }

  /**
    The round trip: a composed URL is split into its components - and when a path is missing while the
    query holds a slash, it is not split at all.
    */
  lemma ComposeParse(protocol: string, host: string, port: Option<nat>, path: string, query: string)
    requires Components(protocol, host, port, path, query)
    ensures ParseUrl(Compose(protocol, host, port, path, query))
         == if path == "" && !Free(query, '/') then None
            else Some(Url(protocol, host, if port.Some? then port.value else 80, path, query))
  {
    var u := Compose(protocol, host, port, path, query);
    ComposeParts(protocol, host, port, path, query);
    if path != "" || Free(query, '/') {
      PartsSplit(u, protocol, host, port, path, query,
                 Url(protocol, host, if port.Some? then port.value else 80, path, query));
    } else {
      PartsFail(u, protocol, host, port, path, query);
    }
  }

  // ---------------------------------------------------------------- without a protocol

  function ComposePlain(host: string, port: Option<nat>, path: string, query: string): string {
    host + (PortText(port) + (path + query))
  }

  /** The first colon of the text is followed by two slashes and something more. */
  predicate HasScheme(s: string) {
    var colon := IndexIn(s, ':', 0, |s|);
    |s| - colon > 3 && s[colon..colon + 3] == "://"
  }

  /** A port's colon begins no "://". */
  lemma PortNoScheme(u: string, host: string, port: nat, rest: string)
    requires u == host + (":" + (Decimal(port) + rest)) && Free(host, ':')
    ensures !HasScheme(u)
  {
    var x := |host|;
    assert u[x] == ':' && u[x + 1] == Decimal(port)[0];
    FreeSlice(u, ':', 0, x, host);
    FirstAt(u, ':', 0, |u|, x);
    assert IsDigit(u[x + 1]);
    if |u| - x > 3 {
      assert u[x..x + 3][1] == u[x + 1] && "://"[1] == '/';
    }
  }

  /** A text without a colon in front changes nothing. */
  lemma HostNoScheme(u: string, host: string, rest: string)
    requires u == host + rest && Free(host, ':')
    ensures IndexIn(u, ':', 0, |u|) == |host| + IndexIn(rest, ':', 0, |rest|)
    ensures HasScheme(u) <==> HasScheme(rest)
  {
    var x, k := |host|, IndexIn(rest, ':', 0, |rest|);
    forall i | 0 <= i < x + k ensures u[i] != ':' {
      assert u[i] == if i < x then host[i] else rest[i - x];
    }
    assert k < |rest| ==> u[x + k] == rest[k];
    FirstAt(u, ':', 0, |u|, x + k);
    if |rest| - k > 3 {
      assert u[x + k..x + k + 3] == rest[k..k + 3];
    }
  }

  /** Only what stands behind a host without a port can be taken for a protocol's end. */
  lemma PlainScheme(host: string, port: Option<nat>, path: string, query: string)
    requires Components("", host, port, path, query)
    ensures HasScheme(ComposePlain(host, port, path, query)) <==> port.None? && HasScheme(path + query)
  {
    var u := ComposePlain(host, port, path, query);
    if port.Some? {
      assert PortText(port) + (path + query) == ":" + (Decimal(port.value) + (path + query));
      PortNoScheme(u, host, port.value, path + query);
    } else {
      assert PortText(port) + (path + query) == path + query;
      HostNoScheme(u, host, path + query);
    }
  }

  /** Where the components lie in a URL without a protocol. */
  lemma PlainParts(u: string, host: string, text: string, path: string, query: string)
    requires u == host + (text + (path + query))
    ensures var x := |host|; var a := x + |text|; var b := a + |path|;
            |u| == b + |query| && u[0..x] == host && u[x..a] == text && u[a..b] == path && u[b..] == query
            && u[a..] == path + query
  {
    assert u[0..] == u;
    HostParts(u, 0, host, text, path, query, u);
    SliceSplit(u, |host| + |text|, |host| + |text| + |path|);
  }

  lemma PlainFound(u: string, host: string, text: string, path: string, query: string, x: nat, a: nat, b: nat)
    requires x == |host| && a == x + |text| && b == a + |path| && |u| == b + |query|
    requires u[0..x] == host && u[x..a] == text && u[a..b] == path && u[b..] == query && u[a..] == path + query
    requires Free(host, '?') && Free(text, '?') && Free(path, '?') && Free(host, '/') && Free(text, '/')
    requires Free(host, ':') && (text != "" ==> text[0] == ':')
    requires (path != "" ==> path[0] == '/') && (query != "" ==> query[0] == '?')
    ensures IndexIn(u, '?', 0, |u|) == b && IndexIn(u, ':', 0, a) == x
    ensures var at := IndexIn(u, '/', 0, |u|);
            if path != "" then at == a else if Free(query, '/') then at == |u| else a < at < |u|
  {
    FreeGrows(u, '?', 0, host);
    FreeGrows(u, '?', x, text);
    FreeGrows(u, '?', a, path);
    QueryFound(u, b, query);
    FreeSlice(u, '/', 0, x, host);
    FreeSlice(u, '/', x, a, text);
    FreeJoin(u, '/', 0, x, a);
    PathAt(u, 0, a, path, query);
    FreeSlice(u, ':', 0, x, host);
    if text != "" { assert u[x] == u[x..a][0]; }
    FirstAt(u, ':', 0, a, x);
  }

  lemma PlainSplit(u: string, host: string, text: string, path: string, query: string,
                   x: nat, a: nat, b: nat, value: int)
    requires x == |host| && a == x + |text| && b == a + |path| && |u| == b + |query| && HostStart(u) == 0
    requires u[0..x] == host && u[x..a] == text && u[a..b] == path && u[b..] == query
    requires IndexIn(u, '?', 0, |u|) == b && IndexIn(u, ':', 0, a) == x
    requires var at := IndexIn(u, '/', 0, |u|);
             if path != "" then at == a else if Free(query, '/') then at == |u| else a < at < |u|
    requires path != "" || Free(query, '/')
    requires value == if text != "" then PortOf(text[1..]) else 80
    ensures ParseUrl(u) == Some(Url("", host, value, path, query))
  {
    if text != "" {
      assert u[x + 1..a] == u[x..a][1..];
    }
    assert path == "" ==> u[a..b] == "";
  }

  lemma PlainFails(u: string, a: nat, b: nat)
    requires HostStart(u) == 0 && a == b <= |u| && IndexIn(u, '?', 0, |u|) == b
    requires a < IndexIn(u, '/', 0, |u|) < |u|
    ensures ParseUrl(u) == None
  {
  }

  /** A protocol that was none is never empty. */
  lemma SchemeTaken(u: string)
    requires HasScheme(u) && u[0] != ':'
    ensures HostStart(u) > 0 && (ParseUrl(u).Some? ==> ParseUrl(u).value.protocol != "")
  {
  }

  lemma PlainStart(host: string, port: Option<nat>, path: string, query: string)
    requires Components("", host, port, path, query) && port.None?
    ensures ComposePlain(host, port, path, query) != "" && ComposePlain(host, port, path, query)[0] != ':'
  {
    var u := ComposePlain(host, port, path, query);
    assert u == host + (path + query);
    assert u[0] == if host != "" then host[0] else if path != "" then path[0] else query[0];
  }

  /**
    Without a protocol, too, a composed URL is split into its components, with port 80 unless one is given,
    and not at all when a path is missing while the query holds a slash; but it is taken for one with a
    protocol exactly when it has no port and the first colon behind the host is followed by two slashes
    and something more.
    */
  lemma ComposePlainParse(host: string, port: Option<nat>, path: string, query: string)
    requires Components("", host, port, path, query)
    ensures var u := ComposePlain(host, port, path, query);
            if port.None? && HasScheme(path + query) then ParseUrl(u).Some? ==> ParseUrl(u).value.protocol != ""
            else ParseUrl(u) == if path == "" && !Free(query, '/') then None
                                else Some(Url("", host, if port.Some? then port.value else 80, path, query))
  {
    var u := ComposePlain(host, port, path, query);
    PlainScheme(host, port, path, query);
    if port.None? && HasScheme(path + query) {
      PlainStart(host, port, path, query);
      SchemeTaken(u);
    } else {
      NoSchemeStart(u);
      PlainComposed(u, host, port, PortText(port), path, query, if port.Some? then port.value else 80);
    }
  }

  lemma NoSchemeStart(u: string)
    requires !HasScheme(u)
    ensures HostStart(u) == 0
  {
  }

  lemma PlainComposed(u: string, host: string, port: Option<nat>, text: string, path: string, query: string, value: int)
    requires Components("", host, port, path, query) && HostStart(u) == 0
    requires text == PortText(port) && u == host + (text + (path + query))
    requires value == if port.Some? then port.value else 80
    ensures ParseUrl(u) == if path == "" && !Free(query, '/') then None else Some(Url("", host, value, path, query))
  {
    var x := |host|;
    var a := x + |text|;
    var b := a + |path|;
    PortFree(port);
    PlainParts(u, host, text, path, query);
    PlainFound(u, host, text, path, query, x, a, b);
    if path != "" || Free(query, '/') {
      PortBack(port);
      PlainSplit(u, host, text, path, query, x, a, b, value);
    } else {
      PlainFails(u, a, b);
    }
  }
}
