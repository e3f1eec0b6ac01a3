/**
 HTTPRoute selection (pkg/kthena-router/router/httproute_match.go).

 The code finds the best match inside every route and then the best of those.  The reference is the set of all
 candidates (route, rule, match) and one lexicographic order on it.  Regular expressions and the attachment of
 routes to listeners are parameters; hosts and hostname patterns are already normalized.
 */
module HttpRouteMatch {
  import opened Common
  import opened GoStrings

  datatype PathKind = Exact | PathPrefix | RegularExpression | Unknown

  datatype PathMatch = PathMatch(kind: Option<PathKind>, value: Option<string>)

  /** `unsupported`: the match also constrains method, headers or query, which the router does not evaluate. */
  datatype Match = Match(unsupported: bool, path: Option<PathMatch>)

  datatype HTTPRoute = HTTPRoute(namespace: string, name: string, created: int, hostnames: seq<string>, rules: seq<seq<Match>>)

  /** A specificity: the higher kind wins, then the more characters. */
  datatype Rank = Rank(kind: int, characters: int)

  const REGEX_RANK := 1
  const PREFIX_RANK := 2
  const EXACT_RANK := 3

  const ANY_HOST := 0
  const WILDCARD_HOST := 1
  const EXACT_HOST := 2

  /** A match inside one route. */
  datatype Found = Found(path: Rank, rule: nat, index: nat, prefix: string)

  datatype Candidate = Candidate(route: HTTPRoute, host: Rank, found: Found)

  /** What a request and its gateway contribute. */
  datatype Request = Request(host: string, path: string, regex: (string, string) -> bool, attached: HTTPRoute -> bool)

  ghost predicate MoreSpecific(a: Rank, b: Rank) {
    a.kind > b.kind || (a.kind == b.kind && a.characters > b.characters)
  }

  // ----- Comparisons: negative when the first wins -----

  function CompareRank(a: Rank, b: Rank): int {
    if a.kind != b.kind then (if a.kind > b.kind then -1 else 1)
    else if a.characters != b.characters then (if a.characters > b.characters then -1 else 1)
    else 0
  }

  function ComparePath(a: Found, b: Found): int {
    if CompareRank(a.path, b.path) != 0 then CompareRank(a.path, b.path)
    else if a.rule != b.rule then (if a.rule < b.rule then -1 else 1)
    else if a.index < b.index then -1
    else if a.index > b.index then 1
    else 0
  }

  function CompareString(a: string, b: string): int {
    if StringLess(a, b) then -1 else if StringLess(b, a) then 1 else 0
  }

  function CompareMatch(a: Candidate, b: Candidate): int {
    if CompareRank(a.host, b.host) != 0 then CompareRank(a.host, b.host)
    else if CompareRank(a.found.path, b.found.path) != 0 then CompareRank(a.found.path, b.found.path)
    else if a.route.created != b.route.created then (if a.route.created < b.route.created then -1 else 1)
    else if a.route.namespace != b.route.namespace then (if StringLess(a.route.namespace, b.route.namespace) then -1 else 1)
    else CompareString(a.route.name, b.route.name)
  }

  // ----- Paths -----

  function TrimSlashes(s: string): (r: string)
    ensures r == [] || r[|r| - 1] != '/'
    ensures r <= s && forall i :: |r| <= i < |s| ==> s[i] == '/'
  {
    if s != [] && s[|s| - 1] == '/' then TrimSlashes(s[..|s| - 1]) else s
  }

  /** The matched prefix, or None. */
  function MatchPathPrefix(path: string, prefix: string): Option<string> {
    var normalized := TrimSlashes(prefix);
    if normalized == "" then (if "/" <= path then Some("/") else None)
    else if path == normalized || normalized + "/" <= path then Some(normalized)
    else None
  }

  /**
   PathPrefix matching is prefix of the segment list, trailing slashes of the prefix aside.  The one exception is the
   empty path, whose only segment is empty: the root prefix does not match it.
   */
  lemma {:induction false} PathPrefixIsSegmentPrefix(path: string, prefix: string)
    ensures MatchPathPrefix(path, prefix).Some? <==>
            Segments(TrimSlashes(prefix)) <= Segments(path) && !(path == "" && TrimSlashes(prefix) == "")
  {
    SegmentPrefix(TrimSlashes(prefix), path);
    assert TrimSlashes(prefix) == "" ==> TrimSlashes(prefix) + "/" == "/";
  }

  function Kind(path: PathMatch): PathKind { if path.kind.Some? then path.kind.value else PathPrefix }

  function Value(path: PathMatch): string { if path.value.Some? then path.value.value else "/" }

  function MatchPath(path: Option<PathMatch>, request: Request): Option<(Rank, string)> {
    if path.None? then Some((Rank(PREFIX_RANK, 1), "/")) else
      var value := Value(path.value);
      match Kind(path.value)
      case Exact => if request.path == value then Some((Rank(EXACT_RANK, |value|), "")) else None
      case PathPrefix =>
        var matched := MatchPathPrefix(request.path, value);
        if matched.Some? then Some((Rank(PREFIX_RANK, |matched.value|), matched.value)) else None
      case RegularExpression => if request.regex(value, request.path) then Some((Rank(REGEX_RANK, 0), "")) else None
      case Unknown => None
  }

  lemma {:induction false} PrefixesCompare(path: string, p: string, q: string)
    requires MatchPathPrefix(path, p).Some? && MatchPathPrefix(path, q).Some?
    ensures |MatchPathPrefix(path, p).value| > |MatchPathPrefix(path, q).value| <==> TrimSlashes(q) < TrimSlashes(p)
  {
    var a, b := TrimSlashes(p), TrimSlashes(q);
    assert a <= path && b <= path;
    assert a != "" && b == "" ==> a[0] == path[0] == '/' && |a| > 1;
    assert a == "" && b != "" ==> b[0] == path[0] == '/' && |b| > 1;
  }

  /** Of two path matches for one request an exact one wins, then the longer prefix; a regular expression comes last. */
  lemma {:induction false} MoreSpecificPathWins(p: PathMatch, q: PathMatch, request: Request)
    requires MatchPath(Some(p), request).Some? && MatchPath(Some(q), request).Some?
    ensures var c := CompareRank(MatchPath(Some(p), request).value.0, MatchPath(Some(q), request).value.0);
      c < 0 <==> match Kind(p)
                 case Exact => Kind(q) != Exact
                 case PathPrefix => Kind(q) == RegularExpression || (Kind(q) == PathPrefix && TrimSlashes(Value(q)) < TrimSlashes(Value(p)))
                 case _ => false
  {
    if Kind(p) == PathPrefix && Kind(q) == PathPrefix {
      PrefixesCompare(request.path, Value(p), Value(q));
    }
  }

  /** The places a match can stand in: a rule without matches has one, the implicit prefix "/". */
  predicate IsPlace(route: HTTPRoute, i: nat, j: nat) {
    i < |route.rules| && (j < |route.rules[i]| || (j == 0 && route.rules[i] == []))
  }

  function MatchAt(route: HTTPRoute, i: nat, j: nat, request: Request): Option<Found>
    requires IsPlace(route, i, j)
  {
    if route.rules[i] == [] then Some(Found(Rank(PREFIX_RANK, 1), i, 0, "/"))
    else if route.rules[i][j].unsupported then None
    else
      var m := MatchPath(route.rules[i][j].path, request);
      if m.Some? then Some(Found(m.value.0, i, j, m.value.1)) else None
  }

  /** When a path match accepts a request; its kind defaults to a prefix and its value to the root. */
  ghost predicate PathAccepts(path: PathMatch, request: Request) {
    var value := if path.value == None then "/" else path.value.value;
    if path.kind == Some(Exact) then request.path == value
    else if path.kind == Some(RegularExpression) then request.regex(value, request.path)
    else if path.kind == Some(PathPrefix) || path.kind == None then
      Segments(TrimSlashes(value)) <= Segments(request.path) && !(request.path == "" && TrimSlashes(value) == "")
    else false
  }

  /** A prefix without its trailing slashes is reported, for the other kinds nothing. */
  lemma {:induction false} PathMatchIff(path: PathMatch, request: Request)
    ensures var m := MatchPath(Some(path), request);
      var trimmed := TrimSlashes(if path.value == None then "/" else path.value.value);
      && (m.Some? <==> PathAccepts(path, request))
      && (m.Some? && (path.kind == Some(Exact) || path.kind == Some(RegularExpression)) ==> m.value.1 == "")
      && (m.Some? && path.kind != Some(Exact) && path.kind != Some(RegularExpression) ==>
            m.value.1 == if trimmed == "" then "/" else trimmed)
  {
    PathPrefixIsSegmentPrefix(request.path, Value(path));
  }

  ghost predicate Accepts(m: Match, request: Request) {
    !m.unsupported && (m.path.Some? ==> PathAccepts(m.path.value, request))
  }

  /**
   A place matches a request unless it has an unsupported constraint or a path match that does not accept it; an absent
   path match accepts everything, as the root prefix.
   */
  lemma {:induction false} MatchesIff(route: HTTPRoute, i: nat, j: nat, request: Request)
    requires IsPlace(route, i, j)
    ensures var m := MatchAt(route, i, j, request);
      && (m.Some? <==> route.rules[i] == [] || Accepts(route.rules[i][j], request))
      && (m.Some? ==> m.value.rule == i && m.value.index == j)
      && (m.Some? && (route.rules[i] == [] || route.rules[i][j].path.None?) ==> m.value.path == Rank(PREFIX_RANK, 1) && m.value.prefix == "/")
  {
    if route.rules[i] != [] && route.rules[i][j].path.Some? {
      PathMatchIff(route.rules[i][j].path.value, request);
    }
  }

  // ----- Hostnames -----

  predicate IsSubdomain(host: string, sub: string, suffix: string) { sub != "" && host == sub + suffix }

  function MatchPattern(pattern: string, host: string): Option<Rank> {
    if pattern == host then Some(Rank(EXACT_HOST, |pattern|))
    else if !("*." <= pattern) then None
    else
      var suffix := pattern[1..];
      if |host| <= |suffix| || host[|host| - |suffix|..] != suffix then None else Some(Rank(WILDCARD_HOST, |suffix|))
  }

  /** An equal host matches exactly; a wildcard matches the hosts with something before its suffix, and ranks below. */
  lemma {:induction false} PatternMatches(pattern: string, host: string)
    ensures pattern == host ==> MatchPattern(pattern, host) == Some(Rank(EXACT_HOST, |host|))
    ensures pattern != host ==>
      (MatchPattern(pattern, host) == Some(Rank(WILDCARD_HOST, |pattern| - 1)) <==>
       "*." <= pattern && exists sub :: IsSubdomain(host, sub, pattern[1..]))
    ensures pattern != host && MatchPattern(pattern, host).Some? ==> MatchPattern(pattern, host).value.kind == WILDCARD_HOST
  {
    if pattern != host && "*." <= pattern {
      var suffix := pattern[1..];
      if MatchPattern(pattern, host).Some? {
        var sub := host[..|host| - |suffix|];
        assert host == sub + suffix;
        assert IsSubdomain(host, sub, suffix);
      }
    }
  }

  /** `rank` is the most specific pattern's, and the lowest of all when a route names no host. */
  ghost predicate IsHostRank(hostnames: seq<string>, host: string, rank: Rank) {
    if hostnames == [] then rank == Rank(ANY_HOST, 0)
    else
      && host != "" && (exists p :: p in hostnames && MatchPattern(p, host) == Some(rank))
      && forall p :: p in hostnames && MatchPattern(p, host).Some? ==> !MoreSpecific(MatchPattern(p, host).value, rank)
  }

  method MatchHostnames(hostnames: seq<string>, host: string) returns (r: Option<Rank>)
    ensures r.Some? ==> IsHostRank(hostnames, host, r.value)
    ensures r.None? ==> forall rank :: !IsHostRank(hostnames, host, rank)
  {
    if hostnames == [] { return Some(Rank(ANY_HOST, 0)); }
    if host == "" { return None; }
    r := None;
    for i := 0 to |hostnames|
      invariant r.Some? ==> exists p :: p in hostnames && MatchPattern(p, host) == r
      invariant r.None? ==> forall k :: 0 <= k < i ==> MatchPattern(hostnames[k], host).None?
      invariant r.Some? ==> forall k :: 0 <= k < i && MatchPattern(hostnames[k], host).Some? ==>
        !MoreSpecific(MatchPattern(hostnames[k], host).value, r.value)
    {
      var m := MatchPattern(hostnames[i], host);
      if m.Some? && (r.None? || CompareRank(m.value, r.value) < 0) {
        assert hostnames[i] in hostnames;
        r := m;
      }
    }
  }

  // ----- Selection -----

  /** Created earlier, then by namespace, then by name. */
  ghost predicate Older(a: HTTPRoute, b: HTTPRoute) {
    || a.created < b.created
    || (a.created == b.created && StringLess(a.namespace, b.namespace))
    || (a.created == b.created && a.namespace == b.namespace && StringLess(a.name, b.name))
  }

  ghost predicate SameName(a: HTTPRoute, b: HTTPRoute) { a.namespace == b.namespace && a.name == b.name }

  ghost predicate ListedBefore(a: Found, b: Found) { a.rule < b.rule || (a.rule == b.rule && a.index < b.index) }

  /** The global order: the more specific hostname, then the more specific path, then the older route, then list order. */
  ghost predicate Precedes(a: Candidate, b: Candidate) {
    || MoreSpecific(a.host, b.host)
    || (a.host == b.host && MoreSpecific(a.found.path, b.found.path))
    || (a.host == b.host && a.found.path == b.found.path && Older(a.route, b.route))
    || (a.host == b.host && a.found.path == b.found.path && SameName(a.route, b.route) && a.route.created == b.route.created
        && ListedBefore(a.found, b.found))
  }

  ghost predicate MatchesAt(route: HTTPRoute, request: Request, f: Found) {
    IsPlace(route, f.rule, f.index) && MatchAt(route, f.rule, f.index, request) == Some(f)
  }

  ghost predicate IsCandidate(routes: seq<HTTPRoute>, request: Request, c: Candidate) {
    && c.route in routes && request.attached(c.route)
    && IsHostRank(c.route.hostnames, request.host, c.host) && MatchesAt(c.route, request, c.found)
  }

  /** The places before place (i, j), in list order. */
  ghost predicate Earlier(f: Found, i: nat, j: nat) { f.rule < i || (f.rule == i && f.index < j) }

  ghost predicate BestBefore(route: HTTPRoute, request: Request, i: nat, j: nat, best: Option<Found>) {
    && (best.Some? ==> MatchesAt(route, request, best.value) && Earlier(best.value, i, j))
    && forall f :: MatchesAt(route, request, f) && Earlier(f, i, j) ==> best.Some? && ComparePath(best.value, f) <= 0
  }

  lemma {:induction false} ComparePathIsAnOrder(a: Found, b: Found, c: Found)
    ensures ComparePath(a, b) == -ComparePath(b, a)
    ensures ComparePath(a, b) <= 0 && ComparePath(b, c) <= 0 ==> ComparePath(a, c) <= 0
  {
  }

  /** One step of the scan inside a route. */
  method Consider(route: HTTPRoute, request: Request, i: nat, j: nat, best: Option<Found>) returns (r: Option<Found>)
    requires IsPlace(route, i, j) && BestBefore(route, request, i, j, best)
    ensures BestBefore(route, request, i, j + 1, r)
  {
    r := best;
    var m := MatchAt(route, i, j, request);
    if m.Some? && (best.None? || ComparePath(m.value, best.value) < 0) {
      r := m;
    }
    forall f | MatchesAt(route, request, f) && Earlier(f, i, j + 1) ensures r.Some? && ComparePath(r.value, f) <= 0 {
      if Earlier(f, i, j) {
        ComparePathIsAnOrder(r.value, best.value, f);
      } else {
        assert m == Some(f);
        if best.Some? { ComparePathIsAnOrder(f, best.value, f); }
      }
    }
  }

  lemma {:induction false} NextRule(route: HTTPRoute, request: Request, i: nat, j: nat, best: Option<Found>)
    requires BestBefore(route, request, i, j, best) && i < |route.rules| && j >= 1 && j >= |route.rules[i]|
    ensures BestBefore(route, request, i + 1, 0, best)
  {
    forall f | MatchesAt(route, request, f) && Earlier(f, i + 1, 0) ensures Earlier(f, i, j) {
      assert IsPlace(route, f.rule, f.index);
    }
  }

  /** findBestHTTPRouteRuleMatch: the best match in one route by specificity, then list order. */
  method FindBestRuleMatch(route: HTTPRoute, request: Request) returns (best: Option<Found>)
    ensures best.Some? ==> MatchesAt(route, request, best.value)
    ensures forall f :: MatchesAt(route, request, f) ==> best.Some? && ComparePath(best.value, f) <= 0
  {
    best := None;
    for i := 0 to |route.rules|
      invariant BestBefore(route, request, i, 0, best)
    {
      if route.rules[i] == [] {
        best := Consider(route, request, i, 0, best);
        NextRule(route, request, i, 1, best);
      } else {
        for j := 0 to |route.rules[i]|
          invariant BestBefore(route, request, i, j, best)
        {
          best := Consider(route, request, i, j, best);
        }
        NextRule(route, request, i, |route.rules[i]|, best);
      }
    }
  }

  lemma {:induction false} StringOrder(a: string, b: string, c: string)
    ensures StringLess(a, b) ==> !StringLess(b, a) && a != b
    ensures a != b ==> StringLess(a, b) || StringLess(b, a)
    ensures StringLess(a, b) && StringLess(b, c) ==> StringLess(a, c) && a != c
    ensures !StringLess(b, a) && !StringLess(c, b) ==> !StringLess(c, a)
  {
    StringTrichotomy(a, b);
    StringTrichotomy(b, c);
    StringTrichotomy(a, c);
    if StringLess(a, b) && StringLess(b, c) {
      StringTransitive(a, b, c);
    }
  }

  lemma {:induction false} CompareMatchIsAnOrder(a: Candidate, b: Candidate, c: Candidate)
    ensures CompareMatch(a, b) == -CompareMatch(b, a)
    ensures CompareMatch(a, b) <= 0 && CompareMatch(b, c) <= 0 ==> CompareMatch(a, c) <= 0
    ensures CompareMatch(a, b) == 0 ==> a.route.name == b.route.name
  {
    StringOrder(a.route.namespace, b.route.namespace, c.route.namespace);
    StringOrder(a.route.name, b.route.name, c.route.name);
  }

  /** The two comparisons of the code, across routes and inside one, make up the global order. */
  lemma {:induction false} ComparisonsArePrecedence(a: Candidate, b: Candidate)
    ensures CompareMatch(a, b) < 0 || (CompareMatch(a, b) == 0 && ListedBefore(a.found, b.found)) <==> Precedes(a, b)
    ensures ComparePath(a.found, b.found) < 0 <==>
      MoreSpecific(a.found.path, b.found.path) || (a.found.path == b.found.path && ListedBefore(a.found, b.found))
  {
    StringOrder(a.route.namespace, b.route.namespace, a.route.namespace);
    StringOrder(a.route.name, b.route.name, a.route.name);
  }

  /** The best of a route is at least as good as its other matches, across routes too. */
  lemma {:induction false} RouteBestLeads(route: HTTPRoute, host: Rank, best: Found, f: Found)
    requires ComparePath(best, f) <= 0
    ensures CompareMatch(Candidate(route, host, best), Candidate(route, host, f)) <= 0
  {
    StringTrichotomy(route.name, route.name);
  }

  lemma {:induction false} HostRankIsUnique(hostnames: seq<string>, host: string, a: Rank, b: Rank)
    requires IsHostRank(hostnames, host, a) && IsHostRank(hostnames, host, b)
    ensures a == b
  {
    if hostnames != [] {
      var p :| p in hostnames && MatchPattern(p, host) == Some(a);
      var q :| q in hostnames && MatchPattern(q, host) == Some(b);
      assert !MoreSpecific(a, b) && !MoreSpecific(b, a);
    }
  }

  ghost predicate DistinctNames(routes: seq<HTTPRoute>) {
    forall a, b :: a in routes && b in routes && a.namespace == b.namespace && a.name == b.name ==> a == b
  }

  /** `best` leads the candidates of `routes`, and its own route. */
  ghost predicate Leads(routes: seq<HTTPRoute>, request: Request, best: Option<Candidate>) {
    && (best.Some? ==>
          && IsCandidate(routes, request, best.value)
          && forall f :: MatchesAt(best.value.route, request, f) ==> ComparePath(best.value.found, f) <= 0)
    && forall c :: IsCandidate(routes, request, c) ==> best.Some? && CompareMatch(best.value, c) <= 0
  }

  lemma {:induction false} NotACandidate(routes: seq<HTTPRoute>, route: HTTPRoute, request: Request, best: Option<Candidate>)
    requires Leads(routes, request, best) && forall c :: IsCandidate(routes + [route], request, c) ==> c.route in routes
    ensures Leads(routes + [route], request, best)
  {
    forall c | IsCandidate(routes + [route], request, c) ensures IsCandidate(routes, request, c) {
    }
  }

  /** One more route joins the comparison. */
  method Challenge(ghost routes: seq<HTTPRoute>, route: HTTPRoute, request: Request, best: Option<Candidate>, host: Rank, found: Found)
    returns (r: Option<Candidate>)
    requires Leads(routes, request, best) && request.attached(route) && IsHostRank(route.hostnames, request.host, host)
    requires MatchesAt(route, request, found) && forall f :: MatchesAt(route, request, f) ==> ComparePath(found, f) <= 0
    ensures Leads(routes + [route], request, r)
  {
    var result := Candidate(route, host, found);
    r := if best.None? || CompareMatch(result, best.value) < 0 then Some(result) else best;
    forall c | IsCandidate(routes + [route], request, c) ensures CompareMatch(r.value, c) <= 0 {
      if c.route in routes {
        assert IsCandidate(routes, request, c);
        CompareMatchIsAnOrder(r.value, best.value, c);
        CompareMatchIsAnOrder(best.value, r.value, c);
      } else {
        HostRankIsUnique(route.hostnames, request.host, host, c.host);
        RouteBestLeads(route, host, found, c.found);
        CompareMatchIsAnOrder(r.value, result, c);
      }
    }
    CompareMatchIsAnOrder(result, result, result);
  }

  ghost predicate IsFirst(routes: seq<HTTPRoute>, request: Request, best: Candidate) {
    IsCandidate(routes, request, best) && forall c :: IsCandidate(routes, request, c) && c != best ==> Precedes(best, c)
  }

  lemma {:induction false} LeaderIsFirst(routes: seq<HTTPRoute>, request: Request, best: Candidate)
    requires Leads(routes, request, Some(best)) && DistinctNames(routes)
    ensures IsFirst(routes, request, best)
  {
    forall c | IsCandidate(routes, request, c) && c != best ensures Precedes(best, c) {
      CompareMatchIsAnOrder(best, c, best);
      if CompareMatch(best, c) == 0 {
        assert c.route == best.route;
        HostRankIsUnique(c.route.hostnames, request.host, c.host, best.host);
        assert ComparePath(best.found, c.found) <= 0;
      }
      ComparisonsArePrecedence(best, c);
    }
  }

  /**
   findHTTPRouteMatch: a match is returned exactly when there is a candidate, and it is then the first of all
   candidates in the one global order, whatever order the routes are enumerated in.
   */
  method FindHTTPRouteMatch(routes: seq<HTTPRoute>, request: Request) returns (best: Option<Candidate>)
    ensures best.None? ==> forall c :: !IsCandidate(routes, request, c)
    ensures best.Some? ==> IsCandidate(routes, request, best.value)
    ensures best.Some? && DistinctNames(routes) ==> IsFirst(routes, request, best.value)
  {
    best := None;
    for k := 0 to |routes|
      invariant Leads(routes[..k], request, best)
    {
      var route := routes[k];
      assert routes[..k + 1] == routes[..k] + [route];
      if !request.attached(route) {
        NotACandidate(routes[..k], route, request, best);
        continue;
      }
      var host := MatchHostnames(route.hostnames, request.host);
      if host.None? {
        NotACandidate(routes[..k], route, request, best);
        continue;
      }
      var found := FindBestRuleMatch(route, request);
      if found.None? {
        NotACandidate(routes[..k], route, request, best);
      } else {
        best := Challenge(routes[..k], route, request, best, host.value, found.value);
      }
    }
    assert routes[..|routes|] == routes;
    if best.Some? && DistinctNames(routes) {
      LeaderIsFirst(routes, request, best.value);
    }
  }

  /** There is one first candidate, and it depends only on which routes there are. */
  lemma {:induction false} FirstIsUnique(routes: seq<HTTPRoute>, routes': seq<HTTPRoute>, request: Request, a: Candidate, b: Candidate)
    requires forall r :: r in routes <==> r in routes'
    requires IsFirst(routes, request, a) && IsFirst(routes', request, b)
    ensures a == b
  {
    assert IsCandidate(routes', request, a) && IsCandidate(routes, request, b);
    CompareMatchIsAnOrder(a, b, a);
    ComparisonsArePrecedence(a, b);
    ComparisonsArePrecedence(b, a);
  }
}
