/**
 The ModelRoute indexes of the router's store (pkg/kthena-router/datastore/store.go).

 The reference is the map of live routes.  `routes` and `loraRoutes` list them by base model and by LoRA adapter,
 oldest first.  Whether a route accepts a request (its parent gateways and rules) is a parameter of the lookup.
 */
module ModelRoutes {
  import opened Common
  import opened GoStrings

  datatype Route = Route(namespace: string, name: string, model: string, loras: seq<string>, created: int, version: string)

  datatype Info = Info(model: string, loras: seq<string>)

  datatype Kind = Model | Lora

  type Live = map<string, Route>

  type Index = map<string, seq<Route>>

  function Key(r: Route): string { r.namespace + "/" + r.name }

  function FirstSlash(s: string): nat { if s == [] || s[0] == '/' then 0 else 1 + FirstSlash(s[1..]) }

  lemma {:induction false} SlashFollows(namespace: string, name: string)
    requires '/' !in namespace
    ensures FirstSlash(namespace + "/" + name) == |namespace|
  {
    var s := namespace + "/" + name;
    if namespace != [] {
      SlashFollows(namespace[1..], name);
      assert s[1..] == namespace[1..] + "/" + name && s[0] == namespace[0];
    }
  }

  /** Keys tell routes apart, since a namespace holds no slash. */
  lemma {:induction false} KeyIsUnique(a: Route, b: Route)
    requires '/' !in a.namespace && '/' !in b.namespace
    ensures Key(a) == Key(b) <==> a.namespace == b.namespace && a.name == b.name
  {
    SlashFollows(a.namespace, a.name);
    SlashFollows(b.namespace, b.name);
    var n, m := |a.namespace|, |b.namespace|;
    assert a.namespace == Key(a)[..n] && b.namespace == Key(b)[..m];
    assert a.name == Key(a)[n + 1..] && b.name == Key(b)[m + 1..];
  }

  /** Route `r` registers name `n` as a base model or as an adapter. */
  predicate Names(kind: Kind, r: Route, n: string) {
    match kind
    case Model => n != "" && r.model == n
    case Lora => n in r.loras
  }

  // ----- Order of routes under one name -----

  /** Oldest first, then by resource version, then by key. */
  predicate Less(a: Route, b: Route) {
    if a.created != b.created then a.created < b.created
    else if a.version != b.version then StringLess(a.version, b.version)
    else StringLess(Key(a), Key(b))
  }

  lemma {:induction false} LessIsTotal(a: Route, b: Route)
    requires Key(a) != Key(b)
    ensures Less(a, b) != Less(b, a)
  {
    StringTrichotomy(a.version, b.version);
    StringTrichotomy(Key(a), Key(b));
  }

  lemma {:induction false} LessIsIrreflexive(a: Route)
    ensures !Less(a, a)
  {
    StringTrichotomy(Key(a), Key(a));
  }

  lemma {:induction false} LessIsTransitive(a: Route, b: Route, c: Route)
    requires Less(a, b) && Less(b, c)
    ensures Less(a, c)
  {
    if a.created == b.created == c.created {
      if a.version != b.version && b.version != c.version {
        StringTransitive(a.version, b.version, c.version);
        StringTrichotomy(a.version, c.version);
      } else if a.version == b.version == c.version {
        StringTransitive(Key(a), Key(b), Key(c));
      }
    }
  }

  ghost predicate Older(a: Route, b: Route) {
    || a.created < b.created
    || (a.created == b.created && StringLess(a.version, b.version))
    || (a.created == b.created && a.version == b.version && StringLess(Key(a), Key(b)))
  }

  /** The comparator puts the route created first first; the resource version and then the key break ties. */
  lemma {:induction false} LessIsOlder(a: Route, b: Route)
    ensures Less(a, b) <==> Older(a, b)
  {
    StringTrichotomy(a.version, b.version);
  }

  ghost predicate Sorted(list: seq<Route>) {
    forall i, j :: 0 <= i < j < |list| ==> Less(list[i], list[j])
  }

  ghost predicate DistinctKeys(list: seq<Route>) {
    forall i, j :: 0 <= i < j < |list| ==> Key(list[i]) != Key(list[j])
  }

  lemma {:induction false} InsertedIsSorted(front: seq<Route>, x: Route, back: seq<Route>)
    requires Sorted(front + back)
    requires front != [] ==> Less(front[|front| - 1], x)
    requires back != [] ==> Less(x, back[0])
    ensures Sorted(front + [x] + back)
  {
    var s, r, at := front + back, front + [x] + back, |front|;
    forall i, j | 0 <= i < j < |r| ensures Less(r[i], r[j]) {
      if i == at {
        assert r[j] == s[j - 1] && s[at] == back[0];
        if j - 1 > at { LessIsTransitive(x, s[at], s[j - 1]); }
      } else if j == at {
        assert r[i] == s[i] && s[at - 1] == front[at - 1];
        if i < at - 1 { LessIsTransitive(s[i], s[at - 1], x); }
      } else {
        var i', j' := if i < at then i else i - 1, if j < at then j else j - 1;
        assert r[i] == s[i'] && r[j] == s[j'];
      }
    }
  }

  method Inserted(s: seq<Route>, x: Route, at: nat) returns (r: seq<Route>)
    requires Sorted(s) && at <= |s| && (at > 0 ==> Less(s[at - 1], x)) && (at < |s| ==> Less(x, s[at]))
    ensures Sorted(r) && multiset(r) == multiset(s) + multiset{x}
  {
    assert s == s[..at] + s[at..];
    InsertedIsSorted(s[..at], x, s[at..]);
    r := s[..at] + [x] + s[at..];
  }

  lemma {:induction false} OtherKey(list: seq<Route>, i: nat, r: seq<Route>, k: nat)
    requires DistinctKeys(list) && i < |list| && multiset(r) == multiset(list[..i]) && k < |r|
    ensures Key(r[k]) != Key(list[i])
  {
    assert r[k] in multiset(r);
    assert r[k] in list[..i];
  }

  /** sortModelRoutesInPlace on routes with distinct keys; their order is then unique. */
  method SortModelRoutes(list: seq<Route>) returns (r: seq<Route>)
    requires DistinctKeys(list)
    ensures Sorted(r) && multiset(r) == multiset(list)
  {
    r := [];
    for i := 0 to |list|
      invariant Sorted(r) && multiset(r) == multiset(list[..i])
    {
      var x, at := list[i], |r|;
      while at > 0 && Less(x, r[at - 1])
        invariant 0 <= at <= |r|
        invariant at < |r| ==> Less(x, r[at])
      {
        at := at - 1;
      }
      if at > 0 {
        OtherKey(list, i, r, at - 1);
        LessIsTotal(x, r[at - 1]);
      }
      assert list[..i + 1] == list[..i] + [x];
      r := Inserted(r, x, at);
    }
    assert list[..|list|] == list;
  }

  // ----- Indexes -----

  /** Route `r` is live and registers `n`. */
  ghost predicate Registers(live: Live, kind: Kind, n: string, r: Route) {
    Key(r) in live && live[Key(r)] == r && Names(kind, r, n)
  }

  function At(index: Index, n: string): seq<Route> { if n in index then index[n] else [] }

  /** Under `n` the index lists exactly the live routes that register it, in order, and no empty list. */
  ghost predicate Lists(index: Index, live: Live, kind: Kind, n: string) {
    && (n in index ==> index[n] != []) && Sorted(At(index, n))
    && forall r :: r in At(index, n) <==> Registers(live, kind, n, r)
  }

  lemma {:induction false} ListedKeysAreDistinct(index: Index, live: Live, kind: Kind, n: string)
    requires Lists(index, live, kind, n)
    ensures DistinctKeys(At(index, n))
  {
    var list := At(index, n);
    forall i, j | 0 <= i < j < |list| ensures Key(list[i]) != Key(list[j]) {
      assert list[i] in list && list[j] in list;
      LessIsIrreflexive(list[i]);
    }
  }

  function Without(list: seq<Route>, key: string): (r: seq<Route>)
    ensures forall x :: x in r <==> x in list && Key(x) != key
  {
    if list == [] then [] else
      var rest := Without(list[..|list| - 1], key);
      if Key(list[|list| - 1]) == key then rest else rest + [list[|list| - 1]]
  }

  lemma {:induction false} WithoutIsSorted(list: seq<Route>, key: string)
    requires Sorted(list)
    ensures Sorted(Without(list, key))
  {
    if list != [] {
      var init, last := list[..|list| - 1], list[|list| - 1];
      WithoutIsSorted(init, key);
      forall x | x in Without(init, key) ensures Less(x, last) {
        var k :| 0 <= k < |init| && init[k] == x;
        assert list[k] == x;
      }
    }
  }

  method FilterOut(list: seq<Route>, key: string) returns (rest: seq<Route>)
    ensures rest == Without(list, key)
  {
    rest := [];
    for i := 0 to |list|
      invariant rest == Without(list[..i], key)
    {
      assert list[..i + 1][..i] == list[..i];
      if Key(list[i]) != key {
        rest := rest + [list[i]];
      }
    }
    assert list[..|list|] == list;
  }

  /** Taking the route with `key` off the list of one name. */
  method Drop(index: Index, n: string, key: string, ghost live: Live, ghost kind: Kind) returns (r: Index, emptied: bool)
    requires Lists(index, live, kind, n)
    ensures forall m :: m != n ==> At(r, m) == At(index, m) && (m in r <==> m in index)
    ensures Lists(r, live - {key}, kind, n) && emptied == (n !in r) && (n !in index ==> emptied)
  {
    var list := At(index, n);
    WithoutIsSorted(list, key);
    var rest := FilterOut(list, key);
    emptied := rest == [];
    r := if emptied then index - {n} else index[n := rest];
    assert At(r, n) == rest;
  }

  lemma {:induction false} SameElements(a: seq<Route>, b: seq<Route>)
    requires multiset(a) == multiset(b)
    ensures forall x :: x in a <==> x in b
  {
    forall x ensures x in a <==> x in b {
      assert x in a <==> x in multiset(a);
      assert x in b <==> x in multiset(b);
    }
  }

  /** The append-or-replace of AddOrUpdateModelRoute: a listed route with the same namespace and name is replaced. */
  method Upsert(list: seq<Route>, mr: Route) returns (r: seq<Route>)
    requires DistinctKeys(list) && forall x :: x in list && Key(x) == Key(mr) ==> x == mr
    ensures Sorted(r) && forall x :: x in r <==> x in list || x == mr
  {
    for i := 0 to |list|
      invariant forall k :: 0 <= k < i ==> list[k] != mr
    {
      if list[i].namespace == mr.namespace && list[i].name == mr.name {
        assert list[i] in list && list[i := mr] == list;
        r := SortModelRoutes(list[i := mr]);
        SameElements(r, list);
        return;
      }
    }
    assert forall k :: 0 <= k < |list| ==> list[k] in list && Key(list[k]) != Key(mr);
    r := SortModelRoutes(list + [mr]);
    SameElements(r, list + [mr]);
  }

  /** Adding route `mr`, whose key is not live yet or is its own, to the list of one name. */
  method Put(index: Index, n: string, mr: Route, ghost live: Live, ghost kind: Kind) returns (r: Index)
    requires Lists(index, live, kind, n) && Names(kind, mr, n) && (Key(mr) in live ==> live[Key(mr)] == mr)
    ensures forall m :: m != n ==> At(r, m) == At(index, m) && (m in r <==> m in index)
    ensures Lists(r, live[Key(mr) := mr], kind, n)
  {
    ListedKeysAreDistinct(index, live, kind, n);
    var sorted := Upsert(At(index, n), mr);
    assert mr in sorted;
    r := index[n := sorted];
  }

  ghost predicate Indexes(index: Index, live: Live, kind: Kind) {
    forall n :: Lists(index, live, kind, n)
  }

  lemma {:induction false} UnnamedUnaffected(index: Index, live: Live, live': Live, kind: Kind, n: string)
    requires Lists(index, live, kind, n)
    requires forall r :: Registers(live, kind, n, r) <==> Registers(live', kind, n, r)
    ensures Lists(index, live', kind, n)
  {
  }

  lemma {:induction false} SameListing(index: Index, index': Index, live: Live, kind: Kind, n: string)
    requires Lists(index, live, kind, n) && At(index', n) == At(index, n) && (n in index' <==> n in index)
    ensures Lists(index', live, kind, n)
  {
  }

  /** The names in `done` are listed as of `after`, the others as of `before`. */
  ghost predicate ListsPartly(index: Index, done: seq<string>, before: Live, after: Live, kind: Kind, n: string) {
    Lists(index, if n in done then after else before, kind, n)
  }

  /** Takes the route with `key` off every list it is on; `emptied` are the names left without any route. */
  method DropAll(index: Index, names: seq<string>, key: string, ghost live: Live, ghost kind: Kind) returns (r: Index, emptied: seq<string>)
    requires Indexes(index, live, kind) && (key in live ==> forall n :: Names(kind, live[key], n) ==> n in names)
    ensures Indexes(r, live - {key}, kind) && forall n :: n in emptied <==> n in names && n !in r
  {
    r, emptied := index, [];
    ghost var live' := live - {key};
    for i := 0 to |names|
      invariant forall n :: ListsPartly(r, names[..i], live, live', kind, n)
      invariant forall n :: n in emptied <==> n in names[..i] && n !in r
    {
      ghost var before, n0 := r, names[i];
      assert live' - {key} == live';
      var last;
      assert ListsPartly(r, names[..i], live, live', kind, n0);
      r, last := Drop(r, names[i], key, if n0 in names[..i] then live' else live, kind);
      if last {
        emptied := emptied + [names[i]];
      }
      ghost var done := names[..i + 1];
      assert done == names[..i] + [n0];
      forall n | n != n0 ensures ListsPartly(r, done, live, live', kind, n) {
        assert ListsPartly(before, names[..i], live, live', kind, n);
        SameListing(before, r, if n in names[..i] then live' else live, kind, n);
      }
    }
    assert names[..|names|] == names;
    forall n ensures ListsPartly(r, names, live', live', kind, n) {
      assert ListsPartly(r, names, live, live', kind, n);
      if n !in names {
        UnnamedUnaffected(r, live, live', kind, n);
      }
    }
    assert forall n :: ListsPartly(r, names, live', live', kind, n) ==> Lists(r, live', kind, n);
  }

  /** Lists route `mr` under all its names. */
  method PutAll(index: Index, names: seq<string>, mr: Route, ghost live: Live, ghost kind: Kind) returns (r: Index)
    requires Indexes(index, live, kind) && Key(mr) !in live && forall n :: n in names <==> Names(kind, mr, n)
    ensures Indexes(r, live[Key(mr) := mr], kind)
  {
    r := index;
    ghost var live' := live[Key(mr) := mr];
    for i := 0 to |names|
      invariant forall n :: ListsPartly(r, names[..i], live, live', kind, n)
    {
      ghost var before, n0 := r, names[i];
      assert live'[Key(mr) := mr] == live' && n0 in names;
      assert ListsPartly(r, names[..i], live, live', kind, n0);
      r := Put(r, names[i], mr, if n0 in names[..i] then live' else live, kind);
      ghost var done := names[..i + 1];
      assert done == names[..i] + [n0];
      forall n | n != n0 ensures ListsPartly(r, done, live, live', kind, n) {
        assert ListsPartly(before, names[..i], live, live', kind, n);
        SameListing(before, r, if n in names[..i] then live' else live, kind, n);
      }
    }
    assert names[..|names|] == names;
    forall n ensures ListsPartly(r, names, live', live', kind, n) {
      assert ListsPartly(r, names, live, live', kind, n);
      if n !in names {
        UnnamedUnaffected(r, live, live', kind, n);
      }
    }
    assert forall n :: ListsPartly(r, names, live', live', kind, n) ==> Lists(r, live', kind, n);
  }

  // ----- The store -----

  ghost predicate Keyed(live: Live) { forall k :: k in live ==> Key(live[k]) == k }

  /** Some live route registers `n`. */
  ghost predicate Registered(live: Live, n: string) { exists kind, k :: k in live && Names(kind, live[k], n) }

  /** The route with `key` is the only one that registers `n` as a `kind`. */
  ghost predicate OnlyOne(live: Live, key: string, kind: Kind, n: string) {
    key in live && Names(kind, live[key], n) && forall k :: k in live && k != key ==> !Names(kind, live[k], n)
  }

  /** Removing the route with `key` leaves the list of base models or the list of adapters under `n` empty. */
  ghost predicate Orphaned(live: Live, key: string, n: string) {
    OnlyOne(live, key, Model, n) || OnlyOne(live, key, Lora, n)
  }

  function ModelNames(model: string): seq<string> { if model != "" then [model] else [] }

  lemma {:induction false} UnlistedIffOnlyOne(index: Index, live: Live, key: string, kind: Kind, n: string)
    requires Lists(index, live - {key}, kind, n) && Keyed(live) && key in live
    ensures Names(kind, live[key], n) && n !in index <==> OnlyOne(live, key, kind, n)
  {
    if n in index {
      var r := index[n][0];
      assert r in At(index, n) && Registers(live - {key}, kind, n, r);
    } else {
      forall k | k in live && k != key ensures !Names(kind, live[k], n) {
        assert live[k] in At(index, n) <==> Registers(live - {key}, kind, n, live[k]);
      }
    }
  }

  /** removeModelRouteFromIndexesLocked: both indexes without the route, and the names whose queue may have to go. */
  method Unindex(routes: Index, loraRoutes: Index, info: Option<Info>, key: string, ghost live: Live)
    returns (routes': Index, loraRoutes': Index, candidates: seq<string>)
    requires Indexes(routes, live, Model) && Indexes(loraRoutes, live, Lora) && Keyed(live)
    requires info == if key in live then Some(Info(live[key].model, live[key].loras)) else None
    ensures Indexes(routes', live - {key}, Model) && Indexes(loraRoutes', live - {key}, Lora)
    ensures forall n :: n in candidates <==> Orphaned(live, key, n)
  {
    if info.None? {
      assert live - {key} == live;
      return routes, loraRoutes, [];
    }
    var models, loras;
    routes', models := DropAll(routes, ModelNames(info.value.model), key, live, Model);
    loraRoutes', loras := DropAll(loraRoutes, info.value.loras, key, live, Lora);
    candidates := models + loras;
    forall n ensures n in candidates <==> Orphaned(live, key, n) {
      UnlistedIffOnlyOne(routes', live, key, Model, n);
      UnlistedIffOnlyOne(loraRoutes', live, key, Lora, n);
    }
  }

  /** The names a route registers that no live route registers any more. */
  ghost predicate Abandoned(before: Live, key: string, live: Live, n: string) {
    key in before && (Names(Model, before[key], n) || Names(Lora, before[key], n)) && !Registered(live, n)
  }

  lemma {:induction false} ListedIffNamed(index: Index, live: Live, kind: Kind, n: string)
    requires Lists(index, live, kind, n) && Keyed(live)
    ensures n in index <==> exists k :: k in live && Names(kind, live[k], n)
  {
    if n in index {
      var r := index[n][0];
      assert r in At(index, n) && Registers(live, kind, n, r);
    } else {
      forall k | k in live ensures !Names(kind, live[k], n) {
        assert live[k] in At(index, n) <==> Registers(live, kind, n, live[k]);
      }
    }
  }

  lemma {:induction false} UnlistedIffUnregistered(routes: Index, loraRoutes: Index, live: Live, n: string)
    requires Indexes(routes, live, Model) && Indexes(loraRoutes, live, Lora) && Keyed(live)
    ensures n in routes <==> exists k :: k in live && Names(Model, live[k], n)
    ensures n in loraRoutes <==> exists k :: k in live && Names(Lora, live[k], n)
    ensures Registered(live, n) <==> n in routes || n in loraRoutes
  {
    ListedIffNamed(routes, live, Model, n);
    ListedIffNamed(loraRoutes, live, Lora, n);
    if Registered(live, n) {
      var kind, k :| k in live && Names(kind, live[k], n);
      match kind { case Model => case Lora => }
    }
  }

  /** A name of the replaced route that nothing registers after the update lost its last route of its kind. */
  lemma {:induction false} AbandonedIsOrphaned(before: Live, mr: Route, n: string)
    requires Keyed(before)
    ensures Abandoned(before, Key(mr), before[Key(mr) := mr], n) ==> Orphaned(before, Key(mr), n)
    ensures Orphaned(before, Key(mr), n) && !Registered(before[Key(mr) := mr], n) ==> Abandoned(before, Key(mr), before[Key(mr) := mr], n)
  {
    var live := before[Key(mr) := mr];
    if !Registered(live, n) {
      forall kind, k | k in before && k != Key(mr) ensures !Names(kind, before[k], n) {
        assert live[k] == before[k];
      }
    }
  }

  lemma {:induction false} AbandonedNames(routes: Index, loraRoutes: Index, before: Live, mr: Route, candidates: seq<string>)
    requires var live := before[Key(mr) := mr]; Indexes(routes, live, Model) && Indexes(loraRoutes, live, Lora)
    requires Keyed(before) && forall n :: n in candidates <==> Orphaned(before, Key(mr), n)
    ensures forall n :: n in candidates && n !in routes && n !in loraRoutes <==> Abandoned(before, Key(mr), before[Key(mr) := mr], n)
  {
    forall n ensures n in candidates && n !in routes && n !in loraRoutes <==> Abandoned(before, Key(mr), before[Key(mr) := mr], n) {
      UnlistedIffUnregistered(routes, loraRoutes, before[Key(mr) := mr], n);
      AbandonedIsOrphaned(before, mr, n);
    }
  }

  /** The index part of AddOrUpdateModelRoute, and the names whose queues are then closed. */
  method Reindex(routes: Index, loraRoutes: Index, info: Option<Info>, mr: Route, ghost live: Live)
    returns (models: Index, loras: Index, closing: set<string>)
    requires Indexes(routes, live, Model) && Indexes(loraRoutes, live, Lora) && Keyed(live)
    requires info == if Key(mr) in live then Some(Info(live[Key(mr)].model, live[Key(mr)].loras)) else None
    ensures var after := live[Key(mr) := mr];
      && Indexes(models, after, Model) && Indexes(loras, after, Lora)
      && forall n :: n in closing <==> Abandoned(live, Key(mr), after, n)
  {
    var candidates;
    ghost var rest := live - {Key(mr)};
    models, loras, candidates := Unindex(routes, loraRoutes, info, Key(mr), live);
    models := PutAll(models, ModelNames(mr.model), mr, rest, Model);
    loras := PutAll(loras, mr.loras, mr, rest, Lora);
    assert rest[Key(mr) := mr] == live[Key(mr) := mr];
    closing := set n | n in candidates && n !in models && n !in loras;
    AbandonedNames(models, loras, live, mr, candidates);
  }

  method Find(list: seq<Route>, key: string) returns (r: Option<Route>)
    ensures r.Some? ==> r.value in list && Key(r.value) == key
    ensures r.None? ==> forall x :: x in list ==> Key(x) != key
  {
    for i := 0 to |list|
      invariant forall k :: 0 <= k < i ==> Key(list[k]) != key
    {
      if Key(list[i]) == key { return Some(list[i]); }
    }
    r := None;
  }

  method FirstAccepting(list: seq<Route>, accepts: Route -> bool) returns (r: Option<Route>)
    requires Sorted(list)
    ensures r.Some? ==> r.value in list && accepts(r.value) &&
                        forall x :: x in list && accepts(x) && x != r.value ==> Less(r.value, x)
    ensures r.None? ==> forall x :: x in list ==> !accepts(x)
  {
    for i := 0 to |list|
      invariant forall k :: 0 <= k < i ==> !accepts(list[k])
    {
      if accepts(list[i]) { return Some(list[i]); }
    }
    r := None;
  }

  // ----- Operations between publication and clean-up -----

  /** What other goroutines do to the routes and to the waiting queues; the clean-up of any of them is a `Close`. */
  datatype Op = Put(route: Route) | Remove(key: string) | Open(name: string) | Close(names: set<string>)

  ghost function LiveAfter(live: Live, ops: seq<Op>): Live {
    if ops == [] then live else
      var was := LiveAfter(live, ops[..|ops| - 1]);
      match ops[|ops| - 1]
      case Put(mr) => was[Key(mr) := mr]
      case Remove(key) => was - {key}
      case _ => was
  }

  ghost function QueuesAfter(queues: set<string>, ops: seq<Op>): set<string> {
    if ops == [] then queues else
      var was := QueuesAfter(queues, ops[..|ops| - 1]);
      match ops[|ops| - 1]
      case Open(n) => was + {n}
      case Close(names) => was - names
      case _ => was
  }

  /** After the operations a route that one of them put registers `n`. */
  ghost predicate PutAgain(live: Live, ops: seq<Op>, n: string) {
    var after := LiveAfter(live, ops);
    exists i, kind :: 0 <= i < |ops| && ops[i].Put? && Names(kind, ops[i].route, n)
                      && Key(ops[i].route) in after && after[Key(ops[i].route)] == ops[i].route
  }

  /** After the operations a route that was there before still registers `n`. */
  ghost predicate Kept(live: Live, ops: seq<Op>, n: string) {
    var after := LiveAfter(live, ops);
    exists k, kind :: k in live && Names(kind, live[k], n) && k in after && after[k] == live[k]
  }

  ghost predicate PutAs(ops: seq<Op>, key: string, mr: Route) {
    exists i :: 0 <= i < |ops| && ops[i].Put? && Key(ops[i].route) == key && ops[i].route == mr
  }

  /** A live route was there before, or was put by one of the operations. */
  lemma {:induction false} LiveOrPut(live: Live, ops: seq<Op>, key: string)
    requires key in LiveAfter(live, ops)
    ensures var mr := LiveAfter(live, ops)[key]; (key in live && live[key] == mr) || PutAs(ops, key, mr)
  {
    if ops != [] {
      var front, last := ops[..|ops| - 1], ops[|ops| - 1];
      if !(last.Put? && Key(last.route) == key) {
        LiveOrPut(live, front, key);
        assert forall i :: 0 <= i < |front| ==> front[i] == ops[i];
      }
    }
  }

  /** A name has a route after the operations exactly when it kept one or one of them put it there. */
  lemma {:induction false} RegisteredAfterIff(live: Live, ops: seq<Op>, n: string)
    ensures Registered(LiveAfter(live, ops), n) <==> Kept(live, ops, n) || PutAgain(live, ops, n)
    ensures Kept(live, ops, n) ==> Registered(live, n)
  {
    var after := LiveAfter(live, ops);
    if Registered(after, n) {
      var kind, k :| k in after && Names(kind, after[k], n);
      LiveOrPut(live, ops, k);
      if PutAs(ops, k, after[k]) {
        var i :| 0 <= i < |ops| && ops[i].Put? && Key(ops[i].route) == k && ops[i].route == after[k];
        assert Names(kind, ops[i].route, n);
      }
    }
  }

  class RouteStore {
    var routeInfo: map<string, Info>
    var routes: Index
    var loraRoutes: Index
    /** The names that have an open waiting queue. */
    var queues: set<string>
    ghost var live: Live

    /** Both indexes are exactly the live routes, grouped by name. */
    ghost predicate Valid()
      reads this
    {
      && Keyed(live) && Indexes(routes, live, Model) && Indexes(loraRoutes, live, Lora)
      && routeInfo.Keys == live.Keys && forall k :: k in live ==> routeInfo[k] == Info(live[k].model, live[k].loras)
    }

    constructor ()
      ensures Valid() && live == map[] && queues == {}
    {
      routeInfo, routes, loraRoutes, queues, live := map[], map[], map[], {}, map[];
    }

    /** The part of AddOrUpdateModelRoute under the route lock: to close are the names that nothing registers any more. */
    method PublishModelRoute(mr: Route) returns (closing: set<string>)
      requires Valid()
      modifies `routeInfo, `routes, `loraRoutes, `live
      ensures Valid() && live == old(live)[Key(mr) := mr]
      ensures forall n :: n in closing <==> Abandoned(old(live), Key(mr), live, n)
    {
      var key := Key(mr);
      var info := if key in routeInfo then Some(routeInfo[key]) else None;
      var models, loras;
      models, loras, closing := Reindex(routes, loraRoutes, info, mr, live);
      routes, loraRoutes, live := models, loras, live[key := mr];
      routeInfo := routeInfo[key := Info(mr.model, mr.loras)];
    }

    /** The part of DeleteModelRoute under the route lock: to close are the names left without a route of one kind. */
    method UnpublishModelRoute(key: string) returns (closing: set<string>)
      requires Valid()
      modifies `routeInfo, `routes, `loraRoutes, `live
      ensures Valid() && live == old(live) - {key}
      ensures forall n :: n in closing <==> Orphaned(old(live), key, n)
    {
      var info := if key in routeInfo then Some(routeInfo[key]) else None;
      var models, loras, candidates := Unindex(routes, loraRoutes, info, key, live);
      live, routes, loraRoutes, routeInfo := live - {key}, models, loras, routeInfo - {key};
      closing := set n | n in candidates;
    }

    /** cleanRequestWaitingQueues, which runs after the route lock is released. */
    method CleanRequestWaitingQueues(names: set<string>)
      requires Valid()
      modifies `queues
      ensures Valid() && queues == old(queues) - names
    {
      queues := queues - names;
    }

    /** An update closes the queues of exactly those names of the replaced route that are no longer registered. */
    method AddOrUpdateModelRoute(mr: Route)
      requires Valid()
      modifies this
      ensures Valid() && live == old(live)[Key(mr) := mr]
      ensures queues <= old(queues)
      ensures forall n :: n in old(queues) ==> (n !in queues <==> Abandoned(old(live), Key(mr), live, n))
      ensures forall n :: n in old(queues) && Registered(live, n) ==> n in queues
    {
      var closing := PublishModelRoute(mr);
      CleanRequestWaitingQueues(closing);
    }

    /** Any operations of other goroutines. */
    method Interleave(ops: seq<Op>)
      requires Valid()
      modifies this
      ensures Valid() && live == LiveAfter(old(live), ops) && queues == QueuesAfter(old(queues), ops)
    {
      assert ops[..|ops|] == ops;
      for i := 0 to |ops|
        invariant Valid() && live == LiveAfter(old(live), ops[..i]) && queues == QueuesAfter(old(queues), ops[..i])
      {
        assert ops[..i + 1][..i] == ops[..i];
        match ops[i] {
          case Put(mr) => var unused := PublishModelRoute(mr);
          case Remove(key) => var unused := UnpublishModelRoute(key);
          case Open(n) => queues := queues + {n};
          case Close(names) => CleanRequestWaitingQueues(names);
        }
      }
    }

    /**
     Whatever runs between publication and clean-up: an update closes the queue of a registered name exactly when it
     abandoned the name and one of these operations put it back.
     */
    method UpdateAmid(mr: Route, ops: seq<Op>)
      requires Valid()
      modifies this
      ensures var published := old(live)[Key(mr) := mr];
        && Valid() && live == LiveAfter(published, ops) && queues <= QueuesAfter(old(queues), ops)
        && forall n :: n in QueuesAfter(old(queues), ops) ==>
             && (n !in queues <==> Abandoned(old(live), Key(mr), published, n))
             && (n !in queues && Registered(live, n) <==>
                 Abandoned(old(live), Key(mr), published, n) && PutAgain(published, ops, n))
    {
      var closing := PublishModelRoute(mr);
      ghost var published := live;
      Interleave(ops);
      CleanRequestWaitingQueues(closing);
      forall n | n in closing ensures Registered(live, n) <==> PutAgain(published, ops, n) {
        RegisteredAfterIff(published, ops, n);
      }
    }

    /** It happens: a later route registers an abandoned name again, a request opens its queue, the clean-up closes it. */
    method CleanUpAfterLateAdd(mr: Route, later: Route, n: string)
      requires Valid() && Abandoned(live, Key(mr), live[Key(mr) := mr], n) && (Names(Model, later, n) || Names(Lora, later, n))
      modifies this
      ensures Valid() && Registered(live, n) && n !in queues
    {
      var closing := PublishModelRoute(mr);
      var unused := PublishModelRoute(later);
      queues := queues + {n};
      assert Key(later) in live && live[Key(later)] == later;
      CleanRequestWaitingQueues(closing);
    }

    /** A deletion closes the queues of exactly the names whose base-model list or adapter list it leaves empty. */
    method DeleteModelRoute(key: string)
      requires Valid()
      modifies this
      ensures Valid() && live == old(live) - {key}
      ensures queues <= old(queues)
      ensures forall n :: n in old(queues) ==> (n !in queues <==> Orphaned(old(live), key, n))
    {
      var closing := UnpublishModelRoute(key);
      CleanRequestWaitingQueues(closing);
    }

    /**
     Whatever runs between: a deletion closes the queue of a registered name exactly when it had left the name without
     a route of one kind, and it kept one of the other kind or one of these operations put it back.
     */
    method DeleteAmid(key: string, ops: seq<Op>)
      requires Valid()
      modifies this
      ensures var rest := old(live) - {key};
        && Valid() && live == LiveAfter(rest, ops) && queues <= QueuesAfter(old(queues), ops)
        && forall n :: n in QueuesAfter(old(queues), ops) ==>
             && (n !in queues <==> Orphaned(old(live), key, n))
             && (n !in queues && Registered(live, n) <==>
                 Orphaned(old(live), key, n) && (Kept(rest, ops, n) || PutAgain(rest, ops, n)))
    {
      var closing := UnpublishModelRoute(key);
      ghost var rest := live;
      Interleave(ops);
      CleanRequestWaitingQueues(closing);
      forall n ensures Registered(live, n) <==> Kept(rest, ops, n) || PutAgain(rest, ops, n) {
        RegisteredAfterIff(rest, ops, n);
      }
    }

    method HasModel(n: string) returns (r: bool)
      requires Valid()
      ensures r <==> Registered(live, n)
    {
      UnlistedIffUnregistered(routes, loraRoutes, live, n);
      r := n in routes || n in loraRoutes;
    }

    /** A live route is found unless it registers nothing. */
    method GetModelRoute(key: string) returns (r: Option<Route>)
      requires Valid()
      ensures r == if key in live && (live[key].model != "" || live[key].loras != []) then Some(live[key]) else None
    {
      if key !in routeInfo { return None; }
      var info := routeInfo[key];
      if info.model != "" {
        assert Registers(live, Model, info.model, live[key]) && Lists(routes, live, Model, info.model);
        r := Find(At(routes, info.model), key);
        assert live[key] in At(routes, info.model);
        return;
      }
      if info.loras != [] {
        assert Registers(live, Lora, info.loras[0], live[key]) && Lists(loraRoutes, live, Lora, info.loras[0]);
        assert live[key] in At(loraRoutes, info.loras[0]);
      }
      for i := 0 to |info.loras|
        invariant forall k :: 0 <= k < i ==> live[key] !in At(loraRoutes, info.loras[k])
      {
        assert Registers(live, Lora, info.loras[i], live[key]) && Lists(loraRoutes, live, Lora, info.loras[i]);
        r := Find(At(loraRoutes, info.loras[i]), key);
        assert live[key] in At(loraRoutes, info.loras[i]);
        if r.Some? { return; }
      }
      return None;
    }

    /** The oldest accepting route: among those of the base model if it has any, otherwise among those of the adapter. */
    method MatchModelRoute(n: string, accepts: Route -> bool) returns (r: Option<Route>, isLora: bool)
      requires Valid()
      ensures var kind := if exists k :: k in live && Names(Model, live[k], n) then Model else Lora;
        && (r.Some? ==> isLora == kind.Lora? && Registers(live, kind, n, r.value) && accepts(r.value)
                        && forall x :: Registers(live, kind, n, x) && accepts(x) && x != r.value ==> Older(r.value, x))
        && (r.None? ==> !isLora && forall x :: Registers(live, kind, n, x) ==> !accepts(x))
    {
      UnlistedIffUnregistered(routes, loraRoutes, live, n);
      forall a, b ensures Less(a, b) <==> Older(a, b) { LessIsOlder(a, b); }
      assert Lists(routes, live, Model, n) && Lists(loraRoutes, live, Lora, n);
      if n in routes {
        isLora := false;
        r := FirstAccepting(routes[n], accepts);
      } else {
        isLora := true;
        if n !in loraRoutes { return None, false; }
        r := FirstAccepting(loraRoutes[n], accepts);
        isLora := r.Some?;
      }
    }
  }

  // ----- Queues and registration -----

  function Other(kind: Kind): Kind { if kind.Model? then Lora else Model }

  /** The route with `key` is the last to register `n` as a `kind`, but another one registers it as the other kind. */
  ghost predicate LastOfKindOnly(live: Live, key: string, kind: Kind, n: string) {
    OnlyOne(live, key, kind, n) && exists k :: k in live && k != key && Names(Other(kind), live[k], n)
  }

  /** When a deletion closes the queue of a name that stays registered. */
  lemma {:induction false} DeletionClosesRegisteredIff(live: Live, key: string, n: string)
    ensures Orphaned(live, key, n) && Registered(live - {key}, n) <==>
            LastOfKindOnly(live, key, Model, n) || LastOfKindOnly(live, key, Lora, n)
  {
    var rest := live - {key};
    if Orphaned(live, key, n) && Registered(rest, n) {
      var kind, k :| k in rest && Names(kind, rest[k], n);
      assert k in live && live[k] == rest[k];
      match kind { case Model => case Lora => }
    }
    forall kind | LastOfKindOnly(live, key, kind, n) ensures Registered(rest, n) {
      var k :| k in live && k != key && Names(Other(kind), live[k], n);
      assert k in rest && Names(Other(kind), rest[k], n);
    }
  }

  /** It happens: of two routes that share a name, one as base model and one as adapter, either may be deleted first. */
  lemma {:induction false} DeletionClosesSharedName(a: Route, b: Route, n: string)
    requires Key(a) != Key(b) && Names(Model, a, n) && !Names(Model, b, n) && Names(Lora, b, n) && !Names(Lora, a, n)
    ensures var live := map[Key(a) := a, Key(b) := b];
      forall key :: key in live ==> Orphaned(live, key, n) && Registered(live - {key}, n)
  {
    var live := map[Key(a) := a, Key(b) := b];
    assert OnlyOne(live, Key(a), Model, n) && OnlyOne(live, Key(b), Lora, n);
    forall key | key in live ensures Orphaned(live, key, n) && Registered(live - {key}, n) {
      DeletionClosesRegisteredIff(live, key, n);
    }
  }
}
