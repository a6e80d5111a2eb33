/** Metric semantics: lineage searches, pattern defaults and the test-evidence guard. */
module MetricCatalog {
  import opened Options

  datatype Split = Train | Validation | Test | Unspecified

  /** The two fields of a metric's metadata that lineage depends on; an absent field is None. */
  datatype Metadata = Metadata(split: Option<Split>, derivedFrom: Option<seq<string>>)

  datatype Rule = Rule(pattern: string, metadata: Metadata)

  type Aliases = map<string, string>

  /** Frozen declarations: named metrics, pattern defaults in order, and how patterns match. */
  datatype Semantics = Semantics(metrics: map<string, Metadata>, rules: seq<Rule>, matches: (string, string) -> bool)

  /** A resolved metric. */
  datatype Node = Node(split: Split, derivedFrom: seq<string>)

  type Catalog = map<string, Node>

  function Canonical(aliases: Aliases, name: string): string {
    if name in aliases then aliases[name] else name
  }

  // ----- resolution: prefix, then patterns in order, then the declaration -----

  function PrefixSplit(name: string): Split {
    if "test_" <= name then Test
    else if "val_" <= name then Validation
    else if "validation_" <= name then Validation
    else if "train_" <= name then Train
    else Unspecified
  }

  /** The prefixes exclude one another, so their order does not matter: each decides the split of every
      name that begins with it, the prefix alone included, and other names have none. */
  lemma PrefixDecides(name: string)
    ensures "test_" <= name ==> PrefixSplit(name) == Test
    ensures "val_" <= name || "validation_" <= name ==> PrefixSplit(name) == Validation
    ensures "train_" <= name ==> PrefixSplit(name) == Train
    ensures PrefixSplit(name) != Unspecified ==>
      "test_" <= name || "val_" <= name || "validation_" <= name || "train_" <= name
  {
    Apart("train_", "test_", name, 1);
    Apart("train_", "val_", name, 0);
    Apart("train_", "validation_", name, 0);
    Apart("test_", "val_", name, 0);
    Apart("test_", "validation_", name, 0);
  }

  /** Texts that begin a common text agree where both reach. */
  lemma Apart(p: string, q: string, name: string, k: nat)
    requires k < |p| && k < |q|
    ensures p <= name && q <= name ==> p[k] == q[k]
  {
    assert p <= name ==> p[k] == name[k];
  }

  function Update(node: Node, metadata: Metadata): Node {
    Node(if metadata.split.Some? then metadata.split.value else node.split,
         if metadata.derivedFrom.Some? then metadata.derivedFrom.value else node.derivedFrom)
  }

  function Patterned(s: Semantics, name: string, rules: seq<Rule>): Node {
    if rules == [] then Node(PrefixSplit(name), [])
    else
      var before := Patterned(s, name, rules[..|rules|-1]);
      var rule := rules[|rules|-1];
      if s.matches(name, rule.pattern) then Update(before, rule.metadata) else before
  }

  function Resolved(s: Semantics, name: string): Node {
    var node := Patterned(s, name, s.rules);
    if name in s.metrics then Update(node, s.metrics[name]) else node
  }

  ghost predicate LastRule(s: Semantics, name: string, rules: seq<Rule>, i: int, has: Metadata -> bool) {
    && -1 <= i < |rules|
    && (i >= 0 ==> s.matches(name, rules[i].pattern) && has(rules[i].metadata))
    && forall j :: i < j < |rules| ==> !(s.matches(name, rules[j].pattern) && has(rules[j].metadata))
  }

  /** Override order: the declaration wins, then the last matching pattern that sets the split,
      then the prefix of the name. */
  lemma {:induction false} SplitOverride(s: Semantics, name: string, rules: seq<Rule>, i: int)
    requires LastRule(s, name, rules, i, (m: Metadata) => m.split.Some?)
    ensures Patterned(s, name, rules).split == if i >= 0 then rules[i].metadata.split.value else PrefixSplit(name)
    ensures rules == s.rules ==> (Resolved(s, name).split ==
      if name in s.metrics && s.metrics[name].split.Some? then s.metrics[name].split.value
      else if i >= 0 then rules[i].metadata.split.value else PrefixSplit(name))
    decreases |rules|
  {
    if rules != [] && i < |rules| - 1 {
      SplitOverride(s, name, rules[..|rules|-1], i);
    }
  }

  /** The same order decides the lineage: the declared parents, else those of the last matching
      pattern that sets any, else none; an empty list is a list. */
  lemma {:induction false} LineageOverride(s: Semantics, name: string, rules: seq<Rule>, i: int)
    requires LastRule(s, name, rules, i, (m: Metadata) => m.derivedFrom.Some?)
    ensures Patterned(s, name, rules).derivedFrom == if i >= 0 then rules[i].metadata.derivedFrom.value else []
    ensures rules == s.rules ==> (Resolved(s, name).derivedFrom ==
      if name in s.metrics && s.metrics[name].derivedFrom.Some? then s.metrics[name].derivedFrom.value
      else if i >= 0 then rules[i].metadata.derivedFrom.value else [])
    decreases |rules|
  {
    if rules != [] && i < |rules| - 1 {
      LineageOverride(s, name, rules[..|rules|-1], i);
    }
  }

  function CatalogOf(s: Semantics, names: set<string>): Catalog {
    map name | name in names + s.metrics.Keys :: Resolved(s, name)
  }

  // ----- the path-carrying search for test evidence -----

  function Parents(g: Catalog, name: string): seq<string> { if name in g then g[name].derivedFrom else [] }

  predicate IsTest(g: Catalog, name: string) { name in g && g[name].split == Test }

  /** contains_test, and test_derived when aliases are resolved at every step. */
  predicate ReachesTest(g: Catalog, aliases: Aliases, name: string, seen: set<string>)
    decreases |g.Keys - seen|
  {
    var n := Canonical(aliases, name);
    n !in seen &&
    (IsTest(g, n) ||
     (n in g && (Narrows(g.Keys, seen, n);
         exists i :: 0 <= i < |g[n].derivedFrom| && ReachesTest(g, aliases, g[n].derivedFrom[i], seen + {n}))))
  }

  /** A longer way leaves fewer names to visit. */
  lemma Narrows(keys: set<string>, path: set<string>, name: string)
    requires name in keys && name !in path
    ensures |keys - (path + {name})| < |keys - path|
  {
    assert keys - (path + {name}) == (keys - path) - {name};
  }

  /** A lineage path: every next name is a canonical parent, and the last one is a test metric. */
  ghost predicate Lineage(g: Catalog, aliases: Aliases, path: seq<string>) {
    && path != []
    && IsTest(g, path[|path|-1])
    && forall i :: 0 <= i < |path| - 1 ==> Edge(g, aliases, path[i], path[i+1])
  }

  ghost predicate Edge(g: Catalog, aliases: Aliases, child: string, parent: string) {
    exists i :: 0 <= i < |Parents(g, child)| && Canonical(aliases, Parents(g, child)[i]) == parent
  }

  ghost predicate Avoids(path: seq<string>, seen: set<string>) { forall i :: 0 <= i < |path| ==> path[i] !in seen }

  lemma {:induction false} SearchFindsPath(g: Catalog, aliases: Aliases, name: string, seen: set<string>)
      returns (path: seq<string>)
    requires ReachesTest(g, aliases, name, seen)
    ensures Lineage(g, aliases, path) && path[0] == Canonical(aliases, name) && Avoids(path, seen)
    decreases |g.Keys - seen|
  {
    var n := Canonical(aliases, name);
    if IsTest(g, n) {
      path := [n];
    } else {
      Narrows(g.Keys, seen, n);
      var i :| 0 <= i < |g[n].derivedFrom| && ReachesTest(g, aliases, g[n].derivedFrom[i], seen + {n});
      var rest := SearchFindsPath(g, aliases, g[n].derivedFrom[i], seen + {n});
      path := [n] + rest;
      assert Canonical(aliases, Parents(g, n)[i]) == rest[0];
    }
  }

  lemma {:induction false} LastOccurrence(path: seq<string>, n: string) returns (k: nat)
    requires n in path
    ensures k < |path| && path[k] == n && n !in path[k+1..]
  {
    if path[|path|-1] == n {
      k := |path| - 1;
    } else {
      k := LastOccurrence(path[..|path|-1], n);
    }
  }

  /** A search that carries its path loses nothing: a path through a name already on the way can
      be cut at the last visit of that name. */
  lemma {:induction false} PathIsFound(g: Catalog, aliases: Aliases, name: string, path: seq<string>, seen: set<string>)
    requires Lineage(g, aliases, path) && path[0] == Canonical(aliases, name) && Avoids(path, seen)
    ensures ReachesTest(g, aliases, name, seen)
    decreases |g.Keys - seen|
  {
    var n := Canonical(aliases, name);
    if !IsTest(g, n) {
      var k := LastOccurrence(path, n);
      assert k < |path| - 1;
      assert Edge(g, aliases, path[k], path[k+1]);
      var i :| 0 <= i < |Parents(g, n)| && Canonical(aliases, Parents(g, n)[i]) == path[k+1];
      Narrows(g.Keys, seen, n);
      PathIsFound(g, aliases, Parents(g, n)[i], path[k+1..], seen + {n});
    }
  }

  /** Some lineage path leads from the name to a test metric. */
  ghost predicate DerivedFromTest(g: Catalog, aliases: Aliases, name: string) {
    exists path :: Lineage(g, aliases, path) && path[0] == Canonical(aliases, name)
  }

  /** The search is exact on every catalogue, cyclic ones included. */
  lemma SearchIsExact(g: Catalog, aliases: Aliases, name: string)
    ensures ReachesTest(g, aliases, name, {}) <==> DerivedFromTest(g, aliases, name)
  {
    if ReachesTest(g, aliases, name, {}) {
      var path := SearchFindsPath(g, aliases, name, {});
    }
    if DerivedFromTest(g, aliases, name) {
      var path :| Lineage(g, aliases, path) && path[0] == Canonical(aliases, name);
      PathIsFound(g, aliases, name, path, {});
    }
  }

  // ----- the declared lineage: closed and acyclic -----

  type Declared = map<string, seq<string>>

  /** visit: no unknown parent, and no name met twice on the way. */
  predicate Visit(d: Declared, name: string, path: set<string>)
    requires name in d
    decreases |d.Keys - path|
  {
    name !in path &&
    (Narrows(d.Keys, path, name);
     forall i :: 0 <= i < |d[name]| ==> d[name][i] in d && Visit(d, d[name][i], path + {name}))
  }

  predicate AllVisited(d: Declared) { forall name :: name in d ==> Visit(d, name, {}) }

  /** Every parent is declared and has a smaller rank. */
  ghost predicate Ranked(d: Declared, rank: map<string, nat>) {
    rank.Keys == d.Keys &&
    forall name, i :: name in d && 0 <= i < |d[name]| ==> d[name][i] in d && rank[d[name][i]] < rank[name]
  }

  lemma {:induction false} RankedIsVisited(d: Declared, rank: map<string, nat>, name: string, path: set<string>)
    requires Ranked(d, rank) && name in d
    requires forall p :: p in path && p in d ==> rank[p] > rank[name]
    ensures Visit(d, name, path)
    decreases rank[name]
  {
    if name !in path {
      Narrows(d.Keys, path, name);
      forall i | 0 <= i < |d[name]| ensures d[name][i] in d && Visit(d, d[name][i], path + {name}) {
        RankedIsVisited(d, rank, d[name][i], path + {name});
      }
    }
  }

  /** Longest chain of declared parents, which exists where the visit succeeds. */
  ghost function Depth(d: Declared, name: string, path: set<string>): nat
    requires name in d && Visit(d, name, path)
    decreases |d.Keys - path|, 1, 0
  {
    Narrows(d.Keys, path, name);
    DepthOver(d, name, path, |d[name]|)
  }

  /** One more than the depth of the first n parents. */
  ghost function DepthOver(d: Declared, name: string, path: set<string>, n: nat): nat
    requires name in d && Visit(d, name, path) && n <= |d[name]|
    decreases |d.Keys - path|, 0, n
  {
    if n == 0 then 0
    else
      Narrows(d.Keys, path, name);
      var before := DepthOver(d, name, path, n - 1);
      var here := Depth(d, d[name][n-1], path + {name}) + 1;
      if before < here then here else before
  }

  lemma {:induction false} DepthOverParents(d: Declared, name: string, path: set<string>, n: nat, i: nat)
    requires name in d && Visit(d, name, path) && i < n <= |d[name]|
    ensures Depth(d, d[name][i], path + {name}) < DepthOver(d, name, path, n)
  {
    if i < n - 1 {
      DepthOverParents(d, name, path, n - 1, i);
    }
  }

  /** Neither the verdict of a visit nor the depth depends on the way that led there. */
  lemma {:induction false} ShorterWay(d: Declared, name: string, path: set<string>, less: set<string>)
    requires name in d && Visit(d, name, path) && less <= path
    ensures Visit(d, name, less) && Depth(d, name, less) == Depth(d, name, path)
    decreases |d.Keys - path|, 1, 0
  {
    Narrows(d.Keys, path, name);
    forall i | 0 <= i < |d[name]| ensures d[name][i] in d && Visit(d, d[name][i], less + {name}) {
      ShorterWay(d, d[name][i], path + {name}, less + {name});
    }
    ShorterOver(d, name, path, less, |d[name]|);
  }

  lemma {:induction false} ShorterOver(d: Declared, name: string, path: set<string>, less: set<string>, n: nat)
    requires name in d && Visit(d, name, path) && less <= path && Visit(d, name, less) && n <= |d[name]|
    ensures DepthOver(d, name, less, n) == DepthOver(d, name, path, n)
    decreases |d.Keys - path|, 0, n
  {
    if n > 0 {
      Narrows(d.Keys, path, name);
      ShorterOver(d, name, path, less, n - 1);
      ShorterWay(d, d[name][n-1], path + {name}, less + {name});
    }
  }

  /** The declared lineage is accepted exactly when it is closed and has a topological rank. */
  lemma AcceptedIffRanked(d: Declared)
    ensures AllVisited(d) <==> exists rank :: Ranked(d, rank)
  {
    if AllVisited(d) {
      var rank := map name | name in d :: Depth(d, name, {});
      forall name, i | name in d && 0 <= i < |d[name]|
        ensures d[name][i] in d && rank[d[name][i]] < rank[name]
      {
        DepthOverParents(d, name, {}, |d[name]|, i);
        ShorterWay(d, d[name][i], {} + {name}, {});
      }
      assert Ranked(d, rank);
    }
    if exists rank :: Ranked(d, rank) {
      var rank :| Ranked(d, rank);
      forall name | name in d ensures Visit(d, name, {}) {
        RankedIsVisited(d, rank, name, {});
      }
    }
  }

  // ----- the resolved catalogue and the guard on objectives -----

  /** Resolution of every name, then the test-evidence flag of every metric. */
  method Resolve(s: Semantics, names: set<string>) returns (g: Catalog, containsTest: map<string, bool>)
    ensures g == CatalogOf(s, names)
    ensures containsTest.Keys == g.Keys
    ensures forall name :: name in g ==> (containsTest[name] <==> DerivedFromTest(g, map[], name))
  {
    g, containsTest := map[], map[];
    var todo := names + s.metrics.Keys;
    while todo != {}
      invariant todo <= names + s.metrics.Keys
      invariant g == map name | name in names + s.metrics.Keys - todo :: Resolved(s, name)
    {
      var name :| name in todo;
      g := g[name := Resolved(s, name)];
      todo := todo - {name};
    }
    assert g == CatalogOf(s, names);
    todo := g.Keys;
    while todo != {}
      invariant todo <= g.Keys && containsTest.Keys == g.Keys - todo
      invariant forall name :: name in containsTest ==> (containsTest[name] <==> DerivedFromTest(g, map[], name))
    {
      var name :| name in todo;
      SearchIsExact(g, map[], name);
      containsTest := containsTest[name := ReachesTest(g, map[], name, {})];
      todo := todo - {name};
    }
  }

  function Governing(s: Semantics, names: seq<string>): set<string> { s.metrics.Keys + set n | n in names }

  /** Acceptance of an objective and its constraints: none may be derived from test evidence. */
  method MayGovern(s: Semantics, aliases: Aliases, names: seq<string>) returns (accepted: bool)
    ensures accepted <==> Accepted(s, aliases, names)
  {
    var g := CatalogOf(s, Governing(s, names));
    for i := 0 to |names|
      invariant forall j :: 0 <= j < i ==> !DerivedFromTest(g, aliases, names[j])
    {
      SearchIsExact(g, aliases, names[i]);
      if ReachesTest(g, aliases, names[i], {}) {
        return false;
      }
    }
    return true;
  }

  ghost predicate Accepted(s: Semantics, aliases: Aliases, names: seq<string>) {
    forall i :: 0 <= i < |names| ==> !DerivedFromTest(CatalogOf(s, Governing(s, names)), aliases, names[i])
  }

  /** The names of this set are closed under resolved lineage. */
  ghost predicate LineageClosed(s: Semantics, names: set<string>) {
    forall name :: name in names + s.metrics.Keys ==> Covered(s, name, names)
  }

  ghost predicate Covered(s: Semantics, name: string, names: set<string>) {
    forall i :: 0 <= i < |Resolved(s, name).derivedFrom| ==> Resolved(s, name).derivedFrom[i] in names + s.metrics.Keys
  }

  /** A path of a larger catalogue that starts inside a closed set of names stays inside it. */
  lemma {:induction false} PathStaysInside(s: Semantics, names: set<string>, more: set<string>, path: seq<string>,
      k: nat)
    requires LineageClosed(s, names)
    requires Lineage(CatalogOf(s, more), map[], path) && path[0] in names + s.metrics.Keys && k < |path|
    ensures path[k] in names + s.metrics.Keys
  {
    if k > 0 {
      var g := CatalogOf(s, more);
      PathStaysInside(s, names, more, path, k - 1);
      assert Edge(g, map[], path[k-1], path[k]);
      assert Covered(s, path[k-1], names);
      var i :| 0 <= i < |Parents(g, path[k-1])| && Canonical(map[], Parents(g, path[k-1])[i]) == path[k];
    }
  }

  /** It is then a path of every catalogue that knows the closed set, aliases or not. */
  lemma PathMovesInside(s: Semantics, names: set<string>, known: set<string>, more: set<string>, aliases: Aliases,
      path: seq<string>)
    requires LineageClosed(s, names) && names <= known + s.metrics.Keys && names + s.metrics.Keys !! aliases.Keys
    requires Lineage(CatalogOf(s, more), map[], path) && path[0] in names + s.metrics.Keys
    ensures Lineage(CatalogOf(s, known), aliases, path)
  {
    var g, h := CatalogOf(s, more), CatalogOf(s, known);
    PathStaysInside(s, names, more, path, |path| - 1);
    forall i | 0 <= i < |path| - 1 ensures Edge(h, aliases, path[i], path[i+1]) {
      PathStaysInside(s, names, more, path, i);
      PathStaysInside(s, names, more, path, i + 1);
      assert Edge(g, map[], path[i], path[i+1]);
      var j :| 0 <= j < |Parents(g, path[i])| && Canonical(map[], Parents(g, path[i])[j]) == path[i+1];
      assert Canonical(aliases, Parents(h, path[i])[j]) == path[i+1];
    }
  }

  lemma LineageMovesInside(s: Semantics, names: set<string>, known: set<string>, more: set<string>, aliases: Aliases,
      name: string)
    requires LineageClosed(s, names) && names <= known + s.metrics.Keys && names + s.metrics.Keys !! aliases.Keys
    requires Canonical(aliases, name) in names + s.metrics.Keys
    requires DerivedFromTest(CatalogOf(s, more), map[], Canonical(aliases, name))
    ensures DerivedFromTest(CatalogOf(s, known), aliases, name)
  {
    var path :| Lineage(CatalogOf(s, more), map[], path) && path[0] == Canonical(map[], Canonical(aliases, name));
    PathMovesInside(s, names, known, more, aliases, path);
  }

  /** The metrics the objective and constraints stand for, aliases resolved. */
  function Canonicals(aliases: Aliases, names: seq<string>): set<string> { set n | n in names :: Canonical(aliases, n) }

  /** Aliases as resolution leaves them: names that are no metrics, each standing for a metric. */
  ghost predicate ProperAliases(s: Semantics, aliases: Aliases) {
    forall a :: a in aliases ==> a !in s.metrics && aliases[a] in s.metrics
  }

  /** When the metrics that objective and constraints stand for are closed under lineage, with
      the declared ones, then an accepted objective or constraint, named directly or through an
      alias, carries no test evidence in any later catalogue, whatever was observed. */
  lemma AcceptedStaysClean(s: Semantics, aliases: Aliases, names: seq<string>, observed: set<string>, i: nat)
    requires Accepted(s, aliases, names) && i < |names|
    requires ProperAliases(s, aliases) && LineageClosed(s, Canonicals(aliases, names))
    ensures !DerivedFromTest(CatalogOf(s, observed), map[], Canonical(aliases, names[i]))
  {
    assert names[i] in names;
    if DerivedFromTest(CatalogOf(s, observed), map[], Canonical(aliases, names[i])) {
      LineageMovesInside(s, Canonicals(aliases, names), Governing(s, names), observed, aliases, names[i]);
    }
  }

  /** Exactly when a metric stays clean: the search over any lineage-closed set of names that
      contains it decides the matter for every later catalogue. */
  lemma CleanForeverIff(s: Semantics, closure: set<string>, name: string)
    requires LineageClosed(s, closure) && name in closure + s.metrics.Keys
    ensures (forall observed :: !DerivedFromTest(CatalogOf(s, observed), map[], name))
        <==> !ReachesTest(CatalogOf(s, closure), map[], name, {})
  {
    SearchIsExact(CatalogOf(s, closure), map[], name);
    if !ReachesTest(CatalogOf(s, closure), map[], name, {}) {
      forall observed ensures !DerivedFromTest(CatalogOf(s, observed), map[], name) {
        if DerivedFromTest(CatalogOf(s, observed), map[], name) {
          LineageMovesInside(s, closure, closure, observed, map[], name);
        }
      }
    }
  }

  function RuleParents(rules: seq<Rule>): set<string> {
    set i, j | 0 <= i < |rules| && rules[i].metadata.derivedFrom.Some? &&
        0 <= j < |rules[i].metadata.derivedFrom.value| ::
      rules[i].metadata.derivedFrom.value[j]
  }

  function MetricParents(s: Semantics): set<string> {
    set m, j | m in s.metrics && s.metrics[m].derivedFrom.Some? && 0 <= j < |s.metrics[m].derivedFrom.value| ::
      s.metrics[m].derivedFrom.value[j]
  }

  /** The name, and every parent a rule or a declaration mentions. */
  function Closure(s: Semantics, name: string): set<string> { {name} + RuleParents(s.rules) + MetricParents(s) }

  lemma {:induction false} PatternedParents(s: Semantics, name: string, rules: seq<Rule>)
    ensures forall p :: p in Patterned(s, name, rules).derivedFrom ==> p in RuleParents(rules)
  {
    if rules != [] {
      var front, last := rules[..|rules|-1], rules[|rules|-1];
      PatternedParents(s, name, front);
      forall p | p in RuleParents(front) ensures p in RuleParents(rules) {
        var i, j :| 0 <= i < |front| && front[i].metadata.derivedFrom.Some? &&
            0 <= j < |front[i].metadata.derivedFrom.value|
          && front[i].metadata.derivedFrom.value[j] == p;
        assert rules[i] == front[i];
      }
      if last.metadata.derivedFrom.Some? {
        forall j | 0 <= j < |last.metadata.derivedFrom.value|
            ensures last.metadata.derivedFrom.value[j] in RuleParents(rules) {
          assert rules[|rules|-1] == last;
        }
      }
    }
  }

  lemma ClosureIsClosed(s: Semantics, name: string)
    ensures LineageClosed(s, Closure(s, name)) && name in Closure(s, name)
  {
    forall n ensures Covered(s, n, Closure(s, name)) {
      PatternedParents(s, n, s.rules);
      if n in s.metrics && s.metrics[n].derivedFrom.Some? {
        forall j | 0 <= j < |s.metrics[n].derivedFrom.value|
            ensures s.metrics[n].derivedFrom.value[j] in MetricParents(s) {}
      }
      hide Patterned, RuleParents, MetricParents;
    }
  }

  /** So one search decides the matter for every name, declared or not. */
  lemma CleanForeverIsDecided(s: Semantics, name: string)
    ensures (forall observed :: !DerivedFromTest(CatalogOf(s, observed), map[], name))
        <==> !ReachesTest(CatalogOf(s, Closure(s, name)), map[], name, {})
  {
    ClosureIsClosed(s, name);
    hide Closure, LineageClosed;
    CleanForeverIff(s, Closure(s, name), name);
  }

  /** Without that closure the guard can be passed: a pattern default may derive the objective
      from a metric nobody declared, which is only catalogued once it is observed. */
  lemma UndeclaredLineageEscapes() returns (s: Semantics, names: seq<string>, observed: set<string>)
    ensures Accepted(s, map[], names) && names != []
    ensures !LineageClosed(s, Canonicals(map[], names))
    ensures DerivedFromTest(CatalogOf(s, observed), map[], names[0])
  {
    var rule := Rule("score", Metadata(None, Some(["test_loss"])));
    s := Semantics(map[], [rule], (n: string, p: string) => n == p);
    names, observed := ["score"], {"score", "test_loss"};
    assert s.rules[..0] == [];
    assert "score"[0] == 's' && "score" != "test_loss" && "test_loss"[..5] == "test_";
    assert Patterned(s, "score", s.rules) == Update(Patterned(s, "score", []), rule.metadata);
    assert Patterned(s, "test_loss", s.rules) == Patterned(s, "test_loss", []);
    assert Resolved(s, "score") == Node(Unspecified, ["test_loss"]);
    assert Resolved(s, "test_loss") == Node(Test, []);
    var all := Governing(s, names);
    var g := CatalogOf(s, all);
    assert "test_loss" !in all && "score" in all;
    assert Canonical(map[], names[0]) == "score" && Canonicals(map[], names) == {"score"};
    assert !Covered(s, "score", {"score"}) by {
      assert Resolved(s, "score").derivedFrom[0] == "test_loss";
    }
    assert !ReachesTest(g, map[], "score", {}) by {
      assert Parents(g, "score") == ["test_loss"];
      assert "test_loss" !in g;
    }
    SearchIsExact(g, map[], "score");
    var later := CatalogOf(s, observed);
    var path := ["score", "test_loss"];
    assert Canonical(map[], Parents(later, "score")[0]) == "test_loss";
    assert Lineage(later, map[], path) && path[0] == Canonical(map[], names[0]);
  }
}
