/** Dimensional metric families and metric aliases: what their validation guarantees. */
module Families {
  import opened Options
  import opened MetricCatalog
  import opened Sums

  /** A coordinate value, identified by its JSON text: a number is its value together with the
      spelling that denotes it, so 1 and 1.0 are two values. */
  datatype Value = Number(x: real, spelling: string) | Flag(b: bool) | Text(t: string)

  function Numeral(v: Value): Option<real> {
    match v
    case Number(x, _) => Some(x)
    case Flag(b) => Some(if b then 1.0 else 0.0)
    case Text(_) => None
  }

  /** Equality of values: numbers and truth values by the number they are. */
  predicate Same(v: Value, w: Value) { if Numeral(v).Some? then Numeral(v) == Numeral(w) else v == w }

  /** It is an equivalence that identifies 1 with 1.0 and with true, and no number with a text. */
  lemma Sameness(u: Value, v: Value, w: Value, x: real, y: real, s: string, t: string)
    ensures Same(v, v) && (Same(u, v) ==> Same(v, u)) && (Same(u, v) && Same(v, w) ==> Same(u, w))
    ensures Same(Number(x, s), Number(y, t)) <==> x == y
    ensures !Same(Number(x, s), Text(t)) && (Same(Number(x, s), Flag(true)) <==> x == 1.0)
    ensures Same(Text(s), Text(t)) <==> s == t
  {}

  predicate Listed(v: Value, values: seq<Value>) { exists i :: 0 <= i < |values| && Same(v, values[i]) }

  type Coordinate = map<string, Value>

  datatype Dimension = Dimension(name: string, kind: string, values: seq<Value>)

  /** Dimension names are the keys of a mapping, so they are distinct; a template formats a
      coordinate as a metric name, or fails. */
  datatype Family = Family(
    name: string, dimensions: seq<Dimension>, members: map<string, Coordinate>, template: Option<Template>)

  datatype Template = Template(bare: bool, format: Coordinate -> Option<string>)

  const LIMIT := 4096

  // ----- dimensions and their grid -----

  /** The check of one dimension: repetitions are found by counting the distinct values. */
  predicate ValidDimension(d: Dimension) {
    && d.kind in {"numeric", "ordered", "categorical"}
    && d.values != [] && |set v | v in d.values| == |d.values|
    && (d.kind == "numeric" ==> forall i :: 0 <= i < |d.values| ==> d.values[i].Number?)
  }

  predicate ValidDimensions(dims: seq<Dimension>) { forall i :: 0 <= i < |dims| ==> ValidDimension(dims[i]) }

  /** A known kind, at least one value, none twice, and only numbers when numeric. */
  ghost predicate LegalDimension(d: Dimension) {
    && (|| d.kind == "ordered" || d.kind == "categorical"
        || (d.kind == "numeric" && forall v :: v in d.values ==> v.Number?))
    && d.values != [] && Distinct(d.values)
  }

  lemma {:induction false} DistinctIffAsMany<T>(xs: seq<T>)
    ensures |set x | x in xs| <= |xs|
    ensures |set x | x in xs| == |xs| <==> forall i, j :: 0 <= i < j < |xs| ==> xs[i] != xs[j]
  {
    if xs != [] {
      var n := |xs| - 1;
      DistinctIffAsMany(xs[..n]);
      SplitLast(xs);
      assert (set x | x in xs) == (set x | x in xs[..n]) + {xs[n]};
      assert xs[n] in xs[..n] <==> exists i :: 0 <= i < n && xs[i] == xs[n];
    }
  }

  lemma ValidIsLegal(dims: seq<Dimension>)
    ensures ValidDimensions(dims) <==> forall i :: 0 <= i < |dims| ==> LegalDimension(dims[i])
  {
    forall d: Dimension ensures ValidDimension(d) <==> LegalDimension(d) {
      DistinctIffAsMany(d.values);
    }
  }

  predicate DistinctNames(dims: seq<Dimension>) { forall i, j :: 0 <= i < j < |dims| ==> dims[i].name != dims[j].name }

  function Names(dims: seq<Dimension>): set<string> { set i | 0 <= i < |dims| :: dims[i].name }

  function Size(dims: seq<Dimension>): nat {
    if dims == [] then 1 else Size(dims[..|dims|-1]) * |dims[|dims|-1].values|
  }

  predicate InGrid(dims: seq<Dimension>, c: Coordinate) {
    c.Keys == Names(dims) && forall i :: 0 <= i < |dims| ==> dims[i].name in c && c[dims[i].name] in dims[i].values
  }

  /** A member's coordinate names the dimensions and equals a listed value in each. */
  predicate Fits(dims: seq<Dimension>, c: Coordinate) {
    && c.Keys == Names(dims)
    && forall i :: 0 <= i < |dims| ==> dims[i].name in c && Listed(c[dims[i].name], dims[i].values)
  }

  /** One coordinate per value of a further dimension. */
  function Spread(c: Coordinate, name: string, values: seq<Value>): seq<Coordinate> {
    seq(|values|, i requires 0 <= i < |values| => c[name := values[i]])
  }

  function SpreadAll(cs: seq<Coordinate>, name: string, values: seq<Value>): seq<Coordinate> {
    if cs == [] then [] else SpreadAll(cs[..|cs|-1], name, values) + Spread(cs[|cs|-1], name, values)
  }

  /** The cartesian product of the dimensions, the last one varying fastest. */
  function Grid(dims: seq<Dimension>): seq<Coordinate> {
    if dims == [] then [map[]]
    else
      var last := dims[|dims|-1];
      SpreadAll(Grid(dims[..|dims|-1]), last.name, last.values)
  }

  ghost predicate SpreadFrom(cs: seq<Coordinate>, name: string, values: seq<Value>, c: Coordinate) {
    exists k, i :: 0 <= k < |cs| && 0 <= i < |values| && c == cs[k][name := values[i]]
  }

  lemma {:induction false} SpreadAllMembers(cs: seq<Coordinate>, name: string, values: seq<Value>, c: Coordinate)
    ensures c in SpreadAll(cs, name, values) <==> SpreadFrom(cs, name, values, c)
  {
    if cs != [] {
      var n := |cs| - 1;
      SpreadAllMembers(cs[..n], name, values, c);
      if c in Spread(cs[n], name, values) {
        var i :| 0 <= i < |values| && Spread(cs[n], name, values)[i] == c;
        assert c == cs[n][name := values[i]];
      }
      if SpreadFrom(cs[..n], name, values, c) {
        var k, i :| 0 <= k < n && 0 <= i < |values| && c == cs[..n][k][name := values[i]];
        assert c == cs[k][name := values[i]];
      }
      if SpreadFrom(cs, name, values, c) {
        var k, i :| 0 <= k < |cs| && 0 <= i < |values| && c == cs[k][name := values[i]];
        if k < n {
          assert c == cs[..n][k][name := values[i]];
        } else {
          assert Spread(cs[n], name, values)[i] == c;
        }
      }
    }
  }

  /** The grid is exactly the coordinates with one listed value per dimension. */
  lemma {:induction false} GridExact(dims: seq<Dimension>, c: Coordinate)
    requires DistinctNames(dims)
    ensures c in Grid(dims) <==> InGrid(dims, c)
  {
    if dims == [] {
      assert c.Keys == {} <==> c == map[];
    } else {
      hide SpreadAll, SpreadFrom, InGrid;
      var n := |dims| - 1;
      SpreadAllMembers(Grid(dims[..n]), dims[n].name, dims[n].values, c);
      if InGrid(dims, c) {
        var b := c - {dims[n].name};
        GridExact(dims[..n], b);
      }
      if SpreadFrom(Grid(dims[..n]), dims[n].name, dims[n].values, c) {
        var b, v := SpreadOrigin(Grid(dims[..n]), dims[n], c);
        GridExact(dims[..n], b);
        GridStepOut(dims, c, b, v);
      }
    }
  }

  lemma SpreadOrigin(cs: seq<Coordinate>, d: Dimension, c: Coordinate) returns (b: Coordinate, v: Value)
    requires SpreadFrom(cs, d.name, d.values, c)
    ensures b in cs && v in d.values && c == b[d.name := v]
  {
    var k, i :| 0 <= k < |cs| && 0 <= i < |d.values| && c == cs[k][d.name := d.values[i]];
    b, v := cs[k], d.values[i];
  }

  lemma GridStepOut(dims: seq<Dimension>, c: Coordinate, b: Coordinate, v: Value)
    requires dims != [] && DistinctNames(dims) && InGrid(dims[..|dims|-1], b)
    requires v in dims[|dims|-1].values && c == b[dims[|dims|-1].name := v]
    ensures InGrid(dims, c)
  {
    var prefix := dims[..|dims|-1];
    forall i | 0 <= i < |dims| ensures dims[i].name in c && c[dims[i].name] in dims[i].values {
      if i < |prefix| { assert prefix[i] == dims[i]; }
    }
  }

  lemma {:induction false} SpreadAllLength(cs: seq<Coordinate>, name: string, values: seq<Value>)
    ensures |SpreadAll(cs, name, values)| == |cs| * |values|
  {
    if cs != [] {
      SpreadAllLength(cs[..|cs|-1], name, values);
      OneMoreTimes(|cs| - 1, |values|);
    }
  }

  lemma OneMoreTimes(n: nat, k: nat)
    ensures n * k + k == (n + 1) * k
  {}

  /** The grid has as many coordinates as the product of the numbers of values says. */
  lemma {:induction false} GridLength(dims: seq<Dimension>)
    ensures |Grid(dims)| == Size(dims)
  {
    if dims != [] {
      var n := |dims| - 1;
      GridLength(dims[..n]);
      SpreadAllLength(Grid(dims[..n]), dims[n].name, dims[n].values);
    }
  }

  /** c and d agree by value in every dimension. */
  ghost predicate Alike(c: Coordinate, d: Coordinate) {
    c.Keys == d.Keys && forall k :: k in c ==> k in d && Same(c[k], d[k])
  }

  /** A member's coordinate fits exactly when it agrees by value with a coordinate of the grid. */
  lemma FitsIffLikeGrid(dims: seq<Dimension>, c: Coordinate)
    requires DistinctNames(dims)
    ensures Fits(dims, c) <==> exists g :: g in Grid(dims) && Alike(c, g)
  {
    if Fits(dims, c) {
      var g := Nearest(dims, c);
      GridExact(dims, g);
    }
    if g :| g in Grid(dims) && Alike(c, g) {
      GridExact(dims, g);
      hide Grid, Same;
      forall i | 0 <= i < |dims| ensures dims[i].name in c && Listed(c[dims[i].name], dims[i].values) {
        assert g[dims[i].name] in dims[i].values;
        var j :| 0 <= j < |dims[i].values| && dims[i].values[j] == g[dims[i].name];
      }
    }
  }

  /** The coordinate of the grid that spells c as the dimensions do. */
  lemma Nearest(dims: seq<Dimension>, c: Coordinate) returns (g: Coordinate)
    requires DistinctNames(dims) && Fits(dims, c)
    ensures InGrid(dims, g) && Alike(c, g)
  {
    hide Same;
    g := map[];
    for i := 0 to |dims|
      invariant Matches(dims, i, c, g)
    {
      var k :| 0 <= k < |dims[i].values| && Same(c[dims[i].name], dims[i].values[k]);
      MatchesNext(dims, i, c, g, dims[i].values[k]);
      g := g[dims[i].name := dims[i].values[k]];
    }
    assert dims[..|dims|] == dims;
  }

  /** g spells c as the first i dimensions do. */
  ghost predicate Matches(dims: seq<Dimension>, i: nat, c: Coordinate, g: Coordinate)
    requires i <= |dims| && Fits(dims, c)
  {
    && g.Keys == Names(dims[..i])
    && forall j :: 0 <= j < i ==>
        dims[j].name in g && g[dims[j].name] in dims[j].values && Same(c[dims[j].name], g[dims[j].name])
  }

  lemma MatchesNext(dims: seq<Dimension>, i: nat, c: Coordinate, g: Coordinate, v: Value)
    requires DistinctNames(dims) && i < |dims| && Fits(dims, c) && Matches(dims, i, c, g)
    requires v in dims[i].values && Same(c[dims[i].name], v)
    ensures Matches(dims, i + 1, c, g[dims[i].name := v])
  {
    hide Same, Listed;
    assert Names(dims[..i+1]) == Names(dims[..i]) + {dims[i].name};
  }

  // ----- one family -----

  /** Members from a template, added one coordinate at a time; a repeated name is refused. */
  function Expand(format: Coordinate -> Option<string>, members: map<string, Coordinate>,
      grid: seq<Coordinate>): Option<map<string, Coordinate>> {
    if grid == [] then Some(members)
    else
      var c := grid[|grid|-1];
      match Expand(format, members, grid[..|grid|-1])
      case None => None
      case Some(before) =>
        match format(c)
        case None => None
        case Some(metric) => if metric in before then None else Some(before[metric := c])
  }

  function Expanded(f: Family): Option<map<string, Coordinate>> {
    match f.template
    case None => Some(f.members)
    case Some(t) =>
      if !t.bare || f.dimensions == [] || Size(f.dimensions) > LIMIT then None
      else Expand(t.format, f.members, Grid(f.dimensions))
  }

  /** Every member's coordinate fits the dimensions and no two are spelled alike. */
  ghost predicate Placed(dims: seq<Dimension>, members: map<string, Coordinate>) {
    && (forall m :: m in members ==> Fits(dims, members[m]))
    && (forall m, k :: m in members && k in members && members[m] == members[k] ==> m == k)
  }

  lemma {:induction false} ExpandCovers(format: Coordinate -> Option<string>, members: map<string, Coordinate>,
      grid: seq<Coordinate>)
    requires Expand(format, members, grid).Some?
    ensures var all := Expand(format, members, grid).value;
      && (forall m :: m in members ==> m in all && all[m] == members[m])
      && (forall m :: m in all && m !in members ==> all[m] in grid)
      && (forall i :: 0 <= i < |grid| ==> exists m :: m in all && m !in members && all[m] == grid[i])
  {
    if grid != [] {
      var n := |grid| - 1;
      ExpandCovers(format, members, grid[..n]);
      var before := Expand(format, members, grid[..n]).value;
      var all := Expand(format, members, grid).value;
      forall i | 0 <= i < |grid| ensures exists m :: m in all && m !in members && all[m] == grid[i] {
        if i < n {
          var m :| m in before && m !in members && before[m] == grid[..n][i];
          assert m in all && all[m] == grid[i];
        } else {
          var m := format(grid[n]).value;
          assert m in all && all[m] == grid[i];
        }
      }
    }
  }

  /** Some coordinate of the grid cannot be formatted, gives a listed name, or the name of another one. */
  ghost predicate Clashes(format: Coordinate -> Option<string>, members: map<string, Coordinate>,
      grid: seq<Coordinate>) {
    || (exists i :: 0 <= i < |grid| && (format(grid[i]).None? || format(grid[i]).value in members))
    || exists i, j :: 0 <= i < j < |grid| && format(grid[i]).Some? && format(grid[i]) == format(grid[j])
  }

  lemma {:induction false} ExpandExactly(format: Coordinate -> Option<string>, members: map<string, Coordinate>,
      grid: seq<Coordinate>)
    ensures Expand(format, members, grid).None? <==> Clashes(format, members, grid)
    ensures Expand(format, members, grid).Some? ==>
      forall m :: m in Expand(format, members, grid).value <==>
        m in members || exists i :: 0 <= i < |grid| && format(grid[i]) == Some(m)
  {
    if grid != [] {
      var n := |grid| - 1;
      ExpandExactly(format, members, grid[..n]);
      hide Clashes;
      ClashesNext(format, members, grid);
      NamesNext(format, grid);
    }
  }

  lemma NamesNext(format: Coordinate -> Option<string>, grid: seq<Coordinate>)
    requires grid != []
    ensures var n := |grid| - 1;
      forall m :: (exists i :: 0 <= i < |grid| && format(grid[i]) == Some(m)) <==>
        (exists i :: 0 <= i < n && format(grid[..n][i]) == Some(m)) || format(grid[n]) == Some(m)
  {
    var n := |grid| - 1;
    assert forall i :: 0 <= i < n ==> grid[..n][i] == grid[i];
  }

  lemma ClashesNext(format: Coordinate -> Option<string>, members: map<string, Coordinate>, grid: seq<Coordinate>)
    requires grid != []
    ensures var n := |grid| - 1;
      Clashes(format, members, grid) <==>
        || Clashes(format, members, grid[..n]) || format(grid[n]).None? || format(grid[n]).value in members
        || exists i :: 0 <= i < n && format(grid[..n][i]) == format(grid[n])
  {
    var n := |grid| - 1;
    assert forall i :: 0 <= i < n ==> grid[..n][i] == grid[i];
  }

  /** A template is refused exactly when it holds more than bare placeholders, has no dimension, more than
      4096 members, or a coordinate that cannot be formatted or whose name is taken. */
  lemma TemplateRefused(f: Family)
    ensures f.template.None? ==> Expanded(f) == Some(f.members)
    ensures f.template.Some? ==> (Expanded(f).None? <==>
      || !f.template.value.bare || f.dimensions == [] || |Grid(f.dimensions)| > 4096
      || Clashes(f.template.value.format, f.members, Grid(f.dimensions)))
  {
    GridLength(f.dimensions);
    if f.template.Some? {
      ExpandExactly(f.template.value.format, f.members, Grid(f.dimensions));
    }
    hide Grid, Expand, Clashes;
  }

  /** The names an accepted template adds are in bijection with the whole grid.  Members listed
      beside it survive exactly when they spell their values otherwise than the dimensions do. */
  lemma TemplateIsBijection(f: Family, members: map<string, Coordinate>)
    requires f.template.Some? && Expanded(f) == Some(members)
    requires DistinctNames(f.dimensions) && Placed(f.dimensions, members)
    ensures forall c :: InGrid(f.dimensions, c) <==> exists m :: m in members && m !in f.members && members[m] == c
    ensures forall m, k :: m in members && k in members && members[m] == members[k] ==> m == k
    ensures forall m :: m in f.members ==> m in members && members[m] == f.members[m]
    ensures f.members == map[] <==> forall m :: m in f.members ==> InGrid(f.dimensions, f.members[m])
  {
    var grid := Grid(f.dimensions);
    ExpandCovers(f.template.value.format, f.members, grid);
    hide Fits, InGrid, Expand;
    forall c ensures InGrid(f.dimensions, c) <==> exists m :: m in members && m !in f.members && members[m] == c {
      GridExact(f.dimensions, c);
      if InGrid(f.dimensions, c) {
        var i :| 0 <= i < |grid| && grid[i] == c;
      }
    }
  }

  /** A member listed as 1.0 beside a template over the value 1 is accepted: two metrics, one place. */
  lemma SpelledOtherwise() returns (f: Family)
    ensures LegalFamily(f) && DistinctNames(f.dimensions) && |Grid(f.dimensions)| == 1
    ensures "listed" in MembersOf(f) && "formatted" in MembersOf(f)
  {
    var one := Number(1.0, "1");
    var dims: seq<Dimension> := [Dimension("horizon", "numeric", [one])];
    var listed: Coordinate := map["horizon" := Number(1.0, "1.0")];
    f := Family("errors", dims, map["listed" := listed], Some(Template(true, (c: Coordinate) => Some("formatted"))));
    var formatted: Coordinate := map["horizon" := one];
    OneCell(dims[0], one, f.template.value.format, f.members);
    hide Expand, Grid, Size, SpreadAll, Spread, Placed;
    assert Same(listed["horizon"], one) && Same(one, one);
    assert MembersOf(f) == map["listed" := listed, "formatted" := formatted];
    BothPlaced(dims[0], listed, formatted);
  }

  lemma BothPlaced(d: Dimension, listed: Coordinate, formatted: Coordinate)
    requires listed.Keys == formatted.Keys == {d.name} && listed[d.name] != formatted[d.name]
    requires Listed(listed[d.name], d.values) && Listed(formatted[d.name], d.values)
    ensures Placed([d], map["listed" := listed, "formatted" := formatted])
  {
    hide Listed;
    var dims, both := [d], map["listed" := listed, "formatted" := formatted];
    assert dims[0].name in Names(dims);
    forall m | m in both ensures Fits(dims, both[m]) {
      assert both[m].Keys == Names(dims);
    }
  }

  lemma OneCell(d: Dimension, v: Value, format: Coordinate -> Option<string>, members: map<string, Coordinate>)
    requires d.values == [v]
    ensures Size([d]) == 1 && Grid([d]) == [map[d.name := v]]
    ensures var metric := format(map[d.name := v]);
      metric.Some? && metric.value !in members ==>
        Expand(format, members, Grid([d])) == Some(members[metric.value := map[d.name := v]])
  {
    var origin: seq<Coordinate>, cell: seq<Coordinate> := [map[]], [map[d.name := v]];
    assert [d][..0] == [] && origin[..0] == [] && cell[..0] == [];
    assert SpreadAll([], d.name, [v]) == [];
    assert Spread(map[], d.name, [v]) == cell;
  }

  method ExpandTemplate(f: Family) returns (r: Option<map<string, Coordinate>>)
    ensures r == Expanded(f)
  {
    match f.template
    case None => return Some(f.members);
    case Some(t) =>
      if !t.bare || f.dimensions == [] || Size(f.dimensions) > LIMIT { return None; }
      var grid := Grid(f.dimensions);
      var members := f.members;
      for i := 0 to |grid|
        invariant Expand(t.format, f.members, grid[..i]) == Some(members)
      {
        assert grid[..i+1][..i] == grid[..i];
        var metric := t.format(grid[i]);
        if metric.None? || metric.value in members {
          ExpandPrefixFails(t.format, f.members, grid, i + 1);
          return None;
        }
        members := members[metric.value := grid[i]];
      }
      assert grid[..|grid|] == grid;
      r := Some(members);
  }

  lemma {:induction false} ExpandPrefixFails(format: Coordinate -> Option<string>, members: map<string, Coordinate>,
      grid: seq<Coordinate>, k: nat)
    requires k <= |grid| && Expand(format, members, grid[..k]).None?
    ensures Expand(format, members, grid).None?
    decreases |grid|
  {
    if k == |grid| {
      assert grid[..k] == grid;
    } else {
      assert grid[..|grid|-1][..k] == grid[..k];
      ExpandPrefixFails(format, members, grid[..|grid|-1], k);
    }
  }

  /** What is known about the members outside `todo`. */
  ghost predicate PlacedSoFar(f: Family, members: map<string, Coordinate>, todo: set<string>,
      owned: map<string, string>, coordinates: set<Coordinate>) {
    && (forall m :: m in members && m !in todo ==>
        m !in owned && Fits(f.dimensions, members[m]) && members[m] in coordinates)
    && (forall c :: c in coordinates ==> At(members, todo, c))
    && (forall m, k :: m in members && k in members && m !in todo && k !in todo && members[m] == members[k] ==> m == k)
  }

  ghost predicate At(members: map<string, Coordinate>, todo: set<string>, c: Coordinate) {
    exists m :: m in members && m !in todo && members[m] == c
  }

  lemma PlaceOne(f: Family, members: map<string, Coordinate>, todo: set<string>, owned: map<string, string>,
      coordinates: set<Coordinate>, metric: string)
    requires PlacedSoFar(f, members, todo, owned, coordinates) && metric in members && metric in todo
    requires Fits(f.dimensions, members[metric]) && members[metric] !in coordinates && metric !in owned
    ensures PlacedSoFar(f, members, todo - {metric}, owned, coordinates + {members[metric]})
  {
    hide Fits;
    forall c | c in coordinates + {members[metric]} ensures At(members, todo - {metric}, c) {
      if c in coordinates {
        assert At(members, todo, c);
      }
    }
  }

  lemma RefuseOne(f: Family, members: map<string, Coordinate>, todo: set<string>, owned: map<string, string>,
      coordinates: set<Coordinate>, metric: string)
    requires PlacedSoFar(f, members, todo, owned, coordinates) && metric in members && metric in todo
    requires !Fits(f.dimensions, members[metric]) || members[metric] in coordinates || metric in owned
    ensures !(Placed(f.dimensions, members) && members.Keys !! owned.Keys)
  {
    hide Fits;
    if members[metric] in coordinates {
      assert At(members, todo, members[metric]);
    }
  }

  /** The members of one family are checked against its grid, against each other and against
      the metrics other families own. */
  method PlaceMembers(f: Family, members: map<string, Coordinate>, owned: map<string, string>)
    returns (ok: bool, owners: map<string, string>)
    ensures ok <==> Placed(f.dimensions, members) && members.Keys !! owned.Keys
    ensures ok ==> owners == owned + map m | m in members :: f.name
  {
    hide PlacedSoFar, Placed, Fits;
    owners := owned;
    var coordinates: set<Coordinate> := {};
    var todo := members.Keys;
    PlacingStarts(f, members, owned);
    while todo != {}
      invariant todo <= members.Keys
      invariant PlacedSoFar(f, members, todo, owned, coordinates)
      invariant owners.Keys == owned.Keys + (members.Keys - todo)
      invariant forall m :: m in owners ==> owners[m] == if m in members && m !in todo then f.name else owned[m]
    {
      var metric :| metric in todo;
      var coordinate := members[metric];
      if !Fits(f.dimensions, coordinate) || coordinate in coordinates || metric in owners {
        RefuseOne(f, members, todo, owned, coordinates, metric);
        return false, owners;
      }
      PlaceOne(f, members, todo, owned, coordinates, metric);
      coordinates := coordinates + {coordinate};
      owners := owners[metric := f.name];
      todo := todo - {metric};
    }
    PlacingEnds(f, members, owned, coordinates);
    ok := true;
  }

  lemma PlacingStarts(f: Family, members: map<string, Coordinate>, owned: map<string, string>)
    ensures PlacedSoFar(f, members, members.Keys, owned, {})
  {}

  lemma PlacingEnds(f: Family, members: map<string, Coordinate>, owned: map<string, string>,
      coordinates: set<Coordinate>)
    requires PlacedSoFar(f, members, {}, owned, coordinates)
    ensures Placed(f.dimensions, members) && members.Keys !! owned.Keys
  {}

  // ----- all families -----

  function MembersOf(f: Family): map<string, Coordinate> {
    match Expanded(f)
    case Some(members) => members
    case None => map[]
  }

  ghost predicate LegalFamily(f: Family) {
    && (forall i :: 0 <= i < |f.dimensions| ==> LegalDimension(f.dimensions[i]))
    && Expanded(f).Some? && Placed(f.dimensions, MembersOf(f))
  }

  ghost predicate Legal(families: seq<Family>) {
    && (forall i :: 0 <= i < |families| ==> LegalFamily(families[i]))
    && forall i, j :: 0 <= i < j < |families| ==> MembersOf(families[i]).Keys !! MembersOf(families[j]).Keys
  }

  /** Every metric has the one family it belongs to. */
  ghost predicate Owned(families: seq<Family>, owners: map<string, string>) {
    && (forall i, m :: 0 <= i < |families| && m in MembersOf(families[i]) ==>
        m in owners && owners[m] == families[i].name)
    && forall m :: m in owners ==> HasFamily(families, m)
  }

  ghost predicate HasFamily(families: seq<Family>, m: string) {
    exists i :: 0 <= i < |families| && m in MembersOf(families[i])
  }

  /** Families are accepted exactly when each is legal and no metric is in two of them. */
  method ResolveFamilies(families: seq<Family>) returns (r: Option<map<string, string>>)
    ensures r.Some? <==> Legal(families)
    ensures r.Some? ==> Owned(families, r.value)
  {
    var owners: map<string, string> := map[];
    for i := 0 to |families|
      invariant Legal(families[..i]) && Owned(families[..i], owners)
    {
      var f := families[i];
      var members := ExpandTemplate(f);
      ValidIsLegal(f.dimensions);
      if !ValidDimensions(f.dimensions) || members.None? {
        assert !LegalFamily(families[i]);
        return None;
      }
      var ok, next := PlaceMembers(f, members.value, owners);
      if !ok {
        RefusedFamily(families, i, owners);
        return None;
      }
      AddFamily(families, i, owners, next);
      owners := next;
    }
    assert families[..|families|] == families;
    r := Some(owners);
  }

  lemma RefusedFamily(families: seq<Family>, i: nat, owners: map<string, string>)
    requires i < |families| && Owned(families[..i], owners)
    requires !(Placed(families[i].dimensions, MembersOf(families[i])) && MembersOf(families[i]).Keys !! owners.Keys)
    ensures !Legal(families)
  {
    hide LegalFamily, Expanded;
    if m :| m in MembersOf(families[i]) && m in owners {
      assert HasFamily(families[..i], m);
      var j :| 0 <= j < i && m in MembersOf(families[..i][j]);
      assert families[..i][j] == families[j];
    } else {
      NotPlaced(families[i]);
    }
  }

  lemma NotPlaced(f: Family)
    requires !Placed(f.dimensions, MembersOf(f))
    ensures !LegalFamily(f)
  {}

  lemma AddFamily(families: seq<Family>, i: nat, owners: map<string, string>, next: map<string, string>)
    requires i < |families| && Legal(families[..i]) && Owned(families[..i], owners)
    requires LegalFamily(families[i]) && MembersOf(families[i]).Keys !! owners.Keys
    requires next == owners + map m | m in MembersOf(families[i]) :: families[i].name
    ensures Legal(families[..i+1]) && Owned(families[..i+1], next)
  {
    hide LegalFamily, Expanded, MembersOf;
    assert families[..i+1] == families[..i] + [families[i]];
    AddLegal(families[..i], families[i], owners);
    AddOwned(families[..i], families[i], owners, next);
  }

  lemma AddLegal(before: seq<Family>, f: Family, owners: map<string, string>)
    requires Legal(before) && Owned(before, owners) && LegalFamily(f) && MembersOf(f).Keys !! owners.Keys
    ensures Legal(before + [f])
  {
    hide LegalFamily, Expanded, MembersOf;
    forall j | 0 <= j < |before| ensures MembersOf(before[j]).Keys !! MembersOf(f).Keys {
      forall m | m in MembersOf(before[j]) ensures m in owners {}
    }
  }

  lemma AddOwned(before: seq<Family>, f: Family, owners: map<string, string>, next: map<string, string>)
    requires Owned(before, owners) && MembersOf(f).Keys !! owners.Keys
    requires next == owners + map m | m in MembersOf(f) :: f.name
    ensures Owned(before + [f], next)
  {
    hide LegalFamily, Expanded, MembersOf;
    var after := before + [f];
    forall m | m in next ensures HasFamily(after, m) {
      if m in owners {
        assert HasFamily(before, m);
        var j :| 0 <= j < |before| && m in MembersOf(before[j]);
        assert m in MembersOf(after[j]);
      } else {
        assert m in MembersOf(after[|before|]);
      }
    }
  }

  // ----- aliases -----

  /** The declared aliases in order, each with the metric that declares it. */
  function Declarations(metrics: seq<(string, seq<string>)>): seq<(string, string)> {
    if metrics == [] then []
    else Declarations(metrics[..|metrics|-1]) + Tagged(metrics[|metrics|-1].0, metrics[|metrics|-1].1)
  }

  function Tagged(name: string, aliases: seq<string>): seq<(string, string)> {
    seq(|aliases|, i requires 0 <= i < |aliases| => (aliases[i], name))
  }

  ghost predicate DeclaredIn(pairs: seq<(string, string)>, alias: string) {
    exists i :: 0 <= i < |pairs| && pairs[i].0 == alias
  }

  ghost predicate AliasMap(pairs: seq<(string, string)>, aliases: Aliases) {
    && (forall i :: 0 <= i < |pairs| ==> pairs[i].0 in aliases && aliases[pairs[i].0] == pairs[i].1)
    && forall a :: a in aliases ==> DeclaredIn(pairs, a)
  }

  ghost predicate AliasesLegal(pairs: seq<(string, string)>, names: set<string>) {
    && (forall i :: 0 <= i < |pairs| ==> pairs[i].0 !in names)
    && forall i, j :: 0 <= i < j < |pairs| ==> pairs[i].0 != pairs[j].0
  }

  /** Aliases are accepted exactly when none is a metric name and none is declared twice. */
  method ResolveAliases(metrics: seq<(string, seq<string>)>, names: set<string>) returns (r: Option<Aliases>)
    requires forall i :: 0 <= i < |metrics| ==> metrics[i].0 in names
    ensures r.Some? <==> AliasesLegal(Declarations(metrics), names)
    ensures r.Some? ==> AliasMap(Declarations(metrics), r.value)
  {
    var aliases: Aliases := map[];
    ghost var pairs := [];
    for i := 0 to |metrics|
      invariant pairs == Declarations(metrics[..i])
      invariant AliasMap(pairs, aliases) && AliasesLegal(pairs, names)
    {
      var (name, listed) := metrics[i];
      for j := 0 to |listed|
        invariant pairs == Declarations(metrics[..i]) + Tagged(name, listed)[..j]
        invariant AliasMap(pairs, aliases) && AliasesLegal(pairs, names)
      {
        var alias := listed[j];
        DeclarationsPrefix(metrics, i, j);
        if alias in names || alias in aliases {
          RefusedAlias(pairs, (alias, name), aliases, names, Declarations(metrics));
          return None;
        }
        AddAlias(pairs, (alias, name), aliases, names);
        aliases := aliases[alias := name];
        pairs := pairs + [(alias, name)];
      }
      assert metrics[..i+1][..i] == metrics[..i];
      assert Tagged(name, listed)[..|listed|] == Tagged(name, listed);
    }
    assert metrics[..|metrics|] == metrics;
    r := Some(aliases);
  }

  lemma AddAlias(pairs: seq<(string, string)>, pair: (string, string), aliases: Aliases, names: set<string>)
    requires AliasMap(pairs, aliases) && AliasesLegal(pairs, names)
    requires pair.0 !in names && pair.0 !in aliases
    ensures AliasMap(pairs + [pair], aliases[pair.0 := pair.1]) && AliasesLegal(pairs + [pair], names)
  {
    var more := pairs + [pair];
    assert more[|pairs|] == pair;
    forall a | a in aliases[pair.0 := pair.1] ensures DeclaredIn(more, a) {
      if a != pair.0 {
        assert DeclaredIn(pairs, a);
        var i :| 0 <= i < |pairs| && pairs[i].0 == a;
        assert more[i].0 == a;
      }
    }
  }

  lemma RefusedAlias(pairs: seq<(string, string)>, pair: (string, string), aliases: Aliases, names: set<string>,
      all: seq<(string, string)>)
    requires AliasMap(pairs, aliases) && (pair.0 in names || pair.0 in aliases)
    requires pairs + [pair] <= all
    ensures !AliasesLegal(all, names)
  {
    assert all[|pairs|] == pair;
    if pair.0 in aliases {
      assert DeclaredIn(pairs, pair.0);
      var i :| 0 <= i < |pairs| && pairs[i].0 == pair.0;
      assert all[i] == pairs[i];
    }
  }

  lemma {:induction false} DeclarationsPrefix(metrics: seq<(string, seq<string>)>, i: nat, j: nat)
    requires i < |metrics| && j < |metrics[i].1|
    ensures Declarations(metrics[..i]) + Tagged(metrics[i].0, metrics[i].1)[..j]
      + [(metrics[i].1[j], metrics[i].0)] <= Declarations(metrics)
    decreases |metrics|
  {
    var n := |metrics| - 1;
    if i < n {
      assert metrics[..n][..i] == metrics[..i];
      DeclarationsPrefix(metrics[..n], i, j);
    } else {
      var tagged := Tagged(metrics[i].0, metrics[i].1);
      assert tagged[..j] + [tagged[j]] <= tagged;
    }
  }

  /** Canonical names are metrics, resolve to themselves, and every alias resolves to the one
      metric that declares it. */
  lemma CanonicalIsIdempotent(pairs: seq<(string, string)>, aliases: Aliases, names: set<string>, name: string)
    requires AliasesLegal(pairs, names) && AliasMap(pairs, aliases)
    requires forall i :: 0 <= i < |pairs| ==> pairs[i].1 in names
    ensures Canonical(aliases, Canonical(aliases, name)) == Canonical(aliases, name)
    ensures name in names || name in aliases ==> Canonical(aliases, name) in names
    ensures forall i :: 0 <= i < |pairs| && pairs[i].0 == name ==> Canonical(aliases, name) == pairs[i].1
  {
    if name in aliases {
      assert DeclaredIn(pairs, name);
      var i :| 0 <= i < |pairs| && pairs[i].0 == name;
      assert pairs[i].1 in names;
    }
  }
}
