/** The Terran tech-tree dependency resolver (bot/terran_tech_tree.py).

    A tech tree maps an entity name (a unit or a structure) to its direct
    prerequisites, kept in two declared lists: the structures ("buildings")
    and the units it needs.  `GetBuildRequirements` walks the tree depth
    first from a target, expanding every prerequisite before recording it,
    and returns every structure and every unit needed, each once, together
    with the target's own unexpanded lists.

    The walk is given twice: `Visit`/`VisitAll` are the functional
    specification of the nested `resolve_dependencies`, and
    `ResolveDependencies` is the imperative version that threads the same
    `visited` set and output lists through its `for` loops.  What the walk
    computes is proved in module ResolverProperties. */
module TechTree {
  import Names

  /** A dependency record: the declared direct prerequisites of one entity. */
  datatype Deps = Deps(buildings: seq<string>, units: seq<string>)

  /** The table: entity name to its dependency record. */
  type Tree = map<string, Deps>

  /** Which of the two prerequisite lists (and output lists) is meant. */
  datatype Channel = Buildings | Units

  function Prereqs(d: Deps, k: Channel): seq<string> {
    match k
    case Buildings => d.buildings
    case Units => d.units
  }

  /** The state `resolve_dependencies` shares with its caller: the names
      whose expansion has started and the two output lists built so far. */
  datatype Walk = Walk(visited: set<string>, buildings: seq<string>, units: seq<string>)

  function Output(w: Walk, k: Channel): seq<string> {
    match k
    case Buildings => w.buildings
    case Units => w.units
  }

  /** What one query returns: all structures, all units, and the target's
      own direct lists. */
  datatype Requirements = Requirements(buildings: seq<string>, units: seq<string>, immediate: Deps)

  /** The error raised for a name that is not in the table: it carries the
      name and every name of the table in sorted order. */
  datatype NotFound = NotFound(name: string, available: seq<string>)

  datatype Result<T> = Success(value: T) | Failure(error: NotFound)

  /** `get_all_terran_units`: every entity name of the table, sorted. */
  function AllEntities(tree: Tree): (names: seq<string>)
    ensures Names.Ascending(names)
    ensures forall x :: x in names <==> x in tree
    ensures |names| == |tree|
  {
    Names.Sort(tree.Keys)
  }

  lemma CardinalityShrinks(keys: set<string>, before: set<string>, after: set<string>)
    requires before <= after
    ensures |keys - after| <= |keys - before|
    ensures (exists x :: x in keys && x in after && x !in before) ==> |keys - after| < |keys - before|
  {
    SubsetCardinality(keys - after, keys - before);
  }

  lemma {:induction false} SubsetCardinality(a: set<string>, b: set<string>)
    requires a <= b
    ensures |a| <= |b|
    ensures a < b ==> |a| < |b|
    decreases |b|
  {
    if a != {} {
      var x :| x in a;
      if a < b {
        var y :| y in b && y !in a;
        assert y in (b - {x}) - (a - {x});
      }
      SubsetCardinality(a - {x}, b - {x});
    }
  }

  /** Append `c` to the output list of channel `k` unless it is already
      there (the `if building not in all_buildings` step). */
  function Record(w: Walk, k: Channel, c: string): (r: Walk)
    ensures r.visited == w.visited && w.buildings <= r.buildings && w.units <= r.units
    ensures Output(r, k) == if c in Output(w, k) then Output(w, k) else Output(w, k) + [c]
    ensures forall k' :: k' != k ==> Output(r, k') == Output(w, k')
  {
    match k
    case Buildings => if c in w.buildings then w else w.(buildings := w.buildings + [c])
    case Units => if c in w.units then w else w.(units := w.units + [c])
  }

  /** `resolve_dependencies(name)` as a function of the shared state: a name
      already visited is skipped; otherwise it is marked visited and, when it
      is in the table, its structures and then its units are expanded. */
  function Visit(tree: Tree, name: string, w: Walk): (r: Walk)
    ensures w.visited <= r.visited && name in r.visited
    ensures w.buildings <= r.buildings && w.units <= r.units
    decreases |tree.Keys - w.visited|, 0, 0
  {
    if name in w.visited then w
    else
      var start := w.(visited := w.visited + {name});
      if name !in tree then start
      else
        CardinalityShrinks(tree.Keys, w.visited, start.visited);
        var afterBuildings := VisitAll(tree, tree[name].buildings, Buildings, start);
        CardinalityShrinks(tree.Keys, start.visited, afterBuildings.visited);
        VisitAll(tree, tree[name].units, Units, afterBuildings)
  }

  /** One of the two `for` loops of `resolve_dependencies`: each name of
      `cs` is expanded first and then recorded in channel `k`. */
  function VisitAll(tree: Tree, cs: seq<string>, k: Channel, w: Walk): (r: Walk)
    ensures w.visited <= r.visited
    ensures w.buildings <= r.buildings && w.units <= r.units
    decreases |tree.Keys - w.visited|, 1, |cs|
  {
    if cs == [] then w
    else
      var expanded := Visit(tree, cs[0], w);
      CardinalityShrinks(tree.Keys, w.visited, expanded.visited);
      VisitAll(tree, cs[1..], k, Record(expanded, k, cs[0]))
  }

  /** The query as a function: the specification of `GetBuildRequirements`. */
  function BuildRequirements(tree: Tree, unitName: string): (r: Result<Requirements>)
    ensures r.Failure? <==> unitName !in tree
    ensures r.Failure? ==> r.error == NotFound(unitName, AllEntities(tree))
    ensures r.Success? ==> r.value.immediate == tree[unitName]
  {
    if unitName !in tree then Failure(NotFound(unitName, AllEntities(tree)))
    else
      var w := Visit(tree, unitName, Walk({}, [], []));
      Success(Requirements(w.buildings, w.units, tree[unitName]))
  }

  /** The nested `resolve_dependencies`, with the enclosing `visited`,
      `all_buildings` and `all_units` passed in and handed back. */
  method ResolveDependencies(tree: Tree, name: string, visited: set<string>, buildings: seq<string>, units: seq<string>)
    returns (visited': set<string>, buildings': seq<string>, units': seq<string>)
    ensures Walk(visited', buildings', units') == Visit(tree, name, Walk(visited, buildings, units))
    decreases |tree.Keys - visited|
  {
    visited', buildings', units' := visited, buildings, units;
    if name in visited {
      return;
    }
    visited' := visited' + {name};
    if name !in tree {
      return;
    }
    var requirements := tree[name];
    ghost var start := Walk(visited', buildings', units');

    for i := 0 to |requirements.buildings|
      invariant visited + {name} <= visited'
      invariant VisitAll(tree, requirements.buildings[i..], Buildings, Walk(visited', buildings', units'))
             == VisitAll(tree, requirements.buildings, Buildings, start)
    {
      var building := requirements.buildings[i];
      CardinalityShrinks(tree.Keys, visited, visited');
      visited', buildings', units' := ResolveDependencies(tree, building, visited', buildings', units');
      if building !in buildings' {
        buildings' := buildings' + [building];
      }
      assert requirements.buildings[i..][1..] == requirements.buildings[i + 1..];
    }
    ghost var afterBuildings := Walk(visited', buildings', units');

    for i := 0 to |requirements.units|
      invariant visited + {name} <= visited'
      invariant VisitAll(tree, requirements.units[i..], Units, Walk(visited', buildings', units'))
             == VisitAll(tree, requirements.units, Units, afterBuildings)
    {
      var unit := requirements.units[i];
      CardinalityShrinks(tree.Keys, visited, visited');
      visited', buildings', units' := ResolveDependencies(tree, unit, visited', buildings', units');
      if unit !in units' {
        units' := units' + [unit];
      }
      assert requirements.units[i..][1..] == requirements.units[i + 1..];
    }
  }

  /** `get_build_requirements`: unknown names fail with the name and the
      sorted table keys; otherwise the walk starts from an empty state. */
  method GetBuildRequirements(tree: Tree, unitName: string) returns (r: Result<Requirements>)
    ensures r == BuildRequirements(tree, unitName)
    ensures r.Failure? <==> unitName !in tree
    ensures r.Failure? ==> r.error == NotFound(unitName, AllEntities(tree))
    ensures r.Success? ==> r.value.immediate == tree[unitName]
  {
    if unitName !in tree {
      return Failure(NotFound(unitName, AllEntities(tree)));
    }
    var immediate := tree[unitName];
    var _, buildings, units := ResolveDependencies(tree, unitName, {}, [], []);
    return Success(Requirements(buildings, units, immediate));
  }
}
