/** The query helpers of bot/example_tech_tree_usage.py, built on the
    resolver: whether a unit can be built from the structures a player has,
    the next structure to build towards it, and the whole remaining path.

    The player's structures are a list of names; the helpers only ask
    whether a name is in it. */
module TechTreeUsage {
  import opened TechTree
  import opened ResolverProperties
  import Names

  datatype Option<T> = None | Some(value: T)

  /** The resolved structures of `required` that `available` lacks. */
  function MissingSet(required: seq<string>, available: seq<string>): (m: set<string>)
    ensures forall b :: b in m <==> b in required && b !in available
  {
    set b | b in required && b !in available
  }

  /** The missing set of a known unit holds exactly the structures it
      transitively requires that are not available. */
  lemma MissingSetExact(tree: Tree, unitName: string, available: seq<string>)
    requires unitName in tree
    ensures forall c ::
              c in MissingSet(BuildRequirements(tree, unitName).value.buildings, available)
              <==> RequiredBy(tree, unitName, c, Buildings) && c !in available
  {
    RequirementsExact(tree, unitName);
  }

  /** `can_build_unit`: for a known unit, whether every structure it needs is
      available and the sorted missing ones; an unknown unit is reported in
      the list instead of failing. */
  function CanBuildUnit(tree: Tree, unitName: string, available: seq<string>): (r: (bool, seq<string>))
    ensures unitName !in tree ==> r == (false, ["Unknown unit: " + unitName])
    ensures unitName in tree ==>
      var required := BuildRequirements(tree, unitName).value.buildings;
      && (r.0 <==> forall b :: b in required ==> b in available)
      && Names.Ascending(r.1)
      && (forall b :: b in r.1 <==> b in required && b !in available)
  {
    match BuildRequirements(tree, unitName)
    case Failure(_) => (false, ["Unknown unit: " + unitName])
    case Success(requirements) =>
      var missing := MissingSet(requirements.buildings, available);
      (|missing| == 0, Names.Sort(missing))
  }

  /** A known unit can be built exactly when every structure required by it
      or by anything it transitively needs is available. */
  lemma CanBuildExactly(tree: Tree, unitName: string, available: seq<string>)
    requires unitName in tree
    ensures CanBuildUnit(tree, unitName, available).0
        <==> forall c :: RequiredBy(tree, unitName, c, Buildings) ==> c in available
  {
    RequirementsExact(tree, unitName);
  }

  /** The first name of `order` that is not available (the search loop of
      `get_next_building_to_build`). */
  function FirstMissing(order: seq<string>, available: seq<string>): (r: Option<string>)
    ensures r.None? <==> forall b :: b in order ==> b in available
    ensures r.Some? ==> exists i :: 0 <= i < |order| && order[i] == r.value && r.value !in available
                                    && forall j :: 0 <= j < i ==> order[j] in available
  {
    if order == [] then None
    else if order[0] !in available then Some(order[0])
    else
      var r := FirstMissing(order[1..], available);
      assert forall b :: b in order ==> b == order[0] || b in order[1..];
      if r.Some? then
        var i :| 0 <= i < |order[1..]| && order[1..][i] == r.value && r.value !in available
                  && forall j :: 0 <= j < i ==> order[1..][j] in available;
        assert order[i + 1] == r.value;
        assert forall j :: 0 <= j < i + 1 ==> order[j] in available by {
          forall j | 0 <= j < i + 1
            ensures order[j] in available
          {
            if j > 0 {
              assert order[j] == order[1..][j - 1];
            }
          }
        }
        r
      else r
  }

  /** `get_next_building_to_build`.  For an unknown target the resolver's
      error is propagated, since `missing` then holds the message and the
      second query fails. */
  function NextBuildingToBuild(tree: Tree, targetUnit: string, available: seq<string>): (r: Result<Option<string>>)
    ensures r.Failure? <==> targetUnit !in tree
    ensures r.Failure? ==> r.error == NotFound(targetUnit, AllEntities(tree))
    ensures r.Success? ==> (r.value.None? <==> CanBuildUnit(tree, targetUnit, available).0)
    ensures r.Success? && r.value.Some? ==>
      var order := BuildRequirements(tree, targetUnit).value.buildings;
      && r.value.value in CanBuildUnit(tree, targetUnit, available).1
      && r.value.value !in available
      && exists i :: 0 <= i < |order| && order[i] == r.value.value
                     && forall j :: 0 <= j < i ==> order[j] in available
  {
    var (canBuild, missing) := CanBuildUnit(tree, targetUnit, available);
    if canBuild then Success(None)
    else if missing == [] then Success(None)
    else
      match BuildRequirements(tree, targetUnit)
      case Failure(e) => Failure(e)
      case Success(requirements) => Success(FirstMissing(requirements.buildings, available))
  }

  /** The names of `order` that are not available, in order; defined from
      the back, as the loop of `get_tech_path` builds it. */
  function Without(order: seq<string>, available: seq<string>): (path: seq<string>)
    ensures forall b {:trigger b in path} :: b in path <==> b in order && b !in available
    ensures |path| <= |order|
  {
    if order == [] then []
    else
      var last := order[|order| - 1];
      assert forall b :: b in order <==> b in order[..|order| - 1] || b == last by {
        assert order == order[..|order| - 1] + [last];
      }
      Without(order[..|order| - 1], available) + (if last in available then [] else [last])
  }

  /** `get_tech_path`: the resolver's structures, in its order, minus the
      available ones.  An unknown target fails as the resolver does. */
  method GetTechPath(tree: Tree, startBuildings: seq<string>, targetUnit: string) returns (r: Result<seq<string>>)
    ensures r.Failure? <==> targetUnit !in tree
    ensures r.Failure? ==> r.error == NotFound(targetUnit, AllEntities(tree))
    ensures r.Success? ==> r.value == Without(BuildRequirements(tree, targetUnit).value.buildings, startBuildings)
  {
    var requirements := GetBuildRequirements(tree, targetUnit);
    if requirements.Failure? {
      return Failure(requirements.error);
    }
    var allRequired := requirements.value.buildings;
    var techPath := [];
    for i := 0 to |allRequired|
      invariant techPath == Without(allRequired[..i], startBuildings)
    {
      var building := allRequired[i];
      assert allRequired[..i + 1][..i] == allRequired[..i];
      if building !in startBuildings {
        techPath := techPath + [building];
      }
    }
    assert allRequired[..|allRequired|] == allRequired;
    return Success(techPath);
  }

  /** The tech path holds exactly the missing structures of `can_build_unit`,
      each once. */
  lemma TechPathIsMissing(tree: Tree, startBuildings: seq<string>, targetUnit: string)
    requires targetUnit in tree
    ensures var path := Without(BuildRequirements(tree, targetUnit).value.buildings, startBuildings);
      && (forall b :: b in path <==> b in CanBuildUnit(tree, targetUnit, startBuildings).1)
      && NoDuplicates(path)
  {
    var order := BuildRequirements(tree, targetUnit).value.buildings;
    RequirementsNoDuplicates(tree, targetUnit);
    WithoutNoDuplicates(order, startBuildings);
  }

  lemma {:induction false} WithoutNoDuplicates(order: seq<string>, available: seq<string>)
    requires NoDuplicates(order)
    ensures NoDuplicates(Without(order, available))
    decreases |order|
  {
    if order != [] {
      var init := order[..|order| - 1];
      var last := order[|order| - 1];
      assert NoDuplicates(init) by {
        forall i, j | 0 <= i < j < |init|
          ensures init[i] != init[j]
        {
          assert init[i] == order[i] && init[j] == order[j];
        }
      }
      WithoutNoDuplicates(init, available);
      var front := Without(init, available);
      forall i | 0 <= i < |front|
        ensures front[i] != last
      {
        assert front[i] in front;
      }
      assert last !in init by {
        forall i | 0 <= i < |init|
          ensures init[i] != last
        {
          assert init[i] == order[i];
        }
      }
    }
  }

  /** Building `path` in order is feasible: every structure on it comes after
      each of its own structure prerequisites that is not already available. */
  ghost predicate BuildableInOrder(tree: Tree, path: seq<string>, available: seq<string>) {
    forall i, c :: 0 <= i < |path| && path[i] in tree && c in tree[path[i]].buildings
      ==> c in available || c in path[..i]
  }

  /** Building the tech path in order is feasible in an acyclic table. */
  lemma TechPathFeasible(tree: Tree, startBuildings: seq<string>, targetUnit: string)
    requires targetUnit in tree && Acyclic(tree)
    ensures BuildableInOrder(tree, Without(BuildRequirements(tree, targetUnit).value.buildings, startBuildings), startBuildings)
  {
    var order := BuildRequirements(tree, targetUnit).value.buildings;
    RequirementsInDependencyOrder(tree, targetUnit);
    WithoutKeepsOrder(tree, order, startBuildings);
  }

  lemma {:induction false} WithoutKeepsOrder(tree: Tree, order: seq<string>, available: seq<string>)
    requires PrereqsFirst(tree, order, Buildings)
    ensures BuildableInOrder(tree, Without(order, available), available)
    decreases |order|
  {
    if order != [] {
      var init := order[..|order| - 1];
      var last := order[|order| - 1];
      assert PrereqsFirst(tree, init, Buildings) by {
        forall i, c | 0 <= i < |init| && init[i] in tree && c in Prereqs(tree[init[i]], Buildings)
          ensures c in init[..i]
        {
          assert init[i] == order[i] && init[..i] == order[..i];
        }
      }
      WithoutKeepsOrder(tree, init, available);
      var front := Without(init, available);
      var path := Without(order, available);
      assert path == front + (if last in available then [] else [last]);
      forall i, c | 0 <= i < |path| && path[i] in tree && c in tree[path[i]].buildings
        ensures c in available || c in path[..i]
      {
        if i < |front| {
          assert path[i] == front[i] && path[..i] == front[..i];
        } else {
          assert path[i] == last && path[..i] == front;
          assert c in Prereqs(tree[order[|order| - 1]], Buildings);
          assert c in order[..|order| - 1];
          assert c !in available ==> c in front;
        }
      }
    }
  }

  /** Adding a missing structure removes exactly it from the missing set: the
      step of the progression loop makes progress. */
  lemma AddingShrinksMissing(required: seq<string>, available: seq<string>, b: string)
    requires b in MissingSet(required, available)
    ensures MissingSet(required, available + [b]) == MissingSet(required, available) - {b}
    ensures |MissingSet(required, available + [b])| < |MissingSet(required, available)|
  {
    assert forall x :: x in available + [b] <==> x in available || x == b;
  }

  /** The step-by-step progression loop: starting from `start`, keep adding
      the next structure until the target can be built.  It ends, and what
      it adds is exactly the tech path, in its order. */
  method BuildUntilReady(tree: Tree, targetUnit: string, start: seq<string>) returns (buildings: seq<string>)
    requires targetUnit in tree
    ensures CanBuildUnit(tree, targetUnit, buildings).0
    ensures buildings == start + Without(BuildRequirements(tree, targetUnit).value.buildings, start)
  {
    ghost var order := BuildRequirements(tree, targetUnit).value.buildings;
    buildings := start;
    ghost var k := 0;
    while true
      invariant Progress(order, start, k, buildings)
      decreases |order| - k
    {
      var next := NextBuildingToBuild(tree, targetUnit, buildings);
      if next.value.None? {
        break;
      }
      var b := next.value.value;
      ghost var i := StepProgress(tree, targetUnit, order, start, k, buildings);
      buildings := buildings + [b];
      k := i + 1;
    }
    FinishProgress(tree, targetUnit, start, k, buildings);
  }

  /** The loop invariant of the progression: the first `k` names of the
      order are in place and exactly the missing ones among them were
      added, in order. */
  ghost predicate Progress(order: seq<string>, start: seq<string>, k: int, buildings: seq<string>) {
    && 0 <= k <= |order|
    && buildings == start + Without(order[..k], start)
    && forall j :: 0 <= j < k ==> order[j] in buildings
  }

  /** A round that finds a next structure moves the handled prefix past it. */
  lemma StepProgress(tree: Tree, targetUnit: string, order: seq<string>, start: seq<string>, k: int, buildings: seq<string>)
    returns (i: nat)
    requires targetUnit in tree && order == BuildRequirements(tree, targetUnit).value.buildings
    requires Progress(order, start, k, buildings)
    requires NextBuildingToBuild(tree, targetUnit, buildings).value.Some?
    ensures k <= i < |order|
    ensures order[i] == NextBuildingToBuild(tree, targetUnit, buildings).value.value
    ensures Progress(order, start, i + 1, buildings + [order[i]])
  {
    var b := NextBuildingToBuild(tree, targetUnit, buildings).value.value;
    RequirementsNoDuplicates(tree, targetUnit);
    i :| 0 <= i < |order| && order[i] == b && forall j :: 0 <= j < i ==> order[j] in buildings;
    AddNext(order, start, k, i, buildings);
  }

  /** A round that finds nothing ends with the whole tech path added. */
  lemma FinishProgress(tree: Tree, targetUnit: string, start: seq<string>, k: int, buildings: seq<string>)
    requires targetUnit in tree
    requires Progress(BuildRequirements(tree, targetUnit).value.buildings, start, k, buildings)
    requires NextBuildingToBuild(tree, targetUnit, buildings).value.None?
    ensures CanBuildUnit(tree, targetUnit, buildings).0
    ensures buildings == start + Without(BuildRequirements(tree, targetUnit).value.buildings, start)
  {
    var order := BuildRequirements(tree, targetUnit).value.buildings;
    RequirementsNoDuplicates(tree, targetUnit);
    SkippedWereAvailable(order, start, k, |order|, buildings);
    assert order[..|order|] == order;
  }

  /** One round of the progression loop: the next missing name lies beyond
      the handled prefix, and adding it extends the path by that name. */
  lemma AddNext(order: seq<string>, start: seq<string>, k: nat, i: nat, buildings: seq<string>)
    requires NoDuplicates(order) && k <= |order| && i < |order|
    requires buildings == start + Without(order[..k], start)
    requires forall j :: 0 <= j < k ==> order[j] in buildings
    requires forall j :: 0 <= j < i ==> order[j] in buildings
    requires order[i] !in buildings
    ensures k <= i
    ensures buildings + [order[i]] == start + Without(order[..i + 1], start)
    ensures forall j :: 0 <= j < i + 1 ==> order[j] in buildings + [order[i]]
  {
    SkippedWereAvailable(order, start, k, i, buildings);
    assert order[i] !in start;
    WithoutSnoc(order[..i], start, order[i]);
    SliceSnoc(order, i);
    AppendAssociative(start, Without(order[..k], start), [order[i]]);
  }

  lemma SliceSnoc(s: seq<string>, i: nat)
    requires i < |s|
    ensures s[..i] + [s[i]] == s[..i + 1]
  {
  }

  lemma AppendAssociative(a: seq<string>, b: seq<string>, c: seq<string>)
    ensures (a + b) + c == a + (b + c)
  {
  }

  lemma WithoutSnoc(s: seq<string>, available: seq<string>, x: string)
    ensures Without(s + [x], available) == Without(s, available) + (if x in available then [] else [x])
  {
    assert (s + [x])[..|s + [x]| - 1] == s;
  }

  /** A name of a duplicate-free order is not among the names before it. */
  lemma NotEarlier(order: seq<string>, k: nat, m: nat)
    requires NoDuplicates(order) && k <= m < |order|
    ensures order[m] !in order[..k]
  {
  }

  /** Names after the handled prefix that were found available add nothing
      to the path: in a duplicate-free order they were available from the
      start. */
  lemma {:induction false} SkippedWereAvailable(order: seq<string>, start: seq<string>, k: nat, m: nat, buildings: seq<string>)
    requires NoDuplicates(order) && k <= m <= |order|
    requires buildings == start + Without(order[..k], start)
    requires forall j :: k <= j < m ==> order[j] in buildings
    ensures Without(order[..m], start) == Without(order[..k], start)
    decreases m - k
  {
    if m > k {
      SkippedWereAvailable(order, start, k, m - 1, buildings);
      var c := order[m - 1];
      NotEarlier(order, k, m - 1);
      assert c in start;
      assert order[..m][..m - 1] == order[..m - 1];
    }
  }
}
