/** What the depth-first walk of bot/terran_tech_tree.py computes.

    The independent reference is reachability in the prerequisite graph: an
    edge runs from an entity of the table to each name in its two declared
    lists.  A name is required by a target through channel `k` when it is in
    the `k` list of some entity reachable from the target (the target itself
    included).  For every target in the table the walk returns, per channel,
    exactly the required names, each once; when the table has no cycle it
    lists every name after the names it needs, and never the target. */
module ResolverProperties {
  import opened TechTree

  /** `c` is declared as a direct prerequisite (of either kind) of `x`. */
  ghost predicate Edge(tree: Tree, x: string, c: string) {
    x in tree && (c in tree[x].buildings || c in tree[x].units)
  }

  ghost predicate IsPath(tree: Tree, p: seq<string>) {
    forall i :: 0 <= i < |p| - 1 ==> Edge(tree, p[i], p[i + 1])
  }

  /** `b` is reachable from `a` through zero or more edges. */
  ghost predicate Reaches(tree: Tree, a: string, b: string) {
    exists p :: IsPath(tree, p) && |p| > 0 && p[0] == a && p[|p| - 1] == b
  }

  /** `c` is a channel-`k` prerequisite of something reachable from `root`. */
  ghost predicate RequiredBy(tree: Tree, root: string, c: string, k: Channel) {
    exists x :: Reaches(tree, root, x) && x in tree && c in Prereqs(tree[x], k)
  }

  /** No entity requires itself, directly or transitively. */
  ghost predicate Acyclic(tree: Tree) {
    forall x, c :: Edge(tree, x, c) ==> !Reaches(tree, c, x)
  }

  predicate NoDuplicates(s: seq<string>) {
    forall i, j :: 0 <= i < j < |s| ==> s[i] != s[j]
  }

  /** Each name of `s` that is in the table comes after all of its own
      channel-`k` prerequisites. */
  ghost predicate PrereqsFirst(tree: Tree, s: seq<string>, k: Channel) {
    forall i, c :: 0 <= i < |s| && s[i] in tree && c in Prereqs(tree[s[i]], k) ==> c in s[..i]
  }

  // ---------------------------------------------------------------------
  // Reachability

  lemma ReachesSelf(tree: Tree, x: string)
    ensures Reaches(tree, x, x)
  {
    assert IsPath(tree, [x]);
  }

  lemma ReachesPrepend(tree: Tree, x: string, c: string, y: string)
    requires Edge(tree, x, c) && Reaches(tree, c, y)
    ensures Reaches(tree, x, y)
  {
    var p :| IsPath(tree, p) && |p| > 0 && p[0] == c && p[|p| - 1] == y;
    var q := [x] + p;
    forall i | 0 <= i < |q| - 1
      ensures Edge(tree, q[i], q[i + 1])
    {
      if i > 0 {
        assert q[i] == p[i - 1] && q[i + 1] == p[i];
      }
    }
    assert IsPath(tree, q);
  }

  lemma ReachesAppend(tree: Tree, s: string, x: string, c: string)
    requires Reaches(tree, s, x) && Edge(tree, x, c)
    ensures Reaches(tree, s, c)
  {
    var p :| IsPath(tree, p) && |p| > 0 && p[0] == s && p[|p| - 1] == x;
    var q := p + [c];
    forall i | 0 <= i < |q| - 1
      ensures Edge(tree, q[i], q[i + 1])
    {
      if i < |p| - 1 {
        assert q[i] == p[i] && q[i + 1] == p[i + 1];
      }
    }
    assert IsPath(tree, q);
  }

  /** Along a path, a rank that drops across every edge never rises. */
  lemma {:induction false} PathRankBound(tree: Tree, rank: string -> nat, p: seq<string>)
    requires forall x, c :: Edge(tree, x, c) ==> rank(c) < rank(x)
    requires IsPath(tree, p) && |p| > 0
    ensures rank(p[|p| - 1]) <= rank(p[0])
    decreases |p|
  {
    if |p| > 1 {
      assert Edge(tree, p[0], p[1]);
      assert IsPath(tree, p[1..]) by {
        forall i | 0 <= i < |p[1..]| - 1
          ensures Edge(tree, p[1..][i], p[1..][i + 1])
        {
          assert p[1..][i] == p[i + 1] && p[1..][i + 1] == p[i + 2];
        }
      }
      PathRankBound(tree, rank, p[1..]);
    }
  }

  /** A table whose entities can be ranked so that every prerequisite ranks
      strictly below the entity that needs it has no cycle. */
  lemma RankedAcyclic(tree: Tree, rank: string -> nat)
    requires forall x, c :: Edge(tree, x, c) ==> rank(c) < rank(x)
    ensures Acyclic(tree)
  {
    forall x, c | Edge(tree, x, c) && Reaches(tree, c, x)
      ensures false
    {
      var p :| IsPath(tree, p) && |p| > 0 && p[0] == c && p[|p| - 1] == x;
      PathRankBound(tree, rank, p);
    }
  }

  /** A requirement of a direct prerequisite is a requirement of the parent. */
  lemma RequiredThrough(tree: Tree, x: string, c: string, d: string, k: Channel)
    requires Edge(tree, x, c) && RequiredBy(tree, c, d, k)
    ensures RequiredBy(tree, x, d, k)
  {
    var y :| Reaches(tree, c, y) && y in tree && d in Prereqs(tree[y], k);
    ReachesPrepend(tree, x, c, y);
  }

  lemma PrefixMembers(s: seq<string>, t: seq<string>)
    requires s <= t
    ensures forall c :: c in s ==> c in t
  {
    forall c | c in s
      ensures c in t
    {
      var i :| 0 <= i < |s| && s[i] == c;
      assert t[i] == c;
    }
  }

  // ---------------------------------------------------------------------
  // No duplicates

  ghost predicate WalkNoDuplicates(w: Walk) {
    NoDuplicates(w.buildings) && NoDuplicates(w.units)
  }

  lemma {:induction false} VisitNoDuplicates(tree: Tree, name: string, w: Walk)
    requires WalkNoDuplicates(w)
    ensures WalkNoDuplicates(Visit(tree, name, w))
    decreases |tree.Keys - w.visited|, 0, 0
  {
    if name !in w.visited && name in tree {
      var start := w.(visited := w.visited + {name});
      CardinalityShrinks(tree.Keys, w.visited, start.visited);
      VisitAllNoDuplicates(tree, tree[name].buildings, Buildings, start);
      var afterBuildings := VisitAll(tree, tree[name].buildings, Buildings, start);
      CardinalityShrinks(tree.Keys, start.visited, afterBuildings.visited);
      VisitAllNoDuplicates(tree, tree[name].units, Units, afterBuildings);
    }
  }

  lemma {:induction false} VisitAllNoDuplicates(tree: Tree, cs: seq<string>, k: Channel, w: Walk)
    requires WalkNoDuplicates(w)
    ensures WalkNoDuplicates(VisitAll(tree, cs, k, w))
    decreases |tree.Keys - w.visited|, 1, |cs|
  {
    if cs != [] {
      VisitNoDuplicates(tree, cs[0], w);
      var expanded := Visit(tree, cs[0], w);
      var recorded := Record(expanded, k, cs[0]);
      assert WalkNoDuplicates(recorded) by {
        match k
        case Buildings =>
        case Units =>
      }
      CardinalityShrinks(tree.Keys, w.visited, expanded.visited);
      VisitAllNoDuplicates(tree, cs[1..], k, recorded);
    }
  }

  // ---------------------------------------------------------------------
  // Soundness: everything the walk adds is required by the start name

  ghost predicate AddsOnlyRequired(tree: Tree, root: string, w: Walk, r: Walk) {
    forall k, c :: c in Output(r, k) && c !in Output(w, k) ==> RequiredBy(tree, root, c, k)
  }

  lemma AddsOnlyRequiredChain(tree: Tree, root: string, a: Walk, b: Walk, c: Walk)
    requires AddsOnlyRequired(tree, root, a, b) && AddsOnlyRequired(tree, root, b, c)
    ensures AddsOnlyRequired(tree, root, a, c)
  {
  }

  lemma {:induction false} VisitSound(tree: Tree, name: string, w: Walk)
    ensures AddsOnlyRequired(tree, name, w, Visit(tree, name, w))
    decreases |tree.Keys - w.visited|, 0, 0
  {
    if name !in w.visited && name in tree {
      var start := w.(visited := w.visited + {name});
      CardinalityShrinks(tree.Keys, w.visited, start.visited);
      VisitAllSound(tree, name, tree[name].buildings, Buildings, start);
      var afterBuildings := VisitAll(tree, tree[name].buildings, Buildings, start);
      CardinalityShrinks(tree.Keys, start.visited, afterBuildings.visited);
      VisitAllSound(tree, name, tree[name].units, Units, afterBuildings);
      AddsOnlyRequiredChain(tree, name, start, afterBuildings, Visit(tree, name, w));
    }
  }

  lemma {:induction false} VisitAllSound(tree: Tree, x: string, cs: seq<string>, k: Channel, w: Walk)
    requires x in tree && forall c :: c in cs ==> c in Prereqs(tree[x], k)
    ensures AddsOnlyRequired(tree, x, w, VisitAll(tree, cs, k, w))
    decreases |tree.Keys - w.visited|, 1, |cs|
  {
    if cs != [] {
      var c := cs[0];
      assert c in cs;
      assert Edge(tree, x, c) by {
        match k
        case Buildings =>
        case Units =>
      }
      VisitSound(tree, c, w);
      var expanded := Visit(tree, c, w);
      forall k', d | d in Output(expanded, k') && d !in Output(w, k')
        ensures RequiredBy(tree, x, d, k')
      {
        RequiredThrough(tree, x, c, d, k');
      }
      var recorded := Record(expanded, k, c);
      ReachesSelf(tree, x);
      assert RequiredBy(tree, x, c, k);
      assert AddsOnlyRequired(tree, x, expanded, recorded);
      CardinalityShrinks(tree.Keys, w.visited, expanded.visited);
      VisitAllSound(tree, x, cs[1..], k, recorded);
      AddsOnlyRequiredChain(tree, x, w, expanded, recorded);
      AddsOnlyRequiredChain(tree, x, w, recorded, VisitAll(tree, cs, k, w));
    }
  }

  // ---------------------------------------------------------------------
  // Closure: every visited name that is no longer being expanded has all
  // its prerequisites visited and recorded

  /** Every prerequisite of `x`, of both kinds, is visited and recorded. */
  ghost predicate Finished(tree: Tree, w: Walk, x: string) {
    x in tree ==>
      (forall c :: c in tree[x].buildings ==> c in w.buildings && c in w.visited) &&
      (forall c :: c in tree[x].units ==> c in w.units && c in w.visited)
  }

  /** Every visited name is finished except those in `stack`, the names
      whose expansion is still in progress. */
  ghost predicate Closed(tree: Tree, w: Walk, stack: set<string>) {
    forall x :: x in w.visited && x !in stack ==> Finished(tree, w, x)
  }

  lemma FinishedPrereqs(tree: Tree, w: Walk, x: string, k: Channel)
    requires x in tree && Finished(tree, w, x)
    ensures forall c :: c in Prereqs(tree[x], k) ==> c in Output(w, k) && c in w.visited
  {
    match k
    case Buildings =>
    case Units =>
  }

  lemma ClosedGrows(tree: Tree, w: Walk, r: Walk, stack: set<string>)
    requires Closed(tree, w, stack)
    requires r.visited == w.visited && w.buildings <= r.buildings && w.units <= r.units
    ensures Closed(tree, r, stack)
  {
    PrefixMembers(w.buildings, r.buildings);
    PrefixMembers(w.units, r.units);
    forall x | x in r.visited && x !in stack
      ensures Finished(tree, r, x)
    {
      assert Finished(tree, w, x);
    }
  }

  lemma {:induction false} VisitClosed(tree: Tree, name: string, w: Walk, stack: set<string>)
    requires stack <= w.visited && Closed(tree, w, stack)
    ensures Closed(tree, Visit(tree, name, w), stack)
    decreases |tree.Keys - w.visited|, 0, 0
  {
    if name !in w.visited && name in tree {
      var start := w.(visited := w.visited + {name});
      var inner := stack + {name};
      CardinalityShrinks(tree.Keys, w.visited, start.visited);
      VisitAllClosed(tree, tree[name].buildings, Buildings, start, inner);
      var afterBuildings := VisitAll(tree, tree[name].buildings, Buildings, start);
      CardinalityShrinks(tree.Keys, start.visited, afterBuildings.visited);
      VisitAllClosed(tree, tree[name].units, Units, afterBuildings, inner);
      var r := Visit(tree, name, w);
      PrefixMembers(afterBuildings.buildings, r.buildings);
      assert Finished(tree, r, name);
    }
  }

  lemma {:induction false} VisitAllClosed(tree: Tree, cs: seq<string>, k: Channel, w: Walk, stack: set<string>)
    requires stack <= w.visited && Closed(tree, w, stack)
    ensures var r := VisitAll(tree, cs, k, w);
      Closed(tree, r, stack) && forall c :: c in cs ==> c in Output(r, k) && c in r.visited
    decreases |tree.Keys - w.visited|, 1, |cs|
  {
    if cs != [] {
      VisitClosed(tree, cs[0], w, stack);
      var expanded := Visit(tree, cs[0], w);
      var recorded := Record(expanded, k, cs[0]);
      ClosedGrows(tree, expanded, recorded, stack);
      CardinalityShrinks(tree.Keys, w.visited, expanded.visited);
      VisitAllClosed(tree, cs[1..], k, recorded, stack);
      var r := VisitAll(tree, cs, k, w);
      PrefixMembers(Output(recorded, k), Output(r, k));
      forall c | c in cs
        ensures c in Output(r, k) && c in r.visited
      {
        if c != cs[0] {
          assert c in cs[1..];
        }
      }
    }
  }

  /** In a closed walk, everything reachable from a visited name is visited. */
  lemma {:induction false} ClosedReaches(tree: Tree, w: Walk, p: seq<string>)
    requires Closed(tree, w, {}) && IsPath(tree, p) && |p| > 0 && p[0] in w.visited
    ensures p[|p| - 1] in w.visited
    decreases |p|
  {
    if |p| > 1 {
      assert Edge(tree, p[0], p[1]);
      assert Finished(tree, w, p[0]);
      assert IsPath(tree, p[1..]) by {
        forall i | 0 <= i < |p[1..]| - 1
          ensures Edge(tree, p[1..][i], p[1..][i + 1])
        {
          assert p[1..][i] == p[i + 1] && p[1..][i + 1] == p[i + 2];
        }
      }
      ClosedReaches(tree, w, p[1..]);
    }
  }

  // ---------------------------------------------------------------------
  // Order: with no cycle, every name is recorded after its prerequisites

  ghost predicate WalkOrdered(tree: Tree, w: Walk) {
    PrereqsFirst(tree, w.buildings, Buildings) && PrereqsFirst(tree, w.units, Units)
  }

  lemma AppendKeepsOrder(tree: Tree, s: seq<string>, k: Channel, c: string)
    requires PrereqsFirst(tree, s, k)
    requires c in tree ==> forall d :: d in Prereqs(tree[c], k) ==> d in s
    ensures PrereqsFirst(tree, s + [c], k)
  {
    var t := s + [c];
    forall i, d | 0 <= i < |t| && t[i] in tree && d in Prereqs(tree[t[i]], k)
      ensures d in t[..i]
    {
      if i < |s| {
        assert t[..i] == s[..i];
      } else {
        assert t[..i] == s;
      }
    }
  }

  lemma RecordKeepsOrder(tree: Tree, w: Walk, k: Channel, c: string)
    requires WalkOrdered(tree, w)
    requires c in tree ==> forall d :: d in Prereqs(tree[c], k) ==> d in Output(w, k)
    ensures WalkOrdered(tree, Record(w, k, c))
  {
    if c !in Output(w, k) {
      AppendKeepsOrder(tree, Output(w, k), k, c);
    }
    match k
    case Buildings =>
    case Units =>
  }

  lemma {:induction false} VisitOrdered(tree: Tree, name: string, w: Walk, stack: set<string>)
    requires Acyclic(tree)
    requires stack <= w.visited && Closed(tree, w, stack)
    requires forall s :: s in stack ==> Reaches(tree, s, name)
    requires WalkOrdered(tree, w)
    ensures WalkOrdered(tree, Visit(tree, name, w))
    decreases |tree.Keys - w.visited|, 0, 0
  {
    if name !in w.visited && name in tree {
      var start := w.(visited := w.visited + {name});
      var inner := stack + {name};
      ReachesSelf(tree, name);
      CardinalityShrinks(tree.Keys, w.visited, start.visited);
      VisitAllOrdered(tree, name, tree[name].buildings, Buildings, start, inner);
      VisitAllClosed(tree, tree[name].buildings, Buildings, start, inner);
      var afterBuildings := VisitAll(tree, tree[name].buildings, Buildings, start);
      CardinalityShrinks(tree.Keys, start.visited, afterBuildings.visited);
      VisitAllOrdered(tree, name, tree[name].units, Units, afterBuildings, inner);
    }
  }

  lemma {:induction false} VisitAllOrdered(tree: Tree, x: string, cs: seq<string>, k: Channel, w: Walk, stack: set<string>)
    requires Acyclic(tree)
    requires x in tree && forall c :: c in cs ==> c in Prereqs(tree[x], k)
    requires x in stack && stack <= w.visited && Closed(tree, w, stack)
    requires forall s :: s in stack ==> Reaches(tree, s, x)
    requires WalkOrdered(tree, w)
    ensures WalkOrdered(tree, VisitAll(tree, cs, k, w))
    decreases |tree.Keys - w.visited|, 1, |cs|
  {
    if cs != [] {
      var c := cs[0];
      assert c in cs;
      assert Edge(tree, x, c) by {
        match k
        case Buildings =>
        case Units =>
      }
      forall s | s in stack
        ensures Reaches(tree, s, c)
      {
        ReachesAppend(tree, s, x, c);
      }
      VisitOrdered(tree, c, w, stack);
      VisitClosed(tree, c, w, stack);
      var expanded := Visit(tree, c, w);
      // c is not being expanded: it reaches x, and x requires c, so c on
      // the stack would close a cycle
      assert c !in stack;
      if c in tree {
        assert Finished(tree, expanded, c);
        FinishedPrereqs(tree, expanded, c, k);
      }
      RecordKeepsOrder(tree, expanded, k, c);
      var recorded := Record(expanded, k, c);
      ClosedGrows(tree, expanded, recorded, stack);
      CardinalityShrinks(tree.Keys, w.visited, expanded.visited);
      VisitAllOrdered(tree, x, cs[1..], k, recorded, stack);
    }
  }

  // ---------------------------------------------------------------------
  // The query

  /** The returned lists of `get_build_requirements` hold no name twice,
      even when a name is reached along several paths (a diamond). */
  lemma RequirementsNoDuplicates(tree: Tree, name: string)
    requires name in tree
    ensures NoDuplicates(BuildRequirements(tree, name).value.buildings)
    ensures NoDuplicates(BuildRequirements(tree, name).value.units)
  {
    VisitNoDuplicates(tree, name, Walk({}, [], []));
  }

  /** The returned lists hold exactly the names required by the target,
      per channel: sound and complete with respect to reachability. */
  lemma RequirementsExact(tree: Tree, name: string)
    requires name in tree
    ensures forall c :: c in BuildRequirements(tree, name).value.buildings <==> RequiredBy(tree, name, c, Buildings)
    ensures forall c :: c in BuildRequirements(tree, name).value.units <==> RequiredBy(tree, name, c, Units)
  {
    var empty := Walk({}, [], []);
    var r := Visit(tree, name, empty);
    VisitSound(tree, name, empty);
    VisitClosed(tree, name, empty, {});
    forall k, c | RequiredBy(tree, name, c, k)
      ensures c in Output(r, k)
    {
      var x :| Reaches(tree, name, x) && x in tree && c in Prereqs(tree[x], k);
      var p :| IsPath(tree, p) && |p| > 0 && p[0] == name && p[|p| - 1] == x;
      ClosedReaches(tree, r, p);
      assert Finished(tree, r, x);
      FinishedPrereqs(tree, r, x, k);
    }
    assert forall c :: c in r.buildings <==> c in Output(r, Buildings);
    assert forall c :: c in r.units <==> c in Output(r, Units);
  }

  /** With no cycle, both lists are in dependency order: each entry comes
      after its own direct prerequisites of the same kind. */
  lemma RequirementsInDependencyOrder(tree: Tree, name: string)
    requires name in tree && Acyclic(tree)
    ensures PrereqsFirst(tree, BuildRequirements(tree, name).value.buildings, Buildings)
    ensures PrereqsFirst(tree, BuildRequirements(tree, name).value.units, Units)
  {
    VisitOrdered(tree, name, Walk({}, [], []), {});
  }

  /** With no cycle, the target is never among its own requirements. */
  lemma TargetNotRequired(tree: Tree, name: string)
    requires name in tree && Acyclic(tree)
    ensures name !in BuildRequirements(tree, name).value.buildings
    ensures name !in BuildRequirements(tree, name).value.units
  {
    RequirementsExact(tree, name);
    forall k | RequiredBy(tree, name, name, k)
      ensures false
    {
    }
  }
}
