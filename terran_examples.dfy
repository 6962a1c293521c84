/** The worked examples of bot/terran_tech_tree.py and
    bot/example_tech_tree_usage.py, proved on the Terran table. */
module TerranExamples {
  import opened TechTree
  import opened TerranTable
  import opened TechTreeUsage
  import Names

  /** One step of the walk: a name not yet visited whose only prerequisite
      is the structure `c` expands `c` and then records it. */
  lemma VisitOneBuilding(tree: Tree, x: string, c: string, w: Walk)
    requires x in tree && tree[x] == Deps([c], []) && x !in w.visited
    ensures Visit(tree, x, w) == Record(Visit(tree, c, w.(visited := w.visited + {x})), Buildings, c)
  {
    var start := w.(visited := w.visited + {x});
    var r := Record(Visit(tree, c, start), Buildings, c);
    assert [c][1..] == [];
    assert VisitAll(tree, [c], Buildings, start) == VisitAll(tree, [], Buildings, r);
  }

  /** A name not yet visited with no prerequisites is only marked visited. */
  lemma VisitBase(tree: Tree, x: string, w: Walk)
    requires x in tree && tree[x] == Deps([], []) && x !in w.visited
    ensures Visit(tree, x, w) == w.(visited := w.visited + {x})
  {
  }

  /** The Starport chain: `s` needs `f`, which needs `b`, which needs the
      base structure `d`. */
  ghost predicate ChainDeclared(tree: Tree, s: string, f: string, b: string, d: string) {
    d in tree && tree[d] == Deps([], []) &&
    b in tree && tree[b] == Deps([d], []) &&
    f in tree && tree[f] == Deps([b], []) &&
    s in tree && tree[s] == Deps([f], [])
  }

  /** From a state with nothing recorded, expanding and recording the head
      of a chain records the whole chain, base first. */
  lemma Chain(tree: Tree, s: string, f: string, b: string, d: string, w: Walk)
    requires ChainDeclared(tree, s, f, b, d)
    requires s !in w.visited && f !in w.visited + {s}
    requires b !in w.visited + {s} + {f} && d !in w.visited + {s} + {f} + {b}
    requires w.buildings == [] && w.units == []
    ensures Record(Visit(tree, s, w), Buildings, s)
         == Walk(w.visited + {s} + {f} + {b} + {d}, [d, b, f, s], [])
  {
    var w1 := w.(visited := w.visited + {s});
    var w2 := w1.(visited := w1.visited + {f});
    var w3 := w2.(visited := w2.visited + {b});
    VisitOneBuilding(tree, s, f, w);
    VisitOneBuilding(tree, f, b, w1);
    VisitOneBuilding(tree, b, d, w2);
    VisitBase(tree, d, w3);
  }

  lemma StarportChainInTable()
    ensures ChainDeclared(TerranTechTree(), "Starport", "Factory", "Barracks", "SupplyDepot")
  {
    SupplyDepotEntry(); BarracksEntry(); FactoryEntry(); StarportEntry();
  }

  /** The first name of a list is expanded and recorded before the rest. */
  lemma VisitAllCons(tree: Tree, c: string, rest: seq<string>, k: Channel, w: Walk)
    ensures VisitAll(tree, [c] + rest, k, w) == VisitAll(tree, rest, k, Record(Visit(tree, c, w), k, c))
  {
    assert ([c] + rest)[1..] == rest;
  }

  /** Names already expanded and recorded leave the state unchanged. */
  lemma {:induction false} VisitAllDone(tree: Tree, cs: seq<string>, w: Walk)
    requires forall c :: c in cs ==> c in w.visited && c in w.buildings
    ensures VisitAll(tree, cs, Buildings, w) == w
    decreases |cs|
  {
    if cs != [] {
      assert cs[0] in cs;
      VisitAllDone(tree, cs[1..], w);
    }
  }

  /** An entity whose structure prerequisites are all expanded and recorded,
      and which needs no unit, is only marked visited. */
  lemma VisitExpanded(tree: Tree, x: string, w: Walk)
    requires x in tree && tree[x].units == [] && x !in w.visited
    requires forall c :: c in tree[x].buildings ==> c in w.visited && c in w.buildings
    ensures Visit(tree, x, w) == w.(visited := w.visited + {x})
  {
    VisitAllDone(tree, tree[x].buildings, w.(visited := w.visited + {x}));
  }

  /** Expanding and recording such an entity adds it once to the structures. */
  lemma RecordExpanded(tree: Tree, x: string, w: Walk)
    requires x in tree && tree[x].units == [] && x !in w.visited && x !in w.buildings
    requires forall c :: c in tree[x].buildings ==> c in w.visited && c in w.buildings
    ensures Record(Visit(tree, x, w), Buildings, x) == Walk(w.visited + {x}, w.buildings + [x], w.units)
  {
    VisitExpanded(tree, x, w);
  }

  /** bot/terran_tech_tree.py:330-332: the Battlecruiser needs the whole
      Starport chain, its tech lab and the Fusion Core, each once, with every
      structure after its own prerequisites. */
  lemma BattlecruiserRequirements()
    ensures BuildRequirements(TerranTechTree(), "Battlecruiser")
         == Success(Requirements(
              ["SupplyDepot", "Barracks", "Factory", "Starport", "StarportTechLab", "FusionCore"],
              [],
              Deps(["Starport", "StarportTechLab", "FusionCore"], [])))
  {
    StarportChainInTable();
    BattlecruiserEntry(); StarportTechLabEntry(); FusionCoreEntry();
    BattlecruiserWalk(TerranTechTree(), "Battlecruiser", "Starport", "Factory", "Barracks", "SupplyDepot",
      "StarportTechLab", "FusionCore");
  }

  /** The Battlecruiser's walk, with `bc` needing `s`, its add-on `lab` and
      `core`, both of which need only `s`. */
  lemma BattlecruiserWalk(tree: Tree, bc: string, s: string, f: string, b: string, d: string, lab: string, core: string)
    requires ChainDeclared(tree, s, f, b, d)
    requires lab in tree && tree[lab] == Deps([s], [])
    requires core in tree && tree[core] == Deps([s], [])
    requires bc in tree && tree[bc] == Deps([s, lab, core], [])
    requires s !in {bc} && f !in {bc, s} && b !in {bc, s, f} && d !in {bc, s, f, b}
    requires lab !in {bc, s, f, b, d} && core !in {bc, s, f, b, d, lab}
    ensures Visit(tree, bc, Walk({}, [], [])).buildings == [d, b, f, s, lab, core]
    ensures Visit(tree, bc, Walk({}, [], [])).units == []
  {
    var w0 := Walk({}, [], []);
    var start := w0.(visited := w0.visited + {bc});
    var r2 := ChainAndAddOn(tree, s, f, b, d, lab, [core], start);
    assert [s, lab] + [core] == [s, lab, core];
    var r3 := AddOnOnly(tree, s, core, [], r2);
    assert [core] + [] == [core];
    assert r3.buildings == [d, b, f, s, lab, core];
    VisitUnfold(tree, bc, w0);
  }

  /** A name not yet visited is marked and its two lists are expanded in turn. */
  lemma VisitUnfold(tree: Tree, x: string, w: Walk)
    requires x in tree && x !in w.visited
    ensures Visit(tree, x, w)
         == VisitAll(tree, tree[x].units, Units, VisitAll(tree, tree[x].buildings, Buildings, w.(visited := w.visited + {x})))
  {
  }

  /** A list headed by the chain's top expands the whole chain first. */
  lemma ChainFirst(tree: Tree, s: string, f: string, b: string, d: string, rest: seq<string>, w: Walk)
    returns (r1: Walk)
    requires ChainDeclared(tree, s, f, b, d)
    requires s !in w.visited && f !in w.visited + {s}
    requires b !in w.visited + {s} + {f} && d !in w.visited + {s} + {f} + {b}
    requires w.buildings == [] && w.units == []
    ensures r1 == Walk(w.visited + {s} + {f} + {b} + {d}, [d, b, f, s], [])
    ensures forall x :: x in r1.buildings ==> x in r1.visited
    ensures s in r1.buildings
    ensures VisitAll(tree, [s] + rest, Buildings, w) == VisitAll(tree, rest, Buildings, r1)
  {
    Chain(tree, s, f, b, d, w);
    VisitAllCons(tree, s, rest, Buildings, w);
    r1 := Walk(w.visited + {s} + {f} + {b} + {d}, [d, b, f, s], []);
  }

  /** A base structure needs nothing. */
  lemma CommandCenterRequirements()
    ensures BuildRequirements(TerranTechTree(), "CommandCenter")
         == Success(Requirements([], [], Deps([], [])))
  {
    CommandCenterEntry();
    VisitBase(TerranTechTree(), "CommandCenter", Walk({}, [], []));
  }

  /** The Auto-Turret is the one entry with a unit prerequisite: the Raven is
      reported among the units, after the structures it shares with the
      turret. */
  lemma AutoTurretRequirements()
    ensures BuildRequirements(TerranTechTree(), "AutoTurret")
         == Success(Requirements(
              ["SupplyDepot", "Barracks", "Factory", "Starport", "StarportTechLab"],
              ["Raven"],
              Deps(["Starport", "StarportTechLab"], ["Raven"])))
  {
    StarportChainInTable();
    AutoTurretEntry(); StarportTechLabEntry(); RavenEntry();
    AutoTurretWalk(TerranTechTree(), "AutoTurret", "Starport", "Factory", "Barracks", "SupplyDepot",
      "StarportTechLab", "Raven");
  }

  /** The Auto-Turret's walk, with `turret` needing `s` and its add-on `lab`
      as structures and `caster` as a unit, which needs the same two. */
  lemma AutoTurretWalk(tree: Tree, turret: string, s: string, f: string, b: string, d: string, lab: string, caster: string)
    requires ChainDeclared(tree, s, f, b, d)
    requires lab in tree && tree[lab] == Deps([s], [])
    requires caster in tree && tree[caster] == Deps([s, lab], [])
    requires turret in tree && tree[turret] == Deps([s, lab], [caster])
    requires s !in {turret} && f !in {turret, s} && b !in {turret, s, f} && d !in {turret, s, f, b}
    requires lab !in {turret, s, f, b, d} && caster !in {turret, s, f, b, d, lab}
    ensures Visit(tree, turret, Walk({}, [], [])).buildings == [d, b, f, s, lab]
    ensures Visit(tree, turret, Walk({}, [], [])).units == [caster]
  {
    var w0 := Walk({}, [], []);
    var start := w0.(visited := w0.visited + {turret});
    var r2 := ChainAndAddOn(tree, s, f, b, d, lab, [], start);
    assert [s, lab] + [] == [s, lab];
    assert VisitAll(tree, [], Buildings, r2) == r2;
    CasterOnly(tree, caster, r2);
    VisitUnfold(tree, turret, w0);
  }

  /** The Starport chain and then its add-on, from a state holding only the
      target. */
  lemma ChainAndAddOn(tree: Tree, s: string, f: string, b: string, d: string, lab: string, rest: seq<string>, start: Walk)
    returns (r2: Walk)
    requires ChainDeclared(tree, s, f, b, d)
    requires lab in tree && tree[lab] == Deps([s], [])
    requires s !in start.visited && f !in start.visited + {s}
    requires b !in start.visited + {s} + {f} && d !in start.visited + {s} + {f} + {b}
    requires lab !in start.visited + {s} + {f} + {b} + {d}
    requires start.buildings == [] && start.units == []
    ensures VisitAll(tree, [s, lab] + rest, Buildings, start) == VisitAll(tree, rest, Buildings, r2)
    ensures r2.buildings == [d, b, f, s, lab] && r2.units == []
    ensures r2.visited == start.visited + {s} + {f} + {b} + {d} + {lab}
    ensures s in r2.buildings && forall x :: x in r2.buildings ==> x in r2.visited
  {
    var r1 := ChainFirst(tree, s, f, b, d, [lab] + rest, start);
    assert [s] + ([lab] + rest) == [s, lab] + rest;
    r2 := AddOnOnly(tree, s, lab, rest, r1);
  }

  /** With `s` expanded and recorded, its add-on `lab` adds only itself. */
  lemma AddOnOnly(tree: Tree, s: string, lab: string, rest: seq<string>, w: Walk) returns (r2: Walk)
    requires lab in tree && tree[lab] == Deps([s], [])
    requires s in w.visited && s in w.buildings
    requires forall x :: x in w.buildings ==> x in w.visited
    requires lab !in w.visited
    ensures r2 == Walk(w.visited + {lab}, w.buildings + [lab], w.units)
    ensures VisitAll(tree, [lab] + rest, Buildings, w) == VisitAll(tree, rest, Buildings, r2)
    ensures s in r2.buildings && forall x :: x in r2.buildings ==> x in r2.visited
  {
    RecordExpanded(tree, lab, w);
    r2 := Walk(w.visited + {lab}, w.buildings + [lab], w.units);
    VisitAllCons(tree, lab, rest, Buildings, w);
  }

  /** A unit whose structure prerequisites are all in place is added to the
      units alone. */
  lemma CasterOnly(tree: Tree, caster: string, w: Walk)
    requires caster in tree && tree[caster].units == [] && caster !in w.visited && w.units == []
    requires forall c :: c in tree[caster].buildings ==> c in w.visited && c in w.buildings
    ensures VisitAll(tree, [caster], Units, w) == Walk(w.visited + {caster}, w.buildings, [caster])
  {
    VisitExpanded(tree, caster, w);
    VisitAllCons(tree, caster, [], Units, w);
  }

  /** The Siege Tank needs the Factory chain and the Factory's tech lab. */
  lemma SiegeTankRequirements()
    ensures BuildRequirements(TerranTechTree(), "SiegeTank")
         == Success(Requirements(
              ["SupplyDepot", "Barracks", "Factory", "FactoryTechLab"],
              [],
              Deps(["Factory", "FactoryTechLab"], [])))
  {
    SupplyDepotEntry(); BarracksEntry(); FactoryEntry(); FactoryTechLabEntry(); SiegeTankEntry();
    SiegeTankWalk(TerranTechTree(), "SiegeTank", "Factory", "Barracks", "SupplyDepot", "FactoryTechLab");
  }

  /** The Siege Tank's walk, with `tank` needing `f` and its add-on `lab`,
      where `f` needs `b`, which needs the base structure `d`. */
  lemma SiegeTankWalk(tree: Tree, tank: string, f: string, b: string, d: string, lab: string)
    requires d in tree && tree[d] == Deps([], [])
    requires b in tree && tree[b] == Deps([d], [])
    requires f in tree && tree[f] == Deps([b], [])
    requires lab in tree && tree[lab] == Deps([f], [])
    requires tank in tree && tree[tank] == Deps([f, lab], [])
    requires f !in {tank} && b !in {tank, f} && d !in {tank, f, b} && lab !in {tank, f, b, d}
    ensures Visit(tree, tank, Walk({}, [], [])).buildings == [d, b, f, lab]
    ensures Visit(tree, tank, Walk({}, [], [])).units == []
  {
    var w0 := Walk({}, [], []);
    var start := w0.(visited := w0.visited + {tank});
    var r1 := FactoryChainFirst(tree, f, b, d, [lab], start);
    assert [f] + [lab] == [f, lab];
    var r2 := AddOnOnly(tree, f, lab, [], r1);
    assert [lab] + [] == [lab];
    assert VisitAll(tree, [], Buildings, r2) == r2;
    VisitUnfold(tree, tank, w0);
  }

  /** A list headed by `f`, which needs `b`, which needs the base structure
      `d`, expands those three first. */
  lemma FactoryChainFirst(tree: Tree, f: string, b: string, d: string, rest: seq<string>, w: Walk)
    returns (r1: Walk)
    requires d in tree && tree[d] == Deps([], [])
    requires b in tree && tree[b] == Deps([d], [])
    requires f in tree && tree[f] == Deps([b], [])
    requires f !in w.visited && b !in w.visited + {f} && d !in w.visited + {f} + {b}
    requires w.buildings == [] && w.units == []
    ensures r1 == Walk(w.visited + {f} + {b} + {d}, [d, b, f], [])
    ensures forall x :: x in r1.buildings ==> x in r1.visited
    ensures f in r1.buildings
    ensures VisitAll(tree, [f] + rest, Buildings, w) == VisitAll(tree, rest, Buildings, r1)
  {
    var w1 := w.(visited := w.visited + {f});
    var w2 := w1.(visited := w1.visited + {b});
    VisitOneBuilding(tree, f, b, w);
    VisitOneBuilding(tree, b, d, w1);
    VisitBase(tree, d, w2);
    r1 := Walk(w.visited + {f} + {b} + {d}, [d, b, f], []);
    assert Record(Visit(tree, f, w), Buildings, f) == r1;
    VisitAllCons(tree, f, rest, Buildings, w);
  }

  /** bot/example_tech_tree_usage.py:106-110: with a Supply Depot, Barracks
      and Command Center, a Siege Tank still lacks the Factory and its tech
      lab, listed in sorted order. */
  lemma SiegeTankFromBarracks()
    ensures CanBuildUnit(TerranTechTree(), "SiegeTank", ["SupplyDepot", "Barracks", "CommandCenter"])
         == (false, ["Factory", "FactoryTechLab"])
  {
    SiegeTankRequirements();
    FactoryBeforeTechLab();
    MissingPair("SupplyDepot", "Barracks", "Factory", "FactoryTechLab", "CommandCenter");
    SortPair("Factory", "FactoryTechLab");
  }

  /** bot/example_tech_tree_usage.py:112-114: the Factory is the next
      structure towards the Siege Tank. */
  lemma SiegeTankNextFromBarracks()
    ensures NextBuildingToBuild(TerranTechTree(), "SiegeTank", ["SupplyDepot", "Barracks", "CommandCenter"])
         == Success(Some("Factory"))
  {
    SiegeTankFromBarracks();
    SiegeTankRequirements();
    MissingPair("SupplyDepot", "Barracks", "Factory", "FactoryTechLab", "CommandCenter");
  }

  /** Python orders a proper prefix first. */
  lemma FactoryBeforeTechLab()
    ensures Names.Below("Factory", "FactoryTechLab")
  {
  }

  /** Sorting two names gives the smaller one first. */
  lemma SortPair(x: string, y: string)
    requires Names.Below(x, y)
    ensures Names.Sort({x, y}) == [x, y]
  {
    var sorted := Names.Sort({x, y});
    Names.BelowIrreflexive(x);
    Names.BelowAsymmetric();
    assert sorted[0] in {x, y} && sorted[1] in {x, y};
    assert Names.Below(sorted[0], sorted[1]);
  }

  /** With `d` and `b` available, the missing names of `[d, b, f, lab]` are
      `f` and `lab`, and `f` is the first of them. */
  lemma MissingPair(d: string, b: string, f: string, lab: string, cc: string)
    requires f !in {d, b, cc} && lab !in {d, b, cc}
    ensures MissingSet([d, b, f, lab], [d, b, cc]) == {f, lab}
    ensures FirstMissing([d, b, f, lab], [d, b, cc]) == Some(f)
  {
    assert [d, b, f, lab][1..] == [b, f, lab] && [b, f, lab][1..] == [f, lab];
  }

  /** A prerequisite missing from the table is recorded but has nothing to
      expand: a one-entry table that names an undeclared structure. */
  lemma DanglingPrerequisiteRecorded(a: string, g: string)
    requires a != g
    ensures BuildRequirements(map[a := Deps([g], [])], a) == Success(Requirements([g], [], Deps([g], [])))
  {
    var tree := map[a := Deps([g], [])];
    var w0 := Walk({}, [], []);
    var start := w0.(visited := w0.visited + {a});
    assert g !in tree && g !in start.visited;
    assert Visit(tree, g, start) == start.(visited := start.visited + {g});
    VisitOneBuilding(tree, a, g, w0);
    assert Visit(tree, a, w0).buildings == [g] && Visit(tree, a, w0).units == [];
  }
}
