# Terran tech-tree resolver

This project models the build-requirement resolver of a StarCraft II bot template and proves what it computes.

`bot/terran_tech_tree.py` defines a hand-written table, `TERRAN_TECH_TREE`. For every Terran structure and unit, the table lists its direct prerequisite structures and units. `get_build_requirements` walks that table depth first. A shared `visited` set stops the walk from expanding any name twice. Each prerequisite is expanded before it is appended, so the result is the full list of structures, the full list of units and the target's own unexpanded lists. `bot/example_tech_tree_usage.py` builds three player-facing helpers on top of it:

- whether a unit can be built from a given set of structures;
- which structure to build next;
- the whole remaining tech path.

Modules:

- `Names`: Python's ordering of `str` (lexicographic by code point, with a proper prefix first) and `sorted()` over a set of names.
- `TechTree`: the resolver. The walk is given as the functions `Visit`/`VisitAll`, which mirror the recursive `resolve_dependencies` and its two `for` loops. It is also given as the imperative method `ResolveDependencies`, which threads `visited` and the two output lists and is proved equal to the functions. `GetBuildRequirements` is the query with its error path.
- `ResolverProperties`: an independent reference, reachability in the prerequisite graph, and the theorems relating the walk to it.
- `TerranTable`: the concrete table, section by section as the source lays it out, with proofs that it has no cycle and no dangling name.
- `TerranExamples`: worked examples proved on the concrete table.
- `TechTreeUsage`: `can_build_unit`, `get_next_building_to_build` and `get_tech_path`, plus the step-by-step progression loop of the usage example.

Design points:

- The table is a `map<string, Deps>`, where `Deps` holds the two declared lists in their declared order.
- An unknown target is a `Failure(NotFound(name, sortedKeys))` value, not an exception.
- Queries take the table as a value and return new values, so no query can modify the table.

## Model

| member | source | states |
|---|---|---|
| TerranTable.TerranTechTree | bot/terran_tech_tree.py:10-194 | The table's keys are exactly the names of its ten sections (base, tier 1-3 structures, add-ons, Command Center, Barracks, Factory and Starport units, summoned units), each mapped to its declared record |
| TerranTable.TerranAcyclic | bot/terran_tech_tree.py:10-194 | No entity of the table requires itself directly or transitively; proved by a tier that drops along every prerequisite edge |
| TerranTable.TerranClosedWorld | bot/terran_tech_tree.py:228-230 | Every name the table lists as a prerequisite is itself a key, so the skip for undeclared names never fires on this table |
| TechTree.AllEntities | bot/terran_tech_tree.py:299-306 | Every key of the table appears exactly once, in Python's string order, and nothing else appears |
| Names.Sort | bot/example_tech_tree_usage.py:28 | `sorted()` of a set: strictly ascending (so no repeats), with exactly the set's members, as many as the set has |
| TechTree.Record | bot/terran_tech_tree.py:237-238 | The chosen output list gains the name at its end exactly when it lacked it; the other list and `visited` are unchanged |
| TechTree.Visit | bot/terran_tech_tree.py:221-244 | `resolve_dependencies` only grows `visited` and the two lists, and always leaves the visited name marked |
| TechTree.VisitAll | bot/terran_tech_tree.py:235-244 | Each loop over a prerequisite list only grows `visited` and the two output lists |
| TechTree.BuildRequirements | bot/terran_tech_tree.py:197-259 | Fails exactly for a name outside the table, with an error carrying that name and all keys sorted; on success `immediate` is the target's declared record, unexpanded |
| TechTree.ResolveDependencies | bot/terran_tech_tree.py:221-244 | The in-place walk over `visited` and the two lists ends in exactly the state the functional walk gives |
| TechTree.GetBuildRequirements | bot/terran_tech_tree.py:197-259 | The query method returns the specified result: a `NotFound` error with the sorted keys exactly for unknown names, and the declared record as `immediate` |
| ResolverProperties.RequirementsNoDuplicates | bot/terran_tech_tree.py:235-244 | Neither returned list holds a name twice, even when a name is reached along several paths |
| ResolverProperties.RequirementsExact | bot/terran_tech_tree.py:221-250 | A name is in the returned structures (units) exactly when it is a declared structure (unit) prerequisite of the target or of something the target transitively needs |
| ResolverProperties.RequirementsInDependencyOrder | bot/terran_tech_tree.py:204-208 | In an acyclic table every returned structure (unit) comes after all of its own direct structure (unit) prerequisites |
| ResolverProperties.TargetNotRequired | bot/terran_tech_tree.py:223-226 | In an acyclic table the target is never in its own returned lists |
| ResolverProperties.RankedAcyclic | bot/terran_tech_tree.py:10-194 | A table whose entities can be ranked so that each prerequisite ranks lower has no cycle |
| TerranExamples.BattlecruiserRequirements | bot/terran_tech_tree.py:330-332 | The Battlecruiser needs SupplyDepot, Barracks, Factory, Starport, StarportTechLab and FusionCore in that order, no unit, and its immediate record is its declared one |
| TerranExamples.SiegeTankRequirements | bot/terran_tech_tree.py:154-157 | The Siege Tank needs SupplyDepot, Barracks, Factory and FactoryTechLab in that order, and no unit |
| TerranExamples.AutoTurretRequirements | bot/terran_tech_tree.py:190-193 | The Auto-Turret needs five structures and the Raven as its one unit prerequisite |
| TerranExamples.CommandCenterRequirements | bot/terran_tech_tree.py:14-17 | A base structure needs nothing |
| TerranExamples.DanglingPrerequisiteRecorded | bot/terran_tech_tree.py:228-238 | A prerequisite that is not in the table is still appended to the output, with nothing expanded below it |
| TerranExamples.SiegeTankFromBarracks | bot/example_tech_tree_usage.py:106-110 | With SupplyDepot, Barracks and CommandCenter, a Siege Tank cannot be built and lacks exactly Factory and FactoryTechLab, sorted |
| TerranExamples.SiegeTankNextFromBarracks | bot/example_tech_tree_usage.py:112-114 | In that position the next structure to build is the Factory |
| TechTreeUsage.MissingSetExact | bot/example_tech_tree_usage.py:22-25 | For a known unit, the missing set holds exactly the structures the unit transitively requires (by reachability in the prerequisite graph) that are not available |
| TechTreeUsage.CanBuildUnit | bot/example_tech_tree_usage.py:9-31 | For a known unit: buildable exactly when every resolved structure is available, and the list is the missing structures, sorted and without repeats. For an unknown unit: `(false, ["Unknown unit: " + name])` |
| TechTreeUsage.CanBuildExactly | bot/example_tech_tree_usage.py:22-26 | A known unit is buildable exactly when every structure it transitively requires is available |
| TechTreeUsage.FirstMissing | bot/example_tech_tree_usage.py:57-62 | Nothing is returned exactly when every name of the order is available; otherwise the result is the first unavailable name of the order |
| TechTreeUsage.NextBuildingToBuild | bot/example_tech_tree_usage.py:34-62 | Fails with the resolver's error exactly for an unknown target. Otherwise it returns nothing exactly when the target is buildable, and else the first unavailable structure of the resolver's order, which is among the missing ones |
| TechTreeUsage.Without | bot/example_tech_tree_usage.py:80-83 | The filtered order holds exactly the names of the order that are not available, and is no longer than the order |
| TechTreeUsage.GetTechPath | bot/example_tech_tree_usage.py:65-85 | Fails with the resolver's error exactly for an unknown target; otherwise the loop returns the resolver's structures in their order with the available ones removed |
| TechTreeUsage.TechPathIsMissing | bot/example_tech_tree_usage.py:76-85 | As a set, the tech path equals the missing list of `can_build_unit`, and it holds no name twice |
| TechTreeUsage.TechPathFeasible | bot/example_tech_tree_usage.py:65-85 | In an acyclic table, each structure on the tech path comes after each of its own structure prerequisites that is not already available |
| TechTreeUsage.AddingShrinksMissing | bot/example_tech_tree_usage.py:142-151 | Adding a missing structure removes exactly that name from the missing set, so the set strictly shrinks |
| TechTreeUsage.BuildUntilReady | bot/example_tech_tree_usage.py:142-153 | Repeatedly adding the next structure ends with the target buildable, and what it adds is exactly the tech path, in order |

## Left out

- `print_build_order` and the `__main__` blocks of both files write to the console. Only their worked examples are used here, and only the ones listed above.
- The exact text of the `KeyError` message is not modelled. The error is a `NotFound` value carrying the name and the sorted key list.
- `immediate` returns the table's own list objects. With value sequences this aliasing is not observable, so it is not modelled.
- `bot/main.py` (the `TankBot` class) is not part of this model. It is asynchronous glue over the game framework, and every decision it makes reads opaque game state.
- `TerranTable.Declared` has a default branch for names outside the table. `TerranTechTree` only maps declared names, so that branch is never reached.
- `NextBuildingToBuild`: an unknown target makes the source raise `KeyError` from its second resolver call, because `can_build_unit` has already put a placeholder message into `missing`. The model returns that error as a `Failure` value.
- `BuildUntilReady`: the step counter and console output of the progression loop are left out. Its final list is returned rather than printed.
- The source's `available` arguments are lists that the helpers turn into sets. The model keeps them as sequences and only uses membership, which gives the same answers.
