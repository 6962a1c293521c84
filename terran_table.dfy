/** The Terran table of bot/terran_tech_tree.py and what holds of it.

    `TERRAN_TECH_TREE` is constant data: for each entity, its structure and
    unit prerequisites in declared order.  Here the table is the map from
    every name of its ten sections to that name's declared record.  It has
    no cycle (each entity has a higher tier than each of its prerequisites)
    and no dangling name. */
module TerranTable {
  import opened TechTree
  import opened ResolverProperties

  /** `TERRAN_TECH_TREE`. */
  function TerranTechTree(): (tree: Tree)
    ensures tree.Keys == AllNames()
  {
    map name | name in AllNames() :: Declared(name)
  }

  /** The record the table declares for `name`. */
  function Declared(name: string): Deps {
    match name
    case "CommandCenter" => Deps([], [])
    case "SupplyDepot" => Deps([], [])
    case "Refinery" => Deps([], [])
    case "Barracks" => Deps(["SupplyDepot"], [])
    case "OrbitalCommand" => Deps(["Barracks"], [])
    case "PlanetaryFortress" => Deps(["EngineeringBay"], [])
    case "EngineeringBay" => Deps(["CommandCenter"], [])
    case "Bunker" => Deps(["Barracks"], [])
    case "MissileTurret" => Deps(["EngineeringBay"], [])
    case "SensorTower" => Deps(["EngineeringBay"], [])
    case "GhostAcademy" => Deps(["Barracks"], [])
    case "Factory" => Deps(["Barracks"], [])
    case "Armory" => Deps(["Factory"], [])
    case "Starport" => Deps(["Factory"], [])
    case "FusionCore" => Deps(["Starport"], [])
    case "BarracksTechLab" => Deps(["Barracks"], [])
    case "BarracksReactor" => Deps(["Barracks"], [])
    case "FactoryTechLab" => Deps(["Factory"], [])
    case "FactoryReactor" => Deps(["Factory"], [])
    case "StarportTechLab" => Deps(["Starport"], [])
    case "StarportReactor" => Deps(["Starport"], [])
    case "SCV" => Deps(["CommandCenter"], [])
    case "MULE" => Deps(["OrbitalCommand"], [])
    case "Marine" => Deps(["Barracks"], [])
    case "Reaper" => Deps(["Barracks"], [])
    case "Marauder" => Deps(["Barracks", "BarracksTechLab"], [])
    case "Ghost" => Deps(["Barracks", "BarracksTechLab", "GhostAcademy"], [])
    case "Hellion" => Deps(["Factory"], [])
    case "Hellbat" => Deps(["Factory", "Armory"], [])
    case "WidowMine" => Deps(["Factory"], [])
    case "Cyclone" => Deps(["Factory", "FactoryTechLab"], [])
    case "SiegeTank" => Deps(["Factory", "FactoryTechLab"], [])
    case "Thor" => Deps(["Factory", "FactoryTechLab", "Armory"], [])
    case "Viking" => Deps(["Starport"], [])
    case "Medivac" => Deps(["Starport"], [])
    case "Liberator" => Deps(["Starport"], [])
    case "Banshee" => Deps(["Starport", "StarportTechLab"], [])
    case "Raven" => Deps(["Starport", "StarportTechLab"], [])
    case "Battlecruiser" => Deps(["Starport", "StarportTechLab", "FusionCore"], [])
    case "AutoTurret" => Deps(["Starport", "StarportTechLab"], ["Raven"])
    case _ => Deps([], [])
  }

  /** Every name of the table, section by section. */
  function AllNames(): set<string> {
    BaseStructures() + TierOneStructures() + TierTwoStructures() + TierThreeStructures() + AddOns() + CommandCenterUnits() + BarracksUnits() + FactoryUnits() + StarportUnits() + SummonedUnits()
  }

  /** A tier per entity: base structures are 0, everything else is one more
      than its highest prerequisite. */
  function Tier(name: string): nat {
    match name
    case "CommandCenter" => 0
    case "SupplyDepot" => 0
    case "Refinery" => 0
    case "Barracks" => 1
    case "OrbitalCommand" => 2
    case "PlanetaryFortress" => 2
    case "EngineeringBay" => 1
    case "Bunker" => 2
    case "MissileTurret" => 2
    case "SensorTower" => 2
    case "GhostAcademy" => 2
    case "Factory" => 2
    case "Armory" => 3
    case "Starport" => 3
    case "FusionCore" => 4
    case "BarracksTechLab" => 2
    case "BarracksReactor" => 2
    case "FactoryTechLab" => 3
    case "FactoryReactor" => 3
    case "StarportTechLab" => 4
    case "StarportReactor" => 4
    case "SCV" => 1
    case "MULE" => 3
    case "Marine" => 2
    case "Reaper" => 2
    case "Marauder" => 3
    case "Ghost" => 3
    case "Hellion" => 3
    case "Hellbat" => 4
    case "WidowMine" => 3
    case "Cyclone" => 4
    case "SiegeTank" => 4
    case "Thor" => 4
    case "Viking" => 4
    case "Medivac" => 4
    case "Liberator" => 4
    case "Banshee" => 5
    case "Raven" => 5
    case "Battlecruiser" => 5
    case "AutoTurret" => 6
    case _ => 0
  }

  /** Every prerequisite `x` declares is a name of the table of lower tier. */
  ghost predicate Tiered(x: string) {
    forall c :: c in Declared(x).buildings || c in Declared(x).units ==> c in AllNames() && Tier(c) < Tier(x)
  }

  /** Base structures, with no prerequisites (bot/terran_tech_tree.py:13-25). */
  function BaseStructures(): set<string> {
    {"CommandCenter", "SupplyDepot", "Refinery"}
  }

  lemma BaseStructuresTiered()
    ensures forall x :: x in BaseStructures() ==> Tiered(x)
  {
    forall x | x in BaseStructures()
      ensures Tiered(x)
    {
      if x == "CommandCenter" {
        CommandCenterEntry();
      } else if x == "SupplyDepot" {
        SupplyDepotEntry();
      } else {
        RefineryEntry();
      }
    }
  }

  lemma CommandCenterEntry()
    ensures Declared("CommandCenter") == Deps([], [])
  {
  }

  lemma SupplyDepotEntry()
    ensures Declared("SupplyDepot") == Deps([], [])
  {
  }

  lemma RefineryEntry()
    ensures Declared("Refinery") == Deps([], [])
  {
  }

  /** Tier 1 structures (bot/terran_tech_tree.py:27-59). */
  function TierOneStructures(): set<string> {
    {"Barracks", "OrbitalCommand", "PlanetaryFortress", "EngineeringBay", "Bunker", "MissileTurret", "SensorTower", "GhostAcademy"}
  }

  lemma TierOneStructuresTiered()
    ensures forall x :: x in TierOneStructures() ==> Tiered(x)
  {
    forall x | x in TierOneStructures()
      ensures Tiered(x)
    {
      if x == "Barracks" {
        BarracksEntry();
      } else if x == "OrbitalCommand" {
        OrbitalCommandEntry();
      } else if x == "PlanetaryFortress" {
        PlanetaryFortressEntry();
      } else if x == "EngineeringBay" {
        EngineeringBayEntry();
      } else if x == "Bunker" {
        BunkerEntry();
      } else if x == "MissileTurret" {
        MissileTurretEntry();
      } else if x == "SensorTower" {
        SensorTowerEntry();
      } else {
        GhostAcademyEntry();
      }
    }
  }

  lemma BarracksEntry()
    ensures Declared("Barracks") == Deps(["SupplyDepot"], [])
      && "SupplyDepot" in BaseStructures() && Tier("SupplyDepot") < Tier("Barracks")
  {
  }

  lemma OrbitalCommandEntry()
    ensures Declared("OrbitalCommand") == Deps(["Barracks"], [])
      && "Barracks" in TierOneStructures() && Tier("Barracks") < Tier("OrbitalCommand")
  {
  }

  lemma PlanetaryFortressEntry()
    ensures Declared("PlanetaryFortress") == Deps(["EngineeringBay"], [])
      && "EngineeringBay" in TierOneStructures() && Tier("EngineeringBay") < Tier("PlanetaryFortress")
  {
  }

  lemma EngineeringBayEntry()
    ensures Declared("EngineeringBay") == Deps(["CommandCenter"], [])
      && "CommandCenter" in BaseStructures() && Tier("CommandCenter") < Tier("EngineeringBay")
  {
  }

  lemma BunkerEntry()
    ensures Declared("Bunker") == Deps(["Barracks"], [])
      && "Barracks" in TierOneStructures() && Tier("Barracks") < Tier("Bunker")
  {
  }

  lemma MissileTurretEntry()
    ensures Declared("MissileTurret") == Deps(["EngineeringBay"], [])
      && "EngineeringBay" in TierOneStructures() && Tier("EngineeringBay") < Tier("MissileTurret")
  {
  }

  lemma SensorTowerEntry()
    ensures Declared("SensorTower") == Deps(["EngineeringBay"], [])
      && "EngineeringBay" in TierOneStructures() && Tier("EngineeringBay") < Tier("SensorTower")
  {
  }

  lemma GhostAcademyEntry()
    ensures Declared("GhostAcademy") == Deps(["Barracks"], [])
      && "Barracks" in TierOneStructures() && Tier("Barracks") < Tier("GhostAcademy")
  {
  }

  /** Tier 2 structures (bot/terran_tech_tree.py:61-69). */
  function TierTwoStructures(): set<string> {
    {"Factory", "Armory"}
  }

  lemma TierTwoStructuresTiered()
    ensures forall x :: x in TierTwoStructures() ==> Tiered(x)
  {
    forall x | x in TierTwoStructures()
      ensures Tiered(x)
    {
      if x == "Factory" {
        FactoryEntry();
      } else {
        ArmoryEntry();
      }
    }
  }

  lemma FactoryEntry()
    ensures Declared("Factory") == Deps(["Barracks"], [])
      && "Barracks" in TierOneStructures() && Tier("Barracks") < Tier("Factory")
  {
  }

  lemma ArmoryEntry()
    ensures Declared("Armory") == Deps(["Factory"], [])
      && "Factory" in TierTwoStructures() && Tier("Factory") < Tier("Armory")
  {
  }

  /** Tier 3 structures (bot/terran_tech_tree.py:71-79). */
  function TierThreeStructures(): set<string> {
    {"Starport", "FusionCore"}
  }

  lemma TierThreeStructuresTiered()
    ensures forall x :: x in TierThreeStructures() ==> Tiered(x)
  {
    forall x | x in TierThreeStructures()
      ensures Tiered(x)
    {
      if x == "Starport" {
        StarportEntry();
      } else {
        FusionCoreEntry();
      }
    }
  }

  lemma StarportEntry()
    ensures Declared("Starport") == Deps(["Factory"], [])
      && "Factory" in TierTwoStructures() && Tier("Factory") < Tier("Starport")
  {
  }

  lemma FusionCoreEntry()
    ensures Declared("FusionCore") == Deps(["Starport"], [])
      && "Starport" in TierThreeStructures() && Tier("Starport") < Tier("FusionCore")
  {
  }

  /** Add-ons, each needing its production structure (bot/terran_tech_tree.py:81-105). */
  function AddOns(): set<string> {
    {"BarracksTechLab", "BarracksReactor", "FactoryTechLab", "FactoryReactor", "StarportTechLab", "StarportReactor"}
  }

  lemma AddOnsTiered()
    ensures forall x :: x in AddOns() ==> Tiered(x)
  {
    forall x | x in AddOns()
      ensures Tiered(x)
    {
      if x == "BarracksTechLab" {
        BarracksTechLabEntry();
      } else if x == "BarracksReactor" {
        BarracksReactorEntry();
      } else if x == "FactoryTechLab" {
        FactoryTechLabEntry();
      } else if x == "FactoryReactor" {
        FactoryReactorEntry();
      } else if x == "StarportTechLab" {
        StarportTechLabEntry();
      } else {
        StarportReactorEntry();
      }
    }
  }

  lemma BarracksTechLabEntry()
    ensures Declared("BarracksTechLab") == Deps(["Barracks"], [])
      && "Barracks" in TierOneStructures() && Tier("Barracks") < Tier("BarracksTechLab")
  {
  }

  lemma BarracksReactorEntry()
    ensures Declared("BarracksReactor") == Deps(["Barracks"], [])
      && "Barracks" in TierOneStructures() && Tier("Barracks") < Tier("BarracksReactor")
  {
  }

  lemma FactoryTechLabEntry()
    ensures Declared("FactoryTechLab") == Deps(["Factory"], [])
      && "Factory" in TierTwoStructures() && Tier("Factory") < Tier("FactoryTechLab")
  {
  }

  lemma FactoryReactorEntry()
    ensures Declared("FactoryReactor") == Deps(["Factory"], [])
      && "Factory" in TierTwoStructures() && Tier("Factory") < Tier("FactoryReactor")
  {
  }

  lemma StarportTechLabEntry()
    ensures Declared("StarportTechLab") == Deps(["Starport"], [])
      && "Starport" in TierThreeStructures() && Tier("Starport") < Tier("StarportTechLab")
  {
  }

  lemma StarportReactorEntry()
    ensures Declared("StarportReactor") == Deps(["Starport"], [])
      && "Starport" in TierThreeStructures() && Tier("Starport") < Tier("StarportReactor")
  {
  }

  /** Units trained at the Command Center (bot/terran_tech_tree.py:109-117). */
  function CommandCenterUnits(): set<string> {
    {"SCV", "MULE"}
  }

  lemma CommandCenterUnitsTiered()
    ensures forall x :: x in CommandCenterUnits() ==> Tiered(x)
  {
    forall x | x in CommandCenterUnits()
      ensures Tiered(x)
    {
      if x == "SCV" {
        SCVEntry();
      } else {
        MULEEntry();
      }
    }
  }

  lemma SCVEntry()
    ensures Declared("SCV") == Deps(["CommandCenter"], [])
      && "CommandCenter" in BaseStructures() && Tier("CommandCenter") < Tier("SCV")
  {
  }

  lemma MULEEntry()
    ensures Declared("MULE") == Deps(["OrbitalCommand"], [])
      && "OrbitalCommand" in TierOneStructures() && Tier("OrbitalCommand") < Tier("MULE")
  {
  }

  /** Units trained at the Barracks (bot/terran_tech_tree.py:119-135). */
  function BarracksUnits(): set<string> {
    {"Marine", "Reaper", "Marauder", "Ghost"}
  }

  lemma BarracksUnitsTiered()
    ensures forall x :: x in BarracksUnits() ==> Tiered(x)
  {
    forall x | x in BarracksUnits()
      ensures Tiered(x)
    {
      if x == "Marine" {
        MarineEntry();
      } else if x == "Reaper" {
        ReaperEntry();
      } else if x == "Marauder" {
        MarauderEntry();
      } else {
        GhostEntry();
      }
    }
  }

  lemma MarineEntry()
    ensures Declared("Marine") == Deps(["Barracks"], [])
      && "Barracks" in TierOneStructures() && Tier("Barracks") < Tier("Marine")
  {
  }

  lemma ReaperEntry()
    ensures Declared("Reaper") == Deps(["Barracks"], [])
      && "Barracks" in TierOneStructures() && Tier("Barracks") < Tier("Reaper")
  {
  }

  lemma MarauderEntry()
    ensures Declared("Marauder") == Deps(["Barracks", "BarracksTechLab"], [])
      && "Barracks" in TierOneStructures() && Tier("Barracks") < Tier("Marauder")
      && "BarracksTechLab" in AddOns() && Tier("BarracksTechLab") < Tier("Marauder")
  {
  }

  lemma GhostEntry()
    ensures Declared("Ghost") == Deps(["Barracks", "BarracksTechLab", "GhostAcademy"], [])
      && "Barracks" in TierOneStructures() && Tier("Barracks") < Tier("Ghost")
      && "BarracksTechLab" in AddOns() && Tier("BarracksTechLab") < Tier("Ghost")
      && "GhostAcademy" in TierOneStructures() && Tier("GhostAcademy") < Tier("Ghost")
  {
  }

  /** Units built at the Factory (bot/terran_tech_tree.py:137-161). */
  function FactoryUnits(): set<string> {
    {"Hellion", "Hellbat", "WidowMine", "Cyclone", "SiegeTank", "Thor"}
  }

  lemma FactoryUnitsTiered()
    ensures forall x :: x in FactoryUnits() ==> Tiered(x)
  {
    forall x | x in FactoryUnits()
      ensures Tiered(x)
    {
      if x == "Hellion" {
        HellionEntry();
      } else if x == "Hellbat" {
        HellbatEntry();
      } else if x == "WidowMine" {
        WidowMineEntry();
      } else if x == "Cyclone" {
        CycloneEntry();
      } else if x == "SiegeTank" {
        SiegeTankEntry();
      } else {
        ThorEntry();
      }
    }
  }

  lemma HellionEntry()
    ensures Declared("Hellion") == Deps(["Factory"], [])
      && "Factory" in TierTwoStructures() && Tier("Factory") < Tier("Hellion")
  {
  }

  lemma HellbatEntry()
    ensures Declared("Hellbat") == Deps(["Factory", "Armory"], [])
      && "Factory" in TierTwoStructures() && Tier("Factory") < Tier("Hellbat")
      && "Armory" in TierTwoStructures() && Tier("Armory") < Tier("Hellbat")
  {
  }

  lemma WidowMineEntry()
    ensures Declared("WidowMine") == Deps(["Factory"], [])
      && "Factory" in TierTwoStructures() && Tier("Factory") < Tier("WidowMine")
  {
  }

  lemma CycloneEntry()
    ensures Declared("Cyclone") == Deps(["Factory", "FactoryTechLab"], [])
      && "Factory" in TierTwoStructures() && Tier("Factory") < Tier("Cyclone")
      && "FactoryTechLab" in AddOns() && Tier("FactoryTechLab") < Tier("Cyclone")
  {
  }

  lemma SiegeTankEntry()
    ensures Declared("SiegeTank") == Deps(["Factory", "FactoryTechLab"], [])
      && "Factory" in TierTwoStructures() && Tier("Factory") < Tier("SiegeTank")
      && "FactoryTechLab" in AddOns() && Tier("FactoryTechLab") < Tier("SiegeTank")
  {
  }

  lemma ThorEntry()
    ensures Declared("Thor") == Deps(["Factory", "FactoryTechLab", "Armory"], [])
      && "Factory" in TierTwoStructures() && Tier("Factory") < Tier("Thor")
      && "FactoryTechLab" in AddOns() && Tier("FactoryTechLab") < Tier("Thor")
      && "Armory" in TierTwoStructures() && Tier("Armory") < Tier("Thor")
  {
  }

  /** Units built at the Starport (bot/terran_tech_tree.py:163-187). */
  function StarportUnits(): set<string> {
    {"Viking", "Medivac", "Liberator", "Banshee", "Raven", "Battlecruiser"}
  }

  lemma StarportUnitsTiered()
    ensures forall x :: x in StarportUnits() ==> Tiered(x)
  {
    forall x | x in StarportUnits()
      ensures Tiered(x)
    {
      if x == "Viking" {
        VikingEntry();
      } else if x == "Medivac" {
        MedivacEntry();
      } else if x == "Liberator" {
        LiberatorEntry();
      } else if x == "Banshee" {
        BansheeEntry();
      } else if x == "Raven" {
        RavenEntry();
      } else {
        BattlecruiserEntry();
      }
    }
  }

  lemma VikingEntry()
    ensures Declared("Viking") == Deps(["Starport"], [])
      && "Starport" in TierThreeStructures() && Tier("Starport") < Tier("Viking")
  {
  }

  lemma MedivacEntry()
    ensures Declared("Medivac") == Deps(["Starport"], [])
      && "Starport" in TierThreeStructures() && Tier("Starport") < Tier("Medivac")
  {
  }

  lemma LiberatorEntry()
    ensures Declared("Liberator") == Deps(["Starport"], [])
      && "Starport" in TierThreeStructures() && Tier("Starport") < Tier("Liberator")
  {
  }

  lemma BansheeEntry()
    ensures Declared("Banshee") == Deps(["Starport", "StarportTechLab"], [])
      && "Starport" in TierThreeStructures() && Tier("Starport") < Tier("Banshee")
      && "StarportTechLab" in AddOns() && Tier("StarportTechLab") < Tier("Banshee")
  {
  }

  lemma RavenEntry()
    ensures Declared("Raven") == Deps(["Starport", "StarportTechLab"], [])
      && "Starport" in TierThreeStructures() && Tier("Starport") < Tier("Raven")
      && "StarportTechLab" in AddOns() && Tier("StarportTechLab") < Tier("Raven")
  {
  }

  lemma BattlecruiserEntry()
    ensures Declared("Battlecruiser") == Deps(["Starport", "StarportTechLab", "FusionCore"], [])
      && "Starport" in TierThreeStructures() && Tier("Starport") < Tier("Battlecruiser")
      && "StarportTechLab" in AddOns() && Tier("StarportTechLab") < Tier("Battlecruiser")
      && "FusionCore" in TierThreeStructures() && Tier("FusionCore") < Tier("Battlecruiser")
  {
  }

  /** Summoned units (bot/terran_tech_tree.py:189-193). */
  function SummonedUnits(): set<string> {
    {"AutoTurret"}
  }

  lemma SummonedUnitsTiered()
    ensures forall x :: x in SummonedUnits() ==> Tiered(x)
  {
    forall x | x in SummonedUnits()
      ensures Tiered(x)
    {
      AutoTurretEntry();
    }
  }

  lemma AutoTurretEntry()
    ensures Declared("AutoTurret") == Deps(["Starport", "StarportTechLab"], ["Raven"])
      && "Starport" in TierThreeStructures() && Tier("Starport") < Tier("AutoTurret")
      && "StarportTechLab" in AddOns() && Tier("StarportTechLab") < Tier("AutoTurret")
      && "Raven" in StarportUnits() && Tier("Raven") < Tier("AutoTurret")
  {
  }

  lemma AllTiered()
    ensures forall x, c :: Edge(TerranTechTree(), x, c) ==> c in TerranTechTree() && Tier(c) < Tier(x)
  {
    forall x, c | Edge(TerranTechTree(), x, c)
      ensures c in TerranTechTree() && Tier(c) < Tier(x)
    {
      if x in BaseStructures() {
        BaseStructuresTiered();
      } else if x in TierOneStructures() {
        TierOneStructuresTiered();
      } else if x in TierTwoStructures() {
        TierTwoStructuresTiered();
      } else if x in TierThreeStructures() {
        TierThreeStructuresTiered();
      } else if x in AddOns() {
        AddOnsTiered();
      } else if x in CommandCenterUnits() {
        CommandCenterUnitsTiered();
      } else if x in BarracksUnits() {
        BarracksUnitsTiered();
      } else if x in FactoryUnits() {
        FactoryUnitsTiered();
      } else if x in StarportUnits() {
        StarportUnitsTiered();
      } else {
        SummonedUnitsTiered();
      }
      assert Tiered(x);
    }
  }

  /** No entity of the table requires itself, directly or transitively. */
  lemma TerranAcyclic()
    ensures Acyclic(TerranTechTree())
  {
    AllTiered();
    RankedAcyclic(TerranTechTree(), Tier);
  }

  /** Every name the table lists as a prerequisite is itself in the table. */
  lemma TerranClosedWorld()
    ensures forall x, c :: Edge(TerranTechTree(), x, c) ==> c in TerranTechTree()
  {
    AllTiered();
  }
}
