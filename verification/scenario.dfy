/** The repository's resolution scenario, against an abstract catalog that
    knows Darth Vader (with his title), Stormtroopers and the DLT-19 upgrade,
    with symbolic point costs. */
module RosterScenario {
  import opened Wrappers
  import opened Cards
  import opened Rosters

  const Empire: Faction := "Galactic Empire"

  /** The record of the scenario: Vader by name and title, then
      Stormtroopers with one DLT-19 upgrade. */
  function ScenarioRecord(): RosterRecord
  {
    RosterRecord("Roster", Some(Empire), [
      UnitRecord("Darth Vader", Some("Dark Lord of the Sith"), None, None),
      UnitRecord("Stormtroopers", None, Some(["DLT-19 Stormtrooper"]), None)])
  }

  lemma ResolveScenario(catalog: Catalog, vader: UnitCard, troopers: UnitCard, dlt: UpgradeCard)
    requires vader.name == "Darth Vader" && vader.rank == "Commander"
    requires troopers.name == "Stormtroopers"
    requires dlt.name == "DLT-19 Stormtrooper"
    requires catalog.lookupUnit("Darth Vader", Some("Dark Lord of the Sith"), Some(Empire)) == Some(vader)
    requires catalog.lookupUnit("Stormtroopers", None, Some(Empire)) == Some(troopers)
    requires catalog.lookupUpgrade("DLT-19 Stormtrooper") == Some(dlt)
    ensures var roster := Resolve(ScenarioRecord(), catalog);
      && |roster.units| == 2
      && roster.units[0].card == vader
      && roster.units[0].card.name == "Darth Vader"
      && roster.units[0].card.rank == "Commander"
      && roster.units[1].card == troopers
      && roster.units[1].card.name == "Stormtroopers"
      && roster.units[1].upgrades == [dlt]
      && roster.units[1].upgrades[0].name == "DLT-19 Stormtrooper"
      && roster.name == "Roster"
      && roster.points == vader.points + troopers.points + dlt.points
  {
    var record := ScenarioRecord();
    var roster := Resolve(record, catalog);
    var u0, u1 := record.units[0], record.units[1];
    assert ResolveNames(catalog, u1.upgrades) == [dlt] by {
      Seqs.FilterMapTotal(["DLT-19 Stormtrooper"], catalog.lookupUpgrade);
    }
    Seqs.FilterMapTotal(record.units, UnitResolver(catalog, record.faction));
    ResolveConsistent(record, catalog);
    var units := [Unit(vader, [], Some([])), Unit(troopers, [dlt], Some([]))];
    assert roster.units == units;
    assert UnitCost(units[1]) == troopers.points + dlt.points by {
      assert [dlt][1..] == [];
    }
    assert Seqs.Sum(units, UnitCost) == UnitCost(units[0]) + UnitCost(units[1]) by {
      assert units[1..][0] == units[1];
      assert units[1..][1..] == [];
      assert Seqs.Sum(units[1..], UnitCost) == UnitCost(units[1]) + Seqs.Sum(units[1..][1..], UnitCost);
    }
  }
}
