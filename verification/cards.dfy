/** The reference data the resolver consumes. The catalog itself (how it is
    built and how it matches names, titles and factions) belongs to a
    separate package; here it is only the two lookups it exposes. */
module Cards {
  import opened Wrappers

  /** The faction a roster was built for. */
  type Faction = string

  /** A catalog unit card: its name, the title that tells character variants
      apart, its point cost, and its rank (other attributes are not needed). */
  datatype UnitCard = UnitCard(name: string, title: Option<string>, points: int, rank: string)

  /** A catalog upgrade card: its name and point cost. */
  datatype UpgradeCard = UpgradeCard(name: string, points: int)

  /** The two lookups of a catalog, each answering None for a name it does
      not know. `lookupUnit` takes the unit name, then the optional title and
      optional faction used as disambiguators. */
  datatype Catalog = Catalog(
    lookupUnit: (string, Option<string>, Option<Faction>) -> Option<UnitCard>,
    lookupUpgrade: string -> Option<UpgradeCard>)
}
