/** Roster records (the name-keyed exchange format), resolved units and
    rosters, the resolver that turns the former into the latter against a
    catalog, and the projection back. */
module Rosters {
  import opened Wrappers
  import opened Seqs
  import opened Cards

  /** An unresolved unit: the unit's name, and optionally a title, the names
      of its upgrades and the names of its loadout (an alternative upgrade
      set). */
  datatype UnitRecord = UnitRecord(
    name: string,
    title: Option<string>,
    upgrades: Option<seq<string>>,
    loadout: Option<seq<string>>)

  /** An unresolved roster: its name, optionally the faction it was built
      for, and its units in order. */
  datatype RosterRecord = RosterRecord(name: string, faction: Option<Faction>, units: seq<UnitRecord>)

  /** A resolved unit. Its card is always present; the loadout may be absent. */
  datatype Unit = Unit(card: UnitCard, upgrades: seq<UpgradeCard>, loadout: Option<seq<UpgradeCard>>)

  /** A resolved roster with its total point cost. */
  datatype Roster = Roster(name: string, faction: Option<Faction>, units: seq<Unit>, points: int)

  // ---------------------------------------------------------------------
  // Resolution
  // ---------------------------------------------------------------------

  /** The upgrade cards named in an optional list of names: the names the
      catalog knows, in order; an omitted list resolves to no cards. */
  function ResolveNames(catalog: Catalog, names: Option<seq<string>>): (r: seq<UpgradeCard>)
    ensures names.None? ==> r == []
    ensures names.Some? ==> |r| <= |names.value|
    ensures forall c :: c in r <==> names.Some? && exists i :: 0 <= i < |names.value| && catalog.lookupUpgrade(names.value[i]) == Some(c)
  {
    match names
    case None => []
    case Some(ns) =>
      assert forall c :: c in FilterMap(ns, catalog.lookupUpgrade) <==> exists i :: 0 <= i < |ns| && catalog.lookupUpgrade(ns[i]) == Some(c) by {
        forall c ensures c in FilterMap(ns, catalog.lookupUpgrade) <==> exists i :: 0 <= i < |ns| && catalog.lookupUpgrade(ns[i]) == Some(c) {
          FilterMapMember(ns, catalog.lookupUpgrade, c);
        }
      }
      FilterMap(ns, catalog.lookupUpgrade)
  }

  /** Upgrade names resolve in order and with repetitions: with h the
      increasing positions whose lookup succeeds, there is one card per
      position in h, and for every k the k-th card is the one found at
      position h[k]. */
  lemma {:induction false} ResolveNamesInOrder(catalog: Catalog, names: seq<string>, k: nat)
    ensures |ResolveNames(catalog, Some(names))| == |Hits(names, catalog.lookupUpgrade, |names|)|
    ensures k < |Hits(names, catalog.lookupUpgrade, |names|)| ==>
      catalog.lookupUpgrade(names[Hits(names, catalog.lookupUpgrade, |names|)[k]]) == Some(ResolveNames(catalog, Some(names))[k])
  {
    FilterMapSelectsHits(names, catalog.lookupUpgrade);
  }

  /** One unit record resolved in the context of the roster's faction: None
      when the catalog does not know the unit, otherwise its card with its
      upgrades and loadout resolved independently of each other. */
  function ResolveUnit(catalog: Catalog, faction: Option<Faction>, rUnit: UnitRecord): (r: Option<Unit>)
  {
    match catalog.lookupUnit(rUnit.name, rUnit.title, faction)
    case None => None
    case Some(card) =>
      Some(Unit(card, ResolveNames(catalog, rUnit.upgrades), Some(ResolveNames(catalog, rUnit.loadout))))
  }

  /** ResolveUnit as a function value, so that every use names the same one. */
  function UnitResolver(catalog: Catalog, faction: Option<Faction>): UnitRecord -> Option<Unit>
  {
    rUnit => ResolveUnit(catalog, faction, rUnit)
  }

  /** The points an upgrade adds. */
  function UpgradeCost(c: UpgradeCard): (cost: int)
  {
    c.points
  }

  /** A unit's cost as the resolver adds it up: its card's points plus the
      fold of its upgrades' points. The loadout is not looked at. */
  function FoldedCost(u: Unit): (cost: int)
  {
    u.card.points + Reduce(u.upgrades, UpgradeCost, 0)
  }

  /** Reference definition of a unit's cost: card points plus the sum of its
      upgrade points. */
  function UnitCost(u: Unit): (cost: int)
  {
    u.card.points + Sum(u.upgrades, UpgradeCost)
  }

  /** Resolves a roster record against a catalog: units the catalog does not
      know are skipped, name and faction are copied, and the points are
      folded over the resolved units. */
  function Resolve(record: RosterRecord, catalog: Catalog): (r: Roster)
    ensures r.name == record.name && r.faction == record.faction
    ensures |r.units| <= |record.units|
    ensures r.points == Sum(r.units, UnitCost)
  {
    var units := FilterMap(record.units, UnitResolver(catalog, record.faction));
    ReduceFoldedCost(units, 0);
    Roster(record.name, record.faction, units, Reduce(units, FoldedCost, 0))
  }

  // ---------------------------------------------------------------------
  // Projection back to records
  // ---------------------------------------------------------------------

  /** The names of a sequence of upgrade cards, in order. */
  function CardNames(cards: seq<UpgradeCard>): (names: seq<string>)
  {
    seq(|cards|, i requires 0 <= i < |cards| => cards[i].name)
  }

  /** A resolved unit projected back to its record: the card's name and
      title, its upgrades' names, and its loadout's names or no loadout. */
  function UnitToRecord(u: Unit): (r: UnitRecord)
    ensures r.name == u.card.name && r.title == u.card.title
    ensures r.upgrades.Some? && |r.upgrades.value| == |u.upgrades|
    ensures r.loadout.None? <==> u.loadout.None?
    ensures u.loadout.Some? ==> |r.loadout.value| == |u.loadout.value|
  {
    UnitRecord(
      u.card.name,
      u.card.title,
      Some(CardNames(u.upgrades)),
      match u.loadout
      case None => None
      case Some(l) => Some(CardNames(l)))
  }

  /** A resolved roster projected back to its record. */
  function RosterToRecord(r: Roster): (rec: RosterRecord)
  {
    RosterRecord(r.name, r.faction, seq(|r.units|, i requires 0 <= i < |r.units| => UnitToRecord(r.units[i])))
  }

  // ---------------------------------------------------------------------
  // Properties of resolution
  // ---------------------------------------------------------------------

  /** The unit card the catalog gives for a unit record inside a roster
      built for `faction`: looked up by the unit's own name and title and the
      roster's faction. */
  function CardFor(catalog: Catalog, faction: Option<Faction>, rUnit: UnitRecord): Option<UnitCard>
  {
    catalog.lookupUnit(rUnit.name, rUnit.title, faction)
  }

  /** A record without units resolves to a roster without units worth
      nothing, with the record's name and faction. */
  lemma ResolveEmpty(record: RosterRecord, catalog: Catalog)
    requires record.units == []
    ensures Resolve(record, catalog) == Roster(record.name, record.faction, [], 0)
  {
  }

  /** The resolved units are exactly the input units the catalog knows, in
      input order: with h the increasing positions whose lookup succeeds, the
      k-th resolved unit comes from input unit h[k], carries the card the
      catalog gave for that unit's name, title and the roster's faction, and
      its upgrades and loadout are the resolutions of that unit's own upgrade
      and loadout names. */
  lemma ResolveSelectsKnownUnits(record: RosterRecord, catalog: Catalog)
    ensures var h := Hits(record.units, UnitResolver(catalog, record.faction), |record.units|);
      && |Resolve(record, catalog).units| == |h|
      && (forall k, l :: 0 <= k < l < |h| ==> h[k] < h[l])
      && (forall i :: 0 <= i < |record.units| ==> (i in h <==> CardFor(catalog, record.faction, record.units[i]).Some?))
      && (forall k :: 0 <= k < |h| ==>
            && h[k] < |record.units|
            && CardFor(catalog, record.faction, record.units[h[k]]) == Some(Resolve(record, catalog).units[k].card)
            && Resolve(record, catalog).units[k].upgrades == ResolveNames(catalog, record.units[h[k]].upgrades)
            && Resolve(record, catalog).units[k].loadout == Some(ResolveNames(catalog, record.units[h[k]].loadout)))
  {
    var f := UnitResolver(catalog, record.faction);
    FilterMapSelectsHits(record.units, f);
  }

  /** Resolution never lengthens a roster, and no unit is lost when the
      catalog knows all of them. */
  lemma ResolveLength(record: RosterRecord, catalog: Catalog)
    ensures |Resolve(record, catalog).units| <= |record.units|
    ensures (forall i :: 0 <= i < |record.units| ==> CardFor(catalog, record.faction, record.units[i]).Some?)
        ==> |Resolve(record, catalog).units| == |record.units|
  {
    var f := UnitResolver(catalog, record.faction);
    if forall i :: 0 <= i < |record.units| ==> CardFor(catalog, record.faction, record.units[i]).Some? {
      assert forall i :: 0 <= i < |record.units| ==> f(record.units[i]).Some?;
      FilterMapTotal(record.units, f);
    }
  }

  /** A unit the catalog does not know is skipped without a trace: the roster
      resolves exactly as if the unit had not been listed. A unit it does
      know adds exactly one resolved unit at that place. */
  lemma ResolveSkipsUnknown(record: RosterRecord, catalog: Catalog, a: seq<UnitRecord>, x: UnitRecord, b: seq<UnitRecord>)
    requires record.units == a + [x] + b
    ensures CardFor(catalog, record.faction, x).None? ==> Resolve(record, catalog) == Resolve(record.(units := a + b), catalog)
    ensures CardFor(catalog, record.faction, x).Some? ==>
      |Resolve(record, catalog).units| == |Resolve(record.(units := a + b), catalog).units| + 1
  {
    FilterMapSplit(a, x, b, UnitResolver(catalog, record.faction));
  }

  /** If exactly one listed unit is unknown to the catalog, the roster has
      exactly one unit fewer than the record. */
  lemma ResolveOneUnknown(record: RosterRecord, catalog: Catalog, j: nat)
    requires j < |record.units|
    requires CardFor(catalog, record.faction, record.units[j]).None?
    requires forall i :: 0 <= i < |record.units| && i != j ==> CardFor(catalog, record.faction, record.units[i]).Some?
    ensures |Resolve(record, catalog).units| == |record.units| - 1
  {
    var f := UnitResolver(catalog, record.faction);
    var a, x, b := record.units[..j], record.units[j], record.units[j + 1..];
    assert record.units == a + [x] + b;
    FilterMapSplit(a, x, b, f);
    forall i | 0 <= i < |a + b|
      ensures f((a + b)[i]).Some?
    {
      if i < j {
        assert (a + b)[i] == record.units[i];
      } else {
        assert (a + b)[i] == record.units[i + 1];
      }
    }
    FilterMapTotal(a + b, f);
  }

  /** When the catalog knows none of the listed units, the roster has no
      units and is worth nothing. */
  lemma ResolveAllUnknown(record: RosterRecord, catalog: Catalog)
    requires forall i :: 0 <= i < |record.units| ==> CardFor(catalog, record.faction, record.units[i]).None?
    ensures Resolve(record, catalog).units == []
    ensures Resolve(record, catalog).points == 0
  {
    var f := UnitResolver(catalog, record.faction);
    assert forall i :: 0 <= i < |record.units| ==> f(record.units[i]).None?;
    FilterMapNone(record.units, f);
  }

  lemma {:induction false} FoldedCostIsUnitCost(u: Unit)
    ensures FoldedCost(u) == UnitCost(u)
  {
    ReduceIsSum(u.upgrades, UpgradeCost, 0);
  }

  lemma {:induction false} ReduceFoldedCost(units: seq<Unit>, acc: int)
    ensures Reduce(units, FoldedCost, acc) == acc + Sum(units, UnitCost)
  {
    if |units| > 0 {
      FoldedCostIsUnitCost(units[0]);
      ReduceFoldedCost(units[1..], acc + FoldedCost(units[0]));
    }
  }

  /** The invariant of a resolved roster: its points are the sum over its
      units of card points plus upgrade points, and every unit carries a
      (possibly empty) loadout. */
  ghost predicate Consistent(r: Roster)
  {
    && r.points == Sum(r.units, UnitCost)
    && forall i :: 0 <= i < |r.units| ==> r.units[i].loadout.Some?
  }

  /** Resolution establishes the roster invariant: the fold the resolver
      performs equals the sum of unit card points plus upgrade points. */
  lemma ResolveConsistent(record: RosterRecord, catalog: Catalog)
    ensures Consistent(Resolve(record, catalog))
  {
    var units := Resolve(record, catalog).units;
    ReduceFoldedCost(units, 0);
    ResolveSelectsKnownUnits(record, catalog);
  }

  /** Rosters resolve piecewise: the units of a concatenation are the
      concatenation of the units, and the points add up. */
  lemma ResolveAppend(record: RosterRecord, catalog: Catalog, a: seq<UnitRecord>, b: seq<UnitRecord>)
    requires record.units == a + b
    ensures Resolve(record, catalog).units == Resolve(record.(units := a), catalog).units + Resolve(record.(units := b), catalog).units
    ensures Resolve(record, catalog).points == Resolve(record.(units := a), catalog).points + Resolve(record.(units := b), catalog).points
  {
    var f := UnitResolver(catalog, record.faction);
    FilterMapAppend(a, b, f);
    ReduceFoldedCost(FilterMap(a + b, f), 0);
    ReduceFoldedCost(FilterMap(a, f), 0);
    ReduceFoldedCost(FilterMap(b, f), 0);
    SumAppend(FilterMap(a, f), FilterMap(b, f), UnitCost);
  }

  /** Two lists of unit records that differ at most in their loadouts. */
  ghost predicate SameButLoadout(a: seq<UnitRecord>, b: seq<UnitRecord>)
  {
    && |a| == |b|
    && forall i :: 0 <= i < |a| ==>
         a[i].name == b[i].name && a[i].title == b[i].title && a[i].upgrades == b[i].upgrades
  }

  lemma {:induction false} SumIgnoresLoadout(catalog: Catalog, faction: Option<Faction>, a: seq<UnitRecord>, b: seq<UnitRecord>)
    requires SameButLoadout(a, b)
    ensures |FilterMap(a, UnitResolver(catalog, faction))| == |FilterMap(b, UnitResolver(catalog, faction))|
    ensures Sum(FilterMap(a, UnitResolver(catalog, faction)), UnitCost) == Sum(FilterMap(b, UnitResolver(catalog, faction)), UnitCost)
  {
    if |a| > 0 {
      assert SameButLoadout(a[1..], b[1..]) by {
        assert forall i :: 0 <= i < |a[1..]| ==> a[1..][i] == a[i + 1] && b[1..][i] == b[i + 1];
      }
      SumIgnoresLoadout(catalog, faction, a[1..], b[1..]);
      assert a[0].name == b[0].name && a[0].title == b[0].title && a[0].upgrades == b[0].upgrades;
    }
  }

  /** Loadout cards never contribute to the points: changing only the
      loadouts of a record leaves the resolved points unchanged. */
  lemma PointsIgnoreLoadout(record: RosterRecord, catalog: Catalog, units: seq<UnitRecord>)
    requires SameButLoadout(record.units, units)
    ensures Resolve(record, catalog).points == Resolve(record.(units := units), catalog).points
  {
    ResolveConsistent(record, catalog);
    ResolveConsistent(record.(units := units), catalog);
    SumIgnoresLoadout(catalog, record.faction, record.units, units);
  }

  // ---------------------------------------------------------------------
  // Properties of the projection
  // ---------------------------------------------------------------------

  /** The catalog gives back every card of the unit when asked by that card's
      name (and, for the unit card, title and the given faction). */
  ghost predicate Recognizes(catalog: Catalog, faction: Option<Faction>, u: Unit)
  {
    && catalog.lookupUnit(u.card.name, u.card.title, faction) == Some(u.card)
    && (forall i :: 0 <= i < |u.upgrades| ==> catalog.lookupUpgrade(u.upgrades[i].name) == Some(u.upgrades[i]))
    && (u.loadout.Some? ==>
          forall i :: 0 <= i < |u.loadout.value| ==> catalog.lookupUpgrade(u.loadout.value[i].name) == Some(u.loadout.value[i]))
  }

  lemma ResolveCardNames(catalog: Catalog, cards: seq<UpgradeCard>)
    requires forall i :: 0 <= i < |cards| ==> catalog.lookupUpgrade(cards[i].name) == Some(cards[i])
    ensures ResolveNames(catalog, Some(CardNames(cards))) == cards
  {
    FilterMapTotal(CardNames(cards), catalog.lookupUpgrade);
  }

  /** A unit projected to its record resolves back to itself against a
      catalog that recognises its cards, except that an absent loadout comes
      back as an empty one. */
  lemma UnitRoundTrip(catalog: Catalog, faction: Option<Faction>, u: Unit)
    requires Recognizes(catalog, faction, u)
    ensures ResolveUnit(catalog, faction, UnitToRecord(u)) == Some(u.(loadout := Some(u.loadout.GetOr([]))))
  {
    ResolveCardNames(catalog, u.upgrades);
    if u.loadout.Some? {
      ResolveCardNames(catalog, u.loadout.value);
    }
  }

  /** A consistent roster projected to its record resolves back to itself
      against a catalog that recognises all its cards. */
  lemma RosterRoundTrip(catalog: Catalog, r: Roster)
    requires Consistent(r)
    requires forall i :: 0 <= i < |r.units| ==> Recognizes(catalog, r.faction, r.units[i])
    ensures Resolve(RosterToRecord(r), catalog) == r
  {
    var rec := RosterToRecord(r);
    var f := UnitResolver(catalog, r.faction);
    forall i | 0 <= i < |rec.units|
      ensures f(rec.units[i]) == Some(r.units[i])
    {
      UnitRoundTrip(catalog, r.faction, r.units[i]);
    }
    FilterMapTotal(rec.units, f);
    var units := FilterMap(rec.units, f);
    assert units == r.units;
    ReduceFoldedCost(units, 0);
  }

  /** A catalog whose answers are stable: asking again by the name (and
      title) of a card it returned gives the same card. */
  ghost predicate SelfRecognizing(catalog: Catalog)
  {
    && (forall n, t, fa :: catalog.lookupUnit(n, t, fa).Some? ==>
          catalog.lookupUnit(catalog.lookupUnit(n, t, fa).value.name, catalog.lookupUnit(n, t, fa).value.title, fa) == catalog.lookupUnit(n, t, fa))
    && (forall n :: catalog.lookupUpgrade(n).Some? ==>
          catalog.lookupUpgrade(catalog.lookupUpgrade(n).value.name) == catalog.lookupUpgrade(n))
  }

  lemma ResolvedNamesRecognized(catalog: Catalog, names: Option<seq<string>>)
    requires SelfRecognizing(catalog)
    ensures forall i :: 0 <= i < |ResolveNames(catalog, names)| ==>
      catalog.lookupUpgrade(ResolveNames(catalog, names)[i].name) == Some(ResolveNames(catalog, names)[i])
  {
  }

  /** Against a self-recognising catalog, resolving the projection of a
      resolved roster gives the same roster again. Without that assumption
      about the catalog nothing of the kind holds. */
  lemma ResolveIdempotent(record: RosterRecord, catalog: Catalog)
    requires SelfRecognizing(catalog)
    ensures Resolve(RosterToRecord(Resolve(record, catalog)), catalog) == Resolve(record, catalog)
  {
    var r := Resolve(record, catalog);
    ResolveConsistent(record, catalog);
    ResolveSelectsKnownUnits(record, catalog);
    var h := Hits(record.units, UnitResolver(catalog, record.faction), |record.units|);
    forall k | 0 <= k < |r.units|
      ensures Recognizes(catalog, r.faction, r.units[k])
    {
      var rUnit := record.units[h[k]];
      assert catalog.lookupUnit(rUnit.name, rUnit.title, record.faction) == Some(r.units[k].card);
      ResolvedNamesRecognized(catalog, rUnit.upgrades);
      ResolvedNamesRecognized(catalog, rUnit.loadout);
    }
    RosterRoundTrip(catalog, r);
  }

  /** The projection is lossy: when some listed unit is unknown to the
      catalog, projecting the resolved roster does not give the record back. */
  lemma ProjectionLosesUnknown(record: RosterRecord, catalog: Catalog, j: nat)
    requires j < |record.units|
    requires CardFor(catalog, record.faction, record.units[j]).None?
    ensures |RosterToRecord(Resolve(record, catalog)).units| < |record.units|
    ensures RosterToRecord(Resolve(record, catalog)) != record
  {
    var a, x, b := record.units[..j], record.units[j], record.units[j + 1..];
    assert record.units == a + [x] + b;
    FilterMapSplit(a, x, b, UnitResolver(catalog, record.faction));
  }
}
