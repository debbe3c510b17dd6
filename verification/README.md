# Roster resolution, modelled in Dafny

This project models the roster resolver of the army-list library: a roster
record (a name, an optional faction, and unit records that name a unit, an
optional title, optional upgrade names and optional loadout names) is resolved
against a catalog into a roster of units that carry full catalog cards, with
the total point cost added up; and a resolved roster can be projected back to
a record.

The catalog is a separate package. Here it is the datatype `Cards.Catalog`
with its two lookups as total function values, `lookupUnit(name, title,
faction)` and `lookupUpgrade(name)`, each answering `None` for a name it does
not know. Nothing is assumed about how the catalog matches names; lemmas that
need catalog behaviour take it as an explicit hypothesis (`Recognizes`,
`SelfRecognizing`, or the concrete lookups of the scenario).

Files and modules:

- `wrappers.dfy` — `Wrappers.Option`, for every optional field and lookup.
- `seqs.dfy` — `Seqs`: `FilterMap` (the `map` then `filter` of truthy values
  the resolver uses), `Reduce` (the `reduce` with `+`), and the reference
  definitions `Hits` (positions where a lookup succeeds) and `Sum`, with the
  lemmas that connect them.
- `cards.dfy` — `Cards`: unit and upgrade cards and the catalog interface.
- `rosters.dfy` — `Rosters`: `UnitRecord`, `RosterRecord`, `Unit`, `Roster`,
  `Resolve`, `UnitToRecord`, `RosterToRecord`, and their properties.
- `scenario.dfy` — `RosterScenario`: the repository's Vader/Stormtroopers
  scenario with symbolic point costs.

The `Unit` and `Roster` constructors of the source only store their
arguments; they are the datatype constructors here. A resolved unit's loadout
is `Option<seq<UpgradeCard>>`: resolution always produces `Some` (empty when
the record omits it), while projection maps an absent loadout to an absent
list. Points are mathematical integers.

Two properties hold only in a restricted form, because the code leaves them
to the catalog or to the other units. Resolving the projection of a resolved
roster gives that roster back only for a catalog that answers a card's own
name and title with that card (`Rosters.ResolveIdempotent`). Each unknown unit
removes exactly itself (`Rosters.ResolveSkipsUnknown`), so a roster has
exactly one unit fewer than its record only when every other unit is known
(`Rosters.ResolveOneUnknown`).

## Model

| member | source | states |
|---|---|---|
| Seqs.FilterMapSelectsHits | lib/roster.js:43-53 | the filter-map output has one element per successful position of the input, and its k-th element is the value obtained at the k-th successful position, so it is exactly the successful values in input order |
| Seqs.FilterMapMember | lib/roster.js:49-51 | a value is in the filter-map output if and only if some input element yields it |
| Seqs.FilterMapSplit | lib/roster.js:43-53 | an element whose lookup fails contributes nothing; one whose lookup succeeds contributes exactly its value at its place |
| Seqs.FilterMapTotal | lib/roster.js:49-51 | when every lookup succeeds nothing is dropped and the output is the element-wise image |
| Seqs.ReduceIsSum | lib/roster.js:54 | the left fold with `+` from an initial value equals that value plus the sum of the terms |
| Rosters.ResolveNames | lib/roster.js:49-51 | an omitted name list resolves to no cards; otherwise no more cards than names, and a card is present iff some listed name looks it up |
| Rosters.ResolveNamesInOrder | lib/roster.js:49-51 | a name list resolves to one card per name the catalog knows, and for every k the k-th card is the one found for the k-th such name, so order and repetitions are kept |
| Rosters.Resolve | lib/roster.js:40-55 | the roster's name and faction are the record's, it has no more units than the record, and its folded points equal the sum over its units of card points plus upgrade points |
| Rosters.ResolveEmpty | lib/roster.js:42-54 | a record with no units resolves to a roster with no units, zero points, and the record's name and faction |
| Rosters.ResolveSelectsKnownUnits | lib/roster.js:43-53 | the resolved units are the input units whose unit lookup (by unit name, unit title, roster faction) succeeds, in input order; each carries that card, the resolution of its own upgrade names and, independently, of its own loadout names, the loadout always present |
| Rosters.ResolveLength | lib/roster.js:43-53 | resolution never adds units, and keeps all of them when the catalog knows every unit |
| Rosters.ResolveSkipsUnknown | lib/roster.js:43-53 | an unknown unit is skipped silently: the roster is the same as if it had not been listed; a known unit adds exactly one resolved unit |
| Rosters.ResolveAllUnknown | lib/roster.js:43-54 | when the catalog knows none of the listed units, the roster has no units and zero points |
| Rosters.ResolveOneUnknown | lib/roster.js:43-53 | with exactly one unknown unit, the roster has exactly one unit fewer than the record |
| Rosters.ResolveConsistent | lib/roster.js:54 | the resolved points equal the sum over resolved units of card points plus upgrade points, and every resolved unit has a loadout |
| Rosters.ResolveAppend | lib/roster.js:42-54 | resolving a concatenation of unit lists concatenates the resolved units and adds the points |
| Rosters.PointsIgnoreLoadout | lib/roster.js:50-54 | records that differ only in their loadouts resolve to the same points: loadout cards never count |
| Rosters.ResolveCardNames | lib/roster.js:18-19 | the names of a list of cards the catalog recognises by name resolve back to exactly that list of cards |
| Rosters.UnitToRecord | lib/roster.js:13-20 | the projected record has the card's name and title, always an upgrade list with one name per upgrade, and a loadout list exactly when the unit has a loadout, with one name per loadout card |
| Rosters.UnitRoundTrip | lib/roster.js:13-20 | against a catalog that recognises the unit's cards, projecting a unit to its record and resolving it gives the unit back, an absent loadout coming back empty |
| Rosters.RosterRoundTrip | lib/roster.js:56-61 | a consistent roster whose cards the catalog recognises resolves back to itself from its projection, name, faction and points included |
| Rosters.ResolveIdempotent | lib/roster.js:40-62 | against a self-recognising catalog, resolving the projection of a resolved roster gives that roster again |
| Rosters.ProjectionLosesUnknown | lib/roster.js:56-61 | when some listed unit is unknown, the projection of the resolved roster has fewer units than the record and so differs from it |
| RosterScenario.ResolveScenario | test/roster_test.ts:12-35 | with a catalog that knows Vader (titled, rank Commander), Stormtroopers and DLT-19, the roster is Vader's card then the Stormtroopers' card with the DLT-19 card, named "Roster", worth the three cards' points together |

## Left out

- The catalog's internals (how it is built, how it matches names, titles and factions, its data file): it is a separate package; its two lookups are parameters.
- The title disambiguation scenario (two cards with one name told apart by title) is a property of the catalog's matching and is not modelled; the model only shows that the unit's own title and the roster's faction are what the catalog is asked with.
- "A resolvable unit's card carries the name it was asked by" is likewise a catalog property and is not stated.
- The concrete total of 264 in test/roster_test.ts:35 depends on the catalog's card data; the scenario uses symbolic point costs.
- Rosters.ResolveIdempotent: proved only under the hypothesis that the catalog answers a card's own name (and title) with that card, because the code gives no such guarantee.
- Point totals are unbounded integers; the source's floating-point numbers are not modelled.
- src/lib/roster.ts is an unfinished draft that does not match the compiled module (no return value, an empty unit class); it is not part of this model.
- List-building legality and loadout pricing are not implemented by the source and so not modelled.
