# Bucket-list graph builder, modelled in Dafny

`script.js` turns the rows of `BucketList.csv` into a force-directed graph in three steps:

- **Goal entries.** Every row becomes an entry with a display name, four nullable groupings (category, continent, country, topics) and a completed flag.
- **Hubs.** Each grouping gets one hub node per distinct truthy value, and the entries and hubs are concatenated into `allNodes`.
- **Links.** Four passes fill the `links` list:
  1. when there is a category hub whose value is exactly "adventure", every continent hub is linked to it; otherwise this pass adds nothing;
  2. every entry is linked to its topic hub when its topics are truthy, and to its country hub when its country is; it is linked to its continent hub when its continent is truthy, unless it has both a topic and a country; it falls back to its category hub only when none of those three is truthy;
  3. entries of category "project", "skill" or "experience" get an extra category link;
  4. every country hub is linked to the continent hub of the first entry that has that country and a truthy continent; when no entry qualifies, that hub gets no link.

This project models those three steps (`script.js` lines 13–124) and proves what they guarantee.

Modules, one per file:

- `Wrappers` (`wrappers.dfy`): `Option`, which stands for JavaScript's `null`.
- `Text` (`text.dfy`): `String.prototype.trim`, with the WhiteSpace and LineTerminator code points of sections 12.2 and 12.3 of ECMA-262.
- `Seqs` (`seqs.dfy`): `[...new Set(xs)]` as `Dedup`. It keeps first occurrences, in insertion order.
- `Records` (`records.dfy`): the row to entry mapping.
  - A row is a map from column header to cell text. An absent column reads like `undefined`.
  - `d[key] || null` is `NullableField`.
  - The name is built from the trimmed place and activity. The separator is the three characters the script literally contains (U+00E2 U+20AC U+201D), with a space on each side.
- `Hubs` (`hubs.dfy`):
  - the four hub lists and `allHubs`;
  - `allNodes`, with nodes referred to by their index in it;
  - `find` on a hub list (`FindHub`).
- `Links` (`links.dfy`):
  - the four passes as specification functions: the adventure pass as its own recursion over the continent hubs (`AdventureFrom`), the other three as an `Appended` fold over their lists of per-step links;
  - the script's loops as methods (`BuildLinks`, `AddAdventureLinks`, `AddEntryLinks`, `LinksOfEntry`, `AddCategoryLinks`, `AddCountryLinks`), proved equal to those functions.
- `Policy` (`policy.dfy`): what the passes guarantee on the graph.
  - `Outgoing(links, x)` is the links leaving node `x`, in order.
  - Lemmas state exactly which links leave each entry and each country hub.
  - Every link joins a node of `allNodes` to a hub node.

Two behaviours of `script.js` worth noting:

- **Completed is compared untrimmed (line 27).** The raw cell is compared with `=== "yes"`, so a padded `" yes"` or a capitalised `"Yes"` is not completed (`Records.CompletedIsExact`).
- **Hubs keep first-occurrence order (line 30).** `[...new Set(...)]` keeps values in the order they are first inserted, so hubs come in the order their value first occurs among the entries (`Hubs.HubListFirstOccurrence`).

## Model

| member | source | states |
|---|---|---|
| Text.Trim | script.js:16-17 | `?.trim()`: the result is the slice of the input after its leading whitespace, followed only by whitespace, with non-whitespace ends |
| Text.TrimEmptyIffBlank | script.js:16-18 | a trimmed cell is falsy exactly when the cell is blank |
| Records.ComposeName | script.js:18-21 | the name is never empty; it starts with the place when there is one and ends with the activity when there is one |
| Records.NameRules | script.js:15-22 | the four naming cases on the raw cells (place and activity, place only, activity only, "Unnamed"); the name is never empty and has no whitespace at either end |
| Records.UnnamedWhenBothMissing | script.js:21 | a row with no or blank place and activity is named "Unnamed" |
| Records.CompletedFlag | script.js:27 | `completed` holds iff the raw Completed cell is exactly "yes" |
| Records.CompletedIsExact | script.js:27 | " yes", "Yes" and a missing cell give false; "yes" gives true |
| Records.GroupingFields | script.js:23-26 | each grouping is `null` iff its cell is absent or empty, otherwise the untrimmed cell text; such a grouping is truthy iff it is not `null` |
| Records.Entries | script.js:14-28 | one entry per row, in row order |
| Seqs.DedupProperties | script.js:30 | a `Set` keeps every value once and adds none |
| Seqs.DedupFirstOccurrenceOrder | script.js:30 | a `Set` keeps values in the order of their first insertion |
| Hubs.GroupingValuesMembers | script.js:30 | `.filter(Boolean)` keeps exactly the truthy values some entry has |
| Hubs.HubValuesProperties | script.js:30-60 | the hub values of a grouping are its distinct truthy values, none twice |
| Hubs.HubListProperties | script.js:30-60 | one hub per distinct truthy value, none twice; each hub has its grouping's type and the id `hub-<type>-<value>` |
| Hubs.FirstEntryWith | script.js:30 | the first entry whose grouping has the given value |
| Hubs.HubListFirstOccurrence | script.js:30-60 | hubs come in the order in which their value first occurs among the entries |
| Hubs.GroupingOrder | script.js:30 | first occurrences among the filtered values are ordered as among the entries |
| Hubs.HubIdInjective | script.js:31-54 | two hub ids are equal only for the same grouping and value |
| Hubs.HubIdsUnique | script.js:30-62 | all hub ids in `allHubs` are distinct |
| Hubs.AllNodes | script.js:62-65 | `allNodes` is the entries in order, then the category, continent, topic and country hubs |
| Hubs.HubIndexNode | script.js:62-65 | the `k`-th hub of a grouping sits in `allNodes` after all entries, at its list's offset plus `k` |
| Hubs.HubAt | script.js:62 | every position of `allHubs` falls inside exactly one hub list and holds that list's hub at the position minus the list's offset |
| Hubs.NodeOfHub | script.js:62-65 | the node of a hub value is the hub with that id, type and value, and no other node is a hub of that type and value |
| Hubs.EntryHubNode | script.js:88-91 | the hub node of an entry's truthy grouping is the hub of that grouping and value |
| Hubs.FindHub | script.js:88-91 | a found hub has the looked-up value |
| Hubs.FindHubFirst | script.js:88-91 | `find` returns the first match, and nothing only when no hub matches |
| Hubs.FindHubInList | script.js:88-91 | looking a value up in its grouping's hub list succeeds iff the value is truthy and some entry has it, and then finds that value's only hub |
| Hubs.EntryFindsHub | script.js:88-96 | an entry's own grouping value is found iff it is truthy |
| Links.FindExample | script.js:114 | a found example entry has that country and a truthy continent |
| Links.FindExampleFirst | script.js:114 | the example is the first such entry, and none is found only when none exists |
| Links.BuildLinks | script.js:68-124 | the method's `links` is the four passes run in order from the empty list |
| Links.AddAdventureLinks | script.js:71-82 | the adventure loop appends exactly the adventure pass |
| Links.AddEntryLinks | script.js:87-97 | the first `nodes.forEach` appends exactly the first pass |
| Links.LinksOfEntry | script.js:88-96 | one entry's pushes, in push order |
| Links.AddCategoryLinks | script.js:99-111 | the second `nodes.forEach` appends exactly the category pass |
| Links.AddCountryLinks | script.js:113-124 | the `countryHubs.forEach` appends exactly the country pass |
| Policy.LinksDecomposed | script.js:68-124 | `links` is the adventure pass, then the first entry pass, then the category pass, then the country pass |
| Policy.AdventureRule | script.js:71-82 | the adventure hub exists iff some entry's category is exactly "adventure"; then continent hub `k` is linked to it, for every `k` in order; otherwise nothing is added |
| Policy.LinksStartWithAdventure | script.js:68-82 | `links` begins with the adventure links |
| Policy.LinkToHub | script.js:88-96 | looking up an entry's grouping links it to its own hub iff the grouping is truthy |
| Policy.EntryRule | script.js:87-97 | an entry is linked, in order: to its topic hub iff topics are truthy; to its country hub iff the country is; to its continent hub iff the continent is and not both others are; to its category hub iff the category is truthy and the other three are not |
| Policy.CategoryRule | script.js:99-111 | the category pass links an entry to its category hub iff its category is "project", "skill" or "experience" |
| Policy.CountryRule | script.js:113-124 | a country hub gets a link iff some entry has that country and a truthy continent; the link goes to the continent hub of the first such entry |
| Policy.CountryHubNode | script.js:113-121 | the `k`-th country hub is the node of its value |
| Policy.AppendedAt | script.js:87-124 | in a pass whose step `k` only pushes links leaving node `base + k`, the links leaving that node are step `k`'s |
| Policy.PassAdds | script.js:87-124 | appending such a pass adds, as links leaving node `base + k`, exactly step `k`'s links |
| Policy.PassKeeps | script.js:87-124 | appending such a pass adds no link leaving a node no step owns |
| Policy.EntryOutgoing | script.js:68-124 | the links leaving entry `i` are its first-pass links followed by its category-pass link |
| Policy.CountryHubOutgoing | script.js:68-124 | the links leaving the `k`-th country hub are exactly its country-pass link, if any |
| Policy.LinksEnterHubs | script.js:62-124 | every link leaves a node of `allNodes` and enters a node after the entries |
| Policy.LinksWellFormed | script.js:62-124 | every link joins a node of `allNodes` to a hub node |
| Policy.UngroupedEntryUnlinked | script.js:87-111 | an entry with no truthy grouping is the source of no link |
| Policy.IsolatedEntry | script.js:87-124 | an entry with no truthy grouping is neither the source nor the target of any link |
| Policy.GroupedEntryLinked | script.js:93-96 | an entry with a truthy grouping is the source of at least one link |
| Policy.ContinentSuppressedLinks | script.js:93-111 | an entry with truthy topics and country leaves by exactly its topic link, its country link and its category-pass link |
| Policy.ContinentSuppressed | script.js:95 | such an entry is linked to no continent hub |
| Policy.CategoryLinkedTwice | script.js:96-111 | an entry whose only truthy grouping is a category in `specificCategories` is linked to its category hub twice: links are not deduplicated |
| Policy.SpecificCategoryLinked | script.js:99-111 | an entry whose category is in `specificCategories` is linked to its category hub |

## Left out

- Loading: `d3.csv` and the CSV parsing are not modelled; the model starts from the parsed rows, given as maps from header to cell text.
- Rendering: the SVG, the colour scale, the window size, the force simulation, tooltips, hover and drag (lines 1–11 and 127 on) are not modelled. The simulation adds layout fields to the nodes and links (`index`, `x`, `y`, `vx`, `vy`), and the drag handlers set `fx`/`fy` on a dragged node and never clear them; all of this leaves the modelled fields unchanged.
- Warning: when there is no "adventure" hub, `console.warn` happens; the model keeps only its effect, which is that no adventure link is added.
- Object references: links and `find` results refer to node objects. The model refers to them by index into `allNodes`, which identifies them because every entry and every hub occurs there once.
- Hub fields: `isHub` and the duplicate `name` and grouping-key fields of a hub are folded into `Hub.value`. Entries carry no `isHub`, so the `!node.isHub` test always holds.
- Strings: they are sequences of Unicode code points here, whereas JavaScript strings are sequences of UTF-16 code units. Comparisons and trimming agree, since every whitespace character is a single code unit.
