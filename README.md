# AAB-scripts in Dafny

A model of the record-building core of the AAB scripts. The scripts turn
TravellerMap data into flat "tiddler" records for the AAB TiddlyWiki plugin
for Traveller. The model covers:

- `parse_system`: one tab-separated world row becomes one record.
  - Fixed-position fields are cut from the UWP, PBG and Hex codes.
  - The `{Ix}`, `(Ex)` and `[Cx]` extensions are read with anchored
    patterns.
  - Four left-to-right scans of the Remarks column fill the homeworld,
    demographics, ownership and trade-code fields.
  - The title combines the name, the sector's display name and the hex.
- `get_routes`: the sector's routes become a symmetric hex adjacency table,
  then one `{hex, routes}` record per hex.
- `get_sector`: one sector record plus one record per subsector.
- `merge` in `sys2tids.py` and the two loops of `mergetids.py`: the fields
  of secondary records are laid over the primary records that share a key
  value.
- `tidy`: each record's fields are put into the canonical field order.

Records and rows are `map<string, string>`, the `Records.Record` type, and
every dictionary read is `Records.Get`. The sophont map and the sector map
are read-only inputs. Python exceptions become `Err` values of
`Outcomes.Result`:

- `KeyError` for a missing dictionary key;
- `IndexError` for a code too short to index;
- `ValueError` for a failed `int()`;
- `NotInOrder` for a field outside the canonical list.

Modules:

- `Outcomes`: the result and option types.
- `Records`: the record type and the dictionary read `d[key]`.
- `Text`: Python's `split()`, `join`, slicing, `int()`, `str()` and
  `zfill` on strings.
- `Patterns`: the six regular expressions of `parse_system`, written as
  scanners, and `finditer` over them.
- `Systems`: `parse_system`. `SystemRecord` is its specification and
  `ParseSystem` is the imperative parser, proved equal to it. The loops of
  the Remarks scans are methods too, each proved equal to a function.
- `SystemFacts`: what a parsed record holds, field by field.
- `Routes`: `get_routes`.
- `Sectors`: `get_sector`.
- `Merge`: `merge`. `MergeTids` is the `mergetids.py` script, with its key
  field defaulting to `title`.
- `Tidy`: `tidy`.
- `Converter`: how the pieces fit together. The records the converter
  builds always tidy, and merging route records into a sector's systems by
  hex never fails.

The regular expressions are scanners.

- `MatchAt` returns the match a pattern makes at one position.
- `MatchAtLongest` proves it is the longest well-shaped token spelled
  there, which is what the greedy patterns select.
- `FindIter` takes the match at each position and resumes at its end.
- `FindIterLeftmost` proves it lists exactly the leftmost non-overlapping
  matches.

Three behaviours of the code that the model keeps:

- The homeworld pattern's race group `[^)\]]+` runs to the closing
  bracket. `(Vargr2)` therefore names the race `Vargr2` and has no
  population suffix. `SystemFacts.DigitInsideBrackets` states this.
- The tenths label for `0` is `(< 10%)`.
- Route offsets are read with `int()`. An offset that is not a decimal
  integer is a `ValueError`.

## Model

| member | source | states |
|---|---|---|
| Text.Words | sys2tids.py:325 | `split()` gives non-empty runs with no whitespace |
| Text.WordsOfJoin | sys2tids.py:329 | splitting a space-joined list of non-empty words without whitespace gives the list back |
| Text.Slice | sys2tids.py:236-237 | a slice inside the string is the substring; bounds past the end are clamped |
| Text.ParseInt | sys2tids.py:95-98 | `int()` fails only with a `ValueError` naming the text |
| Text.ParseIntToString | sys2tids.py:67-68 | `int(str(n)) == n` for every integer |
| Text.ParseDigits | sys2tids.py:95-98 | `int()` of a digit string is its decimal value |
| Text.ParseNegativeDigits | sys2tids.py:67-68 | `int()` of a minus sign and digits is the negated value |
| Text.Join | sys2tids.py:250 | `sep.join(parts)`: the parts with the separator between each two; `WordsOfJoin` and `LinksAreWords` split it back |
| Text.IntToString | sys2tids.py:67-68 | `str(n)`: a minus sign for a negative number, then the decimal digits without a leading zero; `ParseIntToString` reads it back |
| Text.ZFill | sys2tids.py:117-118 | `zfill` pads to the width and never shortens; the characters are kept, and the zeros go after a leading sign, otherwise in front |
| Text.LeadingZeros | sys2tids.py:117 | zeros put in front of digits do not change their value |
| Text.ZFillNatural | sys2tids.py:117 | `int()` of a zero-padded digit string is its value |
| Text.ZFillNegative | sys2tids.py:117 | `int()` of a zero-padded negative number is its value |
| Text.ZFillSigned | sys2tids.py:117 | a negative number is padded after its minus sign |
| Text.ZFillRoundTrip | sys2tids.py:117-118 | `int(str(n).zfill(w)) == n` for every integer n and width w |
| Patterns.HomeworldAt | sys2tids.py:215 | the homeworld pattern at one position: the optional "Di" tried first, then the bracketed race and suffix; `HomeworldLongest` states what it finds |
| Patterns.RaceAt | sys2tids.py:216 | the race pattern at one position: four code letters tried before three, then a tenth; `RaceLongest` states what it finds |
| Patterns.OwnerAt | sys2tids.py:217 | the ownership pattern at one position: `O:`, an optional sector prefix of four or three letters, four digits; `OwnerLongest` states what it finds |
| Patterns.MatchAt | sys2tids.py:215-217 | a match is a well-shaped token of its pattern, spelled at the position |
| Patterns.MatchAtLongest | sys2tids.py:215-217 | any well-shaped token spelled at a position means the scanner matches there, at least as long |
| Patterns.HomeworldLongest | sys2tids.py:215 | the homeworld scanner finds the longest `(Di)?[(\[]race[)\]]suffix` token, with either bracket kind on either side |
| Patterns.RaceLongest | sys2tids.py:216 | the race scanner finds the longest code-and-tenth token |
| Patterns.OwnerLongest | sys2tids.py:217 | an `O:` token, with or without a sector prefix, is exactly what the scanner returns |
| Patterns.FindIter | sys2tids.py:283 | the matches found come in order, do not overlap, and are matches of the text |
| Patterns.FindIterLeftmost | sys2tids.py:283 | no match starts before the first, between two found ones, or after the last |
| Patterns.Scan | sys2tids.py:303 | every token `finditer` yields has its pattern's shape |
| Patterns.ImportanceOf | sys2tids.py:256 | an `{Ix}` match is well shaped and spelled at the start of the column |
| Patterns.ImportanceOfUnique | sys2tids.py:218 | a column that starts with an importance token gives that token |
| Patterns.EconomicsOf | sys2tids.py:260 | an `(Ex)` match is well shaped and spelled at the start of the column |
| Patterns.EconomicsOfUnique | sys2tids.py:219 | a column that starts with an economic token gives that token |
| Patterns.CultureOf | sys2tids.py:267 | a `[Cx]` match is well shaped and spelled at the start of the column |
| Patterns.CultureOfUnique | sys2tids.py:220 | a column that starts with a cultural token gives that token |
| Records.Get | sys2tids.py:228 | a dictionary read `d[key]` gives the value, or a `KeyError` naming the key |
| Systems.Tenths | sys2tids.py:201-213 | the tenths label of a suffix, from the table `TENTHS`: "(< 10%)" for 0, "(10%)" to "(90%)" for 1 to 9, "World" for W |
| Systems.SophontName | sys2tids.py:284-289 | "minor" is "Minor Race", "Hminor" is "Human Minor Race", any other race is itself |
| Systems.Homeworlds | sys2tids.py:283-300 | one `[[race]]` or `[[race (extinct)\|race]]` entry per homeworld match, in order; `SystemFacts.HomeworldCounts` states its length |
| Systems.HomeworldDemographics | sys2tids.py:294-300 | one demographics entry per homeworld match that is not extinct, with the suffix's tenths label or "World" |
| Systems.DiCodes | sys2tids.py:291-293 | one "Di" per extinct homeworld match |
| Systems.RaceDemographics | sys2tids.py:303-306 | one demographics entry per race match whose code the sophont map knows, with the tenths label |
| Systems.OwnerStep | sys2tids.py:316-323 | one ownership match: a known prefix or no prefix sets the owning sector, an unknown prefix leaves it; the hex is always set |
| Systems.OwnerFold | sys2tids.py:315-323 | the ownership matches applied in order; `SystemFacts.OwnerFoldLast` states the result |
| Systems.ShortCodes | sys2tids.py:325-327 | the words of at most three characters, in order; `SystemFacts.ShortCodesAre` states it |
| Systems.Title | sys2tids.py:228-231 | the name, a space unless the name is empty, then "(sector hex)"; `SystemFacts.TitleDecodes` states it |
| Systems.BaseRecord | sys2tids.py:227-254 | the 21 fixed-position fields; `SystemFacts.BaseRecordKeys`, `BaseField`, `UwpOffsets` and `PbgHexOffsets` state them |
| Systems.WithExtensions | sys2tids.py:256-272 | the importance, economic and cultural fields, each added only when its pattern matches; `SystemFacts.ImportanceField`, `EconomicsFields` and `CultureFields` state them |
| Systems.FixedRecord | sys2tids.py:227-280 | the record before the Remarks scans: the fixed fields, the extensions and the three copied columns |
| Systems.WithScans | sys2tids.py:282-329 | the homeworld, demographics, ownership and trade-code fields from the matches of the Remarks scans |
| Systems.WithRemarks | sys2tids.py:282-329 | `WithScans` over the `finditer` scans and the words of the Remarks column |
| Systems.SystemRecord | sys2tids.py:200-331 | `parse_system`: the columns read, or the first read's error, then the fixed record passed through the Remarks scans; `SystemFacts.SystemRecordOk` and `SystemRecordErrors` state when it fails |
| Systems.ReadColumns | sys2tids.py:228-254 | a successful read has a UWP of at least 9 characters and a PBG of at least 3 |
| Systems.Chars | sys2tids.py:250 | `list(s)` has one one-character string per character |
| Systems.ParseSystem | sys2tids.py:200-331 | the parser returns exactly `SystemRecord` of its row |
| Systems.AddExtensions | sys2tids.py:256-272 | the three anchored matches add exactly the extension fields of `WithExtensions` |
| Systems.AddRemarks | sys2tids.py:282-329 | the four Remarks scans add exactly the fields of `WithScans` |
| Systems.AddList | sys2tids.py:308-312 | a non-empty list is stored joined by `<br/>`; an empty one leaves the record as it was |
| Systems.HomeworldScanStep | sys2tids.py:283-300 | one more homeworld match appends one entry, and either a demographics entry or a "Di" code when extinct |
| Systems.ScanHomeworlds | sys2tids.py:283-300 | the homeworld loop collects `Homeworlds`, `HomeworldDemographics` and `DiCodes` of the matches |
| Systems.HomeworldMatch | sys2tids.py:284-300 | one homeworld match gives its entry, and either a demographics entry or, when extinct, a "Di" code |
| Systems.ScanRaces | sys2tids.py:303-306 | the race loop collects `RaceDemographics` of the matches |
| Systems.ApplyOwners | sys2tids.py:315-323 | the ownership loop gives `OwnerFold` of the matches |
| Systems.CollectShortCodes | sys2tids.py:325-327 | the trade-code loop collects `ShortCodes` of the words |
| SystemFacts.ReadColumnsOk | sys2tids.py:228-254 | the columns are read exactly when every column is there, the sector is known and the codes are long enough |
| SystemFacts.SystemRecordOk | sys2tids.py:200-331 | the parser succeeds exactly on such rows, with the fixed record passed through the Remarks scans |
| SystemFacts.SystemRecordErrors | sys2tids.py:228-254 | a failure is a missing column, an unknown sector, or a short UWP or PBG |
| SystemFacts.UnknownSector | sys2tids.py:231 | a sector missing from the sector map fails with a `KeyError` naming it |
| SystemFacts.BaseRecordKeys | sys2tids.py:227-254 | the fixed-position record has exactly the 21 fixed fields |
| SystemFacts.WithExtensionsKeys | sys2tids.py:256-272 | the extensions only add their own fields |
| SystemFacts.ExtensionsKeep | sys2tids.py:256-272 | the extensions leave every other field as it was |
| SystemFacts.FixedRecordKeys | sys2tids.py:227-280 | before the Remarks scans, every field is a fixed, extension or copied-column field |
| SystemFacts.FixedRecordNoLists | sys2tids.py:222-225 | before the scans there is no homeworld or demographics field |
| SystemFacts.FixedRecordNoOwner | sys2tids.py:222-254 | before the scans there is no ownership field |
| SystemFacts.FixedKeep | sys2tids.py:274-280 | a fixed-position field survives the extensions and the copied columns |
| SystemFacts.OwnerFoldKeeps | sys2tids.py:315-323 | the ownership loop touches only `ownersector` and `ownerhex` |
| SystemFacts.WithScansKeeps | sys2tids.py:282-329 | the Remarks scans touch only the five Remarks fields |
| SystemFacts.RemarksKeep | sys2tids.py:282-329 | every other field keeps its presence and value through the scans |
| SystemFacts.SystemRecordKeys | sys2tids.py:222-331 | every field of a parsed record is one of the known fields |
| SystemFacts.RowField | sys2tids.py:227-280 | outside the Remarks fields, the parsed record is the fixed record |
| SystemFacts.BaseField | sys2tids.py:227-254 | each fixed-position field of the parsed record is there, as the row's positions give it |
| SystemFacts.BaseIdentity | sys2tids.py:227-235 | tags are "System"; the title is the name, a space unless it is empty, then "(sector hex)"; name, sector, subsector, hex and zone come from the columns |
| SystemFacts.CopiedColumns | sys2tids.py:274-280 | stars, worlds and allegiance are copied; the sector is the full name of the abbreviation |
| SystemFacts.TitleDecodes | sys2tids.py:228-231 | two titles with the same name and sector are equal only for the same hex |
| SystemFacts.UwpOffsets | sys2tids.py:239-246 | starport to lawlevel read back as UWP[0..7] in order; techlevel is UWP[8] |
| SystemFacts.PbgHexOffsets | sys2tids.py:236-254 | popmult, belts and gasgiants are PBG[0..3]; hx and hy are the clamped halves of the hex |
| SystemFacts.BasesWords | sys2tids.py:250 | splitting the bases field gives the base codes one by one |
| SystemFacts.ImportanceField | sys2tids.py:256-258 | importance is present exactly when `{Ix}` matches, with the matched value |
| SystemFacts.BaseNoEconomics | sys2tids.py:227-254 | the fixed record has no economic field |
| SystemFacts.BaseNoCulture | sys2tids.py:227-254 | the fixed record has no cultural field |
| SystemFacts.EconomicsLayer | sys2tids.py:260-265 | on a record without them, the economic fields are added exactly when `(Ex)` matches |
| SystemFacts.CultureLayer | sys2tids.py:267-272 | on a record without them, the cultural fields are added exactly when `[Cx]` matches |
| SystemFacts.EconomicsFields | sys2tids.py:260-265 | the four economic fields are present exactly when `(Ex)` matches, holding its four groups |
| SystemFacts.CultureFields | sys2tids.py:267-272 | the four cultural fields are present exactly when `[Cx]` matches, holding its four groups |
| SystemFacts.SystemRecordRemarks | sys2tids.py:222-225 | the scans start from a record with none of their fields |
| SystemFacts.HomeworldCounts | sys2tids.py:283-300 | one homeworld entry per match; per match either a demographics entry or a "Di" code, never both |
| SystemFacts.WholeWorldSuffix | sys2tids.py:295-300 | suffix "W" gives the same "World" label as no suffix |
| SystemFacts.DigitInsideBrackets | sys2tids.py:215 | `(Vargr2)` matches with race "Vargr2" and no suffix |
| SystemFacts.DigitInsideBracketsEntry | sys2tids.py:298-300 | that match gives the whole-world entry for "Vargr2" |
| SystemFacts.ExtinctMinorRace | sys2tids.py:284-293 | extinct "Hminor" in mismatched brackets is an extinct "Human Minor Race", with a "Di" code and no demographics |
| SystemFacts.MinorRaceShare | sys2tids.py:284-297 | "minor" with digit 3 is "Minor Race" with a "(30%)" demographics entry |
| SystemFacts.RaceDemographicsKnown | sys2tids.py:303-306 | known codes give one entry each and unknown codes none |
| SystemFacts.ScanLists | sys2tids.py:308-312 | homeworld and demographics are absent exactly when empty, else their entries joined by `<br/>` in order |
| SystemFacts.ListFields | sys2tids.py:282-312 | the same for a parsed row, over the scans of its Remarks |
| SystemFacts.LastResolved | sys2tids.py:316-321 | the owning sector of the last ownership match that resolves one, if any |
| SystemFacts.LastResolvedSnoc | sys2tids.py:316-321 | a later match that names a sector wins over earlier ones |
| SystemFacts.OwnerFoldLast | sys2tids.py:315-323 | ownerhex is the last match's hex; ownersector is from the last match that names a known sector or has no prefix, else unchanged |
| SystemFacts.ScanOwners | sys2tids.py:315-323 | on a record without them, both ownership fields are absent with no match |
| SystemFacts.OwnerFields | sys2tids.py:315-323 | the ownership fields of a parsed row, from the scan of its Remarks |
| SystemFacts.ShortCodesAre | sys2tids.py:325-327 | the short codes are exactly the words of at most three characters |
| SystemFacts.DiCodesAreWords | sys2tids.py:291-293 | each "Di" code is a non-empty word |
| SystemFacts.ShortCodesAreWords | sys2tids.py:325-327 | short codes taken from words are words |
| SystemFacts.TradeCodeWords | sys2tids.py:329 | splitting the joined trade codes gives them back |
| SystemFacts.ScanTradeCodes | sys2tids.py:325-329 | the trade codes field is always added, and splits into the "Di" codes then the short words |
| SystemFacts.TradeCodes | sys2tids.py:291-329 | for a parsed row: "Di" codes in order, then every Remarks word of at most 3 characters in order, duplicates kept |
| Routes.Offset | sys2tids.py:100-113 | an absent offset is none; a present one is its `int()` value, or the `ValueError` of its text |
| Routes.Shift | sys2tids.py:100-114 | without an offset the coordinate is unchanged; with one it is the scaled sum when that is not negative, and 0 when it is |
| Routes.HexName | sys2tids.py:117-118 | a hex name has at least 4 characters and no whitespace |
| Routes.DecodeRoute | sys2tids.py:95-118 | both decoded endpoints are hex names |
| Routes.Edges | sys2tids.py:94-118 | one edge per route, each its decoding, or the first route's error |
| Routes.EdgesOk | sys2tids.py:94-118 | the routes decode as a whole exactly when each route decodes |
| Routes.Endpoints | sys2tids.py:121-124 | every hex some route starts or ends at |
| Routes.Link | sys2tids.py:121-127 | one route added to the table: each new end gets an empty set, then each end is added to the other's set |
| Routes.Table | sys2tids.py:121-127 | the table's hexes are exactly the route endpoints |
| Routes.Seen | sys2tids.py:121-124 | the order of first sight lists each endpoint once |
| Routes.Notice | sys2tids.py:121-124 | a route's new ends are added once each |
| Routes.TableStep | sys2tids.py:121-127 | one more route updates the table and the order by one step |
| Routes.TableLinks | sys2tids.py:126-127 | b is linked to a exactly when a route joins them in either direction |
| Routes.TableSymmetric | sys2tids.py:126-127 | the table is symmetric |
| Routes.TableWords | sys2tids.py:121-127 | when every route endpoint is a single word, so is every link in the table |
| Routes.SelfLoop | sys2tids.py:126-127 | a route from a hex to itself links it to itself |
| Routes.NoIsolatedHex | sys2tids.py:121-127 | every hex in the table has a link |
| Routes.ParseTwoDigits | sys2tids.py:95-96 | `int()` of two digits is their value |
| Routes.PadTwoDigits | sys2tids.py:117 | zero-padding the value of two digits gives the digits back |
| Routes.PadRoundTrip | sys2tids.py:117 | a coordinate below 100 pads to two characters that read back as it |
| Routes.DecodeRouteOk | sys2tids.py:95-118 | a route whose reads all succeed decodes to the shifted, zero-padded start and end |
| Routes.OffsetRoute | sys2tids.py:95-118 | start "0101" with StartOffsetX "1" gives "3301"; end "0203" with EndOffsetX "-1" falls below column 0 and gives "0003" |
| Routes.PlainRoute | sys2tids.py:95-118 | a route with four-digit ends and no offsets links exactly those hexes |
| Routes.PlainHex | sys2tids.py:95-117 | a four-digit hex reads and pads back to itself |
| Routes.HexHalf | sys2tids.py:95-98 | each two-digit half of a four-digit hex reads as its number and pads back to itself |
| Routes.EdgesStop | sys2tids.py:94-98 | a route that fails stops the resolver with its error |
| Routes.Enumerate | sys2tids.py:132 | iterating a set lists each element once |
| Routes.AddRoute | sys2tids.py:121-127 | one loop step is `Link` on the table and `Notice` on the order |
| Routes.BuildTable | sys2tids.py:94-127 | the loop builds `Table` and `Seen` of the decoded routes, or stops with the first error |
| Routes.RouteRecords | sys2tids.py:129-133 | one record per hex in order, each naming the hex and listing its links |
| Routes.HexRecord | sys2tids.py:130-132 | a record is `{hex, routes}` whose routes split into the hex's links, each once |
| Routes.GetRoutes | sys2tids.py:85-135 | succeeds exactly when every route decodes, else fails with the first route's error; on success one record per distinct endpoint, in order of first sight, listing exactly its links |
| Routes.LinksAreWords | sys2tids.py:132 | the space-joined links split back into the links |
| Sectors.SectorTitle | sys2tids.py:66 | the first name, or an `IndexError` for an empty name list |
| Sectors.SectorRecord | sys2tids.py:62-69 | the sector record: title, `str()` of X and Y, tagged "Sector"; `SectorPosition` reads the position back |
| Sectors.SubsectorRecord | sys2tids.py:74-79 | a subsector record: sector title, index, name, "name/sector" title, tagged "Subsector"; `SubsectorTitleSplits` splits the title back |
| Sectors.SectorRecords | sys2tids.py:58-83 | `get_sector`: the sector record, then one record per subsector; `SectorRecordsShape` states it |
| Sectors.SubsectorRecords | sys2tids.py:73-81 | one subsector record per subsector, in order |
| Sectors.GetSector | sys2tids.py:58-83 | the loop builds `SectorRecords` of the metadata |
| Sectors.SectorRecordsShape | sys2tids.py:58-83 | fails only without a name; the sector record comes first, tagged "Sector", then one record per subsector |
| Sectors.SectorPosition | sys2tids.py:67-68 | sx and sy read back as the sector's X and Y |
| Sectors.SubsectorFields | sys2tids.py:74-79 | each subsector record has the sector title, index and name, tagged "Subsector" |
| Sectors.SubsectorTitleSplits | sys2tids.py:78 | a subsector title splits at its first `/` into the name and the sector |
| Merge.Overlay | sys2tids.py:168-170 | after `copy` and `update`, the secondary's fields win and the primary's other fields are kept |
| Merge.Index | sys2tids.py:162-163 | the index exists exactly when every secondary record has the key |
| Merge.MergeOne | sys2tids.py:168-171 | one primary record overlaid with the indexed record of its key value, or copied unchanged; a `KeyError` without the key |
| Merge.MergeAll | sys2tids.py:167-171 | one merged record per primary record, in order, or a `KeyError` |
| Merge.IndexStop | sys2tids.py:163 | a secondary record without the key fails the index |
| Merge.BuildIndex | sys2tids.py:162-163 | the index loop builds `Index` |
| Merge.MergeRecords | sys2tids.py:167-171 | the overlay loop builds `MergeAll` |
| Merge.Merged | sys2tids.py:155-173 | `merge`: the index of the secondary records, then the merged primary records; `MergedShape` and `MergedFails` state it |
| Merge.MergeByKey | sys2tids.py:155-173 | `merge` returns `Merged` of its inputs |
| Merge.IndexLast | sys2tids.py:162-163 | the index holds exactly the secondary key values, each mapped to the last record with it |
| Merge.IndexKeys | sys2tids.py:162-163 | a key value is in the index exactly when some secondary record carries it |
| Merge.IndexLatest | sys2tids.py:162-163 | each indexed value maps to the last secondary record carrying it |
| Merge.MergedFails | sys2tids.py:155-173 | the merge fails exactly when a record of either list lacks the key, with a `KeyError` |
| Merge.MergedShape | sys2tids.py:167-171 | same length and order; each output is its primary overlaid with the last matching secondary, or unchanged |
| Merge.MergedKeepsKey | sys2tids.py:167-171 | the merge never changes a record's key value |
| Merge.MergeNothing | sys2tids.py:155-173 | with no secondary records the output is the primary list |
| Merge.MergeIdempotent | sys2tids.py:155-173 | merging the same secondary records twice changes nothing |
| Merge.MergedWithin | sys2tids.py:167-171 | the merge brings in no field that neither list has |
| Merge.UnmatchedIgnored | mergetids.py:41-46 | a secondary record whose key no primary has leaves no trace |
| MergeTids.KeyField | mergetids.py:14-17 | the key is the named one, else "title" |
| MergeTids.MergeTiddlers | mergetids.py:33-46 | the two loops return `Merged` on the chosen key |
| MergeTids.MergedByTitle | mergetids.py:33-46 | by default each output keeps its primary's title and takes the fields of the last secondary with that title |
| Tidy.Position | sys2tids.py:197 | `order.index(k)` is the first position of k |
| Tidy.Unplaced | sys2tids.py:197 | the fields outside the order |
| Tidy.Pick | sys2tids.py:196-198 | the record's items taken in the order's order; `PickItems` and `PickSorted` state it |
| Tidy.Tidy | sys2tids.py:175-198 | `tidy(worlds)`: every record tidied with the canonical order; `TidiedIsSort` states what a tidied record is |
| Tidy.Tidied | sys2tids.py:196-198 | a record fails exactly when a field is outside the order |
| Tidy.TidyAll | sys2tids.py:196-198 | every record tidied in turn; the error is that of the first record that fails |
| Tidy.PickItems | sys2tids.py:196-198 | the picked fields are exactly the record's items whose names are in the order |
| Tidy.PickSorted | sys2tids.py:196-198 | the picked fields are in strictly increasing order position |
| Tidy.SortedHead | sys2tids.py:196-198 | two sorted lists with the same items start alike |
| Tidy.SortedTail | sys2tids.py:196-198 | the tail of a sorted list is sorted and holds every item but the head |
| Tidy.SortedUnique | sys2tids.py:196-198 | a sort by position has one possible result |
| Tidy.TidiedIsSort | sys2tids.py:196-198 | a tidied record lists exactly its items, sorted by `order.index`, and is the only such list |
| Tidy.TidiedDistinct | sys2tids.py:196-198 | no field name appears twice in a tidied record |
| Tidy.TidyWithin | sys2tids.py:177-198 | records whose fields are all in the order always tidy |
| Converter.OrderPlacesSystemFields | sys2tids.py:177-195 | the canonical order places every field a parsed system can have |
| Converter.OrderPlacesFields | sys2tids.py:177-195 | it places every field of a system, sector, subsector or route record |
| Converter.SystemTidies | sys2tids.py:222-331 | a parsed system record keeps to those fields and tidies |
| Converter.FixedHasHex | sys2tids.py:235 | the fixed record has a hex |
| Converter.SystemHasHex | sys2tids.py:235 | a parsed system record has a hex, the key the route records are merged on |
| Converter.SectorFields | sys2tids.py:58-83 | sector and subsector records keep to those fields |
| Converter.SectorOutputTidies | sys2tids.py:48-56 | a sector's systems merged with its route records by hex never fail, and with the sector records they all tidy |

## Left out

- HTTP access (`requests.get`) is not modelled. The sophont map, the
  sector map, the world rows and the sector metadata are inputs of the
  model.
- CSV reading is not modelled: a row is an already-parsed map. A short row
  whose missing cells `csv.DictReader` fills with `None` is not modelled.
- Argument parsing, `main`, `get_systems`, `get_metadata`, `get_sophonts`,
  `get_sectors`, file handling, JSON loading and printing are not
  modelled. `Converter.SectorOutputTidies` states what `main` relies on.
- `secs2tids.py` is not part of this model. Every function in it fetches
  over HTTP, and its subsector records have the shape `get_sector` builds.
- Python dictionaries keep insertion order; maps do not. The model keeps
  field order only in the output of `tidy`. Route records come out in the
  order the table first sees each hex, as `Routes.Seen`.
- `MergeTids.MergeTiddlers`: `mergetids.py` prints the merged records with
  `json.dumps` and no `tidy`, so their field order is visible in its output.
  That order is not modelled: a merged record is a map.
- Iteration order over a Python set is left open. `Routes.Enumerate`
  returns the set's elements in some order, and every property is stated
  for any order.
- `Text.IsDigit`: `\d` and `int()` are modelled on ASCII digits only.
  Python also accepts other Unicode decimal digits.
- `Routes.GetRoutes`: the route list is an input. The lookup of the
  `Routes` key of the metadata is not modelled.
- `Sectors.GetSector`: the metadata is a typed value, so missing `X`, `Y`,
  `Subsectors`, `Text`, `Index` or `Name` keys are not modelled. Only the
  empty name list is an error.
- Copy versus alias is not modelled. Records are values, so `copy()` and
  `update()` on the copy are `Merge.Overlay`, and an unmatched primary
  record is output equal to itself.
- Merge: values are strings, since every record the converter builds has
  string values. Records in `mergetids.py` files may hold other JSON values.
- `Systems.ParseSystem` reads all of a row's columns before it writes any
  field. Python interleaves reads and writes, but no write can be seen
  before a failing read, so the result and the error are the same.
- Merge: the index loop checks the secondary records for the key before
  the primary loop starts, as Python does. Both failures are the same
  `KeyError`.
- `Tidy.Tidied`: Python reports the first unknown field met in the
  dictionary's order. The model reports the set of unknown fields, since it
  does not model that order.
