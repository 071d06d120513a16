/** The world-row parser: one tab-separated TravellerMap world row, already
    split into named columns, becomes one flat "System" record.

    `SystemRecord` states what the parser produces, stage by stage as the
    parser builds it; `ParseSystem` is the parser itself, which builds the
    record field by field and collects the homeworld, demographics and trade
    code lists in loops over the scans of the Remarks column. */
module Systems {
  import opened Outcomes
  import opened Text
  import opened Patterns
  import opened Records

  // ---------------------------------------------------------------- labels

  /** The population-tenths table of the parser. */
  const TENTHS: map<char, string> := map[
    '0' := "(< 10%)", '1' := "(10%)", '2' := "(20%)", '3' := "(30%)", '4' := "(40%)",
    '5' := "(50%)", '6' := "(60%)", '7' := "(70%)", '8' := "(80%)", '9' := "(90%)",
    'W' := "World"]

  function Tenths(c: char): string
    requires c in TENTHS
  {
    TENTHS[c]
  }

  /** The display name of a homeworld race: two aliases, otherwise the text itself. */
  function SophontName(race: string): string {
    if race == "minor" then "Minor Race"
    else if race == "Hminor" then "Human Minor Race"
    else race
  }

  /** `[[name note|name]]`: a demographics entry. */
  function Demographic(name: string, note: string): string {
    "[[" + name + " " + note + "|" + name + "]]"
  }

  predicate AllShaped(pat: Pattern, ts: seq<Token>) {
    forall k :: 0 <= k < |ts| ==> Shaped(pat, ts[k])
  }

  // ---------------------------------------------------------------- homeworld scan

  /** The homeworld entry of one homeworld match. */
  function HomeworldEntry(t: Token): string
    requires t.Homeworld?
  {
    var name := SophontName(t.race);
    if t.extinct then "[[" + name + " (extinct)|" + name + "]]" else "[[" + name + "]]"
  }

  /** The tenths label of a homeworld match: its suffix, or "World" without one. */
  function HomeworldLabel(t: Token): string
    requires Shaped(HomeworldPattern, t)
  {
    if t.suffix != "" then Tenths(t.suffix[0]) else "World"
  }

  /** The homeworld entries, one per match, in order. */
  function Homeworlds(ts: seq<Token>): seq<string>
    requires AllShaped(HomeworldPattern, ts)
  {
    if ts == [] then [] else Homeworlds(ts[..|ts| - 1]) + [HomeworldEntry(ts[|ts| - 1])]
  }

  /** The demographics entries of the homeworld matches that are not extinct. */
  function HomeworldDemographics(ts: seq<Token>): seq<string>
    requires AllShaped(HomeworldPattern, ts)
  {
    if ts == [] then []
    else
      var t := ts[|ts| - 1];
      HomeworldDemographics(ts[..|ts| - 1])
        + (if t.extinct then [] else [Demographic(SophontName(t.race), HomeworldLabel(t))])
  }

  /** One "Di" trade code per extinct homeworld match. */
  function DiCodes(ts: seq<Token>): seq<string>
    requires AllShaped(HomeworldPattern, ts)
  {
    if ts == [] then []
    else DiCodes(ts[..|ts| - 1]) + (if ts[|ts| - 1].extinct then ["Di"] else [])
  }

  // ---------------------------------------------------------------- race scan

  /** The demographics entries of the race matches whose code is a known sophont. */
  function RaceDemographics(ts: seq<Token>, sophonts: map<string, string>): seq<string>
    requires AllShaped(RacePattern, ts)
  {
    if ts == [] then []
    else
      var t := ts[|ts| - 1];
      RaceDemographics(ts[..|ts| - 1], sophonts)
        + (if t.code in sophonts then [Demographic(sophonts[t.code], Tenths(t.tenth))] else [])
  }

  /** A list field: absent when the list is empty, its entries joined by
      "<br/>" otherwise. */
  function WithList(w: Record, key: string, entries: seq<string>): Record {
    if |entries| > 0 then w[key := Join(entries, "<br/>")] else w
  }

  // ---------------------------------------------------------------- ownership scan

  /** One ownership match: a prefix names the owning sector when the sector
      map knows it, no prefix means the row's own sector; the hex is always
      recorded. */
  function OwnerStep(w: Record, t: Token, own: string, sectors: map<string, string>): Record
    requires t.Owner?
  {
    var v :=
      if t.prefix.None? then w["ownersector" := own]
      else if t.prefix.value in sectors then w["ownersector" := sectors[t.prefix.value]]
      else w;
    v["ownerhex" := t.hex]
  }

  /** The ownership matches applied in order. */
  function OwnerFold(w: Record, ts: seq<Token>, own: string, sectors: map<string, string>): Record
    requires AllShaped(OwnerPattern, ts)
  {
    if ts == [] then w else OwnerStep(OwnerFold(w, ts[..|ts| - 1], own, sectors), ts[|ts| - 1], own, sectors)
  }

  // ---------------------------------------------------------------- trade codes

  /** The whitespace-separated tokens of at most three characters, in order. */
  function ShortCodes(ws: seq<string>): seq<string> {
    if ws == [] then []
    else ShortCodes(ws[..|ws| - 1]) + (if |ws[|ws| - 1]| <= 3 then [ws[|ws| - 1]] else [])
  }

  // ---------------------------------------------------------------- the row

  /** The columns the parser reads, with the sector abbreviation resolved. */
  datatype Columns = Columns(
    name: string, sector: string, hex: string, subsector: string, uwp: string,
    zone: string, bases: string, pbg: string, ix: string, ex: string, cx: string,
    stars: string, worlds: string, allegiance: string, remarks: string)

  /** The column reads in the order the parser makes them, so that the first
      missing column, unknown sector or short code is the error reported.
      Indexing the UWP code at 0..6 and 8 fails exactly when it is shorter
      than nine characters, the PBG code at 0..2 when it is shorter than three. */
  function ReadColumns(row: Record, sectors: map<string, string>): (r: Result<Columns>)
    ensures r.Ok? ==> |r.value.uwp| >= 9 && |r.value.pbg| >= 3
  {
    var name :- Get(row, "Name");
    var abbr :- Get(row, "Sector");
    var sector :- Get(sectors, abbr);
    var hex :- Get(row, "Hex");
    var subsector :- Get(row, "SS");
    var uwp :- Get(row, "UWP");
    if |uwp| < 9 then Err(IndexError("UWP"))
    else
      var zone :- Get(row, "Zone");
      var bases :- Get(row, "Bases");
      var pbg :- Get(row, "PBG");
      if |pbg| < 3 then Err(IndexError("PBG"))
      else
        var ix :- Get(row, "{Ix}");
        var ex :- Get(row, "(Ex)");
        var cx :- Get(row, "[Cx]");
        var stars :- Get(row, "Stars");
        var worlds :- Get(row, "W");
        var allegiance :- Get(row, "Allegiance");
        var remarks :- Get(row, "Remarks");
        Ok(Columns(name, sector, hex, subsector, uwp, zone, bases, pbg, ix, ex, cx,
                   stars, worlds, allegiance, remarks))
  }

  /** `Name (Sector Hex)`, without the space when the name is empty. */
  function Title(name: string, sector: string, hex: string): string {
    (if name != "" then name + " " else name) + "(" + sector + " " + hex + ")"
  }

  /** Python's `list(s)`: the characters of a string, each as a string. */
  function Chars(s: string): (cs: seq<string>)
    ensures |cs| == |s| && forall k :: 0 <= k < |s| ==> cs[k] == [s[k]]
  {
    seq(|s|, k requires 0 <= k < |s| => [s[k]])
  }

  /** The fields cut from the row by fixed positions. */
  function BaseRecord(c: Columns): Record
    requires |c.uwp| >= 9 && |c.pbg| >= 3
  {
    map[
      "tags" := "System",
      "title" := Title(c.name, c.sector, c.hex),
      "name" := c.name,
      "sector" := c.sector,
      "subsector" := c.subsector,
      "hex" := c.hex,
      "hx" := Slice(c.hex, 0, 2),
      "hy" := Slice(c.hex, 2, 4),
      "starport" := [c.uwp[0]],
      "diameter" := [c.uwp[1]],
      "atmosphere" := [c.uwp[2]],
      "hydrographics" := [c.uwp[3]],
      "population" := [c.uwp[4]],
      "government" := [c.uwp[5]],
      "lawlevel" := [c.uwp[6]],
      "techlevel" := [c.uwp[8]],
      "zone" := c.zone,
      "bases" := Join(Chars(c.bases), " "),
      "popmult" := [c.pbg[0]],
      "belts" := [c.pbg[1]],
      "gasgiants" := [c.pbg[2]]]
  }

  /** The importance, economic and cultural extensions, each only when its
      pattern matches at the start of its column. */
  function WithExtensions(w: Record, ix: string, ex: string, cx: string): Record {
    var w1 := match ImportanceOf(ix)
      case Some(x) => w["importance" := x.value]
      case None => w;
    var w2 := match EconomicsOf(ex)
      case Some(x) =>
        w1["resources" := [x.resources]]["labour" := [x.labour]]
          ["infrastructure" := [x.infrastructure]]["efficiency" := x.efficiency]
      case None => w1;
    match CultureOf(cx)
    case Some(x) =>
      w2["heterogeneity" := [x.heterogeneity]]["acceptance" := [x.acceptance]]
        ["strangeness" := [x.strangeness]]["symbols" := [x.symbols]]
    case None => w2
  }

  /** The fields read off the Remarks column, given the matches of its three
      scans and its words. */
  function WithScans(w: Record, hw: seq<Token>, rs: seq<Token>, os: seq<Token>, words: seq<string>,
                     own: string, sophonts: map<string, string>, sectors: map<string, string>): Record
    requires AllShaped(HomeworldPattern, hw) && AllShaped(RacePattern, rs) && AllShaped(OwnerPattern, os)
  {
    var w1 := WithList(w, "homeworld", Homeworlds(hw));
    var w2 := WithList(w1, "demographics", HomeworldDemographics(hw) + RaceDemographics(rs, sophonts));
    var w3 := OwnerFold(w2, os, own, sectors);
    w3["tradecodes" := Join(DiCodes(hw) + ShortCodes(words), " ")]
  }

  /** The fields read off the Remarks column by its four scans. */
  function WithRemarks(w: Record, remarks: string, own: string,
                       sophonts: map<string, string>, sectors: map<string, string>): Record
  {
    WithScans(w, Scan(HomeworldPattern, remarks), Scan(RacePattern, remarks), Scan(OwnerPattern, remarks),
              Words(remarks), own, sophonts, sectors)
  }

  /** The record before the Remarks scans: the fixed-position fields, the
      extensions and the star, world-count and allegiance columns. */
  function FixedRecord(c: Columns): Record
    requires |c.uwp| >= 9 && |c.pbg| >= 3
  {
    WithExtensions(BaseRecord(c), c.ix, c.ex, c.cx)["stars" := c.stars]["worlds" := c.worlds]["allegiance" := c.allegiance]
  }

  /** The record the parser builds from a row, or the error it stops with. */
  function SystemRecord(row: Record, sophonts: map<string, string>, sectors: map<string, string>): Result<Record> {
    var c :- ReadColumns(row, sectors);
    Ok(WithRemarks(FixedRecord(c), c.remarks, c.sector, sophonts, sectors))
  }

  // ---------------------------------------------------------------- the parser

  /** The parser: the row's columns are read, the record is filled field by
      field, and the Remarks scans append to lists in loops. */
  method ParseSystem(row: Record, sophonts: map<string, string>, sectors: map<string, string>)
    returns (r: Result<Record>)
    ensures r == SystemRecord(row, sophonts, sectors)
  {
    var c :- ReadColumns(row, sectors);
    var title := c.name;
    if c.name != "" {
      title := title + " ";
    }
    title := title + "(" + c.sector + " " + c.hex + ")";

    var world: Record := map[];
    world := world["tags" := "System"];
    world := world["title" := title];
    world := world["name" := c.name];
    world := world["sector" := c.sector];
    world := world["subsector" := c.subsector];
    world := world["hex" := c.hex];
    world := world["hx" := Slice(c.hex, 0, 2)];
    world := world["hy" := Slice(c.hex, 2, 4)];
    world := world["starport" := [c.uwp[0]]];
    world := world["diameter" := [c.uwp[1]]];
    world := world["atmosphere" := [c.uwp[2]]];
    world := world["hydrographics" := [c.uwp[3]]];
    world := world["population" := [c.uwp[4]]];
    world := world["government" := [c.uwp[5]]];
    world := world["lawlevel" := [c.uwp[6]]];
    world := world["techlevel" := [c.uwp[8]]];
    world := world["zone" := c.zone];
    world := world["bases" := Join(Chars(c.bases), " ")];
    world := world["popmult" := [c.pbg[0]]];
    world := world["belts" := [c.pbg[1]]];
    world := world["gasgiants" := [c.pbg[2]]];
    assert world == BaseRecord(c);

    world := AddExtensions(world, c.ix, c.ex, c.cx);
    world := world["stars" := c.stars];
    world := world["worlds" := c.worlds];
    world := world["allegiance" := c.allegiance];
    var hw := Scan(HomeworldPattern, c.remarks);
    var rs := Scan(RacePattern, c.remarks);
    var os := Scan(OwnerPattern, c.remarks);
    world := AddRemarks(world, hw, rs, os, Words(c.remarks), c.sector, sophonts, sectors);
    return Ok(world);
  }

  /** The three anchored matches on the `{Ix}`, `(Ex)` and `[Cx]` columns. */
  method AddExtensions(w: Record, ixText: string, exText: string, cxText: string) returns (world: Record)
    ensures world == WithExtensions(w, ixText, exText, cxText)
  {
    world := w;
    var ix := ImportanceOf(ixText);
    if ix.Some? {
      world := world["importance" := ix.value.value];
    }
    var ex := EconomicsOf(exText);
    if ex.Some? {
      world := world["resources" := [ex.value.resources]];
      world := world["labour" := [ex.value.labour]];
      world := world["infrastructure" := [ex.value.infrastructure]];
      world := world["efficiency" := ex.value.efficiency];
    }
    var cx := CultureOf(cxText);
    if cx.Some? {
      world := world["heterogeneity" := [cx.value.heterogeneity]];
      world := world["acceptance" := [cx.value.acceptance]];
      world := world["strangeness" := [cx.value.strangeness]];
      world := world["symbols" := [cx.value.symbols]];
    }
  }

  /** The four scans of the Remarks column and the fields they fill. */
  method AddRemarks(w: Record, hw: seq<Token>, rs: seq<Token>, os: seq<Token>, words: seq<string>,
                    own: string, sophonts: map<string, string>, sectors: map<string, string>) returns (world: Record)
    requires AllShaped(HomeworldPattern, hw) && AllShaped(RacePattern, rs) && AllShaped(OwnerPattern, os)
    ensures world == WithScans(w, hw, rs, os, words, own, sophonts, sectors)
  {
    world := w;
    var homeworld, demographics, tradecodes := ScanHomeworlds(hw);
    var races := ScanRaces(rs, sophonts);
    demographics := demographics + races;
    world := AddList(world, "homeworld", homeworld);
    world := AddList(world, "demographics", demographics);
    world := ApplyOwners(world, os, own, sectors);
    var codes := CollectShortCodes(words);
    tradecodes := tradecodes + codes;
    world := world["tradecodes" := Join(tradecodes, " ")];
  }

  /** A non-empty list of entries is stored under `key`, joined by line breaks. */
  method AddList(w: Record, key: string, entries: seq<string>) returns (world: Record)
    ensures world == WithList(w, key, entries)
  {
    world := w;
    if |entries| > 0 {
      world := world[key := Join(entries, "<br/>")];
    }
  }

  lemma HomeworldScanStep(ts: seq<Token>, t: Token)
    requires AllShaped(HomeworldPattern, ts) && Shaped(HomeworldPattern, t)
    ensures AllShaped(HomeworldPattern, ts + [t])
    ensures Homeworlds(ts + [t]) == Homeworlds(ts) + [HomeworldEntry(t)]
    ensures HomeworldDemographics(ts + [t]) == HomeworldDemographics(ts)
      + (if t.extinct then [] else [Demographic(SophontName(t.race), HomeworldLabel(t))])
    ensures DiCodes(ts + [t]) == DiCodes(ts) + (if t.extinct then ["Di"] else [])
  {
    assert (ts + [t])[..|ts|] == ts;
  }

  /** The homeworld loop: each match adds a homeworld entry and either a
      demographics entry or, when extinct, a "Di" trade code. */
  method ScanHomeworlds(hw: seq<Token>) returns (homeworld: seq<string>, demographics: seq<string>, tradecodes: seq<string>)
    requires AllShaped(HomeworldPattern, hw)
    ensures homeworld == Homeworlds(hw)
    ensures demographics == HomeworldDemographics(hw)
    ensures tradecodes == DiCodes(hw)
  {
    homeworld, demographics, tradecodes := [], [], [];
    for i := 0 to |hw|
      invariant homeworld == Homeworlds(hw[..i])
      invariant demographics == HomeworldDemographics(hw[..i])
      invariant tradecodes == DiCodes(hw[..i])
    {
      var m := hw[i];
      var entry, demographic, code := HomeworldMatch(m);
      homeworld := homeworld + entry;
      demographics := demographics + demographic;
      tradecodes := tradecodes + code;
      assert hw[..i + 1] == hw[..i] + [m];
      HomeworldScanStep(hw[..i], m);
    }
    assert hw[..|hw|] == hw;
  }

  /** The body of the homeworld loop for one match: the homeworld entry, and
      the demographics entry or the "Di" code it appends. */
  method HomeworldMatch(m: Token) returns (entry: seq<string>, demographic: seq<string>, code: seq<string>)
    requires Shaped(HomeworldPattern, m)
    ensures entry == [HomeworldEntry(m)]
    ensures demographic == if m.extinct then [] else [Demographic(SophontName(m.race), HomeworldLabel(m))]
    ensures code == if m.extinct then ["Di"] else []
  {
    var sophont := SophontName(m.race);
    entry, demographic, code := [], [], [];
    if m.extinct {
      entry := ["[[" + sophont + " (extinct)|" + sophont + "]]"];
      code := ["Di"];
    } else if m.suffix != "" {
      entry := ["[[" + sophont + "]]"];
      demographic := [Demographic(sophont, Tenths(m.suffix[0]))];
    } else {
      entry := ["[[" + sophont + "]]"];
      demographic := [Demographic(sophont, "World")];
    }
  }

  /** The race loop: a demographics entry for each match whose code is a known sophont. */
  method ScanRaces(rs: seq<Token>, sophonts: map<string, string>) returns (demographics: seq<string>)
    requires AllShaped(RacePattern, rs)
    ensures demographics == RaceDemographics(rs, sophonts)
  {
    demographics := [];
    for i := 0 to |rs|
      invariant demographics == RaceDemographics(rs[..i], sophonts)
    {
      var m := rs[i];
      if m.code in sophonts {
        var sophont := sophonts[m.code];
        demographics := demographics + [Demographic(sophont, Tenths(m.tenth))];
      }
      assert rs[..i + 1][..i] == rs[..i];
    }
    assert rs[..|rs|] == rs;
  }

  /** The ownership loop over the record. */
  method ApplyOwners(w: Record, os: seq<Token>, own: string, sectors: map<string, string>) returns (world: Record)
    requires AllShaped(OwnerPattern, os)
    ensures world == OwnerFold(w, os, own, sectors)
  {
    world := w;
    for i := 0 to |os|
      invariant world == OwnerFold(w, os[..i], own, sectors)
    {
      var m := os[i];
      if m.prefix.Some? {
        if m.prefix.value in sectors {
          world := world["ownersector" := sectors[m.prefix.value]];
        }
      } else {
        world := world["ownersector" := own];
      }
      world := world["ownerhex" := m.hex];
      assert os[..i + 1][..i] == os[..i];
    }
    assert os[..|os|] == os;
  }

  /** The trade-code loop over the words of the Remarks. */
  method CollectShortCodes(words: seq<string>) returns (codes: seq<string>)
    ensures codes == ShortCodes(words)
  {
    codes := [];
    for i := 0 to |words|
      invariant codes == ShortCodes(words[..i])
    {
      var code := words[i];
      if |code| <= 3 {
        codes := codes + [code];
      }
      assert words[..i + 1][..i] == words[..i];
    }
    assert words[..|words|] == words;
  }
}
