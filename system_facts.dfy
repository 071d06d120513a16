/** What the world-row parser promises, stated about `SystemRecord` (and so,
    through `ParseSystem`'s postcondition, about the parser). */
module SystemFacts {
  import opened Outcomes
  import opened Text
  import opened Patterns
  import opened Systems
  import opened Records

  /** The columns the parser reads. */
  const COLUMNS: set<string> := {
    "Name", "Sector", "Hex", "SS", "UWP", "Zone", "Bases", "PBG",
    "{Ix}", "(Ex)", "[Cx]", "Stars", "W", "Allegiance", "Remarks"}

  /** The fields every parsed record has from fixed positions of the row. */
  const BASE_KEYS: set<string> := {
    "tags", "title", "name", "sector", "subsector", "hex", "hx", "hy",
    "starport", "diameter", "atmosphere", "hydrographics", "population", "government",
    "lawlevel", "techlevel", "zone", "bases", "popmult", "belts", "gasgiants"}

  /** The fields of the three extensions, present only when they match. */
  const EXTENSION_KEYS: set<string> := {
    "importance", "resources", "labour", "infrastructure", "efficiency",
    "heterogeneity", "acceptance", "strangeness", "symbols"}

  /** The fields copied from the Stars, W and Allegiance columns. */
  const COLUMN_KEYS: set<string> := {"stars", "worlds", "allegiance"}

  /** The fields the Remarks scans fill. */
  const REMARK_KEYS: set<string> := {"homeworld", "demographics", "ownersector", "ownerhex", "tradecodes"}

  /** Every field a parsed record can have. */
  const SYSTEM_KEYS: set<string> := BASE_KEYS + EXTENSION_KEYS + COLUMN_KEYS + REMARK_KEYS

  /** A row the parser accepts: every column it reads is there, the sector
      abbreviation is known, and the UWP and PBG codes are long enough. */
  predicate Parses(row: Record, sectors: map<string, string>) {
    && COLUMNS <= row.Keys
    && row["Sector"] in sectors
    && |row["UWP"]| >= 9 && |row["PBG"]| >= 3
  }

  /** The columns of a row the parser accepts. */
  function RowColumns(row: Record, sectors: map<string, string>): Columns
    requires Parses(row, sectors)
  {
    Columns(row["Name"], sectors[row["Sector"]], row["Hex"], row["SS"], row["UWP"], row["Zone"],
            row["Bases"], row["PBG"], row["{Ix}"], row["(Ex)"], row["[Cx]"], row["Stars"], row["W"],
            row["Allegiance"], row["Remarks"])
  }

  // ---------------------------------------------------------------- success and failure

  lemma ReadColumnsOk(row: Record, sectors: map<string, string>)
    ensures ReadColumns(row, sectors).Ok? <==> Parses(row, sectors)
    ensures Parses(row, sectors) ==> ReadColumns(row, sectors) == Ok(RowColumns(row, sectors))
  {
    if ReadColumns(row, sectors).Ok? {
      assert COLUMNS <= row.Keys;
    }
  }

  /** The parser succeeds exactly on the rows it accepts, and builds its
      record from their columns. */
  lemma SystemRecordOk(row: Record, sophonts: map<string, string>, sectors: map<string, string>)
    ensures SystemRecord(row, sophonts, sectors).Ok? <==> Parses(row, sectors)
    ensures Parses(row, sectors) ==>
      var c := RowColumns(row, sectors);
      SystemRecord(row, sophonts, sectors) == Ok(WithRemarks(FixedRecord(c), c.remarks, c.sector, sophonts, sectors))
  {
    ReadColumnsOk(row, sectors);
  }

  /** A failure is a missing column, an unknown sector abbreviation, or a
      UWP or PBG code too short to index. */
  lemma SystemRecordErrors(row: Record, sophonts: map<string, string>, sectors: map<string, string>)
    ensures var r := SystemRecord(row, sophonts, sectors);
      r.Err? ==> || (r.error.KeyError? && r.error.key in COLUMNS && r.error.key !in row)
                 || (r.error.KeyError? && "Sector" in row && r.error.key == row["Sector"] && row["Sector"] !in sectors)
                 || (r.error == IndexError("UWP") && "UWP" in row && |row["UWP"]| < 9)
                 || (r.error == IndexError("PBG") && "PBG" in row && |row["PBG"]| < 3)
  {
  }

  /** A sector abbreviation missing from the sector map stops the parser
      with a lookup error naming it. */
  lemma UnknownSector(row: Record, sophonts: map<string, string>, sectors: map<string, string>)
    requires "Name" in row && "Sector" in row && row["Sector"] !in sectors
    ensures SystemRecord(row, sophonts, sectors) == Err(KeyError(row["Sector"]))
  {
  }

  // ---------------------------------------------------------------- which fields, where from

  lemma BaseRecordKeys(c: Columns)
    requires |c.uwp| >= 9 && |c.pbg| >= 3
    ensures BaseRecord(c).Keys == BASE_KEYS
  {
  }

  lemma WithExtensionsKeys(w: Record, ix: string, ex: string, cx: string)
    ensures w.Keys <= WithExtensions(w, ix, ex, cx).Keys <= w.Keys + EXTENSION_KEYS
  {
  }

  /** The extensions touch only their own fields. */
  lemma ExtensionsKeep(w: Record, ix: string, ex: string, cx: string, k: string)
    requires k !in EXTENSION_KEYS
    ensures (k in WithExtensions(w, ix, ex, cx) <==> k in w)
    ensures k in w ==> WithExtensions(w, ix, ex, cx)[k] == w[k]
  {
  }

  lemma FixedRecordKeys(c: Columns)
    requires |c.uwp| >= 9 && |c.pbg| >= 3
    ensures FixedRecord(c).Keys <= BASE_KEYS + EXTENSION_KEYS + COLUMN_KEYS
  {
    var b := BaseRecord(c);
    BaseRecordKeys(c);
    WithExtensionsKeys(b, c.ix, c.ex, c.cx);
    var e := WithExtensions(b, c.ix, c.ex, c.cx);
    assert FixedRecord(c).Keys == e.Keys + COLUMN_KEYS;
  }

  /** Before the Remarks scans the record has none of their fields. */
  lemma FixedRecordNoLists(c: Columns)
    requires |c.uwp| >= 9 && |c.pbg| >= 3
    ensures "homeworld" !in FixedRecord(c) && "demographics" !in FixedRecord(c)
  {
    FixedRecordLacks(c, "homeworld");
    FixedRecordLacks(c, "demographics");
  }

  lemma FixedRecordNoOwner(c: Columns)
    requires |c.uwp| >= 9 && |c.pbg| >= 3
    ensures "ownersector" !in FixedRecord(c) && "ownerhex" !in FixedRecord(c)
  {
    FixedRecordLacks(c, "ownersector");
    FixedRecordLacks(c, "ownerhex");
  }

  /** A field of none of the fixed, extension or copied kinds is absent
      before the Remarks scans. */
  lemma FixedRecordLacks(c: Columns, k: string)
    requires |c.uwp| >= 9 && |c.pbg| >= 3
    requires k !in BASE_KEYS && k !in EXTENSION_KEYS && k !in COLUMN_KEYS
    ensures k !in FixedRecord(c)
  {
    BaseRecordKeys(c);
    ExtensionsKeep(BaseRecord(c), c.ix, c.ex, c.cx, k);
  }

  /** A field of the fixed positions survives the extensions and the three
      copied columns. */
  lemma FixedKeep(c: Columns, k: string)
    requires |c.uwp| >= 9 && |c.pbg| >= 3
    requires k in BaseRecord(c) && k !in EXTENSION_KEYS && k !in COLUMN_KEYS
    ensures k in FixedRecord(c) && FixedRecord(c)[k] == BaseRecord(c)[k]
  {
    ExtensionsKeep(BaseRecord(c), c.ix, c.ex, c.cx, k);
  }

  /** Outside the copied columns, the fixed record is the record with its
      extensions. */
  lemma FixedExtended(c: Columns, k: string)
    requires |c.uwp| >= 9 && |c.pbg| >= 3 && k !in COLUMN_KEYS
    ensures var e := WithExtensions(BaseRecord(c), c.ix, c.ex, c.cx);
      && (k in FixedRecord(c) <==> k in e) && (k in e ==> FixedRecord(c)[k] == e[k])
  {
  }

  lemma BaseLacks(c: Columns, k: string)
    requires |c.uwp| >= 9 && |c.pbg| >= 3 && k !in BASE_KEYS
    ensures k !in BaseRecord(c)
  {
    BaseRecordKeys(c);
  }

  /** The ownership matches touch only the two ownership fields. */
  lemma {:induction false} OwnerFoldKeeps(w: Record, ts: seq<Token>, own: string, sectors: map<string, string>)
    requires AllShaped(OwnerPattern, ts)
    ensures var v := OwnerFold(w, ts, own, sectors);
      && (forall k :: k in w ==> k in v)
      && (forall k :: k != "ownersector" && k != "ownerhex" ==> (k in v <==> k in w) && (k in w ==> v[k] == w[k]))
    decreases |ts|
  {
    if ts != [] {
      assert AllShaped(OwnerPattern, ts[..|ts| - 1]);
      OwnerFoldKeeps(w, ts[..|ts| - 1], own, sectors);
    }
  }

  /** The Remarks scans touch only the Remarks fields. */
  lemma WithScansKeeps(w: Record, hw: seq<Token>, rs: seq<Token>, os: seq<Token>, words: seq<string>,
                       own: string, sophonts: map<string, string>, sectors: map<string, string>)
    requires AllShaped(HomeworldPattern, hw) && AllShaped(RacePattern, rs) && AllShaped(OwnerPattern, os)
    ensures var v := WithScans(w, hw, rs, os, words, own, sophonts, sectors);
      && w.Keys <= v.Keys <= w.Keys + REMARK_KEYS
      && forall k :: k in w && k !in REMARK_KEYS ==> v[k] == w[k]
  {
    var w1 := WithList(w, "homeworld", Homeworlds(hw));
    var w2 := WithList(w1, "demographics", HomeworldDemographics(hw) + RaceDemographics(rs, sophonts));
    var w3 := OwnerFold(w2, os, own, sectors);
    var v := WithScans(w, hw, rs, os, words, own, sophonts, sectors);
    OwnerFoldKeeps(w2, os, own, sectors);
    assert v == w3["tradecodes" := Join(DiCodes(hw) + ShortCodes(words), " ")];
    forall k | k in v
      ensures k in w.Keys + REMARK_KEYS
    {
    }
    forall k | k in w && k !in REMARK_KEYS
      ensures k in v && v[k] == w[k]
    {
      assert w1[k] == w[k] && w2[k] == w[k];
    }
  }

  lemma RemarksKeep(w: Record, remarks: string, own: string, sophonts: map<string, string>,
                    sectors: map<string, string>, k: string)
    requires k !in REMARK_KEYS
    ensures (k in WithRemarks(w, remarks, own, sophonts, sectors) <==> k in w)
    ensures k in w ==> WithRemarks(w, remarks, own, sophonts, sectors)[k] == w[k]
  {
    WithScansKeeps(w, Scan(HomeworldPattern, remarks), Scan(RacePattern, remarks), Scan(OwnerPattern, remarks),
                   Words(remarks), own, sophonts, sectors);
  }

  /** Every field of a parsed record is one of the known fields. */
  lemma SystemRecordKeys(row: Record, sophonts: map<string, string>, sectors: map<string, string>)
    requires Parses(row, sectors)
    ensures SystemRecord(row, sophonts, sectors).value.Keys <= SYSTEM_KEYS
  {
    SystemRecordOk(row, sophonts, sectors);
    var c := RowColumns(row, sectors);
    FixedRecordKeys(c);
    var s := c.remarks;
    WithScansKeeps(FixedRecord(c), Scan(HomeworldPattern, s), Scan(RacePattern, s), Scan(OwnerPattern, s),
                   Words(s), c.sector, sophonts, sectors);
  }

  /** Outside the Remarks fields, the parsed record is the record of the row's
      fixed positions, extensions and copied columns. */
  lemma RowField(row: Record, sophonts: map<string, string>, sectors: map<string, string>, k: string)
    requires Parses(row, sectors) && k !in REMARK_KEYS
    ensures var w := SystemRecord(row, sophonts, sectors).value;
      var f := FixedRecord(RowColumns(row, sectors));
      (k in w <==> k in f) && (k in f ==> w[k] == f[k])
  {
    SystemRecordOk(row, sophonts, sectors);
    var c := RowColumns(row, sectors);
    RemarksKeep(FixedRecord(c), c.remarks, c.sector, sophonts, sectors, k);
  }

  /** Every fixed-position field of the parsed record is there and holds what
      the row's fixed positions give it. */
  lemma BaseField(row: Record, sophonts: map<string, string>, sectors: map<string, string>, k: string)
    requires Parses(row, sectors)
    requires k in BASE_KEYS && k !in EXTENSION_KEYS && k !in COLUMN_KEYS && k !in REMARK_KEYS
    ensures var w := SystemRecord(row, sophonts, sectors).value;
      k in w && w[k] == BaseRecord(RowColumns(row, sectors))[k]
  {
    SystemRecordOk(row, sophonts, sectors);
    var c := RowColumns(row, sectors);
    BaseRecordKeys(c);
    FixedKeep(c, k);
    RemarksKeep(FixedRecord(c), c.remarks, c.sector, sophonts, sectors, k);
  }

  // ---------------------------------------------------------------- title and copied columns

  /** The title is the name, a space unless the name is empty, then the
      sector's name and the hex in parentheses; the tags are "System"; the
      name, sector, subsector, hex and zone are the columns'. */
  lemma BaseIdentity(c: Columns)
    requires |c.uwp| >= 9 && |c.pbg| >= 3
    ensures var b := BaseRecord(c);
      && b["tags"] == "System"
      && b["title"] == (if c.name == "" then "" else c.name + " ") + "(" + c.sector + " " + c.hex + ")"
      && b["name"] == c.name && b["sector"] == c.sector && b["subsector"] == c.subsector
      && b["hex"] == c.hex && b["zone"] == c.zone
  {
    BaseTitle(c);
    BaseColumns(c);
  }

  lemma BaseTitle(c: Columns)
    requires |c.uwp| >= 9 && |c.pbg| >= 3
    ensures var b := BaseRecord(c);
      && b["tags"] == "System"
      && b["title"] == (if c.name == "" then "" else c.name + " ") + "(" + c.sector + " " + c.hex + ")"
  {
  }

  lemma BaseColumns(c: Columns)
    requires |c.uwp| >= 9 && |c.pbg| >= 3
    ensures var b := BaseRecord(c);
      && b["name"] == c.name && b["sector"] == c.sector && b["subsector"] == c.subsector
      && b["hex"] == c.hex && b["zone"] == c.zone
  {
  }

  /** The stars, world count and allegiance are copied from their columns,
      and the sector a row names is reported by its full name. */
  lemma CopiedColumns(row: Record, sectors: map<string, string>)
    requires Parses(row, sectors)
    ensures var c := RowColumns(row, sectors); var f := FixedRecord(c);
      && c.sector == sectors[row["Sector"]]
      && "stars" in f && f["stars"] == row["Stars"]
      && "worlds" in f && f["worlds"] == row["W"]
      && "allegiance" in f && f["allegiance"] == row["Allegiance"]
  {
  }

  /** Two systems with the same name in the same sector have the same title
      only if they are in the same hex. */
  lemma TitleDecodes(name: string, sector: string, h1: string, h2: string)
    requires Title(name, sector, h1) == Title(name, sector, h2)
    ensures h1 == h2
  {
    var p := (if name != "" then name + " " else name) + "(" + sector + " ";
    assert Title(name, sector, h1) == p + h1 + ")";
    assert Title(name, sector, h2) == p + h2 + ")";
    assert |h1| == |h2|;
    assert h1 == (p + h1 + ")")[|p|..|p| + |h1|];
    assert h2 == (p + h2 + ")")[|p|..|p| + |h2|];
  }

  // ---------------------------------------------------------------- fixed offsets

  /** The UWP fields are its characters 0 to 6 and 8 (7 is the dash); read
      back in order they give the code again. */
  lemma UwpOffsets(c: Columns)
    requires |c.uwp| >= 9 && |c.pbg| >= 3
    ensures var b := BaseRecord(c);
      && b["starport"] + b["diameter"] + b["atmosphere"] + b["hydrographics"]
           + b["population"] + b["government"] + b["lawlevel"] == c.uwp[..7]
      && b["techlevel"] == [c.uwp[8]]
  {
    var u := c.uwp;
    assert u[..7] == [u[0]] + [u[1]] + [u[2]] + [u[3]] + [u[4]] + [u[5]] + [u[6]];
  }

  /** The PBG fields are its first three characters, and hx and hy the two
      halves of the hex, clamped as Python slices are. */
  lemma PbgHexOffsets(c: Columns)
    requires |c.uwp| >= 9 && |c.pbg| >= 3
    ensures var b := BaseRecord(c);
      && b["popmult"] + b["belts"] + b["gasgiants"] == c.pbg[..3]
      && b["hx"] == Slice(c.hex, 0, 2) && b["hy"] == Slice(c.hex, 2, 4)
      && (|c.hex| >= 4 ==> b["hx"] + b["hy"] == c.hex[..4])
  {
    assert c.pbg[..3] == [c.pbg[0]] + [c.pbg[1]] + [c.pbg[2]];
    if |c.hex| >= 4 {
      assert c.hex[..4] == c.hex[0..2] + c.hex[2..4];
    }
  }

  /** The bases field spells each base code separated by single spaces, so
      splitting it gives the codes back one by one. */
  lemma BasesWords(c: Columns)
    requires |c.uwp| >= 9 && |c.pbg| >= 3 && NoSpace(c.bases)
    ensures Words(BaseRecord(c)["bases"]) == Chars(c.bases)
  {
    var cs := Chars(c.bases);
    forall k | 0 <= k < |cs|
      ensures cs[k] != "" && NoSpace(cs[k])
    {
      assert cs[k] == [c.bases[k]];
    }
    WordsOfJoin(cs);
  }

  // ---------------------------------------------------------------- extensions

  /** The importance field is present exactly when the `{Ix}` pattern matches
      at the start of its column, and then holds the matched value. */
  lemma ImportanceField(c: Columns)
    requires |c.uwp| >= 9 && |c.pbg| >= 3
    ensures var f := FixedRecord(c); var ix := ImportanceOf(c.ix);
      && ("importance" in f <==> ix.Some?)
      && (ix.Some? ==> f["importance"] == ix.value.value)
  {
    BaseLacks(c, "importance");
    ImportanceLayer(BaseRecord(c), c.ix, c.ex, c.cx);
    FixedExtended(c, "importance");
  }

  lemma ImportanceLayer(w: Record, ix: string, ex: string, cx: string)
    requires "importance" !in w
    ensures var f := WithExtensions(w, ix, ex, cx);
      && ("importance" in f <==> ImportanceOf(ix).Some?)
      && (ImportanceOf(ix).Some? ==> f["importance"] == ImportanceOf(ix).value.value)
  {
  }

  /** Before the extensions, the record has none of their fields. */
  lemma BaseNoEconomics(c: Columns)
    requires |c.uwp| >= 9 && |c.pbg| >= 3
    ensures var b := BaseRecord(c);
      "resources" !in b && "labour" !in b && "infrastructure" !in b && "efficiency" !in b
  {
  }

  lemma BaseNoCulture(c: Columns)
    requires |c.uwp| >= 9 && |c.pbg| >= 3
    ensures var b := BaseRecord(c);
      "heterogeneity" !in b && "acceptance" !in b && "strangeness" !in b && "symbols" !in b
  {
  }

  lemma EconomicsLayer(w: Record, ix: string, ex: string, cx: string)
    requires "resources" !in w && "labour" !in w && "infrastructure" !in w && "efficiency" !in w
    ensures var f := WithExtensions(w, ix, ex, cx); var e := EconomicsOf(ex);
      && ("resources" in f <==> e.Some?) && ("labour" in f <==> e.Some?)
      && ("infrastructure" in f <==> e.Some?) && ("efficiency" in f <==> e.Some?)
      && (e.Some? ==> f["resources"] == [e.value.resources] && f["labour"] == [e.value.labour]
                      && f["infrastructure"] == [e.value.infrastructure] && f["efficiency"] == e.value.efficiency)
  {
  }

  lemma CultureLayer(w: Record, ix: string, ex: string, cx: string)
    requires "heterogeneity" !in w && "acceptance" !in w && "strangeness" !in w && "symbols" !in w
    ensures var f := WithExtensions(w, ix, ex, cx); var x := CultureOf(cx);
      && ("heterogeneity" in f <==> x.Some?) && ("acceptance" in f <==> x.Some?)
      && ("strangeness" in f <==> x.Some?) && ("symbols" in f <==> x.Some?)
      && (x.Some? ==> f["heterogeneity"] == [x.value.heterogeneity] && f["acceptance"] == [x.value.acceptance]
                      && f["strangeness"] == [x.value.strangeness] && f["symbols"] == [x.value.symbols])
  {
  }

  /** The four economic fields are present exactly when the `(Ex)` pattern
      matches at the start of its column, and then hold its four groups. */
  lemma EconomicsFields(c: Columns)
    requires |c.uwp| >= 9 && |c.pbg| >= 3
    ensures var f := FixedRecord(c); var ex := EconomicsOf(c.ex);
      && ("resources" in f <==> ex.Some?) && ("labour" in f <==> ex.Some?)
      && ("infrastructure" in f <==> ex.Some?) && ("efficiency" in f <==> ex.Some?)
      && (ex.Some? ==> f["resources"] == [ex.value.resources] && f["labour"] == [ex.value.labour]
                       && f["infrastructure"] == [ex.value.infrastructure] && f["efficiency"] == ex.value.efficiency)
  {
    BaseNoEconomics(c);
    EconomicsLayer(BaseRecord(c), c.ix, c.ex, c.cx);
  }

  /** The four cultural fields are present exactly when the `[Cx]` pattern
      matches at the start of its column, and then hold its four groups. */
  lemma CultureFields(c: Columns)
    requires |c.uwp| >= 9 && |c.pbg| >= 3
    ensures var f := FixedRecord(c); var cx := CultureOf(c.cx);
      && ("heterogeneity" in f <==> cx.Some?) && ("acceptance" in f <==> cx.Some?)
      && ("strangeness" in f <==> cx.Some?) && ("symbols" in f <==> cx.Some?)
      && (cx.Some? ==> f["heterogeneity"] == [cx.value.heterogeneity] && f["acceptance"] == [cx.value.acceptance]
                       && f["strangeness"] == [cx.value.strangeness] && f["symbols"] == [cx.value.symbols])
  {
    BaseNoCulture(c);
    CultureLayer(BaseRecord(c), c.ix, c.ex, c.cx);
  }

  // ---------------------------------------------------------------- the Remarks scans

  /** The record the parser hands to the Remarks scans has none of their fields. */
  lemma SystemRecordRemarks(row: Record, sophonts: map<string, string>, sectors: map<string, string>)
    requires Parses(row, sectors)
    ensures var c := RowColumns(row, sectors);
      && SystemRecord(row, sophonts, sectors).value == WithRemarks(FixedRecord(c), row["Remarks"], c.sector, sophonts, sectors)
      && "homeworld" !in FixedRecord(c) && "demographics" !in FixedRecord(c)
      && "ownersector" !in FixedRecord(c) && "ownerhex" !in FixedRecord(c)
  {
    SystemRecordOk(row, sophonts, sectors);
    var c := RowColumns(row, sectors);
    FixedRecordNoLists(c);
    FixedRecordNoOwner(c);
  }

  /** Every homeworld match gives one homeworld entry, and either a
      demographics entry or (extinct) a "Di" trade code, never both. */
  lemma {:induction false} HomeworldCounts(ts: seq<Token>)
    requires AllShaped(HomeworldPattern, ts)
    ensures |Homeworlds(ts)| == |ts|
    ensures |HomeworldDemographics(ts)| + |DiCodes(ts)| == |ts|
    ensures forall k :: 0 <= k < |DiCodes(ts)| ==> DiCodes(ts)[k] == "Di"
    decreases |ts|
  {
    if ts != [] {
      HomeworldCounts(ts[..|ts| - 1]);
    }
  }

  /** A homeworld suffix "W" labels the demographics entry exactly as no
      suffix does. */
  lemma WholeWorldSuffix(extinct: bool, open: char, race: string, close: char)
    requires Shaped(HomeworldPattern, Homeworld(extinct, open, race, close, ""))
    ensures HomeworldLabel(Homeworld(extinct, open, race, close, "W"))
         == HomeworldLabel(Homeworld(extinct, open, race, close, ""))
  {
  }

  /** A population digit written inside the brackets is part of the race
      name: "(Vargr2)" names the race "Vargr2" and has no suffix. */
  lemma DigitInsideBrackets()
    ensures MatchAt(HomeworldPattern, "(Vargr2) O:1234", 0) == Some(Homeworld(false, '(', "Vargr2", ')', ""))
  {
    var s := "(Vargr2) O:1234";
    assert !PrefixAt(s, 0, "Di") by { assert s[0] != 'D'; }
    CloserFromIs(s, 1, 7);
    assert s[1..7] == "Vargr2";
    assert !IsTenth(s[8]) by { assert s[8] == ' '; }
  }

  /** ... so it gives the whole-world demographics entry for "Vargr2". */
  lemma DigitInsideBracketsEntry()
    ensures HomeworldDemographics([Homeworld(false, '(', "Vargr2", ')', "")]) == ["[[Vargr2 World|Vargr2]]"]
  {
    var t := Homeworld(false, '(', "Vargr2", ')', "");
    assert [t][..0] == [];
    assert "Vargr2" != "minor" && "Vargr2" != "Hminor" by { assert |"Vargr2"| == 6; }
    assert SophontName("Vargr2") == "Vargr2";
    assert HomeworldLabel(t) == "World";
    assert Demographic("Vargr2", "World") == "[[Vargr2 World|Vargr2]]";
  }

  /** An extinct "Hminor" homeworld, even between mismatched brackets, is
      shown as an extinct human minor race, adds a "Di" trade code and no
      demographics entry. */
  lemma ExtinctMinorRace()
    ensures var t := Homeworld(true, '(', "Hminor", ']', "");
      && Shaped(HomeworldPattern, t)
      && Homeworlds([t]) == ["[[" + "Human Minor Race" + " (extinct)|" + "Human Minor Race" + "]]"]
      && HomeworldDemographics([t]) == [] && DiCodes([t]) == ["Di"]
  {
    var t := Homeworld(true, '(', "Hminor", ']', "");
    assert [t][..0] == [];
    assert SophontName("Hminor") == "Human Minor Race";
  }

  /** A "minor" homeworld with a tenths digit is shown as a minor race with
      that share of the population. */
  lemma MinorRaceShare()
    ensures var t := Homeworld(false, '[', "minor", ']', "3");
      && Shaped(HomeworldPattern, t)
      && Homeworlds([t]) == ["[[" + "Minor Race" + "]]"]
      && HomeworldDemographics([t]) == [Demographic("Minor Race", "(30%)")] && DiCodes([t]) == []
  {
    var t := Homeworld(false, '[', "minor", ']', "3");
    assert [t][..0] == [];
    assert SophontName("minor") == "Minor Race";
    assert HomeworldLabel(t) == "(30%)";
  }

  /** Race matches give at most one entry each, and exactly one each when
      every code is a known sophont; unknown codes give none. */
  lemma {:induction false} RaceDemographicsKnown(ts: seq<Token>, sophonts: map<string, string>)
    requires AllShaped(RacePattern, ts)
    ensures |RaceDemographics(ts, sophonts)| <= |ts|
    ensures |RaceDemographics(ts, sophonts)| == |ts| <==> forall k :: 0 <= k < |ts| ==> ts[k].code in sophonts
    ensures (forall k :: 0 <= k < |ts| ==> ts[k].code !in sophonts) ==> RaceDemographics(ts, sophonts) == []
    decreases |ts|
  {
    if ts != [] {
      var init := ts[..|ts| - 1];
      RaceDemographicsKnown(init, sophonts);
      if forall k :: 0 <= k < |ts| ==> ts[k].code in sophonts {
        assert forall k :: 0 <= k < |init| ==> init[k].code in sophonts by {
          forall k | 0 <= k < |init| ensures init[k].code in sophonts { assert init[k] == ts[k]; }
        }
      }
      if forall k :: 0 <= k < |ts| ==> ts[k].code !in sophonts {
        assert forall k :: 0 <= k < |init| ==> init[k].code !in sophonts by {
          forall k | 0 <= k < |init| ensures init[k].code !in sophonts { assert init[k] == ts[k]; }
        }
      }
      if |RaceDemographics(ts, sophonts)| == |ts| {
        forall k | 0 <= k < |ts| ensures ts[k].code in sophonts {
          if k < |init| { assert init[k] == ts[k]; }
        }
      }
    }
  }

  /** The homeworld field is there exactly when the homeworld scan matches,
      the demographics field exactly when some entry was collected; each is
      its entries joined by "<br/>" in order of discovery. */
  lemma ScanLists(w: Record, hw: seq<Token>, rs: seq<Token>, os: seq<Token>, words: seq<string>,
                  own: string, sophonts: map<string, string>, sectors: map<string, string>)
    requires AllShaped(HomeworldPattern, hw) && AllShaped(RacePattern, rs) && AllShaped(OwnerPattern, os)
    requires "homeworld" !in w && "demographics" !in w
    ensures var v := WithScans(w, hw, rs, os, words, own, sophonts, sectors);
      var ds := HomeworldDemographics(hw) + RaceDemographics(rs, sophonts);
      && ("homeworld" in v <==> hw != [])
      && (hw != [] ==> v["homeworld"] == Join(Homeworlds(hw), "<br/>"))
      && ("demographics" in v <==> ds != [])
      && (ds != [] ==> v["demographics"] == Join(ds, "<br/>"))
  {
    HomeworldCounts(hw);
    var ds := HomeworldDemographics(hw) + RaceDemographics(rs, sophonts);
    var w1 := WithList(w, "homeworld", Homeworlds(hw));
    var w2 := WithList(w1, "demographics", ds);
    WithListField(w, "homeworld", Homeworlds(hw), "demographics");
    WithListField(w1, "demographics", ds, "homeworld");
    var w3 := OwnerFold(w2, os, own, sectors);
    OwnerFoldKeeps(w2, os, own, sectors);
    assert WithScans(w, hw, rs, os, words, own, sophonts, sectors)
        == w3["tradecodes" := Join(DiCodes(hw) + ShortCodes(words), " ")];
  }

  /** A list field is set exactly when the list has entries; nothing else changes. */
  lemma WithListField(w: Record, key: string, entries: seq<string>, other: string)
    requires other != key
    ensures var v := WithList(w, key, entries);
      && (key in v <==> key in w || entries != [])
      && (entries != [] ==> v[key] == Join(entries, "<br/>"))
      && (other in v <==> other in w) && (other in w ==> v[other] == w[other])
  {
  }


  lemma ListFields(row: Record, sophonts: map<string, string>, sectors: map<string, string>)
    requires Parses(row, sectors)
    ensures var w := SystemRecord(row, sophonts, sectors).value;
      var hw := Scan(HomeworldPattern, row["Remarks"]);
      var ds := HomeworldDemographics(hw) + RaceDemographics(Scan(RacePattern, row["Remarks"]), sophonts);
      && ("homeworld" in w <==> hw != [])
      && (hw != [] ==> w["homeworld"] == Join(Homeworlds(hw), "<br/>"))
      && ("demographics" in w <==> ds != [])
      && (ds != [] ==> w["demographics"] == Join(ds, "<br/>"))
  {
    SystemRecordRemarks(row, sophonts, sectors);
    var c := RowColumns(row, sectors);
    var s := row["Remarks"];
    ScanLists(FixedRecord(c), Scan(HomeworldPattern, s), Scan(RacePattern, s), Scan(OwnerPattern, s),
              Words(s), c.sector, sophonts, sectors);
  }

  // ---------------------------------------------------------------- ownership

  /** The owning sector one ownership match names: the row's own sector
      without a prefix, the prefix's sector when the map knows it, and none
      otherwise. */
  function Resolve(t: Token, own: string, sectors: map<string, string>): Option<string>
    requires t.Owner?
  {
    if t.prefix.None? then Some(own)
    else if t.prefix.value in sectors then Some(sectors[t.prefix.value])
    else None
  }

  /** The owning sector of the last match that names one, searched from the front. */
  function LastResolved(ts: seq<Token>, own: string, sectors: map<string, string>): Option<string>
    requires AllShaped(OwnerPattern, ts)
  {
    if ts == [] then None
    else
      match LastResolved(ts[1..], own, sectors)
      case Some(v) => Some(v)
      case None => Resolve(ts[0], own, sectors)
  }

  lemma {:induction false} LastResolvedSnoc(ts: seq<Token>, t: Token, own: string, sectors: map<string, string>)
    requires AllShaped(OwnerPattern, ts) && Shaped(OwnerPattern, t)
    ensures AllShaped(OwnerPattern, ts + [t])
    ensures LastResolved(ts + [t], own, sectors)
         == if Resolve(t, own, sectors).Some? then Resolve(t, own, sectors) else LastResolved(ts, own, sectors)
    decreases |ts|
  {
    if ts == [] {
      assert ([t])[1..] == [];
    } else {
      assert (ts + [t])[1..] == ts[1..] + [t];
      LastResolvedSnoc(ts[1..], t, own, sectors);
    }
  }

  /** After the ownership loop, `ownerhex` is the hex of the last match and
      `ownersector` the sector named by the last match that names one; with
      no such match the fields keep what they had. */
  lemma {:induction false} OwnerFoldLast(w: Record, ts: seq<Token>, own: string, sectors: map<string, string>)
    requires AllShaped(OwnerPattern, ts)
    ensures var v := OwnerFold(w, ts, own, sectors);
      && (ts != [] ==> "ownerhex" in v && v["ownerhex"] == ts[|ts| - 1].hex)
      && (ts == [] ==> v == w)
      && (LastResolved(ts, own, sectors).Some? ==> "ownersector" in v && v["ownersector"] == LastResolved(ts, own, sectors).value)
      && (LastResolved(ts, own, sectors).None? ==>
            ("ownersector" in v <==> "ownersector" in w) && ("ownersector" in w ==> v["ownersector"] == w["ownersector"]))
    decreases |ts|
  {
    if ts != [] {
      var init := ts[..|ts| - 1];
      var t := ts[|ts| - 1];
      assert AllShaped(OwnerPattern, init);
      var u := OwnerFold(w, init, own, sectors);
      assert OwnerFold(w, ts, own, sectors) == OwnerStep(u, t, own, sectors);
      OwnerFoldLast(w, init, own, sectors);
      OwnerStepFields(u, t, own, sectors);
      assert init + [t] == ts;
      LastResolvedSnoc(init, t, own, sectors);
    }
  }

  /** One ownership match sets `ownerhex`, and sets `ownersector` exactly
      when it names a sector. */
  lemma OwnerStepFields(u: Record, t: Token, own: string, sectors: map<string, string>)
    requires t.Owner?
    ensures var v := OwnerStep(u, t, own, sectors);
      && "ownerhex" in v && v["ownerhex"] == t.hex
      && (Resolve(t, own, sectors).Some? ==> "ownersector" in v && v["ownersector"] == Resolve(t, own, sectors).value)
      && (Resolve(t, own, sectors).None? ==>
            ("ownersector" in v <==> "ownersector" in u) && ("ownersector" in u ==> v["ownersector"] == u["ownersector"]))
  {
  }

  lemma ScanOwners(w: Record, hw: seq<Token>, rs: seq<Token>, os: seq<Token>, words: seq<string>,
                   own: string, sophonts: map<string, string>, sectors: map<string, string>)
    requires AllShaped(HomeworldPattern, hw) && AllShaped(RacePattern, rs) && AllShaped(OwnerPattern, os)
    requires "ownersector" !in w && "ownerhex" !in w
    ensures var v := WithScans(w, hw, rs, os, words, own, sophonts, sectors);
      var owner := LastResolved(os, own, sectors);
      && ("ownerhex" in v <==> os != [])
      && (os != [] ==> v["ownerhex"] == os[|os| - 1].hex)
      && ("ownersector" in v <==> owner.Some?)
      && (owner.Some? ==> v["ownersector"] == owner.value)
  {
    var w1 := WithList(w, "homeworld", Homeworlds(hw));
    var w2 := WithList(w1, "demographics", HomeworldDemographics(hw) + RaceDemographics(rs, sophonts));
    assert "ownersector" !in w2 && "ownerhex" !in w2;
    OwnerFoldLast(w2, os, own, sectors);
  }

  /** The ownership fields of a parsed record: both absent without an
      ownership match; `ownerhex` from the last match; `ownersector` from the
      last match that names a known sector or has no prefix, and absent if
      none does. */
  lemma OwnerFields(row: Record, sophonts: map<string, string>, sectors: map<string, string>)
    requires Parses(row, sectors)
    ensures var w := SystemRecord(row, sophonts, sectors).value;
      var os := Scan(OwnerPattern, row["Remarks"]);
      var owner := LastResolved(os, sectors[row["Sector"]], sectors);
      && ("ownerhex" in w <==> os != [])
      && (os != [] ==> w["ownerhex"] == os[|os| - 1].hex)
      && ("ownersector" in w <==> owner.Some?)
      && (owner.Some? ==> w["ownersector"] == owner.value)
  {
    SystemRecordRemarks(row, sophonts, sectors);
    var c := RowColumns(row, sectors);
    var s := row["Remarks"];
    ScanOwners(FixedRecord(c), Scan(HomeworldPattern, s), Scan(RacePattern, s), Scan(OwnerPattern, s),
               Words(s), c.sector, sophonts, sectors);
  }

  // ---------------------------------------------------------------- trade codes

  /** The short codes are exactly the words of at most three characters. */
  lemma {:induction false} ShortCodesAre(ws: seq<string>)
    ensures forall x :: x in ShortCodes(ws) <==> x in ws && |x| <= 3
    decreases |ws|
  {
    if ws != [] {
      ShortCodesAre(ws[..|ws| - 1]);
      assert ws == ws[..|ws| - 1] + [ws[|ws| - 1]];
    }
  }

  /** No "Di" code is empty or holds a space. */
  lemma DiCodesAreWords(hw: seq<Token>)
    requires AllShaped(HomeworldPattern, hw)
    ensures forall k :: 0 <= k < |DiCodes(hw)| ==> DiCodes(hw)[k] != "" && NoSpace(DiCodes(hw)[k])
  {
    HomeworldCounts(hw);
    assert !IsSpace('D') && !IsSpace('i');
    assert NoSpace("Di");
  }

  /** No short code is empty or holds a space when no word does. */
  lemma {:induction false} ShortCodesAreWords(ws: seq<string>)
    requires forall k :: 0 <= k < |ws| ==> ws[k] != "" && NoSpace(ws[k])
    ensures forall k :: 0 <= k < |ShortCodes(ws)| ==> ShortCodes(ws)[k] != "" && NoSpace(ShortCodes(ws)[k])
    decreases |ws|
  {
    if ws != [] {
      ShortCodesAreWords(ws[..|ws| - 1]);
    }
  }

  /** The trade codes are words, so splitting their space-joined list gives
      them back. */
  lemma TradeCodeWords(hw: seq<Token>, ws: seq<string>)
    requires AllShaped(HomeworldPattern, hw)
    requires forall k :: 0 <= k < |ws| ==> ws[k] != "" && NoSpace(ws[k])
    ensures Words(Join(DiCodes(hw) + ShortCodes(ws), " ")) == DiCodes(hw) + ShortCodes(ws)
  {
    var di := DiCodes(hw);
    var short := ShortCodes(ws);
    DiCodesAreWords(hw);
    ShortCodesAreWords(ws);
    var codes := di + short;
    forall k | 0 <= k < |codes|
      ensures codes[k] != "" && NoSpace(codes[k])
    {
      if k < |di| {
        assert codes[k] == di[k];
      } else {
        assert codes[k] == short[k - |di|];
      }
    }
    WordsOfJoin(codes);
  }

  lemma ScanTradeCodes(w: Record, hw: seq<Token>, rs: seq<Token>, os: seq<Token>, s: string,
                       own: string, sophonts: map<string, string>, sectors: map<string, string>)
    requires AllShaped(HomeworldPattern, hw) && AllShaped(RacePattern, rs) && AllShaped(OwnerPattern, os)
    ensures var v := WithScans(w, hw, rs, os, Words(s), own, sophonts, sectors);
      "tradecodes" in v && Words(v["tradecodes"]) == DiCodes(hw) + ShortCodes(Words(s))
  {
    TradeCodeWords(hw, Words(s));
  }

  /** The trade codes field is always there; splitting it gives the "Di"
      codes of the extinct homeworld matches, in order, then every Remarks
      word of at most three characters, in order, duplicates kept. */
  lemma TradeCodes(row: Record, sophonts: map<string, string>, sectors: map<string, string>)
    requires Parses(row, sectors)
    ensures var w := SystemRecord(row, sophonts, sectors).value;
      var s := row["Remarks"];
      && "tradecodes" in w
      && Words(w["tradecodes"]) == DiCodes(Scan(HomeworldPattern, s)) + ShortCodes(Words(s))
  {
    SystemRecordRemarks(row, sophonts, sectors);
    var c := RowColumns(row, sectors);
    var s := row["Remarks"];
    ScanTradeCodes(FixedRecord(c), Scan(HomeworldPattern, s), Scan(RacePattern, s), Scan(OwnerPattern, s),
                   s, c.sector, sophonts, sectors);
  }
}
