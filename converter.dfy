/** How the converter's pieces fit together: the records it builds for
    systems, sectors and routes keep to the canonical field order, so the
    final `tidy` never fails on them, and merging the route records into a
    sector's systems by hex never fails either. */
module Converter {
  import opened Outcomes
  import opened Records
  import Systems
  import SystemFacts
  import Routes
  import Merge
  import Tidy
  import Sectors


  /** Every field a record of the converter can have. */
  const FIELDS: set<string> :=
    SystemFacts.SYSTEM_KEYS + {"sx", "sy", "routes"}

  /** The canonical order places every field a system record can have. */
  lemma OrderPlacesSystemFields(k: string)
    requires k in SystemFacts.SYSTEM_KEYS
    ensures k in Tidy.ORDER
  {
  }

  lemma OrderPlacesFields(k: string)
    requires k in FIELDS
    ensures k in Tidy.ORDER
  {
    if k in SystemFacts.SYSTEM_KEYS {
      OrderPlacesSystemFields(k);
    }
  }

  /** A parsed system record tidies. */
  lemma SystemTidies(row: Record, sophonts: map<string, string>, sectors: map<string, string>)
    requires Systems.SystemRecord(row, sophonts, sectors).Ok?
    ensures Systems.SystemRecord(row, sophonts, sectors).value.Keys <= FIELDS
    ensures Tidy.Tidied(Tidy.ORDER, Systems.SystemRecord(row, sophonts, sectors).value).Ok?
  {
    SystemFacts.SystemRecordOk(row, sophonts, sectors);
    SystemFacts.SystemRecordKeys(row, sophonts, sectors);
    var w := Systems.SystemRecord(row, sophonts, sectors).value;
    forall k | k in w
      ensures k in Tidy.ORDER
    {
      OrderPlacesSystemFields(k);
    }
  }

  /** A parsed system record carries its hex, the key the route records are
      merged on. */
  lemma SystemHasHex(row: Record, sophonts: map<string, string>, sectors: map<string, string>)
    requires Systems.SystemRecord(row, sophonts, sectors).Ok?
    ensures "hex" in Systems.SystemRecord(row, sophonts, sectors).value
  {
    SystemFacts.SystemRecordOk(row, sophonts, sectors);
    HexKept(row, sophonts, sectors);
  }

  lemma HexKept(row: Record, sophonts: map<string, string>, sectors: map<string, string>)
    requires SystemFacts.Parses(row, sectors)
    ensures "hex" in Systems.SystemRecord(row, sophonts, sectors).value
  {
    var c := SystemFacts.RowColumns(row, sectors);
    FixedHasHex(c);
    SystemFacts.RowField(row, sophonts, sectors, "hex");
  }

  lemma FixedHasHex(c: Systems.Columns)
    requires |c.uwp| >= 9 && |c.pbg| >= 3
    ensures "hex" in Systems.FixedRecord(c)
  {
    SystemFacts.BaseIdentity(c);
    SystemFacts.FixedKeep(c, "hex");
  }

  /** The sector and subsector records keep to the converter's fields. */
  lemma SectorFields(m: Sectors.Metadata, i: nat)
    requires Sectors.SectorRecords(m).Ok? && i < |Sectors.SectorRecords(m).value|
    ensures Sectors.SectorRecords(m).value[i].Keys <= FIELDS
  {
    Sectors.SectorRecordsShape(m);
    if i > 0 {
      Sectors.SubsectorFields(m, i - 1);
    }
  }

  /** One sector's output: its systems with the route records merged in by
      hex never fail to merge, and with the sector records before them they
      all tidy. */
  lemma SectorOutputTidies(systems: seq<Record>, sectorRecords: seq<Record>, routeRecords: seq<Record>)
    requires forall i :: 0 <= i < |systems| ==> "hex" in systems[i] && systems[i].Keys <= FIELDS
    requires forall i :: 0 <= i < |sectorRecords| ==> sectorRecords[i].Keys <= FIELDS
    requires forall i :: 0 <= i < |routeRecords| ==> routeRecords[i].Keys == {"hex", "routes"}
    ensures Merge.Merged(systems, routeRecords, "hex").Ok?
    ensures Tidy.Tidy(sectorRecords + Merge.Merged(systems, routeRecords, "hex").value).Ok?
  {
    Merge.MergedFails(systems, routeRecords, "hex");
    var merged := Merge.Merged(systems, routeRecords, "hex").value;
    forall i | 0 <= i < |merged|
      ensures merged[i].Keys <= FIELDS
    {
      Merge.MergedWithin(systems, routeRecords, "hex", FIELDS, i);
    }
    var all := sectorRecords + merged;
    forall i, k | 0 <= i < |all| && k in all[i]
      ensures k in Tidy.ORDER
    {
      OrderPlacesFields(k);
    }
    Tidy.TidyWithin(Tidy.ORDER, all);
  }
}
