/** `get_sector`: one record for a sector and one for each of its
    subsectors, built from the sector's metadata. */
module Sectors {
  import opened Outcomes
  import opened Records
  import opened Text

  datatype Subsector = Subsector(index: string, name: string)

  /** The parts of a sector's metadata the records use: the sector's names
      (the first is the one used), its position and its subsectors. */
  datatype Metadata = Metadata(names: seq<string>, x: int, y: int, subsectors: seq<Subsector>)

  /** The sector's first name; an empty name list is an `IndexError`. */
  function SectorTitle(m: Metadata): (r: Result<string>)
    ensures r.Ok? <==> |m.names| > 0
    ensures r.Ok? ==> r.value == m.names[0]
    ensures r.Err? ==> r.error == IndexError("Names")
  {
    if |m.names| == 0 then Err(IndexError("Names")) else Ok(m.names[0])
  }

  function SectorRecord(title: string, x: int, y: int): Record {
    map["title" := title, "sx" := IntToString(x), "sy" := IntToString(y), "tags" := "Sector"]
  }

  function SubsectorRecord(sector: string, sub: Subsector): Record {
    map["sector" := sector, "subsector" := sub.index, "name" := sub.name,
        "title" := sub.name + "/" + sector, "tags" := "Subsector"]
  }

  /** The subsector records, in metadata order. */
  function SubsectorRecords(sector: string, subs: seq<Subsector>): (rs: seq<Record>)
    ensures |rs| == |subs|
    ensures forall i :: 0 <= i < |subs| ==> rs[i] == SubsectorRecord(sector, subs[i])
  {
    if subs == [] then []
    else SubsectorRecords(sector, subs[..|subs| - 1]) + [SubsectorRecord(sector, subs[|subs| - 1])]
  }

  /** What `get_sector` returns: the sector record, then the subsectors'. */
  function SectorRecords(m: Metadata): Result<seq<Record>> {
    var title :- SectorTitle(m);
    Ok([SectorRecord(title, m.x, m.y)] + SubsectorRecords(title, m.subsectors))
  }

  /** `get_sector(metadata)`. */
  method GetSector(m: Metadata) returns (r: Result<seq<Record>>)
    ensures r == SectorRecords(m)
  {
    if |m.names| == 0 {
      return Err(IndexError("Names"));
    }
    var sector := map["title" := m.names[0]];
    sector := sector["sx" := IntToString(m.x)];
    sector := sector["sy" := IntToString(m.y)];
    sector := sector["tags" := "Sector"];
    var data := [sector];
    for i := 0 to |m.subsectors|
      invariant data == [SectorRecord(m.names[0], m.x, m.y)] + SubsectorRecords(m.names[0], m.subsectors[..i])
    {
      var sub := m.subsectors[i];
      var subsector := map["sector" := sector["title"]];
      subsector := subsector["subsector" := sub.index];
      subsector := subsector["name" := sub.name];
      subsector := subsector["title" := subsector["name"] + "/" + subsector["sector"]];
      subsector := subsector["tags" := "Subsector"];
      assert m.subsectors[..i + 1][..i] == m.subsectors[..i];
      data := data + [subsector];
    }
    assert m.subsectors[..|m.subsectors|] == m.subsectors;
    return Ok(data);
  }

  // ---------------------------------------------------------------- what the records promise

  /** The sector record comes first, with the sector's first name; one
      subsector record follows per subsector, in order. */
  lemma SectorRecordsShape(m: Metadata)
    ensures SectorRecords(m).Ok? <==> |m.names| > 0
    ensures SectorRecords(m).Err? ==> SectorRecords(m).error == IndexError("Names")
    ensures SectorRecords(m).Ok? ==>
      var rs := SectorRecords(m).value;
      && |rs| == 1 + |m.subsectors|
      && rs[0].Keys == {"title", "sx", "sy", "tags"}
      && rs[0]["title"] == m.names[0] && rs[0]["tags"] == "Sector"
  {
  }

  /** The sector record's position reads back as the metadata's. */
  lemma SectorPosition(m: Metadata)
    requires SectorRecords(m).Ok?
    ensures ParseInt(SectorRecords(m).value[0]["sx"]) == Ok(m.x)
    ensures ParseInt(SectorRecords(m).value[0]["sy"]) == Ok(m.y)
  {
    var r := SectorRecords(m).value[0];
    assert r == SectorRecord(m.names[0], m.x, m.y);
    assert r["sx"] == IntToString(m.x) && r["sy"] == IntToString(m.y);
    ParseIntToString(m.x);
    ParseIntToString(m.y);
  }

  /** Each subsector record carries the subsector's index and name and the
      sector's title, and is tagged as a subsector. */
  lemma SubsectorFields(m: Metadata, i: nat)
    requires SectorRecords(m).Ok? && i < |m.subsectors|
    ensures var r := SectorRecords(m).value[i + 1];
      && r.Keys == {"sector", "subsector", "name", "title", "tags"}
      && r["sector"] == m.names[0] && r["subsector"] == m.subsectors[i].index
      && r["name"] == m.subsectors[i].name && r["tags"] == "Subsector"
  {
    var rs := SubsectorRecords(m.names[0], m.subsectors);
    assert SectorRecords(m).value[i + 1] == rs[i];
  }

  /** A subsector's title splits at its first `/` back into the subsector's
      name and the sector's title, when the name has no `/` of its own. */
  lemma {:induction false} SubsectorTitleSplits(sector: string, sub: Subsector)
    requires '/' !in sub.name
    ensures var t := SubsectorRecord(sector, sub)["title"];
      exists p :: && 0 <= p < |t| && t[p] == '/' && '/' !in t[..p]
                  && t[..p] == sub.name && t[p + 1..] == sector
  {
    var t := SubsectorRecord(sector, sub)["title"];
    var p := |sub.name|;
    assert t[..p] == sub.name;
    assert t[p + 1..] == sector;
  }
}
