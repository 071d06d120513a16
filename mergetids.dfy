/** The `mergetids` script: a primary and a secondary list of tiddlers
    merged on a key field, `title` unless another field is named. */
module MergeTids {
  import opened Outcomes
  import opened Records
  import Merge

  type Tiddler = Record

  const DEFAULT_KEY: string := "title"

  /** The key field: the one named on the command line, else `title`. */
  function KeyField(named: Option<string>): (key: string)
    ensures named.Some? ==> key == named.value
    ensures named.None? ==> key == DEFAULT_KEY
  {
    named.GetOr(DEFAULT_KEY)
  }

  /** The script's two loops: the index of the secondary tiddlers, then each
      primary tiddler copied and updated from it. */
  method MergeTiddlers(pritids: seq<Tiddler>, addtids: seq<Tiddler>, named: Option<string>)
    returns (outtids: Result<seq<Tiddler>>)
    ensures outtids == Merge.Merged(pritids, addtids, KeyField(named))
  {
    var key := KeyField(named);
    outtids := Merge.MergeByKey(pritids, addtids, key);
  }

  /** Without a named key, tiddlers are matched by title: every output
      tiddler keeps its primary's title and takes the fields of the last
      secondary tiddler with that title. */
  lemma MergedByTitle(pritids: seq<Tiddler>, addtids: seq<Tiddler>, i: nat)
    requires Merge.Merged(pritids, addtids, KeyField(None)).Ok? && i < |pritids|
    ensures var out := Merge.Merged(pritids, addtids, "title").value;
      && out[i]["title"] == pritids[i]["title"]
      && forall j :: 0 <= j < |addtids| && addtids[j]["title"] == pritids[i]["title"] &&
                     (forall m :: j < m < |addtids| ==> addtids[m]["title"] != pritids[i]["title"])
                     ==> out[i] == Merge.Overlay(pritids[i], addtids[j])
  {
    Merge.MergedKeepsKey(pritids, addtids, "title", i);
    Merge.MergedShape(pritids, addtids, "title", i);
  }
}
