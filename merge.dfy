/** Merge-by-key: the fields of a secondary list of records are laid over
    the primary records that share their value of a key field. */
module Merge {
  import opened Outcomes
  import opened Records

  predicate AllKeyed(ts: seq<Record>, key: string) {
    forall i :: 0 <= i < |ts| ==> key in ts[i]
  }

  /** `dict.update`: the fields of `s` over a copy of `p`. */
  function Overlay(p: Record, s: Record): (r: Record)
    ensures r.Keys == p.Keys + s.Keys
    ensures forall k :: k in s ==> r[k] == s[k]
    ensures forall k :: k in p && k !in s ==> r[k] == p[k]
  {
    p + s
  }

  /** The index of the secondary records by key value; a later record with
      the same value replaces an earlier one. */
  function Index(sec: seq<Record>, key: string): (r: Result<map<string, Record>>)
    ensures r.Ok? <==> AllKeyed(sec, key)
    ensures r.Err? ==> r.error == KeyError(key)
  {
    if sec == [] then Ok(map[])
    else
      var idx :- Index(sec[..|sec| - 1], key);
      var t := sec[|sec| - 1];
      var v :- Get(t, key);
      Ok(idx[v := t])
  }

  /** One primary record merged: overlaid with the indexed record of its key
      value if there is one, copied unchanged otherwise. */
  function MergeOne(p: Record, idx: map<string, Record>, key: string): Result<Record> {
    var v :- Get(p, key);
    Ok(if v in idx then Overlay(p, idx[v]) else p)
  }

  /** The primary records merged one by one, in their order. */
  function MergeAll(pri: seq<Record>, idx: map<string, Record>, key: string): (r: Result<seq<Record>>)
    ensures r.Ok? <==> AllKeyed(pri, key)
    ensures r.Err? ==> r.error == KeyError(key)
    ensures r.Ok? ==> |r.value| == |pri|
    ensures r.Ok? ==> forall i :: 0 <= i < |pri| ==> MergeOne(pri[i], idx, key) == Ok(r.value[i])
  {
    if pri == [] then Ok([])
    else
      var out :- MergeAll(pri[..|pri| - 1], idx, key);
      var t :- MergeOne(pri[|pri| - 1], idx, key);
      Ok(out + [t])
  }

  /** The whole merge: the index of the secondary records, then the merged
      primary records. */
  function Merged(pri: seq<Record>, sec: seq<Record>, key: string): Result<seq<Record>> {
    var idx :- Index(sec, key);
    MergeAll(pri, idx, key)
  }

  // ---------------------------------------------------------------- the loops

  lemma {:induction false} IndexStop(sec: seq<Record>, key: string, i: nat)
    requires i < |sec| && key !in sec[i]
    ensures Index(sec, key) == Err(KeyError(key))
  {
  }

  /** The index loop: each secondary record is stored under its key value. */
  method BuildIndex(sec: seq<Record>, key: string) returns (r: Result<map<string, Record>>)
    ensures r == Index(sec, key)
  {
    var index: map<string, Record> := map[];
    for i := 0 to |sec|
      invariant Index(sec[..i], key) == Ok(index)
    {
      var t := sec[i];
      if key !in t {
        IndexStop(sec, key, i);
        return Err(KeyError(key));
      }
      assert sec[..i + 1][..i] == sec[..i];
      index := index[t[key] := t];
    }
    assert sec[..|sec|] == sec;
    return Ok(index);
  }

  lemma MergeAllSnoc(pri: seq<Record>, i: nat, idx: map<string, Record>, key: string, out: seq<Record>)
    requires i < |pri| && MergeAll(pri[..i], idx, key) == Ok(out) && MergeOne(pri[i], idx, key).Ok?
    ensures MergeAll(pri[..i + 1], idx, key) == Ok(out + [MergeOne(pri[i], idx, key).value])
  {
    assert pri[..i + 1][..i] == pri[..i];
  }

  /** The overlay loop: each primary record is copied, updated from the
      index when its key value is there, and appended to the output. */
  method MergeRecords(pri: seq<Record>, index: map<string, Record>, key: string) returns (r: Result<seq<Record>>)
    ensures r == MergeAll(pri, index, key)
  {
    var out: seq<Record> := [];
    for i := 0 to |pri|
      invariant MergeAll(pri[..i], index, key) == Ok(out)
    {
      var t := pri[i];
      if key !in t {
        return Err(KeyError(key));
      }
      var copy := t;
      if t[key] in index {
        copy := copy + index[t[key]];
      }
      MergeAllSnoc(pri, i, index, key, out);
      out := out + [copy];
    }
    assert pri[..|pri|] == pri;
    return Ok(out);
  }

  /** `merge(pritids, addtids, key)`. */
  method MergeByKey(pri: seq<Record>, sec: seq<Record>, key: string) returns (r: Result<seq<Record>>)
    ensures r == Merged(pri, sec, key)
  {
    var index :- BuildIndex(sec, key);
    r := MergeRecords(pri, index, key);
  }

  // ---------------------------------------------------------------- what the merge promises

  /** The index of a nonempty list: the index of all but the last record,
      with the last record stored under its key value. */
  lemma IndexSnoc(sec: seq<Record>, key: string)
    requires Index(sec, key).Ok? && sec != []
    ensures var init := sec[..|sec| - 1]; var t := sec[|sec| - 1];
      && Index(init, key).Ok? && key in t
      && Index(sec, key).value == Index(init, key).value[t[key] := t]
  {
  }

  /** The index holds exactly the key values of the secondary records. */
  lemma {:induction false} IndexKeys(sec: seq<Record>, key: string, v: string)
    requires Index(sec, key).Ok?
    ensures v in Index(sec, key).value <==> exists i :: 0 <= i < |sec| && sec[i][key] == v
    decreases |sec|
  {
    if sec != [] {
      var init := sec[..|sec| - 1];
      IndexSnoc(sec, key);
      IndexKeys(init, key, v);
      if exists i :: 0 <= i < |sec| && sec[i][key] == v {
        var i :| 0 <= i < |sec| && sec[i][key] == v;
        if i < |init| {
          assert init[i][key] == v;
        }
      }
      if v in Index(init, key).value {
        var i :| 0 <= i < |init| && init[i][key] == v;
        assert sec[i][key] == v;
      }
    }
  }

  /** An indexed key value maps to the last secondary record that has it. */
  lemma {:induction false} IndexLatest(sec: seq<Record>, key: string, v: string)
    requires Index(sec, key).Ok? && v in Index(sec, key).value
    ensures var idx := Index(sec, key).value;
      exists i :: && 0 <= i < |sec| && sec[i] == idx[v] && sec[i][key] == v
                  && forall j :: i < j < |sec| ==> sec[j][key] != v
    decreases |sec|
  {
    var init := sec[..|sec| - 1];
    var t := sec[|sec| - 1];
    IndexSnoc(sec, key);
    var idx := Index(sec, key).value;
    if t[key] == v {
      assert sec[|sec| - 1] == idx[v];
    } else {
      var before := Index(init, key).value;
      assert v in before && idx[v] == before[v];
      IndexLatest(init, key, v);
      var i :| && 0 <= i < |init| && init[i] == before[v] && init[i][key] == v
               && forall j :: i < j < |init| ==> init[j][key] != v;
      assert sec[i] == init[i];
      assert forall j :: i < j < |sec| ==> sec[j][key] != v by {
        forall j | i < j < |sec|
          ensures sec[j][key] != v
        {
          if j < |init| {
            assert sec[j] == init[j];
          }
        }
      }
    }
  }

  /** The index holds exactly the key values of the secondary records, each
      mapped to the last record that has it. */
  lemma IndexLast(sec: seq<Record>, key: string, v: string)
    requires Index(sec, key).Ok?
    ensures var idx := Index(sec, key).value;
      && (v in idx <==> exists i :: 0 <= i < |sec| && sec[i][key] == v)
      && (v in idx ==> exists i :: && 0 <= i < |sec| && sec[i] == idx[v] && sec[i][key] == v
                                  && forall j :: i < j < |sec| ==> sec[j][key] != v)
  {
    IndexKeys(sec, key, v);
    if v in Index(sec, key).value {
      IndexLatest(sec, key, v);
    }
  }

  /** The merge fails exactly when a record of either list lacks the key,
      and then with a `KeyError` for it. */
  lemma MergedFails(pri: seq<Record>, sec: seq<Record>, key: string)
    ensures Merged(pri, sec, key).Ok? <==> AllKeyed(pri, key) && AllKeyed(sec, key)
    ensures Merged(pri, sec, key).Err? ==> Merged(pri, sec, key).error == KeyError(key)
  {
  }

  /** One output record per primary record, in the primary order: the
      primary overlaid with the last secondary record sharing its key value,
      or the primary unchanged when none does. */
  lemma MergedShape(pri: seq<Record>, sec: seq<Record>, key: string, i: nat)
    requires Merged(pri, sec, key).Ok? && i < |pri|
    ensures var out := Merged(pri, sec, key).value;
      && |out| == |pri|
      && ((exists j :: 0 <= j < |sec| && sec[j][key] == pri[i][key]) ==>
            exists j :: && 0 <= j < |sec| && sec[j][key] == pri[i][key] && out[i] == Overlay(pri[i], sec[j])
                        && forall m :: j < m < |sec| ==> sec[m][key] != pri[i][key])
      && ((forall j :: 0 <= j < |sec| ==> sec[j][key] != pri[i][key]) ==> out[i] == pri[i])
  {
    IndexLast(sec, key, pri[i][key]);
  }

  /** The merge never changes a record's key value. */
  lemma MergedKeepsKey(pri: seq<Record>, sec: seq<Record>, key: string, i: nat)
    requires Merged(pri, sec, key).Ok? && i < |pri|
    ensures key in Merged(pri, sec, key).value[i]
    ensures Merged(pri, sec, key).value[i][key] == pri[i][key]
  {
    IndexLast(sec, key, pri[i][key]);
  }

  /** With no secondary records the merge returns the primary records. */
  lemma MergeNothing(pri: seq<Record>, key: string)
    requires AllKeyed(pri, key)
    ensures Merged(pri, [], key) == Ok(pri)
  {
    var out := Merged(pri, [], key).value;
    assert forall i :: 0 <= i < |pri| ==> out[i] == pri[i];
    assert |out| == |pri|;
    assert out == pri;
  }

  /** Merging the same secondary records a second time changes nothing. */
  lemma MergeIdempotent(pri: seq<Record>, sec: seq<Record>, key: string)
    requires Merged(pri, sec, key).Ok?
    ensures Merged(Merged(pri, sec, key).value, sec, key) == Merged(pri, sec, key)
  {
    var out := Merged(pri, sec, key).value;
    var idx := Index(sec, key).value;
    forall i | 0 <= i < |out|
      ensures key in out[i] && out[i][key] == pri[i][key]
    {
      MergedKeepsKey(pri, sec, key, i);
    }
    var again := Merged(out, sec, key).value;
    forall i | 0 <= i < |out|
      ensures again[i] == out[i]
    {
      var v := pri[i][key];
      if v in idx {
        assert out[i] == Overlay(pri[i], idx[v]);
        assert Overlay(out[i], idx[v]) == out[i];
      }
    }
    assert |again| == |out|;
    assert again == out;
  }

  /** The merge brings in no field that neither list has: when every record
      of both lists keeps to the fields in `ks`, so does every merged one. */
  lemma MergedWithin(pri: seq<Record>, sec: seq<Record>, key: string, ks: set<string>, i: nat)
    requires Merged(pri, sec, key).Ok? && i < |pri|
    requires forall j :: 0 <= j < |pri| ==> pri[j].Keys <= ks
    requires forall j :: 0 <= j < |sec| ==> sec[j].Keys <= ks
    ensures Merged(pri, sec, key).value[i].Keys <= ks
  {
    IndexLast(sec, key, pri[i][key]);
  }

  /** A secondary record whose key value no primary record has leaves no
      trace in the output. */
  lemma UnmatchedIgnored(pri: seq<Record>, sec: seq<Record>, key: string, t: Record)
    requires key in t
    requires forall i :: 0 <= i < |pri| && key in pri[i] ==> pri[i][key] != t[key]
    ensures Merged(pri, sec + [t], key) == Merged(pri, sec, key)
  {
    assert (sec + [t])[..|sec|] == sec;
    if Index(sec, key).Ok? {
      var idx := Index(sec, key).value;
      var idx' := Index(sec + [t], key).value;
      assert idx' == idx[t[key] := t];
      var a := MergeAll(pri, idx', key);
      var b := MergeAll(pri, idx, key);
      if a.Ok? {
        forall i | 0 <= i < |pri|
          ensures a.value[i] == b.value[i]
        {
          assert MergeOne(pri[i], idx', key) == MergeOne(pri[i], idx, key);
        }
        assert a.value == b.value;
      }
    }
  }
}
