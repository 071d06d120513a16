/** `tidy`: each record's fields put into the canonical field order of the
    wiki's system tiddlers. */
module Tidy {
  import opened Outcomes
  import opened Records

  type Field = (string, string)

  /** The canonical field order, one group of related fields per part. */
  const ORDER: seq<string> :=
    ["title", "name", "text"] +
    ["sector", "subsector", "hex", "hx", "hy", "sx", "sy"] +
    ["starport"] +
    ["diameter"] +
    ["atmosphere", "atmoscomp"] +
    ["hydrographics", "hydrocomp"] +
    ["population", "popmult", "demographics", "homeworld"] +
    ["government", "ownersector", "ownerhex", "corporation", "client"] +
    ["lawlevel"] +
    ["techlevel"] +
    ["zone", "bases", "tradecodes"] +
    ["importance"] +
    ["resources", "labour", "infrastructure", "efficiency"] +
    ["heterogeneity", "acceptance", "strangeness", "symbols"] +
    ["stars", "worlds", "belts", "gasgiants"] +
    ["allegiance"] +
    ["routes"] +
    ["tags"]

  /** `order.index(k)`: the first position of `k`. */
  function Position(order: seq<string>, k: string): (n: nat)
    requires k in order
    ensures n < |order| && order[n] == k
    ensures forall j :: 0 <= j < n ==> order[j] != k
  {
    if order[0] == k then 0 else 1 + Position(order[1..], k)
  }

  /** The fields are listed by strictly increasing position in `order`. */
  predicate SortedBy(order: seq<string>, fs: seq<Field>) {
    && (forall i :: 0 <= i < |fs| ==> fs[i].0 in order)
    && (forall i, j :: 0 <= i < j < |fs| ==> Position(order, fs[i].0) < Position(order, fs[j].0))
  }

  /** The fields listed are exactly the items of the record. */
  ghost predicate Items(fs: seq<Field>, w: Record) {
    forall f :: f in fs <==> f.0 in w && w[f.0] == f.1
  }

  /** The record's items in `order`: each remaining field taken in turn. */
  function Pick(order: seq<string>, w: Record): seq<Field>
    decreases |order|
  {
    if order == [] then []
    else if order[0] in w then [(order[0], w[order[0]])] + Pick(order[1..], w - {order[0]})
    else Pick(order[1..], w)
  }

  /** The record's fields that have no place in the order. */
  function Unplaced(order: seq<string>, w: Record): (u: set<string>)
    ensures forall k :: k in u <==> k in w && k !in order
  {
    set k | k in w && k !in order
  }

  /** One record tidied: its items sorted by position in `order`; a field
      outside the order makes `order.index` fail. */
  function Tidied(order: seq<string>, w: Record): (r: Result<seq<Field>>)
    ensures r.Err? <==> exists k :: k in w && k !in order
    ensures r.Err? ==> r.error == NotInOrder(Unplaced(order, w))
  {
    if Unplaced(order, w) != {} then Err(NotInOrder(Unplaced(order, w))) else Ok(Pick(order, w))
  }

  /** Every record tidied, in turn; the first failure aborts the list. */
  function TidyAll(order: seq<string>, worlds: seq<Record>): (r: Result<seq<seq<Field>>>)
    ensures r.Ok? <==> forall i :: 0 <= i < |worlds| ==> Tidied(order, worlds[i]).Ok?
    ensures r.Ok? ==> |r.value| == |worlds|
    ensures r.Ok? ==> forall i :: 0 <= i < |worlds| ==> Tidied(order, worlds[i]) == Ok(r.value[i])
    ensures r.Err? ==> exists i :: && 0 <= i < |worlds| && Tidied(order, worlds[i]) == Err(r.error)
                                   && forall j :: 0 <= j < i ==> Tidied(order, worlds[j]).Ok?
  {
    if worlds == [] then Ok([])
    else
      var first :- Tidied(order, worlds[0]);
      var rest :- TidyAll(order, worlds[1..]);
      Ok([first] + rest)
  }

  /** `tidy(worlds)`: the records put into the canonical order. */
  function Tidy(worlds: seq<Record>): Result<seq<seq<Field>>> {
    TidyAll(ORDER, worlds)
  }

  // ---------------------------------------------------------------- what tidying promises

  /** The picked fields are the record's items whose names are in the order. */
  lemma {:induction false} PickItems(order: seq<string>, w: Record, f: Field)
    ensures f in Pick(order, w) <==> f.0 in w && f.0 in order && w[f.0] == f.1
    decreases |order|
  {
    if order != [] {
      if order[0] in w {
        PickItems(order[1..], w - {order[0]}, f);
      } else {
        PickItems(order[1..], w, f);
      }
      if f.0 in order && f.0 != order[0] {
        assert f.0 in order[1..];
      }
    }
  }

  /** The picked fields come in strictly increasing position. */
  lemma {:induction false} PickSorted(order: seq<string>, w: Record)
    ensures SortedBy(order, Pick(order, w))
    decreases |order|
  {
    if order != [] {
      var o := order[0];
      var ws := if o in w then w - {o} else w;
      var rest := Pick(order[1..], ws);
      PickSorted(order[1..], ws);
      forall i | 0 <= i < |rest|
        ensures rest[i].0 != o
      {
        PickItems(order[1..], ws, rest[i]);
      }
      SortedShift(order, rest);
      if o in w {
        assert Pick(order, w) == [(o, w[o])] + rest;
        SortedCons(order, (o, w[o]), rest);
      } else {
        assert Pick(order, w) == rest;
      }
    }
  }

  /** A list sorted by the tail of the order, without the order's first
      field, is sorted by the whole order, past its first position. */
  lemma SortedShift(order: seq<string>, fs: seq<Field>)
    requires order != [] && SortedBy(order[1..], fs)
    requires forall i :: 0 <= i < |fs| ==> fs[i].0 != order[0]
    ensures SortedBy(order, fs)
    ensures forall i :: 0 <= i < |fs| ==> 0 < Position(order, fs[i].0)
  {
    forall i | 0 <= i < |fs|
      ensures fs[i].0 in order && Position(order, fs[i].0) == 1 + Position(order[1..], fs[i].0)
    {
    }
  }

  /** The order's first field put before a list sorted past it keeps it sorted. */
  lemma SortedCons(order: seq<string>, f: Field, fs: seq<Field>)
    requires order != [] && f.0 == order[0] && SortedBy(order, fs)
    requires forall i :: 0 <= i < |fs| ==> 0 < Position(order, fs[i].0)
    ensures SortedBy(order, [f] + fs)
  {
    var gs := [f] + fs;
    assert Position(order, f.0) == 0;
    forall i, j | 0 <= i < j < |gs|
      ensures Position(order, gs[i].0) < Position(order, gs[j].0)
    {
      assert gs[j] == fs[j - 1];
      if i > 0 {
        assert gs[i] == fs[i - 1];
      }
    }
  }

  /** A sorted list starts with its item of least position. */
  lemma SortedHead(order: seq<string>, fs: seq<Field>, gs: seq<Field>)
    requires SortedBy(order, fs) && SortedBy(order, gs)
    requires forall f :: f in fs <==> f in gs
    requires fs != []
    ensures gs != [] && fs[0] == gs[0]
  {
    assert fs[0] in gs;
    assert gs[0] in fs;
    var n :| 0 <= n < |fs| && fs[n] == gs[0];
    var m :| 0 <= m < |gs| && gs[m] == fs[0];
  }

  /** The tail of a sorted list is sorted and holds every item but the head. */
  lemma SortedTail(order: seq<string>, fs: seq<Field>, f: Field)
    requires SortedBy(order, fs) && fs != []
    ensures SortedBy(order, fs[1..])
    ensures f in fs[1..] <==> f in fs && f != fs[0]
  {
    if f in fs[1..] {
      var i :| 0 <= i < |fs[1..]| && fs[1..][i] == f;
      assert fs[i + 1] == f;
      assert Position(order, fs[0].0) < Position(order, fs[i + 1].0);
    }
    if f in fs && f != fs[0] {
      var i :| 0 <= i < |fs| && fs[i] == f;
      assert fs[1..][i - 1] == f;
    }
  }

  /** Two field lists sorted by the same order with the same items are equal:
      a sort by position has one possible result. */
  lemma {:induction false} SortedUnique(order: seq<string>, fs: seq<Field>, gs: seq<Field>)
    requires SortedBy(order, fs) && SortedBy(order, gs)
    requires forall f :: f in fs <==> f in gs
    ensures fs == gs
    decreases |fs|
  {
    if fs == [] {
      if gs != [] {
        SortedHead(order, gs, fs);
      }
    } else {
      SortedHead(order, fs, gs);
      forall f
        ensures f in fs[1..] <==> f in gs[1..]
      {
        SortedTail(order, fs, f);
        SortedTail(order, gs, f);
      }
      SortedTail(order, fs, fs[0]);
      SortedTail(order, gs, gs[0]);
      SortedUnique(order, fs[1..], gs[1..]);
      assert fs == [fs[0]] + fs[1..];
      assert gs == [gs[0]] + gs[1..];
    }
  }

  /** A tidied record lists exactly its items, by strictly increasing
      position in `ORDER`, and is the only list that does: it is what
      sorting the items by `order.index` gives. */
  lemma TidiedIsSort(order: seq<string>, w: Record, fs: seq<Field>)
    requires Tidied(order, w).Ok?
    ensures SortedBy(order, Tidied(order, w).value) && Items(Tidied(order, w).value, w)
    ensures SortedBy(order, fs) && Items(fs, w) ==> fs == Tidied(order, w).value
  {
    var ts := Tidied(order, w).value;
    PickSorted(order, w);
    forall f
      ensures f in ts <==> f.0 in w && w[f.0] == f.1
    {
      PickItems(order, w, f);
    }
    if SortedBy(order, fs) && Items(fs, w) {
      SortedUnique(order, fs, ts);
    }
  }

  /** No field name appears twice in a tidied record. */
  lemma TidiedDistinct(order: seq<string>, w: Record, i: nat, j: nat)
    requires Tidied(order, w).Ok?
    requires i < j < |Tidied(order, w).value|
    ensures Tidied(order, w).value[i].0 != Tidied(order, w).value[j].0
  {
    PickSorted(order, w);
  }

  /** Records that keep to the fields of the order all tidy. */
  lemma TidyWithin(order: seq<string>, worlds: seq<Record>)
    requires forall i, k :: 0 <= i < |worlds| && k in worlds[i] ==> k in order
    ensures TidyAll(order, worlds).Ok?
  {
  }
}
