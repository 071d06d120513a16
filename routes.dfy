/** The route resolver: a sector's trade and communication routes become a
    symmetric table of linked hexes, and one `{hex, routes}` record per hex. */
module Routes {
  import opened Outcomes
  import opened Records
  import opened Text

  /** One route of the sector metadata, as its JSON object: "Start" and
      "End" hold the endpoint hexes (four digits, column then row), and the
      optional "StartOffsetX", "StartOffsetY", "EndOffsetX" and "EndOffsetY"
      the whole-sector offsets of each end, as decimal text. */
  type Route = Record

  /** A route between two resolved hexes. */
  datatype Edge = Edge(from: string, to: string)

  /** A hex name the resolver prints: not empty and without whitespace. */
  predicate IsWord(s: string) { s != "" && NoSpace(s) }

  /** An offset the route may have, read as `int()` reads it. */
  function Offset(r: Route, key: string): (o: Result<Option<int>>)
    ensures key !in r ==> o == Ok(None)
    ensures key in r ==> (o.Ok? <==> ParseInt(r[key]).Ok?)
    ensures key in r && o.Ok? ==> o.value == Some(ParseInt(r[key]).value)
    ensures key in r && o.Err? ==> o.error == ValueError(r[key])
  {
    if key in r then
      var n :- ParseInt(r[key]);
      Ok(Some(n))
    else Ok(None)
  }

  /** A coordinate moved by `scale` times a sector offset when the route
      has one, and then clamped at 0; left alone when it has none. */
  function Shift(v: int, offset: Option<int>, scale: int): (r: int)
    ensures offset.None? ==> r == v
    ensures offset.Some? ==> r >= 0 && r >= v + scale * offset.value
    ensures offset.Some? && v + scale * offset.value >= 0 ==> r == v + scale * offset.value
    ensures offset.Some? && v + scale * offset.value < 0 ==> r == 0
  {
    match offset
    case None => v
    case Some(o) => if v + scale * o < 0 then 0 else v + scale * o
  }

  /** The hex of a column and a row, each zero-padded to two digits. */
  function HexName(x: int, y: int): (h: string)
    ensures |h| >= 4 && IsWord(h)
  {
    var h := ZFill(IntToString(x), 2) + ZFill(IntToString(y), 2);
    NumberHasNoSpace(x, 2);
    NumberHasNoSpace(y, 2);
    h
  }

  lemma NumberHasNoSpace(n: int, width: nat)
    ensures NoSpace(ZFill(IntToString(n), width))
  {
    var m := if n < 0 then -n else n;
    var ds := NatToString(m);
    assert forall i :: 0 <= i < |ds| ==> IsDigit(ds[i]);
  }

  /** Both ends of one route: the column and row of each hex, then the
      offsets; a missing endpoint is a `KeyError`, a column, row or offset
      that is not a number a `ValueError`. */
  function DecodeRoute(r: Route): (e: Result<Edge>)
    ensures e.Ok? ==> IsWord(e.value.from) && IsWord(e.value.to)
  {
    var start :- Get(r, "Start");
    var sx :- ParseInt(Slice(start, 0, 2));
    var sy :- ParseInt(Slice(start, 2, 4));
    var end :- Get(r, "End");
    var ex :- ParseInt(Slice(end, 0, 2));
    var ey :- ParseInt(Slice(end, 2, 4));
    var sox :- Offset(r, "StartOffsetX");
    var soy :- Offset(r, "StartOffsetY");
    var eox :- Offset(r, "EndOffsetX");
    var eoy :- Offset(r, "EndOffsetY");
    Ok(Edge(HexName(Shift(sx, sox, 32), Shift(sy, soy, 40)),
            HexName(Shift(ex, eox, 32), Shift(ey, eoy, 40))))
  }

  /** The decoded routes, or the error of the first route that fails. */
  function Edges(routes: seq<Route>): (r: Result<seq<Edge>>)
    ensures r.Ok? ==> |r.value| == |routes|
    ensures r.Ok? ==> forall i :: 0 <= i < |routes| ==> DecodeRoute(routes[i]) == Ok(r.value[i])
  {
    if routes == [] then Ok([])
    else
      var es :- Edges(routes[..|routes| - 1]);
      var e :- DecodeRoute(routes[|routes| - 1]);
      Ok(es + [e])
  }

  /** The routes resolve exactly when every route decodes. */
  lemma {:induction false} EdgesOk(routes: seq<Route>)
    ensures Edges(routes).Ok? <==> forall i :: 0 <= i < |routes| ==> DecodeRoute(routes[i]).Ok?
    decreases |routes|
  {
    if routes != [] {
      var init := routes[..|routes| - 1];
      EdgesOk(init);
      if forall i :: 0 <= i < |routes| ==> DecodeRoute(routes[i]).Ok? {
        assert forall i :: 0 <= i < |init| ==> init[i] == routes[i];
      }
    }
  }

  // ---------------------------------------------------------------- the table

  /** Every hex some route starts or ends at. */
  function Endpoints(es: seq<Edge>): set<string> {
    (set e | e in es :: e.from) + (set e | e in es :: e.to)
  }

  /** One route added to the table: each end gets an empty set the first
      time it is seen, then each end is added to the other's set. */
  function Link(t: map<string, set<string>>, e: Edge): map<string, set<string>> {
    var t1 := if e.from in t then t else t[e.from := {}];
    var t2 := if e.to in t1 then t1 else t1[e.to := {}];
    var t3 := t2[e.from := t2[e.from] + {e.to}];
    t3[e.to := t3[e.to] + {e.from}]
  }

  /** The table after all routes. */
  function Table(es: seq<Edge>): (t: map<string, set<string>>)
    ensures forall h :: h in t <==> h in Endpoints(es)
  {
    if es == [] then map[]
    else
      var init := es[..|es| - 1];
      var e := es[|es| - 1];
      assert es == init + [e];
      EndpointsSnoc(init, e);
      Link(Table(init), e)
  }

  /** One more route adds its two ends to the endpoints. */
  lemma EndpointsSnoc(es: seq<Edge>, e: Edge)
    ensures forall h :: h in Endpoints(es + [e]) <==> h in Endpoints(es) || h == e.from || h == e.to
  {
    forall h | h in Endpoints(es)
      ensures h in Endpoints(es + [e])
    {
      var x :| x in es && (x.from == h || x.to == h);
      assert x in es + [e];
    }
    assert e in es + [e];
    forall h | h in Endpoints(es + [e]) && h != e.from && h != e.to
      ensures h in Endpoints(es)
    {
      var x :| x in es + [e] && (x.from == h || x.to == h);
      assert x in es;
    }
  }

  /** A hex's links after one more route: its earlier links, and the other
      end when it is an end of the route. */
  lemma LinkHas(t: map<string, set<string>>, e: Edge, a: string, b: string)
    requires a in Link(t, e)
    ensures b in Link(t, e)[a] <==>
      (a in t && b in t[a]) || (a == e.from && b == e.to) || (a == e.to && b == e.from)
  {
  }

  /** The hexes in the order the table first sees them, which is the order
      its records come out in. */
  function Seen(es: seq<Edge>): (hs: seq<string>)
    ensures Distinct(hs)
    ensures forall h :: h in hs <==> h in Endpoints(es)
  {
    if es == [] then []
    else
      var init := es[..|es| - 1];
      var e := es[|es| - 1];
      assert es == init + [e];
      EndpointsSnoc(init, e);
      Notice(Seen(init), e)
  }

  /** The hexes seen so far, with the ends of one more route appended when new. */
  function Notice(hs: seq<string>, e: Edge): (r: seq<string>)
    ensures Distinct(hs) ==> Distinct(r)
    ensures forall h :: h in r <==> h in hs || h == e.from || h == e.to
  {
    var hs1 := hs + (if e.from in hs then [] else [e.from]);
    hs1 + (if e.to in hs1 then [] else [e.to])
  }

  lemma TableStep(es: seq<Edge>, e: Edge)
    ensures Table(es + [e]) == Link(Table(es), e)
    ensures Seen(es + [e]) == Notice(Seen(es), e)
  {
    assert (es + [e])[..|es|] == es;
  }

  predicate Distinct(xs: seq<string>) {
    forall i, j :: 0 <= i < j < |xs| ==> xs[i] != xs[j]
  }

  /** `xs` lists the elements of `s`, each once, in some order. */
  ghost predicate Lists(xs: seq<string>, s: set<string>) {
    Distinct(xs) && forall x :: x in xs <==> x in s
  }

  /** `b` is linked to `a` exactly when some route joins them, in either
      direction. */
  lemma {:induction false} TableLinks(es: seq<Edge>, a: string, b: string)
    requires a in Table(es)
    ensures b in Table(es)[a] <==> Edge(a, b) in es || Edge(b, a) in es
    decreases |es|
  {
    if es != [] {
      var init := es[..|es| - 1];
      var e := es[|es| - 1];
      assert es == init + [e];
      EndpointsSnoc(init, e);
      LinkHas(Table(init), e, a, b);
      if a in Table(init) {
        TableLinks(init, a, b);
      }
    }
  }

  /** The table is symmetric. */
  lemma TableSymmetric(es: seq<Edge>, a: string, b: string)
    requires a in Table(es) && b in Table(es)[a]
    ensures b in Table(es) && a in Table(es)[b]
  {
    TableLinks(es, a, b);
    if Edge(a, b) in es {
      assert b in Endpoints(es);
    } else {
      assert b in Endpoints(es);
    }
    TableLinks(es, b, a);
  }

  /** A route from a hex to itself links the hex to itself. */
  lemma SelfLoop(es: seq<Edge>, a: string)
    requires Edge(a, a) in es
    ensures a in Table(es) && a in Table(es)[a]
  {
    assert a in Endpoints(es);
    TableLinks(es, a, a);
  }

  /** Every hex in the table is linked to something. */
  lemma NoIsolatedHex(es: seq<Edge>, a: string)
    requires a in Table(es)
    ensures Table(es)[a] != {}
  {
    var i :| 0 <= i < |es| && (es[i].from == a || es[i].to == a);
    if es[i].from == a {
      TableLinks(es, a, es[i].to);
    } else {
      TableLinks(es, a, es[i].from);
    }
  }

  // ---------------------------------------------------------------- hex names

  lemma TwoDigitsValue(d: string)
    requires |d| == 2 && AllDigits(d)
    ensures DigitsValue(d) == 10 * DigitValue(d[0]) + DigitValue(d[1])
  {
    var first := d[..1];
    assert first[..0] == "" && first[0] == d[0];
    assert DigitsValue(first) == DigitValue(d[0]);
  }

  /** `int()` of two digits is their value. */
  lemma ParseTwoDigits(d: string)
    requires |d| == 2 && AllDigits(d)
    ensures ParseInt(d) == Ok(DigitsValue(d))
  {
    StripNoSpaceEnds(d);
    DigitGroupOfDigits(d);
    DropUnderscoresOfDigits(d);
  }

  /** Zero-padding `str()` of the value of two digits gives the digits back. */
  lemma PadTwoDigits(d: string)
    requires |d| == 2 && AllDigits(d)
    ensures ZFill(IntToString(DigitsValue(d)), 2) == d
  {
    TwoDigitsValue(d);
    var a := DigitValue(d[0]);
    var b := DigitValue(d[1]);
    var v := 10 * a + b;
    if a == 0 {
      assert NatToString(v) == [DigitChar(b)];
      assert ZFill([DigitChar(b)], 2) == Zeros(1) + [DigitChar(b)];
      assert Zeros(1) == ['0'];
    } else {
      assert v / 10 == a && v % 10 == b;
      assert NatToString(v) == [DigitChar(a)] + [DigitChar(b)];
    }
  }

  /** A coordinate below 100 pads to two characters that read back as it. */
  lemma PadRoundTrip(v: int)
    requires 0 <= v < 100
    ensures var p := ZFill(IntToString(v), 2); |p| == 2 && ParseInt(p) == Ok(v)
  {
    var d := [DigitChar(v / 10), DigitChar(v % 10)];
    assert AllDigits(d);
    TwoDigitsValue(d);
    PadTwoDigits(d);
    ParseTwoDigits(d);
  }

  /** A route whose reads all succeed decodes to the shifted, padded hexes. */
  lemma DecodeRouteOk(r: Route, sx: int, sy: int, ex: int, ey: int,
                      sox: Option<int>, soy: Option<int>, eox: Option<int>, eoy: Option<int>)
    requires "Start" in r && ParseInt(Slice(r["Start"], 0, 2)) == Ok(sx) && ParseInt(Slice(r["Start"], 2, 4)) == Ok(sy)
    requires "End" in r && ParseInt(Slice(r["End"], 0, 2)) == Ok(ex) && ParseInt(Slice(r["End"], 2, 4)) == Ok(ey)
    requires Offset(r, "StartOffsetX") == Ok(sox) && Offset(r, "StartOffsetY") == Ok(soy)
    requires Offset(r, "EndOffsetX") == Ok(eox) && Offset(r, "EndOffsetY") == Ok(eoy)
    ensures DecodeRoute(r) == Ok(Edge(HexName(Shift(sx, sox, 32), Shift(sy, soy, 40)),
                                      HexName(Shift(ex, eox, 32), Shift(ey, eoy, 40))))
  {
  }

  /** A route leaving the sector: the start moved one sector to the right
      lands on column 33, and the end moved one sector to the left falls
      below column 0 and is clamped to "00". */
  lemma OffsetRoute()
    ensures var r := map["Start" := "0101", "End" := "0203", "StartOffsetX" := "1", "EndOffsetX" := "-1"];
      DecodeRoute(r) == Ok(Edge("3301", "0003"))
  {
    var r := map["Start" := "0101", "End" := "0203", "StartOffsetX" := "1", "EndOffsetX" := "-1"];
    assert r.Keys == {"Start", "End", "StartOffsetX", "EndOffsetX"};
    assert "StartOffsetY" !in r && "EndOffsetY" !in r;
    OffsetRouteStart(r);
    OffsetRouteEnd(r);
    OffsetRouteStartOffsets(r);
    OffsetRouteEndOffsets(r);
    DecodeRouteOk(r, 1, 1, 2, 3, Some(1), None, Some(-1), None);
    OffsetRouteHexes();
  }

  lemma OffsetRouteStart(r: Route)
    requires "Start" in r && r["Start"] == "0101"
    ensures ParseInt(Slice(r["Start"], 0, 2)) == Ok(1) && ParseInt(Slice(r["Start"], 2, 4)) == Ok(1)
  {
    assert Slice("0101", 0, 2) == "01" && Slice("0101", 2, 4) == "01";
    ParseLiteral("01", 1);
  }

  lemma OffsetRouteEnd(r: Route)
    requires "End" in r && r["End"] == "0203"
    ensures ParseInt(Slice(r["End"], 0, 2)) == Ok(2) && ParseInt(Slice(r["End"], 2, 4)) == Ok(3)
  {
    assert Slice("0203", 0, 2) == "02" && Slice("0203", 2, 4) == "03";
    ParseLiteral("02", 2);
    ParseLiteral("03", 3);
  }

  lemma OffsetRouteStartOffsets(r: Route)
    requires "StartOffsetX" in r && r["StartOffsetX"] == "1" && "StartOffsetY" !in r
    ensures Offset(r, "StartOffsetX") == Ok(Some(1)) && Offset(r, "StartOffsetY") == Ok(None)
  {
    ParseLiteral("1", 1);
  }

  lemma OffsetRouteEndOffsets(r: Route)
    requires "EndOffsetX" in r && r["EndOffsetX"] == "-1" && "EndOffsetY" !in r
    ensures Offset(r, "EndOffsetX") == Ok(Some(-1)) && Offset(r, "EndOffsetY") == Ok(None)
  {
    assert r["EndOffsetX"] == "-" + "1";
    ParseNegativeDigits(r["EndOffsetX"], "1", 1);
  }

  lemma ParseLiteral(ds: string, v: nat)
    requires ds != "" && AllDigits(ds) && DigitsValue(ds) == v
    ensures ParseInt(ds) == Ok(v)
  {
    ParseDigits(ds);
  }

  lemma OffsetRouteHexes()
    ensures HexName(Shift(1, Some(1), 32), Shift(1, None, 40)) == "3301"
    ensures HexName(Shift(2, Some(-1), 32), Shift(3, None, 40)) == "0003"
  {
    assert NatToString(33) == NatToString(3) + [DigitChar(3)];
    assert IntToString(33) == "33";
    assert ZFill(IntToString(1), 2) == "01" by { assert Zeros(1) == "0"; }
    assert ZFill(IntToString(0), 2) == "00" by { assert Zeros(1) == "0"; }
    assert ZFill(IntToString(3), 2) == "03" by { assert Zeros(1) == "0"; }
  }

  /** A route inside the sector, between two hexes that start with four
      digits, links exactly those four-digit hexes. */
  lemma PlainRoute(r: Route, s: string, e: string)
    requires "Start" in r && r["Start"] == s && "End" in r && r["End"] == e
    requires |s| >= 4 && AllDigits(s[..4]) && |e| >= 4 && AllDigits(e[..4])
    requires "StartOffsetX" !in r && "StartOffsetY" !in r && "EndOffsetX" !in r && "EndOffsetY" !in r
    ensures DecodeRoute(r) == Ok(Edge(s[..4], e[..4]))
  {
    PlainHex(s);
    PlainHex(e);
  }

  lemma PlainHex(s: string)
    requires |s| >= 4 && AllDigits(s[..4])
    ensures var x := Slice(s, 0, 2); var y := Slice(s, 2, 4);
      && ParseInt(x) == Ok(DigitsValue(x)) && ParseInt(y) == Ok(DigitsValue(y))
      && HexName(DigitsValue(x), DigitsValue(y)) == s[..4]
  {
    var x := Slice(s, 0, 2);
    var y := Slice(s, 2, 4);
    HexHalf(s, 0);
    HexHalf(s, 2);
    assert s[..4] == x + y;
  }

  /** One two-digit half of a four-digit hex reads and pads back to itself. */
  lemma HexHalf(s: string, i: nat)
    requires |s| >= 4 && AllDigits(s[..4]) && i <= 2
    ensures var d := Slice(s, i, i + 2);
      && d == s[i..i + 2] && |d| == 2 && AllDigits(d)
      && ParseInt(d) == Ok(DigitsValue(d)) && ZFill(IntToString(DigitsValue(d)), 2) == d
  {
    var d := Slice(s, i, i + 2);
    assert d == s[..4][i..i + 2];
    ParseTwoDigits(d);
    PadTwoDigits(d);
  }

  // ---------------------------------------------------------------- the resolver

  /** Failure of one route stops the whole resolver with its error. */
  lemma {:induction false} EdgesStop(routes: seq<Route>, i: nat)
    requires i < |routes| && Edges(routes[..i]).Ok? && DecodeRoute(routes[i]).Err?
    ensures Edges(routes) == Err(DecodeRoute(routes[i]).error)
    decreases |routes|
  {
    if i < |routes| - 1 {
      var init := routes[..|routes| - 1];
      assert init[..i] == routes[..i];
      EdgesStop(init, i);
    } else {
      assert routes[..|routes| - 1] == routes[..i];
    }
  }

  /** The elements of a set, each once, in an order the model leaves open
      (Python iterates a set in an order of its own). */
  method Enumerate(s: set<string>) returns (xs: seq<string>)
    ensures Lists(xs, s)
  {
    xs := [];
    var rest := s;
    while rest != {}
      invariant rest <= s
      invariant Distinct(xs)
      invariant forall x :: x in xs <==> x in s && x !in rest
      decreases |rest|
    {
      var x :| x in rest;
      xs := xs + [x];
      rest := rest - {x};
    }
  }

  /** The record of one hex: its name and the hexes it is linked to. */
  ghost predicate RouteRecord(w: Record, hex: string, links: set<string>) {
    && w.Keys == {"hex", "routes"}
    && w["hex"] == hex
    && Lists(Words(w["routes"]), links)
  }

  /** One route entered in the table, both ways. */
  method AddRoute(hexes: map<string, set<string>>, order: seq<string>, e: Edge)
    returns (hexes': map<string, set<string>>, order': seq<string>)
    requires forall h :: h in order <==> h in hexes
    ensures hexes' == Link(hexes, e) && order' == Notice(order, e)
  {
    hexes' := hexes;
    order' := order;
    if e.from !in hexes' {
      hexes' := hexes'[e.from := {}];
      order' := order' + [e.from];
    }
    if e.to !in hexes' {
      hexes' := hexes'[e.to := {}];
      order' := order' + [e.to];
    }
    hexes' := hexes'[e.from := hexes'[e.from] + {e.to}];
    hexes' := hexes'[e.to := hexes'[e.to] + {e.from}];
  }

  lemma EdgesSnoc(routes: seq<Route>, i: nat, es: seq<Edge>)
    requires i < |routes| && Edges(routes[..i]) == Ok(es) && DecodeRoute(routes[i]).Ok?
    ensures Edges(routes[..i + 1]) == Ok(es + [DecodeRoute(routes[i]).value])
  {
    assert routes[..i + 1][..i] == routes[..i];
  }

  /** The table of all routes, with its hexes in the order first seen. */
  method BuildTable(routes: seq<Route>) returns (r: Result<(map<string, set<string>>, seq<string>)>)
    ensures r.Ok? <==> Edges(routes).Ok?
    ensures r.Err? ==> r.error == Edges(routes).error
    ensures r.Ok? ==> r.value == (Table(Edges(routes).value), Seen(Edges(routes).value))
  {
    var hexes: map<string, set<string>> := map[];
    var order: seq<string> := [];
    ghost var es: seq<Edge> := [];
    for i := 0 to |routes|
      invariant Edges(routes[..i]) == Ok(es)
      invariant hexes == Table(es) && order == Seen(es)
    {
      var d := DecodeRoute(routes[i]);
      if d.Err? {
        EdgesStop(routes, i);
        return Err(d.error);
      }
      hexes, order := AddRoute(hexes, order, d.value);
      TableStep(es, d.value);
      EdgesSnoc(routes, i, es);
      es := es + [d.value];
    }
    assert routes[..|routes|] == routes;
    return Ok((hexes, order));
  }

  /** Every hex linked in the table is a word. */
  ghost predicate WordTable(hexes: map<string, set<string>>) {
    forall a :: a in hexes ==> forall b :: b in hexes[a] ==> IsWord(b)
  }

  /** Routes between words make a table of words. */
  lemma TableWords(es: seq<Edge>)
    requires forall i :: 0 <= i < |es| ==> IsWord(es[i].from) && IsWord(es[i].to)
    ensures WordTable(Table(es))
  {
    forall a, b | a in Table(es) && b in Table(es)[a]
      ensures IsWord(b)
    {
      TableLinks(es, a, b);
      if Edge(a, b) in es {
        var i :| 0 <= i < |es| && es[i] == Edge(a, b);
      } else {
        var i :| 0 <= i < |es| && es[i] == Edge(b, a);
      }
    }
  }

  /** One record per hex of the table, in the given order. */
  method RouteRecords(hexes: map<string, set<string>>, order: seq<string>)
    returns (worlds: seq<Record>)
    requires WordTable(hexes)
    requires forall h :: h in order ==> h in hexes
    ensures |worlds| == |order|
    ensures forall k :: 0 <= k < |order| ==> RouteRecord(worlds[k], order[k], hexes[order[k]])
  {
    worlds := [];
    for k := 0 to |order|
      invariant |worlds| == k
      invariant forall j :: 0 <= j < k ==> RouteRecord(worlds[j], order[j], hexes[order[j]])
    {
      var w := HexRecord(hexes, order[k]);
      worlds := worlds + [w];
    }
  }

  /** The record of one hex of the table. */
  method HexRecord(hexes: map<string, set<string>>, hex: string) returns (w: Record)
    requires WordTable(hexes) && hex in hexes
    ensures RouteRecord(w, hex, hexes[hex])
  {
    var links := Enumerate(hexes[hex]);
    LinksAreWords(hexes, hex, links);
    w := map["hex" := hex, "routes" := Join(links, " ")];
  }

  /** The resolver: every route is decoded in turn and entered both ways in
      the table; then one record per hex, in the order the table first saw
      the hexes, lists the hexes it is linked to, separated by spaces. */
  method GetRoutes(routes: seq<Route>) returns (r: Result<seq<Record>>)
    ensures r.Ok? <==> Edges(routes).Ok?
    ensures r.Ok? <==> forall i :: 0 <= i < |routes| ==> DecodeRoute(routes[i]).Ok?
    ensures r.Err? ==> r.error == Edges(routes).error
    ensures r.Ok? ==>
      var es := Edges(routes).value;
      var hexes := Seen(es);
      && |r.value| == |hexes|
      && forall k :: 0 <= k < |hexes| ==> hexes[k] in Table(es) && RouteRecord(r.value[k], hexes[k], Table(es)[hexes[k]])
  {
    EdgesOk(routes);
    var t := BuildTable(routes);
    if t.Err? {
      return Err(t.error);
    }
    var (hexes, order) := t.value;
    ghost var es := Edges(routes).value;
    TableWords(es);
    var worlds := RouteRecords(hexes, order);
    return Ok(worlds);
  }

  /** The linked hexes are words, so the space-joined list splits back into them. */
  lemma LinksAreWords(hexes: map<string, set<string>>, a: string, links: seq<string>)
    requires WordTable(hexes) && a in hexes && Lists(links, hexes[a])
    ensures Words(Join(links, " ")) == links
  {
    forall k | 0 <= k < |links|
      ensures links[k] != "" && NoSpace(links[k])
    {
      assert links[k] in hexes[a];
      assert IsWord(links[k]);
    }
    WordsOfJoin(links);
  }
}
