/** What a loaded export is, in terms of the rows alone. */
module LoadedExports {
  import opened Graphs
  import opened Loader
  import SegmentIds

  /** Two angles no further apart than a ten-millionth of a degree. */
  predicate Close(a: real, b: real) {
    -0.0000001 <= a - b <= 0.0000001
  }

  /** Each row is the edge its id names: its own attributes, from its source node to its target node. */
  lemma LoadedEdge(rows: seq<Row>, g: Graph, geom: map<string, seq<(real, real)>>, ids: seq<int>,
                   remap: map<int, int>, k: nat)
    requires Loaded(rows, g, geom, ids, remap) && k < |rows|
    ensures 0 <= rows[k].edgeId < |g.edges| && rows[k].source in remap && rows[k].target in remap
    ensures var row, e := rows[k], g.edges[rows[k].edgeId];
      && e.from == remap[row.source] && e.to == remap[row.target]
      && e.id == row.edgeId && e.segment == row.segment && e.lengthM == row.lengthM
      && e.freeFlowS == row.freeFlowS && e.capacityVph == row.capacityVph
    ensures rows[k].segment in geom && geom[rows[k].segment] == rows[k].line
  {
    assert RowLoaded(g, remap, rows[k]);
  }

  /** Its end nodes lie where its line starts and ends; coordinates are (longitude, latitude). */
  lemma LoadedEnds(rows: seq<Row>, g: Graph, geom: map<string, seq<(real, real)>>, ids: seq<int>,
                   remap: map<int, int>, k: nat)
    requires Loaded(rows, g, geom, ids, remap) && k < |rows|
    ensures 0 <= rows[k].edgeId < |g.edges| && |rows[k].line| >= 2
    ensures var e := g.edges[rows[k].edgeId];
      && 0 <= e.from < |g.nodes| && 0 <= e.to < |g.nodes|
      && Close(g.nodes[e.from].pos.lat, rows[k].line[0].1) && Close(g.nodes[e.from].pos.lon, rows[k].line[0].0)
    ensures var e, last := g.edges[rows[k].edgeId], rows[k].line[|rows[k].line| - 1];
      Close(g.nodes[e.to].pos.lat, last.1) && Close(g.nodes[e.to].pos.lon, last.0)
  {
    assert RowLoaded(g, remap, rows[k]);
    LoadedEdge(rows, g, geom, ids, remap, k);
  }

  /** The node ids the rows name are numbered from 0 in increasing order. */
  lemma LoadedNumbers(rows: seq<Row>, g: Graph, geom: map<string, seq<(real, real)>>, ids: seq<int>,
                      remap: map<int, int>, x: int, y: int)
    requires Loaded(rows, g, geom, ids, remap) && x in remap && y in remap
    ensures 0 <= remap[x] < |g.nodes| && (x < y ==> remap[x] < remap[y])
    ensures exists k :: 0 <= k < |rows| && (rows[k].source == x || rows[k].target == x)
  {
    NumbersAscend(ids, remap, x, y);
  }

  lemma NumbersAscend(ids: seq<int>, remap: map<int, int>, x: int, y: int)
    requires Ascending(ids) && Renumbers(ids, remap, |ids|) && x in remap && y in remap
    ensures 0 <= remap[x] < |ids| && (x < y ==> remap[x] < remap[y])
  {
    var i, j := remap[x], remap[y];
    assert ids[i] == x && ids[j] == y;
    if j < i {
      assert ids[j] < ids[i];
    }
  }

  // ---- which exports are accepted

  /** The node a row mentions, and where: its source at the first coordinate of its line, its target at the last. */
  function NodeOf(row: Row, target: bool): int {
    if target then row.target else row.source
  }

  function PlaceOf(row: Row, target: bool): (real, real)
    requires |row.line| > 0
  {
    if target then row.line[|row.line| - 1] else row.line[0]
  }

  /** Mentions come row by row, the source before the target. */
  predicate Earlier(j: nat, d: bool, k: nat, e: bool) {
    j < k || (j == k && !d && e)
  }

  /** No earlier mention is of this node. */
  ghost predicate IsFirst(rows: seq<Row>, j: nat, d: bool)
    requires j < |rows|
  {
    forall i, c :: 0 <= i < |rows| && Earlier(i, c, j, d) ==> NodeOf(rows[i], c) != NodeOf(rows[j], d)
  }

  /** Row k mentions an end where the node was first mentioned. */
  ghost predicate AgreesWithFirst(rows: seq<Row>, k: nat, e: bool)
    requires k < |rows| && Drawn(rows, k + 1)
  {
    forall j, d ::
      0 <= j <= k && Earlier(j, d, k, e) && IsFirst(rows, j, d) && NodeOf(rows[j], d) == NodeOf(rows[k], e) ==>
      && Close(PlaceOf(rows[j], d).0, PlaceOf(rows[k], e).0)
      && Close(PlaceOf(rows[j], d).1, PlaceOf(rows[k], e).1)
  }

  /** The positions recorded before an end of row k is looked at. */
  ghost function RecordedBefore(rows: seq<Row>, k: nat, e: bool): Positions
    requires k < |rows| && Drawn(rows, k + 1)
  {
    if e then Recorded(PositionsAfter(rows, k), rows[k].source, First(rows[k])) else PositionsAfter(rows, k)
  }

  ghost predicate MentionedBefore(rows: seq<Row>, id: int, k: nat, e: bool) {
    exists j, d :: 0 <= j < |rows| && Earlier(j, d, k, e) && NodeOf(rows[j], d) == id
  }

  /** A node is recorded once it is mentioned, and where it first is. */
  ghost predicate RecordsFirst(rows: seq<Row>, pos: Positions, id: int, k: nat, e: bool)
    requires k <= |rows| && Drawn(rows, k) && (e ==> k < |rows| && Drawn(rows, k + 1))
  {
    && (id in pos <==> MentionedBefore(rows, id, k, e))
    && forall j, d :: 0 <= j < |rows| && Earlier(j, d, k, e) && IsFirst(rows, j, d) && NodeOf(rows[j], d) == id ==>
         id in pos && pos[id] == LatLon(PlaceOf(rows[j], d).1, PlaceOf(rows[j], d).0)
  }

  /** Looking at one more end keeps it so. */
  lemma RecordsNext(rows: seq<Row>, pos: Positions, id: int, k: nat, e: bool)
    requires k < |rows| && Drawn(rows, k + 1)
    requires RecordsFirst(rows, pos, id, k, e) && RecordsFirst(rows, pos, NodeOf(rows[k], e), k, e)
    ensures var next := Recorded(pos, NodeOf(rows[k], e), LatLon(PlaceOf(rows[k], e).1, PlaceOf(rows[k], e).0));
      if e then RecordsFirst(rows, next, id, k + 1, false) else RecordsFirst(rows, next, id, k, true)
  {
    var node := NodeOf(rows[k], e);
    assert Earlier(k, e, if e then k + 1 else k, !e);
    forall j: nat, d | j < |rows| && Earlier(j, d, if e then k + 1 else k, !e)
      ensures Earlier(j, d, k, e) || (j == k && d == e)
    {
    }
  }

  lemma {:induction false} RowsRecordFirst(rows: seq<Row>, k: nat, id: int)
    requires k <= |rows| && Drawn(rows, k)
    ensures RecordsFirst(rows, PositionsAfter(rows, k), id, k, false)
  {
    if k > 0 {
      var row, pos := rows[k - 1], PositionsAfter(rows, k - 1);
      RowsRecordFirst(rows, k - 1, id);
      RowsRecordFirst(rows, k - 1, row.source);
      RowsRecordFirst(rows, k - 1, row.target);
      RecordsNext(rows, pos, id, k - 1, false);
      RecordsNext(rows, pos, row.target, k - 1, false);
      RecordsNext(rows, Recorded(pos, row.source, First(row)), id, k - 1, true);
    }
  }

  lemma EndsRecordFirst(rows: seq<Row>, k: nat, e: bool, id: int)
    requires k < |rows| && Drawn(rows, k + 1)
    ensures RecordsFirst(rows, RecordedBefore(rows, k, e), id, k, e)
  {
    RowsRecordFirst(rows, k, id);
    if e {
      RowsRecordFirst(rows, k, rows[k].source);
      RecordsNext(rows, PositionsAfter(rows, k), id, k, false);
    }
  }

  /** Whatever was mentioned has a first mention. */
  lemma {:induction false} SomeFirst(rows: seq<Row>, j: nat, d: bool) returns (f: nat, c: bool)
    requires j < |rows|
    ensures f <= j && (f < j || c == d || (!c && d)) && IsFirst(rows, f, c) && NodeOf(rows[f], c) == NodeOf(rows[j], d)
    decreases j, d
  {
    if i, b :| 0 <= i < |rows| && Earlier(i, b, j, d) && NodeOf(rows[i], b) == NodeOf(rows[j], d) {
      f, c := SomeFirst(rows, i, b);
    } else {
      f, c := j, d;
    }
  }

  /** Agreeing with what is recorded is agreeing with the first mention. */
  lemma AgreesIff(rows: seq<Row>, k: nat, e: bool)
    requires k < |rows| && Drawn(rows, k + 1)
    ensures AgreesWithFirst(rows, k, e) <==>
      Agrees(RecordedBefore(rows, k, e), NodeOf(rows[k], e), LatLon(PlaceOf(rows[k], e).1, PlaceOf(rows[k], e).0))
  {
    EndsRecordFirst(rows, k, e, NodeOf(rows[k], e));
    if j, d :| 0 <= j < |rows| && Earlier(j, d, k, e) && NodeOf(rows[j], d) == NodeOf(rows[k], e) {
      var f, c := SomeFirst(rows, j, d);
      assert Earlier(f, c, k, e);
    }
  }

  /** What a row must be on its own: its attributes. */
  ghost predicate AttributesOk(row: Row, count: nat) {
    && SegmentIds.ParseSegmentId(row.segment).Ok?
    && SegmentIds.ParseSegmentId(row.segment).value.way == row.osmWayId && row.osmWayId >= 1
    && (row.highway == "motorway" || row.highway == "trunk" || row.highway == "primary" || row.highway == "secondary"
        || row.highway == "tertiary" || row.highway == "residential" || row.highway == "service")
    && row.lanes >= 1 && row.lengthM > 0.0 && row.maxspeedKmh > 0.0 && row.freeFlowS > 0.0 && row.capacityVph > 0.0
    && 0 <= row.edgeId < count && row.source >= 0 && row.target >= 0
  }

  /** And its line: two coordinates at least, within the world and the window, spanning no more than its length. */
  ghost predicate LineOk(row: Row, rules: Rules) {
    && |row.line| >= 2
    && (forall i :: 0 <= i < |row.line| ==> -180.0 <= row.line[i].0 <= 180.0 && -90.0 <= row.line[i].1 <= 90.0)
    && (rules.bounds.Some? ==> forall i :: 0 <= i < |row.line| ==>
          && rules.bounds.value.lonMin <= row.line[i].0 <= rules.bounds.value.lonMax
          && rules.bounds.value.latMin <= row.line[i].1 <= rules.bounds.value.latMax)
    && var a, z := row.line[0], row.line[|row.line| - 1];
       row.lengthM >= rules.chord(LatLon(a.1, a.0), LatLon(z.1, z.0)) * 0.999999999
  }

  lemma ListedClass(name: string)
    ensures name in HIGHWAY_CLASSES <==>
      || name == "motorway" || name == "trunk" || name == "primary" || name == "secondary"
      || name == "tertiary" || name == "residential" || name == "service"
  {
  }

  lemma RowValidIff(row: Row, count: nat, rules: Rules)
    ensures RowValid(row, count, rules) <==> AttributesOk(row, count) && LineOk(row, rules)
  {
    ListedClass(row.highway);
  }

  /** A row valid on its own that repeats no edge id and no segment and mentions its nodes where they first were. */
  ghost predicate RowStands(rows: seq<Row>, rules: Rules, k: nat)
    requires k < |rows| && Drawn(rows, k + 1)
  {
    && AttributesOk(rows[k], |rows|) && LineOk(rows[k], rules)
    && (forall j :: 0 <= j < k ==> rows[j].edgeId != rows[k].edgeId && rows[j].segment != rows[k].segment)
    && AgreesWithFirst(rows, k, false) && AgreesWithFirst(rows, k, true)
  }

  lemma RowStandsIff(rows: seq<Row>, rules: Rules, k: nat)
    requires k < |rows| && Drawn(rows, k + 1)
    ensures RowAccepted(rows, rules, k) <==> RowStands(rows, rules, k)
  {
    RowValidIff(rows[k], |rows|, rules);
    AgreesIff(rows, k, false);
    AgreesIff(rows, k, true);
  }

  lemma AcceptedIsDrawn(rows: seq<Row>, rules: Rules)
    requires AllAccepted(rows, rules, |rows|)
    ensures Drawn(rows, |rows|)
  {
    forall k | 0 <= k < |rows|
      ensures |rows[k].line| > 0
    {
      assert RowAccepted(rows, rules, k);
    }
  }

  /** An expected window makes sense when it is a box of the world. */
  lemma WindowIs(rules: Rules)
    ensures BoundsOk(rules) <==>
      (rules.bounds.Some? ==>
         var b := rules.bounds.value;
         -180.0 <= b.lonMin <= b.lonMax <= 180.0 && -90.0 <= b.latMin <= b.latMax <= 90.0)
  {
  }

  /** The exports accepted are exactly those in which every row stands. */
  lemma AcceptedIff(rows: seq<Row>, rules: Rules)
    ensures AllAccepted(rows, rules, |rows|) <==>
      Drawn(rows, |rows|) && forall k :: 0 <= k < |rows| ==> RowStands(rows, rules, k)
  {
    if AllAccepted(rows, rules, |rows|) {
      AcceptedIsDrawn(rows, rules);
    }
    if Drawn(rows, |rows|) {
      forall k | 0 <= k < |rows|
        ensures RowAccepted(rows, rules, k) <==> RowStands(rows, rules, k)
      {
        RowStandsIff(rows, rules, k);
      }
    }
  }
}
