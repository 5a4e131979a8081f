/** The fail-closed loader: row checks, cross-row checks, and the dense renumbering of nodes. */
module Loader {
  import opened Results
  import opened Sets
  import opened Costs
  import opened Graphs
  import SegmentIds
  import Adjacency

  const NODE_POS_EPSILON := 0.0000001
  const LENGTH_CHORD_REL_TOL := 0.000000001

  /** One exported edge: its attributes and its line of (lon, lat) coordinates. */
  datatype Row = Row(
    segment: string, edgeId: int, source: int, target: int, osmWayId: int, highway: string, lanes: int,
    lengthM: real, maxspeedKmh: real, freeFlowS: real, capacityVph: real, line: seq<(real, real)>)

  const HIGHWAY_CLASSES := ["motorway", "trunk", "primary", "secondary", "tertiary", "residential", "service"]

  /** The window the caller expects every coordinate in. */
  datatype Bounds = Bounds(lonMin: real, lonMax: real, latMin: real, latMax: real) {
    predicate Valid() {
      -180.0 <= lonMin <= lonMax <= 180.0 && -90.0 <= latMin <= latMax <= 90.0
    }

    predicate Holds(c: (real, real)) {
      lonMin <= c.0 <= lonMax && latMin <= c.1 <= latMax
    }
  }

  /** What rows are checked against: the great-circle distance and, if given, the expected window. */
  datatype Rules = Rules(chord: (LatLon, LatLon) -> NonNegative, bounds: Option<Bounds>)

  function PosOf(c: (real, real)): LatLon { LatLon(c.1, c.0) }

  function First(row: Row): LatLon
    requires |row.line| > 0
  {
    PosOf(row.line[0])
  }

  function Last(row: Row): LatLon
    requires |row.line| > 0
  {
    PosOf(row.line[|row.line| - 1])
  }

  predicate InWorld(c: (real, real)) {
    -180.0 <= c.0 <= 180.0 && -90.0 <= c.1 <= 90.0
  }

  /** What one row must satisfy on its own. */
  predicate RowValid(row: Row, count: nat, rules: Rules) {
    && SegmentIds.ParseSegmentId(row.segment).Ok?
    && SegmentIds.ParseSegmentId(row.segment).value.way == row.osmWayId >= 1
    && row.highway in HIGHWAY_CLASSES && row.lanes >= 1
    && row.lengthM > 0.0 && row.maxspeedKmh > 0.0 && row.freeFlowS > 0.0 && row.capacityVph > 0.0
    && |row.line| >= 2 && (forall i :: 0 <= i < |row.line| ==> InWorld(row.line[i]))
    && (rules.bounds.Some? ==> forall i :: 0 <= i < |row.line| ==> rules.bounds.value.Holds(row.line[i]))
    && row.lengthM >= rules.chord(First(row), Last(row)) * (1.0 - LENGTH_CHORD_REL_TOL)
    && 0 <= row.edgeId < count && row.source >= 0 && row.target >= 0
  }

  /** The coordinates of a line one by one, against the world and, if given, the expected window. */
  method CheckLine(line: seq<(real, real)>, bounds: Option<Bounds>) returns (ok: bool)
    ensures ok <==> forall i :: 0 <= i < |line| ==>
      InWorld(line[i]) && (bounds.Some? ==> bounds.value.Holds(line[i]))
  {
    for i := 0 to |line|
      invariant forall j :: 0 <= j < i ==> InWorld(line[j]) && (bounds.Some? ==> bounds.value.Holds(line[j]))
    {
      var lon, lat := line[i].0, line[i].1;
      if lon < -180.0 || lon > 180.0 || lat < -90.0 || lat > 90.0 {
        return false;
      }
      if bounds.Some? {
        var b := bounds.value;
        if lon < b.lonMin || lon > b.lonMax || lat < b.latMin || lat > b.latMax {
          return false;
        }
      }
    }
    return true;
  }

  /** Every check of one row on its own, in the order they are made. */
  method ValidateRow(row: Row, count: nat, rules: Rules) returns (ok: bool)
    ensures ok <==> RowValid(row, count, rules)
  {
    var key := SegmentIds.ParseSegmentId(row.segment);
    if key.Err? || key.value.way != row.osmWayId || row.osmWayId < 1 {
      return false;
    }
    if row.highway !in HIGHWAY_CLASSES || row.lanes < 1 {
      return false;
    }
    if row.lengthM <= 0.0 || row.maxspeedKmh <= 0.0 || row.freeFlowS <= 0.0 || row.capacityVph <= 0.0 {
      return false;
    }
    if |row.line| < 2 {
      return false;
    }
    var inside := CheckLine(row.line, rules.bounds);
    if !inside {
      return false;
    }
    var chord := rules.chord(First(row), Last(row));
    if row.lengthM < chord * (1.0 - LENGTH_CHORD_REL_TOL) {
      return false;
    }
    return 0 <= row.edgeId < count && row.source >= 0 && row.target >= 0;
  }

  predicate Near(a: LatLon, b: LatLon) {
    Abs(a.lon - b.lon) <= NODE_POS_EPSILON && Abs(a.lat - b.lat) <= NODE_POS_EPSILON
  }

  type Positions = map<int, LatLon>

  /** The first position seen for a node id stays. */
  function Recorded(pos: Positions, id: int, p: LatLon): Positions {
    if id in pos then pos else pos[id := p]
  }

  predicate Agrees(pos: Positions, id: int, p: LatLon) {
    id in pos ==> Near(pos[id], p)
  }

  method RecordNodePos(pos: Positions, id: int, p: LatLon) returns (r: Result<Positions, int>)
    ensures r.Ok? <==> Agrees(pos, id, p)
    ensures r.Ok? ==> r.value == Recorded(pos, id, p)
    ensures r.Err? ==> r.error == id
  {
    if id !in pos {
      return Ok(pos[id := p]);
    }
    if Abs(pos[id].lon - p.lon) > NODE_POS_EPSILON || Abs(pos[id].lat - p.lat) > NODE_POS_EPSILON {
      return Err(id);
    }
    return Ok(pos);
  }

  /** The node positions after the first n rows. */
  function PositionsAfter(rows: seq<Row>, n: nat): Positions
    requires n <= |rows| && forall i :: 0 <= i < n ==> |rows[i].line| > 0
  {
    if n == 0 then map[]
    else Recorded(Recorded(PositionsAfter(rows, n - 1), rows[n - 1].source, First(rows[n - 1])),
                  rows[n - 1].target, Last(rows[n - 1]))
  }

  /** Row k passes its own checks and agrees with the rows before it. */
  ghost predicate Accepted(rows: seq<Row>, rules: Rules, k: nat)
    requires k < |rows| && forall i :: 0 <= i < k ==> |rows[i].line| > 0
  {
    && RowValid(rows[k], |rows|, rules)
    && (forall j :: 0 <= j < k ==> rows[j].edgeId != rows[k].edgeId && rows[j].segment != rows[k].segment)
    && Agrees(PositionsAfter(rows, k), rows[k].source, First(rows[k]))
    && Agrees(Recorded(PositionsAfter(rows, k), rows[k].source, First(rows[k])), rows[k].target, Last(rows[k]))
  }

  ghost predicate Drawn(rows: seq<Row>, n: nat)
    requires n <= |rows|
  {
    forall i :: 0 <= i < n ==> |rows[i].line| > 0
  }

  ghost predicate RowAccepted(rows: seq<Row>, rules: Rules, k: nat)
    requires k < |rows|
  {
    Drawn(rows, k) && Accepted(rows, rules, k)
  }

  /** The first n rows pass. */
  ghost predicate AllAccepted(rows: seq<Row>, rules: Rules, n: nat)
    requires n <= |rows|
  {
    forall k :: 0 <= k < n ==> RowAccepted(rows, rules, k)
  }

  lemma AllAcceptedMore(rows: seq<Row>, rules: Rules, k: nat)
    requires k < |rows| && AllAccepted(rows, rules, k)
    ensures RowAccepted(rows, rules, k) <==> AllAccepted(rows, rules, k + 1)
    ensures AllAccepted(rows, rules, |rows|) ==> RowAccepted(rows, rules, k)
  {
  }

  /** What one accepted row says of itself and of the rows before it. */
  lemma AcceptedAt(rows: seq<Row>, rules: Rules, k: nat)
    requires k < |rows| && RowAccepted(rows, rules, k)
    ensures RowValid(rows[k], |rows|, rules)
    ensures forall j :: 0 <= j < k ==> rows[j].edgeId != rows[k].edgeId && rows[j].segment != rows[k].segment
  {
  }

  lemma ValidWhenAccepted(rows: seq<Row>, rules: Rules)
    requires AllAccepted(rows, rules, |rows|)
    ensures forall k :: 0 <= k < |rows| ==> RowValid(rows[k], |rows|, rules)
    ensures forall j, k :: 0 <= j < k < |rows| ==> rows[j].edgeId != rows[k].edgeId
  {
    forall k | 0 <= k < |rows|
      ensures RowValid(rows[k], |rows|, rules)
      ensures forall j :: 0 <= j < k ==> rows[j].edgeId != rows[k].edgeId
    {
      assert RowAccepted(rows, rules, k);
      AcceptedAt(rows, rules, k);
    }
  }

  /** n rows with distinct ids below n use every id: nothing need be checked again. */
  lemma EveryIdUsed(rows: seq<Row>, rules: Rules, id: int) returns (k: nat)
    requires AllAccepted(rows, rules, |rows|) && 0 <= id < |rows|
    ensures k < |rows| && rows[k].edgeId == id
  {
    ValidWhenAccepted(rows, rules);
    var ids := seq(|rows|, k requires 0 <= k < |rows| => rows[k].edgeId);
    Pigeonhole(ids, |rows|, id);
    k :| 0 <= k < |ids| && ids[k] == id;
  }

  // ---- the row loop

  datatype LoadError = BadBounds | NoFeatures | BadRow(row: nat) | DuplicateEdgeId(row: nat) | DuplicateSegment(row: nat)
    | ContradictoryNode(row: nat, node: int)

  /** Everything the row loop collects. */
  datatype Collected = Collected(
    edges: seq<Edge>, seen: seq<bool>, segments: set<string>, positions: Positions,
    endpoints: seq<(int, int)>, geom: map<string, seq<(real, real)>>)

  function EdgeOf(row: Row): Edge {
    Edge(row.edgeId, row.segment, 0, 0, row.lengthM, row.freeFlowS, row.capacityVph)
  }

  const NO_EDGE := Edge(0, "", 0, 0, 0.0, 0.0, 0.0)

  ghost predicate Collects(rows: seq<Row>, n: nat, c: Collected)
    requires n <= |rows| && Drawn(rows, n)
  {
    && |c.edges| == |c.seen| == |c.endpoints| == |rows|
    && SeenIn(rows, n, c.seen) && NamedIn(rows, n, c.segments)
    && c.positions == PositionsAfter(rows, n)
    && forall j :: 0 <= j < n ==> Holds(c, rows[j])
  }

  ghost predicate Holds(c: Collected, row: Row) {
    && 0 <= row.edgeId < |c.edges| == |c.endpoints|
    && c.edges[row.edgeId] == EdgeOf(row) && c.endpoints[row.edgeId] == (row.source, row.target)
    && row.segment in c.geom && c.geom[row.segment] == row.line
  }

  /** Both ends agree with the node positions so far. */
  predicate EndsAgree(pos: Positions, row: Row)
    requires |row.line| > 0
  {
    && Agrees(pos, row.source, First(row))
    && Agrees(Recorded(pos, row.source, First(row)), row.target, Last(row))
  }

  /** Both ends of a row agree with the node positions so far; the positions with them. */
  method RecordEnds(pos: Positions, row: Row, k: nat) returns (r: Result<Positions, LoadError>)
    requires |row.line| > 0
    ensures r.Ok? <==> EndsAgree(pos, row)
    ensures r.Ok? ==> r.value == Recorded(Recorded(pos, row.source, First(row)), row.target, Last(row))
    ensures r.Err? ==> r.error.ContradictoryNode? && r.error.row == k
  {
    var afterSource := RecordNodePos(pos, row.source, First(row));
    if afterSource.Err? {
      return Err(ContradictoryNode(k, afterSource.error));
    }
    var afterTarget := RecordNodePos(afterSource.value, row.target, Last(row));
    if afterTarget.Err? {
      return Err(ContradictoryNode(k, afterTarget.error));
    }
    return Ok(afterTarget.value);
  }

  /** The cross-row checks against what was collected are those against the rows themselves. */
  lemma AcceptedHere(rows: seq<Row>, rules: Rules, k: nat, c: Collected)
    requires k < |rows| && Drawn(rows, k) && Collects(rows, k, c) && RowValid(rows[k], |rows|, rules)
    ensures Accepted(rows, rules, k) <==>
      !c.seen[rows[k].edgeId] && rows[k].segment !in c.segments && EndsAgree(c.positions, rows[k])
  {
    var row := rows[k];
    assert c.seen[row.edgeId] <==> exists j :: 0 <= j < k && rows[j].edgeId == row.edgeId;
    assert row.segment in c.segments <==> exists j :: 0 <= j < k && rows[j].segment == row.segment;
  }

  /** The row's own checks and its agreement with what was collected; the node positions after it. */
  method CheckRow(rows: seq<Row>, rules: Rules, k: nat, c: Collected) returns (r: Result<Positions, LoadError>)
    requires k < |rows| && Drawn(rows, k) && Collects(rows, k, c)
    ensures r.Ok? <==> Accepted(rows, rules, k)
    ensures r.Ok? ==> Drawn(rows, k + 1) && r.value == PositionsAfter(rows, k + 1)
    ensures r.Ok? ==> !c.seen[rows[k].edgeId] && rows[k].segment !in c.segments
    ensures r.Err? ==> !r.error.NoFeatures? && !r.error.BadBounds? && r.error.row == k
  {
    var row := rows[k];
    var valid := ValidateRow(row, |rows|, rules);
    if !valid {
      return Err(BadRow(k));
    }
    AcceptedHere(rows, rules, k, c);
    if c.seen[row.edgeId] {
      return Err(DuplicateEdgeId(k));
    }
    if row.segment in c.segments {
      return Err(DuplicateSegment(k));
    }
    r := RecordEnds(c.positions, row, k);
  }

  method LoadRow(rows: seq<Row>, rules: Rules, k: nat, c: Collected) returns (r: Result<Collected, LoadError>)
    requires k < |rows| && Drawn(rows, k) && Collects(rows, k, c)
    ensures r.Ok? <==> Accepted(rows, rules, k)
    ensures r.Ok? ==> Drawn(rows, k + 1) && Collects(rows, k + 1, r.value)
    ensures r.Err? ==> !r.error.NoFeatures? && !r.error.BadBounds? && r.error.row == k
  {
    var checked := CheckRow(rows, rules, k, c);
    if checked.Err? {
      return Err(checked.error);
    }
    var row := rows[k];
    var next := Collected(c.edges[row.edgeId := EdgeOf(row)], c.seen[row.edgeId := true], c.segments + {row.segment},
                          checked.value, c.endpoints[row.edgeId := (row.source, row.target)],
                          c.geom[row.segment := row.line]);
    CollectsMore(rows, k, c, next);
    return Ok(next);
  }

  lemma CollectsMore(rows: seq<Row>, k: nat, c: Collected, next: Collected)
    requires k < |rows| && Drawn(rows, k + 1) && Collects(rows, k, c) && 0 <= rows[k].edgeId < |rows|
    requires !c.seen[rows[k].edgeId] && rows[k].segment !in c.segments
    requires var row := rows[k];
      next == Collected(c.edges[row.edgeId := EdgeOf(row)], c.seen[row.edgeId := true], c.segments + {row.segment},
                        PositionsAfter(rows, k + 1), c.endpoints[row.edgeId := (row.source, row.target)],
                        c.geom[row.segment := row.line])
    ensures Collects(rows, k + 1, next)
  {
    HoldsMore(rows, k, c, next);
    SeenMore(rows, k, c.seen);
    NamedMore(rows, k, c.segments);
  }

  lemma HoldsMore(rows: seq<Row>, k: nat, c: Collected, next: Collected)
    requires k < |rows| && Drawn(rows, k) && Collects(rows, k, c) && 0 <= rows[k].edgeId < |rows|
    requires !c.seen[rows[k].edgeId] && rows[k].segment !in c.segments
    requires var row := rows[k];
      && next.edges == c.edges[row.edgeId := EdgeOf(row)]
      && next.endpoints == c.endpoints[row.edgeId := (row.source, row.target)]
      && next.geom == c.geom[row.segment := row.line]
    ensures forall j :: 0 <= j < k + 1 ==> Holds(next, rows[j])
  {
    forall j | 0 <= j < k + 1
      ensures Holds(next, rows[j])
    {
      if j < k {
        StillHolds(rows, k, c, next, j);
      }
    }
  }

  /** A row with a fresh edge id and a fresh segment overwrites nothing an earlier row left. */
  lemma StillHolds(rows: seq<Row>, k: nat, c: Collected, next: Collected, j: nat)
    requires j < k < |rows| && Drawn(rows, k) && Collects(rows, k, c) && 0 <= rows[k].edgeId < |rows|
    requires !c.seen[rows[k].edgeId] && rows[k].segment !in c.segments
    requires var row := rows[k];
      && next.edges == c.edges[row.edgeId := EdgeOf(row)]
      && next.endpoints == c.endpoints[row.edgeId := (row.source, row.target)]
      && next.geom == c.geom[row.segment := row.line]
    ensures Holds(next, rows[j])
  {
    assert Holds(c, rows[j]);
    assert c.seen[rows[j].edgeId];
  }

  ghost predicate SeenIn(rows: seq<Row>, n: nat, seen: seq<bool>)
    requires n <= |rows| == |seen|
  {
    forall id :: 0 <= id < |rows| ==> (seen[id] <==> exists j :: 0 <= j < n && rows[j].edgeId == id)
  }

  lemma SeenMore(rows: seq<Row>, k: nat, seen: seq<bool>)
    requires k < |rows| == |seen| && 0 <= rows[k].edgeId < |rows| && SeenIn(rows, k, seen)
    ensures SeenIn(rows, k + 1, seen[rows[k].edgeId := true])
  {
    var n, after := k + 1, seen[rows[k].edgeId := true];
    forall id | 0 <= id < |rows|
      ensures after[id] <==> exists j :: 0 <= j < n && rows[j].edgeId == id
    {
      if id == rows[k].edgeId {
        assert rows[k].edgeId == id;
      }
    }
  }

  ghost predicate NamedIn(rows: seq<Row>, n: nat, segments: set<string>)
    requires n <= |rows|
  {
    forall s :: s in segments <==> exists j :: 0 <= j < n && rows[j].segment == s
  }

  lemma NamedMore(rows: seq<Row>, k: nat, segments: set<string>)
    requires k < |rows| && NamedIn(rows, k, segments)
    ensures NamedIn(rows, k + 1, segments + {rows[k].segment})
  {
    var n := k + 1;
    forall s
      ensures s in segments + {rows[k].segment} <==> exists j :: 0 <= j < n && rows[j].segment == s
    {
      if s == rows[k].segment {
        assert rows[k].segment == s;
      }
    }
  }

  /** A window the caller gives must make sense. */
  predicate BoundsOk(rules: Rules) {
    rules.bounds.Some? ==> rules.bounds.value.Valid()
  }

  /** The error names the first row that does not pass. */
  ghost predicate FirstFault(rows: seq<Row>, rules: Rules, e: LoadError) {
    match e
    case BadBounds => !BoundsOk(rules)
    case NoFeatures => rows == []
    case _ => e.row < |rows| && AllAccepted(rows, rules, e.row) && Drawn(rows, e.row) && !Accepted(rows, rules, e.row)
  }

  function Nothing(n: nat): Collected {
    Collected(seq(n, _ => NO_EDGE), seq(n, _ => false), {}, map[], seq(n, _ => (0, 0)), map[])
  }

  lemma NothingCollected(rows: seq<Row>)
    ensures Collects(rows, 0, Nothing(|rows|))
  {
  }

  lemma FaultHere(rows: seq<Row>, rules: Rules, k: nat, e: LoadError)
    requires k < |rows| && AllAccepted(rows, rules, k) && Drawn(rows, k) && !Accepted(rows, rules, k)
    requires !e.NoFeatures? && !e.BadBounds? && e.row == k
    ensures FirstFault(rows, rules, e) && !AllAccepted(rows, rules, |rows|)
  {
    AllAcceptedMore(rows, rules, k);
  }

  /** The first k rows passed, and c is what they come to. */
  ghost predicate Collecting(rows: seq<Row>, rules: Rules, k: nat, c: Collected)
    requires k <= |rows|
  {
    AllAccepted(rows, rules, k) && Drawn(rows, k) && Collects(rows, k, c)
  }

  method LoadNext(rows: seq<Row>, rules: Rules, k: nat, c: Collected) returns (r: Result<Collected, LoadError>)
    requires k < |rows| && Collecting(rows, rules, k, c)
    ensures r.Ok? ==> Collecting(rows, rules, k + 1, r.value)
    ensures r.Err? ==> FirstFault(rows, rules, r.error) && !AllAccepted(rows, rules, |rows|)
  {
    r := LoadRow(rows, rules, k, c);
    if r.Err? {
      FaultHere(rows, rules, k, r.error);
    } else {
      AllAcceptedMore(rows, rules, k);
    }
  }

  method LoadRows(rows: seq<Row>, rules: Rules) returns (r: Result<Collected, LoadError>)
    ensures r.Ok? <==> rows != [] && AllAccepted(rows, rules, |rows|)
    ensures r.Ok? ==> Drawn(rows, |rows|) && Collects(rows, |rows|, r.value)
    ensures r.Err? ==> FirstFault(rows, rules, r.error)
  {
    if |rows| == 0 {
      return Err(NoFeatures);
    }
    var c := Nothing(|rows|);
    NothingCollected(rows);
    for k := 0 to |rows|
      invariant Collecting(rows, rules, k, c)
    {
      var loaded := LoadNext(rows, rules, k, c);
      if loaded.Err? {
        return loaded;
      }
      c := loaded.value;
    }
    return Ok(c);
  }

  // ---- dense node ids

  ghost predicate Ascending(s: seq<int>) {
    forall i, j :: 0 <= i < j < |s| ==> s[i] < s[j]
  }

  method InsertId(s: seq<int>, x: int) returns (r: seq<int>)
    requires Ascending(s) && x !in s
    ensures Ascending(r) && forall y :: y in r <==> y in s || y == x
  {
    var k := |s|;
    while k > 0 && s[k - 1] > x
      invariant 0 <= k <= |s| && (k < |s| ==> x < s[k])
    {
      k := k - 1;
    }
    r := s[..k] + [x] + s[k..];
    assert k > 0 ==> s[k - 1] in s;
    InsertedAscends(s, k, x);
    InsertedMembers(s, k, x);
  }

  lemma InsertedAscends(s: seq<int>, k: nat, x: int)
    requires Ascending(s) && k <= |s| && (k > 0 ==> s[k - 1] < x) && (k < |s| ==> x < s[k])
    ensures Ascending(s[..k] + [x] + s[k..])
  {
    var r := s[..k] + [x] + s[k..];
    assert forall i :: 0 <= i < k ==> r[i] == s[i] && (i < k - 1 ==> s[i] < s[k - 1]);
    assert forall i :: k < i < |r| ==> r[i] == s[i - 1] && (i - 1 > k ==> s[k] < s[i - 1]);
  }

  lemma InsertedMembers(s: seq<int>, k: nat, x: int)
    requires k <= |s|
    ensures forall y :: y in s[..k] + [x] + s[k..] <==> y in s || y == x
  {
    assert s == s[..k] + s[k..];
  }

  /** The keys of the position map, sorted, whatever order the map is walked in. */
  method SortedIds(positions: Positions) returns (ids: seq<int>)
    ensures Ascending(ids) && forall id :: id in ids <==> id in positions
  {
    ids := [];
    var todo := positions.Keys;
    while todo != {}
      invariant Ascending(ids) && todo <= positions.Keys
      invariant forall id :: id in ids <==> id in positions && id !in todo
      decreases todo
    {
      var id := Pick(todo);
      ids := InsertId(ids, id);
      todo := todo - {id};
    }
  }

  /** remap and ids are inverse: an order-preserving numbering of the export's node ids from 0. */
  ghost predicate Renumbers(ids: seq<int>, remap: map<int, int>, n: nat)
    requires n <= |ids|
  {
    && (forall i :: 0 <= i < n ==> ids[i] in remap && remap[ids[i]] == i)
    && forall id :: id in remap ==> 0 <= remap[id] < n && ids[remap[id]] == id
  }

  method Renumber(positions: Positions) returns (ids: seq<int>, remap: map<int, int>, nodes: seq<Node>)
    ensures Ascending(ids) && Renumbers(ids, remap, |ids|) && remap.Keys == positions.Keys
    ensures |nodes| == |ids| && forall i :: 0 <= i < |ids| ==> ids[i] in positions && nodes[i] == Node(i, positions[ids[i]])
  {
    ids := SortedIds(positions);
    remap, nodes := map[], [];
    for i := 0 to |ids|
      invariant Renumbers(ids, remap, i) && |nodes| == i
      invariant forall j :: 0 <= j < i ==> ids[j] in positions && nodes[j] == Node(j, positions[ids[j]])
    {
      assert ids[i] in ids;
      remap := remap[ids[i] := i];
      nodes := nodes + [Node(i, positions[ids[i]])];
    }
    forall id
      ensures id in remap <==> id in positions
    {
      if id in positions {
        var i :| 0 <= i < |ids| && ids[i] == id;
      }
    }
  }

  // ---- the whole load

  /** Rewrites each edge's endpoints through the numbering, in place. */
  method RemapEdges(edges: array<Edge>, endpoints: seq<(int, int)>, remap: map<int, int>)
    requires edges.Length == |endpoints|
    requires forall i :: 0 <= i < |endpoints| ==> endpoints[i].0 in remap && endpoints[i].1 in remap
    modifies edges
    ensures forall i :: 0 <= i < edges.Length ==> edges[i] == Placed(old(edges[i]), endpoints[i], remap)
  {
    for i := 0 to edges.Length
      invariant forall j :: 0 <= j < i ==> edges[j] == Placed(old(edges[j]), endpoints[j], remap)
      invariant forall j :: i <= j < edges.Length ==> edges[j] == old(edges[j])
    {
      edges[i] := Placed(edges[i], endpoints[i], remap);
    }
  }

  function Placed(e: Edge, ends: (int, int), remap: map<int, int>): Edge
    requires ends.0 in remap && ends.1 in remap
  {
    e.(from := remap[ends.0], to := remap[ends.1])
  }

  /** What a row becomes in the graph. */
  ghost predicate RowLoaded(g: Graph, remap: map<int, int>, row: Row) {
    && |row.line| >= 2 && row.source in remap && row.target in remap
    && g.HasEdge(row.edgeId) && g.edges[row.edgeId] == Placed(EdgeOf(row), (row.source, row.target), remap)
    && g.HasNode(remap[row.source]) && Near(g.nodes[remap[row.source]].pos, First(row))
    && g.HasNode(remap[row.target]) && Near(g.nodes[remap[row.target]].pos, Last(row))
  }

  lemma NearSelf(p: LatLon)
    ensures Near(p, p)
  {
  }

  /** A row's own endpoints are recorded near where it draws them. */
  lemma {:induction false} OwnPositions(rows: seq<Row>, rules: Rules, k: nat)
    requires k < |rows| && Drawn(rows, k + 1) && Accepted(rows, rules, k)
    ensures PositionsHold(PositionsAfter(rows, k + 1), rows[k])
  {
    NearSelf(First(rows[k]));
    NearSelf(Last(rows[k]));
  }

  ghost predicate PositionsHold(pos: Positions, row: Row)
    requires |row.line| > 0
  {
    row.source in pos && Near(pos[row.source], First(row)) && row.target in pos && Near(pos[row.target], Last(row))
  }

  lemma {:induction false} LaterKeeps(rows: seq<Row>, n: nat, id: int)
    requires n < |rows| && Drawn(rows, n + 1) && id in PositionsAfter(rows, n)
    ensures id in PositionsAfter(rows, n + 1) && PositionsAfter(rows, n + 1)[id] == PositionsAfter(rows, n)[id]
  {
  }

  lemma {:induction false} HeldStays(rows: seq<Row>, k: nat, n: nat)
    requires k < n <= |rows| && Drawn(rows, n) && PositionsHold(PositionsAfter(rows, k + 1), rows[k])
    ensures PositionsHold(PositionsAfter(rows, n), rows[k])
    decreases n
  {
    if k < n - 1 {
      HeldStays(rows, k, n - 1);
      LaterKeeps(rows, n - 1, rows[k].source);
      LaterKeeps(rows, n - 1, rows[k].target);
    }
  }

  lemma {:induction false} PositionsStay(rows: seq<Row>, rules: Rules, k: nat, n: nat)
    requires k < n <= |rows| && AllAccepted(rows, rules, n) && Drawn(rows, n)
    ensures PositionsHold(PositionsAfter(rows, n), rows[k])
  {
    assert RowAccepted(rows, rules, k);
    OwnPositions(rows, rules, k);
    HeldStays(rows, k, n);
  }

  lemma {:induction false} PositionsNamed(rows: seq<Row>, n: nat, id: int)
    requires n <= |rows| && Drawn(rows, n)
    ensures id in PositionsAfter(rows, n) <==> exists k :: 0 <= k < n && (rows[k].source == id || rows[k].target == id)
  {
    if n > 0 {
      PositionsNamed(rows, n - 1, id);
      if rows[n - 1].source == id || rows[n - 1].target == id {
        var k := n - 1;
        assert rows[k].source == id || rows[k].target == id;
      }
    }
  }

  /** The final edge list holds each row at its edge id, with its endpoints renumbered. */
  lemma EdgesPlaced(rows: seq<Row>, rules: Rules, c: Collected, remap: map<int, int>, id: int) returns (k: nat)
    requires AllAccepted(rows, rules, |rows|) && Drawn(rows, |rows|) && Collects(rows, |rows|, c)
    requires remap.Keys == c.positions.Keys && 0 <= id < |rows|
    ensures k < |rows| && rows[k].edgeId == id && c.edges[id] == EdgeOf(rows[k])
    ensures c.endpoints[id] == (rows[k].source, rows[k].target)
    ensures rows[k].source in remap && rows[k].target in remap
  {
    k := EveryIdUsed(rows, rules, id);
    assert Holds(c, rows[k]);
    PositionsStay(rows, rules, k, |rows|);
  }

  /** Every row is in the graph and its line is kept; the nodes are those the rows name, renumbered in order. */
  ghost predicate Loaded(rows: seq<Row>, g: Graph, geom: map<string, seq<(real, real)>>, ids: seq<int>, remap: map<int, int>) {
    && |g.edges| == |rows| && |g.nodes| == |ids| && Ascending(ids) && Renumbers(ids, remap, |ids|)
    && (forall id :: id in remap <==> exists k :: 0 <= k < |rows| && (rows[k].source == id || rows[k].target == id))
    && forall k :: 0 <= k < |rows| ==>
         RowLoaded(g, remap, rows[k]) && rows[k].segment in geom && geom[rows[k].segment] == rows[k].line
  }

  lemma AllLoaded(rows: seq<Row>, rules: Rules, c: Collected, ids: seq<int>, remap: map<int, int>, g: Graph)
    requires AllAccepted(rows, rules, |rows|) && Drawn(rows, |rows|) && Collects(rows, |rows|, c)
    requires remap.Keys == c.positions.Keys && Ascending(ids) && Renumbers(ids, remap, |ids|)
    requires NodesHold(c, ids, g.nodes) && EdgesHold(rows, c, remap, g.edges)
    ensures Loaded(rows, g, c.geom, ids, remap)
  {
    forall id
      ensures id in remap <==> exists k :: 0 <= k < |rows| && (rows[k].source == id || rows[k].target == id)
    {
      PositionsNamed(rows, |rows|, id);
    }
    forall k | 0 <= k < |rows|
      ensures RowLoaded(g, remap, rows[k]) && rows[k].segment in c.geom && c.geom[rows[k].segment] == rows[k].line
    {
      RowIsLoaded(rows, rules, c, ids, remap, g, k);
    }
  }

  /**
   Loads an export or rejects it whole. It is accepted exactly when the expected window makes
   sense and every row passes its own checks and agrees with the rows before it; building the
   graph then cannot fail.
   */
  method Load(rows: seq<Row>, rules: Rules)
    returns (r: Result<(Adjacency.AdjacencyGraph, map<string, seq<(real, real)>>), LoadError>,
             ids: seq<int>, remap: map<int, int>)
    ensures r.Ok? <==> BoundsOk(rules) && rows != [] && AllAccepted(rows, rules, |rows|)
    ensures r.Err? ==> FirstFault(rows, rules, r.error)
    ensures r.Ok? ==> r.value.0.Valid() && Loaded(rows, r.value.0.graph, r.value.1, ids, remap)
  {
    ids, remap := [], map[];
    if !BoundsOk(rules) {
      return Err(BadBounds), ids, remap;
    }
    var collected := LoadRows(rows, rules);
    if collected.Err? {
      return Err(collected.error), ids, remap;
    }
    var c := collected.value;
    var nodes;
    ids, remap, nodes := Renumber(c.positions);
    var edges := Place(rows, rules, c, remap);
    GraphIsValid(rows, rules, c, ids, remap, Graph(nodes, edges));
    AllLoaded(rows, rules, c, ids, remap, Graph(nodes, edges));
    var built := Adjacency.New(nodes, edges);
    if built.Err? {
      assert false;
    }
    return Ok((built.value, c.geom)), ids, remap;
  }

  ghost predicate EdgesHold(rows: seq<Row>, c: Collected, remap: map<int, int>, edges: seq<Edge>)
    requires Drawn(rows, |rows|) && Collects(rows, |rows|, c)
  {
    && |edges| == |rows|
    && forall id :: 0 <= id < |rows| ==>
         c.endpoints[id].0 in remap && c.endpoints[id].1 in remap
         && edges[id] == Placed(c.edges[id], c.endpoints[id], remap)
  }

  method Place(rows: seq<Row>, ghost rules: Rules, c: Collected, remap: map<int, int>) returns (edges: seq<Edge>)
    requires AllAccepted(rows, rules, |rows|) && Drawn(rows, |rows|) && Collects(rows, |rows|, c)
    requires remap.Keys == c.positions.Keys
    ensures EdgesHold(rows, c, remap, edges)
  {
    var slots := new Edge[|c.edges|](i requires 0 <= i < |c.edges| => c.edges[i]);
    forall id | 0 <= id < |rows|
      ensures c.endpoints[id].0 in remap && c.endpoints[id].1 in remap
    {
      var k := EdgesPlaced(rows, rules, c, remap, id);
    }
    RemapEdges(slots, c.endpoints, remap);
    edges := slots[..];
  }

  ghost predicate NodesHold(c: Collected, ids: seq<int>, nodes: seq<Node>) {
    |nodes| == |ids| && forall i :: 0 <= i < |ids| ==> ids[i] in c.positions && nodes[i] == Node(i, c.positions[ids[i]])
  }

  lemma GraphIsValid(rows: seq<Row>, rules: Rules, c: Collected, ids: seq<int>, remap: map<int, int>, g: Graph)
    requires AllAccepted(rows, rules, |rows|) && Drawn(rows, |rows|) && Collects(rows, |rows|, c)
    requires remap.Keys == c.positions.Keys && Renumbers(ids, remap, |ids|) && NodesHold(c, ids, g.nodes)
    requires EdgesHold(rows, c, remap, g.edges)
    ensures g.Valid()
  {
    forall id | 0 <= id < |g.edges|
      ensures g.edges[id].id == id && g.HasNode(g.edges[id].from) && g.HasNode(g.edges[id].to)
    {
      var k := EdgesPlaced(rows, rules, c, remap, id);
    }
  }

  lemma RowIsLoaded(rows: seq<Row>, rules: Rules, c: Collected, ids: seq<int>, remap: map<int, int>, g: Graph, k: nat)
    requires AllAccepted(rows, rules, |rows|) && Drawn(rows, |rows|) && Collects(rows, |rows|, c)
    requires remap.Keys == c.positions.Keys && Renumbers(ids, remap, |ids|) && NodesHold(c, ids, g.nodes)
    requires EdgesHold(rows, c, remap, g.edges) && k < |rows|
    ensures RowLoaded(g, remap, rows[k]) && rows[k].segment in c.geom && c.geom[rows[k].segment] == rows[k].line
  {
    assert RowAccepted(rows, rules, k);
    AcceptedAt(rows, rules, k);
    assert Holds(c, rows[k]);
    PositionsStay(rows, rules, k, |rows|);
  }
}
