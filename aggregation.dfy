/** The aggregation at the end of `get_main` (streamlit_busline.py:166-181):
    concatenating the per-line tables, grouping the stop points by `line_id`
    into one path per line, inner-joining the paths to the metadata on `id`,
    and tagging both collections with the WGS-84 reference system. */
module Aggregation {
  import opened Wrappers
  import opened Records

  /** The reference system both collections are tagged with. */
  const Crs: string := "EPSG:4326"

  /** A GeoDataFrame: its rows and its `crs`. */
  datatype GeoFrame<R> = GeoFrame(rows: seq<R>, crs: string)

  /** One row of the line collection: the metadata and the `LineString`. */
  datatype LineRow = LineRow(info: LineInfo, path: seq<Point>)

  /** `pd.concat(tables)`: the tables' rows one table after another. */
  function Concat<T>(tables: seq<seq<T>>): seq<T>
    decreases |tables|
  {
    if |tables| == 0 then []
    else Concat(tables[..|tables| - 1]) + tables[|tables| - 1]
  }

  /** The `geometry` column of `rows`, in row order. */
  function Points(rows: seq<StopRow>): (ps: seq<Point>)
    ensures |ps| == |rows|
    ensures forall k :: 0 <= k < |rows| ==> ps[k] == rows[k].geometry
  {
    seq(|rows|, k requires 0 <= k < |rows| => rows[k].geometry)
  }

  /** `x.tolist()` for the group of `line_id == id`: the geometries of the
      rows carrying that id, in the frame's row order. */
  function PathOf(rows: seq<StopRow>, id: string): (path: seq<Point>)
    ensures |path| <= |rows|
    decreases |rows|
  {
    if |rows| == 0 then []
    else
      var last := rows[|rows| - 1];
      PathOf(rows[..|rows| - 1], id) + (if last.lineId == id then [last.geometry] else [])
  }

  /** The group keys of `groupby('line_id')`. */
  function LineIds(rows: seq<StopRow>): set<string> {
    set k | 0 <= k < |rows| :: rows[k].lineId
  }

  /** `groupby('line_id')['geometry'].apply(LineString)`: one path per line id. */
  function GroupPaths(rows: seq<StopRow>): map<string, seq<Point>> {
    map id | id in LineIds(rows) :: PathOf(rows, id)
  }

  /** `pd.merge(all_line_df, geo_line, left_on='id', right_on='line_id')`: an
      inner join that keeps the metadata rows, in order, whose `id` has a path. */
  function Merge(infos: seq<LineInfo>, paths: map<string, seq<Point>>): (joined: seq<LineRow>)
    ensures |joined| <= |infos|
    ensures forall k :: 0 <= k < |joined| ==>
              joined[k].info.id in paths && joined[k].path == paths[joined[k].info.id]
    decreases |infos|
  {
    if |infos| == 0 then []
    else
      var m := infos[|infos| - 1];
      Merge(infos[..|infos| - 1], paths) + (if m.id in paths then [LineRow(m, paths[m.id])] else [])
  }

  /** Every group has the two points shapely's `LineString` needs. */
  predicate Drawable(paths: map<string, seq<Point>>) {
    forall id :: id in paths ==> |paths[id]| >= 2
  }

  /** The stop collection and the line collection `get_main` exports, or the
      error the grouping raises on a group of fewer than two points. */
  function Aggregate(stopTables: seq<seq<StopRow>>, lineTables: seq<LineInfo>)
    : (r: Result<(GeoFrame<StopRow>, GeoFrame<LineRow>), Error>)
    ensures r.Failure? ==> r.error == ShortLineString
    ensures r.Success? ==>
              && r.value.0.crs == Crs && r.value.1.crs == Crs
              && |r.value.1.rows| <= |lineTables|
              && forall k :: 0 <= k < |r.value.1.rows| ==> |r.value.1.rows[k].path| >= 2
  {
    var allStops := Concat(stopTables);
    var geoLine := GroupPaths(allStops);
    if !Drawable(geoLine) then Failure(ShortLineString)
    else Success((GeoFrame(allStops, Crs), GeoFrame(Merge(lineTables, geoLine), Crs)))
  }

  /** Every metadata row's stop table is tagged with that row's `id` and is
      not empty: the shape `get_main`'s two accumulators keep. */
  predicate Paired(stopTables: seq<seq<StopRow>>, lineTables: seq<LineInfo>) {
    && |stopTables| == |lineTables|
    && forall i :: 0 <= i < |stopTables| ==>
         |stopTables[i]| == lineTables[i].busstopsNumber > 0 && TaggedWith(stopTables[i], lineTables[i].id)
  }

  /** No two metadata rows share an `id`. */
  predicate DistinctIds(lineTables: seq<LineInfo>) {
    forall i, j :: 0 <= i < j < |lineTables| ==> lineTables[i].id != lineTables[j].id
  }

  /** The number of stops the metadata rows count. */
  function TotalStops(lineTables: seq<LineInfo>): nat
    decreases |lineTables|
  {
    if |lineTables| == 0 then 0
    else TotalStops(lineTables[..|lineTables| - 1]) + lineTables[|lineTables| - 1].busstopsNumber
  }

  // ---------------------------------------------------------------------
  // Concatenation

  /** Every row of every table is a row of the concatenation, and nothing else is. */
  lemma {:induction false} ConcatMembers<T>(tables: seq<seq<T>>, x: T)
    ensures x in Concat(tables) <==> exists i :: 0 <= i < |tables| && x in tables[i]
    decreases |tables|
  {
    if |tables| > 0 {
      var init := tables[..|tables| - 1];
      ConcatMembers(init, x);
      assert forall i :: 0 <= i < |init| ==> init[i] == tables[i];
    }
  }

  /** With paired tables the stop collection has as many rows as the
      metadata rows' `busstops_number` add up to. */
  lemma {:induction false} ConcatCount(stopTables: seq<seq<StopRow>>, lineTables: seq<LineInfo>)
    requires Paired(stopTables, lineTables)
    ensures |Concat(stopTables)| == TotalStops(lineTables)
    decreases |stopTables|
  {
    if |stopTables| > 0 {
      var n := |stopTables| - 1;
      ConcatCount(stopTables[..n], lineTables[..n]);
    }
  }

  // ---------------------------------------------------------------------
  // Grouping

  /** The group of a concatenation is the groups of the parts, in order. */
  lemma {:induction false} PathOfAppend(a: seq<StopRow>, b: seq<StopRow>, id: string)
    ensures PathOf(a + b, id) == PathOf(a, id) + PathOf(b, id)
    decreases |b|
  {
    if |b| > 0 {
      var n := |b| - 1;
      PathOfAppend(a, b[..n], id);
      assert (a + b)[..|a + b| - 1] == a + b[..n];
    } else {
      assert a + b == a;
    }
  }

  /** A table tagged with `id` throughout forms the group of `id` whole, in
      row order. */
  lemma {:induction false} PathOfTagged(rows: seq<StopRow>, id: string)
    requires TaggedWith(rows, id)
    ensures PathOf(rows, id) == Points(rows)
    decreases |rows|
  {
    if |rows| > 0 {
      var n := |rows| - 1;
      PathOfTagged(rows[..n], id);
    }
  }

  /** A prefix of paired tables is paired. */
  lemma PairedPrefix(stopTables: seq<seq<StopRow>>, lineTables: seq<LineInfo>, n: nat)
    requires Paired(stopTables, lineTables) && n <= |stopTables|
    ensures Paired(stopTables[..n], lineTables[..n])
  {
  }

  /** A table tagged with another id adds nothing to the group of `id`. */
  lemma {:induction false} PathOfOther(rows: seq<StopRow>, other: string, id: string)
    requires TaggedWith(rows, other) && other != id
    ensures PathOf(rows, id) == []
    decreases |rows|
  {
    if |rows| > 0 {
      PathOfOther(rows[..|rows| - 1], other, id);
    }
  }

  /** When no metadata row but row `i` has `id`, the group of `id` in the
      stop collection is exactly table `i`'s points, in that table's order. */
  lemma {:induction false} PathOfConcat(stopTables: seq<seq<StopRow>>, lineTables: seq<LineInfo>, i: nat)
    requires Paired(stopTables, lineTables)
    requires i < |lineTables|
    requires forall j :: 0 <= j < |lineTables| && j != i ==> lineTables[j].id != lineTables[i].id
    ensures PathOf(Concat(stopTables), lineTables[i].id) == Points(stopTables[i])
    decreases |stopTables|
  {
    var n := |stopTables| - 1;
    var id := lineTables[i].id;
    PairedPrefix(stopTables, lineTables, n);
    PathOfAppend(Concat(stopTables[..n]), stopTables[n], id);
    if i == n {
      PathOfTagged(stopTables[n], id);
      PathOfAbsent(stopTables[..n], lineTables[..n], id);
    } else {
      PathOfOther(stopTables[n], lineTables[n].id, id);
      PathOfConcat(stopTables[..n], lineTables[..n], i);
    }
  }

  /** An id no metadata row carries has an empty group. */
  lemma {:induction false} PathOfAbsent(stopTables: seq<seq<StopRow>>, lineTables: seq<LineInfo>, id: string)
    requires Paired(stopTables, lineTables)
    requires forall j :: 0 <= j < |lineTables| ==> lineTables[j].id != id
    ensures PathOf(Concat(stopTables), id) == []
    decreases |stopTables|
  {
    if |stopTables| > 0 {
      var n := |stopTables| - 1;
      PairedPrefix(stopTables, lineTables, n);
      PathOfAppend(Concat(stopTables[..n]), stopTables[n], id);
      PathOfOther(stopTables[n], lineTables[n].id, id);
      PathOfAbsent(stopTables[..n], lineTables[..n], id);
    }
  }

  /** Every metadata row's `id` is a group key of the paired stop collection. */
  lemma IdsAreGroupKeys(stopTables: seq<seq<StopRow>>, lineTables: seq<LineInfo>)
    requires Paired(stopTables, lineTables)
    ensures forall i :: 0 <= i < |lineTables| ==> lineTables[i].id in LineIds(Concat(stopTables))
  {
    forall i | 0 <= i < |lineTables|
      ensures lineTables[i].id in LineIds(Concat(stopTables))
    {
      var row := stopTables[i][0];
      ConcatMembers(stopTables, row);
      var all := Concat(stopTables);
      var k :| 0 <= k < |all| && all[k] == row;
      assert all[k].lineId == lineTables[i].id;
    }
  }

  // ---------------------------------------------------------------------
  // The inner join

  /** A line row is in the join exactly when its metadata row is, its `id`
      has a path, and the path is that id's: metadata without stops is dropped. */
  lemma {:induction false} MergeMembers(infos: seq<LineInfo>, paths: map<string, seq<Point>>, row: LineRow)
    ensures row in Merge(infos, paths) <==>
              row.info in infos && row.info.id in paths && row.path == paths[row.info.id]
    decreases |infos|
  {
    if |infos| > 0 {
      var init := infos[..|infos| - 1];
      MergeMembers(init, paths, row);
      assert infos == init + [infos[|infos| - 1]];
    }
  }

  /** When every `id` has a path the join keeps every metadata row, in order. */
  lemma {:induction false} MergeKeepsAll(infos: seq<LineInfo>, paths: map<string, seq<Point>>)
    requires forall i :: 0 <= i < |infos| ==> infos[i].id in paths
    ensures |Merge(infos, paths)| == |infos|
    ensures forall i :: 0 <= i < |infos| ==> Merge(infos, paths)[i] == LineRow(infos[i], paths[infos[i].id])
    decreases |infos|
  {
    if |infos| > 0 {
      MergeKeepsAll(infos[..|infos| - 1], paths);
    }
  }

  // ---------------------------------------------------------------------
  // The two collections

  /** The group of a line's `id` holds at least that line's own stops. */
  lemma {:induction false} PathOfAtLeast(stopTables: seq<seq<StopRow>>, lineTables: seq<LineInfo>, i: nat)
    requires Paired(stopTables, lineTables)
    requires i < |lineTables|
    ensures |PathOf(Concat(stopTables), lineTables[i].id)| >= |stopTables[i]|
    decreases |stopTables|
  {
    var n := |stopTables| - 1;
    var id := lineTables[i].id;
    PairedPrefix(stopTables, lineTables, n);
    PathOfAppend(Concat(stopTables[..n]), stopTables[n], id);
    if i == n {
      PathOfTagged(stopTables[n], id);
    } else {
      PathOfAtLeast(stopTables[..n], lineTables[..n], i);
    }
  }

  /** Every group key of the stop collection is some metadata row's `id`. */
  lemma GroupKeysAreIds(stopTables: seq<seq<StopRow>>, lineTables: seq<LineInfo>, id: string)
    requires Paired(stopTables, lineTables)
    requires id in LineIds(Concat(stopTables))
    ensures exists i :: 0 <= i < |lineTables| && lineTables[i].id == id
  {
    var all := Concat(stopTables);
    var k :| 0 <= k < |all| && all[k].lineId == id;
    ConcatMembers(stopTables, all[k]);
    var i :| 0 <= i < |stopTables| && all[k] in stopTables[i];
    var j :| 0 <= j < |stopTables[i]| && stopTables[i][j] == all[k];
    assert lineTables[i].id == id;
  }

  /** The grouping raises only on a line of fewer than two stops: with
      paired tables it succeeds when every line has two stops or more, and
      when the ids are distinct it succeeds exactly then. */
  lemma AggregateDrawable(stopTables: seq<seq<StopRow>>, lineTables: seq<LineInfo>)
    requires Paired(stopTables, lineTables)
    ensures Aggregate(stopTables, lineTables).Failure? ==>
              Aggregate(stopTables, lineTables).error == ShortLineString
    ensures (forall i :: 0 <= i < |lineTables| ==> lineTables[i].busstopsNumber >= 2) ==>
              Aggregate(stopTables, lineTables).Success?
    ensures DistinctIds(lineTables) ==>
              (Aggregate(stopTables, lineTables).Success? <==>
                 forall i :: 0 <= i < |lineTables| ==> lineTables[i].busstopsNumber >= 2)
  {
    var all := Concat(stopTables);
    var paths := GroupPaths(all);
    if forall i :: 0 <= i < |lineTables| ==> lineTables[i].busstopsNumber >= 2 {
      forall id | id in paths
        ensures |paths[id]| >= 2
      {
        GroupKeysAreIds(stopTables, lineTables, id);
        var i :| 0 <= i < |lineTables| && lineTables[i].id == id;
        PathOfAtLeast(stopTables, lineTables, i);
      }
    }
    if DistinctIds(lineTables) && Drawable(paths) {
      IdsAreGroupKeys(stopTables, lineTables);
      forall i | 0 <= i < |lineTables|
        ensures lineTables[i].busstopsNumber >= 2
      {
        PathOfConcat(stopTables, lineTables, i);
        assert |paths[lineTables[i].id]| >= 2;
      }
    }
  }

  /** For paired tables that group without error: both collections are
      tagged EPSG:4326; the stop collection is the tables concatenated in
      order; the line collection keeps every metadata row in order, each with
      the path of its `id` in the stop collection, of two points or more; and when the ids are
      distinct that path is the line's own stop table's points in table
      order, not sorted by `sequence`, with `busstops_number` points. */
  lemma AggregatePaired(stopTables: seq<seq<StopRow>>, lineTables: seq<LineInfo>)
    requires Paired(stopTables, lineTables)
    requires Aggregate(stopTables, lineTables).Success?
    ensures var (stops, lines) := Aggregate(stopTables, lineTables).value;
            && stops.crs == Crs && lines.crs == Crs
            && stops.rows == Concat(stopTables)
            && |stops.rows| == TotalStops(lineTables)
            && |lines.rows| == |lineTables|
            && forall i :: 0 <= i < |lineTables| ==>
                 && lines.rows[i].info == lineTables[i]
                 && lines.rows[i].path == PathOf(stops.rows, lineTables[i].id)
                 && |lines.rows[i].path| >= 2
    ensures DistinctIds(lineTables) ==>
              var lines := Aggregate(stopTables, lineTables).value.1;
              forall i :: 0 <= i < |lineTables| ==>
                && lines.rows[i].path == Points(stopTables[i])
                && |lines.rows[i].path| == lineTables[i].busstopsNumber
  {
    var all := Concat(stopTables);
    IdsAreGroupKeys(stopTables, lineTables);
    MergeKeepsAll(lineTables, GroupPaths(all));
    ConcatCount(stopTables, lineTables);
    if DistinctIds(lineTables) {
      forall i | 0 <= i < |lineTables|
        ensures PathOf(all, lineTables[i].id) == Points(stopTables[i])
      {
        PathOfConcat(stopTables, lineTables, i);
      }
    }
  }
}
