/** `get_main` (streamlit_busline.py:112-184): the batch over the requested
    line names, with the first line fetched unprotected, every later line
    skipped when `get_bus_line` raises, a progress value per later line, and
    the aggregation of what succeeded. */
module Pipeline {
  import opened Wrappers
  import opened Records
  import opened Aggregation
  import BusLines

  /** `get_main`'s two accumulators, `stop_df_list` and `line_df_list`, and
      the lines it reported as skipped with the error they raised. */
  datatype Batch = Batch(stopTables: seq<seq<StopRow>>, lineTables: seq<LineInfo>,
                         skipped: seq<(string, Error)>)

  /** What a completed run hands over: the two collections it exports, the
      values the progress bar was set to, and the skipped lines. */
  datatype Export = Export(stops: GeoFrame<StopRow>, lines: GeoFrame<LineRow>,
                           progress: seq<nat>, skipped: seq<(string, Error)>)

  /** The value the progress bar is set to before line `index + 1` of `length`. */
  function Progress(index: nat, length: nat): nat
    requires length > 0
  {
    (index + 2) * 100 / length
  }

  /** The values the progress bar takes: 0 when it is created, then one
      value before each line after the first. */
  function ProgressTrace(length: nat): seq<nat>
    requires length > 0
  {
    [0] + seq(length - 1, index requires 0 <= index < length - 1 => Progress(index, length))
  }

  /** `get_bus_line` as a function of the line name, for one key, city and
      set of collaborators. */
  function Attempts(key: string, city: string, svc: Services): string -> Result<LineData, Error> {
    line => BusLines.BusLineOf(key, city, line, svc)
  }

  /** The accumulators after the loop has handled `lines` (the names after
      `data[0]`), starting from the first line's tables. */
  function Collect(first: LineData, lines: seq<string>, attempt: string -> Result<LineData, Error>): (b: Batch)
    ensures |b.stopTables| == |b.lineTables| >= 1
    ensures b.stopTables[0] == first.stops && b.lineTables[0] == first.info
    ensures |b.lineTables| + |b.skipped| == |lines| + 1
    decreases |lines|
  {
    if |lines| == 0 then Batch([first.stops], [first.info], [])
    else
      var b := Collect(first, lines[..|lines| - 1], attempt);
      var line := lines[|lines| - 1];
      match attempt(line)
      case Success(d) => b.(stopTables := b.stopTables + [d.stops], lineTables := b.lineTables + [d.info])
      case Failure(e) => b.(skipped := b.skipped + [(line, e)])
  }

  /** What `get_main(city, key, data)` produces or raises. */
  function RunOf(city: string, key: string, data: seq<string>, svc: Services): Result<Export, Error> {
    if |data| == 0 then Failure(IndexError)
    else
      var first :- BusLines.BusLineOf(key, city, data[0], svc);
      var batch := Collect(first, data[1..], Attempts(key, city, svc));
      var frames :- Aggregate(batch.stopTables, batch.lineTables);
      Success(Export(frames.0, frames.1, ProgressTrace(|data|), batch.skipped))
  }

  /** `get_main` itself, with the UI, the map and the file export left out. */
  method GetMain(city: string, key: string, data: seq<string>, svc: Services)
    returns (r: Result<Export, Error>)
    ensures r == RunOf(city, key, data, svc)
  {
    var stopDfList: seq<seq<StopRow>> := [];
    var lineDfList: seq<LineInfo> := [];
    var length := |data|;
    var progress: seq<nat> := [0];
    if length == 0 {
      return Failure(IndexError);
    }
    var first := BusLines.GetBusLine(key, city, data[0], svc);
    if first.Failure? {
      return Failure(first.error);
    }
    stopDfList := stopDfList + [first.value.stops];
    lineDfList := lineDfList + [first.value.info];
    var skipped: seq<(string, Error)> := [];
    var rest := data[1..];
    for index := 0 to |rest|
      invariant Batch(stopDfList, lineDfList, skipped) == Collect(first.value, rest[..index], Attempts(key, city, svc))
      invariant progress == ProgressTrace(length)[..index + 1]
    {
      var line := rest[index];
      ProgressTraceStep(length, index);
      progress := progress + [Progress(index, length)];
      stopDfList, lineDfList, skipped := TryLine(key, city, line, svc, stopDfList, lineDfList, skipped, first.value, rest[..index]);
      assert rest[..index + 1] == rest[..index] + [line];
    }
    assert rest[..|rest|] == rest;
    assert Batch(stopDfList, lineDfList, skipped) == Collect(first.value, data[1..], Attempts(key, city, svc));
    assert progress == ProgressTrace(length);
    var frames := Aggregate(stopDfList, lineDfList);
    if frames.Failure? {
      return Failure(frames.error);
    }
    return Success(Export(frames.value.0, frames.value.1, progress, skipped));
  }

  /** One iteration's `try`: the line's tables are appended, or the line is
      reported as skipped with the error `get_bus_line` raised. */
  method TryLine(key: string, city: string, line: string, svc: Services,
                 stopDfList: seq<seq<StopRow>>, lineDfList: seq<LineInfo>, skipped: seq<(string, Error)>,
                 ghost first: LineData, ghost done: seq<string>)
    returns (stopDfList': seq<seq<StopRow>>, lineDfList': seq<LineInfo>, skipped': seq<(string, Error)>)
    requires Batch(stopDfList, lineDfList, skipped) == Collect(first, done, Attempts(key, city, svc))
    ensures Batch(stopDfList', lineDfList', skipped') == Collect(first, done + [line], Attempts(key, city, svc))
  {
    stopDfList', lineDfList', skipped' := stopDfList, lineDfList, skipped;
    var outcome := BusLines.GetBusLine(key, city, line, svc);
    assert outcome == Attempts(key, city, svc)(line);
    CollectStep(first, done, line, Attempts(key, city, svc));
    if outcome.Success? {
      stopDfList' := stopDfList + [outcome.value.stops];
      lineDfList' := lineDfList + [outcome.value.info];
    } else {
      skipped' := skipped + [(line, outcome.error)];
    }
  }

  // ---------------------------------------------------------------------
  // Progress

  lemma ProgressTraceStep(length: nat, index: nat)
    requires index + 1 < length
    ensures ProgressTrace(length)[..index + 2] == ProgressTrace(length)[..index + 1] + [Progress(index, length)]
  {
  }

  lemma MulMonotone(d: nat, x: nat, y: nat)
    requires x <= y
    ensures d * x <= d * y
  {
    assert d * y == d * x + d * (y - x);
  }

  lemma DivMonotone(a: nat, b: nat, d: nat)
    requires a <= b && d > 0
    ensures a / d <= b / d
  {
    if a / d > b / d {
      var q, p := a / d, b / d;
      assert d * q <= a;
      assert b < d * p + d;
      MulMonotone(d, p + 1, q);
      assert false;
    }
  }

  /** A later line never gets a smaller progress value. */
  lemma ProgressMonotone(i: nat, j: nat, length: nat)
    requires i <= j && length > 0
    ensures Progress(i, length) <= Progress(j, length)
  {
    MulMonotone(100, i + 2, j + 2);
    DivMonotone((i + 2) * 100, (j + 2) * 100, length);
  }

  lemma MulDivCancel(a: nat, d: nat)
    requires d > 0
    ensures (a * d) / d == a
  {
    var q, r := (a * d) / d, (a * d) % d;
    assert a * d == d * q + r && 0 <= r < d;
    if q > a {
      MulMonotone(d, a + 1, q);
      assert false;
    } else if q < a {
      MulMonotone(d, q + 1, a);
      assert false;
    }
  }

  /** Progress never passes 100, and the last line gets exactly 100. */
  lemma ProgressAtMost100(index: nat, length: nat)
    requires index + 2 <= length
    ensures Progress(index, length) <= 100
    ensures index + 2 == length ==> Progress(index, length) == 100
  {
    MulMonotone(100, index + 2, length);
    assert (index + 2) * 100 <= 100 * length;
    DivMonotone((index + 2) * 100, 100 * length, length);
    MulDivCancel(100, length);
  }

  /** The progress bar starts at 0, never goes down, never passes 100, and
      reaches 100 on the last line when there is more than one. */
  lemma ProgressBounds(length: nat)
    requires length > 0
    ensures var t := ProgressTrace(length);
            && |t| == length
            && t[0] == 0
            && (forall k :: 0 <= k < |t| ==> t[k] <= 100)
            && (forall j, k :: 0 <= j <= k < |t| ==> t[j] <= t[k])
            && (length >= 2 ==> t[length - 1] == 100)
  {
    var t := ProgressTrace(length);
    forall k | 1 <= k < |t|
      ensures t[k] <= 100
    {
      ProgressAtMost100(k - 1, length);
    }
    forall j, k | 0 <= j <= k < |t|
      ensures t[j] <= t[k]
    {
      if 1 <= j {
        ProgressMonotone(j - 1, k - 1, length);
      }
    }
    if length >= 2 {
      ProgressAtMost100(length - 2, length);
    }
  }

  // ---------------------------------------------------------------------
  // The loop

  /** Every line `attempt` returns has the shape `get_bus_line` guarantees. */
  ghost predicate Reliable(attempt: string -> Result<LineData, Error>) {
    forall line :: attempt(line).Success? ==> BusLines.WellFormed(attempt(line).value)
  }

  lemma AttemptsReliable(key: string, city: string, svc: Services)
    ensures Reliable(Attempts(key, city, svc))
  {
    forall line | Attempts(key, city, svc)(line).Success?
      ensures BusLines.WellFormed(Attempts(key, city, svc)(line).value)
    {
      BusLines.BusLineOfWellFormed(key, city, line, svc);
    }
  }

  /** One iteration: a line that raises leaves both accumulators as they
      were and is reported as skipped; a line that succeeds appends exactly
      its stop table and its metadata row. */
  lemma CollectStep(first: LineData, lines: seq<string>, line: string, attempt: string -> Result<LineData, Error>)
    ensures var before, after := Collect(first, lines, attempt), Collect(first, lines + [line], attempt);
            match attempt(line)
            case Failure(e) =>
              after == Batch(before.stopTables, before.lineTables, before.skipped + [(line, e)])
            case Success(d) =>
              after == Batch(before.stopTables + [d.stops], before.lineTables + [d.info], before.skipped)
  {
    assert (lines + [line])[..|lines|] == lines;
  }

  /** The accumulators stay paired: equal length, the first line's tables
      first, stop table `i` tagged with metadata row `i`'s `id` and holding
      `busstops_number` rows; every name after the first is either
      accumulated or skipped. */
  lemma {:induction false} CollectPaired(first: LineData, lines: seq<string>, attempt: string -> Result<LineData, Error>)
    requires BusLines.WellFormed(first) && Reliable(attempt)
    ensures var b := Collect(first, lines, attempt);
            && Paired(b.stopTables, b.lineTables)
            && |b.lineTables| >= 1
            && b.stopTables[0] == first.stops && b.lineTables[0] == first.info
            && |b.lineTables| + |b.skipped| == |lines| + 1
    decreases |lines|
  {
    if |lines| > 0 {
      CollectPaired(first, lines[..|lines| - 1], attempt);
    }
  }

  /** Some line of `lines` returned exactly this metadata row and stop table. */
  ghost predicate ReturnedBySome(lines: seq<string>, attempt: string -> Result<LineData, Error>,
                                 info: LineInfo, stops: seq<StopRow>) {
    exists line :: line in lines && attempt(line).Success? &&
                   attempt(line).value.info == info && attempt(line).value.stops == stops
  }

  /** Each skipped entry names a line of the batch that raised, with the
      error it raised; each accumulated table after the first is the result
      of some line of the batch. */
  lemma {:induction false} CollectProvenance(first: LineData, lines: seq<string>, attempt: string -> Result<LineData, Error>)
    ensures var b := Collect(first, lines, attempt);
            && (forall k :: 0 <= k < |b.skipped| ==>
                  b.skipped[k].0 in lines && attempt(b.skipped[k].0) == Failure(b.skipped[k].1))
            && |b.stopTables| == |b.lineTables| >= 1
            && (forall i :: 1 <= i < |b.lineTables| ==> ReturnedBySome(lines, attempt, b.lineTables[i], b.stopTables[i]))
    decreases |lines|
  {
    if |lines| > 0 {
      var init, line := lines[..|lines| - 1], lines[|lines| - 1];
      CollectProvenance(first, init, attempt);
      var before, after := Collect(first, init, attempt), Collect(first, lines, attempt);
      forall i | 1 <= i < |after.lineTables|
        ensures ReturnedBySome(lines, attempt, after.lineTables[i], after.stopTables[i])
      {
        if i < |before.lineTables| {
          assert ReturnedBySome(init, attempt, before.lineTables[i], before.stopTables[i]);
          var l :| l in init && attempt(l).Success? &&
                   attempt(l).value.info == before.lineTables[i] && attempt(l).value.stops == before.stopTables[i];
          assert l in lines;
        } else {
          assert line in lines;
        }
      }
    }
  }

  // ---------------------------------------------------------------------
  // The run

  /** A run raises IndexError on an empty `data` and the first line's error
      when that line raises. Otherwise it raises only when grouping the stops
      makes a `LineString` of fewer than two points: never when every
      accumulated line has two stops or more, and, when the accumulated ids
      are distinct, exactly when some accumulated line has fewer. */
  lemma RunOfAborts(city: string, key: string, data: seq<string>, svc: Services)
    ensures |data| == 0 ==> RunOf(city, key, data, svc) == Failure(IndexError)
    ensures |data| > 0 && BusLines.BusLineOf(key, city, data[0], svc).Failure? ==>
              RunOf(city, key, data, svc) == Failure(BusLines.BusLineOf(key, city, data[0], svc).error)
    ensures |data| > 0 && BusLines.BusLineOf(key, city, data[0], svc).Success? ==>
              var b := Collect(BusLines.BusLineOf(key, city, data[0], svc).value, data[1..], Attempts(key, city, svc));
              var longEnough := forall i :: 0 <= i < |b.lineTables| ==> b.lineTables[i].busstopsNumber >= 2;
              && (RunOf(city, key, data, svc).Failure? ==> RunOf(city, key, data, svc).error == ShortLineString)
              && (longEnough ==> RunOf(city, key, data, svc).Success?)
              && (DistinctIds(b.lineTables) ==> (RunOf(city, key, data, svc).Success? <==> longEnough))
  {
    if |data| > 0 && BusLines.BusLineOf(key, city, data[0], svc).Success? {
      var first := BusLines.BusLineOf(key, city, data[0], svc).value;
      BusLines.BusLineOfWellFormed(key, city, data[0], svc);
      AttemptsReliable(key, city, svc);
      CollectPaired(first, data[1..], Attempts(key, city, svc));
      var b := Collect(first, data[1..], Attempts(key, city, svc));
      AggregateDrawable(b.stopTables, b.lineTables);
    }
  }

  /** A completed run is the aggregation of its batch: the accumulators are
      paired with `data[0]`'s tables first, the grouping succeeded on them,
      and the run reports exactly the lines the loop skipped, with their
      errors, and the progress values of `ProgressTrace`, so `ProgressBounds`
      and `CollectProvenance` speak of the run's own output. */
  lemma RunOfBatch(city: string, key: string, data: seq<string>, svc: Services)
    requires RunOf(city, key, data, svc).Success?
    ensures var e := RunOf(city, key, data, svc).value;
            var first := BusLines.BusLineOf(key, city, data[0], svc).value;
            var b := Collect(first, data[1..], Attempts(key, city, svc));
            && Paired(b.stopTables, b.lineTables)
            && b.lineTables[0] == first.info
            && |b.lineTables| + |b.skipped| == |data|
            && Aggregate(b.stopTables, b.lineTables) == Success((e.stops, e.lines))
            && e.skipped == b.skipped
            && e.progress == ProgressTrace(|data|)
  {
    var first := BusLines.BusLineOf(key, city, data[0], svc).value;
    BusLines.BusLineOfWellFormed(key, city, data[0], svc);
    AttemptsReliable(key, city, svc);
    CollectPaired(first, data[1..], Attempts(key, city, svc));
  }

  /** A completed run exports two EPSG:4326 collections: every stop of every
      accumulated line, and one line row per accumulated line (the inner join
      drops none, since no line reaches the accumulators without stops), the
      first being `data[0]`'s; accumulated and skipped lines together are all
      of `data`; each line's path is the group of its `id`, of two points or
      more. */
  lemma RunOfShape(city: string, key: string, data: seq<string>, svc: Services)
    requires RunOf(city, key, data, svc).Success?
    ensures var e := RunOf(city, key, data, svc).value;
            && e.stops.crs == Crs && e.lines.crs == Crs
            && |e.lines.rows| + |e.skipped| == |data|
            && |e.progress| == |data|
            && |e.lines.rows| >= 1
            && e.lines.rows[0].info == BusLines.BusLineOf(key, city, data[0], svc).value.info
            && (forall k :: 0 <= k < |e.lines.rows| ==>
                  && e.lines.rows[k].path == PathOf(e.stops.rows, e.lines.rows[k].info.id)
                  && |e.lines.rows[k].path| >= 2)
  {
    var first := BusLines.BusLineOf(key, city, data[0], svc).value;
    RunOfBatch(city, key, data, svc);
    var b := Collect(first, data[1..], Attempts(key, city, svc));
    AggregatePaired(b.stopTables, b.lineTables);
  }

  /** A completed run's collections are its batch's, row for row: the stops
      are the accumulated stop tables concatenated in order, line row `i`
      carries accumulated metadata row `i`, and with distinct ids its path is
      that line's own stop table's points in table order. */
  lemma RunOfRows(city: string, key: string, data: seq<string>, svc: Services)
    requires RunOf(city, key, data, svc).Success?
    ensures var e := RunOf(city, key, data, svc).value;
            var b := Collect(BusLines.BusLineOf(key, city, data[0], svc).value, data[1..], Attempts(key, city, svc));
            && e.stops.rows == Concat(b.stopTables)
            && |e.lines.rows| == |b.lineTables| == |b.stopTables|
            && (forall i :: 0 <= i < |b.lineTables| ==> e.lines.rows[i].info == b.lineTables[i])
            && (DistinctIds(b.lineTables) ==>
                  forall i :: 0 <= i < |b.lineTables| ==> e.lines.rows[i].path == Points(b.stopTables[i]))
  {
    var first := BusLines.BusLineOf(key, city, data[0], svc).value;
    RunOfBatch(city, key, data, svc);
    var b := Collect(first, data[1..], Attempts(key, city, svc));
    AggregatePaired(b.stopTables, b.lineTables);
  }

  /** Three lines, the second of which raises and the others of which have
      two stops or more: two line rows, one skipped entry naming the second
      line, and no abort. */
  lemma OneFailureInThree(city: string, key: string, a: string, b: string, c: string, svc: Services)
    requires BusLines.BusLineOf(key, city, a, svc).Success?
    requires BusLines.BusLineOf(key, city, b, svc).Failure?
    requires BusLines.BusLineOf(key, city, c, svc).Success?
    requires BusLines.BusLineOf(key, city, a, svc).value.info.busstopsNumber >= 2
    requires BusLines.BusLineOf(key, city, c, svc).value.info.busstopsNumber >= 2
    ensures RunOf(city, key, [a, b, c], svc).Success?
    ensures |RunOf(city, key, [a, b, c], svc).value.lines.rows| == 2
    ensures RunOf(city, key, [a, b, c], svc).value.skipped == [(b, BusLines.BusLineOf(key, city, b, svc).error)]
  {
    var attempt := Attempts(key, city, svc);
    var first := BusLines.BusLineOf(key, city, a, svc).value;
    var third := BusLines.BusLineOf(key, city, c, svc).value;
    assert [a, b, c][1..] == [b, c];
    assert [b, c][..1] == [b];
    assert [b][..0] == [];
    assert Collect(first, [b], attempt) == Batch([first.stops], [first.info], [(b, BusLines.BusLineOf(key, city, b, svc).error)]);
    assert Collect(first, [b, c], attempt).lineTables == [first.info, third.info];
    RunOfAborts(city, key, [a, b, c], svc);
    RunOfShape(city, key, [a, b, c], svc);
  }
}
