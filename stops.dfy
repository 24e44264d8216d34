/** `stations_to_geopandas` (streamlit_busline.py:61-80): the stop table of
    one bus line, built column by column from the raw stop objects. */
module Stops {
  import opened Wrappers
  import opened Text
  import opened Records
  import Polyline

  /** `list(map(float, location.split(',')))`. */
  function ParseFields(location: string, parse: FloatParser): (r: Result<seq<real>, Error>)
    ensures r.Success? ==> |r.value| == |Split(location, ',')|
    ensures r.Failure? ==> r.error.ValueError?
  {
    var fields, read := Split(location, ','), FieldReader(parse);
    TraverseSuccess(fields, read);
    if Traverse(fields, read).Success? then Traverse(fields, read)
    else
      TraverseFailureAt(fields, read);
      Traverse(fields, read)
  }

  function FieldReader(parse: FloatParser): string -> Result<real, Error> {
    text => Float(text, parse)
  }

  /** `lng, lat = list(map(float, location.split(',')))`: every field is
      parsed first, then the unpacking demands exactly two numbers. */
  function ParseLocation(location: string, parse: FloatParser): (r: Result<(real, real), Error>)
    ensures r.Success? ==> |Split(location, ',')| == 2
    ensures r.Failure? ==> r.error.ValueError? || (r.error.UnpackError? && r.error.count != 2)
  {
    var numbers :- ParseFields(location, parse);
    if |numbers| != 2 then Failure(UnpackError(|numbers|))
    else Success((numbers[0], numbers[1]))
  }

  /** The row one raw stop contributes, or the first error its loop
      iteration raises. */
  function StopRowOf(stop: Dict, lineId: string, parse: FloatParser, transform: Transform): (r: Result<StopRow, Error>)
    ensures r.Success? ==> r.value.lineId == lineId && r.value.geometry == Point(r.value.x, r.value.y)
    ensures r.Failure? && r.error.KeyError? ==> r.error.key in {"location", "id", "name", "sequence"} && r.error.key !in stop
  {
    var location :- Lookup(stop, "location");
    var c :- ParseLocation(location, parse);
    var busId :- Lookup(stop, "id");
    var name :- Lookup(stop, "name");
    var sequence :- Lookup(stop, "sequence");
    var x := transform(c.0, c.1).0;
    var y := transform(c.0, c.1).1;
    Success(StopRow(lineId, busId, name, sequence, x, y, Point(x, y)))
  }

  function RowMaker(lineId: string, parse: FloatParser, transform: Transform): Dict -> Result<StopRow, Error> {
    stop => StopRowOf(stop, lineId, parse, transform)
  }

  /** What `stations_to_geopandas(busstops, line_id)` returns or raises. With
      no stops the column dict stays empty, the frame has no `X` column and
      `stop_df.X` raises AttributeError. */
  function StopTable(busstops: seq<Dict>, lineId: string, parse: FloatParser, transform: Transform)
    : Result<seq<StopRow>, Error>
  {
    var rows :- Traverse(busstops, RowMaker(lineId, parse, transform));
    if |rows| == 0 then Failure(AttributeError("X")) else Success(rows)
  }

  /** The `defaultdict(list)` of columns the loop fills. */
  datatype StopColumns = StopColumns(lineId: seq<string>, busId: seq<string>, name: seq<string>,
                                     sequence: seq<string>, x: seq<real>, y: seq<real>)
  {
    predicate Rectangular() {
      |lineId| == |busId| == |name| == |sequence| == |x| == |y|
    }

    /** `pd.DataFrame(stops_list)` with `geometry = [Point(xy) for xy in zip(X, Y)]`. */
    function Rows(): seq<StopRow>
      requires Rectangular()
    {
      seq(|x|, k requires 0 <= k < |x| =>
        StopRow(lineId[k], busId[k], name[k], sequence[k], x[k], y[k], Point(x[k], y[k])))
    }
  }

  /** `stations_to_geopandas` itself. */
  method StationsToGeopandas(busstops: seq<Dict>, lineId: string, parse: FloatParser, transform: Transform)
    returns (r: Result<seq<StopRow>, Error>)
    ensures r == StopTable(busstops, lineId, parse, transform)
  {
    ghost var make := RowMaker(lineId, parse, transform);
    var stopsList := StopColumns([], [], [], [], [], []);
    assert stopsList.Rows() == [];
    for i := 0 to |busstops|
      invariant stopsList.Rectangular() && |stopsList.x| == i
      invariant Traverse(busstops[..i], make) == Success(stopsList.Rows())
    {
      var stops := busstops[i];
      if "location" !in stops {
        TraverseStop(busstops, make, i);
        return Failure(KeyError("location"));
      }
      var c := ParseLocation(stops["location"], parse);
      if c.Failure? {
        TraverseStop(busstops, make, i);
        return Failure(c.error);
      }
      var (lng, lat) := c.value;
      ghost var before := stopsList;
      stopsList := stopsList.(lineId := stopsList.lineId + [lineId]);
      if "id" !in stops {
        TraverseStop(busstops, make, i);
        return Failure(KeyError("id"));
      }
      stopsList := stopsList.(busId := stopsList.busId + [stops["id"]]);
      if "name" !in stops {
        TraverseStop(busstops, make, i);
        return Failure(KeyError("name"));
      }
      stopsList := stopsList.(name := stopsList.name + [stops["name"]]);
      if "sequence" !in stops {
        TraverseStop(busstops, make, i);
        return Failure(KeyError("sequence"));
      }
      stopsList := stopsList.(sequence := stopsList.sequence + [stops["sequence"]]);
      stopsList := stopsList.(x := stopsList.x + [transform(lng, lat).0]);
      stopsList := stopsList.(y := stopsList.y + [transform(lng, lat).1]);
      TraverseStep(busstops, make, i, before.Rows());
      assert stopsList.Rows() == before.Rows() + [make(stops).value];
    }
    assert busstops[..|busstops|] == busstops;
    if |stopsList.x| == 0 {
      return Failure(AttributeError("X"));
    }
    return Success(stopsList.Rows());
  }

  /** The location must be exactly two `,`-fields, both numbers. */
  lemma ParseLocationExact(location: string, parse: FloatParser)
    ensures var fields := Split(location, ',');
            ParseLocation(location, parse).Success? <==>
              |fields| == 2 && parse(fields[0]).Some? && parse(fields[1]).Some?
    ensures var fields := Split(location, ',');
            ParseLocation(location, parse).Success? ==>
              ParseLocation(location, parse).value == (parse(fields[0]).value, parse(fields[1]).value)
  {
    TraverseSuccess(Split(location, ','), FieldReader(parse));
  }

  /** A location the stop loop accepts is a polyline segment `transPoint`
      accepts, with the same coordinates: the stop loop is the stricter one. */
  lemma LocationStricterThanSegment(location: string, parse: FloatParser)
    requires ParseLocation(location, parse).Success?
    ensures Polyline.ParseSegment(location, parse) == ParseLocation(location, parse)
  {
    ParseLocationExact(location, parse);
  }

  /** A third field is ignored by `transPoint` but rejected by the stop loop. */
  lemma ThirdFieldSeparatesTheParsers(parse: FloatParser)
    requires parse("0") == Some(0.0)
    ensures Polyline.ParseSegment("0,0,0", parse) == Success((0.0, 0.0))
    ensures ParseLocation("0,0,0", parse) == Failure(UnpackError(3))
  {
    SplitWhole("0", ',');
    SplitPrefix("0", ',', "0");
    assert "0,0" == "0" + [','] + "0";
    SplitPrefix("0", ',', "0,0");
    assert "0,0,0" == "0" + [','] + "0,0";
    assert Split("0,0,0", ',') == ["0", "0", "0"];
    assert FieldReader(parse)("0") == Success(0.0);
    TraverseSuccess(["0", "0", "0"], FieldReader(parse));
  }

  /** The stop table has one row per input stop, in input order (not sorted
      by `sequence`), every row tagged with `line_id`, carrying the stop's
      `id`, `name` and `sequence`, with `X`, `Y` the transformed location and
      the geometry the point `(X, Y)`. It fails on an empty list and on any
      stop whose keys or location are missing or malformed. */
  lemma StopTableShape(busstops: seq<Dict>, lineId: string, parse: FloatParser, transform: Transform)
    ensures var r := StopTable(busstops, lineId, parse, transform);
            r.Success? <==>
              |busstops| > 0 && forall k :: 0 <= k < |busstops| ==> StopRowOf(busstops[k], lineId, parse, transform).Success?
    ensures var r := StopTable(busstops, lineId, parse, transform);
            r.Success? ==>
              && |r.value| == |busstops|
              && TaggedWith(r.value, lineId)
              && forall k :: 0 <= k < |busstops| ==>
                   StopRowFacts(busstops[k], r.value[k], lineId, parse, transform)
  {
    var make := RowMaker(lineId, parse, transform);
    TraverseSuccess(busstops, make);
    forall k | 0 <= k < |busstops| && make(busstops[k]).Success?
      ensures StopRowOf(busstops[k], lineId, parse, transform).Success?
      ensures StopRowFacts(busstops[k], make(busstops[k]).value, lineId, parse, transform)
    {
      StopRowOfShape(busstops[k], lineId, parse, transform);
    }
  }

  /** The row of `stop`: the stop has the four keys the loop reads, the row
      carries `line_id`, the stop's `id`, `name` and `sequence`, `X`, `Y`
      the transformed location and the geometry the point `(X, Y)`. */
  predicate StopRowFacts(stop: Dict, row: StopRow, lineId: string, parse: FloatParser, transform: Transform) {
    && {"location", "id", "name", "sequence"} <= stop.Keys
    && row.lineId == lineId
    && row.busId == stop["id"] && row.name == stop["name"] && row.sequence == stop["sequence"]
    && ParseLocation(stop["location"], parse).Success?
    && (row.x, row.y) == transform(ParseLocation(stop["location"], parse).value.0,
                                   ParseLocation(stop["location"], parse).value.1)
    && row.geometry == Point(row.x, row.y)
  }

  lemma StopRowOfShape(stop: Dict, lineId: string, parse: FloatParser, transform: Transform)
    requires StopRowOf(stop, lineId, parse, transform).Success?
    ensures StopRowFacts(stop, StopRowOf(stop, lineId, parse, transform).value, lineId, parse, transform)
  {
  }
}
