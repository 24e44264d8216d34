/** `get_bus_line` (streamlit_busline.py:83-109) after its request: the
    metadata row, the decoded polyline and the stop table of the first bus
    line of an Amap response. */
module BusLines {
  import opened Wrappers
  import opened Records
  import Text
  import Polyline
  import Stops

  /** The keys of `bus_info`, in the order the dict literal reads them; the
      literal then reads `busstops` for `busstops_number`. */
  const InfoKeys: seq<string> := ["id", "type", "name", "start_stop", "end_stop", "start_time",
                                  "end_time", "distance", "basic_price", "total_price"]

  /** `key` is one the metadata row reads and `busline` lacks. */
  predicate MissingKey(busline: BusLine, key: string) {
    || (key in InfoKeys && key !in busline.fields)
    || (key == "busstops" && busline.busstops.None?)
  }

  /** The `bus_info` dict literal: one metadata row from one bus line. */
  function BusInfo(busline: BusLine): (r: Result<LineInfo, Error>)
    ensures r.Success? <==>
              (forall key :: key in InfoKeys ==> key in busline.fields) && busline.busstops.Some?
    ensures r.Success? ==>
              var f := busline.fields;
              && (forall key :: key in InfoKeys ==> key in f)
              && r.value == LineInfo(f["id"], f["type"], f["name"], f["start_stop"], f["end_stop"],
                                     f["start_time"], f["end_time"], f["distance"],
                                     f["basic_price"], f["total_price"], |busline.busstops.value|)
    ensures r.Failure? ==> r.error.KeyError? && MissingKey(busline, r.error.key)
  {
    var f := busline.fields;
    var id :- Lookup(f, "id");
    var kind :- Lookup(f, "type");
    var name :- Lookup(f, "name");
    var startStop :- Lookup(f, "start_stop");
    var endStop :- Lookup(f, "end_stop");
    var startTime :- Lookup(f, "start_time");
    var endTime :- Lookup(f, "end_time");
    var distance :- Lookup(f, "distance");
    var basicPrice :- Lookup(f, "basic_price");
    var totalPrice :- Lookup(f, "total_price");
    var busstops :- if busline.busstops.Some? then Success(busline.busstops.value)
                    else Failure(KeyError("busstops"));
    Success(LineInfo(id, kind, name, startStop, endStop, startTime, endTime, distance,
                     basicPrice, totalPrice, |busstops|))
  }

  /** What `get_bus_line` returns or raises once the response `j` is parsed:
      `j['buslines'][0]`, its metadata row, `transPoint` of its polyline and
      `stations_to_geopandas` of its stops tagged with its `id`. */
  function LineFromResponse(j: Response, parse: FloatParser, transform: Transform): Result<LineData, Error> {
    if j.buslines.None? then Failure(KeyError("buslines"))
    else if |j.buslines.value| == 0 then Failure(IndexError)
    else
      var busline := j.buslines.value[0];
      var info :- BusInfo(busline);
      var polyline :- Lookup(busline.fields, "polyline");
      var points :- Polyline.DecodePolyline(polyline, parse, transform);
      var stops :- Stops.StopTable(busline.busstops.value, info.id, parse, transform);
      Success(LineData(info, points, stops))
  }

  /** What `get_bus_line(key, cityname, keywords)` returns or raises. */
  function BusLineOf(key: string, city: string, keywords: string, svc: Services): Result<LineData, Error> {
    var j :- svc.fetch(key, city, keywords);
    LineFromResponse(j, svc.parse, svc.transform)
  }

  /** A line as `get_bus_line` hands it back: a non-empty stop table, one row
      per stop counted in `busstops_number`, every row tagged with the line's
      `id`, and a non-empty polyline. */
  predicate WellFormed(d: LineData) {
    && |d.stops| == d.info.busstopsNumber
    && |d.stops| > 0
    && TaggedWith(d.stops, d.info.id)
    && |d.points| > 0
  }

  /** `get_bus_line` itself, with the request done by `svc.fetch`. */
  method GetBusLine(key: string, city: string, keywords: string, svc: Services)
    returns (r: Result<LineData, Error>)
    ensures r == BusLineOf(key, city, keywords, svc)
  {
    var j := svc.fetch(key, city, keywords);
    if j.Failure? {
      return Failure(j.error);
    }
    if j.value.buslines.None? {
      return Failure(KeyError("buslines"));
    }
    if |j.value.buslines.value| == 0 {
      return Failure(IndexError);
    }
    var busline := j.value.buslines.value[0];
    var busInfo := BusInfo(busline);
    if busInfo.Failure? {
      return Failure(busInfo.error);
    }
    if "polyline" !in busline.fields {
      return Failure(KeyError("polyline"));
    }
    var points := Polyline.TransPoint(busline.fields["polyline"], svc.parse, svc.transform);
    if points.Failure? {
      return Failure(points.error);
    }
    var stopDf := Stops.StationsToGeopandas(busline.busstops.value, busline.fields["id"],
                                            svc.parse, svc.transform);
    if stopDf.Failure? {
      return Failure(stopDf.error);
    }
    return Success(LineData(busInfo.value, points.value, stopDf.value));
  }

  /** A line `get_bus_line` returns is built from `buslines[0]` alone: its
      metadata row is that busline's, `busstops_number` is its number of stops,
      the stop table has exactly those stops tagged with its `id`, and the
      polyline has one vertex per `;`-segment. */
  lemma LineFromResponseShape(j: Response, parse: FloatParser, transform: Transform)
    requires LineFromResponse(j, parse, transform).Success?
    ensures var d := LineFromResponse(j, parse, transform).value;
            && j.buslines.Some? && |j.buslines.value| > 0
            && var busline := j.buslines.value[0];
            && d.info == BusInfo(busline).value
            && busline.busstops.Some?
            && d.info.busstopsNumber == |busline.busstops.value|
            && d == LineFromResponse(Response(Some([busline])), parse, transform).value
            && WellFormed(d)
            && "polyline" in busline.fields
            && |d.points| == |Text.Split(busline.fields["polyline"], ';')|
            && d.stops == Stops.StopTable(busline.busstops.value, busline.fields["id"], parse, transform).value
  {
    var busline := j.buslines.value[0];
    var info := BusInfo(busline).value;
    Stops.StopTableShape(busline.busstops.value, info.id, parse, transform);
    Polyline.DecodePolylineShape(busline.fields["polyline"], parse, transform);
  }

  /** Every line `get_bus_line` returns is well formed. */
  lemma BusLineOfWellFormed(key: string, city: string, keywords: string, svc: Services)
    requires BusLineOf(key, city, keywords, svc).Success?
    ensures WellFormed(BusLineOf(key, city, keywords, svc).value)
  {
    LineFromResponseShape(svc.fetch(key, city, keywords).value, svc.parse, svc.transform);
  }

  /** A line with no stops is never returned: the stop table raises. */
  lemma NoStopsFails(j: Response, parse: FloatParser, transform: Transform)
    requires j.buslines.Some? && |j.buslines.value| > 0
    requires j.buslines.value[0].busstops == Some([])
    ensures LineFromResponse(j, parse, transform).Failure?
  {
  }
}
