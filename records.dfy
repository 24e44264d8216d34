/** The values the bus-line pipeline works on: the parsed Amap bus-line
    response, the rows of the stop and line tables, the errors Python raises
    on the way, and the three collaborators the core calls but does not
    define (the HTTP fetch, `float()` and the GCJ-02 to WGS-84 transform). */
module Records {
  import opened Wrappers

  /** The exceptions the core can raise, by cause. */
  datatype Error =
    | KeyError(key: string)         // a lookup of a key the JSON object lacks
    | IndexError                    // `[0]` of an empty list, `[1]` of a one-field split
    | ValueError(text: string)      // `float(text)` rejected `text`
    | UnpackError(count: nat)       // `lng, lat = ...` over `count` numbers, `count` != 2 (a ValueError in Python)
    | AttributeError(name: string)  // `stop_df.X` on a frame that has no columns
    | RequestFailed                 // the HTTP request or its JSON decoding failed
    | ShortLineString               // a `LineString` of fewer than two points (shapely raises)

  /** A JSON object whose values are text, as the Amap service sends them. */
  type Dict = map<string, string>

  /** One entry of the response's `buslines` list; `busstops` is None when
      the key is missing. */
  datatype BusLine = BusLine(fields: Dict, busstops: Option<seq<Dict>>)

  /** The decoded response; `buslines` is None when the key is missing. */
  datatype Response = Response(buslines: Option<seq<BusLine>>)

  /** Python's `float(text)`: a number, or None where it raises. */
  type FloatParser = string -> Option<real>

  /** `gcj02_to_wgs84(lng, lat)`, giving `(lng, lat)` in WGS-84. */
  type Transform = (real, real) -> (real, real)

  /** The HTTP request and JSON decoding of `get_bus_line`, given the API key,
      the city and the line keyword. */
  type Fetcher = (string, string, string) -> Result<Response, Error>

  datatype Services = Services(fetch: Fetcher, parse: FloatParser, transform: Transform)

  /** A decoded polyline vertex, `(lat, lng)` as `transPoint` emits it. */
  type LatLng = (real, real)

  /** A shapely `Point(x, y)`. */
  datatype Point = Point(x: real, y: real)

  /** One row of the stop table. */
  datatype StopRow = StopRow(lineId: string, busId: string, name: string, sequence: string,
                             x: real, y: real, geometry: Point)

  /** The one-row metadata table `get_bus_line` builds for a line. */
  datatype LineInfo = LineInfo(id: string, kind: string, name: string,
                               startStop: string, endStop: string,
                               startTime: string, endTime: string, distance: string,
                               basicPrice: string, totalPrice: string,
                               busstopsNumber: nat)

  /** What `get_bus_line` returns: metadata, decoded polyline, stop table. */
  datatype LineData = LineData(info: LineInfo, points: seq<LatLng>, stops: seq<StopRow>)

  /** `d[key]`. */
  function Lookup(d: Dict, key: string): Result<string, Error> {
    if key in d then Success(d[key]) else Failure(KeyError(key))
  }

  /** `float(text)`. */
  function Float(text: string, parse: FloatParser): Result<real, Error> {
    match parse(text)
    case Some(v) => Success(v)
    case None => Failure(ValueError(text))
  }

  /** Every row of `rows` carries `id` in its `line_id` column. */
  predicate TaggedWith(rows: seq<StopRow>, id: string) {
    forall k :: 0 <= k < |rows| ==> rows[k].lineId == id
  }
}
