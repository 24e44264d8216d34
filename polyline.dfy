/** `transPoint` (streamlit_busline.py:23-36): decoding the `"lng,lat;lng,lat;..."`
    polyline of a bus line into WGS-84 `(lat, lng)` vertices. */
module Polyline {
  import opened Wrappers
  import opened Text
  import opened Records

  /** `float(seg.split(',')[0]), float(seg.split(',')[1])`, evaluated left
      to right: a bad first field raises before a missing second one. */
  function ParseSegment(segment: string, parse: FloatParser): (r: Result<(real, real), Error>)
    ensures r.Success? ==> |Split(segment, ',')| >= 2
    ensures r.Failure? ==> r.error == IndexError || r.error.ValueError?
  {
    var fields := Split(segment, ',');
    var lng :- Float(fields[0], parse);
    if |fields| < 2 then Failure(IndexError)
    else
      var lat :- Float(fields[1], parse);
      Success((lng, lat))
  }

  /** A segment parses exactly when it has two `,`-fields or more and the
      first two are numbers; the pair is those two numbers, whatever
      follows them. */
  lemma ParseSegmentExact(segment: string, parse: FloatParser)
    ensures var f := Split(segment, ',');
            ParseSegment(segment, parse).Success? <==> |f| >= 2 && parse(f[0]).Some? && parse(f[1]).Some?
    ensures var f := Split(segment, ',');
            ParseSegment(segment, parse).Success? ==>
              ParseSegment(segment, parse).value == (parse(f[0]).value, parse(f[1]).value)
  {
  }

  /** One segment, transformed and swapped to `(lat, lng)`. */
  function DecodeSegment(segment: string, parse: FloatParser, transform: Transform): Result<LatLng, Error> {
    var c :- ParseSegment(segment, parse);
    var t := transform(c.0, c.1);
    Success((t.1, t.0))
  }

  function SegmentDecoder(parse: FloatParser, transform: Transform): string -> Result<LatLng, Error> {
    segment => DecodeSegment(segment, parse, transform)
  }

  /** What `transPoint(coords)` returns or raises. */
  function DecodePolyline(coords: string, parse: FloatParser, transform: Transform): Result<seq<LatLng>, Error> {
    Traverse(Split(coords, ';'), SegmentDecoder(parse, transform))
  }

  /** `transPoint` itself: the loop that appends one vertex per segment. */
  method TransPoint(coords: string, parse: FloatParser, transform: Transform)
    returns (r: Result<seq<LatLng>, Error>)
    ensures r == DecodePolyline(coords, parse, transform)
  {
    var result: seq<LatLng> := [];
    var p := Split(coords, ';');
    ghost var decode := SegmentDecoder(parse, transform);
    var i := 0;
    while i < |p|
      invariant 0 <= i <= |p|
      invariant Traverse(p[..i], decode) == Success(result)
    {
      var fields := Split(p[i], ',');
      var lng := parse(fields[0]);
      if lng.None? {
        TraverseStop(p, decode, i);
        return Failure(ValueError(fields[0]));
      }
      if |fields| < 2 {
        TraverseStop(p, decode, i);
        return Failure(IndexError);
      }
      var lat := parse(fields[1]);
      if lat.None? {
        TraverseStop(p, decode, i);
        return Failure(ValueError(fields[1]));
      }
      var t := transform(lng.value, lat.value);
      TraverseStep(p, decode, i, result);
      result := result + [(t.1, t.0)];
      i := i + 1;
    }
    assert p[..i] == p;
    return Success(result);
  }

  /** `transPoint` succeeds exactly when every `;`-segment parses, and then
      gives one vertex per segment, in input order, each the transform of
      the segment's `(lng, lat)` swapped to `(lat, lng)`. */
  lemma DecodePolylineShape(coords: string, parse: FloatParser, transform: Transform)
    ensures var segments := Split(coords, ';');
            var r := DecodePolyline(coords, parse, transform);
            && (r.Success? <==> forall k :: 0 <= k < |segments| ==> ParseSegment(segments[k], parse).Success?)
            && (r.Success? ==>
                  |r.value| == |segments| &&
                  forall k :: 0 <= k < |segments| ==>
                    var c := ParseSegment(segments[k], parse).value;
                    r.value[k] == (transform(c.0, c.1).1, transform(c.0, c.1).0))
  {
    TraverseSuccess(Split(coords, ';'), SegmentDecoder(parse, transform));
  }

  /** Segment `i` is the first of `segments` that does not parse. */
  predicate FirstBadSegment(segments: seq<string>, parse: FloatParser, i: nat) {
    && i < |segments|
    && (forall k :: 0 <= k < i ==> ParseSegment(segments[k], parse).Success?)
    && ParseSegment(segments[i], parse).Failure?
  }

  /** A failed `transPoint` raises the error of the first segment that does
      not parse. */
  lemma DecodePolylineError(coords: string, parse: FloatParser, transform: Transform)
    requires DecodePolyline(coords, parse, transform).Failure?
    ensures exists i: nat :: FirstBadSegment(Split(coords, ';'), parse, i) &&
              DecodePolyline(coords, parse, transform).error == ParseSegment(Split(coords, ';')[i], parse).error
  {
    var segments, decode := Split(coords, ';'), SegmentDecoder(parse, transform);
    TraverseFailureAt(segments, decode);
    var i :| 0 <= i < |segments| && decode(segments[i]).Failure? &&
             (forall k :: 0 <= k < i ==> decode(segments[k]).Success?) &&
             Traverse(segments, decode).error == decode(segments[i]).error;
    assert FirstBadSegment(segments, parse, i);
  }

  /** Only the first two `,`-fields of a segment are read: anything after a
      third comma is ignored. */
  lemma SegmentIgnoresExtraFields(lng: string, lat: string, extra: string, parse: FloatParser)
    requires ',' !in lng && ',' !in lat
    ensures ParseSegment(lng + "," + lat + "," + extra, parse) == ParseSegment(lng + "," + lat, parse)
  {
    SplitPrefix(lng, ',', lat + "," + extra);
    assert lng + "," + lat + "," + extra == lng + [','] + (lat + "," + extra);
    SplitPrefix(lat, ',', extra);
    assert lat + "," + extra == lat + [','] + extra;
    SplitPrefix(lng, ',', lat);
    assert lng + "," + lat == lng + [','] + lat;
    SplitWhole(lat, ',');
  }

  /** A segment with a single field raises IndexError once its first field
      parses. */
  lemma OneFieldSegmentFails(segment: string, parse: FloatParser)
    requires ',' !in segment
    requires parse(segment).Some?
    ensures ParseSegment(segment, parse) == Failure(IndexError)
  {
    SplitWhole(segment, ',');
  }

  /** An empty polyline is one empty segment, and `float("")` raises. */
  lemma EmptyPolylineFails(parse: FloatParser, transform: Transform)
    requires parse("") == None
    ensures DecodePolyline("", parse, transform) == Failure(ValueError(""))
  {
    assert Split("", ';') == [""];
    assert Split("", ',') == [""];
  }
}
