/** GeoJsonMultiPolygonCoordinatesSerializer: a multi-polygon's coordinates
    are an array of polygon coordinates, or null.  The polygon coordinates
    serializer (the one the registry hands out for the polygon coordinates
    type) is a parameter, and so is the polygon coordinates type `C`. */
module GeoJsonMultiPolygonCoordinatesSerializer {
  import opened Bson
  import opened BsonIO
  import opened GeoJsonArrays

  datatype GeoJsonMultiPolygonCoordinates<C> = GeoJsonMultiPolygonCoordinates(polygons: seq<C>)

  /** What Deserialize reads; `None` is the null reference. */
  function ParseMultiPolygon<C>(s: seq<Token>, polygon: seq<Token> -> Result<(C, seq<Token>)>)
    : (r: Result<(Option<GeoJsonMultiPolygonCoordinates<C>>, seq<Token>)>)
  {
    match ParseNullableArray(s, polygon)
    case Err(e) => Err(e)
    case Ok((None, rest)) => Ok((None, rest))
    case Ok((Some(ps), rest)) => Ok((Some(GeoJsonMultiPolygonCoordinates(ps)), rest))
  }

  /** What Serialize writes. */
  function EncodeMultiPolygon<C>(value: Option<GeoJsonMultiPolygonCoordinates<C>>, polygon: C -> seq<Token>): seq<Token>
  {
    match value
    case None => EncodeNullableArray(None, polygon)
    case Some(mp) => EncodeNullableArray(Some(mp.polygons), polygon)
  }

  method Deserialize<C>(ctx: DeserializationContext, polygon: seq<Token> -> Result<(C, seq<Token>)>)
    returns (r: Result<Option<GeoJsonMultiPolygonCoordinates<C>>>)
    requires ctx.reader.Valid() && Consumes(polygon)
    modifies ctx.reader
    ensures ctx.reader.Valid()
    ensures |old(ctx.reader.Remaining())| > 0 && old(ctx.reader.Remaining())[0] == Token.Null ==>
              r == Ok(None) && ctx.reader.Remaining() == old(ctx.reader.Remaining())[1..]
    ensures match ParseMultiPolygon(old(ctx.reader.Remaining()), polygon)
            case Ok((v, rest)) => r == Ok(v) && ctx.reader.Remaining() == rest
            case Err(e) => r == Err(e)
  {
    var reader := ctx.reader;
    if CurrentBsonType(reader.Remaining()) == Ok(BsonType.Null) {
      var _ := reader.Expect(Token.Null);
      return Ok(None);
    }
    var polygons: seq<C> := [];
    var started := reader.Expect(StartArray);
    if !started {
      return Err(StreamError);
    }
    ghost var body := reader.Remaining();
    while true
      invariant reader.Valid()
      invariant ParseArrayElements(reader.Remaining(), polygon, polygons) == ParseArrayElements(body, polygon, [])
      decreases |reader.Remaining()|
    {
      var next := NextBsonType(reader.Remaining());
      if next.Err? {
        return Err(next.error);
      }
      if next.value == BsonType.EndOfDocument {
        break;
      }
      var c := reader.ReadWith(polygon);
      if c.Err? {
        return Err(c.error);
      }
      polygons := polygons + [c.value];
    }
    var ended := reader.Expect(EndArray);
    if !ended {
      return Err(StreamError);
    }
    return Ok(Some(GeoJsonMultiPolygonCoordinates(polygons)));
  }

  method Serialize<C>(ctx: SerializationContext, value: Option<GeoJsonMultiPolygonCoordinates<C>>, polygon: C -> seq<Token>)
    modifies ctx.writer
    ensures value.None? ==> ctx.writer.tokens == old(ctx.writer.tokens) + [Token.Null]
    ensures value.Some? ==>
              ctx.writer.tokens == old(ctx.writer.tokens) + [StartArray]
                                   + EncodeArrayElements(value.value.polygons, polygon) + [EndArray]
    ensures ctx.writer.tokens == old(ctx.writer.tokens) + EncodeMultiPolygon(value, polygon)
  {
    var writer := ctx.writer;
    if value.None? {
      writer.Write([Token.Null]);
      return;
    }
    var polygons := value.value.polygons;
    writer.Write([StartArray]);
    ghost var head := writer.tokens;
    for i := 0 to |polygons|
      invariant writer.tokens == head + EncodeArrayElements(polygons[..i], polygon)
    {
      EncodeArrayElementsSnoc(polygons[..i], polygons[i], polygon);
      assert polygons[..i + 1] == polygons[..i] + [polygons[i]];
      AppendAssoc(head, EncodeArrayElements(polygons[..i], polygon), polygon(polygons[i]));
      writer.Write(polygon(polygons[i]));
    }
    assert polygons[..|polygons|] == polygons;
    writer.Write([EndArray]);
    AppendAssoc(old(writer.tokens), [StartArray], EncodeArrayElements(polygons, polygon));
  }

  /** If the polygon coordinates serializer round-trips, so does the
      multi-polygon one, null included, and polygons come back in order and in
      number. */
  lemma MultiPolygonRoundTrip<C(!new)>(value: Option<GeoJsonMultiPolygonCoordinates<C>>, rest: seq<Token>,
                                     parse: seq<Token> -> Result<(C, seq<Token>)>, encode: C -> seq<Token>)
    requires ElementSerializer(parse, encode)
    ensures ParseMultiPolygon(EncodeMultiPolygon(value, encode) + rest, parse) == Ok((value, rest))
  {
    match value
    case None => NullableArrayRoundTrip(None, rest, parse, encode);
    case Some(mp) => NullableArrayRoundTrip(Some(mp.polygons), rest, parse, encode);
  }

  /** The nesting instance: polygon coordinates written as arrays of rings,
      each ring an array of positions (all nullable, as the composite
      serializers write them).  Round-tripping positions suffice for the whole
      multi-polygon to come back unchanged. */
  lemma NestedMultiPolygonRoundTrip<P(!new)>(value: Option<GeoJsonMultiPolygonCoordinates<Option<seq<Option<seq<P>>>>>>,
                                             rest: seq<Token>,
                                             position: seq<Token> -> Result<(P, seq<Token>)>,
                                             encode: P -> seq<Token>)
    requires ElementSerializer(position, encode)
    ensures ParseMultiPolygon(EncodeMultiPolygon(value, RingsEncoder(encode)) + rest, RingsParser(position)) == Ok((value, rest))
  {
    NullableArrayIsElementSerializer(position, encode);
    NullableArrayIsElementSerializer(RingParser(position), RingEncoder(encode));
    MultiPolygonRoundTrip(value, rest, RingsParser(position), RingsEncoder(encode));
  }

  /** A linear ring: a nullable array of positions. */
  function RingParser<P>(position: seq<Token> -> Result<(P, seq<Token>)>): seq<Token> -> Result<(Option<seq<P>>, seq<Token>)>
  {
    s => ParseNullableArray(s, position)
  }

  function RingEncoder<P>(encode: P -> seq<Token>): Option<seq<P>> -> seq<Token>
  {
    v => EncodeNullableArray(v, encode)
  }

  /** Polygon coordinates: a nullable array of rings. */
  function RingsParser<P>(position: seq<Token> -> Result<(P, seq<Token>)>)
    : seq<Token> -> Result<(Option<seq<Option<seq<P>>>>, seq<Token>)>
  {
    s => ParseNullableArray(s, RingParser(position))
  }

  function RingsEncoder<P>(encode: P -> seq<Token>): Option<seq<Option<seq<P>>>> -> seq<Token>
  {
    v => EncodeNullableArray(v, RingEncoder(encode))
  }
}
