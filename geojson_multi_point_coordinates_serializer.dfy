/** GeoJsonMultiPointCoordinatesSerializer: a multi-point's coordinates are an
    array of positions, or null.  The position serializer (the one the registry
    hands out for the coordinate type) is a parameter. */
module GeoJsonMultiPointCoordinatesSerializer {
  import opened Bson
  import opened BsonIO
  import opened GeoJsonArrays

  datatype GeoJsonMultiPointCoordinates<P> = GeoJsonMultiPointCoordinates(positions: seq<P>)

  /** What Deserialize reads; `None` is the null reference. */
  function ParseMultiPoint<P>(s: seq<Token>, position: seq<Token> -> Result<(P, seq<Token>)>)
    : (r: Result<(Option<GeoJsonMultiPointCoordinates<P>>, seq<Token>)>)
  {
    match ParseNullableArray(s, position)
    case Err(e) => Err(e)
    case Ok((None, rest)) => Ok((None, rest))
    case Ok((Some(ps), rest)) => Ok((Some(GeoJsonMultiPointCoordinates(ps)), rest))
  }

  /** What Serialize writes. */
  function EncodeMultiPoint<P>(value: Option<GeoJsonMultiPointCoordinates<P>>, position: P -> seq<Token>): seq<Token>
  {
    match value
    case None => EncodeNullableArray(None, position)
    case Some(mp) => EncodeNullableArray(Some(mp.positions), position)
  }

  method Deserialize<P>(ctx: DeserializationContext, position: seq<Token> -> Result<(P, seq<Token>)>)
    returns (r: Result<Option<GeoJsonMultiPointCoordinates<P>>>)
    requires ctx.reader.Valid() && Consumes(position)
    modifies ctx.reader
    ensures ctx.reader.Valid()
    ensures |old(ctx.reader.Remaining())| > 0 && old(ctx.reader.Remaining())[0] == Token.Null ==>
              r == Ok(None) && ctx.reader.Remaining() == old(ctx.reader.Remaining())[1..]
    ensures match ParseMultiPoint(old(ctx.reader.Remaining()), position)
            case Ok((v, rest)) => r == Ok(v) && ctx.reader.Remaining() == rest
            case Err(e) => r == Err(e)
  {
    var reader := ctx.reader;
    if CurrentBsonType(reader.Remaining()) == Ok(BsonType.Null) {
      var _ := reader.Expect(Token.Null);
      return Ok(None);
    }
    var positions: seq<P> := [];
    var started := reader.Expect(StartArray);
    if !started {
      return Err(StreamError);
    }
    ghost var body := reader.Remaining();
    while true
      invariant reader.Valid()
      invariant ParseArrayElements(reader.Remaining(), position, positions) == ParseArrayElements(body, position, [])
      decreases |reader.Remaining()|
    {
      var next := NextBsonType(reader.Remaining());
      if next.Err? {
        return Err(next.error);
      }
      if next.value == BsonType.EndOfDocument {
        break;
      }
      var p := reader.ReadWith(position);
      if p.Err? {
        return Err(p.error);
      }
      positions := positions + [p.value];
    }
    var ended := reader.Expect(EndArray);
    if !ended {
      return Err(StreamError);
    }
    return Ok(Some(GeoJsonMultiPointCoordinates(positions)));
  }

  method Serialize<P>(ctx: SerializationContext, value: Option<GeoJsonMultiPointCoordinates<P>>, position: P -> seq<Token>)
    modifies ctx.writer
    ensures value.None? ==> ctx.writer.tokens == old(ctx.writer.tokens) + [Token.Null]
    ensures value.Some? ==>
              ctx.writer.tokens == old(ctx.writer.tokens) + [StartArray]
                                   + EncodeArrayElements(value.value.positions, position) + [EndArray]
    ensures ctx.writer.tokens == old(ctx.writer.tokens) + EncodeMultiPoint(value, position)
  {
    var writer := ctx.writer;
    if value.None? {
      writer.Write([Token.Null]);
      return;
    }
    var positions := value.value.positions;
    writer.Write([StartArray]);
    ghost var head := writer.tokens;
    for i := 0 to |positions|
      invariant writer.tokens == head + EncodeArrayElements(positions[..i], position)
    {
      EncodeArrayElementsSnoc(positions[..i], positions[i], position);
      assert positions[..i + 1] == positions[..i] + [positions[i]];
      AppendAssoc(head, EncodeArrayElements(positions[..i], position), position(positions[i]));
      writer.Write(position(positions[i]));
    }
    assert positions[..|positions|] == positions;
    writer.Write([EndArray]);
    AppendAssoc(old(writer.tokens), [StartArray], EncodeArrayElements(positions, position));
  }

  /** If the position serializer round-trips, so does the multi-point one,
      null included, and positions come back in order and in number. */
  lemma MultiPointRoundTrip<P(!new)>(value: Option<GeoJsonMultiPointCoordinates<P>>, rest: seq<Token>,
                                     parse: seq<Token> -> Result<(P, seq<Token>)>, encode: P -> seq<Token>)
    requires ElementSerializer(parse, encode)
    ensures ParseMultiPoint(EncodeMultiPoint(value, encode) + rest, parse) == Ok((value, rest))
  {
    match value
    case None => NullableArrayRoundTrip(None, rest, parse, encode);
    case Some(mp) => NullableArrayRoundTrip(Some(mp.positions), rest, parse, encode);
  }
}
