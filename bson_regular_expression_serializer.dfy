/** BsonRegularExpressionSerializer: the leaf serializer for regular
    expressions, one token each way. */
module BsonRegularExpressionSerializer {
  import opened Bson
  import opened BsonIO

  /** What Deserialize reads: exactly one regular-expression token, or a format
      error naming the kind found. */
  function ParseRegularExpression(s: seq<Token>): (r: Result<(BsonRegularExpression, seq<Token>)>)
    ensures r.Ok? <==> CurrentBsonType(s) == Ok(BsonType.RegularExpression)
    ensures r.Ok? ==> s[0] == Token.Regex(r.value.0.pattern, r.value.0.options) && r.value.1 == s[1..]
    ensures CurrentBsonType(s).Ok? && CurrentBsonType(s).value != BsonType.RegularExpression ==>
              r == Err(FormatError("BsonRegularExpression", CurrentBsonType(s).value))
  {
    match CurrentBsonType(s)
    case Err(e) => Err(e)
    case Ok(t) =>
      if t == BsonType.RegularExpression then Ok((BsonRegularExpression(s[0].pattern, s[0].options), s[1..]))
      else Err(FormatError("BsonRegularExpression", t))
  }

  function EncodeRegularExpression(re: BsonRegularExpression): seq<Token>
  {
    [Token.Regex(re.pattern, re.options)]
  }

  method Deserialize(ctx: DeserializationContext) returns (r: Result<BsonRegularExpression>)
    requires ctx.reader.Valid()
    modifies ctx.reader
    ensures ctx.reader.Valid()
    ensures match ParseRegularExpression(old(ctx.reader.Remaining()))
            case Ok((re, rest)) => r == Ok(re) && ctx.reader.Remaining() == rest
            case Err(e) => r == Err(e) && ctx.reader.Remaining() == old(ctx.reader.Remaining())
  {
    var reader := ctx.reader;
    var bsonType := CurrentBsonType(reader.Remaining());
    if bsonType.Err? {
      return Err(bsonType.error);
    }
    if bsonType.value == BsonType.RegularExpression {
      r := reader.ReadRegularExpression();
    } else {
      r := Err(FormatError("BsonRegularExpression", bsonType.value));
    }
  }

  /** Writes a regular expression; `None` is the null reference. */
  method Serialize(ctx: SerializationContext, value: Option<BsonRegularExpression>) returns (r: Outcome)
    modifies ctx.writer
    ensures value.None? ==> r == Fail(ArgumentNull("value")) && ctx.writer.tokens == old(ctx.writer.tokens)
    ensures value.Some? ==> r == Pass && ctx.writer.tokens == old(ctx.writer.tokens) + EncodeRegularExpression(value.value)
  {
    if value.None? {
      return Fail(ArgumentNull("value"));
    }
    ctx.writer.Write(EncodeRegularExpression(value.value));
    return Pass;
  }

  /** Reading back a written regular expression yields it and consumes its one token. */
  lemma RegularExpressionRoundTrip(re: BsonRegularExpression, rest: seq<Token>)
    ensures ParseRegularExpression(EncodeRegularExpression(re) + rest) == Ok((re, rest))
  {
    assert (EncodeRegularExpression(re) + rest)[1..] == rest;
  }

  /** The leaf serializer meets what a composite asks of an element serializer. */
  lemma RegularExpressionIsElementSerializer()
    ensures ElementSerializer(ParseRegularExpression, EncodeRegularExpression)
  {
    forall re, rest ensures ParseRegularExpression(EncodeRegularExpression(re) + rest) == Ok((re, rest)) {
      RegularExpressionRoundTrip(re, rest);
    }
  }
}
