/** The stream cursor the serializers drive: a reader positioned over a token
    sequence and a writer that appends tokens, plus the contexts that carry
    them and the per-call configuration flags. */
module BsonIO {
  import opened Bson
  import opened BsonValueCodec

  class BsonReader {
    const tokens: seq<Token>
    var pos: nat

    ghost predicate Valid()
      reads this
    {
      pos <= |tokens|
    }

    /** What is left to read. */
    function Remaining(): seq<Token>
      reads this
      requires Valid()
    {
      tokens[pos..]
    }

    constructor (tokens: seq<Token>)
      ensures Valid() && this.tokens == tokens && Remaining() == tokens
    {
      this.tokens := tokens;
      pos := 0;
    }

    /** Advances the cursor so that exactly `rest` remains. */
    method SkipTo(rest: seq<Token>)
      requires Valid() && Suffix(rest, Remaining())
      modifies this
      ensures Valid() && Remaining() == rest
    {
      ghost var s := Remaining();
      assert s[|s| - |rest|..] == tokens[pos + |s| - |rest|..];
      pos := |tokens| - |rest|;
    }

    /** ReadStartDocument, ReadEndDocument, ReadStartArray, ReadEndArray and
        ReadNull: consume one expected token, or fail and consume nothing. */
    method Expect(t: Token) returns (ok: bool)
      requires Valid()
      modifies this
      ensures Valid()
      ensures ok <==> |old(Remaining())| > 0 && old(Remaining())[0] == t
      ensures Remaining() == if ok then old(Remaining())[1..] else old(Remaining())
    {
      ok := pos < |tokens| && tokens[pos] == t;
      if ok {
        pos := pos + 1;
      }
    }

    /** ReadName: consumes an element name. */
    method ReadName() returns (r: Result<string>)
      requires Valid()
      modifies this
      ensures Valid()
      ensures r.Ok? <==> |old(Remaining())| > 0 && old(Remaining())[0].Name?
      ensures r.Ok? ==> r.value == old(Remaining())[0].name && Remaining() == old(Remaining())[1..]
      ensures r.Err? ==> r.error == StreamError && Remaining() == old(Remaining())
    {
      if pos < |tokens| && tokens[pos].Name? {
        r := Ok(tokens[pos].name);
        pos := pos + 1;
      } else {
        r := Err(StreamError);
      }
    }

    /** ReadRegularExpression: consumes one regular-expression token. */
    method ReadRegularExpression() returns (r: Result<BsonRegularExpression>)
      requires Valid()
      modifies this
      ensures Valid()
      ensures r.Ok? <==> |old(Remaining())| > 0 && old(Remaining())[0].Regex?
      ensures r.Ok? ==> Token.Regex(r.value.pattern, r.value.options) == old(Remaining())[0]
                        && Remaining() == old(Remaining())[1..]
      ensures r.Err? ==> r.error == StreamError && Remaining() == old(Remaining())
    {
      if pos < |tokens| && tokens[pos].Regex? {
        r := Ok(BsonRegularExpression(tokens[pos].pattern, tokens[pos].options));
        pos := pos + 1;
      } else {
        r := Err(StreamError);
      }
    }

    /** Reads one value through the value-kind dispatcher with a child context. */
    method ReadValue(allowDup: bool) returns (r: Result<BsonValue>)
      requires Valid()
      modifies this
      ensures Valid()
      ensures match ParseValue(old(Remaining()), allowDup)
              case Ok((v, rest)) => r == Ok(v) && Remaining() == rest
              case Err(e) => r == Err(e)
    {
      match ParseValue(Remaining(), allowDup)
      case Ok((v, rest)) =>
        SkipTo(rest);
        r := Ok(v);
      case Err(e) =>
        r := Err(e);
    }

    /** Reads one value through an element serializer given as its reference
        function; such a function reports what it leaves unread. */
    method ReadWith<T>(parse: seq<Token> -> Result<(T, seq<Token>)>) returns (r: Result<T>)
      requires Valid() && Consumes(parse)
      modifies this
      ensures Valid()
      ensures match parse(old(Remaining()))
              case Ok((x, rest)) => r == Ok(x) && Remaining() == rest
              case Err(e) => r == Err(e)
    {
      match parse(Remaining())
      case Ok((x, rest)) =>
        SkipTo(rest);
        r := Ok(x);
      case Err(e) =>
        r := Err(e);
    }
  }

  /** What an element serializer must promise: every successful read consumes
      at least one token and leaves a suffix of its input. */
  ghost predicate Consumes<T>(parse: seq<Token> -> Result<(T, seq<Token>)>)
  {
    forall s :: parse(s).Ok? ==> ProperSuffix(parse(s).value.1, s)
  }

  /** An element serializer whose reader reads back exactly what its writer wrote. */
  ghost predicate RoundTrips<T(!new)>(parse: seq<Token> -> Result<(T, seq<Token>)>, encode: T -> seq<Token>)
  {
    forall x, rest :: parse(encode(x) + rest) == Ok((x, rest))
  }

  /** What a composite asks of an element writer: every value it writes starts
      with a token announcing a value, so the reader's sentinel check sees an
      element and not the end of the array. */
  ghost predicate WritesValue<T(!new)>(encode: T -> seq<Token>)
  {
    forall x :: |encode(x)| > 0 && TypeOf(encode(x)[0]).Some? && !IsEndMarker(encode(x)[0])
  }

  /** An element serializer a composite can loop over: its reader consumes,
      reads back what its writer writes, and its writer writes a value. */
  ghost predicate ElementSerializer<T(!new)>(parse: seq<Token> -> Result<(T, seq<Token>)>, encode: T -> seq<Token>)
  {
    Consumes(parse) && RoundTrips(parse, encode) && WritesValue(encode)
  }

  class BsonWriter {
    var tokens: seq<Token>

    constructor ()
      ensures tokens == []
    {
      tokens := [];
    }

    /** Appends tokens: every Write* call of the writer. */
    method Write(ts: seq<Token>)
      modifies this
      ensures tokens == old(tokens) + ts
    {
      tokens := tokens + ts;
    }
  }

  /** Carries the reader and the duplicate-name policy; a child context shares both. */
  datatype DeserializationContext = DeserializationContext(reader: BsonReader, allowDuplicateElementNames: bool)

  /** Carries the writer and the two serialization flags. */
  datatype SerializationContext = SerializationContext(writer: BsonWriter, serializeAsNominalType: bool, serializeIdFirst: bool)
}
