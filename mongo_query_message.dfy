/** MongoQueryMessage: the body of a query request on the wire.  The binary
    writer is modelled as a sequence of body parts: 32-bit integers, C-strings
    and the BSON tokens a BSON writer over the same stream emits.  The message
    header and its opcode belong to the request-message base class, which is
    not part of this model. */
module MongoQueryMessage {
  import opened Bson
  import opened BsonValueCodec
  import opened BsonDocumentSerializer

  newtype int32 = x: int | -0x8000_0000 <= x < 0x8000_0000

  datatype BodyPart = Int32(i: int32) | CString(s: string) | Bson(t: Token)

  /** BSON tokens as written through the BSON writer onto the binary stream. */
  function Lift(ts: seq<Token>): (r: seq<BodyPart>)
    ensures |r| == |ts|
  {
    if ts == [] then [] else [Bson(ts[0])] + Lift(ts[1..])
  }

  /** The BSON tokens of a run of body parts, or None if one is not BSON. */
  function Unlift(ps: seq<BodyPart>): Option<seq<Token>>
  {
    if ps == [] then Some([])
    else if !ps[0].Bson? then None
    else match Unlift(ps[1..])
      case None => None
      case Some(ts) => Some([ps[0].t] + ts)
  }

  lemma {:induction false} LiftAppend(a: seq<Token>, b: seq<Token>)
    ensures Lift(a + b) == Lift(a) + Lift(b)
    decreases |a|
  {
    if a == [] {
      assert a + b == b;
    } else {
      assert (a + b)[0] == a[0];
      assert (a + b)[1..] == a[1..] + b;
      LiftAppend(a[1..], b);
    }
  }

  lemma {:induction false} UnliftLift(ts: seq<Token>)
    ensures Unlift(Lift(ts)) == Some(ts)
    decreases |ts|
  {
    if ts != [] {
      var ps := Lift(ts);
      assert ps[0] == Bson(ts[0]) && ps[1..] == Lift(ts[1..]);
      UnliftLift(ts[1..]);
      assert [ts[0]] + ts[1..] == ts;
    }
  }

  class BinaryWriter {
    var parts: seq<BodyPart>

    constructor ()
      ensures parts == []
    {
      parts := [];
    }

    method Write(p: BodyPart)
      modifies this
      ensures parts == old(parts) + [p]
    {
      parts := parts + [p];
    }

    /** The BSON writer created over this stream. */
    method WriteBson(ts: seq<Token>)
      modifies this
      ensures parts == old(parts) + Lift(ts)
    {
      parts := parts + Lift(ts);
    }
  }

  /** The elements of a document, or None for the null reference. */
  function Contents(d: BsonDocument?): Option<seq<BsonElement>>
    reads d
  {
    if d == null then None else Some(d.elements)
  }

  /** The body in wire order: flags, collection name, skip, limit, the query
      (an empty document when there is none), then the projection if any. */
  function QueryBody(flags: int32, collectionFullName: string, numberToSkip: int32, numberToReturn: int32,
                     query: Option<seq<BsonElement>>, fields: Option<seq<BsonElement>>): seq<BodyPart>
  {
    [Int32(flags), CString(collectionFullName), Int32(numberToSkip), Int32(numberToReturn)]
    + Lift(if query.None? then [StartDoc, EndOfDoc] else EncodeDocument(query.value))
    + (if fields.None? then [] else Lift(EncodeDocument(fields.value)))
  }

  /** What a receiver reads from a query body. */
  datatype QueryRequest = QueryRequest(flags: int32, collectionFullName: string, numberToSkip: int32,
                                       numberToReturn: int32, query: seq<BsonElement>,
                                       fields: Option<seq<BsonElement>>)

  /** The receiving side: the four header fields, then the documents. */
  function ParseQueryBody(ps: seq<BodyPart>): Result<QueryRequest>
  {
    if |ps| < 4 || !ps[0].Int32? || !ps[1].CString? || !ps[2].Int32? || !ps[3].Int32? then Err(StreamError)
    else match Unlift(ps[4..])
      case None => Err(StreamError)
      case Some(ts) =>
        match ParseQueryDocuments(ts)
        case Err(e) => Err(e)
        case Ok((q, f)) => Ok(QueryRequest(ps[0].i, ps[1].s, ps[2].i, ps[3].i, q, f))
  }

  /** One document, and a second one if anything is left. */
  function ParseQueryDocuments(ts: seq<Token>): Result<(seq<BsonElement>, Option<seq<BsonElement>>)>
  {
    match ParseDocument(ts, true)
    case Err(e) => Err(e)
    case Ok((q, rest)) =>
      if rest == [] then Ok((q, None))
      else match ParseDocument(rest, true)
        case Err(e) => Err(e)
        case Ok((f, after)) => if after == [] then Ok((q, Some(f))) else Err(StreamError)
  }

  class MongoQueryMessage {
    const collectionFullName: string
    /** The numeric value of the query flags. */
    const flags: int32
    const numberToSkip: int32
    const numberToReturn: int32
    const query: BsonDocument?
    const fields: BsonDocument?

    constructor (collectionFullName: string, flags: int32, numberToSkip: int32, numberToReturn: int32,
                 query: BsonDocument?, fields: BsonDocument?)
      ensures this.collectionFullName == collectionFullName && this.flags == flags
      ensures this.numberToSkip == numberToSkip && this.numberToReturn == numberToReturn
      ensures this.query == query && this.fields == fields
    {
      this.collectionFullName := collectionFullName;
      this.flags := flags;
      this.numberToSkip := numberToSkip;
      this.numberToReturn := numberToReturn;
      this.query := query;
      this.fields := fields;
    }

    method WriteBodyTo(binaryWriter: BinaryWriter)
      modifies binaryWriter
      ensures binaryWriter.parts
              == old(binaryWriter.parts)
                 + QueryBody(flags, collectionFullName, numberToSkip, numberToReturn, Contents(query), Contents(fields))
    {
      ghost var start := binaryWriter.parts;
      binaryWriter.Write(Int32(flags));
      binaryWriter.Write(CString(collectionFullName));
      binaryWriter.Write(Int32(numberToSkip));
      binaryWriter.Write(Int32(numberToReturn));
      ghost var header := [Int32(flags), CString(collectionFullName), Int32(numberToSkip), Int32(numberToReturn)];
      assert binaryWriter.parts == start + header;
      ghost var queryTokens := if query == null then [StartDoc, EndOfDoc] else EncodeDocument(query.elements);
      if query == null {
        binaryWriter.WriteBson([StartDoc]);
        binaryWriter.WriteBson([EndOfDoc]);
        assert Lift([StartDoc]) + Lift([EndOfDoc]) == Lift([StartDoc, EndOfDoc]);
      } else {
        binaryWriter.WriteBson(EncodeDocument(query.elements));
      }
      AppendAssoc(start, header, Lift(queryTokens));
      ghost var mid := binaryWriter.parts;
      assert mid == start + (header + Lift(queryTokens));
      ghost var fieldParts := if fields == null then [] else Lift(EncodeDocument(fields.elements));
      if fields != null {
        binaryWriter.WriteBson(EncodeDocument(fields.elements));
      } else {
        assert mid + fieldParts == mid;
      }
      assert binaryWriter.parts == mid + fieldParts;
      AppendAssoc(start, header + Lift(queryTokens), fieldParts);
    }
  }

  /** The documents after the header come back: the query, and the projection
      exactly when one was written. */
  lemma QueryDocumentsRoundTrip(q: seq<BsonElement>, fields: Option<seq<BsonElement>>)
    ensures ParseQueryDocuments(EncodeDocument(q) + (if fields.None? then [] else EncodeDocument(fields.value)))
            == Ok((q, fields))
  {
    var fTokens := if fields.None? then [] else EncodeDocument(fields.value);
    AllowDupElementsWellFormed(q);
    DocumentRoundTrip(q, fTokens, true);
    if fields.Some? {
      AllowDupElementsWellFormed(fields.value);
      DocumentRoundTrip(fields.value, [], true);
      assert EncodeDocument(fields.value) + [] == fTokens;
    }
  }

  /** The body is the header followed by the BSON tokens of both documents. */
  lemma QueryBodyShape(flags: int32, collectionFullName: string, numberToSkip: int32, numberToReturn: int32,
                       query: Option<seq<BsonElement>>, fields: Option<seq<BsonElement>>)
    ensures QueryBody(flags, collectionFullName, numberToSkip, numberToReturn, query, fields)
            == [Int32(flags), CString(collectionFullName), Int32(numberToSkip), Int32(numberToReturn)]
               + Lift(EncodeDocument(if query.None? then [] else query.value)
                      + (if fields.None? then [] else EncodeDocument(fields.value)))
  {
    var qTokens := EncodeDocument(if query.None? then [] else query.value);
    var fTokens := if fields.None? then [] else EncodeDocument(fields.value);
    assert Lift(fTokens) == (if fields.None? then [] else Lift(EncodeDocument(fields.value)));
    LiftAppend(qTokens, fTokens);
  }

  /** After the header, what a receiver reads is decided by the BSON tokens alone. */
  lemma ParseAfterHeader(flags: int32, collectionFullName: string, numberToSkip: int32, numberToReturn: int32,
                         ts: seq<Token>)
    ensures ParseQueryBody([Int32(flags), CString(collectionFullName), Int32(numberToSkip), Int32(numberToReturn)] + Lift(ts))
            == match ParseQueryDocuments(ts)
               case Err(e) => Err(e)
               case Ok((q, f)) => Ok(QueryRequest(flags, collectionFullName, numberToSkip, numberToReturn, q, f))
  {
    var ps := [Int32(flags), CString(collectionFullName), Int32(numberToSkip), Int32(numberToReturn)] + Lift(ts);
    assert ps[4..] == Lift(ts);
    UnliftLift(ts);
  }

  /** The receiver reads back the header fields in order, the query (empty when
      none was given) and the projection exactly when one was given. */
  lemma QueryBodyRoundTrip(flags: int32, collectionFullName: string, numberToSkip: int32, numberToReturn: int32,
                           query: Option<seq<BsonElement>>, fields: Option<seq<BsonElement>>)
    ensures ParseQueryBody(QueryBody(flags, collectionFullName, numberToSkip, numberToReturn, query, fields))
            == Ok(QueryRequest(flags, collectionFullName, numberToSkip, numberToReturn,
                               if query.None? then [] else query.value, fields))
  {
    var q := if query.None? then [] else query.value;
    var fTokens := if fields.None? then [] else EncodeDocument(fields.value);
    QueryBodyShape(flags, collectionFullName, numberToSkip, numberToReturn, query, fields);
    ParseAfterHeader(flags, collectionFullName, numberToSkip, numberToReturn, EncodeDocument(q) + fTokens);
    QueryDocumentsRoundTrip(q, fields);
  }
}
