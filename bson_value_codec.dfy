/** The value-kind dispatcher through which the document serializer reads and
    writes every element value (BsonValueSerializer).  It is a stand-in: the
    dispatcher itself lies outside the modelled core, so it is given here as a
    pair of reference functions over tokens.  A nested document is read exactly
    as a top-level one (`ParseDocument`), with the duplicate-name policy that
    the child context shares with its parent. */
module BsonValueCodec {
  import opened Bson

  /** The first token of a value announces the value's own kind. */
  function EncodeValue(v: BsonValue): (r: seq<Token>)
    ensures |r| > 0 && TypeOf(r[0]) == Some(TypeOfValue(v))
  {
    match v
    case BsonNull => [Token.Null]
    case BsonScalar(c, x) => [Token.Scalar(c, x)]
    case BsonRegex(re) => [Token.Regex(re.pattern, re.options)]
    case BsonBinaryData(st, gr, b) => [Token.Binary(st, gr, b)]
    case BsonDocumentValue(es) => [StartDoc] + EncodeElements(es) + [EndOfDoc]
    case BsonArray(vs) => [StartArray] + EncodeItems(vs) + [EndArray]
  }

  /** Each element as its name token followed by its value, in order. */
  function EncodeElements(es: seq<BsonElement>): seq<Token>
  {
    if es == [] then [] else [Name(es[0].name)] + EncodeValue(es[0].value) + EncodeElements(es[1..])
  }

  function EncodeItems(vs: seq<BsonValue>): seq<Token>
  {
    if vs == [] then [] else EncodeValue(vs[0]) + EncodeItems(vs[1..])
  }

  /** The tokens of a document whose elements are `es`, in element order. */
  function EncodeDocument(es: seq<BsonElement>): seq<Token>
  {
    [StartDoc] + EncodeElements(es) + [EndOfDoc]
  }

  /** Reads one value, dispatching on the kind of its first token. */
  function ParseValue(s: seq<Token>, allowDup: bool): (r: Result<(BsonValue, seq<Token>)>)
    ensures r.Ok? ==> ProperSuffix(r.value.1, s)
    decreases |s|, 2
  {
    if |s| == 0 then Err(StreamError)
    else match s[0]
      case Null => Ok((BsonNull, s[1..]))
      case Scalar(c, x) => Ok((BsonScalar(c, x), s[1..]))
      case Regex(p, o) => Ok((BsonRegex(BsonRegularExpression(p, o)), s[1..]))
      case Binary(st, gr, b) => Ok((BsonBinaryData(st, gr, b), s[1..]))
      case StartDoc =>
        (match ParseDocument(s, allowDup)
         case Ok((es, rest)) => Ok((BsonDocumentValue(es), rest))
         case Err(e) => Err(e))
      case StartArray =>
        (match ParseItems(s[1..], allowDup, [])
         case Ok((vs, rest)) =>
           if rest[0] == EndArray then Ok((BsonArray(vs), rest[1..])) else Err(StreamError)
         case Err(e) => Err(e))
      case _ => Err(StreamError)
  }

  /** BsonDocumentSerializer.Deserialize as a function: the current kind must be
      Document, otherwise a format error and nothing is consumed; then the
      elements up to the sentinel, then the end of the document. */
  function ParseDocument(s: seq<Token>, allowDup: bool): (r: Result<(seq<BsonElement>, seq<Token>)>)
    ensures r.Ok? ==> ProperSuffix(r.value.1, s)
    decreases |s|, 1
  {
    match CurrentBsonType(s)
    case Err(e) => Err(e)
    case Ok(t) =>
      if t != BsonType.Document then Err(FormatError("BsonDocument", t))
      else match ParseElements(s[1..], allowDup, [])
        case Ok((es, rest)) =>
          if rest[0] == EndOfDoc then Ok((es, rest[1..])) else Err(StreamError)
        case Err(e) => Err(e)
  }

  /** The element loop: `acc` holds the elements read so far, in stream order.
      Stops at the sentinel without consuming it. */
  function ParseElements(s: seq<Token>, allowDup: bool, acc: seq<BsonElement>)
    : (r: Result<(seq<BsonElement>, seq<Token>)>)
    ensures r.Ok? ==> Suffix(r.value.1, s) && |r.value.1| > 0 && IsEndMarker(r.value.1[0])
    decreases |s|, 0
  {
    match NextBsonType(s)
    case Err(e) => Err(e)
    case Ok(t) =>
      if t == BsonType.EndOfDocument then Ok((acc, s))
      else if !s[0].Name? then Err(StreamError)
      else match ParseValue(s[1..], allowDup)
        case Err(e) => Err(e)
        case Ok((v, rest)) =>
          if !allowDup && s[0].name in Names(acc) then Err(DuplicateName(s[0].name))
          else ParseElements(rest, allowDup, acc + [BsonElement(s[0].name, v)])
  }

  /** The item loop of an array, stopping at the sentinel without consuming it. */
  function ParseItems(s: seq<Token>, allowDup: bool, acc: seq<BsonValue>)
    : (r: Result<(seq<BsonValue>, seq<Token>)>)
    ensures r.Ok? ==> Suffix(r.value.1, s) && |r.value.1| > 0 && IsEndMarker(r.value.1[0])
    decreases |s|, 3
  {
    match NextBsonType(s)
    case Err(e) => Err(e)
    case Ok(t) =>
      if t == BsonType.EndOfDocument then Ok((acc, s))
      else match ParseValue(s, allowDup)
        case Err(e) => Err(e)
        case Ok((v, rest)) => ParseItems(rest, allowDup, acc + [v])
  }

  /** Reading back what was written yields the same value and leaves the rest
      of the stream untouched. */
  lemma {:induction false} ValueRoundTrip(v: BsonValue, rest: seq<Token>, allowDup: bool)
    requires WellFormed(v, allowDup)
    ensures ParseValue(EncodeValue(v) + rest, allowDup) == Ok((v, rest))
    decreases v, 2
  {
    var s := EncodeValue(v) + rest;
    match v
    case BsonNull => assert s[1..] == rest;
    case BsonScalar(_, _) => assert s[1..] == rest;
    case BsonRegex(_) => assert s[1..] == rest;
    case BsonBinaryData(_, _, _) => assert s[1..] == rest;
    case BsonDocumentValue(es) =>
      assert s == EncodeDocument(es) + rest;
      DocumentRoundTrip(es, rest, allowDup);
    case BsonArray(vs) =>
      var after := [EndArray] + rest;
      assert s == [StartArray] + (EncodeItems(vs) + after);
      assert s[1..] == EncodeItems(vs) + after;
      ItemsRoundTrip(vs, [], after, allowDup);
      assert [] + vs == vs;
      assert after[1..] == rest;
  }

  lemma {:induction false} DocumentRoundTrip(es: seq<BsonElement>, rest: seq<Token>, allowDup: bool)
    requires ElementsWellFormed(es, allowDup) && (allowDup || UniqueNames(es))
    ensures ParseDocument(EncodeDocument(es) + rest, allowDup) == Ok((es, rest))
    decreases es, 1
  {
    var s := EncodeDocument(es) + rest;
    var after := [EndOfDoc] + rest;
    assert s == [StartDoc] + (EncodeElements(es) + after);
    assert s[1..] == EncodeElements(es) + after;
    assert [] + es == es;
    ElementsRoundTrip(es, [], after, allowDup);
    assert after[1..] == rest;
  }

  lemma {:induction false} ElementsRoundTrip(es: seq<BsonElement>, acc: seq<BsonElement>, rest: seq<Token>, allowDup: bool)
    requires ElementsWellFormed(es, allowDup) && (allowDup || UniqueNames(acc + es))
    requires |rest| > 0 && IsEndMarker(rest[0])
    ensures ParseElements(EncodeElements(es) + rest, allowDup, acc) == Ok((acc + es, rest))
    decreases es, 0
  {
    var s := EncodeElements(es) + rest;
    if es == [] {
      assert s == rest && acc + es == acc;
    } else {
      var e := es[0];
      var tail := EncodeElements(es[1..]) + rest;
      assert s == [Name(e.name)] + (EncodeValue(e.value) + tail);
      assert s[1..] == EncodeValue(e.value) + tail;
      assert s[1] == EncodeValue(e.value)[0];
      assert NextBsonType(s) == Ok(TypeOfValue(e.value));
      assert WellFormed(e.value, allowDup);
      ValueRoundTrip(e.value, tail, allowDup);
      assert ParseValue(s[1..], allowDup) == Ok((e.value, tail));
      if !allowDup {
        forall i | 0 <= i < |acc| ensures acc[i].name != e.name {
          assert (acc + es)[i] == acc[i] && (acc + es)[|acc|] == e;
        }
      }
      assert allowDup || e.name !in Names(acc);
      assert ParseElements(s, allowDup, acc) == ParseElements(tail, allowDup, acc + [e]);
      ShiftHead(acc, es);
      assert ElementsWellFormed(es[1..], allowDup);
      ElementsRoundTrip(es[1..], acc + [e], rest, allowDup);
    }
  }

  lemma {:induction false} ItemsRoundTrip(vs: seq<BsonValue>, acc: seq<BsonValue>, rest: seq<Token>, allowDup: bool)
    requires forall i :: 0 <= i < |vs| ==> WellFormed(vs[i], allowDup)
    requires |rest| > 0 && IsEndMarker(rest[0])
    ensures ParseItems(EncodeItems(vs) + rest, allowDup, acc) == Ok((acc + vs, rest))
    decreases vs
  {
    var s := EncodeItems(vs) + rest;
    if vs == [] {
      assert s == rest && acc + vs == acc;
    } else {
      var tail := EncodeItems(vs[1..]) + rest;
      assert s == EncodeValue(vs[0]) + tail;
      assert s[0] == EncodeValue(vs[0])[0];
      assert NextBsonType(s) == Ok(TypeOfValue(vs[0]));
      ValueRoundTrip(vs[0], tail, allowDup);
      assert ParseItems(s, allowDup, acc) == ParseItems(tail, allowDup, acc + [vs[0]]);
      ShiftHead(acc, vs);
      ItemsRoundTrip(vs[1..], acc + [vs[0]], rest, allowDup);
    }
  }
}
