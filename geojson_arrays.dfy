/** The pattern the GeoJSON coordinate serializers share: a null token stands
    for a null value; otherwise an array whose elements are read through an
    element serializer until the end-of-document sentinel.  The element
    serializer is a parameter, given as its reader and writer functions. */
module GeoJsonArrays {
  import opened Bson
  import opened BsonIO

  /** The element loop: `acc` holds the elements read so far, in stream order.
      Stops at the sentinel without consuming it.  A read that consumes nothing
      ends the loop with a stream error; an element serializer never does this
      (`Consumes`), so for the serializers modelled the check never fires. */
  function ParseArrayElements<T>(s: seq<Token>, parse: seq<Token> -> Result<(T, seq<Token>)>, acc: seq<T>)
    : (r: Result<(seq<T>, seq<Token>)>)
    ensures r.Ok? ==> Suffix(r.value.1, s) && |r.value.1| > 0 && IsEndMarker(r.value.1[0])
    ensures r.Ok? ==> |r.value.0| >= |acc| && r.value.0[..|acc|] == acc
    decreases |s|
  {
    match NextBsonType(s)
    case Err(e) => Err(e)
    case Ok(t) =>
      if t == BsonType.EndOfDocument then Ok((acc, s))
      else match parse(s)
        case Err(e) => Err(e)
        case Ok((x, rest)) =>
          if ProperSuffix(rest, s) then ParseArrayElements(rest, parse, acc + [x]) else Err(StreamError)
  }

  /** A null token reads as `None`; otherwise StartArray, the elements up to
      the sentinel, then EndArray. */
  function ParseNullableArray<T>(s: seq<Token>, parse: seq<Token> -> Result<(T, seq<Token>)>)
    : (r: Result<(Option<seq<T>>, seq<Token>)>)
    ensures r.Ok? ==> ProperSuffix(r.value.1, s)
    ensures |s| > 0 && s[0] == Token.Null ==> r == Ok((None, s[1..]))
    ensures r.Ok? && r.value.0.Some? ==> s[0] == StartArray
  {
    if CurrentBsonType(s) == Ok(BsonType.Null) then Ok((None, s[1..]))
    else if |s| == 0 || s[0] != StartArray then Err(StreamError)
    else match ParseArrayElements(s[1..], parse, [])
      case Err(e) => Err(e)
      case Ok((xs, rest)) =>
        if rest[0] == EndArray then Ok((Some(xs), rest[1..])) else Err(StreamError)
  }

  /** The elements' tokens, in sequence order. */
  function EncodeArrayElements<T>(xs: seq<T>, encode: T -> seq<Token>): seq<Token>
  {
    if xs == [] then [] else encode(xs[0]) + EncodeArrayElements(xs[1..], encode)
  }

  /** A null value as one null token and no array; otherwise the array. */
  function EncodeNullableArray<T>(v: Option<seq<T>>, encode: T -> seq<Token>): (r: seq<Token>)
    ensures v.None? ==> r == [Token.Null]
    ensures v.Some? ==> |r| >= 2 && r[0] == StartArray && r[|r| - 1] == EndArray
  {
    match v
    case None => [Token.Null]
    case Some(xs) => [StartArray] + EncodeArrayElements(xs, encode) + [EndArray]
  }

  /** Writing one more element appends its tokens: what a writer loop needs. */
  lemma {:induction false} EncodeArrayElementsSnoc<T>(xs: seq<T>, x: T, encode: T -> seq<Token>)
    ensures EncodeArrayElements(xs + [x], encode) == EncodeArrayElements(xs, encode) + encode(x)
    decreases |xs|
  {
    if xs == [] {
      assert [] + [x] == [x];
      assert [x][1..] == [];
    } else {
      assert (xs + [x])[0] == xs[0];
      assert (xs + [x])[1..] == xs[1..] + [x];
      EncodeArrayElementsSnoc(xs[1..], x, encode);
      AppendAssoc(encode(xs[0]), EncodeArrayElements(xs[1..], encode), encode(x));
    }
  }

  /** Reading back the written elements yields them, after `acc`, in order, and
      stops at the sentinel that follows. */
  lemma {:induction false} ArrayElementsRoundTrip<T(!new)>(xs: seq<T>, acc: seq<T>, rest: seq<Token>,
                                                          parse: seq<Token> -> Result<(T, seq<Token>)>,
                                                          encode: T -> seq<Token>)
    requires ElementSerializer(parse, encode)
    requires |rest| > 0 && IsEndMarker(rest[0])
    ensures ParseArrayElements(EncodeArrayElements(xs, encode) + rest, parse, acc) == Ok((acc + xs, rest))
    decreases |xs|
  {
    var s := EncodeArrayElements(xs, encode) + rest;
    if xs == [] {
      assert s == rest && acc + xs == acc;
    } else {
      var tail := EncodeArrayElements(xs[1..], encode) + rest;
      AppendAssoc(encode(xs[0]), EncodeArrayElements(xs[1..], encode), rest);
      assert s == encode(xs[0]) + tail;
      assert s[0] == encode(xs[0])[0];
      assert NextBsonType(s) == Ok(TypeOf(s[0]).value);
      assert parse(s) == Ok((xs[0], tail));
      assert ProperSuffix(tail, s);
      assert ParseArrayElements(s, parse, acc) == ParseArrayElements(tail, parse, acc + [xs[0]]);
      ShiftHead(acc, xs);
      ArrayElementsRoundTrip(xs[1..], acc + [xs[0]], rest, parse, encode);
    }
  }

  /** Reading back a written nullable array yields the same value, null
      included, and leaves the rest of the stream untouched. */
  lemma NullableArrayRoundTrip<T(!new)>(v: Option<seq<T>>, rest: seq<Token>,
                                         parse: seq<Token> -> Result<(T, seq<Token>)>,
                                         encode: T -> seq<Token>)
    requires ElementSerializer(parse, encode)
    ensures ParseNullableArray(EncodeNullableArray(v, encode) + rest, parse) == Ok((v, rest))
  {
    var s := EncodeNullableArray(v, encode) + rest;
    match v
    case None =>
      assert s[1..] == rest;
    case Some(xs) =>
      var after := [EndArray] + rest;
      assert s == [StartArray] + (EncodeArrayElements(xs, encode) + after);
      assert s[1..] == EncodeArrayElements(xs, encode) + after;
      ArrayElementsRoundTrip(xs, [], after, parse, encode);
      assert [] + xs == xs;
      assert after[1..] == rest;
  }

  /** The nullable array codec is itself an element serializer, so arrays of
      arrays nest to any depth: the recursion of the multi-polygon format. */
  lemma NullableArrayIsElementSerializer<T(!new)>(parse: seq<Token> -> Result<(T, seq<Token>)>,
                                                  encode: T -> seq<Token>)
    requires ElementSerializer(parse, encode)
    ensures ElementSerializer(s => ParseNullableArray(s, parse), v => EncodeNullableArray(v, encode))
  {
    forall v: Option<seq<T>>, rest | true
      ensures ParseNullableArray(EncodeNullableArray(v, encode) + rest, parse) == Ok((v, rest))
    {
      NullableArrayRoundTrip(v, rest, parse, encode);
    }
  }
}
