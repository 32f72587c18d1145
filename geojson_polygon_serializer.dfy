/** GeoJsonPolygonSerializer's Helper: the polygon-specific part of the
    GeoJSON object reader and writer.  The generic field loop of the base
    helper is not part of this model; its per-field reader and its field writer
    for the members every GeoJSON object has (type, bounding box, coordinate
    reference system, extra members) are parameters, working on the object
    arguments `A`.  The polygon coordinates serializer is a parameter too; its
    values are `Option<C>`, `None` being the null reference. */
module GeoJsonPolygonSerializer {
  import opened Bson
  import opened BsonIO

  /** The one field name the polygon helper reads and writes itself. */
  const CoordinatesName: string := "coordinates"

  /** What CreateObject builds: the object arguments and the coordinates. */
  datatype GeoJsonPolygon<A, C> = GeoJsonPolygon(args: A, coordinates: Option<C>)

  /** What the base helper's per-field reader must promise for the arguments
      `a` collected so far: reading a field value consumes at least one token
      and leaves a suffix. */
  ghost predicate FieldReader<A>(baseField: (A, string, seq<Token>) -> Result<(A, seq<Token>)>, a: A)
  {
    forall name, s :: baseField(a, name, s).Ok? ==> ProperSuffix(baseField(a, name, s).value.1, s)
  }

  /** DeserializeField on the helper's state `p`, with the field's name already
      read: "coordinates" goes to the coordinates serializer, every other name
      to the base helper. */
  function ReadField<A, C>(p: GeoJsonPolygon<A, C>, name: string, s: seq<Token>,
                           coordinatesParse: seq<Token> -> Result<(Option<C>, seq<Token>)>,
                           baseField: (A, string, seq<Token>) -> Result<(A, seq<Token>)>)
    : (r: Result<(GeoJsonPolygon<A, C>, seq<Token>)>)
    ensures name == CoordinatesName ==>
              (r.Ok? <==> coordinatesParse(s).Ok?) &&
              (r.Ok? ==> r.value == (GeoJsonPolygon(p.args, coordinatesParse(s).value.0), coordinatesParse(s).value.1))
    ensures name != CoordinatesName ==>
              (r.Ok? <==> baseField(p.args, name, s).Ok?) &&
              (r.Ok? ==> r.value == (GeoJsonPolygon(baseField(p.args, name, s).value.0, p.coordinates), baseField(p.args, name, s).value.1))
  {
    if name == CoordinatesName then
      match coordinatesParse(s)
      case Ok((c, rest)) => Ok((p.(coordinates := c), rest))
      case Err(e) => Err(e)
    else
      match baseField(p.args, name, s)
      case Ok((a, rest)) => Ok((p.(args := a), rest))
      case Err(e) => Err(e)
  }

  /** SerializeFields: the base fields first, then the coordinates field. */
  function WriteFields<A, C>(p: GeoJsonPolygon<A, C>, baseFields: A -> seq<Token>,
                             coordinatesEncode: Option<C> -> seq<Token>): seq<Token>
  {
    baseFields(p.args) + [Name(CoordinatesName)] + coordinatesEncode(p.coordinates)
  }

  class Helper<A, C> {
    /** The type discriminator the helper hands to its base.  The base field
        reader and writer are parameters, so here it is only recorded. */
    const typeName: string
    /** The polygon coordinates serializer the registry hands out. */
    const coordinatesParse: seq<Token> -> Result<(Option<C>, seq<Token>)>
    const coordinatesEncode: Option<C> -> seq<Token>
    /** The object arguments the base helper collects. */
    var args: A
    /** The most recently read coordinates; `None` until one is read. */
    var coordinates: Option<C>

    /** `emptyArgs` stands for a fresh GeoJsonObjectArgs. */
    constructor (emptyArgs: A, coordinatesParse: seq<Token> -> Result<(Option<C>, seq<Token>)>,
                 coordinatesEncode: Option<C> -> seq<Token>)
      ensures typeName == "Polygon"
      ensures args == emptyArgs && coordinates == None
      ensures this.coordinatesParse == coordinatesParse && this.coordinatesEncode == coordinatesEncode
    {
      typeName := "Polygon";
      args := emptyArgs;
      coordinates := None;
      this.coordinatesParse := coordinatesParse;
      this.coordinatesEncode := coordinatesEncode;
    }

    /** The polygon built from the collected arguments and coordinates. */
    function CreateObject(): (p: GeoJsonPolygon<A, C>)
      reads this
      ensures p.args == args && p.coordinates == coordinates
    {
      GeoJsonPolygon(args, coordinates)
    }

    method DeserializeField(ctx: DeserializationContext, name: string,
                            baseField: (A, string, seq<Token>) -> Result<(A, seq<Token>)>)
      returns (r: Outcome)
      requires ctx.reader.Valid() && Consumes(coordinatesParse) && FieldReader(baseField, args)
      modifies this, ctx.reader
      ensures ctx.reader.Valid()
      ensures name == CoordinatesName ==> args == old(args)
      ensures name != CoordinatesName ==> coordinates == old(coordinates)
      ensures match ReadField(old(CreateObject()), name, old(ctx.reader.Remaining()), coordinatesParse, baseField)
              case Ok((p, rest)) => r == Pass && CreateObject() == p && ctx.reader.Remaining() == rest
              case Err(e) => r == Fail(e) && CreateObject() == old(CreateObject())
    {
      if name == CoordinatesName {
        var c := DeserializeCoordinates(ctx);
        if c.Err? {
          return Fail(c.error);
        }
        coordinates := c.value;
      } else {
        var current := args;
        var field := s => baseField(current, name, s);
        assert Consumes(field);
        var a := ctx.reader.ReadWith(field);
        if a.Err? {
          return Fail(a.error);
        }
        args := a.value;
      }
      return Pass;
    }

    /** The coordinates through their serializer, with a child context. */
    method DeserializeCoordinates(ctx: DeserializationContext) returns (r: Result<Option<C>>)
      requires ctx.reader.Valid() && Consumes(coordinatesParse)
      modifies ctx.reader
      ensures ctx.reader.Valid()
      ensures match coordinatesParse(old(ctx.reader.Remaining()))
              case Ok((c, rest)) => r == Ok(c) && ctx.reader.Remaining() == rest
              case Err(e) => r == Err(e)
    {
      r := ctx.reader.ReadWith(coordinatesParse);
    }

    method SerializeFields(ctx: SerializationContext, obj: GeoJsonPolygon<A, C>, baseFields: A -> seq<Token>)
      modifies ctx.writer
      ensures ctx.writer.tokens == old(ctx.writer.tokens) + WriteFields(obj, baseFields, coordinatesEncode)
    {
      ctx.writer.Write(baseFields(obj.args));
      SerializeCoordinates(ctx, obj.coordinates);
      AppendAssoc(old(ctx.writer.tokens), baseFields(obj.args), [Name(CoordinatesName)] + coordinatesEncode(obj.coordinates));
    }

    /** The field name, then the coordinates through their serializer. */
    method SerializeCoordinates(ctx: SerializationContext, c: Option<C>)
      modifies ctx.writer
      ensures ctx.writer.tokens == old(ctx.writer.tokens) + [Name(CoordinatesName)] + coordinatesEncode(c)
    {
      ctx.writer.Write([Name(CoordinatesName)]);
      ctx.writer.Write(coordinatesEncode(c));
    }
  }

  /** The coordinates field the writer emits is read back by the dispatch: its
      name is the one the reader switches on, the coordinates come back, the
      arguments are untouched, and the rest of the stream is left unread. */
  lemma CoordinatesFieldRoundTrip<A, C(!new)>(p: GeoJsonPolygon<A, C>, c: Option<C>, rest: seq<Token>,
                                               coordinatesParse: seq<Token> -> Result<(Option<C>, seq<Token>)>,
                                               coordinatesEncode: Option<C> -> seq<Token>,
                                               baseField: (A, string, seq<Token>) -> Result<(A, seq<Token>)>)
    requires RoundTrips(coordinatesParse, coordinatesEncode)
    ensures var s := [Name(CoordinatesName)] + coordinatesEncode(c) + rest;
            s[0].Name? &&
            ReadField(p, s[0].name, s[1..], coordinatesParse, baseField) == Ok((GeoJsonPolygon(p.args, c), rest))
  {
    var s := [Name(CoordinatesName)] + coordinatesEncode(c) + rest;
    assert s[1..] == coordinatesEncode(c) + rest;
  }
}
