# A verified model of the BSON codec core of the C# MongoDB driver

This project models, in Dafny, the token-level serialization logic of the C#
MongoDB driver's BSON library and the body writer of its query wire message:

- **BsonDocumentSerializer**: reading a generic document (one element per
  name/value pair before the end-of-document sentinel, in stream order, under
  the context's duplicate-name policy), writing one (including the "`_id`
  first" path and the redirect to a derived class's serializer), and the
  identity contract (`GetDocumentId`, `SetDocumentId`).
- **GeoJsonMultiPointCoordinatesSerializer** and
  **GeoJsonMultiPolygonCoordinatesSerializer**: a null token stands for a
  null value, and otherwise there is an array of elements read through an
  element serializer. Writing is the mirror image.
- **GeoJsonPolygonSerializer.Helper**: the field dispatch on `"coordinates"`,
  the `_coordinates` slot, `CreateObject`, and the field writer.
- **BsonRegularExpressionSerializer**: the one-token leaf serializer.
- **MongoQueryMessage**: the constructor and `WriteBodyTo`, whose body is
  written in wire order. A null query becomes an empty document, and a null
  projection is left out.

A BSON byte stream is modelled as a sequence of tokens (`Bson.Token`):

- `StartDoc`/`EndOfDoc` and `StartArray`/`EndArray` for the boundaries;
- `Name` for element names;
- one token for each scalar: `Null`, `Regex`, `Binary`, and an abstract `Scalar` that carries its runtime class (BsonObjectId, BsonInt32, ...).

The reader (`BsonIO.BsonReader`) is a class with its token sequence and a
position. Its methods are specified against reference functions on the
remaining tokens. The writer (`BsonIO.BsonWriter`) is a class whose token
sequence only ever grows. Each serializer method is proved against a reference
function: a parser on the remaining input, or an encoder appended to the
writer. Those functions carry the round-trip, ordering and error properties.

Element serializers that a composite serializer delegates to are parameters,
given as a pair of functions on tokens. Three predicates say what a composite
may assume about them:

- `Consumes`: a successful read consumes at least one token.
- `RoundTrips`: reading back what was written gives the same value.
- `WritesValue`: every write starts with a token that announces a value.

`BsonIO.ElementSerializer` bundles the three. The regular expression
serializer satisfies it, and so does the nullable array codec whenever its
element serializer does. That is how arrays nest: multi-polygon, polygon,
ring, position.

Files: `bson.dfy` (values, tokens, reader kinds), `bson_value_codec.dfy` (the
value-kind dispatcher the document serializer delegates to), `bson_io.dfy`
(reader, writer, contexts), `bson_document_serializer.dfy`,
`bson_regular_expression_serializer.dfy`, `geojson_arrays.dfy` (the array
pattern the coordinate serializers share),
`geojson_multi_point_coordinates_serializer.dfy`,
`geojson_multi_polygon_coordinates_serializer.dfy`,
`geojson_polygon_serializer.dfy`, `mongo_query_message.dfy`.

## Model

| member | source | states |
|---|---|---|
| Bson.CurrentBsonType | MongoDB.Bson/Serialization/Serializers/BsonDocumentSerializer.cs:59 | GetCurrentBsonType: the kind reported is the kind of the token at the front of the stream, which is not consumed |
| Bson.NextBsonType | MongoDB.Bson/Serialization/Serializers/BsonDocumentSerializer.cs:66 | ReadBsonType reports the end-of-document sentinel exactly when the next token is an end marker, of a document or of an array |
| BsonIO.BsonReader.Expect | MongoDB.Bson/Serialization/Serializers/BsonDocumentSerializer.cs:64 | ReadStartDocument and its kin consume exactly the expected token, or fail and consume nothing |
| BsonIO.BsonReader.ReadName | MongoDB.Bson/Serialization/Serializers/BsonDocumentSerializer.cs:68 | ReadName consumes one name token and returns its name; otherwise it fails and consumes nothing |
| BsonIO.BsonReader.ReadValue | MongoDB.Bson/Serialization/Serializers/BsonDocumentSerializer.cs:69 | a value read with a child context is what the dispatcher parses, and the cursor ends up just past it |
| BsonIO.BsonReader.ReadRegularExpression | MongoDB.Bson/Serialization/Serializers/BsonRegularExpressionSerializer.cs:61 | ReadRegularExpression consumes one regular-expression token and returns its pattern and options |
| BsonIO.BsonReader.ReadWith | MongoDB.Driver/GeoJsonObjectModel/Serializers/GeoJsonMultiPointCoordinatesSerializer.cs:55 | deserializing through an element serializer returns its value and leaves the cursor where that serializer stopped |
| BsonIO.BsonWriter.Write | MongoDB.Bson/Serialization/Serializers/BsonDocumentSerializer.cs:158 | writing appends tokens and changes nothing already written |
| BsonValueCodec.EncodeValue | MongoDB.Bson/Serialization/Serializers/BsonDocumentSerializer.cs:159 | a value's tokens are never empty, and the first one announces the value's own kind |
| BsonValueCodec.ParseValue | MongoDB.Bson/Serialization/Serializers/BsonDocumentSerializer.cs:69 | reading a value consumes at least one token and leaves a suffix of the stream |
| BsonValueCodec.ParseDocument | MongoDB.Bson/Serialization/Serializers/BsonDocumentSerializer.cs:59-77 | reading a document consumes at least one token and leaves a suffix of the stream |
| BsonValueCodec.ParseElements | MongoDB.Bson/Serialization/Serializers/BsonDocumentSerializer.cs:66-71 | the element loop stops at an end marker and does not consume it |
| BsonValueCodec.ValueRoundTrip | MongoDB.Bson/Serialization/Serializers/BsonDocumentSerializer.cs:69 | reading back a written value gives the same value and leaves the rest of the stream unread, nested documents and arrays included |
| BsonValueCodec.DocumentRoundTrip | MongoDB.Bson/Serialization/Serializers/BsonDocumentSerializer.cs:63-73 | reading back a written document gives its elements in order, under any policy the document satisfies |
| BsonValueCodec.ElementsRoundTrip | MongoDB.Bson/Serialization/Serializers/BsonDocumentSerializer.cs:66-71 | the loop appends exactly one element per name/value pair before the sentinel, in stream order, after the ones already read |
| BsonValueCodec.ItemsRoundTrip | MongoDB.Bson/Serialization/Serializers/BsonDocumentSerializer.cs:69 | the items of a written array come back in order |
| BsonDocumentSerializer.BsonDocument.constructor | MongoDB.Bson/Serialization/Serializers/BsonDocumentSerializer.cs:65 | a new document is empty and has the duplicate-name policy it was given |
| BsonDocumentSerializer.BsonDocument.Add | MongoDB.Bson/Serialization/Serializers/BsonDocumentSerializer.cs:70 | Add appends the element, unless duplicates are refused and the name is already present: then it fails and the document is unchanged; distinct names are preserved |
| BsonDocumentSerializer.BsonDocument.SetValueAt | MongoDB.Bson/Serialization/Serializers/BsonDocumentSerializer.cs:192 | assigning an element's value keeps its name and slot and changes no other element |
| BsonDocumentSerializer.BsonDocument.InsertAt | MongoDB.Bson/Serialization/Serializers/BsonDocumentSerializer.cs:196 | the inserted element takes slot i; those before keep their slots, and those after move up one |
| BsonDocumentSerializer.IndexOfName | MongoDB.Bson/Serialization/Serializers/BsonDocumentSerializer.cs:98 | TryGetElement finds the first element with the name, and finds nothing exactly when no element has it |
| BsonDocumentSerializer.Deserialize | MongoDB.Bson/Serialization/Serializers/BsonDocumentSerializer.cs:55-79 | when the current kind is not Document: a format error naming that kind, with nothing consumed; otherwise a fresh document whose elements are the pairs before the sentinel in stream order, with the context's duplicate-name policy, and the cursor past the end of the document |
| BsonDocumentSerializer.ReadElements | MongoDB.Bson/Serialization/Serializers/BsonDocumentSerializer.cs:66-71 | the element loop adds one element per name/value pair to the document, in stream order, until the sentinel, which it leaves unconsumed; a name already present in a document that refuses duplicates fails, as does a malformed pair |
| BsonDocumentSerializer.GetDocumentId | MongoDB.Bson/Serialization/Serializers/BsonDocumentSerializer.cs:89-120 | always true, with nominal type BsonValue. The id is null exactly when there is no `_id` element, and then the ObjectId generator is chosen. Otherwise the id is the first `_id` element's value and the generator registered for its runtime class (scalar classes such as BsonObjectId and BsonInt32 are told apart) is used; with none registered, UUID binary data gets the GUID generator for its representation. The generator is null exactly when none is registered and the id is not UUID binary data |
| BsonDocumentSerializer.GeneratorByIdClass | MongoDB.Bson/Serialization/Serializers/BsonDocumentSerializer.cs:101 | with a registry that has a generator for ObjectId ids and none for int ids, an ObjectId id gets that generator and an int id gets none |
| BsonDocumentSerializer.WriteElements | MongoDB.Bson/Serialization/Serializers/BsonDocumentSerializer.cs:153-161 | the element loop writes every element in order except the one in the skipped slot |
| BsonDocumentSerializer.Serialize | MongoDB.Bson/Serialization/Serializers/BsonDocumentSerializer.cs:127-164 | a null document is an argument error and nothing is written. A derived document outside a nominal-type context is handed, with the whole context and its flags, to the redirect target, which writes everything or fails; its failure is the result and nothing is written. Otherwise: start; the `_id` element first when asked for and present; every other slot in order; end |
| BsonDocumentSerializer.ElementsSkippingWithout | MongoDB.Bson/Serialization/Serializers/BsonDocumentSerializer.cs:153-161 | skipping a slot writes exactly the encoding of the remaining elements, in order |
| BsonDocumentSerializer.SerializedInOrder | MongoDB.Bson/Serialization/Serializers/BsonDocumentSerializer.cs:144-163 | without id-first, or with no `_id`, a document is written as its elements in the order they were added |
| BsonDocumentSerializer.SerializedIdFirst | MongoDB.Bson/Serialization/Serializers/BsonDocumentSerializer.cs:144-163 | with id-first and an `_id`: start, that element, every other element in its original relative order, end |
| BsonDocumentSerializer.IdFirstIsPermutation | MongoDB.Bson/Serialization/Serializers/BsonDocumentSerializer.cs:146-161 | id-first writes every element exactly once: the `_id` is never written twice, and an element equal to it by value is still written |
| BsonDocumentSerializer.IdFirstKeepsUnique | MongoDB.Bson/Serialization/Serializers/BsonDocumentSerializer.cs:146-161 | the id-first order keeps distinct names distinct |
| BsonDocumentSerializer.SerializeDeserializeRoundTrip | MongoDB.Bson/Serialization/Serializers/BsonDocumentSerializer.cs:127-164 | under any flags, deserializing a serialized plain document gives back its elements, with `_id` moved first when id-first applied |
| BsonDocumentSerializer.WithDocumentId | MongoDB.Bson/Serialization/Serializers/BsonDocumentSerializer.cs:189-197 | an existing `_id` keeps its slot and takes the new value, and every other element is unchanged; with no `_id`, one is inserted at slot 0 ahead of all the old elements; names gain `_id` and nothing else |
| BsonDocumentSerializer.SetDocumentId | MongoDB.Bson/Serialization/Serializers/BsonDocumentSerializer.cs:171-198 | a null document or null id is an argument error naming the parameter, and the document is unchanged; otherwise the id, converted when not already a BsonValue, is set as above and the document's policy still holds |
| BsonDocumentSerializer.WithDocumentIdKeepsUnique | MongoDB.Bson/Serialization/Serializers/BsonDocumentSerializer.cs:189-197 | setting the id keeps distinct names distinct |
| BsonDocumentSerializer.GetAfterSet | MongoDB.Bson/Serialization/Serializers/BsonDocumentSerializer.cs:98-100 | after the id is set, GetDocumentId reports the id that was set |
| BsonDocumentSerializer.SetIdIdempotent | MongoDB.Bson/Serialization/Serializers/BsonDocumentSerializer.cs:189-197 | setting the same id twice is the same as setting it once |
| BsonRegularExpressionSerializer.ParseRegularExpression | MongoDB.Bson/Serialization/Serializers/BsonRegularExpressionSerializer.cs:57-65 | succeeds exactly when the current kind is RegularExpression, and then consumes that one token; any other kind is a format error naming it |
| BsonRegularExpressionSerializer.Deserialize | MongoDB.Bson/Serialization/Serializers/BsonRegularExpressionSerializer.cs:53-67 | returns the regular expression read, or the error, with nothing consumed |
| BsonRegularExpressionSerializer.Serialize | MongoDB.Bson/Serialization/Serializers/BsonRegularExpressionSerializer.cs:74-84 | null is an argument error and nothing is written; otherwise exactly one regular-expression token is appended |
| BsonRegularExpressionSerializer.RegularExpressionRoundTrip | MongoDB.Bson/Serialization/Serializers/BsonRegularExpressionSerializer.cs:61-83 | deserializing a serialized regular expression gives it back and consumes only its token |
| BsonRegularExpressionSerializer.RegularExpressionIsElementSerializer | MongoDB.Bson/Serialization/Serializers/BsonRegularExpressionSerializer.cs:53-84 | the leaf serializer consumes, round-trips, and writes a value, so composites can be built on it |
| GeoJsonArrays.ParseArrayElements | MongoDB.Driver/GeoJsonObjectModel/Serializers/GeoJsonMultiPointCoordinatesSerializer.cs:53-57 | the element loop stops at an end marker without consuming it and only appends to what was read before |
| GeoJsonArrays.ParseNullableArray | MongoDB.Driver/GeoJsonObjectModel/Serializers/GeoJsonMultiPointCoordinatesSerializer.cs:43-61 | a null token reads as null and consumes exactly that token; a non-null value is read only from an array start; every success consumes tokens |
| GeoJsonArrays.EncodeNullableArray | MongoDB.Driver/GeoJsonObjectModel/Serializers/GeoJsonMultiPointCoordinatesSerializer.cs:73-85 | null is written as exactly one null token; otherwise an array start, then the elements, then an array end |
| GeoJsonArrays.EncodeArrayElementsSnoc | MongoDB.Driver/GeoJsonObjectModel/Serializers/GeoJsonMultiPointCoordinatesSerializer.cs:80-83 | writing one more element appends that element's tokens after those of the earlier ones |
| GeoJsonArrays.ArrayElementsRoundTrip | MongoDB.Driver/GeoJsonObjectModel/Serializers/GeoJsonMultiPointCoordinatesSerializer.cs:53-57 | reading back written elements gives them in order and in number, and stops at the sentinel that follows |
| GeoJsonArrays.NullableArrayRoundTrip | MongoDB.Driver/GeoJsonObjectModel/Serializers/GeoJsonMultiPointCoordinatesSerializer.cs:39-86 | when the element serializer round-trips, so does the nullable array, null included |
| GeoJsonArrays.NullableArrayIsElementSerializer | MongoDB.Driver/GeoJsonObjectModel/Serializers/GeoJsonMultiPolygonCoordinatesSerializer.cs:55 | the nullable array codec is itself an element serializer, so arrays of arrays nest |
| GeoJsonMultiPointCoordinatesSerializer.Deserialize | MongoDB.Driver/GeoJsonObjectModel/Serializers/GeoJsonMultiPointCoordinatesSerializer.cs:39-62 | a current null token is consumed and gives null; otherwise StartArray, then positions up to the sentinel in stream order, then EndArray |
| GeoJsonMultiPointCoordinatesSerializer.Serialize | MongoDB.Driver/GeoJsonObjectModel/Serializers/GeoJsonMultiPointCoordinatesSerializer.cs:69-86 | null is written as exactly one null token; otherwise StartArray, each position in order, then EndArray |
| GeoJsonMultiPointCoordinatesSerializer.MultiPointRoundTrip | MongoDB.Driver/GeoJsonObjectModel/Serializers/GeoJsonMultiPointCoordinatesSerializer.cs:39-86 | when the position serializer round-trips, deserializing a serialized multi-point gives it back, null included |
| GeoJsonMultiPolygonCoordinatesSerializer.Deserialize | MongoDB.Driver/GeoJsonObjectModel/Serializers/GeoJsonMultiPolygonCoordinatesSerializer.cs:39-62 | a current null token is consumed and gives null; otherwise StartArray, then polygons up to the sentinel in stream order, then EndArray |
| GeoJsonMultiPolygonCoordinatesSerializer.Serialize | MongoDB.Driver/GeoJsonObjectModel/Serializers/GeoJsonMultiPolygonCoordinatesSerializer.cs:69-88 | null is written as exactly one null token; otherwise StartArray, each polygon in order, then EndArray |
| GeoJsonMultiPolygonCoordinatesSerializer.MultiPolygonRoundTrip | MongoDB.Driver/GeoJsonObjectModel/Serializers/GeoJsonMultiPolygonCoordinatesSerializer.cs:39-88 | when the polygon coordinates serializer round-trips, deserializing a serialized multi-polygon gives it back, null included |
| GeoJsonMultiPolygonCoordinatesSerializer.NestedMultiPolygonRoundTrip | MongoDB.Driver/GeoJsonObjectModel/Serializers/GeoJsonMultiPolygonCoordinatesSerializer.cs:50-60 | with polygons written as arrays of rings of positions, round-tripping positions are enough for the whole multi-polygon to round-trip |
| GeoJsonPolygonSerializer.ReadField | MongoDB.Driver/GeoJsonObjectModel/Serializers/GeoJsonPolygonSerializer.cs:85-89 | "coordinates" is read by the coordinates serializer and leaves the arguments alone; any other name goes to the base reader and leaves the coordinates alone |
| GeoJsonPolygonSerializer.Helper.constructor | MongoDB.Driver/GeoJsonObjectModel/Serializers/GeoJsonPolygonSerializer.cs:60-63 | the helper carries the type discriminator "Polygon", fresh arguments, and no coordinates yet |
| GeoJsonPolygonSerializer.Helper.CreateObject | MongoDB.Driver/GeoJsonObjectModel/Serializers/GeoJsonPolygonSerializer.cs:73-76 | the polygon built has the collected arguments and the latest coordinates read, which are null if none were read |
| GeoJsonPolygonSerializer.Helper.DeserializeField | MongoDB.Driver/GeoJsonObjectModel/Serializers/GeoJsonPolygonSerializer.cs:83-90 | "coordinates" sets the coordinates slot and leaves the arguments unchanged; any other name updates the arguments through the base and leaves the coordinates unchanged; on failure the state is unchanged |
| GeoJsonPolygonSerializer.Helper.DeserializeCoordinates | MongoDB.Driver/GeoJsonObjectModel/Serializers/GeoJsonPolygonSerializer.cs:105-108 | the coordinates are what the coordinates serializer reads, and the cursor ends up just past them |
| GeoJsonPolygonSerializer.Helper.SerializeFields | MongoDB.Driver/GeoJsonObjectModel/Serializers/GeoJsonPolygonSerializer.cs:97-102 | the base fields first, then the name "coordinates", then the coordinates through their serializer |
| GeoJsonPolygonSerializer.Helper.SerializeCoordinates | MongoDB.Driver/GeoJsonObjectModel/Serializers/GeoJsonPolygonSerializer.cs:110-114 | the name "coordinates" followed by the coordinates through their serializer |
| GeoJsonPolygonSerializer.CoordinatesFieldRoundTrip | MongoDB.Driver/GeoJsonObjectModel/Serializers/GeoJsonPolygonSerializer.cs:85-114 | the coordinates field as written is read back by the dispatch: the name matches, the coordinates come back, and the arguments are untouched |
| MongoQueryMessage.Lift | MongoDBClient/Internal/MongoQueryMessage.cs:63 | a BSON writer over the binary stream emits one body part per token |
| MongoQueryMessage.BinaryWriter.WriteBson | MongoDBClient/Internal/MongoQueryMessage.cs:63-72 | BSON output is appended to the same stream after what is already there |
| MongoQueryMessage.MongoQueryMessage.constructor | MongoDBClient/Internal/MongoQueryMessage.cs:36-51 | all six arguments are stored unchanged |
| MongoQueryMessage.MongoQueryMessage.WriteBodyTo | MongoDBClient/Internal/MongoQueryMessage.cs:55-73 | appends flags, collection name, skip and limit, then the query document (an empty one when the query is null), then the projection only when it is not null |
| MongoQueryMessage.QueryDocumentsRoundTrip | MongoDBClient/Internal/MongoQueryMessage.cs:64-72 | the documents after the header read back as the query, then the projection exactly when one was written |
| MongoQueryMessage.QueryBodyRoundTrip | MongoDBClient/Internal/MongoQueryMessage.cs:55-73 | a receiver reads the four header fields in order, then the query (empty when none was given), then the projection exactly when one was given |

## Left out

- Byte-level encoding: lengths, length prefixes, type bytes, and the binary reader and writer. The stream is a token sequence. A reader call on the wrong token fails with `StreamError` in place of the reader's exception.
- Floating-point positions: every BSON scalar kind other than null, regular expression and binary data is one abstract `Scalar(className, int)`, its runtime class name standing for the element type byte, and GeoJSON positions are an abstract type parameter.
- The value-kind dispatcher (BsonValueSerializer) is replaced by the stand-in codec in `bson_value_codec.dfy`. Nested documents are values, so there is no aliasing between documents.
- The serializer and id-generator registries, with their thread safety and caching. They are parameters: `lookup` for id generators, the element serializer functions for the GeoJSON serializers, and `redirect`, an opaque function of the context, the document's class and its elements, for the serializer of a derived document class.
- The internals of the ObjectId and GUID id generators: they are tags.
- BsonValue.Create is an abstract total function `create`, because its conversion rules are not part of this model.
- BsonDocument's own methods are not part of this model. Add, InsertAt and TryGetElement are modelled from how the serializer uses them. InsertAt's duplicate-name check is not modelled because SetDocumentId only inserts `_id` when no `_id` is present. TryGetElement finds the first element with the name.
- Child serialization contexts: the model writes nested values as the dispatcher does and does not model whether a child context asks for id-first.
- The base GeoJsonGeometrySerializer.Helper field loop and the outer GeoJsonPolygonSerializer.Deserialize/Serialize, which only drive the helper. The base per-field reader and base field writer are parameters, and the GeoJSON object arguments are an abstract type.
- MongoQueryMessage: the request header, the opcode, and WriteCStringTo belong to the request-message base class, which is not part of this model. The collection name is one C-string body part. The query flags are their 32-bit numeric value.
- BsonDocumentSerializer.Serialize: when the redirect target fails, the model writes nothing; the source's target may throw after writing part of its output.
- BsonDocumentSerializer.Serialize and BsonDocumentSerializer.SetDocumentId: element identity is a slot index. One BsonElement object held in two slots of a document, or in two documents, is not modelled. The source skips every slot holding the `_id` element object by reference, and `idElement.Value = ...` changes the shared object wherever it is held; the model skips, and SetValueAt changes, only the one slot TryGetElement finds.
- BsonDocumentSerializer.GetDocumentId and BsonDocumentSerializer.SetDocumentId: both take the document as a `seq<BsonElement>` or a `BsonDocument?`, so the cast `(BsonDocument)document` has nothing to reject. The source's NullReferenceException in GetDocumentId for a null argument, and the InvalidCastException in either for an object that is not a BsonDocument, are not modelled; GetDocumentId's "always true" holds for BsonDocument arguments.
- BsonDocumentSerializer.Deserialize, GeoJson*.Deserialize, and DeserializeField: when an error occurs partway through, the contract names the error but not how far the cursor advanced. The source throws there, and its callers do not use the cursor afterwards.
