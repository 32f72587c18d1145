/** BsonDocumentSerializer: reads and writes a generic document through the
    value-kind dispatcher and implements the identity (`_id`) contract. */
module BsonDocumentSerializer {
  import opened Bson
  import opened BsonValueCodec
  import opened BsonIO

  /** The runtime class of a document: BsonDocument itself or a subclass of it. */
  datatype DocumentKind = PlainDocument | DerivedDocument(typeName: string)

  /** A document: its ordered elements and its duplicate-name policy, fixed at construction. */
  class BsonDocument {
    var elements: seq<BsonElement>
    const allowDuplicateNames: bool
    const kind: DocumentKind

    /** A document that refuses duplicates holds no two elements of one name. */
    ghost predicate Valid()
      reads this
    {
      allowDuplicateNames || UniqueNames(elements)
    }

    constructor (allowDuplicateNames: bool, kind: DocumentKind)
      ensures Valid() && elements == []
      ensures this.allowDuplicateNames == allowDuplicateNames && this.kind == kind
    {
      elements := [];
      this.allowDuplicateNames := allowDuplicateNames;
      this.kind := kind;
    }

    /** Appends an element, refusing a name already present unless duplicates are allowed. */
    method Add(name: string, value: BsonValue) returns (r: Outcome)
      requires Valid()
      modifies this
      ensures Valid()
      ensures r == if !allowDuplicateNames && name in Names(old(elements)) then Fail(DuplicateName(name)) else Pass
      ensures elements == if r.Pass? then old(elements) + [BsonElement(name, value)] else old(elements)
    {
      if !allowDuplicateNames && name in Names(elements) {
        r := Fail(DuplicateName(name));
      } else {
        elements := elements + [BsonElement(name, value)];
        r := Pass;
      }
    }

    /** Assigns the value of the element in slot `i`; its name and slot stay. */
    method SetValueAt(i: nat, value: BsonValue)
      requires i < |elements|
      modifies this
      ensures elements == old(elements)[i := BsonElement(old(elements)[i].name, value)]
    {
      elements := elements[i := BsonElement(elements[i].name, value)];
    }

    /** Inserts an element so that it occupies slot `i`. */
    method InsertAt(i: nat, e: BsonElement)
      requires i <= |elements|
      modifies this
      ensures elements == old(elements)[..i] + [e] + old(elements)[i..]
    {
      elements := elements[..i] + [e] + elements[i..];
    }
  }

  /** TryGetElement: the slot of the first element called `name`, if any. */
  function IndexOfName(es: seq<BsonElement>, name: string): (r: Option<nat>)
    ensures r.Some? ==> r.value < |es| && es[r.value].name == name
    ensures r.Some? ==> forall j :: 0 <= j < r.value ==> es[j].name != name
    ensures r.None? <==> name !in Names(es)
  {
    if es == [] then None
    else if es[0].name == name then Some(0)
    else match IndexOfName(es[1..], name)
      case None => None
      case Some(k) => Some(k + 1)
  }

  function IdIndex(es: seq<BsonElement>): Option<nat>
  {
    IndexOfName(es, "_id")
  }

  // ---------------------------------------------------------------------------
  // Deserialize

  /** Reads a document.  Its result is exactly what `ParseDocument` describes:
      a format error naming the found kind, with nothing consumed, unless the
      current kind is Document; otherwise one element per name/value pair
      before the sentinel, in stream order, under the context's policy. */
  method Deserialize(ctx: DeserializationContext) returns (r: Result<BsonDocument>)
    requires ctx.reader.Valid()
    modifies ctx.reader
    ensures ctx.reader.Valid()
    ensures match ParseDocument(old(ctx.reader.Remaining()), ctx.allowDuplicateElementNames)
            case Ok((es, rest)) =>
              && r.Ok? && fresh(r.value) && r.value.Valid()
              && r.value.elements == es && r.value.kind == PlainDocument
              && r.value.allowDuplicateNames == ctx.allowDuplicateElementNames
              && ctx.reader.Remaining() == rest
            case Err(e) => r == Err(e)
    ensures var t := CurrentBsonType(old(ctx.reader.Remaining()));
            t.Ok? && t.value != BsonType.Document ==>
              r == Err(FormatError("BsonDocument", t.value)) && ctx.reader.Remaining() == old(ctx.reader.Remaining())
  {
    var reader := ctx.reader;
    var allowDup := ctx.allowDuplicateElementNames;
    var bsonType := CurrentBsonType(reader.Remaining());
    if bsonType.Err? {
      return Err(bsonType.error);
    }
    if bsonType.value != BsonType.Document {
      return Err(FormatError("BsonDocument", bsonType.value));
    }
    var _ := reader.Expect(StartDoc);
    var document := new BsonDocument(allowDup, PlainDocument);
    ghost var body := reader.Remaining();
    assert ParseDocument(old(reader.Remaining()), allowDup) ==
      match ParseElements(body, allowDup, [])
      case Ok((es, rest)) => if rest[0] == EndOfDoc then Ok((es, rest[1..])) else Err(StreamError)
      case Err(e) => Err(e);
    var read := ReadElements(reader, document);
    if read.Fail? {
      return Err(read.error);
    }
    var ended := reader.Expect(EndOfDoc);
    if !ended {
      return Err(StreamError);
    }
    return Ok(document);
  }

  /** The element loop of Deserialize: name/value pairs are added to
      `document` until the sentinel, which is left unconsumed. */
  method ReadElements(reader: BsonReader, document: BsonDocument) returns (r: Outcome)
    requires reader.Valid() && document.Valid()
    modifies reader, document
    ensures reader.Valid() && document.Valid()
    ensures match ParseElements(old(reader.Remaining()), document.allowDuplicateNames, old(document.elements))
            case Ok((es, rest)) => r == Pass && document.elements == es && reader.Remaining() == rest
            case Err(e) => r == Fail(e)
  {
    var allowDup := document.allowDuplicateNames;
    ghost var spec := ParseElements(reader.Remaining(), allowDup, document.elements);
    while true
      invariant reader.Valid() && document.Valid()
      invariant ParseElements(reader.Remaining(), allowDup, document.elements) == spec
      decreases |reader.Remaining()|
    {
      var elementType := NextBsonType(reader.Remaining());
      if elementType.Err? {
        return Fail(elementType.error);
      }
      if elementType.value == BsonType.EndOfDocument {
        return Pass;
      }
      ElementStep(reader.Remaining(), allowDup, document.elements);
      var name := reader.ReadName();
      if name.Err? {
        return Fail(name.error);
      }
      var value := reader.ReadValue(allowDup);
      if value.Err? {
        return Fail(value.error);
      }
      var added := document.Add(name.value, value.value);
      if added.Fail? {
        return added;
      }
    }
  }

  /** One turn of the element loop, unfolded: a name token, a value, and the
      duplicate check, in that order. */
  lemma ElementStep(s: seq<Token>, allowDup: bool, acc: seq<BsonElement>)
    requires NextBsonType(s).Ok? && NextBsonType(s) != Ok(BsonType.EndOfDocument)
    ensures ParseElements(s, allowDup, acc) ==
            if !s[0].Name? then Err(StreamError)
            else
              var value := ParseValue(s[1..], allowDup);
              if value.Err? then Err(value.error)
              else if !allowDup && s[0].name in Names(acc) then Err(DuplicateName(s[0].name))
              else ParseElements(value.value.1, allowDup, acc + [BsonElement(s[0].name, value.value.0)])
  {
  }

  // ---------------------------------------------------------------------------
  // GetDocumentId

  /** The generators the registry can hand out; their internals are not modelled. */
  datatype IdGenerator =
    | ObjectIdGenerator
    | BinaryDataGuidGenerator(representation: GuidRepresentation)
    | RegisteredGenerator(tag: nat)

  /** The nominal type reported for an id. */
  datatype IdNominalType = BsonValueType | OtherType(name: string)

  datatype DocumentIdInfo = DocumentIdInfo(
    hasId: bool, id: Option<BsonValue>, idNominalType: IdNominalType, idGenerator: Option<IdGenerator>)

  /** Binary data whose subtype marks it as a UUID. */
  predicate IsUuidBinary(v: BsonValue)
  {
    v.BsonBinaryData? && (v.subType == UuidLegacy || v.subType == UuidStandard)
  }

  /** The id of a document and the generator for it; `lookup` is the id
      generator registry, keyed by the runtime class of the id. */
  function GetDocumentId(es: seq<BsonElement>, lookup: ValueClass -> Option<IdGenerator>): (r: DocumentIdInfo)
    ensures r.hasId && r.idNominalType == BsonValueType
    ensures r.id.None? <==> "_id" !in Names(es)
    ensures r.id.Some? ==> exists i :: 0 <= i < |es| && es[i] == BsonElement("_id", r.id.value)
    ensures r.id.Some? ==> IdIndex(es).Some? && r.id.value == es[IdIndex(es).value].value
    ensures r.id.None? ==> r.idGenerator == Some(ObjectIdGenerator)
    ensures r.id.Some? && lookup(ClassOfValue(r.id.value)).Some? ==> r.idGenerator == lookup(ClassOfValue(r.id.value))
    ensures r.id.Some? && lookup(ClassOfValue(r.id.value)).None? && IsUuidBinary(r.id.value) ==>
              r.idGenerator == Some(BinaryDataGuidGenerator(r.id.value.guidRepresentation))
    ensures r.idGenerator.None? <==>
              r.id.Some? && lookup(ClassOfValue(r.id.value)).None? && !IsUuidBinary(r.id.value)
  {
    match IdIndex(es)
    case Some(k) =>
      var id := es[k].value;
      var registered := lookup(ClassOfValue(id));
      var generator :=
        if registered.None? && IsUuidBinary(id) then Some(BinaryDataGuidGenerator(id.guidRepresentation))
        else registered;
      DocumentIdInfo(true, Some(id), BsonValueType, generator)
    case None =>
      DocumentIdInfo(true, None, BsonValueType, Some(ObjectIdGenerator))
  }

  /** Scalar ids of different classes are looked up separately: with the usual
      registry, an ObjectId id gets the ObjectId generator and an int id none. */
  lemma GeneratorByIdClass(a: int, b: int, lookup: ValueClass -> Option<IdGenerator>)
    requires lookup(ScalarClass("BsonObjectId")) == Some(ObjectIdGenerator)
    requires lookup(ScalarClass("BsonInt32")) == None
    ensures GetDocumentId([BsonElement("_id", BsonScalar("BsonObjectId", a))], lookup).idGenerator == Some(ObjectIdGenerator)
    ensures GetDocumentId([BsonElement("_id", BsonScalar("BsonInt32", b))], lookup).idGenerator == None
  {
  }

  // ---------------------------------------------------------------------------
  // Serialize

  function EncodeElement(e: BsonElement): seq<Token>
  {
    [Name(e.name)] + EncodeValue(e.value)
  }

  /** What the element loop writes for `es` when it skips slot `skip`
      (identity, not value, decides what is skipped). */
  function ElementsSkipping(es: seq<BsonElement>, skip: Option<nat>): seq<Token>
  {
    if es == [] then []
    else ElementsSkipping(es[..|es| - 1], skip)
         + (if skip == Some(|es| - 1) then [] else EncodeElement(es[|es| - 1]))
  }

  /** The elements in slots other than `skip`, in their original order. */
  function Without(es: seq<BsonElement>, skip: Option<nat>): seq<BsonElement>
  {
    match skip
    case Some(k) => if k < |es| then es[..k] + es[k + 1..] else es
    case None => es
  }

  /** The order id-first serialization writes: `_id` first, then the others as they were. */
  function IdFirstOrder(es: seq<BsonElement>, k: nat): seq<BsonElement>
    requires k < |es|
  {
    [es[k]] + Without(es, Some(k))
  }

  /** The serializer the registry holds for a derived document class: it is
      handed the whole context, flags included, and either yields the tokens
      it writes or fails. */
  type Redirect = (SerializationContext, DocumentKind, seq<BsonElement>) -> Result<seq<Token>>

  /** What Serialize does with a non-null document: whatever the redirect
      target does when the document is of a derived class and the context does
      not pin the nominal type; otherwise it writes start, the `_id` element
      when id-first is asked for and present, every other element in order,
      end. */
  function SerializedDocument(kind: DocumentKind, es: seq<BsonElement>, ctx: SerializationContext,
                              redirect: Redirect): Result<seq<Token>>
  {
    if kind != PlainDocument && !ctx.serializeAsNominalType then redirect(ctx, kind, es)
    else Ok(DocumentTokens(es, if ctx.serializeIdFirst then IdIndex(es) else None))
  }

  /** Start, the element in slot `idElement` if any, the others in order, end. */
  function DocumentTokens(es: seq<BsonElement>, idElement: Option<nat>): seq<Token>
    requires idElement.Some? ==> idElement.value < |es|
  {
    [StartDoc]
    + (if idElement.Some? then EncodeElement(es[idElement.value]) else [])
    + ElementsSkipping(es, idElement)
    + [EndOfDoc]
  }

  lemma ElementsSkippingSnoc(es: seq<BsonElement>, i: nat, skip: Option<nat>)
    requires i < |es|
    ensures ElementsSkipping(es[..i + 1], skip)
            == ElementsSkipping(es[..i], skip) + (if skip == Some(i) then [] else EncodeElement(es[i]))
  {
    assert es[..i + 1][..i] == es[..i];
  }

  /** The element loop of Serialize: every element in order except the one in slot `skip`. */
  method WriteElements(writer: BsonWriter, es: seq<BsonElement>, skip: Option<nat>)
    modifies writer
    ensures writer.tokens == old(writer.tokens) + ElementsSkipping(es, skip)
  {
    ghost var head := writer.tokens;
    for i := 0 to |es|
      invariant writer.tokens == head + ElementsSkipping(es[..i], skip)
    {
      ghost var done := ElementsSkipping(es[..i], skip);
      ghost var piece := if skip == Some(i) then [] else EncodeElement(es[i]);
      ElementsSkippingSnoc(es, i, skip);
      AppendAssoc(head, done, piece);
      if skip != Some(i) {
        writer.Write(EncodeElement(es[i]));
      } else {
        assert done + piece == done;
      }
    }
    assert es[..|es|] == es;
  }

  /** Writes a document.  `redirect` stands for the serializer the registry
      holds for a derived document class. */
  method Serialize(ctx: SerializationContext, value: BsonDocument?,
                   redirect: Redirect) returns (r: Outcome)
    modifies ctx.writer
    ensures value == null ==> r == Fail(ArgumentNull("value")) && ctx.writer.tokens == old(ctx.writer.tokens)
    ensures value != null ==>
              match SerializedDocument(value.kind, value.elements, ctx, redirect)
              case Ok(ts) => r == Pass && ctx.writer.tokens == old(ctx.writer.tokens) + ts
              case Err(e) => r == Fail(e) && ctx.writer.tokens == old(ctx.writer.tokens)
  {
    var writer := ctx.writer;
    if value == null {
      return Fail(ArgumentNull("value"));
    }
    if value.kind != PlainDocument && !ctx.serializeAsNominalType {
      var written := redirect(ctx, value.kind, value.elements);
      if written.Err? {
        return Fail(written.error);
      }
      writer.Write(written.value);
      return Pass;
    }
    ghost var before := writer.tokens;
    var es := value.elements;
    var idElement: Option<nat> := if ctx.serializeIdFirst then IdIndex(es) else None;
    ghost var idPart := if idElement.Some? then EncodeElement(es[idElement.value]) else [];
    writer.Write([StartDoc]);
    if idElement.Some? {
      writer.Write(EncodeElement(es[idElement.value]));
    }
    AppendAssoc(before, [StartDoc], idPart);
    assert writer.tokens == before + ([StartDoc] + idPart);
    WriteElements(writer, es, idElement);
    writer.Write([EndOfDoc]);
    ghost var body := ElementsSkipping(es, idElement);
    AppendAssoc(before, [StartDoc] + idPart, body);
    AppendAssoc(before, [StartDoc] + idPart + body, [EndOfDoc]);
    assert writer.tokens == before + DocumentTokens(es, idElement);
    return Pass;
  }

  lemma {:induction false} EncodeElementsAppend(a: seq<BsonElement>, b: seq<BsonElement>)
    ensures EncodeElements(a + b) == EncodeElements(a) + EncodeElements(b)
  {
    if a == [] {
      assert a + b == b;
    } else {
      assert (a + b)[1..] == a[1..] + b;
      EncodeElementsAppend(a[1..], b);
    }
  }

  /** Dropping slot `skip` from `es` in terms of dropping it from all but the last element. */
  lemma WithoutSnoc(es: seq<BsonElement>, skip: Option<nat>)
    requires |es| > 0
    ensures var n := |es| - 1;
            Without(es, skip) == if skip == Some(n) then es[..n] else Without(es[..n], skip) + [es[n]]
  {
    var n := |es| - 1;
    var init := es[..n];
    match skip
    case None =>
      assert init + [es[n]] == es;
    case Some(k) =>
      if k < n {
        assert es[..k] == init[..k];
        assert es[k + 1..] == init[k + 1..] + [es[n]];
      } else if k > n {
        assert init + [es[n]] == es;
      }
  }

  /** The element loop writes exactly the encoding of the elements it does not skip. */
  lemma {:induction false} ElementsSkippingWithout(es: seq<BsonElement>, skip: Option<nat>)
    ensures ElementsSkipping(es, skip) == EncodeElements(Without(es, skip))
  {
    if es != [] {
      var n := |es| - 1;
      var init := es[..n];
      ElementsSkippingWithout(init, skip);
      WithoutSnoc(es, skip);
      if skip != Some(n) {
        EncodeElementsAppend(Without(init, skip), [es[n]]);
        assert [es[n]][1..] == [];
        assert EncodeElements([es[n]]) == EncodeElement(es[n]);
      }
    }
  }

  /** Without id-first, or with no `_id`, a plain document is written as its
      elements in their order. */
  lemma SerializedInOrder(es: seq<BsonElement>, ctx: SerializationContext,
                          redirect: Redirect)
    requires !ctx.serializeIdFirst || IdIndex(es).None?
    ensures SerializedDocument(PlainDocument, es, ctx, redirect) == Ok(EncodeDocument(es))
  {
    ElementsSkippingWithout(es, None);
    assert DocumentTokens(es, None) == EncodeDocument(es);
  }

  /** With id-first and an `_id` in slot k: start, that element, every other
      element in its original order, end. */
  lemma SerializedIdFirst(es: seq<BsonElement>, ctx: SerializationContext,
                          redirect: Redirect)
    requires ctx.serializeIdFirst && IdIndex(es).Some?
    ensures SerializedDocument(PlainDocument, es, ctx, redirect) == Ok(EncodeDocument(IdFirstOrder(es, IdIndex(es).value)))
  {
    var k := IdIndex(es).value;
    var rest := Without(es, Some(k));
    var order := IdFirstOrder(es, k);
    ElementsSkippingWithout(es, Some(k));
    assert order[0] == es[k] && order[1..] == rest;
    assert EncodeElements(order) == EncodeElement(es[k]) + EncodeElements(rest);
    AppendAssoc([StartDoc], EncodeElement(es[k]), EncodeElements(rest));
  }

  /** Id-first writes every element exactly once: the `_id` element once, and
      every other element -- one equal to it by value included -- too. */
  lemma IdFirstIsPermutation(es: seq<BsonElement>, k: nat)
    requires k < |es|
    ensures multiset(IdFirstOrder(es, k)) == multiset(es)
  {
    assert es == es[..k] + [es[k]] + es[k + 1..];
  }

  /** Slot `i` of the id-first order holds the element of this slot of `es`. */
  function IdFirstSlot(k: nat, i: nat): nat
  {
    if i == 0 then k else if i - 1 < k then i - 1 else i
  }

  lemma IdFirstAt(es: seq<BsonElement>, k: nat, i: nat)
    requires k < |es| && i < |es|
    ensures |IdFirstOrder(es, k)| == |es| && IdFirstSlot(k, i) < |es|
    ensures IdFirstOrder(es, k)[i] == es[IdFirstSlot(k, i)]
  {
  }

  /** Reordering by id-first keeps the names distinct. */
  lemma IdFirstKeepsUnique(es: seq<BsonElement>, k: nat)
    requires k < |es| && UniqueNames(es)
    ensures UniqueNames(IdFirstOrder(es, k))
  {
    var r := IdFirstOrder(es, k);
    forall i, j | 0 <= i < j < |r| ensures r[i].name != r[j].name {
      IdFirstAt(es, k, i);
      IdFirstAt(es, k, j);
      assert IdFirstSlot(k, i) != IdFirstSlot(k, j);
    }
  }

  /** Round trip: reading back a plain document written under any flags yields
      its elements, moved `_id` first when id-first applied, under a policy the
      document satisfies. */
  lemma SerializeDeserializeRoundTrip(es: seq<BsonElement>, ctx: SerializationContext,
                                      redirect: Redirect,
                                      rest: seq<Token>, allowDup: bool)
    requires ElementsWellFormed(es, allowDup) && (allowDup || UniqueNames(es))
    ensures var expected := if ctx.serializeIdFirst && IdIndex(es).Some? then IdFirstOrder(es, IdIndex(es).value) else es;
            SerializedDocument(PlainDocument, es, ctx, redirect).Ok? &&
            ParseDocument(SerializedDocument(PlainDocument, es, ctx, redirect).value + rest, allowDup) == Ok((expected, rest))
  {
    if ctx.serializeIdFirst && IdIndex(es).Some? {
      var k := IdIndex(es).value;
      SerializedIdFirst(es, ctx, redirect);
      IdFirstIsPermutation(es, k);
      var r := IdFirstOrder(es, k);
      forall i | 0 <= i < |r| ensures WellFormed(r[i].value, allowDup) {
        assert r[i] in multiset(es);
        var j :| 0 <= j < |es| && es[j] == r[i];
      }
      if !allowDup { IdFirstKeepsUnique(es, k); }
      DocumentRoundTrip(r, rest, allowDup);
    } else {
      SerializedInOrder(es, ctx, redirect);
      DocumentRoundTrip(es, rest, allowDup);
    }
  }

  // ---------------------------------------------------------------------------
  // SetDocumentId

  /** The id handed to SetDocumentId: a null reference, a BsonValue, or some
      other object that BsonValue.Create converts. */
  datatype IdArgument = NullId | BsonValueId(value: BsonValue) | OtherId(obj: int)

  function IdValue(id: IdArgument, create: int -> BsonValue): BsonValue
    requires !id.NullId?
  {
    if id.BsonValueId? then id.value else create(id.obj)
  }

  /** The elements after setting the id to `v`: an existing `_id` keeps its slot
      and takes the new value, otherwise `_id` becomes the first element; no
      other element changes. */
  function WithDocumentId(es: seq<BsonElement>, v: BsonValue): (r: seq<BsonElement>)
    ensures IdIndex(es).Some? ==>
              var k := IdIndex(es).value;
              && |r| == |es| && r[k] == BsonElement("_id", v)
              && forall j :: 0 <= j < |es| && j != k ==> r[j] == es[j]
    ensures IdIndex(es).None? ==> |r| == |es| + 1 && r[0] == BsonElement("_id", v) && r[1..] == es
    ensures IdIndex(r) == Some(if IdIndex(es).Some? then IdIndex(es).value else 0)
    ensures Names(r) == Names(es) + {"_id"}
  {
    match IdIndex(es)
    case Some(k) =>
      var r := es[k := BsonElement("_id", v)];
      assert IndexOfName(r, "_id") == Some(k) by { FirstIndexIs(r, "_id", k); }
      assert Names(r) == Names(es) by { NamesKeepName(es, k, BsonElement("_id", v)); }
      r
    case None =>
      var r := [BsonElement("_id", v)] + es;
      assert r[1..] == es;
      assert Names(r) == Names(es) + {"_id"} by { NamesCons(BsonElement("_id", v), es); }
      r
  }

  /** Replacing an element by one of the same name keeps the set of names. */
  lemma NamesKeepName(es: seq<BsonElement>, k: nat, e: BsonElement)
    requires k < |es| && es[k].name == e.name
    ensures Names(es[k := e]) == Names(es)
  {
    var r := es[k := e];
    forall n | n in Names(es) ensures n in Names(r) {
      var i :| 0 <= i < |es| && es[i].name == n;
      assert r[i].name == n;
    }
    forall n | n in Names(r) ensures n in Names(es) {
      var i :| 0 <= i < |r| && r[i].name == n;
      assert es[i].name == n;
    }
  }

  /** Putting an element in front adds its name. */
  lemma NamesCons(e: BsonElement, es: seq<BsonElement>)
    ensures Names([e] + es) == Names(es) + {e.name}
  {
    var r := [e] + es;
    assert r[0].name == e.name;
    forall n | n in Names(es) ensures n in Names(r) {
      var i :| 0 <= i < |es| && es[i].name == n;
      assert r[i + 1].name == n;
    }
    forall n | n in Names(r) ensures n in Names(es) + {e.name} {
      var i :| 0 <= i < |r| && r[i].name == n;
      if i > 0 {
        assert es[i - 1].name == n;
      }
    }
  }

  /** The first slot holding `name` is the one the caller points at. */
  lemma {:induction false} FirstIndexIs(es: seq<BsonElement>, name: string, k: nat)
    requires k < |es| && es[k].name == name
    requires forall j :: 0 <= j < k ==> es[j].name != name
    ensures IndexOfName(es, name) == Some(k)
  {
    if k > 0 {
      FirstIndexIs(es[1..], name, k - 1);
    }
  }

  /** Sets the id of a document. */
  method SetDocumentId(document: BsonDocument?, id: IdArgument, create: int -> BsonValue) returns (r: Outcome)
    requires document != null ==> document.Valid()
    modifies document
    ensures document == null ==> r == Fail(ArgumentNull("document"))
    ensures document != null && id.NullId? ==>
              r == Fail(ArgumentNull("id")) && document.elements == old(document.elements)
    ensures document != null && !id.NullId? ==>
              && r == Pass && document.Valid()
              && document.elements == WithDocumentId(old(document.elements), IdValue(id, create))
  {
    if document == null {
      return Fail(ArgumentNull("document"));
    }
    if id.NullId? {
      return Fail(ArgumentNull("id"));
    }
    var idBsonValue := if id.BsonValueId? then id.value else create(id.obj);
    ghost var es := document.elements;
    match IdIndex(document.elements) {
      case Some(k) =>
        document.SetValueAt(k, idBsonValue);
      case None =>
        document.InsertAt(0, BsonElement("_id", idBsonValue));
        assert document.elements == [BsonElement("_id", idBsonValue)] + es;
    }
    if !document.allowDuplicateNames {
      WithDocumentIdKeepsUnique(es, idBsonValue);
    }
    return Pass;
  }

  /** Setting the id keeps a document's names distinct. */
  lemma WithDocumentIdKeepsUnique(es: seq<BsonElement>, v: BsonValue)
    requires UniqueNames(es)
    ensures UniqueNames(WithDocumentId(es, v))
  {
    var r := WithDocumentId(es, v);
    if IdIndex(es).None? {
      forall i, j | 0 <= i < j < |r| ensures r[i].name != r[j].name {
        if i == 0 {
          assert r[j] == es[j - 1];
        } else {
          assert r[i] == es[i - 1] && r[j] == es[j - 1];
        }
      }
    }
  }

  /** After SetDocumentId, GetDocumentId reports the id that was set. */
  lemma GetAfterSet(es: seq<BsonElement>, v: BsonValue, lookup: ValueClass -> Option<IdGenerator>)
    ensures GetDocumentId(WithDocumentId(es, v), lookup).id == Some(v)
  {
  }

  /** Setting the same id twice is the same as setting it once. */
  lemma SetIdIdempotent(es: seq<BsonElement>, v: BsonValue)
    ensures WithDocumentId(WithDocumentId(es, v), v) == WithDocumentId(es, v)
  {
  }
}
