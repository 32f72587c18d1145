/** The BSON value model and its token stream.

    A byte-level BSON stream is modelled as a sequence of tokens: one token per
    document or array boundary, per element name and per scalar value.  A
    document is `StartDoc`, then for each element its `Name` token followed by
    the value's tokens, then `EndOfDoc`.  An array is `StartArray`, the items'
    tokens (BSON's index names carry no information and are not modelled), then
    `EndArray`.  Either end marker is what the reader reports as the
    end-of-document sentinel.
 */
module Bson {

  datatype Option<+T> = None | Some(value: T)

  /** The error conditions of the codec. */
  datatype Error =
    | FormatError(target: string, found: BsonType)  // a FileFormatException naming the found kind
    | ArgumentNull(parameter: string)               // an ArgumentNullException naming the parameter
    | DuplicateName(name: string)                   // a document that refuses duplicates already has this name
    | StreamError                                   // the cursor is exhausted or the token is not what the cursor call expects

  datatype Result<+T> = Ok(value: T) | Err(error: Error)

  datatype Outcome = Pass | Fail(error: Error)

  /** The kinds a reader reports; `Scalar` stands for every other BSON scalar kind. */
  datatype BsonType = Document | Array | Null | RegularExpression | Binary | Scalar | EndOfDocument

  datatype BinarySubType = BinaryGeneric | Function | OldBinary | UuidLegacy | UuidStandard | MD5 | UserDefined

  datatype GuidRepresentation = Unspecified | CSharpLegacy | JavaLegacy | PythonLegacy | Standard

  datatype BsonRegularExpression = BsonRegularExpression(pattern: string, options: string)

  datatype Token =
    | StartDoc
    | EndOfDoc
    | StartArray
    | EndArray
    | Name(name: string)
    | Null
    | Regex(pattern: string, options: string)
    | Binary(subType: BinarySubType, guidRepresentation: GuidRepresentation, bytes: seq<bv8>)
    | Scalar(className: string, v: int)  // the element type byte decides the class the value is read back as

  /** The in-memory generic value (BsonValue and its subclasses). */
  datatype BsonValue =
    | BsonNull
    | BsonScalar(className: string, v: int)  // className: the runtime class, e.g. BsonObjectId or BsonInt32
    | BsonRegex(re: BsonRegularExpression)
    | BsonBinaryData(subType: BinarySubType, guidRepresentation: GuidRepresentation, bytes: seq<bv8>)
    | BsonDocumentValue(elements: seq<BsonElement>)
    | BsonArray(items: seq<BsonValue>)

  datatype BsonElement = BsonElement(name: string, value: BsonValue)

  /** The runtime class of a value (what GetType returns), as used to look up
      id generators.  A scalar carries its own class. */
  datatype ValueClass =
    | BsonNullClass
    | ScalarClass(name: string)
    | BsonRegularExpressionClass
    | BsonBinaryDataClass
    | BsonDocumentClass
    | BsonArrayClass

  function ClassOfValue(v: BsonValue): (r: ValueClass)
    ensures r.ScalarClass? <==> v.BsonScalar?
    ensures v.BsonScalar? ==> r.name == v.className
  {
    match v
    case BsonNull => BsonNullClass
    case BsonScalar(c, _) => ScalarClass(c)
    case BsonRegex(_) => BsonRegularExpressionClass
    case BsonBinaryData(_, _, _) => BsonBinaryDataClass
    case BsonDocumentValue(_) => BsonDocumentClass
    case BsonArray(_) => BsonArrayClass
  }

  /** The BSON kind of a value: the kind a reader reports for its first token. */
  function TypeOfValue(v: BsonValue): BsonType
  {
    match v
    case BsonNull => BsonType.Null
    case BsonScalar(_, _) => BsonType.Scalar
    case BsonRegex(_) => BsonType.RegularExpression
    case BsonBinaryData(_, _, _) => BsonType.Binary
    case BsonDocumentValue(_) => BsonType.Document
    case BsonArray(_) => BsonType.Array
  }

  /** The kind a token announces; a name token announces no value. */
  function TypeOf(t: Token): Option<BsonType>
  {
    match t
    case StartDoc => Some(BsonType.Document)
    case EndOfDoc => Some(BsonType.EndOfDocument)
    case StartArray => Some(BsonType.Array)
    case EndArray => Some(BsonType.EndOfDocument)
    case Name(_) => None
    case Null => Some(BsonType.Null)
    case Regex(_, _) => Some(BsonType.RegularExpression)
    case Binary(_, _, _) => Some(BsonType.Binary)
    case Scalar(_, _) => Some(BsonType.Scalar)
  }

  predicate IsEndMarker(t: Token)
  {
    t == EndOfDoc || t == EndArray
  }

  /** GetCurrentBsonType: the kind of the value at the front of the stream, without consuming it. */
  function CurrentBsonType(s: seq<Token>): (r: Result<BsonType>)
    ensures r.Ok? ==> |s| > 0 && TypeOf(s[0]) == Some(r.value)
  {
    if |s| == 0 then Err(StreamError)
    else match TypeOf(s[0])
      case Some(t) => Ok(t)
      case None => Err(StreamError)
  }

  /** ReadBsonType: the kind of the next element of a document or array, or the
      end-of-document sentinel at either end marker.  Inside a document the
      element's name token comes first and the kind is that of the value after it. */
  function NextBsonType(s: seq<Token>): (r: Result<BsonType>)
    ensures r.Ok? ==> |s| > 0
    ensures r == Ok(BsonType.EndOfDocument) <==> |s| > 0 && IsEndMarker(s[0])
  {
    if |s| == 0 then Err(StreamError)
    else if IsEndMarker(s[0]) then Ok(BsonType.EndOfDocument)
    else if s[0].Name? then
      if |s| > 1 && TypeOf(s[1]).Some? && TypeOf(s[1]) != Some(BsonType.EndOfDocument)
      then Ok(TypeOf(s[1]).value) else Err(StreamError)
    else Ok(TypeOf(s[0]).value)
  }

  /** `rest` is a proper suffix of `s`: reading consumed at least one token. */
  predicate ProperSuffix(rest: seq<Token>, s: seq<Token>)
  {
    |rest| < |s| && rest == s[|s| - |rest|..]
  }

  predicate Suffix(rest: seq<Token>, s: seq<Token>)
  {
    |rest| <= |s| && rest == s[|s| - |rest|..]
  }

  function Names(es: seq<BsonElement>): (r: set<string>)
    ensures forall i :: 0 <= i < |es| ==> es[i].name in r
    ensures forall n :: n in r ==> exists i :: 0 <= i < |es| && es[i].name == n
  {
    set i | 0 <= i < |es| :: es[i].name
  }

  /** No two elements share a name: what a document that refuses duplicates keeps. */
  predicate UniqueNames(es: seq<BsonElement>)
  {
    forall i, j :: 0 <= i < j < |es| ==> es[i].name != es[j].name
  }

  /** Every nested document respects the duplicate-name policy `allowDup`. */
  predicate WellFormed(v: BsonValue, allowDup: bool)
  {
    match v
    case BsonDocumentValue(es) =>
      (forall i :: 0 <= i < |es| ==> WellFormed(es[i].value, allowDup)) && (allowDup || UniqueNames(es))
    case BsonArray(vs) => forall i :: 0 <= i < |vs| ==> WellFormed(vs[i], allowDup)
    case _ => true
  }

  predicate ElementsWellFormed(es: seq<BsonElement>, allowDup: bool)
  {
    forall i :: 0 <= i < |es| ==> WellFormed(es[i].value, allowDup)
  }

  /** When duplicates are allowed, every value respects the policy. */
  lemma {:induction false} AllowDupWellFormed(v: BsonValue)
    ensures WellFormed(v, true)
    decreases v
  {
    match v
    case BsonDocumentValue(es) =>
      forall i | 0 <= i < |es| ensures WellFormed(es[i].value, true) {
        AllowDupWellFormed(es[i].value);
      }
    case BsonArray(vs) =>
      forall i | 0 <= i < |vs| ensures WellFormed(vs[i], true) {
        AllowDupWellFormed(vs[i]);
      }
    case _ =>
  }

  lemma AllowDupElementsWellFormed(es: seq<BsonElement>)
    ensures ElementsWellFormed(es, true)
  {
    forall i | 0 <= i < |es| ensures WellFormed(es[i].value, true) {
      AllowDupWellFormed(es[i].value);
    }
  }

  /** Moving the head of `b` onto the end of `a` keeps the concatenation. */
  lemma ShiftHead<T>(a: seq<T>, b: seq<T>)
    requires |b| > 0
    ensures (a + [b[0]]) + b[1..] == a + b
  {
    assert b == [b[0]] + b[1..];
  }

  lemma AppendAssoc<T>(a: seq<T>, b: seq<T>, c: seq<T>)
    ensures a + (b + c) == (a + b) + c
  {
  }
}
