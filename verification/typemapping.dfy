/** TypeMapper: from a field's declared type to the XSD datatype its property shape names. */
module TypeMapping {
  import opened Options
  import opened Host

  datatype XsdType = XsdString | XsdInteger | XsdDecimal | XsdBoolean

  function XsdIri(x: XsdType): string
  {
    match x
    case XsdString => Rdf.XsdStringIri
    case XsdInteger => Rdf.XsdIntegerIri
    case XsdDecimal => Rdf.XsdDecimalIri
    case XsdBoolean => Rdf.XsdBooleanIri
  }

  /** Index of the first argument that is not `type(None)`, or `|args|` if there is none. */
  function FirstNotNone(args: seq<PyType>): (k: nat)
    ensures k <= |args|
    ensures forall j :: 0 <= j < k ==> args[j] == NoneType
    ensures k < |args| ==> args[k] != NoneType
  {
    if |args| == 0 then 0
    else if args[0] != NoneType then 0
    else 1 + FirstNotNone(args[1..])
  }

  /** `TypeMapper.map_type`: `None` stands for Python's `None`, "no datatype". */
  function MapType(t: PyType): Option<XsdType>
  {
    match t
    case StrType => Some(XsdString)
    case IntType => Some(XsdInteger)
    case FloatType => Some(XsdDecimal)
    case BoolType => Some(XsdBoolean)
    case UnionOf(args) =>
      // an Optional whose arguments are all None falls through every later test
      var k := FirstNotNone(args);
      if NoneType in args && k < |args| then MapType(args[k]) else Some(XsdString)
    case ListOf(args) =>
      if |args| == 1 then MapType(args[0]) else Some(XsdString)
    case ModelType(_) => None
    case NoneType => Some(XsdString)
    case OtherType(_) => Some(XsdString)
  }

  /**
   * The type the mapper finally classifies: `Optional[T]` and `List[T]` are peeled to `T`;
   * everything else stands for itself.
   */
  function Peel(t: PyType): PyType
  {
    match t
    case UnionOf(args) =>
      var k := FirstNotNone(args);
      if NoneType in args && k < |args| then Peel(args[k]) else t
    case ListOf(args) => if |args| == 1 then Peel(args[0]) else t
    case _ => t
  }

  /** The fixed table for a peeled type: four primitives, model classes, and the string default. */
  function Classify(t: PyType): Option<XsdType>
  {
    if t == StrType then Some(XsdString)
    else if t == IntType then Some(XsdInteger)
    else if t == FloatType then Some(XsdDecimal)
    else if t == BoolType then Some(XsdBoolean)
    else if t.ModelType? then None
    else Some(XsdString)
  }

  /** str, int, float and bool map to xsd:string, xsd:integer, xsd:decimal and xsd:boolean. */
  lemma PrimitivesMap()
    ensures MapType(StrType) == Some(XsdString)
    ensures MapType(IntType) == Some(XsdInteger)
    ensures MapType(FloatType) == Some(XsdDecimal)
    ensures MapType(BoolType) == Some(XsdBoolean)
    ensures XsdIri(XsdString) == "http://www.w3.org/2001/XMLSchema#string"
    ensures XsdIri(XsdInteger) == "http://www.w3.org/2001/XMLSchema#integer"
    ensures XsdIri(XsdDecimal) == "http://www.w3.org/2001/XMLSchema#decimal"
    ensures XsdIri(XsdBoolean) == "http://www.w3.org/2001/XMLSchema#boolean"
  {
  }

  /** `Optional[T]` (any Union containing None) maps as its first argument that is not None. */
  lemma OptionalMapsFirstArgument(args: seq<PyType>, i: nat)
    requires NoneType in args
    requires i < |args| && args[i] != NoneType
    requires forall j :: 0 <= j < i ==> args[j] == NoneType
    ensures MapType(UnionOf(args)) == MapType(args[i])
  {
  }

  /** A Union without None, and a List without exactly one argument, default to xsd:string. */
  lemma UnpeeledContainersAreStrings(args: seq<PyType>)
    ensures NoneType !in args ==> MapType(UnionOf(args)) == Some(XsdString)
    ensures |args| != 1 ==> MapType(ListOf(args)) == Some(XsdString)
    ensures |args| == 1 ==> MapType(ListOf(args)) == MapType(args[0])
  {
  }

  /** `map_type` is the fixed table applied to the peeled type. */
  lemma {:induction false} MapTypeIsClassifyOfPeel(t: PyType)
    ensures MapType(t) == Classify(Peel(t))
    decreases t
  {
    match t
    case UnionOf(args) =>
      var k := FirstNotNone(args);
      if NoneType in args && k < |args| {
        MapTypeIsClassifyOfPeel(args[k]);
      }
    case ListOf(args) =>
      if |args| == 1 {
        MapTypeIsClassifyOfPeel(args[0]);
      }
    case _ =>
  }

  /**
   * No datatype is emitted exactly when the peeled type is a model class; every other type
   * gets one of the four XSD datatypes.
   */
  lemma NoDatatypeIffModel(t: PyType)
    ensures MapType(t).None? <==> Peel(t).ModelType?
    ensures !Peel(t).ModelType? && !(Peel(t) in {StrType, IntType, FloatType, BoolType}) ==>
              MapType(t) == Some(XsdString)
  {
    MapTypeIsClassifyOfPeel(t);
  }
}
