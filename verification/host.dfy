/**
 * The Python objects the core consumes, already decoded: type annotations, Pydantic field
 * records, model classes and model instances. Reflection itself is not modelled; these values
 * are what `__fields__`, `outer_type_`, `field_info` and `.dict()` would hand over.
 */
module Host {
  import opened Options
  import opened Rdf

  /** A field's declared type, as far as the type mapper distinguishes them. */
  datatype PyType =
    | StrType | IntType | FloatType | BoolType
    | NoneType                       // type(None)
    | UnionOf(args: seq<PyType>)     // typing.Union[...]; Optional[T] is UnionOf([T, NoneType])
    | ListOf(args: seq<PyType>)      // typing.List[...]
    | ModelType(name: string)        // a subclass of pydantic.BaseModel
    | OtherType(name: string)        // any other class or annotation

  /** A field value as `.dict()` yields it. `Opaque` is anything else (dict, tuple, set, ...). */
  datatype Value =
    | Null
    | Atom(scalar: Scalar)
    | Items(items: seq<Value>)
    | Nested(inst: Instance)
    | Opaque(kind: string)

  /**
   * What `field_info.regex` holds. Pydantic v1's `Field(regex=...)` keeps the text it was given;
   * only a compiled pattern object has the `.pattern` attribute the introspector reads.
   */
  datatype Regex = RegexText(text: string) | CompiledRegex(pattern: string)

  /** What a Pydantic `ModelField` exposes: its type, requiredness, default and declared bounds. */
  datatype FieldSource = FieldSource(
    name: string,
    outerType: PyType,
    required: bool,
    default: Value,
    description: Option<string>,
    minLength: Option<int>,
    maxLength: Option<int>,
    regex: Option<Regex>,           // never evaluated
    gt: Option<Scalar>,
    ge: Option<Scalar>,
    lt: Option<Scalar>,
    le: Option<Scalar>)

  /** A Pydantic model class: its `__name__`, `__doc__` and fields in declaration order. */
  datatype ModelClass = ModelClass(name: string, doc: Option<string>, fields: seq<FieldSource>)

  /**
   * A model instance. `oid` stands for `id(instance)`, which is distinct for distinct live
   * objects; `values` is `instance.dict()` in field order.
   */
  datatype Instance = Instance(cls: ModelClass, oid: nat, values: seq<(string, Value)>)
}
