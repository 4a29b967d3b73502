/** Schema nodes of the validation library, reduced to what the form layer
    inspects: the node's class (a base kind, or an optional / nullable
    wrapper around an inner node) and the unique-field mark that
    `createUniqueFieldSchema` attaches. Everything that decides validation
    lives in `shape`; the mark is out-of-band metadata. */
module Schemas {
  import opened Results

  /** The base node classes the model distinguishes. */
  datatype Kind = StringKind | NumberKind | BooleanKind | DateKind | EnumKind | ObjectKind | ArrayKind

  /** The class name a node reports through `constructor.name`. */
  function ConstructorName(k: Kind): string
  {
    match k
    case StringKind => "ZodString"
    case NumberKind => "ZodNumber"
    case BooleanKind => "ZodBoolean"
    case DateKind => "ZodDate"
    case EnumKind => "ZodEnum"
    case ObjectKind => "ZodObject"
    case ArrayKind => "ZodArray"
  }

  /** The node's class together with its definition (`_def`): a base kind,
      or a wrapper holding its `innerType`. */
  datatype Shape =
    | Base(kind: Kind)
    | Optional(inner: Schema)
    | Nullable(inner: Schema)

  /** A schema node; `unique` is the mark stored under the unique-field
      symbol together with the `_innerSchema` back-reference. */
  datatype Schema = Schema(shape: Shape, unique: Option<UniqueMark>)

  /** The unique-field id and the node the tagged copy was made from. */
  datatype UniqueMark = UniqueMark(id: string, innerSchema: Schema)

  /** The class identity compared by the resolver's structural pass. */
  datatype Ctor = BaseCtor(kind: Kind) | OptionalCtor | NullableCtor

  function ConstructorOf(s: Schema): Ctor
  {
    match s.shape
    case Base(k) => BaseCtor(k)
    case Optional(_) => OptionalCtor
    case Nullable(_) => NullableCtor
  }

  predicate IsWrapper(s: Schema)
  {
    s.shape.Optional? || s.shape.Nullable?
  }

  /** The base kind reached by unwrapping every optional / nullable layer. */
  function BaseKind(s: Schema): Kind
    decreases s
  {
    match s.shape
    case Base(k) => k
    case Optional(inner) => BaseKind(inner)
    case Nullable(inner) => BaseKind(inner)
  }

  /** A fresh, untagged node of a base kind, as `z.string()` builds one. */
  function Plain(k: Kind): Schema
  {
    Schema(Base(k), None)
  }

  /** `z.optional(s)`: a new optional node wrapping exactly `s`. */
  function OptionalOf(s: Schema): Schema
  {
    Schema(Optional(s), None)
  }

  /** `z.nullable(s)`: a new nullable node wrapping exactly `s`. */
  function NullableOf(s: Schema): Schema
  {
    Schema(Nullable(s), None)
  }
}
