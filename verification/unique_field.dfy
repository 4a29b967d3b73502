/** Unique-field tagging: a copy of a schema node carrying a string id that
    the resolver uses to pick a component ahead of structural matching. */
module UniqueField {
  import opened Results
  import opened Schemas

  /** The argument of the type guard, which accepts any JavaScript value. */
  datatype AnyValue =
    | NullValue
    | UndefinedValue
    | PrimitiveValue
    | FunctionValue
    | SchemaObject(schema: Schema)

  /** `createUniqueFieldSchema(schema, id)`: a new node with the same class
      and own properties as `s`, marked with `id` and pointing back at `s`. */
  function CreateUniqueFieldSchema(s: Schema, id: string): (t: Schema)
    ensures t.shape == s.shape
    ensures IsUniqueFieldSchema(SchemaObject(t))
    ensures GetUniqueFieldId(t) == id
    ensures InnerSchema(t) == s
  {
    Schema(s.shape, Some(UniqueMark(id, s)))
  }

  /** `isUniqueFieldSchema(value)`: an object carrying the unique-field mark. */
  predicate IsUniqueFieldSchema(v: AnyValue)
  {
    v.SchemaObject? && v.schema.unique.Some?
  }

  /** `getUniqueFieldId(schema)`; its parameter type demands a tagged node. */
  function GetUniqueFieldId(s: Schema): string
    requires IsUniqueFieldSchema(SchemaObject(s))
  {
    s.unique.value.id
  }

  /** The `_innerSchema` reference of a tagged node. */
  function InnerSchema(s: Schema): Schema
    requires IsUniqueFieldSchema(SchemaObject(s))
  {
    s.unique.value.innerSchema
  }

  /** Only a marked object passes the guard: `null`, `undefined`, primitives
      and functions do not, nor does a schema built without tagging, nor a
      wrapper put around a tagged schema (the wrapper is a new node that
      does not copy the mark). */
  lemma GuardRejectsNonObjects(v: AnyValue, k: Kind, s: Schema)
    ensures !v.SchemaObject? ==> !IsUniqueFieldSchema(v)
    ensures !IsUniqueFieldSchema(SchemaObject(Plain(k)))
    ensures !IsUniqueFieldSchema(SchemaObject(OptionalOf(s))) && !IsUniqueFieldSchema(SchemaObject(NullableOf(s)))
  {
  }

  /** Tagging makes a copy: the node it was made from is reachable,
      unchanged and, if it was untagged, still untagged; tagging the same
      node twice gives two nodes of the same class with independent ids. */
  lemma TaggingCopies(s: Schema, id1: string, id2: string)
    ensures var t1 := CreateUniqueFieldSchema(s, id1);
            var t2 := CreateUniqueFieldSchema(s, id2);
            && InnerSchema(t1) == s && InnerSchema(t2) == s
            && (s.unique.None? ==> !IsUniqueFieldSchema(SchemaObject(InnerSchema(t1))))
            && ConstructorOf(t1) == ConstructorOf(s) == ConstructorOf(t2)
            && BaseKind(t1) == BaseKind(s) == BaseKind(t2)
            && GetUniqueFieldId(t1) == id1 && GetUniqueFieldId(t2) == id2
  {
  }

  /** Re-tagging a tagged node replaces its id (the copied mark is
      overwritten) and points back at the tagged node. */
  lemma RetagOverrides(s: Schema, id1: string, id2: string)
    ensures var t := CreateUniqueFieldSchema(CreateUniqueFieldSchema(s, id1), id2);
            GetUniqueFieldId(t) == id2 && InnerSchema(InnerSchema(t)) == s && t.shape == s.shape
  {
  }
}
