/** `createForm`: resolving each field's schema to the component mapped to
    it, expanding an object schema into its fields, formatting the error
    map, and routing the submitted action's result to the callbacks.
    Rendering is left out; a resolved field is its name and component. */
module Form {
  import opened Results
  import opened Schemas
  import opened UniqueField
  import opened FormState
  import Search
  import Field
  import Procedure
  import Js

  /** One `[schema, Component]` pair of the mapping. */
  datatype Entry<C> = Entry(schema: Schema, component: C)

  /** The mapping, searched in order. */
  type Mapping<C> = seq<Entry<C>>

  /** The resolver's error, raised for the innermost node it reached. */
  datatype NoComponent = NoComponent(kind: Kind)

  /** The message of the thrown `Error`. */
  function NoComponentError(e: NoComponent): Error
  {
    Error("No component found for schema type: " + ConstructorName(e.kind))
  }

  /** The tag pass's test: the entry is tagged with `id`. */
  predicate TagMatches<C>(e: Entry<C>, id: string)
  {
    IsUniqueFieldSchema(SchemaObject(e.schema)) && GetUniqueFieldId(e.schema) == id
  }

  /** The structural pass's test: an untagged entry of the same class. */
  predicate SameConstructor<C>(e: Entry<C>, s: Schema)
  {
    !IsUniqueFieldSchema(SchemaObject(e.schema)) && ConstructorOf(e.schema) == ConstructorOf(s)
  }

  /** The first entry tagged like `s`, if `s` is tagged. */
  function TagHit<C>(s: Schema, m: Mapping<C>): (r: Option<nat>)
    ensures r.Some? ==> s.unique.Some? && r.value < |m| && TagMatches(m[r.value], s.unique.value.id)
    ensures r.Some? ==> forall j :: 0 <= j < r.value ==> !TagMatches(m[j], s.unique.value.id)
    ensures r.None? <==> s.unique.None? || forall j :: 0 <= j < |m| ==> !TagMatches(m[j], s.unique.value.id)
  {
    if IsUniqueFieldSchema(SchemaObject(s)) then
      var id := GetUniqueFieldId(s);
      Search.FirstIndex(m, e => TagMatches(e, id))
    else None
  }

  /** `findComponentForSchema(schema)`. */
  function Resolve<C>(s: Schema, m: Mapping<C>): (r: Result<C, NoComponent>)
    ensures r.Ok? ==> exists i :: 0 <= i < |m| && m[i].component == r.value
    ensures r.Err? ==> r.error == NoComponent(BaseKind(s))
    ensures r.Err? ==> forall i :: 0 <= i < |m| ==> !UntaggedOfKind(m[i], BaseKind(s))
    decreases s
  {
    match TagHit(s, m)
    case Some(i) => Ok(m[i].component)
    case None =>
      match s.shape
      case Optional(inner) => Resolve(inner, m)
      case Nullable(inner) => Resolve(inner, m)
      case Base(k) =>
        match Search.FirstIndex(m, e => SameConstructor(e, s))
        case Some(i) => Ok(m[i].component)
        case None => Err(NoComponent(k))
  }

  // ---------------------------------------------------------------------
  // Reference definition of the resolver

  /** An untagged entry whose node is a bare `k` node. */
  predicate UntaggedOfKind<C>(e: Entry<C>, k: Kind)
  {
    e.schema.unique.None? && e.schema.shape == Base(k)
  }

  /** The node and every node reached by unwrapping optional / nullable
      layers, outermost first. */
  function Layers(s: Schema): (ls: seq<Schema>)
    ensures |ls| >= 1 && ls[0] == s
    decreases s
  {
    match s.shape
    case Base(_) => [s]
    case Optional(inner) => [s] + Layers(inner)
    case Nullable(inner) => [s] + Layers(inner)
  }

  /** The outermost layer whose tag some entry carries wins, with that
      tag's first entry; otherwise the first untagged entry of the
      innermost kind; otherwise no component. */
  function ReferenceResolve<C>(s: Schema, m: Mapping<C>): Result<C, NoComponent>
  {
    var ls := Layers(s);
    match Search.FirstIndex(ls, l => TagHit(l, m).Some?)
    case Some(i) => Ok(m[TagHit(ls[i], m).value].component)
    case None =>
      match Search.FirstIndex(m, e => UntaggedOfKind(e, BaseKind(s)))
      case Some(j) => Ok(m[j].component)
      case None => Err(NoComponent(BaseKind(s)))
  }

  /** For a bare node, "same class, untagged" is "untagged bare node of
      the same kind". */
  lemma StructuralIsKindMatch<C>(s: Schema, m: Mapping<C>)
    requires s.shape.Base?
    ensures Search.FirstIndex(m, e => SameConstructor(e, s)) ==
            Search.FirstIndex(m, e => UntaggedOfKind(e, s.shape.kind))
  {
    Search.FirstIndexAgree(m, e => SameConstructor(e, s), e => UntaggedOfKind(e, s.shape.kind));
  }

  /** The resolver computes the reference definition. */
  lemma {:induction false} ResolveIsReference<C>(s: Schema, m: Mapping<C>)
    ensures Resolve(s, m) == ReferenceResolve(s, m)
    decreases s
  {
    if TagHit(s, m).Some? {
      Search.FirstIndexIsFirstHit(Layers(s), (l: Schema) => TagHit(l, m).Some?, 0);
    } else {
      match s.shape
      case Base(k) =>
        assert Layers(s) == [s];
        StructuralIsKindMatch(s, m);
      case Optional(inner) =>
        ResolveIsReference(inner, m);
        ReferenceUnwraps(s, m);
      case Nullable(inner) =>
        ResolveIsReference(inner, m);
        ReferenceUnwraps(s, m);
    }
  }

  /** Without a tag hit at the outer layer, the reference definition looks
      straight through an optional or nullable wrapper. */
  lemma ReferenceUnwraps<C>(s: Schema, m: Mapping<C>)
    requires TagHit(s, m).None? && !s.shape.Base?
    ensures ReferenceResolve(s, m) == ReferenceResolve(s.shape.inner, m)
  {
    var p := (l: Schema) => TagHit(l, m).Some?;
    assert Layers(s) == [s] + Layers(s.shape.inner);
    Search.FirstIndexCons(s, Layers(s.shape.inner), p);
  }

  // ---------------------------------------------------------------------
  // Properties of the resolver

  /** A tag shared with some entry beats every structural match: the first
      entry carrying the tag is chosen. */
  lemma TagTakesPrecedence<C>(s: Schema, m: Mapping<C>, i: nat)
    requires s.unique.Some? && i < |m|
    requires TagMatches(m[i], s.unique.value.id)
    requires forall j :: 0 <= j < i ==> !TagMatches(m[j], s.unique.value.id)
    ensures Resolve(s, m) == Ok(m[i].component)
  {
    Search.FirstIndexIsFirstHit(m, e => TagMatches(e, s.unique.value.id), i);
  }

  /** A tag no entry carries is ignored: the node resolves as its untagged
      self would. */
  lemma UnmatchedTagFallsThrough<C>(s: Schema, m: Mapping<C>)
    requires s.unique.Some?
    requires forall j :: 0 <= j < |m| ==> !TagMatches(m[j], s.unique.value.id)
    ensures Resolve(s, m) == Resolve(s.(unique := None), m)
  {
    var u := s.(unique := None);
    if s.shape.Base? {
      assert forall e: Entry<C> :: SameConstructor(e, s) == SameConstructor(e, u);
      Search.FirstIndexAgree(m, e => SameConstructor(e, s), e => SameConstructor(e, u));
    }
  }

  /** A wrapper whose own tag (if any) is not in the mapping resolves to
      the same component as its inner node, one layer at a time. */
  lemma WrapperResolvesAsInner<C>(s: Schema, m: Mapping<C>)
    requires IsWrapper(s)
    requires TagHit(s, m).None?
    ensures Resolve(s, m) == Resolve(s.shape.inner, m)
  {
  }

  /** On a bare node whose tag (if any) is not in the mapping, the result
      is the first untagged entry of the same kind, in mapping order;
      tagged entries are never chosen; with no such entry it is an error. */
  lemma StructuralPassPicksFirstUntagged<C>(s: Schema, m: Mapping<C>)
    requires s.shape.Base?
    requires TagHit(s, m).None?
    ensures forall i :: 0 <= i < |m| && UntaggedOfKind(m[i], s.shape.kind)
              && (forall j :: 0 <= j < i ==> !UntaggedOfKind(m[j], s.shape.kind))
              ==> Resolve(s, m) == Ok(m[i].component)
    ensures (forall i :: 0 <= i < |m| ==> !UntaggedOfKind(m[i], s.shape.kind))
              ==> Resolve(s, m) == Err(NoComponent(s.shape.kind))
  {
    StructuralIsKindMatch(s, m);
    forall i | 0 <= i < |m| && UntaggedOfKind(m[i], s.shape.kind)
               && (forall j :: 0 <= j < i ==> !UntaggedOfKind(m[j], s.shape.kind))
      ensures Resolve(s, m) == Ok(m[i].component)
    {
      Search.FirstIndexIsFirstHit(m, e => UntaggedOfKind(e, s.shape.kind), i);
    }
  }

  /** Resolution fails exactly when no layer's tag is in the mapping and no
      untagged entry has the innermost kind; it never yields a default. */
  lemma NoComponentExactly<C>(s: Schema, m: Mapping<C>)
    ensures Resolve(s, m).Err? <==>
              && (forall l :: l in Layers(s) ==> TagHit(l, m).None?)
              && (forall i :: 0 <= i < |m| ==> !UntaggedOfKind(m[i], BaseKind(s)))
    ensures Resolve(s, m).Err? ==>
              NoComponentError(Resolve(s, m).error) == Error("No component found for schema type: " + ConstructorName(BaseKind(s)))
  {
    ResolveIsReference(s, m);
    var ls := Layers(s);
    var p := (l: Schema) => TagHit(l, m).Some?;
    if Search.FirstIndex(ls, p).None? {
      assert forall l :: l in ls ==> TagHit(l, m).None?;
    }
  }

  /** Tagging a node with an id no entry carries does not change how an
      untagged node resolves. */
  lemma TaggingInvisibleWithoutEntry<C>(s: Schema, id: string, m: Mapping<C>)
    requires s.unique.None?
    requires forall j :: 0 <= j < |m| ==> !TagMatches(m[j], id)
    ensures Resolve(CreateUniqueFieldSchema(s, id), m) == Resolve(s, m)
  {
    var t := CreateUniqueFieldSchema(s, id);
    UnmatchedTagFallsThrough(t, m);
    assert t.(unique := None) == s;
  }

  // ---------------------------------------------------------------------
  // Field expansion

  /** A field as rendered: its name (provided to the component through the
      field context) and its component. */
  datatype RenderedField<C> = RenderedField(name: string, component: C)

  /** `Object.entries(schema.shape).map(...)`: every field resolved on its
      own, in declaration order; the first field that cannot be resolved
      throws and nothing is rendered. */
  method ExpandFields<C>(shape: seq<(string, Schema)>, m: Mapping<C>) returns (r: Result<seq<RenderedField<C>>, NoComponent>)
    ensures r.Ok? <==> forall i :: 0 <= i < |shape| ==> Resolve(shape[i].1, m).Ok?
    ensures r.Ok? ==> |r.value| == |shape|
    ensures r.Ok? ==> forall i :: 0 <= i < |shape| ==>
              r.value[i] == RenderedField(shape[i].0, Resolve(shape[i].1, m).value)
    ensures r.Err? ==>
              exists i :: 0 <= i < |shape| && Resolve(shape[i].1, m) == Err(r.error) && (forall j :: 0 <= j < i ==> Resolve(shape[j].1, m).Ok?)
  {
    var fields: seq<RenderedField<C>> := [];
    var n := 0;
    while n < |shape|
      invariant 0 <= n <= |shape|
      invariant |fields| == n
      invariant forall i :: 0 <= i < n ==> Resolve(shape[i].1, m).Ok?
      invariant forall i :: 0 <= i < n ==> fields[i] == RenderedField(shape[i].0, Resolve(shape[i].1, m).value)
    {
      var (name, fieldSchema) := shape[n];
      match Resolve(fieldSchema, m)
      case Err(e) =>
        return Err(e);
      case Ok(component) =>
        fields := fields + [RenderedField(name, component)];
      n := n + 1;
    }
    return Ok(fields);
  }

  /** A component rendered for a field finds that field's name through the
      field context, unless the declared name is empty. */
  lemma ProvidedNameReachesField(fieldName: string, explicit: Option<string>)
    requires !Js.TruthyString(explicit)
    ensures fieldName != "" ==> Field.ResolveFieldName(explicit, Some(fieldName)) == Ok(fieldName)
    ensures fieldName == "" ==> Field.ResolveFieldName(explicit, Some(fieldName)) == Err(Field.FieldNameRequired)
  {
  }

  // ---------------------------------------------------------------------
  // Error formatting

  /** `entries` is what `Object.entries(errors)` yields: every pair is an
      entry of `errors` and every key of `errors` appears. The enumeration
      order is left open. */
  predicate EntriesOf(errors: FieldErrors, entries: seq<(string, ErrorEntry)>)
  {
    && (forall i :: 0 <= i < |entries| ==> entries[i].0 in errors && errors[entries[i].0] == entries[i].1)
    && (forall k :: k in errors ==> exists i :: 0 <= i < |entries| && entries[i].0 == k)
  }

  /** `formattedErrors`: a `forEach` over the entries that stores the message
      of every entry whose message is truthy. Every entry with a message is
      stored, and every stored key comes from such an entry and holds its
      message. */
  function FormatErrors(entries: seq<(string, ErrorEntry)>): (f: map<string, string>)
    ensures forall i :: 0 <= i < |entries| && HasMessage(entries[i].1) ==> entries[i].0 in f
    ensures forall k :: k in f ==>
              exists i :: 0 <= i < |entries| && entries[i].0 == k && HasMessage(entries[i].1)
                          && f[k] == entries[i].1.message.value
    decreases |entries|
  {
    if |entries| == 0 then map[]
    else
      var before := FormatErrors(entries[..|entries| - 1]);
      var (key, value) := entries[|entries| - 1];
      if HasMessage(value) then before[key := value.message.value] else before
  }

  /** Whatever order `Object.entries` lists them in, the formatted map holds
      exactly the keys whose entry has a truthy message, each mapped to that
      message. */
  lemma FormatErrorsKeepsMessages(errors: FieldErrors, entries: seq<(string, ErrorEntry)>)
    requires EntriesOf(errors, entries)
    ensures var f := FormatErrors(entries);
            && (forall k :: k in f <==> k in errors && HasMessage(errors[k]))
            && (forall k :: k in f ==> f[k] == errors[k].message.value)
  {
  }

  /** The formatted map agrees with what `useField` reads for a field,
      except that an empty message is shown by the field but dropped from
      the formatted map. */
  lemma FormattedAgreesWithFieldError(errors: FieldErrors, entries: seq<(string, ErrorEntry)>, k: string)
    requires EntriesOf(errors, entries)
    ensures k in FormatErrors(entries) ==> Field.FieldError(errors, k) == Some(FormatErrors(entries)[k])
    ensures k !in FormatErrors(entries) ==> Field.FieldError(errors, k) in {None, Some("")}
  {
    FormatErrorsKeepsMessages(errors, entries);
  }

  // ---------------------------------------------------------------------
  // Submission

  /** A callback invocation. */
  datatype Call<O> = SuccessCalled(result: O) | ErrorCalled(error: Error)

  /** The callbacks invoked, in order, and an error that escaped the
      submit handler (thrown by `onError` itself). */
  datatype SubmitReport<O> = SubmitReport(calls: seq<Call<O>>, escaped: Option<Error>)

  /** `onError?.(error)` inside the `catch`. */
  function Catch<O>(e: Error, onError: Option<Error -> Option<Error>>): SubmitReport<O>
  {
    match onError
    case None => SubmitReport([], None)
    case Some(g) => SubmitReport([ErrorCalled(e)], g(e))
  }

  /** The error an action's promise rejected with. */
  function Rejection<O>(o: Procedure.Outcome<O>): Error
    requires !o.Returned?
  {
    o.error
  }

  /** The body of `handleFormSubmit` after the library's own validation:
      `try { onSuccess?.(await action(...)) } catch (e) { onError?.(e) }`.
      A callback returns `Some(e)` when it throws `e`. */
  function HandleFormSubmit<O>(outcome: Procedure.Outcome<O>, onSuccess: Option<O -> Option<Error>>, onError: Option<Error -> Option<Error>>): (r: SubmitReport<O>)
    ensures |r.calls| <= 2
    ensures r.escaped.Some? ==> onError.Some?
    ensures r.escaped.Some? ==>
              && |r.calls| >= 1 && r.calls[|r.calls| - 1].ErrorCalled?
              && r.escaped == onError.value(r.calls[|r.calls| - 1].error)
    ensures forall i :: 0 <= i < |r.calls| && r.calls[i].SuccessCalled? ==> i == 0 && outcome == Procedure.Returned(r.calls[i].result)
    ensures outcome.Returned? && onSuccess.Some? ==> |r.calls| >= 1 && r.calls[0] == SuccessCalled(outcome.value)
  {
    match outcome
    case Returned(v) =>
      (match onSuccess
       case None => SubmitReport([], None)
       case Some(f) =>
         match f(v)
         case None => SubmitReport([SuccessCalled(v)], None)
         case Some(e) =>
           var caught := Catch(e, onError);
           SubmitReport([SuccessCalled(v)] + caught.calls, caught.escaped))
    case _ => Catch(Rejection(outcome), onError)
  }

  /** Submitting calls the action with the form data and no context:
      a returned result is handed to `onSuccess` first, `onSuccess` sees
      nothing else, an action that rejects reaches `onError` alone with the
      error it rejected with, and only what `onError` throws escapes. */
  function Submit<I, V, O>(a: Procedure.Action<Js.Value, I, V, O>, data: I, onSuccess: Option<O -> Option<Error>>, onError: Option<Error -> Option<Error>>): (r: SubmitReport<O>)
    ensures forall i :: 0 <= i < |r.calls| && r.calls[i].SuccessCalled? ==>
              Procedure.Invoke(a, data, Js.Undefined).outcome == Procedure.Returned(r.calls[i].result)
    ensures var o := Procedure.Invoke(a, data, Js.Undefined).outcome;
            !o.Returned? ==> r.calls == (if onError.Some? then [ErrorCalled(o.error)] else [])
    ensures var o := Procedure.Invoke(a, data, Js.Undefined).outcome;
            o.Returned? && onSuccess.Some? ==> |r.calls| >= 1 && r.calls[0] == SuccessCalled(o.value)
    ensures r.escaped.Some? ==>
              && onError.Some? && |r.calls| >= 1 && r.calls[|r.calls| - 1].ErrorCalled?
              && r.escaped == onError.value(r.calls[|r.calls| - 1].error)
  {
    var o := Procedure.Invoke(a, data, Js.Undefined).outcome;
    if o.Returned? then HandleFormSubmit(o, onSuccess, onError)
    else
      FailureRoutesToOnError(o, onSuccess, onError);
      HandleFormSubmit(o, onSuccess, onError)
  }

  /** A successful result goes to `onSuccess` and, when `onSuccess` returns
      normally, `onError` is not called. */
  lemma SuccessRoutesToOnSuccess<O>(v: O, onSuccess: Option<O -> Option<Error>>, onError: Option<Error -> Option<Error>>)
    requires onSuccess.Some? ==> onSuccess.value(v).None?
    ensures var r := HandleFormSubmit(Procedure.Returned(v), onSuccess, onError);
            && r.calls == (if onSuccess.Some? then [SuccessCalled(v)] else [])
            && r.escaped.None?
            && forall c :: c in r.calls ==> !c.ErrorCalled?
  {
  }

  /** An error from the chain, from validation or from the business
      function goes to `onError` alone; `onSuccess` is never called. */
  lemma FailureRoutesToOnError<O>(o: Procedure.Outcome<O>, onSuccess: Option<O -> Option<Error>>, onError: Option<Error -> Option<Error>>)
    requires !o.Returned?
    ensures var r := HandleFormSubmit(o, onSuccess, onError);
            && r.calls == (if onError.Some? then [ErrorCalled(o.error)] else [])
            && r.escaped == (if onError.Some? then onError.value(o.error) else None)
            && forall c :: c in r.calls ==> !c.SuccessCalled?
  {
  }

  /** The `try` also covers `onSuccess`: when it throws, its error is
      passed to `onError` after it. */
  lemma ThrowingOnSuccessReachesOnError<O>(v: O, f: O -> Option<Error>, g: Error -> Option<Error>)
    requires f(v).Some?
    ensures HandleFormSubmit(Procedure.Returned(v), Some(f), Some(g)).calls ==
            [SuccessCalled(v), ErrorCalled(f(v).value)]
    ensures HandleFormSubmit(Procedure.Returned(v), Some(f), Some(g)).escaped == g(f(v).value)
  {
  }

  /** Submitting a default action: the business function sees the context
      `{}`; its result goes to `onSuccess` and its error, like a validation
      error, to `onError`. */
  lemma SubmitDefaultAction<I(!new), V(!new), O>(
    parse: I -> Result<V, Error>, handler: (V, Js.Value) -> Result<O, Error>, data: I,
    onSuccess: Option<O -> Option<Error>>, onError: Option<Error -> Option<Error>>)
    ensures var a := Procedure.Handler(Procedure.Input(Procedure.DefaultCreateAction(), parse), handler);
            var r := Submit(a, data, onSuccess, onError);
            && (parse(data).Err? ==> r.calls == (if onError.Some? then [ErrorCalled(parse(data).error)] else []))
            && (parse(data).Ok? && handler(parse(data).value, Js.EmptyObject).Err? ==>
                  r.calls == (if onError.Some? then [ErrorCalled(handler(parse(data).value, Js.EmptyObject).error)] else []))
            && (parse(data).Ok? && handler(parse(data).value, Js.EmptyObject).Ok? && onSuccess.Some? ==>
                  |r.calls| >= 1 && r.calls[0] == SuccessCalled(handler(parse(data).value, Js.EmptyObject).value))
  {
    Procedure.DefaultActionContext(parse, handler, data, Js.Undefined);
  }
}
