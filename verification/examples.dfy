/** The repository's example files as concrete instances: the two-entry
    mapping, the `{name, isAdult}` schema, the `"select"`-tagged string and
    the two-step authenticated procedure. */
module Examples {
  import opened Results
  import opened Schemas
  import opened UniqueField
  import opened Form
  import Procedure
  import Label
  import Js

  datatype Component = TextField | CheckboxField | SelectField

  /** `[[z.string(), TextField], [z.boolean(), CheckboxField]]` */
  const BaseMapping: Mapping<Component> :=
    [Entry(Plain(StringKind), TextField), Entry(Plain(BooleanKind), CheckboxField)]

  /** `createUniqueFieldSchema(z.string(), "select")` */
  const Select: Schema := CreateUniqueFieldSchema(Plain(StringKind), "select")

  /** The base mapping with the tagged string appended. */
  const SelectMapping: Mapping<Component> := BaseMapping + [Entry(Select, SelectField)]

  /** `z.object({ name: z.string(), isAdult: z.boolean() })` */
  const ExampleShape: seq<(string, Schema)> := [("name", Plain(StringKind)), ("isAdult", Plain(BooleanKind))]

  /** The tagged string wins over the earlier plain-string entry. */
  lemma TaggedSelectExample()
    ensures Resolve(Select, SelectMapping) == Ok(SelectField)
    ensures Resolve(NullableOf(OptionalOf(Select)), SelectMapping) == Ok(SelectField)
  {
    assert !TagMatches(SelectMapping[0], "select");
    assert !TagMatches(SelectMapping[1], "select");
    assert TagMatches(SelectMapping[2], "select");
    TagTakesPrecedence(Select, SelectMapping, 2);
  }

  /** A plain string skips the tagged entry and gets the text field; an
      optional boolean unwraps to the checkbox. */
  lemma StructuralExamples()
    ensures Resolve(Plain(StringKind), SelectMapping) == Ok(TextField)
    ensures Resolve(OptionalOf(Plain(BooleanKind)), SelectMapping) == Ok(CheckboxField)
    ensures Resolve(Plain(StringKind), BaseMapping) == Ok(TextField)
    ensures Resolve(Plain(BooleanKind), BaseMapping) == Ok(CheckboxField)
  {
    assert UntaggedOfKind(SelectMapping[0], StringKind);
    StructuralPassPicksFirstUntagged(Plain(StringKind), SelectMapping);
    assert !UntaggedOfKind(SelectMapping[0], BooleanKind);
    assert UntaggedOfKind(SelectMapping[1], BooleanKind);
    StructuralPassPicksFirstUntagged(Plain(BooleanKind), SelectMapping);
    BaseMappingExamples();
  }

  /** The two-entry mapping gives a plain string the text field and a plain
      boolean the checkbox. */
  lemma BaseMappingExamples()
    ensures Resolve(Plain(StringKind), BaseMapping) == Ok(TextField)
    ensures Resolve(Plain(BooleanKind), BaseMapping) == Ok(CheckboxField)
  {
    assert UntaggedOfKind(BaseMapping[0], StringKind);
    StructuralPassPicksFirstUntagged(Plain(StringKind), BaseMapping);
    assert !UntaggedOfKind(BaseMapping[0], BooleanKind);
    assert UntaggedOfKind(BaseMapping[1], BooleanKind);
    StructuralPassPicksFirstUntagged(Plain(BooleanKind), BaseMapping);
  }

  /** A number has no component. */
  lemma NoComponentExample()
    ensures Resolve(Plain(NumberKind), SelectMapping) == Err(NoComponent(NumberKind))
    ensures NoComponentError(NoComponent(NumberKind)) == Error("No component found for schema type: ZodNumber")
  {
    assert forall i :: 0 <= i < |SelectMapping| ==> !UntaggedOfKind(SelectMapping[i], NumberKind);
    StructuralPassPicksFirstUntagged(Plain(NumberKind), SelectMapping);
  }

  /** A tag missing from the mapping falls through to the structural pass. */
  lemma FallThroughExample()
    ensures Resolve(Select, BaseMapping) == Ok(TextField)
  {
    assert forall i :: 0 <= i < |BaseMapping| ==> !TagMatches(BaseMapping[i], "select");
    UnmatchedTagFallsThrough(Select, BaseMapping);
    assert Select.(unique := None) == Plain(StringKind);
    assert UntaggedOfKind(BaseMapping[0], StringKind);
    StructuralPassPicksFirstUntagged(Plain(StringKind), BaseMapping);
  }

  /** The example form renders its fields in declaration order. */
  method ExampleFields() returns (r: Result<seq<RenderedField<Component>>, NoComponent>)
    ensures r == Ok([RenderedField("name", TextField), RenderedField("isAdult", CheckboxField)])
  {
    BaseMappingExamples();
    assert |ExampleShape| == 2;
    assert Resolve(ExampleShape[0].1, BaseMapping) == Ok(TextField);
    assert Resolve(ExampleShape[1].1, BaseMapping) == Ok(CheckboxField);
    r := ExpandFields(ExampleShape, BaseMapping);
    assert r.value == [r.value[0], r.value[1]];
  }

  /** Labels of the example fields. */
  lemma LabelExamples()
    ensures Label.Label("isAdult") == "Is Adult"
    ensures Label.Label("name") == "Name"
  {
    SpacedIsAdult();
    SpacedName();
    CapitalizedIsAdult();
    CapitalizedName();
  }

  lemma CapitalizedIsAdult()
    ensures Label.CapitalizeFirst("is Adult") == "Is Adult"
  {
    assert Label.ToUpper('i') == 'I';
    var r := Label.CapitalizeFirst("is Adult");
    assert r[0] == 'I';
    assert r[1..] == "is Adult"[1..];
    assert r == "Is Adult";
  }

  lemma CapitalizedName()
    ensures Label.CapitalizeFirst("name") == "Name"
  {
    assert Label.ToUpper('n') == 'N';
    assert "name"[1..] == "ame";
    assert ['N'] + "ame" == "Name";
  }

  lemma SpacedIsAdult()
    ensures Label.Spaced("isAdult") == "is Adult"
  {
    Label.SpacedAtBoundary("Adult", 5);
    Label.SpacedAtBoundary("isAdult", 2);
    assert "isAdult"[..2] == "is" && "isAdult"[2..] == "Adult";
  }

  lemma SpacedName()
    ensures Label.Spaced("name") == "name"
  {
    assert "name"[1..] == "ame";
    assert "ame"[1..] == "me";
    assert "me"[1..] == "e";
  }

  // ---------------------------------------------------------------------
  // The example actions

  /** Own enumerable properties copied by an object spread. */
  function Spread(v: Js.Value): map<string, Js.Value>
  {
    if v.Obj? then v.props else map[]
  }

  const User: Js.Value := Js.Obj(map["name" := Js.Str("John Doe")])

  /** `authedProcedure`'s middleware. */
  function Authed(c: Js.Value): Result<Js.Value, Error>
  {
    Ok(Js.Obj(map["user" := User]))
  }

  /** `ctx => ({ ...ctx, admin: true })` */
  function AddAdmin(c: Js.Value): Result<Js.Value, Error>
  {
    Ok(Js.Obj(Spread(c)["admin" := Js.Bool(true)]))
  }

  /** `exampleSchema.parse`: an object with a string `name` and a boolean
      `isAdult`, stripped of other keys. */
  function ParseExample(v: Js.Value): Result<Js.Value, Error>
  {
    var name := Js.Prop(v, "name");
    var isAdult := Js.Prop(v, "isAdult");
    if v.Obj? && name.Str? && isAdult.Bool? then
      Ok(Js.Obj(map["name" := name, "isAdult" := isAdult]))
    else Err(Error("Invalid input"))
  }

  /** `exampleAuthedAction`'s business function. */
  function AuthedHandler(input: Js.Value, ctx: Js.Value): Result<Js.Value, Error>
  {
    Ok(Js.Obj(Spread(input)["name" := Js.Prop(Js.Prop(ctx, "user"), "name")]))
  }

  /** `exampleAction`'s business function returns its input. */
  function EchoHandler(input: Js.Value, ctx: Js.Value): Result<Js.Value, Error>
  {
    Ok(input)
  }

  /** The authed chain on the example context: the first step replaces
      the context with the user, the second adds `admin`. */
  lemma AuthedChainExample()
    ensures Procedure.RunSteps([Authed, AddAdmin], Js.Undefined) ==
            Procedure.Run(Ok(Js.Obj(map["user" := User]["admin" := Js.Bool(true)])), 2)
  {
    var steps: seq<Procedure.Step<Js.Value>> := [Authed, AddAdmin];
    var first := Js.Obj(map["user" := User]);
    var ctx := Js.Obj(map["user" := User]["admin" := Js.Bool(true)]);
    assert steps[0](Js.Undefined) == Ok(first);
    assert steps[1..] == [AddAdmin];
    assert AddAdmin(first) == Ok(ctx);
    assert [AddAdmin][1..] == [];
    assert Procedure.RunSteps([AddAdmin], first) == Procedure.Run(Ok(ctx), 1);
  }

  /** `exampleAuthedAction` on a valid input: the name comes from the
      context's user, both middleware steps ran. */
  lemma AuthedActionExample(b: bool)
    ensures var input := Js.Obj(map["name" := Js.Str("Jane"), "isAdult" := Js.Bool(b)]);
            var r := Procedure.Invoke(Procedure.Seal([Authed, AddAdmin], ParseExample, AuthedHandler), input, Js.Undefined);
            r.outcome == Procedure.Returned(Js.Obj(map["name" := Js.Str("John Doe"), "isAdult" := Js.Bool(b)]))
            && r.stepsInvoked == 2
  {
    var steps: seq<Procedure.Step<Js.Value>> := [Authed, AddAdmin];
    var input := Js.Obj(map["name" := Js.Str("Jane"), "isAdult" := Js.Bool(b)]);
    var ctx := Js.Obj(map["user" := User]["admin" := Js.Bool(true)]);
    AuthedChainExample();
    assert |"name"| == 4 && |"isAdult"| == 7 && |"user"| == 4 && "user"[0] != "name"[0];
    assert ParseExample(input) == Ok(input);
    assert Js.Prop(Js.Prop(ctx, "user"), "name") == Js.Str("John Doe");
    assert input.props["name" := Js.Str("John Doe")] == map["name" := Js.Str("John Doe"), "isAdult" := Js.Bool(b)];
    assert AuthedHandler(input, ctx) == Ok(Js.Obj(map["name" := Js.Str("John Doe"), "isAdult" := Js.Bool(b)]));
    Procedure.HandlerReceivesParsedInputAndContext(steps, ParseExample, AuthedHandler, input, Js.Undefined);
    Procedure.MiddlewareRunsBeforeValidation(steps, ParseExample, AuthedHandler, input, Js.Undefined);
  }

  /** `exampleAuthedAction` on an input that is not an object: a
      validation error after both middleware steps. */
  lemma AuthedActionRejectsExample()
    ensures var r := Procedure.Invoke(Procedure.Seal([Authed, AddAdmin], ParseExample, AuthedHandler), Js.Num(3), Js.Undefined);
            r.outcome == Procedure.ValidationErr(Error("Invalid input")) && r.stepsInvoked == 2 && !r.handled
  {
    AuthedChainExample();
    Procedure.ValidationErrorSkipsHandler([Authed, AddAdmin], ParseExample, AuthedHandler, Js.Num(3), Js.Undefined);
  }

  /** `exampleAction`, built on the default `createAction()`, echoes a
      valid input. */
  lemma DefaultActionExample(b: bool)
    ensures var input := Js.Obj(map["name" := Js.Str("Jane"), "isAdult" := Js.Bool(b)]);
            var a := Procedure.Handler(Procedure.Input(Procedure.DefaultCreateAction(), ParseExample), EchoHandler);
            Procedure.Invoke(a, input, Js.Undefined).outcome == Procedure.Returned(input)
  {
    ParseExampleAccepts(b);
    DefaultActionEchoes(Js.Obj(map["name" := Js.Str("Jane"), "isAdult" := Js.Bool(b)]));
  }

  lemma DefaultActionEchoes(input: Js.Value)
    requires ParseExample(input) == Ok(input)
    ensures var a := Procedure.Handler(Procedure.Input(Procedure.DefaultCreateAction(), ParseExample), EchoHandler);
            Procedure.Invoke(a, input, Js.Undefined).outcome == Procedure.Returned(input)
  {
  }

  lemma ParseExampleAccepts(b: bool)
    ensures var input := Js.Obj(map["name" := Js.Str("Jane"), "isAdult" := Js.Bool(b)]);
            ParseExample(input) == Ok(input)
  {
    assert |"name"| == 4 && |"isAdult"| == 7;
  }
}
