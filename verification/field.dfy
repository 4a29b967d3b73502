/** The pure parts of `useField`: which name the field binds to, the label
    and error it shows, and what its change handler does with its argument.
    The ambient field name is an explicit parameter; the form-state library
    (`getValues`, `register`, `setValue`) appears only as a value lookup and
    as the calls the change handler makes. */
module Field {
  import opened Results
  import opened FormState
  import Js
  import Label

  const FieldNameRequired: Error := Error("Field name is required for useField")

  /** `const fieldName = name || contextName; if (!fieldName) throw ...` */
  function ResolveFieldName(name: Option<string>, contextName: Option<string>): (r: Result<string, Error>)
    ensures r.Ok? <==> Js.TruthyString(name) || Js.TruthyString(contextName)
    ensures r.Ok? ==> r.value != ""
    ensures Js.TruthyString(name) ==> r == Ok(name.value)
    ensures !Js.TruthyString(name) && Js.TruthyString(contextName) ==> r == Ok(contextName.value)
    ensures r.Err? ==> r.error == FieldNameRequired
  {
    var fieldName := if Js.TruthyString(name) then name else contextName;
    if Js.TruthyString(fieldName) then Ok(fieldName.value) else Err(FieldNameRequired)
  }

  /** `errors[fieldName]?.message` */
  function FieldError(errors: FieldErrors, fieldName: string): (r: Option<string>)
    ensures fieldName !in errors ==> r == None
    ensures fieldName in errors ==> r == errors[fieldName].message
  {
    if fieldName in errors then errors[fieldName].message else None
  }

  /** What `useField` returns apart from the library's own handlers. */
  datatype FieldView = FieldView(name: string, value: Js.Value, fieldLabel: string, error: Option<string>)

  /** `useField(name)` rendered under the field name `contextName`, with the
      form's current values given by `getValue`. */
  function UseField(name: Option<string>, contextName: Option<string>, getValue: string -> Js.Value, errors: FieldErrors): (r: Result<FieldView, Error>)
    ensures r.Ok? <==> Js.TruthyString(name) || Js.TruthyString(contextName)
    ensures r.Err? ==> r.error == FieldNameRequired
    ensures r.Ok? ==> && r.value.name != ""
                      && r.value.name == ResolveFieldName(name, contextName).value
                      && r.value.fieldLabel == Label.CapitalizeFirst(Label.Spaced(r.value.name))
                      && r.value.value == getValue(r.value.name)
                      && r.value.error == FieldError(errors, r.value.name)
  {
    match ResolveFieldName(name, contextName)
    case Err(e) => Err(e)
    case Ok(fieldName) =>
      Ok(FieldView(fieldName, getValue(fieldName), Label.Label(fieldName), FieldError(errors, fieldName)))
  }

  // ---------------------------------------------------------------------
  // The change handler

  /** The options `setValue` is called with. */
  datatype SetValueOptions = SetValueOptions(shouldValidate: bool, shouldDirty: bool, shouldTouch: bool)

  /** A call the change handler makes into the form-state library. */
  datatype Effect =
    | SetValue(name: string, value: Js.Value, options: SetValueOptions)
    | RegisteredOnChange(event: Js.Value)

  /** `event && event.target`: the argument is a change event. */
  predicate HasTarget(event: Js.Value)
  {
    Js.Truthy(event) && Js.Truthy(Js.Prop(event, "target"))
  }

  /** `event && event.target ? event.target.value : event` */
  function NewValue(event: Js.Value): (r: Js.Value)
    ensures !HasTarget(event) ==> r == event
    ensures HasTarget(event) ==>
              var target := event.props["target"];
              r == (if target.Obj? && "value" in target.props then target.props["value"] else Js.Undefined)
  {
    if HasTarget(event) then Js.Prop(Js.Prop(event, "target"), "value") else event
  }

  /** The calls `field.onChange(event)` makes, in order. */
  function OnChange(fieldName: string, event: Js.Value): (effects: seq<Effect>)
    ensures 1 <= |effects| <= 2
    ensures effects[0] == SetValue(fieldName, NewValue(event), SetValueOptions(true, true, true))
    ensures |effects| == 2 <==> HasTarget(event)
    ensures |effects| == 2 ==> effects[1] == RegisteredOnChange(event)
  {
    var newValue := NewValue(event);
    [SetValue(fieldName, newValue, SetValueOptions(true, true, true))]
      + (if HasTarget(event) then [RegisteredOnChange(event)] else [])
  }

  /** The event an input element delivers: `{ target: { value: v } }`. */
  function InputEvent(v: Js.Value): Js.Value
  {
    Js.Obj(map["target" := Js.Obj(map["value" := v])])
  }

  /** A value delivered directly and the same value delivered inside an
      input event are stored alike; only the event is forwarded to the
      registered handler. A direct value that itself has a truthy `target`
      would be read as an event. */
  lemma ChangeValueAgrees(fieldName: string, v: Js.Value)
    requires !HasTarget(v)
    ensures OnChange(fieldName, v) == [SetValue(fieldName, v, SetValueOptions(true, true, true))]
    ensures OnChange(fieldName, InputEvent(v)) ==
      [SetValue(fieldName, v, SetValueOptions(true, true, true)), RegisteredOnChange(InputEvent(v))]
  {
    var e := InputEvent(v);
    assert Js.Prop(e, "target") == Js.Obj(map["value" := v]);
    assert Js.Prop(Js.Prop(e, "target"), "value") == v;
  }
}
