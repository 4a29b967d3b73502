# next-form core, modelled in Dafny

next-form binds forms to schema definitions. It pairs schema nodes with UI
components, passes validation and submission through a form-state library
and a schema library, and offers a small builder for server actions. This
project models the pure, sequential logic of that core and proves
properties of it:

- **Procedure / action chain** (`createAction.ts`). `createProcedure` and
  `pipe` compose context-transforming middleware. The source nests closures:
  each `pipe` wraps the previous composed function. `Procedure.Build` does
  the same with `Builder` values, and `Procedure.RunSteps` is a left-to-right
  fold over the declared `seq<Step>`, used as the reference. A sealed action
  (`createAction().input(schema).handler(fn)`) runs the chain, then `parse`,
  then the business function. `Procedure.Invoke` reports the outcome and
  records what was invoked: how many middleware steps, whether `parse` ran,
  and whether the handler ran.
- **Schema-to-component resolver** (`findComponentForSchema` in
  `createForm.tsx`). It uses the mapping as an ordered `seq<Entry>`. A tag
  match wins first. Otherwise it unwraps one optional or nullable layer and
  recurses. At a bare node it takes the first untagged entry of the same
  class, or fails with "No component found for schema type: …".
  `Form.ReferenceResolve` is an independent description: the outermost layer
  whose tag is in the mapping wins, otherwise the first untagged entry of the
  innermost kind. The model proves the two equal. Field expansion, error-map
  formatting and submit routing are modelled in the same module.
- **Unique-field tagging** (`createUniqueFieldSchema.ts`). A tag is an
  explicit `UniqueMark(id, innerSchema)` on a node. The node's `shape` stands
  for its prototype and `_def`, which is everything validation depends on.
- **`useField` helpers** (`useField.ts`):
  - name resolution (`name || contextName`; an empty string is falsy);
  - the label transform, with the reference `Label.Spaced`;
  - error lookup;
  - the `onChange` value-selection rule and the calls it makes.

`Examples` instantiates the repository's example files: the two-entry
mapping, the `{name, isAdult}` schema, the `"select"`-tagged string and the
two-step authenticated procedure.

Callers of an action commonly want to tell its three error kinds apart:
middleware, validation and handler errors. In `createAction.ts` they cannot:
each one simply rejects the action's promise with whatever was thrown. The model's
`Procedure.Outcome` records where each error arose. This is a modelling
device, not a behaviour of the source.

Behaviour the model makes explicit:
- The `try` in `handleFormSubmit` also covers `onSuccess`. If `onSuccess`
  throws, `onError` is called with that error
  (`Form.ThrowingOnSuccessReachesOnError`).
- `useField` reads the raw error entry, while the formatted map drops entries
  with an empty message. The two disagree only on an empty message
  (`Form.FormattedAgreesWithFieldError`).
- A field declared with the empty name `""` cannot find its name through the
  field context (`Form.ProvidedNameReachesField`).
- A value passed directly to `onChange` that itself has a truthy `target`
  property is treated as an event (`Field.ChangeValueAgrees` excludes it).

## Model

| member | source | states |
|---|---|---|
| Search.FirstIndex | packages/next-form/src/core/createForm.tsx:28-33 | `mapping.find`: the result is the first entry satisfying the test; no result means no entry satisfies it |
| UniqueField.CreateUniqueFieldSchema | packages/next-form/src/core/createUniqueFieldSchema.ts:6-39 | the tagged copy keeps the original's class and properties, passes `isUniqueFieldSchema`, and `getUniqueFieldId` reads back the given id; it points back at the original |
| UniqueField.GuardRejectsNonObjects | packages/next-form/src/core/createUniqueFieldSchema.ts:32-34 | `null`, `undefined`, primitives and functions fail the guard, and so do a schema built without tagging and an optional or nullable wrapper around a tagged schema |
| UniqueField.TaggingCopies | packages/next-form/src/core/createUniqueFieldSchema.ts:12-19 | tagging leaves the original reachable and unchanged (still untagged if it was); two tags of one node share its class and kind and keep their own ids |
| UniqueField.RetagOverrides | packages/next-form/src/core/createUniqueFieldSchema.ts:15-19 | tagging a tagged node replaces the copied id and keeps the chain of inner references |
| Procedure.RunSteps | packages/next-form/src/core/createAction.ts:73-78 | the left-to-right fold invokes at most every step, all of them when it returns, and at least one when it throws |
| Procedure.Then | packages/next-form/src/core/createAction.ts:73-78 | a thrown error from the previous chain is passed on and `next` is not invoked; otherwise the result, returned or thrown, is `next`'s on the previous output, and one more step is counted |
| Procedure.CreateProcedure | packages/next-form/src/core/createAction.ts:55-59 | the first builder computes the fold of the one declared step |
| Procedure.Pipe | packages/next-form/src/core/createAction.ts:68-83 | the piped chain runs the old chain once and invokes `next` only on a context it returned, counting one more step; an error from the old chain passes through unchanged (the fold form is `Procedure.PipeAppends`) |
| Procedure.CreateAction | packages/next-form/src/core/createAction.ts:84-85 | `createAction()` carries the chain built so far over unchanged |
| Procedure.Input | packages/next-form/src/core/createAction.ts:86-87 | `.input(schema)` keeps the chain and attaches the schema's parser |
| Procedure.Handler | packages/next-form/src/core/createAction.ts:96-113 | the sealed action invokes exactly the builder's chain, parses exactly when that chain returned, and calls the handler exactly when parsing also succeeded; its outcome is the chain's error, the parser's error, or the handler's result on the parsed input and the chain's final context |
| Procedure.Seal | packages/next-form/src/core/createAction.ts:55-126 | a chain declared as a list of steps and sealed with a parser and handler runs the left-to-right fold of those steps and keeps the parser and handler |
| Procedure.PipeAppends | packages/next-form/src/core/createAction.ts:68-83 | piping `next` onto a builder that computes the fold of `steps` computes the fold of `steps + [next]` |
| Procedure.BuildIsFold | packages/next-form/src/core/createAction.ts:55-126 | the closure nesting built by `createProcedure` and repeated `pipe` equals the left-to-right fold of the declared steps |
| Procedure.PipeBranches | packages/next-form/src/core/createAction.ts:68-83 | two extensions of one base chain compute their own declared steps, and the base chain keeps computing the base steps |
| Procedure.RunStepsStopsAtFailure | packages/next-form/src/core/createAction.ts:76-77 | when the chain throws, the step that threw is the last one invoked and every earlier step returned |
| Procedure.Invoke | packages/next-form/src/core/createAction.ts:106-112 | the handler runs only after `parse`; a middleware error means `parse` never ran; a validation error means `parse` ran and the handler did not |
| Procedure.MiddlewareRunsBeforeValidation | packages/next-form/src/core/createAction.ts:106-110 | `parse` runs exactly when the whole chain returned, and by then every middleware step has run, even if the input is invalid |
| Procedure.ValidationErrorSkipsHandler | packages/next-form/src/core/createAction.ts:110-111 | invalid input gives a validation error with the parser's error, the handler is not invoked, and all middleware has run |
| Procedure.MiddlewareErrorShortCircuits | packages/next-form/src/core/createAction.ts:76-77 | a throwing step ends the action with its error; later steps, `parse` and the handler do not run |
| Procedure.HandlerReceivesParsedInputAndContext | packages/next-form/src/core/createAction.ts:111 | on valid input the handler gets exactly the parsed input and the chain's final context, and its result or error is the action's |
| Procedure.DefaultStep | packages/next-form/src/core/createAction.ts:137-141 | the pass-through middleware never throws, always yields a truthy context, keeps a truthy one and replaces a falsy one by `{}` |
| Procedure.DefaultCreateAction | packages/next-form/src/core/createAction.ts:136-142 | the default builder computes the fold of the one default step: one middleware invoked and no error |
| Procedure.DefaultActionContext | packages/next-form/src/core/createAction.ts:136-142 | the default action runs one step that never throws; the handler sees a truthy initial context unchanged and `{}` in place of an absent or falsy one |
| Label.SplitJoinIsSpaced | packages/next-form/src/core/useField.ts:26-28 | splitting before each upper-case letter and joining with spaces equals inserting one space before every upper-case letter after the first character |
| Label.SplitBeforeUpper | packages/next-form/src/core/useField.ts:27 | the pieces concatenate back to the name; none is empty for a non-empty name; every piece after the first starts with an upper-case letter and no piece has one elsewhere |
| Label.CapitalizeFirst | packages/next-form/src/core/useField.ts:29 | the result has the same length, its first character is upper-cased and every later character is unchanged |
| Label.Label | packages/next-form/src/core/useField.ts:26-29 | joining the split pieces with spaces and capitalising gives the reference: the label is the first character upper-cased, followed by the rest of the name with a space before each upper-case letter |
| Label.LabelLength | packages/next-form/src/core/useField.ts:26-28 | the label's length is the name's length plus the number of upper-case letters after the first character |
| Label.LabelOnlyInsertsSpaces | packages/next-form/src/core/useField.ts:26-29 | removing spaces from the label gives the capitalised name without its spaces, so no other character is added, dropped or changed |
| Field.ResolveFieldName | packages/next-form/src/core/useField.ts:11-16 | a non-empty explicit name wins; otherwise a non-empty context name is used; otherwise "Field name is required for useField" is thrown |
| Field.FieldError | packages/next-form/src/core/useField.ts:32 | when the field has an entry its stored message (possibly absent) is returned; without an entry there is no error |
| Field.UseField | packages/next-form/src/core/useField.ts:6-32 | `useField` fails exactly when no name resolves; otherwise it binds the resolved name with that name's value, its derived label and the error stored for it |
| Field.NewValue | packages/next-form/src/core/useField.ts:44 | a value without a truthy `target` is stored as it is; an event stores its target's `value`, or `undefined` when the target has none |
| Field.OnChange | packages/next-form/src/core/useField.ts:42-57 | `setValue` is always called first, with validate, dirty and touch set; the registered handler gets the event only when the argument has a truthy target |
| Field.ChangeValueAgrees | packages/next-form/src/core/useField.ts:44-56 | a value passed directly and the same value inside an input event are stored alike; only the event is forwarded |
| Form.TagHit | packages/next-form/src/core/createForm.tsx:24-38 | the tag pass finds the first entry carrying the node's tag, and finds nothing for an untagged node or a tag no entry carries |
| Form.Resolve | packages/next-form/src/core/createForm.tsx:22-64 | any component returned comes from the mapping; a failure names the innermost kind and means no untagged entry of that kind exists |
| Form.ResolveIsReference | packages/next-form/src/core/createForm.tsx:22-64 | the resolver equals the reference: the outermost layer whose tag is in the mapping wins, else the first untagged entry of the innermost kind, else an error |
| Form.StructuralIsKindMatch | packages/next-form/src/core/createForm.tsx:46-55 | at a bare node, "untagged with the same constructor" selects the same entry as "untagged bare node of the same kind" |
| Form.TagTakesPrecedence | packages/next-form/src/core/createForm.tsx:24-38 | when some entry carries the node's tag, the first such entry's component is returned, ahead of any structural match |
| Form.UnmatchedTagFallsThrough | packages/next-form/src/core/createForm.tsx:24-47 | a tag that no entry carries is ignored: the node resolves as its untagged self |
| Form.WrapperResolvesAsInner | packages/next-form/src/core/createForm.tsx:40-44 | an optional or nullable node whose tag does not match resolves like its inner node, one layer per step |
| Form.StructuralPassPicksFirstUntagged | packages/next-form/src/core/createForm.tsx:46-63 | at a bare node the first untagged entry of the same kind wins, in mapping order; with none, resolution fails for that kind |
| Form.NoComponentExactly | packages/next-form/src/core/createForm.tsx:57-61 | resolution fails exactly when no layer's tag is mapped and no untagged entry has the innermost kind; the error message names that kind's class |
| Form.TaggingInvisibleWithoutEntry | packages/next-form/src/core/createForm.tsx:24-38 | tagging an untagged node with an id absent from the mapping does not change which component it gets |
| Form.ExpandFields | packages/next-form/src/core/createForm.tsx:114-123 | every field is resolved on its own, in declaration order, with one rendered field per declared field; the first unresolvable field's error is raised |
| Form.ProvidedNameReachesField | packages/next-form/src/core/createForm.tsx:119-121 | a component rendered for a field finds the field's name through the context, unless the name is empty |
| Form.FormatErrors | packages/next-form/src/core/createForm.tsx:85-91 | the `forEach` over the entries stores every entry with a truthy message, and every stored key comes from such an entry and holds its message |
| Form.FormatErrorsKeepsMessages | packages/next-form/src/core/createForm.tsx:85-91 | whatever order the entries come in, the formatted map holds exactly the keys whose entry has a non-empty message, each mapped to that message |
| Form.FormattedAgreesWithFieldError | packages/next-form/src/core/createForm.tsx:85-91 | the formatted map agrees with the field's own lookup; a key it drops has no message or an empty one |
| Form.HandleFormSubmit | packages/next-form/src/core/createForm.tsx:100-108 | at most two callbacks are invoked; a returned result is handed to `onSuccess` first when one is given, and `onSuccess` is called only first and only with a returned result; an error escapes only when the last call was to `onError` and it threw that error |
| Form.SuccessRoutesToOnSuccess | packages/next-form/src/core/createForm.tsx:100-108 | a successful result goes to `onSuccess` only; `onError` is not called while `onSuccess` returns normally |
| Form.FailureRoutesToOnError | packages/next-form/src/core/createForm.tsx:100-108 | a rejection of any kind goes to `onError` with its error, `onSuccess` is never called, and only what `onError` throws escapes |
| Form.ThrowingOnSuccessReachesOnError | packages/next-form/src/core/createForm.tsx:101-107 | when `onSuccess` throws, its error goes to `onError` next, and what `onError` throws escapes |
| Form.Submit | packages/next-form/src/core/createForm.tsx:100-108 | the action is called with the form data and no context; what it returned is handed to `onSuccess` first and `onSuccess` sees nothing else; a rejection reaches `onError` alone with the rejection's error; an error escapes only when `onError` was called last and threw it |
| Form.SubmitDefaultAction | packages/next-form/src/core/createForm.tsx:103 | submitting without a context to a default action routes validation and handler errors to `onError`, and hands the handler's result, computed with context `{}`, to `onSuccess` first |
| Examples.TaggedSelectExample | packages/next-form/src/examples/unique-fields.ts:4 | the `"select"`-tagged string resolves to its tagged entry ahead of the plain-string entry, also under optional and nullable wrappers |
| Examples.StructuralExamples | packages/next-form/src/examples/mapping.ts:8-11 | a plain string maps to the text field and a boolean (also optional) to the checkbox |
| Examples.NoComponentExample | packages/next-form/src/core/createForm.tsx:57-61 | a number node has no component and gets the "ZodNumber" message |
| Examples.FallThroughExample | packages/next-form/src/examples/unique-fields.ts:4 | without a `"select"` entry, the tagged string falls through to the text field |
| Examples.ExampleFields | packages/next-form/src/examples/schema.ts:3-6 | the example object renders `name` then `isAdult`, as text field and checkbox |
| Examples.LabelExamples | packages/next-form/src/core/useField.ts:26-29 | "isAdult" is labelled "Is Adult" and "name" is labelled "Name" |
| Examples.AuthedChainExample | packages/next-form/src/examples/action.ts:6-19 | the two-step chain replaces the context with the user and then adds `admin` |
| Examples.AuthedActionExample | packages/next-form/src/examples/action.ts:27-35 | the authenticated action runs both steps and returns the input with the user's name |
| Examples.AuthedActionRejectsExample | packages/next-form/src/examples/action.ts:27-35 | input that is not an object fails validation after both steps, and the handler does not run |
| Examples.DefaultActionExample | packages/next-form/src/examples/action.ts:21-25 | the plain action echoes a valid input |

## Left out

- Rendering, JSX, `FieldProvider`, `FormContext` and their hooks. The field name that the context would supply is an explicit parameter, and a rendered field is its name and component.
- The form-state library: `useForm`, `register`, `ref`, `onBlur`, `isSubmitting`, `renderSubmit`, and `handleSubmit`'s own validation gate. `getValues` is a function parameter, and `setValue` and the registered `onChange` appear only as recorded calls.
- The schema library's validation engine and `zodResolver`. `parse` is a function parameter returning a result.
- Promises and scheduling. Every middleware step, `parse`, the handler and each callback is a synchronous total function that returns or throws.
- Procedure.Step: one context type serves the whole chain, where the source lets each step change the context's static type.
- Schemas.Kind: only seven base node classes are enumerated. Any other class would be one more constructor.
- Form.ExpandFields: takes the object's fields as a list in `Object.entries` order. JavaScript's ordering rule (integer-like keys first) is not modelled.
- Form.ExpandFields: assumes the form schema is an object schema. For any other schema, `schema.shape` (createForm.tsx:111, read under `@ts-ignore`) is `undefined` and `Object.entries(undefined)` throws a `TypeError`; that error path is not modelled.
- Form.Resolve: assumes every optional or nullable node is recognised by the `instanceof` checks. The example files import the schema library through a different entry point from the resolver, and whether both expose the same classes is not part of this model.
- Js.Value: numbers are integers (no fractions, `NaN` or `-0`), and only own properties of plain objects are modelled.
- Examples.Spread: spreading a non-object yields no properties. The examples only spread objects.
- FormState.ErrorEntry: a message is a string. Non-string messages cast with `as string` are not modelled.
