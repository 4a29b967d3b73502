/** The procedure / action chain: middleware that transforms a context,
    composed left to right by `createProcedure` and `pipe`, and sealed by
    `createAction().input(schema).handler(fn)` into an action that runs the
    chain, then validates its input, then calls the business function.
    Asynchrony is dropped: every step is a total function that either
    returns the next context or throws. */
module Procedure {
  import opened Results
  import Js

  /** One middleware function. */
  type Step<!Ctx> = Ctx -> Result<Ctx, Error>

  /** What running a chain yields: the final context or the error that
      stopped it, and how many middleware functions were invoked. */
  datatype Run<Ctx> = Run(result: Result<Ctx, Error>, invoked: nat)

  /** The chain builder: the source keeps only the composed middleware
      closure, and each `pipe` wraps it in a new one. */
  datatype Builder<!Ctx> = Builder(composed: Ctx -> Run<Ctx>)

  /** Reference semantics: the declared steps folded left to right, each
      consuming the previous step's output, stopping at the first throw. */
  function RunSteps<Ctx>(steps: seq<Step<Ctx>>, c: Ctx): (r: Run<Ctx>)
    ensures r.invoked <= |steps|
    ensures r.result.Ok? ==> r.invoked == |steps|
    ensures r.result.Err? ==> 1 <= r.invoked
    decreases |steps|
  {
    if |steps| == 0 then Run(Ok(c), 0)
    else match steps[0](c)
      case Err(e) => Run(Err(e), 1)
      case Ok(next) =>
        var rest := RunSteps(steps[1..], next);
        Run(rest.result, rest.invoked + 1)
  }

  /** The body of the closure `pipe` builds: await the previous chain, then
      hand its output to the next middleware. */
  function Then<Ctx>(prev: Run<Ctx>, next: Step<Ctx>): (r: Run<Ctx>)
    ensures prev.result.Err? ==> r == prev
    ensures r.result.Ok? ==> prev.result.Ok?
    ensures prev.result.Ok? ==> r.result == next(prev.result.value) && r.invoked == prev.invoked + 1
  {
    match prev.result
    case Err(_) => prev
    case Ok(c) => Run(next(c), prev.invoked + 1)
  }

  /** `createProcedure(first)`: a chain of the one declared step. */
  function CreateProcedure<Ctx(!new)>(first: Step<Ctx>): (b: Builder<Ctx>)
    ensures forall c :: b.composed(c) == RunSteps([first], c)
  {
    SingleStepFold(first);
    Builder(c => Run(first(c), 1))
  }

  lemma SingleStepFold<Ctx>(first: Step<Ctx>)
    ensures forall c :: RunSteps([first], c) == Run(first(c), 1)
  {
    assert [first][1..] == [];
  }

  /** `builder.pipe(next)`: a new builder whose closure wraps the old one;
      the old builder is a value and is left as it was. The new chain runs
      the old one once and invokes `next` only on a context it returned;
      an error from the old chain passes through unchanged. */
  function Pipe<Ctx(!new)>(b: Builder<Ctx>, next: Step<Ctx>): (r: Builder<Ctx>)
    ensures forall c {:trigger r.composed(c)} :: b.composed(c).result.Err? ==> r.composed(c) == b.composed(c)
    ensures forall c {:trigger r.composed(c)} :: b.composed(c).result.Ok? ==>
              && r.composed(c).result == next(b.composed(c).result.value)
              && r.composed(c).invoked == b.composed(c).invoked + 1
  {
    Builder(c => Then(b.composed(c), next))
  }

  /** The builder obtained from `createProcedure(steps[0]).pipe(steps[1])...`. */
  function Build<Ctx(!new)>(steps: seq<Step<Ctx>>): Builder<Ctx>
    requires |steps| >= 1
    decreases |steps|
  {
    if |steps| == 1 then CreateProcedure(steps[0])
    else Pipe(Build(steps[..|steps| - 1]), steps[|steps| - 1])
  }

  /** Appending a step to the fold runs it on the fold's output. */
  lemma {:induction false} RunStepsSnoc<Ctx>(steps: seq<Step<Ctx>>, next: Step<Ctx>, c: Ctx)
    ensures RunSteps(steps + [next], c) == Then(RunSteps(steps, c), next)
    decreases |steps|
  {
    if |steps| == 0 {
      assert steps + [next] == [next];
      assert [next][1..] == [];
    } else {
      assert (steps + [next])[0] == steps[0];
      assert (steps + [next])[1..] == steps[1..] + [next];
      match steps[0](c)
      case Err(_) =>
      case Ok(c1) =>
        RunStepsSnoc(steps[1..], next, c1);
    }
  }

  /** Piping onto any builder that computes a fold of `steps` yields a
      builder computing the fold of `steps + [next]`. */
  lemma PipeAppends<Ctx(!new)>(b: Builder<Ctx>, steps: seq<Step<Ctx>>, next: Step<Ctx>, c: Ctx)
    requires b.composed(c) == RunSteps(steps, c)
    ensures Pipe(b, next).composed(c) == RunSteps(steps + [next], c)
  {
    RunStepsSnoc(steps, next, c);
  }

  /** The closure nesting built by `createProcedure` and repeated `pipe`
      computes exactly the left-to-right fold of the declared steps. */
  lemma {:induction false} BuildIsFold<Ctx(!new)>(steps: seq<Step<Ctx>>, c: Ctx)
    requires |steps| >= 1
    ensures Build(steps).composed(c) == RunSteps(steps, c)
    decreases |steps|
  {
    if |steps| == 1 {
      assert steps[1..] == [];
    } else {
      var init, last := steps[..|steps| - 1], steps[|steps| - 1];
      assert Build(steps) == Pipe(Build(init), last);
      BuildIsFold(init, c);
      PipeAppends(Build(init), init, last, c);
      assert init + [last] == steps;
    }
  }

  /** Two extensions of one base chain are independent: each computes its
      own declared steps, and the base chain still computes the base steps. */
  lemma PipeBranches<Ctx(!new)>(base: seq<Step<Ctx>>, f: Step<Ctx>, g: Step<Ctx>, h: Step<Ctx>, c: Ctx)
    requires |base| >= 1
    ensures Build(base).composed(c) == RunSteps(base, c)
    ensures Pipe(Pipe(Build(base), f), g).composed(c) == RunSteps(base + [f, g], c)
    ensures Pipe(Build(base), h).composed(c) == RunSteps(base + [h], c)
  {
    BuildIsFold(base, c);
    var b := Build(base);
    PipeAppends(b, base, f, c);
    PipeAppends(Pipe(b, f), base + [f], g, c);
    assert base + [f] + [g] == base + [f, g];
    PipeAppends(b, base, h, c);
  }

  /** When the fold throws, the step that threw is the last one invoked and
      every step before it returned. */
  lemma {:induction false} RunStepsStopsAtFailure<Ctx>(steps: seq<Step<Ctx>>, c: Ctx)
    ensures var r := RunSteps(steps, c);
            r.result.Err? ==>
              && RunSteps(steps[..r.invoked - 1], c).result.Ok?
              && steps[r.invoked - 1](RunSteps(steps[..r.invoked - 1], c).result.value) == Err(r.result.error)
    decreases |steps|
  {
    if |steps| > 0 {
      match steps[0](c)
      case Err(_) =>
        assert steps[..0] == [];
      case Ok(c1) =>
        var rest := RunSteps(steps[1..], c1);
        RunStepsStopsAtFailure(steps[1..], c1);
        if rest.result.Err? {
          var k := rest.invoked - 1;
          assert steps[..k + 1][0] == steps[0];
          assert steps[..k + 1][1..] == steps[1..][..k];
        }
    }
  }

  // ---------------------------------------------------------------------
  // Sealing a chain into an action

  datatype ActionBuilder<!Ctx> = ActionBuilder(procedure: Builder<Ctx>)

  datatype InputBuilder<!Ctx, !I, V> = InputBuilder(procedure: Builder<Ctx>, parse: I -> Result<V, Error>)

  /** A sealed action: the chain, the input schema's `parse` and the
      business function. */
  datatype Action<!Ctx, !I, !V, O> =
    Action(procedure: Builder<Ctx>, parse: I -> Result<V, Error>, handler: (V, Ctx) -> Result<O, Error>)

  /** `builder.createAction()`: the chain so far is carried over as is. */
  function CreateAction<Ctx(!new)>(b: Builder<Ctx>): (a: ActionBuilder<Ctx>)
    ensures forall c :: a.procedure.composed(c) == b.composed(c)
  {
    ActionBuilder(b)
  }

  /** `.input(schema)`: attaches the parser and keeps the chain. */
  function Input<Ctx(!new), I(!new), V(!new)>(a: ActionBuilder<Ctx>, parse: I -> Result<V, Error>): (i: InputBuilder<Ctx, I, V>)
    ensures forall c :: i.procedure.composed(c) == a.procedure.composed(c)
    ensures forall x :: i.parse(x) == parse(x)
  {
    InputBuilder(a.procedure, parse)
  }

  /** `.handler(fn)`: the sealed action runs the chain the builder holds,
      validates with the parser it holds, and only then calls `fn`. */
  function Handler<Ctx(!new), I(!new), V(!new), O>(i: InputBuilder<Ctx, I, V>, handler: (V, Ctx) -> Result<O, Error>): (a: Action<Ctx, I, V, O>)
    ensures forall input, c0 :: Invoke(a, input, c0).stepsInvoked == i.procedure.composed(c0).invoked
    ensures forall input, c0 :: Invoke(a, input, c0).parsed <==> i.procedure.composed(c0).result.Ok?
    ensures forall input, c0 :: Invoke(a, input, c0).handled <==>
              i.procedure.composed(c0).result.Ok? && i.parse(input).Ok?
    ensures forall input, c0 :: i.procedure.composed(c0).result.Err? ==>
              Invoke(a, input, c0).outcome == MiddlewareErr(i.procedure.composed(c0).result.error)
    ensures forall input, c0 :: i.procedure.composed(c0).result.Ok? && i.parse(input).Err? ==>
              Invoke(a, input, c0).outcome == ValidationErr(i.parse(input).error)
    ensures forall input, c0 :: i.procedure.composed(c0).result.Ok? && i.parse(input).Ok? ==>
              Invoke(a, input, c0).outcome ==
                FromHandler(handler(i.parse(input).value, i.procedure.composed(c0).result.value))
  {
    Action(i.procedure, i.parse, handler)
  }

  /** `createProcedure(steps[0]).pipe(...)...createAction().input(parse).handler(handler)`:
      the sealed chain computes the left-to-right fold of the declared steps. */
  function Seal<Ctx(!new), I(!new), V(!new), O>(steps: seq<Step<Ctx>>, parse: I -> Result<V, Error>, handler: (V, Ctx) -> Result<O, Error>): (a: Action<Ctx, I, V, O>)
    requires |steps| >= 1
    ensures forall c :: a.procedure.composed(c) == RunSteps(steps, c)
    ensures forall x :: a.parse(x) == parse(x)
    ensures forall v, c :: a.handler(v, c) == handler(v, c)
  {
    BuildIsFoldAll(steps);
    Handler(Input(CreateAction(Build(steps)), parse), handler)
  }

  lemma BuildIsFoldAll<Ctx(!new)>(steps: seq<Step<Ctx>>)
    requires |steps| >= 1
    ensures forall c :: Build(steps).composed(c) == RunSteps(steps, c)
  {
    forall c {
      BuildIsFold(steps, c);
    }
  }

  /** How an invocation ended. The source rejects with whatever was thrown;
      the model also records where it was thrown. */
  datatype Outcome<O> =
    | Returned(value: O)
    | MiddlewareErr(error: Error)
    | ValidationErr(error: Error)
    | HandlerErr(error: Error)

  /** The outcome of an invocation together with what it invoked: how many
      middleware functions, whether `parse` ran, whether the business
      function ran. */
  datatype Report<O> = Report(outcome: Outcome<O>, stepsInvoked: nat, parsed: bool, handled: bool)

  /** The business function's own result, as the action passes it on. */
  function FromHandler<O>(r: Result<O, Error>): Outcome<O>
  {
    match r
    case Ok(o) => Returned(o)
    case Err(e) => HandlerErr(e)
  }

  /** Calling a sealed action with `{input, ctx}`. */
  function Invoke<Ctx, I, V, O>(a: Action<Ctx, I, V, O>, input: I, c0: Ctx): (r: Report<O>)
    ensures r.handled ==> r.parsed
    ensures r.outcome.MiddlewareErr? <==> !r.parsed
    ensures r.outcome.ValidationErr? <==> r.parsed && !r.handled
  {
    var run := a.procedure.composed(c0);
    match run.result
    case Err(e) => Report(MiddlewareErr(e), run.invoked, false, false)
    case Ok(ctx) =>
      match a.parse(input)
      case Err(e) => Report(ValidationErr(e), run.invoked, true, false)
      case Ok(v) => Report(FromHandler(a.handler(v, ctx)), run.invoked, true, true)
  }

  /** Every middleware step runs before the input is validated, and
      validation happens exactly when the whole chain returned. */
  lemma MiddlewareRunsBeforeValidation<Ctx(!new), I(!new), V(!new), O>(
    steps: seq<Step<Ctx>>, parse: I -> Result<V, Error>, handler: (V, Ctx) -> Result<O, Error>, input: I, c0: Ctx)
    requires |steps| >= 1
    ensures var r := Invoke(Seal(steps, parse, handler), input, c0);
            && r.stepsInvoked == RunSteps(steps, c0).invoked
            && (r.parsed <==> RunSteps(steps, c0).result.Ok?)
            && (r.parsed ==> r.stepsInvoked == |steps|)
  {
    BuildIsFold(steps, c0);
  }

  /** Invalid input never reaches the business function: the action fails
      with a validation error after the whole chain has run. */
  lemma ValidationErrorSkipsHandler<Ctx(!new), I(!new), V(!new), O>(
    steps: seq<Step<Ctx>>, parse: I -> Result<V, Error>, handler: (V, Ctx) -> Result<O, Error>, input: I, c0: Ctx)
    requires |steps| >= 1
    requires RunSteps(steps, c0).result.Ok?
    requires parse(input).Err?
    ensures var r := Invoke(Seal(steps, parse, handler), input, c0);
            && r.outcome == ValidationErr(parse(input).error)
            && !r.handled
            && r.stepsInvoked == |steps|
  {
    BuildIsFold(steps, c0);
  }

  /** A throwing middleware step ends the invocation: later steps, `parse`
      and the business function do not run, and the step that threw is the
      last one invoked, after every earlier step returned. */
  lemma MiddlewareErrorShortCircuits<Ctx(!new), I(!new), V(!new), O>(
    steps: seq<Step<Ctx>>, parse: I -> Result<V, Error>, handler: (V, Ctx) -> Result<O, Error>, input: I, c0: Ctx)
    requires |steps| >= 1
    requires RunSteps(steps, c0).result.Err?
    ensures var r := Invoke(Seal(steps, parse, handler), input, c0);
            var k := r.stepsInvoked - 1;
            && r.outcome == MiddlewareErr(RunSteps(steps, c0).result.error)
            && !r.parsed && !r.handled
            && 1 <= r.stepsInvoked <= |steps|
            && RunSteps(steps[..k], c0).result.Ok?
            && steps[k](RunSteps(steps[..k], c0).result.value) == Err(r.outcome.error)
  {
    BuildIsFold(steps, c0);
    RunStepsStopsAtFailure(steps, c0);
  }

  /** On valid input the business function receives exactly the parsed
      input and the chain's final context, and its result is the action's. */
  lemma HandlerReceivesParsedInputAndContext<Ctx(!new), I(!new), V(!new), O>(
    steps: seq<Step<Ctx>>, parse: I -> Result<V, Error>, handler: (V, Ctx) -> Result<O, Error>, input: I, c0: Ctx)
    requires |steps| >= 1
    requires RunSteps(steps, c0).result.Ok?
    requires parse(input).Ok?
    ensures var r := Invoke(Seal(steps, parse, handler), input, c0);
            var v := parse(input).value;
            var ctx := RunSteps(steps, c0).result.value;
            && r.handled
            && (handler(v, ctx).Ok? ==> r.outcome == Returned(handler(v, ctx).value))
            && (handler(v, ctx).Err? ==> r.outcome == HandlerErr(handler(v, ctx).error))
  {
    BuildIsFold(steps, c0);
  }

  // ---------------------------------------------------------------------
  // The default `createAction()`

  /** The pass-through middleware `ctx => ctx || {}`: it never throws,
      always yields a truthy context, keeps a truthy one and replaces a
      falsy one by `{}`. */
  function DefaultStep(c: Js.Value): (r: Result<Js.Value, Error>)
    ensures r.Ok? && Js.Truthy(r.value)
    ensures Js.Truthy(c) ==> r.value == c
    ensures !Js.Truthy(c) ==> r.value == Js.EmptyObject
  {
    Ok(if Js.Truthy(c) then c else Js.EmptyObject)
  }

  /** `createAction()` without a preceding procedure: a chain of the one
      default step, which invokes one middleware and never throws. */
  function DefaultCreateAction(): (a: ActionBuilder<Js.Value>)
    ensures forall c :: a.procedure.composed(c) == RunSteps([DefaultStep], c)
    ensures forall c :: a.procedure.composed(c).invoked == 1 && a.procedure.composed(c).result.Ok?
  {
    SingleStepFold(DefaultStep);
    CreateAction(CreateProcedure(DefaultStep))
  }

  /** An action from the default `createAction()` runs one middleware that
      never throws, and its business function sees the initial context when
      that is truthy and `{}` when it is absent or falsy. */
  lemma DefaultActionContext<I(!new), V(!new), O>(
    parse: I -> Result<V, Error>, handler: (V, Js.Value) -> Result<O, Error>, input: I, c0: Js.Value)
    ensures var r := Invoke(Handler(Input(DefaultCreateAction(), parse), handler), input, c0);
            var ctx := if Js.Truthy(c0) then c0 else Js.EmptyObject;
            && r.stepsInvoked == 1 && r.parsed
            && (parse(input).Err? ==> r.outcome == ValidationErr(parse(input).error))
            && (parse(input).Ok? ==> r.outcome == FromHandler(handler(parse(input).value, ctx)))
  {
    var b := CreateProcedure(DefaultStep);
    assert b.composed(c0) == Run(DefaultStep(c0), 1);
  }
}
