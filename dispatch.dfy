/**
 * One iteration of run() after the frame is drawn and the line is read: fire
 * the fallback, or the first option whose pattern equals the line, or nothing,
 * then update the run flag. Any exception escapes the whole loop, because the
 * try statement encloses the while statement.
 */
module Dispatch {
  import opened JavaRuntime
  import opened Options
  import opened TypedRead

  /**
   * What invoking a handler did: it returned (carrying the boolean it returned,
   * which matters only when its declared return type is `boolean`), or it threw.
   */
  datatype Outcome = Returned(value: bool) | Raised

  /** The type name getReturnType().getTypeName() gives for a primitive boolean result. */
  const BooleanType := "boolean"

  /**
   * Method.invoke(this) with an empty argument array: a handler that declares
   * parameters throws IllegalArgumentException without running; otherwise it
   * behaves as `behaviour` says.
   */
  function Invoke(handler: Method, behaviour: Method -> Outcome): (r: Outcome)
    ensures r.Raised? <==> |handler.parameterTypes| > 0 || behaviour(handler).Raised?
    ensures r.Returned? ==> r == behaviour(handler)
  {
    if |handler.parameterTypes| > 0 then Raised else behaviour(handler)
  }

  /** The index of the first option whose pattern equals `pattern`, or null. */
  function FirstMatch(options: seq<Option>, pattern: string): (k: Nullable<nat>)
    ensures k.NonNull? ==> k.value < |options| && options[k.value].GetPattern() == pattern
    ensures k.NonNull? ==> forall j :: 0 <= j < k.value ==> options[j].GetPattern() != pattern
    ensures k.Null? ==> forall j :: 0 <= j < |options| ==> options[j].GetPattern() != pattern
  {
    if options == [] then Null
    else if options[0].GetPattern() == pattern then NonNull(0)
    else
      match FirstMatch(options[1..], pattern)
      case Null => Null
      case NonNull(k) => NonNull(k + 1)
  }

  /** Which handler one iteration fires. */
  datatype Selection = FallbackFires(handler: Method) | OptionFires(index: nat) | NothingFires

  /**
   * The selection rule of run(): a non-null line goes to the fallback whenever one
   * is registered, before any pattern is compared; otherwise the first option whose
   * pattern equals the line fires; a null line fires nothing.
   */
  function Select(options: seq<Option>, onUnknownInput: Nullable<Method>, input: Nullable<string>): (s: Selection)
    ensures s.FallbackFires? <==> input.NonNull? && onUnknownInput.NonNull?
    ensures s.FallbackFires? ==> s.handler == onUnknownInput.value
    ensures s.OptionFires? ==>
              && s.index < |options|
              && input == NonNull(options[s.index].GetPattern())
              && onUnknownInput.Null?
              && forall j :: 0 <= j < s.index ==> options[j].GetPattern() != input.value
    ensures s.NothingFires? <==>
              input.Null? || (onUnknownInput.Null? && forall j :: 0 <= j < |options| ==> options[j].GetPattern() != input.value)
  {
    if input.NonNull? && onUnknownInput.NonNull? then FallbackFires(onUnknownInput.value)
    else if input.Null? then NothingFires
    else
      match FirstMatch(options, input.value)
      case Null => NothingFires
      case NonNull(k) => OptionFires(k)
  }

  /** Where one iteration leaves the loop: running on with a flag, or ended by an exception. */
  datatype StepOutcome = Continue(run: bool) | Aborted

  /**
   * One iteration: fire the selected handler; a boolean result is negated into the
   * run flag, any other result and the fallback's leave it as it was; an exception
   * ends the loop.
   */
  function Step(options: seq<Option>, onUnknownInput: Nullable<Method>, run: bool,
                input: Nullable<string>, behaviour: Method -> Outcome): (next: StepOutcome)
    ensures next.Continue? && next.run != run ==>
              && Select(options, onUnknownInput, input).OptionFires?
              && options[Select(options, onUnknownInput, input).index].GetAction().returnType == BooleanType
    ensures Select(options, onUnknownInput, input).NothingFires? ==> next == Continue(run)
    ensures next.Aborted? <==>
              match Select(options, onUnknownInput, input)
              case FallbackFires(handler) => Invoke(handler, behaviour).Raised?
              case OptionFires(k) => Invoke(options[k].GetAction(), behaviour).Raised?
              case NothingFires => false
  {
    match Select(options, onUnknownInput, input)
    case FallbackFires(handler) =>
      if Invoke(handler, behaviour).Raised? then Aborted else Continue(run)
    case OptionFires(k) =>
      var action := options[k].GetAction();
      (match Invoke(action, behaviour)
       case Raised => Aborted
       case Returned(b) => if action.returnType == BooleanType then Continue(!b) else Continue(run))
    case NothingFires => Continue(run)
  }

  /** How a run ended after a given number of iterations, or that the input ran out first. */
  datatype RunResult =
    | Stopped(iterations: nat)       // the run flag became false; the scanner is closed
    | Crashed(iterations: nat)       // an exception left the loop; the scanner is not closed
    | StillRunning(iterations: nat)  // the modelled input ran out with the flag still true

  /**
   * What each iteration does when entered with the flag set: iteration i reads its
   * line from `inputs[i]` and dispatches it with handler behaviour `behaviours(i)`.
   * The flag is true whenever an iteration starts, so these do not depend on it.
   */
  function Iterations(options: seq<Option>, onUnknownInput: Nullable<Method>, inputs: seq<Scanner>,
                      behaviours: nat -> Method -> Outcome): (steps: seq<StepOutcome>)
    ensures |steps| == |inputs|
  {
    seq(|inputs|, i requires 0 <= i < |inputs| => Step(options, onUnknownInput, true, ReadLine(inputs[i]), behaviours(i)))
  }

  /**
   * The while loop of run() from iteration `i` on with run flag `run`, given what
   * each iteration does: test the flag, run one iteration, repeat.
   */
  function Loop(steps: seq<StepOutcome>, run: bool, i: nat): (r: RunResult)
    requires i <= |steps|
    ensures !run ==> r == Stopped(i)
    ensures run ==> i <= r.iterations <= |steps|
    ensures r.StillRunning? ==> r.iterations == |steps|
    ensures run && (r.Stopped? || r.Crashed?) ==> i < r.iterations
    decreases |steps| - i
  {
    if !run then Stopped(i)
    else if i == |steps| then StillRunning(i)
    else
      match steps[i]
      case Aborted => Crashed(i + 1)
      case Continue(next) => Loop(steps, next, i + 1)
  }

  /** run() over the given input and handler behaviour. */
  function RunSession(options: seq<Option>, onUnknownInput: Nullable<Method>, inputs: seq<Scanner>,
                      behaviours: nat -> Method -> Outcome): (r: RunResult)
    ensures r.iterations <= |inputs|
    ensures r.StillRunning? <==> r.iterations == |inputs| && !r.Stopped? && !r.Crashed?
    ensures r.Stopped? || r.Crashed? ==> 0 < r.iterations
  {
    Loop(Iterations(options, onUnknownInput, inputs, behaviours), true, 0)
  }

  // Properties of one iteration.

  /**
   * With a fallback registered, every non-null line fires the fallback and no option,
   * even a line equal to some option's pattern, and the run flag stays as it was.
   */
  lemma FallbackShadowsOptions(options: seq<Option>, fallback: Method, run: bool, line: string,
                               behaviour: Method -> Outcome)
    ensures Select(options, NonNull(fallback), NonNull(line)) == FallbackFires(fallback)
    ensures Step(options, NonNull(fallback), run, NonNull(line), behaviour)
         == if Invoke(fallback, behaviour).Raised? then Aborted else Continue(run)
  {
  }

  /** A null line (the scanner failed) fires nothing and changes nothing. */
  lemma NullLineDoesNothing(options: seq<Option>, onUnknownInput: Nullable<Method>, run: bool,
                            behaviour: Method -> Outcome)
    ensures Step(options, onUnknownInput, run, Null, behaviour) == Continue(run)
  {
  }

  /** A boolean option that returns b sets the run flag to !b. */
  lemma BooleanResultIsNegated(options: seq<Option>, run: bool, k: nat, behaviour: Method -> Outcome, b: bool)
    requires k < |options|
    requires forall j :: 0 <= j < k ==> options[j].GetPattern() != options[k].GetPattern()
    requires options[k].GetAction().returnType == BooleanType
    requires |options[k].GetAction().parameterTypes| == 0
    requires behaviour(options[k].GetAction()) == Returned(b)
    ensures Step(options, Null, run, NonNull(options[k].GetPattern()), behaviour) == Continue(!b)
  {
  }

  /** An option of any other return type leaves the run flag unchanged when it returns. */
  lemma OtherResultKeepsFlag(options: seq<Option>, run: bool, k: nat, behaviour: Method -> Outcome)
    requires k < |options|
    requires forall j :: 0 <= j < k ==> options[j].GetPattern() != options[k].GetPattern()
    requires options[k].GetAction().returnType != BooleanType
    requires Invoke(options[k].GetAction(), behaviour).Returned?
    ensures Step(options, Null, run, NonNull(options[k].GetPattern()), behaviour) == Continue(run)
  {
  }

  /** Since run passes no arguments, selecting a handler that declares parameters ends the loop. */
  lemma HandlerWithParametersEndsLoop(options: seq<Option>, run: bool, k: nat, behaviour: Method -> Outcome)
    requires k < |options|
    requires forall j :: 0 <= j < k ==> options[j].GetPattern() != options[k].GetPattern()
    requires |options[k].GetAction().parameterTypes| > 0
    ensures Step(options, Null, run, NonNull(options[k].GetPattern()), behaviour) == Aborted
  {
  }

  // Properties of the loop.

  /**
   * The loop ends normally exactly when the flag turns false: a Stopped run took at
   * least one iteration more than it started from, its last iteration set the flag
   * to false and every earlier one left it true.
   */
  lemma {:induction false} StopsExactlyWhenFlagFalls(steps: seq<StepOutcome>, i: nat)
    requires i <= |steps|
    ensures var r := Loop(steps, true, i);
      r.Stopped? ==>
        && i < r.iterations <= |steps|
        && steps[r.iterations - 1] == Continue(false)
        && forall j :: i <= j < r.iterations - 1 ==> steps[j] == Continue(true)
    decreases |steps| - i
  {
    if i < |steps| && steps[i] == Continue(true) {
      StopsExactlyWhenFlagFalls(steps, i + 1);
    }
  }

  /** An exception ends the loop in the iteration that raised it, after flag-keeping iterations only. */
  lemma {:induction false} CrashesAtFirstException(steps: seq<StepOutcome>, i: nat)
    requires i <= |steps|
    ensures var r := Loop(steps, true, i);
      r.Crashed? ==>
        && i < r.iterations <= |steps|
        && steps[r.iterations - 1] == Aborted
        && forall j :: i <= j < r.iterations - 1 ==> steps[j] == Continue(true)
    decreases |steps| - i
  {
    if i < |steps| && steps[i] == Continue(true) {
      CrashesAtFirstException(steps, i + 1);
    }
  }

  /** Conversely, the first iteration that turns the flag false ends the loop, normally, right after it. */
  lemma {:induction false} FlagFallingStops(steps: seq<StepOutcome>, i: nat, n: nat)
    requires i < n <= |steps|
    requires steps[n - 1] == Continue(false)
    requires forall j :: i <= j < n - 1 ==> steps[j] == Continue(true)
    ensures Loop(steps, true, i) == Stopped(n)
    decreases n - i
  {
    if i < n - 1 {
      FlagFallingStops(steps, i + 1, n);
    }
  }

  /** Conversely, the first iteration that throws ends the loop right there, without closing the scanner. */
  lemma {:induction false} ExceptionCrashes(steps: seq<StepOutcome>, i: nat, n: nat)
    requires i < n <= |steps|
    requires steps[n - 1] == Aborted
    requires forall j :: i <= j < n - 1 ==> steps[j] == Continue(true)
    ensures Loop(steps, true, i) == Crashed(n)
    decreases n - i
  {
    if i < n - 1 {
      ExceptionCrashes(steps, i + 1, n);
    }
  }

  /** Iterations that all keep the flag true never end the loop. */
  lemma {:induction false} KeepsRunning(steps: seq<StepOutcome>, i: nat)
    requires i <= |steps|
    requires forall j :: i <= j < |steps| ==> steps[j] == Continue(true)
    ensures Loop(steps, true, i) == StillRunning(|steps|)
    decreases |steps| - i
  {
    if i < |steps| {
      KeepsRunning(steps, i + 1);
    }
  }

  /**
   * With a fallback registered, a session in which every line is read and the fallback
   * never throws cannot stop: no option, not even a quitting one, is ever reached.
   */
  lemma FallbackSessionNeverStops(options: seq<Option>, fallback: Method,
                                  inputs: seq<Scanner>, behaviours: nat -> Method -> Outcome)
    requires forall j :: 0 <= j < |inputs| ==> inputs[j].nextLine.Scanned?
    requires forall j :: 0 <= j < |inputs| ==> Invoke(fallback, behaviours(j)).Returned?
    ensures RunSession(options, NonNull(fallback), inputs, behaviours) == StillRunning(|inputs|)
  {
    KeepsRunning(Iterations(options, NonNull(fallback), inputs, behaviours), 0);
  }

  /**
   * When every scanner call throws, every read is null, so the loop neither stops
   * nor crashes: it spins, drawing the frame again and again.
   */
  lemma EndOfInputSpins(options: seq<Option>, onUnknownInput: Nullable<Method>,
                        inputs: seq<Scanner>, behaviours: nat -> Method -> Outcome)
    requires forall j :: 0 <= j < |inputs| ==> inputs[j] == Exhausted
    ensures RunSession(options, onUnknownInput, inputs, behaviours) == StillRunning(|inputs|)
  {
    var steps := Iterations(options, onUnknownInput, inputs, behaviours);
    forall j | 0 <= j < |inputs| ensures steps[j] == Continue(true) {
      assert ReadLine(inputs[j]) == Null;
      assert steps[j] == Step(options, onUnknownInput, true, Null, behaviours(j));
      NullLineDoesNothing(options, onUnknownInput, true, behaviours(j));
    }
    KeepsRunning(steps, 0);
  }
}
