/**
 * The AssmusMenu engine object: its title, the option list it owns and mutates,
 * the fallback handler, and whether its scanner has been closed.
 */
module Menu {
  import opened JavaRuntime
  import opened Options
  import opened Discovery
  import opened Rendering
  import opened TypedRead
  import opened Dispatch

  /** java.lang.IndexOutOfBoundsException for a list position. */
  datatype IndexOutOfBoundsException = IndexOutOfBoundsException(index: int, size: nat)

  /** ArrayList.indexOf: the first position whose element `o` equals, or -1. */
  function IndexOf(options: seq<Option>, o: Option): (k: int)
    ensures -1 <= k < |options|
    ensures k >= 0 ==> o.Equals(OptionRef(options[k]))
    ensures k >= 0 ==> forall j :: 0 <= j < k ==> !o.Equals(OptionRef(options[j]))
    ensures k == -1 ==> forall j :: 0 <= j < |options| ==> !o.Equals(OptionRef(options[j]))
  {
    if options == [] then -1
    else if o.Equals(OptionRef(options[0])) then 0
    else
      var k := IndexOf(options[1..], o);
      if k == -1 then -1 else k + 1
  }

  /** Because equals is value equality, indexOf finds `o` exactly when it is in the list. */
  lemma IndexOfFindsValue(options: seq<Option>, o: Option)
    ensures IndexOf(options, o) >= 0 <==> o in options
    ensures IndexOf(options, o) >= 0 ==> options[IndexOf(options, o)] == o
  {
    var k := IndexOf(options, o);
    if k >= 0 {
      EqualsIsValueEquality(o, options[k]);
    } else {
      forall j | 0 <= j < |options| ensures options[j] != o {
        EqualsIsValueEquality(o, options[j]);
      }
    }
  }

  /** Cutting out position k removes one copy of the element there and keeps the rest. */
  lemma CutOneOccurrence(s: seq<Option>, k: nat)
    requires k < |s|
    ensures multiset(s[..k] + s[k + 1..]) == multiset(s) - multiset{s[k]}
  {
    assert s == s[..k] + [s[k]] + s[k + 1..];
  }

  class AssmusMenu {
    const title: string
    var options: seq<Option>
    const onUnknownInput: Nullable<Method>
    /** Whether poggyScanner.close() has run. */
    var scannerClosed: bool

    /** The field assignments of the constructor, once discovery has succeeded. */
    constructor (title: string, registry: Registry)
      ensures this.title == title
      ensures options == registry.options && onUnknownInput == registry.onUnknownInput
      ensures !scannerClosed
    {
      this.title := title;
      options := registry.options;
      onUnknownInput := registry.onUnknownInput;
      scannerClosed := false;
    }

    /**
     * new AssmusMenu(title), with the subclass's declared methods given explicitly:
     * throws AlreadyBoundException exactly when two or more @OnUnknownInput tags
     * exist; otherwise holds one option per @MenuOption tag, in iteration order,
     * and the single tagged fallback, or null when there is none.
     */
    static method Create(title: string, methods: seq<DeclaredMethod>) returns (r: Result<AssmusMenu, AlreadyBoundException>)
      ensures r.Err? <==> FallbackCount(methods) >= 2
      ensures r.Err? ==> r.error == DuplicateFallback
      ensures r.Ok? ==> fresh(r.value) && r.value.title == title && !r.value.scannerClosed
      ensures r.Ok? ==> r.value.options == TaggedOptions(methods) && r.value.Size() == MenuOptionCount(methods)
      ensures r.Ok? ==> (r.value.onUnknownInput.Null? <==> FallbackCount(methods) == 0)
      ensures r.Ok? ==> forall i :: 0 <= i < |methods| && OnUnknownInput in methods[i].annotations ==>
                          r.value.onUnknownInput == NonNull(methods[i].decl)
    {
      var discovered := DiscoverDeclared(methods);
      DiscoverSpec(methods);
      TaggedOptionsCount(methods);
      match discovered
      case Err(e) =>
        r := Err(e);
      case Ok(registry) =>
        var menu := new AssmusMenu(title, registry);
        r := Ok(menu);
    }

    /** size() */
    function Size(): nat
      reads this
    {
      |options|
    }

    /** get(index): the option at that position, or IndexOutOfBoundsException. */
    function Get(index: int): (r: Result<Option, IndexOutOfBoundsException>)
      reads this
      ensures r.Ok? <==> 0 <= index < Size()
      ensures r.Ok? ==> r.value == options[index]
    {
      if 0 <= index < |options| then Ok(options[index]) else Err(IndexOutOfBoundsException(index, |options|))
    }

    /** add(option): appends; the new option is found at the old size. */
    method Add(option: Option)
      modifies this`options
      ensures options == old(options) + [option]
      ensures Size() == old(Size()) + 1 && Get(old(Size())) == Ok(option)
    {
      options := options + [option];
    }

    /**
     * remove(Option): removes the first element equal to `option` and reports whether
     * there was one; the list keeps every other element, in order.
     */
    method RemoveOption(option: Option) returns (removed: bool)
      modifies this`options
      ensures removed <==> option in old(options)
      ensures removed ==> var k := IndexOf(old(options), option);
                          options == old(options)[..k] + old(options)[k + 1..]
      ensures removed ==> multiset(options) == multiset(old(options)) - multiset{option}
      ensures !removed ==> options == old(options)
    {
      var k := IndexOf(options, option);
      IndexOfFindsValue(options, option);
      removed := k >= 0;
      if removed {
        CutOneOccurrence(options, k);
        options := options[..k] + options[k + 1..];
      }
    }

    /** remove(int): removes and returns the option at that position, or throws and changes nothing. */
    method RemoveAt(index: int) returns (r: Result<Option, IndexOutOfBoundsException>)
      modifies this`options
      ensures r == old(Get(index))
      ensures r.Ok? ==> options == old(options)[..index] + old(options)[index + 1..] && Size() == old(Size()) - 1
      ensures r.Err? ==> options == old(options)
    {
      r := Get(index);
      if r.Ok? {
        options := options[..index] + options[index + 1..];
      }
    }

    /**
     * The body of run()'s while loop after the line is read: the fallback fires for
     * any non-null line; otherwise the loop over the options fires the first whose
     * pattern equals the line, then sets `pattern` to null so no later one matches.
     */
    method Dispatch(run: bool, input: Nullable<string>, behaviour: Method -> Outcome) returns (next: StepOutcome)
      ensures next == Step(options, onUnknownInput, run, input, behaviour)
    {
      next := Continue(run);
      var pattern := input;
      if pattern.NonNull? && onUnknownInput.NonNull? {
        if Invoke(onUnknownInput.value, behaviour).Raised? {
          next := Aborted;
        }
      } else {
        for i := 0 to |options|
          invariant pattern.NonNull? ==> pattern == input && onUnknownInput.Null? && next == Continue(run)
          invariant pattern.NonNull? ==> forall j :: 0 <= j < i ==> options[j].GetPattern() != pattern.value
          invariant pattern.Null? ==> next == Step(options, onUnknownInput, run, input, behaviour)
        {
          if pattern.NonNull? && options[i].GetPattern() == pattern.value {
            pattern := Null;
            var action := options[i].GetAction();
            var outcome := Invoke(action, behaviour);
            if outcome.Raised? {
              return Aborted;
            }
            if action.returnType == BooleanType {
              next := Continue(!outcome.value);
            }
          }
        }
      }
    }

    /**
     * run(): draw the frame, read a line, dispatch, while the flag holds. One
     * iteration per scanner snapshot in `inputs`; `behaviours(i)` says what the
     * handlers do in iteration i. The scanner is closed only when the flag turns
     * false; an exception leaves the loop without closing it.
     */
    method Run(inputs: seq<Scanner>, behaviours: nat -> Method -> Outcome) returns (r: RunResult)
      modifies this`scannerClosed
      ensures r == RunSession(options, onUnknownInput, inputs, behaviours)
      ensures scannerClosed == (old(scannerClosed) || r.Stopped?)
    {
      ghost var steps := Iterations(options, onUnknownInput, inputs, behaviours);
      var run := true;
      var i := 0;
      while run && i < |inputs|
        invariant 0 <= i <= |inputs|
        invariant Loop(steps, run, i) == Loop(steps, true, 0)
        invariant scannerClosed == old(scannerClosed)
      {
        // render() prints Render(title, options); the output itself is not modelled.
        var pattern := ReadLine(inputs[i]);
        var next := Dispatch(run, pattern, behaviours(i));
        assert next == steps[i];
        if next.Aborted? {
          return Crashed(i + 1);
        }
        run := next.run;
        i := i + 1;
      }
      if !run {
        scannerClosed := true;
        r := Stopped(i);
      } else {
        r := StillRunning(i);
      }
    }
  }

  // The example menu: a void Info option on "i" and a boolean Quit option on "q".

  const InfoHandler := Method("App", "info", "void", [])
  const QuitHandler := Method("App", "quit", BooleanType, [])
  const ExampleMethods := [DeclaredMethod(InfoHandler, [MenuOption("Info", "i")]),
                           DeclaredMethod(QuitHandler, [MenuOption("Quit", "q")])]
  const ExampleOptions := [Option("Info", "i", InfoHandler), Option("Quit", "q", QuitHandler)]

  /** A scanner positioned before the line `line`. */
  function LineInput(line: string): Scanner
  {
    Exhausted.(nextLine := Scanned(line))
  }

  /** With reflection listing info before quit, discovery of the example gives Info then Quit and no fallback. */
  lemma ExampleDiscovery()
    ensures Discover(ExampleMethods) == Ok(Registry(ExampleOptions, Null))
  {
    DiscoverSpec(ExampleMethods);
    var info, quit := ExampleMethods[0], ExampleMethods[1];
    assert ExampleMethods[1..] == [quit] && [quit][1..] == [];
    assert info.annotations[1..] == [] && quit.annotations[1..] == [];
    assert FallbackTags(info.annotations) == 0 && FallbackTags(quit.annotations) == 0;
    assert FallbackCount([quit]) == 0;
    assert FallbackCount(ExampleMethods) == 0;
    assert OptionsFrom(info.decl, info.annotations) == [ExampleOptions[0]];
    assert OptionsFrom(quit.decl, quit.annotations) == [ExampleOptions[1]];
    assert TaggedOptions([quit]) == [ExampleOptions[1]];
    assert TaggedOptions(ExampleMethods) == ExampleOptions;
  }

  /** The example title's underline has 60 '=' characters: four times its 15 characters. */
  lemma ExampleUnderline()
    ensures |Underline("MY COOL CLI APP", UnderlineMultiplier)| == 60
  {
    var title := "MY COOL CLI APP";
    assert IsBmp(title);
    BmpUnderlineLength(title);
  }

  /** Typing "q" when Quit returns true stops the loop after exactly one iteration. */
  lemma QuitReturningTrueStops(behaviours: nat -> Method -> Outcome)
    requires behaviours(0)(QuitHandler) == Returned(true)
    ensures RunSession(ExampleOptions, Null, [LineInput("q")], behaviours) == Stopped(1)
  {
    var steps := Iterations(ExampleOptions, Null, [LineInput("q")], behaviours);
    assert ReadLine(LineInput("q")) == NonNull("q");
    assert FirstMatch(ExampleOptions, "q") == NonNull(1);
    assert steps[0] == Continue(false);
    assert Loop(steps, false, 1) == Stopped(1);
  }

  /**
   * A Quit handler that returns false, as the class's documentation example does,
   * does not stop the loop: the returned value is negated into the run flag.
   */
  lemma QuitReturningFalseContinues(behaviours: nat -> Method -> Outcome)
    requires behaviours(0)(QuitHandler) == Returned(false)
    ensures RunSession(ExampleOptions, Null, [LineInput("q")], behaviours) == StillRunning(1)
  {
    var steps := Iterations(ExampleOptions, Null, [LineInput("q")], behaviours);
    assert ReadLine(LineInput("q")) == NonNull("q");
    assert FirstMatch(ExampleOptions, "q") == NonNull(1);
    assert steps[0] == Continue(true);
    assert Loop(steps, true, 1) == StillRunning(1);
  }
}
