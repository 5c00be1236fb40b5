/**
 * Handler discovery, done once by the AssmusMenu constructor: every
 * @MenuOption annotation of every declared method becomes an Option, in
 * iteration order, and at most one method may carry @OnUnknownInput; a second
 * one throws AlreadyBoundException.
 */
module Discovery {
  import opened JavaRuntime
  import opened Options

  /** What construction finds: the ordered option list and the optional fallback handler. */
  datatype Registry = Registry(options: seq<Option>, onUnknownInput: Nullable<Method>)

  /** java.rmi.AlreadyBoundException with its message. */
  datatype AlreadyBoundException = AlreadyBoundException(message: string)

  const DuplicateFallback := AlreadyBoundException("Only one method with @OnUnknownInput annotation is possible.")

  type Discovered = Result<Registry, AlreadyBoundException>

  // The constructor's loops, as a left fold over methods and then over annotations.

  /** The inner loop's body: the effect of one annotation of `handler` on the registry so far. */
  function Visit(r: Registry, handler: Method, a: Annotation): (res: Discovered)
    ensures res.Err? <==> a == OnUnknownInput && r.onUnknownInput.NonNull?
    ensures res.Err? ==> res == Err(DuplicateFallback)
    ensures res.Ok? ==> res.value.options == r.options + (if a.MenuOption? then [Option(a.name, a.pattern, handler)] else [])
    ensures res.Ok? && r.onUnknownInput.NonNull? ==> res.value.onUnknownInput == r.onUnknownInput
  {
    match a
    case MenuOption(name, pattern) => Ok(r.(options := r.options + [Option(name, pattern, handler)]))
    case OnUnknownInput =>
      if r.onUnknownInput == Null then Ok(r.(onUnknownInput := NonNull(handler))) else Err(DuplicateFallback)
    case OtherAnnotation(_) => Ok(r)
  }

  /** The inner loop: the annotations of one method, in order, stopping at the first exception. */
  function VisitAll(acc: Discovered, handler: Method, annotations: seq<Annotation>): (res: Discovered)
    ensures acc.Err? ==> res == acc
    ensures acc.Ok? && res.Err? ==> res == Err(DuplicateFallback)
    ensures res.Ok? ==> acc.Ok? && acc.value.options <= res.value.options
    ensures res.Ok? && acc.value.onUnknownInput.NonNull? ==> res.value.onUnknownInput == acc.value.onUnknownInput
    decreases |annotations|
  {
    if annotations == [] then acc
    else
      match VisitAll(acc, handler, annotations[..|annotations| - 1])
      case Err(e) => Err(e)
      case Ok(r) => Visit(r, handler, annotations[|annotations| - 1])
  }

  /** The outer loop: the declared methods, in the order reflection lists them. */
  function Discover(methods: seq<DeclaredMethod>): (res: Discovered)
    ensures res.Err? ==> res == Err(DuplicateFallback)
    ensures res.Ok? && |methods| > 0 ==>
              Discover(methods[..|methods| - 1]).Ok? && Discover(methods[..|methods| - 1]).value.options <= res.value.options
  {
    if methods == [] then Ok(Registry([], Null))
    else
      var last := methods[|methods| - 1];
      VisitAll(Discover(methods[..|methods| - 1]), last.decl, last.annotations)
  }

  // An independent, head-first description of what discovery should produce.

  /** The options one method's annotations declare, in annotation order. */
  function OptionsFrom(handler: Method, annotations: seq<Annotation>): seq<Option>
  {
    if annotations == [] then []
    else
      (match annotations[0]
       case MenuOption(name, pattern) => [Option(name, pattern, handler)]
       case _ => [])
      + OptionsFrom(handler, annotations[1..])
  }

  /** One Option(name, pattern, method) per @MenuOption tag, method by method. */
  function TaggedOptions(methods: seq<DeclaredMethod>): seq<Option>
  {
    if methods == [] then []
    else OptionsFrom(methods[0].decl, methods[0].annotations) + TaggedOptions(methods[1..])
  }

  function MenuOptionTags(annotations: seq<Annotation>): nat
  {
    if annotations == [] then 0
    else (if annotations[0].MenuOption? then 1 else 0) + MenuOptionTags(annotations[1..])
  }

  /** The number of @MenuOption tags over all methods. */
  function MenuOptionCount(methods: seq<DeclaredMethod>): nat
  {
    if methods == [] then 0 else MenuOptionTags(methods[0].annotations) + MenuOptionCount(methods[1..])
  }

  function FallbackTags(annotations: seq<Annotation>): nat
  {
    if annotations == [] then 0
    else (if annotations[0] == OnUnknownInput then 1 else 0) + FallbackTags(annotations[1..])
  }

  /** The number of @OnUnknownInput tags over all methods. */
  function FallbackCount(methods: seq<DeclaredMethod>): nat
  {
    if methods == [] then 0 else FallbackTags(methods[0].annotations) + FallbackCount(methods[1..])
  }

  lemma {:induction false} FallbackTagsPositive(annotations: seq<Annotation>)
    ensures FallbackTags(annotations) > 0 <==> OnUnknownInput in annotations
  {
    if annotations != [] {
      FallbackTagsPositive(annotations[1..]);
      assert annotations == [annotations[0]] + annotations[1..];
    }
  }

  lemma {:induction false} AnnotationsSnoc(handler: Method, annotations: seq<Annotation>, a: Annotation)
    ensures OptionsFrom(handler, annotations + [a]) == OptionsFrom(handler, annotations) + OptionsFrom(handler, [a])
    ensures FallbackTags(annotations + [a]) == FallbackTags(annotations) + FallbackTags([a])
  {
    if annotations == [] {
      assert annotations + [a] == [a];
    } else {
      assert (annotations + [a])[1..] == annotations[1..] + [a];
      AnnotationsSnoc(handler, annotations[1..], a);
    }
  }

  lemma {:induction false} MethodsSnoc(methods: seq<DeclaredMethod>, d: DeclaredMethod)
    ensures TaggedOptions(methods + [d]) == TaggedOptions(methods) + OptionsFrom(d.decl, d.annotations)
    ensures FallbackCount(methods + [d]) == FallbackCount(methods) + FallbackTags(d.annotations)
  {
    if methods == [] {
      assert methods + [d] == [d];
    } else {
      assert (methods + [d])[1..] == methods[1..] + [d];
      MethodsSnoc(methods[1..], d);
    }
  }

  /** Folding one method's annotations into a registry, described without the fold. */
  lemma {:induction false} VisitAllSpec(r: Registry, handler: Method, annotations: seq<Annotation>)
    ensures var res := VisitAll(Ok(r), handler, annotations);
      var bound := if r.onUnknownInput.NonNull? then 1 else 0;
      && (res.Err? <==> bound + FallbackTags(annotations) >= 2)
      && (res.Err? ==> res == Err(DuplicateFallback))
      && (res.Ok? ==> res.value.options == r.options + OptionsFrom(handler, annotations))
      && (res.Ok? ==> res.value.onUnknownInput
                      == if FallbackTags(annotations) == 0 then r.onUnknownInput else NonNull(handler))
    decreases |annotations|
  {
    if annotations != [] {
      var init, a := annotations[..|annotations| - 1], annotations[|annotations| - 1];
      assert init + [a] == annotations;
      VisitAllSpec(r, handler, init);
      AnnotationsSnoc(handler, init, a);
    }
  }

  /**
   * What construction yields: it fails, always with the same AlreadyBoundException,
   * exactly when two or more @OnUnknownInput tags exist; otherwise the options are
   * the @MenuOption tags in iteration order and the fallback is null when no method
   * is tagged and is the tagged method otherwise.
   */
  lemma {:induction false} DiscoverSpec(methods: seq<DeclaredMethod>)
    ensures Discover(methods).Err? <==> FallbackCount(methods) >= 2
    ensures Discover(methods).Err? ==> Discover(methods) == Err(DuplicateFallback)
    ensures Discover(methods).Ok? ==> Discover(methods).value.options == TaggedOptions(methods)
    ensures Discover(methods).Ok? ==>
              (Discover(methods).value.onUnknownInput.Null? <==> FallbackCount(methods) == 0)
    ensures Discover(methods).Ok? ==>
              forall i :: 0 <= i < |methods| && OnUnknownInput in methods[i].annotations ==>
                Discover(methods).value.onUnknownInput == NonNull(methods[i].decl)
  {
    if methods != [] {
      var init, last := methods[..|methods| - 1], methods[|methods| - 1];
      assert init + [last] == methods;
      DiscoverSpec(init);
      MethodsSnoc(init, last);
      FallbackTagsPositive(last.annotations);
      match Discover(init)
      case Err(_) =>
        VisitAllOfErr(Discover(init), last.decl, last.annotations);
      case Ok(r) =>
        VisitAllSpec(r, last.decl, last.annotations);
        if Discover(methods).Ok? {
          forall i | 0 <= i < |methods| && OnUnknownInput in methods[i].annotations
            ensures Discover(methods).value.onUnknownInput == NonNull(methods[i].decl)
          {
            if i < |init| {
              assert methods[i] == init[i];
            }
          }
        }
    }
  }

  lemma {:induction false} VisitAllOfErr(acc: Discovered, handler: Method, annotations: seq<Annotation>)
    requires acc.Err?
    ensures VisitAll(acc, handler, annotations) == acc
    decreases |annotations|
  {
    if annotations != [] {
      VisitAllOfErr(acc, handler, annotations[..|annotations| - 1]);
    }
  }

  /** Once an annotation throws, the rest of that method's annotations change nothing. */
  lemma {:induction false} VisitAllStaysFailed(acc: Discovered, handler: Method, annotations: seq<Annotation>, k: nat)
    requires k <= |annotations|
    requires VisitAll(acc, handler, annotations[..k]).Err?
    ensures VisitAll(acc, handler, annotations) == VisitAll(acc, handler, annotations[..k])
    decreases |annotations|
  {
    if k < |annotations| {
      var init := annotations[..|annotations| - 1];
      assert init[..k] == annotations[..k];
      VisitAllStaysFailed(acc, handler, init, k);
    } else {
      assert annotations[..k] == annotations;
    }
  }

  /** Once a method's annotations throw, the remaining methods change nothing. */
  lemma {:induction false} DiscoverStaysFailed(methods: seq<DeclaredMethod>, k: nat)
    requires k <= |methods|
    requires Discover(methods[..k]).Err?
    ensures Discover(methods) == Discover(methods[..k])
    decreases |methods|
  {
    if k < |methods| {
      var init, last := methods[..|methods| - 1], methods[|methods| - 1];
      assert init[..k] == methods[..k];
      DiscoverStaysFailed(init, k);
      VisitAllOfErr(Discover(init), last.decl, last.annotations);
    } else {
      assert methods[..k] == methods;
    }
  }

  /** The option list has one entry per @MenuOption tag, so size() is the tag count. */
  lemma {:induction false} TaggedOptionsCount(methods: seq<DeclaredMethod>)
    ensures |TaggedOptions(methods)| == MenuOptionCount(methods)
  {
    if methods != [] {
      OptionsFromCount(methods[0].decl, methods[0].annotations);
      TaggedOptionsCount(methods[1..]);
    }
  }

  lemma {:induction false} OptionsFromCount(handler: Method, annotations: seq<Annotation>)
    ensures |OptionsFrom(handler, annotations)| == MenuOptionTags(annotations)
  {
    if annotations != [] {
      OptionsFromCount(handler, annotations[1..]);
    }
  }

  /**
   * The constructor's nested loops: walk the declared methods and, for each, its
   * annotations; append an Option for each @MenuOption, bind the first
   * @OnUnknownInput handler and throw on a second one.
   */
  method DiscoverDeclared(methods: seq<DeclaredMethod>) returns (r: Discovered)
    ensures r == Discover(methods)
  {
    var options: seq<Option> := [];
    var unknownInput: Nullable<Method> := Null;
    for i := 0 to |methods|
      invariant Discover(methods[..i]) == Ok(Registry(options, unknownInput))
    {
      var handler := methods[i].decl;
      var annotations := methods[i].annotations;
      assert methods[..i + 1][..i] == methods[..i];
      for j := 0 to |annotations|
        invariant VisitAll(Discover(methods[..i]), handler, annotations[..j]) == Ok(Registry(options, unknownInput))
      {
        assert annotations[..j + 1][..j] == annotations[..j];
        match annotations[j]
        case MenuOption(name, pattern) =>
          options := options + [Option(name, pattern, handler)];
        case OnUnknownInput =>
          if unknownInput == Null {
            unknownInput := NonNull(handler);
          } else {
            VisitAllStaysFailed(Discover(methods[..i]), handler, annotations, j + 1);
            assert annotations == methods[..i + 1][i].annotations;
            DiscoverStaysFailed(methods, i + 1);
            return Err(DuplicateFallback);
          }
        case OtherAnnotation(_) =>
      }
      assert annotations[..|annotations|] == annotations;
    }
    assert methods[..|methods|] == methods;
    r := Ok(Registry(options, unknownInput));
  }
}
