/**
 * The menu entry value: a display name, the exact text that selects it, and
 * the handler method it fires. Its three fields are set once at construction
 * and never reassigned, so it is a datatype here.
 */
module Options {
  import opened JavaRuntime

  datatype Option = Option(name: string, pattern: string, action: Method)
  {
    function GetName(): string { name }

    function GetPattern(): string { pattern }

    function GetAction(): Method { action }

    /**
     * Option.equals: true for the same object, false for null or an object of
     * another class, otherwise the three fields compared pairwise.
     */
    predicate Equals(other: Object)
      ensures Equals(other) <==> other == OptionRef(this)
    {
      match other
      case NullRef => false
      case OtherRef(_) => false
      case OptionRef(o) =>
        GetName() == o.GetName() && GetPattern() == o.GetPattern() && GetAction() == o.GetAction()
    }

    /** Option.hashCode: Objects.hash(name, pattern, action). */
    function HashCode(): bv32
    {
      ObjectsHash([StringHash(GetName()), StringHash(GetPattern()), MethodHash(GetAction())])
    }
  }

  /** The argument of equals: null, an Option, or an instance of some other class. */
  datatype Object = NullRef | OptionRef(option: Option) | OtherRef(className: string)

  /** The getters hand back exactly the constructor's arguments. */
  lemma GettersReturnConstructorArguments(name: string, pattern: string, action: Method)
    ensures Option(name, pattern, action).GetName() == name
    ensures Option(name, pattern, action).GetPattern() == pattern
    ensures Option(name, pattern, action).GetAction() == action
  {
  }

  /** equals holds exactly when the two options are the same value. */
  lemma EqualsIsValueEquality(a: Option, b: Option)
    ensures a.Equals(OptionRef(b)) <==> a == b
  {
  }

  lemma EqualsReflexive(a: Option)
    ensures a.Equals(OptionRef(a))
  {
  }

  lemma EqualsSymmetric(a: Option, b: Option)
    ensures a.Equals(OptionRef(b)) <==> b.Equals(OptionRef(a))
  {
  }

  lemma EqualsRejectsNullAndOtherClasses(a: Option, className: string)
    ensures !a.Equals(NullRef)
    ensures !a.Equals(OtherRef(className))
  {
  }

  /** Equal options have equal hash codes, as the equals/hashCode contract requires. */
  lemma EqualOptionsHashAlike(a: Option, b: Option)
    requires a.Equals(OptionRef(b))
    ensures a.HashCode() == b.HashCode()
  {
  }
}
