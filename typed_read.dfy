/**
 * read(type): pick the scanner call for the requested class, give back what it
 * returned, and give back null when the class is not one of the nine supported
 * ones or when the call threw (the exception is reported and swallowed).
 *
 * The scanner is not modelled: a Scanner value is a snapshot of what each of its
 * calls would return, or that it would throw, when read is entered.
 */
module TypedRead {
  import opened JavaRuntime

  /** A java.lang.Class, identified by its fully qualified name. */
  datatype ClassRef = ClassRef(name: string)

  const StringClass := ClassRef("java.lang.String")
  const IntegerClass := ClassRef("java.lang.Integer")
  const LongClass := ClassRef("java.lang.Long")
  const ShortClass := ClassRef("java.lang.Short")
  const BigIntegerClass := ClassRef("java.math.BigInteger")
  const DoubleClass := ClassRef("java.lang.Double")
  const BigDecimalClass := ClassRef("java.math.BigDecimal")
  const BooleanClass := ClassRef("java.lang.Boolean")
  const ByteClass := ClassRef("java.lang.Byte")

  /** The classes read knows a scanner call for. */
  const SupportedClasses := {StringClass, IntegerClass, LongClass, ShortClass, BigIntegerClass,
                             DoubleClass, BigDecimalClass, BooleanClass, ByteClass}

  /** A BigDecimal: unscaledValue x 10^(-scale). */
  datatype Decimal = Decimal(unscaled: int, scale: Int32)

  /** A value read returns, tagged with its class. A double is kept as its IEEE 754 bits. */
  datatype Value =
    | Text(text: string)
    | IntegerValue(i: Int32)
    | LongValue(l: Int64)
    | ShortValue(s: Int16)
    | BigIntegerValue(n: int)
    | DoubleValue(bits: bv64)
    | BigDecimalValue(d: Decimal)
    | BooleanValue(b: bool)
    | ByteValue(y: Int8)

  function ClassOf(v: Value): ClassRef
  {
    match v
    case Text(_) => StringClass
    case IntegerValue(_) => IntegerClass
    case LongValue(_) => LongClass
    case ShortValue(_) => ShortClass
    case BigIntegerValue(_) => BigIntegerClass
    case DoubleValue(_) => DoubleClass
    case BigDecimalValue(_) => BigDecimalClass
    case BooleanValue(_) => BooleanClass
    case ByteValue(_) => ByteClass
  }

  /** What one scanner call did: returned a value, or threw. */
  datatype Attempt<+T> = Scanned(value: T) | Threw

  /** What each scanner call would do at this point of the input. */
  datatype Scanner = Scanner(
    nextLine: Attempt<string>,
    nextInt: Attempt<Int32>,
    nextLong: Attempt<Int64>,
    nextShort: Attempt<Int16>,
    nextBigInteger: Attempt<int>,
    nextDouble: Attempt<bv64>,
    nextBigDecimal: Attempt<Decimal>,
    nextBoolean: Attempt<bool>,
    nextByte: Attempt<Int8>)

  /** A scanner whose every call throws, standing for input that has run out. */
  const Exhausted := Scanner(Threw, Threw, Threw, Threw, Threw, Threw, Threw, Threw, Threw)

  /** read(type) */
  function Read(kind: ClassRef, scanner: Scanner): (r: Nullable<Value>)
    ensures r.NonNull? ==> ClassOf(r.value) == kind
    ensures kind !in SupportedClasses ==> r == Null
  {
    if kind == StringClass then
      (match scanner.nextLine case Scanned(x) => NonNull(Text(x)) case Threw => Null)
    else if kind == IntegerClass then
      (match scanner.nextInt case Scanned(x) => NonNull(IntegerValue(x)) case Threw => Null)
    else if kind == LongClass then
      (match scanner.nextLong case Scanned(x) => NonNull(LongValue(x)) case Threw => Null)
    else if kind == ShortClass then
      (match scanner.nextShort case Scanned(x) => NonNull(ShortValue(x)) case Threw => Null)
    else if kind == BigIntegerClass then
      (match scanner.nextBigInteger case Scanned(x) => NonNull(BigIntegerValue(x)) case Threw => Null)
    else if kind == DoubleClass then
      (match scanner.nextDouble case Scanned(x) => NonNull(DoubleValue(x)) case Threw => Null)
    else if kind == BigDecimalClass then
      (match scanner.nextBigDecimal case Scanned(x) => NonNull(BigDecimalValue(x)) case Threw => Null)
    else if kind == BooleanClass then
      (match scanner.nextBoolean case Scanned(x) => NonNull(BooleanValue(x)) case Threw => Null)
    else if kind == ByteClass then
      (match scanner.nextByte case Scanned(x) => NonNull(ByteValue(x)) case Threw => Null)
    else Null
  }

  /** `String pattern = read(String.class)`: the line nextLine returned, or null when it threw. */
  function ReadLine(scanner: Scanner): (line: Nullable<string>)
    ensures line == (match scanner.nextLine case Scanned(s) => NonNull(s) case Threw => Null)
  {
    match Read(StringClass, scanner)
    case NonNull(Text(s)) => NonNull(s)
    case _ => Null
  }

  /** The scanner that, for the class of `v`, delivers `v`; its other calls are those of `s`. */
  function Delivering(v: Value, s: Scanner): Scanner
  {
    match v
    case Text(x) => s.(nextLine := Scanned(x))
    case IntegerValue(x) => s.(nextInt := Scanned(x))
    case LongValue(x) => s.(nextLong := Scanned(x))
    case ShortValue(x) => s.(nextShort := Scanned(x))
    case BigIntegerValue(x) => s.(nextBigInteger := Scanned(x))
    case DoubleValue(x) => s.(nextDouble := Scanned(x))
    case BigDecimalValue(x) => s.(nextBigDecimal := Scanned(x))
    case BooleanValue(x) => s.(nextBoolean := Scanned(x))
    case ByteValue(x) => s.(nextByte := Scanned(x))
  }

  /** The scanner whose call for `kind` throws; its other calls are those of `s`. */
  function Failing(kind: ClassRef, s: Scanner): Scanner
  {
    if kind == StringClass then s.(nextLine := Threw)
    else if kind == IntegerClass then s.(nextInt := Threw)
    else if kind == LongClass then s.(nextLong := Threw)
    else if kind == ShortClass then s.(nextShort := Threw)
    else if kind == BigIntegerClass then s.(nextBigInteger := Threw)
    else if kind == DoubleClass then s.(nextDouble := Threw)
    else if kind == BigDecimalClass then s.(nextBigDecimal := Threw)
    else if kind == BooleanClass then s.(nextBoolean := Threw)
    else if kind == ByteClass then s.(nextByte := Threw)
    else s
  }

  /** Every class of value read can return is a supported class. */
  lemma ValueClassesAreSupported(v: Value)
    ensures ClassOf(v) in SupportedClasses
  {
  }

  /** Whatever the scanner delivers for the requested class is what read returns. */
  lemma ReadReturnsScannedValue(v: Value, s: Scanner)
    ensures Read(ClassOf(v), Delivering(v, s)) == NonNull(v)
  {
  }

  /** A scanner call that throws makes read return null instead of propagating the exception. */
  lemma ReadSwallowsScannerFailure(kind: ClassRef, s: Scanner)
    ensures Read(kind, Failing(kind, s)) == Null
  {
  }

  /** When every scanner call throws, every read, of every class, is null. */
  lemma ReadAtEndOfInput(kind: ClassRef)
    ensures Read(kind, Exhausted) == Null
  {
  }

  /** Float is not among the supported classes, so reading a Float is always null. */
  lemma FloatIsNeverRead(s: Scanner)
    ensures Read(ClassRef("java.lang.Float"), s) == Null
  {
  }
}
