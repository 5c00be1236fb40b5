/**
 * Stand-ins for the parts of the Java platform that the menu engine leans on:
 * null references, thrown exceptions as values, fixed-width integers, what
 * reflection reports about a declared method, UTF-16 strings and the hash codes
 * of String, Method and Objects.hash.
 */
module JavaRuntime {

  /** A Java reference that may be null. */
  datatype Nullable<+T> = Null | NonNull(value: T)

  /** A value, or the exception that was thrown instead of producing it. */
  datatype Result<+T, +E> = Ok(value: T) | Err(error: E)

  newtype Int8 = x: int | -0x80 <= x < 0x80
  newtype Int16 = x: int | -0x8000 <= x < 0x8000
  newtype Int32 = x: int | -0x8000_0000 <= x < 0x8000_0000
  newtype Int64 = x: int | -0x8000_0000_0000_0000 <= x < 0x8000_0000_0000_0000

  /**
   * A declared method as reflection describes it. Equality is structural over the
   * four components java.lang.reflect.Method.equals compares: declaring class,
   * name, return type and parameter types (type names as getTypeName gives them).
   */
  datatype Method = Method(declaringClass: string, name: string, returnType: string, parameterTypes: seq<string>)

  /** An annotation present on a declared method. */
  datatype Annotation =
    | MenuOption(name: string, pattern: string)
    | OnUnknownInput
    | OtherAnnotation(typeName: string)

  /** One entry of getDeclaredMethods(), with what getAnnotations() returns for it, in order. */
  datatype DeclaredMethod = DeclaredMethod(decl: Method, annotations: seq<Annotation>)

  /** The UTF-16 code units Java stores for one character (a surrogate pair above U+FFFF). */
  function CodeUnits(c: char): (units: seq<bv16>)
    ensures 1 <= |units| <= 2
  {
    var v := c as int;
    if v < 0x1_0000 then [v as bv16]
    else [(0xD800 + (v - 0x1_0000) / 0x400) as bv16, (0xDC00 + (v - 0x1_0000) % 0x400) as bv16]
  }

  /** The UTF-16 code units of a string: what String.chars() streams over. */
  function Utf16(s: string): seq<bv16>
  {
    if s == [] then [] else CodeUnits(s[0]) + Utf16(s[1..])
  }

  /** True when every character lies in the Basic Multilingual Plane (one code unit each). */
  predicate IsBmp(s: string)
  {
    forall i :: 0 <= i < |s| ==> s[i] as int < 0x1_0000
  }

  /** For a string of BMP characters, Java's length() is the number of characters. */
  lemma {:induction false} BmpUtf16Length(s: string)
    requires IsBmp(s)
    ensures |Utf16(s)| == |s|
  {
    if s != [] {
      assert IsBmp(s[1..]) by {
        forall i | 0 <= i < |s[1..]| ensures s[1..][i] as int < 0x1_0000 {
          assert s[1..][i] == s[i + 1];
        }
      }
      BmpUtf16Length(s[1..]);
    }
  }

  /** String.hashCode: h = 31 * h + unit over the code units, in 32-bit wrap-around arithmetic. */
  function StringHash(s: string): bv32
  {
    UnitsHash(Utf16(s))
  }

  /** One step of Java's polynomial hashes: 31 * h + x, wrapping around at 2^32. */
  function Mix31(h: bv32, x: bv32): bv32
  {
    31 * h + x
  }

  function UnitsHash(units: seq<bv16>): bv32
  {
    if units == [] then 0
    else Mix31(UnitsHash(units[..|units| - 1]), units[|units| - 1] as bv32)
  }

  lemma {:induction false} Utf16Append(s: string, t: string)
    ensures Utf16(s + t) == Utf16(s) + Utf16(t)
  {
    if s != [] {
      assert (s + t)[1..] == s[1..] + t;
      Utf16Append(s[1..], t);
    } else {
      assert s + t == t;
    }
  }

  /**
   * Appending a BMP character c multiplies the hash by 31 and adds c's code:
   * String.hashCode is s[0]*31^(n-1) + ... + s[n-1] in 32-bit arithmetic.
   */
  lemma StringHashAppend(s: string, c: char)
    requires c as int < 0x1_0000
    ensures StringHash(s + [c]) == Mix31(StringHash(s), c as int as bv32)
  {
    Utf16Append(s, [c]);
    var u := c as int as bv16;
    assert CodeUnits(c) == [u];
    assert Utf16([c]) == [u] by {
      assert Utf16([c]) == CodeUnits(c) + Utf16([]);
    }
    UnitsHashAppend(Utf16(s), u);
    assert u as bv32 == c as int as bv32;
  }

  lemma UnitsHashAppend(units: seq<bv16>, u: bv16)
    ensures UnitsHash(units + [u]) == Mix31(UnitsHash(units), u as bv32)
  {
    assert (units + [u])[..|units|] == units;
  }

  /** Two known values of String.hashCode: "" hashes to 0 and "ab" to 97 * 31 + 98. */
  lemma StringHashExamples()
    ensures StringHash("") == 0
    ensures StringHash("ab") == 3105
  {
    StringHashAppend("", 'a');
    assert "" + ['a'] == "a";
    StringHashAppend("a", 'b');
    assert "a" + ['b'] == "ab";
  }

  /** Method.hashCode: the declaring class name's hash xor the method name's hash. */
  function MethodHash(m: Method): bv32
  {
    StringHash(m.declaringClass) ^ StringHash(m.name)
  }

  /** Overloads hash alike: Method.hashCode ignores the return type and the parameter types. */
  lemma MethodHashIgnoresSignature(m: Method, returnType: string, parameterTypes: seq<string>)
    ensures MethodHash(m.(returnType := returnType, parameterTypes := parameterTypes)) == MethodHash(m)
  {
  }

  /** Objects.hash of no component is 1, and of one component x is 31 + x. */
  lemma ObjectsHashExamples(x: bv32)
    ensures ObjectsHash([]) == 1
    ensures ObjectsHash([x]) == 31 + x
  {
    assert [x][..0] == [];
  }

  /** Objects.hash over already hashed, non-null components: start at 1, then 31 * h + component. */
  function ObjectsHash(hashes: seq<bv32>): bv32
  {
    if hashes == [] then 1
    else Mix31(ObjectsHash(hashes[..|hashes| - 1]), hashes[|hashes| - 1])
  }
}
