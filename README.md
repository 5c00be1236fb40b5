# Assmus-Menu in Dafny

A model of the Assmus-Menu console menu engine. A program subclasses
`AssmusMenu` and tags its handler methods:
- `@MenuOption(name, pattern)` turns a method into a menu entry.
- `@OnUnknownInput` makes a method the fallback handler.

The model covers:
- Construction. The constructor discovers the tagged methods, builds the ordered
  option list, and binds at most one fallback. A second fallback throws
  `AlreadyBoundException`.
- The option list. `size`, `add`, `get` and both `remove` overloads operate on the
  list the menu owns.
- The frame `render()` prints. This is the title, an underline from `getUnderline`,
  one line per option and the prompt.
- One iteration of `run()`. It reads a line with `read(String.class)`, selects and
  invokes a handler, and updates the run flag. The model also covers the whole
  loop over a finite stretch of input.
- `read(type)`. It dispatches on the nine supported classes and swallows scanner
  failures as `null`.
- `Option`. This covers its constructor, getters, `equals` and `hashCode`.

Modules:
- `JavaRuntime` holds the Java stand-ins. These are `null` as `Nullable` and
  exceptions as `Result`. Fixed-width integers are newtypes. A reflected `Method` is
  its declaring class, name, return type name and parameter types. A Java string
  is a Dafny `string` of Unicode scalar values; its UTF-16 code units, which
  `String.chars()` and `String.hashCode` work on, are derived from it, with a
  surrogate pair for each character above U+FFFF. `String`, `Method` and
  `Objects.hash` hash codes use 32-bit wrap-around.
- `Options` models `Option.java`.
- `Discovery` covers the constructor's two nested loops. The imperative method
  `DiscoverDeclared` is proved equal to a fold. The fold is proved equal to a
  head-first description of the result.
- `Rendering` covers `getUnderline` and `render`.
- `TypedRead` covers `read`.
- `Dispatch` covers one iteration of `run` and the loop's shape.
- `Menu` holds the class `AssmusMenu`, which owns the mutable option list and the
  scanner's closed flag.

Where the class documentation and the code disagree, the model follows the code:
- A registered `@OnUnknownInput` handler fires for every non-null line. The check
  comes before any pattern comparison, so with a fallback no option can ever be
  selected, including a quit option.
- The boolean a handler returns is negated into the run flag
  (`AssmusMenu.java:260`). A handler that returns `true` ends the loop. The doc
  comment at lines 238-239 says the flag is set to the return value. The class
  example's quit handler at lines 46-49 returns `false`, which keeps the menu
  running (`Menu.QuitReturningFalseContinues`).
- `render` calls `getUnderline(title, 2)`, which doubles the underline twice. The
  underline is therefore four `=` per UTF-16 code unit of the title, not two.
- The comment at lines 235-236 says the run flag or a reader is passed to the
  handler. In the code, handlers are invoked with an empty argument array. A
  handler that declares parameters therefore throws, and the exception ends the loop.

## Model

| member | source | states |
|---|---|---|
| Options.GettersReturnConstructorArguments | src/main/java/de/michm/menu/Option.java:41-72 | getName, getPattern and getAction return exactly the name, pattern and method the constructor was given |
| Options.Option.Equals | src/main/java/de/michm/menu/Option.java:114-122 | equals(other) holds exactly when other is an Option with the same value |
| Options.EqualsIsValueEquality | src/main/java/de/michm/menu/Option.java:114-122 | equals against another Option holds exactly when name, pattern and action are all equal, i.e. the two options are the same value |
| Options.EqualsReflexive | src/main/java/de/michm/menu/Option.java:116 | every option equals itself |
| Options.EqualsSymmetric | src/main/java/de/michm/menu/Option.java:114-122 | a.equals(b) holds exactly when b.equals(a) does |
| Options.EqualsRejectsNullAndOtherClasses | src/main/java/de/michm/menu/Option.java:117 | equals is false for null and for an object of any other class |
| JavaRuntime.StringHashAppend | src/main/java/de/michm/menu/Option.java:126 | String.hashCode of s followed by a BMP character c is 31 * hash(s) + c, wrapping at 2^32: the polynomial s[0]*31^(n-1) + ... + s[n-1] |
| JavaRuntime.StringHashExamples | src/main/java/de/michm/menu/Option.java:126 | "" hashes to 0 and "ab" to 3105, as Java's String.hashCode does |
| JavaRuntime.MethodHashIgnoresSignature | src/main/java/de/michm/menu/Option.java:126 | Method.hashCode depends only on the declaring class and the name, so overloads hash alike |
| JavaRuntime.ObjectsHashExamples | src/main/java/de/michm/menu/Option.java:126 | Objects.hash of no component is 1 and of one component x is 31 + x |
| Options.EqualOptionsHashAlike | src/main/java/de/michm/menu/Option.java:124-127 | options that are equal have the same Objects.hash(name, pattern, action) |
| Discovery.Visit | src/main/java/de/michm/menu/AssmusMenu.java:83-96 | one annotation: a @MenuOption appends Option(name, pattern, method) at the end; an @OnUnknownInput throws the AlreadyBoundException exactly when a fallback is already bound; a bound fallback is never replaced |
| Discovery.VisitAll | src/main/java/de/michm/menu/AssmusMenu.java:82-97 | one method's annotations in order: a thrown exception passes through unchanged, the only new exception is the AlreadyBoundException, options are only appended, and a bound fallback stays |
| Discovery.Discover | src/main/java/de/michm/menu/AssmusMenu.java:79-98 | the only exception discovery throws is the AlreadyBoundException, and the options of earlier methods come first |
| Discovery.DiscoverDeclared | src/main/java/de/michm/menu/AssmusMenu.java:79-98 | the nested loops over declared methods and their annotations, stopping at the exception, compute exactly the fold Discover |
| Discovery.DiscoverSpec | src/main/java/de/michm/menu/AssmusMenu.java:79-100 | discovery throws, always with the one AlreadyBoundException message, exactly when two or more @OnUnknownInput tags exist; otherwise the options are one Option(name, pattern, method) per @MenuOption tag in iteration order, and the fallback is null exactly when no method is tagged and is the tagged method when one is |
| Discovery.VisitAllSpec | src/main/java/de/michm/menu/AssmusMenu.java:82-97 | one method's annotations append its options in order, bind it as fallback when tagged, and throw exactly when a fallback is already bound or the method is tagged twice |
| Discovery.TaggedOptionsCount | src/main/java/de/michm/menu/AssmusMenu.java:83-87 | the discovered list has exactly one entry per @MenuOption tag |
| Discovery.DiscoverStaysFailed | src/main/java/de/michm/menu/AssmusMenu.java:92-94 | once discovery has thrown, the remaining methods cannot change the outcome |
| Menu.AssmusMenu.Create | src/main/java/de/michm/menu/AssmusMenu.java:71-102 | new AssmusMenu(title) fails exactly when two or more fallbacks are tagged; otherwise yields a fresh menu with that title, an open scanner, the tagged options in order, size() equal to the tag count, and the tagged fallback or null |
| Menu.AssmusMenu.Get | src/main/java/de/michm/menu/AssmusMenu.java:152-154 | get(index) succeeds exactly for 0 <= index < size() and returns the option at that position; otherwise IndexOutOfBoundsException |
| Menu.AssmusMenu.Add | src/main/java/de/michm/menu/AssmusMenu.java:118-120 | add appends: the list is the old list plus the option, size grows by one and get(old size) is the new option |
| Menu.AssmusMenu.RemoveOption | src/main/java/de/michm/menu/AssmusMenu.java:129-131 | remove(option) returns true exactly when an equal option is in the list; then the first one is cut out, keeping the others in order, which removes exactly one copy; otherwise the list is unchanged |
| Menu.AssmusMenu.RemoveAt | src/main/java/de/michm/menu/AssmusMenu.java:141-143 | remove(index) returns what get(index) would, cuts out that position and shrinks size by one on success, and changes nothing when the index is out of range |
| Menu.IndexOf | src/main/java/de/michm/menu/AssmusMenu.java:130 | the position ArrayList.remove(Object) uses: the first element equals accepts, or -1 when none does |
| Menu.IndexOfFindsValue | src/main/java/de/michm/menu/AssmusMenu.java:130 | that position exists exactly when the option is in the list, and the element there is the option |
| Menu.CutOneOccurrence | src/main/java/de/michm/menu/AssmusMenu.java:130 | cutting out one position removes one copy of its element and keeps every other element |
| Rendering.UnderlineOf | src/main/java/de/michm/menu/AssmusMenu.java:163-167 | getUnderline(text) is one '=' per UTF-16 code unit of text |
| Rendering.Underline | src/main/java/de/michm/menu/AssmusMenu.java:176-182 | getUnderline(text, m) is 2^m '=' per UTF-16 code unit of text |
| Rendering.GetUnderline | src/main/java/de/michm/menu/AssmusMenu.java:176-182 | the doubling loop yields Underline(text, m), and a negative multiplier runs no round |
| Rendering.Header | src/main/java/de/michm/menu/AssmusMenu.java:208 | the first println is a blank line, the title, and an underline of four '=' per UTF-16 code unit of the title |
| Rendering.Render | src/main/java/de/michm/menu/AssmusMenu.java:206-221 | the frame is a blank line, the title, an underline of four '=' per UTF-16 code unit of the title, the option lines, then the prompt |
| Rendering.BmpUnderlineLength | src/main/java/de/michm/menu/AssmusMenu.java:208 | for a title without supplementary characters, the underline is exactly four times the title's length |
| Rendering.RenderListsOptionsInOrder | src/main/java/de/michm/menu/AssmusMenu.java:210-218 | option k's line "   (pattern) name" comes after the lines of options 0..k-1 and before the rest |
| Rendering.RenderAfterAdd | src/main/java/de/michm/menu/AssmusMenu.java:118-120 | after add, the frame gains exactly the new option's line, last before the prompt |
| Menu.ExampleUnderline | src/main/java/de/michm/menu/AssmusMenu.java:54 | the example title "MY COOL CLI APP" is underlined with 60 '=' |
| TypedRead.Read | src/main/java/de/michm/menu/AssmusMenu.java:290-319 | read(type) returns null or a value of the requested class, and null for any class outside the nine supported ones |
| TypedRead.ReadLine | src/main/java/de/michm/menu/AssmusMenu.java:248 | read(String.class) is the line nextLine returned, or null when nextLine threw |
| TypedRead.ValueClassesAreSupported | src/main/java/de/michm/menu/AssmusMenu.java:294-312 | every value read can return belongs to a supported class |
| TypedRead.ReadReturnsScannedValue | src/main/java/de/michm/menu/AssmusMenu.java:294-312 | for each supported class, what the matching scanner call delivers is what read returns |
| TypedRead.ReadSwallowsScannerFailure | src/main/java/de/michm/menu/AssmusMenu.java:313-318 | a scanner call that throws makes read return null instead of propagating |
| TypedRead.ReadAtEndOfInput | src/main/java/de/michm/menu/AssmusMenu.java:313-318 | when every scanner call throws, every read of every class is null |
| TypedRead.FloatIsNeverRead | src/main/java/de/michm/menu/AssmusMenu.java:294-312 | an unsupported class such as Float is always read as null |
| Dispatch.Invoke | src/main/java/de/michm/menu/AssmusMenu.java:251-262 | invoking with an empty argument array throws exactly when the handler declares parameters or its own behaviour throws; otherwise it returns what the handler returns |
| Dispatch.FirstMatch | src/main/java/de/michm/menu/AssmusMenu.java:253-255 | the first option whose pattern equals the line, or null when none does |
| Dispatch.Select | src/main/java/de/michm/menu/AssmusMenu.java:250-256 | the fallback fires exactly when the line is non-null and a fallback exists; otherwise the first option with that pattern fires; nothing fires exactly when the line is null or no pattern matches |
| Dispatch.Step | src/main/java/de/michm/menu/AssmusMenu.java:250-266 | an iteration changes the run flag only when it fires an option whose return type is boolean, leaves the flag as it was when nothing fires, and ends in an exception exactly when the handler it fires throws |
| Dispatch.FallbackShadowsOptions | src/main/java/de/michm/menu/AssmusMenu.java:250-251 | with a fallback, any non-null line fires the fallback even when it equals an option's pattern; the iteration ends in an exception exactly when the fallback throws and otherwise keeps the flag |
| Dispatch.NullLineDoesNothing | src/main/java/de/michm/menu/AssmusMenu.java:250-255 | a null line fires nothing and keeps the flag |
| Dispatch.BooleanResultIsNegated | src/main/java/de/michm/menu/AssmusMenu.java:258-260 | a boolean option returning b sets the run flag to !b |
| Dispatch.OtherResultKeepsFlag | src/main/java/de/michm/menu/AssmusMenu.java:261-262 | an option of any other return type that returns keeps the run flag |
| Dispatch.HandlerWithParametersEndsLoop | src/main/java/de/michm/menu/AssmusMenu.java:256-262 | invoking with no arguments a handler that declares parameters throws and ends the loop |
| Dispatch.Loop | src/main/java/de/michm/menu/AssmusMenu.java:245-268 | a false flag ends the loop at once; otherwise the loop runs at least one more iteration when it stops or crashes, never runs past the input, and reports still running only at its end |
| Dispatch.RunSession | src/main/java/de/michm/menu/AssmusMenu.java:241-273 | run() over the given input takes at most one iteration per input, at least one when it stops or crashes, and is still running only when the input ran out |
| Dispatch.StopsExactlyWhenFlagFalls | src/main/java/de/michm/menu/AssmusMenu.java:245-268 | a normal end of the loop comes right after an iteration that turned the flag false, all earlier ones having kept it true |
| Dispatch.CrashesAtFirstException | src/main/java/de/michm/menu/AssmusMenu.java:244-272 | a loop that ended in an exception ended in an iteration that threw, all earlier ones having kept the flag true |
| Dispatch.FlagFallingStops | src/main/java/de/michm/menu/AssmusMenu.java:245-268 | conversely, when iteration n is the first to turn the flag false and none threw before it, the loop ends normally after exactly n iterations |
| Dispatch.ExceptionCrashes | src/main/java/de/michm/menu/AssmusMenu.java:244-272 | conversely, when iteration n is the first to throw and the flag held before it, the loop ends in that exception after exactly n iterations |
| Dispatch.KeepsRunning | src/main/java/de/michm/menu/AssmusMenu.java:245 | iterations that all keep the flag true never end the loop |
| Dispatch.FallbackSessionNeverStops | src/main/java/de/michm/menu/AssmusMenu.java:250-251 | with a fallback that never throws and lines always read, the loop never stops |
| Dispatch.EndOfInputSpins | src/main/java/de/michm/menu/AssmusMenu.java:248 | when every scanner call throws, so every read is null, the loop neither stops nor crashes |
| Menu.AssmusMenu.Dispatch | src/main/java/de/michm/menu/AssmusMenu.java:250-266 | the branch and option loop of run(), with the pattern cleared after a match, compute exactly Step |
| Menu.AssmusMenu.Run | src/main/java/de/michm/menu/AssmusMenu.java:241-273 | run() ends as RunSession does, and the scanner is closed exactly when the flag fell, not when an exception left the loop |
| Menu.ExampleDiscovery | src/main/java/de/michm/menu/AssmusMenu.java:36-50 | the documented example class, when reflection lists info before quit, yields the options Info/"i" and Quit/"q" in that order and no fallback |
| Menu.QuitReturningTrueStops | src/main/java/de/michm/menu/AssmusMenu.java:258-260 | typing "q" when Quit returns true stops the loop after one iteration |
| Menu.QuitReturningFalseContinues | src/main/java/de/michm/menu/AssmusMenu.java:46-49 | typing "q" when Quit returns false, as the class example does, keeps the loop running |
| JavaRuntime.BmpUtf16Length | src/main/java/de/michm/menu/AssmusMenu.java:165 | text.chars() counts one unit per character when the text has no supplementary characters |

## Left out

- `clear()` (lines 190-198) starts an operating-system process. It is an effect outside the model, and a failure of it, which would end the loop, is not modelled.
- Printing is not modelled. The frame is a string value, and println's platform line separator is written as "\n". The error messages and stack traces printed to System.err are left out.
- PoggyScanner is not part of this model. Whether its calls throw at end of input is not stated here. `Exhausted` is the scanner whose every call throws, and `TypedRead.ReadAtEndOfInput` and `Dispatch.EndOfInputSpins` are about that scanner. Each `read` sees a snapshot of what every scanner call would return or throw. A double is kept as its raw IEEE 754 bits. Reading after `close()` is not modelled.
- Reflection is not modelled. A subclass's declared methods and their annotations are given as an explicit sequence, in the order `getDeclaredMethods` lists them. `Method.invoke` is a caller-supplied behaviour per handler and iteration, and only its no-arguments failure is modelled.
- Menu.AssmusMenu.Run: handler side effects are not modelled. A handler cannot change the option list, so the ConcurrentModificationException that editing the list during the loop would cause is not modelled either.
- Menu.AssmusMenu.Run: the input is a finite sequence, so a run that has not stopped or crashed when the sequence ends is reported as still running rather than looping forever.
- Null names, patterns, titles or options are not modelled: each is always a value. A null pattern would make `run` throw a NullPointerException.
- Menu.AssmusMenu.Run: a null title passed to the constructor (`AssmusMenu.java:71-72`) is not modelled. It makes the first `render()` throw a NullPointerException at `text.chars()` (lines 165, 177 and 208). `run()` would then end in its first iteration without closing the scanner. The model's title is always a string, so `Run` never takes this path.
- Menu.AssmusMenu.Size has no contract of its own. Its meaning is stated through `Create`, `Add`, `RemoveAt` and `Get`.
- `Option.toString` (`Option.java:129-136`) builds a display string from the three fields and the reflected method's own `toString`. It is not modelled.
- `getParameterCount`, `getParameterTypes` and `getReturnType` (`Option.java:92-112`) are plain reads of the reflected method and have no entries of their own. `Option.invoke` is the handler behaviour described above.
- Options.Option.HashCode: no closed polynomial form of Objects.hash over the three fields is stated, because bit-vector multiplication in that proof exceeds the solver's budget. The hash is specified by equal options hashing alike and by the String.hashCode and Objects.hash lemmas.
- A Java string holding an unpaired surrogate cannot be represented, because a Dafny `string` holds Unicode scalar values only.
- The option line `"   (pattern) name"` (`Rendering.OptionLine`) is a plain string template. Where it goes in the frame is stated by `Rendering.RenderListsOptionsInOrder` and `Rendering.RenderAfterAdd`.
- The `int` index of `get` and `remove(int)` is an unbounded integer. Any value outside the list's range throws, so 32-bit wrap-around cannot change the result.
