/**
 * The menu frame: the title, an underline of '=' characters, one line per
 * option in list order, then the input prompt. Printing and the screen clear
 * are effects left to the caller; here the frame is a string value, with
 * println's line separator written as "\n".
 */
module Rendering {
  import opened JavaRuntime
  import opened Options

  /** `c` repeated `n` times. */
  function Repeat(c: char, n: nat): (s: string)
    ensures |s| == n
  {
    if n == 0 then [] else [c] + Repeat(c, n - 1)
  }

  /** Every character of Repeat(c, n) is c. */
  lemma {:induction false} RepeatAt(c: char, n: nat, i: nat)
    requires i < n
    ensures Repeat(c, n)[i] == c
  {
    if i > 0 {
      RepeatAt(c, n - 1, i - 1);
    }
  }

  function Pow2(n: nat): (p: nat)
    ensures p >= 1
  {
    if n == 0 then 1 else 2 * Pow2(n - 1)
  }

  /** getUnderline(text): one "=" per element of text.chars(), that is per UTF-16 code unit. */
  function UnderlineOf(text: string): (u: string)
    ensures u == Repeat('=', |Utf16(text)|)
  {
    if text == [] then ""
    else (if text[0] as int < 0x1_0000 then "=" else "==") + UnderlineOf(text[1..])
  }

  /** getUnderline(text, multiplier): the single underline doubled `multiplier` times. */
  function Underline(text: string, multiplier: nat): (u: string)
    ensures u == Repeat('=', |Utf16(text)| * Pow2(multiplier))
  {
    if multiplier == 0 then UnderlineOf(text)
    else
      var half := Underline(text, multiplier - 1);
      DoublingUnderline(|Utf16(text)|, multiplier);
      half + half
  }

  lemma DoublingUnderline(units: nat, multiplier: nat)
    requires multiplier > 0
    ensures Repeat('=', units * Pow2(multiplier - 1)) + Repeat('=', units * Pow2(multiplier - 1))
         == Repeat('=', units * Pow2(multiplier))
  {
    DoublePow2(units, multiplier);
    RepeatTwice('=', units * Pow2(multiplier - 1));
  }

  lemma DoublePow2(units: nat, multiplier: nat)
    requires multiplier > 0
    ensures units * Pow2(multiplier) == units * Pow2(multiplier - 1) + units * Pow2(multiplier - 1)
  {
    var p := Pow2(multiplier - 1);
    assert Pow2(multiplier) == p + p;
  }

  lemma RepeatTwice(c: char, n: nat)
    ensures Repeat(c, n) + Repeat(c, n) == Repeat(c, n + n)
  {
    var r := Repeat(c, n) + Repeat(c, n);
    forall i | 0 <= i < n + n ensures r[i] == Repeat(c, n + n)[i] {
      RepeatAt(c, n + n, i);
      if i < n { RepeatAt(c, n, i); } else { RepeatAt(c, n, i - n); }
    }
  }

  /**
   * getUnderline(text, multiplier) as the source writes it: a loop that appends the
   * underline to itself once per round; a negative multiplier runs no round.
   */
  method GetUnderline(text: string, multiplier: int) returns (underline: string)
    ensures underline == Underline(text, if multiplier < 0 then 0 else multiplier)
  {
    underline := UnderlineOf(text);
    var i := 0;
    while i < multiplier
      invariant 0 <= i && (multiplier >= 0 ==> i <= multiplier) && (multiplier < 0 ==> i == 0)
      invariant underline == Underline(text, i)
    {
      underline := underline + underline;
      i := i + 1;
    }
  }

  /** The multiplier render() passes to getUnderline. */
  const UnderlineMultiplier: nat := 2

  /**
   * The first println of render(): a blank line, the title, and an underline of
   * four '=' per UTF-16 code unit of the title.
   */
  function Header(title: string): (h: string)
    ensures h == "\n " + title + "\n " + Repeat('=', 4 * |Utf16(title)|) + "\n"
  {
    assert Pow2(UnderlineMultiplier) == 4;
    "\n " + title + "\n " + Underline(title, UnderlineMultiplier) + "\n"
  }

  /** The println for one option. */
  function OptionLine(o: Option): string
  {
    "   (" + o.GetPattern() + ") " + o.GetName() + "\n"
  }

  function OptionLines(options: seq<Option>): string
  {
    if options == [] then "" else OptionLine(options[0]) + OptionLines(options[1..])
  }

  /** The closing print of render(). */
  const Prompt := "\n > "

  /**
   * Everything render() writes after clearing the screen: a blank line, the title,
   * an underline of four '=' per UTF-16 code unit of the title, the option lines,
   * then the prompt.
   */
  function Render(title: string, options: seq<Option>): (frame: string)
    ensures frame == "\n " + title + "\n " + Repeat('=', 4 * |Utf16(title)|) + "\n" + OptionLines(options) + Prompt
  {
    Header(title) + OptionLines(options) + Prompt
  }

  lemma {:induction false} OptionLinesAppend(a: seq<Option>, b: seq<Option>)
    ensures OptionLines(a + b) == OptionLines(a) + OptionLines(b)
  {
    if a == [] {
      assert a + b == b;
    } else {
      assert (a + b)[1..] == a[1..] + b;
      OptionLinesAppend(a[1..], b);
    }
  }

  /** For a title of BMP characters the underline is exactly four times the title's length. */
  lemma BmpUnderlineLength(title: string)
    requires IsBmp(title)
    ensures |Underline(title, UnderlineMultiplier)| == 4 * |title|
  {
    BmpUtf16Length(title);
  }

  /** Every option is listed, in list order: option k's line comes after those of options 0..k-1 and before the rest. */
  lemma {:induction false} RenderListsOptionsInOrder(title: string, options: seq<Option>, k: nat)
    requires k < |options|
    ensures Render(title, options)
         == Header(title) + OptionLines(options[..k]) + OptionLine(options[k]) + OptionLines(options[k + 1..]) + Prompt
  {
    assert options == options[..k] + ([options[k]] + options[k + 1..]);
    OptionLinesAppend(options[..k], [options[k]] + options[k + 1..]);
    assert OptionLines([options[k]] + options[k + 1..]) == OptionLine(options[k]) + OptionLines(options[k + 1..]);
  }

  /** Adding an option adds exactly its line, after all the others and just before the prompt. */
  lemma {:induction false} RenderAfterAdd(title: string, options: seq<Option>, o: Option)
    ensures Render(title, options + [o]) == Header(title) + OptionLines(options) + OptionLine(o) + Prompt
  {
    OptionLinesAppend(options, [o]);
    assert [o][1..] == [];
  }
}
