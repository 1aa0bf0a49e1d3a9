/**
 * ANSI decoration: escape codes that colour and style console text, and
 * `clear_decoration`, which strips every escape sequence (from ESC up to and
 * including the next `m`) to leave the visible text.
 */
module Decoration {

  /** The escape character that opens every ANSI sequence. */
  const ESC: char := '\U{1B}'

  datatype AnsiColor =
    | Black | Red | Green | Yellow | Blue | Purple | Cyan | White
    | BrightBlack | BrightRed | BrightGreen | BrightYellow | BrightBlue | BrightPurple | BrightCyan | BrightWhite

  datatype AnsiStyle = Bold | Underline | Strikethrough

  function ColorCode(color: AnsiColor): string
  {
    [ESC] + match color
      case Black => "[30m"
      case Red => "[31m"
      case Green => "[32m"
      case Yellow => "[33m"
      case Blue => "[34m"
      case Purple => "[35m"
      case Cyan => "[36m"
      case White => "[37m"
      case BrightBlack => "[90m"
      case BrightRed => "[91m"
      case BrightGreen => "[92m"
      case BrightYellow => "[93m"
      case BrightBlue => "[94m"
      case BrightPurple => "[95m"
      case BrightCyan => "[96m"
      case BrightWhite => "[97m"
  }

  function StyleCode(style: AnsiStyle): string
  {
    [ESC] + match style
      case Bold => "[1m"
      case Strikethrough => "[9m"
      case Underline => "[4m"
  }

  /** The code that resets all decoration. */
  const Reset: string := [ESC] + "[0m"

  /** The scanner's output so far and whether it is inside an escape sequence. */
  datatype Stripped = Stripped(text: string, within: bool)

  /** The two-state scanner of `clear_decoration`, run over `s` from state `within`. */
  function Strip(within: bool, s: string): Stripped
  {
    if s == [] then Stripped([], within)
    else
      var prev := Strip(within, s[..|s| - 1]);
      var c := s[|s| - 1];
      if prev.within || c == ESC then Stripped(prev.text, c != 'm')
      else Stripped(prev.text + [c], false)
  }

  /** The visible text of `s`. */
  function Clear(s: string): string
  {
    Strip(false, s).text
  }

  /** `clear_decoration`: the scanning loop. */
  method ClearDecoration(s: string) returns (r: string)
    ensures r == Clear(s)
  {
    r := "";
    var within := false;
    var i := 0;
    while i < |s|
      invariant 0 <= i <= |s|
      invariant Stripped(r, within) == Strip(false, s[..i])
    {
      var c := s[i];
      assert s[..i + 1][..i] == s[..i];
      if c == ESC {
        within := true;
      }
      if within {
        if c == 'm' {
          within := false;
        }
      } else {
        r := r + [c];
      }
      i := i + 1;
    }
    assert s[..i] == s;
  }

  /** `decorate_color`: the visible text of `s`, in `color`, followed by a reset. */
  function DecorateColor(s: string, color: AnsiColor): string
  {
    ColorCode(color) + Clear(s) + Reset
  }

  /** `decorate_style`: the visible text of `s`, in `style`, followed by a reset. */
  function DecorateStyle(s: string, style: AnsiStyle): string
  {
    StyleCode(style) + Clear(s) + Reset
  }

  /** `decorate`: a style code in front of `decorate_color`. */
  function Decorate(s: string, color: AnsiColor, style: AnsiStyle): string
  {
    StyleCode(style) + DecorateColor(s, color)
  }

  /** The style codes `decorate_multiple` puts in front: each style is prepended in turn, so the last comes first. */
  function StylePrefix(styles: seq<AnsiStyle>): string
  {
    if styles == [] then ""
    else StyleCode(styles[|styles| - 1]) + StylePrefix(styles[..|styles| - 1])
  }

  /** `decorate_multiple`: `decorate_color`, then one style code prepended per style. */
  method DecorateMultiple(s: string, color: AnsiColor, styles: seq<AnsiStyle>) returns (r: string)
    ensures r == StylePrefix(styles) + DecorateColor(s, color)
    ensures Clear(r) == Clear(s)
  {
    r := DecorateColor(s, color);
    var i := 0;
    while i < |styles|
      invariant 0 <= i <= |styles|
      invariant r == StylePrefix(styles[..i]) + DecorateColor(s, color)
    {
      assert styles[..i + 1][..i] == styles[..i];
      r := StyleCode(styles[i]) + r;
      i := i + 1;
    }
    assert styles[..i] == styles;
    ClearDecorateMultiple(s, color, styles);
  }

  // ---------------------------------------------------------------------
  // Properties of the scanner

  /** Whether `idx` embeds `a` into `b`: increasing positions of `b` that spell `a`. */
  predicate Embedding(idx: seq<nat>, a: string, b: string)
  {
    && |idx| == |a|
    && (forall k :: 0 <= k < |idx| ==> idx[k] < |b| && a[k] == b[idx[k]])
    && (forall k, l :: 0 <= k < l < |idx| ==> idx[k] < idx[l])
  }

  ghost predicate IsSubsequence(a: string, b: string)
  {
    exists idx: seq<nat> :: Embedding(idx, a, b)
  }

  /** The scanner never lets an ESC through. */
  lemma {:induction false} StripNoEscape(within: bool, s: string)
    ensures ESC !in Strip(within, s).text
  {
    if s != [] {
      StripNoEscape(within, s[..|s| - 1]);
    }
  }

  /** The scanner only drops characters: its output is a subsequence of its input. */
  lemma {:induction false} StripSubsequence(within: bool, s: string) returns (idx: seq<nat>)
    ensures Embedding(idx, Strip(within, s).text, s)
  {
    if s == [] {
      idx := [];
    } else {
      var s0 := s[..|s| - 1];
      idx := StripSubsequence(within, s0);
      var prev := Strip(within, s0);
      var c := s[|s| - 1];
      if !(prev.within || c == ESC) {
        idx := idx + [|s0|];
      }
    }
  }

  /** Outside an escape sequence, text without ESC passes through unchanged. */
  lemma {:induction false} StripPlain(s: string)
    requires ESC !in s
    ensures Strip(false, s) == Stripped(s, false)
  {
    if s != [] {
      assert s == s[..|s| - 1] + [s[|s| - 1]];
      StripPlain(s[..|s| - 1]);
    }
  }

  /** Running the scanner over `a + b` is running it over `a`, then over `b` from the state `a` left it in. */
  lemma {:induction false} StripConcat(within: bool, a: string, b: string)
    ensures Strip(within, a + b)
      == var x := Strip(within, a); var y := Strip(x.within, b); Stripped(x.text + y.text, y.within)
  {
    if b == [] {
      assert a + b == a;
    } else {
      var b0 := b[..|b| - 1];
      assert (a + b)[..|a + b| - 1] == a + b0;
      StripConcat(within, a, b0);
    }
  }

  /** ESC, then characters other than `m`, then `m`. */
  predicate IsEscapeSequence(code: string)
  {
    && |code| >= 2
    && code[0] == ESC
    && code[|code| - 1] == 'm'
    && forall i :: 0 < i < |code| - 1 ==> code[i] != 'm'
  }

  /** Inside an unfinished escape sequence the scanner drops everything. */
  lemma {:induction false} StripInside(within: bool, code: string, n: nat)
    requires IsEscapeSequence(code) && 1 <= n < |code|
    ensures Strip(within, code[..n]) == Stripped([], true)
  {
    if n == 1 {
      assert code[..n][..0] == [];
    } else {
      StripInside(within, code, n - 1);
      assert code[..n][..n - 1] == code[..n - 1];
    }
  }

  /** An escape sequence vanishes and leaves the scanner outside, whatever state it started in. */
  lemma EscapeSequenceVanishes(within: bool, code: string)
    requires IsEscapeSequence(code)
    ensures Strip(within, code) == Stripped([], false)
  {
    StripInside(within, code, |code| - 1);
    assert code[..|code|][..|code| - 1] == code[..|code| - 1];
    assert code[..|code|] == code;
  }

  lemma CodesAreEscapeSequences(color: AnsiColor, style: AnsiStyle)
    ensures IsEscapeSequence(ColorCode(color))
    ensures IsEscapeSequence(StyleCode(style))
    ensures IsEscapeSequence(Reset)
  {
  }

  /** Text after an escape sequence is scanned as if the sequence were not there. */
  lemma AfterEscapeSequence(within: bool, code: string, t: string)
    requires IsEscapeSequence(code)
    ensures Strip(within, code + t) == Strip(false, t)
  {
    StripConcat(within, code, t);
    EscapeSequenceVanishes(within, code);
  }

  /** `clear_decoration` is idempotent. */
  lemma ClearIdempotent(s: string)
    ensures Clear(Clear(s)) == Clear(s)
  {
    StripNoEscape(false, s);
    StripPlain(Clear(s));
  }

  /** The visible text of `s`: no ESC, a subsequence of `s`, and `s` itself when `s` has no ESC. */
  lemma ClearProperties(s: string)
    ensures ESC !in Clear(s)
    ensures IsSubsequence(Clear(s), s)
    ensures ESC !in s ==> Clear(s) == s
  {
    StripNoEscape(false, s);
    var idx := StripSubsequence(false, s);
    if ESC !in s {
      StripPlain(s);
    }
  }

  /** Visible text, then a reset: the reset vanishes. */
  lemma ClearWithReset(s: string)
    ensures Strip(false, Clear(s) + Reset) == Stripped(Clear(s), false)
  {
    StripNoEscape(false, s);
    StripPlain(Clear(s));
    StripConcat(false, Clear(s), Reset);
    EscapeSequenceVanishes(false, Reset);
  }

  /** Clearing what `decorate_color` produced gives back the visible text of the input. */
  lemma ClearDecorateColor(s: string, color: AnsiColor)
    ensures Clear(DecorateColor(s, color)) == Clear(s)
  {
    CodesAreEscapeSequences(color, Bold);
    assert DecorateColor(s, color) == ColorCode(color) + (Clear(s) + Reset);
    AfterEscapeSequence(false, ColorCode(color), Clear(s) + Reset);
    ClearWithReset(s);
  }

  /** Clearing what `decorate_style` produced gives back the visible text of the input. */
  lemma ClearDecorateStyle(s: string, style: AnsiStyle)
    ensures Clear(DecorateStyle(s, style)) == Clear(s)
  {
    CodesAreEscapeSequences(Black, style);
    assert DecorateStyle(s, style) == StyleCode(style) + (Clear(s) + Reset);
    AfterEscapeSequence(false, StyleCode(style), Clear(s) + Reset);
    ClearWithReset(s);
  }

  /** Clearing what `decorate` produced gives back the visible text of the input. */
  lemma ClearDecorate(s: string, color: AnsiColor, style: AnsiStyle)
    ensures Clear(Decorate(s, color, style)) == Clear(s)
  {
    CodesAreEscapeSequences(color, style);
    AfterEscapeSequence(false, StyleCode(style), DecorateColor(s, color));
    ClearDecorateColor(s, color);
  }

  /** Style codes in front of a text do not change what the scanner makes of it. */
  lemma {:induction false} StripAfterStyles(styles: seq<AnsiStyle>, t: string)
    ensures Strip(false, StylePrefix(styles) + t) == Strip(false, t)
  {
    if styles != [] {
      var last := styles[|styles| - 1];
      var rest := styles[..|styles| - 1];
      CodesAreEscapeSequences(Black, last);
      assert StylePrefix(styles) + t == StyleCode(last) + (StylePrefix(rest) + t);
      AfterEscapeSequence(false, StyleCode(last), StylePrefix(rest) + t);
      StripAfterStyles(rest, t);
    } else {
      assert StylePrefix(styles) + t == t;
    }
  }

  /** Clearing what `decorate_multiple` produced gives back the visible text of the input. */
  lemma ClearDecorateMultiple(s: string, color: AnsiColor, styles: seq<AnsiStyle>)
    ensures Clear(StylePrefix(styles) + DecorateColor(s, color)) == Clear(s)
  {
    StripAfterStyles(styles, DecorateColor(s, color));
    ClearDecorateColor(s, color);
  }
}
