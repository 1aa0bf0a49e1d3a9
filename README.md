# clilib in Dafny

A model of `clilib`, a small Rust support library for command-line
applications. All of it lives in `src/lib.rs`, and the model covers its four
parts:

- **`CliError`** (`errors.dfy`, module `Errors`): an error value with a
  message, an `i32` code, a severity (`ErrorLevel`) and a private flag that
  records whether it has already been reported. It has constructors for
  warnings and fatal errors, `handle` (report a fatal error at most once and
  propagate it; report a warning on every call and swallow it) and three ways to dismiss an error. It
  is a class, because `handle` updates `reported` in place and every
  propagated error is a fresh clone.
- **`Arguments`** (`tokenizer.dfy`, module `Tokenizer`; properties in
  `tokenizer_properties.dfy`, module `TokenizerProperties`): the tokenizer.
  It makes one pass over the arguments after the program name. Each
  argument is a long option (`--name`), a short option (`-x`), a bundle of
  short options (`-abc`) or a naked value. Each run of naked values is filed
  under the option before it. There are also typed queries over the result
  (`get_single`, `check_arg`, `get_passed`, `get_passed_checked`).
  - `Arguments::new` is a method with the source's loop, proved equal to
    `Tokenize`, the fold of one loop step `Step` over the arguments.
  - `Tokenize` is characterised against independent reference definitions:
    - `Options`: the option tokens in order.
    - `TrailStart`: where the trailing run of naked values starts.
    - `LastRunBefore`: the last maximal run of naked values filed under a
      given cursor.
- **Decoration** (`decoration.dfy`, module `Decoration`): the ANSI colour and
  style codes, `clear_decoration` and the `decorate*` functions.
  - `clear_decoration` is a two-state scanner (`Strip`).
  - The main results:
    - Clearing yields no escape character.
    - The cleared text is a subsequence of the input.
    - Clearing is idempotent.
    - Every `decorate*` function leaves the cleared text of its input
      unchanged.
- **`GridDisplay`** (`grid.dfy`, module `Grid`): a table of optional headers
  and rows, rendered with each column padded to its widest visible cell
  plus two spaces. It is a class, because `set_header` and `add_row` update
  it in place. `render` and `pad` are methods with the source's loops,
  proved equal to the functions `Padded` and `Rendered`. The properties
  proved:
  - Column sizes are the maxima of the visible widths.
  - Every cell fits its column, so `pad` never underflows.
  - For cells that end outside an escape sequence, every line is exactly as
    wide as its columns, and each cell starts at its column's offset. A cell
    that ends inside an unfinished escape sequence swallows its padding.
  - When no header or cell contains a newline, the output has one line per
    row, plus one for the header if there is one.

Widths are byte lengths, as in Rust's `String::len`: `Utf8Length` gives a
character's UTF-8 size, and `Measure` counts what `clear_decoration` keeps
in one scan. `VisibleBytes` proves that this equals the byte length of
`Clear(s)`.

`wrappers.dfy` holds the `Option` and `Result` datatypes.

Two behaviours of the code are easy to misread:
- **Naked values.** The field's doc comment calls `naked_values` the "list
  of raw arguments" (src/lib.rs:129). The code empties the list whenever it
  files a run (src/lib.rs:152-156 and 163-167), so it keeps only the run
  after the last option boundary. `NakedValuesIsTrailingRun` states this,
  and `LongAndShortExample` shows it.
- **Dashes in a bundle.** A bundle skips every dash in the token, not only
  its leading ones (src/lib.rs:178), so `-a-b` spells `-a` and `-b`.

## Model

| member | source | states |
|---|---|---|
| Errors.ErrorLine | src/lib.rs:66 | the line written for an unreported fatal error: the package name, "has encountered an error:", and the message in single quotes |
| Errors.WarningLine | src/lib.rs:78 | the line written for an unreported warning: the package name, "has encountered a warning:", and the message in single quotes |
| Errors.ReportLinesDiffer | src/lib.rs:66-78 | the error line and the warning line differ for every package name and message |
| Errors.CliError.constructor | src/lib.rs:31-41 | a new error carries the given message, code and level, and is not yet reported |
| Errors.CliError.Clone | src/lib.rs:15-27 | the derived clone is a fresh object with the same message, code, level and reported flag |
| Errors.CliError.Warn | src/lib.rs:43-47 | returns a failure holding a fresh, unreported warning with the given message and code |
| Errors.CliError.Error | src/lib.rs:49-53 | returns a failure holding a fresh, unreported fatal error with the given message and code |
| Errors.CliError.Handle | src/lib.rs:55-85 | a fatal error writes its error line only if not yet reported, then is marked reported and propagates as a copy already marked reported, so a second `handle` writes nothing. A warning writes its warning line whenever it is unreported, never changes its flag, and is swallowed (`Ok`) |
| Errors.CliError.DismissByCode | src/lib.rs:87-98 | succeeds exactly when the error's code equals the given code; otherwise returns an unchanged copy |
| Errors.CliError.DismissByCodes | src/lib.rs:100-111 | succeeds exactly when the error's code is one of the given codes; otherwise returns an unchanged copy |
| Errors.CliError.Dismiss | src/lib.rs:113-117 | always succeeds |
| Tokenizer.New | src/lib.rs:136-204 | the tokenizing loop, including the final flush, computes `Tokenize(argv)`, the fold of `Step` over the arguments after the program name |
| Tokenizer.PushShortOptions | src/lib.rs:174-185 | the bundle loop appends `-c` for each non-dash character `c` in order, and leaves the cursor on the last one pushed, or unchanged if none |
| Tokenizer.GetSingle | src/lib.rs:206-224 | returns a value exactly when the key is present with a non-empty list, and the value is the list's first element |
| Tokenizer.CheckArg | src/lib.rs:226-230 | holds exactly when `arg` is one of the recorded options. On tokenizer output, `CheckArgOnTokenized` shows this means some argument contributes it |
| Tokenizer.GetPassed | src/lib.rs:232-255 | nothing for an option that was not given. A value exactly when the option was given, has a first value, and that value parses; the result is the parsed value |
| Tokenizer.GetPassedChecked | src/lib.rs:257-280 | succeeds exactly when `get_passed` does, with the same value. Otherwise returns a fresh, unreported fatal error with code 1 and one of three messages naming the cause: option not given, no value, or a value that does not parse |
| TokenizerProperties.SingleShortIsBundle | src/lib.rs:169-185 | for a two-character short option, the single-push branch and the bundle loop give the same option, so the byte-length test cannot change the result |
| TokenizerProperties.ShortOptionsMembers | src/lib.rs:176-184 | a bundle spells exactly the options `-c` for the non-dash characters `c` of the token |
| TokenizerProperties.TokenizeArgs | src/lib.rs:148-191 | `args` is `Options` of the arguments: every option token, in input order, a bundle expanded in place |
| TokenizerProperties.OptionTokensShape | src/lib.rs:150-185 | every option one argument contributes is the argument itself (if it starts with `--`) or a two-character `-c` with `c` not a dash |
| TokenizerProperties.OptionsShape | src/lib.rs:148-191 | every recorded option starts with a dash, and is either a long argument of the input or a two-character `-c` with `c` not a dash |
| TokenizerProperties.OptionsMembers | src/lib.rs:148-191 | a string is among the recorded options exactly when some argument contributes it |
| TokenizerProperties.NakedValuesIsTrailingRun | src/lib.rs:187-203 | `naked_values` is exactly the run of naked values after the last dash-led argument |
| TokenizerProperties.ValuesAreLastRuns | src/lib.rs:148-196 | every filed list is non-empty and is the last maximal run of naked values whose cursor is its key: an earlier run under the same key is replaced |
| TokenizerProperties.EveryRunIsFiled | src/lib.rs:148-196 | every naked value's cursor (the last option before it, or the empty key) is a key of `values` |
| TokenizerProperties.ValueKeysAreOptions | src/lib.rs:148-196 | every key of `values` is a recorded option or the empty key |
| TokenizerProperties.NoDashInput | src/lib.rs:187-196 | with no dash-led argument, there are no options, `naked_values` is the whole input, and it is filed under the empty key (unless the input is empty) |
| TokenizerProperties.CheckArgOnTokenized | src/lib.rs:226-230 | `check_arg` holds exactly when some argument contributes that option |
| TokenizerProperties.GetSingleOnTokenized | src/lib.rs:206-224 | on tokenizer output, `get_single` finds a value exactly for the keys of `values`, since no empty run is ever filed |
| TokenizerProperties.EmptyKeyIsNeverPassed | src/lib.rs:232-238 | the empty key is never a given option, so `get_passed` of it is none even when a leading run is filed under it |
| TokenizerProperties.CheckedMessagesDistinct | src/lib.rs:262-277 | the three failure messages of `get_passed_checked` differ from each other for every option name |
| TokenizerProperties.LongAndShortExample | src/lib.rs:136-204 | `--foo a b -x c` files `a b` under `--foo` and `c` under `-x`, but `naked_values` is only `c` |
| TokenizerProperties.BundleExample | src/lib.rs:174-185 | `-abc v` records `-a -b -c` and files `v` under `-c` only |
| TokenizerProperties.RepeatedOptionExample | src/lib.rs:152-156 | `--a x --a y` records `--a` twice, and the later run `y` replaces `x` |
| TokenizerProperties.LoneDashExample | src/lib.rs:161-185 | a lone `-` records nothing but still cuts the run: `--a x - y` ends with `--a` mapped to `y` |
| TokenizerProperties.DoubleDashExample | src/lib.rs:150-160 | a bare `--` is an ordinary long option, not an end-of-options marker |
| TokenizerProperties.LeadingRunExample | src/lib.rs:193-196 | a run before any option is filed under the empty key, and a trailing option leaves `naked_values` empty |
| Decoration.ClearDecoration | src/lib.rs:314-342 | the scanning loop computes `Clear(s)`, the output of the two-state scanner `Strip` |
| Decoration.ClearProperties | src/lib.rs:314-342 | the cleared text holds no escape character, is a subsequence of the input, and equals the input when the input has no escape character |
| Decoration.ClearIdempotent | src/lib.rs:314-342 | clearing twice equals clearing once |
| Decoration.StripConcat | src/lib.rs:319-339 | scanning a concatenation is scanning the first part, then the second from the state the first ended in |
| Decoration.EscapeSequenceVanishes | src/lib.rs:323-334 | an escape sequence (escape, then no `m`, then `m`) is dropped whole and leaves the scanner outside, from either state |
| Decoration.CodesAreEscapeSequences | src/lib.rs:347-380 | every colour code, every style code and the reset code is one complete escape sequence |
| Decoration.DecorateColor | src/lib.rs:344-368 | the colour's code, the cleared input, then the reset code. Its round trip is `ClearDecorateColor` |
| Decoration.DecorateStyle | src/lib.rs:370-381 | the style's code, the cleared input, then the reset code. Its round trip is `ClearDecorateStyle` |
| Decoration.Decorate | src/lib.rs:383-394 | the style's code in front of `decorate_color`. Its round trip is `ClearDecorate` |
| Decoration.ClearDecorateColor | src/lib.rs:344-368 | clearing a colour-decorated string gives back the cleared input |
| Decoration.ClearDecorateStyle | src/lib.rs:370-381 | clearing a style-decorated string gives back the cleared input |
| Decoration.ClearDecorate | src/lib.rs:383-394 | clearing a colour-and-style-decorated string gives back the cleared input |
| Decoration.DecorateMultiple | src/lib.rs:396-414 | the loop puts the style codes in front of the colour decoration, the last style outermost, and clearing the result gives back the cleared input |
| Decoration.ClearDecorateMultiple | src/lib.rs:396-414 | whatever style prefix is put in front, clearing gives back the cleared input |
| Grid.VisibleBytes | src/lib.rs:466 | the one-scan width `Width(s)` equals the byte length of `clear_decoration(s)` |
| Grid.PaddedWidth | src/lib.rs:461-472 | padding a cell no wider than `w` that ends outside an escape sequence gives visible width exactly `w` |
| Grid.WidthConcat | src/lib.rs:466 | visible widths add up across a concatenation whose first part ends outside an escape sequence |
| Grid.WidenBounds | src/lib.rs:508-522 | one row's pass keeps every old size as a lower bound, covers every cell of the row, and takes each size from the old sizes or from the row |
| Grid.ColumnSizesAreMaxima | src/lib.rs:479-523 | there are enough columns for the header and every row; every header and cell is no wider than its column; every column size is the width of some header or cell in that column |
| Grid.RowsFit | src/lib.rs:525-550 | the header and every row fit the computed sizes, so the subtraction in `pad` never underflows |
| Grid.LineWidth | src/lib.rs:541-550 | for cells that fit and end outside an escape sequence, a rendered line is exactly as wide as its columns plus two spaces each |
| Grid.ColumnStart | src/lib.rs:541-550 | for cells that fit and end outside an escape sequence, cell `k` of a rendered line starts at visible column `Offset(sizes, k)`, so columns line up across rows |
| Grid.RenderedLineCount | src/lib.rs:525-550 | when no cell contains a newline, the output has one line per row plus one for the header, if there is one |
| Grid.GridDisplay.Empty | src/lib.rs:429-437 | no headers and no rows |
| Grid.GridDisplay.New | src/lib.rs:439-447 | the given headers and no rows |
| Grid.GridDisplay.SetHeader | src/lib.rs:449-453 | replaces the headers and keeps the rows |
| Grid.GridDisplay.AddRow | src/lib.rs:455-459 | appends the row and keeps the headers |
| Grid.GridDisplay.Pad | src/lib.rs:461-472 | the loop appends `width - Width(s)` spaces to `s` |
| Grid.GridDisplay.Render | src/lib.rs:474-553 | the method's loops build `Rendered`: the padded header line and then one padded line per row, each ending in a newline |
| Grid.GridDisplay.StartSizes | src/lib.rs:479-500 | the starting sizes are the header widths, or else the first row's widths, or else none |
| Grid.GridDisplay.CellWidths | src/lib.rs:485-497 | the loop pushes the width of each cell in order, giving `Widths(cells)`; `WidthsAt` shows entry `k` is the visible byte width of cell `k` |
| Grid.GridDisplay.WidenRows | src/lib.rs:504-523 | the pass over all rows computes `WidenAll` of the starting sizes |
| Grid.GridDisplay.WidenRow | src/lib.rs:508-522 | one row's pass extends or raises the sizes as `Widen` does |
| Grid.GridDisplay.WriteLine | src/lib.rs:529-534 | appends the line of padded cells to what was written so far |
| Grid.GridDisplay.WriteBody | src/lib.rs:541-550 | appends one padded line and a newline per row |

## Left out

- Standard error and the package name: `handle` writes with `eprintln!`
  and the name from `CARGO_PKG_NAME`. In the model the name is the
  parameter `pkgName`, and the written line is the `emitted` result.
- The process arguments: `Arguments::new` collects `std::env::Args`, and
  the model takes that vector as a sequence. Slicing from index 1 panics on
  an empty vector, so `New` requires at least the program name.
- `FromStr`: `get_passed` and `get_passed_checked` take the parse as a
  function `parse` from a string to an optional value.
- `HashMap` is a `map`, so the model has no hashing and no iteration order.
- Grid.GridDisplay.Pad: requires `Width(s) <= width`, because otherwise the Rust
  subtraction on `usize` panics (debug builds) or wraps into a practically
  endless loop (release builds). `RowsFit` shows that `render`
  always meets this. The function `Padded` is total and
  leaves a wider cell unpadded.
- `usize` overflow of a column size plus two is not modelled. Sizes are
  unbounded.
- `GridDisplay::display` only prints `render`'s output, so it is left out.
- `OptionEntry` and `HelpDisplay` (src/lib.rs:562-671) are help-text
  formatting outside this model.
- `src/main.rs` is a demonstration program and is not part of this model.
- The `Debug` derives are not modelled. `Clone` is modelled as
  `CliError.Clone`.
- Errors.CliError.Warn, Errors.CliError.Error, Errors.CliError.Handle,
  Errors.CliError.DismissByCode, Errors.CliError.DismissByCodes and
  Tokenizer.GetPassedChecked return freshly allocated errors, as the Rust
  values are new owned clones. Their contracts therefore use `fresh`.
