/**
 * `GridDisplay`: rows of cells, optionally headed, rendered as text whose
 * columns are padded with spaces to the widest visible cell of each column
 * plus two. Widths are measured on the visible text (escape sequences
 * removed) in UTF-8 bytes, as Rust's `String::len` measures them.
 */
module Grid {
  import opened Wrappers
  import opened Decoration

  // ---------------------------------------------------------------------
  // Widths

  /** Number of bytes UTF-8 uses to encode `c`. */
  function Utf8Length(c: char): nat
  {
    if c as int < 0x80 then 1
    else if c as int < 0x800 then 2
    else if c as int < 0x1_0000 then 3
    else 4
  }

  /** Number of bytes of the UTF-8 encoding of `s`. */
  function ByteLength(s: string): nat
  {
    if s == [] then 0 else ByteLength(s[..|s| - 1]) + Utf8Length(s[|s| - 1])
  }

  /** The visible bytes of a text scanned so far, and whether the scan is inside an escape sequence. */
  datatype Measured = Measured(bytes: nat, within: bool)

  /**
   * The same scan as `Decoration.Strip`, step for step, but counting the
   * bytes it keeps instead of keeping them (`VisibleBytes` proves the two agree).
   */
  function Measure(s: string): Measured
  {
    if s == [] then Measured(0, false)
    else
      var prev := Measure(s[..|s| - 1]);
      var c := s[|s| - 1];
      if prev.within || c == ESC then Measured(prev.bytes, c != 'm')
      else Measured(prev.bytes + Utf8Length(c), false)
  }

  /** The width `render` gives a cell: the byte length of its visible text. */
  function Width(s: string): nat
  {
    Measure(s).bytes
  }

  /** Whether the scan ends `s` outside any escape sequence. */
  predicate Closed(s: string)
  {
    !Measure(s).within
  }

  function Spaces(n: nat): string
  {
    if n == 0 then "" else Spaces(n - 1) + " "
  }

  /**
   * `pad`: `s` followed by as many spaces as bring its width to `width`.
   * A cell already wider is left as it is; `render` never pads one.
   */
  function Padded(s: string, width: nat): string
  {
    if Width(s) <= width then s + Spaces(width - Width(s)) else s
  }

  /** The width is the byte length of what `clear_decoration` keeps, and the scans end in the same state. */
  lemma {:induction false} VisibleBytes(s: string)
    ensures Width(s) == ByteLength(Clear(s))
    ensures Closed(s) == !Strip(false, s).within
  {
    if s != [] {
      var s0 := s[..|s| - 1];
      var c := s[|s| - 1];
      VisibleBytes(s0);
      var t := Strip(false, s0).text;
      assert (t + [c])[..|t + [c]| - 1] == t;
    }
  }

  /** Spaces are visible, one byte each, and leave the scan outside any escape sequence. */
  lemma {:induction false} SpacesWidth(n: nat)
    ensures Measure(Spaces(n)) == Measured(n, false)
  {
    if n != 0 {
      SpacesWidth(n - 1);
    }
  }

  /** Widths add up across a split that the scan crosses outside any escape sequence. */
  lemma {:induction false} WidthConcat(a: string, b: string)
    requires Closed(a)
    ensures Measure(a + b) == Measured(Width(a) + Width(b), Measure(b).within)
  {
    if b == [] {
      assert a + b == a;
    } else {
      var b0 := b[..|b| - 1];
      assert (a + b)[..|a + b| - 1] == a + b0;
      WidthConcat(a, b0);
    }
  }

  /** A padded cell is exactly as wide as asked, unless the cell ends inside an escape sequence. */
  lemma PaddedWidth(s: string, width: nat)
    requires Width(s) <= width && Closed(s)
    ensures Measure(Padded(s, width)) == Measured(width, false)
  {
    var n := width - Width(s);
    assert Padded(s, width) == s + Spaces(n);
    SpacesWidth(n);
    WidthConcat(s, Spaces(n));
  }

  // ---------------------------------------------------------------------
  // Column sizes

  function Max(a: nat, b: nat): nat
  {
    if a < b then b else a
  }

  /** The widths of `cells`, in order. */
  function Widths(cells: seq<string>): (r: seq<nat>)
    ensures |r| == |cells|
  {
    if cells == [] then [] else Widths(cells[..|cells| - 1]) + [Width(cells[|cells| - 1])]
  }

  lemma {:induction false} WidthsAt(cells: seq<string>)
    ensures forall k :: 0 <= k < |cells| ==> Widths(cells)[k] == Width(cells[k])
  {
    if cells != [] {
      WidthsAt(cells[..|cells| - 1]);
    }
  }

  /** One row's pass of `render` over the column sizes: a new column is pushed, a wider cell raises its size. */
  function Widen(sizes: seq<nat>, row: seq<string>): (r: seq<nat>)
    ensures |r| == Max(|sizes|, |row|)
  {
    if row == [] then sizes
    else
      var prev := Widen(sizes, row[..|row| - 1]);
      var i := |row| - 1;
      var w := Width(row[i]);
      if i >= |prev| then prev + [w]
      else if w > prev[i] then prev[i := w]
      else prev
  }

  /** All rows' passes over the column sizes. */
  function WidenAll(sizes: seq<nat>, rows: seq<seq<string>>): (r: seq<nat>)
  {
    if rows == [] then sizes else Widen(WidenAll(sizes, rows[..|rows| - 1]), rows[|rows| - 1])
  }

  /** The sizes `render` starts from: the headers' widths, else the first row's, else none. */
  function InitialSizes(headers: Option<seq<string>>, rows: seq<seq<string>>): seq<nat>
  {
    match headers
    case Some(h) => Widths(h)
    case None => if |rows| > 0 then Widths(rows[0]) else []
  }

  function ColumnSizes(headers: Option<seq<string>>, rows: seq<seq<string>>): seq<nat>
  {
    WidenAll(InitialSizes(headers, rows), rows)
  }

  /** A row's pass keeps every old size as a lower bound, covers the row, and takes each size from the old sizes or the row. */
  lemma {:induction false} WidenBounds(sizes: seq<nat>, row: seq<string>)
    ensures forall k :: 0 <= k < |sizes| ==> sizes[k] <= Widen(sizes, row)[k]
    ensures forall k :: 0 <= k < |row| ==> Width(row[k]) <= Widen(sizes, row)[k]
    ensures forall k :: 0 <= k < |Widen(sizes, row)| ==>
      (k < |sizes| && Widen(sizes, row)[k] == sizes[k]) || (k < |row| && Widen(sizes, row)[k] == Width(row[k]))
  {
    if row != [] {
      WidenBounds(sizes, row[..|row| - 1]);
    }
  }

  /** The passes over all rows keep the old sizes as lower bounds and cover every row. */
  lemma {:induction false} WidenAllCovers(sizes: seq<nat>, rows: seq<seq<string>>)
    ensures |WidenAll(sizes, rows)| >= |sizes|
    ensures forall k :: 0 <= k < |sizes| ==> sizes[k] <= WidenAll(sizes, rows)[k]
    ensures forall j :: 0 <= j < |rows| ==> |rows[j]| <= |WidenAll(sizes, rows)|
    ensures forall j, k :: 0 <= j < |rows| && 0 <= k < |rows[j]| ==> Width(rows[j][k]) <= WidenAll(sizes, rows)[k]
  {
    if rows != [] {
      var front := rows[..|rows| - 1];
      var prev := WidenAll(sizes, front);
      WidenAllCovers(sizes, front);
      WidenBounds(prev, rows[|rows| - 1]);
      forall j | 0 <= j < |rows| - 1
        ensures |rows[j]| <= |WidenAll(sizes, rows)|
        ensures forall k :: 0 <= k < |rows[j]| ==> Width(rows[j][k]) <= WidenAll(sizes, rows)[k]
      {
        assert rows[j] == front[j];
      }
    }
  }

  /** Each size after the passes over all rows is an old size or the width of a cell in its column. */
  lemma {:induction false} WidenAllAttained(sizes: seq<nat>, rows: seq<seq<string>>, k: nat)
    requires k < |WidenAll(sizes, rows)|
    ensures (k < |sizes| && WidenAll(sizes, rows)[k] == sizes[k])
      || (exists j :: 0 <= j < |rows| && k < |rows[j]| && WidenAll(sizes, rows)[k] == Width(rows[j][k]))
  {
    if rows != [] {
      var front := rows[..|rows| - 1];
      var last := rows[|rows| - 1];
      var prev := WidenAll(sizes, front);
      WidenBounds(prev, last);
      if k < |prev| && WidenAll(sizes, rows)[k] == prev[k] {
        WidenAllAttained(sizes, front, k);
        if !(k < |sizes| && prev[k] == sizes[k]) {
          var j :| 0 <= j < |front| && k < |front[j]| && prev[k] == Width(front[j][k]);
          assert rows[j] == front[j];
        }
      } else {
        assert k < |last| && WidenAll(sizes, rows)[k] == Width(rows[|rows| - 1][k]);
      }
    }
  }

  /**
   * The column sizes `render` computes: one per column of the headers and of
   * every row, each at least the width of every cell in its column, and each
   * the width of some header or cell in its column.
   */
  lemma ColumnSizesAreMaxima(headers: Option<seq<string>>, rows: seq<seq<string>>)
    ensures headers.Some? ==> |headers.value| <= |ColumnSizes(headers, rows)|
    ensures headers.Some? ==> forall k :: 0 <= k < |headers.value| ==>
      Width(headers.value[k]) <= ColumnSizes(headers, rows)[k]
    ensures forall j :: 0 <= j < |rows| ==> |rows[j]| <= |ColumnSizes(headers, rows)|
    ensures forall j, k :: 0 <= j < |rows| && 0 <= k < |rows[j]| ==>
      Width(rows[j][k]) <= ColumnSizes(headers, rows)[k]
    ensures forall k :: 0 <= k < |ColumnSizes(headers, rows)| ==>
      (headers.Some? && k < |headers.value| && ColumnSizes(headers, rows)[k] == Width(headers.value[k]))
      || (exists j :: 0 <= j < |rows| && k < |rows[j]| && ColumnSizes(headers, rows)[k] == Width(rows[j][k]))
  {
    var init := InitialSizes(headers, rows);
    var sizes := ColumnSizes(headers, rows);
    WidenAllCovers(init, rows);
    match headers {
      case Some(h) =>
        WidthsAt(h);
      case None =>
        if |rows| > 0 {
          WidthsAt(rows[0]);
        }
    }
    forall k | 0 <= k < |sizes|
      ensures (headers.Some? && k < |headers.value| && sizes[k] == Width(headers.value[k]))
        || (exists j :: 0 <= j < |rows| && k < |rows[j]| && sizes[k] == Width(rows[j][k]))
    {
      WidenAllAttained(init, rows, k);
    }
  }

  // ---------------------------------------------------------------------
  // Layout

  /** Whether every cell of `cells` has a column size at least its width. */
  predicate Fits(cells: seq<string>, sizes: seq<nat>)
  {
    |cells| <= |sizes| && forall k :: 0 <= k < |cells| ==> Width(cells[k]) <= sizes[k]
  }

  /** The cells of one line, each padded to its column size plus two. */
  function PaddedCells(cells: seq<string>, sizes: seq<nat>): (r: seq<string>)
    requires |cells| <= |sizes|
    ensures |r| == |cells|
  {
    seq(|cells|, k requires 0 <= k < |cells| => Padded(cells[k], sizes[k] + 2))
  }

  /** The parts, one after another. */
  function Concat(parts: seq<string>): string
  {
    if parts == [] then "" else Concat(parts[..|parts| - 1]) + parts[|parts| - 1]
  }

  /** One line of the grid, without its newline. */
  function Line(cells: seq<string>, sizes: seq<nat>): string
    requires |cells| <= |sizes|
  {
    Concat(PaddedCells(cells, sizes))
  }

  lemma AppendAssoc(a: string, b: string, c: string)
    ensures (a + b) + c == a + (b + c)
  {
  }

  lemma AppendEmpty(a: string)
    ensures "" + a == a
  {
  }

  lemma {:induction false} ConcatAppend(a: seq<string>, b: seq<string>)
    ensures Concat(a + b) == Concat(a) + Concat(b)
  {
    if b == [] {
      assert a + b == a;
    } else {
      var b0 := b[..|b| - 1];
      assert (a + b)[..|a + b| - 1] == a + b0;
      ConcatAppend(a, b0);
    }
  }

  /** A line is the line of all cells but the last, then the last cell padded. */
  lemma LineSnoc(cells: seq<string>, sizes: seq<nat>)
    requires 1 <= |cells| <= |sizes|
    ensures Line(cells, sizes) == Line(cells[..|cells| - 1], sizes) + Padded(cells[|cells| - 1], sizes[|cells| - 1] + 2)
  {
    var n := |cells| - 1;
    assert PaddedCells(cells, sizes)[..n] == PaddedCells(cells[..n], sizes);
  }

  /** The lines of `rows`, each followed by a newline. */
  function Lines(rows: seq<seq<string>>, sizes: seq<nat>): (r: seq<string>)
    requires forall j :: 0 <= j < |rows| ==> |rows[j]| <= |sizes|
    ensures |r| == |rows|
  {
    seq(|rows|, j requires 0 <= j < |rows| => Line(rows[j], sizes) + "\n")
  }

  function Body(rows: seq<seq<string>>, sizes: seq<nat>): string
    requires forall j :: 0 <= j < |rows| ==> |rows[j]| <= |sizes|
  {
    Concat(Lines(rows, sizes))
  }

  /** The number of columns covers the headers and every row. */
  lemma ColumnCount(headers: Option<seq<string>>, rows: seq<seq<string>>)
    ensures headers.Some? ==> |headers.value| <= |ColumnSizes(headers, rows)|
    ensures forall j :: 0 <= j < |rows| ==> |rows[j]| <= |ColumnSizes(headers, rows)|
  {
    WidenAllCovers(InitialSizes(headers, rows), rows);
  }

  lemma BodySnoc(rows: seq<seq<string>>, sizes: seq<nat>, j: nat)
    requires forall i :: 0 <= i < |rows| ==> |rows[i]| <= |sizes|
    requires j < |rows|
    ensures Body(rows[..j + 1], sizes) == Body(rows[..j], sizes) + (Line(rows[j], sizes) + "\n")
  {
    assert Lines(rows[..j + 1], sizes)[..j] == Lines(rows[..j], sizes);
  }

  /** `render`: the header line, when there are headers, then one line per row. */
  function Rendered(headers: Option<seq<string>>, rows: seq<seq<string>>): string
  {
    var sizes := ColumnSizes(headers, rows);
    ColumnCount(headers, rows);
    (if headers.Some? then Line(headers.value, sizes) + "\n" else "") + Body(rows, sizes)
  }

  /** The sum, over the first `n` columns, of the column size plus two. */
  function Offset(sizes: seq<nat>, n: nat): nat
    requires n <= |sizes|
  {
    if n == 0 then 0 else Offset(sizes, n - 1) + sizes[n - 1] + 2
  }

  /** A line of cells that fit and end outside escape sequences is as wide as its columns, spacing included. */
  lemma {:induction false} LineWidth(cells: seq<string>, sizes: seq<nat>)
    requires Fits(cells, sizes)
    requires forall k :: 0 <= k < |cells| ==> Closed(cells[k])
    ensures Measure(Line(cells, sizes)) == Measured(Offset(sizes, |cells|), false)
  {
    if cells == [] {
      assert Measure("") == Measured(0, false);
    } else {
      var n := |cells| - 1;
      var line, cell := Line(cells[..n], sizes), Padded(cells[n], sizes[n] + 2);
      assert Line(cells, sizes) == line + cell by { LineSnoc(cells, sizes); }
      assert Measure(line) == Measured(Offset(sizes, n), false) by {
        PrefixFits(cells, sizes, n);
        LineWidth(cells[..n], sizes);
      }
      assert Measure(cell) == Measured(sizes[n] + 2, false) by { PaddedWidth(cells[n], sizes[n] + 2); }
      ClosedConcat(line, cell, Offset(sizes, n), sizes[n] + 2);
    }
  }

  /** Two texts that each end outside escape sequences: their widths add up and so does the whole. */
  lemma ClosedConcat(a: string, b: string, wa: nat, wb: nat)
    requires Measure(a) == Measured(wa, false) && Measure(b) == Measured(wb, false)
    ensures Measure(a + b) == Measured(wa + wb, false)
  {
    WidthConcat(a, b);
  }

  /** The line of the first `i + 1` cells extends the line of the first `i`. */
  lemma LinePrefixSnoc(cells: seq<string>, sizes: seq<nat>, i: nat)
    requires i < |cells| <= |sizes|
    ensures Line(cells[..i + 1], sizes) == Line(cells[..i], sizes) + Padded(cells[i], sizes[i] + 2)
  {
    LineSnoc(cells[..i + 1], sizes);
    assert cells[..i + 1][..i] == cells[..i];
  }

  lemma PaddedCellsAt(cells: seq<string>, sizes: seq<nat>, k: nat)
    requires |cells| <= |sizes| && k < |cells|
    ensures PaddedCells(cells, sizes)
      == PaddedCells(cells[..k], sizes) + [Padded(cells[k], sizes[k] + 2)] + PaddedCells(cells[k + 1..], sizes[k + 1..])
  {
  }

  /** A line is the line of the cells before column `k`, the cell of column `k` padded, then the line of the rest. */
  lemma LineAt(cells: seq<string>, sizes: seq<nat>, k: nat)
    requires |cells| <= |sizes| && k < |cells|
    ensures Line(cells, sizes)
      == Line(cells[..k], sizes) + Padded(cells[k], sizes[k] + 2) + Line(cells[k + 1..], sizes[k + 1..])
  {
    var front := PaddedCells(cells[..k], sizes);
    var cell := Padded(cells[k], sizes[k] + 2);
    var back := PaddedCells(cells[k + 1..], sizes[k + 1..]);
    PaddedCellsAt(cells, sizes, k);
    ConcatAppend(front + [cell], back);
    ConcatAppend(front, [cell]);
    assert Concat([cell]) == cell by {
      assert [cell][..0] == [];
    }
  }

  /**
   * Columns line up: in every line, the cell of column `k` is padded to its
   * column size plus two and starts after exactly `Offset(sizes, k)` bytes of
   * visible text, whatever the row.
   */
  lemma ColumnStart(cells: seq<string>, sizes: seq<nat>, k: nat)
    requires Fits(cells, sizes) && k < |cells|
    requires forall m :: 0 <= m < |cells| ==> Closed(cells[m])
    ensures Line(cells, sizes)
      == Line(cells[..k], sizes) + Padded(cells[k], sizes[k] + 2) + Line(cells[k + 1..], sizes[k + 1..])
    ensures Measure(Line(cells[..k], sizes)) == Measured(Offset(sizes, k), false)
  {
    LineAt(cells, sizes, k);
    PrefixFits(cells, sizes, k);
    LineWidth(cells[..k], sizes);
  }

  lemma PrefixFits(cells: seq<string>, sizes: seq<nat>, k: nat)
    requires Fits(cells, sizes) && k <= |cells|
    requires forall m :: 0 <= m < |cells| ==> Closed(cells[m])
    ensures Fits(cells[..k], sizes)
    ensures forall m :: 0 <= m < k ==> Closed(cells[..k][m])
  {
    assert forall m :: 0 <= m < k ==> cells[..k][m] == cells[m];
  }

  /** Number of newlines in `s`. */
  function Newlines(s: string): nat
  {
    if s == [] then 0 else Newlines(s[..|s| - 1]) + (if s[|s| - 1] == '\n' then 1 else 0)
  }

  lemma {:induction false} SpacesHaveNoNewline(n: nat)
    ensures Newlines(Spaces(n)) == 0
  {
    if n != 0 {
      SpacesHaveNoNewline(n - 1);
    }
  }

  /** The newlines of the parts add up: with one newline in each part, one per part in all. */
  lemma {:induction false} ConcatNewlines(parts: seq<string>, each: nat)
    requires each <= 1
    requires forall i :: 0 <= i < |parts| ==> Newlines(parts[i]) == each
    ensures Newlines(Concat(parts)) == if each == 0 then 0 else |parts|
  {
    if parts != [] {
      var n := |parts| - 1;
      var front := Concat(parts[..n]);
      ConcatNewlines(parts[..n], each);
      NewlinesConcat(front, parts[n]);
    }
  }

  lemma {:induction false} NewlinesConcat(a: string, b: string)
    ensures Newlines(a + b) == Newlines(a) + Newlines(b)
  {
    if b == [] {
      assert a + b == a;
    } else {
      var b0 := b[..|b| - 1];
      assert (a + b)[..|a + b| - 1] == a + b0;
      NewlinesConcat(a, b0);
    }
  }

  lemma {:induction false} NoNewline(s: string)
    requires '\n' !in s
    ensures Newlines(s) == 0
  {
    if s != [] {
      NoNewline(s[..|s| - 1]);
    }
  }

  lemma SpacesAddNoNewline(s: string, n: nat)
    ensures Newlines(s + Spaces(n)) == Newlines(s)
  {
    SpacesHaveNoNewline(n);
    NewlinesConcat(s, Spaces(n));
  }

  lemma PaddedHasNoNewline(s: string, width: nat)
    requires '\n' !in s
    ensures Newlines(Padded(s, width)) == 0
  {
    NoNewline(s);
    if Width(s) <= width {
      SpacesAddNoNewline(s, width - Width(s));
    }
  }

  lemma LineHasNoNewline(cells: seq<string>, sizes: seq<nat>)
    requires |cells| <= |sizes|
    requires forall k :: 0 <= k < |cells| ==> '\n' !in cells[k]
    ensures Newlines(Line(cells, sizes)) == 0
  {
    var parts := PaddedCells(cells, sizes);
    forall i | 0 <= i < |parts|
      ensures Newlines(parts[i]) == 0
    {
      PaddedHasNoNewline(cells[i], sizes[i] + 2);
    }
    ConcatNewlines(parts, 0);
  }

  lemma BodyNewlines(rows: seq<seq<string>>, sizes: seq<nat>)
    requires forall j :: 0 <= j < |rows| ==> |rows[j]| <= |sizes|
    requires forall j, k :: 0 <= j < |rows| && 0 <= k < |rows[j]| ==> '\n' !in rows[j][k]
    ensures Newlines(Body(rows, sizes)) == |rows|
  {
    var parts := Lines(rows, sizes);
    forall j | 0 <= j < |parts|
      ensures Newlines(parts[j]) == 1
    {
      LineHasNoNewline(rows[j], sizes);
      NewlinesConcat(Line(rows[j], sizes), "\n");
    }
    ConcatNewlines(parts, 1);
  }

  /** When no cell holds a newline, the rendering has one line per row plus one for the headers. */
  lemma RenderedLineCount(headers: Option<seq<string>>, rows: seq<seq<string>>)
    requires headers.Some? ==> forall k :: 0 <= k < |headers.value| ==> '\n' !in headers.value[k]
    requires forall j, k :: 0 <= j < |rows| && 0 <= k < |rows[j]| ==> '\n' !in rows[j][k]
    ensures Newlines(Rendered(headers, rows)) == |rows| + (if headers.Some? then 1 else 0)
  {
    var sizes := ColumnSizes(headers, rows);
    ColumnCount(headers, rows);
    BodyNewlines(rows, sizes);
    if headers.Some? {
      var line := Line(headers.value, sizes);
      LineHasNoNewline(headers.value, sizes);
      NewlinesConcat(line, "\n");
      NewlinesConcat(line + "\n", Body(rows, sizes));
    } else {
      assert Rendered(headers, rows) == "" + Body(rows, sizes);
      NewlinesConcat("", Body(rows, sizes));
    }
  }

  /** Every header and every row fits the column sizes `render` computes. */
  lemma RowsFit(headers: Option<seq<string>>, rows: seq<seq<string>>)
    ensures headers.Some? ==> Fits(headers.value, ColumnSizes(headers, rows))
    ensures forall j :: 0 <= j < |rows| ==> Fits(rows[j], ColumnSizes(headers, rows))
  {
    ColumnSizesAreMaxima(headers, rows);
  }

  // ---------------------------------------------------------------------
  // The grid object

  class GridDisplay {
    var headers: Option<seq<string>>
    var rows: seq<seq<string>>

    /** `empty`: no headers and no rows. */
    constructor Empty()
      ensures headers == None && rows == []
    {
      headers := None;
      rows := [];
    }

    /** `new`: the given headers and no rows. */
    constructor New(h: seq<string>)
      ensures headers == Some(h) && rows == []
    {
      headers := Some(h);
      rows := [];
    }

    /** `set_header`: replaces the headers; the rows are unchanged. */
    method SetHeader(h: seq<string>)
      modifies this
      ensures headers == Some(h) && rows == old(rows)
    {
      headers := Some(h);
    }

    /** `add_row`: appends a row; the headers are unchanged. */
    method AddRow(row: seq<string>)
      modifies this
      ensures rows == old(rows) + [row] && headers == old(headers)
    {
      rows := rows + [row];
    }

    /** `pad`: appends spaces one at a time until the visible width reaches `width`. */
    static method Pad(s: string, width: nat) returns (r: string)
      requires Width(s) <= width
      ensures r == Padded(s, width)
    {
      r := s;
      var visible := ClearDecoration(s);
      VisibleBytes(s);
      var count := width - ByteLength(visible);
      var i := 0;
      while i < count
        invariant 0 <= i <= count
        invariant r == s + Spaces(i)
      {
        r := r + " ";
        i := i + 1;
      }
    }

    /** `render`: computes the column sizes, then pads every cell to its column size plus two. */
    method Render() returns (r: string)
      ensures r == Rendered(headers, rows)
    {
      var sizes := StartSizes(headers, rows);
      sizes := WidenRows(sizes, rows);
      RowsFit(headers, rows);
      ColumnCount(headers, rows);
      r := "";
      if headers.Some? {
        r := WriteLine(r, headers.value, sizes);
        AppendEmpty(Line(headers.value, sizes));
        r := r + "\n";
      }
      r := WriteBody(r, rows, sizes);
    }

    /** The first pass of `render`: the widths of the headers, else of the first row. */
    static method StartSizes(headers: Option<seq<string>>, rows: seq<seq<string>>) returns (sizes: seq<nat>)
      ensures sizes == InitialSizes(headers, rows)
    {
      sizes := [];
      match headers {
        case Some(h) =>
          sizes := CellWidths(h);
        case None =>
          if |rows| > 0 {
            sizes := CellWidths(rows[0]);
          }
      }
    }

    /** Pushes the width of each cell in turn. */
    static method CellWidths(cells: seq<string>) returns (sizes: seq<nat>)
      ensures sizes == Widths(cells)
    {
      sizes := [];
      var i := 0;
      while i < |cells|
        invariant 0 <= i <= |cells|
        invariant sizes == Widths(cells[..i])
      {
        assert cells[..i + 1][..i] == cells[..i];
        var visible := ClearDecoration(cells[i]);
        VisibleBytes(cells[i]);
        sizes := sizes + [ByteLength(visible)];
        i := i + 1;
      }
      assert cells[..i] == cells;
    }

    /** The second pass of `render`: every row widens the column sizes. */
    static method WidenRows(init: seq<nat>, rows: seq<seq<string>>) returns (sizes: seq<nat>)
      ensures sizes == WidenAll(init, rows)
    {
      sizes := init;
      var j := 0;
      while j < |rows|
        invariant 0 <= j <= |rows|
        invariant sizes == WidenAll(init, rows[..j])
      {
        assert rows[..j + 1][..j] == rows[..j];
        sizes := WidenRow(sizes, rows[j]);
        j := j + 1;
      }
      assert rows[..j] == rows;
    }

    /** One row's pass: a new column is pushed, a wider cell raises its column's size. */
    static method WidenRow(before: seq<nat>, row: seq<string>) returns (sizes: seq<nat>)
      ensures sizes == Widen(before, row)
    {
      sizes := before;
      var i := 0;
      while i < |row|
        invariant 0 <= i <= |row|
        invariant sizes == Widen(before, row[..i])
      {
        assert row[..i + 1][..i] == row[..i];
        var visible := ClearDecoration(row[i]);
        VisibleBytes(row[i]);
        var w := ByteLength(visible);
        if i >= |sizes| {
          sizes := sizes + [w];
        } else if w > sizes[i] {
          sizes := sizes[i := w];
        }
        i := i + 1;
      }
      assert row[..i] == row;
    }

    /** Appends to `prefix` the cells of one line, each padded to its column size plus two. */
    static method WriteLine(prefix: string, cells: seq<string>, sizes: seq<nat>) returns (r: string)
      requires Fits(cells, sizes)
      ensures r == prefix + Line(cells, sizes)
    {
      r := prefix;
      var i := 0;
      while i < |cells|
        invariant 0 <= i <= |cells|
        invariant r == prefix + Line(cells[..i], sizes)
      {
        LinePrefixSnoc(cells, sizes, i);
        var cell := Pad(cells[i], sizes[i] + 2);
        AppendAssoc(prefix, Line(cells[..i], sizes), cell);
        r := r + cell;
        i := i + 1;
      }
      assert cells[..i] == cells;
    }

    /** Appends to `prefix` one line per row, each followed by a newline. */
    static method WriteBody(prefix: string, rows: seq<seq<string>>, sizes: seq<nat>) returns (r: string)
      requires forall j :: 0 <= j < |rows| ==> |rows[j]| <= |sizes|
      requires forall j :: 0 <= j < |rows| ==> Fits(rows[j], sizes)
      ensures r == prefix + Body(rows, sizes)
    {
      r := prefix;
      var j := 0;
      while j < |rows|
        invariant 0 <= j <= |rows|
        invariant r == prefix + Body(rows[..j], sizes)
      {
        BodySnoc(rows, sizes, j);
        var before := r;
        r := WriteLine(r, rows[j], sizes);
        r := r + "\n";
        AppendAssoc(before, Line(rows[j], sizes), "\n");
        AppendAssoc(prefix, Body(rows[..j], sizes), Line(rows[j], sizes) + "\n");
        j := j + 1;
      }
      assert rows[..j] == rows;
    }
  }
}
