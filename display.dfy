/** The `CalculonDisplay` object of calculon/display.py: its configuration,
    the state it keeps between redraws, the region painters and the
    `redraw` pass that decides which of them to run. Terminal output is
    the `writes` log: every painter is proved to append exactly the events
    the Render module defines for it. */
module Display {
  import opened Options
  import opened Numerals
  import opened Formatter
  import opened Geometry
  import opened DirtyState
  import opened Render
  import opened RenderProofs

  /** The configuration the constructor reads (`bin_mode`, `bits`,
      `formats`, `align`, `padding`, `attrs`). */
  datatype Config = Config(
    binMode: string, bits: nat, formats: seq<char>, align: string,
    padding: Padding, attrs: Attrs)

  // ------------------------------------------- arithmetic of the digit loop

  /** Index i = r*m + j of a row of m digits, m a multiple of 8: the row and
      the column within it, and the same residues modulo 8 and 4. */
  lemma RowAndColumn(i: nat, m: nat, r: nat, j: nat)
    requires m > 0 && m % 8 == 0 && i == r * m + j && j < m
    ensures i / m == r && i % m == j
    ensures i % 8 == j % 8 && i % 4 == j % 4
  {
    DivModUnique(i, m, r, j);
    var k := m / 8;
    assert m == 8 * k;
    assert i == (r * k) * 8 + j;
    DivModUnique(i, 8, r * k + j / 8, j % 8);
    DivModUnique(i, 4, 2 * r * k + j / 4, j % 4);
  }

  /** The digit after the one at row r, column j: the next row starts
      exactly when column j was the last of its row. */
  lemma NextDigit(i: nat, m: nat, r: nat, j: nat)
    requires m > 0 && m % 8 == 0 && i == r * m + j + 1 && j < m
    ensures j + 1 == m ==> i % m == 0 && i == (r + 1) * m + 0
    ensures j + 1 < m ==> i % m != 0 && i % 8 == (j + 1) % 8 && i % 4 == (j + 1) % 4
  {
    if j + 1 == m {
      assert i == (r + 1) * m + 0;
      RowAndColumn(i, m, r + 1, 0);
    } else {
      RowAndColumn(i, m, r, j + 1);
    }
  }

  /** How the gap before the next digit of a row grows: three columns at a
      multiple of 8, one at any other multiple of 4, none otherwise. */
  lemma GapStep(j: nat)
    ensures (j + 1) % 8 == 0 ==> (j + 1) / 8 == j / 8 + 1 && (j + 1) / 4 == j / 4 + 1
    ensures (j + 1) % 8 != 0 && (j + 1) % 4 == 0 ==> (j + 1) / 8 == j / 8 && (j + 1) / 4 == j / 4 + 1
    ensures (j + 1) % 4 != 0 ==> (j + 1) / 8 == j / 8 && (j + 1) / 4 == j / 4
  {
  }

  // ---------------------------------------------------------------- object

  class CalculonDisplay {
    const binMode: string
    const formats: seq<char>
    const align: string
    const padding: Padding
    const attrs: Attrs
    const header: string
    const showHeader: bool

    var curBinMode: Option<BinMode>
    var bits: nat
    var binRow: nat
    var voltronStatus: Option<bool>
    var lastval: Option<nat>
    var exprs: seq<Expr>
    /** The `draw_state` dictionary, one field per key. */
    var dirtyHeader: bool
    var dirtyValue: bool
    var dirtyVallabel: bool
    var dirtyBinlabel: bool
    var dirtyVarlabel: bool
    var dirtyVarvalue: bool
    var dirtyExprlabel: bool
    var dirtyExprvalue: bool
    var dirtyAll: bool
    /** The module-level `needs_redraw` flag, set by the resize handler. */
    var needsRedraw: bool
    /** Everything written to the terminal so far. */
    var writes: seq<Event>

    /** What the painters read from the object. */
    function Scene(): Scene
      reads this`curBinMode, this`bits, this`binRow, this`lastval, this`exprs, this`voltronStatus
    {
      Render.Scene(padding, formats, align, attrs, header, showHeader,
                   curBinMode, bits, binRow, lastval, exprs, voltronStatus)
    }

    /** The `draw_state` dictionary as one value. */
    function Flags(): DrawState
      reads this`dirtyHeader, this`dirtyValue, this`dirtyVallabel, this`dirtyBinlabel, this`dirtyVarlabel
      reads this`dirtyVarvalue, this`dirtyExprlabel, this`dirtyExprvalue, this`dirtyAll
    {
      DrawState(dirtyHeader, dirtyValue, dirtyVallabel, dirtyBinlabel, dirtyVarlabel,
                dirtyVarvalue, dirtyExprlabel, dirtyExprvalue, dirtyAll)
    }

    /** The row size matches the mode and the width is a whole number of rows,
      as `update_bin_mode` leaves them. */
    predicate Resolved()
      reads this`curBinMode, this`bits, this`binRow
    {
      binRow == RowSize(curBinMode) && bits % binRow == 0
    }

    constructor (config: Config, width: nat)
      ensures binMode == config.binMode && formats == config.formats && align == config.align
      ensures padding == config.padding && attrs == config.attrs
      ensures header == "calculon" && showHeader
      ensures voltronStatus == None
      ensures Started(config.bits, width)
    {
      binMode := config.binMode;
      formats := config.formats;
      align := config.align;
      padding := config.padding;
      attrs := config.attrs;
      header := "calculon";
      showHeader := true;
      curBinMode := None;
      bits := config.bits;
      binRow := WIDE_ROW;
      voltronStatus := None;
      lastval := Some(0);
      exprs := [];
      dirtyHeader, dirtyValue, dirtyVallabel, dirtyBinlabel, dirtyVarlabel := true, true, true, true, true;
      dirtyVarvalue, dirtyExprlabel, dirtyExprvalue, dirtyAll := true, true, true, true;
      needsRedraw := false;
      writes := [];
      new;
      Start(width);
    }

    /** The state the closing `update_value(0)` of `__init__` leaves: no
        expressions, the value 0, the binary mode resolved for the width
        and `bits` rounded up to whole rows, every flag a pass paints from
        lowered, and the screen painted by one full pass. */
    ghost predicate Started(configBits: nat, width: nat)
      reads this
    {
      exprs == [] && lastval == Some(0) && !needsRedraw &&
      curBinMode == ResolveMode(binMode, width, None) && binRow == RowSize(curBinMode) &&
      bits == RoundUp(configBits, binRow) &&
      Flags() == Settled(ALL_DIRTY) &&
      writes == PassEvents(Scene(), ALL_DIRTY, width)
    }

    /** The closing `update_value(0)` of `__init__`, from the flags and the
        empty expression list it sets up. */
    method Start(width: nat)
      requires Flags() == ALL_DIRTY && exprs == [] && curBinMode == None && writes == []
      modifies this`lastval, this`curBinMode, this`binRow, this`bits, this`needsRedraw, this`writes
      modifies this`dirtyHeader, this`dirtyValue, this`dirtyVallabel, this`dirtyExprlabel, this`dirtyExprvalue, this`dirtyAll
      ensures Started(old(bits), width)
    {
      var ok;
      ghost var f;
      ok, f := UpdateValue(Some(0), width);
      assert f == ALL_DIRTY;
    }

    // ------------------------------------------------------- terminal output

    /** `draw_str`: one text write at a position. */
    method DrawStr(text: string, attr: string, x: int, y: int)
      modifies this`writes
      ensures writes == old(writes) + [Str(x, y, attr, text)]
    {
      writes := writes + [Str(x, y, attr, text)];
    }

    /** `term.clear()`. */
    method ClearScreen()
      modifies this`writes
      ensures writes == old(writes) + [Clear]
    {
      writes := writes + [Clear];
    }

    // -------------------------------------------------------------- painters

    method DrawHeader(width: nat)
      modifies this`writes
      ensures writes == old(writes) + HeaderEvents(Scene(), width)
    {
      if showHeader {
        DrawStr(Spaces(width), attrs.header, 0, 0);
        DrawStr(header, attrs.header, padding.left, 0);
        if voltronStatus != None {
          var status := VoltronBanner(voltronStatus.value);
          var x := width - |status| - padding.right;
          DrawStr(status, attrs.header, x, 0);
        }
      }
    }

    method ClearValue(ghost sc: Scene)
      requires sc == Scene()
      modifies this`writes
      ensures writes == old(writes) + ClearValueEvents(sc)
    {
      var fs := ValueFormats(formats);
      var y := padding.top;
      var i := 0;
      while i < |fs|
        invariant 0 <= i <= |fs| && y == padding.top + i && Scene() == sc
        invariant writes == old(writes) + ClearValueRows(sc, i)
      {
        var w := NumCols(Scene().Layout()) - padding.left - 2 - padding.right - padding.labelPad * 2;
        var x := padding.left + 2;
        DrawStr(Spaces(w), "", x, y);
        y := y + 1;
        i := i + 1;
      }
    }

    method DrawValueAtRow(value: Option<nat>, fmt: char, row: int, ghost sc: Scene)
      requires sc == Scene() && (value.None? || fmt in ROW_FORMATS)
      modifies this`writes
      ensures writes == old(writes) + ValueRowEvents(sc, value, fmt, row)
    {
      var fmtd, attr := FormatValue(value, fmt);
      if align == "right" {
        var col := NumCols(Scene().Layout()) - padding.right - padding.labelPad - |fmtd| - 2;
        DrawStr(fmtd, attr, col, row);
      } else if align == "left" {
        var col := padding.left + 2 + padding.labelPad;
        DrawStr(fmtd, attr, col, row);
      }
    }

    /** The first half of `draw_value_at_row`: the text and style of a value
        in one format, the ASCII bytes built character by character. */
    method FormatValue(value: Option<nat>, fmt: char) returns (fmtd: string, attr: string)
      requires value.None? || fmt in ROW_FORMATS
      ensures Styled(fmtd, attr) == ValueText(value, fmt, bits, attrs)
    {
      if value == None {
        fmtd := UNDEFINED;
        attr := attrs.err;
      } else {
        var n := value.value;
        fmtd := "";
        if fmt == 'h' {
          fmtd := "0x" + ToBase(n, 16);
          attr := attrs.hval;
        } else if fmt == 'd' {
          fmtd := ToBase(n, 10);
          attr := attrs.dval;
        } else if fmt == 'o' {
          fmtd := ToBase(n, 8);
          attr := attrs.oval;
        } else if fmt == 'a' {
          var a := AsciiBytes(n, bits);
          var i := 0;
          while i < |a|
            invariant 0 <= i <= |a|
            invariant fmtd == AsciiText(a[..i])
          {
            var c := a[i];
            if !IsPrintable(c) || c == 10 {
              fmtd := fmtd + ".";
            } else {
              var ch := c as char;
              fmtd := fmtd + [ch];
              if ch == '{' || ch == '}' {
                fmtd := fmtd + [ch];
              }
            }
            AsciiTextSnoc(a[..i], c);
            assert a[..i + 1] == a[..i] + [c];
            i := i + 1;
          }
          assert a[..i] == a;
          attr := attrs.aval;
        } else {
          attr := attrs.uval;
        }
      }
    }

    method DrawValue()
      modifies this`writes
      ensures writes == old(writes) + ValueEvents(Scene())
    {
      var fs := ValueFormats(formats);
      ValueFormatsRowCodes(formats);
      DrawValueRows(fs, Scene());
    }

    /** The loop of `draw_value`: one row per format of `fs`, from the top padding down. */
    method DrawValueRows(fs: seq<char>, ghost sc: Scene)
      requires sc == Scene() && RowCodes(fs)
      modifies this`writes
      ensures writes == old(writes) + ValueRows(sc, sc.lastval, fs, sc.padding.top, |fs|)
    {
      var y := padding.top;
      var i := 0;
      while i < |fs|
        invariant 0 <= i <= |fs| && y == padding.top + i && Scene() == sc
        invariant writes == old(writes) + ValueRows(sc, sc.lastval, fs, padding.top, i)
      {
        ghost var before := writes;
        DrawValueAtRow(lastval, fs[i], y, sc);
        ValueRowsStep(sc, sc.lastval, fs, padding.top, i, old(writes), before, writes);
        y := y + 1;
        i := i + 1;
      }
    }

    method DrawValueLabels()
      modifies this`writes
      ensures writes == old(writes) + ValueLabelEvents(Scene())
    {
      var fs := ValueFormats(formats);
      var y := padding.top;
      var i := 0;
      while i < |fs|
        invariant 0 <= i <= |fs| && y == padding.top + i
        invariant writes == old(writes) + LabelRows(Scene(), fs, padding.top, i)
      {
        DrawLabelsAtRow(fs[i], y);
        y := y + 1;
        i := i + 1;
      }
    }

    /** `draw_labels_at_row`; its optional label is never passed. */
    method DrawLabelsAtRow(fmt: char, row: int)
      modifies this`writes
      ensures writes == old(writes) + LabelRowEvents(Scene(), fmt, row)
    {
      if align == "right" {
        var col := NumCols(Scene().Layout()) - padding.right - padding.labelPad;
        DrawStr([fmt], attrs.vallabel, col, row);
      } else if align == "left" {
        DrawStr([fmt], attrs.vallabel, padding.left, row);
      }
    }

    /** `draw_binary`: the digits left to right, a new row every `bin_row`
        digits, a wider gap after every fourth and eighth digit. With no
        value, formatting it raises and nothing is written. */
    method DrawBinary(ghost sc: Scene) returns (ok: bool)
      requires sc == Scene() && binRow == RowSize(curBinMode)
      modifies this`writes
      ensures ok == sc.lastval.Some?
      ensures ok ==> writes == old(writes) + BinaryEvents(sc, sc.lastval.value)
      ensures !ok ==> writes == old(writes)
    {
      if lastval == None {
        return false;
      }
      var v := lastval.value;
      var s := BinaryText(v, bits);
      var y := |ValueFormats(formats)| + padding.top + padding.bintop;
      var attr := if v >= Pow(2, bits) then attrs.err else attrs.bval;
      assert y == BinaryTop(sc) && attr == BinaryAttr(sc, v);
      DrawDigits(s, attr, y);
      return true;
    }

    /** The loop of `draw_binary` over the digit string `s`, starting at row `top`. */
    method DrawDigits(s: string, attr: string, top: int)
      requires binRow == RowSize(curBinMode)
      modifies this`writes
      ensures writes == old(writes) + DigitGrid(padding.left, binRow, top, attr, s)
    {
      var y := top;
      var x := padding.left;
      var p := 0;
      ghost var r: nat := 0;
      ghost var j: nat := 0;
      var i := 0;
      while i < |s|
        invariant 0 <= i <= |s|
        invariant i == 0 ==> x == padding.left && p == 0 && y == top
        invariant i > 0 ==> i - 1 == r * binRow + j && j < binRow
        invariant i > 0 ==> x == padding.left + j + 1 && x * 2 + p == DigitColumn(padding.left, j) && y == top + r
        invariant writes == old(writes) + DigitGrid(padding.left, binRow, top, attr, s[..i])
      {
        ghost var r', j';
        x, p, y, r', j' := NextPosition(i, x, p, y, r, j);
        assert s[..i + 1][..i] == s[..i];
        assert DigitGrid(padding.left, binRow, top, attr, s[..i + 1]) ==
          DigitGrid(padding.left, binRow, top, attr, s[..i]) + [Str(x * 2 + p, y, attr, [s[i]])];
        DrawStr([s[i]], attr, x * 2 + p, y);
        r, j := r', j';
        i := i + 1;
      }
      assert s[..i] == s;
    }

    /** One step of `draw_binary`'s loop before the write: start a new row
        every `bin_row` digits, widen the gap after every eighth and fourth
        digit, move one digit right. Digit i = r*bin_row + j lands at
        column j of row r. */
    method NextPosition(i: nat, x: int, p: int, y: int, ghost r: nat, ghost j: nat)
      returns (x': int, p': int, y': int, ghost r': nat, ghost j': nat)
      requires binRow == RowSize(curBinMode)
      requires i == 0 ==> x == padding.left && p == 0
      requires i > 0 ==> (i - 1 == r * binRow + j && j < binRow && x == padding.left + j + 1 &&
        x * 2 + p == DigitColumn(padding.left, j))
      ensures i == r' * binRow + j' && j' < binRow && i / binRow == r' && i % binRow == j'
      ensures x' == padding.left + j' + 1 && x' * 2 + p' == DigitColumn(padding.left, j')
      ensures i == 0 ==> r' == 0 && y' == y
      ensures i > 0 ==> y' - y == r' - r
    {
      x', p', y' := x, p, y;
      if i > 0 {
        NextDigit(i, binRow, r, j);
      }
      if i != 0 && i % binRow == 0 {
        y' := y' + 1;
        x' := padding.left;
        p' := 0;
        r', j' := r + 1, 0;
      } else if i == 0 {
        r', j' := 0, 0;
      } else {
        r', j' := r, j + 1;
        GapStep(j);
        if i % 8 == 0 {
          p' := p' + 3;
        } else if i % 4 == 0 {
          p' := p' + 1;
        }
      }
      x' := x' + 1;
      RowAndColumn(i, binRow, r', j');
    }

    /** `draw_binary_labels`: bottom row first, each row's highest bit index
        on the left and its lowest on the right. */
    method DrawBinaryLabels(ghost sc: Scene)
      requires sc == Scene() && binRow > 0
      modifies this`writes
      ensures writes == old(writes) + BinaryLabelEvents(sc)
    {
      var rows := bits / binRow;
      var y := OffsetBin(Scene().Layout()) + padding.bintop + rows - 1;
      var i := 0;
      while i < rows
        invariant 0 <= i <= rows && y == BinaryTop(sc) + rows - 1 - i && Scene() == sc
        invariant writes == old(writes) + BinaryLabelRows(sc, i)
      {
        MulMono(1, i + 1, binRow);
        var right := ToBase(i * binRow, 10);
        var left := ToBase((i + 1) * binRow - 1, 10);
        DrawStr(left, attrs.binlabel, padding.left, y);
        DrawStr(right, attrs.binlabel, NumCols(Scene().Layout()) - padding.right - 2, y);
        y := y - 1;
        i := i + 1;
      }
    }

    /** `clear_exprs` corrected, with its row advancing: one blank line per
        expression row. The redraw pass calls `ClearExprsAsWritten`, as the
        program does. */
    method ClearExprs(ghost sc: Scene)
      requires sc == Scene() && binRow > 0
      modifies this`writes
      ensures writes == old(writes) + ClearExprsEvents(sc)
    {
      var y := OffsetExprs(Scene().Layout()) + padding.vartop;
      assert y == ExprTop(sc);
      var idx := 0;
      while idx < |exprs|
        invariant 0 <= idx <= |exprs| && Scene() == sc
        invariant writes == old(writes) + ClearExprRows(sc, idx)
      {
        DrawStr(Spaces(NumCols(Scene().Layout())), "", 0, y + idx);
        idx := idx + 1;
      }
    }

    /** `clear_exprs` as written: `y` is never advanced. */
    method ClearExprsAsWritten(ghost sc: Scene)
      requires sc == Scene() && binRow > 0
      modifies this`writes
      ensures writes == old(writes) + ClearExprsEventsAsWritten(sc)
    {
      var y := OffsetExprs(Scene().Layout()) + padding.vartop;
      assert y == ExprTop(sc);
      var idx := 0;
      while idx < |exprs|
        invariant 0 <= idx <= |exprs| && Scene() == sc
        invariant writes == old(writes) + ClearExprRowsAsWritten(sc, idx)
      {
        DrawStr(Spaces(NumCols(Scene().Layout())), "", 0, y);
        idx := idx + 1;
      }
    }

    method DrawExprs(ghost sc: Scene)
      requires sc == Scene() && binRow > 0 && ExprsRenderable(exprs)
      modifies this`writes
      ensures writes == old(writes) + ExprValueEvents(sc)
    {
      var y := OffsetExprs(Scene().Layout()) + padding.vartop;
      var idx := 0;
      while idx < |exprs|
        invariant 0 <= idx <= |exprs| && Scene() == sc
        invariant writes == old(writes) + ExprValueRows(sc, idx)
      {
        var e := exprs[idx];
        DrawValueAtRow(e.value, e.fmt, y + idx, sc);
        idx := idx + 1;
      }
    }

    method DrawExprLabels(ghost sc: Scene)
      requires sc == Scene() && binRow > 0
      modifies this`writes
      ensures writes == old(writes) + ExprLabelEvents(sc)
    {
      var idx := 0;
      while idx < |exprs|
        invariant 0 <= idx <= |exprs| && Scene() == sc
        invariant writes == old(writes) + ExprLabelRows(sc, idx)
      {
        DrawExprLabelRow(idx, sc);
        idx := idx + 1;
      }
    }

    /** The body of `draw_expr_labels`' loop: format code, index and label
        of expression `idx`, mirrored between the alignments. */
    method DrawExprLabelRow(idx: nat, ghost sc: Scene)
      requires sc == Scene() && binRow > 0 && idx < |exprs|
      modifies this`writes
      ensures writes == old(writes) + ExprLabelTriple(sc, idx)
    {
      var top := OffsetExprs(Scene().Layout()) + padding.vartop;
      var cols := NumCols(Scene().Layout());
      var e := exprs[idx];
      var y := top + idx;
      if align == "left" {
        DrawStr([e.fmt], attrs.exprlabel, padding.left, y);
        DrawStr(ToBase(idx, 10), attrs.exprlabel, cols - padding.right - 2, y);
        DrawStr(e.name, attrs.expr, cols - padding.right - 2 - padding.labelPad - |e.name|, y);
      } else {
        DrawStr([e.fmt], attrs.exprlabel, cols - padding.right - 2, y);
        DrawStr(ToBase(idx, 10), attrs.exprlabel, padding.left, y);
        DrawStr(e.name, attrs.expr, padding.left + 2 + padding.labelPad, y);
      }
    }

    // ------------------------------------------------------ state and redraw

    /** `update_bin_mode`: resolve an "auto" mode against the terminal width
        (any change forces a full repaint), pick the row size and round the
        width up to whole rows. */
    method UpdateBinMode(width: nat)
      modifies this`curBinMode, this`dirtyAll, this`binRow, this`bits
      ensures curBinMode == ResolveMode(binMode, width, old(curBinMode))
      ensures binRow == RowSize(curBinMode) && bits == RoundUp(old(bits), binRow) && Resolved()
      ensures dirtyAll == (old(dirtyAll) || curBinMode != old(curBinMode))
    {
      var oldMode := curBinMode;
      if binMode == "auto" {
        curBinMode := Some(if width >= WIDE_WIDTH then Wide else Narrow);
      }
      if curBinMode != oldMode {
        dirtyAll := true;
      }
      binRow := if curBinMode == Some(Narrow) then NARROW_ROW else WIDE_ROW;
      if bits % binRow > 0 {
        bits := bits + (binRow - bits % binRow);
      }
      RoundUpSpec(old(bits), binRow);
    }

    /** `redraw`: one pass over the regions whose flags are set (all of them,
        after a clear, when `all` is set by the caller, a pending resize or a
        mode change). It stops inside `draw_binary` when the value region is
        painted with no value, leaving the later flags as they were. */
    method Redraw(width: nat, force: bool) returns (ok: bool, ghost f: DrawState, ghost sc: Scene)
      requires ExprsRenderable(exprs)
      modifies this`curBinMode, this`binRow, this`bits, this`needsRedraw, this`writes
      modifies this`dirtyHeader, this`dirtyValue, this`dirtyVallabel, this`dirtyExprlabel, this`dirtyExprvalue, this`dirtyAll
      ensures curBinMode == ResolveMode(binMode, width, old(curBinMode))
      ensures binRow == RowSize(curBinMode) && bits == RoundUp(old(bits), binRow)
      ensures !needsRedraw
      ensures f == Triggered(old(Flags()), curBinMode != old(curBinMode), force, old(needsRedraw))
      ensures sc == Scene() && ok == PassCompletes(sc, f)
      ensures writes == old(writes) + PassEvents(sc, f, width)
      ensures Flags() == (if ok then Settled(f) else f.(header := false))
    {
      BeginPass(width, force);
      f := Flags();
      sc := Scene();
      ok := RedrawPass(width, sc, f);
    }

    /** The start of `redraw`: resolve the binary mode, then raise `all` for
        an explicit request or a pending resize, consuming the latter. */
    method BeginPass(width: nat, force: bool)
      modifies this`curBinMode, this`dirtyAll, this`binRow, this`bits, this`needsRedraw
      ensures curBinMode == ResolveMode(binMode, width, old(curBinMode))
      ensures binRow == RowSize(curBinMode) && bits == RoundUp(old(bits), binRow)
      ensures !needsRedraw
      ensures Flags() == Triggered(old(Flags()), curBinMode != old(curBinMode), force, old(needsRedraw))
    {
      UpdateBinMode(width);
      if force || needsRedraw {
        dirtyAll := true;
        needsRedraw := false;
      }
    }

    /** The painting part of `redraw`, once the flags `f` of the pass are
        known: clear, then every block whose flag is set, in the fixed order
        header, value, value labels, expression labels, expression rows. */
    method RedrawPass(width: nat, ghost sc: Scene, ghost f: DrawState) returns (ok: bool)
      requires sc == Scene() && f == Flags() && binRow == RowSize(curBinMode) && ExprsRenderable(exprs)
      modifies this`writes
      modifies this`dirtyHeader, this`dirtyValue, this`dirtyVallabel, this`dirtyExprlabel, this`dirtyExprvalue, this`dirtyAll
      ensures ok == PassCompletes(sc, f) && Scene() == sc
      ensures writes == old(writes) + PassEvents(sc, f, width)
      ensures Flags() == (if ok then Settled(f) else f.(header := false))
    {
      ghost var w0 := writes;
      RedrawClear(f);
      ok := RedrawBlocks(width, sc, f);
      ConcatAssoc(w0, ClearStage(f), BlockEvents(sc, f, width));
      PassLeaves(f, DrawState(dirtyHeader, dirtyValue, dirtyVallabel, dirtyBinlabel, dirtyVarlabel,
                              dirtyVarvalue, dirtyExprlabel, dirtyExprvalue, dirtyAll), ok);
    }

    /** The clear that opens a pass with `all` set. */
    method RedrawClear(ghost f: DrawState)
      requires dirtyAll == f.all
      modifies this`writes
      ensures writes == old(writes) + ClearStage(f)
    {
      if dirtyAll {
        ClearScreen();
      }
    }

    /** The blocks of `redraw` after the clear, from the header down. */
    method RedrawBlocks(width: nat, ghost sc: Scene, ghost f: DrawState) returns (ok: bool)
      requires sc == Scene() && f == Flags() && binRow == RowSize(curBinMode) && ExprsRenderable(exprs)
      modifies this`writes
      modifies this`dirtyHeader, this`dirtyValue, this`dirtyVallabel, this`dirtyExprlabel, this`dirtyExprvalue, this`dirtyAll
      ensures ok == PassCompletes(sc, f) && Scene() == sc
      ensures writes == old(writes) + BlockEvents(sc, f, width)
      ensures !dirtyHeader && dirtyValue == (f.value && !ok)
      ensures ok ==> !dirtyVallabel && !dirtyExprlabel && !dirtyExprvalue && !dirtyAll
      ensures !ok ==>
        dirtyVallabel == f.vallabel && dirtyExprlabel == f.exprlabel &&
        dirtyExprvalue == f.exprvalue && dirtyAll == f.all
    {
      ghost var w0 := writes;
      RedrawHeader(width, sc, f);
      ghost var w1 := writes;
      ok := RedrawValue(sc, f);
      ghost var w2 := writes;
      RedrawRest(sc, f, ok);
      BlocksInStages(sc, f, width, w0, w1, w2, writes);
    }

    /* Each block below paints from the flags `f` the pass started with:
       the block's own flag and `all` still hold their values from `f`
       when it runs, and it lowers only its own flag. */

    /** The header block of `redraw`. */
    method RedrawHeader(width: nat, ghost sc: Scene, ghost f: DrawState)
      requires sc == Scene() && dirtyHeader == f.header && dirtyAll == f.all
      modifies this`writes, this`dirtyHeader
      ensures writes == old(writes) + HeaderStage(sc, f, width)
      ensures !dirtyHeader && Scene() == sc
    {
      if dirtyHeader || dirtyAll {
        DrawHeader(width);
        dirtyHeader := false;
      }
    }

    /** The value block of `redraw`: blank and repaint the value rows, then
        the binary grid, which fails for an undefined value and leaves the
        flag as it was. */
    method RedrawValue(ghost sc: Scene, ghost f: DrawState) returns (ok: bool)
      requires sc == Scene() && dirtyValue == f.value && dirtyAll == f.all && binRow == RowSize(curBinMode)
      modifies this`writes, this`dirtyValue
      ensures ok == PassCompletes(sc, f)
      ensures writes == old(writes) + ValueStage(sc, f)
      ensures dirtyValue == (f.value && !ok) && Scene() == sc
    {
      ok := true;
      if dirtyValue || dirtyAll {
        ghost var w0 := writes;
        ClearValue(sc);
        assert Scene() == sc;
        ghost var a := writes[|w0|..];
        DrawValue();
        assert Scene() == sc;
        ghost var b := writes[|w0 + a|..];
        ok := DrawBinary(sc);
        assert Scene() == sc;
        ghost var c := writes[|w0 + a + b|..];
        ConcatAssoc(w0, a, b);
        ConcatAssoc(w0, a + b, c);
        if ok {
          dirtyValue := false;
        }
      }
    }

    /** The rest of `redraw` after the value block, skipped when
        `draw_binary` raised; a completed pass ends by lowering `all`. */
    method RedrawRest(ghost sc: Scene, ghost f: DrawState, completed: bool)
      requires sc == Scene() && sc.binRow > 0 && ExprsRenderable(sc.exprs)
      requires dirtyVallabel == f.vallabel && dirtyExprlabel == f.exprlabel && dirtyExprvalue == f.exprvalue
      requires dirtyAll == f.all
      modifies this`writes, this`dirtyVallabel, this`dirtyExprlabel, this`dirtyExprvalue, this`dirtyAll
      ensures writes == old(writes) + (if completed then LaterRegions(sc, f) else [])
      ensures completed ==> !dirtyVallabel && !dirtyExprlabel && !dirtyExprvalue && !dirtyAll
      ensures !completed ==>
        dirtyVallabel == f.vallabel && dirtyExprlabel == f.exprlabel &&
        dirtyExprvalue == f.exprvalue && dirtyAll == f.all
      ensures Scene() == sc
    {
      if completed {
        RedrawLater(sc, f);
        dirtyAll := false;
      }
    }

    /** The blocks of `redraw` after the value block: value and binary
        labels, expression labels, expression rows. */
    method RedrawLater(ghost sc: Scene, ghost f: DrawState)
      requires sc == Scene() && sc.binRow > 0 && ExprsRenderable(sc.exprs)
      requires dirtyVallabel == f.vallabel && dirtyExprlabel == f.exprlabel && dirtyExprvalue == f.exprvalue
      requires dirtyAll == f.all
      modifies this`writes, this`dirtyVallabel, this`dirtyExprlabel, this`dirtyExprvalue
      ensures writes == old(writes) + LaterRegions(sc, f)
      ensures !dirtyVallabel && !dirtyExprlabel && !dirtyExprvalue && Scene() == sc
    {
      ghost var w0 := writes;
      RedrawValueLabels(sc, f);
      ghost var w1 := writes;
      RedrawExprLabels(sc, f);
      ghost var w2 := writes;
      RedrawExprValues(sc, f);
      LaterInStages(sc, f, w0, w1, w2, writes);
    }

    /** The value-label block of `redraw`. */
    method RedrawValueLabels(ghost sc: Scene, ghost f: DrawState)
      requires sc == Scene() && dirtyVallabel == f.vallabel && dirtyAll == f.all && sc.binRow > 0
      modifies this`writes, this`dirtyVallabel
      ensures writes == old(writes) + ValueLabelStage(sc, f)
      ensures !dirtyVallabel && Scene() == sc
    {
      if dirtyVallabel || dirtyAll {
        ghost var w0 := writes;
        DrawValueLabels();
        assert Scene() == sc;
        ghost var a := writes[|w0|..];
        DrawBinaryLabels(sc);
        assert Scene() == sc;
        ConcatAssoc(w0, a, writes[|w0 + a|..]);
        dirtyVallabel := false;
      }
    }

    /** The expression-label block of `redraw`. */
    method RedrawExprLabels(ghost sc: Scene, ghost f: DrawState)
      requires sc == Scene() && dirtyExprlabel == f.exprlabel && dirtyAll == f.all && sc.binRow > 0
      modifies this`writes, this`dirtyExprlabel
      ensures writes == old(writes) + ExprLabelStage(sc, f)
      ensures !dirtyExprlabel && Scene() == sc
    {
      if dirtyExprlabel || dirtyAll {
        DrawExprLabels(sc);
        dirtyExprlabel := false;
      }
    }

    /** The expression-value block of `redraw`: blank the rows, repaint the
        values, then the labels the blanking erased. */
    method RedrawExprValues(ghost sc: Scene, ghost f: DrawState)
      requires sc == Scene() && dirtyExprvalue == f.exprvalue && dirtyAll == f.all
      requires sc.binRow > 0 && ExprsRenderable(sc.exprs)
      modifies this`writes, this`dirtyExprvalue
      ensures writes == old(writes) + ExprValueStage(sc, f)
      ensures !dirtyExprvalue && Scene() == sc
    {
      if dirtyExprvalue || dirtyAll {
        ghost var w0 := writes;
        ClearExprsAsWritten(sc);
        assert Scene() == sc;
        ghost var a := writes[|w0|..];
        DrawExprs(sc);
        assert Scene() == sc;
        ghost var b := writes[|w0 + a|..];
        DrawExprLabels(sc);
        assert Scene() == sc;
        ghost var c := writes[|w0 + a + b|..];
        ConcatAssoc(w0, a, b);
        ConcatAssoc(w0, a + b, c);
        dirtyExprvalue := false;
      }
    }

    /** `update_value`: store the value, mark the value region and redraw;
        the pass completes exactly when the value is defined. */
    method UpdateValue(value: Option<nat>, width: nat) returns (ok: bool, ghost f: DrawState)
      requires ExprsRenderable(exprs)
      modifies this`lastval, this`curBinMode, this`binRow, this`bits, this`needsRedraw, this`writes
      modifies this`dirtyHeader, this`dirtyValue, this`dirtyVallabel, this`dirtyExprlabel, this`dirtyExprvalue, this`dirtyAll
      ensures lastval == value && ok == value.Some?
      ensures curBinMode == ResolveMode(binMode, width, old(curBinMode))
      ensures binRow == RowSize(curBinMode) && bits == RoundUp(old(bits), binRow)
      ensures !needsRedraw
      ensures f == Triggered(old(Flags()).(value := true), curBinMode != old(curBinMode), false, old(needsRedraw))
      ensures writes == old(writes) + PassEvents(Scene(), f, width)
      ensures Flags() == (if ok then Settled(f) else f.(header := false))
    {
      lastval := value;
      dirtyValue := true;
      ghost var marked := Flags();
      assert marked == old(Flags()).(value := true);
      ghost var sc;
      ok, f, sc := Redraw(width, false);
    }

    /** `set_exprs`: replace the watched expressions, mark their rows and
        labels and redraw. */
    method SetExprs(values: seq<Expr>, width: nat) returns (ok: bool, ghost f: DrawState)
      requires ExprsRenderable(values)
      modifies this`exprs, this`curBinMode, this`binRow, this`bits, this`needsRedraw, this`writes
      modifies this`dirtyHeader, this`dirtyValue, this`dirtyVallabel, this`dirtyExprlabel, this`dirtyExprvalue, this`dirtyAll
      ensures exprs == values
      ensures curBinMode == ResolveMode(binMode, width, old(curBinMode))
      ensures binRow == RowSize(curBinMode) && bits == RoundUp(old(bits), binRow)
      ensures !needsRedraw
      ensures f == Triggered(old(Flags()).(exprvalue := true, exprlabel := true),
                             curBinMode != old(curBinMode), false, old(needsRedraw))
      ensures ok == PassCompletes(Scene(), f)
      ensures writes == old(writes) + PassEvents(Scene(), f, width)
      ensures Flags() == (if ok then Settled(f) else f.(header := false))
    {
      exprs := values;
      dirtyExprvalue := true;
      dirtyExprlabel := true;
      ghost var marked := Flags();
      assert marked == old(Flags()).(exprvalue := true, exprlabel := true);
      ghost var sc;
      ok, f, sc := Redraw(width, false);
    }

    /** `set_voltron_status`: record the link status and mark the header;
        nothing is drawn until the next redraw. */
    method SetVoltronStatus(status: Option<bool>)
      modifies this`voltronStatus, this`dirtyHeader
      ensures voltronStatus == status && Flags() == old(Flags()).(header := true)
    {
      voltronStatus := status;
      dirtyHeader := true;
    }

    /** `sigwinch_handler`: only remember that a resize happened. */
    method SigwinchHandler()
      modifies this`needsRedraw
      ensures needsRedraw
    {
      needsRedraw := true;
    }

    /** `set_win`: reset the value to 0 and redraw twice; the second pass
        finds every region clean and writes nothing. */
    method SetWin(width: nat) returns (ok: bool, ghost f: DrawState)
      requires ExprsRenderable(exprs)
      modifies this`lastval, this`curBinMode, this`binRow, this`bits, this`needsRedraw, this`writes
      modifies this`dirtyHeader, this`dirtyValue, this`dirtyVallabel, this`dirtyExprlabel, this`dirtyExprvalue, this`dirtyAll
      ensures lastval == Some(0) && ok
      ensures curBinMode == ResolveMode(binMode, width, old(curBinMode))
      ensures binRow == RowSize(curBinMode) && bits == RoundUp(old(bits), binRow)
      ensures !needsRedraw
      ensures f == Triggered(old(Flags()).(value := true), curBinMode != old(curBinMode), false, old(needsRedraw))
      ensures writes == old(writes) + PassEvents(Scene(), f, width) && Flags() == Settled(f)
    {
      var first;
      first, f := UpdateValue(Some(0), width);
      ghost var f1 := Flags();
      ResolveModeSpec(binMode, width, old(curBinMode));
      RoundUpSpec(old(bits), binRow);
      ghost var g;
      ghost var sc;
      ok, g, sc := Redraw(width, false);
      SettledPassIsQuiet(Scene(), f1, width);
    }

    /** Resize signals coalesce: however many times `sigwinch_handler` runs
        before a redraw, the two redraws that follow at the same width clear
        the screen exactly once between them (when a value is shown). */
    method ResizeThenRedrawTwice(signals: nat, width: nat) returns (ok1: bool, ok2: bool)
      requires signals > 0 && lastval.Some? && ExprsRenderable(exprs)
      modifies this`curBinMode, this`binRow, this`bits, this`needsRedraw, this`writes
      modifies this`dirtyHeader, this`dirtyValue, this`dirtyVallabel, this`dirtyExprlabel, this`dirtyExprvalue, this`dirtyAll
      ensures ok1 && ok2 && !needsRedraw
      ensures curBinMode == ResolveMode(binMode, width, old(curBinMode))
      ensures binRow == RowSize(curBinMode) && bits == RoundUp(old(bits), binRow)
      ensures Flags() == Settled(old(Flags()))
      ensures |writes| >= |old(writes)| && writes[..|old(writes)|] == old(writes)
      ensures ClearCount(writes[|old(writes)|..]) == 1
    {
      var i := 0;
      while i < signals
        invariant 0 <= i <= signals
        invariant i > 0 ==> needsRedraw
        modifies this`needsRedraw
      {
        SigwinchHandler();
        i := i + 1;
      }
      ok1, ok2 := RedrawTwicePending(width);
    }

    /** Two redraws at one width with a resize pending: the first clears
        the screen once, the second finds nothing to do. */
    method RedrawTwicePending(width: nat) returns (ok1: bool, ok2: bool)
      requires needsRedraw && lastval.Some? && ExprsRenderable(exprs)
      modifies this`curBinMode, this`binRow, this`bits, this`needsRedraw, this`writes
      modifies this`dirtyHeader, this`dirtyValue, this`dirtyVallabel, this`dirtyExprlabel, this`dirtyExprvalue, this`dirtyAll
      ensures ok1 && ok2 && !needsRedraw
      ensures curBinMode == ResolveMode(binMode, width, old(curBinMode))
      ensures binRow == RowSize(curBinMode) && bits == RoundUp(old(bits), binRow)
      ensures Flags() == Settled(old(Flags()))
      ensures |writes| >= |old(writes)| && writes[..|old(writes)|] == old(writes)
      ensures ClearCount(writes[|old(writes)|..]) == 1
    {
      ghost var f;
      ghost var sc;
      ok1, f, sc := Redraw(width, false);
      PassClearsOnce(sc, f, width);
      ResolveModeSpec(binMode, width, old(curBinMode));
      RoundUpSpec(old(bits), binRow);
      ok2 := RedrawSettled(width, f);
      assert writes[|old(writes)|..] == PassEvents(sc, f, width);
    }

    /** A redraw right after a completed pass, at the same width and with
        no new resize, writes nothing and leaves the flags settled. */
    method RedrawSettled(width: nat, ghost f: DrawState) returns (ok: bool)
      requires ExprsRenderable(exprs) && Flags() == Settled(f) && !needsRedraw
      requires curBinMode == ResolveMode(binMode, width, curBinMode)
      modifies this`curBinMode, this`binRow, this`bits, this`needsRedraw, this`writes
      modifies this`dirtyHeader, this`dirtyValue, this`dirtyVallabel, this`dirtyExprlabel, this`dirtyExprvalue, this`dirtyAll
      ensures ok && !needsRedraw && writes == old(writes) && Flags() == Settled(f)
      ensures curBinMode == old(curBinMode)
      ensures binRow == RowSize(curBinMode) && bits == RoundUp(old(bits), binRow)
      ensures old(Resolved()) ==> bits == old(bits) && binRow == old(binRow)
    {
      ghost var g;
      ghost var sc;
      ok, g, sc := Redraw(width, false);
      SettledPassIsQuiet(sc, f, width);
      if old(Resolved()) {
        RoundUpSpec(old(bits), binRow);
      }
    }
  }

  /** The blocks of a pass write one after the other. */
  lemma BlocksInStages(sc: Scene, f: DrawState, width: int,
                       w0: seq<Event>, w1: seq<Event>, w2: seq<Event>, w3: seq<Event>)
    requires sc.binRow > 0 && ExprsRenderable(sc.exprs)
    requires w1 == w0 + HeaderStage(sc, f, width)
    requires w2 == w1 + ValueStage(sc, f)
    requires w3 == w2 + (if PassCompletes(sc, f) then LaterRegions(sc, f) else [])
    ensures w3 == w0 + BlockEvents(sc, f, width)
  {
    var header, value := HeaderStage(sc, f, width), ValueStage(sc, f);
    var later := if PassCompletes(sc, f) then LaterRegions(sc, f) else [];
    ConcatAssoc(w0, header, value);
    ConcatAssoc(w0, header + value, later);
  }

  /** The blocks after the value block write one after the other. */
  lemma LaterInStages(sc: Scene, f: DrawState, w0: seq<Event>, w1: seq<Event>, w2: seq<Event>, w3: seq<Event>)
    requires sc.binRow > 0 && ExprsRenderable(sc.exprs)
    requires w1 == w0 + ValueLabelStage(sc, f)
    requires w2 == w1 + ExprLabelStage(sc, f)
    requires w3 == w2 + ExprValueStage(sc, f)
    ensures w3 == w0 + LaterRegions(sc, f)
  {
    ConcatAssoc(w0, ValueLabelStage(sc, f), ExprLabelStage(sc, f));
    ConcatAssoc(w0, ValueLabelStage(sc, f) + ExprLabelStage(sc, f), ExprValueStage(sc, f));
  }

  lemma ConcatAssoc<T>(a: seq<T>, b: seq<T>, c: seq<T>)
    ensures a + b + c == a + (b + c)
  {
  }

  /** A pass that starts from settled flags, with no mode change, request or
      pending resize, completes and writes nothing. */
  lemma SettledPassIsQuiet(sc: Scene, f: DrawState, width: int)
    requires sc.binRow > 0 && ExprsRenderable(sc.exprs)
    ensures PassCompletes(sc, Triggered(Settled(f), false, false, false))
    ensures PassEvents(sc, Triggered(Settled(f), false, false, false), width) == []
  {
  }
}
