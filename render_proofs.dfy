/** Properties of what a redraw pass writes: one clear at most, every
    region inside its band of rows, a binary grid of exactly `bits` digits
    whose row labels name the bits on that row, and what the two versions
    of `clear_exprs` leave uncleared. */
module RenderProofs {
  import opened Options
  import opened Numerals
  import opened Formatter
  import opened Geometry
  import opened DirtyState
  import opened Render

  // ------------------------------------------------------ clears per pass

  lemma {:induction false} ClearCountAppend(a: seq<Event>, b: seq<Event>)
    ensures ClearCount(a + b) == ClearCount(a) + ClearCount(b)
  {
    if a == [] {
      assert a + b == b;
    } else {
      assert (a + b)[1..] == a[1..] + b;
      ClearCountAppend(a[1..], b);
    }
  }

  lemma {:induction false} PaintsClearNothing(es: seq<Event>)
    requires Paints(es)
    ensures ClearCount(es) == 0
  {
    if es != [] {
      PaintsClearNothing(es[1..]);
    }
  }

  /** A pass clears the screen once when it starts with `all` set and
      never otherwise; everything else it writes is text. */
  lemma PassClearsOnce(sc: Scene, f: DrawState, width: int)
    requires sc.binRow > 0 && ExprsRenderable(sc.exprs)
    ensures ClearCount(PassEvents(sc, f, width)) == if f.all then 1 else 0
  {
    var blocks := BlockEvents(sc, f, width);
    PaintsClearNothing(blocks);
    ClearCountAppend(ClearStage(f), blocks);
    assert ClearCount(ClearStage(f)) == if f.all then 1 else 0;
  }

  // ------------------------------------------------------------ value rows

  lemma {:induction false} ValueRowsWithin(sc: Scene, value: Option<nat>, fs: seq<char>, row0: int, n: nat)
    requires RowCodes(fs) && n <= |fs|
    ensures forall i :: 0 <= i < |ValueRows(sc, value, fs, row0, n)| ==>
      row0 <= ValueRows(sc, value, fs, row0, n)[i].y < row0 + n
  {
    if n > 0 {
      ValueRowsWithin(sc, value, fs, row0, n - 1);
    }
  }

  lemma {:induction false} LabelRowsWithin(sc: Scene, fs: seq<char>, row0: int, n: nat)
    requires n <= |fs|
    ensures forall i :: 0 <= i < |LabelRows(sc, fs, row0, n)| ==>
      row0 <= LabelRows(sc, fs, row0, n)[i].y < row0 + n
  {
    if n > 0 {
      LabelRowsWithin(sc, fs, row0, n - 1);
    }
  }

  lemma {:induction false} ClearValueRowsWithin(sc: Scene, n: nat)
    ensures forall i :: 0 <= i < |ClearValueRows(sc, n)| ==>
      sc.padding.top <= ClearValueRows(sc, n)[i].y < sc.padding.top + n
  {
    if n > 0 {
      ClearValueRowsWithin(sc, n - 1);
    }
  }

  /** The value region (its blanking, its text and its labels) stays in the
      rows between the top padding and the binary region. */
  lemma ValueRegionRows(sc: Scene)
    ensures forall e :: e in ClearValueEvents(sc) + ValueEvents(sc) + ValueLabelEvents(sc) ==>
      OffsetVal(sc.Layout()) <= e.y < OffsetBin(sc.Layout())
  {
    ValueFormatsRowCodes(sc.formats);
    var fs := ValueFormats(sc.formats);
    ClearValueRowsWithin(sc, |fs|);
    ValueRowsWithin(sc, sc.lastval, fs, sc.padding.top, |fs|);
    LabelRowsWithin(sc, fs, sc.padding.top, |fs|);
  }

  // ----------------------------------------------------------- binary grid

  lemma ExactRows(bits: nat, m: nat)
    requires m > 0 && bits % m == 0
    ensures bits == (bits / m) * m
  {
  }

  /** Digit i of the grid: the i-th character of the binary string, in the
      value's style, on grid row i / bin_row. */
  lemma DigitAt(sc: Scene, v: nat, i: nat)
    requires sc.binRow > 0 && i < sc.bits
    ensures |BinaryEvents(sc, v)| == sc.bits
    ensures BinaryEvents(sc, v)[i].text == [BinaryText(v, sc.bits)[i]]
    ensures BinaryEvents(sc, v)[i].attr == BinaryAttr(sc, v)
    ensures BinaryEvents(sc, v)[i].y == BinaryTop(sc) + i / sc.binRow
  {
    BinaryTextValue(v, sc.bits);
    DigitGridAt(sc.padding.left, sc.binRow, BinaryTop(sc), BinaryAttr(sc, v), BinaryText(v, sc.bits), i);
  }

  /** Digit i of a grid stands in column i % m of row i / m. */
  lemma {:induction false} DigitGridAt(left: nat, m: nat, top: int, attr: string, s: string, i: nat)
    requires m > 0 && i < |s|
    ensures DigitGrid(left, m, top, attr, s)[i] == Str(DigitColumn(left, i % m), top + i / m, attr, [s[i]])
    decreases |s|
  {
    var n := |s| - 1;
    if i < n {
      DigitGridAt(left, m, top, attr, s[..n], i);
      assert s[..n][i] == s[i];
    }
  }

  /** `draw_binary` writes exactly `bits` single digits that read back as
      the low `bits` bits of the value, drawn in the error style when the
      value needs more than `bits` bits and in the binary style otherwise. */
  lemma BinaryGrid(sc: Scene, v: nat)
    requires sc.binRow > 0
    ensures |BinaryEvents(sc, v)| == sc.bits
    ensures forall i :: 0 <= i < sc.bits ==>
      BinaryEvents(sc, v)[i].text == [BinaryText(v, sc.bits)[i]] &&
      BinaryEvents(sc, v)[i].attr == (if v >= Pow(2, sc.bits) then sc.attrs.err else sc.attrs.bval)
    ensures FromBase(BinaryText(v, sc.bits), 2) == v % Pow(2, sc.bits)
  {
    BinaryTextValue(v, sc.bits);
    forall i | 0 <= i < sc.bits
      ensures BinaryEvents(sc, v)[i].text == [BinaryText(v, sc.bits)[i]]
      ensures BinaryEvents(sc, v)[i].attr == (if v >= Pow(2, sc.bits) then sc.attrs.err else sc.attrs.bval)
    {
      DigitAt(sc, v, i);
    }
  }

  /** Digit i lies on grid row i / bin_row, and with `bits` a whole number
      of rows every digit lies within the `bits / bin_row` rows that start
      below the value rows and the grid's top padding. */
  lemma BinaryRows(sc: Scene, v: nat)
    requires sc.binRow > 0 && sc.bits % sc.binRow == 0
    ensures |BinaryEvents(sc, v)| == sc.bits
    ensures forall i :: 0 <= i < sc.bits ==>
      BinaryEvents(sc, v)[i].y == BinaryTop(sc) + i / sc.binRow &&
      BinaryTop(sc) <= BinaryEvents(sc, v)[i].y < BinaryTop(sc) + sc.bits / sc.binRow
  {
    BinaryTextValue(v, sc.bits);
    forall i | 0 <= i < sc.bits
      ensures BinaryEvents(sc, v)[i].y == BinaryTop(sc) + i / sc.binRow
      ensures BinaryTop(sc) <= BinaryEvents(sc, v)[i].y < BinaryTop(sc) + sc.bits / sc.binRow
    {
      DigitAt(sc, v, i);
      RowOfDigit(i, sc.bits, sc.binRow);
    }
  }

  /** With `bits` a whole number of rows, every digit index falls on one of them. */
  lemma RowOfDigit(i: nat, bits: nat, m: nat)
    requires m > 0 && bits % m == 0 && i < bits
    ensures 0 <= i / m < bits / m
  {
    ExactRows(bits, m);
    DivBelow(i, m, bits / m);
  }

  /** The grid and its bottom padding end where the expression region starts. */
  lemma BinaryRegionEnds(sc: Scene)
    requires sc.binRow > 0
    ensures BinaryTop(sc) + sc.bits / sc.binRow + sc.padding.binbottom == OffsetExprs(sc.Layout())
  {
  }

  /** Within one grid row the digits stand left to right without overlap. */
  lemma DigitColumnsIncrease(left: nat, j1: nat, j2: nat)
    requires j1 < j2
    ensures DigitColumn(left, j1) + 2 <= DigitColumn(left, j2)
  {
    assert j1 / 8 <= j2 / 8 && j1 / 4 <= j2 / 4 by {
      DivMono(j1, j2, 8);
      DivMono(j1, j2, 4);
    }
  }

  lemma DivMono(a: nat, b: nat, m: nat)
    requires a <= b && m > 0
    ensures a / m <= b / m
  {
    assert a == (a / m) * m + a % m;
    assert b == (b / m) * m + b % m;
    if a / m > b / m {
      MulMono(b / m + 1, a / m, m);
    }
  }

  lemma {:induction false} BinaryLabelRowsAt(sc: Scene, n: nat, i: nat)
    requires sc.binRow > 0 && i < n
    ensures BinaryLabelRows(sc, n)[2 * i] == BinaryLabelPair(sc, i)[0]
    ensures BinaryLabelRows(sc, n)[2 * i + 1] == BinaryLabelPair(sc, i)[1]
  {
    if i < n - 1 {
      BinaryLabelRowsAt(sc, n - 1, i);
    }
  }

  /** Grid row r holds digits r*bin_row up to r*bin_row + bin_row - 1 of
      the binary string, that is bits bits-1-r*bin_row down to
      bits-(r+1)*bin_row (digit k of the string stands for bit bits-1-k). */
  lemma DigitsOfRow(sc: Scene, v: nat, rows: nat, r: nat)
    requires sc.binRow > 0 && sc.bits == rows * sc.binRow && r < rows
    ensures r * sc.binRow + sc.binRow <= |BinaryEvents(sc, v)|
    ensures forall k :: r * sc.binRow <= k < r * sc.binRow + sc.binRow ==> BinaryEvents(sc, v)[k].y == BinaryTop(sc) + r
  {
    BinaryTextValue(v, sc.bits);
    RowEnd(rows, sc.binRow, r);
    forall k | r * sc.binRow <= k < r * sc.binRow + sc.binRow
      ensures BinaryEvents(sc, v)[k].y == BinaryTop(sc) + r
    {
      DigitAt(sc, v, k);
      RowOfIndex(k, sc.binRow, r);
    }
  }

  /** The indices r*m up to r*m + m - 1 are those of row r. */
  lemma RowOfIndex(k: nat, m: nat, r: nat)
    requires m > 0 && r * m <= k < r * m + m
    ensures k / m == r
  {
    DivModUnique(k, m, r, k - r * m);
  }

  /** Grid row r ends within a grid of `rows` rows. */
  lemma RowEnd(rows: nat, m: nat, r: nat)
    requires r < rows
    ensures r * m + m <= rows * m
  {
    MulMono(r + 1, rows, m);
    assert (r + 1) * m == r * m + m;
  }

  lemma LabelArith(rows: nat, m: nat, r: nat)
    requires m > 0 && r < rows
    ensures (rows - r) * m - 1 == rows * m - 1 - r * m
    ensures (rows - 1 - r) * m == rows * m - (r + 1) * m
  {
  }

  /** The labels `draw_binary_labels` puts on grid row r: on the left the
      highest bit index of that row, bits-1-r*bin_row, on the right its
      lowest, bits-(r+1)*bin_row; so they name the first and the last digit
      that `draw_binary` puts on the row (DigitsOfRow). */
  lemma LabelsOfRow(sc: Scene, rows: nat, r: nat)
    requires sc.binRow > 0 && sc.bits == rows * sc.binRow && r < rows
    ensures |BinaryLabelEvents(sc)| == 2 * rows
    ensures sc.bits - (r + 1) * sc.binRow >= 0 &&
      BinaryLabelEvents(sc)[2 * (rows - 1 - r)] ==
        Str(sc.padding.left, BinaryTop(sc) + r, sc.attrs.binlabel, ToBase(sc.bits - 1 - r * sc.binRow, 10)) &&
      BinaryLabelEvents(sc)[2 * (rows - 1 - r) + 1] ==
        Str(NumCols(sc.Layout()) - sc.padding.right - 2, BinaryTop(sc) + r, sc.attrs.binlabel,
            ToBase(sc.bits - (r + 1) * sc.binRow, 10))
  {
    MulMono(r + 1, rows, sc.binRow);
    DivModUnique(sc.bits, sc.binRow, rows, 0);
    var i := rows - 1 - r;
    BinaryLabelRowsAt(sc, rows, i);
    LabelArith(rows, sc.binRow, r);
  }

  // ------------------------------------------------------ expression rows

  lemma {:induction false} ExprValueRowsWithin(sc: Scene, n: nat)
    requires sc.binRow > 0 && n <= |sc.exprs| && ExprsRenderable(sc.exprs)
    ensures forall i :: 0 <= i < |ExprValueRows(sc, n)| ==>
      ExprTop(sc) <= ExprValueRows(sc, n)[i].y < ExprTop(sc) + n
  {
    if n > 0 {
      ExprValueRowsWithin(sc, n - 1);
    }
  }

  lemma {:induction false} ExprLabelRowsWithin(sc: Scene, n: nat)
    requires sc.binRow > 0 && n <= |sc.exprs|
    ensures forall i :: 0 <= i < |ExprLabelRows(sc, n)| ==>
      ExprTop(sc) <= ExprLabelRows(sc, n)[i].y < ExprTop(sc) + n
  {
    if n > 0 {
      ExprLabelRowsWithin(sc, n - 1);
    }
  }

  /** The expression region holds one row per expression, in list order,
      after the binary region and its bottom padding and before the
      region's bottom padding and the screen's. */
  lemma ExprRegionRows(sc: Scene)
    requires sc.binRow > 0 && ExprsRenderable(sc.exprs)
    ensures forall e :: e in ExprValueEvents(sc) + ExprLabelEvents(sc) + ClearExprsEventsAsWritten(sc) ==>
      OffsetExprs(sc.Layout()) <= e.y &&
      e.y + sc.padding.varbottom + sc.padding.bottom < NumRows(sc.Layout())
  {
    ExprValueRowsWithin(sc, |sc.exprs|);
    ExprLabelRowsWithin(sc, |sc.exprs|);
    ClearExprRowsAsWrittenOnTop(sc, |sc.exprs|);
  }

  /** The k-th blank line of `clear_exprs` as intended lies on the k-th
      expression row. */
  lemma {:induction false} ClearExprRowsAt(sc: Scene, n: nat, k: nat)
    requires sc.binRow > 0 && k < n
    ensures ClearExprRows(sc, n)[k] == Str(0, ExprTop(sc) + k, "", Spaces(NumCols(sc.Layout())))
  {
    if k < n - 1 {
      ClearExprRowsAt(sc, n - 1, k);
    }
  }

  /** Every blank line of `clear_exprs` as written lies on the first
      expression row. */
  lemma {:induction false} ClearExprRowsAsWrittenOnTop(sc: Scene, n: nat)
    requires sc.binRow > 0
    ensures forall i :: 0 <= i < |ClearExprRowsAsWritten(sc, n)| ==> ClearExprRowsAsWritten(sc, n)[i].y == ExprTop(sc)
  {
    if n > 0 {
      ClearExprRowsAsWrittenOnTop(sc, n - 1);
    }
  }

  /** Each expression row receives a full-width blank line from the
      corrected `clear_exprs`, so every row that `draw_exprs` and
      `draw_expr_labels` paint has been blanked first. */
  lemma ClearExprsCoversExprRows(sc: Scene)
    requires sc.binRow > 0 && ExprsRenderable(sc.exprs)
    ensures forall k :: 0 <= k < |sc.exprs| ==>
      ClearExprsEvents(sc)[k] == Str(0, ExprTop(sc) + k, "", Spaces(NumCols(sc.Layout())))
    ensures forall e :: e in ExprValueEvents(sc) + ExprLabelEvents(sc) ==>
      exists k :: 0 <= k < |sc.exprs| && ClearExprsEvents(sc)[k].y == e.y
  {
    ExprValueRowsWithin(sc, |sc.exprs|);
    ExprLabelRowsWithin(sc, |sc.exprs|);
    var c := ClearExprsEvents(sc);
    forall k | 0 <= k < |sc.exprs|
      ensures c[k] == Str(0, ExprTop(sc) + k, "", Spaces(NumCols(sc.Layout())))
    {
      ClearExprRowsAt(sc, |sc.exprs|, k);
    }
    forall e | e in ExprValueEvents(sc) + ExprLabelEvents(sc)
      ensures exists k :: 0 <= k < |sc.exprs| && c[k].y == e.y
    {
      var k := e.y - ExprTop(sc);
      assert c[k].y == e.y;
    }
  }

  /** With two or more expressions, `clear_exprs` as written blanks only
      the first expression row, while `draw_expr_labels` (and `draw_exprs`,
      for a left or right alignment) paint the second: text left there by
      an earlier, longer value is never erased. */
  lemma ClearExprsAsWrittenMissesRows(sc: Scene)
    requires sc.binRow > 0 && ExprsRenderable(sc.exprs) && |sc.exprs| >= 2
    ensures forall e :: e in ClearExprsEventsAsWritten(sc) ==> e.y == ExprTop(sc)
    ensures ExprLabelEvents(sc)[3].y == ExprTop(sc) + 1
    ensures Aligned(sc) ==> ExprValueEvents(sc)[1].y == ExprTop(sc) + 1
  {
    var n := |sc.exprs|;
    ClearExprRowsAsWrittenOnTop(sc, n);
    var labels := ExprLabelRows(sc, n);
    assert labels[3] == ExprLabelRows(sc, 2)[3] by {
      ExprLabelRowsPrefix(sc, 2, n);
    }
    if Aligned(sc) {
      assert ExprValueRows(sc, n)[1] == ExprValueRows(sc, 2)[1] by {
        ExprValueRowsPrefix(sc, 2, n);
      }
    }
  }

  lemma {:induction false} ExprLabelRowsPrefix(sc: Scene, m: nat, n: nat)
    requires sc.binRow > 0 && m <= n <= |sc.exprs|
    ensures ExprLabelRows(sc, n)[..3 * m] == ExprLabelRows(sc, m)
  {
    if m < n {
      ExprLabelRowsPrefix(sc, m, n - 1);
      assert ExprLabelRows(sc, n)[..3 * (n - 1)] == ExprLabelRows(sc, n - 1);
    }
  }

  lemma {:induction false} ExprValueRowsPrefix(sc: Scene, m: nat, n: nat)
    requires sc.binRow > 0 && m <= n <= |sc.exprs| && ExprsRenderable(sc.exprs) && Aligned(sc)
    ensures ExprValueRows(sc, n)[..m] == ExprValueRows(sc, m)
  {
    if m < n {
      ExprValueRowsPrefix(sc, m, n - 1);
      var e := sc.exprs[n - 1];
      var whole, front := ExprValueRows(sc, n), ExprValueRows(sc, n - 1);
      PrefixOfConcat(front, ValueRowEvents(sc, e.value, e.fmt, ExprTop(sc) + n - 1));
      assert whole[..m] == whole[..n - 1][..m];
    }
  }

  lemma PrefixOfConcat<T>(a: seq<T>, b: seq<T>)
    ensures (a + b)[..|a|] == a
  {
  }
}
