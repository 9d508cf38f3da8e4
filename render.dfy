/** What each region painter of calculon/display.py writes to the terminal,
    as a list of events: `draw_str(text, attr, x, y)` is one `Str` event and
    `term.clear()` is one `Clear`. The painters of the Display module are
    proved to append exactly these lists. */
module Render {
  import opened Options
  import opened Numerals
  import opened Formatter
  import opened Geometry
  import opened DirtyState

  datatype Event = Str(x: int, y: int, attr: string, text: string) | Clear

  /** A watched expression: its value, its format code and its label text (`name`). */
  datatype Expr = Expr(value: Option<nat>, fmt: char, name: string)

  /** Every expression with a defined value has a format code that
      `draw_value_at_row` has a branch for. */
  predicate ExprsRenderable(es: seq<Expr>) {
    forall i :: 0 <= i < |es| ==> es[i].value.None? || es[i].fmt in ROW_FORMATS
  }

  /** Everything a redraw pass reads from the display object. */
  datatype Scene = Scene(
    padding: Padding, formats: seq<char>, align: string, attrs: Attrs,
    header: string, showHeader: bool,
    mode: Option<BinMode>, bits: nat, binRow: nat,
    lastval: Option<nat>, exprs: seq<Expr>, voltron: Option<bool>)
  {
    function Layout(): Layout {
      Geometry.Layout(padding, formats, mode, bits, binRow, |exprs|)
    }
  }

  /** The list holds only text writes, no screen clear. */
  predicate Paints(es: seq<Event>) {
    forall i :: 0 <= i < |es| ==> es[i].Str?
  }

  function ClearCount(es: seq<Event>): nat {
    if es == [] then 0 else (if es[0].Clear? then 1 else 0) + ClearCount(es[1..])
  }

  /** Python's `' ' * n`, which is empty for n <= 0. */
  function Spaces(n: int): string {
    if n <= 0 then [] else Spaces(n - 1) + [' ']
  }

  // ---------------------------------------------------------------- header

  function VoltronBanner(connected: bool): string {
    "<=" + (if connected then "" else "/") + "=> voltron"
  }

  /** `draw_header`: a blank bar as wide as the terminal, the title at the
      left padding and, once the link status is known, the banner flush
      with the right padding. */
  function HeaderEvents(sc: Scene, width: int): seq<Event> {
    if !sc.showHeader then []
    else
      [Str(0, 0, sc.attrs.header, Spaces(width)), Str(sc.padding.left, 0, sc.attrs.header, sc.header)]
      + (match sc.voltron
         case None => []
         case Some(c) =>
           var banner := VoltronBanner(c);
           [Str(width - |banner| - sc.padding.right, 0, sc.attrs.header, banner)])
  }

  // ------------------------------------------------------------ value rows

  /** The first n blank runs of `clear_value`, one per row from the top
      padding down, between the label columns. */
  function ClearValueRows(sc: Scene, n: nat): (r: seq<Event>)
    ensures |r| == n && Paints(r)
  {
    if n == 0 then []
    else
      var p := sc.padding;
      var w := NumCols(sc.Layout()) - p.left - 2 - p.right - 2 * p.labelPad;
      ClearValueRows(sc, n - 1) + [Str(p.left + 2, p.top + n - 1, "", Spaces(w))]
  }

  /** `clear_value`: one blank run per value format. */
  function ClearValueEvents(sc: Scene): seq<Event> {
    ClearValueRows(sc, |ValueFormats(sc.formats)|)
  }

  /** `draw_value_at_row`: the text right-aligned against the label column,
      or left-aligned after it; no write for any other alignment. */
  function ValueRowEvents(sc: Scene, value: Option<nat>, fmt: char, row: int): seq<Event>
    requires value.None? || fmt in ROW_FORMATS
  {
    var st := ValueText(value, fmt, sc.bits, sc.attrs);
    var p := sc.padding;
    if sc.align == "right" then
      [Str(NumCols(sc.Layout()) - p.right - p.labelPad - |st.text| - 2, row, st.attr, st.text)]
    else if sc.align == "left" then
      [Str(p.left + 2 + p.labelPad, row, st.attr, st.text)]
    else []
  }

  predicate Aligned(sc: Scene) {
    sc.align == "right" || sc.align == "left"
  }

  predicate RowCodes(fs: seq<char>) {
    forall i :: 0 <= i < |fs| ==> fs[i] in ROW_FORMATS
  }

  lemma ValueFormatsRowCodes(formats: seq<char>)
    ensures RowCodes(ValueFormats(formats))
  {
    var vf := ValueFormats(formats);
    ValueFormatsMembers(formats);
    forall i | 0 <= i < |vf| ensures vf[i] in ROW_FORMATS {
      assert vf[i] in vf;
    }
  }

  /** The rows `draw_value` paints for the first n formats of `fs`, from `row0`. */
  function ValueRows(sc: Scene, value: Option<nat>, fs: seq<char>, row0: int, n: nat): (r: seq<Event>)
    requires RowCodes(fs) && n <= |fs|
    ensures |r| == (if Aligned(sc) then n else 0) && Paints(r)
  {
    if n == 0 then []
    else ValueRows(sc, value, fs, row0, n - 1) + ValueRowEvents(sc, value, fs[n - 1], row0 + n - 1)
  }

  /** A log that had the first i rows and then row i has the first i + 1. */
  lemma ValueRowsStep(sc: Scene, value: Option<nat>, fs: seq<char>, row0: int, i: nat,
                      w0: seq<Event>, w1: seq<Event>, w2: seq<Event>)
    requires RowCodes(fs) && i < |fs|
    requires w1 == w0 + ValueRows(sc, value, fs, row0, i)
    requires w2 == w1 + ValueRowEvents(sc, value, fs[i], row0 + i)
    ensures w2 == w0 + ValueRows(sc, value, fs, row0, i + 1)
  {
    var a, b := ValueRows(sc, value, fs, row0, i), ValueRowEvents(sc, value, fs[i], row0 + i);
    assert w0 + a + b == w0 + (a + b);
  }

  function ValueEvents(sc: Scene): seq<Event> {
    ValueFormatsRowCodes(sc.formats);
    ValueRows(sc, sc.lastval, ValueFormats(sc.formats), sc.padding.top, |ValueFormats(sc.formats)|)
  }

  /** `draw_labels_at_row` (never given a label): the format code in the
      label column. */
  function LabelRowEvents(sc: Scene, fmt: char, row: int): seq<Event> {
    var p := sc.padding;
    if sc.align == "right" then [Str(NumCols(sc.Layout()) - p.right - p.labelPad, row, sc.attrs.vallabel, [fmt])]
    else if sc.align == "left" then [Str(p.left, row, sc.attrs.vallabel, [fmt])]
    else []
  }

  function LabelRows(sc: Scene, fs: seq<char>, row0: int, n: nat): (r: seq<Event>)
    requires n <= |fs|
    ensures |r| == (if Aligned(sc) then n else 0) && Paints(r)
  {
    if n == 0 then []
    else LabelRows(sc, fs, row0, n - 1) + LabelRowEvents(sc, fs[n - 1], row0 + n - 1)
  }

  function ValueLabelEvents(sc: Scene): seq<Event> {
    LabelRows(sc, ValueFormats(sc.formats), sc.padding.top, |ValueFormats(sc.formats)|)
  }

  // ----------------------------------------------------------- binary grid

  /** The first row of the binary grid. */
  function BinaryTop(sc: Scene): nat {
    OffsetBin(sc.Layout()) + sc.padding.bintop
  }

  /** The screen column of the j-th digit of a grid row: two columns per
      digit after the left padding, plus one extra column after every
      fourth digit and two more after every eighth. */
  function DigitColumn(left: nat, j: nat): nat {
    2 * (left + j + 1) + 2 * (j / 8) + j / 4
  }

  function BinaryAttr(sc: Scene, v: nat): string {
    if v >= Pow(2, sc.bits) then sc.attrs.err else sc.attrs.bval
  }

  /** The digits of `s` laid out `m` to a row from row `top`. */
  function DigitGrid(left: nat, m: nat, top: int, attr: string, s: string): (r: seq<Event>)
    requires m > 0
    ensures |r| == |s| && Paints(r)
  {
    if s == [] then []
    else
      var i := |s| - 1;
      DigitGrid(left, m, top, attr, s[..i]) + [Str(DigitColumn(left, i % m), top + i / m, attr, [s[i]])]
  }

  /** `draw_binary`: one write per digit, `bin_row` digits per row. */
  function BinaryEvents(sc: Scene, v: nat): (r: seq<Event>)
    requires sc.binRow > 0
    ensures Paints(r)
  {
    DigitGrid(sc.padding.left, sc.binRow, BinaryTop(sc), BinaryAttr(sc, v), BinaryText(v, sc.bits))
  }

  /** The labels of grid row i counted from the bottom: the index of its
      highest bit on the left, of its lowest bit on the right. */
  function BinaryLabelPair(sc: Scene, i: nat): seq<Event>
    requires sc.binRow > 0
  {
    var rows := sc.bits / sc.binRow;
    var y := BinaryTop(sc) + rows - 1 - i;
    var high: nat := (i + 1) * sc.binRow - 1;
    [Str(sc.padding.left, y, sc.attrs.binlabel, ToBase(high, 10)),
     Str(NumCols(sc.Layout()) - sc.padding.right - 2, y, sc.attrs.binlabel, ToBase(i * sc.binRow, 10))]
  }

  function BinaryLabelRows(sc: Scene, n: nat): (r: seq<Event>)
    requires sc.binRow > 0
    ensures |r| == 2 * n && Paints(r)
  {
    if n == 0 then [] else BinaryLabelRows(sc, n - 1) + BinaryLabelPair(sc, n - 1)
  }

  /** `draw_binary_labels`. */
  function BinaryLabelEvents(sc: Scene): seq<Event>
    requires sc.binRow > 0
  {
    BinaryLabelRows(sc, sc.bits / sc.binRow)
  }

  // ------------------------------------------------------ expression rows

  /** The first expression row. */
  function ExprTop(sc: Scene): nat
    requires sc.binRow > 0
  {
    OffsetExprs(sc.Layout()) + sc.padding.vartop
  }

  /** The first n blank lines of `clear_exprs` as intended: a full-width
      blank line on each expression row. */
  function ClearExprRows(sc: Scene, n: nat): (r: seq<Event>)
    requires sc.binRow > 0
    ensures |r| == n && Paints(r)
  {
    if n == 0 then []
    else ClearExprRows(sc, n - 1) + [Str(0, ExprTop(sc) + n - 1, "", Spaces(NumCols(sc.Layout())))]
  }

  function ClearExprsEvents(sc: Scene): seq<Event>
    requires sc.binRow > 0
  {
    ClearExprRows(sc, |sc.exprs|)
  }

  /** The first n blank lines of `clear_exprs` as written: its `y` never
      advances, so every one lands on the first expression row. */
  function ClearExprRowsAsWritten(sc: Scene, n: nat): (r: seq<Event>)
    requires sc.binRow > 0
    ensures |r| == n && Paints(r)
  {
    if n == 0 then []
    else ClearExprRowsAsWritten(sc, n - 1) + [Str(0, ExprTop(sc), "", Spaces(NumCols(sc.Layout())))]
  }

  function ClearExprsEventsAsWritten(sc: Scene): seq<Event>
    requires sc.binRow > 0
  {
    ClearExprRowsAsWritten(sc, |sc.exprs|)
  }

  function ExprValueRows(sc: Scene, n: nat): (r: seq<Event>)
    requires sc.binRow > 0 && n <= |sc.exprs| && ExprsRenderable(sc.exprs)
    ensures |r| == (if Aligned(sc) then n else 0) && Paints(r)
  {
    if n == 0 then []
    else
      var e := sc.exprs[n - 1];
      ExprValueRows(sc, n - 1) + ValueRowEvents(sc, e.value, e.fmt, ExprTop(sc) + n - 1)
  }

  /** `draw_exprs`. */
  function ExprValueEvents(sc: Scene): seq<Event>
    requires sc.binRow > 0 && ExprsRenderable(sc.exprs)
  {
    ExprValueRows(sc, |sc.exprs|)
  }

  /** The three label writes of expression `idx`: its format code, its
      index and its label, mirrored between the two alignments. */
  function ExprLabelTriple(sc: Scene, idx: nat): seq<Event>
    requires sc.binRow > 0 && idx < |sc.exprs|
  {
    var e := sc.exprs[idx];
    var p := sc.padding;
    var y := ExprTop(sc) + idx;
    var cols := NumCols(sc.Layout());
    if sc.align == "left" then
      [Str(p.left, y, sc.attrs.exprlabel, [e.fmt]),
       Str(cols - p.right - 2, y, sc.attrs.exprlabel, ToBase(idx, 10)),
       Str(cols - p.right - 2 - p.labelPad - |e.name|, y, sc.attrs.expr, e.name)]
    else
      [Str(cols - p.right - 2, y, sc.attrs.exprlabel, [e.fmt]),
       Str(p.left, y, sc.attrs.exprlabel, ToBase(idx, 10)),
       Str(p.left + 2 + p.labelPad, y, sc.attrs.expr, e.name)]
  }

  function ExprLabelRows(sc: Scene, n: nat): (r: seq<Event>)
    requires sc.binRow > 0 && n <= |sc.exprs|
    ensures |r| == 3 * n && Paints(r)
  {
    if n == 0 then [] else ExprLabelRows(sc, n - 1) + ExprLabelTriple(sc, n - 1)
  }

  /** `draw_expr_labels`. */
  function ExprLabelEvents(sc: Scene): seq<Event>
    requires sc.binRow > 0
  {
    ExprLabelRows(sc, |sc.exprs|)
  }

  // ------------------------------------------------------------ whole pass

  /** A pass that paints the value region with an undefined value stops in
      `draw_binary`: formatting None with the 'b' code raises. */
  predicate PassCompletes(sc: Scene, f: DrawState) {
    !((f.value || f.all) && sc.lastval.None?)
  }

  /** The clear that starts a pass with `all` set. */
  function ClearStage(f: DrawState): seq<Event> {
    if f.all then [Clear] else []
  }

  /** The header block of `redraw`. */
  function HeaderStage(sc: Scene, f: DrawState, width: int): (r: seq<Event>)
    ensures Paints(r)
  {
    if f.header || f.all then HeaderEvents(sc, width) else []
  }

  /** The value block of `redraw`: blank and repaint the value rows, then
      the binary grid, which a missing value never reaches. */
  function ValueStage(sc: Scene, f: DrawState): (r: seq<Event>)
    requires sc.binRow > 0
    ensures Paints(r)
  {
    if f.value || f.all then
      ClearValueEvents(sc) + ValueEvents(sc) +
        (match sc.lastval case None => [] case Some(v) => BinaryEvents(sc, v))
    else []
  }

  /** The value-label block: format codes and binary row labels. */
  function ValueLabelStage(sc: Scene, f: DrawState): (r: seq<Event>)
    requires sc.binRow > 0
    ensures Paints(r)
  {
    if f.vallabel || f.all then ValueLabelEvents(sc) + BinaryLabelEvents(sc) else []
  }

  /** The expression-label block. */
  function ExprLabelStage(sc: Scene, f: DrawState): (r: seq<Event>)
    requires sc.binRow > 0
    ensures Paints(r)
  {
    if f.exprlabel || f.all then ExprLabelEvents(sc) else []
  }

  /** The expression-value block: `clear_exprs` as the program runs it
      (every blank line on the first expression row), the values
      repainted, then the labels again (blanking a row erases them). */
  function ExprValueStage(sc: Scene, f: DrawState): (r: seq<Event>)
    requires sc.binRow > 0 && ExprsRenderable(sc.exprs)
    ensures Paints(r)
  {
    if f.exprvalue || f.all then ClearExprsEventsAsWritten(sc) + ExprValueEvents(sc) + ExprLabelEvents(sc) else []
  }

  /** The regions after the value region, in `redraw`'s order. */
  function LaterRegions(sc: Scene, f: DrawState): (r: seq<Event>)
    requires sc.binRow > 0 && ExprsRenderable(sc.exprs)
    ensures Paints(r)
  {
    ValueLabelStage(sc, f) + ExprLabelStage(sc, f) + ExprValueStage(sc, f)
  }

  /** What a pass writes after its opening clear: header, value block and,
      unless `draw_binary` raised, the later regions. */
  function BlockEvents(sc: Scene, f: DrawState, width: int): (r: seq<Event>)
    requires sc.binRow > 0 && ExprsRenderable(sc.exprs)
    ensures Paints(r)
  {
    HeaderStage(sc, f, width) + ValueStage(sc, f) +
      (if PassCompletes(sc, f) then LaterRegions(sc, f) else [])
  }

  /** Everything one `redraw` pass writes, given the flags it starts from. */
  function PassEvents(sc: Scene, f: DrawState, width: int): seq<Event>
    requires sc.binRow > 0 && ExprsRenderable(sc.exprs)
  {
    ClearStage(f) + BlockEvents(sc, f, width)
  }
}
