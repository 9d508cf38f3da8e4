/** Screen geometry of the display (calculon/display.py: the `BIN_MODE_*`
    constants, `update_bin_mode`'s choices and the `num_*`/`offset_*`
    methods): integer arithmetic over the padding, the bit width, the
    binary row size, the format list and the number of expressions. */
module Geometry {
  import opened Options
  import opened Numerals

  const WIDE_WIDTH: nat := 84
  const NARROW_WIDTH: nat := 44
  const WIDE_ROW: nat := 32
  const NARROW_ROW: nat := 16

  const VALID_FORMATS: string := "hdoaub"

  datatype BinMode = Wide | Narrow

  /** The padding settings, in rows or columns (`labelPad` is the `label` key). */
  datatype Padding = Padding(
    top: nat, bottom: nat, left: nat, right: nat, labelPad: nat,
    bintop: nat, binbottom: nat, vartop: nat, varbottom: nat)

  /** Everything the row and column counts depend on. `mode` is
      `cur_bin_mode`, which stays None unless the preference is "auto". */
  datatype Layout = Layout(
    padding: Padding, formats: seq<char>, mode: Option<BinMode>,
    bits: nat, binRow: nat, exprCount: nat)

  /** The mode `update_bin_mode` leaves in `cur_bin_mode`. */
  function ResolveMode(pref: string, width: int, cur: Option<BinMode>): Option<BinMode> {
    if pref == "auto" then Some(if width >= WIDE_WIDTH then Wide else Narrow) else cur
  }

  /** `bin_row`: 16 only for a resolved narrow mode, 32 otherwise (also when unresolved). */
  function RowSize(mode: Option<BinMode>): nat {
    if mode == Some(Narrow) then NARROW_ROW else WIDE_ROW
  }

  /** `bits` rounded up to a whole number of binary rows. */
  function RoundUp(bits: nat, row: nat): nat
    requires row > 0
  {
    if bits % row > 0 then bits + (row - bits % row) else bits
  }

  /** Rounding gives the least multiple of the row size that is at least
      `bits`: it never shrinks, never grows by a whole row, keeps an
      aligned width and is therefore idempotent. */
  lemma RoundUpSpec(bits: nat, row: nat)
    requires row > 0
    ensures RoundUp(bits, row) % row == 0
    ensures bits <= RoundUp(bits, row) < bits + row
    ensures bits % row == 0 ==> RoundUp(bits, row) == bits
    ensures RoundUp(RoundUp(bits, row), row) == RoundUp(bits, row)
  {
    var r := bits % row;
    if r > 0 {
      var q := bits / row;
      assert bits == q * row + r;
      assert RoundUp(bits, row) == (q + 1) * row;
      DivModUnique((q + 1) * row, row, q + 1, 0);
    }
  }

  /** In "auto" the mode is wide exactly when the terminal is at least 84
      columns wide (a tie is wide); any other preference leaves the mode
      as it was, so a display that never was "auto" keeps None, with 32-bit
      rows but the narrow column count. */
  lemma ResolveModeSpec(pref: string, width: int, cur: Option<BinMode>)
    ensures pref == "auto" ==> ResolveMode(pref, width, cur) == Some(if width >= 84 then Wide else Narrow)
    ensures pref != "auto" ==> ResolveMode(pref, width, cur) == cur
    ensures ResolveMode(pref, width, ResolveMode(pref, width, cur)) == ResolveMode(pref, width, cur)
    ensures RowSize(None) == 32 && RowSize(Some(Wide)) == 32 && RowSize(Some(Narrow)) == 16
  {
  }

  /** `get_value_formats`: the valid codes other than 'b', in configuration order. */
  function ValueFormats(formats: seq<char>): (r: seq<char>)
    ensures |r| <= |formats|
  {
    if formats == [] then []
    else
      var c := formats[0];
      (if c in VALID_FORMATS && c != 'b' then [c] else []) + ValueFormats(formats[1..])
  }

  /** The value rows are exactly the configured codes that are valid and not 'b'. */
  lemma {:induction false} ValueFormatsMembers(formats: seq<char>)
    ensures forall c :: c in ValueFormats(formats) <==> c in formats && c in VALID_FORMATS && c != 'b'
  {
    if formats != [] {
      ValueFormatsMembers(formats[1..]);
      assert formats == [formats[0]] + formats[1..];
    }
  }

  function NumRowsVal(l: Layout): nat {
    |ValueFormats(l.formats)|
  }

  /** `int(bits / bin_row + bintop + binbottom)`; Python's true division
      followed by `int` truncates, which for non-negative operands is `/` here. */
  function NumRowsBin(l: Layout): nat
    requires l.binRow > 0
  {
    l.bits / l.binRow + l.padding.bintop + l.padding.binbottom
  }

  function NumRowsExprs(l: Layout): nat {
    if l.exprCount > 0 then l.exprCount + l.padding.vartop + l.padding.varbottom else 0
  }

  function OffsetVal(l: Layout): nat {
    l.padding.top
  }

  function OffsetBin(l: Layout): nat {
    OffsetVal(l) + NumRowsVal(l)
  }

  function OffsetExprs(l: Layout): nat
    requires l.binRow > 0
  {
    OffsetBin(l) + NumRowsBin(l)
  }

  function NumRows(l: Layout): nat
    requires l.binRow > 0
  {
    OffsetExprs(l) + NumRowsExprs(l) + l.padding.bottom
  }

  /** The wide base width only for a resolved wide mode, the narrow one otherwise. */
  function NumCols(l: Layout): nat {
    (if l.mode == Some(Wide) then WIDE_WIDTH else NARROW_WIDTH) + l.padding.left + l.padding.right
  }

  /** The total row count as a sum of the regions, stacked top to bottom. */
  lemma NumRowsSum(l: Layout)
    requires l.binRow > 0
    ensures NumRows(l) ==
      l.padding.top + |ValueFormats(l.formats)|
      + l.bits / l.binRow + l.padding.bintop + l.padding.binbottom
      + (if l.exprCount == 0 then 0 else l.exprCount + l.padding.vartop + l.padding.varbottom)
      + l.padding.bottom
    ensures OffsetVal(l) <= OffsetBin(l) <= OffsetExprs(l) <= NumRows(l)
    ensures NumCols(l) == (if l.mode == Some(Wide) then 84 else 44) + l.padding.left + l.padding.right
  {
  }
}
