# calculon display engine in Dafny

This project models `CalculonDisplay` from calculon/display.py. It is the
terminal front end of the calculon calculator. It shows one integer value
and a list of watched expressions on a screen of a fixed shape:

- a header bar with the title and the link status;
- one row per value format (hex, decimal, octal, ASCII, the
  unimplemented 'u');
- a grid of the value's binary digits with bit-index labels at both ends
  of each row;
- one row per watched expression.

The object tracks its state between passes:
- the configured and the resolved binary mode;
- the bit width, rounded up to whole grid rows;
- the value and the expressions;
- the `draw_state` dictionary of dirty flags;
- the resize flag.

`redraw` clears the screen when `all` is set. It then repaints every
block whose flag is set, in a fixed order: the header, the value block
(value rows, then the binary grid), the value labels (of the value rows
and of the grid), the expression labels, and the expression rows. The
last block paints the expression labels a second time. A completed pass
lowers those flags.

The model has eight modules:

- `Options`: Python's `None` as `Option`.
- `Numerals`: digit strings as Python's `format` writes them, and what
  they read back as.
- `Formatter`: the text and style of one value in one format code
  (`BASE_FMT`, the value part of `draw_value_at_row`, the string that
  `draw_binary` lays out).
- `Geometry`: the bit-mode constants, mode resolution, rounding to
  whole rows, `get_value_formats` and the `num_*`/`offset_*` methods.
- `DirtyState`: the `draw_state` dictionary as a record, with the flags
  a pass starts from and leaves.
- `Render`: what every painter writes. A list of events stands for the
  terminal output: `draw_str(text, attr, x, y)` is one `Str` event and
  `term.clear()` is one `Clear`.
- `RenderProofs`: properties of those lists:
  - at most one clear per pass;
  - each region stays in its band of rows;
  - the binary grid has exactly `bits` digits, and its labels name the
    bits of their row;
  - what the two versions of `clear_exprs` blank.
- `Display`: the class `CalculonDisplay`.
  - Its fields are the object's attributes and the nine `draw_state` keys.
  - Terminal output is the log `writes`.
  - Each painter is a method with the source's loop. It is proved to
    append exactly its `Render` event list.
  - `redraw` and the four mutators are proved to leave the flags and the
    output that the pass functions define.

The terminal width (`self.term.width`) is a parameter of every operation
that reads it.

Where the intended design and the code differ, the model follows the
code:

- `set_win` does not force a full repaint. It calls `update_value(0)`
  and then a plain `redraw()`. The second pass finds nothing to paint
  and writes nothing (`SettledPassIsQuiet`).
- A configured "wide" or "narrow" mode is never applied. Only "auto"
  sets `cur_bin_mode`, so any other setting leaves it `None`. The grid
  then has 32-bit rows, and the column count uses the narrow width of 44.
- An undefined value is not painted in every region. Its rows show
  `<undefined>`, but `draw_binary` then formats `None` with the binary
  code. That raises, so the pass stops there and its later regions and
  flags are left as they were (`PassCompletes`).
- `clear_exprs` draws every blank line on the first expression row (see
  "Findings"). The redraw pass blanks the expression rows exactly so;
  the corrected version is modelled beside it and is not used by the
  pass.

## Model

| member | source | states |
|---|---|---|
| Numerals.ToBaseRoundTrip | calculon/display.py:17-22 | reading back the digits `format` writes in a base gives the number, and the first digit is '0' exactly when the number is 0 (no leading zeros) |
| Numerals.ToBaseLength | calculon/display.py:225 | a number fits in k digits exactly when it is below base^k, so zero fill to bits/4 hex digits keeps every digit of a value below 2^bits |
| Numerals.PadLeftValue | calculon/display.py:225 | the zero fill of a format spec does not change the value the digits read as |
| Numerals.ToBase | calculon/display.py:17-21 | the digits Python's `format` writes for a number in base 2, 8, 10 or 16 (`b`, `o`, `d`, `X`), most significant first, with no sign and no leading zero; at least one digit, each a digit of the base |
| Numerals.FromBase | calculon/display.py:226 | `int(s, base)`: the value of a digit string read most significant first |
| Numerals.PadLeft | calculon/display.py:225 | the `0=` fill of a format spec: zeros on the left up to the width, the string itself when it is already that long |
| Formatter.BinaryTextValue | calculon/display.py:265-267 | the binary string has exactly `bits` characters, each '0' or '1', and reads back as the value modulo 2^bits (the low `bits` bits) |
| Formatter.BinaryTextRoundTrip | calculon/display.py:265-267 | below 2^bits the binary string reads back as the value itself |
| Formatter.AsciiBytesBigEndian | calculon/display.py:225-226 | for a value below 2^bits with bits a whole number of bytes, the hex pairs are exactly bits/8 bytes, each below 256, whose big-endian value is the value |
| Formatter.AsciiUnescape | calculon/display.py:227-233 | undoing the brace doubling (as the later template interpolation does) leaves exactly one shown character per byte: the byte itself, or '.' for a non-printable byte or a newline |
| Formatter.ValueTextMeaning | calculon/display.py:215-238 | an undefined value shows `<undefined>` in the error style for every code; 'h' shows "0x" and hex digits that read back as the value, 'd' and 'o' show digits in base 10 and 8 that read back as the value, none with a leading zero; 'a' shows the interpolated bytes; 'u' shows empty text in the `uval` style |
| Formatter.BinaryText | calculon/display.py:265-267 | `'{:0=<bits>b}'.format(v)`, cut to its last `bits` characters when longer |
| Formatter.AsciiHex | calculon/display.py:225 | `'{0:0=<bits/4>X}'.format(v)`: the value in hex, zero filled to bits/4 digits |
| Formatter.ByteValues | calculon/display.py:226 | the hex string read two digits at a time, an odd last chunk as one digit |
| Formatter.AsciiBytes | calculon/display.py:225-226 | the byte values of the hex rendering of the value |
| Formatter.IsPrintable | calculon/display.py:228 | membership of `chr(b)` in `string.printable`: the ASCII graphic characters, the space and the whitespace controls 9-13 |
| Formatter.ShownChar | calculon/display.py:228-231 | a byte shows as itself when it is in `string.printable` and is not a newline, and as '.' otherwise |
| Formatter.Escaped | calculon/display.py:228-233 | what the loop appends for one byte: its shown character, doubled when it is a brace |
| Formatter.AsciiText | calculon/display.py:227-233 | the text the ASCII loop builds: the appended pieces of every byte, in order |
| Formatter.Unescape | calculon/display.py:186 | the brace un-doubling that `str.format` in `draw_str` applies to literal text |
| Formatter.ValueText | calculon/display.py:215-238 | text and style of `draw_value_at_row`: `<undefined>` in the error style for None; for a value, '0x' and uppercase hex, decimal, octal, the ASCII text, or the empty text of 'u', each in its own style |
| Geometry.RoundUpSpec | calculon/display.py:103-106 | the rounded width is a multiple of the row size, at least the old width and less than one row more; an aligned width is unchanged, so rounding twice is rounding once |
| Geometry.ResolveModeSpec | calculon/display.py:97-104 | in "auto" the mode is wide exactly when the width is at least 84 (a tie is wide); any other preference keeps the mode; resolving twice is resolving once; the row size is 16 only for narrow and 32 otherwise, also for an unresolved mode |
| Geometry.ValueFormats | calculon/display.py:151-152 | there are never more value formats than configured codes |
| Geometry.ValueFormatsMembers | calculon/display.py:151-152 | a code is a value format exactly when it is configured, is one of "hdoaub" and is not 'b' |
| Geometry.NumRowsSum | calculon/display.py:154-183 | the row count is top + value formats + bits/bin_row + bintop + binbottom + (0 with no expressions, else their count + vartop + varbottom) + bottom; the offsets increase down the screen; the column count is 84 for a resolved wide mode and 44 otherwise, plus the left and right padding |
| Geometry.ResolveMode | calculon/display.py:97-99 | the mode after `update_bin_mode`: in "auto", wide exactly when the width is at least 84, narrow otherwise; any other setting keeps the current mode |
| Geometry.RowSize | calculon/display.py:104 | `bin_row`: 16 for the narrow mode, 32 for the wide mode and for an unresolved one |
| Geometry.RoundUp | calculon/display.py:105-106 | `bits` raised to the next multiple of the row size when it is not one already |
| Geometry.NumRowsVal | calculon/display.py:164-165 | `num_rows_val`: the number of value formats |
| Geometry.NumRowsBin | calculon/display.py:167-168 | `num_rows_bin`: bits / bin_row grid rows plus the padding above and below the grid (whole rows, since `bits` is rounded up first) |
| Geometry.NumRowsExprs | calculon/display.py:170-174 | `num_rows_exprs`: one row per expression plus the padding above and below them, and no rows at all without expressions |
| Geometry.OffsetVal | calculon/display.py:176-177 | `offset_val`: the top padding |
| Geometry.OffsetBin | calculon/display.py:179-180 | `offset_bin`: the binary region starts after the value rows |
| Geometry.OffsetExprs | calculon/display.py:182-183 | `offset_exprs`: the expression region starts after the binary region |
| Geometry.NumRows | calculon/display.py:154-155 | `num_rows`: the expression region's offset and rows plus the bottom padding |
| Geometry.NumCols | calculon/display.py:157-162 | `num_cols`: 84 columns in the wide mode and 44 otherwise (also when unresolved), plus the left and right padding |
| DirtyState.PassLeaves | calculon/display.py:129-149 | from the flags a pass ends with, read key by key: a completed pass lowers every flag it paints from and keeps `binlabel`, `varlabel` and `varvalue`; a pass stopped in the value block has lowered only `header` |
| DirtyState.ResizeCoalesces | calculon/display.py:124-128 | a pending resize, however often it was signalled, forces one full clear; after that pass completes, the next pass, with no new resize or mode change, clears nothing; settling keeps the three flags no pass touches |
| DirtyState.Triggered | calculon/display.py:122-126 | the flags a pass paints from: `all` raised by a mode change (which `update_bin_mode`, called at line 122, signals at lines 100-101), by `redraw(all=True)` or by a pending resize, every other flag as it was |
| DirtyState.Settled | calculon/display.py:129-149 | the flags a completed pass leaves: header, value, vallabel, exprlabel, exprvalue and `all` lowered, the other three unchanged |
| Render.ClearValueRows | calculon/display.py:197-207 | `clear_value` writes one text event per value format and no clear |
| Render.ValueRows | calculon/display.py:209-213 | `draw_value` writes one text event per format under a left or right alignment and none otherwise |
| Render.LabelRows | calculon/display.py:246-250 | `draw_value_labels` writes one text event per format under a left or right alignment and none otherwise |
| Render.DigitGrid | calculon/display.py:275-285 | the digit loop writes one text event per character of the binary string |
| Render.BinaryEvents | calculon/display.py:264-285 | `draw_binary` writes only text, never a clear |
| Render.BinaryLabelRows | calculon/display.py:287-295 | `draw_binary_labels` writes two text events per grid row |
| Render.ClearExprRows | calculon/display.py:297-300 | the corrected `clear_exprs` writes one text event per expression |
| Render.ClearExprRowsAsWritten | calculon/display.py:297-300 | `clear_exprs` as written also writes one text event per expression |
| Render.ExprValueRows | calculon/display.py:302-306 | `draw_exprs` writes one text event per expression under a left or right alignment and none otherwise |
| Render.ExprLabelRows | calculon/display.py:308-319 | `draw_expr_labels` writes three text events per expression |
| Render.HeaderStage | calculon/display.py:129-131 | the header block writes only text |
| Render.ValueStage | calculon/display.py:132-136 | the value block writes only text |
| Render.ValueLabelStage | calculon/display.py:137-140 | the value-label block writes only text |
| Render.ExprLabelStage | calculon/display.py:141-143 | the expression-label block writes only text |
| Render.ExprValueStage | calculon/display.py:144-148 | the expression-value block (the blank lines of `clear_exprs` as written, then the values, then the labels) writes only text |
| Render.LaterRegions | calculon/display.py:137-148 | the blocks after the value block write only text |
| Render.BlockEvents | calculon/display.py:129-148 | everything a pass writes after its opening clear is text |
| Render.ExprsRenderable | calculon/display.py:215-238 | every expression with a defined value has a format code `draw_value_at_row` has a branch for |
| Render.Spaces | calculon/display.py:190 | Python's `' ' * n`: n spaces, none for n <= 0 |
| Render.VoltronBanner | calculon/display.py:193 | the link banner: `<==> voltron` when connected, `<=/=> voltron` when not |
| Render.HeaderEvents | calculon/display.py:188-195 | `draw_header`: nothing without a header; else a blank bar as wide as the terminal, the title at the left padding and, once the status is known, the banner flush with the right padding, all in the header style |
| Render.ClearValueEvents | calculon/display.py:197-207 | `clear_value`: one blank run per value format |
| Render.ValueRowEvents | calculon/display.py:239-244 | `draw_value_at_row`: the text right-aligned against the label column, or left-aligned after it, and no write for any other alignment |
| Render.ValueEvents | calculon/display.py:209-213 | `draw_value`: one value row per value format from the top padding |
| Render.LabelRowEvents | calculon/display.py:252-262 | `draw_labels_at_row` with no label: the format code in the label column of the alignment, no write for any other alignment |
| Render.ValueLabelEvents | calculon/display.py:246-250 | `draw_value_labels`: one label per value format from the top padding |
| Render.BinaryTop | calculon/display.py:268 | the first grid row: after the top padding, the value rows and the padding above the grid |
| Render.DigitColumn | calculon/display.py:276-285 | the column of digit j of a grid row: two columns per digit after the left padding, one more after every fourth digit and two more after every eighth |
| Render.BinaryAttr | calculon/display.py:271-274 | the error style when the value does not fit in `bits` bits, the binary style otherwise |
| Render.BinaryLabelPair | calculon/display.py:290-295 | the labels of grid row i counted from the bottom: its highest bit index on the left, its lowest on the right |
| Render.BinaryLabelEvents | calculon/display.py:287-295 | `draw_binary_labels`: one label pair per grid row |
| Render.ExprTop | calculon/display.py:298 | the first expression row: `offset_exprs` plus the padding above the expressions |
| Render.ClearExprsEvents | calculon/display.py:297-300 | the corrected `clear_exprs`: one full-width blank line on each expression row |
| Render.ClearExprsEventsAsWritten | calculon/display.py:297-300 | `clear_exprs` as written: one full-width blank line per expression, all on the first expression row |
| Render.ExprValueEvents | calculon/display.py:302-306 | `draw_exprs`: each expression's value on row `y + idx` |
| Render.ExprLabelTriple | calculon/display.py:310-319 | the three labels of expression idx (format code, index, label), mirrored between the left and every other alignment |
| Render.ExprLabelEvents | calculon/display.py:308-319 | `draw_expr_labels`: one label triple per expression, in list order |
| Render.PassCompletes | calculon/display.py:132-135 | a pass runs to its end unless its value block runs with no value, where `draw_binary` raises |
| Render.ClearStage | calculon/display.py:127-128 | one clear when `all` is set, nothing otherwise |
| Render.PassEvents | calculon/display.py:119-149 | everything one `redraw` pass writes: the clear, the header, the value block and, when the pass completes, the later blocks |
| RenderProofs.PassClearsOnce | calculon/display.py:127-128 | a pass clears the screen exactly once when it starts with `all` set and never otherwise |
| RenderProofs.ClearValueRowsWithin | calculon/display.py:197-207 | every blank run of `clear_value` lies in the value rows from the top padding down |
| RenderProofs.ValueRowsWithin | calculon/display.py:209-213 | every value text lies on the rows from its first row, one per format |
| RenderProofs.LabelRowsWithin | calculon/display.py:246-250 | every value label lies on the rows from its first row, one per format |
| RenderProofs.ValueRegionRows | calculon/display.py:197-262 | the blanking, the text and the labels of the value region lie between `offset_val` and `offset_bin` |
| RenderProofs.DigitAt | calculon/display.py:264-285 | write i of `draw_binary` is digit i of the binary string, in the value's style, on grid row i / bin_row |
| RenderProofs.DigitGridAt | calculon/display.py:275-285 | digit i of the grid stands in column i % bin_row of row i / bin_row, at the column the x/p loop computes |
| RenderProofs.BinaryGrid | calculon/display.py:264-285 | `draw_binary` writes exactly `bits` single digits that read back as the low `bits` bits of the value, in the error style exactly when the value is at least 2^bits |
| RenderProofs.BinaryRows | calculon/display.py:268-285 | with `bits` a whole number of rows, every digit lies in the `bits / bin_row` rows that start at top + value formats + bintop |
| RenderProofs.RowOfDigit | calculon/display.py:275-277 | with `bits` a whole number of rows, every digit index falls on one of the `bits / bin_row` rows |
| RenderProofs.BinaryRegionEnds | calculon/display.py:179-183 | the grid and its bottom padding end where `offset_exprs` starts the expression region |
| RenderProofs.DigitColumnsIncrease | calculon/display.py:280-285 | within a grid row the digits stand left to right, at least two columns apart |
| RenderProofs.DigitsOfRow | calculon/display.py:275-285 | grid row r holds digits r*bin_row up to r*bin_row + bin_row - 1 of the binary string |
| RenderProofs.LabelsOfRow | calculon/display.py:287-295 | grid row r carries on the left the index of its highest bit, bits-1-r*bin_row, and on the right that of its lowest, bits-(r+1)*bin_row, so the labels name the first and last digit `draw_binary` puts on that row |
| RenderProofs.ExprValueRowsWithin | calculon/display.py:302-306 | every expression value lies on the rows from the first expression row, one per expression |
| RenderProofs.ExprLabelRowsWithin | calculon/display.py:308-319 | every expression label lies on the rows from the first expression row, one per expression |
| RenderProofs.ExprRegionRows | calculon/display.py:297-319 | every value, label and blank line the expression-value block writes (with `clear_exprs` as written) lies after the binary region and above its own bottom padding and the screen's |
| RenderProofs.ClearExprRowsAt | calculon/display.py:297-300 | the k-th blank line of the corrected `clear_exprs` is a full-width blank on the k-th expression row |
| RenderProofs.ClearExprRowsAsWrittenOnTop | calculon/display.py:297-300 | every blank line of `clear_exprs` as written lies on the first expression row |
| RenderProofs.ClearExprsCoversExprRows | calculon/display.py:297-319 | the corrected `clear_exprs` blanks every expression row, so every row `draw_exprs` and `draw_expr_labels` paint was blanked first |
| RenderProofs.ClearExprsAsWrittenMissesRows | calculon/display.py:297-319 | with two or more expressions, `clear_exprs` as written blanks only the first expression row, while the labels (and, aligned, the values) of the second expression are painted on the next row |
| Display.CalculonDisplay.constructor | calculon/display.py:41-73 | the object holds the configuration, title "calculon", the header shown and no link status; after the closing `update_value(0)` it holds no expressions and the value 0, its mode resolved and its width rounded, every flag a pass paints from lowered, and the screen painted by one full pass |
| Display.CalculonDisplay.Start | calculon/display.py:72-73 | from the constructor's fresh state, `update_value(0)` leaves the state the constructor promises |
| Display.CalculonDisplay.DrawStr | calculon/display.py:185-186 | one text event at the given position and style is appended to the output |
| Display.CalculonDisplay.ClearScreen | calculon/display.py:128 | one clear is appended to the output |
| Display.CalculonDisplay.DrawHeader | calculon/display.py:188-195 | appends the blank bar, the title and, once the link status is known, the banner flush right, and nothing when the header is hidden |
| Display.CalculonDisplay.ClearValue | calculon/display.py:197-207 | appends one blank run per value format, row by row from the top padding |
| Display.CalculonDisplay.FormatValue | calculon/display.py:215-238 | the text and style built branch by branch (the ASCII text character by character) are those of the format code |
| Display.CalculonDisplay.DrawValueAtRow | calculon/display.py:215-244 | appends the value's text right-aligned against the label column or left-aligned after it, and nothing for any other alignment |
| Display.CalculonDisplay.DrawValue | calculon/display.py:209-213 | appends the value's row for each value format, from the top padding down |
| Display.CalculonDisplay.DrawValueRows | calculon/display.py:210-213 | the loop of `draw_value` appends one row per format of the list it is given |
| Display.CalculonDisplay.DrawValueLabels | calculon/display.py:246-250 | appends the label of each value format, one row each |
| Display.CalculonDisplay.DrawLabelsAtRow | calculon/display.py:252-262 | appends the format code in the label column of the alignment, and nothing for any other alignment |
| Display.CalculonDisplay.DrawBinary | calculon/display.py:264-285 | with a value, appends its binary grid and succeeds; with no value it fails before writing anything |
| Display.CalculonDisplay.DrawDigits | calculon/display.py:275-285 | the digit loop appends one write per character, at the column and row the grid assigns to its index |
| Display.CalculonDisplay.NextPosition | calculon/display.py:276-284 | one step of the digit loop: digit i = r*bin_row + j lands at column j of row r, a new row starting every bin_row digits and the gap widening after every fourth and eighth digit |
| Display.CalculonDisplay.DrawBinaryLabels | calculon/display.py:287-295 | appends the label pair of every grid row, the bottom row first |
| Display.CalculonDisplay.ClearExprs | calculon/display.py:297-300 | appends a full-width blank line on every expression row (the intended `clear_exprs`) |
| Display.CalculonDisplay.ClearExprsAsWritten | calculon/display.py:297-300 | appends one full-width blank line per expression, all on the first expression row |
| Display.CalculonDisplay.DrawExprs | calculon/display.py:302-306 | appends each expression's value text on its own row, in list order |
| Display.CalculonDisplay.DrawExprLabels | calculon/display.py:308-319 | appends the label triple of every expression, in list order |
| Display.CalculonDisplay.DrawExprLabelRow | calculon/display.py:310-319 | appends the format code, the index and the label of one expression, placed as its alignment mirrors them |
| Display.CalculonDisplay.UpdateBinMode | calculon/display.py:95-106 | the mode is resolved, `all` is raised exactly when the mode changed, the row size follows the mode, and the width is rounded up to whole rows |
| Display.CalculonDisplay.Redraw | calculon/display.py:119-149 | the mode is resolved and the width rounded; the pass starts from the flags with `all` raised by a mode change, a request or a pending resize, which is consumed; it writes exactly the pass's events; it completes unless the value block runs with no value; and it leaves the flags a completed or a stopped pass leaves |
| Display.CalculonDisplay.BeginPass | calculon/display.py:122-126 | resolves the mode, then raises `all` for a request or a pending resize and consumes the latter |
| Display.CalculonDisplay.RedrawPass | calculon/display.py:127-149 | the opening clear and then the blocks write the pass's events, and the flags end as a completed or a stopped pass leaves them |
| Display.CalculonDisplay.RedrawClear | calculon/display.py:127-128 | clears the screen exactly when `all` is set |
| Display.CalculonDisplay.RedrawBlocks | calculon/display.py:129-149 | the header, value and later blocks write their stages in order; the header flag is always lowered, and the others are lowered only when the pass completes |
| Display.CalculonDisplay.RedrawHeader | calculon/display.py:129-131 | repaints the header when its flag or `all` is set, and lowers its flag |
| Display.CalculonDisplay.RedrawValue | calculon/display.py:132-136 | blanks and repaints the value rows and then the grid; it fails, keeping the flag raised, exactly when there is no value |
| Display.CalculonDisplay.RedrawRest | calculon/display.py:137-149 | after a completed value block, paints the later regions and lowers their flags and `all`; after a failed one it writes nothing and changes nothing |
| Display.CalculonDisplay.RedrawLater | calculon/display.py:137-148 | paints the value labels, the expression labels and the expression rows in that order, and lowers their flags |
| Display.CalculonDisplay.RedrawValueLabels | calculon/display.py:137-140 | paints the value labels and the grid labels when the flag or `all` is set, and lowers the flag |
| Display.CalculonDisplay.RedrawExprLabels | calculon/display.py:141-143 | paints the expression labels when the flag or `all` is set, and lowers the flag |
| Display.CalculonDisplay.RedrawExprValues | calculon/display.py:144-148 | when the flag or `all` is set, runs `clear_exprs` as written (every blank line on the first expression row), repaints the values and then the labels, and lowers the flag |
| Display.CalculonDisplay.UpdateValue | calculon/display.py:108-111 | stores the value, raises `value` and redraws; the pass completes exactly when the value is defined |
| Display.CalculonDisplay.SetExprs | calculon/display.py:113-117 | replaces the expressions, raises `exprvalue` and `exprlabel`, and redraws |
| Display.CalculonDisplay.SetVoltronStatus | calculon/display.py:91-93 | stores the status, `None` included, and raises only the header flag, painting nothing |
| Display.CalculonDisplay.SigwinchHandler | calculon/display.py:28-30 | only records that a resize is pending |
| Display.CalculonDisplay.ResizeThenRedrawTwice | calculon/display.py:28-30 | after any positive number of `sigwinch_handler` calls, two redraws at one width with a defined value both complete, only append to the output, and clear the screen exactly once between them; the mode is resolved once, `bits` is rounded to its row size, and the flags end settled |
| Display.CalculonDisplay.RedrawTwicePending | calculon/display.py:119-128 | with a resize pending and a defined value, two redraws at one width both complete, only append to the output, and clear the screen exactly once between them; the mode is resolved once, `bits` is rounded to its row size, and the flags end settled |
| Display.CalculonDisplay.RedrawSettled | calculon/display.py:119-149 | a redraw right after a completed pass, at the same width and with no new resize, completes, writes nothing, keeps the mode and leaves the flags settled; `bits` and `bin_row` are unchanged when they were already resolved |
| Display.CalculonDisplay.SetWin | calculon/display.py:85-89 | resets the value to 0 and redraws twice; the second pass completes and writes nothing, so the output is that of `update_value(0)` alone and every flag it paints from ends lowered |
| Display.SettledPassIsQuiet | calculon/display.py:119-149 | a pass that starts from settled flags, with no mode change, request or pending resize, completes and writes nothing |

`DirtyState.PassLeaves`, `DirtyState.ResizeCoalesces`, `Geometry.NumRowsSum` and
`Geometry.ResolveModeSpec` unfold their definitions. They collect the promises about
the flags and the geometry in one place rather than carry proof of their own; the
proofs are in the painters' loops, `FormatValue`, `Redraw` and the `RenderProofs` lemmas.

## Left out

- The `blessed` terminal is out: full-screen mode, `term.move`, `term.normal`, `print`, and the `{t.…}` template interpolation inside `draw_str`. A write is an abstract event in the `writes` log. The brace un-doubling that the interpolation performs is modelled only as `Formatter.Unescape`, for the ASCII text.
- `HiddenCursor` runs `tput` through `os.system`, a process side effect; it is not modelled.
- Pyro4, `are_you_there`, loading `CONFIG` and `init_config` are out. Configuration is a `Config` value passed to the constructor. The style strings are opaque.
- Signal registration and the asynchronous delivery of SIGWINCH are out. `SigwinchHandler` is an ordinary method. The module-level `needs_redraw` is a field of the object, since one display exists per process.
- `set_win` stores the window handles `win` and `repl_win`, which no modelled code reads; they are left out.
- Negative values are excluded by the type `nat`. For them Python writes a minus sign that the model does not describe.
- Negative configuration values are not modelled: the padding settings and the configured `bits` are `nat`. Python accepts negative numbers there from the configuration and computes with them (rows and columns shift, and `bits % bin_row` uses floored modulo).
- `u` (the UTF-16 path of calculon/display.py:236-237) is commented out in the source. The model gives the observable result: empty text in the `uval` style.
- The unused `varname` parameter of `clear_value`/`draw_value` and the `label` parameter of `draw_labels_at_row` are out. No modelled caller passes either. The expression label passed to `draw_value_at_row` is likewise unused by it.
- Display.CalculonDisplay.SetExprs: requires every expression with a defined value to have a format code in "hdoau", under every alignment. For any other code `attr` is left unbound, but it is read only under alignment 'left' or 'right' (calculon/display.py:239-244): there Python raises, a failure that is not modelled; under any other alignment nothing is drawn and nothing is raised, a harmless case the model also excludes.
- Display.CalculonDisplay.UpdateValue: requires the stored expressions to be renderable in the same sense, since its pass may paint them. The same holds for `Redraw` and `SetWin`.
- Display.CalculonDisplay.Redraw: states `bits == RoundUp(old(bits), binRow)` rather than "bits is a multiple of bin_row". The alignment follows from `Geometry.RoundUpSpec`, and `UpdateBinMode` states it directly (`Resolved`). The same holds for `UpdateValue`, `SetExprs`, `SetWin` and the constructor.
- `draw_state` is nine boolean fields, read back as one record by `Flags()`, rather than a dictionary. `binlabel`, `varlabel` and `varvalue` are set by the constructor and never read or cleared by any pass, as in the source.
- Some methods split one source method at its natural seams, so that each part is proved on its own:
  - `Start` is the closing `update_value(0)` of `__init__`.
  - `BeginPass`, `RedrawPass`, `RedrawClear`, `RedrawBlocks`, `RedrawHeader`, `RedrawValue`, `RedrawRest`, `RedrawLater`, `RedrawValueLabels`, `RedrawExprLabels` and `RedrawExprValues` are the blocks of `redraw`.
  - `FormatValue` is the first half of `draw_value_at_row`.
  - `DrawValueRows`, `DrawDigits`, `NextPosition` and `DrawExprLabelRow` are loops or loop bodies of their painters.
  - `ResizeThenRedrawTwice`, `RedrawTwicePending` and `RedrawSettled` are sequences of calls to the source's operations (`sigwinch_handler`, then `redraw` twice), stated as methods so the whole sequence has one contract.

  The ghost parameters `sc` (the scene a painter reads) and `f` (the flags a pass starts from) are proof devices with no counterpart in the source.
- The geometry methods (`num_rows` … `offset_exprs`) are functions of a `Layout` value. The object builds that value from its fields through `Scene().Layout()`, instead of the functions reading the fields directly.
- An exception escaping `redraw` is modelled as the pass stopping with `ok == false`. The stop happens in `draw_binary` with an undefined value, and leaves the output and flags as they were at that point. What the caller does with the exception is not modelled.

## Findings

| source | as written | input that shows it | evidently intended | confidence | as-written member | corrected member |
|---|---|---|---|---|---|---|
| calculon/display.py:297-300 | `clear_exprs` computes `y` once and draws every blank line at `y`, never at `y + idx` | two expressions: both blank lines land on the first expression row, and the second row is never blanked, so a shorter new value there leaves characters of a longer old one | one full-width blank line on each expression row, as `draw_exprs` uses `y + idx` | high, not executed | RenderProofs.ClearExprsAsWrittenMissesRows, Display.CalculonDisplay.ClearExprsAsWritten | RenderProofs.ClearExprsCoversExprRows, Display.CalculonDisplay.ClearExprs |

The redraw pass (`Render.ExprValueStage`, `Display.CalculonDisplay.RedrawExprValues`) calls the as-written version, as the program does, so the output that `Redraw` and the mutators promise is the program's. `Display.CalculonDisplay.ClearExprs` is the corrected replacement, with its coverage proved by `RenderProofs.ClearExprsCoversExprRows`.
