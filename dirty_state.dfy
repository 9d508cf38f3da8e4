/** The `draw_state` dictionary of calculon/display.py: one "needs
    repainting" flag per region and the `all` flag that forces every
    region (and a full clear). */
module DirtyState {

  datatype DrawState = DrawState(
    header: bool, value: bool, vallabel: bool, binlabel: bool,
    varlabel: bool, varvalue: bool, exprlabel: bool, exprvalue: bool,
    all: bool)

  /** The dictionary as the constructor creates it: every flag set. */
  const ALL_DIRTY := DrawState(true, true, true, true, true, true, true, true, true)

  /** The flags a pass starts painting from: `all` is forced by a change of
      binary mode, by an explicit request or by a pending resize. */
  function Triggered(f: DrawState, modeChanged: bool, force: bool, pending: bool): DrawState {
    f.(all := f.all || modeChanged || force || pending)
  }

  /** The flags a completed pass leaves: everything it paints is clean,
      and `binlabel`, `varlabel`, `varvalue`, which no pass reads or
      writes, keep whatever they were. */
  function Settled(f: DrawState): DrawState {
    f.(header := false, value := false, vallabel := false,
       exprlabel := false, exprvalue := false, all := false)
  }

  /** The flags a pass leaves, read field by field: the header block always
      lowers its flag; a completed pass lowers every flag it paints from,
      while a pass that stops in the value block keeps the others. */
  lemma PassLeaves(f: DrawState, g: DrawState, ok: bool)
    requires !g.header && g.value == (f.value && !ok)
    requires g.binlabel == f.binlabel && g.varlabel == f.varlabel && g.varvalue == f.varvalue
    requires ok ==> !g.vallabel && !g.exprlabel && !g.exprvalue && !g.all
    requires !ok ==>
      g.vallabel == f.vallabel && g.exprlabel == f.exprlabel &&
      g.exprvalue == f.exprvalue && g.all == f.all
    ensures g == (if ok then Settled(f) else f.(header := false))
  {
  }

  /** Whether a pass with these flags clears the whole screen. */
  predicate ClearsScreen(f: DrawState) {
    f.all
  }

  /** A pending resize (set once or many times, which is the same boolean)
      forces exactly one full clear; the pass after it, at an unchanged
      mode and with no new resize, clears nothing. */
  lemma ResizeCoalesces(f: DrawState, modeChanged: bool, force: bool)
    ensures ClearsScreen(Triggered(f, modeChanged, force, true))
    ensures !ClearsScreen(Triggered(Settled(Triggered(f, modeChanged, force, true)), false, false, false))
    ensures var s := Settled(f);
      !s.header && !s.value && !s.vallabel && !s.exprlabel && !s.exprvalue && !s.all &&
      s.binlabel == f.binlabel && s.varlabel == f.varlabel && s.varvalue == f.varvalue
  {
  }
}
