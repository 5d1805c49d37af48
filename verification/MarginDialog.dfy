/** Adding collateral to a position and taking it out: what the dialog offers, where it leaves the
    liquidation price, and what the program would say. */
module MarginDialog {
  import opened Liquidation
  import opened Prelude

  const INITIAL_FRAC := 0.05
  const TOLERANCE := 0.000000001

  /** The dialog's row: a position with what is known of its entry and mark. */
  datatype Edit = Edit(isLong: bool, size: real, entry: Option<real>, mark: Option<real>)

  function MarkOr(r: Edit): real {
    if r.mark.Some? then r.mark.value else if r.entry.Some? then r.entry.value else 0.0
  }

  function PnlOf(r: Edit): real {
    if r.entry.Some? && r.mark.Some? then Pnl(r.isLong, r.entry.value, r.mark.value, r.size) else 0.0
  }

  function MaxRemove(r: Edit, committed: real): real {
    MaxReal(0.0, MinReal(committed, committed + PnlOf(r) - MarkOr(r) * r.size * INITIAL_FRAC))
  }

  /** The price shown for the collateral there would be. */
  function ProjectedLiq(r: Edit, next: real): Option<real> {
    if r.entry.Some? && r.size > 0.0 && next > 0.0 then Some(LiqPrice(r.isLong, r.entry.value, next, r.size)) else None
  }

  ghost predicate Known(r: Edit) { r.size > 0.0 && r.entry.Some? && r.mark.Some? && r.mark.value > 0.0 }

  /** The remainder is not negative and, with the profit if one is known, carries initial margin at the mark, or
      failing one at the entry. */
  ghost predicate Covered(r: Edit, remainder: real) {
    var mark := if r.mark.Some? then r.mark.value else if r.entry.Some? then r.entry.value else 0.0;
    var pnl := if r.entry.None? || r.mark.None? then 0.0
               else if r.isLong then (r.mark.value - r.entry.value) * r.size else (r.entry.value - r.mark.value) * r.size;
    remainder >= 0.0 && remainder + pnl >= mark * r.size * 0.05
  }

  lemma CoveredIs(r: Edit, remainder: real)
    ensures Covered(r, remainder) <==> remainder >= 0.0 && remainder + PnlOf(r) >= MarkOr(r) * r.size * INITIAL_FRAC
  {}

  predicate StrictlyBeyond(isLong: bool, liq: real, mark: real) { if isLong then liq < mark else liq > mark }

  /** The cap is exactly what can leave with the position still covered, whatever is known of it. */
  lemma RemovableIffCovered(r: Edit, committed: real, n: real)
    requires n > 0.0
    ensures n <= MaxRemove(r, committed) <==> Covered(r, committed - n)
  {
  }

  /** Short of liquidation and with a price to show, the price lies strictly beyond the mark; and the
      other way round. */
  lemma BeyondIffMargin(r: Edit, next: real)
    requires Known(r) && next > 0.0
    ensures StrictlyBeyond(r.isLong, ProjectedLiq(r, next).value, r.mark.value)
       <==> next + PnlOf(r) > MAINT_FRAC * (r.mark.value * r.size)
  {
    Threshold(r.isLong, r.entry.value, next, r.size, r.mark.value);
  }

  /** Nothing that may be taken out brings the liquidation price to the mark. */
  lemma RemovalStaysSafe(r: Edit, committed: real, n: real)
    requires Known(r) && 0.0 < n <= MaxRemove(r, committed)
    ensures Covered(r, committed - n)
    ensures ProjectedLiq(r, committed - n).None? <==> n == committed
    ensures n != committed ==> StrictlyBeyond(r.isLong, ProjectedLiq(r, committed - n).value, r.mark.value)
  {
    RemovableIffCovered(r, committed, n);
    Notional(r);
    CoveredIs(r, committed - n);
    assert MarkOr(r) * r.size == r.mark.value * r.size;
    hide Covered, MaxRemove, PnlOf, LiqPrice, StrictlyBeyond;
    if n != committed { BeyondIffMargin(r, committed - n); }
  }

  lemma Notional(r: Edit)
    requires Known(r)
    ensures r.mark.value * r.size > 0.0
  {
  }

  /** What the button lets through. */
  predicate Offers(r: Edit, committed: real, n: real) { 0.0 < n <= MaxRemove(r, committed) + TOLERANCE }

  /** The button compares with a hair of tolerance. What it lets through leaves at worst that hair short
      of initial margin, so the price stays beyond the mark on any position worth more than forty hairs. */
  lemma ToleranceIsHarmless(r: Edit, committed: real, n: real)
    requires Known(r) && Offers(r, committed, n) && 0.0 < committed - n
    requires MaxRemove(r, committed) > 0.0 && r.mark.value * r.size > 40.0 * 0.000000001
    ensures committed - n + PnlOf(r) >= MarkOr(r) * r.size * INITIAL_FRAC - 0.000000001
    ensures StrictlyBeyond(r.isLong, ProjectedLiq(r, committed - n).value, r.mark.value)
  {
    BeyondIffMargin(r, committed - n);
    var notional := r.mark.value * r.size;
    assert MarkOr(r) * r.size * INITIAL_FRAC == 0.05 * notional;
    assert committed - n + PnlOf(r) >= 0.05 * notional - TOLERANCE;
    assert MAINT_FRAC * notional == 0.025 * notional && TOLERANCE < 0.025 * notional;
  }

  /** Adding collateral moves the price strictly away from the mark. */
  lemma AddingMovesAway(r: Edit, committed: real, n: real)
    requires Known(r) && committed > 0.0 && n > 0.0
    ensures var before, after := ProjectedLiq(r, committed).value, ProjectedLiq(r, committed + n).value;
      if r.isLong then after < before else after > before
  {
    Divides(committed, committed + n, r.size);
  }

  lemma Divides(x: real, y: real, size: real)
    requires size > 0.0 && x < y
    ensures x / size < y / size
  {
    assert (y / size - x / size) * size == y - x;
  }

  // ── what the program says ─────────────────────────────────────────────────

  /** `remove_collateral` on an open position, in atoms. */
  predicate ProgramRemoves(isLong: bool, committed: nat, amount: nat, entry: nat, mark: nat, lots: nat) {
    && amount > 0 && amount <= committed && committed - amount > 0
    && var pnl: int := (if isLong then mark - entry else entry - mark) * lots;
       committed - amount + pnl >= Saturating(Saturating(mark * lots) * 500) / 10000
  }

  /** It never takes nothing, and never everything. */
  lemma ProgramNeedsSome(isLong: bool, committed: nat, amount: nat, entry: nat, mark: nat, lots: nat)
    requires amount == 0 || amount >= committed
    ensures !ProgramRemoves(isLong, committed, amount, entry, mark, lots)
  {}

  /** The dialog's row for the same position, read in dollars. */
  function Dollars(isLong: bool, entry: nat, mark: nat, lots: nat, lotFrac: real): Edit
    requires lotFrac > 0.0
  {
    Edit(isLong, Size(lots, lotFrac), Some(PerAsset(entry as real, lotFrac)), Some(PerAsset(mark as real, lotFrac)))
  }

  predicate DialogAllows(isLong: bool, committed: nat, amount: nat, entry: nat, mark: nat, lots: nat, lotFrac: real)
    requires lotFrac > 0.0
  {
    amount > 0 && amount as real / MICRO <= MaxRemove(Dollars(isLong, entry, mark, lots, lotFrac), committed as real / MICRO)
  }

  lemma DialogInAtoms(isLong: bool, committed: nat, amount: nat, entry: nat, mark: nat, lots: nat, lotFrac: real)
    requires lotFrac > 0.0
    ensures DialogAllows(isLong, committed, amount, entry, mark, lots, lotFrac)
      <==> && 0 < amount <= committed
           && 10000 * (committed - amount + (if isLong then mark - entry else entry - mark) * lots) >= mark * lots * 500
  {
    hide Covered, MaxRemove;
    var r := Dollars(isLong, entry, mark, lots, lotFrac);
    var l := lots as real;
    Whole(mark as real, l, lotFrac);
    Whole(entry as real, l, lotFrac);
    var move: int := if isLong then mark - entry else entry - mark;
    var m, e := PerAsset(mark as real, lotFrac), PerAsset(entry as real, lotFrac);
    assert (m - e) * r.size == m * r.size - e * r.size && (e - m) * r.size == e * r.size - m * r.size;
    assert (move * lots) as real == move as real * l && (mark * lots) as real == mark as real * l;
    assert PnlOf(r) == (move * lots) as real / MICRO by {
      assert (mark as real - entry as real) * l == mark as real * l - entry as real * l;
    }
    assert MarkOr(r) * r.size == (mark * lots) as real / MICRO;
    if amount > 0 {
      RemovableIffCovered(r, committed as real / MICRO, amount as real / MICRO);
      CoveredIs(r, committed as real / MICRO - amount as real / MICRO);
    }
  }

  /** Of what the dialog allows, the program refuses one thing only: taking everything. And the dialog
      is never more than an atom stricter. */
  lemma DialogMirrorsProgram(isLong: bool, committed: nat, amount: nat, entry: nat, mark: nat, lots: nat, lotFrac: real)
    requires lotFrac > 0.0 && mark * lots * 500 <= U128_MAX
    ensures DialogAllows(isLong, committed, amount, entry, mark, lots, lotFrac) ==>
              (ProgramRemoves(isLong, committed, amount, entry, mark, lots) <==> amount != committed)
    ensures ProgramRemoves(isLong, committed, amount, entry, mark, lots) && amount > 1 ==>
              DialogAllows(isLong, committed, amount - 1, entry, mark, lots, lotFrac)
  {
    DialogInAtoms(isLong, committed, amount, entry, mark, lots, lotFrac);
    if amount > 1 { DialogInAtoms(isLong, committed, amount - 1, entry, mark, lots, lotFrac); }
    var due := mark * lots * 500;
    assert Saturating(Saturating(mark * lots) * 500) == due;
    hide DialogAllows;
  }
}
