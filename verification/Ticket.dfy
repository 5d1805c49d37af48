/** The order ticket: pay times leverage, in whole lots, with the liquidation price it would have. */
module Ticket {
  import opened Liquidation
  import opened Prelude

  const MAX_LEV := 25.0

  /** What the trader typed: `pay` dollars at `lev`, at `price` dollars per asset, `frac` assets a lot. */
  datatype Order = Order(isLong: bool, pay: real, lev: real, price: real, frac: real) {
    function Target(): real { pay * lev }
    function PerLot(): real { price * frac }
    function Lots(): int { if PerLot() > 0.0 then (Target() / PerLot()).Floor else 0 }
    function SizeAssets(): real { Lots() as real * frac }
    function Notional(): real { PerLot() * Lots() as real }
  }

  function LiqPreview(o: Order): Option<real> {
    if o.pay > 0.0 && o.SizeAssets() > 0.0 && o.price > 0.0
    then Some(LiqPrice(o.isLong, o.price, o.pay, o.SizeAssets())) else None
  }

  /** The typed leverage, held to the slider's range. */
  function ClampLev(n: real): (lev: real)
    ensures lev == if n < 0.0 then 0.0 else if n > 25.0 then 25.0 else n
  {
    MinReal(MAX_LEV, MaxReal(0.0, n))
  }

  /** A ticket of at least one lot. */
  ghost predicate Ticketed(o: Order) { o.frac > 0.0 && o.price > 0.0 && o.pay > 0.0 && o.Lots() >= 1 }

  /** The lots are the most that pay times leverage covers. */
  lemma MostLots(o: Order)
    requires o.price > 0.0 && o.frac > 0.0
    ensures o.Notional() <= o.Target() < o.Notional() + o.PerLot()
    ensures o.price * o.frac * o.Lots() as real <= o.pay * o.lev < o.price * o.frac * (o.Lots() + 1) as real
  {
    assert o.PerLot() > 0.0;
    var q := o.Target() / o.PerLot();
    assert q * o.PerLot() == o.Target();
    WholeLots(q - o.Lots() as real, q, o.PerLot(), o.Notional(), o.Target());
  }

  lemma WholeLots(part: real, q: real, per: real, notional: real, target: real)
    requires per > 0.0 && 0.0 <= part < 1.0 && notional == per * (q - part) && target == q * per
    ensures notional <= target < notional + per
  {
    assert (1.0 - part) * per > 0.0;
    assert target - notional == part * per;
  }

  /** Without a price there are no lots; and a price is previewed exactly for a paid ticket of some size. */
  lemma PreviewedIff(o: Order)
    ensures o.price * o.frac <= 0.0 ==> o.Lots() == 0
    ensures LiqPreview(o).Some? <==> o.pay > 0.0 && o.Lots() as real * o.frac > 0.0 && o.price > 0.0
  {}

  predicate OnLosingSide(o: Order, liq: real) { if o.isLong then liq < o.price else liq > o.price }

  /** The previewed price lies on the losing side of the entry exactly when the pay exceeds maintenance on
      the notional. */
  lemma LosingSideIff(o: Order)
    requires Ticketed(o)
    ensures LiqPreview(o).Some?
    ensures OnLosingSide(o, LiqPreview(o).value) <==> MAINT_FRAC * o.Notional() < o.pay
  {
    var size := o.SizeAssets();
    assert o.Lots() as real * o.frac > 0.0;
    assert o.price * size == o.Notional();
    Threshold(o.isLong, o.price, o.pay, size, o.price);
  }

  /** At any leverage the slider allows, a ticket spends no more than asked, less than a lot short of it, and
      would be liquidated only on the losing side. */
  lemma TicketIsSafe(o: Order)
    requires Ticketed(o) && 0.0 < o.lev <= 25.0
    ensures o.Target() - o.PerLot() < o.Notional() <= o.Target()
    ensures LiqPreview(o).Some? && OnLosingSide(o, LiqPreview(o).value)
  {
    MostLots(o);
    LosingSideIff(o);
    assert o.pay * (25.0 - o.lev) >= 0.0;
  }

  /** Filled at its price with its pay behind it, the position's row shows the previewed price; except that
      a long which cannot be liquidated shows none where the ticket previews a price of zero or less. */
  lemma PreviewIsWhatTheRowShows(isLong: bool, collateral: nat, entry: nat, lots: nat, lotFrac: real, lev: real)
    requires lotFrac > 0.0 && collateral > 0 && entry > 0 && lots > 0
    requires var o := Order(isLong, collateral as real / MICRO, lev, PerAsset(entry as real, lotFrac), lotFrac); o.Lots() == lots
    ensures var o := Order(isLong, collateral as real / MICRO, lev, PerAsset(entry as real, lotFrac), lotFrac);
      && LiqPreview(o).Some?
      && (RowLiq(isLong, collateral, entry, lots, lotFrac) == LiqPreview(o) <==> !isLong || LiqPreview(o).value > 0.0)
      && (RowLiq(isLong, collateral, entry, lots, lotFrac) == LiqPreview(o) <==> !isLong || o.pay < o.Notional())
  {
    var o := Order(isLong, collateral as real / MICRO, lev, PerAsset(entry as real, lotFrac), lotFrac);
    var size := Size(lots, lotFrac);
    assert size > 0.0 && o.SizeAssets() == size && o.price > 0.0;
    var q := o.pay / size;
    assert q * size == o.pay && o.price * size == o.Notional();
    assert (o.price - q) * size == o.price * size - q * size;
    assert (o.price - q) * size > 0.0 <==> o.price - q > 0.0;
    assert q > 0.0;
  }
}
