/** Isolated liquidation: the price the terminal shows, the test the keeper makes and the one the program
    makes again. */
module Liquidation {
  import opened FastReaders
  import opened Kernel
  import opened Prelude

  const MAINT_FRAC := 0.025
  const MICRO := 1000000.0

  function Pnl(isLong: bool, entry: real, mark: real, size: real): real {
    (if isLong then mark - entry else entry - mark) * size
  }

  /** The price at which the collateral is spent down to maintenance. */
  function LiqPrice(isLong: bool, entry: real, collateral: real, size: real): real
    requires size > 0.0
  {
    if isLong then (entry - collateral / size) / (1.0 - MAINT_FRAC) else (entry + collateral / size) / (1.0 + MAINT_FRAC)
  }

  /** Collateral and profit no longer exceed the maintenance requirement. */
  predicate Spent(isLong: bool, entry: real, collateral: real, size: real, mark: real) {
    collateral + Pnl(isLong, entry, mark, size) <= MAINT_FRAC * (mark * size)
  }

  predicate Beyond(isLong: bool, mark: real, liq: real) { if isLong then mark <= liq else mark >= liq }

  lemma SignOfProduct(x: real, size: real)
    requires size > 0.0
    ensures x * size <= 0.0 <==> x <= 0.0
  {
  }

  /** The closed form is the exact threshold of the requirement, at every price and size. */
  lemma Threshold(isLong: bool, entry: real, collateral: real, size: real, mark: real)
    requires size > 0.0
    ensures Spent(isLong, entry, collateral, size, mark) <==> Beyond(isLong, mark, LiqPrice(isLong, entry, collateral, size))
  {
    var q := collateral / size;
    assert collateral == q * size;
    var move := if isLong then mark - entry else entry - mark;
    var x := q + move - MAINT_FRAC * mark;
    assert x * size == q * size + move * size - MAINT_FRAC * (mark * size);
    SignOfProduct(x, size);
  }

  // ── the keeper and the program ────────────────────────────────────────────

  /** The keeper's arithmetic on one position, in quote atoms per lot. */
  predicate KeeperTest(isLong: bool, collateral: nat, entry: nat, lots: nat, mark: real) {
    var pnl := (if isLong then mark - entry as real else entry as real - mark) * lots as real;
    var maintenance := mark * lots as real * 250.0 / 10000.0;
    !(collateral as real + pnl > maintenance)
  }

  const U128_MAX: nat := 0xFFFF_FFFF_FFFF_FFFF_FFFF_FFFF_FFFF_FFFF

  function Saturating(x: nat): nat { if x > U128_MAX then U128_MAX else x }

  /** `isolated_underwater`: whole atoms, a floored and saturating requirement. */
  predicate IsolatedUnderwater(collateral: nat, entry: nat, mark: nat, lots: nat, isLong: bool) {
    if lots == 0 then false else
      var pnl: int := (if isLong then mark - entry else entry - mark) * lots;
      var maintenance := Saturating(Saturating(mark * lots) * 250) / 10000;
      collateral + pnl <= maintenance
  }

  /** The keeper calls on every position the program would accept, and on no other unless the requirement
      is so large that the program's own arithmetic saturates. */
  lemma KeeperMirrorsProgram(isLong: bool, collateral: nat, entry: nat, lots: nat, mark: nat)
    ensures lots == 0 ==> !IsolatedUnderwater(collateral, entry, mark, lots, isLong)
    ensures IsolatedUnderwater(collateral, entry, mark, lots, isLong) ==> KeeperTest(isLong, collateral, entry, lots, mark as real)
    ensures lots > 0 && mark * lots * 250 <= 0xFFFF_FFFF_FFFF_FFFF_FFFF_FFFF_FFFF_FFFF ==>
              (IsolatedUnderwater(collateral, entry, mark, lots, isLong) <==> KeeperTest(isLong, collateral, entry, lots, mark as real))
  {
    var move: int := if isLong then mark - entry else entry - mark;
    var due := mark * lots * 250;
    KeeperInAtoms(isLong, collateral, entry, lots, mark, move, due);
    SaturatedDue(mark * lots);
    hide KeeperTest, Saturating;
  }

  lemma SaturatedDue(notional: nat)
    ensures Saturating(Saturating(notional) * 250) <= notional * 250
    ensures notional * 250 <= U128_MAX ==> Saturating(Saturating(notional) * 250) == notional * 250
  {
  }

  lemma KeeperInAtoms(isLong: bool, collateral: nat, entry: nat, lots: nat, mark: nat, move: int, due: nat)
    requires move == (if isLong then mark - entry else entry - mark) && due == mark * lots * 250
    ensures KeeperTest(isLong, collateral, entry, lots, mark as real) <==> 10000 * (collateral + move * lots) <= due
  {
    var pnl := move * lots;
    assert pnl as real == move as real * lots as real;
    assert (mark * lots) as real == mark as real * lots as real;
    assert KeeperTest(isLong, collateral, entry, lots, mark as real)
      <==> collateral as real + pnl as real <= (mark * lots) as real * 250.0 / 10000.0;
  }

  // ── the terminal's rows ───────────────────────────────────────────────────

  function PerAsset(atoms: real, lotFrac: real): real
    requires lotFrac > 0.0
  {
    atoms / MICRO / lotFrac
  }

  /** How much of the asset a number of lots is. */
  function Size(lots: nat, lotFrac: real): real { lots as real * lotFrac }

  /** The liquidation price of a row, in dollars per whole asset. */
  function RowLiq(isLong: bool, collateral: nat, entry: nat, lots: nat, lotFrac: real): Option<real>
    requires lotFrac > 0.0
  {
    var size := Size(lots, lotFrac);
    if size > 0.0 && collateral > 0 && entry > 0 then
      var liq := LiqPrice(isLong, PerAsset(entry as real, lotFrac), collateral as real / MICRO, size);
      if isLong && liq <= 0.0 then None else Some(liq)
    else None
  }

  /** Dollars per asset or atoms per lot, the test comes out the same. */
  lemma UnitsDoNotMatter(isLong: bool, collateral: nat, entry: nat, lots: nat, lotFrac: real, mark: real)
    requires lotFrac > 0.0
    ensures KeeperTest(isLong, collateral, entry, lots, mark)
       <==> Spent(isLong, PerAsset(entry as real, lotFrac), collateral as real / MICRO, lots as real * lotFrac, PerAsset(mark, lotFrac))
  {
    var l, e := lots as real, entry as real;
    Whole(mark, l, lotFrac);
    Whole(e, l, lotFrac);
    var size := l * lotFrac;
    var m, n := PerAsset(mark, lotFrac), PerAsset(e, lotFrac);
    assert (m - n) * size == m * size - n * size;
    assert (n - m) * size == n * size - m * size;
    assert (mark - e) * l == mark * l - e * l;
    assert (e - mark) * l == e * l - mark * l;
  }

  lemma Whole(atoms: real, l: real, lotFrac: real)
    requires lotFrac > 0.0
    ensures PerAsset(atoms, lotFrac) * (l * lotFrac) == atoms * l / MICRO
  {
    var x := PerAsset(atoms, lotFrac);
    assert x * lotFrac == atoms / MICRO;
    assert x * (l * lotFrac) == (x * lotFrac) * l;
  }

  ghost predicate Sized(collateral: nat, entry: nat, lots: nat) { collateral > 0 && entry > 0 && lots > 0 }

  /** A shown price is the keeper's exact threshold. */
  lemma RowIsThreshold(isLong: bool, collateral: nat, entry: nat, lots: nat, lotFrac: real, mark: real)
    requires lotFrac > 0.0 && RowLiq(isLong, collateral, entry, lots, lotFrac).Some?
    ensures KeeperTest(isLong, collateral, entry, lots, mark)
       <==> Beyond(isLong, PerAsset(mark, lotFrac), RowLiq(isLong, collateral, entry, lots, lotFrac).value)
  {
    var size := lots as real * lotFrac;
    assert size > 0.0;
    UnitsDoNotMatter(isLong, collateral, entry, lots, lotFrac, mark);
    Threshold(isLong, PerAsset(entry as real, lotFrac), collateral as real / MICRO, size, PerAsset(mark, lotFrac));
  }

  /** A price is shown, for a position the keeper looks at, exactly when some positive mark sets the keeper
      off; only a long can be without one. */
  lemma NoPriceNoTrigger(isLong: bool, collateral: nat, entry: nat, lots: nat, lotFrac: real)
    requires lotFrac > 0.0 && Sized(collateral, entry, lots)
    ensures RowLiq(isLong, collateral, entry, lots, lotFrac).None?
       <==> forall mark: real | mark > 0.0 :: !KeeperTest(isLong, collateral, entry, lots, mark)
    ensures !isLong ==> RowLiq(isLong, collateral, entry, lots, lotFrac).Some?
  {
    var size, e, c := lots as real * lotFrac, PerAsset(entry as real, lotFrac), collateral as real / MICRO;
    assert size > 0.0;
    assert e > 0.0 && c / size > 0.0;
    var liq := LiqPrice(isLong, e, c, size);
    hide KeeperTest, Spent, LiqPrice;
    if RowLiq(isLong, collateral, entry, lots, lotFrac).None? {
      forall mark: real | mark > 0.0 ensures !KeeperTest(isLong, collateral, entry, lots, mark) {
        UnitsDoNotMatter(isLong, collateral, entry, lots, lotFrac, mark);
        Threshold(isLong, e, c, size, PerAsset(mark, lotFrac));
        assert PerAsset(mark, lotFrac) > 0.0;
      }
    } else {
      var at := liq * lotFrac * MICRO;
      assert PerAsset(at, lotFrac) == liq && at > 0.0;
      RowIsThreshold(isLong, collateral, entry, lots, lotFrac, at);
    }
  }

  /** The atoms-per-lot price behind the dollars shown does not depend on how big a lot is. */
  lemma SamePriceInLots(isLong: bool, entry: nat, collateral: nat, lots: nat, f: real, g: real)
    requires f > 0.0 && g > 0.0 && lots > 0
    ensures lots as real * f > 0.0 && lots as real * g > 0.0
    ensures LiqPrice(isLong, PerAsset(entry as real, f), collateral as real / MICRO, lots as real * f) * f
         == LiqPrice(isLong, PerAsset(entry as real, g), collateral as real / MICRO, lots as real * g) * g
  {
    InLots(isLong, entry, collateral, lots, f);
    InLots(isLong, entry, collateral, lots, g);
  }

  lemma InLots(isLong: bool, entry: nat, collateral: nat, lots: nat, f: real)
    requires f > 0.0 && lots > 0
    ensures lots as real * f > 0.0
    ensures LiqPrice(isLong, PerAsset(entry as real, f), collateral as real / MICRO, lots as real * f) * f
         == LiqPrice(isLong, entry as real / MICRO, collateral as real / MICRO, lots as real)
  {
    var l, c, e := lots as real, collateral as real / MICRO, entry as real / MICRO;
    var q := c / (l * f);
    assert q * f == c / l by { assert q * (l * f) == c && (q * f) * l == c; }
    assert PerAsset(entry as real, f) * f == e;
    if isLong {
      assert (e / f - q) * f == e - c / l;
    } else {
      assert (e / f + q) * f == e + c / l;
    }
  }

  // ── a pass over the markets, and a sweep over the holders ─────────────────

  datatype Market = Market(assetIndex: nat, lotFrac: real)

  datatype Row = Row(
    market: Market,
    isLong: bool,
    lots: nat,
    pnl: real,
    collateral: real,
    entry: Option<real>,
    mark: Option<real>,
    liq: Option<real>)

  /** What is read of a portfolio besides its legs: collateral and blended entry by asset, in atoms. */
  datatype Books = Books(collateral: map<nat, nat>, entry: map<nat, nat>) {
    function Collateral(asset: nat): nat { if asset in collateral then collateral[asset] else 0 }
    function Entry(asset: nat): nat { if asset in entry then entry[asset] else 0 }
  }

  function RowOf(m: Market, held: Lookup, books: Books, markLot: Option<nat>): Row
    requires held.Held? && m.lotFrac > 0.0
  {
    var a := m.assetIndex;
    var entry := if books.Entry(a) > 0 then Some(PerAsset(books.Entry(a) as real, m.lotFrac)) else None;
    var mark := if markLot.Some? then Some(PerAsset(markLot.value as real, m.lotFrac)) else None;
    var size := Size(held.lots, m.lotFrac);
    Row(m, held.isLong, held.lots,
        if entry.Some? && mark.Some? then Pnl(held.isLong, entry.value, mark.value, size) else 0.0,
        books.Collateral(a) as real / MICRO, entry, mark,
        if mark.Some? then RowLiq(held.isLong, books.Collateral(a), books.Entry(a), held.lots, m.lotFrac) else None)
  }

  function RowsFrom(markets: seq<Market>, positions: seq<Position>, books: Books, marks: seq<Option<nat>>, i: nat): seq<Row>
    requires |marks| == |markets| && forall m | m in markets :: m.lotFrac > 0.0
    decreases |markets| - i
  {
    if i >= |markets| then []
    else
      var held := Find(positions, markets[i].assetIndex);
      (if held.Held? then [RowOf(markets[i], held, books, marks[i])] else [])
      + RowsFrom(markets, positions, books, marks, i + 1)
  }

  lemma RowsStep(markets: seq<Market>, positions: seq<Position>, books: Books, marks: seq<Option<nat>>, i: nat)
    requires |marks| == |markets| && forall m | m in markets :: m.lotFrac > 0.0
    ensures RowsFrom(markets, positions, books, marks, i) ==
      if i >= |markets| then []
      else
        var held := Find(positions, markets[i].assetIndex);
        (if held.Held? then [RowOf(markets[i], held, books, marks[i])] else [])
        + RowsFrom(markets, positions, books, marks, i + 1)
  {
  }

  /** What a row means: a price on it is where the keeper's test turns, with the mark known and no price there
      is no positive mark at which it does, and its profit is the keeper's, in dollars. */
  lemma RowMeans(m: Market, p: Lookup, books: Books, markLot: Option<nat>)
    requires p.Held? && m.lotFrac > 0.0
    ensures RowTells(RowOf(m, p, books, markLot), m, p, books, markLot)
  {
    var row, c, e := RowOf(m, p, books, markLot), books.Collateral(m.assetIndex), books.Entry(m.assetIndex);
    if row.liq.Some? {
      forall mark: real ensures KeeperTest(p.isLong, c, e, p.lots, mark) <==> Beyond(p.isLong, PerAsset(mark, m.lotFrac), row.liq.value) {
        RowIsThreshold(p.isLong, c, e, p.lots, m.lotFrac, mark);
      }
    } else if markLot.Some? && Sized(c, e, p.lots) {
      NoPriceNoTrigger(p.isLong, c, e, p.lots, m.lotFrac);
    }
    if markLot.Some? && e > 0 { PnlInAtoms(p.isLong, e, markLot.value, p.lots, m.lotFrac); }
    InAtoms(c as real, 1.0);
    InAtoms(e as real, m.lotFrac);
    if markLot.Some? { InAtoms(markLot.value as real, m.lotFrac); }
    hide RowLiq, KeeperTest, Pnl;
  }

  lemma InAtoms(atoms: real, lotFrac: real)
    requires lotFrac > 0.0
    ensures PerAsset(atoms, lotFrac) * lotFrac * 1_000_000.0 == atoms
  {}

  ghost predicate RowTells(row: Row, m: Market, p: Lookup, books: Books, markLot: Option<nat>)
    requires p.Held? && m.lotFrac > 0.0
  {
    var a := m.assetIndex;
    var c, e := if a in books.collateral then books.collateral[a] else 0, if a in books.entry then books.entry[a] else 0;
    && row.market == m && row.isLong == p.isLong && row.lots == p.lots && row.collateral * 1_000_000.0 == c as real
    && (row.entry == None <==> e == 0) && (row.entry.Some? ==> row.entry.value * m.lotFrac * 1_000_000.0 == e as real)
    && (row.mark == None <==> markLot == None)
    && (row.mark.Some? ==> row.mark.value * m.lotFrac * 1_000_000.0 == markLot.value as real)
    && (row.liq.Some? ==> forall mark: real ::
          KeeperTest(p.isLong, c, e, p.lots, mark) <==>
            if p.isLong then mark / 1_000_000.0 / m.lotFrac <= row.liq.value else mark / 1_000_000.0 / m.lotFrac >= row.liq.value)
    && (markLot.Some? && c > 0 && e > 0 && p.lots > 0 && row.liq.None? ==>
          forall mark: real | mark > 0.0 :: !KeeperTest(p.isLong, c, e, p.lots, mark))
    && (markLot.Some? && e > 0 ==> row.pnl * 1_000_000.0 == KeeperPnl(p.isLong, e, markLot.value, p.lots) as real)
    && (markLot.None? || e == 0 ==> row.pnl == 0.0)
  }

  function KeeperPnl(isLong: bool, entry: nat, mark: nat, lots: nat): int {
    (if isLong then mark - entry else entry - mark) * lots
  }

  lemma PnlInAtoms(isLong: bool, entry: nat, mark: nat, lots: nat, lotFrac: real)
    requires lotFrac > 0.0
    ensures Pnl(isLong, PerAsset(entry as real, lotFrac), PerAsset(mark as real, lotFrac), Size(lots, lotFrac)) * MICRO
         == KeeperPnl(isLong, entry, mark, lots) as real
  {
    var l, size := lots as real, Size(lots, lotFrac);
    Whole(mark as real, l, lotFrac);
    Whole(entry as real, l, lotFrac);
    var m, e := PerAsset(mark as real, lotFrac), PerAsset(entry as real, lotFrac);
    assert (m - e) * size == m * size - e * size && (e - m) * size == e * size - m * size;
    assert (mark * lots) as real == mark as real * l && (entry * lots) as real == entry as real * l;
    assert (mark - entry) * lots == mark * lots - entry * lots && (entry - mark) * lots == entry * lots - mark * lots;
  }

  /** One turn of the refresh: the row that is pushed tells the trader what the keeper will do. */
  method BuildRow(m: Market, p: Lookup, books: Books, markLot: Option<nat>) returns (row: Row)
    requires p.Held? && m.lotFrac > 0.0
    ensures RowTells(row, m, p, books, markLot)
    ensures row == RowOf(m, p, books, markLot)
  {
    RowMeans(m, p, books, markLot);
    hide RowTells;
    hide Pnl, LiqPrice, PerAsset, Size;
    var collateral, entryLot := books.Collateral(m.assetIndex), books.Entry(m.assetIndex);
    var markAsset := if markLot.Some? then Some(PerAsset(markLot.value as real, m.lotFrac)) else None;
    var entry := if entryLot > 0 then Some(PerAsset(entryLot as real, m.lotFrac)) else None;
    var size := Size(p.lots, m.lotFrac);
    var liq: Option<real> := None;
    if markAsset.Some? && size > 0.0 && collateral > 0 && entry.Some? {
      var at := LiqPrice(p.isLong, entry.value, collateral as real / MICRO, size);
      liq := if p.isLong && at <= 0.0 then None else Some(at);
    }
    var pnl := 0.0;
    if entry.Some? && markAsset.Some? { pnl := Pnl(p.isLong, entry.value, markAsset.value, size); }
    row := Row(m, p.isLong, p.lots, pnl, collateral as real / MICRO, entry, markAsset, liq);
  }

  /** The loop of one refresh, over decoded accounts. */
  method BuildRows(markets: seq<Market>, positions: seq<Position>, books: Books, marks: seq<Option<nat>>)
    returns (out: seq<Row>)
    requires |marks| == |markets| && forall m | m in markets :: m.lotFrac > 0.0
    ensures out == RowsFrom(markets, positions, books, marks, 0)
  {
    hide Find, RowOf, RowsFrom;
    RowsStep(markets, positions, books, marks, 0);
    out := [];
    ghost var all := RowsFrom(markets, positions, books, marks, 0);
    var i := 0;
    while i < |markets|
      invariant 0 <= i <= |markets| && out + RowsFrom(markets, positions, books, marks, i) == all
    {
      var m := markets[i];
      RowsStep(markets, positions, books, marks, i);
      ghost var before, rest := out, RowsFrom(markets, positions, books, marks, i + 1);
      var p := Find(positions, m.assetIndex);
      if p.Held? {
        var row := BuildRow(m, p, books, marks[i]);
        out := out + [row];
      }
      assert out + rest == before + ((if p.Held? then [RowOf(m, p, books, marks[i])] else []) + rest);
      i := i + 1;
    }
    RowsStep(markets, positions, books, marks, i);
  }

  /** What the keeper reads of one holder in one market. */
  datatype Holder = Holder(collateral: nat, entry: nat, leg: Lookup)

  /** The sweep's decision on one holder: the early `continue`s, then the test. */
  predicate Swept(h: Holder, mark: nat) {
    h.collateral != 0 && h.entry != 0 && h.leg.Held? && h.leg.lots != 0
    && KeeperTest(h.leg.isLong, h.collateral, h.entry, h.leg.lots, mark as real)
  }

  /** At any positive mark, the keeper calls liquidation on exactly the holders whose own row shows a price
      the mark has reached. */
  lemma SweepIsWhatRowsShow(m: Market, books: Books, held: Lookup, mark: nat)
    requires m.lotFrac > 0.0 && held.Held? && mark > 0
    ensures var row := RowOf(m, held, books, Some(mark));
      Swept(Holder(books.Collateral(m.assetIndex), books.Entry(m.assetIndex), held), mark)
      <==> row.liq.Some? && Beyond(held.isLong, row.mark.value, row.liq.value)
  {
    var c, e := books.Collateral(m.assetIndex), books.Entry(m.assetIndex);
    if Sized(c, e, held.lots) {
      NoPriceNoTrigger(held.isLong, c, e, held.lots, m.lotFrac);
      if RowLiq(held.isLong, c, e, held.lots, m.lotFrac).Some? {
        RowIsThreshold(held.isLong, c, e, held.lots, m.lotFrac, mark as real);
      }
      assert mark as real > 0.0;
    }
  }
}
