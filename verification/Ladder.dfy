/** The desired ladder: a mark and an inventory turned into two sides of rungs. */
module Ladder {
  import opened Prelude

  datatype Rung = Rung(coid: int, price: int, lots: int)

  /** The quoting parameters, fixed for the life of the process. */
  datatype Config = Config(
    levels: nat,
    stepBps: real,
    baseLots: real,
    sizeDecay: real,
    maxPosition: int,
    skewBps: real,
    repriceBps: real,
    reconcileMs: int)
  {
    /** What the process is run with: the level count is clamped to 1..8, the cap divides the inventory. */
    ghost predicate Valid() { 1 <= levels <= 8 && 0 < maxPosition }
  }

  const BID_BASE := 0x10000000
  const ASK_BASE := 0x20000000

  function CoidOf(bid: bool, level: nat): int { (if bid then BID_BASE else ASK_BASE) + level }

  /** `coid & 0xffff`. */
  function LevelOf(coid: int): int { coid % 0x10000 }

  /** Inventory as a fraction of the cap, clamped to [-1, 1]. */
  function InvFrac(c: Config, position: int): real
    requires c.Valid()
  {
    MaxReal(-1.0, MinReal(1.0, position as real / c.maxPosition as real))
  }

  function Mid(c: Config, mark: int, position: int): int
    requires c.Valid()
  {
    mark - Round(mark as real * c.skewBps * InvFrac(c, position) / 10000.0)
  }

  /** Inventory as one side sees it: filling that side pushes it towards the cap. */
  function Exposure(bid: bool, position: int): int { if bid then position else -position }

  /** How much of a side is still quoted at this inventory. */
  function Scale(c: Config, bid: bool, position: int): (s: real)
    requires c.Valid()
    ensures 0.0 <= s <= 1.0
  {
    MaxReal(0.0, 1.0 - MaxReal(0.0, if bid then InvFrac(c, position) else -InvFrac(c, position)))
  }

  /** Distance from the mid: at least one tick. */
  function Offset(c: Config, mark: int, level: nat): (off: int)
    ensures 1 <= off
  {
    MaxInt(1, Round(mark as real * c.stepBps * level as real / 10000.0))
  }

  /** Rung size before inventory scales it. */
  function Size(c: Config, level: nat): (lots: int)
    requires 1 <= level
    ensures 1 <= lots
  {
    MaxInt(1, Round(c.baseLots * Pow(c.sizeDecay, level - 1)))
  }

  function Scaled(size: int, scale: real): int { MaxInt(1, Round(size as real * scale)) }

  function Lots(c: Config, bid: bool, position: int, level: nat): int
    requires c.Valid() && 1 <= level
  {
    Scaled(Size(c, level), Scale(c, bid, position))
  }

  /** A side is dropped altogether once its exposure reaches the cap. */
  predicate Quoted(c: Config, bid: bool, position: int)
    requires c.Valid()
  {
    Exposure(bid, position) < c.maxPosition && Scale(c, bid, position) > 0.0
  }

  function WantedRung(c: Config, bid: bool, mark: int, position: int, level: nat): Rung
    requires c.Valid() && 1 <= level
  {
    var mid := Mid(c, mark, position);
    var off := Offset(c, mark, level);
    Rung(CoidOf(bid, level), if bid then mid - off else mid + off, Lots(c, bid, position, level))
  }

  /** One whole side of the desired ladder. */
  function Desired(c: Config, bid: bool, mark: int, position: int): map<nat, Rung>
    requires c.Valid()
  {
    map l: nat | 1 <= l <= c.levels && Quoted(c, bid, position) :: WantedRung(c, bid, mark, position, l)
  }

  /** A rung in numbers: its client id, how far from the mid it stands and how much of its full size is left. */
  ghost predicate RungInNumbers(c: Config, bid: bool, mark: int, mid: int, position: int, level: nat, r: Rung, size: int)
    requires c.Valid()
  {
    var exposure := if bid then position else -position;
    && r.coid == (if bid then 0x1000_0000 else 0x2000_0000) + level
    && OffsetInNumbers(c, mark, level, if bid then mid - r.price else r.price - mid)
    && LotsInNumbers(c, exposure, size, r.lots)
  }

  ghost predicate OffsetInNumbers(c: Config, mark: int, level: nat, off: int) {
    AtLeastOne(off, mark as real * c.stepBps * level as real / 10000.0)
  }

  ghost predicate LotsInNumbers(c: Config, exposure: int, size: int, lots: int)
    requires c.Valid()
  {
    AtLeastOne(lots, size as real * if exposure <= 0 then 1.0 else 1.0 - exposure as real / c.maxPosition as real)
  }

  /** A side of the ladder in numbers: every level, below the cap and only there. */
  ghost predicate InNumbers(c: Config, bid: bool, mark: int, mid: int, position: int, m: map<nat, Rung>, sizes: seq<int>)
    requires c.Valid() && |sizes| == c.levels
  {
    var room := if bid then position < c.maxPosition else -c.maxPosition < position;
    && |m| == (if room then c.levels else 0)
    && (forall l: nat :: l in m <==> 1 <= l <= c.levels && room)
    && forall l: nat | l in m && 1 <= l <= c.levels :: RungInNumbers(c, bid, mark, mid, position, l, m[l], sizes[l - 1])
  }

  /** A level's size before inventory scales it. */
  ghost predicate FullInNumbers(c: Config, level: nat, size: int)
    requires 1 <= level
  {
    AtLeastOne(size, c.baseLots * Pow(c.sizeDecay, level - 1))
  }

  ghost predicate MidInNumbers(c: Config, mark: int, mid: int, position: int)
    requires c.Valid()
  {
    var share := if position >= c.maxPosition then 1.0 else if position <= -c.maxPosition then -1.0
                 else position as real / c.maxPosition as real;
    Nearest(mark - mid, mark as real * c.skewBps * share / 10000.0)
  }

  /** The loop that fills both Maps, level by level. */
  method DesiredLadder(c: Config, mark: int, position: int)
    returns (bids: map<nat, Rung>, asks: map<nat, Rung>, mid: int, ghost sizes: seq<int>)
    requires c.Valid()
    ensures bids == Desired(c, true, mark, position)
    ensures asks == Desired(c, false, mark, position)
    ensures mid == Mid(c, mark, position)
    ensures MidInNumbers(c, mark, mid, position)
    ensures |sizes| == c.levels && forall i: nat | i < |sizes| :: FullInNumbers(c, i + 1, sizes[i])
    ensures InNumbers(c, true, mark, mid, position, bids, sizes) && InNumbers(c, false, mark, mid, position, asks, sizes)
  {
    hide InvFrac, Mid, Scale, Offset, Size, Scaled;
    sizes := seq(c.levels, i requires 0 <= i < c.levels => Size(c, i + 1));
    mid := Mid(c, mark, position);
    var bidScale, askScale := Scale(c, true, position), Scale(c, false, position);
    var capLong := position >= c.maxPosition;
    var capShort := position <= -c.maxPosition;
    bids, asks := map[], map[];
    for i := 1 to c.levels + 1
      invariant forall l: nat :: l in bids <==> 1 <= l < i && Quoted(c, true, position)
      invariant forall l: nat :: l in asks <==> 1 <= l < i && Quoted(c, false, position)
      invariant forall l: nat | l in bids :: bids[l] == WantedRung(c, true, mark, position, l)
      invariant forall l: nat | l in asks :: asks[l] == WantedRung(c, false, mark, position, l)
    {
      var off := Offset(c, mark, i);
      var size := Size(c, i);
      if !capLong {
        var lots := Scaled(size, bidScale);
        if bidScale > 0.0 { bids := bids[i := Rung(BID_BASE + i, mid - off, lots)]; }
      }
      if !capShort {
        var lots := Scaled(size, askScale);
        if askScale > 0.0 { asks := asks[i := Rung(ASK_BASE + i, mid + off, lots)]; }
      }
    }
    Numbered(c, mark, position, sizes);
    hide InNumbers, MidInNumbers, FullInNumbers, RungInNumbers;
  }

  // ── the rungs in numbers ──────────────────────────────────────────────────

  lemma Numbered(c: Config, mark: int, position: int, sizes: seq<int>)
    requires c.Valid() && |sizes| == c.levels && forall i | 0 <= i < c.levels :: sizes[i] == Size(c, i + 1)
    ensures MidInNumbers(c, mark, Mid(c, mark, position), position)
    ensures forall i: nat | i < |sizes| :: FullInNumbers(c, i + 1, sizes[i])
    ensures InNumbers(c, true, mark, Mid(c, mark, position), position, Desired(c, true, mark, position), sizes)
    ensures InNumbers(c, false, mark, Mid(c, mark, position), position, Desired(c, false, mark, position), sizes)
  {
    hide *;
    MidIs(c, mark, position);
    forall i: nat | i < |sizes| ensures FullInNumbers(c, i + 1, sizes[i]) { SizeIs(c, i + 1); }
    SideIs(c, true, mark, position, sizes);
    SideIs(c, false, mark, position, sizes);
  }

  lemma Counted(c: Config, bid: bool, mark: int, mid: int, position: int, m: map<nat, Rung>, sizes: seq<int>)
    requires c.Valid() && |sizes| == c.levels && InNumbers(c, bid, mark, mid, position, m, sizes)
    ensures |m| == if (if bid then position < c.maxPosition else -c.maxPosition < position) then c.levels else 0
  {}

  lemma {:induction false} KeysUpTo(m: map<nat, Rung>, n: nat)
    requires forall l: nat :: l in m <==> 1 <= l <= n
    ensures |m| == n
  {
    if n == 0 {
      assert m == map[];
    } else {
      KeysUpTo(m - {n}, n - 1);
      assert m.Keys == (m - {n}).Keys + {n};
    }
  }

  lemma MidIs(c: Config, mark: int, position: int)
    requires c.Valid()
    ensures MidInNumbers(c, mark, Mid(c, mark, position), position)
  {
    FracIs(c, position);
    RoundIsNearest(mark as real * c.skewBps * InvFrac(c, position) / 10000.0);
    hide InvFrac, Round, Nearest;
  }

  lemma FracIs(c: Config, position: int)
    requires c.Valid()
    ensures InvFrac(c, position) == if position >= c.maxPosition then 1.0 else if position <= -c.maxPosition then -1.0
                                    else position as real / c.maxPosition as real
  {
    DivideByCap(position, c.maxPosition);
    DivideByCap(-position, c.maxPosition);
    Negated(position, c.maxPosition);
    if position == c.maxPosition { assert position as real / c.maxPosition as real == 1.0; }
  }

  lemma SizeIs(c: Config, level: nat)
    requires 1 <= level
    ensures FullInNumbers(c, level, Size(c, level))
  {
    RoundIsNearest(c.baseLots * Pow(c.sizeDecay, level - 1));
  }

  lemma SideIs(c: Config, bid: bool, mark: int, position: int, sizes: seq<int>)
    requires c.Valid() && |sizes| == c.levels && forall i | 0 <= i < c.levels :: sizes[i] == Size(c, i + 1)
    ensures InNumbers(c, bid, mark, Mid(c, mark, position), position, Desired(c, bid, mark, position), sizes)
  {
    QuotedIff(c, bid, position);
    hide Quoted, WantedRung, RungInNumbers, Mid, Size;
    var m := Desired(c, bid, mark, position);
    if Quoted(c, bid, position) { KeysUpTo(m, c.levels); } else { assert m == map[]; }
    forall l: nat | l in m && 1 <= l <= c.levels
      ensures RungInNumbers(c, bid, mark, Mid(c, mark, position), position, l, m[l], sizes[l - 1])
    {
      RungIs(c, bid, mark, position, l);
    }
  }

  lemma QuotedIff(c: Config, bid: bool, position: int)
    requires c.Valid()
    ensures Quoted(c, bid, position) <==> if bid then position < c.maxPosition else -c.maxPosition < position
  {
    ScaleOfExposure(c, bid, position);
    hide Scale;
  }

  lemma RungIs(c: Config, bid: bool, mark: int, position: int, level: nat)
    requires c.Valid() && 1 <= level <= c.levels && Quoted(c, bid, position)
    ensures RungInNumbers(c, bid, mark, Mid(c, mark, position), position, level, WantedRung(c, bid, mark, position, level), Size(c, level))
  {
    OffsetIs(c, mark, level);
    LotsAre(c, bid, position, level);
    hide Offset, Lots, OffsetInNumbers, LotsInNumbers, Mid, Size, Quoted;
  }

  lemma OffsetIs(c: Config, mark: int, level: nat)
    ensures OffsetInNumbers(c, mark, level, Offset(c, mark, level))
  {
    RoundIsNearest(mark as real * c.stepBps * level as real / 10000.0);
    hide Round, AtLeastOne, Nearest;
  }

  lemma LotsAre(c: Config, bid: bool, position: int, level: nat)
    requires c.Valid() && 1 <= level && Quoted(c, bid, position)
    ensures LotsInNumbers(c, if bid then position else -position, Size(c, level), Lots(c, bid, position, level))
  {
    ShareIs(c, bid, position);
    RoundIsNearest(Size(c, level) as real * Scale(c, bid, position));
    hide Scale, InvFrac, Size, Round, AtLeastOne, Nearest, Quoted;
  }

  lemma ShareIs(c: Config, bid: bool, position: int)
    requires c.Valid() && Quoted(c, bid, position)
    ensures var exposure := if bid then position else -position;
      Scale(c, bid, position) == if exposure <= 0 then 1.0 else 1.0 - exposure as real / c.maxPosition as real
  {
    QuotedIff(c, bid, position);
    ScaleIs(c, bid, position);
    DivideByCap(Exposure(bid, position), c.maxPosition);
    hide Scale;
  }

  // ── shape ─────────────────────────────────────────────────────────────────

  lemma {:induction false} PowShrinks(x: real, m: nat, n: nat)
    requires 0.0 < x <= 1.0 && m <= n
    ensures 0.0 < Pow(x, n) <= Pow(x, m)
    decreases n
  {
    if n > 0 {
      PowShrinks(x, if m == n then m - 1 else m, n - 1);
      var p := Pow(x, n - 1);
      assert Pow(x, n) == x * p;
      hide Pow;
      ShareOf(x, p);
    }
  }

  lemma ShareOf(x: real, p: real)
    requires 0.0 < x <= 1.0 && 0.0 < p
    ensures 0.0 < x * p <= p
  {
    assert p * (1.0 - x) >= 0.0;
  }

  /** Sizes never grow away from the mid. */
  lemma SizeShrinks(c: Config, i: nat, j: nat)
    requires 0.0 < c.sizeDecay <= 1.0 && 1 <= i <= j
    ensures Size(c, j) <= Size(c, i)
  {
    PowShrinks(c.sizeDecay, i - 1, j - 1);
    var p, q := Pow(c.sizeDecay, i - 1), Pow(c.sizeDecay, j - 1);
    if c.baseLots >= 0.0 {
      MulMonotone(c.baseLots, q, p);
      RoundMonotone(c.baseLots * q, c.baseLots * p);
    } else {
      MulMonotone(q, c.baseLots, 0.0);
      assert q * c.baseLots == c.baseLots * q;
    }
  }

  lemma OffsetGrows(c: Config, mark: int, i: nat, j: nat)
    requires 0 <= mark && c.stepBps >= 0.0 && i <= j
    ensures Offset(c, mark, i) <= Offset(c, mark, j)
  {
    var k := mark as real * c.stepBps;
    MulMonotone(mark as real, 0.0, c.stepBps);
    MulMonotone(k, i as real, j as real);
    RoundMonotone(k * i as real / 10000.0, k * j as real / 10000.0);
  }

  lemma ScaledMonotone(a: int, b: int, s: real)
    requires a <= b && 0.0 <= s
    ensures 1 <= Scaled(a, s) <= Scaled(b, s)
  {
    MulMonotone(s, a as real, b as real);
    RoundMonotone(a as real * s, b as real * s);
  }

  /** Every bid is under the mid and every ask over it, whatever the inventory;
      prices step away from the mid and lots shrink with the level. */
  lemma LadderShape(c: Config, mark: int, position: int, i: nat, j: nat)
    requires c.Valid() && 0 <= mark && c.stepBps >= 0.0 && 0.0 < c.sizeDecay <= 1.0
    requires 1 <= i <= j <= c.levels
    ensures
      var mid := Mid(c, mark, position);
      var bids, asks := Desired(c, true, mark, position), Desired(c, false, mark, position);
      && (j in bids ==> i in bids && bids[j].price <= bids[i].price < mid && 1 <= bids[j].lots <= bids[i].lots)
      && (j in asks ==> i in asks && mid < asks[i].price <= asks[j].price && 1 <= asks[j].lots <= asks[i].lots)
  {
    OffsetGrows(c, mark, i, j);
    SizeShrinks(c, i, j);
    ScaledMonotone(Size(c, j), Size(c, i), Scale(c, true, position));
    ScaledMonotone(Size(c, j), Size(c, i), Scale(c, false, position));
    hide InvFrac, Mid, Scale, Offset, Size, Scaled;
  }

  lemma FracGrows(c: Config, p: int, q: int)
    requires c.Valid() && p <= q
    ensures -1.0 <= InvFrac(c, p) <= InvFrac(c, q) <= 1.0
  {
    var k := c.maxPosition as real;
    var f, g := p as real / k, q as real / k;
    DivideBack(p as real, k);
    DivideBack(q as real, k);
    Ordered(f, g, k);
  }

  lemma MidLeans(c: Config, mark: int, p: int, q: int)
    requires c.Valid() && p <= q && 0 <= mark && c.skewBps >= 0.0
    ensures Mid(c, mark, q) <= Mid(c, mark, p)
  {
    FracGrows(c, p, q);
    hide InvFrac;
    var x, f, g := mark as real * c.skewBps, InvFrac(c, p), InvFrac(c, q);
    MulMonotone(mark as real, 0.0, c.skewBps);
    MulMonotone(x, f, g);
    hide Round;
    RoundMonotone(x * f / 10000.0, x * g / 10000.0);
  }

  lemma ScaleLeans(c: Config, p: int, q: int)
    requires c.Valid() && p <= q
    ensures Scale(c, true, q) <= Scale(c, true, p) && Scale(c, false, p) <= Scale(c, false, q)
  {
    FracGrows(c, p, q);
    hide InvFrac;
  }

  lemma ScaledByScale(size: int, s: real, t: real)
    requires 0 <= size && s <= t
    ensures Scaled(size, s) <= Scaled(size, t)
  {
    MulMonotone(size as real, s, t);
    RoundMonotone(size as real * s, size as real * t);
  }

  lemma FlatIsNeutral(c: Config, mark: int, level: nat)
    requires c.Valid() && 1 <= level
    ensures Mid(c, mark, 0) == mark && Lots(c, true, 0, level) == Lots(c, false, 0, level) == Size(c, level)
  {
    assert InvFrac(c, 0) == 0.0;
    hide InvFrac, Size;
    assert Scale(c, true, 0) == Scale(c, false, 0) == 1.0;
    assert mark as real * c.skewBps * 0.0 / 10000.0 == 0.0;
    hide Scale;
    assert Scaled(Size(c, level), 1.0) == Size(c, level);
  }

  /** The quotes lean against inventory: the longer the position, the lower the mid, the smaller the bids
      and the larger the asks; a flat book quotes around the mark at full size. */
  lemma LeansAgainstInventory(c: Config, mark: int, p: int, q: int, level: nat)
    requires c.Valid() && p <= q && 0 <= mark && c.skewBps >= 0.0 && 1 <= level
    ensures Mid(c, mark, q) <= Mid(c, mark, p)
    ensures Lots(c, true, q, level) <= Lots(c, true, p, level) && Lots(c, false, p, level) <= Lots(c, false, q, level)
    ensures Mid(c, mark, 0) == mark && Lots(c, true, 0, level) == Lots(c, false, 0, level) == Size(c, level)
  {
    hide Mid, Scale, Size, Scaled, InvFrac;
    MidLeans(c, mark, p, q);
    FlatIsNeutral(c, mark, level);
    ScaleLeans(c, p, q);
    ScaledByScale(Size(c, level), Scale(c, true, q), Scale(c, true, p));
    ScaledByScale(Size(c, level), Scale(c, false, p), Scale(c, false, q));
  }

  /** The level a fill or a placement is filed under comes back from its client id. */
  lemma LevelRoundTrip(bid: bool, level: nat)
    requires level < 0x10000
    ensures LevelOf(CoidOf(bid, level)) == level
  {
    assert CoidOf(bid, level) == (if bid then 0x1000 else 0x2000) * 0x10000 + level;
  }

  // ── the inventory budget ──────────────────────────────────────────────────

  function SumSizes(c: Config, n: nat): int { if n == 0 then 0 else SumSizes(c, n - 1) + Size(c, n) }

  function SumRungs(m: map<nat, Rung>, n: nat): int {
    if n == 0 then 0 else SumRungs(m, n - 1) + (if n in m then m[n].lots else 0)
  }

  function Times(a: int, s: real): real { a as real * s }

  lemma ScaledBound(size: int, s: real)
    requires 0 <= size && 0.0 <= s
    ensures Scaled(size, s) as real <= Times(size, s) + 1.0
  {
    MulMonotone(s, 0.0, size as real);
  }

  lemma Distribute(a: int, b: int, s: real)
    ensures Times(a + b, s) == Times(a, s) + Times(b, s)
  {}

  /** Scaling and rounding cost at most one lot a level. */
  lemma {:induction false} ScaledSum(c: Config, bid: bool, mark: int, position: int, n: nat)
    requires c.Valid() && n <= c.levels && Quoted(c, bid, position)
    ensures SumRungs(Desired(c, bid, mark, position), n) as real
         <= Times(SumSizes(c, n), Scale(c, bid, position)) + n as real
  {
    hide InvFrac, Mid, Scale, Offset, Size, Scaled, Times;
    var s := Scale(c, bid, position);
    if n == 0 {
      NoneOf(s);
    } else {
      ScaledSum(c, bid, mark, position, n - 1);
      ScaledBound(Size(c, n), s);
      Distribute(SumSizes(c, n - 1), Size(c, n), s);
      assert Desired(c, bid, mark, position)[n].lots == Scaled(Size(c, n), s);
    }
  }

  lemma NoneOf(s: real)
    ensures Times(0, s) == 0.0
  {}

  /** The part of a budget within the cap that the room left allows. */
  lemma ShareOfCap(c: Config, bid: bool, position: int, budget: int)
    requires c.Valid() && 0 <= budget <= c.maxPosition && Exposure(bid, position) < c.maxPosition
    ensures Times(budget, Scale(c, bid, position)) <= (c.maxPosition - MaxInt(0, Exposure(bid, position))) as real
  {
    ScaleOfExposure(c, bid, position);
    hide InvFrac, Scale;
    MulMonotone(Scale(c, bid, position), budget as real, c.maxPosition as real);
  }

  /** Filling a freshly laid side completely cannot carry the inventory past the cap
      by more than the one lot a level that rounding up can add. */
  lemma LadderBudget(c: Config, bid: bool, mark: int, position: int)
    requires c.Valid() && SumSizes(c, c.levels) <= c.maxPosition
    requires Exposure(bid, position) <= c.maxPosition + c.levels
    ensures Exposure(bid, position) + SumRungs(Desired(c, bid, mark, position), c.levels)
         <= c.maxPosition + c.levels
  {
    hide InvFrac, Mid, Scale, Offset, Size, Scaled, Times;
    ScaleOfExposure(c, bid, position);
    if Quoted(c, bid, position) {
      ScaledSum(c, bid, mark, position, c.levels);
      SumSizesPositive(c, c.levels);
      ShareOfCap(c, bid, position, SumSizes(c, c.levels));
    } else {
      EmptySum(Desired(c, bid, mark, position), c.levels);
    }
  }

  lemma DivideBack(x: real, k: real)
    requires 0.0 < k
    ensures x / k * k == x
  {}

  /** Dividing by the cap keeps the order. */
  lemma DivideByCap(x: int, cap: int)
    requires 0 < cap
    ensures var f := x as real / cap as real;
      f * cap as real == x as real && (f < 1.0 <==> x < cap) && (f <= 0.0 <==> x <= 0)
  {
    DivideBack(x as real, cap as real);
    Compares(x as real / cap as real, cap as real, x, cap);
  }

  lemma Compares(f: real, k: real, x: int, cap: int)
    requires 0 < cap && k == cap as real && f * k == x as real
    ensures (f < 1.0 <==> x < cap) && (f <= 0.0 <==> x <= 0)
  {
    Ordered(f, 1.0, k);
    Ordered(f, 0.0, k);
    assert 1.0 * k == k && 0.0 * k == 0.0;
  }

  lemma Ordered(f: real, g: real, k: real)
    requires 0.0 < k
    ensures f < g <==> f * k < g * k
    ensures f <= g <==> f * k <= g * k
  {
    if f < g {
      assert k * (g - f) > 0.0;
    } else {
      assert k * (f - g) >= 0.0;
      if g < f { assert k * (f - g) > 0.0; }
    }
  }

  /** Below the cap, the share of a side still quoted is exactly the room left, relative to the cap. */
  lemma ScaleOfExposure(c: Config, bid: bool, position: int)
    requires c.Valid()
    ensures Exposure(bid, position) < c.maxPosition ==>
      var s := Scale(c, bid, position);
      0.0 < s && s * c.maxPosition as real == (c.maxPosition - MaxInt(0, Exposure(bid, position))) as real
  {
    if Exposure(bid, position) < c.maxPosition {
      ScaleIs(c, bid, position);
      DivideByCap(Exposure(bid, position), c.maxPosition);
      hide Scale, InvFrac;
      var g, k := Exposure(bid, position) as real / c.maxPosition as real, c.maxPosition as real;
      assert (1.0 - g) * k == k - g * k;
    }
  }

  lemma ScaleIs(c: Config, bid: bool, position: int)
    requires c.Valid() && Exposure(bid, position) < c.maxPosition
    ensures Scale(c, bid, position) == 1.0 - MaxReal(0.0, Exposure(bid, position) as real / c.maxPosition as real)
  {
    DivideByCap(position, c.maxPosition);
    DivideByCap(-position, c.maxPosition);
    Negated(position, c.maxPosition);
  }

  lemma Negated(x: int, cap: int)
    requires 0 < cap
    ensures (-x) as real / cap as real == -(x as real / cap as real)
  {}

  lemma {:induction false} SumSizesPositive(c: Config, n: nat)
    ensures n <= SumSizes(c, n)
  {
    if n > 0 { SumSizesPositive(c, n - 1); }
  }

  lemma {:induction false} EmptySum(m: map<nat, Rung>, n: nat)
    requires m == map[]
    ensures SumRungs(m, n) == 0
  {
    if n > 0 { EmptySum(m, n - 1); }
  }

  /** What the process is run with unless told otherwise. */
  const DEFAULTS := Config(6, 3.0, 2000.0, 0.85, 20000, 10.0, 2.0, 45000)

  /** What the defaults quote at a mark of 100 000 ticks: a flat maker three basis points apart around it, a maker halfway to
      its cap five basis points lower and half the size on the bid. */
  lemma DefaultsQuote(l: nat)
    requires 1 <= l <= 6
    ensures var flat := Desired(DEFAULTS, true, 100_000, 0);
      l in flat && flat[l].price == 100_000 - 30 * l && (l == 1 ==> flat[l].lots == 2000)
    ensures var half := Desired(DEFAULTS, true, 100_000, 10_000);
      l in half && half[l].price == 99_950 - 30 * l && (l == 1 ==> half[l].lots == 1000)
    ensures DEFAULTS.repriceBps == 2.0 && DEFAULTS.reconcileMs == 45_000
  {
    assert Pow(0.85, 0) == 1.0;
    assert InvFrac(DEFAULTS, 0) == 0.0 && InvFrac(DEFAULTS, 10_000) == 0.5;
    assert Scale(DEFAULTS, true, 0) == 1.0 && Scale(DEFAULTS, true, 10_000) == 0.5;
    assert Size(DEFAULTS, 1) == 2000;
    assert Offset(DEFAULTS, 100_000, l) == 30 * l;
    assert Mid(DEFAULTS, 100_000, 0) == 100_000 && Mid(DEFAULTS, 100_000, 10_000) == 99_950;
    assert Quoted(DEFAULTS, true, 0) && Quoted(DEFAULTS, true, 10_000);
    assert Lots(DEFAULTS, true, 0, 1) == 2000 && Lots(DEFAULTS, true, 10_000, 1) == 1000;
  }
}
