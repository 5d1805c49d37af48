/** The keeper's and the maker's position readers: the whole account, sixty-four bits of basis. */
module FastReaders {
  import opened Codec
  import opened Kernel
  import opened Prelude

  /** A read past the end throws; otherwise the account is flat in the asset or holds a position. */
  datatype Lookup = Thrown | Flat | Held(isLong: bool, lots: nat)

  function Here(n: nat): nat { PF_INNER + LegAt(n) }

  /** What the scan from leg `n` onward answers. */
  function Scan(data: seq<byte>, idx: nat, n: nat): Lookup
    decreases MAX_LEGS - n
  {
    if n >= MAX_LEGS then Flat
    else if At(data, Here(n)) != 1 then Scan(data, idx, n + 1)
    else if Here(n) + LEG_ASSET_INDEX + 4 > |data| then Thrown
    else if U(data, Here(n) + LEG_ASSET_INDEX, 4) != idx then Scan(data, idx, n + 1)
    else if Here(n) + LEG_BASIS + QUICK_BYTES > |data| then Thrown
    else if I(data, Here(n) + LEG_BASIS, QUICK_BYTES) == 0 then Scan(data, idx, n + 1)
    else Held(At(data, Here(n) + LEG_SIDE) == 0, Abs(I(data, Here(n) + LEG_BASIS, QUICK_BYTES)) / POS_SCALE)
  }

  /** The maker's sign convention: long is positive, flat is zero. */
  function Signed(l: Lookup): Option<int> {
    match l
    case Thrown => None
    case Flat => Some(0)
    case Held(isLong, lots) => var n: int := lots; Some(if isLong then n else -n)
  }

  /** `readPosition` in the keeper. */
  method ReadPosition(data: seq<byte>, idx: nat) returns (l: Lookup)
    ensures l == Scan(data, idx, 0)
  {
    hide U, I, Scan;
    var n := 0;
    while n < MAX_LEGS
      invariant 0 <= n <= MAX_LEGS && Scan(data, idx, n) == Scan(data, idx, 0)
    {
      ScanStep(data, idx, n);
      var base := PF_INNER + LEGS + n * LEG_STRIDE;
      if At(data, base) == 1 {
        if base + LEG_ASSET_INDEX + 4 > |data| { return Thrown; }
        var asset := ReadU(data, base + LEG_ASSET_INDEX, 4);
        if asset == idx {
          if base + LEG_BASIS + QUICK_BYTES > |data| { return Thrown; }
          var raw := ReadI(data, base + LEG_BASIS, QUICK_BYTES);
          if raw != 0 { return Held(At(data, base + LEG_SIDE) == 0, Abs(raw) / POS_SCALE); }
        }
      }
      n := n + 1;
    }
    ScanStep(data, idx, n);
    return Flat;
  }

  /** `readPosition` in the maker; None is a throw. */
  method ReadSigned(data: seq<byte>, idx: nat) returns (position: Option<int>)
    ensures position == Signed(Scan(data, idx, 0))
  {
    hide U, I, Scan;
    var n := 0;
    while n < MAX_LEGS
      invariant 0 <= n <= MAX_LEGS && Scan(data, idx, n) == Scan(data, idx, 0)
    {
      ScanStep(data, idx, n);
      var base := PF_INNER + LEGS + n * LEG_STRIDE;
      if At(data, base) == 1 {
        if base + LEG_ASSET_INDEX + 4 > |data| { return None; }
        var asset := ReadU(data, base + LEG_ASSET_INDEX, 4);
        if asset == idx {
          if base + LEG_BASIS + QUICK_BYTES > |data| { return None; }
          var raw := ReadI(data, base + LEG_BASIS, QUICK_BYTES);
          if raw != 0 {
            var lots := Abs(raw) / POS_SCALE;
            return Some(if At(data, base + LEG_SIDE) == 0 then lots else -lots);
          }
        }
      }
      n := n + 1;
    }
    ScanStep(data, idx, n);
    return Some(0);
  }

  lemma ScanStep(data: seq<byte>, idx: nat, n: nat)
    ensures Scan(data, idx, n) ==
      if n >= MAX_LEGS then Flat
      else if At(data, Here(n)) != 1 then Scan(data, idx, n + 1)
      else if Here(n) + LEG_ASSET_INDEX + 4 > |data| then Thrown
      else if U(data, Here(n) + LEG_ASSET_INDEX, 4) != idx then Scan(data, idx, n + 1)
      else if Here(n) + LEG_BASIS + QUICK_BYTES > |data| then Thrown
      else if I(data, Here(n) + LEG_BASIS, QUICK_BYTES) == 0 then Scan(data, idx, n + 1)
      else Held(At(data, Here(n) + LEG_SIDE) == 0, Abs(I(data, Here(n) + LEG_BASIS, QUICK_BYTES)) / POS_SCALE)
  {
  }

  // ── agreement with the terminal's decoder ─────────────────────────────────

  /** `positions.find` by asset index. */
  function Find(positions: seq<Position>, idx: nat): Lookup {
    if positions == [] then Flat
    else if positions[0].assetIndex == idx then Held(positions[0].isLong, positions[0].lots)
    else Find(positions[1..], idx)
  }

  lemma FindAppend(p: Position, rest: seq<Position>, idx: nat)
    ensures Find([p] + rest, idx) == if p.assetIndex == idx then Held(p.isLong, p.lots) else Find(rest, idx)
  {
    assert ([p] + rest)[1..] == rest;
  }

  lemma {:induction false} Shift(data: seq<byte>, k: nat, len: nat)
    requires PF_INNER <= |data|
    ensures U(data, PF_INNER + k, len) == U(data[PF_INNER..], k, len)
    decreases len
  {
    if len > 0 { Shift(data, k + 1, len - 1); }
  }

  /** The basis of leg `n`, as the kernel wrote it. */
  function Basis(data: seq<byte>, n: nat): int { I(data, Here(n) + LEG_BASIS, BASIS_BYTES) }

  /** How many bytes of a basis the quick readers take, and how many there are. */
  const QUICK_BYTES: nat := 8
  const BASIS_BYTES: nat := 16

  /** Whole lots in 2^63 units of basis: the most a quick reader can ever answer. */
  const MAX_LOTS: nat := 9_223_372_036_854

  ghost predicate BasesFit(data: seq<byte>) {
    forall n: nat | n < MAX_LEGS && At(data, Here(n)) == 1 :: FitsI(Basis(data, n), QUICK_BYTES)
  }

  lemma LegAgrees(data: seq<byte>, n: nat)
    requires |data| >= PF_INNER + LegAt(MAX_LEGS) && n < MAX_LEGS
    ensures var b := data[PF_INNER..];
      && At(b, LegAt(n) + LEG_ACTIVE) == At(data, Here(n)) && At(b, LegAt(n) + LEG_SIDE) == At(data, Here(n) + LEG_SIDE)
      && U(b, LegAt(n) + LEG_ASSET_INDEX, 4) == U(data, Here(n) + LEG_ASSET_INDEX, 4)
      && I(b, LegAt(n) + LEG_BASIS, 16) == Basis(data, n)
  {
    Shift(data, LegAt(n) + LEG_ASSET_INDEX, 4);
    Shift(data, LegAt(n) + LEG_BASIS, 16);
    hide U;
  }

  lemma QuickRange()
    ensures Base(QUICK_BYTES) == 0x1_0000_0000_0000_0000 && 128 * Base(QUICK_BYTES - 1) == 0x8000_0000_0000_0000
  {
    assert Base(1) == 0x100;
    assert Base(2) == 0x1_0000;
    assert Base(3) == 0x100_0000;
    assert Base(4) == 0x1_0000_0000;
    assert Base(5) == 0x100_0000_0000;
    assert Base(6) == 0x1_0000_0000_0000;
    assert Base(7) == 0x100_0000_0000_0000;
  }

  /** The quick read of a basis names the same whole lots, and is zero with it, exactly as long as those
      lots are within reach; beyond that it names fewer. */
  lemma QuickLots(data: seq<byte>, at: nat)
    ensures var wide, quick := I(data, at, BASIS_BYTES), I(data, at, QUICK_BYTES);
      && Abs(quick) / POS_SCALE <= MAX_LOTS && (wide == 0 ==> quick == 0)
      && (Abs(wide) / POS_SCALE <= MAX_LOTS ==>
            Abs(quick) / POS_SCALE == Abs(wide) / POS_SCALE && (quick == 0 ==> wide == 0))
  {
    var k := NarrowResidue(data, at, QUICK_BYTES, BASIS_BYTES);
    SignedBelow(data, at, QUICK_BYTES);
    QuickRange();
    var wide, quick := I(data, at, BASIS_BYTES), I(data, at, QUICK_BYTES);
    hide U, I, Base;
    Wraps(wide, quick, k);
  }

  lemma Wraps(wide: int, quick: int, k: int)
    requires wide - quick == 0x1_0000_0000_0000_0000 * k
    requires -0x8000_0000_0000_0000 <= quick < 0x8000_0000_0000_0000
    ensures Abs(quick) / POS_SCALE <= MAX_LOTS && (wide == 0 ==> quick == 0)
    ensures Abs(wide) / POS_SCALE <= MAX_LOTS ==>
              Abs(quick) / POS_SCALE == Abs(wide) / POS_SCALE && (quick == 0 ==> wide == 0)
  {
  }

  /** The two scans agree from leg `n` onward exactly as long as the position the terminal finds there is
      within the quick readers' reach. */
  ghost predicate AgreesWithin(quick: Lookup, wide: Lookup) {
    && (quick == wide <==> (wide.Held? ==> wide.lots <= MAX_LOTS))
    && (quick.Held? ==> quick.lots <= MAX_LOTS)
    && !quick.Thrown? && !wide.Thrown?
  }

  lemma OneLeg(data: seq<byte>, idx: nat, n: nat)
    requires |data| >= PF_INNER + LegAt(MAX_LEGS) && n < MAX_LEGS
    requires AgreesWithin(Scan(data, idx, n + 1), Find(PositionsFrom(data[PF_INNER..], n + 1), idx))
    ensures AgreesWithin(Scan(data, idx, n), Find(PositionsFrom(data[PF_INNER..], n), idx))
  {
    var b := data[PF_INNER..];
    QuickLots(data, Here(n) + LEG_BASIS);
    FindLeg(data, idx, n);
    ScanLeg(data, idx, n);
    hide *;
    var mine := At(data, Here(n)) == 1 && U(data, Here(n) + LEG_ASSET_INDEX, 4) == idx;
    OneChoice(mine, At(data, Here(n) + LEG_SIDE) == 0, Basis(data, n), I(data, Here(n) + LEG_BASIS, QUICK_BYTES),
              Scan(data, idx, n + 1), Find(PositionsFrom(b, n + 1), idx));
  }

  /** What either scan answers at a leg, given the basis it reads there and what it answers from the next on. */
  function Choice(mine: bool, isLong: bool, basis: int, rest: Lookup): Lookup {
    if mine && basis != 0 then Held(isLong, Abs(basis) / POS_SCALE) else rest
  }

  lemma OneChoice(mine: bool, isLong: bool, wide: int, quick: int, s: Lookup, f: Lookup)
    requires AgreesWithin(s, f)
    requires Abs(quick) / POS_SCALE <= MAX_LOTS && (wide == 0 ==> quick == 0)
    requires Abs(wide) / POS_SCALE <= MAX_LOTS ==>
               Abs(quick) / POS_SCALE == Abs(wide) / POS_SCALE && (quick == 0 ==> wide == 0)
    ensures AgreesWithin(Choice(mine, isLong, quick, s), Choice(mine, isLong, wide, f))
  {
    hide Abs;
  }

  lemma ScanLeg(data: seq<byte>, idx: nat, n: nat)
    requires |data| >= PF_INNER + LegAt(MAX_LEGS) && n < MAX_LEGS
    ensures Scan(data, idx, n) ==
      Choice(At(data, Here(n)) == 1 && U(data, Here(n) + LEG_ASSET_INDEX, 4) == idx, At(data, Here(n) + LEG_SIDE) == 0,
             I(data, Here(n) + LEG_BASIS, QUICK_BYTES), Scan(data, idx, n + 1))
  {
    ScanStep(data, idx, n);
    hide U, I, At, Scan;
    assert LegAt(n) + LEG_STRIDE <= LegAt(MAX_LEGS);
  }

  lemma FindLeg(data: seq<byte>, idx: nat, n: nat)
    requires |data| >= PF_INNER + LegAt(MAX_LEGS) && n < MAX_LEGS
    ensures Find(PositionsFrom(data[PF_INNER..], n), idx) ==
      Choice(At(data, Here(n)) == 1 && U(data, Here(n) + LEG_ASSET_INDEX, 4) == idx, At(data, Here(n) + LEG_SIDE) == 0,
             Basis(data, n), Find(PositionsFrom(data[PF_INNER..], n + 1), idx))
  {
    var b := data[PF_INNER..];
    LegAgrees(data, n);
    PositionsStep(b, n);
    hide U, I, At, PositionsFrom, Find;
    var rest := PositionsFrom(b, n + 1);
    FindAppend(PositionAt(b, n), rest, idx);
    assert [] + rest == rest;
    assert LegAt(n) + LEG_STRIDE <= LegAt(MAX_LEGS);
  }

  lemma {:induction false} ReadersAgreeFrom(data: seq<byte>, idx: nat, n: nat)
    requires |data| >= PF_INNER + LegAt(MAX_LEGS) && n <= MAX_LEGS
    ensures AgreesWithin(Scan(data, idx, n), Find(PositionsFrom(data[PF_INNER..], n), idx))
    decreases MAX_LEGS - n
  {
    hide *;
    if n < MAX_LEGS {
      ReadersAgreeFrom(data, idx, n + 1);
      OneLeg(data, idx, n);
    } else {
      NoMoreLegs(data, data[PF_INNER..], idx, n);
    }
  }

  lemma NoMoreLegs(data: seq<byte>, b: seq<byte>, idx: nat, n: nat)
    requires n >= MAX_LEGS
    ensures AgreesWithin(Scan(data, idx, n), Find(PositionsFrom(b, n), idx)) && Find(PositionsFrom(b, n), idx) == Flat
  {
    hide U, I;
    ScanStep(data, idx, n);
    PositionsStep(b, n);
  }

  /** On any account that holds all four legs, the keeper and the maker answer what the terminal shows
      exactly when the terminal shows nothing or at most 9 223 372 036 854 lots. */
  lemma ReadersAgree(data: seq<byte>, idx: nat)
    requires |data| >= 457 + LegAt(MAX_LEGS)
    ensures var shown := Find(KernelOf(data[457..]).positions, idx);
      && !Scan(data, idx, 0).Thrown?
      && (Scan(data, idx, 0) == shown <==> (shown.Held? ==> shown.lots <= 9_223_372_036_854))
      && (Signed(Scan(data, idx, 0)) == Signed(shown) <==> (shown.Held? ==> shown.lots <= 9_223_372_036_854))
  {
    ReadersAgreeFrom(data, idx, 0);
    hide Scan, PositionsFrom, Find;
  }

  /** Bases inside sixty-four bits are always within reach. */
  lemma {:induction false} FittingIsWithin(data: seq<byte>, idx: nat, n: nat)
    requires |data| >= PF_INNER + LegAt(MAX_LEGS) && n <= MAX_LEGS && BasesFit(data)
    ensures var shown := Find(PositionsFrom(data[PF_INNER..], n), idx); shown.Held? ==> shown.lots <= MAX_LOTS
    decreases MAX_LEGS - n
  {
    hide U, I, Base, At, PositionsFrom, Find;
    if n < MAX_LEGS {
      FittingIsWithin(data, idx, n + 1);
      FittingLeg(data, idx, n);
    } else {
      hide *;
      NoMoreLegs(data, data[PF_INNER..], idx, n);
      hide BasesFit;
    }
  }

  lemma FittingLeg(data: seq<byte>, idx: nat, n: nat)
    requires |data| >= PF_INNER + LegAt(MAX_LEGS) && n < MAX_LEGS
    requires At(data, Here(n)) == 1 ==> FitsI(Basis(data, n), QUICK_BYTES)
    requires var shown := Find(PositionsFrom(data[PF_INNER..], n + 1), idx); shown.Held? ==> shown.lots <= MAX_LOTS
    ensures var shown := Find(PositionsFrom(data[PF_INNER..], n), idx); shown.Held? ==> shown.lots <= MAX_LOTS
  {
    FindLeg(data, idx, n);
    QuickRange();
    hide U, I, At, PositionsFrom, Find, Base;
  }

  /** So with every active basis inside sixty-four bits the three readers always agree. */
  lemma FittingBasesAgree(data: seq<byte>, idx: nat)
    requires |data| >= 457 + LegAt(MAX_LEGS) && BasesFit(data)
    ensures Scan(data, idx, 0) == Find(KernelOf(data[457..]).positions, idx)
  {
    hide BasesFit, Scan, PositionsFrom, Find;
    FittingIsWithin(data, idx, 0);
    ReadersAgree(data, idx);
  }

  lemma TerminalSees(data: seq<byte>, idx: nat)
    requires |data| >= PF_INNER + LegAt(MAX_LEGS)
    requires At(data, Here(0)) == 1 && U(data, Here(0) + LEG_ASSET_INDEX, 4) == idx && Basis(data, 0) != 0
    ensures Find(KernelOf(data[PF_INNER..]).positions, idx).Held?
  {
    FindLeg(data, idx, 0);
    hide U, I, At, Find, PositionsFrom;
  }

  lemma {:induction false} InactiveIsFlat(data: seq<byte>, idx: nat, n: nat)
    requires 1 <= n <= MAX_LEGS && forall k: nat | 1 <= k < MAX_LEGS :: At(data, Here(k)) != 1
    ensures Scan(data, idx, n) == Flat
    decreases MAX_LEGS - n
  {
    ScanStep(data, idx, n);
    if n < MAX_LEGS { InactiveIsFlat(data, idx, n + 1); }
  }

  lemma KeeperMisses(data: seq<byte>, idx: nat)
    requires |data| >= PF_INNER + LegAt(MAX_LEGS) && I(data, Here(0) + LEG_BASIS, QUICK_BYTES) == 0
    requires forall n: nat | 1 <= n < MAX_LEGS :: At(data, Here(n)) != 1
    ensures Scan(data, idx, 0) == Flat
  {
    InactiveIsFlat(data, idx, 1);
    ScanStep(data, idx, 0);
    hide U, I, At, Scan;
  }

  /** Beyond that reach a position can vanish altogether: a lone one whose basis is a multiple of 2^64 is
      open on the terminal and flat to the keeper and the maker. */
  lemma WideBasisHidden(data: seq<byte>, idx: nat, m: int)
    requires |data| >= 457 + LegAt(MAX_LEGS) && m != 0
    requires At(data, Here(0)) == 1 && U(data, Here(0) + LEG_ASSET_INDEX, 4) == idx
    requires Basis(data, 0) == Base(QUICK_BYTES) * m
    requires forall n: nat | 1 <= n < MAX_LEGS :: At(data, Here(n)) != 1
    ensures Find(KernelOf(data[457..]).positions, idx).Held? && Scan(data, idx, 0) == Flat
  {
    hide U, I, At, Find, Scan, PositionsFrom, KernelOf;
    NarrowZero(data, Here(0) + LEG_BASIS, QUICK_BYTES, BASIS_BYTES, m);
    QuickRange();
    hide Base;
    TerminalSees(data, idx);
    KeeperMisses(data, idx);
  }
}
