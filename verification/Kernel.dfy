/** The terminal's decoder of a portfolio. */
module Kernel {
  import opened Codec
  import opened Prelude

  const CAPITAL: nat := 132
  const PNL: nat := 148
  const LEGS: nat := 340
  const LEG_STRIDE: nat := 144
  const LEG_ACTIVE: nat := 0
  const LEG_ASSET_INDEX: nat := 1
  const LEG_SIDE: nat := 13
  const LEG_BASIS: nat := 14
  const MAX_LEGS: nat := 4
  const HEALTH_CERT: nat := 2484
  const CERT_EQUITY: nat := HEALTH_CERT
  const CERT_INITIAL_REQ: nat := HEALTH_CERT + 16
  const CERT_VALID: nat := HEALTH_CERT + 120
  const KERNEL_BYTES: nat := CERT_VALID + 1
  const POS_SCALE: nat := 1_000_000

  const PF_HEADER: nat := 8 + 32 + 8 + 1 + 16 + 8
  const PF_MAX_ASSETS: nat := 12
  const PF_INNER: nat := PF_HEADER + 2 * PF_MAX_ASSETS * 16

  datatype Position = Position(assetIndex: nat, isLong: bool, lots: nat)

  datatype KernelState = KernelState(
    capital: nat,
    pnl: int,
    certifiedEquity: int,
    initialRequirement: nat,
    certValid: bool,
    positions: seq<Position>)

  function LegAt(n: nat): nat { LEGS + n * LEG_STRIDE }

  /** A leg shows when it is active and its basis is not zero. */
  predicate Shown(b: seq<byte>, n: nat) {
    At(b, LegAt(n) + LEG_ACTIVE) == 1 && I(b, LegAt(n) + LEG_BASIS, 16) != 0
  }

  function PositionAt(b: seq<byte>, n: nat): Position {
    Position(U(b, LegAt(n) + LEG_ASSET_INDEX, 4), At(b, LegAt(n) + LEG_SIDE) == 0,
             Abs(I(b, LegAt(n) + LEG_BASIS, 16)) / POS_SCALE)
  }

  /** The positions of legs `n` onward, stopping at the first leg that is not wholly there. */
  function PositionsFrom(b: seq<byte>, n: nat): seq<Position>
    decreases MAX_LEGS - n
  {
    if n >= MAX_LEGS || LegAt(n) + LEG_STRIDE > |b| then []
    else (if Shown(b, n) then [PositionAt(b, n)] else []) + PositionsFrom(b, n + 1)
  }

  function KernelOf(b: seq<byte>): KernelState {
    KernelState(U(b, CAPITAL, 16), I(b, PNL, 16), I(b, CERT_EQUITY, 16), U(b, CERT_INITIAL_REQ, 16),
                At(b, CERT_VALID) == 1, PositionsFrom(b, 0))
  }

  lemma PositionsStep(b: seq<byte>, n: nat)
    ensures PositionsFrom(b, n) == if n >= MAX_LEGS || LegAt(n) + LEG_STRIDE > |b| then []
                                   else (if Shown(b, n) then [PositionAt(b, n)] else []) + PositionsFrom(b, n + 1)
  {
  }

  method ReadKernel(b: seq<byte>) returns (k: KernelState)
    ensures k == KernelOf(b)
  {
    hide U, I, PositionsFrom;
    var positions: seq<Position> := [];
    ghost var all := PositionsFrom(b, 0);
    var n := 0;
    while n < MAX_LEGS
      invariant 0 <= n <= MAX_LEGS && positions + PositionsFrom(b, n) == all
    {
      PositionsStep(b, n);
      ghost var rest, before := PositionsFrom(b, n + 1), positions;
      var base := LEGS + n * LEG_STRIDE;
      if base + LEG_STRIDE > |b| { break; }
      if At(b, base + LEG_ACTIVE) == 1 {
        var basis := ReadI(b, base + LEG_BASIS, 16);
        if basis != 0 {
          var asset := ReadU(b, base + LEG_ASSET_INDEX, 4);
          positions := positions + [Position(asset, At(b, base + LEG_SIDE) == 0, Abs(basis) / POS_SCALE)];
        }
      }
      assert positions + rest == before + ((if Shown(b, n) then [PositionAt(b, n)] else []) + rest);
      n := n + 1;
    }
    PositionsStep(b, n);
    var capital := ReadU(b, CAPITAL, 16);
    var pnl := ReadI(b, PNL, 16);
    var certified := ReadI(b, CERT_EQUITY, 16);
    var requirement := ReadU(b, CERT_INITIAL_REQ, 16);
    k := KernelState(capital, pnl, certified, requirement, At(b, CERT_VALID) == 1, positions);
  }

  // ── what the kernel writes ────────────────────────────────────────────────

  datatype Leg = Leg(active: byte, asset: nat, side: byte, basis: int)

  datatype State = State(capital: nat, pnl: int, legs: seq<Leg>, equity: int, requirement: nat, valid: byte)

  predicate LegFits(l: Leg) { FitsU(l.asset, 4) && FitsI(l.basis, 16) }

  predicate Fits(s: State) {
    && FitsU(s.capital, 16) && FitsI(s.pnl, 16) && FitsI(s.equity, 16) && FitsU(s.requirement, 16)
    && |s.legs| == 4 && forall l | l in s.legs :: LegFits(l)
  }

  /** The account's own layout, in numbers: the reader's offsets have to meet it. */
  function LegFields(n: nat, l: Leg): seq<Field>
    requires LegFits(l)
  {
    var at := 340 + 144 * n;
    [Field(at, [l.active]), Field(at + 1, LE(l.asset, 4)), Field(at + 13, [l.side]), Field(at + 14, TwosLE(l.basis, 16))]
  }

  function LegsUpTo(legs: seq<Leg>, n: nat): seq<Field>
    requires n <= |legs| && forall l | l in legs :: LegFits(l)
  {
    if n == 0 then [] else LegsUpTo(legs, n - 1) + LegFields(n - 1, legs[n - 1])
  }

  function Money(s: State): seq<Field>
    requires Fits(s)
  {
    [Field(132, LE(s.capital, 16)), Field(148, TwosLE(s.pnl, 16))]
  }

  function Certificate(s: State): seq<Field>
    requires Fits(s)
  {
    [Field(2484, TwosLE(s.equity, 16)), Field(2500, LE(s.requirement, 16)), Field(2604, [s.valid])]
  }

  function Fields(s: State): seq<Field>
    requires Fits(s)
  {
    Money(s) + LegsUpTo(s.legs, MAX_LEGS) + Certificate(s)
  }

  lemma {:induction false} LegsApart(legs: seq<Leg>, n: nat)
    requires n <= |legs| && forall l | l in legs :: LegFits(l)
    ensures Within(LegsUpTo(legs, n), LEGS, LegAt(n)) && Disjoint(LegsUpTo(legs, n))
  {
    if n > 0 {
      LegsApart(legs, n - 1);
      hide LE, TwosLE;
      assert Within(LegFields(n - 1, legs[n - 1]), LegAt(n - 1), LegAt(n));
      SideBySide(LegsUpTo(legs, n - 1), LegFields(n - 1, legs[n - 1]), LEGS, LegAt(n - 1), LegAt(n));
    }
  }

  /** The layout: no two fields of a kernel state share a byte. */
  lemma LayoutApart(s: State)
    requires Fits(s)
    ensures Within(Fields(s), CAPITAL, KERNEL_BYTES) && Disjoint(Fields(s))
  {
    LegsApart(s.legs, MAX_LEGS);
    SideBySide(Money(s), LegsUpTo(s.legs, MAX_LEGS), CAPITAL, LEGS, LegAt(MAX_LEGS));
    SideBySide(Money(s) + LegsUpTo(s.legs, MAX_LEGS), Certificate(s), CAPITAL, LegAt(MAX_LEGS), KERNEL_BYTES);
  }

  /** A kernel state written over whatever bytes were there. */
  function Encode(memory: seq<byte>, s: State): seq<byte>
    requires Fits(s) && Within(Fields(s), 0, |memory|)
  {
    PutAll(memory, Fields(s))
  }

  lemma FieldAt(memory: seq<byte>, s: State, k: nat)
    requires Fits(s) && |memory| >= KERNEL_BYTES && k < |Fields(s)|
    ensures Within(Fields(s), 0, |memory|)
    ensures Holds(Encode(memory, s), Fields(s)[k].at, Fields(s)[k].code)
  {
    LayoutApart(s);
    FieldsSurvive(memory, Fields(s), k);
  }

  lemma {:induction false} LegFieldsAt(legs: seq<Leg>, m: nat, n: nat, j: nat)
    requires n < m <= |legs| && j < 4 && forall l | l in legs :: LegFits(l)
    ensures |LegsUpTo(legs, m)| == 4 * m && LegsUpTo(legs, m)[4 * n + j] == LegFields(n, legs[n])[j]
    decreases m
  {
    if m > 1 { LegFieldsAt(legs, m - 1, if n < m - 1 then n else 0, j); }
  }

  lemma FieldOfLeg(s: State, n: nat, j: nat)
    requires Fits(s) && n < MAX_LEGS && j < 4
    ensures 4 * n + 2 + j < |Fields(s)| && Fields(s)[4 * n + 2 + j] == LegFields(n, s.legs[n])[j]
  {
    LegFieldsAt(s.legs, MAX_LEGS, n, j);
  }

  /** What a reader shows of a leg that was written. */
  function LegShown(l: Leg): seq<Position> {
    if l.active == 1 && l.basis != 0 then [Position(l.asset, l.side == 0, (if l.basis < 0 then -l.basis else l.basis) / 1_000_000)] else []
  }

  function LegsShown(legs: seq<Leg>, n: nat): seq<Position>
    requires n <= |legs|
    decreases |legs| - n
  {
    if n == |legs| then [] else LegShown(legs[n]) + LegsShown(legs, n + 1)
  }

  lemma HeldOfLeg(memory: seq<byte>, s: State, n: nat, j: nat)
    requires Fits(s) && |memory| >= KERNEL_BYTES && n < MAX_LEGS && j < 4
    ensures Within(Fields(s), 0, |memory|) && n < |s.legs| && LegFits(s.legs[n])
    ensures var f := LegFields(n, s.legs[n])[j]; Holds(Encode(memory, s), f.at, f.code)
  {
    assert s.legs[n] in s.legs;
    FieldOfLeg(s, n, j);
    FieldAt(memory, s, 4 * n + 2 + j);
  }

  lemma LegRead(memory: seq<byte>, s: State, n: nat)
    requires Fits(s) && |memory| >= KERNEL_BYTES && n < MAX_LEGS
    ensures Within(Fields(s), 0, |memory|)
    ensures var b := Encode(memory, s);
      (if Shown(b, n) then [PositionAt(b, n)] else []) == LegShown(s.legs[n])
  {
    HeldOfLeg(memory, s, n, 0);
    var b := Encode(memory, s);
    hide Fits, Fields, PutAll, Within, Holds, Shown, PositionAt, LegShown, LegFits, Encode;
    forall j: nat | j < 4 ensures Holds(b, LegFields(n, s.legs[n])[j].at, LegFields(n, s.legs[n])[j].code) {
      HeldOfLeg(memory, s, n, j);
    }
    ReadBack(b, n, s.legs[n]);
  }

  lemma ByteRead(b: seq<byte>, at: nat, v: byte)
    requires Holds(b, at, [v])
    ensures At(b, at) == v
  {
    assert b[at..at + 1][0] == v;
  }

  lemma ReadBack(b: seq<byte>, n: nat, l: Leg)
    requires LegFits(l) && forall j: nat | j < 4 :: Holds(b, LegFields(n, l)[j].at, LegFields(n, l)[j].code)
    ensures (if Shown(b, n) then [PositionAt(b, n)] else []) == LegShown(l)
  {
    LegHeld(b, n, l);
    hide *;
    ByteRead(b, LegAt(n) + LEG_ACTIVE, l.active);
    ByteRead(b, LegAt(n) + LEG_SIDE, l.side);
    UnsignedRoundTrip(b, LegAt(n) + LEG_ASSET_INDEX, 4, l.asset);
    SignedRoundTrip(b, LegAt(n) + LEG_BASIS, 16, l.basis);
    ShowsLeg(b, n, l);
  }

  lemma ShowsLeg(b: seq<byte>, n: nat, l: Leg)
    requires At(b, LegAt(n) + LEG_ACTIVE) == l.active && At(b, LegAt(n) + LEG_SIDE) == l.side
    requires U(b, LegAt(n) + LEG_ASSET_INDEX, 4) == l.asset && I(b, LegAt(n) + LEG_BASIS, 16) == l.basis
    ensures (if Shown(b, n) then [PositionAt(b, n)] else []) == LegShown(l)
  {
    hide U, I, At, LegAt;
  }

  lemma LegHeld(b: seq<byte>, n: nat, l: Leg)
    requires LegFits(l) && forall j: nat | j < 4 :: Holds(b, LegFields(n, l)[j].at, LegFields(n, l)[j].code)
    ensures Holds(b, LegAt(n) + LEG_ACTIVE, [l.active]) && Holds(b, LegAt(n) + LEG_ASSET_INDEX, LE(l.asset, 4))
    ensures Holds(b, LegAt(n) + LEG_SIDE, [l.side]) && Holds(b, LegAt(n) + LEG_BASIS, TwosLE(l.basis, 16))
    ensures LegAt(n) + LEG_ASSET_INDEX + 4 <= |b| && LegAt(n) + LEG_BASIS + 16 <= |b|
    ensures FitsU(l.asset, 4) && FitsI(l.basis, 16)
  {
    var f := LegFields(n, l);
    assert Holds(b, f[0].at, f[0].code) && Holds(b, f[1].at, f[1].code);
    assert Holds(b, f[2].at, f[2].code) && Holds(b, f[3].at, f[3].code);
  }

  lemma {:induction false} PositionsRead(memory: seq<byte>, s: State, n: nat)
    requires Fits(s) && |memory| >= KERNEL_BYTES && n <= MAX_LEGS
    ensures Within(Fields(s), 0, |memory|)
    ensures PositionsFrom(Encode(memory, s), n) == LegsShown(s.legs, n)
    decreases MAX_LEGS - n
  {
    LayoutApart(s);
    if n < MAX_LEGS {
      LegRead(memory, s, n);
      PositionsRead(memory, s, n + 1);
      hide Fits, PutAll, Within, Shown, PositionAt;
    }
  }

  /** The decoder recovers every field of a kernel state written into the account. */
  lemma KernelRoundTrip(memory: seq<byte>, s: State)
    requires Fits(s) && |memory| >= 2605
    ensures Within(Fields(s), 0, |memory|)
    ensures KernelOf(Encode(memory, s))
         == KernelState(s.capital, s.pnl, s.equity, s.requirement, s.valid == 1, LegsShown(s.legs, 0))
  {
    var f := Fields(s);
    LegFieldsAt(s.legs, MAX_LEGS, 0, 0);
    assert f[18..] == Certificate(s);
    FieldAt(memory, s, 0);
    FieldAt(memory, s, 1);
    FieldAt(memory, s, 18);
    FieldAt(memory, s, 19);
    FieldAt(memory, s, 20);
    PositionsRead(memory, s, 0);
    var b := Encode(memory, s);
    UnsignedRoundTrip(b, CAPITAL, 16, s.capital);
    SignedRoundTrip(b, PNL, 16, s.pnl);
    SignedRoundTrip(b, CERT_EQUITY, 16, s.equity);
    UnsignedRoundTrip(b, CERT_INITIAL_REQ, 16, s.requirement);
    ByteRead(b, CERT_VALID, s.valid);
  }
}
