/** How tight the inventory cap is: from a book just as it was quoted, one event that is not harmless and then
    an ordinary cycle leave more on a side than its ladder, and for a ladder that fills the cap that is past it. */
module MakerCap {
  import opened Prelude
  import opened Ladder
  import opened MakerDaemon
  import opened MakerRuns

  function HaveLots(have: Option<Rung>): int { if have.Some? then have.value.lots else 0 }

  /** What rests under a client id over what the model says. */
  function Excess(v: Level): int { SumSeq(v.queue) - HaveLots(v.have) }

  function SumExcess(s: Side, n: nat): int { if n == 0 then 0 else SumExcess(s, n - 1) + Excess(LevelAt(s, n)) }

  /** Nothing was filled or lost sight of since the level was quoted. */
  predicate Intact(levels: nat, l: nat, v: Level) {
    match v.have
    case None => v.queue == []
    case Some(h) => 1 <= l <= levels && 1 <= h.lots && v.queue == [h.lots]
  }

  ghost predicate IntactSide(levels: nat, s: Side) { forall l: nat :: Intact(levels, l, LevelAt(s, l)) }

  ghost predicate IntactBoth(c: Config, w: World) { IntactSide(c.levels, w.bids) && IntactSide(c.levels, w.asks) }

  /** A level the model has lost, or has just where the ladder wants it. */
  predicate OnRung(want: Option<Rung>, have: Option<Rung>) {
    have.None? || (want.Some? && ActionFor(want, have) == Keep)
  }

  ghost predicate OnLadder(desired: map<nat, Rung>, s: Side) {
    forall l: nat :: OnRung(RungAt(desired, l), RungAt(s.model, l))
  }

  lemma {:induction false} SumSnoc(q: seq<nat>, x: nat)
    ensures SumSeq(q + [x]) == SumSeq(q) + x
  {
    if q == [] {
      assert q + [x] == [x] && [x][1..] == [];
    } else {
      assert (q + [x])[1..] == q[1..] + [x];
      SumSnoc(q[1..], x);
    }
  }

  lemma OneMore(n: nat, lots: nat)
    ensures (n + 1) * lots == lots + n * lots
  {}

  lemma {:induction false} PlacedSum(lots: nat, q: seq<nat>, hits: seq<nat>)
    ensures SumSeq(Applied(Place, lots, q, hits)) == SumSeq(q) + |hits| * lots
    decreases |hits|
  {
    if hits != [] {
      SumSnoc(q, lots);
      PlacedSum(lots, q + [lots], hits[1..]);
      OneMore(|hits[1..]|, lots);
    }
  }

  // ── what an event leaves over ─────────────────────────────────────────────

  lemma Positive(n: nat, lots: nat)
    requires 1 <= n && 1 <= lots
    ensures n * lots >= lots && (n * lots == lots <==> n == 1)
  {
    if n > 1 { assert n * lots == lots + (n - 1) * lots && (n - 1) * lots >= 1; }
  }

  /** A level that was intact has something left over after a step exactly when the daemon let go of an order. */
  lemma StepExcess(levels: nat, l: nat, want: Option<Rung>, v: Level, v': Level, o: Outcome)
    requires Intact(levels, l, v) && LevelStep(want, v, v', o) && (want.Some? ==> 1 <= want.value.lots)
    ensures Excess(v') >= 0 && (Excess(v') > 0 <==> LetsGo(want, v, o))
    ensures OnRung(want, v'.have)
  {
    var a, lots := ActionFor(want, v.have), LotsOf(want);
    assert forall x: nat :: SumSeq([x]) == x by { forall x: nat ensures SumSeq([x]) == x { assert [x][1..] == []; } }
    match a {
      case Keep =>
      case Place =>
        PlacedSum(lots, v.queue, o.hits);
        if o.hits != [] { Positive(|o.hits|, lots); }
      case Modify => ModifiedOne(lots, v.queue, o.hits);
      case Cancel => CancelledOne(lots, v.queue, o.hits);
    }
    hide Applied, Meets;
  }

  /** And one that still rests after a lost teardown always has. */
  lemma LostTeardownExcess(x: nat, want: Option<Rung>, v': Level, o: Outcome)
    requires 1 <= x && LevelStep(want, Level(None, [x]), v', o) && (want.Some? ==> 1 <= want.value.lots)
    ensures Excess(v') > 0 && OnRung(want, v'.have)
  {
    assert SumSeq([x]) == x by { assert [x][1..] == []; }
    if want.Some? {
      PlacedSum(LotsOf(want), [x], o.hits);
      if o.hits != [] { Positive(|o.hits|, LotsOf(want)); }
    }
    hide Applied, Meets;
  }

  /** What may not happen at a level for its side to stay faithful. */
  ghost predicate Breaks(want: Option<Rung>, r: Cycle, v: Level, begun: Level, o: Outcome) {
    LetsGo(want, begun, o) || (r.Quoted? && r.reconciled && !r.cleared && v.queue != [])
  }

  lemma FaithfulIff(desired: map<nat, Rung>, r: Cycle, s: Side, outs: map<nat, Outcome>)
    requires r.Quoted?
    ensures FaithfulSide(desired, r, s, outs)
       <==> forall l: nat :: !Breaks(RungAt(desired, l), r, LevelAt(s, l), LevelAt(Begun(r, s), l), OutcomeAt(outs, l))
  {
    hide LetsGo, Begun;
    if FaithfulSide(desired, r, s, outs) {
      forall l: nat ensures !Breaks(RungAt(desired, l), r, LevelAt(s, l), LevelAt(Begun(r, s), l), OutcomeAt(outs, l)) {
        assert !LetsGo(RungAt(desired, l), LevelAt(Begun(r, s), l), OutcomeAt(outs, l));
        assert LevelAt(s, l).queue == QueueAt(s.resting, l);
      }
    }
    if forall l: nat :: !Breaks(RungAt(desired, l), r, LevelAt(s, l), LevelAt(Begun(r, s), l), OutcomeAt(outs, l)) {
      forall l: nat
        ensures !LetsGo(RungAt(desired, l), LevelAt(Begun(r, s), l), OutcomeAt(outs, l))
        ensures r.reconciled && !r.cleared ==> QueueAt(s.resting, l) == []
      {
        assert !Breaks(RungAt(desired, l), r, LevelAt(s, l), LevelAt(Begun(r, s), l), OutcomeAt(outs, l));
      }
    }
  }

  lemma CycleExcess(levels: nat, l: nat, want: Option<Rung>, r: Cycle, s: Side, v': Level, o: Outcome)
    requires r.Quoted? && Intact(levels, l, LevelAt(s, l)) && (want.Some? ==> 1 <= want.value.lots)
    requires LevelStep(want, LevelAt(Begun(r, s), l), v', o)
    ensures Excess(v') >= 0 && (Excess(v') > 0 <==> Breaks(want, r, LevelAt(s, l), LevelAt(Begun(r, s), l), o))
    ensures OnRung(want, v'.have)
  {
    var v, begun := LevelAt(s, l), LevelAt(Begun(r, s), l);
    if r.reconciled && !r.cleared && v.queue != [] {
      assert begun == Level(None, [v.have.value.lots]);
      LostTeardownExcess(v.have.value.lots, want, v', o);
    } else {
      assert Intact(levels, l, begun);
      StepExcess(levels, l, want, begun, v', o);
    }
  }

  lemma {:induction false} SumExcessIff(s: Side, n: nat)
    requires forall l: nat | 1 <= l <= n :: Excess(LevelAt(s, l)) >= 0
    ensures SumExcess(s, n) >= 0
    ensures SumExcess(s, n) > 0 <==> exists l: nat :: 1 <= l <= n && Excess(LevelAt(s, l)) > 0
  {
    if n > 0 { SumExcessIff(s, n - 1); }
  }

  /** A side that was intact has something left over after a cycle exactly when the cycle was not faithful on it. */
  lemma SideExcess(c: Config, bid: bool, r: Cycle, s: Side, s': Side, outs: map<nat, Outcome>)
    requires c.Valid() && IntactSide(c.levels, s) && r.Quoted?
    requires SideStep(Desired(c, bid, r.mark, r.position), Begun(r, s), s', outs)
    ensures SumExcess(s', c.levels) >= 0
    ensures SumExcess(s', c.levels) > 0 <==> !FaithfulSide(Desired(c, bid, r.mark, r.position), r, s, outs)
    ensures OnLadder(Desired(c, bid, r.mark, r.position), s')
  {
    var desired := Desired(c, bid, r.mark, r.position);
    DesiredPositive(c, bid, r.mark, r.position);
    hide Desired;
    forall l: nat
      ensures Excess(LevelAt(s', l)) >= 0 && OnRung(RungAt(desired, l), RungAt(s'.model, l))
      ensures Excess(LevelAt(s', l)) > 0 <==> Breaks(RungAt(desired, l), r, LevelAt(s, l), LevelAt(Begun(r, s), l), OutcomeAt(outs, l))
      ensures Excess(LevelAt(s', l)) > 0 ==> 1 <= l <= c.levels
    {
      assert Intact(c.levels, l, LevelAt(s, l));
      assert LevelStep(RungAt(desired, l), LevelAt(Begun(r, s), l), LevelAt(s', l), OutcomeAt(outs, l));
      CycleExcess(c.levels, l, RungAt(desired, l), r, s, LevelAt(s', l), OutcomeAt(outs, l));
      if !(1 <= l <= c.levels) { Outside(c.levels, l, r, s, LevelAt(s', l), OutcomeAt(outs, l)); }
    }
    hide Excess, LetsGo, Begun, OnRung, Breaks, FaithfulSide;
    FaithfulIff(desired, r, s, outs);
    SumExcessIff(s', c.levels);
    if !FaithfulSide(desired, r, s, outs) {
      var l: nat :| Breaks(RungAt(desired, l), r, LevelAt(s, l), LevelAt(Begun(r, s), l), OutcomeAt(outs, l));
      assert Excess(LevelAt(s', l)) > 0;
    }
  }

  lemma Outside(levels: nat, l: nat, r: Cycle, s: Side, v': Level, o: Outcome)
    requires Intact(levels, l, LevelAt(s, l)) && !(1 <= l <= levels)
    requires LevelStep(None, LevelAt(Begun(r, s), l), v', o)
    ensures Excess(v') == 0
  {}

  // ── the next cycle ────────────────────────────────────────────────────────

  ghost predicate HeardOnce(outs: map<nat, Outcome>) { forall l | l in outs :: outs[l].heard && |outs[l].hits| == 1 }

  /** A cycle of the same ladder, with no teardown, all of whose sends are heard and land once. */
  ghost predicate Ordinary(r: Cycle, mark: int) {
    r.Quoted? && r.mark == mark && !r.reconciled && HeardOnce(r.bidOuts) && HeardOnce(r.askOuts)
  }

  /** It lays the ladder on top of whatever was left over. */
  lemma NextLays(desired: map<nat, Rung>, s: Side, s': Side, outs: map<nat, Outcome>, n: nat)
    requires SideStep(desired, s, s', outs) && OnLadder(desired, s) && HeardOnce(outs)
    requires forall l | l in desired :: 1 <= desired[l].lots
    ensures SumResting(s', n) == SumRungs(desired, n) + SumExcess(s, n)
  {
    if n > 0 {
      NextLays(desired, s, s', outs, n - 1);
      assert OnRung(RungAt(desired, n), RungAt(s.model, n));
      assert LevelStep(RungAt(desired, n), LevelAt(s, n), LevelAt(s', n), OutcomeAt(outs, n));
      hide SumResting, SumRungs, SumExcess;
      LevelLays(RungAt(desired, n), LevelAt(s, n), LevelAt(s', n), OutcomeAt(outs, n));
      LastOfSums(desired, s, s', n);
    }
  }

  lemma LastOfSums(desired: map<nat, Rung>, s: Side, s': Side, n: nat)
    requires n > 0
    ensures SumResting(s', n) == SumResting(s', n - 1) + SumSeq(LevelAt(s', n).queue)
    ensures SumRungs(desired, n) == SumRungs(desired, n - 1) + HaveLots(RungAt(desired, n))
    ensures SumExcess(s, n) == SumExcess(s, n - 1) + Excess(LevelAt(s, n))
  {}

  lemma LevelLays(want: Option<Rung>, v: Level, v': Level, o: Outcome)
    requires LevelStep(want, v, v', o) && OnRung(want, v.have) && (want.Some? ==> 1 <= want.value.lots)
    requires ActionFor(want, v.have) != Keep ==> |o.hits| == 1
    ensures SumSeq(v'.queue) == HaveLots(want) + Excess(v)
  {
    if ActionFor(want, v.have) == Place { PlacedSum(LotsOf(want), v.queue, o.hits); }
    hide Applied, Meets;
  }

  lemma {:induction false} FlatLadder(c: Config, bid: bool, mark: int, n: nat)
    requires c.Valid() && n <= c.levels
    ensures SumRungs(Desired(c, bid, mark, 0), n) == SumSizes(c, n)
  {
    if n > 0 {
      FlatLadder(c, bid, mark, n - 1);
      FlatIsNeutral(c, mark, n);
      FlatQuoted(c, bid);
      assert Desired(c, bid, mark, 0)[n].lots == Lots(c, bid, 0, n);
      hide Lots, Scale, Mid, Offset, InvFrac, Size, Desired;
    }
  }

  lemma FlatQuoted(c: Config, bid: bool)
    requires c.Valid()
    ensures Ladder.Quoted(c, bid, 0)
  {
    assert InvFrac(c, 0) == 0.0;
  }

  ghost predicate Laddered(c: Config, mark: int, w: World)
    requires c.Valid()
  {
    forall bid: bool :: OnLadder(Desired(c, bid, mark, 0), SideOf(w, bid))
  }

  /** After an ordinary cycle of a flat maker each side holds its ladder and what was left over. */
  lemma OrdinaryLays(c: Config, w: World, r: Cycle, w': World, bid: bool)
    requires c.Valid() && w.position == 0 && QuoteStep(c, w, r, w') && Ordinary(r, r.mark) && Laddered(c, r.mark, w)
    ensures SumResting(SideOf(w', bid), c.levels) == SumSizes(c, c.levels) + SumExcess(SideOf(w, bid), c.levels)
  {
    var desired := Desired(c, bid, r.mark, 0);
    assert SideStep(desired, Begun(r, SideOf(w, bid)), SideOf(w', bid), OutsOf(r, bid));
    assert Begun(r, SideOf(w, bid)) == SideOf(w, bid) && OnLadder(desired, SideOf(w, bid));
    DesiredPositive(c, bid, r.mark, 0);
    FlatLadder(c, bid, r.mark, c.levels);
    hide Desired, SideStep, OnLadder, SumSizes;
    NextLays(desired, SideOf(w, bid), SideOf(w', bid), OutsOf(r, bid), c.levels);
  }

  // ── there always is one ───────────────────────────────────────────────────

  function LaidOver(desired: map<nat, Rung>, s: Side): map<nat, seq<nat>> {
    map l: nat | l in s.resting.Keys + desired.Keys ::
      QueueAt(s.resting, l) + if l in desired && l !in s.model then [ToNat(desired[l].lots)] else []
  }

  /** The side an ordinary cycle leaves. */
  function Relaid(desired: map<nat, Rung>, s: Side): Side {
    Side(map l: nat | l in s.model.Keys + desired.Keys :: if l in s.model then s.model[l] else desired[l], LaidOver(desired, s))
  }

  function OncePlaced(desired: map<nat, Rung>, s: Side): map<nat, Outcome> {
    map l: nat | l in desired && l !in s.model :: Outcome([0], true)
  }

  lemma RelaidSteps(desired: map<nat, Rung>, s: Side)
    requires OnLadder(desired, s)
    ensures SideStep(desired, s, Relaid(desired, s), OncePlaced(desired, s)) && HeardOnce(OncePlaced(desired, s))
    ensures forall l: nat :: !LetsGo(RungAt(desired, l), LevelAt(s, l), OutcomeAt(OncePlaced(desired, s), l))
  {
    var s', outs := Relaid(desired, s), OncePlaced(desired, s);
    forall l: nat
      ensures l in outs <==> ActionFor(RungAt(desired, l), RungAt(s.model, l)) != Keep
      ensures LevelStep(RungAt(desired, l), LevelAt(s, l), LevelAt(s', l), OutcomeAt(outs, l))
      ensures !LetsGo(RungAt(desired, l), LevelAt(s, l), OutcomeAt(outs, l))
    {
      assert OnRung(RungAt(desired, l), RungAt(s.model, l));
      if l in desired && l !in s.model {
        PlacedLots(ToNat(desired[l].lots), QueueAt(s.resting, l), [0]);
        assert Meets(Place, ToNat(desired[l].lots), QueueAt(s.resting, l), [0]) by { assert [0][1..] == []; }
        hide Applied, Meets;
      } else {
        assert LevelAt(s', l).queue == QueueAt(s.resting, l) + [] == LevelAt(s, l).queue;
      }
    }
    hide LevelStep, LetsGo;
  }

  lemma AnOrdinaryCycle(c: Config, mark: int, w: World) returns (r: Cycle, w': World)
    requires c.Valid() && w.position == 0 && Laddered(c, mark, w)
    ensures QuoteStep(c, w, r, w') && Ordinary(r, mark) && Harmless(c, w, MakerRuns.Event.Quote(r))
  {
    var bids, asks := Desired(c, true, mark, 0), Desired(c, false, mark, 0);
    assert OnLadder(bids, SideOf(w, true)) && OnLadder(asks, SideOf(w, false));
    RelaidSteps(bids, w.bids);
    RelaidSteps(asks, w.asks);
    r := Quoted(0, mark, false, false, OncePlaced(bids, w.bids), OncePlaced(asks, w.asks));
    w' := World(0, Relaid(bids, w.bids), Relaid(asks, w.asks));
    hide Desired, SideStep, Relaid, OncePlaced, LetsGo, OnLadder, HeardOnce;
    forall bid: bool
      ensures SideStep(Desired(c, bid, mark, 0), Begun(r, SideOf(w, bid)), SideOf(w', bid), OutsOf(r, bid))
      ensures FaithfulSide(Desired(c, bid, mark, 0), r, SideOf(w, bid), OutsOf(r, bid))
    {
      assert Begun(r, SideOf(w, bid)) == SideOf(w, bid);
    }
  }

  // ── the cap is as tight as that ───────────────────────────────────────────

  ghost predicate OverCap(c: Config, w: World) {
    exists bid: bool :: Exposure(bid, w.position) + SumResting(SideOf(w, bid), c.levels) > c.maxPosition
  }

  lemma CycleLeaves(c: Config, w: World, r: Cycle, w1: World)
    requires c.Valid() && w.position == 0 && IntactBoth(c, w) && QuoteStep(c, w, r, w1)
    ensures Laddered(c, r.mark, w1)
    ensures forall bid: bool :: SumExcess(SideOf(w1, bid), c.levels) >= 0
    ensures (exists bid: bool :: SumExcess(SideOf(w1, bid), c.levels) > 0) <==> !Faithful(c, w, r)
  {
    forall bid: bool
      ensures OnLadder(Desired(c, bid, r.mark, 0), SideOf(w1, bid))
      ensures SumExcess(SideOf(w1, bid), c.levels) >= 0
      ensures SumExcess(SideOf(w1, bid), c.levels) > 0 <==>
                !FaithfulSide(Desired(c, bid, r.mark, r.position), r, SideOf(w, bid), OutsOf(r, bid))
    {
      assert SideStep(Desired(c, bid, r.mark, r.position), Begun(r, SideOf(w, bid)), SideOf(w1, bid), OutsOf(r, bid));
      assert IntactSide(c.levels, SideOf(w, bid));
      hide Desired, SideStep, IntactSide, OnLadder, FaithfulSide;
      SideExcess(c, bid, r, SideOf(w, bid), SideOf(w1, bid), OutsOf(r, bid));
    }
  }

  lemma LateLadders(c: Config, mark: int, w: World, e: MakerRuns.Event, w1: World)
    requires c.Valid() && Laddered(c, mark, w) && e.Late? && LateStep(w, e, w1)
    ensures Laddered(c, mark, w1)
  {
    forall bid: bool ensures OnLadder(Desired(c, bid, mark, 0), SideOf(w1, bid)) {
      assert OnLadder(Desired(c, bid, mark, 0), SideOf(w, bid)) && SideOf(w1, bid).model == SideOf(w, bid).model;
    }
  }

  /** From a flat book as it was quoted: after any cycle and then an ordinary one, a ladder that fills the cap is
      past it exactly when the first was not faithful. */
  lemma CycleOverCapIff(c: Config, w: World, r: Cycle, w1: World, r2: Cycle, w2: World)
    requires c.Valid() && SumSizes(c, c.levels) == c.maxPosition && w.position == 0 && IntactBoth(c, w)
    requires QuoteStep(c, w, r, w1) && QuoteStep(c, w1, r2, w2) && Ordinary(r2, r.mark)
    ensures OverCap(c, w2) <==> !Faithful(c, w, r)
  {
    CycleLeaves(c, w, r, w1);
    hide Desired, SideStep, IntactBoth, OnLadder, FaithfulSide, SumSizes, SumExcess, SumResting, Ordinary;
    forall bid: bool
      ensures Exposure(bid, w2.position) + SumResting(SideOf(w2, bid), c.levels) == c.maxPosition + SumExcess(SideOf(w1, bid), c.levels)
    {
      OrdinaryLays(c, w1, r2, w2, bid);
    }
  }

  /** The same of an attempt that lands late on a quoted level: past the cap exactly when it adds lots. */
  lemma LateOverCapIff(c: Config, mark: int, w: World, e: MakerRuns.Event, w1: World, r2: Cycle, w2: World)
    requires c.Valid() && SumSizes(c, c.levels) == c.maxPosition && w.position == 0 && IntactBoth(c, w)
    requires Laddered(c, mark, w) && e.Late? && 1 <= e.level <= c.levels && LateStep(w, e, w1)
    requires QuoteStep(c, w1, r2, w2) && Ordinary(r2, mark)
    ensures OverCap(c, w2) <==> !AddsNothing(w, e)
  {
    LateExcess(c, w, e, w1);
    LateLadders(c, mark, w, e, w1);
    hide Desired, SideStep, IntactBoth, OnLadder, SumSizes, SumExcess, SumResting, Ordinary, AddsNothing, LateStep;
    forall bid: bool
      ensures Exposure(bid, w2.position) + SumResting(SideOf(w2, bid), c.levels) == c.maxPosition + SumExcess(SideOf(w1, bid), c.levels)
    {
      OrdinaryLays(c, w1, r2, w2, bid);
    }
  }

  lemma LateExcess(c: Config, w: World, e: MakerRuns.Event, w1: World)
    requires IntactBoth(c, w) && e.Late? && 1 <= e.level <= c.levels && LateStep(w, e, w1) && w.position == 0
    ensures w1.position == 0
    ensures SumExcess(SideOf(w1, !e.bid), c.levels) == 0
    ensures SumExcess(SideOf(w1, e.bid), c.levels) > 0 <==> !AddsNothing(w, e)
  {
    var s, s' := SideOf(w, e.bid), SideOf(w1, e.bid);
    assert IntactSide(c.levels, s) && IntactSide(c.levels, SideOf(w, !e.bid));
    NoExcess(c.levels, SideOf(w, !e.bid), c.levels);
    NoExcess(c.levels, s, c.levels);
    var v, v' := LevelAt(s, e.level), LevelAt(s', e.level);
    assert Intact(c.levels, e.level, v);
    forall l: nat | l != e.level ensures LevelAt(s', l) == LevelAt(s, l) {}
    OneMoved(s, s', e.level, c.levels);
    HitExcess(v, e.act, e.lots, e.at);
    assert v' == Level(v.have, Hit(e.act, e.lots, v.queue, e.at));
    hide SumExcess, Hit, Excess;
  }

  lemma {:induction false} NoExcess(levels: nat, s: Side, n: nat)
    requires IntactSide(levels, s)
    ensures SumExcess(s, n) == 0
  {
    if n > 0 {
      NoExcess(levels, s, n - 1);
      assert Intact(levels, n, LevelAt(s, n));
      NoneOver(levels, n, LevelAt(s, n));
    }
  }

  lemma NoneOver(levels: nat, l: nat, v: Level)
    requires Intact(levels, l, v)
    ensures Excess(v) == 0
  {
    if v.have.Some? { assert v.queue[1..] == [] && SumSeq(v.queue) == v.queue[0]; }
  }

  lemma {:induction false} OneMoved(s: Side, s': Side, l: nat, n: nat)
    requires forall k: nat | k != l :: LevelAt(s', k) == LevelAt(s, k)
    ensures SumExcess(s', n) - SumExcess(s, n) == if 1 <= l <= n then Excess(LevelAt(s', l)) - Excess(LevelAt(s, l)) else 0
  {
    hide Excess;
    if n > 0 { OneMoved(s, s', l, n - 1); }
  }

  lemma HitExcess(v: Level, a: Action, lots: nat, at: nat)
    requires |v.queue| <= 1 && a != Keep && (a != Place ==> at < |v.queue|) && 0 < lots
    ensures var over := Excess(Level(v.have, Hit(a, lots, v.queue, at))) - Excess(v);
      over > 0 <==> !(a == Cancel || (a == Modify && lots <= v.queue[at]))
  {
    match a {
      case Place => SumSnoc(v.queue, lots);
      case Modify => assert [lots][1..] == [] && v.queue[1..] == [];
      case Cancel =>
      case Keep =>
    }
  }

  /** An event that is not harmless, from a flat book just as it was quoted at `mark`, always has a harmless
      continuation past a cap that the ladder fills; a harmless one has none that is an ordinary cycle. */
  lemma HarmlessIff(c: Config, mark: int, w: World, e: MakerRuns.Event, w1: World) returns (r2: Cycle, w2: World)
    requires c.Valid() && SumSizes(c, c.levels) == c.maxPosition && w.position == 0 && IntactBoth(c, w)
    requires Next(c, w, e, w1)
    requires (e.Quote? && e.cycle.mark == mark) || (e.Late? && 1 <= e.level <= c.levels && Laddered(c, mark, w))
    ensures Next(c, w1, MakerRuns.Event.Quote(r2), w2) && Harmless(c, w1, MakerRuns.Event.Quote(r2)) && Ordinary(r2, mark)
    ensures OverCap(c, w2) <==> !Harmless(c, w, e)
  {
    if e.Quote? {
      CycleLeaves(c, w, e.cycle, w1);
    } else {
      LateLadders(c, mark, w, e, w1);
    }
    hide Laddered, OverCap, Ordinary, Faithful, IntactBoth, QuoteStep, LateStep, AddsNothing, SumSizes;
    r2, w2 := AnOrdinaryCycle(c, mark, w1);
    if e.Quote? {
      CycleOverCapIff(c, w, e.cycle, w1, r2, w2);
    } else {
      LateOverCapIff(c, mark, w, e, w1, r2, w2);
    }
  }
}
