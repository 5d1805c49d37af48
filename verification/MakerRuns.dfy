/** What the quoting loop keeps over every run: the model never claims an order that was not
    accepted, the diff settles, and the inventory cap survives arbitrary fills. */
module MakerRuns {
  import opened Prelude
  import opened Ladder
  import opened MakerDaemon

  // ── the diff ──────────────────────────────────────────────────────────────

  /** A price or a size gets into the model only through a send that was heard to land, and then it is the desired one. */
  lemma NothingUnsent(desired: map<nat, Rung>, s: Side, s': Side, outs: map<nat, Outcome>, l: nat)
    requires SideStep(desired, s, s', outs)
    requires l in s'.model && RungAt(s'.model, l) != RungAt(s.model, l)
    ensures l in outs && outs[l].heard && l in desired && s'.model[l] == desired[l]
  {
    assert LevelStep(RungAt(desired, l), LevelAt(s, l), LevelAt(s', l), OutcomeAt(outs, l));
    assert LevelAt(s', l).have == RungAt(s'.model, l) && LevelAt(s, l).have == RungAt(s.model, l);
  }

  /** A cycle all of whose sends are heard to land leaves the model equal to the desired ladder, and then the same
      ladder again asks for no send and changes nothing. */
  lemma DiffSettles(bid: bool, levels: nat, desired: map<nat, Rung>, s: Side, s': Side, outs: map<nat, Outcome>,
                    s'': Side, outs': map<nat, Outcome>)
    requires Keyed(bid, desired, levels) && Keyed(bid, s.model, levels)
    requires SideStep(desired, s, s', outs) && forall l | l in outs :: outs[l].heard
    requires SideStep(desired, s', s'', outs')
    ensures s'.model == desired
    ensures outs' == map[] && s''.model == desired
    ensures forall l: nat :: QueueAt(s''.resting, l) == QueueAt(s'.resting, l)
  {
    forall l: nat
      ensures RungAt(s'.model, l) == RungAt(desired, l)
    {
      assert LevelStep(RungAt(desired, l), LevelAt(s, l), LevelAt(s', l), OutcomeAt(outs, l));
      assert LevelAt(s', l).have == RungAt(s'.model, l) && LevelAt(s, l).have == RungAt(s.model, l);
    }
    SameModel(s'.model, desired);
    forall l: nat
      ensures LevelAt(s'', l) == LevelAt(s', l) && l !in outs'
    {
      assert LevelStep(RungAt(desired, l), LevelAt(s', l), LevelAt(s'', l), OutcomeAt(outs', l));
    }
    forall l: nat
      ensures RungAt(s''.model, l) == RungAt(desired, l) && QueueAt(s''.resting, l) == QueueAt(s'.resting, l)
    {
      assert LevelAt(s'', l) == LevelAt(s', l);
      assert LevelAt(s', l).have == RungAt(s'.model, l);
    }
    SameModel(s''.model, desired);
    assert outs'.Keys == {};
  }

  lemma SameModel(m: map<nat, Rung>, n: map<nat, Rung>)
    requires forall l: nat :: RungAt(m, l) == RungAt(n, l)
    ensures m == n
  {
    forall l: nat ensures l in m <==> l in n { assert RungAt(m, l) == RungAt(n, l); }
    forall l: nat | l in m ensures m[l] == n[l] { assert RungAt(m, l) == RungAt(n, l); }
  }

  // ── the inventory cap ─────────────────────────────────────────────────────

  datatype World = World(position: int, bids: Side, asks: Side)

  datatype Event =
    | Quote(cycle: Cycle)
    | Skip
    | Fill(bid: bool, level: nat, at: nat, lots: nat)
    | Late(bid: bool, level: nat, act: Action, lots: nat, at: nat)
    | LateClear(bids: set<nat>, asks: set<nat>)

  function SideOf(w: World, bid: bool): Side { if bid then w.bids else w.asks }

  function OutsOf(r: Cycle, bid: bool): map<nat, Outcome>
    requires r.Quoted?
  {
    if bid then r.bidOuts else r.askOuts
  }

  /** A cycle that read the position it holds, run to its end without a fill in between. */
  ghost predicate QuoteStep(c: Config, w: World, r: Cycle, w': World)
    requires c.Valid()
  {
    && r.Quoted? && r.position == w.position == w'.position
    && forall bid: bool ::
         SideStep(Desired(c, bid, r.mark, r.position), Begun(r, SideOf(w, bid)), SideOf(w', bid), OutsOf(r, bid))
  }

  /** A taker takes `lots` from one resting order and the fill settles. */
  ghost predicate FillStep(w: World, e: Event, w': World)
    requires e.Fill?
  {
    var s, s' := SideOf(w, e.bid), SideOf(w', e.bid);
    var q := QueueAt(s.resting, e.level);
    && e.at < |q| && 0 < e.lots <= q[e.at]
    && w'.position == w.position + Exposure(e.bid, e.lots)
    && SideOf(w', !e.bid) == SideOf(w, !e.bid)
    && s'.model == s.model
    && s'.resting == s.resting[e.level :=
         if e.lots == q[e.at] then q[..e.at] + q[e.at + 1..] else q[e.at := q[e.at] - e.lots]]
  }

  /** An attempt that was given up on takes effect after its cycle is over; the model hears nothing of it. */
  ghost predicate LateStep(w: World, e: Event, w': World)
    requires e.Late?
  {
    var s := SideOf(w, e.bid);
    var q := QueueAt(s.resting, e.level);
    && e.act != Keep && (e.act != Place ==> e.at < |q|) && 0 < e.lots
    && w'.position == w.position && SideOf(w', !e.bid) == SideOf(w, !e.bid)
    && SideOf(w', e.bid) == s.(resting := s.resting[e.level := Hit(e.act, e.lots, q, e.at)])
  }

  /** A teardown that was given up on lands: what rested is gone. One that lands while a cycle is still sending
      is this twice, before the cycle for the levels it has not come to and after it for the others. */
  function Torn(w: World, bids: set<nat>, asks: set<nat>): World {
    World(w.position, w.bids.(resting := w.bids.resting - bids), w.asks.(resting := w.asks.resting - asks))
  }

  ghost predicate Next(c: Config, w: World, e: Event, w': World)
    requires c.Valid()
  {
    match e
    case Quote(r) => QuoteStep(c, w, r, w')
    case Skip => w' == w
    case Fill(_, _, _, _) => FillStep(w, e, w')
    case Late(_, _, _, _, _) => LateStep(w, e, w')
    case LateClear(bids, asks) => w' == Torn(w, bids, asks)
  }

  /** What the daemon knows of a level: at most one order rests, and never for more than the model says. */
  ghost predicate Known(levels: nat, l: nat, v: Level) {
    v.queue == [] || (1 <= l <= levels && |v.queue| == 1 && v.have.Some? && 1 <= v.queue[0] <= v.have.value.lots)
  }

  ghost predicate Tracked(levels: nat, s: Side) {
    forall l: nat :: Known(levels, l, LevelAt(s, l))
  }

  function SumResting(s: Side, n: nat): nat {
    if n == 0 then 0 else SumResting(s, n - 1) + SumSeq(QueueAt(s.resting, n))
  }

  /** Inventory plus everything resting that could add to it, on both sides. */
  ghost predicate WithinCap(c: Config, w: World) {
    forall bid: bool ::
      Exposure(bid, w.position) + SumResting(SideOf(w, bid), c.levels) <= c.maxPosition + c.levels
  }

  ghost predicate Safe(c: Config, w: World) {
    Tracked(c.levels, w.bids) && Tracked(c.levels, w.asks) && WithinCap(c, w)
  }

  function WantedLots(desired: map<nat, Rung>, l: nat): int { if l in desired then desired[l].lots else 0 }

  /** More may rest at a level than its ladder wants: a placement took effect twice, or a modify or a cancel of
      an order that rests not at all. */
  ghost predicate Overlays(want: Option<Rung>, v: Level, o: Outcome) {
    match ActionFor(want, v.have)
    case Keep => false
    case Place => |o.hits| > 1
    case Modify => v.queue != [] && o.hits == []
    case Cancel => v.queue != [] && o.hits == []
  }

  /** The daemon lets go of an order that rests: that, or a placement or a modify took effect unheard. */
  ghost predicate LetsGo(want: Option<Rung>, v: Level, o: Outcome) {
    Overlays(want, v, o)
    || (!o.heard && o.hits != [] && (ActionFor(want, v.have) == Place || ActionFor(want, v.have) == Modify))
  }

  /** What a cycle needs of the network for the daemon to know what rests, and no more: a teardown that fails
      found nothing resting, and no send lets go of an order. A placement that never takes effect does no
      harm, nor does a cancel that takes effect unheard. */
  ghost predicate FaithfulSide(desired: map<nat, Rung>, r: Cycle, s: Side, outs: map<nat, Outcome>) {
    && (r.Quoted? && r.reconciled && !r.cleared ==> forall l: nat :: QueueAt(s.resting, l) == [])
    && forall l: nat :: !LetsGo(RungAt(desired, l), LevelAt(Begun(r, s), l), OutcomeAt(outs, l))
  }

  ghost predicate Faithful(c: Config, w: World, r: Cycle)
    requires c.Valid()
  {
    r.Quoted? ==>
      forall bid: bool :: FaithfulSide(Desired(c, bid, r.mark, r.position), r, SideOf(w, bid), OutsOf(r, bid))
  }

  lemma {:induction false} PlacedLots(lots: nat, q: seq<nat>, hits: seq<nat>)
    ensures |Applied(Place, lots, q, hits)| == |q| + |hits|
    ensures |hits| == 1 ==> Applied(Place, lots, q, hits) == q + [lots]
    decreases |hits|
  {
    if hits != [] {
      PlacedLots(lots, q + [lots], hits[1..]);
      assert |hits| == 1 ==> hits[1..] == [];
    }
  }

  lemma {:induction false} ModifiedOne(lots: nat, q: seq<nat>, hits: seq<nat>)
    requires |q| == 1 && Meets(Modify, lots, q, hits)
    ensures Applied(Modify, lots, q, hits) == if hits == [] then q else [lots]
    decreases |hits|
  {
    if hits != [] {
      assert Hit(Modify, lots, q, hits[0]) == [lots];
      ModifiedOne(lots, [lots], hits[1..]);
    }
  }

  lemma CancelledOne(lots: nat, q: seq<nat>, hits: seq<nat>)
    requires |q| == 1 && Meets(Cancel, lots, q, hits)
    ensures Applied(Cancel, lots, q, hits) == if hits == [] then q else []
  {
    if hits != [] { assert Hit(Cancel, lots, q, hits[0]) == []; }
  }

  /** One level stays known exactly when the daemon does not let go of an order that rests there; and unless
      lots were overlaid, no more rests than is wanted. */
  lemma KnownIff(levels: nat, l: nat, want: Option<Rung>, v: Level, v': Level, o: Outcome)
    requires Known(levels, l, v) && LevelStep(want, v, v', o)
    requires want.Some? ==> 1 <= l <= levels && 1 <= want.value.lots
    ensures Known(levels, l, v') <==> !LetsGo(want, v, o)
    ensures !Overlays(want, v, o) ==> SumSeq(v'.queue) <= if want.Some? then want.value.lots else 0
  {
    var a, lots := ActionFor(want, v.have), LotsOf(want);
    match a {
      case Keep =>
      case Place => PlacedLots(lots, v.queue, o.hits);
      case Modify => if v.queue != [] { ModifiedOne(lots, v.queue, o.hits); }
      case Cancel => if v.queue != [] { CancelledOne(lots, v.queue, o.hits); }
    }
    hide Applied, Meets;
    assert |v'.queue| == 1 ==> v'.queue[1..] == [] && SumSeq(v'.queue) == v'.queue[0];
  }

  /** What a late attempt must be for its level to stay known: a cancel, or one that leaves a single order for
      no more than the model says. */
  ghost predicate LateKept(levels: nat, l: nat, v: Level, a: Action, lots: nat) {
    match a
    case Keep => true
    case Cancel => true
    case Modify => v.have.Some? && lots <= v.have.value.lots
    case Place => v.queue == [] && 1 <= l <= levels && v.have.Some? && lots <= v.have.value.lots
  }

  lemma LateKnownIff(levels: nat, l: nat, v: Level, a: Action, lots: nat, at: nat)
    requires Known(levels, l, v) && a != Keep && (a != Place ==> at < |v.queue|) && 0 < lots
    ensures Known(levels, l, Level(v.have, Hit(a, lots, v.queue, at))) <==> LateKept(levels, l, v, a, lots)
  {
  }

  /** A level the daemon has lost sight of stays lost until a teardown. */
  lemma StaysUnknown(levels: nat, l: nat, want: Option<Rung>, v: Level, v': Level, o: Outcome)
    requires v.have == None && v.queue != [] && LevelStep(want, v, v', o)
    ensures !Known(levels, l, v')
  {
    if want.Some? { PlacedLots(LotsOf(want), v.queue, o.hits); }
  }

  /** A cycle lays no more on a side than its ladder wants. */
  ghost predicate LaidSide(desired: map<nat, Rung>, r: Cycle, s: Side, outs: map<nat, Outcome>) {
    && (r.Quoted? && r.reconciled && !r.cleared ==> forall l: nat :: QueueAt(s.resting, l) == [])
    && forall l: nat :: !Overlays(RungAt(desired, l), LevelAt(Begun(r, s), l), OutcomeAt(outs, l))
  }

  ghost predicate Laid(c: Config, w: World, r: Cycle)
    requires c.Valid()
  {
    r.Quoted? ==>
      forall bid: bool :: LaidSide(Desired(c, bid, r.mark, r.position), r, SideOf(w, bid), OutsOf(r, bid))
  }

  /** A side is tracked after a cycle exactly when the cycle was faithful on it; and as long as nothing was
      overlaid, heard of or not, no more rests at a level than the ladder being laid wants there. */
  lemma StepTracks(c: Config, bid: bool, r: Cycle, s: Side, s': Side, outs: map<nat, Outcome>)
    requires c.Valid() && Tracked(c.levels, s) && r.Quoted?
    requires SideStep(Desired(c, bid, r.mark, r.position), Begun(r, s), s', outs)
    ensures Tracked(c.levels, s') <==> FaithfulSide(Desired(c, bid, r.mark, r.position), r, s, outs)
    ensures LaidSide(Desired(c, bid, r.mark, r.position), r, s, outs) ==>
      forall l: nat :: SumSeq(QueueAt(s'.resting, l)) <= WantedLots(Desired(c, bid, r.mark, r.position), l)
  {
    var desired := Desired(c, bid, r.mark, r.position);
    DesiredPositive(c, bid, r.mark, r.position);
    hide Desired, WantedRung;
    forall l: nat
      ensures Known(c.levels, l, LevelAt(s', l)) <==>
        && !LetsGo(RungAt(desired, l), LevelAt(Begun(r, s), l), OutcomeAt(outs, l))
        && (r.reconciled && !r.cleared ==> QueueAt(s.resting, l) == [])
      ensures !Overlays(RungAt(desired, l), LevelAt(Begun(r, s), l), OutcomeAt(outs, l))
              && (r.reconciled && !r.cleared ==> QueueAt(s.resting, l) == [])
              ==> SumSeq(QueueAt(s'.resting, l)) <= WantedLots(desired, l)
    {
      var v, v', want, o := LevelAt(Begun(r, s), l), LevelAt(s', l), RungAt(desired, l), OutcomeAt(outs, l);
      assert Known(c.levels, l, LevelAt(s, l));
      assert LevelStep(want, v, v', o);
      hide LevelStep, LetsGo, Overlays;
      if Known(c.levels, l, v) {
        KnownIff(c.levels, l, want, v, v', o);
      } else {
        StaysUnknown(c.levels, l, want, v, v', o);
      }
    }
  }

  /** Given that the daemon knew what rested, it still does after a cycle exactly when the cycle was faithful. */
  lemma CycleTracksIff(c: Config, w: World, r: Cycle, w': World)
    requires c.Valid() && Tracked(c.levels, w.bids) && Tracked(c.levels, w.asks) && QuoteStep(c, w, r, w')
    ensures Tracked(c.levels, w'.bids) && Tracked(c.levels, w'.asks) <==> Faithful(c, w, r)
  {
    hide Tracked, SideStep, FaithfulSide, Desired;
    forall bid: bool
      ensures Tracked(c.levels, SideOf(w', bid)) <==>
        FaithfulSide(Desired(c, bid, r.mark, r.position), r, SideOf(w, bid), OutsOf(r, bid))
    {
      StepTracks(c, bid, r, SideOf(w, bid), SideOf(w', bid), OutsOf(r, bid));
    }
    assert SideOf(w', true) == w'.bids && SideOf(w', false) == w'.asks;
  }

  lemma DesiredPositive(c: Config, bid: bool, mark: int, position: int)
    requires c.Valid()
    ensures forall l: nat | l in Desired(c, bid, mark, position) ::
      1 <= l <= c.levels && 1 <= Desired(c, bid, mark, position)[l].lots
  {
    hide Mid, Scale, InvFrac, Offset, Size;
  }

  lemma {:induction false} SumBound(s: Side, desired: map<nat, Rung>, n: nat)
    requires forall l: nat :: SumSeq(QueueAt(s.resting, l)) <= WantedLots(desired, l)
    ensures SumResting(s, n) <= SumRungs(desired, n)
  {
    if n > 0 {
      SumBound(s, desired, n - 1);
      assert SumSeq(QueueAt(s.resting, n)) <= WantedLots(desired, n);
    }
  }

  /** One quoting cycle, teardown included, keeps the cap as long as nothing is overlaid, even if some of it
      took effect unheard; and a faithful one keeps everything. */
  lemma QuoteKeepsCap(c: Config, w: World, r: Cycle, w': World)
    requires c.Valid() && SumSizes(c, c.levels) <= c.maxPosition
    requires Safe(c, w) && QuoteStep(c, w, r, w') && Laid(c, w, r)
    ensures WithinCap(c, w')
    ensures Faithful(c, w, r) ==> Safe(c, w')
  {
    CycleTracksIff(c, w, r, w');
    forall bid: bool
      ensures Exposure(bid, w'.position) + SumResting(SideOf(w', bid), c.levels) <= c.maxPosition + c.levels
    {
      hide LevelStep, Desired, SumSizes, Scale, InvFrac, LaidSide, FaithfulSide;
      assert SideStep(Desired(c, bid, r.mark, r.position), Begun(r, SideOf(w, bid)), SideOf(w', bid), OutsOf(r, bid));
      StepTracks(c, bid, r, SideOf(w, bid), SideOf(w', bid), OutsOf(r, bid));
      SumBound(SideOf(w', bid), Desired(c, bid, r.mark, r.position), c.levels);
      assert Exposure(bid, w.position) + SumResting(SideOf(w, bid), c.levels) <= c.maxPosition + c.levels;
      LadderBudget(c, bid, r.mark, r.position);
    }
    assert SideOf(w', true) == w'.bids && SideOf(w', false) == w'.asks;
  }

  /** A faithful cycle overlays nothing. */
  lemma FaithfulIsLaid(c: Config, w: World, r: Cycle)
    requires c.Valid() && Faithful(c, w, r)
    ensures Laid(c, w, r)
  {
    if r.Quoted? {
      forall bid: bool ensures LaidSide(Desired(c, bid, r.mark, r.position), r, SideOf(w, bid), OutsOf(r, bid)) {
        assert FaithfulSide(Desired(c, bid, r.mark, r.position), r, SideOf(w, bid), OutsOf(r, bid));
        hide Desired;
      }
    }
  }

  lemma {:induction false} SumAfterFill(s: Side, s': Side, level: nat, lots: nat, n: nat)
    requires forall l: nat | l != level :: QueueAt(s'.resting, l) == QueueAt(s.resting, l)
    requires SumSeq(QueueAt(s'.resting, level)) == SumSeq(QueueAt(s.resting, level)) - lots
    ensures SumResting(s', n) == SumResting(s, n) - (if 1 <= level <= n then lots else 0)
  {
    if n > 0 { SumAfterFill(s, s', level, lots, n - 1); }
  }

  /** A partial or complete fill moves lots from the book into the inventory and nothing else. */
  lemma FillKeepsCap(c: Config, w: World, e: Event, w': World)
    requires c.Valid() && Safe(c, w) && e.Fill? && FillStep(w, e, w')
    ensures Safe(c, w')
  {
    var s, s' := SideOf(w, e.bid), SideOf(w', e.bid);
    var q, q' := QueueAt(s.resting, e.level), QueueAt(s'.resting, e.level);
    assert Known(c.levels, e.level, LevelAt(s, e.level));
    assert |q| == 1 && e.at == 0 && q' == if e.lots == q[0] then [] else [q[0] - e.lots];
    assert q[1..] == [] && SumSeq(q) == q[0] && SumSeq([q[0] - e.lots]) == q[0] - e.lots;
    forall l: nat ensures Known(c.levels, l, LevelAt(s', l)) {
      assert Known(c.levels, l, LevelAt(s, l));
    }
    SumAfterFill(s, s', e.level, e.lots, c.levels);
    forall bid: bool
      ensures Exposure(bid, w'.position) + SumResting(SideOf(w', bid), c.levels) <= c.maxPosition + c.levels
    {
      assert Exposure(bid, w.position) + SumResting(SideOf(w, bid), c.levels) <= c.maxPosition + c.levels;
    }
  }

  ghost predicate IsRun(c: Config, ws: seq<World>, es: seq<Event>)
    requires c.Valid()
  {
    && |ws| == |es| + 1
    && forall i | 0 <= i < |es| :: Next(c, ws[i], es[i], ws[i + 1])
  }

  /** A late attempt that adds nothing to what rests. */
  ghost predicate AddsNothing(w: World, e: Event)
    requires e.Late?
  {
    var q := QueueAt(SideOf(w, e.bid).resting, e.level);
    e.act == Cancel || (e.act == Modify && e.at < |q| && e.lots <= q[e.at])
  }

  lemma LateKeepsCap(c: Config, w: World, e: Event, w': World)
    requires c.Valid() && Safe(c, w) && e.Late? && LateStep(w, e, w') && AddsNothing(w, e)
    ensures Safe(c, w')
  {
    var s, s' := SideOf(w, e.bid), SideOf(w', e.bid);
    var q, q' := QueueAt(s.resting, e.level), QueueAt(s'.resting, e.level);
    assert Known(c.levels, e.level, LevelAt(s, e.level));
    assert |q| == 1 && e.at == 0 && q' == if e.act == Cancel then [] else [e.lots];
    assert q[1..] == [] && SumSeq(q) == q[0] && SumSeq([e.lots]) == e.lots;
    forall l: nat ensures Known(c.levels, l, LevelAt(s', l)) {
      assert Known(c.levels, l, LevelAt(s, l));
    }
    SumAfterFill(s, s', e.level, SumSeq(q) - SumSeq(q'), c.levels);
    forall bid: bool
      ensures Exposure(bid, w'.position) + SumResting(SideOf(w', bid), c.levels) <= c.maxPosition + c.levels
    {
      assert Exposure(bid, w.position) + SumResting(SideOf(w, bid), c.levels) <= c.maxPosition + c.levels;
    }
  }

  lemma {:induction false} SumOfFewer(s: Side, gone: set<nat>, n: nat)
    ensures SumResting(s.(resting := s.resting - gone), n) <= SumResting(s, n)
  {
    if n > 0 { SumOfFewer(s, gone, n - 1); }
  }

  lemma TornTracks(levels: nat, s: Side, gone: set<nat>)
    requires Tracked(levels, s)
    ensures Tracked(levels, s.(resting := s.resting - gone))
  {
    forall l: nat ensures Known(levels, l, LevelAt(s.(resting := s.resting - gone), l)) {
      assert Known(levels, l, LevelAt(s, l));
    }
  }

  lemma ClearKeepsCap(c: Config, w: World, bids: set<nat>, asks: set<nat>)
    requires c.Valid() && Safe(c, w)
    ensures Safe(c, Torn(w, bids, asks))
  {
    var w' := Torn(w, bids, asks);
    TornTracks(c.levels, w.bids, bids);
    TornTracks(c.levels, w.asks, asks);
    SumOfFewer(w.bids, bids, c.levels);
    SumOfFewer(w.asks, asks, c.levels);
    hide Tracked;
    forall bid: bool
      ensures Exposure(bid, w'.position) + SumResting(SideOf(w', bid), c.levels) <= c.maxPosition + c.levels
    {
      assert Exposure(bid, w.position) + SumResting(SideOf(w, bid), c.levels) <= c.maxPosition + c.levels;
    }
  }

  /** What the cap asks of each event: cycles that are faithful, and late attempts that add nothing. */
  ghost predicate Harmless(c: Config, w: World, e: Event)
    requires c.Valid()
  {
    (e.Quote? ==> Faithful(c, w, e.cycle)) && (e.Late? ==> AddsNothing(w, e))
  }

  ghost predicate HarmlessRun(c: Config, ws: seq<World>, es: seq<Event>)
    requires c.Valid() && |ws| == |es| + 1
  {
    forall i | 0 <= i < |es| :: Harmless(c, ws[i], es[i])
  }

  /** The cap over every run: cycles, cooldown skips, teardowns, fills and late landings in any order and any
      number. */
  lemma {:induction false} InventoryCap(c: Config, ws: seq<World>, es: seq<Event>)
    requires c.Valid() && SumSizes(c, c.levels) <= c.maxPosition
    requires IsRun(c, ws, es) && HarmlessRun(c, ws, es) && Safe(c, ws[0])
    ensures forall w | w in ws :: WithinCap(c, w)
    ensures Safe(c, ws[|es|])
  {
    if es != [] {
      var e, n := es[|es| - 1], |es| - 1;
      assert IsRun(c, ws[..|es|], es[..n]) by {
        forall i | 0 <= i < n ensures Next(c, ws[..|es|][i], es[..n][i], ws[..|es|][i + 1]) {
          assert Next(c, ws[i], es[i], ws[i + 1]);
        }
      }
      assert HarmlessRun(c, ws[..|es|], es[..n]) by {
        forall i | 0 <= i < n ensures Harmless(c, ws[..|es|][i], es[..n][i]) {
          assert Harmless(c, ws[i], es[i]);
        }
      }
      InventoryCap(c, ws[..|es|], es[..n]);
      assert Next(c, ws[n], e, ws[|es|]) && Harmless(c, ws[n], e);
      hide Faithful, Laid, QuoteStep, LateStep, FillStep, Safe;
      match e {
        case Quote(r) => FaithfulIsLaid(c, ws[n], r); QuoteKeepsCap(c, ws[n], r, ws[|es|]);
        case Skip =>
        case Fill(_, _, _, _) => FillKeepsCap(c, ws[n], e, ws[|es|]);
        case Late(_, _, _, _, _) => LateKeepsCap(c, ws[n], e, ws[|es|]);
        case LateClear(bids, asks) => ClearKeepsCap(c, ws[n], bids, asks);
      }
      SafeIsWithin(c, ws[|es|]);
      assert ws == ws[..|es|] + [ws[|es|]];
    } else {
      assert ws == [ws[0]];
    }
  }

  lemma SafeIsWithin(c: Config, w: World)
    requires c.Valid() && Safe(c, w)
    ensures WithinCap(c, w)
  {
  }

  ghost predicate TrackedBoth(c: Config, w: World) { Tracked(c.levels, w.bids) && Tracked(c.levels, w.asks) }

  /** What knowing asks of each event. */
  ghost predicate Heard(c: Config, w: World, e: Event)
    requires c.Valid()
  {
    && (e.Quote? ==> Faithful(c, w, e.cycle))
    && (e.Late? ==> LateKept(c.levels, e.level, LevelAt(SideOf(w, e.bid), e.level), e.act, e.lots))
  }

  /** The daemon that knows what rests still does after any one event exactly when a cycle was faithful, and a
      late attempt left no more than one order within what the model says. */
  lemma EventTracksIff(c: Config, w: World, e: Event, w': World)
    requires c.Valid() && TrackedBoth(c, w) && Next(c, w, e, w')
    ensures TrackedBoth(c, w') <==> Heard(c, w, e)
  {
    match e {
      case Quote(r) => CycleTracksIff(c, w, r, w'); hide Faithful;
      case Skip =>
      case Fill(_, _, _, _) => FillTracks(c, w, e, w');
      case Late(_, _, _, _, _) => LateTracksIff(c, w, e, w');
      case LateClear(bids, asks) => TornTracks(c.levels, w.bids, bids); TornTracks(c.levels, w.asks, asks);
    }
  }

  lemma FillTracks(c: Config, w: World, e: Event, w': World)
    requires c.Valid() && TrackedBoth(c, w) && e.Fill? && FillStep(w, e, w')
    ensures TrackedBoth(c, w')
  {
    var s, s' := SideOf(w, e.bid), SideOf(w', e.bid);
    assert Known(c.levels, e.level, LevelAt(s, e.level));
    forall l: nat ensures Known(c.levels, l, LevelAt(s', l)) {
      assert Known(c.levels, l, LevelAt(s, l));
    }
  }

  lemma LateTracksIff(c: Config, w: World, e: Event, w': World)
    requires c.Valid() && TrackedBoth(c, w) && e.Late? && LateStep(w, e, w')
    ensures TrackedBoth(c, w') <==> LateKept(c.levels, e.level, LevelAt(SideOf(w, e.bid), e.level), e.act, e.lots)
  {
    var s, s' := SideOf(w, e.bid), SideOf(w', e.bid);
    assert Known(c.levels, e.level, LevelAt(s, e.level));
    LateKnownIff(c.levels, e.level, LevelAt(s, e.level), e.act, e.lots, e.at);
    assert LevelAt(s', e.level) == Level(LevelAt(s, e.level).have, Hit(e.act, e.lots, LevelAt(s, e.level).queue, e.at));
    hide Known, LateKept, Hit;
    forall l: nat | l != e.level ensures Known(c.levels, l, LevelAt(s', l)) {
      assert Known(c.levels, l, LevelAt(s, l)) && LevelAt(s', l) == LevelAt(s, l);
    }
  }

  /** Over a whole run, the daemon knows what rests at every point exactly when it did at the start and every
      event was heard: a modify or a cancel lost on a resting order, a placement or a modify that took effect
      unheard or twice, a teardown lost on a book that was not empty, or a late attempt that adds an order is
      where it stops knowing. */
  lemma {:induction false} TrackedOverRunsIff(c: Config, ws: seq<World>, es: seq<Event>)
    requires c.Valid() && IsRun(c, ws, es)
    ensures (forall i | 0 <= i <= |es| :: TrackedBoth(c, ws[i]))
       <==> TrackedBoth(c, ws[0]) && forall i | 0 <= i < |es| :: Heard(c, ws[i], es[i])
    decreases |es|
  {
    hide TrackedBoth, Heard, Next;
    if es != [] {
      var n := |es| - 1;
      var front, before := ws[..|es|], es[..n];
      assert IsRun(c, front, before) by {
        forall i | 0 <= i < n ensures Next(c, front[i], before[i], front[i + 1]) {
          assert Next(c, ws[i], es[i], ws[i + 1]);
        }
      }
      TrackedOverRunsIff(c, front, before);
      assert Next(c, ws[n], es[n], ws[n + 1]);
      if TrackedBoth(c, ws[n]) { EventTracksIff(c, ws[n], es[n], ws[n + 1]); }
      assert forall i | 0 <= i <= n :: front[i] == ws[i];
      assert forall i | 0 <= i < n :: before[i] == es[i];
      Extend(c, ws, es, front, before);
    }
  }

  lemma Extend(c: Config, ws: seq<World>, es: seq<Event>, front: seq<World>, before: seq<Event>)
    requires c.Valid() && es != [] && |ws| == |es| + 1 && front == ws[..|es|] && before == es[..|es| - 1]
    ensures (forall i | 0 <= i <= |es| :: TrackedBoth(c, ws[i]))
       <==> (forall i | 0 <= i <= |before| :: TrackedBoth(c, front[i])) && TrackedBoth(c, ws[|es|])
    ensures (forall i | 0 <= i < |es| :: Heard(c, ws[i], es[i]))
       <==> (forall i | 0 <= i < |before| :: Heard(c, front[i], before[i])) && Heard(c, ws[|es| - 1], es[|es| - 1])
  {
    hide TrackedBoth, Heard;
    var n := |es| - 1;
    if forall i | 0 <= i <= |es| :: TrackedBoth(c, ws[i]) {
      forall i | 0 <= i <= |before| ensures TrackedBoth(c, front[i]) { assert TrackedBoth(c, ws[i]); }
    }
    if (forall i | 0 <= i <= |before| :: TrackedBoth(c, front[i])) && TrackedBoth(c, ws[|es|]) {
      forall i | 0 <= i <= |es| ensures TrackedBoth(c, ws[i]) { if i <= n { assert TrackedBoth(c, front[i]); } }
    }
    if forall i | 0 <= i < |es| :: Heard(c, ws[i], es[i]) {
      forall i | 0 <= i < |before| ensures Heard(c, front[i], before[i]) { assert Heard(c, ws[i], es[i]); }
    }
    if (forall i | 0 <= i < |before| :: Heard(c, front[i], before[i])) && Heard(c, ws[n], es[n]) {
      forall i | 0 <= i < |es| ensures Heard(c, ws[i], es[i]) { if i < n { assert Heard(c, front[i], before[i]); } }
    }
  }

  /** A flat, empty start is safe. */
  lemma FreshIsSafe(c: Config, position: int)
    requires c.Valid() && Abs(position) <= c.maxPosition + c.levels
    ensures Safe(c, World(position, Side(map[], map[]), Side(map[], map[])))
  {
    NothingRests(Side(map[], map[]), c.levels);
  }

  lemma {:induction false} NothingRests(s: Side, n: nat)
    requires s.resting == map[]
    ensures SumResting(s, n) == 0
  {
    if n > 0 { NothingRests(s, n - 1); }
  }

  /** The teardown heals: whatever the model had lost track of, one cycle that clears the book first restores
      the cap unless it overlays a level, provided the inventory itself is still inside it; and the daemon knows
      again what rests exactly when that cycle was faithful, which after a teardown is only a matter of
      placements that take effect unheard or twice. */
  lemma TeardownHeals(c: Config, w: World, r: Cycle, w': World)
    requires c.Valid() && SumSizes(c, c.levels) <= c.maxPosition
    requires Abs(w.position) <= c.maxPosition + c.levels
    requires QuoteStep(c, w, r, w') && r.reconciled && r.cleared
    ensures TrackedBoth(c, w') <==> Faithful(c, w, r)
    ensures Laid(c, w, r) ==> WithinCap(c, w')
    ensures Faithful(c, w, r) ==> Safe(c, w')
  {
    var empty := World(w.position, Side(map[], map[]), Side(map[], map[]));
    FreshIsSafe(c, w.position);
    forall bid: bool
      ensures SideStep(Desired(c, bid, r.mark, r.position), Begun(r, SideOf(empty, bid)), SideOf(w', bid), OutsOf(r, bid))
      ensures Begun(r, SideOf(w, bid)) == Begun(r, SideOf(empty, bid))
    {
      assert Begun(r, SideOf(w, bid)) == Begun(r, SideOf(empty, bid));
      assert SideStep(Desired(c, bid, r.mark, r.position), Begun(r, SideOf(w, bid)), SideOf(w', bid), OutsOf(r, bid));
    }
    SameStart(c, w, empty, r);
    hide SideStep, Faithful, Laid, Desired, Begun;
    CycleTracksIff(c, empty, r, w');
    if Laid(c, empty, r) { QuoteKeepsCap(c, empty, r, w'); }
    if Faithful(c, empty, r) { FaithfulIsLaid(c, empty, r); }
  }

  lemma SameStart(c: Config, w: World, e: World, r: Cycle)
    requires c.Valid() && r.Quoted? && r.reconciled && r.cleared
    requires forall bid: bool :: Begun(r, SideOf(w, bid)) == Begun(r, SideOf(e, bid))
    ensures Faithful(c, w, r) <==> Faithful(c, e, r)
    ensures Laid(c, w, r) <==> Laid(c, e, r)
  {
    hide Desired;
    forall bid: bool
      ensures FaithfulSide(Desired(c, bid, r.mark, r.position), r, SideOf(w, bid), OutsOf(r, bid))
         <==> FaithfulSide(Desired(c, bid, r.mark, r.position), r, SideOf(e, bid), OutsOf(r, bid))
      ensures LaidSide(Desired(c, bid, r.mark, r.position), r, SideOf(w, bid), OutsOf(r, bid))
         <==> LaidSide(Desired(c, bid, r.mark, r.position), r, SideOf(e, bid), OutsOf(r, bid))
    {
      assert Begun(r, SideOf(w, bid)) == Begun(r, SideOf(e, bid));
    }
  }

  /** Why it matters: a modify that is merely lost makes the daemon forget an order that still rests, and the
      next cycle lays a second one under the same client id. */
  lemma LostModifyDoubles(l: nat, h: Rung, w1: Rung, w2: Rung, v: Level, v1: Level, v2: Level)
    requires v.have == Some(h) && v.queue == [ToNat(h.lots)] && h.price != w1.price && 0 < h.lots && 0 < w2.lots
    requires LevelStep(Some(w1), v, v1, NOTHING) && LevelStep(Some(w2), v1, v2, Outcome([0], true))
    ensures v2.queue == [h.lots, w2.lots] && SumSeq(v2.queue) == h.lots + w2.lots
    ensures !Known(8, l, v2)
  {
    PlacedLots(ToNat(w2.lots), v1.queue, [0]);
    assert v2.queue[1..] == [ToNat(w2.lots)] && v2.queue[1..][1..] == [];
    assert SumSeq(v2.queue[1..]) == w2.lots;
  }

  /** So does a placement that takes effect without being heard of. */
  lemma UnheardPlacementDoubles(l: nat, w1: Rung, w2: Rung, v: Level, v1: Level, v2: Level)
    requires v == Level(None, []) && 0 < w1.lots && 0 < w2.lots
    requires LevelStep(Some(w1), v, v1, Outcome([0], false)) && LevelStep(Some(w2), v1, v2, Outcome([0], true))
    ensures v2.queue == [w1.lots, w2.lots] && SumSeq(v2.queue) == w1.lots + w2.lots
    ensures !Known(8, l, v1) && !Known(8, l, v2)
  {
    PlacedLots(ToNat(w1.lots), [], [0]);
    PlacedLots(ToNat(w2.lots), v1.queue, [0]);
    assert v2.queue[1..] == [ToNat(w2.lots)] && v2.queue[1..][1..] == [];
    assert SumSeq(v2.queue[1..]) == w2.lots;
  }

  /** And that can carry the book past the cap: one level worth the whole of it, placed unheard and placed again. */
  const WHOLE := Config(1, 3.0, 20000.0, 0.85, 20000, 10.0, 2.0, 45000)

  lemma WholeLadder(bid: bool, mark: int)
    ensures WHOLE.Valid() && SumSizes(WHOLE, WHOLE.levels) == WHOLE.maxPosition
    ensures Desired(WHOLE, bid, mark, 0).Keys == {1} && Desired(WHOLE, bid, mark, 0)[1].lots == 20000
  {
    assert Pow(0.85, 0) == 1.0;
    assert Size(WHOLE, 1) == 20000;
    assert SumSizes(WHOLE, 0) == 0;
    assert SumSizes(WHOLE, 1) == 20000;
    FlatIsNeutral(WHOLE, mark, 1);
    assert Ladder.Quoted(WHOLE, bid, 0);
    hide Mid, Offset, Scale, InvFrac;
  }

  /** A cycle that places one rung on each side: what of the asks never takes effect, of the bids as `o` says. */
  function OneRung(mark: int, o: Outcome): Cycle {
    Quoted(0, mark, false, false, map[1 := o], map[1 := NOTHING])
  }

  lemma PlacesOne(mark: int, bid: bool, queue: seq<nat>, o: Outcome)
    requires |o.hits| == 1
    ensures var before, after := Side(map[], map[1 := queue]), Side(
        if o.heard then Desired(WHOLE, bid, mark, 0) else map[], map[1 := queue + [20000]]);
      WHOLE.Valid() && SideStep(Desired(WHOLE, bid, mark, 0), before, after, map[1 := o])
  {
    WholeLadder(bid, mark);
    PlacedLots(20000, queue, o.hits);
    assert Meets(Place, 20000, queue, o.hits) by { assert o.hits[1..] == []; }
    var desired := Desired(WHOLE, bid, mark, 0);
    assert desired == map[1 := desired[1]];
    hide Desired, Applied, Meets;
  }

  lemma PlacesNone(mark: int, bid: bool)
    ensures WHOLE.Valid() && SideStep(Desired(WHOLE, bid, mark, 0), Side(map[], map[]), Side(map[], map[]), map[1 := NOTHING])
  {
    WholeLadder(bid, mark);
    hide Desired;
  }

  /** The book after `n` placements of the one bid, the daemon having heard of the last or of none. */
  ghost function OneSided(mark: int, queue: seq<nat>, heard: bool): World {
    World(0, Side(if heard && WHOLE.Valid() then Desired(WHOLE, true, mark, 0) else map[], map[1 := queue]), Side(map[], map[]))
  }

  lemma OneCycle(mark: int, queue: seq<nat>, heard: bool)
    ensures WHOLE.Valid()
    ensures QuoteStep(WHOLE, OneSided(mark, queue, false), OneRung(mark, Outcome([0], heard)), OneSided(mark, queue + [20000], heard))
  {
    PlacesOne(mark, true, queue, Outcome([0], heard));
    PlacesNone(mark, false);
    hide Desired, SideStep;
  }

  lemma CapAt(mark: int, queue: seq<nat>, heard: bool)
    requires |queue| <= 2
    ensures WHOLE.Valid()
    ensures WithinCap(WHOLE, OneSided(mark, queue, heard)) <==> SumSeq(queue) <= 20001
    ensures !heard && queue != [] ==> !TrackedBoth(WHOLE, OneSided(mark, queue, heard))
    ensures queue == [] && !heard ==> Safe(WHOLE, OneSided(mark, queue, heard))
  {
    var w := OneSided(mark, queue, heard);
    assert SumResting(w.bids, 0) == 0 == SumResting(w.asks, 0);
    assert SumResting(w.bids, 1) == SumSeq(queue) && SumResting(w.asks, 1) == 0;
    assert SideOf(w, true) == w.bids && SideOf(w, false) == w.asks;
    hide Desired, SumResting;
    if !heard && queue != [] { assert !Known(1, 1, LevelAt(w.bids, 1)); }
  }

  lemma UnheardPlacementBeatsTheCap(mark: int) returns (ws: seq<World>, es: seq<Event>)
    ensures WHOLE.Valid() && SumSizes(WHOLE, WHOLE.levels) <= WHOLE.maxPosition
    ensures IsRun(WHOLE, ws, es) && Safe(WHOLE, ws[0]) && |es| == 2
    ensures WithinCap(WHOLE, ws[1]) && !TrackedBoth(WHOLE, ws[1]) && !WithinCap(WHOLE, ws[2])
  {
    WholeLadder(true, mark);
    OneCycle(mark, [], false);
    OneCycle(mark, [20000], true);
    assert [] + [20000] == [20000] && [20000] + [20000] == [20000, 20000];
    assert SumSeq([20000]) == 20000 by { assert [20000][1..] == []; }
    assert SumSeq([20000, 20000]) == 40000 by { assert [20000, 20000][1..] == [20000]; }
    hide *;
    CapAt(mark, [], false);
    CapAt(mark, [20000], false);
    CapAt(mark, [20000, 20000], true);
    ws := [OneSided(mark, [], false), OneSided(mark, [20000], false), OneSided(mark, [20000, 20000], true)];
    es := [Event.Quote(OneRung(mark, Outcome([0], false))), Event.Quote(OneRung(mark, Outcome([0], true)))];
    TwoCycles(WHOLE, ws, es);
  }

  lemma TwoCycles(c: Config, ws: seq<World>, es: seq<Event>)
    requires c.Valid() && |ws| == 3 && |es| == 2 && es[0].Quote? && es[1].Quote?
    requires QuoteStep(c, ws[0], es[0].cycle, ws[1]) && QuoteStep(c, ws[1], es[1].cycle, ws[2])
    ensures IsRun(c, ws, es)
  {
    hide QuoteStep;
    assert Next(c, ws[0], es[0], ws[1]) && Next(c, ws[1], es[1], ws[2]);
  }

  // ── the re-lay timer ──────────────────────────────────────────────────────

  /** One cycle with a usable price, as `QuoteMarket` promises it. */
  datatype Beat = Beat(now: int, relaid: bool)

  function LastRelay(first: int, bs: seq<Beat>): int {
    if bs == [] then first
    else if bs[|bs| - 1].relaid then bs[|bs| - 1].now
    else LastRelay(first, bs[..|bs| - 1])
  }

  ghost predicate Timed(c: Config, first: int, bs: seq<Beat>) {
    forall i | 0 <= i < |bs| ::
      bs[i].relaid <==> LastRelay(first, bs[..i]) == 0 || bs[i].now - LastRelay(first, bs[..i]) > c.reconcileMs
  }

  lemma {:induction false} LastRelayIs(first: int, bs: seq<Beat>, i: nat)
    requires i < |bs| && bs[i].relaid && forall k | i < k < |bs| :: !bs[k].relaid
    ensures LastRelay(first, bs) == bs[i].now
  {
    if i < |bs| - 1 {
      var front := bs[..|bs| - 1];
      assert front[i] == bs[i] && forall k | i < k < |front| :: front[k] == bs[k];
      LastRelayIs(first, front, i);
    }
  }

  /** With cycles at most `gap` apart, two re-lays with none between are more than the interval apart and no more
      than the interval and a gap; and as long as none follows, no more than the interval has passed. */
  lemma RelaysApart(c: Config, first: int, bs: seq<Beat>, gap: nat, i: nat, j: nat)
    requires Timed(c, first, bs) && 0 <= c.reconcileMs && i < j < |bs| && bs[i].relaid && bs[i].now != 0
    requires forall k | i < k < j :: !bs[k].relaid
    requires forall k | 0 < k < |bs| :: 0 <= bs[k].now - bs[k - 1].now <= gap
    ensures bs[j].relaid <==> bs[j].now - bs[i].now > c.reconcileMs
    ensures bs[j].relaid ==> bs[j].now - bs[i].now <= c.reconcileMs + gap
  {
    LastRelayIs(first, bs[..j], i);
    if i < j - 1 {
      LastRelayIs(first, bs[..j - 1], i);
      assert !bs[j - 1].relaid;
    }
  }

  /** The process defaults lay well inside the cap they ship with. */
  lemma DefaultsFitTheCap()
    ensures DEFAULTS.Valid() && SumSizes(DEFAULTS, DEFAULTS.levels) == 8304 <= 20_000 == DEFAULTS.maxPosition
  {
    var d := 0.85;
    assert Pow(d, 0) == 1.0;
    assert Pow(d, 1) == 0.85;
    assert Pow(d, 2) == 0.7225;
    assert Pow(d, 3) == 0.614125;
    assert Pow(d, 4) == 0.52200625;
    assert Pow(d, 5) == 0.4437053125;
    assert SumSizes(DEFAULTS, 0) == 0;
    assert SumSizes(DEFAULTS, 1) == 2000;
    assert SumSizes(DEFAULTS, 2) == 3700;
    assert SumSizes(DEFAULTS, 3) == 5145;
    assert SumSizes(DEFAULTS, 4) == 6373;
    assert SumSizes(DEFAULTS, 5) == 7417;
  }
}
