/** Accrual catch-up: how far an asset's clock trails the group header, and what bursts of cranks do
    to it and to its neighbours. */
module Burst {
  import opened Prelude

  const MAX_DT := 100
  const DEEP_DEBT := 50_000
  const MAX_BURST := 256

  /** The group header's slot and each asset's last accrued slot. */
  datatype Clocks = Clocks(header: nat, slotLast: seq<nat>) {
    ghost predicate Valid() { forall i | 0 <= i < |slotLast| :: slotLast[i] <= header }

    function Lag(i: nat): int
      requires i < |slotLast|
    {
      header - slotLast[i]
    }
  }

  /** One landed crank: the venue clock ticks by `t`, then the asset accrues at most one step. */
  function Crank(c: Clocks, i: nat, t: nat): Clocks
    requires i < |c.slotLast|
  {
    var header := c.header + t;
    Clocks(header, c.slotLast[i := if c.slotLast[i] + MAX_DT < header then c.slotLast[i] + MAX_DT else header])
  }

  function Cranks(c: Clocks, i: nat, ts: seq<nat>): (r: Clocks)
    requires i < |c.slotLast|
    ensures |r.slotLast| == |c.slotLast|
  {
    if ts == [] then c else Crank(Cranks(c, i, ts[..|ts| - 1]), i, ts[|ts| - 1])
  }

  ghost predicate Ticks(ts: seq<nat>) { forall t | t in ts :: t <= MAX_DT }

  ghost function Total(ts: seq<nat>): nat { if ts == [] then 0 else Total(ts[..|ts| - 1]) + ts[|ts| - 1] }

  /** The exact effect of any number of landed cranks, on the asset and on everyone else. */
  lemma {:induction false} CranksExactly(c: Clocks, i: nat, ts: seq<nat>)
    requires c.Valid() && i < |c.slotLast| && Ticks(ts)
    ensures var r := Cranks(c, i, ts);
      && r.Valid() && r.header == c.header + Total(ts)
      && r.Lag(i) == MaxInt(0, c.Lag(i) + Total(ts) - 100 * |ts|)
      && forall j | 0 <= j < |c.slotLast| && j != i :: r.Lag(j) == c.Lag(j) + Total(ts)
    ensures Total(ts) <= MAX_DT * |ts|
  {
    if ts != [] {
      var front, t := ts[..|ts| - 1], ts[|ts| - 1];
      assert t in ts && forall x | x in front :: x in ts;
      CranksExactly(c, i, front);
    }
  }

  /** A crank of any market landing, and the tick it brings. */
  datatype Landing = Landing(asset: nat, tick: nat)

  ghost predicate Fits(c: Clocks, acts: seq<Landing>) {
    forall a | a in acts :: a.asset < |c.slotLast| && a.tick <= MAX_DT
  }

  function Landed(c: Clocks, acts: seq<Landing>): (r: Clocks)
    requires forall a | a in acts :: a.asset < |c.slotLast|
    ensures |r.slotLast| == |c.slotLast|
  {
    if acts == [] then c
    else
      var front, a := acts[..|acts| - 1], acts[|acts| - 1];
      assert a in acts && forall x | x in front :: x in acts;
      Crank(Landed(c, front), a.asset, a.tick)
  }

  function TicksOf(acts: seq<Landing>): nat {
    if acts == [] then 0 else TicksOf(acts[..|acts| - 1]) + acts[|acts| - 1].tick
  }

  ghost function CountOf(acts: seq<Landing>, i: nat): nat {
    if acts == [] then 0 else CountOf(acts[..|acts| - 1], i) + (if acts[|acts| - 1].asset == i then 1 else 0)
  }

  /** Cranks of any markets, landing in any order: a market's lag falls by at most a hundred for each of its
      own and grows by exactly the ticks while none of its own lands. */
  lemma {:induction false} AnyLandings(c: Clocks, acts: seq<Landing>, i: nat)
    requires c.Valid() && Fits(c, acts) && i < |c.slotLast|
    ensures var r := Landed(c, acts);
      && r.Valid() && r.header == c.header + TicksOf(acts)
      && r.Lag(i) >= MaxInt(0, c.Lag(i) + TicksOf(acts) - MAX_DT * CountOf(acts, i))
      && (CountOf(acts, i) == 0 ==> r.Lag(i) == c.Lag(i) + TicksOf(acts))
  {
    if acts != [] {
      var front, a := acts[..|acts| - 1], acts[|acts| - 1];
      assert a in acts && forall x | x in front :: x in acts;
      AnyLandings(c, front, i);
    }
  }

  /** Nothing but landings of cranks lies between the two. */
  ghost predicate Reached(c: Clocks, c': Clocks) {
    exists acts: seq<Landing> :: Fits(c, acts) && c' == Landed(c, acts)
  }

  lemma ReachedSelf(c: Clocks)
    ensures Reached(c, c)
  {
    assert Fits(c, []) && c == Landed(c, []);
  }

  lemma ReachedMore(c: Clocks, d: Clocks, i: nat, t: nat)
    requires Reached(c, d) && i < |c.slotLast| && t <= MAX_DT
    ensures |d.slotLast| == |c.slotLast| && Reached(c, Crank(d, i, t))
  {
    var acts :| Fits(c, acts) && d == Landed(c, acts);
    var more := acts + [Landing(i, t)];
    assert more[..|acts|] == acts;
    assert Fits(c, more) && Crank(d, i, t) == Landed(c, more);
  }

  lemma {:induction false} ReachedByCranks(c: Clocks, d: Clocks, i: nat, ts: seq<nat>)
    requires Reached(c, d) && i < |c.slotLast| == |d.slotLast| && Ticks(ts)
    ensures Reached(c, Cranks(d, i, ts))
  {
    if ts != [] {
      var front, t := ts[..|ts| - 1], ts[|ts| - 1];
      assert t in ts && forall x | x in front :: x in ts;
      ReachedByCranks(c, d, i, front);
      ReachedMore(c, Cranks(d, i, front), i, t);
    }
  }

  lemma ReachedValid(c: Clocks, d: Clocks)
    requires c.Valid() && Reached(c, d)
    ensures d.Valid() && |d.slotLast| == |c.slotLast|
  {
    var acts :| Fits(c, acts) && d == Landed(c, acts);
    if |c.slotLast| > 0 {
      AnyLandings(c, acts, 0);
    } else {
      assert |d.slotLast| == 0;
    }
  }

  /** `min(ceil(lag / 90) + 1, 256)`. */
  function BurstSize(lag: nat): (count: nat)
    ensures 1 <= count <= 256 && (count < 256 ==> 90 * (count - 2) < lag <= 90 * (count - 1)) && (count == 256 ==> lag > 90 * 254)
  {
    MinInt((lag + 89) / 90 + 1, MAX_BURST)
  }

  /** A host is calm when a burst's cranks land together and the clock ticks at most ten slots a crank. */
  ghost predicate Calm(ts: seq<nat>, count: nat) { |ts| == count && Total(ts) <= 10 * count }

  /** On a calm host one burst clears the lag or cuts it by at least 23 040 slots. */
  lemma BurstCuts(c: Clocks, i: nat, ts: seq<nat>)
    requires c.Valid() && i < |c.slotLast| && Ticks(ts) && Calm(ts, BurstSize(c.Lag(i)))
    ensures Cranks(c, i, ts).Lag(i) <= MaxInt(0, c.Lag(i) - 23_040)
  {
    CranksExactly(c, i, ts);
  }

  /** One more burst on top of what a pass has done so far. */
  lemma AnotherBurst(was: Clocks, i: nat, ts: seq<nat>, before: Clocks, burst: seq<nat>, lag: nat, calm: bool)
    requires i < |was.slotLast| && before == Cranks(was, i, ts) && before.Valid() && Ticks(ts) && Ticks(burst)
    requires calm ==> lag == before.Lag(i) && Calm(burst, BurstSize(lag))
    ensures Cranks(was, i, ts + burst) == Cranks(before, i, burst) && Ticks(ts + burst)
    ensures Cranks(before, i, burst).Valid()
    ensures calm ==> Total(ts + burst) <= Total(ts) + 10 * MAX_BURST
    ensures calm ==> Cranks(before, i, burst).Lag(i) <= MaxInt(0, lag - 90 * MAX_BURST)
  {
    hide Cranks, Crank, Total, MaxInt;
    CranksExactly(before, i, burst);
    CranksConcat(was, i, ts, burst);
    forall t | t in ts + burst ensures t <= MAX_DT {}
    if calm { CalmBurst(before, i, burst, lag); }
  }

  lemma CalmBurst(before: Clocks, i: nat, burst: seq<nat>, lag: nat)
    requires before.Valid() && i < |before.slotLast| && Ticks(burst)
    requires lag == before.Lag(i) && Calm(burst, BurstSize(lag))
    ensures Total(burst) <= 10 * MAX_BURST
    ensures Cranks(before, i, burst).Lag(i) <= MaxInt(0, lag - 90 * MAX_BURST)
  {
    hide Cranks, Crank, Total;
    BurstCuts(before, i, burst);
  }

  lemma FirstCrank(was: Clocks, i: nat, ts: seq<nat>)
    requires was.Valid() && i < |was.slotLast| && Ticks(ts) && |ts| == 1
    ensures Cranks(was, i, ts).Valid() && Total(ts) <= MAX_DT
    ensures Total(ts) <= Ticked(0) && Cranks(was, i, ts).Lag(i) <= CutTo(was.Lag(i), 0)
  {
    CranksExactly(was, i, ts);
  }

  /** The most the venue clock ticks, on a calm host, over a confirmed crank and `k` bursts. */
  ghost function Ticked(k: nat): nat { MAX_DT + 10 * MAX_BURST * k }

  /** What `k` bursts leave of a lag. */
  ghost function CutTo(start: int, k: nat): int { MaxInt(0, start - 90 * MAX_BURST * k) }

  lemma CutAgain(start: int, k: nat, before: int, now: int)
    requires before <= CutTo(start, k) && now <= MaxInt(0, before - 90 * MAX_BURST)
    ensures now <= CutTo(start, k + 1) && Ticked(k + 1) == Ticked(k) + 10 * MAX_BURST
  {
  }

  lemma EnoughRounds(start: int, k: nat, rounds: nat, lag: int)
    requires k <= rounds && lag <= CutTo(start, k) && (k == rounds || lag <= 0)
    ensures lag <= CutTo(start, rounds) && Ticked(k) <= Ticked(rounds)
    ensures rounds >= 3 && start <= DEEP_DEBT ==> lag <= 0
  {
  }

  /** A market still deep after one crank was deep before it. */
  lemma StillDeep(start: int, rounds: nat, lag: int)
    requires lag <= CutTo(start, 0) && lag > DEEP_DEBT
    ensures start > DEEP_DEBT && Ticked(0) <= Ticked(rounds)
  {
  }

  // ── the keeper's loop ─────────────────────────────────────────────────────

  datatype Result = Refused | Left(lag: int)

  class Venue {
    var clocks: Clocks
    var retryAt: map<nat, int>

    constructor (c: Clocks)
      requires c.Valid()
      ensures clocks == c && retryAt == map[]
    {
      clocks, retryAt := c, map[];
    }

    /** The two account reads; either failing reads as no lag at all. */
    method AssetLag(i: nat, calm: bool) returns (lag: int)
      requires clocks.Valid() && i < |clocks.slotLast|
      ensures lag == clocks.Lag(i) || (!calm && lag == 0)
    {
      var answered: bool := *;
      lag := if calm || answered then clocks.Lag(i) else 0;
    }

    /** The first crank of a pass is awaited, so it lands or throws. */
    method ConfirmedCrank(i: nat) returns (ghost ts: seq<nat>)
      requires clocks.Valid() && i < |clocks.slotLast|
      modifies this`clocks
      ensures |ts| == 1 && Ticks(ts) && clocks == Cranks(old(clocks), i, ts)
    {
      var tick: nat := *;
      var t := tick % (MAX_DT + 1);
      ghost var was := clocks;
      clocks := Crank(clocks, i, t);
      ts := [t];
      assert ts[..0] == [] && Cranks(was, i, []) == was;
    }

    /** A pipelined burst: on a calm host all of it lands, otherwise any part of it. */
    method CrankBurst(i: nat, count: nat, calm: bool) returns (ghost ts: seq<nat>)
      requires clocks.Valid() && i < |clocks.slotLast|
      modifies this`clocks
      ensures clocks == Cranks(old(clocks), i, ts) && Ticks(ts) && |ts| <= count
      ensures calm ==> Calm(ts, count)
    {
      ts := [];
      var budget := 10 * count;
      for k := 0 to count
        invariant clocks == Cranks(old(clocks), i, ts) && Ticks(ts) && |ts| <= k
        invariant |clocks.slotLast| == |old(clocks).slotLast|
        invariant calm ==> |ts| == k && Total(ts) + budget == 10 * count && 0 <= budget
      {
        var lands: bool := *;
        var tick: nat := *;
        if calm || lands {
          var t := tick % (MAX_DT + 1);
          if calm && t > budget { t := budget; }
          budget := budget - t;
          clocks := Crank(clocks, i, t);
          assert (ts + [t])[..|ts|] == ts;
          ts := ts + [t];
        }
      }
    }

    /** Cranks sent earlier and not yet heard of may land at any await, unless the host is calm. */
    method Stragglers(calm: bool)
      requires clocks.Valid()
      modifies this`clocks
      ensures calm ==> clocks == old(clocks)
      ensures Reached(old(clocks), clocks) && clocks.Valid() && |clocks.slotLast| == |old(clocks).slotLast|
    {
      hide Landed, Fits;
      ReachedSelf(clocks);
      var late: int := *;
      var n := if calm || late < 0 || |clocks.slotLast| == 0 then 0 else late;
      for k := 0 to n
        invariant calm ==> clocks == old(clocks)
        invariant Reached(old(clocks), clocks) && clocks.Valid() && |clocks.slotLast| == |old(clocks).slotLast|
      {
        var asset: nat := *;
        var tick: nat := *;
        var i, t := asset % |clocks.slotLast|, tick % (MAX_DT + 1);
        ReachedMore(old(clocks), clocks, i, t);
        clocks := Crank(clocks, i, t);
        ReachedValid(old(clocks), clocks);
      }
    }

    /** One confirmed crank, then bursts sized to the measured lag. A market in deep debt is left to
        the walk-off unless this is the walk-off. On a calm host `ts` are the ticks of all that landed. */
    method CrankUntilCurrent(i: nat, rounds: nat, walkOff: bool, priced: bool, calm: bool) returns (r: Result, ghost ts: seq<nat>)
      requires clocks.Valid() && i < |clocks.slotLast|
      modifies this`clocks
      ensures Reached(old(clocks), clocks) && clocks.Valid() && |clocks.slotLast| == |old(clocks).slotLast|
      ensures calm ==> clocks == Cranks(old(clocks), i, ts) && Ticks(ts)
      ensures (r.Refused? <==> !priced) && (r.Refused? && calm ==> ts == [])
      ensures r.Left? ==> ts != [] && (r.lag == clocks.Lag(i) || (!calm && r.lag == 0))
      ensures r.Left? && calm ==> Total(ts) <= Ticked(rounds)
      ensures r.Left? && calm && (walkOff || old(clocks).Lag(i) <= 50_000) ==> r.lag <= MaxInt(0, old(clocks).Lag(i) - 23_040 * rounds)
      ensures r.Left? && calm && rounds >= 3 && old(clocks).Lag(i) <= 50_000 ==> clocks.Lag(i) == 0
      // A market in deep debt gets the one crank and no burst, unless this is the walk-off.
      ensures r.Left? && calm && !walkOff && old(clocks).Lag(i) > 50_100 ==> |ts| == 1
    {
      assert Cranks(clocks, i, []) == clocks;
      ReachedSelf(clocks);
      hide Cranks, Crank, Total, BurstSize, Calm, MaxInt, Ticked, CutTo, Reached;
      ts := [];
      ghost var was := clocks;
      if !priced { return Refused, []; }
      ts := ConfirmedCrank(i);
      FirstCrank(was, i, ts);
      ReachedByCranks(was, was, i, ts);
      ghost var landed := clocks;
      Stragglers(calm);
      ReachedOn(was, landed, clocks);
      var lag := AssetLag(i, calm);
      if !walkOff && lag > DEEP_DEBT {
        if calm { StillDeep(was.Lag(i), rounds, lag); }
        return Left(lag), ts;
      }
      var k := 0;
      while k < rounds && lag > 0
        invariant k <= rounds && ts != [] && clocks.Valid() && |clocks.slotLast| == |was.slotLast|
        invariant Reached(was, clocks)
        invariant calm ==> clocks == Cranks(was, i, ts) && Ticks(ts)
        invariant lag == clocks.Lag(i) || (!calm && lag == 0)
        invariant calm ==> Total(ts) <= Ticked(k) && lag <= CutTo(was.Lag(i), k)
      {
        lag, ts := BurstRound(i, lag, k, calm, was, ts);
        k := k + 1;
      }
      if calm { EnoughRounds(was.Lag(i), k, rounds, lag); }
      r := Left(lag);
    }

    /** One burst sized to the lag, and the lag measured again. */
    method BurstRound(i: nat, lag: int, k: nat, calm: bool, ghost was: Clocks, ghost ts: seq<nat>)
      returns (lag': int, ghost ts': seq<nat>)
      requires clocks.Valid() && i < |clocks.slotLast| == |was.slotLast| && Reached(was, clocks) && ts != [] && lag > 0
      requires calm ==> clocks == Cranks(was, i, ts) && Ticks(ts) && lag == clocks.Lag(i)
      requires calm ==> Total(ts) <= Ticked(k) && lag <= CutTo(was.Lag(i), k)
      modifies this`clocks
      ensures clocks.Valid() && |clocks.slotLast| == |was.slotLast| && Reached(was, clocks) && ts' != []
      ensures lag' == clocks.Lag(i) || (!calm && lag' == 0)
      ensures calm ==> clocks == Cranks(was, i, ts') && Ticks(ts')
      ensures calm ==> Total(ts') <= Ticked(k + 1) && lag' <= CutTo(was.Lag(i), k + 1)
    {
      hide Cranks, Crank, Total, BurstSize, Calm, MaxInt, Ticked, CutTo, Reached;
      ghost var before := clocks;
      ghost var burst := CrankBurst(i, BurstSize(lag), calm);
      CranksExactly(before, i, burst);
      ReachedByCranks(was, before, i, burst);
      if calm {
        AnotherBurst(was, i, ts, before, burst, lag, calm);
        CutAgain(was.Lag(i), k, lag, clocks.Lag(i));
      }
      ts' := ts + burst;
      ghost var landed := clocks;
      Stragglers(calm);
      ReachedOn(was, landed, clocks);
      lag' := AssetLag(i, calm);
    }

    /** One pass of the walk-off at `now`: the deepest market not backing off, if any is deep, gets one job,
        and a job whose crank is refused puts its market off for a minute. */
    method WalkOff(now: int, priced: nat -> bool, calm: bool) returns (worst: Option<nat>, r: Result)
      requires clocks.Valid()
      modifies this
      ensures Reached(old(clocks), clocks) && clocks.Valid() && |clocks.slotLast| == |old(clocks).slotLast|
      ensures retryAt == if worst.Some? && r.Refused? then old(retryAt)[worst.value := now + 60_000] else old(retryAt)
      ensures worst.None? || (r.Refused? && calm) ==> clocks == old(clocks)
      ensures worst.Some? ==> (r.Refused? <==> !priced(worst.value))
      ensures calm ==>
        match worst
        case None => forall j: nat | j < |clocks.slotLast| && (j in old(retryAt) ==> old(retryAt)[j] <= now) :: clocks.Lag(j) <= 50_000
        case Some(i) =>
          && i < |clocks.slotLast| && (i in old(retryAt) ==> old(retryAt)[i] <= now) && old(clocks).Lag(i) > 50_000
          && (forall j: nat | j < |clocks.slotLast| && (j in old(retryAt) ==> old(retryAt)[j] <= now) ::
                old(clocks).Lag(j) <= old(clocks).Lag(i))
          && (r.Left? ==> WalkOffJob(old(clocks), i, clocks))
    {
      worst, r := None, Refused;
      var worstLag := DEEP_DEBT;
      ReachedSelf(clocks);
      for k := 0 to |clocks.slotLast|
        invariant clocks == old(clocks) && retryAt == old(retryAt) && worstLag >= DEEP_DEBT
        invariant calm ==> forall j: nat | j < k && !BacksOff(retryAt, j, now) :: clocks.Lag(j) <= worstLag
        invariant worst.None? ==> worstLag == DEEP_DEBT
        invariant worst.Some? ==> worst.value < k && !BacksOff(retryAt, worst.value, now) && worstLag > DEEP_DEBT
        invariant worst.Some? && calm ==> clocks.Lag(worst.value) == worstLag
      {
        if !BacksOff(retryAt, k, now) {
          var lag := AssetLag(k, calm);
          if lag > worstLag { worst, worstLag := Some(k), lag; }
        }
      }
      if worst.Some? {
        ghost var ts;
        r, ts := CrankUntilCurrent(worst.value, 2, true, priced(worst.value), calm);
        assert ts == [] ==> Cranks(old(clocks), worst.value, ts) == old(clocks);
        if r.Refused? { retryAt := retryAt[worst.value := now + 60_000]; }
      }
    }
  }

  predicate BacksOff(retryAt: map<nat, int>, j: nat, now: int) { j in retryAt && retryAt[j] > now }

  lemma ReachedOn(c: Clocks, d: Clocks, e: Clocks)
    requires Reached(c, d) && Reached(d, e) && |d.slotLast| == |c.slotLast|
    ensures Reached(c, e)
  {
    var acts :| Fits(d, acts) && e == Landed(d, acts);
    ReachedByLandings(c, d, acts);
  }

  lemma {:induction false} ReachedByLandings(c: Clocks, d: Clocks, acts: seq<Landing>)
    requires Reached(c, d) && |d.slotLast| == |c.slotLast| && Fits(d, acts)
    ensures Reached(c, Landed(d, acts))
  {
    if acts != [] {
      var front, a := acts[..|acts| - 1], acts[|acts| - 1];
      assert a in acts && forall x | x in front :: x in acts;
      ReachedByLandings(c, d, front);
      ReachedMore(c, Landed(d, front), a.asset, a.tick);
    }
  }

  lemma {:induction false} CranksConcat(c: Clocks, i: nat, ts: seq<nat>, us: seq<nat>)
    requires i < |c.slotLast|
    ensures Cranks(c, i, ts + us) == Cranks(Cranks(c, i, ts), i, us)
    ensures Total(ts + us) == Total(ts) + Total(us)
  {
    if us == [] {
      assert ts + us == ts;
    } else {
      assert (ts + us)[..|ts + us| - 1] == ts + us[..|us| - 1];
      CranksConcat(c, i, ts, us[..|us| - 1]);
    }
  }

  // ── the walk-off over a whole venue ───────────────────────────────────────

  ghost function TotalLag(c: Clocks, n: nat): int
    requires n <= |c.slotLast|
  {
    if n == 0 then 0 else TotalLag(c, n - 1) + c.Lag(n - 1)
  }

  /** One walk-off job, on a calm host: a confirmed crank and two bursts, all on one deep market. */
  ghost predicate WalkOffJob(c: Clocks, i: nat, c': Clocks) {
    && i < |c.slotLast| && c.Valid() && c.Lag(i) > DEEP_DEBT
    && exists ts: seq<nat> :: Ticks(ts) && c' == Cranks(c, i, ts)
         && Total(ts) <= MAX_DT + 20 * MAX_BURST && c'.Lag(i) <= c.Lag(i) - 180 * MAX_BURST
  }

  lemma {:induction false} TotalLagMoves(c: Clocks, c': Clocks, i: nat, tick: nat, n: nat)
    requires n <= |c.slotLast| == |c'.slotLast| && i < |c.slotLast|
    requires forall j | 0 <= j < |c.slotLast| && j != i :: c'.Lag(j) == c.Lag(j) + tick
    ensures TotalLag(c', n) == TotalLag(c, n) + (if i < n then c'.Lag(i) - c.Lag(i) + tick * (n - 1) else tick * n)
  {
    if n > 0 { TotalLagMoves(c, c', i, tick, n - 1); }
  }

  /** Every crank pushes all the neighbours back, yet on a venue of up to nine markets each walk-off
      job leaves the venue as a whole at least 4 320 slots better off. */
  lemma WalkOffGains(c: Clocks, i: nat, c': Clocks)
    requires WalkOffJob(c, i, c') && |c.slotLast| <= 9
    ensures c'.Valid() && |c'.slotLast| == |c.slotLast|
    ensures TotalLag(c', |c'.slotLast|) <= TotalLag(c, |c.slotLast|) - 4_320
  {
    var ts: seq<nat> :| Ticks(ts) && c' == Cranks(c, i, ts)
      && Total(ts) <= MAX_DT + 20 * MAX_BURST && c'.Lag(i) <= c.Lag(i) - 180 * MAX_BURST;
    CranksExactly(c, i, ts);
    var n := |c.slotLast|;
    TotalLagMoves(c, c', i, Total(ts), n);
    hide Cranks, Total, TotalLag;
    ProductBound(Total(ts), n - 1, MAX_DT + 20 * MAX_BURST, 8);
  }

  lemma ProductBound(x: int, y: int, a: int, b: int)
    requires 0 <= x <= a && 0 <= y <= b
    ensures x * y <= a * b
  {
    assert (a - x) * y >= 0 && a * (b - y) >= 0;
  }

  ghost predicate SomeJob(c: Clocks, c': Clocks) { exists i: nat :: WalkOffJob(c, i, c') }

  /** Walk-off jobs with anything at all in between: the passes and the clock go on meanwhile. */
  ghost predicate WalkOffRun(cs: seq<Clocks>, jobs: seq<bool>) {
    && |cs| == |jobs| + 1 && |cs[0].slotLast| <= 9
    && (forall k | 0 <= k < |cs| :: cs[k].Valid() && |cs[k].slotLast| == |cs[0].slotLast|)
    && forall k | 0 <= k < |jobs| && jobs[k] :: SomeJob(cs[k], cs[k + 1])
  }

  ghost function VenueLag(c: Clocks): int { TotalLag(c, |c.slotLast|) }

  ghost function Jobs(jobs: seq<bool>): nat {
    if jobs == [] then 0 else Jobs(jobs[..|jobs| - 1]) + (if jobs[|jobs| - 1] then 1 else 0)
  }

  /** What the venue's lag gained between jobs. */
  ghost function Drift(cs: seq<Clocks>, jobs: seq<bool>): int
    requires |cs| == |jobs| + 1
  {
    if jobs == [] then 0
    else
      var n := |jobs| - 1;
      Drift(cs[..|jobs|], jobs[..n]) + (if jobs[n] then 0 else VenueLag(cs[n + 1]) - VenueLag(cs[n]))
  }

  /** So the walk-off ends whenever it can: however many jobs have run, 4 320 slots for each of them have come
      out of the lag there was and the lag that was added in between. */
  lemma {:induction false} WalkOffEnds(cs: seq<Clocks>, jobs: seq<bool>)
    requires WalkOffRun(cs, jobs)
    ensures 0 <= VenueLag(cs[|jobs|]) <= VenueLag(cs[0]) + Drift(cs, jobs) - 4_320 * Jobs(jobs)
  {
    hide WalkOffJob, TotalLag;
    if jobs != [] {
      var n := |jobs| - 1;
      assert WalkOffRun(cs[..|jobs|], jobs[..n]);
      WalkOffEnds(cs[..|jobs|], jobs[..n]);
      assert cs[..|jobs|][n] == cs[n] && cs[..|jobs|][0] == cs[0];
      if jobs[n] {
        assert SomeJob(cs[n], cs[n + 1]);
        var i: nat :| WalkOffJob(cs[n], i, cs[n + 1]);
        WalkOffGains(cs[n], i, cs[n + 1]);
      }
    }
    LagsPositive(cs[|jobs|], |cs[|jobs|].slotLast|);
  }

  lemma {:induction false} LagsPositive(c: Clocks, n: nat)
    requires c.Valid() && n <= |c.slotLast|
    ensures 0 <= TotalLag(c, n)
  {
    if n > 0 { LagsPositive(c, n - 1); }
  }
}
