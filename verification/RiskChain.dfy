/** The keeper's serialized risk jobs: a chain of promises, each job hung on the one before. A crank that
    is sent may land at any later time, or never. */
module RiskChain {
  import opened Prelude

  datatype Kind = CrankJob | WalkOffJob | SettleJob

  /** Where a running job stands: its confirmed crank, the bursts, and for a settle job the fills it may
      still send. A confirmed crank and a fill are waited for. */
  datatype Phase =
    | Probing
    | AwaitingProbe(sent: nat)
    | Bursting
    | Filling(left: nat)
    | AwaitingFill(sent: nat, left: nat)

  datatype Status = Waiting | Running(phase: Phase) | Settled(ok: bool)

  /** `after` is the job whose settling, either way, lets this one start. */
  datatype Job = Job(kind: Kind, after: Option<nat>, status: Status)

  /** What is sent: by a job, or by the catch-up that runs before the first one. */
  datatype Act = CatchUpCrank | Crank(job: nat) | Fill(job: nat)

  predicate IsCrank(a: Act) { !a.Fill? }

  /** `tail` is what `riskTail` points at. `sends` is everything submitted, in order; of those, `inflight`
      have not been heard of, and `landed` have reached the rollup, in the order they did. */
  datatype State = State(jobs: seq<Job>, tail: Option<nat>, sends: seq<Act>, inflight: set<nat>, landed: seq<nat>)

  datatype Event =
    | CatchUp
    | Submit(kind: Kind)
    | Begin(job: nat)
    | Probe(job: nat)
    | Confirm(job: nat)
    | Burst(job: nat)
    | StartFills(job: nat, pending: nat)
    | SendFill(job: nat)
    | End(job: nat, ok: bool)
    | Land(sent: nat)
    | Drop(sent: nat)

  /** No more than this many fills a pass. */
  const MAX_FILLS := 4

  /** Debt beyond this is the walk-off's. */
  const DEEP_DEBT := 50_000

  /** And beyond this the catch-up does not even try. */
  const HOPELESS := 2_000_000

  /** A chained job starts once the promise it hangs on has settled, rejected or not. */
  predicate MayBegin(s: State, i: nat) {
    && i < |s.jobs| && s.jobs[i].status.Waiting?
    && match s.jobs[i].after
       case None => true
       case Some(p) => p < |s.jobs| && s.jobs[p].status.Settled?
  }

  predicate IsRunning(s: State, i: nat) { i < |s.jobs| && s.jobs[i].status.Running? }

  predicate InPhase(s: State, i: nat, p: Phase) { IsRunning(s, i) && s.jobs[i].status.phase == p }

  /** The job has come to its fills. */
  predicate IsFilling(s: State, i: nat) {
    IsRunning(s, i) && (s.jobs[i].status.phase.Filling? || s.jobs[i].status.phase.AwaitingFill?)
  }

  /** What a job waits for has landed. */
  predicate Heard(s: State, i: nat) {
    && IsRunning(s, i)
    && match s.jobs[i].status.phase
       case AwaitingProbe(k) => k in s.landed
       case AwaitingFill(k, _) => k in s.landed
       case _ => false
  }

  predicate Enabled(s: State, e: Event) {
    match e
    case CatchUp => s.jobs == []
    case Submit(_) => true
    case Begin(i) => MayBegin(s, i)
    case Probe(i) => InPhase(s, i, Probing)
    case Confirm(i) => Heard(s, i)
    case Burst(i) => InPhase(s, i, Bursting)
    case StartFills(i, _) => InPhase(s, i, Bursting) && s.jobs[i].kind.SettleJob?
    case SendFill(i) => IsRunning(s, i) && s.jobs[i].status.phase.Filling? && s.jobs[i].status.phase.left > 0
    case End(i, _) => IsRunning(s, i)
    case Land(k) => k in s.inflight
    case Drop(k) => k in s.inflight
  }

  function WithStatus(s: State, i: nat, st: Status): State
    requires i < |s.jobs|
  {
    s.(jobs := s.jobs[i := s.jobs[i].(status := st)])
  }

  /** Send and let go: the transaction is in flight from here on. */
  function Sending(s: State, a: Act): State { s.(sends := s.sends + [a], inflight := s.inflight + {|s.sends|}) }

  function After(s: State, e: Event): State
    requires Enabled(s, e)
  {
    match e
    case CatchUp => Sending(s, CatchUpCrank)
    case Submit(kind) => s.(jobs := s.jobs + [Job(kind, s.tail, Waiting)], tail := Some(|s.jobs|))
    case Begin(i) => WithStatus(s, i, Running(Probing))
    case Probe(i) => WithStatus(Sending(s, Crank(i)), i, Running(AwaitingProbe(|s.sends|)))
    case Confirm(i) =>
      var p := s.jobs[i].status.phase;
      WithStatus(s, i, Running(if p.AwaitingProbe? then Bursting else Filling(p.left)))
    case Burst(i) => Sending(s, Crank(i))
    case StartFills(i, pending) => WithStatus(s, i, Running(Filling(MinInt(pending, MAX_FILLS))))
    case SendFill(i) =>
      WithStatus(Sending(s, Fill(i)), i, Running(AwaitingFill(|s.sends|, s.jobs[i].status.phase.left - 1)))
    case End(i, ok) => WithStatus(s, i, Settled(ok))
    case Land(k) => s.(inflight := s.inflight - {k}, landed := s.landed + [k])
    case Drop(k) => s.(inflight := s.inflight - {k})
  }

  const START := State([], None, [], {}, [])

  ghost predicate Steps(ss: seq<State>, es: seq<Event>) {
    && |ss| == |es| + 1
    && forall i | 0 <= i < |es| :: Enabled(ss[i], es[i]) && ss[i + 1] == After(ss[i], es[i])
  }

  ghost predicate IsRun(ss: seq<State>, es: seq<Event>) { Steps(ss, es) && ss[0] == START }

  /** How many cranks the first `n` bursts hold. */
  ghost function Bursts(lags: nat -> Option<nat>, n: nat): nat {
    if n == 0 then 0
    else Bursts(lags, n - 1) + (match lags(n - 1) case None => 0 case Some(lag) => if lag > 22_950 then 256 else (lag + 89) / 90 + 1)
  }

  lemma BurstsNext(lags: nat -> Option<nat>, n: nat, lag: nat)
    requires lags(n) == Some(lag)
    ensures Bursts(lags, n + 1) == Bursts(lags, n) + if lag > 22_950 then 256 else (lag + 89) / 90 + 1
  {}

  lemma NoBursts(lags: nat -> Option<nat>)
    ensures Bursts(lags, 0) == 0
  {}

  lemma CrankedAfter(lags: nat -> Option<nat>, n: nat, ok: bool)
    requires n <= 12 && (forall r: nat | r < n :: lags(r).Some? && 0 < lags(r).value)
    requires lags(0).Some? ==> lags(0).value <= DEEP_DEBT
    requires ok <==> lags(n).Some?
    requires n == 12 || lags(n).None? || lags(n).value == 0
    ensures Cranked(12, lags, n, 1 + Bursts(lags, n), ok)
  {}

  /** The cranks a job sends: the first one, and after it a burst for each time the lag was read and still positive,
      `rounds` at most, none on a deep debt. It comes through unless the first was lost or a read threw. */
  ghost predicate Cranked(rounds: nat, lags: nat -> Option<nat>, bursts: nat, cranks: int, ok: bool) {
    && cranks == 1 + Bursts(lags, bursts) && bursts <= rounds
    && (forall r: nat | r < bursts :: lags(r).Some? && 0 < lags(r).value && lags(0).Some? && lags(0).value <= 50_000)
    && (ok ==> lags(bursts).Some? && (bursts == rounds || lags(bursts).value == 0 || lags(0).value > 50_000))
    && (!ok ==> bursts == 0 || lags(bursts).None?)
  }

  /** A market's turn of the catch-up: none if it is current or hopelessly behind, else as a job cranks, in up to
      two hundred rounds. */
  ghost predicate CaughtUp(start: nat, lags: nat -> Option<nat>, bursts: nat, cranks: int, ok: bool) {
    if start == 0 || start > 2_000_000 then cranks == bursts == 0 && ok else Cranked(200, lags, bursts, cranks, ok)
  }

  /** The fills it sends: one for each read that showed some left, until one shows none or four are out. */
  ghost predicate Filled(pending: nat, book: nat -> Option<bool>, fills: int, ok: bool) {
    var most := if pending < 4 then pending else 4;
    && 0 <= fills <= most && (forall i: nat | i < fills :: book(i) == Some(false))
    && (ok ==> fills == most || book(fills) == Some(true))
  }

  // ── the keeper's code ─────────────────────────────────────────────────────

  /** The keeper's own variable and the events that move it. */
  class Keeper {
    var riskTail: Option<nat>
    var jobs: seq<Job>
    var sends: seq<Act>
    var inflight: set<nat>
    var landed: seq<nat>

    constructor ()
      ensures Now() == START
    {
      riskTail, jobs, sends, inflight, landed := None, [], [], {}, [];
    }

    ghost function Now(): State
      reads this
    {
      State(jobs, riskTail, sends, inflight, landed)
    }

    /** Before any job: the markets that lag, but not hopelessly, are cranked one after the other; a throw ends
        only its own market's turn. `starts` is what each market's lag reads at first. */
    method CatchUpAll(starts: seq<nat>, lags: nat -> nat -> Option<nat>, ghost ss: seq<State>, ghost es: seq<Event>)
      returns (ghost turns: seq<int>, ghost bursts: seq<nat>, ghost oks: seq<bool>, ghost ss': seq<State>, ghost es': seq<Event>)
      requires Traced(ss, es) && jobs == []
      modifies this
      ensures Traced(ss', es') && ss <= ss' && es <= es' && jobs == []
      ensures old(sends) <= sends && forall k | |old(sends)| <= k < |sends| :: sends[k] == CatchUpCrank
      ensures |turns| == |bursts| + 1 == |oks| + 1 == |starts| + 1 && turns[0] == |old(sends)| && turns[|starts|] == |sends|
      ensures forall m: nat | m < |starts| :: CaughtUp(starts[m], lags(m), bursts[m], turns[m + 1] - turns[m], oks[m])
      ensures forall m: nat | m < |starts| && turns[m] < turns[m + 1] && (oks[m] || bursts[m] > 0) :: turns[m] in landed
    {
      hide Steps, Traced, CaughtUp;
      ss', es', turns, bursts, oks := ss, es, [|sends|], [], [];
      for m := 0 to |starts|
        invariant Traced(ss', es') && ss <= ss' && es <= es' && jobs == []
        invariant old(sends) <= sends && forall k | |old(sends)| <= k < |sends| :: sends[k] == CatchUpCrank
        invariant |turns| == m + 1 && |bursts| == |oks| == m && turns[0] == |old(sends)| && turns[m] == |sends|
        invariant forall j: nat | j < m :: CaughtUp(starts[j], lags(j), bursts[j], turns[j + 1] - turns[j], oks[j])
        invariant forall j: nat | j < m && turns[j] < turns[j + 1] && (oks[j] || bursts[j] > 0) :: turns[j] in landed
      {
        var ok;
        ghost var n;
        ok, n, ss', es' := CatchUpOne(starts[m], lags(m), ss', es');
        turns, bursts, oks := turns + [|sends|], bursts + [n], oks + [ok];
      }
    }

    method CatchUpOne(start: nat, lags: nat -> Option<nat>, ghost ss: seq<State>, ghost es: seq<Event>)
      returns (ok: bool, ghost bursts: nat, ghost ss': seq<State>, ghost es': seq<Event>)
      requires Traced(ss, es) && jobs == []
      modifies this
      ensures Traced(ss', es') && ss <= ss' && es <= es' && jobs == []
      ensures old(sends) <= sends && forall k | |old(sends)| <= k < |sends| :: sends[k] == CatchUpCrank
      ensures CaughtUp(start, lags, bursts, |sends| - |old(sends)|, ok)
      // It goes on exactly when its first crank was seen to land.
      ensures |old(sends)| < |sends| && (ok || bursts > 0) ==> |old(sends)| in landed
      ensures |old(sends)| < |sends| && |old(sends)| in landed && lags(0).Some? ==> ok || bursts > 0
      ensures forall k | k in old(landed) :: k in landed
    {
      hide Steps, Traced, After, Enabled, Bursts;
      ok, bursts, ss', es' := true, 0, ss, es;
      if start == 0 || start > HOPELESS { return; }
      NoBursts(lags);
      var first := |sends|;
      ss', es' := SendCatchUps(1, ss', es');
      ss', es' := Settling(ss', es');
      ok := first in landed && lags(0).Some?;
      if !ok || lags(0).value > DEEP_DEBT { return; }
      var round := 0;
      while round < 200 && lags(round).Some? && lags(round).value > 0
        invariant round <= 200 && bursts == round
        invariant Traced(ss', es') && ss <= ss' && es <= es' && jobs == []
        invariant old(sends) <= sends && forall k | |old(sends)| <= k < |sends| :: sends[k] == CatchUpCrank
        invariant |sends| == |old(sends)| + 1 + Bursts(lags, round)
        invariant forall r: nat | r < round :: lags(r).Some? && 0 < lags(r).value
        invariant first in landed && forall k | k in old(landed) :: k in landed
      {
        BurstsNext(lags, round, lags(round).value);
        ss', es' := SendCatchUps(MinInt((lags(round).value + 89) / 90 + 1, 256), ss', es');
        ss', es' := Settling(ss', es');
        round, bursts := round + 1, bursts + 1;
      }
      ok := lags(round).Some?;
    }

    method SendCatchUps(count: nat, ghost ss: seq<State>, ghost es: seq<Event>) returns (ghost ss': seq<State>, ghost es': seq<Event>)
      requires Traced(ss, es) && jobs == []
      modifies this
      ensures Traced(ss', es') && ss <= ss' && es <= es' && jobs == []
      ensures old(sends) <= sends && |sends| == |old(sends)| + count && landed == old(landed)
      ensures forall k | |old(sends)| <= k < |sends| :: sends[k] == CatchUpCrank
    {
      hide Steps, Traced;
      ss', es' := ss, es;
      for k := 0 to count
        invariant Traced(ss', es') && ss <= ss' && es <= es' && jobs == []
        invariant old(sends) <= sends && |sends| == |old(sends)| + k && landed == old(landed)
        invariant forall k | |old(sends)| <= k < |sends| :: sends[k] == CatchUpCrank
      {
        ss', es' := Take(CatchUp, ss', es');
      }
    }

    /** Some of what is in flight lands or is lost. */
    method Settling(ghost ss: seq<State>, ghost es: seq<Event>) returns (ghost ss': seq<State>, ghost es': seq<Event>)
      requires Traced(ss, es)
      modifies this
      ensures Traced(ss', es') && ss <= ss' && es <= es' && jobs == old(jobs) && sends == old(sends)
      ensures forall k | k in old(landed) :: k in landed
    {
      hide Steps, Traced;
      ss', es' := ss, es;
      var most: nat := *;
      var n := Any(most);
      for k := 0 to n
        invariant Traced(ss', es') && ss <= ss' && es <= es' && jobs == old(jobs) && sends == old(sends)
        invariant forall k | k in old(landed) :: k in landed
      {
        var e: Event := *;
        if (e.Land? && e.sent in inflight) || (e.Drop? && e.sent in inflight) { ss', es' := Take(e, ss', es'); }
      }
    }

    /** `riskJob`: the new job hangs on the tail and becomes the tail. */
    method RiskJob(kind: Kind) returns (job: nat)
      modifies this
      ensures job == |old(jobs)| && Now() == After(old(Now()), Submit(kind))
    {
      job := |jobs|;
      jobs := jobs + [Job(kind, riskTail, Waiting)];
      riskTail := Some(job);
    }

    /** The continuation runs when the promise it waits for has settled. */
    method RunNext(i: nat) returns (began: bool)
      modifies this
      ensures began == MayBegin(old(Now()), i)
      ensures Now() == if began then After(old(Now()), Begin(i)) else old(Now())
    {
      began := i < |jobs| && jobs[i].status.Waiting?
               && (jobs[i].after.None? || (jobs[i].after.value < |jobs| && jobs[jobs[i].after.value].status.Settled?));
      if began { jobs := jobs[i := jobs[i].(status := Running(Probing))]; }
    }

    /** `ss` and `es` are a run that has come to where the keeper is. */
    ghost predicate Traced(ss: seq<State>, es: seq<Event>)
      reads this
    {
      Steps(ss, es) && ss[|es|] == Now()
    }

    /** One event of the process or of the network, written into the keeper's own fields. */
    method Take(e: Event, ghost ss: seq<State>, ghost es: seq<Event>) returns (ghost ss': seq<State>, ghost es': seq<Event>)
      requires Traced(ss, es) && Enabled(Now(), e)
      modifies this
      ensures Now() == After(old(Now()), e) && Traced(ss', es') && ss <= ss' && es <= es'
    {
      var s := After(State(jobs, riskTail, sends, inflight, landed), e);
      riskTail, jobs, sends, inflight, landed := s.tail, s.jobs, s.sends, s.inflight, s.landed;
      ss', es' := ss + [Now()], es + [e];
    }

    /** Between two awaits: transactions land or are lost, and more jobs are submitted. */
    method Others(ghost ss: seq<State>, ghost es: seq<Event>) returns (ghost ss': seq<State>, ghost es': seq<Event>)
      requires Traced(ss, es)
      modifies this
      ensures Traced(ss', es') && ss <= ss' && es <= es'
      ensures sends == old(sends) && old(jobs) <= jobs && forall k | k in old(landed) :: k in landed
    {
      hide Steps;
      ss', es' := ss, es;
      var most: nat := *;
      var n := Any(most);
      for k := 0 to n
        invariant Traced(ss', es') && ss <= ss' && es <= es'
        invariant sends == old(sends) && old(jobs) <= jobs && forall k | k in old(landed) :: k in landed
      {
        var e: Event := *;
        if (e.Land? && e.sent in inflight) || (e.Drop? && e.sent in inflight) || e.Submit? {
          ss', es' := Take(e, ss', es');
        }
      }
    }

    /** The body of a settle job: crank until current, then send the fills, at most four, each awaited. Any await
        may throw, which ends the job. */
    method Settle(j: nat, pending: nat, lags: nat -> Option<nat>, book: nat -> Option<bool>, answers: nat -> bool,
                  ghost ss: seq<State>, ghost es: seq<Event>)
      returns (ok: bool, ghost turn: nat, ghost bursts: nat, ghost cranked: bool, ghost ss': seq<State>, ghost es': seq<Event>)
      requires Traced(ss, es) && InPhase(Now(), j, Probing) && jobs[j].kind.SettleJob?
      modifies this
      ensures Traced(ss', es') && ss <= ss' && es <= es'
      ensures j < |jobs| && jobs[j].status == Settled(ok)
      ensures |old(sends)| < turn <= |sends| && old(sends) <= sends
      ensures forall k | |old(sends)| <= k < |sends| :: sends[k] == if k < turn then Crank(j) else Fill(j)
      ensures Cranked(12, lags, bursts, turn - |old(sends)|, cranked)
      ensures if cranked then Filled(pending, book, |sends| - turn, ok) else !ok && turn == |sends|
      // It is not sent on to its fills only because its first crank was not seen to land or a read threw.
      ensures cranked || bursts > 0 ==> |old(sends)| in landed
      ensures |old(sends)| in landed && lags(0).Some? ==> cranked || bursts > 0
    {
      hide Steps, After, Traced, Cranked, Filled;
      ghost var first := |sends|;
      ok, bursts, ss', es' := CrankUntilCurrent(j, lags, ss, es);
      turn, cranked := |sends|, ok;
      if ok { ok, ss', es' := Fills(j, pending, book, answers, ss', es'); }
    }

    /** The confirmed crank and the bursts, as long as the lag read after each is positive; a deep debt is left
        to the walk-off. */
    method CrankUntilCurrent(j: nat, lags: nat -> Option<nat>, ghost ss: seq<State>, ghost es: seq<Event>)
      returns (ok: bool, ghost bursts: nat, ghost ss': seq<State>, ghost es': seq<Event>)
      requires Traced(ss, es) && InPhase(Now(), j, Probing)
      modifies this
      ensures Traced(ss', es') && ss <= ss' && es <= es'
      ensures j < |jobs| && jobs[j].kind == old(jobs[j]).kind
      ensures jobs[j].status == if ok then Running(Bursting) else Settled(false)
      ensures old(sends) <= sends && forall k | |old(sends)| <= k < |sends| :: sends[k] == Crank(j)
      ensures |old(sends)| < |sends| && Cranked(12, lags, bursts, |sends| - |old(sends)|, ok)
      // It goes on exactly when its first crank was seen to land.
      ensures ok || bursts > 0 ==> |old(sends)| in landed
      ensures |old(sends)| in landed && lags(0).Some? ==> ok || bursts > 0
    {
      hide Steps, Traced;
      ss', es' := Take(Probe(j), ss, es);
      var sent := |sends| - 1;
      ss', es' := Others(ss', es');
      if sent !in landed {
        ss', es' := Take(End(j, false), ss', es');
        return false, 0, ss', es';
      }
      ss', es' := Take(Confirm(j), ss', es');
      if lags(0).Some? && lags(0).value > DEEP_DEBT { return true, 0, ss', es'; }
      ok, bursts, ss', es' := RunBursts(j, lags, ss', es');
    }

    /** The bursts of a job whose debt is not deep. */
    method RunBursts(j: nat, lags: nat -> Option<nat>, ghost ss: seq<State>, ghost es: seq<Event>)
      returns (ok: bool, ghost bursts: nat, ghost ss': seq<State>, ghost es': seq<Event>)
      requires Traced(ss, es) && InPhase(Now(), j, Bursting) && (lags(0).Some? ==> lags(0).value <= DEEP_DEBT)
      modifies this
      ensures Traced(ss', es') && ss <= ss' && es <= es'
      ensures j < |jobs| && jobs[j].kind == old(jobs[j]).kind
      ensures jobs[j].status == if ok then Running(Bursting) else Settled(false)
      ensures old(sends) <= sends && forall k | |old(sends)| <= k < |sends| :: sends[k] == Crank(j)
      ensures Cranked(12, lags, bursts, 1 + |sends| - |old(sends)|, ok) && (lags(0).Some? ==> ok || bursts > 0)
      ensures forall k | k in old(landed) :: k in landed
    {
      hide Steps, Traced, After, Bursts, Cranked, Enabled;
      NoBursts(lags);
      ss', es', bursts := ss, es, 0;
      var round := 0;
      while round < 12 && lags(round).Some? && lags(round).value > 0
        invariant round <= 12 && bursts == round
        invariant Traced(ss', es') && ss <= ss' && es <= es'
        invariant InPhase(Now(), j, Bursting) && jobs[j].kind == old(jobs[j]).kind
        invariant old(sends) <= sends && forall k | |old(sends)| <= k < |sends| :: sends[k] == Crank(j)
        invariant |sends| == |old(sends)| + Bursts(lags, round)
        invariant forall r: nat | r < round :: lags(r).Some? && 0 < lags(r).value
        invariant forall k | k in old(landed) :: k in landed
      {
        BurstsNext(lags, round, lags(round).value);
        ss', es' := OneRound(j, lags(round).value, ss', es');
        round, bursts := round + 1, bursts + 1;
      }
      ok := lags(round).Some?;
      CrankedAfter(lags, bursts, ok);
      if !ok { ss', es' := EndNow(j, false, ss', es'); }
    }

    method OneRound(j: nat, lag: nat, ghost ss: seq<State>, ghost es: seq<Event>) returns (ghost ss': seq<State>, ghost es': seq<Event>)
      requires Traced(ss, es) && InPhase(Now(), j, Bursting) && lag > 0
      modifies this
      ensures Traced(ss', es') && ss <= ss' && es <= es'
      ensures InPhase(Now(), j, Bursting) && jobs[j].kind == old(jobs[j]).kind
      ensures old(sends) <= sends && forall k | |old(sends)| <= k < |sends| :: sends[k] == Crank(j)
      ensures |sends| == |old(sends)| + if lag > 22_950 then 256 else (lag + 89) / 90 + 1
      ensures forall k | k in old(landed) :: k in landed
    {
      hide Steps, Traced, After, Enabled;
      ss', es' := SendBurst(j, lag, ss, es);
      ss', es' := Others(ss', es');
    }

    method EndNow(j: nat, ok: bool, ghost ss: seq<State>, ghost es: seq<Event>) returns (ghost ss': seq<State>, ghost es': seq<Event>)
      requires Traced(ss, es) && IsRunning(Now(), j)
      modifies this
      ensures Traced(ss', es') && ss <= ss' && es <= es' && sends == old(sends) && |jobs| == |old(jobs)|
      ensures jobs[j].status == Settled(ok) && jobs[j].kind == old(jobs[j]).kind && landed == old(landed)
    {
      hide Steps, Traced;
      ss', es' := Take(End(j, ok), ss, es);
    }

    /** A burst sized to the lag, sent without waiting for any of it. */
    method SendBurst(j: nat, lag: nat, ghost ss: seq<State>, ghost es: seq<Event>) returns (ghost ss': seq<State>, ghost es': seq<Event>)
      requires Traced(ss, es) && InPhase(Now(), j, Bursting) && lag > 0
      modifies this
      ensures Traced(ss', es') && ss <= ss' && es <= es' && jobs == old(jobs)
      ensures old(sends) <= sends && forall k | |old(sends)| <= k < |sends| :: sends[k] == Crank(j)
      ensures |sends| == |old(sends)| + (if lag > 22_950 then 256 else (lag + 89) / 90 + 1) && landed == old(landed)
    {
      hide Steps, Traced;
      ss', es' := ss, es;
      var size := MinInt((lag + 89) / 90 + 1, 256);
      for k := 0 to size
        invariant Traced(ss', es') && ss <= ss' && es <= es' && jobs == old(jobs)
        invariant old(sends) <= sends && forall k | |old(sends)| <= k < |sends| :: sends[k] == Crank(j)
        invariant |sends| == |old(sends)| + k && landed == old(landed)
      {
        ss', es' := Take(Burst(j), ss', es');
      }
    }

    /** The fills of a settle job, one at a time, as long as the book still holds any. `book` is what the read
        before each fill says, `answers` whether the one after it came back. */
    method Fills(j: nat, pending: nat, book: nat -> Option<bool>, answers: nat -> bool, ghost ss: seq<State>, ghost es: seq<Event>)
      returns (ok: bool, ghost ss': seq<State>, ghost es': seq<Event>)
      requires Traced(ss, es) && InPhase(Now(), j, Bursting) && jobs[j].kind.SettleJob?
      modifies this
      ensures Traced(ss', es') && ss <= ss' && es <= es'
      ensures j < |jobs| && jobs[j].status == Settled(ok) && old(sends) <= sends
      ensures forall k | |old(sends)| <= k < |sends| :: sends[k] == Fill(j)
      ensures Filled(pending, book, |sends| - |old(sends)|, ok)
      ensures ok ==> forall i: nat | i < |sends| - |old(sends)| :: answers(i)
      ensures ok ==> forall p: nat | |old(sends)| <= p < |sends| :: p in landed
      ensures forall k | k in old(landed) :: k in landed
      ensures !ok && |sends| - |old(sends)| < MinInt(pending, 4) && book(|sends| - |old(sends)|) != None ==>
        |sends| > |old(sends)| && !(answers(|sends| - |old(sends)| - 1) && |sends| - 1 in landed)
    {
      hide Steps, Traced, After, Enabled;
      ss', es' := BeginFills(j, pending, ss, es);
      var n := MinInt(pending, MAX_FILLS);
      for i := 0 to n
        invariant Traced(ss', es') && ss <= ss' && es <= es'
        invariant InPhase(Now(), j, Filling(n - i))
        invariant |sends| == |old(sends)| + i && old(sends) <= sends
        invariant forall k | |old(sends)| <= k < |sends| :: sends[k] == Fill(j)
        invariant forall k: nat | k < i :: book(k) == Some(false) && answers(k)
        invariant forall p: nat | |old(sends)| <= p < |sends| :: p in landed
        invariant forall k | k in old(landed) :: k in landed
      {
        if book(i) == Some(true) { break; }
        if book(i) == None {
          ss', es' := EndNow(j, false, ss', es');
          return false, ss', es';
        }
        assert book(i) == Some(false) by { assert book(i).Some? && !book(i).value; }
        ok, ss', es' := OneFill(j, n - i, answers(i), ss', es');
        if !ok { return; }
      }
      ok := true;
      ss', es' := EndNow(j, true, ss', es');
    }

    method BeginFills(j: nat, pending: nat, ghost ss: seq<State>, ghost es: seq<Event>) returns (ghost ss': seq<State>, ghost es': seq<Event>)
      requires Traced(ss, es) && InPhase(Now(), j, Bursting) && jobs[j].kind.SettleJob?
      modifies this
      ensures Traced(ss', es') && ss <= ss' && es <= es' && sends == old(sends) && landed == old(landed)
      ensures InPhase(Now(), j, Filling(MinInt(pending, 4)))
    {
      hide Steps, Traced;
      ss', es' := Take(StartFills(j, pending), ss, es);
    }

    method OneFill(j: nat, left: nat, answers: bool, ghost ss: seq<State>, ghost es: seq<Event>)
      returns (ok: bool, ghost ss': seq<State>, ghost es': seq<Event>)
      requires Traced(ss, es) && InPhase(Now(), j, Filling(left)) && left > 0
      modifies this
      ensures Traced(ss', es') && ss <= ss' && es <= es' && sends == old(sends) + [Fill(j)]
      ensures j < |jobs| && jobs[j].status == if ok then Running(Filling(left - 1)) else Settled(false)
      ensures forall k | k in old(landed) :: k in landed
      ensures ok <==> answers && |old(sends)| in landed
    {
      hide Steps, Traced;
      var sent := |sends|;
      ss', es' := Others(ss, es);
      ss', es' := Take(SendFill(j), ss', es');
      ss', es' := Others(ss', es');
      ok := answers && sent in landed;
      if ok {
        ss', es' := Take(Confirm(j), ss', es');
      } else {
        ss', es' := Take(End(j, false), ss', es');
      }
    }
  }

  method Any(most: nat) returns (n: nat)
    ensures n <= most
  {
    var k: int := *;
    n := if 0 <= k <= most then k else 0;
  }

  // ── what the chain keeps of sends ─────────────────────────────────────────

  ghost predicate Inv(s: State) {
    && s.tail == (if s.jobs == [] then None else Some(|s.jobs| - 1))
    && (forall i | 0 <= i < |s.jobs| :: s.jobs[i].after == if i == 0 then None else Some(i - 1))
    && (forall i, j | 0 <= i < j < |s.jobs| && !s.jobs[j].status.Waiting? :: s.jobs[i].status.Settled?)
    && (forall p | 0 <= p < |s.sends| :: Recorded(s, s.sends[p]))
    && (forall p, q | 0 <= p < q < |s.sends| :: InOrder(s.sends[p], s.sends[q]))
    && (forall k | k in s.inflight :: k < |s.sends|)
    && (forall i | 0 <= i < |s.jobs| && IsFilling(s, i) :: s.jobs[i].kind == SettleJob)
  }

  ghost predicate Recorded(s: State, a: Act) {
    a.CatchUpCrank? ||
    (&& a.job < |s.jobs| && !s.jobs[a.job].status.Waiting?
     && (a.Fill? && s.jobs[a.job].status.Running? ==> IsFilling(s, a.job)))
  }

  /** The catch-up first, then job by job, and within a job every crank before every fill. */
  ghost predicate InOrder(a: Act, b: Act) {
    a.CatchUpCrank? || (!b.CatchUpCrank? && (a.job < b.job || (a.job == b.job && (a.Fill? ==> b.Fill?))))
  }

  lemma StepKeeps(s: State, e: Event)
    requires Inv(s) && Enabled(s, e)
    ensures Inv(After(s, e))
  {
    StaysRecorded(s, e);
    SendsKeepOrder(s, e);
    FillsStaySettles(s, e);
    hide InOrder, Recorded, IsFilling;
  }

  lemma StaysRecorded(s: State, e: Event)
    requires Inv(s) && Enabled(s, e)
    ensures var s' := After(s, e); forall p | 0 <= p < |s'.sends| :: Recorded(s', s'.sends[p])
  {
    var s' := After(s, e);
    hide InOrder;
    forall p | 0 <= p < |s'.sends| ensures Recorded(s', s'.sends[p]) {
      if p < |s.sends| { assert Recorded(s, s.sends[p]); }
    }
  }

  lemma FillsStaySettles(s: State, e: Event)
    requires Inv(s) && Enabled(s, e)
    ensures var s' := After(s, e); forall i | 0 <= i < |s'.jobs| && IsFilling(s', i) :: s'.jobs[i].kind == SettleJob
  {
    var s' := After(s, e);
    hide InOrder, Recorded;
    forall i | 0 <= i < |s'.jobs| && IsFilling(s', i) ensures s'.jobs[i].kind == SettleJob {
      if i < |s.jobs| && IsFilling(s, i) { assert s.jobs[i].kind == SettleJob; }
    }
  }

  lemma SendsKeepOrder(s: State, e: Event)
    requires Inv(s) && Enabled(s, e)
    ensures var t := After(s, e).sends; forall p, q | 0 <= p < q < |t| :: InOrder(t[p], t[q])
  {
    match e {
      case CatchUp => NothingButCatchUp(s);
      case Probe(i) => LastIsLatest(s, i, Crank(i));
      case Burst(i) => LastIsLatest(s, i, Crank(i));
      case SendFill(i) => LastIsLatest(s, i, Fill(i));
      case _ =>
    }
    hide InOrder, Recorded;
  }

  lemma NothingButCatchUp(s: State)
    requires Inv(s) && s.jobs == []
    ensures forall p | 0 <= p < |s.sends| :: InOrder(s.sends[p], CatchUpCrank)
  {
    forall p | 0 <= p < |s.sends| ensures InOrder(s.sends[p], CatchUpCrank) {
      assert Recorded(s, s.sends[p]);
    }
  }

  /** Nothing of a later job can have been sent while an earlier one is still running. */
  lemma LastIsLatest(s: State, i: nat, a: Act)
    requires Inv(s) && IsRunning(s, i) && !a.CatchUpCrank? && a.job == i && (a.Crank? ==> !IsFilling(s, i))
    ensures forall p | 0 <= p < |s.sends| :: InOrder(s.sends[p], a)
  {
    forall p | 0 <= p < |s.sends| ensures InOrder(s.sends[p], a) {
      assert Recorded(s, s.sends[p]);
    }
  }

  /** One job at a time, in submission order, over every run. */
  lemma {:induction false} JobsRunInOrder(ss: seq<State>, es: seq<Event>)
    requires IsRun(ss, es)
    ensures Inv(ss[|es|])
    ensures forall i | 0 <= i < |ss[|es|].jobs| && IsFilling(ss[|es|], i) :: ss[|es|].jobs[i].kind == SettleJob
    ensures forall i, j | 0 <= i < |ss[|es|].jobs| && 0 <= j < |ss[|es|].jobs| ::
      IsRunning(ss[|es|], i) && IsRunning(ss[|es|], j) ==> i == j
  {
    if es != [] {
      var n := |es| - 1;
      assert IsRun(ss[..|es|], es[..n]);
      JobsRunInOrder(ss[..|es|], es[..n]);
      assert Enabled(ss[n], es[n]) && ss[|es|] == After(ss[n], es[n]);
      StepKeeps(ss[n], es[n]);
    }
  }

  /** Of sends: between a settle job's crank and any of its fills nothing is sent by another job, and after
      its first fill it sends no crank. */
  lemma NoCrankSentBetween(ss: seq<State>, es: seq<Event>, p: nat, q: nat, r: nat)
    requires IsRun(ss, es)
    requires var t := ss[|es|].sends; p < q < r < |t| && !t[p].CatchUpCrank? && t[r].Fill? && t[p].job == t[r].job
    ensures var t := ss[|es|].sends; !t[q].CatchUpCrank? && t[q].job == t[r].job && (t[p].Fill? ==> t[q].Fill?)
  {
    JobsRunInOrder(ss, es);
    var t := ss[|es|].sends;
    assert InOrder(t[p], t[q]) && InOrder(t[q], t[r]);
  }

  /** A rejected job never blocks its successors: whatever the outcomes so far, the first job that
      has not settled is running or may start at once. */
  lemma NeverBlocked(s: State, i: nat)
    requires Inv(s) && i < |s.jobs| && !s.jobs[i].status.Settled?
    requires forall j | 0 <= j < i :: s.jobs[j].status.Settled?
    ensures IsRunning(s, i) || MayBegin(s, i)
    ensures forall k | i < k < |s.jobs| :: !MayBegin(s, k) && !IsRunning(s, k)
  {}

  // ── what it keeps of landings ─────────────────────────────────────────────

  ghost predicate Lands(s: State, e: Event, bad: Act -> bool) {
    e.Land? && e.sent < |s.sends| && bad(s.sends[e.sent])
  }

  ghost predicate Clear(s: State, bad: Act -> bool) {
    forall k | k in s.inflight && k < |s.sends| :: !bad(s.sends[k])
  }

  /** However the run goes on while job `b` fills, nothing `bad` lands. */
  ghost predicate Undisturbed(s: State, b: nat, bad: Act -> bool) {
    forall ss, es | Steps(ss, es) && ss[0] == s && RunningAll(ss, b) ::
      forall i | 0 <= i < |es| :: !Lands(ss[i], es[i], bad)
  }

  ghost predicate RunningAll(ss: seq<State>, b: nat) { forall i | 0 <= i < |ss| :: IsRunning(ss[i], b) }

  /** While a job fills, the only thing anybody sends is its next fill. */
  lemma FillingStep(s: State, e: Event, b: nat, bad: Act -> bool)
    requires Inv(s) && Enabled(s, e) && IsFilling(s, b) && IsRunning(After(s, e), b) && !bad(Fill(b)) && Clear(s, bad)
    ensures IsFilling(After(s, e), b) && Clear(After(s, e), bad) && !Lands(s, e, bad)
  {
    match e {
      case Begin(i) =>
      case _ =>
    }
  }

  lemma {:induction false} FillingRun(ss: seq<State>, es: seq<Event>, b: nat, bad: Act -> bool)
    requires Steps(ss, es) && Inv(ss[0]) && IsFilling(ss[0], b) && RunningAll(ss, b) && !bad(Fill(b)) && Clear(ss[0], bad)
    ensures Inv(ss[|es|]) && IsFilling(ss[|es|], b) && Clear(ss[|es|], bad)
    ensures forall i | 0 <= i < |es| :: !Lands(ss[i], es[i], bad)
  {
    if es != [] {
      var n := |es| - 1;
      assert Steps(ss[..|es|], es[..n]) && RunningAll(ss[..|es|], b);
      FillingRun(ss[..|es|], es[..n], b, bad);
      assert Enabled(ss[n], es[n]) && ss[|es|] == After(ss[n], es[n]);
      StepKeeps(ss[n], es[n]);
      FillingStep(ss[n], es[n], b, bad);
      forall i | 0 <= i < n ensures !Lands(ss[i], es[i], bad) {
        assert !Lands(ss[..|es|][i], es[..n][i], bad);
      }
    }
  }

  lemma UndisturbedIff(s: State, b: nat, bad: Act -> bool)
    requires Inv(s) && IsFilling(s, b) && !bad(Fill(b))
    ensures Undisturbed(s, b, bad) <==> Clear(s, bad)
  {
    if Clear(s, bad) {
      forall ss, es | Steps(ss, es) && ss[0] == s && RunningAll(ss, b)
        ensures forall i | 0 <= i < |es| :: !Lands(ss[i], es[i], bad)
      {
        FillingRun(ss, es, b, bad);
      }
    } else {
      var k :| k in s.inflight && k < |s.sends| && bad(s.sends[k]);
      MayLand(s, k, b, bad);
    }
  }

  lemma MayLand(s: State, k: nat, b: nat, bad: Act -> bool)
    requires k in s.inflight && k < |s.sends| && bad(s.sends[k]) && IsRunning(s, b)
    ensures !Undisturbed(s, b, bad)
  {
    var ss, es := [s, After(s, Land(k))], [Land(k)];
    assert Steps(ss, es) && ss[0] == s && RunningAll(ss, b);
    assert Lands(ss[0], es[0], bad);
  }

  /** Of landings: while a settle job is at its fills no crank can land, whoever sent it, exactly when no crank
      is in flight as it comes to them; and nothing but its own fills can, exactly when nothing else is. */
  lemma NoCrankLandsIff(ss: seq<State>, es: seq<Event>, b: nat)
    requires IsRun(ss, es) && IsFilling(ss[|es|], b)
    ensures Undisturbed(ss[|es|], b, IsCrank)
       <==> forall k | k in ss[|es|].inflight && k < |ss[|es|].sends| :: !IsCrank(ss[|es|].sends[k])
    ensures Undisturbed(ss[|es|], b, (a: Act) => a != Fill(b))
       <==> forall k | k in ss[|es|].inflight && k < |ss[|es|].sends| :: ss[|es|].sends[k] == Fill(b)
  {
    JobsRunInOrder(ss, es);
    UndisturbedIff(ss[|es|], b, IsCrank);
    UndisturbedIff(ss[|es|], b, (a: Act) => a != Fill(b));
  }

  ghost predicate Reachable(s: State) { exists ss, es :: IsRun(ss, es) && ss[|es|] == s }

  lemma ReachStep(s: State, e: Event)
    requires Reachable(s) && Enabled(s, e)
    ensures Reachable(After(s, e))
  {
    var ss, es :| IsRun(ss, es) && ss[|es|] == s;
    assert IsRun(ss + [After(s, e)], es + [e]);
  }

  /** The exception is no idle one: a pipelined crank of a job that is over can still be in flight when the
      next job comes to its fills. */
  lemma StragglerReachable() returns (s: State)
    ensures Reachable(s) && IsFilling(s, 1) && s.jobs[1].kind.SettleJob? && s.jobs[0].status.Settled?
    ensures 1 in s.inflight && |s.sends| == 3 && s.sends[1] == Crank(0)
    ensures !Undisturbed(s, 1, IsCrank)
  {
    assert Reachable(START) by { assert IsRun([START], []); }
    var first, second := Job(CrankJob, None, Waiting), Job(SettleJob, Some(0), Waiting);
    ReachStep(START, Submit(CrankJob));
    ReachStep(State([first], Some(0), [], {}, []), Submit(SettleJob));
    var s0 := State([first, second], Some(1), [], {}, []);
    assert Reachable(s0);
    var s1 := OneCrankLeft(s0);
    s := ThenFills(s1);
    assert s.sends[1] == Crank(0);
    MayLand(s, 1, 1, IsCrank);
  }

  lemma OneCrankLeft(s0: State) returns (s: State)
    requires Reachable(s0)
    requires s0 == State([Job(CrankJob, None, Waiting), Job(SettleJob, Some(0), Waiting)], Some(1), [], {}, [])
    ensures Reachable(s)
    ensures s == State([Job(CrankJob, None, Settled(true)), Job(SettleJob, Some(0), Waiting)], Some(1), [Crank(0), Crank(0)], {1}, [0])
  {
    hide Reachable;
    s := s0;
    ReachStep(s, Begin(0));
    s := After(s, Begin(0));
    ReachStep(s, Probe(0));
    s := After(s, Probe(0));
    ReachStep(s, Land(0));
    s := After(s, Land(0));
    ReachStep(s, Confirm(0));
    s := After(s, Confirm(0));
    ReachStep(s, Burst(0));
    s := After(s, Burst(0));
    ReachStep(s, End(0, true));
    s := After(s, End(0, true));
  }

  lemma ThenFills(s0: State) returns (s: State)
    requires Reachable(s0)
    requires s0 == State([Job(CrankJob, None, Settled(true)), Job(SettleJob, Some(0), Waiting)], Some(1), [Crank(0), Crank(0)], {1}, [0])
    ensures Reachable(s) && IsFilling(s, 1) && |s.jobs| == 2 && s.jobs[1].kind.SettleJob? && s.jobs[0].status.Settled?
    ensures s.inflight == {1} && s.sends == [Crank(0), Crank(0), Crank(1)]
  {
    hide Reachable;
    s := s0;
    ReachStep(s, Begin(1));
    s := After(s, Begin(1));
    ReachStep(s, Probe(1));
    s := After(s, Probe(1));
    ReachStep(s, Land(2));
    s := After(s, Land(2));
    ReachStep(s, Confirm(1));
    s := After(s, Confirm(1));
    ReachStep(s, StartFills(1, 1));
    s := After(s, StartFills(1, 1));
  }

  /** Nor need it be a job's: a crank of the catch-up can still be in flight when the first job of all comes to
      its fills. */
  lemma CatchUpStraggler() returns (s: State)
    ensures Reachable(s) && IsFilling(s, 0) && s.jobs[0].kind.SettleJob?
    ensures s.inflight == {0} && s.sends == [CatchUpCrank, Crank(0)]
    ensures !Undisturbed(s, 0, IsCrank)
  {
    assert Reachable(START) by { assert IsRun([START], []); }
    s := FirstJobFills();
    MayLand(s, 0, 0, IsCrank);
  }

  lemma FirstJobFills() returns (s: State)
    requires Reachable(START)
    ensures Reachable(s) && IsFilling(s, 0) && |s.jobs| == 1 && s.jobs[0].kind.SettleJob?
    ensures s.inflight == {0} && s.sends == [CatchUpCrank, Crank(0)]
  {
    hide Reachable;
    s := START;
    ReachStep(s, CatchUp);
    s := After(s, CatchUp);
    ReachStep(s, Submit(SettleJob));
    s := After(s, Submit(SettleJob));
    ReachStep(s, Begin(0));
    s := After(s, Begin(0));
    ReachStep(s, Probe(0));
    s := After(s, Probe(0));
    ReachStep(s, Land(1));
    s := After(s, Land(1));
    ReachStep(s, Confirm(0));
    s := After(s, Confirm(0));
    ReachStep(s, StartFills(0, 1));
    s := After(s, StartFills(0, 1));
  }
}
