/** The base-layer request limiter: a counter, a queue of resolvers, and a retry loop that holds its
    slot from the first attempt to the last. */
module Limiter {
  import opened Prelude

  /** What one attempt came back with; `retryAfter` is the header as a number of seconds, if it is one. */
  datatype Reply = Thrown | Status(code: int, retryAfter: Option<real>)

  predicate Retryable(r: Reply) { r.Thrown? || r.code == 429 || 500 <= r.code < 600 }

  /** `backoffMs`, with the random draw as an argument. */
  function BackoffMs(attempt: nat, retryAfter: Option<real>, random: real): real {
    if retryAfter.Some? && retryAfter.value * 1000.0 > 0.0 then MinReal(retryAfter.value * 1000.0, 15000.0)
    else
      var base := MinReal(500.0 * Pow(2.0, attempt), 8000.0);
      base + random * base
  }

  lemma {:induction false} PowAtLeastOne(n: nat)
    ensures Pow(2.0, n) >= 1.0
  {
    if n > 0 { PowAtLeastOne(n - 1); }
  }

  /** A wait is never longer than sixteen seconds, and never longer than fifteen when the server named
      it (Retry-After as delay-seconds, section 10.2.3 of RFC 9110). */
  lemma BackoffBounded(attempt: nat, retryAfter: Option<real>, random: real)
    requires 0.0 <= random < 1.0
    ensures 0.0 < BackoffMs(attempt, retryAfter, random) < 16000.0
    ensures retryAfter.Some? && retryAfter.value > 0.0 ==> BackoffMs(attempt, retryAfter, random) <= 15000.0
  {
    PowAtLeastOne(attempt);
    var base := MinReal(500.0 * Pow(2.0, attempt), 8000.0);
    assert 0.0 < base <= 8000.0;
    if retryAfter.Some? && retryAfter.value > 0.0 {
      hide Pow;
      assert BackoffMs(attempt, retryAfter, random) == MinReal(retryAfter.value * 1000.0, 15000.0);
    } else {
      assert BackoffMs(attempt, retryAfter, random) == base + random * base;
      hide *;
      Jitter(base, random);
    }
  }

  lemma Jitter(base: real, random: real)
    requires 0.0 < base <= 8000.0 && 0.0 <= random < 1.0
    ensures 0.0 < base + random * base < 16000.0
  {
    assert base * (1.0 - random) > 0.0 && random * base >= 0.0;
  }

  /** The Retry-After header the backoff looks at; a transport failure carries none. */
  function Header(r: Reply): Option<real> { if r.Thrown? then None else r.retryAfter }

  /** A reply worth another attempt: none at all, a rate limit (section 4 of RFC 6585) or a server error (section
      15.6 of RFC 9110). */
  ghost predicate Passing(r: Reply) { r == Thrown || (r.Status? && (r.code == 429 || (500 <= r.code && r.code <= 599))) }

  /** The wait after attempt `k`, in milliseconds: the seconds the server named, up to fifteen, or half a second
      doubled with each attempt up to eight, and at most as much again. */
  ghost predicate WaitAfter(k: nat, r: Reply, wait: real) {
    if r.Status? && r.retryAfter.Some? && r.retryAfter.value > 0.0 then
      wait == if r.retryAfter.value < 15.0 then r.retryAfter.value * 1000.0 else 15000.0
    else
      var base := if k == 0 then 500.0 else if k == 1 then 1000.0 else if k == 2 then 2000.0 else if k == 3 then 4000.0 else 8000.0;
      base <= wait < 2.0 * base
  }

  lemma {:induction false} PowGrows(n: nat)
    requires n >= 4
    ensures Pow(2.0, n) >= 16.0
  {
    if n == 4 {
      assert Pow(2.0, 0) == 1.0 && Pow(2.0, 1) == 2.0 && Pow(2.0, 2) == 4.0 && Pow(2.0, 3) == 8.0;
    } else {
      PowGrows(n - 1);
    }
  }

  lemma BaseIs(k: nat)
    ensures MinReal(500.0 * Pow(2.0, k), 8000.0)
         == if k == 0 then 500.0 else if k == 1 then 1000.0 else if k == 2 then 2000.0 else if k == 3 then 4000.0 else 8000.0
  {
    if k >= 4 { PowGrows(k); }
    assert Pow(2.0, 0) == 1.0 && Pow(2.0, 1) == 2.0 && Pow(2.0, 2) == 4.0 && Pow(2.0, 3) == 8.0;
  }

  lemma BackoffIs(k: nat, r: Reply, random: real)
    requires 0.0 <= random < 1.0
    ensures WaitAfter(k, r, BackoffMs(k, Header(r), random))
  {
    BaseIs(k);
    hide Pow;
    var base := MinReal(500.0 * Pow(2.0, k), 8000.0);
    assert 0.0 <= random * base < base by { assert base * (1.0 - random) > 0.0 && random * base >= 0.0; }
  }

  /** The retry loop. It answers with the first reply that need not be retried, or with whatever the
      last permitted attempt brought. */
  method RetryingFetch(maxRetries: nat, replies: nat -> Reply, random: nat -> real)
    returns (r: Reply, attempts: nat, waits: seq<real>)
    requires forall k: nat :: 0.0 <= random(k) < 1.0
    ensures 1 <= attempts <= maxRetries + 1 && r == replies(attempts - 1)
    ensures forall k: nat | k < attempts - 1 :: Retryable(replies(k))
    ensures Retryable(r) ==> attempts == maxRetries + 1
    ensures |waits| == attempts - 1
    ensures forall k | 0 <= k < |waits| :: waits[k] == BackoffMs(k, Header(replies(k)), random(k)) && 0.0 < waits[k] < 16000.0
    ensures forall k: nat | k < attempts - 1 :: Passing(replies(k)) && WaitAfter(k, replies(k), waits[k])
    ensures Passing(r) ==> attempts == maxRetries + 1
  {
    hide WaitAfter, BackoffMs;
    var attempt := 0;
    waits := [];
    while true
      invariant 0 <= attempt <= maxRetries && |waits| == attempt
      invariant forall k: nat | k < attempt :: Retryable(replies(k))
      invariant forall k | 0 <= k < |waits| ::
                  waits[k] == BackoffMs(k, Header(replies(k)), random(k)) && 0.0 < waits[k] < 16000.0
      invariant forall k: nat | k < attempt :: WaitAfter(k, replies(k), waits[k])
      decreases maxRetries - attempt
    {
      r := replies(attempt);
      if !Retryable(r) || attempt >= maxRetries { return r, attempt + 1, waits; }
      BackoffBounded(attempt, Header(r), random(attempt));
      BackoffIs(attempt, r, random(attempt));
      waits := waits + [BackoffMs(attempt, Header(r), random(attempt))];
      attempt := attempt + 1;
    }
  }

  // ── the slots ─────────────────────────────────────────────────────────────

  /** Who holds a slot, who waits, and the order in which callers came, were let in and left. */
  datatype Slots = Slots(
    inflight: nat,
    queue: seq<nat>,
    holders: set<nat>,
    arrivals: seq<nat>,
    grants: seq<nat>,
    releases: seq<nat>)

  const IDLE := Slots(0, [], {}, [], [], [])

  function Acquired(max: nat, s: Slots, id: nat): Slots {
    if s.inflight < max then
      s.(inflight := s.inflight + 1, holders := s.holders + {id}, arrivals := s.arrivals + [id], grants := s.grants + [id])
    else
      s.(queue := s.queue + [id], arrivals := s.arrivals + [id])
  }

  /** A release hands the slot to the longest waiter without ever freeing it. */
  function Released(s: Slots, id: nat): Slots
    requires 0 < s.inflight
  {
    if s.queue != [] then
      s.(queue := s.queue[1..], holders := s.holders - {id} + {s.queue[0]}, grants := s.grants + [s.queue[0]],
         releases := s.releases + [id])
    else
      s.(inflight := s.inflight - 1, holders := s.holders - {id}, releases := s.releases + [id])
  }

  class Gate {
    const max: nat
    var inflight: nat
    var queue: seq<nat>
    ghost var ledger: Slots

    constructor (max: nat)
      ensures Tied() && ledger == IDLE && this.max == max
    {
      this.max := max;
      inflight, queue, ledger := 0, [], IDLE;
    }

    ghost predicate Tied()
      reads this
    {
      ledger.inflight == inflight && ledger.queue == queue
    }

    /** `acquire`: in at once while there is room, otherwise to the back of the queue. */
    method Acquire(id: nat) returns (granted: bool)
      requires Tied()
      modifies this
      ensures Tied() && ledger == Acquired(max, old(ledger), id) && granted == (old(inflight) < max)
    {
      ledger := Acquired(max, ledger, id);
      granted := inflight < max;
      if granted { inflight := inflight + 1; } else { queue := queue + [id]; }
    }

    /** `release`: resolve the next waiter, or give the slot back. */
    method Release(ghost id: nat) returns (next: Option<nat>)
      requires Tied() && 0 < inflight
      modifies this
      ensures Tied() && ledger == Released(old(ledger), id)
      ensures next == if old(queue) == [] then None else Some(old(queue)[0])
    {
      ledger := Released(ledger, id);
      if queue != [] {
        next := Some(queue[0]);
        queue := queue[1..];
      } else {
        next := None;
        inflight := inflight - 1;
      }
    }
  }

  // ── every interleaving ────────────────────────────────────────────────────

  /** A request waits for a slot, then fetches, attempt after attempt, then is over. */
  datatype Phase = Waiting | Fetching(attempt: nat) | Over(attempts: nat, reply: Reply)

  datatype World = World(slots: Slots, requests: map<nat, Phase>)

  datatype Event = Arrive(id: nat) | Answer(id: nat, reply: Reply)

  function Resumed(requests: map<nat, Phase>, s: Slots): map<nat, Phase> {
    map id | id in requests :: if requests[id].Waiting? && id in s.holders then Fetching(0) else requests[id]
  }

  ghost predicate Next(max: nat, maxRetries: nat, w: World, e: Event, w': World) {
    match e
    case Arrive(id) =>
      && id !in w.requests
      && w'.slots == Acquired(max, w.slots, id)
      && w'.requests == Resumed(w.requests[id := Waiting], w'.slots)
    case Answer(id, reply) =>
      && id in w.requests && w.requests[id].Fetching?
      && var n := w.requests[id].attempt;
         if Retryable(reply) && n < maxRetries then
           w' == World(w.slots, w.requests[id := Fetching(n + 1)])
         else
           && 0 < w.slots.inflight && w'.slots == Released(w.slots, id)
           && w'.requests == Resumed(w.requests[id := Over(n + 1, reply)], w'.slots)
  }

  /** An event moves nobody's phase but its own request's and that of the one it lets in. */
  lemma OthersStay(max: nat, maxRetries: nat, w: World, e: Event, w': World, id: nat)
    requires Next(max, maxRetries, w, e, w') && id in w.requests && id != e.id
    ensures id in w'.requests
    ensures w'.requests[id] == w.requests[id]
            || (w.requests[id] == Waiting && w'.requests[id] == Fetching(0) && id in w'.slots.holders)
  {}

  ghost predicate NoDuplicates(q: seq<nat>) { forall i, j | 0 <= i < j < |q| :: q[i] != q[j] }

  /** The slots are counted exactly, nobody queues while one is free, callers are let in from the front
      of the order they came in, and whoever was let in is either still inside or has left once. */
  ghost predicate SlotsInv(max: nat, s: Slots) {
    && s.inflight == |s.holders| <= max
    && (s.queue != [] ==> s.inflight == max)
    && s.arrivals == s.grants + s.queue && NoDuplicates(s.arrivals)
    && Accounted(s)
  }

  ghost predicate Accounted(s: Slots) {
    && NoDuplicates(s.releases)
    && (forall id :: id in s.grants <==> id in s.holders || id in s.releases)
    && (forall id | id in s.holders :: id !in s.releases)
  }

  ghost predicate Inv(max: nat, maxRetries: nat, w: World) {
    && SlotsInv(max, w.slots)
    && (forall id | id in w.requests :: Placed(maxRetries, w.slots, id, w.requests[id]))
    && (forall id | id in w.slots.arrivals :: id in w.requests)
  }

  /** A request is where its phase says: in the queue, in a slot, or out for good. */
  ghost predicate Placed(maxRetries: nat, s: Slots, id: nat, p: Phase) {
    match p
    case Waiting => id in s.queue
    case Fetching(n) => id in s.holders && n <= maxRetries
    case Over(n, r) => id in s.releases && 1 <= n <= maxRetries + 1 && (Passing(r) ==> n == maxRetries + 1)
  }

  /** Nobody who still waits has ever been let in. */
  lemma WaitersAreOutside(max: nat, s: Slots, id: nat)
    requires SlotsInv(max, s) && id in s.queue
    ensures id !in s.grants && id !in s.holders && id !in s.releases
  {
    var m :| 0 <= m < |s.queue| && s.queue[m] == id;
    assert s.arrivals[|s.grants| + m] == id;
    forall k | 0 <= k < |s.grants| ensures s.grants[k] != id {
      assert s.arrivals[k] == s.grants[k];
    }
  }

  lemma AppendDistinct(q: seq<nat>, id: nat)
    requires NoDuplicates(q) && id !in q
    ensures NoDuplicates(q + [id])
  {
  }

  lemma AcquireKeeps(max: nat, s: Slots, id: nat)
    requires SlotsInv(max, s) && id !in s.arrivals
    ensures SlotsInv(max, Acquired(max, s, id))
  {
    AppendDistinct(s.arrivals, id);
    hide NoDuplicates;
    var s' := Acquired(max, s, id);
    assert id !in s.grants && id !in s.holders;
    assert s'.arrivals == s'.grants + s'.queue;
  }

  lemma ReleaseKeeps(max: nat, s: Slots, id: nat)
    requires SlotsInv(max, s) && id in s.holders
    ensures 0 < s.inflight && SlotsInv(max, Released(s, id))
  {
    AppendDistinct(s.releases, id);
    if s.queue == [] {
      hide NoDuplicates;
      assert Accounted(Released(s, id));
    } else {
      WaitersAreOutside(max, s, s.queue[0]);
      hide NoDuplicates;
      var s' := Released(s, id);
      assert s'.arrivals == s'.grants + s'.queue;
      assert Accounted(s');
    }
  }

  lemma ArriveKeeps(max: nat, maxRetries: nat, w: World, id: nat, w': World)
    requires Inv(max, maxRetries, w) && Next(max, maxRetries, w, Arrive(id), w')
    ensures Inv(max, maxRetries, w')
  {
    var s, s' := w.slots, w'.slots;
    AcquireKeeps(max, s, id);
    hide SlotsInv;
    forall k | k in w'.requests ensures Placed(maxRetries, s', k, w'.requests[k]) {
      if k == id {
      } else {
        assert Placed(maxRetries, s, k, w.requests[k]);
      }
    }
  }

  lemma PassingIs(r: Reply)
    ensures Passing(r) <==> Retryable(r)
  {}

  lemma AnswerKeeps(max: nat, maxRetries: nat, w: World, id: nat, reply: Reply, w': World)
    requires Inv(max, maxRetries, w) && Next(max, maxRetries, w, Answer(id, reply), w')
    ensures Inv(max, maxRetries, w')
  {
    var s, s' := w.slots, w'.slots;
    assert Placed(maxRetries, s, id, w.requests[id]);
    ReleaseKeeps(max, s, id);
    PassingIs(reply);
    hide Passing, Retryable;
    assert id in s.arrivals;
    forall k | k in w'.requests ensures Placed(maxRetries, s', k, w'.requests[k]) {
      assert Placed(maxRetries, s, k, w.requests[k]);
      if k in s.queue { WaitersAreOutside(max, s, k); }
      hide SlotsInv, NoDuplicates;
    }
    assert forall k | k in s'.arrivals :: k in s.arrivals;
  }

  ghost predicate IsRun(max: nat, maxRetries: nat, ws: seq<World>, es: seq<Event>) {
    && |ws| == |es| + 1 && ws[0] == World(IDLE, map[])
    && forall i | 0 <= i < |es| :: Next(max, maxRetries, ws[i], es[i], ws[i + 1])
  }

  /** In every interleaving: holders are counted exactly and never exceed the ceiling, nobody waits
      while a slot is free, callers are let in strictly in the order they came, and each request takes
      and gives back one slot and makes at most one attempt more than its retries. */
  lemma {:induction false} EveryInterleaving(max: nat, maxRetries: nat, ws: seq<World>, es: seq<Event>)
    requires IsRun(max, maxRetries, ws, es)
    ensures Inv(max, maxRetries, ws[|es|])
  {
    if es != [] {
      var n := |es| - 1;
      assert IsRun(max, maxRetries, ws[..|es|], es[..n]);
      EveryInterleaving(max, maxRetries, ws[..|es|], es[..n]);
      match es[n] {
        case Arrive(id) => ArriveKeeps(max, maxRetries, ws[n], id, ws[|es|]);
        case Answer(id, reply) => AnswerKeeps(max, maxRetries, ws[n], id, reply, ws[|es|]);
      }
    }
  }

  /** No overtaking: whoever came earlier was let in earlier, and is let in whenever a later caller is. */
  lemma FirstComeFirstServed(max: nat, maxRetries: nat, w: World, i: nat, j: nat)
    requires Inv(max, maxRetries, w) && i < j < |w.slots.arrivals|
    requires w.slots.arrivals[j] in w.slots.grants
    ensures i < |w.slots.grants| && w.slots.grants[i] == w.slots.arrivals[i]
    ensures w.slots.arrivals[i] !in w.slots.queue
  {
    var s := w.slots;
    if |s.grants| <= j { WaitersAreOutside(max, s, s.queue[j - |s.grants|]); }
    assert s.grants[i] == s.arrivals[i];
    if s.arrivals[i] in s.queue { WaitersAreOutside(max, s, s.arrivals[i]); }
  }

  /** Once a request is over it took one slot and gave one back. */
  lemma OneSlotEach(max: nat, maxRetries: nat, w: World, id: nat)
    requires Inv(max, maxRetries, w) && id in w.requests && w.requests[id].Over?
    ensures multiset(w.slots.grants)[id] == 1 && multiset(w.slots.releases)[id] == 1
    ensures id !in w.slots.holders && id !in w.slots.queue
  {
    var s := w.slots;
    assert Placed(maxRetries, s, id, w.requests[id]);
    if id in s.queue { WaitersAreOutside(max, s, id); }
    assert NoDuplicates(s.grants) by { assert s.grants == s.arrivals[..|s.grants|]; }
    CountOnce(s.grants, id);
    CountOnce(s.releases, id);
  }

  lemma {:induction false} CountOnce(q: seq<nat>, id: nat)
    requires NoDuplicates(q) && id in q
    ensures multiset(q)[id] == 1
  {
    var rest := q[..|q| - 1];
    assert q == rest + [q[|q| - 1]];
    if q[|q| - 1] == id {
      assert id !in rest;
    } else {
      assert id in rest;
      CountOnce(rest, id);
    }
  }
}
