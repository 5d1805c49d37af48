/** Signing in to the private rollup: one wallet prompt shared by everyone who asks, and a pause before
    the wallet is asked again. */
module Login {
  import opened Prelude

  /** `requestKey`: the endpoint without its query, and the owner. */
  datatype Key = Key(base: string, owner: string)

  datatype Cached = Cached(token: string, exp: int)

  /** How a request's promise settles: a token, null, or a rejection. */
  datatype Outcome = Token(token: string) | Null | Rejected

  datatype Stage = Challenging | Signing | Posting | Done(outcome: Outcome)

  /** One request, with when it began and when it put the prompt in front of the wallet. */
  datatype Attempt = Attempt(key: Key, creator: nat, started: int, prompted: Option<int>, stage: Stage)

  /** One call of `teeToken`: waiting on a request, or returned (through a request, or at once). */
  datatype Caller = Awaiting(on: nat) | Returned(outcome: Outcome, through: Option<nat>)

  datatype World = World(
    clock: int,
    pending: map<Key, nat>,
    lastAttempt: map<Key, int>,
    stored: map<string, Cached>,
    attempts: seq<Attempt>,
    callers: map<nat, Caller>)

  const ATTEMPT_COOLDOWN_MS := 60000

  function FreshToken(stored: map<string, Cached>, owner: string, now: int): Option<string> {
    if owner in stored && stored[owner].exp * 1000 > now + 60000 && stored[owner].token != "" then Some(stored[owner].token) else None
  }

  function LastTried(lastAttempt: map<Key, int>, key: Key): int {
    if key in lastAttempt then lastAttempt[key] else 0
  }

  datatype Decision = Answer(outcome: Outcome) | Join(on: nat) | Start

  /** What the synchronous part of `teeToken` decides, in the order it asks. */
  function Decide(pending: map<Key, nat>, lastAttempt: map<Key, int>, stored: map<string, Cached>,
                  key: Key, tee: bool, canSign: bool, now: int): Decision {
    if !tee then Answer(Null)
    else if FreshToken(stored, key.owner, now).Some? then Answer(Token(FreshToken(stored, key.owner, now).value))
    else if !canSign then Answer(Null)
    else if key in pending then Join(pending[key])
    else if now - LastTried(lastAttempt, key) < ATTEMPT_COOLDOWN_MS then Answer(Null)
    else Start
  }

  datatype Event =
    | Call(caller: nat, key: Key, tee: bool, canSign: bool)
    | Challenged(request: nat)
    | Signed(request: nat)
    | LoggedIn(request: nat, token: string, exp: Option<int>)
    | Failed(request: nat, outcome: Outcome)
    | Resume(caller: nat)
    | Erased(owner: string)

  ghost predicate Enabled(w: World, e: Event) {
    match e
    case Call(c, _, _, _) => c !in w.callers
    case Challenged(r) => r < |w.attempts| && w.attempts[r].stage.Challenging?
    case Signed(r) => r < |w.attempts| && w.attempts[r].stage.Signing?
    case LoggedIn(r, _, _) => r < |w.attempts| && w.attempts[r].stage.Posting?
    case Failed(r, outcome) => r < |w.attempts| && !w.attempts[r].stage.Done? && !outcome.Token?
    case Resume(c) =>
      && c in w.callers && w.callers[c].Awaiting? && w.callers[c].on < |w.attempts|
      && w.attempts[w.callers[c].on].stage.Done?
    case Erased(_) => true
  }

  /** One uninterrupted stretch of the browser's event loop, at time `now`. */
  function After(w0: World, e: Event, now: int): World
    requires Enabled(w0, e)
  {
    var w := w0.(clock := now);
    match e
    case Call(c, key, tee, canSign) => (
      match Decide(w.pending, w.lastAttempt, w.stored, key, tee, canSign, now)
      case Answer(o) => w.(callers := w.callers[c := Returned(o, None)])
      case Join(r) => w.(callers := w.callers[c := Awaiting(r)])
      case Start =>
        w.(lastAttempt := w.lastAttempt[key := now], pending := w.pending[key := |w.attempts|],
           attempts := w.attempts + [Attempt(key, c, now, None, Challenging)],
           callers := w.callers[c := Awaiting(|w.attempts|)])
      )
    case Challenged(r) =>
      w.(attempts := w.attempts[r := w.attempts[r].(stage := Signing, prompted := Some(now))])
    case Signed(r) => w.(attempts := w.attempts[r := w.attempts[r].(stage := Posting)])
    case LoggedIn(r, token, exp) =>
      var key := w.attempts[r].key;
      w.(attempts := w.attempts[r := w.attempts[r].(stage := Done(Token(token)))],
         stored := if exp.Some? then w.stored[key.owner := Cached(token, exp.value)] else w.stored,
         lastAttempt := w.lastAttempt - {key})
    case Failed(r, outcome) => w.(attempts := w.attempts[r := w.attempts[r].(stage := Done(outcome))])
    case Resume(c) =>
      var r := w.callers[c].on;
      var a := w.attempts[r];
      w.(callers := w.callers[c := Returned(a.stage.outcome, Some(r))],
         pending := if a.creator == c then w.pending - {a.key} else w.pending)
    case Erased(owner) => w.(stored := w.stored - {owner})
  }

  // ── the module's own maps, updated in place ───────────────────────────────

  class Session {
    var pending: map<Key, nat>
    var lastAttempt: map<Key, int>
    var stored: map<string, Cached>
    ghost var world: World

    constructor ()
      ensures Tied() && world == World(0, map[], map[], map[], [], map[])
    {
      pending, lastAttempt, stored := map[], map[], map[];
      world := World(0, map[], map[], map[], [], map[]);
    }

    ghost predicate Tied()
      reads this
    {
      world.pending == pending && world.lastAttempt == lastAttempt && world.stored == stored
    }

    /** `teeToken` up to its first suspension. `request` is the promise a new request would get. */
    method TeeToken(ghost caller: nat, key: Key, tee: bool, canSign: bool, now: int, request: nat)
      returns (d: Decision)
      requires Tied() && caller !in world.callers && request == |world.attempts|
      modifies this
      ensures Tied() && world == After(old(world), Call(caller, key, tee, canSign), now)
      ensures d == Decide(old(pending), old(lastAttempt), old(stored), key, tee, canSign, now)
      // A stored token is the answer while it is good for another minute; else one request a minute is started.
      ensures d == if !tee then Answer(Null)
                   else if key.owner in old(stored) && old(stored)[key.owner].exp * 1000 - now > 60_000
                           && old(stored)[key.owner].token != "" then Answer(Token(old(stored)[key.owner].token))
                   else if !canSign then Answer(Null)
                   else if key in old(pending) then Join(old(pending)[key])
                   else if now - (if key in old(lastAttempt) then old(lastAttempt)[key] else 0) < 60_000 then Answer(Null)
                   else Start
      ensures stored == old(stored) && lastAttempt == (if d.Start? then old(lastAttempt)[key := now] else old(lastAttempt))
      ensures pending == if d.Start? then old(pending)[key := request] else old(pending)
      ensures caller in world.callers && world.callers[caller] ==
        match d case Answer(o) => Returned(o, None) case Join(r) => Awaiting(r) case Start => Awaiting(request)
    {
      world := After(world, Call(caller, key, tee, canSign), now);
      if !tee { return Answer(Null); }
      var hit := FreshToken(stored, key.owner, now);
      if hit.Some? { return Answer(Token(hit.value)); }
      if !canSign { return Answer(Null); }
      if key in pending { return Join(pending[key]); }
      if now - LastTried(lastAttempt, key) < ATTEMPT_COOLDOWN_MS { return Answer(Null); }
      lastAttempt := lastAttempt[key := now];
      pending := pending[key := request];
      return Start;
    }

    /** The end of a request that got its token. */
    method Remember(r: nat, key: Key, token: string, exp: Option<int>, now: int)
      requires Tied() && Enabled(world, LoggedIn(r, token, exp)) && world.attempts[r].key == key
      modifies this
      ensures Tied() && world == After(old(world), LoggedIn(r, token, exp), now)
    {
      world := After(world, LoggedIn(r, token, exp), now);
      if exp.Some? { stored := stored[key.owner := Cached(token, exp.value)]; }
      lastAttempt := lastAttempt - {key};
    }

    /** The `finally` of the call that created the request. */
    method Settle(caller: nat, key: Key, now: int)
      requires Tied() && Enabled(world, Resume(caller))
      requires world.attempts[world.callers[caller].on].creator == caller
      requires world.attempts[world.callers[caller].on].key == key
      modifies this
      ensures Tied() && world == After(old(world), Resume(caller), now) && key !in pending
    {
      world := After(world, Resume(caller), now);
      pending := pending - {key};
    }
  }

  // ── what every interleaving keeps ─────────────────────────────────────────

  /** Request `i` is the current one under its key exactly until the call that made it has returned. */
  ghost predicate Owned(w: World, i: nat)
    requires i < |w.attempts|
  {
    var a := w.attempts[i];
    && a.creator in w.callers
    && (w.callers[a.creator] == Awaiting(i) <==> a.key in w.pending && w.pending[a.key] == i)
    && (!a.stage.Done? ==> w.callers[a.creator] == Awaiting(i))
  }

  /** A caller hears what the request it waited on came to, and nothing else. */
  ghost predicate Heard(w: World, c: Caller) {
    match c
    case Awaiting(r) => r < |w.attempts|
    case Returned(o, through) =>
      through.Some? ==> through.value < |w.attempts| && w.attempts[through.value].stage == Done(o)
  }

  ghost predicate SameKeyLater(attempts: seq<Attempt>, i: nat, j: nat) {
    i < j < |attempts| && attempts[i].key == attempts[j].key
  }

  /** No request under the same key began after `i` and before `j`. */
  ghost predicate Neighbours(attempts: seq<Attempt>, i: nat, j: nat) {
    SameKeyLater(attempts, i, j) && forall m | i < m < j :: attempts[m].key != attempts[i].key
  }

  ghost predicate Succeeded(a: Attempt) { a.stage.Done? && a.stage.outcome.Token? }

  /** The later request began after the earlier was over and its prompt gone. */
  ghost predicate InTurn(a: Attempt, b: Attempt) {
    a.stage.Done? && a.started <= b.started && (a.prompted.Some? ==> a.prompted.value <= b.started)
  }

  ghost predicate Spaced(a: Attempt, b: Attempt) {
    Succeeded(a) || b.started - a.started >= ATTEMPT_COOLDOWN_MS
  }

  ghost predicate LatestFor(attempts: seq<Attempt>, i: nat) {
    i < |attempts| && forall m | i < m < |attempts| :: attempts[m].key != attempts[i].key
  }

  /** `lastAttempt` is when the latest request under the key began, or has been cleared by its success. */
  ghost predicate Dated(w: World, a: Attempt) {
    if a.key in w.lastAttempt then w.lastAttempt[a.key] == a.started else Succeeded(a)
  }

  ghost predicate Timed(w: World, a: Attempt) {
    && a.started <= w.clock
    && (a.stage.Challenging? ==> a.prompted.None?)
    && (a.prompted.Some? ==> a.started <= a.prompted.value <= w.clock)
  }

  ghost predicate Ownership(w: World) {
    && (forall key | key in w.pending :: w.pending[key] < |w.attempts| && w.attempts[w.pending[key]].key == key)
    && (forall i: nat | i < |w.attempts| :: Owned(w, i))
    && (forall c | c in w.callers :: Heard(w, w.callers[c]))
  }

  ghost predicate Pacing(w: World) {
    && (forall i: nat | i < |w.attempts| :: Timed(w, w.attempts[i]))
    && (forall i: nat | LatestFor(w.attempts, i) :: Dated(w, w.attempts[i]))
    && (forall i: nat, j: nat | SameKeyLater(w.attempts, i, j) :: InTurn(w.attempts[i], w.attempts[j]))
    && (forall i: nat, j: nat | Neighbours(w.attempts, i, j) :: Spaced(w.attempts[i], w.attempts[j]))
  }

  ghost predicate Inv(w: World) { Ownership(w) && Pacing(w) }

  /** A request under way moves on: its key, its maker and its start stay, and it was not over yet. */
  ghost predicate Progress(w: World, r: nat, a: Attempt, w': World) {
    && r < |w.attempts| && !w.attempts[r].stage.Done?
    && a.key == w.attempts[r].key && a.creator == w.attempts[r].creator && a.started == w.attempts[r].started
    && w'.attempts == w.attempts[r := a] && w'.pending == w.pending && w'.callers == w.callers
  }

  lemma OwnershipProgress(w: World, r: nat, a: Attempt, w': World)
    requires Ownership(w) && Progress(w, r, a, w')
    ensures Ownership(w')
  {
    forall i: nat | i < |w'.attempts| ensures Owned(w', i) { assert Owned(w, i); }
    forall c | c in w'.callers ensures Heard(w', w'.callers[c]) { assert Heard(w, w.callers[c]); }
  }

  lemma OwnershipResume(w: World, c: nat, now: int)
    requires Ownership(w) && Enabled(w, Resume(c))
    ensures Ownership(After(w, Resume(c), now))
  {
    var w' := After(w, Resume(c), now);
    var r := w.callers[c].on;
    assert Owned(w, r);
    forall i: nat | i < |w'.attempts| ensures Owned(w', i) { assert Owned(w, i); }
    forall k | k in w'.callers ensures Heard(w', w'.callers[k]) { assert Heard(w, w.callers[k]); }
  }

  lemma OwnershipCall(w: World, e: Event, now: int)
    requires Ownership(w) && Enabled(w, e) && e.Call?
    ensures Ownership(After(w, e, now))
  {
    hide FreshToken, LastTried;
    var w' := After(w, e, now);
    forall i: nat | i < |w'.attempts| ensures Owned(w', i) {
      if i < |w.attempts| { assert Owned(w, i); }
    }
    forall k | k in w'.callers ensures Heard(w', w'.callers[k]) {
      if k in w.callers { assert Heard(w, w.callers[k]); }
    }
  }

  lemma OwnershipKept(w: World, e: Event, now: int)
    requires Ownership(w) && Enabled(w, e)
    ensures Ownership(After(w, e, now))
  {
    var w' := After(w, e, now);
    match e {
      case Call(_, _, _, _) => OwnershipCall(w, e, now);
      case Challenged(r) => OwnershipProgress(w, r, w'.attempts[r], w');
      case Signed(r) => OwnershipProgress(w, r, w'.attempts[r], w');
      case LoggedIn(r, _, _) => OwnershipProgress(w, r, w'.attempts[r], w');
      case Failed(r, _) => OwnershipProgress(w, r, w'.attempts[r], w');
      case Resume(c) => OwnershipResume(w, c, now);
      case Erased(_) => 
        forall i: nat | i < |w'.attempts| ensures Owned(w', i) { assert Owned(w, i); }
        forall k | k in w'.callers ensures Heard(w', w'.callers[k]) { assert Heard(w, w.callers[k]); }
    }
  }

  /** What a step does to the record of requests: each keeps its key and its start. */
  ghost predicate SameTimes(older: seq<Attempt>, newer: seq<Attempt>) {
    && |older| <= |newer|
    && forall i | 0 <= i < |older| :: newer[i].key == older[i].key && newer[i].started == older[i].started
  }

  lemma RelationsCarryOver(older: seq<Attempt>, newer: seq<Attempt>, i: nat, j: nat)
    requires SameTimes(older, newer)
    ensures LatestFor(newer, i) && i < |older| ==> LatestFor(older, i)
    ensures SameKeyLater(newer, i, j) && j < |older| ==> SameKeyLater(older, i, j)
    ensures Neighbours(newer, i, j) && j < |older| ==> Neighbours(older, i, j)
    ensures Neighbours(newer, i, j) && j == |older| ==> LatestFor(older, i)
  {
    forall m | 0 <= m < |older| ensures newer[m].key == older[m].key {}
  }

  lemma PairProgress(w: World, r: nat, a: Attempt, w': World, i: nat, j: nat)
    requires Inv(w) && Progress(w, r, a, w') && SameKeyLater(w'.attempts, i, j)
    ensures InTurn(w'.attempts[i], w'.attempts[j])
    ensures Neighbours(w'.attempts, i, j) ==> Spaced(w'.attempts[i], w'.attempts[j])
  {
    hide Ownership;
    RelationsCarryOver(w.attempts, w'.attempts, i, j);
    assert InTurn(w.attempts[i], w.attempts[j]);
  }

  lemma LatestProgress(w: World, r: nat, a: Attempt, w': World, i: nat)
    requires Inv(w) && Progress(w, r, a, w') && LatestFor(w'.attempts, i)
    requires w'.lastAttempt == if Succeeded(a) then w.lastAttempt - {a.key} else w.lastAttempt
    ensures Dated(w', w'.attempts[i])
  {
    hide Ownership;
    RelationsCarryOver(w.attempts, w'.attempts, i, i);
    assert Dated(w, w.attempts[i]);
    assert !SameKeyLater(w.attempts, r, i);
  }

  lemma PacingProgress(w: World, r: nat, a: Attempt, w': World)
    requires Inv(w) && Progress(w, r, a, w') && w.clock <= w'.clock && Timed(w', a)
    requires w'.lastAttempt == if Succeeded(a) then w.lastAttempt - {a.key} else w.lastAttempt
    ensures Pacing(w')
  {
    forall i: nat | i < |w'.attempts| ensures Timed(w', w'.attempts[i]) { assert Timed(w, w.attempts[i]); }
    hide Timed, Dated, InTurn, Spaced, LatestFor, Inv;
    forall i: nat | LatestFor(w'.attempts, i) ensures Dated(w', w'.attempts[i]) { LatestProgress(w, r, a, w', i); }
    forall i: nat, j: nat | SameKeyLater(w'.attempts, i, j) ensures InTurn(w'.attempts[i], w'.attempts[j]) {
      PairProgress(w, r, a, w', i, j);
    }
    forall i: nat, j: nat | Neighbours(w'.attempts, i, j) ensures Spaced(w'.attempts[i], w'.attempts[j]) {
      PairProgress(w, r, a, w', i, j);
    }
  }

  /** A new request begins only when none is pending under its key and the last one is a minute old or
      got its token. */
  ghost predicate Starts(w: World, a: Attempt, w': World) {
    && a.key !in w.pending && w'.clock - LastTried(w.lastAttempt, a.key) >= ATTEMPT_COOLDOWN_MS
    && a.started == w'.clock && a.stage == Challenging && a.prompted == None
    && w'.attempts == w.attempts + [a] && w'.lastAttempt == w.lastAttempt[a.key := w'.clock]
  }

  lemma PairStart(w: World, a: Attempt, w': World, i: nat, j: nat)
    requires Inv(w) && Starts(w, a, w') && w.clock <= w'.clock && SameKeyLater(w'.attempts, i, j)
    ensures InTurn(w'.attempts[i], w'.attempts[j])
    ensures Neighbours(w'.attempts, i, j) ==> Spaced(w'.attempts[i], w'.attempts[j])
  {
    RelationsCarryOver(w.attempts, w'.attempts, i, j);
    if j < |w.attempts| {
      assert InTurn(w.attempts[i], w.attempts[j]);
    } else {
      assert Owned(w, i) && Timed(w, w.attempts[i]);
      if Neighbours(w'.attempts, i, j) {
        assert LatestFor(w.attempts, i);
        assert Dated(w, w.attempts[i]);
      }
    }
  }

  lemma PacingStart(w: World, a: Attempt, w': World)
    requires Inv(w) && Starts(w, a, w') && w.clock <= w'.clock
    ensures Pacing(w')
  {
    forall i: nat | i < |w'.attempts| ensures Timed(w', w'.attempts[i]) {
      if i < |w.attempts| { assert Timed(w, w.attempts[i]); }
    }
    forall i: nat | LatestFor(w'.attempts, i) ensures Dated(w', w'.attempts[i]) {
      if i < |w.attempts| {
        RelationsCarryOver(w.attempts, w'.attempts, i, i);
        assert w'.attempts[|w.attempts|].key != w'.attempts[i].key;
        assert Dated(w, w.attempts[i]);
      }
    }
    hide Timed, Dated, InTurn, Spaced, LatestFor, Inv, Starts;
    forall i: nat, j: nat | SameKeyLater(w'.attempts, i, j) ensures InTurn(w'.attempts[i], w'.attempts[j]) {
      PairStart(w, a, w', i, j);
    }
    forall i: nat, j: nat | Neighbours(w'.attempts, i, j) ensures Spaced(w'.attempts[i], w'.attempts[j]) {
      PairStart(w, a, w', i, j);
    }
  }

  lemma PacingIdle(w: World, w': World)
    requires Pacing(w) && w.clock <= w'.clock && w'.attempts == w.attempts && w'.lastAttempt == w.lastAttempt
    ensures Pacing(w')
  {
    hide InTurn, Spaced, Neighbours, SameKeyLater;
    forall i: nat | i < |w'.attempts| ensures Timed(w', w'.attempts[i]) { assert Timed(w, w.attempts[i]); }
    forall i: nat | LatestFor(w'.attempts, i) ensures Dated(w', w'.attempts[i]) { assert Dated(w, w.attempts[i]); }
  }

  lemma InvProgress(w: World, e: Event, now: int, r: nat)
    requires Inv(w) && Enabled(w, e) && w.clock <= now
    requires e == Challenged(r) || e == Signed(r) || (e.LoggedIn? && e.request == r) || (e.Failed? && e.request == r)
    ensures Pacing(After(w, e, now))
  {
    var w' := After(w, e, now);
    assert Timed(w, w.attempts[r]);
    hide Ownership, Pacing;
    PacingProgress(w, r, w'.attempts[r], w');
  }

  lemma InvCall(w: World, e: Event, now: int)
    requires Inv(w) && Enabled(w, e) && w.clock <= now && e.Call?
    ensures Pacing(After(w, e, now))
  {
    hide Ownership, Pacing, FreshToken;
    var w' := After(w, e, now);
    if Decide(w.pending, w.lastAttempt, w.stored, e.key, e.tee, e.canSign, now).Start? {
      PacingStart(w, w'.attempts[|w.attempts|], w');
    } else {
      PacingIdle(w, w');
    }
  }

  lemma InvKept(w: World, e: Event, now: int)
    requires Inv(w) && Enabled(w, e) && w.clock <= now
    ensures Inv(After(w, e, now))
  {
    OwnershipKept(w, e, now);
    hide Ownership, Pacing, Decide, LastTried;
    match e {
      case Call(_, _, _, _) => InvCall(w, e, now);
      case Challenged(r) => InvProgress(w, e, now, r);
      case Signed(r) => InvProgress(w, e, now, r);
      case LoggedIn(r, _, _) => InvProgress(w, e, now, r);
      case Failed(r, _) => InvProgress(w, e, now, r);
      case Resume(c) => PacingIdle(w, After(w, e, now));
      case Erased(_) => PacingIdle(w, After(w, e, now));
    }
  }

  // ── whole sessions ────────────────────────────────────────────────────────

  /** Any interleaving, from a page that has just loaded with whatever its storage holds. */
  ghost predicate IsRun(ws: seq<World>, es: seq<Event>) {
    && |ws| == |es| + 1
    && ws[0] == World(ws[0].clock, map[], map[], ws[0].stored, [], map[])
    && forall n | 0 <= n < |es| :: Stepped(ws[n], es[n], ws[n + 1])
  }

  ghost predicate Stepped(w: World, e: Event, w': World) {
    Enabled(w, e) && w.clock <= w'.clock && w' == After(w, e, w'.clock)
  }

  lemma {:induction false} InvOverRuns(ws: seq<World>, es: seq<Event>)
    requires IsRun(ws, es)
    ensures Inv(ws[|es|])
  {
    if es != [] {
      var n := |es| - 1;
      assert IsRun(ws[..|es|], es[..n]);
      InvOverRuns(ws[..|es|], es[..n]);
      assert Stepped(ws[n], es[n], ws[|es|]);
      InvKept(ws[n], es[n], ws[|es|].clock);
    }
  }

  ghost predicate BothRunning(w: World, i: nat, j: nat) {
    && i < |w.attempts| && j < |w.attempts| && w.attempts[i].key == w.attempts[j].key
    && !w.attempts[i].stage.Done? && !w.attempts[j].stage.Done?
  }

  /** Two calls that returned what one request came to. */
  ghost predicate SameRequest(w: World, c: nat, d: nat) {
    && c in w.callers && d in w.callers && w.callers[c].Returned? && w.callers[d].Returned?
    && w.callers[c].through.Some? && w.callers[c].through == w.callers[d].through
  }

  ghost predicate AllSettledReturned(w: World) {
    forall k: nat | k < |w.attempts| && w.attempts[k].stage.Done? ::
      w.attempts[k].creator in w.callers && w.callers[w.attempts[k].creator] != Awaiting(k)
  }

  ghost predicate Running(w: World, key: Key) {
    exists k: nat | k < |w.attempts| :: w.attempts[k].key == key && !w.attempts[k].stage.Done?
  }

  lemma OneRunning(w: World, i: nat, j: nat)
    requires Ownership(w) && BothRunning(w, i, j)
    ensures i == j
  {
    assert Owned(w, i) && Owned(w, j);
  }

  lemma OneOutcome(w: World, c: nat, d: nat)
    requires Ownership(w) && SameRequest(w, c, d)
    ensures w.callers[c].outcome == w.callers[d].outcome
  {
    assert Heard(w, w.callers[c]) && Heard(w, w.callers[d]);
  }

  lemma PendingIsRunning(w: World, key: Key)
    requires Ownership(w) && AllSettledReturned(w)
    ensures key in w.pending <==> Running(w, key)
  {
    if key in w.pending {
      assert Owned(w, w.pending[key]);
    }
    if Running(w, key) {
      var k: nat :| k < |w.attempts| && w.attempts[k].key == key && !w.attempts[k].stage.Done?;
      assert Owned(w, k);
    }
  }

  /** At most one request runs for an endpoint and owner, whoever asks for it shares what it comes to,
      and once the calls that made the settled requests have returned, what is pending is what runs. */
  lemma SingleFlight(ws: seq<World>, es: seq<Event>, i: nat, j: nat, c: nat, d: nat)
    requires IsRun(ws, es)
    ensures BothRunning(ws[|es|], i, j) ==> i == j
    ensures SameRequest(ws[|es|], c, d) ==> ws[|es|].callers[c].outcome == ws[|es|].callers[d].outcome
    ensures AllSettledReturned(ws[|es|]) ==> forall key :: key in ws[|es|].pending <==> Running(ws[|es|], key)
  {
    InvOverRuns(ws, es);
    var w := ws[|es|];
    hide IsRun, Ownership, Pacing, AllSettledReturned, Running;
    if BothRunning(w, i, j) { OneRunning(w, i, j); }
    if SameRequest(w, c, d) { OneOutcome(w, c, d); }
    if AllSettledReturned(w) {
      forall key ensures key in w.pending <==> Running(w, key) { PendingIsRunning(w, key); }
    }
  }

  /** Two requests under a minute apart have a successful one between them, the first included. */
  lemma {:induction false} RequestsSpaced(w: World, i: nat, j: nat) returns (m: nat)
    requires Inv(w) && SameKeyLater(w.attempts, i, j)
    requires w.attempts[j].started - w.attempts[i].started < ATTEMPT_COOLDOWN_MS
    ensures i <= m < j && w.attempts[m].key == w.attempts[i].key && Succeeded(w.attempts[m])
    decreases j - i
  {
    if Neighbours(w.attempts, i, j) {
      assert Spaced(w.attempts[i], w.attempts[j]);
      return i;
    }
    var k: nat :| i < k < j && w.attempts[k].key == w.attempts[i].key;
    assert SameKeyLater(w.attempts, k, j) && SameKeyLater(w.attempts, i, k);
    assert InTurn(w.attempts[i], w.attempts[k]);
    m := RequestsSpaced(w, k, j);
  }

  /** Two requests, both of which put a prompt up, with no token from the first up to the second; `delay` is
      how long the first one's challenge took. */
  ghost predicate PromptPair(w: World, i: nat, j: nat, delay: int) {
    && SameKeyLater(w.attempts, i, j)
    && (forall m | i <= m < j && w.attempts[m].key == w.attempts[i].key :: !Succeeded(w.attempts[m]))
    && w.attempts[i].prompted.Some? && w.attempts[j].prompted.Some?
    && delay == w.attempts[i].prompted.value - w.attempts[i].started
  }

  function Gap(w: World, i: nat, j: nat): int
    requires i < |w.attempts| && w.attempts[i].prompted.Some?
    requires j < |w.attempts| && w.attempts[j].prompted.Some?
  {
    w.attempts[j].prompted.value - w.attempts[i].prompted.value
  }

  /** The pause runs from one request's start to the next, not from prompt to prompt: without a login in
      between, a second prompt follows the first by at least a minute less the first challenge's delay. */
  lemma PromptGap(w: World, i: nat, j: nat, delay: int)
    requires Inv(w) && PromptPair(w, i, j, delay)
    ensures delay >= 0 && Gap(w, i, j) >= ATTEMPT_COOLDOWN_MS - delay && Gap(w, i, j) >= 0
  {
    if w.attempts[j].started - w.attempts[i].started < ATTEMPT_COOLDOWN_MS {
      var m := RequestsSpaced(w, i, j);
    }
    assert InTurn(w.attempts[i], w.attempts[j]);
    assert Timed(w, w.attempts[i]) && Timed(w, w.attempts[j]);
  }

  ghost predicate PromptsApart(delay: int) {
    forall ws, es, i: nat, j: nat | IsRun(ws, es) && PromptPair(ws[|es|], i, j, delay) ::
      Gap(ws[|es|], i, j) >= ATTEMPT_COOLDOWN_MS
  }

  /** A challenge that takes `delay`, a signature refused at once, and a second request a minute after the
      first whose challenge comes straight back. */
  lemma SlowChallenge(delay: nat) returns (ws: seq<World>, es: seq<Event>)
    ensures IsRun(ws, es) && PromptPair(ws[|es|], 0, 1, delay)
    ensures Gap(ws[|es|], 0, 1) == MaxInt(0, ATTEMPT_COOLDOWN_MS - delay)
  {
    var key, later := Key("base", "owner"), MaxInt(120000, 60000 + delay);
    es := [Call(0, key, true, true), Challenged(0), Failed(0, Rejected), Resume(0), Call(1, key, true, true), Challenged(1)];
    ws := Slow(key, delay, later);
    SlowFirst(key, delay, later);
    SlowSecond(key, delay, later);
    hide Stepped;
  }

  function Slow(key: Key, delay: nat, later: int): (ws: seq<World>)
    ensures |ws| == 7
  {
    var prompt := 60000 + delay;
    var a := Attempt(key, 0, 60000, None, Challenging);
    var done := a.(prompted := Some(prompt), stage := Done(Rejected));
    var b := Attempt(key, 1, later, None, Challenging);
    var tried := map[key := 60000];
    var back := map[0 := Returned(Rejected, Some(0))];
    [ World(60000, map[], map[], map[], [], map[]),
      World(60000, map[key := 0], tried, map[], [a], map[0 := Awaiting(0)]),
      World(prompt, map[key := 0], tried, map[], [a.(prompted := Some(prompt), stage := Signing)], map[0 := Awaiting(0)]),
      World(prompt, map[key := 0], tried, map[], [done], map[0 := Awaiting(0)]),
      World(prompt, map[], tried, map[], [done], back),
      World(later, map[key := 1], tried[key := later], map[], [done, b], back[1 := Awaiting(1)]),
      World(later, map[key := 1], tried[key := later], map[],
            [done, b.(prompted := Some(later), stage := Signing)], back[1 := Awaiting(1)]) ]
  }

  lemma SlowFirst(key: Key, delay: nat, later: int)
    ensures var ws := Slow(key, delay, later);
      && Stepped(ws[0], Call(0, key, true, true), ws[1]) && Stepped(ws[1], Challenged(0), ws[2])
      && Stepped(ws[2], Failed(0, Rejected), ws[3]) && Stepped(ws[3], Resume(0), ws[4])
  {
    var ws := Slow(key, delay, later);
    assert Stepped(ws[0], Call(0, key, true, true), ws[1]);
    assert Stepped(ws[1], Challenged(0), ws[2]);
    assert Stepped(ws[2], Failed(0, Rejected), ws[3]);
    assert Stepped(ws[3], Resume(0), ws[4]);
  }

  lemma SlowSecond(key: Key, delay: nat, later: int)
    requires later >= 120000 && later >= 60000 + delay
    ensures var ws := Slow(key, delay, later);
      Stepped(ws[4], Call(1, key, true, true), ws[5]) && Stepped(ws[5], Challenged(1), ws[6])
  {
    var ws := Slow(key, delay, later);
    assert Stepped(ws[4], Call(1, key, true, true), ws[5]);
    assert Stepped(ws[5], Challenged(1), ws[6]);
  }

  /** Prompts a minute apart, unless a login between them succeeded, is what the pause is for. It gives
      that exactly when the first challenge comes back in no time. */
  lemma PromptsApartIff(delay: nat)
    ensures PromptsApart(delay) <==> delay == 0
  {
    if delay == 0 {
      forall ws, es, i: nat, j: nat | IsRun(ws, es) && PromptPair(ws[|es|], i, j, delay)
        ensures Gap(ws[|es|], i, j) >= ATTEMPT_COOLDOWN_MS
      {
        InvOverRuns(ws, es);
        PromptGap(ws[|es|], i, j, delay);
      }
    } else {
      var ws, es := SlowChallenge(delay);
      assert IsRun(ws, es) && PromptPair(ws[|es|], 0, 1, delay);
    }
  }
}
