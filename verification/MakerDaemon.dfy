/** One quoting cycle: the desired ladder diffed against the daemon's own model of a side,
    and the sends that follow, each of which the rollup may refuse or lose. */
module MakerDaemon {
  import opened Prelude
  import opened Ladder

  /** What became of a send. It tries up to three times, and an attempt that is not seen to confirm may have
      taken effect all the same: `hits` are the attempts that did, each with which of the orders under that
      client id the book's search met, and `heard` is whether the send came back. */
  datatype Outcome = Outcome(hits: seq<nat>, heard: bool)

  const NOTHING := Outcome([], false)

  datatype Action = Keep | Place | Modify | Cancel

  /** The daemon's Map for one side and, beside it, the lots the venue really holds under each
      level's client id. The book does not refuse a second order under the same id, so it is a list. */
  datatype Side = Side(model: map<nat, Rung>, resting: map<nat, seq<nat>>)

  datatype Level = Level(have: Option<Rung>, queue: seq<nat>)

  function RungAt(m: map<nat, Rung>, l: nat): Option<Rung> { if l in m then Some(m[l]) else None }

  function QueueAt(r: map<nat, seq<nat>>, l: nat): seq<nat> { if l in r then r[l] else [] }

  function LevelAt(s: Side, l: nat): Level { Level(RungAt(s.model, l), QueueAt(s.resting, l)) }

  function ActionFor(want: Option<Rung>, have: Option<Rung>): Action {
    match (want, have)
    case (None, None) => Keep
    case (Some(_), None) => Place
    case (None, Some(_)) => Cancel
    case (Some(w), Some(h)) => if h.price != w.price || h.lots != w.lots then Modify else Keep
  }

  /** One attempt takes effect on the orders that rest under a client id. */
  function Hit(a: Action, lots: nat, q: seq<nat>, at: nat): seq<nat> {
    match a
    case Keep => q
    case Place => q + [lots]
    case Modify => if at < |q| then q[at := lots] else q
    case Cancel => if at < |q| then q[..at] + q[at + 1..] else q
  }

  function Applied(a: Action, lots: nat, q: seq<nat>, hits: seq<nat>): seq<nat>
    decreases |hits|
  {
    if hits == [] then q else Applied(a, lots, Hit(a, lots, q, hits[0]), hits[1..])
  }

  /** A modify or a cancel takes effect only on an order that is there. */
  predicate Meets(a: Action, lots: nat, q: seq<nat>, hits: seq<nat>)
    decreases |hits|
  {
    hits == [] || ((a == Place || hits[0] < |q|) && Meets(a, lots, Hit(a, lots, q, hits[0]), hits[1..]))
  }

  predicate Possible(a: Action, lots: nat, queue: seq<nat>, o: Outcome) {
    Meets(a, lots, queue, o.hits) && (o.heard ==> o.hits != [])
  }

  lemma {:induction false} HitLast(a: Action, lots: nat, q: seq<nat>, hits: seq<nat>, at: nat)
    requires Meets(a, lots, q, hits) && (a == Place || at < |Applied(a, lots, q, hits)|)
    ensures Meets(a, lots, q, hits + [at])
    ensures Applied(a, lots, q, hits + [at]) == Hit(a, lots, Applied(a, lots, q, hits), at)
    decreases |hits|
  {
    if hits == [] {
      assert (hits + [at])[1..] == [];
    } else {
      HitLast(a, lots, Hit(a, lots, q, hits[0]), hits[1..], at);
      assert (hits + [at])[1..] == hits[1..] + [at];
    }
  }

  predicate Drifted(desired: map<nat, Rung>, model: map<nat, Rung>, l: nat) {
    ActionFor(RungAt(desired, l), RungAt(model, l)) == Modify
  }

  /** The levels the first pass sends for; the missing ones wait for the placer. */
  predicate Touches(desired: map<nat, Rung>, model: map<nat, Rung>, l: nat) {
    var a := ActionFor(RungAt(desired, l), RungAt(model, l));
    a == Modify || a == Cancel
  }

  /** The levels left to place, in order, and the quotes queued for them. */
  function MissingLevels(desired: map<nat, Rung>, model: map<nat, Rung>, n: nat): seq<nat> {
    if n == 0 then []
    else MissingLevels(desired, model, n - 1) + (if n in desired && n !in model then [n] else [])
  }

  ghost predicate Queued(bid: bool, desired: map<nat, Rung>, levels: seq<nat>, toPlace: seq<Quote>) {
    && |toPlace| == |levels|
    && forall i | 0 <= i < |levels| :: levels[i] in desired && toPlace[i] == Quote(bid, desired[levels[i]])
  }

  /** A level that was sent for has taken its step; any other is as it was. */
  ghost predicate Moved(desired: map<nat, Rung>, was: Side, now: Side, outs: map<nat, Outcome>, l: nat) {
    if l in outs then LevelStep(RungAt(desired, l), LevelAt(was, l), LevelAt(now, l), outs[l])
    else LevelAt(now, l) == LevelAt(was, l)
  }

  lemma NoneMoved(desired: map<nat, Rung>, was: Side)
    ensures forall l: nat :: Moved(desired, was, was, map[], l)
  {
  }

  lemma NotYet(desired: map<nat, Rung>, was: Side, now: Side, outs: map<nat, Outcome>, l: nat)
    requires Moved(desired, was, now, outs, l) && l !in outs
    ensures l in now.model <==> l in was.model
  {
    assert LevelAt(now, l).have == LevelAt(was, l).have;
  }

  lemma MovedOn(desired: map<nat, Rung>, was: Side, prev: Side, now: Side, outs: map<nat, Outcome>, lvl: nat, o: Outcome,
                more: map<nat, Outcome>)
    requires forall l: nat :: Moved(desired, was, prev, outs, l)
    requires lvl !in outs && more == outs[lvl := o] && SameElsewhere(prev, now, lvl)
    requires LevelStep(RungAt(desired, lvl), LevelAt(prev, lvl), LevelAt(now, lvl), o)
    ensures forall l: nat :: Moved(desired, was, now, more, l)
  {
    hide LevelStep;
    forall l: nat ensures Moved(desired, was, now, more, l) {
      assert Moved(desired, was, prev, outs, l);
    }
  }

  ghost predicate SameElsewhere(was: Side, now: Side, lvl: nat) {
    forall l: nat | l != lvl :: LevelAt(now, l) == LevelAt(was, l)
  }

  function LotsOf(want: Option<Rung>): nat { if want.Some? then ToNat(want.value.lots) else 0 }

  /** What one cycle makes of one level. The book follows the attempts that took effect, the model what was
      heard; a failed modify forgets the rung, whatever the failure was. */
  ghost predicate LevelStep(want: Option<Rung>, before: Level, after: Level, o: Outcome) {
    var a := ActionFor(want, before.have);
    if a == Keep then after == before else
      && Possible(a, LotsOf(want), before.queue, o)
      && after == Level(if o.heard && a != Cancel then want else None, Applied(a, LotsOf(want), before.queue, o.hits))
  }

  function ToNat(x: int): nat { if x < 0 then 0 else x }

  function OutcomeAt(outs: map<nat, Outcome>, l: nat): Outcome { if l in outs then outs[l] else NOTHING }

  /** A whole side: every level takes its own step, and exactly the levels that differ send. */
  ghost predicate SideStep(desired: map<nat, Rung>, before: Side, after: Side, outs: map<nat, Outcome>) {
    && (forall l: nat :: l in outs <==> ActionFor(RungAt(desired, l), RungAt(before.model, l)) != Keep)
    && (forall l: nat :: LevelStep(RungAt(desired, l), LevelAt(before, l), LevelAt(after, l), OutcomeAt(outs, l)))
  }

  /** `cancel_all_orders` and the model reset that follows it, landed or not. */
  function Cleared(s: Side, landed: bool): Side { Side(map[], if landed then map[] else s.resting) }

  const TRIES := 3

  /** What becomes of one transaction: whether it reaches the book, which order its search meets there, whether it
      is seen to, and if not, whether the session had expired and whether the failure is one to try again after. */
  datatype Net = Net(reached: bool, met: nat, seen: bool, expired: bool, transient: bool)

  /** One transaction: it may take effect, and if it did it may be seen to. A modify or a cancel finds nothing to
      do where no order rests. */
  function Tried(a: Action, lots: nat, o: Outcome, q: seq<nat>, n: Net): (Outcome, seq<nat>) {
    if n.reached && (a == Place || q != []) then
      var at := if q != [] then n.met % |q| else 0;
      (Outcome(o.hits + [at], n.seen), Hit(a, lots, q, at))
    else
      (o, q)
  }

  /** The tries from the `i`-th on, each of which is sent again once if the session had expired. */
  function Tries(a: Action, lots: nat, o: Outcome, q: seq<nat>, net: nat -> Net, i: nat): (Outcome, seq<nat>)
    decreases 3 - i
  {
    if i >= 3 then (o, q)
    else
      var first := Tried(a, lots, o, q, net(2 * i));
      var again := !first.0.heard && net(2 * i).expired;
      var s := if again then Tried(a, lots, first.0, first.1, net(2 * i + 1)) else first;
      if s.0.heard || !net(if again then 2 * i + 1 else 2 * i).transient then s
      else Tries(a, lots, s.0, s.1, net, i + 1)
  }

  /** `send`: up to three tries. An attempt may take effect and not be heard of; a transient failure is tried
      again, any other ends the send. */
  method Send(a: Action, lots: nat, queue: seq<nat>, net: nat -> Net) returns (o: Outcome, after: seq<nat>)
    ensures Possible(a, lots, queue, o) && |o.hits| <= 6
    ensures after == Applied(a, lots, queue, o.hits)
    ensures (o, after) == Tries(a, lots, NOTHING, queue, net, 0)
  {
    hide Hit, Applied, Meets, Tried;
    o, after := NOTHING, queue;
    NoHits(a, lots, queue);
    for i := 0 to TRIES
      invariant Meets(a, lots, queue, o.hits) && !o.heard && |o.hits| <= 2 * i
      invariant after == Applied(a, lots, queue, o.hits)
      invariant Tries(a, lots, NOTHING, queue, net, 0) == Tries(a, lots, o, after, net, i)
    {
      ghost var o0, q0 := o, after;
      TriesStep(a, lots, o0, q0, net, i);
      hide Tries;
      var n := net(2 * i);
      o, after := Attempt(a, lots, queue, o, after, n);
      if o.heard { return; }
      if n.expired {
        n := net(2 * i + 1);
        o, after := Attempt(a, lots, queue, o, after, n);
        if o.heard { return; }
      }
      if !n.transient { return; }
    }
  }

  lemma NoHits(a: Action, lots: nat, q: seq<nat>)
    ensures Meets(a, lots, q, []) && Applied(a, lots, q, []) == q
  {}

  lemma TriesStep(a: Action, lots: nat, o: Outcome, q: seq<nat>, net: nat -> Net, i: nat)
    requires i < 3
    ensures var first := Tried(a, lots, o, q, net(2 * i));
      var again := !first.0.heard && net(2 * i).expired;
      var s := if again then Tried(a, lots, first.0, first.1, net(2 * i + 1)) else first;
      Tries(a, lots, o, q, net, i)
      == if s.0.heard || !net(if again then 2 * i + 1 else 2 * i).transient then s else Tries(a, lots, s.0, s.1, net, i + 1)
  {}

  method Attempt(a: Action, lots: nat, ghost queue: seq<nat>, o: Outcome, q: seq<nat>, n: Net) returns (o': Outcome, q': seq<nat>)
    requires Meets(a, lots, queue, o.hits) && q == Applied(a, lots, queue, o.hits) && !o.heard
    ensures Meets(a, lots, queue, o'.hits) && q' == Applied(a, lots, queue, o'.hits)
    ensures |o'.hits| <= |o.hits| + 1 && (o'.heard ==> o'.hits != [])
    ensures (o', q') == Tried(a, lots, o, q, n)
  {
    o', q' := o, q;
    if n.reached && (a == Place || |q| > 0) {
      var at := if |q| > 0 then n.met % |q| else 0;
      HitLast(a, lots, queue, o.hits, at);
      o', q' := Outcome(o.hits + [at], n.seen), Hit(a, lots, q, at);
    }
  }

  /** A send gets through in the first of its three tries that reaches the book and is seen to, if those before
      were lost in a way that is tried again; and no try is made after the third. */
  lemma GetsThrough(a: Action, lots: nat, queue: seq<nat>, net: nat -> Net, i: nat)
    requires a == Place || queue != []
    requires forall k: nat | k < i :: !net(2 * k).reached && !net(2 * k).expired && net(2 * k).transient
    ensures i < 3 && net(2 * i).reached && net(2 * i).seen ==>
      var at := if queue != [] then net(2 * i).met % |queue| else 0;
      Tries(a, lots, NOTHING, queue, net, 0) == (Outcome([at], true), Hit(a, lots, queue, at))
    ensures i >= 3 ==> Tries(a, lots, NOTHING, queue, net, 0) == (NOTHING, queue)
  {
    LostTries(a, lots, queue, net, i, 0);
    if i < 3 {
      TriesStep(a, lots, NOTHING, queue, net, i);
      var at := if queue != [] then net(2 * i).met % |queue| else 0;
      assert [] + [at] == [at];
      assert net(2 * i).reached ==> Tried(a, lots, NOTHING, queue, net(2 * i)) == (Outcome([at], net(2 * i).seen), Hit(a, lots, queue, at));
      hide Tries, Hit;
    }
  }

  lemma LostTries(a: Action, lots: nat, queue: seq<nat>, net: nat -> Net, i: nat, k: nat)
    requires k <= i && forall k: nat | k < i :: !net(2 * k).reached && !net(2 * k).expired && net(2 * k).transient
    ensures Tries(a, lots, NOTHING, queue, net, k) == if i < 3 then Tries(a, lots, NOTHING, queue, net, i) else (NOTHING, queue)
    decreases i - k
  {
    if k < 3 && k < i { LostTries(a, lots, queue, net, i, k + 1); }
  }

  /** A placement that is never heard of can rest three times over, and with expired sessions six. */
  lemma AtMostSixLand(lots: nat, met: nat, expired: bool)
    ensures var r := Tries(Place, lots, NOTHING, [], k => Net(true, met, false, expired, true), 0);
      |r.0.hits| == (if expired then 6 else 3) && !r.0.heard
  {}

  /** A level's send came to what the network made of it. */
  ghost predicate Delivered(want: Option<Rung>, before: Level, o: Outcome, net: nat -> Net) {
    o == Tries(ActionFor(want, before.have), LotsOf(want), NOTHING, before.queue, net, 0).0
  }

  ghost predicate AllDelivered(desired: map<nat, Rung>, was: Side, outs: map<nat, Outcome>, nets: nat -> nat -> Net) {
    forall l | l in outs :: Delivered(RungAt(desired, l), LevelAt(was, l), outs[l], nets(l))
  }

  lemma NoneDelivered(desired: map<nat, Rung>, was: Side, nets: nat -> nat -> Net)
    ensures AllDelivered(desired, was, map[], nets)
  {}

  lemma OneMoreDelivered(desired: map<nat, Rung>, was: Side, prev: Side, outs: map<nat, Outcome>, nets: nat -> nat -> Net,
                         lvl: nat, o: Outcome, more: map<nat, Outcome>)
    requires AllDelivered(desired, was, outs, nets) && Moved(desired, was, prev, outs, lvl) && lvl !in outs
    requires Delivered(RungAt(desired, lvl), LevelAt(prev, lvl), o, nets(lvl)) && more == outs[lvl := o]
    ensures AllDelivered(desired, was, more, nets)
  {
    hide Delivered;
  }

  datatype Quote = Quote(bid: bool, rung: Rung)

  /** One side's Map, updated in place. */
  class SideState {
    const bid: bool
    var model: map<nat, Rung>
    var resting: map<nat, seq<nat>>

    ghost function State(): Side
      reads this
    {
      Side(model, resting)
    }

    constructor (bid: bool)
      ensures this.bid == bid && State() == Side(map[], map[])
    {
      this.bid := bid;
      model, resting := map[], map[];
    }

    /** One `modify_order`: the model follows the send, and forgets the rung when it fails. */
    method ModifyRung(lvl: nat, want: Rung, net: nat -> Net) returns (o: Outcome)
      requires ActionFor(Some(want), RungAt(model, lvl)) == Modify
      modifies this
      ensures LevelStep(Some(want), LevelAt(old(State()), lvl), LevelAt(State(), lvl), o)
      ensures Delivered(Some(want), LevelAt(old(State()), lvl), o, net)
      ensures SameElsewhere(old(State()), State(), lvl)
    {
      var queue;
      o, queue := Send(Modify, ToNat(want.lots), QueueAt(resting, lvl), net);
      resting := resting[lvl := queue];
      model := if o.heard then model[lvl := want] else model - {lvl};
    }

    /** One `cancel_order`: the model drops the rung whether or not the send came back. */
    method CancelRung(lvl: nat, net: nat -> Net) returns (o: Outcome)
      requires lvl in model
      modifies this
      ensures LevelStep(None, LevelAt(old(State()), lvl), LevelAt(State(), lvl), o)
      ensures Delivered(None, LevelAt(old(State()), lvl), o, net)
      ensures SameElsewhere(old(State()), State(), lvl)
      ensures model.Keys == old(model.Keys) - {lvl}
    {
      var queue;
      o, queue := Send(Cancel, 0, QueueAt(resting, lvl), net);
      resting := resting[lvl := queue];
      model := model - {lvl};
    }

    /** Modify what drifted, collect what is missing, cancel what is no longer wanted. */
    method ApplySide(levels: nat, desired: map<nat, Rung>, nets: nat -> nat -> Net) returns (toPlace: seq<Quote>, outs: map<nat, Outcome>)
      requires Keyed(bid, desired, levels)
      modifies this
      ensures Queued(bid, desired, MissingLevels(desired, old(model), levels), toPlace)
      ensures forall l: nat :: l in outs <==> Touches(desired, old(model), l)
      ensures forall l: nat :: Moved(desired, old(State()), State(), outs, l)
      ensures AllDelivered(desired, old(State()), outs, nets)
    {
      hide Delivered, AllDelivered;
      toPlace, outs := [], map[];
      ghost var was := State();
      NoneDelivered(desired, was, nets);
      for lvl := 1 to levels + 1
        invariant Queued(bid, desired, MissingLevels(desired, was.model, lvl - 1), toPlace)
        invariant forall l: nat :: l in outs <==> l < lvl && Drifted(desired, was.model, l)
        invariant forall l: nat :: Moved(desired, was, State(), outs, l)
        invariant AllDelivered(desired, was, outs, nets)
      {
        assert Moved(desired, was, State(), outs, lvl);
        if lvl in desired {
          var want := desired[lvl];
          if lvl !in model {
            toPlace := toPlace + [Quote(bid, want)];
          } else if model[lvl].price != want.price || model[lvl].lots != want.lots {
            ghost var prev, sent := State(), outs;
            var o := ModifyRung(lvl, want, nets(lvl));
            outs := outs[lvl := o];
            MovedOn(desired, was, prev, State(), sent, lvl, o, outs);
            OneMoreDelivered(desired, was, prev, sent, nets, lvl, o, outs);
          }
        }
      }
      outs := DropUnwanted(desired, outs, was, nets);
    }

    /** Cancel the rungs the ladder has no place for. */
    method DropUnwanted(desired: map<nat, Rung>, moves: map<nat, Outcome>, ghost was: Side, nets: nat -> nat -> Net)
      returns (outs: map<nat, Outcome>)
      requires forall l: nat :: l in moves <==> Drifted(desired, was.model, l)
      requires forall l: nat :: Moved(desired, was, State(), moves, l)
      requires AllDelivered(desired, was, moves, nets)
      modifies this
      ensures forall l: nat :: l in outs <==> Touches(desired, was.model, l)
      ensures forall l: nat :: Moved(desired, was, State(), outs, l)
      ensures AllDelivered(desired, was, outs, nets)
    {
      hide Delivered, AllDelivered;
      outs := moves;
      var todo := model.Keys - desired.Keys;
      forall l: nat ensures l in outs || l in todo <==> Touches(desired, was.model, l) {
        assert Moved(desired, was, State(), outs, l);
        assert LevelAt(State(), l).have == RungAt(model, l) && LevelAt(was, l).have == RungAt(was.model, l);
      }
      hide Moved, Touches;
      while todo != {}
        invariant todo <= model.Keys - desired.Keys
        invariant forall l: nat | l in todo :: l !in outs
        invariant forall l: nat :: l in outs || l in todo <==> Touches(desired, was.model, l)
        invariant forall l: nat :: Moved(desired, was, State(), outs, l)
        invariant AllDelivered(desired, was, outs, nets)
      {
        var lvl :| lvl in todo;
        assert Moved(desired, was, State(), outs, lvl);
        ghost var prev, sent := State(), outs;
        var o := CancelRung(lvl, nets(lvl));
        outs := outs[lvl := o];
        todo := todo - {lvl};
        MovedOn(desired, was, prev, State(), sent, lvl, o, outs);
        OneMoreDelivered(desired, was, prev, sent, nets, lvl, o, outs);
      }
    }

    /** One `place_order`; the level it is filed under is read back out of its client id. */
    method PlaceRung(rung: Rung, net: nat -> Net) returns (o: Outcome)
      requires LevelOf(rung.coid) !in model
      modifies this
      ensures LevelStep(Some(rung), LevelAt(old(State()), LevelOf(rung.coid)), LevelAt(State(), LevelOf(rung.coid)), o)
      ensures SameElsewhere(old(State()), State(), LevelOf(rung.coid))
      ensures Delivered(Some(rung), LevelAt(old(State()), LevelOf(rung.coid)), o, net)
    {
      var lvl := LevelOf(rung.coid);
      var queue;
      o, queue := Send(Place, ToNat(rung.lots), QueueAt(resting, lvl), net);
      resting := resting[lvl := queue];
      if o.heard { model := model[lvl := rung]; }
    }

    /** The placing loop: one `place_order` a missing rung. */
    method PlaceAll(levels: nat, ghost desired: map<nat, Rung>, ghost model0: map<nat, Rung>, toPlace: seq<Quote>,
                    nets: nat -> nat -> Net)
      returns (outs: map<nat, Outcome>)
      requires levels <= 8 && Keyed(bid, desired, levels)
      requires Queued(bid, desired, MissingLevels(desired, model0, levels), toPlace)
      requires forall l: nat | l in desired && l !in model0 :: l !in model
      modifies this
      ensures forall l: nat :: l in outs <==> l in desired && l !in model0
      ensures forall l: nat :: Moved(desired, old(State()), State(), outs, l)
      ensures AllDelivered(desired, old(State()), outs, nets)
    {
      hide LevelOf, CoidOf, LevelStep, Moved, SameElsewhere, LevelAt, MissingLevels, Applied, Meets, Hit, Possible, QueueAt, RungAt,
        Delivered, AllDelivered;
      outs := map[];
      ghost var was := State();
      NoneDelivered(desired, was, nets);
      NoneMoved(desired, was);
      ghost var ls := MissingLevels(desired, model0, levels);
      QueuedKeys(bid, desired, levels, ls, toPlace);
      hide Queued, Keyed;
      for k := 0 to |toPlace|
        invariant forall l: nat :: l in outs <==> l in ls[..k]
        invariant forall l: nat :: Moved(desired, was, State(), outs, l)
        invariant AllDelivered(desired, was, outs, nets)
      {
        ghost var prev, sent := State(), outs;
        assert ls[k] in desired && ls[k] !in model0 && ls[k] !in ls[..k] by { MissingOnce(desired, model0, levels); }
        NotYet(desired, was, prev, sent, ls[k]);
        var o := PlaceRung(toPlace[k].rung, nets(LevelOf(toPlace[k].rung.coid)));
        outs := outs[LevelOf(toPlace[k].rung.coid) := o];
        assert ls[..k + 1] == ls[..k] + [ls[k]];
        MovedOn(desired, was, prev, State(), sent, ls[k], o, outs);
        OneMoreDelivered(desired, was, prev, sent, nets, ls[k], o, outs);
      }
      assert ls[..|toPlace|] == ls;
      MissingOnce(desired, model0, levels);
    }
  }

  /** Each queued quote is filed under the level it was queued for. */
  lemma QueuedKeys(bid: bool, desired: map<nat, Rung>, levels: nat, ls: seq<nat>, toPlace: seq<Quote>)
    requires levels <= 8 && Keyed(bid, desired, levels) && Queued(bid, desired, ls, toPlace)
    ensures |toPlace| == |ls|
    ensures forall k | 0 <= k < |ls| ::
      LevelOf(toPlace[k].rung.coid) == ls[k] && RungAt(desired, ls[k]) == Some(toPlace[k].rung)
  {
    forall k | 0 <= k < |ls| ensures LevelOf(toPlace[k].rung.coid) == ls[k] { LevelRoundTrip(bid, ls[k]); }
  }

  ghost predicate Keyed(bid: bool, m: map<nat, Rung>, levels: nat) {
    forall l: nat | l in m :: 1 <= l <= levels && m[l].coid == CoidOf(bid, l)
  }

  /** The missing list names each missing level once. */
  lemma {:induction false} MissingOnce(desired: map<nat, Rung>, model: map<nat, Rung>, n: nat)
    ensures var ls := MissingLevels(desired, model, n);
      && (forall i, j | 0 <= i < j < |ls| :: ls[i] < ls[j])
      && (forall i | 0 <= i < |ls| :: 1 <= ls[i] <= n)
      && (forall l: nat :: l in ls <==> 1 <= l <= n && l in desired && l !in model)
  {
    if n > 0 { MissingOnce(desired, model, n - 1); }
  }

  // ── the cycle ─────────────────────────────────────────────────────────────

  datatype Cycle =
    | Skipped
    | Quoted(position: int, mark: int, reconciled: bool, cleared: bool, bidOuts: map<nat, Outcome>, askOuts: map<nat, Outcome>)

  /** One market's quoting state. */
  class Market {
    const bids: SideState
    const asks: SideState
    const tick: nat
    var lastMidTicks: int
    var lastQuoteTs: int
    var lastReconcile: int
    var cycles: nat

    constructor (tick: nat)
      requires 0 < tick
      ensures Valid() && fresh(bids) && fresh(asks)
      ensures bids.State() == asks.State() == Side(map[], map[])
      ensures lastMidTicks == lastQuoteTs == lastReconcile == 0 && cycles == 0 && this.tick == tick
    {
      bids := new SideState(true);
      asks := new SideState(false);
      this.tick := tick;
      lastMidTicks, lastQuoteTs, lastReconcile, cycles := 0, 0, 0, 0;
    }

    ghost predicate Valid() { bids.bid && !asks.bid && bids != asks && 0 < tick }

    /** A clean re-lay is due on its own timer, and always on the first cycle. */
    predicate ReconcileDue(c: Config, now: int)
      reads this
    {
      lastReconcile == 0 || now - lastReconcile > c.reconcileMs
    }

    /** The cooldown: nothing moved enough, no side is short of rungs and no re-lay is due. */
    predicate Cools(c: Config, now: int, mark: int, mid: int, nBids: nat, nAsks: nat)
      reads this, bids, asks
    {
      && lastMidTicks != 0
      && Abs(mid - lastMidTicks) as real / MaxInt(1, mark) as real * 10000.0 < c.repriceBps
      && |bids.model| >= nBids && |asks.model| >= nAsks
      && !ReconcileDue(c, now) && lastQuoteTs != 0
    }

    lemma CoolsIff(c: Config, now: int, mark: int, mid: int, nBids: nat, nAsks: nat)
      ensures ReconcileDue(c, now) <==> lastReconcile == 0 || now - lastReconcile > c.reconcileMs
      ensures Cools(c, now, mark, mid, nBids, nAsks) <==>
        && lastReconcile != 0 && now - lastReconcile <= c.reconcileMs && lastQuoteTs != 0 && lastMidTicks != 0
        && (if mid < lastMidTicks then lastMidTicks - mid else mid - lastMidTicks) as real
           / (if mark < 1 then 1 else mark) as real * 10000.0 < c.repriceBps
        && |bids.model| >= nBids && |asks.model| >= nAsks
    {}

    /** One quoting cycle. The oracle and the portfolio may fail to answer: no mark means no
        cycle, no portfolio means quoting as if flat. */
    method QuoteMarket(c: Config, now: int, lastPrice: Option<nat>, read: Option<int>, clears: bool, nets: bool -> nat -> nat -> Net)
      returns (r: Cycle)
      requires Valid() && c.Valid()
      modifies this, bids, asks
      ensures Valid() && cycles == old(cycles) + 1
      ensures r.Skipped? ==>
        && bids.State() == old(bids.State()) && asks.State() == old(asks.State())
        && lastMidTicks == old(lastMidTicks) && lastQuoteTs == old(lastQuoteTs) && lastReconcile == old(lastReconcile)
      ensures r.Quoted? ==>
        && lastPrice.Some? && lastPrice.value != 0 && r.mark == lastPrice.value / tick
        && r.position == (if read.Some? then read.value else 0)
        && lastMidTicks == Mid(c, r.mark, r.position) && MidInNumbers(c, r.mark, lastMidTicks, r.position) && lastQuoteTs == now
        && lastReconcile == (if r.reconciled then now else old(lastReconcile))
        && SideStep(Desired(c, true, r.mark, r.position), Begun(r, old(bids.State())), bids.State(), r.bidOuts)
        && SideStep(Desired(c, false, r.mark, r.position), Begun(r, old(asks.State())), asks.State(), r.askOuts)
        && AllDelivered(Desired(c, true, r.mark, r.position), Begun(r, old(bids.State())), r.bidOuts, nets(true))
        && AllDelivered(Desired(c, false, r.mark, r.position), Begun(r, old(asks.State())), r.askOuts, nets(false))
        && r.cleared == (r.reconciled && clears)
      // A re-lay happens exactly when it is due: on the first cycle, and once its interval is over.
      ensures lastPrice.Some? && lastPrice.value != 0 ==>
        (r.Quoted? && r.reconciled <==> old(lastReconcile) == 0 || now - old(lastReconcile) > c.reconcileMs)
      // And a cycle is skipped exactly when none is due, the mid is within its distance and no rung is missing.
      ensures lastPrice.Some? && lastPrice.value != 0 ==>
        var mark, position := lastPrice.value / tick, if read.Some? then read.value else 0;
        var mid := Mid(c, mark, position);
        && MidInNumbers(c, mark, mid, position)
        && (r.Skipped? <==>
              && old(lastReconcile) != 0 && now - old(lastReconcile) <= c.reconcileMs && old(lastQuoteTs) != 0
              && old(lastMidTicks) != 0
              && (if mid < old(lastMidTicks) then old(lastMidTicks) - mid else mid - old(lastMidTicks)) as real
                 / (if mark < 1 then 1 else mark) as real * 10000.0 < c.repriceBps
              && |old(bids.model)| >= (if position < c.maxPosition then c.levels else 0)
              && |old(asks.model)| >= (if -c.maxPosition < position then c.levels else 0))
    {
      hide Mid, Scale, InvFrac, WantedRung, LevelStep, SideStep, Desired, MidInNumbers, FullInNumbers, Keyed, RungInNumbers,
        Nearest, Cools, ReconcileDue, AllDelivered, Begun, InNumbers;
      r := Skipped;
      cycles := cycles + 1;
      if lastPrice.None? || lastPrice.value == 0 { return; }
      var mark := lastPrice.value / tick;
      var position := if read.Some? then read.value else 0;
      var desiredBids, desiredAsks, mid, sizes := DesiredLadder(c, mark, position);
      Counted(c, true, mark, mid, position, desiredBids, sizes);
      Counted(c, false, mark, mid, position, desiredAsks, sizes);
      var reconcile := ReconcileDue(c, now);
      CoolsIff(c, now, mark, mid, |desiredBids|, |desiredAsks|);
      if Cools(c, now, mark, mid, |desiredBids|, |desiredAsks|) { return; }
      DesiredKeyed(c, mark, position);
      r := Requote(c, now, mark, position, mid, reconcile, clears, nets, desiredBids, desiredAsks);
    }

    /** What a cycle that is not skipped does: the teardown if one is due, then both sides. */
    method Requote(c: Config, now: int, mark: int, position: int, mid: int, reconcile: bool,
                   clears: bool, nets: bool -> nat -> nat -> Net, desiredBids: map<nat, Rung>, desiredAsks: map<nat, Rung>) returns (r: Cycle)
      requires Valid() && c.Valid() && Keyed(true, desiredBids, c.levels) && Keyed(false, desiredAsks, c.levels)
      modifies this, bids, asks
      ensures Valid() && r.Quoted? && r.mark == mark && r.position == position && r.reconciled == reconcile
      ensures r.cleared == (reconcile && clears) && cycles == old(cycles)
      ensures lastMidTicks == mid && lastQuoteTs == now && lastReconcile == if reconcile then now else old(lastReconcile)
      ensures SideStep(desiredBids, Begun(r, old(bids.State())), bids.State(), r.bidOuts)
      ensures SideStep(desiredAsks, Begun(r, old(asks.State())), asks.State(), r.askOuts)
      ensures AllDelivered(desiredBids, Begun(r, old(bids.State())), r.bidOuts, nets(true))
      ensures AllDelivered(desiredAsks, Begun(r, old(asks.State())), r.askOuts, nets(false))
    {
      hide LevelStep, SideStep, Keyed, AllDelivered;
      var landed := false;
      if reconcile {
        CancelAll(clears);
        landed := clears;
        lastReconcile := now;
      }
      var bidOuts, askOuts := LaySides(c.levels, desiredBids, desiredAsks, nets);
      lastMidTicks, lastQuoteTs := mid, now;
      r := Quoted(position, mark, reconcile, landed, bidOuts, askOuts);
    }

    /** The only teardown: both models are forgotten whether or not the send came back. */
    method CancelAll(landed: bool)
      requires Valid()
      modifies bids, asks
      ensures bids.State() == Cleared(old(bids.State()), landed)
      ensures asks.State() == Cleared(old(asks.State()), landed)
    {
      bids.model, asks.model := map[], map[];
      if landed { bids.resting, asks.resting := map[], map[]; }
    }

    /** The diff of both sides, then the placing loop over both. */
    method LaySides(levels: nat, desiredBids: map<nat, Rung>, desiredAsks: map<nat, Rung>, nets: bool -> nat -> nat -> Net)
      returns (bidOuts: map<nat, Outcome>, askOuts: map<nat, Outcome>)
      requires Valid() && levels <= 8
      requires Keyed(true, desiredBids, levels) && Keyed(false, desiredAsks, levels)
      modifies bids, asks
      ensures SideStep(desiredBids, old(bids.State()), bids.State(), bidOuts)
      ensures SideStep(desiredAsks, old(asks.State()), asks.State(), askOuts)
      ensures AllDelivered(desiredBids, old(bids.State()), bidOuts, nets(true))
      ensures AllDelivered(desiredAsks, old(asks.State()), askOuts, nets(false))
    {
      hide LevelStep, AllDelivered;
      ghost var b0, a0 := bids.State(), asks.State();
      var placeBids, bidMoves := bids.ApplySide(levels, desiredBids, nets(true));
      assert asks.State() == a0;
      var placeAsks, askMoves := asks.ApplySide(levels, desiredAsks, nets(false));
      ghost var b1, a1 := bids.State(), asks.State();
      StillMissing(desiredBids, b0, b1, bidMoves);
      StillMissing(desiredAsks, a0, a1, askMoves);
      var bidPlaced := bids.PlaceAll(levels, desiredBids, b0.model, placeBids, nets(true));
      assert asks.State() == a1;
      var askPlaced := asks.PlaceAll(levels, desiredAsks, a0.model, placeAsks, nets(false));
      Compose(desiredBids, b0, b1, bids.State(), bidMoves, bidPlaced);
      Compose(desiredAsks, a0, a1, asks.State(), askMoves, askPlaced);
      bidOuts, askOuts := bidMoves + bidPlaced, askMoves + askPlaced;
      JoinDelivered(desiredBids, b0, b1, bidMoves, bidPlaced, nets(true));
      JoinDelivered(desiredAsks, a0, a1, askMoves, askPlaced, nets(false));
    }
  }

  lemma DesiredKeyed(c: Config, mark: int, position: int)
    requires c.Valid()
    ensures Keyed(true, Desired(c, true, mark, position), c.levels)
    ensures Keyed(false, Desired(c, false, mark, position), c.levels)
  {}

  /** What a side looks like once the re-lay, if any, is out of the way. */
  function Begun(r: Cycle, s: Side): Side { if r.Quoted? && r.reconciled then Cleared(s, r.cleared) else s }

  lemma StillMissing(desired: map<nat, Rung>, was: Side, now: Side, outs: map<nat, Outcome>)
    requires forall l: nat :: l in outs <==> Touches(desired, was.model, l)
    requires forall l: nat :: Moved(desired, was, now, outs, l)
    ensures forall l: nat | l in desired && l !in was.model :: l !in now.model
  {
    forall l: nat | l in desired && l !in was.model ensures l !in now.model {
      assert Moved(desired, was, now, outs, l);
      assert LevelAt(now, l).have == RungAt(now.model, l) && LevelAt(was, l).have == RungAt(was.model, l);
    }
  }

  lemma JoinDelivered(desired: map<nat, Rung>, s0: Side, s1: Side, moves: map<nat, Outcome>, places: map<nat, Outcome>,
                      nets: nat -> nat -> Net)
    requires forall l: nat :: Moved(desired, s0, s1, moves, l)
    requires forall l: nat :: l in moves <==> Touches(desired, s0.model, l)
    requires forall l: nat :: l in places <==> l in desired && l !in s0.model
    requires AllDelivered(desired, s0, moves, nets) && AllDelivered(desired, s1, places, nets)
    ensures AllDelivered(desired, s0, moves + places, nets)
  {
    hide Delivered;
    forall l | l in moves + places ensures Delivered(RungAt(desired, l), LevelAt(s0, l), (moves + places)[l], nets(l)) {
      assert Moved(desired, s0, s1, moves, l);
      if l in places { assert l !in moves && LevelAt(s1, l) == LevelAt(s0, l); }
    }
  }

  /** The two passes touch different levels, so together they are one step of every level. */
  lemma Compose(desired: map<nat, Rung>, s0: Side, s1: Side, s2: Side, moves: map<nat, Outcome>, places: map<nat, Outcome>)
    requires forall l: nat :: l in moves <==> Touches(desired, s0.model, l)
    requires forall l: nat :: Moved(desired, s0, s1, moves, l)
    requires forall l: nat :: l in places <==> l in desired && l !in s0.model
    requires forall l: nat :: Moved(desired, s1, s2, places, l)
    ensures SideStep(desired, s0, s2, moves + places)
  {
    var outs := moves + places;
    forall l: nat
      ensures l in outs <==> ActionFor(RungAt(desired, l), RungAt(s0.model, l)) != Keep
      ensures LevelStep(RungAt(desired, l), LevelAt(s0, l), LevelAt(s2, l), OutcomeAt(outs, l))
    {
      assert Moved(desired, s0, s1, moves, l) && Moved(desired, s1, s2, places, l);
    }
  }
}
