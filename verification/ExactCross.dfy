/** Clearing the venue's own rungs and crossing the user's order in one transaction, then putting
    the rungs back. */
module ExactCross {
  import opened Prelude
  import opened Orders
  import opened MatchingBook

  function CancelAhead(s: Side, ahead: seq<Order>): seq<Ix> {
    if ahead == [] then [] else [CancelIx(s, ahead[0].coid)] + CancelAhead(s, ahead[1..])
  }

  /** The match transaction: every rung ahead is cancelled, then an immediate-or-cancel takes exactly
      the target's lots at the target's price. */
  function MatchTx(s: Side, ahead: seq<Order>, target: Order, coid: nat): seq<Ix> {
    CancelAhead(s, ahead) + [PlaceIx(s.Opposite(), ImmediateOrCancel, target.price, target.lots, coid, false)]
  }

  /** Cancelling the orders at the front, in queue order, always meets the right one first: each is
      the head when its turn comes, so client ids need not even be unique. */
  lemma {:induction false} CancelsPeel(b: Book, s: Side, ahead: seq<Order>, behind: seq<Order>, maker: nat, tail: seq<Ix>)
    requires QueueOf(b, s) == ahead + behind && forall o | o in ahead :: o.trader == maker
    requires tail != []
    ensures Execute(b, maker, CancelAhead(s, ahead) + tail) == Execute(WithQueue(b, s, behind), maker, tail)
    decreases |ahead|
  {
    if ahead == [] {
      assert ahead + behind == behind && CancelAhead(s, ahead) + tail == tail;
    } else {
      var b' := WithQueue(b, s, ahead[1..] + behind);
      assert QueueOf(b, s)[0] == ahead[0] && ahead[0] in ahead;
      assert QueueOf(b, s)[1..] == ahead[1..] + behind;
      assert Step(b, maker, CancelIx(s, ahead[0].coid)) == Some(Effect(b', []));
      assert WithQueue(b', s, behind) == WithQueue(b, s, behind) && QueueOf(b', s) == ahead[1..] + behind;
      var rest := CancelAhead(s, ahead[1..]) + tail;
      assert CancelAhead(s, ahead) + tail == [CancelIx(s, ahead[0].coid)] + rest;
      hide Step, Execute, WithQueue, QueueOf, CancelAhead;
      CancelsPeel(b', s, ahead[1..], behind, maker, tail);
      FirstStep(b, maker, CancelIx(s, ahead[0].coid), rest, b');
    }
  }

  /** A first instruction that fills nothing leaves the rest to run on what it left. */
  lemma FirstStep(b: Book, signer: nat, ix: Ix, rest: seq<Ix>, b': Book)
    requires Step(b, signer, ix) == Some(Effect(b', []))
    ensures Execute(b, signer, [ix] + rest) == Execute(b', signer, rest)
  {
    assert ([ix] + rest)[1..] == rest;
    match Execute(b', signer, rest) {
      case None =>
      case Some(e) => assert [] + e.fills == e.fills;
    }
  }

  /** The transaction fills the whole target at its own price, fills nobody else, and leaves the rest
      of the book untouched: what was behind the target is now at the front. */
  lemma CrossesExactly(b: Book, s: Side, index: nat, maker: nat, coid: nat)
    requires Valid(b) && b.pending < PENDING_FILLS && index < |QueueOf(b, s)|
    requires forall o | o in QueueOf(b, s)[..index] :: o.trader == maker
    ensures var q := QueueOf(b, s);
      var t := q[index];
      var e := Execute(b, maker, MatchTx(s, q[..index], t, coid));
      var whole := Fill(t.trader, t.coid, t.price, t.lots, true);
      && (t.trader != maker ==>
            e == Some(Effect(WithQueue(b, s, q[index + 1..]).(pending := b.pending + 1), [whole])))
      && (t.trader == maker ==> e.None? || whole !in e.value.fills)
  {
    var q := QueueOf(b, s);
    var t, ahead, behind := q[index], q[..index], q[index..];
    var ioc := PlaceIx(s.Opposite(), ImmediateOrCancel, t.price, t.lots, coid, false);
    var b' := WithQueue(b, s, behind);
    CutAt(b, s, index);
    assert MatchTx(s, ahead, t, coid) == CancelAhead(s, ahead) + [ioc];
    hide *;
    CancelsPeel(b, s, ahead, behind, maker, [ioc]);
    LastStep(b', maker, ioc);
    if t.trader != maker {
      HeadIsCrossed(b', s, behind, maker, coid);
    } else {
      OwnHeadIsNot(b', s, behind, maker, coid);
    }
  }

  lemma CutAt(b: Book, s: Side, index: nat)
    requires Valid(b) && index < |QueueOf(b, s)|
    ensures var q := QueueOf(b, s);
      var t, behind := q[index], q[index..];
      var b' := WithQueue(b, s, behind);
      && q == q[..index] + behind && behind[0] == t && behind[1..] == q[index + 1..] && 0 < t.lots && 0 < t.price
      && QueueOf(b', s) == behind && b'.pending == b.pending
      && WithQueue(b', s, behind[1..]) == WithQueue(b, s, behind[1..])
  {
    assert QueueOf(b, s)[index] in QueueOf(b, s);
  }

  /** Somebody else's order at the head is taken whole by an order for just its lots at its price. */
  lemma HeadIsCrossed(b: Book, s: Side, q: seq<Order>, maker: nat, coid: nat)
    requires QueueOf(b, s) == q != [] && b.pending < PENDING_FILLS
    requires q[0].trader != maker && 0 < q[0].lots && 0 < q[0].price
    ensures Step(b, maker, PlaceIx(s.Opposite(), ImmediateOrCancel, q[0].price, q[0].lots, coid, false))
         == Some(Effect(WithQueue(b, s, q[1..]).(pending := b.pending + 1),
                        [Fill(q[0].trader, q[0].coid, q[0].price, q[0].lots, true)]))
  {
    var t := q[0];
    var whole := Fill(t.trader, t.coid, t.price, t.lots, true);
    assert s.Opposite().Opposite() == s;
    assert Cross(s.Opposite(), q[1..], t.price, 0, maker, MAX_FILLS_PER_ORDER - 1) == Crossing(q[1..], [], 0);
    assert [whole] + [] == [whole];
    assert Cross(s.Opposite(), q, t.price, t.lots, maker, MAX_FILLS_PER_ORDER) == Crossing(q[1..], [whole], 0);
    hide Cross;
  }

  lemma OwnHeadIsNot(b: Book, s: Side, q: seq<Order>, maker: nat, coid: nat)
    requires QueueOf(b, s) == q != [] && q[0].trader == maker
    ensures var e := Step(b, maker, PlaceIx(s.Opposite(), ImmediateOrCancel, q[0].price, q[0].lots, coid, false));
      e.None? || Fill(q[0].trader, q[0].coid, q[0].price, q[0].lots, true) !in e.value.fills
  {
    assert s.Opposite().Opposite() == s;
    NoSelfFill(s.Opposite(), q, q[0].price, q[0].lots, maker, MAX_FILLS_PER_ORDER);
    hide Cross;
  }

  // ── on whatever book it lands ─────────────────────────────────────────────

  /** The queue once the cancels have run, each on the first order with its client id. */
  function Removed(q: seq<Order>, ahead: seq<Order>, maker: nat): Option<seq<Order>>
    decreases |ahead|
  {
    if ahead == [] then Some(q)
    else match Remove(q, maker, ahead[0].coid)
      case None => None
      case Some(rest) => Removed(rest, ahead[1..], maker)
  }

  /** The first order that is somebody else's. */
  function Foreign(q: seq<Order>, maker: nat): Option<Order> {
    if q == [] then None else if q[0].trader != maker then Some(q[0]) else Foreign(q[1..], maker)
  }

  lemma {:induction false} CancelsRemove(b: Book, s: Side, ahead: seq<Order>, maker: nat, tail: seq<Ix>)
    requires tail != []
    ensures Execute(b, maker, CancelAhead(s, ahead) + tail) ==
      match Removed(QueueOf(b, s), ahead, maker)
      case None => None
      case Some(r) => Execute(WithQueue(b, s, r), maker, tail)
    decreases |ahead|
  {
    if ahead == [] {
      assert CancelAhead(s, ahead) + tail == tail && WithQueue(b, s, QueueOf(b, s)) == b;
    } else {
      var rest := CancelAhead(s, ahead[1..]) + tail;
      assert CancelAhead(s, ahead) + tail == [CancelIx(s, ahead[0].coid)] + rest;
      match Remove(QueueOf(b, s), maker, ahead[0].coid) {
        case None => assert Step(b, maker, CancelIx(s, ahead[0].coid)).None?;
        case Some(q) =>
          var b' := WithQueue(b, s, q);
          assert Step(b, maker, CancelIx(s, ahead[0].coid)) == Some(Effect(b', []));
          assert QueueOf(b', s) == q && forall r :: WithQueue(b', s, r) == WithQueue(b, s, r);
          hide Step, Execute, WithQueue, QueueOf, CancelAhead, Remove;
          CancelsRemove(b', s, ahead[1..], maker, tail);
          FirstStep(b, maker, CancelIx(s, ahead[0].coid), rest, b');
      }
    }
  }

  predicate IsTarget(o: Order, t: Order) {
    o.trader == t.trader && o.coid == t.coid && o.price == t.price && o.lots == t.lots
  }

  function Whole(t: Order): Fill { Fill(t.trader, t.coid, t.price, t.lots, true) }

  /** Crossing at the target's price for its lots fills just the target exactly when the target is the first
      order that is not the maker's own; own orders before it are dropped. */
  lemma {:induction false} CrossAloneIff(s: Side, q: seq<Order>, t: Order, maker: nat, budget: nat)
    requires Sorted(s, q) && budget > 0 && 0 < t.lots
    ensures var x := Cross(s.Opposite(), q, t.price, t.lots, maker, budget);
      x.fills == [Whole(t)] <==> Foreign(q, maker).Some? && IsTarget(Foreign(q, maker).value, t)
    decreases |q|
  {
    if q != [] {
      assert Sorted(s, q[1..]) by {
        forall i, j | 0 <= i < j < |q[1..]| ensures RanksAhead(s, q[1..][i], q[1..][j]) {
          assert RanksAhead(s, q[i + 1], q[j + 1]);
        }
      }
      if q[0].trader == maker {
        CrossAloneIff(s, q[1..], t, maker, budget);
        ForeignBehind(s, q, maker);
      } else {
        assert Foreign(q, maker) == Some(q[0]);
        hide Sorted;
        HeadAloneIff(s, q, t, maker, budget);
      }
    }
  }

  lemma HeadAloneIff(s: Side, q: seq<Order>, t: Order, maker: nat, budget: nat)
    requires q != [] && q[0].trader != maker && budget > 0 && 0 < t.lots
    ensures Cross(s.Opposite(), q, t.price, t.lots, maker, budget).fills == [Whole(t)] <==> IsTarget(q[0], t)
  {
    var o, x := q[0], Cross(s.Opposite(), q, t.price, t.lots, maker, budget);
    if !Crosses(s.Opposite(), t.price, o.price) {
      assert x.fills == [] && !IsTarget(o, t);
    } else if t.lots < o.lots {
      assert x.fills == [Fill(o.trader, o.coid, o.price, t.lots, false)];
    } else {
      var rest := Cross(s.Opposite(), q[1..], t.price, t.lots - o.lots, maker, budget - 1);
      assert x.fills == [Whole(o)] + rest.fills && x.fills[0] == Whole(o);
      if t.lots == o.lots {
        assert rest == Crossing(q[1..], [], 0);
        assert x.fills == [Whole(o)];
      }
    }
  }

  lemma {:induction false} ForeignIn(q: seq<Order>, maker: nat)
    ensures Foreign(q, maker).Some? ==> Foreign(q, maker).value in q && Foreign(q, maker).value.trader != maker
  {
    if q != [] { ForeignIn(q[1..], maker); }
  }

  /** Nothing ranks ahead of the head, so an own head crosses whenever the first foreign order does. */
  lemma ForeignBehind(s: Side, q: seq<Order>, maker: nat)
    requires Sorted(s, q) && q != [] && q[0].trader == maker
    ensures Foreign(q, maker).Some? ==>
      forall price | Crosses(s.Opposite(), price, Foreign(q, maker).value.price) :: Crosses(s.Opposite(), price, q[0].price)
  {
    ForeignIn(q[1..], maker);
    if Foreign(q, maker).Some? {
      var i :| 0 <= i < |q[1..]| && q[1..][i] == Foreign(q, maker).value;
      assert RanksAhead(s, q[0], q[i + 1]);
    }
  }

  lemma {:induction false} RemoveSorted(s: Side, q: seq<Order>, trader: nat, coid: nat)
    requires Sorted(s, q) && Remove(q, trader, coid).Some?
    ensures Sorted(s, Remove(q, trader, coid).value)
    ensures forall x | x in Remove(q, trader, coid).value :: x in q
  {
    assert Sorted(s, q[1..]) by {
      forall i, j | 0 <= i < j < |q[1..]| ensures RanksAhead(s, q[1..][i], q[1..][j]) {
        assert RanksAhead(s, q[i + 1], q[j + 1]);
      }
    }
    if q[0].coid != coid {
      RemoveSorted(s, q[1..], trader, coid);
      var rest := Remove(q[1..], trader, coid).value;
      forall y | y in rest ensures RanksAhead(s, q[0], y) {
        var i :| 0 <= i < |q[1..]| && q[1..][i] == y;
        assert RanksAhead(s, q[0], q[i + 1]);
      }
      SortedCons(s, q[0], rest);
    }
  }

  lemma {:induction false} RemovedSorted(s: Side, q: seq<Order>, ahead: seq<Order>, maker: nat)
    requires Sorted(s, q) && Removed(q, ahead, maker).Some?
    ensures Sorted(s, Removed(q, ahead, maker).value)
    decreases |ahead|
  {
    if ahead != [] {
      RemoveSorted(s, q, maker, ahead[0].coid);
      RemovedSorted(s, Remove(q, maker, ahead[0].coid).value, ahead[1..], maker);
    }
  }

  /** On any book in priority order, however it has moved since it was read: the transaction lands and fills
      the target whole and nobody else exactly when the fill queue has room, every cancel finds an order of
      the maker's and the first order left that is not the maker's own is the target. */
  lemma CrossesAnywhereIff(b: Book, s: Side, ahead: seq<Order>, t: Order, maker: nat, coid: nat)
    requires Sorted(s, QueueOf(b, s)) && 0 < t.lots && 0 < t.price
    ensures var e, r := Execute(b, maker, MatchTx(s, ahead, t, coid)), Removed(QueueOf(b, s), ahead, maker);
      e.Some? && e.value.fills == [Whole(t)]
      <==> b.pending < PENDING_FILLS
           && r.Some? && Foreign(r.value, maker).Some? && IsTarget(Foreign(r.value, maker).value, t)
  {
    var ioc := PlaceIx(s.Opposite(), ImmediateOrCancel, t.price, t.lots, coid, false);
    CancelsRemove(b, s, ahead, maker, [ioc]);
    var r := Removed(QueueOf(b, s), ahead, maker);
    if r.Some? {
      var b' := WithQueue(b, s, r.value);
      assert QueueOf(b', s) == r.value && b'.pending == b.pending && s.Opposite().Opposite() == s;
      RemovedSorted(s, QueueOf(b, s), ahead, maker);
      CrossAloneIff(s, r.value, t, maker, MAX_FILLS_PER_ORDER);
      LastStep(b', maker, ioc);
      hide Execute, Cross, Removed, Foreign, WithQueue, QueueOf, Sorted;
      IocFills(b', s, r.value, t, maker, coid);
    }
  }

  lemma IocFills(b: Book, s: Side, q: seq<Order>, t: Order, maker: nat, coid: nat)
    requires QueueOf(b, s) == q && 0 < t.lots && 0 < t.price
    ensures var x := Cross(s.Opposite(), q, t.price, t.lots, maker, MAX_FILLS_PER_ORDER);
      var e := Step(b, maker, PlaceIx(s.Opposite(), ImmediateOrCancel, t.price, t.lots, coid, false));
      && (e.Some? ==> e.value.fills == x.fills
                      && e.value.book == WithQueue(b, s, x.queue).(pending := b.pending + |x.fills|))
      && (|x.fills| == 1 ==> (e.Some? <==> b.pending < PENDING_FILLS))
  {
    assert s.Opposite().Opposite() == s;
    hide Cross;
  }

  lemma LastStep(b: Book, signer: nat, ix: Ix)
    ensures Execute(b, signer, [ix]) == Step(b, signer, ix)
  {
    match Step(b, signer, ix) {
      case None =>
      case Some(e) => assert e.fills + [] == e.fills && [ix][1..] == [];
    }
  }

  // ── restoration ───────────────────────────────────────────────────────────

  /** What an owner asked for; only the arrival number is the book's to choose. */
  datatype Terms = Terms(trader: nat, coid: nat, price: nat, lots: nat, hidden: bool)

  function TermsOf(o: Order): Terms { Terms(o.trader, o.coid, o.price, o.lots, o.hidden) }

  lemma TermsTell(o: Order, p: Order)
    ensures TermsOf(o) == TermsOf(p) <==>
      o.trader == p.trader && o.coid == p.coid && o.price == p.price && o.lots == p.lots && o.hidden == p.hidden
  {}

  function AllTerms(q: seq<Order>): multiset<Terms> {
    if q == [] then multiset{} else multiset{TermsOf(q[0])} + AllTerms(q[1..])
  }

  lemma {:induction false} AllTermsAppend(p: seq<Order>, q: seq<Order>)
    ensures AllTerms(p + q) == AllTerms(p) + AllTerms(q)
  {
    if p == [] {
      assert p + q == q;
    } else {
      assert (p + q)[1..] == p[1..] + q;
      AllTermsAppend(p[1..], q);
    }
  }

  lemma {:induction false} InsertTerms(s: Side, q: seq<Order>, o: Order)
    ensures AllTerms(Insert(s, q, o)) == AllTerms(q) + multiset{TermsOf(o)}
  {
    if q == [] || RanksAhead(s, o, q[0]) {
      assert ([o] + q)[1..] == q;
    } else {
      InsertTerms(s, q[1..], o);
      assert Insert(s, q, o)[1..] == Insert(s, q[1..], o);
    }
  }

  /** The restore loop: one post-only placement an order, each of which the engine may turn down;
      a refusal is logged and the loop goes on. */
  function Restored(b: Book, s: Side, removed: seq<Order>, maker: nat, accepts: seq<bool>): Book
    requires |accepts| == |removed|
    decreases |removed|
  {
    if removed == [] then b
    else
      var o := removed[0];
      var e := Place(b, s, PostOnly, o.price, o.lots, maker, o.coid, o.hidden);
      Restored(if accepts[0] && e.Some? then e.value.book else b, s, removed[1..], maker, accepts[1..])
  }

  /** What comes back: the orders the engine accepts, as long as the side has room. */
  function Accepted(removed: seq<Order>, accepts: seq<bool>, room: nat): multiset<Terms>
    requires |accepts| == |removed|
  {
    if removed == [] || room == 0 then multiset{}
    else if accepts[0] then multiset{TermsOf(removed[0])} + Accepted(removed[1..], accepts[1..], room - 1)
    else Accepted(removed[1..], accepts[1..], room)
  }

  function Room(q: seq<Order>): nat { if |q| < ORDERS_PER_SIDE then ORDERS_PER_SIDE - |q| else 0 }

  lemma {:induction false} FullTakesNothing(b: Book, s: Side, removed: seq<Order>, maker: nat, accepts: seq<bool>)
    requires |accepts| == |removed| && |QueueOf(b, s)| >= ORDERS_PER_SIDE
    ensures Restored(b, s, removed, maker, accepts) == b
    decreases |removed|
  {
    if removed != [] {
      assert Place(b, s, PostOnly, removed[0].price, removed[0].lots, maker, removed[0].coid, removed[0].hidden).None?;
      FullTakesNothing(b, s, removed[1..], maker, accepts[1..]);
    }
  }

  /** With nothing to cross, every order the engine accepts and the side has room for comes back on its own
      terms, first cleared first served; the book stays in priority order and uncrossed and the other side
      is not touched. */
  lemma {:induction false} RestorePutsBack(b: Book, s: Side, removed: seq<Order>, maker: nat, accepts: seq<bool>)
    requires |accepts| == |removed| && Valid(b)
    requires forall o | o in removed :: o.trader == maker && 0 < o.price && 0 < o.lots
    requires forall o, x | o in removed && x in QueueOf(b, s.Opposite()) :: !Crosses(s, o.price, x.price)
    ensures var b' := Restored(b, s, removed, maker, accepts);
      && Valid(b') && b'.pending == b.pending
      && QueueOf(b', s.Opposite()) == QueueOf(b, s.Opposite())
      && AllTerms(QueueOf(b', s)) == AllTerms(QueueOf(b, s)) + Accepted(removed, accepts, Room(QueueOf(b, s)))
    decreases |removed|
  {
    hide Valid, Place, Crosses, AllTerms, WithQueue, QueueOf, Restored;
    if removed == [] {
      NoTerms(QueueOf(b, s));
      NoneRestored(b, s, maker);
    } else if |QueueOf(b, s)| >= ORDERS_PER_SIDE {
      FullTakesNothing(b, s, removed, maker, accepts);
      NoTerms(QueueOf(b, s));
    } else {
      var o := removed[0];
      assert o in removed && forall x | x in removed[1..] :: x in removed;
      RestoredStep(b, s, removed, maker, accepts);
      if accepts[0] {
        TakesBack(b, s, o, maker);
        var e := Place(b, s, PostOnly, o.price, o.lots, maker, o.coid, o.hidden);
        RestorePutsBack(e.value.book, s, removed[1..], maker, accepts[1..]);
      } else {
        RestorePutsBack(b, s, removed[1..], maker, accepts[1..]);
      }
    }
  }

  lemma NoneRestored(b: Book, s: Side, maker: nat)
    ensures Restored(b, s, [], maker, []) == b
  {
  }

  lemma RestoredStep(b: Book, s: Side, removed: seq<Order>, maker: nat, accepts: seq<bool>)
    requires |accepts| == |removed| > 0
    ensures var o := removed[0];
      var e := Place(b, s, PostOnly, o.price, o.lots, maker, o.coid, o.hidden);
      Restored(b, s, removed, maker, accepts)
      == Restored(if accepts[0] && e.Some? then e.value.book else b, s, removed[1..], maker, accepts[1..])
  {
  }

  /** One rung put back on a side with room. */
  lemma TakesBack(b: Book, s: Side, o: Order, maker: nat)
    requires Valid(b) && |QueueOf(b, s)| < ORDERS_PER_SIDE && o.trader == maker && 0 < o.price && 0 < o.lots
    requires forall x | x in QueueOf(b, s.Opposite()) :: !Crosses(s, o.price, x.price)
    ensures var e := Place(b, s, PostOnly, o.price, o.lots, maker, o.coid, o.hidden);
      && e.Some? && Valid(e.value.book) && e.value.book.pending == b.pending
      && QueueOf(e.value.book, s.Opposite()) == QueueOf(b, s.Opposite())
      && |QueueOf(e.value.book, s)| == |QueueOf(b, s)| + 1
      && AllTerms(QueueOf(e.value.book, s)) == AllTerms(QueueOf(b, s)) + multiset{TermsOf(o)}
  {
    PostOnlyRests(b, s, o.price, o.lots, maker, o.coid, o.hidden);
    var again := Order(maker, o.coid, o.price, o.lots, b.nextSeq, o.hidden);
    hide Valid, Place, Insert, Crosses, AllTerms, WithQueue, QueueOf;
    InsertTerms(s, QueueOf(b, s), again);
    InsertKeeps(s, QueueOf(b, s), again);
    assert TermsOf(again) == TermsOf(o);
  }

  lemma NoTerms(q: seq<Order>)
    ensures AllTerms(q) + multiset{} == AllTerms(q)
  {}

  lemma {:induction false} AllAccepted(removed: seq<Order>, accepts: seq<bool>, room: nat)
    requires |accepts| == |removed| && forall i | 0 <= i < |accepts| :: accepts[i]
    ensures Accepted(removed, accepts, room) == AllTerms(removed[..MinInt(|removed|, room)])
  {
    if removed == [] || room == 0 {
      assert removed[..MinInt(|removed|, room)] == [];
    } else {
      AllAccepted(removed[1..], accepts[1..], room - 1);
      hide Accepted, AllTerms;
      OneMoreAccepted(removed, accepts, room, MinInt(|removed|, room));
    }
  }

  lemma OneMoreAccepted(removed: seq<Order>, accepts: seq<bool>, room: nat, n: nat)
    requires |accepts| == |removed| && 0 < n <= |removed| && 0 < room && accepts[0]
    requires Accepted(removed[1..], accepts[1..], room - 1) == AllTerms(removed[1..][..n - 1])
    ensures Accepted(removed, accepts, room) == AllTerms(removed[..n])
  {
    hide *;
    AcceptedStep(removed, accepts, room);
    TakeCons(removed, n);
    TermsCons(removed[0], removed[1..][..n - 1]);
  }

  lemma TakeCons(q: seq<Order>, n: nat)
    requires 0 < n <= |q|
    ensures q[..n] == [q[0]] + q[1..][..n - 1]
  {
  }

  lemma TermsCons(o: Order, q: seq<Order>)
    ensures AllTerms([o] + q) == multiset{TermsOf(o)} + AllTerms(q)
  {
    assert ([o] + q)[1..] == q;
  }

  lemma AcceptedStep(removed: seq<Order>, accepts: seq<bool>, room: nat)
    requires |accepts| == |removed| > 0 && room > 0 && accepts[0]
    ensures Accepted(removed, accepts, room) == multiset{TermsOf(removed[0])} + Accepted(removed[1..], accepts[1..], room - 1)
  {
  }

  lemma RemovedCannotCross(b: Book, s: Side, removed: seq<Order>)
    requires Valid(b) && forall o | o in removed :: o in QueueOf(b, s)
    ensures forall o, x | o in removed && x in QueueOf(b, s.Opposite()) :: !Crosses(s, o.price, x.price)
  {}

  lemma SuffixValid(b: Book, s: Side, n: nat, pending: nat)
    requires Valid(b) && n <= |QueueOf(b, s)|
    ensures Valid(WithQueue(b, s, QueueOf(b, s)[n..]).(pending := pending))
  {
    var q := QueueOf(b, s);
    forall i, j | 0 <= i < j < |q[n..]| ensures RanksAhead(s, q[n..][i], q[n..][j]) {
      assert RanksAhead(s, q[n + i], q[n + j]);
    }
  }

  /** A landed match followed by a fully accepted restore: the target is gone, everything else on
      the venue is exactly as it was, up to the arrival numbers of the restored rungs. */
  lemma MatchRestoresTheLadder(b: Book, s: Side, index: nat, maker: nat, coid: nat, accepts: seq<bool>)
    requires Valid(b) && b.pending < PENDING_FILLS && index < |QueueOf(b, s)| && |accepts| == index
    requires forall o | o in QueueOf(b, s)[..index] :: o.trader == maker
    requires QueueOf(b, s)[index].trader != maker && forall i | 0 <= i < |accepts| :: accepts[i]
    ensures var q := QueueOf(b, s);
      var e := Execute(b, maker, MatchTx(s, q[..index], q[index], coid));
      && e.Some?
      && var after := Restored(e.value.book, s, q[..index], maker, accepts);
         && Valid(after)
         && QueueOf(after, s.Opposite()) == QueueOf(b, s.Opposite())
         && AllTerms(q) == AllTerms(QueueOf(after, s)) + multiset{TermsOf(q[index])}
  {
    var q := QueueOf(b, s);
    var ahead, behind := q[..index], q[index + 1..];
    FrontOrders(b, s, index);
    CrossesExactly(b, s, index, maker, coid);
    SuffixValid(b, s, index + 1, b.pending + 1);
    RemovedCannotCross(b, s, ahead);
    var b' := WithQueue(b, s, behind).(pending := b.pending + 1);
    assert QueueOf(b', s.Opposite()) == QueueOf(b, s.Opposite()) && QueueOf(b', s) == behind;
    hide Execute, MatchTx, Place, Restored, AllTerms, Valid, Crosses, WithQueue;
    WhollyAccepted(b', s, ahead, maker, accepts);
    assert ahead[..MinInt(index, Room(behind))] == ahead;
    SplitTerms(q, index);
    Regroup(AllTerms(ahead), multiset{TermsOf(q[index])}, AllTerms(behind));
  }

  /** A restore that the engine accepts throughout puts back as many as there is room for. */
  lemma WhollyAccepted(b: Book, s: Side, removed: seq<Order>, maker: nat, accepts: seq<bool>)
    requires |accepts| == |removed| && Valid(b) && forall i | 0 <= i < |accepts| :: accepts[i]
    requires forall o | o in removed :: o.trader == maker && 0 < o.price && 0 < o.lots
    requires forall o, x | o in removed && x in QueueOf(b, s.Opposite()) :: !Crosses(s, o.price, x.price)
    ensures var q, after := QueueOf(b, s), Restored(b, s, removed, maker, accepts);
      && Valid(after) && QueueOf(after, s.Opposite()) == QueueOf(b, s.Opposite())
      && AllTerms(QueueOf(after, s)) == AllTerms(q) + AllTerms(removed[..MinInt(|removed|, Room(q))])
  {
    hide *;
    RestorePutsBack(b, s, removed, maker, accepts);
    AllAccepted(removed, accepts, Room(QueueOf(b, s)));
  }

  lemma Regroup(a: multiset<Terms>, t: multiset<Terms>, b: multiset<Terms>)
    ensures a + t + b == b + a + t
  {}

  lemma FrontOrders(b: Book, s: Side, n: nat)
    requires Valid(b) && n <= |QueueOf(b, s)|
    ensures forall o | o in QueueOf(b, s)[..n] :: o in QueueOf(b, s) && 0 < o.price && 0 < o.lots
    ensures |QueueOf(b, s)| <= ORDERS_PER_SIDE
  {}

  lemma SplitTerms(q: seq<Order>, index: nat)
    requires index < |q|
    ensures AllTerms(q) == AllTerms(q[..index]) + multiset{TermsOf(q[index])} + AllTerms(q[index + 1..])
  {
    assert q == q[..index] + q[index..];
    AllTermsAppend(q[..index], q[index..]);
    assert q[index..][1..] == q[index + 1..];
  }

  /** The restore also runs when the transaction did not land, and then it lays cleared rungs a second time,
      as many as the side has room for: the ladder is conserved exactly when there was nothing ahead to
      clear or no room to double it in. */
  lemma FailedMatchDoublesTheLadder(b: Book, s: Side, index: nat, maker: nat, accepts: seq<bool>)
    requires Valid(b) && index <= |QueueOf(b, s)| && |accepts| == index && forall i | 0 <= i < |accepts| :: accepts[i]
    requires forall o | o in QueueOf(b, s)[..index] :: o.trader == maker
    ensures var q := QueueOf(b, s);
      var twice := q[..MinInt(index, ORDERS_PER_SIDE - |q|)];
      var after := Restored(b, s, q[..index], maker, accepts);
      && AllTerms(QueueOf(after, s)) == AllTerms(q) + AllTerms(twice)
      && (AllTerms(QueueOf(after, s)) == AllTerms(q) <==> index == 0 || |q| == ORDERS_PER_SIDE)
  {
    var q := QueueOf(b, s);
    FrontOrders(b, s, index);
    var twice := q[..MinInt(index, ORDERS_PER_SIDE - |q|)];
    assert |twice| == 0 <==> index == 0 || |q| == ORDERS_PER_SIDE;
    hide *;
    LaidTwice(b, s, index, maker, accepts);
    SameTermsIff(q, twice);
  }

  lemma LaidTwice(b: Book, s: Side, index: nat, maker: nat, accepts: seq<bool>)
    requires Valid(b) && index <= |QueueOf(b, s)| <= ORDERS_PER_SIDE && |accepts| == index
    requires forall i | 0 <= i < |accepts| :: accepts[i]
    requires forall o | o in QueueOf(b, s)[..index] :: o.trader == maker
    ensures var q := QueueOf(b, s);
      AllTerms(QueueOf(Restored(b, s, q[..index], maker, accepts), s))
      == AllTerms(q) + AllTerms(q[..MinInt(index, ORDERS_PER_SIDE - |q|)])
  {
    var q, ahead := QueueOf(b, s), QueueOf(b, s)[..index];
    FrontOrders(b, s, index);
    RemovedCannotCross(b, s, ahead);
    assert ahead[..MinInt(index, Room(q))] == q[..MinInt(index, ORDERS_PER_SIDE - |q|)];
    hide *;
    WhollyAccepted(b, s, ahead, maker, accepts);
  }

  lemma SameTermsIff(q: seq<Order>, more: seq<Order>)
    ensures AllTerms(q) + AllTerms(more) == AllTerms(q) <==> |more| == 0
  {
    CountTerms(q);
    CountTerms(more);
    hide AllTerms;
    assert |AllTerms(q) + AllTerms(more)| == |q| + |more|;
    if |more| == 0 { assert AllTerms(more) == multiset{}; }
  }

  lemma {:induction false} CountTerms(q: seq<Order>)
    ensures |AllTerms(q)| == |q|
  {
    if q != [] { CountTerms(q[1..]); }
  }
}
