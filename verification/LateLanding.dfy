/** A match transaction that reaches the book only after some of the rungs it clears have been put back, in
    whatever order those get there: their copies are on the book when its cancels and its crossing order run. */
module LateLanding {
  import opened Prelude
  import opened Orders
  import opened MatchingBook
  import opened ExactCross

  function Coids(q: seq<Order>): multiset<nat> {
    if q == [] then multiset{} else multiset{q[0].coid} + Coids(q[1..])
  }

  predicate AllOf(q: seq<Order>, maker: nat) { forall o | o in q :: o.trader == maker }

  // ── the transaction, with copies on the book ──────────────────────────────

  /** A cancel takes the first order with its client id, here one of `p`, though not always the one meant. */
  lemma {:induction false} RemoveWithin(p: seq<Order>, r: seq<Order>, maker: nat, coid: nat) returns (p': seq<Order>)
    requires AllOf(p, maker) && coid in Coids(p)
    ensures Remove(p + r, maker, coid) == Some(p' + r)
    ensures Coids(p) == Coids(p') + multiset{coid} && forall o | o in p' :: o in p
  {
    var x, tail := p[0], p[1..];
    assert p == [x] + tail && x in p && p + r == [x] + (tail + r) && forall o | o in tail :: o in p;
    if x.coid == coid {
      p' := tail;
      assert ([x] + (tail + r))[1..] == tail + r;
    } else {
      var rest := RemoveWithin(tail, r, maker, coid);
      p' := [x] + rest;
      RemoveLater(x, tail + r, maker, coid);
      assert p'[1..] == rest && p' + r == [x] + (rest + r);
    }
  }

  lemma RemoveLater(x: Order, q: seq<Order>, trader: nat, coid: nat)
    requires x.coid != coid && Remove(q, trader, coid).Some?
    ensures Remove([x] + q, trader, coid) == Some([x] + Remove(q, trader, coid).value)
  {
    assert ([x] + q)[1..] == q;
  }

  lemma OneLess(a: multiset<nat>, b: multiset<nat>, c: nat)
    requires multiset{c} + a <= b + multiset{c}
    ensures a <= b
  {
    forall x | x in a ensures a[x] <= b[x] {
      assert (multiset{c} + a)[x] <= (b + multiset{c})[x];
    }
  }

  lemma {:induction false} RemovedWithin(p: seq<Order>, r: seq<Order>, ahead: seq<Order>, maker: nat)
    returns (p': seq<Order>)
    requires AllOf(p, maker) && Coids(ahead) <= Coids(p)
    ensures Removed(p + r, ahead, maker) == Some(p' + r) && forall o | o in p' :: o in p
    decreases |ahead|
  {
    if ahead == [] {
      p' := p;
    } else {
      var c, later := ahead[0].coid, Coids(ahead[1..]);
      assert Coids(ahead) == multiset{c} + later && c in Coids(ahead);
      var rest := RemoveWithin(p, r, maker, c);
      OneLess(later, Coids(rest), c);
      p' := RemovedWithin(rest, r, ahead[1..], maker);
    }
  }

  /** The maker's own orders before the target are dropped, then the target is taken whole. */
  lemma {:induction false} CrossThrough(s: Side, p: seq<Order>, t: Order, r: seq<Order>, maker: nat, budget: nat)
    requires AllOf(p, maker) && t.trader != maker && 0 < t.lots && budget > 0
    requires forall o | o in p :: Crosses(s.Opposite(), t.price, o.price)
    ensures Cross(s.Opposite(), p + ([t] + r), t.price, t.lots, maker, budget) == Crossing(r, [Whole(t)], 0)
    decreases |p|
  {
    var q := p + ([t] + r);
    if p == [] {
      assert q[0] == t && q[1..] == r;
      assert Cross(s.Opposite(), r, t.price, 0, maker, budget - 1) == Crossing(r, [], 0);
      assert [Whole(t)] + [] == [Whole(t)];
    } else {
      assert q[0] == p[0] && q[1..] == p[1..] + ([t] + r) && p[0] in p;
      CrossThrough(s, p[1..], t, r, maker, budget);
    }
  }

  /** With nothing but the maker's orders before the target, and every client id to be cancelled among them,
      the transaction fills the target alone and leaves what was behind it. */
  lemma LandsThrough(b: Book, s: Side, p: seq<Order>, t: Order, r: seq<Order>, ahead: seq<Order>, maker: nat, coid: nat)
    requires QueueOf(b, s) == p + ([t] + r) && b.pending < PENDING_FILLS
    requires AllOf(p, maker) && Coids(ahead) <= Coids(p) && t.trader != maker && 0 < t.lots && 0 < t.price
    requires forall o | o in p :: Crosses(s.Opposite(), t.price, o.price)
    ensures Execute(b, maker, MatchTx(s, ahead, t, coid))
         == Some(Effect(WithQueue(b, s, r).(pending := b.pending + 1), [Whole(t)]))
  {
    var ioc := PlaceIx(s.Opposite(), ImmediateOrCancel, t.price, t.lots, coid, false);
    var p' := RemovedWithin(p, [t] + r, ahead, maker);
    var b' := WithQueue(b, s, p' + ([t] + r));
    assert QueueOf(b', s) == p' + ([t] + r) && b'.pending == b.pending && WithQueue(b', s, r) == WithQueue(b, s, r);
    hide Execute, Cross, Removed, WithQueue, QueueOf, Coids, Step, CancelAhead, Crosses;
    CancelsRemove(b, s, ahead, maker, [ioc]);
    CrossThrough(s, p', t, r, maker, MAX_FILLS_PER_ORDER);
    LastStep(b', maker, ioc);
    IocFills(b', s, p' + ([t] + r), t, maker, coid);
  }

  // ── putting rungs back around the target ──────────────────────────────────

  /** A newcomer priced better than the target comes before it, one at its price behind it. */
  lemma {:induction false} InsertAround(s: Side, p: seq<Order>, t: Order, r: seq<Order>, o: Order)
    requires t.seqNo < o.seqNo && (o.price == t.price || Better(s, o.price, t.price))
    requires forall x | x in p :: RanksAhead(s, x, t) && x.seqNo < o.seqNo
    ensures Insert(s, p + ([t] + r), o) ==
      if o.price == t.price then p + ([t] + Insert(s, r, o)) else Insert(s, p, o) + ([t] + r)
  {
    var q := p + ([t] + r);
    if p == [] {
      assert q[0] == t && q[1..] == r && q == [t] + r;
    } else {
      assert q[0] == p[0] && q[1..] == p[1..] + ([t] + r) && p[0] in p;
      InsertAround(s, p[1..], t, r, o);
      if RanksAhead(s, o, p[0]) {
        assert [o] + q == ([o] + p) + ([t] + r);
      } else if o.price == t.price {
        assert [p[0]] + (p[1..] + ([t] + Insert(s, r, o))) == p + ([t] + Insert(s, r, o));
      } else {
        assert [p[0]] + (Insert(s, p[1..], o) + ([t] + r)) == ([p[0]] + Insert(s, p[1..], o)) + ([t] + r);
      }
    }
  }

  lemma {:induction false} InsertCoids(s: Side, q: seq<Order>, o: Order)
    ensures Coids(Insert(s, q, o)) == Coids(q) + multiset{o.coid}
  {
    if q == [] || RanksAhead(s, o, q[0]) {
      assert ([o] + q)[1..] == q;
    } else {
      InsertCoids(s, q[1..], o);
      assert Insert(s, q, o)[1..] == Insert(s, q[1..], o);
    }
  }

  /** Of the rungs put back, those accepted while there was room that rest at the price. */
  function Beside(removed: seq<Order>, accepts: seq<bool>, room: nat, price: nat): multiset<Terms>
    requires |accepts| == |removed|
  {
    if removed == [] || room == 0 then multiset{}
    else if accepts[0] then
      (if removed[0].price == price then multiset{TermsOf(removed[0])} else multiset{})
      + Beside(removed[1..], accepts[1..], room - 1, price)
    else Beside(removed[1..], accepts[1..], room, price)
  }

  /** The side while rungs are put back: the maker's orders before the target, the target, and the rest. */
  ghost predicate Around(q: seq<Order>, p: seq<Order>, t: Order, r: seq<Order>, maker: nat) {
    q == p + ([t] + r) && AllOf(p, maker)
  }

  lemma {:induction false} RestoreAround(b: Book, s: Side, removed: seq<Order>, maker: nat, accepts: seq<bool>,
                                         p: seq<Order>, t: Order, r: seq<Order>)
    returns (p': seq<Order>, r': seq<Order>)
    requires |accepts| == |removed| && Valid(b) && Around(QueueOf(b, s), p, t, r, maker)
    requires forall o | o in removed :: o.trader == maker && 0 < o.price && 0 < o.lots
    requires forall o | o in removed :: o.price == t.price || Better(s, o.price, t.price)
    requires forall o, x | o in removed && x in QueueOf(b, s.Opposite()) :: !Crosses(s, o.price, x.price)
    ensures Around(QueueOf(Restored(b, s, removed, maker, accepts), s), p', t, r', maker)
    ensures Coids(p) <= Coids(p')
    ensures AllTerms(r') == AllTerms(r) + Beside(removed, accepts, Room(QueueOf(b, s)), t.price)
    decreases |removed|
  {
    hide Valid, Place, Crosses, AllTerms, WithQueue, QueueOf, Restored, Around, Coids, Better;
    p', r' := p, r;
    if removed == [] {
      NoneRestored(b, s, maker);
    } else if |QueueOf(b, s)| >= ORDERS_PER_SIDE {
      FullTakesNothing(b, s, removed, maker, accepts);
    } else {
      var o := removed[0];
      assert o in removed && forall x | x in removed[1..] :: x in removed;
      RestoredStep(b, s, removed, maker, accepts);
      if accepts[0] {
        TakesBack(b, s, o, maker);
        var e := Place(b, s, PostOnly, o.price, o.lots, maker, o.coid, o.hidden);
        var p1, r1 := BackAround(b, s, o, maker, p, t, r);
        p', r' := RestoreAround(e.value.book, s, removed[1..], maker, accepts[1..], p1, t, r1);
      } else {
        p', r' := RestoreAround(b, s, removed[1..], maker, accepts[1..], p, t, r);
      }
    }
  }

  lemma BackAround(b: Book, s: Side, o: Order, maker: nat, p: seq<Order>, t: Order, r: seq<Order>)
    returns (p': seq<Order>, r': seq<Order>)
    requires Valid(b) && |QueueOf(b, s)| < ORDERS_PER_SIDE && o.trader == maker && 0 < o.price && 0 < o.lots
    requires Around(QueueOf(b, s), p, t, r, maker) && (o.price == t.price || Better(s, o.price, t.price))
    requires forall x | x in QueueOf(b, s.Opposite()) :: !Crosses(s, o.price, x.price)
    ensures var e := Place(b, s, PostOnly, o.price, o.lots, maker, o.coid, o.hidden);
      e.Some? && Around(QueueOf(e.value.book, s), p', t, r', maker)
    ensures Coids(p) <= Coids(p')
    ensures AllTerms(r') == AllTerms(r) + if o.price == t.price then multiset{TermsOf(o)} else multiset{}
  {
    var again := Order(maker, o.coid, o.price, o.lots, b.nextSeq, o.hidden);
    PostOnlyRests(b, s, o.price, o.lots, maker, o.coid, o.hidden);
    TargetSplits(b, s, p, t, r);
    hide Valid, Place, Crosses, AllTerms, WithQueue, QueueOf, Coids, RanksAhead, Better;
    InsertAround(s, p, t, r, again);
    if o.price == t.price {
      p', r' := p, Insert(s, r, again);
      InsertTerms(s, r, again);
    } else {
      p', r' := Insert(s, p, again), r;
      InsertCoids(s, p, again);
      InsertKeeps(s, p, again);
      forall x | x in p' ensures x.trader == maker {
        assert x in multiset(p');
      }
    }
  }

  lemma TargetSplits(b: Book, s: Side, p: seq<Order>, t: Order, r: seq<Order>)
    requires Valid(b) && QueueOf(b, s) == p + ([t] + r)
    ensures t.seqNo < b.nextSeq && 0 < t.lots && 0 < t.price
    ensures forall x | x in p :: RanksAhead(s, x, t) && x.seqNo < b.nextSeq && Crosses(s.Opposite(), t.price, x.price)
  {
    var q := QueueOf(b, s);
    assert q[|p|] == t;
    forall x | x in p ensures RanksAhead(s, x, t) && x in q {
      var i :| 0 <= i < |p| && p[i] == x;
      assert q[i] == x;
    }
  }

  // ── the ladder afterwards ─────────────────────────────────────────────────

  predicate AllTrue(accepts: seq<bool>) { forall i | 0 <= i < |accepts| :: accepts[i] }

  predicate AllAt(q: seq<Order>, price: nat) { forall i | 0 <= i < |q| :: q[i].price == price }

  lemma AllCons(accepts: seq<bool>, q: seq<Order>, price: nat)
    requires |accepts| == |q| > 0
    ensures AllTrue(accepts) <==> accepts[0] && AllTrue(accepts[1..])
    ensures AllAt(q, price) <==> q[0].price == price && AllAt(q[1..], price)
  {
    if AllTrue(accepts[1..]) {
      forall i | 0 < i < |accepts| ensures accepts[i] { assert accepts[1..][i - 1]; }
    }
    if AllAt(q[1..], price) {
      forall i | 0 < i < |q| ensures q[i].price == price { assert q[1..][i - 1].price == price; }
    }
  }

  /** Every rung accepted, and those put back before the landing had room and rested at the target's price. */
  predicate NothingLost(q: seq<Order>, index: nat, sent: seq<Order>, put: nat, accepts: seq<bool>)
    requires put <= |sent| && index < |q|
  {
    AllTrue(accepts) && put <= Room(q) && AllAt(sent[..put], q[index].price)
  }

  lemma {:induction false} BesideIff(removed: seq<Order>, accepts: seq<bool>, room: nat, price: nat)
    requires |accepts| == |removed|
    ensures var n := Beside(removed, accepts, room, price);
      var all := AllTrue(accepts) && |removed| <= room && AllAt(removed, price);
      |n| <= |removed| && (|n| == |removed| <==> all) && (all ==> n == AllTerms(removed))
  {
    if removed != [] && room > 0 {
      AllCons(accepts, removed, price);
      hide AllTrue, AllAt;
      BesideIff(removed[1..], accepts[1..], if accepts[0] then room - 1 else room, price);
    }
  }

  lemma {:induction false} AcceptedIff(removed: seq<Order>, accepts: seq<bool>, room: nat)
    requires |accepts| == |removed| <= room
    ensures var n, all := Accepted(removed, accepts, room), AllTrue(accepts);
      |n| <= |removed| && (|n| == |removed| <==> all) && (all ==> n == AllTerms(removed))
  {
    if removed != [] {
      AllCons(accepts, removed, 0);
      hide AllTrue;
      if accepts[0] {
        AcceptedIff(removed[1..], accepts[1..], room - 1);
      } else {
        AcceptedIff(removed[1..], accepts[1..], room);
      }
    }
  }

  /** Room that does not bind does not matter. */
  lemma {:induction false} RoomToSpare(removed: seq<Order>, accepts: seq<bool>, room: nat, room': nat)
    requires |accepts| == |removed| <= room && |removed| <= room'
    ensures Accepted(removed, accepts, room) == Accepted(removed, accepts, room')
  {
    if removed != [] {
      var used := if accepts[0] then 1 else 0;
      RoomToSpare(removed[1..], accepts[1..], room - used, room' - used);
    }
  }

  /** `sent` are the orders of `front`, in some order. */
  predicate Shuffled(sent: seq<Order>, front: seq<Order>) { multiset(sent) == multiset(front) }

  function Without(q: seq<Order>, i: nat): seq<Order>
    requires i < |q|
  {
    q[..i] + q[i + 1..]
  }

  lemma Cut(front: seq<Order>, x: Order, rear: seq<Order>)
    ensures multiset(front + rear) == multiset(front + ([x] + rear)) - multiset{x}
  {
    assert multiset(front + ([x] + rear)) == multiset(front) + multiset([x] + rear);
    assert multiset([x] + rear) == multiset{x} + multiset(rear);
  }

  lemma TakeOut(q: seq<Order>, i: nat)
    requires i < |q|
    ensures multiset(Without(q, i)) == multiset(q) - multiset{q[i]}
    ensures AllTerms(q) == AllTerms(Without(q, i)) + multiset{TermsOf(q[i])}
  {
    OrderOut(q, i);
    TermsOut(q, i);
    hide *;
  }

  lemma OrderOut(q: seq<Order>, i: nat)
    requires i < |q|
    ensures multiset(Without(q, i)) == multiset(q) - multiset{q[i]}
  {
    var front, x, rear := q[..i], q[i], q[i + 1..];
    Cut(front, x, rear);
    assert q == front + ([x] + rear);
  }

  lemma TermsOut(q: seq<Order>, i: nat)
    requires i < |q|
    ensures AllTerms(q) == AllTerms(Without(q, i)) + multiset{TermsOf(q[i])}
  {
    hide AllTerms;
    SplitTerms(q, i);
    AllTermsAppend(q[..i], q[i + 1..]);
  }

  lemma {:induction false} SameTerms(p: seq<Order>, q: seq<Order>)
    requires Shuffled(p, q)
    ensures AllTerms(p) == AllTerms(q) && |p| == |q|
    decreases |p|
  {
    assert |multiset(p)| == |p| && |multiset(q)| == |q|;
    if p != [] {
      assert p[0] in multiset(q);
      var i :| 0 <= i < |q| && q[i] == p[0];
      TakeOut(p, 0);
      TakeOut(q, i);
      var fewer, rest := Without(p, 0), Without(q, i);
      hide AllTerms, Without;
      SameTerms(fewer, rest);
    } else {
      assert q == [];
    }
  }

  lemma ShuffledIn(sent: seq<Order>, front: seq<Order>, n: nat)
    requires Shuffled(sent, front) && n <= |sent|
    ensures |sent| == |front|
    ensures forall o | o in sent[..n] :: o in front
    ensures forall o | o in sent[n..] :: o in front
  {
    assert |multiset(sent)| == |sent| && |multiset(front)| == |front|;
    forall o | o in sent ensures o in front { assert o in multiset(front); }
  }

  lemma InFront(q: seq<Order>, index: nat)
    requires index <= |q|
    ensures forall o | o in q[..index] :: o in q
  {}

  /** Whenever the transaction lands, and in whatever order the rungs get back, the target is filled alone; what
      then remains is what rested behind it, the copies already put back that rest at its own price, and
      whatever is put back afterwards. Copies at better prices are dropped on the way. So only the target is
      gone exactly when nothing was lost. */
  lemma LadderAfterLanding(b: Book, s: Side, index: nat, sent: seq<Order>, put: nat, maker: nat, coid: nat, accepts: seq<bool>)
    requires Valid(b) && b.pending < PENDING_FILLS && index < |QueueOf(b, s)|
    requires Shuffled(sent, QueueOf(b, s)[..index]) && put <= |sent| == |accepts|
    requires AllOf(QueueOf(b, s)[..index], maker) && QueueOf(b, s)[index].trader != maker
    ensures var q := QueueOf(b, s);
      var t := q[index];
      var before := Restored(b, s, sent[..put], maker, accepts[..put]);
      var e := Execute(before, maker, MatchTx(s, q[..index], t, coid));
      && e.Some? && e.value.fills == [Whole(t)]
      && var after := Restored(e.value.book, s, sent[put..], maker, accepts[put..]);
         && Valid(after) && QueueOf(after, s.Opposite()) == QueueOf(b, s.Opposite())
         && AllTerms(QueueOf(after, s)) == AllTerms(q[index + 1..]) + Beside(sent[..put], accepts[..put], Room(q), t.price)
                                           + Accepted(sent[put..], accepts[put..], ORDERS_PER_SIDE)
         && (AllTerms(q) == AllTerms(QueueOf(after, s)) + multiset{TermsOf(t)} <==> NothingLost(q, index, sent, put, accepts))
  {
    var q := QueueOf(b, s);
    var t, r := q[index], q[index + 1..];
    ShuffledIn(sent, q[..index], put);
    var before, r' := LandsAfter(b, s, index, sent[..put], maker, coid, accepts[..put]);
    var b' := WithQueue(before, s, r').(pending := before.pending + 1);
    var removed := sent[put..];
    RoomLeft(b, s, index, sent[..put], accepts[..put], r');
    InFront(q, index);
    FrontOrders(b, s, index);
    RemovedCannotCross(b, s, removed);
    assert QueueOf(b', s.Opposite()) == QueueOf(before, s.Opposite()) && QueueOf(b', s) == r';
    hide Valid, Restored, Accepted, Beside, AllTerms, Crosses, QueueOf, WithQueue, Execute, MatchTx, NothingLost, Shuffled;
    RestorePutsBack(b', s, removed, maker, accepts[put..]);
    RoomToSpare(removed, accepts[put..], Room(r'), ORDERS_PER_SIDE);
    NothingLostIff(q, index, sent, put, accepts);
  }

  lemma RoomLeft(b: Book, s: Side, index: nat, first: seq<Order>, accepts: seq<bool>, r: seq<Order>)
    requires Valid(b) && |first| <= index < |QueueOf(b, s)| && |accepts| == |first|
    requires var q := QueueOf(b, s);
      AllTerms(r) == AllTerms(q[index + 1..]) + Beside(first, accepts, Room(q), q[index].price)
    ensures |r| + (index - |first|) < |QueueOf(b, s)| <= ORDERS_PER_SIDE
  {
    var q := QueueOf(b, s);
    hide AllTerms, Beside;
    BesideIff(first, accepts, Room(q), q[index].price);
    CountTerms(r);
    CountTerms(q[index + 1..]);
  }

  /** The book the transaction finds, and what it leaves of the side. */
  lemma LandsAfter(b: Book, s: Side, index: nat, first: seq<Order>, maker: nat, coid: nat, accepts: seq<bool>)
    returns (before: Book, r: seq<Order>)
    requires Valid(b) && b.pending < PENDING_FILLS && index < |QueueOf(b, s)| && |accepts| == |first|
    requires AllOf(QueueOf(b, s)[..index], maker) && QueueOf(b, s)[index].trader != maker
    requires forall o | o in first :: o in QueueOf(b, s)[..index]
    ensures var q := QueueOf(b, s);
      && before == Restored(b, s, first, maker, accepts)
      && QueueOf(before, s.Opposite()) == QueueOf(b, s.Opposite())
      && Valid(WithQueue(before, s, r).(pending := before.pending + 1))
      && Execute(before, maker, MatchTx(s, q[..index], q[index], coid))
         == Some(Effect(WithQueue(before, s, r).(pending := before.pending + 1), [Whole(q[index])]))
      && AllTerms(r) == AllTerms(q[index + 1..]) + Beside(first, accepts, Room(q), q[index].price)
  {
    var q := QueueOf(b, s);
    var t, p, rear := q[index], q[..index], q[index + 1..];
    FrontOrders(b, s, index);
    InFront(q, index);
    RemovedCannotCross(b, s, first);
    assert q == p + ([t] + rear);
    TargetSplits(b, s, p, t, rear);
    assert forall o | o in first :: o.price == t.price || Better(s, o.price, t.price);
    before := Restored(b, s, first, maker, accepts);
    hide Valid, Restored, AllTerms, Crosses, QueueOf, WithQueue, Execute, MatchTx, Beside, Coids, RanksAhead, Better, Accepted;
    RestorePutsBack(b, s, first, maker, accepts);
    r := LandsBetween(b, s, before, first, accepts, p, t, rear, maker, coid);
  }

  lemma LandsBetween(b: Book, s: Side, before: Book, removed: seq<Order>, accepts: seq<bool>,
                     p: seq<Order>, t: Order, rear: seq<Order>, maker: nat, coid: nat)
    returns (r: seq<Order>)
    requires Valid(b) && QueueOf(b, s) == p + ([t] + rear) && AllOf(p, maker) && t.trader != maker
    requires |accepts| == |removed| && before == Restored(b, s, removed, maker, accepts)
    requires Valid(before) && before.pending < PENDING_FILLS
    requires forall o | o in removed :: o.trader == maker && 0 < o.price && 0 < o.lots
    requires forall o | o in removed :: o.price == t.price || Better(s, o.price, t.price)
    requires forall o, x | o in removed && x in QueueOf(b, s.Opposite()) :: !Crosses(s, o.price, x.price)
    ensures Valid(WithQueue(before, s, r).(pending := before.pending + 1))
    ensures Execute(before, maker, MatchTx(s, p, t, coid))
         == Some(Effect(WithQueue(before, s, r).(pending := before.pending + 1), [Whole(t)]))
    ensures AllTerms(r) == AllTerms(rear) + Beside(removed, accepts, Room(QueueOf(b, s)), t.price)
  {
    var p';
    hide Valid, Restored, AllTerms, Crosses, QueueOf, WithQueue, Execute, MatchTx, Beside, Coids, RanksAhead, Better, Room;
    p', r := RestoreAround(b, s, removed, maker, accepts, p, t, rear);
    TargetSplits(before, s, p', t, r);
    LandsThrough(before, s, p', t, r, p, maker, coid);
    assert QueueOf(before, s)[|p'| + 1..] == r;
    SuffixValid(before, s, |p'| + 1, before.pending + 1);
  }

  lemma SplitTrue(accepts: seq<bool>, n: nat)
    requires n <= |accepts|
    ensures AllTrue(accepts) <==> AllTrue(accepts[..n]) && AllTrue(accepts[n..])
  {
    if AllTrue(accepts[..n]) && AllTrue(accepts[n..]) {
      forall i | 0 <= i < |accepts| ensures accepts[i] {
        if i < n { assert accepts[..n][i]; } else { assert accepts[n..][i - n]; }
      }
    }
  }

  lemma NothingLostIff(q: seq<Order>, index: nat, sent: seq<Order>, put: nat, accepts: seq<bool>)
    requires index < |q| && index <= ORDERS_PER_SIDE && put <= |sent| == |accepts| && Shuffled(sent, q[..index])
    ensures var t := q[index];
      AllTerms(q) == AllTerms(q[index + 1..]) + Beside(sent[..put], accepts[..put], Room(q), t.price)
                     + Accepted(sent[put..], accepts[put..], ORDERS_PER_SIDE) + multiset{TermsOf(t)}
      <==> NothingLost(q, index, sent, put, accepts)
  {
    var t, front := q[index], q[..index];
    SameTerms(sent, front);
    var first, second := Beside(sent[..put], accepts[..put], Room(q), t.price), Accepted(sent[put..], accepts[put..], ORDERS_PER_SIDE);
    SplitTrue(accepts, put);
    assert sent == sent[..put] + sent[put..];
    var whole := NothingLost(q, index, sent, put, accepts);
    assert whole <==> AllTrue(accepts[..put]) && AllTrue(accepts[put..]) && put <= Room(q) && AllAt(sent[..put], t.price);
    hide AllTerms, Beside, Accepted, Room, AllTrue, AllAt, Shuffled;
    assert |first + second| <= index && (|first + second| == index <==> whole)
           && (whole ==> first + second == AllTerms(sent[..put]) + AllTerms(sent[put..])) by {
      BesideIff(sent[..put], accepts[..put], Room(q), t.price);
      AcceptedIff(sent[put..], accepts[put..], ORDERS_PER_SIDE);
      assert |first + second| == |first| + |second|;
      assert whole <==> |first| == put && |second| == index - put;
    }
    AllTermsAppend(sent[..put], sent[put..]);
    SplitTerms(q, index);
    CountTerms(front);
    Regroup(AllTerms(front), first, second, AllTerms(q[index + 1..]), multiset{TermsOf(t)});
  }

  lemma Regroup(front: multiset<Terms>, first: multiset<Terms>, second: multiset<Terms>, rear: multiset<Terms>, t: multiset<Terms>)
    ensures front + t + rear == rear + first + second + t <==> front == first + second
  {
    if front + t + rear == rear + first + second + t {
      forall x ensures front[x] == (first + second)[x] {
        assert (front + t + rear)[x] == (rear + first + second + t)[x];
      }
    }
  }
}
