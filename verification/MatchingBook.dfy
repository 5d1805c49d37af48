/** The venue's price-time book, as far as its clients can step it: cancel by client id, place with
    crossing, post-only refusal and self-trade prevention, and all-or-nothing transactions. */
module MatchingBook {
  import opened Prelude
  import opened Orders

  datatype Side = Bid | Ask {
    function Opposite(): Side { if Bid? then Ask else Bid }
  }

  datatype Kind = PostOnly | ImmediateOrCancel

  datatype Fill = Fill(maker: nat, makerCoid: nat, price: nat, lots: nat, closed: bool)

  /** Both live queues, best first; the arrival counter; matched fills awaiting settlement. */
  datatype Book = Book(bids: seq<Order>, asks: seq<Order>, nextSeq: nat, pending: nat)

  const ORDERS_PER_SIDE := 32
  const MAX_FILLS_PER_ORDER := 8
  const PENDING_FILLS := 16

  function QueueOf(b: Book, s: Side): seq<Order> { if s.Bid? then b.bids else b.asks }

  function WithQueue(b: Book, s: Side, q: seq<Order>): Book { if s.Bid? then b.(bids := q) else b.(asks := q) }

  predicate Better(s: Side, p: nat, r: nat) { if s.Bid? then p > r else p < r }

  predicate RanksAhead(s: Side, o: Order, other: Order) {
    Better(s, o.price, other.price) || (o.price == other.price && o.seqNo < other.seqNo)
  }

  /** Would an order on `s` at `limit` trade with a resting price on the other side? */
  predicate Crosses(s: Side, limit: nat, resting: nat) { if s.Bid? then resting <= limit else resting >= limit }

  function Insert(s: Side, q: seq<Order>, o: Order): seq<Order> {
    if q == [] || RanksAhead(s, o, q[0]) then [o] + q else [q[0]] + Insert(s, q[1..], o)
  }

  /** Cancel takes the first order with the client id, and refuses when that one is somebody else's. */
  function Remove(q: seq<Order>, trader: nat, coid: nat): Option<seq<Order>> {
    if q == [] then None
    else if q[0].coid == coid then (if q[0].trader == trader then Some(q[1..]) else None)
    else match Remove(q[1..], trader, coid)
      case None => None
      case Some(rest) => Some([q[0]] + rest)
  }

  datatype Crossing = Crossing(queue: seq<Order>, fills: seq<Fill>, left: nat)

  /** The matching loop over one resting queue; own orders are dropped without a fill. */
  function Cross(s: Side, q: seq<Order>, limit: nat, lots: nat, taker: nat, budget: nat): Crossing
    decreases |q|
  {
    if lots == 0 || budget == 0 || q == [] || !Crosses(s, limit, q[0].price) then Crossing(q, [], lots)
    else if q[0].trader == taker then Cross(s, q[1..], limit, lots, taker, budget)
    else if lots < q[0].lots then
      Crossing([q[0].(lots := q[0].lots - lots)] + q[1..], [Fill(q[0].trader, q[0].coid, q[0].price, lots, false)], 0)
    else
      var rest := Cross(s, q[1..], limit, lots - q[0].lots, taker, budget - 1);
      rest.(fills := [Fill(q[0].trader, q[0].coid, q[0].price, q[0].lots, true)] + rest.fills)
  }

  datatype Effect = Effect(book: Book, fills: seq<Fill>)

  /** `place_order` on a dark market: no eviction, and no more fills than the queue can take. */
  function Place(b: Book, s: Side, kind: Kind, limit: nat, lots: nat, trader: nat, coid: nat, hidden: bool): Option<Effect> {
    var q, opp := QueueOf(b, s), QueueOf(b, s.Opposite());
    if limit == 0 || lots == 0 then None
    else match kind
      case PostOnly =>
        if opp != [] && Crosses(s, limit, opp[0].price) then None
        else if |q| >= ORDERS_PER_SIDE then None
        else Some(Effect(WithQueue(b, s, Insert(s, q, Order(trader, coid, limit, lots, b.nextSeq, hidden)))
                           .(nextSeq := b.nextSeq + 1), []))
      case ImmediateOrCancel =>
        var x := Cross(s, opp, limit, lots, trader, MAX_FILLS_PER_ORDER);
        if b.pending + |x.fills| > PENDING_FILLS then None
        else Some(Effect(WithQueue(b, s.Opposite(), x.queue).(pending := b.pending + |x.fills|), x.fills))
  }

  datatype Ix =
    | CancelIx(side: Side, coid: nat)
    | PlaceIx(side: Side, kind: Kind, limit: nat, lots: nat, coid: nat, hidden: bool)

  function Step(b: Book, signer: nat, ix: Ix): Option<Effect> {
    match ix
    case CancelIx(s, coid) =>
      (match Remove(QueueOf(b, s), signer, coid)
       case None => None
       case Some(q) => Some(Effect(WithQueue(b, s, q), [])))
    case PlaceIx(s, kind, limit, lots, coid, hidden) => Place(b, s, kind, limit, lots, signer, coid, hidden)
  }

  /** One transaction: every instruction in order, or nothing at all. */
  function Execute(b: Book, signer: nat, tx: seq<Ix>): Option<Effect>
    decreases |tx|
  {
    if tx == [] then Some(Effect(b, []))
    else match Step(b, signer, tx[0])
      case None => None
      case Some(e) =>
        match Execute(e.book, signer, tx[1..])
        case None => None
        case Some(rest) => Some(Effect(rest.book, e.fills + rest.fills))
  }

  // ── well-formed books ─────────────────────────────────────────────────────

  ghost predicate Sorted(s: Side, q: seq<Order>) {
    forall i, j | 0 <= i < j < |q| :: RanksAhead(s, q[i], q[j])
  }

  ghost predicate Arrived(q: seq<Order>, nextSeq: nat) {
    forall o | o in q :: o.seqNo < nextSeq && 0 < o.lots && 0 < o.price
  }

  ghost predicate Uncrossed(b: Book) {
    forall x, y | x in b.bids && y in b.asks :: x.price < y.price
  }

  ghost predicate Valid(b: Book) {
    && Sorted(Bid, b.bids) && Sorted(Ask, b.asks)
    && Arrived(b.bids, b.nextSeq) && Arrived(b.asks, b.nextSeq)
    && |b.bids| <= ORDERS_PER_SIDE && |b.asks| <= ORDERS_PER_SIDE
    && Uncrossed(b)
  }

  lemma {:induction false} InsertKeeps(s: Side, q: seq<Order>, o: Order)
    ensures multiset(Insert(s, q, o)) == multiset(q) + multiset{o}
    ensures |Insert(s, q, o)| == |q| + 1
  {
    if q != [] && !RanksAhead(s, o, q[0]) {
      InsertKeeps(s, q[1..], o);
      assert q == [q[0]] + q[1..];
    }
  }

  lemma SortedCons(s: Side, x: Order, t: seq<Order>)
    requires Sorted(s, t) && forall y | y in t :: RanksAhead(s, x, y)
    ensures Sorted(s, [x] + t)
  {
    var r := [x] + t;
    forall i, j | 0 <= i < j < |r| ensures RanksAhead(s, r[i], r[j]) {
      assert r[j] == t[j - 1];
      if i > 0 { assert r[i] == t[i - 1]; }
    }
  }

  /** A newcomer takes the back of its price level and the queue stays in strict priority order. */
  lemma {:induction false} InsertSorted(s: Side, q: seq<Order>, o: Order)
    requires Sorted(s, q) && forall x | x in q :: x.seqNo < o.seqNo
    ensures Sorted(s, Insert(s, q, o))
  {
    if q == [] {
    } else if RanksAhead(s, o, q[0]) {
      forall y | y in q ensures RanksAhead(s, o, y) {
        var j :| 0 <= j < |q| && q[j] == y;
        if j > 0 { assert RanksAhead(s, q[0], q[j]); }
      }
      SortedCons(s, o, q);
    } else {
      var rest, tail := q[1..], Insert(s, q[1..], o);
      assert Sorted(s, rest) by {
        forall i, j | 0 <= i < j < |rest| ensures RanksAhead(s, rest[i], rest[j]) { assert RanksAhead(s, q[i + 1], q[j + 1]); }
      }
      InsertSorted(s, rest, o);
      InsertKeeps(s, rest, o);
      forall y | y in tail ensures RanksAhead(s, q[0], y) {
        assert y in multiset(tail);
        if y in rest {
          var j :| 0 <= j < |rest| && rest[j] == y;
          assert RanksAhead(s, q[0], q[j + 1]);
        }
      }
      SortedCons(s, q[0], tail);
    }
  }

  /** A post-only order that fits and does not cross rests, alone, and leaves the book well formed. */
  lemma PostOnlyRests(b: Book, s: Side, limit: nat, lots: nat, trader: nat, coid: nat, hidden: bool)
    requires Valid(b) && 0 < limit && 0 < lots && |QueueOf(b, s)| < ORDERS_PER_SIDE
    requires forall o | o in QueueOf(b, s.Opposite()) :: !Crosses(s, limit, o.price)
    ensures var o := Order(trader, coid, limit, lots, b.nextSeq, hidden);
      var e := Place(b, s, PostOnly, limit, lots, trader, coid, hidden);
      && e.Some? && e.value.fills == [] && Valid(e.value.book)
      && QueueOf(e.value.book, s) == Insert(s, QueueOf(b, s), o)
      && QueueOf(e.value.book, s.Opposite()) == QueueOf(b, s.Opposite())
      && e.value.book.pending == b.pending && e.value.book.nextSeq == b.nextSeq + 1
  {
    var q := QueueOf(b, s);
    var o := Order(trader, coid, limit, lots, b.nextSeq, hidden);
    InsertKeeps(s, q, o);
    InsertSorted(s, q, o);
    forall x | x in Insert(s, q, o) ensures x in q || x == o {
      assert x in multiset(Insert(s, q, o));
    }
  }

  ghost function LotsOf(q: seq<Order>, taker: nat): nat {
    if q == [] then 0 else (if q[0].trader == taker then 0 else q[0].lots) + LotsOf(q[1..], taker)
  }

  ghost function Filled(fills: seq<Fill>): nat { if fills == [] then 0 else fills[0].lots + Filled(fills[1..]) }

  /** Matching conserves lots: what is filled has left the resting orders of others and the taker's own order,
      each fill is at a price the limit reaches, and there are no more of them than the budget. */
  lemma {:induction false} CrossConserves(s: Side, q: seq<Order>, limit: nat, lots: nat, taker: nat, budget: nat)
    ensures var x := Cross(s, q, limit, lots, taker, budget);
      && Filled(x.fills) + x.left == lots && LotsOf(x.queue, taker) + Filled(x.fills) == LotsOf(q, taker)
      && |x.fills| <= budget && forall f | f in x.fills :: if s == Bid then f.price <= limit else f.price >= limit
    decreases |q|
  {
    if lots == 0 || budget == 0 || q == [] || !Crosses(s, limit, q[0].price) {
    } else if q[0].trader == taker {
      CrossConserves(s, q[1..], limit, lots, taker, budget);
    } else if lots >= q[0].lots {
      CrossConserves(s, q[1..], limit, lots - q[0].lots, taker, budget - 1);
      var rest := Cross(s, q[1..], limit, lots - q[0].lots, taker, budget - 1);
      var f := Fill(q[0].trader, q[0].coid, q[0].price, q[0].lots, true);
      assert ([f] + rest.fills)[1..] == rest.fills;
    } else {
      var left := q[0].(lots := q[0].lots - lots);
      assert ([left] + q[1..])[1..] == q[1..];
      var f := Fill(q[0].trader, q[0].coid, q[0].price, lots, false);
      assert Cross(s, q, limit, lots, taker, budget).fills == [f] && [f][1..] == [];
    }
  }

  /** When a placement is refused: nothing asked for, a post-only order that would trade or finds its side full,
      or more fills than the queue of them can take. */
  lemma PlaceRefusedIff(b: Book, s: Side, kind: Kind, limit: nat, lots: nat, trader: nat, coid: nat, hidden: bool)
    ensures var same, other := if s == Bid then b.bids else b.asks, if s == Bid then b.asks else b.bids;
      Place(b, s, kind, limit, lots, trader, coid, hidden).None? <==>
        || limit == 0 || lots == 0
        || (kind == PostOnly && (|same| >= 32 || (other != [] && if s == Bid then other[0].price <= limit else other[0].price >= limit)))
        || (kind == ImmediateOrCancel && b.pending + |Cross(s, other, limit, lots, trader, 8).fills| > 16)
  {
    hide Cross, Insert;
  }

  /** Nobody is ever filled against their own order. */
  lemma {:induction false} NoSelfFill(s: Side, q: seq<Order>, limit: nat, lots: nat, taker: nat, budget: nat)
    ensures forall f | f in Cross(s, q, limit, lots, taker, budget).fills :: f.maker != taker
    decreases |q|
  {
    if lots == 0 || budget == 0 || q == [] || !Crosses(s, limit, q[0].price) {
    } else if q[0].trader == taker {
      NoSelfFill(s, q[1..], limit, lots, taker, budget);
    } else if lots >= q[0].lots {
      NoSelfFill(s, q[1..], limit, lots - q[0].lots, taker, budget - 1);
    }
  }

  lemma {:induction false} RemoveAt(q: seq<Order>, trader: nat, coid: nat, k: nat)
    requires k <= |q| && (forall i | 0 <= i < k :: q[i].coid != coid) && (k < |q| ==> q[k].coid == coid)
    ensures Remove(q, trader, coid) ==
      if k < |q| && q[k].trader == trader then Some(q[..k] + q[k + 1..]) else None
  {
    if k > 0 {
      RemoveAt(q[1..], trader, coid, k - 1);
      if k < |q| { assert q[..k] + q[k + 1..] == [q[0]] + (q[1..][..k - 1] + q[1..][k..]); }
    } else if k < |q| {
      assert q[..0] + q[1..] == q[1..];
    }
  }
}
