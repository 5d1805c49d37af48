/** One side of the book as the account stores it: a fixed arena of slots threaded by two linked lists, the
    live orders best first and the free slots. What its operations do to the list is what the book's do to
    a queue, so whoever walks the account reads the queue. */
module BookArena {
  import opened Prelude
  import opened Orders
  import opened MatchingBook

  const NOBODY := Order(0, 0, 0, 0, 0, false)

  function Link(p: seq<nat>, i: nat): nat { if i < |p| then p[i] else NIL }

  ghost predicate AllDistinct(p: seq<nat>) { forall i, j | 0 <= i < j < |p| :: p[i] != p[j] }

  /** `p` is the list that starts at `head`, slot by slot. */
  ghost predicate Linked(slots: seq<Slot>, head: nat, p: seq<nat>) {
    && (forall i | 0 <= i < |p| :: p[i] < |slots|) && AllDistinct(p) && head == Link(p, 0)
    && forall i | 0 <= i < |p| :: slots[p[i]].next == Link(p, i + 1)
  }

  /** Live and free slots share the arena out between them. */
  ghost predicate Threads(slots: seq<Slot>, head: nat, live: seq<nat>, freeHead: nat, free: seq<nat>) {
    && |slots| <= NIL && Linked(slots, head, live) && Linked(slots, freeHead, free)
    && (forall i, j | 0 <= i < |live| && 0 <= j < |free| :: live[i] != free[j])
    && (forall i | 0 <= i < |live| :: slots[live[i]].active)
    && |live| + |free| == |slots|
  }

  function Queue(slots: seq<Slot>, p: seq<nat>): seq<Order>
    requires forall i | 0 <= i < |p| :: p[i] < |slots|
  {
    seq(|p|, i requires 0 <= i < |p| => slots[p[i]].order)
  }

  // ── what the readers see ──────────────────────────────────────────────────

  lemma {:induction false} LinkedIsList(slots: seq<Slot>, head: nat, p: seq<nat>, k: nat)
    requires |slots| <= NIL && Linked(slots, head, p) && k <= |p|
    ensures IsList(Arena(slots, head), Link(p, k), p[k..])
    decreases |p| - k
  {
    if k < |p| {
      LinkedIsList(slots, head, p, k + 1);
      assert p[k..][1..] == p[k + 1..];
    }
  }

  lemma {:induction false} LiveIsQueue(slots: seq<Slot>, head: nat, p: seq<nat>)
    requires forall i | 0 <= i < |p| :: p[i] < |slots| && slots[p[i]].active
    ensures Actives(Arena(slots, head), p) == Queue(slots, p)
  {
    if p != [] {
      LiveIsQueue(slots, head, p[..|p| - 1]);
      assert Queue(slots, p) == Queue(slots, p[..|p| - 1]) + [slots[p[|p| - 1]].order];
    }
  }

  /** Both readers, given steps enough, return the queue. */
  lemma WalkReadsQueue(slots: seq<Slot>, head: nat, live: seq<nat>, freeHead: nat, free: seq<nat>, limit: nat)
    requires Threads(slots, head, live, freeHead, free)
    ensures var a := Arena(slots, head);
      && Actives(a, Visits(a, head, {})) == Queue(slots, live)
      && (Actives(a, Chain(a, head, limit)) == Queue(slots, live) <==> |live| <= limit)
  {
    LinkedIsList(slots, head, live, 0);
    assert live[0..] == live;
    LiveIsQueue(slots, head, live);
    ReadersAgree(Arena(slots, head), live, limit);
    if |live| > limit { assert slots[live[limit]].active; }
  }

  // ── threading a slot in and out ───────────────────────────────────────────

  function Threaded(slots: seq<Slot>, live: seq<nat>, slot: nat, o: Order, k: nat): seq<Slot>
    requires slot < |slots| && k <= |live| && forall i | 0 <= i < |live| :: live[i] < |slots|
  {
    var placed := slots[slot := Slot(o, true, Link(live, k))];
    if k == 0 then placed else placed[live[k - 1] := placed[live[k - 1]].(next := slot)]
  }

  function Inserted(live: seq<nat>, slot: nat, k: nat): seq<nat>
    requires k <= |live|
  {
    live[..k] + [slot] + live[k..]
  }

  lemma InsertedAt(live: seq<nat>, slot: nat, k: nat)
    requires k <= |live|
    ensures var p := Inserted(live, slot, k);
      && |p| == |live| + 1 && p[k] == slot
      && (forall i | 0 <= i < k :: p[i] == live[i]) && (forall i | k < i < |p| :: p[i] == live[i - 1])
  {
  }

  lemma LinkedIn(slots: seq<Slot>, head: nat, live: seq<nat>, slot: nat, o: Order, k: nat)
    requires |slots| <= NIL && Linked(slots, head, live) && slot < |slots| && k <= |live|
    requires forall i | 0 <= i < |live| :: live[i] != slot
    ensures Linked(Threaded(slots, live, slot, o, k), if k == 0 then slot else head, Inserted(live, slot, k))
  {
    var slots', p := Threaded(slots, live, slot, o, k), Inserted(live, slot, k);
    InsertedAt(live, slot, k);
    hide Inserted;
    forall i, j | 0 <= i < j < |p| ensures p[i] != p[j] {
      assert i != k && j != k ==> live[if i < k then i else i - 1] != live[if j < k then j else j - 1];
    }
    forall i | 0 <= i < |p| ensures p[i] < |slots'| && slots'[p[i]].next == Link(p, i + 1) {
      if i < k - 1 {
        assert live[i] != live[k - 1];
      } else if i > k && k > 0 {
        assert live[k - 1] != live[i - 1];
      }
    }
  }

  /** Slots outside the change keep what they held. */
  lemma Unthreaded(slots: seq<Slot>, live: seq<nat>, slot: nat, o: Order, k: nat, x: nat)
    requires slot < |slots| && k <= |live| && forall i | 0 <= i < |live| :: live[i] < |slots|
    requires x < |slots| && x != slot
    ensures var y := Threaded(slots, live, slot, o, k)[x];
      && y.order == slots[x].order && y.active == slots[x].active
      && ((k == 0 || x != live[k - 1]) ==> y == slots[x])
  {
  }

  lemma FreeOut(slots: seq<Slot>, head: nat, live: seq<nat>, freeHead: nat, free: seq<nat>, o: Order, k: nat)
    requires Threads(slots, head, live, freeHead, free) && free != [] && k <= |live|
    ensures freeHead < |slots| && Linked(Threaded(slots, live, freeHead, o, k), slots[freeHead].next, free[1..])
  {
    var slots', f := Threaded(slots, live, freeHead, o, k), free[1..];
    assert free[0] == freeHead;
    forall i | 0 <= i < |f| ensures f[i] < |slots'| && slots'[f[i]].next == Link(f, i + 1) {
      assert f[i] == free[i + 1];
      assert free[0] != free[i + 1];
      if k > 0 { assert live[k - 1] != free[i + 1]; }
      Unthreaded(slots, live, freeHead, o, k, free[i + 1]);
    }
  }

  lemma QueueIn(slots: seq<Slot>, live: seq<nat>, slot: nat, o: Order, k: nat)
    requires slot < |slots| && k <= |live| && forall i | 0 <= i < |live| :: live[i] < |slots| && live[i] != slot
    requires forall i | 0 <= i < |live| :: slots[live[i]].active
    ensures var slots', p := Threaded(slots, live, slot, o, k), Inserted(live, slot, k);
      && (forall i | 0 <= i < |p| :: p[i] < |slots'| && slots'[p[i]].active)
      && Queue(slots', p) == Queue(slots, live)[..k] + [o] + Queue(slots, live)[k..]
  {
    var slots', p := Threaded(slots, live, slot, o, k), Inserted(live, slot, k);
    InsertedAt(live, slot, k);
    assert slots'[slot].order == o && slots'[slot].active;
    forall i | 0 <= i < |live| ensures slots'[live[i]].order == slots[live[i]].order && slots'[live[i]].active {
      Unthreaded(slots, live, slot, o, k, live[i]);
    }
    hide Inserted, Threaded;
  }

  /** A free slot threaded in before position `k` of the live list. */
  lemma ThreadIn(slots: seq<Slot>, head: nat, live: seq<nat>, freeHead: nat, free: seq<nat>, o: Order, k: nat)
    requires Threads(slots, head, live, freeHead, free) && free != [] && k <= |live|
    ensures var slots', live' := Threaded(slots, live, freeHead, o, k), Inserted(live, freeHead, k);
      && Threads(slots', if k == 0 then freeHead else head, live', slots[freeHead].next, free[1..])
      && Queue(slots', live') == Queue(slots, live)[..k] + [o] + Queue(slots, live)[k..]
  {
    assert free[0] == freeHead;
    assert forall i | 0 <= i < |live| :: live[i] != free[0];
    FreeOut(slots, head, live, freeHead, free, o, k);
    LinkedIn(slots, head, live, freeHead, o, k);
    QueueIn(slots, live, freeHead, o, k);
    InsertedAt(live, freeHead, k);
    var live' := Inserted(live, freeHead, k);
    hide Linked, Threaded, Inserted, Queue;
    forall i, j | 0 <= i < |live'| && 0 <= j < |free[1..]| ensures live'[i] != free[1..][j] {
      assert free[1..][j] == free[j + 1];
      if i == k {
        assert free[0] != free[j + 1] by { assert AllDistinct(free); }
      } else {
        assert live[if i < k then i else i - 1] != free[j + 1];
      }
    }
  }

  function Unlinked(slots: seq<Slot>, live: seq<nat>, k: nat, freeHead: nat): seq<Slot>
    requires k < |live| && forall i | 0 <= i < |live| :: live[i] < |slots|
  {
    var bridged := if k == 0 then slots else slots[live[k - 1] := slots[live[k - 1]].(next := Link(live, k + 1))];
    bridged[live[k] := Slot(NOBODY, false, freeHead)]
  }

  function Dropped(live: seq<nat>, k: nat): seq<nat>
    requires k < |live|
  {
    live[..k] + live[k + 1..]
  }

  lemma DroppedAt(live: seq<nat>, k: nat)
    requires k < |live|
    ensures var p := Dropped(live, k);
      && |p| == |live| - 1 && (forall i | 0 <= i < k :: p[i] == live[i]) && (forall i | k <= i < |p| :: p[i] == live[i + 1])
  {
  }

  lemma LinkedOut(slots: seq<Slot>, head: nat, live: seq<nat>, k: nat, freeHead: nat)
    requires |slots| <= NIL && Linked(slots, head, live) && k < |live|
    ensures Linked(Unlinked(slots, live, k, freeHead), if k == 0 then slots[live[0]].next else head, Dropped(live, k))
  {
    var slots', p := Unlinked(slots, live, k, freeHead), Dropped(live, k);
    DroppedAt(live, k);
    hide Dropped;
    forall i, j | 0 <= i < j < |p| ensures p[i] != p[j] {
      assert live[if i < k then i else i + 1] != live[if j < k then j else j + 1];
    }
    forall i | 0 <= i < |p| ensures p[i] < |slots'| && slots'[p[i]].next == Link(p, i + 1) {
      var at := if i < k then i else i + 1;
      assert live[at] != live[k];
      if k > 0 && at != k - 1 { assert live[at] != live[k - 1]; }
    }
  }

  lemma Untouched(slots: seq<Slot>, live: seq<nat>, k: nat, freeHead: nat, x: nat)
    requires k < |live| && forall i | 0 <= i < |live| :: live[i] < |slots|
    requires x < |slots| && x != live[k]
    ensures var y := Unlinked(slots, live, k, freeHead)[x];
      && y.order == slots[x].order && y.active == slots[x].active && ((k == 0 || x != live[k - 1]) ==> y == slots[x])
  {
  }

  lemma FreeIn(slots: seq<Slot>, head: nat, live: seq<nat>, freeHead: nat, free: seq<nat>, k: nat)
    requires Threads(slots, head, live, freeHead, free) && k < |live|
    ensures Linked(Unlinked(slots, live, k, freeHead), live[k], [live[k]] + free)
  {
    var slots', f := Unlinked(slots, live, k, freeHead), [live[k]] + free;
    forall i | 0 <= i < |f| ensures f[i] < |slots'| && slots'[f[i]].next == Link(f, i + 1) {
      if i > 0 {
        assert f[i] == free[i - 1] && live[k] != free[i - 1];
        if k > 0 { assert live[k - 1] != free[i - 1]; }
        Untouched(slots, live, k, freeHead, free[i - 1]);
      }
    }
    forall i, j | 0 <= i < j < |f| ensures f[i] != f[j] {
      if i == 0 { assert live[k] != free[j - 1]; } else { assert free[i - 1] != free[j - 1]; }
    }
  }

  lemma QueueOut(slots: seq<Slot>, live: seq<nat>, k: nat, freeHead: nat)
    requires k < |live| && AllDistinct(live) && forall i | 0 <= i < |live| :: live[i] < |slots| && slots[live[i]].active
    ensures var slots', p := Unlinked(slots, live, k, freeHead), Dropped(live, k);
      && (forall i | 0 <= i < |p| :: p[i] < |slots'| && slots'[p[i]].active)
      && Queue(slots', p) == Queue(slots, live)[..k] + Queue(slots, live)[k + 1..]
  {
    var slots', p := Unlinked(slots, live, k, freeHead), Dropped(live, k);
    DroppedAt(live, k);
    forall i | 0 <= i < |live| && i != k
      ensures slots'[live[i]].order == slots[live[i]].order && slots'[live[i]].active
    {
      assert live[i] != live[k];
      Untouched(slots, live, k, freeHead, live[i]);
    }
    hide Dropped, Unlinked;
  }

  /** Position `k` of the live list threaded out and handed to the free list. */
  lemma ThreadOut(slots: seq<Slot>, head: nat, live: seq<nat>, freeHead: nat, free: seq<nat>, k: nat)
    requires Threads(slots, head, live, freeHead, free) && k < |live|
    ensures var slots', live' := Unlinked(slots, live, k, freeHead), Dropped(live, k);
      && Threads(slots', if k == 0 then slots[live[0]].next else head, live', live[k], [live[k]] + free)
      && Queue(slots', live') == Queue(slots, live)[..k] + Queue(slots, live)[k + 1..]
  {
    FreeIn(slots, head, live, freeHead, free, k);
    LinkedOut(slots, head, live, k, freeHead);
    QueueOut(slots, live, k, freeHead);
    DroppedAt(live, k);
    var live', f := Dropped(live, k), [live[k]] + free;
    assert AllDistinct(live);
    hide Linked, Unlinked, Dropped, Queue;
    forall i, j | 0 <= i < |live'| && 0 <= j < |f| ensures live'[i] != f[j] {
      var at := if i < k then i else i + 1;
      if j == 0 { assert live[at] != live[k]; } else { assert live[at] != free[j - 1]; }
    }
  }

  // ── the positions the loops find ──────────────────────────────────────────

  lemma {:induction false} InsertAt(s: Side, q: seq<Order>, o: Order, k: nat)
    requires k <= |q| && (forall i | 0 <= i < k :: !RanksAhead(s, o, q[i])) && (k < |q| ==> RanksAhead(s, o, q[k]))
    ensures Insert(s, q, o) == q[..k] + [o] + q[k..]
  {
    if k > 0 {
      InsertAt(s, q[1..], o, k - 1);
      assert q[..k] == [q[0]] + q[1..][..k - 1] && q[k..] == q[1..][k - 1..];
    } else {
      assert q[..0] + [o] + q[0..] == [o] + q;
    }
  }

  /** What the links say at position `k` of the live list, whose queue is `q`. */
  ghost predicate Headed(slots: seq<Slot>, live: seq<nat>, q: seq<Order>, k: nat) {
    && k <= |live| == |q|
    && (k < |live| ==> live[k] < |slots| && live[k] != NIL && q[k] == slots[live[k]].order && slots[live[k]].active)
    && (k > 0 ==> live[k - 1] < |slots| && slots[live[k - 1]].next == if k < |live| then live[k] else NIL)
  }

  lemma HeadedMeans(slots: seq<Slot>, live: seq<nat>, q: seq<Order>, k: nat)
    requires Headed(slots, live, q, k)
    ensures k <= |live| == |q|
    ensures k < |live| ==> live[k] < |slots| && live[k] != NIL && q[k] == slots[live[k]].order && slots[live[k]].active
    ensures k > 0 ==> live[k - 1] < |slots| && slots[live[k - 1]].next == if k < |live| then live[k] else NIL
  {
  }

  lemma HeadedEverywhere(slots: seq<Slot>, head: nat, live: seq<nat>, freeHead: nat, free: seq<nat>)
    requires Threads(slots, head, live, freeHead, free)
    ensures forall k: nat | k <= |live| :: Headed(slots, live, Queue(slots, live), k)
    ensures head == if live == [] then NIL else live[0]
  {
  }

  // ── the account ───────────────────────────────────────────────────────────

  class BookSide {
    const orders: array<Slot>
    var head: nat
    var freeHead: nat
    var count: nat
    ghost var live: seq<nat>
    ghost var free: seq<nat>

    ghost predicate Valid()
      reads this, orders
    {
      Threads(orders[..], head, live, freeHead, free) && count == |live|
    }

    /** The queue the two lists stand for. */
    ghost function Resting(): seq<Order>
      requires Valid()
      reads this, orders
    {
      Queue(orders[..], live)
    }

    /** Every slot threaded onto the free list. */
    constructor (n: nat)
      requires n <= NIL
      ensures Valid() && Resting() == [] && orders.Length == n && fresh(orders)
    {
      orders := new Slot[n]((i: nat) => Slot(NOBODY, false, if i + 1 < n then i + 1 else NIL));
      head, count, live := NIL, 0, [];
      freeHead := if n == 0 then NIL else 0;
      free := seq(n, i => i);
      new;
      assert Linked(orders[..], freeHead, free) by {
        forall i | 0 <= i < |free| ensures orders[..][free[i]].next == Link(free, i + 1) {}
      }
    }

    /** The walk for a place: the last live slot that the newcomer does not rank ahead of, if any. */
    method FindPlace(s: Side, o: Order) returns (before: nat, ghost k: nat)
      requires Valid()
      ensures k <= |live| == |Resting()| && before == (if k == 0 then NIL else live[k - 1])
      ensures forall i | 0 <= i < k :: !RanksAhead(s, o, Resting()[i])
      ensures k < |live| ==> RanksAhead(s, o, Resting()[k])
    {
      ghost var q, slots := Resting(), orders[..];
      HeadedEverywhere(slots, head, live, freeHead, free);
      hide Threads, Queue, Linked, RanksAhead;
      if head == NIL || RanksAhead(s, o, orders[head].order) {
        assert Headed(slots, live, q, 0);
        return NIL, 0;
      }
      before, k := head, 1;
      assert Headed(slots, live, q, 0) && Headed(slots, live, q, 1);
      while orders[before].next != NIL && !RanksAhead(s, o, orders[orders[before].next].order)
        invariant 1 <= k <= |live| && before == live[k - 1] && Headed(slots, live, q, k)
        invariant forall i | 0 <= i < k :: !RanksAhead(s, o, q[i])
        decreases |live| - k
      {
        assert slots[before].next == live[k] && Headed(slots, live, q, k + 1);
        before, k := orders[before].next, k + 1;
      }
    }

    /** Insert into priority position: refused when no slot is free. */
    method Insert(s: Side, o: Order) returns (ok: bool)
      requires Valid()
      modifies this, orders
      ensures Valid()
      ensures ok <==> |old(Resting())| < orders.Length
      ensures Resting() == if ok then MatchingBook.Insert(s, old(Resting()), o) else old(Resting())
    {
      Room();
      if freeHead == NIL { return false; }
      ghost var slots := orders[..];
      var slot := freeHead;
      ghost var k;
      var before;
      before, k := FindPlace(s, o);
      InsertThreads(s, slots, head, live, slot, free, o, k);
      hide *;
      freeHead := orders[slot].next;
      if before == NIL {
        orders[slot] := Slot(o, true, head);
        assert orders[..] == slots[slot := Slot(o, true, head)];
        head := slot;
      } else {
        orders[slot] := Slot(o, true, orders[before].next);
        ghost var placed := slots[slot := Slot(o, true, slots[before].next)];
        assert orders[..] == placed;
        orders[before] := orders[before].(next := slot);
        assert orders[..] == placed[before := placed[before].(next := slot)];
      }
      count := count + 1;
      live, free := Inserted(live, slot, k), free[1..];
      ok := true;
      IsValid();
    }

    lemma IsValid()
      requires Threads(orders[..], head, live, freeHead, free) && count == |live|
      ensures Valid() && Resting() == Queue(orders[..], live)
    {
    }

    /** Unlink the head and hand its slot to the free list; an empty side stays as it is. */
    method PopHead()
      requires Valid()
      modifies this, orders
      ensures Valid()
      ensures Resting() == if old(Resting()) == [] then [] else old(Resting())[1..]
    {
      Room();
      HeadedEverywhere(orders[..], head, live, freeHead, free);
      if head == NIL { return; }
      ghost var slots, q := orders[..], Resting();
      RemoveThreads(slots, head, live, freeHead, free, 0);
      assert q[..0] + q[1..] == q[1..];
      hide *;
      var slot := head;
      head := orders[slot].next;
      orders[slot] := Slot(NOBODY, false, freeHead);
      assert orders[..] == slots[slot := Slot(NOBODY, false, freeHead)];
      freeHead := slot;
      count := count - 1;
      live, free := Dropped(live, 0), [slot] + free;
      IsValid();
    }

    /** Cancel by client id: the first live order that carries it, if it is the caller's. */
    method Cancel(trader: nat, coid: nat) returns (cancelled: bool)
      requires Valid()
      modifies this, orders
      ensures Valid()
      ensures cancelled <==> Remove(old(Resting()), trader, coid).Some?
      ensures Resting() == if cancelled then Remove(old(Resting()), trader, coid).value else old(Resting())
    {
      var prev, cursor;
      ghost var k;
      prev, cursor, k := FindOrder(coid);
      RemoveAt(Resting(), trader, coid, k);
      if cursor == NIL || orders[cursor].order.trader != trader { return false; }
      ghost var slots := orders[..];
      assert k < |live|;
      RemoveThreads(slots, head, live, freeHead, free, k);
      hide *;
      var next := orders[cursor].next;
      if prev == NIL {
        head := next;
        orders[cursor] := Slot(NOBODY, false, freeHead);
        assert orders[..] == slots[cursor := Slot(NOBODY, false, freeHead)];
      } else {
        orders[prev] := orders[prev].(next := next);
        ghost var bridged := slots[prev := slots[prev].(next := next)];
        assert orders[..] == bridged;
        orders[cursor] := Slot(NOBODY, false, freeHead);
        assert orders[..] == bridged[cursor := Slot(NOBODY, false, freeHead)];
      }
      freeHead := cursor;
      count := count - 1;
      live, free := Dropped(live, k), [cursor] + free;
      cancelled := true;
      IsValid();
    }

    lemma Heads()
      requires Valid()
      ensures forall k: nat | k <= |live| :: Headed(orders[..], live, Resting(), k)
      ensures head == if live == [] then NIL else live[0]
    {
      HeadedEverywhere(orders[..], head, live, freeHead, free);
    }

    /** The walk for a client id, remembering the slot before. */
    method FindOrder(coid: nat) returns (prev: nat, cursor: nat, ghost k: nat)
      requires Valid()
      ensures k <= |live| == |Resting()| && prev == (if k == 0 then NIL else live[k - 1])
      ensures forall i | 0 <= i < k :: Resting()[i].coid != coid
      ensures k < |live| ==> cursor == live[k] != NIL && cursor < orders.Length
                             && Resting()[k] == orders[cursor].order && Resting()[k].coid == coid
      ensures k == |live| ==> cursor == NIL
    {
      Heads();
      prev, cursor, k := Search(coid, Resting());
    }

    method Search(coid: nat, ghost q: seq<Order>) returns (prev: nat, cursor: nat, ghost k: nat)
      requires |q| == |live| && head == (if live == [] then NIL else live[0])
      requires forall k: nat | k <= |live| :: Headed(orders[..], live, q, k)
      ensures k <= |live| && prev == (if k == 0 then NIL else live[k - 1])
      ensures forall i | 0 <= i < k :: q[i].coid != coid
      ensures cursor == if k < |live| then live[k] else NIL
      ensures k < |live| ==> cursor != NIL && cursor < orders.Length && q[k] == orders[cursor].order && q[k].coid == coid
    {
      hide Headed;
      ghost var slots := orders[..];
      prev, cursor, k := NIL, head, 0;
      HeadedMeans(slots, live, q, 0);
      while cursor != NIL
        invariant k <= |live| && prev == (if k == 0 then NIL else live[k - 1]) && Headed(slots, live, q, k)
        invariant cursor == if k < |live| then live[k] else NIL
        invariant forall i | 0 <= i < k :: q[i].coid != coid
        decreases |live| - k
      {
        HeadedMeans(slots, live, q, k);
        var o := orders[cursor];
        assert o == slots[cursor];
        if o.active && o.order.coid == coid { return; }
        HeadedMeans(slots, live, q, k + 1);
        prev, cursor, k := cursor, o.next, k + 1;
      }
      HeadedMeans(slots, live, q, k);
    }

    lemma Room()
      requires Valid()
      ensures |Resting()| == |live| && |live| + |free| == orders.Length
      ensures freeHead == NIL <==> free == []
      ensures freeHead != NIL ==> freeHead < orders.Length
    {
      if free != [] { assert free[0] < orders.Length; }
    }
  }

  /** The whole effect of an insertion on the arena's value. */
  lemma InsertThreads(s: Side, slots: seq<Slot>, head: nat, live: seq<nat>, freeHead: nat, free: seq<nat>, o: Order, k: nat)
    requires Threads(slots, head, live, freeHead, free) && free != [] && k <= |live|
    requires forall i | 0 <= i < k :: !RanksAhead(s, o, Queue(slots, live)[i])
    requires k < |live| ==> RanksAhead(s, o, Queue(slots, live)[k])
    ensures freeHead < |slots|
    ensures var slots', live' := Threaded(slots, live, freeHead, o, k), Inserted(live, freeHead, k);
      && Threads(slots', if k == 0 then freeHead else head, live', slots[freeHead].next, free[1..])
      && Queue(slots', live') == MatchingBook.Insert(s, Queue(slots, live), o)
    ensures |Inserted(live, freeHead, k)| == |live| + 1
    ensures k == 0 ==> Threaded(slots, live, freeHead, o, k) == slots[freeHead := Slot(o, true, head)]
    ensures k > 0 ==>
      var before := live[k - 1];
      && before < |slots| && before != freeHead && before != NIL
      && var placed := slots[freeHead := Slot(o, true, slots[before].next)];
         Threaded(slots, live, freeHead, o, k) == placed[before := placed[before].(next := freeHead)]
  {
    assert free[0] == freeHead;
    InsertedAt(live, freeHead, k);
    InsertAt(s, Queue(slots, live), o, k);
    ThreadIn(slots, head, live, freeHead, free, o, k);
    if k > 0 { assert live[k - 1] != free[0]; }
  }

  /** The whole effect of a removal on the arena's value. */
  lemma RemoveThreads(slots: seq<Slot>, head: nat, live: seq<nat>, freeHead: nat, free: seq<nat>, k: nat)
    requires Threads(slots, head, live, freeHead, free) && k < |live|
    ensures live[k] < |slots| && slots[live[k]].next == Link(live, k + 1)
    ensures var slots', live' := Unlinked(slots, live, k, freeHead), Dropped(live, k);
      && Threads(slots', if k == 0 then slots[live[0]].next else head, live', live[k], [live[k]] + free)
      && Queue(slots', live') == Queue(slots, live)[..k] + Queue(slots, live)[k + 1..]
      && |live'| == |live| - 1
    ensures k == 0 ==> head == live[0] && Unlinked(slots, live, k, freeHead) == slots[live[k] := Slot(NOBODY, false, freeHead)]
    ensures k > 0 ==>
      var prev := live[k - 1];
      && prev < |slots| && prev != live[k] && prev != NIL
      && var bridged := slots[prev := slots[prev].(next := slots[live[k]].next)];
         Unlinked(slots, live, k, freeHead) == bridged[live[k] := Slot(NOBODY, false, freeHead)]
  {
    ThreadOut(slots, head, live, freeHead, free, k);
    DroppedAt(live, k);
    if k > 0 { assert live[k - 1] != live[k]; }
  }
}
