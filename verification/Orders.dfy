/** A resting order as the book account stores it, and the two readers that walk the account's
    intrusive linked lists. */
module Orders {

  datatype Order = Order(trader: nat, coid: nat, price: nat, lots: nat, seqNo: nat, hidden: bool)

  datatype Slot = Slot(order: Order, active: bool, next: nat)

  datatype Arena = Arena(slots: seq<Slot>, head: nat)

  const NIL := 0xffff

  /** The readers stop at the sentinel and at any link that leads out of the arena. */
  predicate Stops(a: Arena, cursor: nat) { cursor == NIL || cursor >= |a.slots| }

  function Indices(n: nat): (s: set<nat>)
    ensures forall i: nat :: i in s <==> i < n
  {
    if n == 0 then {} else Indices(n - 1) + {n - 1}
  }

  /** The live orders among the visited slots, in visiting order. */
  function Actives(a: Arena, visited: seq<nat>): seq<Order>
    requires forall i | 0 <= i < |visited| :: visited[i] < |a.slots|
  {
    if visited == [] then []
    else
      var last := a.slots[visited[|visited| - 1]];
      Actives(a, visited[..|visited| - 1]) + (if last.active then [last.order] else [])
  }

  lemma {:induction false} ActivesAppend(a: Arena, p: seq<nat>, q: seq<nat>)
    requires forall i | 0 <= i < |p| :: p[i] < |a.slots|
    requires forall i | 0 <= i < |q| :: q[i] < |a.slots|
    ensures Actives(a, p + q) == Actives(a, p) + Actives(a, q)
  {
    if q == [] {
      assert p + q == p;
    } else {
      assert (p + q)[..|p + q| - 1] == p + q[..|q| - 1];
      ActivesAppend(a, p, q[..|q| - 1]);
    }
  }

  // ── the two walks ─────────────────────────────────────────────────────────

  /** The slots `walk` visits: links are followed until they stop or meet a slot again. */
  function Visits(a: Arena, cursor: nat, seen: set<nat>): (p: seq<nat>)
    ensures forall i | 0 <= i < |p| :: p[i] < |a.slots| && p[i] !in seen
    ensures forall i, j | 0 <= i < j < |p| :: p[i] != p[j]
    decreases Indices(|a.slots|) - seen
  {
    if Stops(a, cursor) || cursor in seen then []
    else
      assert cursor in Indices(|a.slots|) - seen;
      [cursor] + Visits(a, a.slots[cursor].next, seen + {cursor})
  }

  /** The first `n` slots along the links, with no memory of where it has been. */
  function Chain(a: Arena, cursor: nat, n: nat): (p: seq<nat>)
    ensures |p| <= n && forall i | 0 <= i < |p| :: p[i] < |a.slots|
    decreases n
  {
    if n == 0 || Stops(a, cursor) then [] else [cursor] + Chain(a, a.slots[cursor].next, n - 1)
  }

  /** The auto-matcher's reader, guarded by a visited set. */
  method Walk(a: Arena) returns (result: seq<Order>)
    ensures result == Actives(a, Visits(a, a.head, {}))
  {
    hide Visits, Actives;
    ActivesNone(a);
    result := [];
    var cursor := a.head;
    var visited: set<nat> := {};
    ghost var path: seq<nat> := [];
    while !Stops(a, cursor) && cursor !in visited
      invariant forall i | 0 <= i < |path| :: path[i] < |a.slots|
      invariant Visits(a, a.head, {}) == path + Visits(a, cursor, visited)
      invariant result == Actives(a, path)
      decreases Indices(|a.slots|) - visited
    {
      assert cursor in Indices(|a.slots|) - visited;
      ActivesSnoc(a, path, cursor);
      VisitsStep(a, cursor, visited);
      assert path + Visits(a, cursor, visited) == path + [cursor] + Visits(a, a.slots[cursor].next, visited + {cursor});
      visited := visited + {cursor};
      path := path + [cursor];
      if a.slots[cursor].active { result := result + [a.slots[cursor].order]; }
      cursor := a.slots[cursor].next;
    }
    VisitsStep(a, cursor, visited);
    assert path + [] == path;
  }

  lemma VisitsStep(a: Arena, cursor: nat, seen: set<nat>)
    ensures Visits(a, cursor, seen) ==
      if Stops(a, cursor) || cursor in seen then [] else [cursor] + Visits(a, a.slots[cursor].next, seen + {cursor})
  {
  }

  lemma ChainStep(a: Arena, cursor: nat, n: nat)
    ensures Chain(a, cursor, n) ==
      if n == 0 || Stops(a, cursor) then [] else [cursor] + Chain(a, a.slots[cursor].next, n - 1)
  {
  }

  lemma ActivesNone(a: Arena)
    ensures Actives(a, []) == []
  {
  }

  lemma ActivesSnoc(a: Arena, path: seq<nat>, x: nat)
    requires x < |a.slots| && forall i | 0 <= i < |path| :: path[i] < |a.slots|
    ensures Actives(a, path + [x]) == Actives(a, path) + (if a.slots[x].active then [a.slots[x].order] else [])
  {
    assert (path + [x])[..|path|] == path;
  }

  /** The terminal's reader, guarded by a step count; the terminal's own limit is sixty-four. */
  method WalkSide(a: Arena, limit: nat) returns (out: seq<Order>)
    ensures out == Actives(a, Chain(a, a.head, limit))
  {
    hide Chain, Actives;
    ActivesNone(a);
    out := [];
    var cursor: nat := a.head;
    var guard: nat := 0;
    ghost var path: seq<nat> := [];
    while cursor != NIL && guard < limit
      invariant guard <= limit
      invariant forall i | 0 <= i < |path| :: path[i] < |a.slots|
      invariant Chain(a, a.head, limit) == path + Chain(a, cursor, limit - guard)
      invariant out == Actives(a, path)
      decreases limit - guard
    {
      ChainStep(a, cursor, limit - guard);
      guard := guard + 1;
      if cursor >= |a.slots| {
        assert path + [] == path;
        break;
      }
      ActivesSnoc(a, path, cursor);
      assert path + Chain(a, cursor, limit - guard + 1) == path + [cursor] + Chain(a, a.slots[cursor].next, limit - guard);
      path := path + [cursor];
      if a.slots[cursor].active { out := out + [a.slots[cursor].order]; }
      cursor := a.slots[cursor].next;
    }
    ChainStep(a, cursor, limit - guard);
    assert path + [] == path;
  }

  // ── what they agree on ────────────────────────────────────────────────────

  /** `p` is the list that starts at `cursor` and runs to a stop: the list is acyclic. */
  ghost predicate IsList(a: Arena, cursor: nat, p: seq<nat>)
    decreases |p|
  {
    if p == [] then Stops(a, cursor)
    else !Stops(a, cursor) && p[0] == cursor && IsList(a, a.slots[cursor].next, p[1..])
  }

  lemma {:induction false} ListInside(a: Arena, cursor: nat, p: seq<nat>)
    requires IsList(a, cursor, p)
    ensures forall i | 0 <= i < |p| :: p[i] < |a.slots| && IsList(a, p[i], p[i..])
    decreases |p|
  {
    if p != [] {
      ListInside(a, a.slots[cursor].next, p[1..]);
      forall i | 0 <= i < |p| ensures p[i] < |a.slots| && IsList(a, p[i], p[i..]) {
        if i == 0 {
          assert p[0..] == p;
        } else {
          assert p[i..] == p[1..][i - 1..] && p[i] == p[1..][i - 1];
        }
      }
    }
  }

  /** Links are a function of the slot, so a list is determined by where it starts. */
  lemma {:induction false} ListUnique(a: Arena, cursor: nat, p: seq<nat>, q: seq<nat>)
    requires IsList(a, cursor, p) && IsList(a, cursor, q)
    ensures p == q
    decreases |p|
  {
    if p != [] && q != [] {
      ListUnique(a, a.slots[cursor].next, p[1..], q[1..]);
      assert p == [p[0]] + p[1..] && q == [q[0]] + q[1..];
    }
  }

  /** A list that runs to a stop never meets a slot twice. */
  lemma ListDistinct(a: Arena, cursor: nat, p: seq<nat>, i: nat, j: nat)
    requires IsList(a, cursor, p) && i < j < |p|
    ensures p[i] != p[j]
  {
    ListInside(a, cursor, p);
    if p[i] == p[j] {
      ListUnique(a, p[i], p[i..], p[j..]);
      assert false;
    }
  }

  lemma {:induction false} VisitsList(a: Arena, cursor: nat, seen: set<nat>, p: seq<nat>)
    requires IsList(a, cursor, p)
    requires forall i | 0 <= i < |p| :: p[i] !in seen
    ensures Visits(a, cursor, seen) == p
    decreases |p|
  {
    if p != [] {
      forall i | 0 <= i < |p[1..]| ensures p[1..][i] !in seen + {cursor} {
        ListDistinct(a, cursor, p, 0, i + 1);
      }
      VisitsList(a, a.slots[cursor].next, seen + {cursor}, p[1..]);
      assert p == [p[0]] + p[1..];
    }
  }

  lemma {:induction false} ChainList(a: Arena, cursor: nat, n: nat, p: seq<nat>)
    requires IsList(a, cursor, p)
    ensures Chain(a, cursor, n) == if |p| <= n then p else p[..n]
    decreases |p|
  {
    if p != [] && n > 0 {
      ChainList(a, a.slots[cursor].next, n - 1, p[1..]);
      assert p == [p[0]] + p[1..];
      if |p| > n { assert p[..n] == [p[0]] + p[1..][..n - 1]; }
    }
  }

  /** On an acyclic list `walk` yields exactly the live orders in link order, and the guarded reader
      yields the same exactly when nothing live lies past its last step. */
  lemma ReadersAgree(a: Arena, p: seq<nat>, limit: nat)
    requires IsList(a, a.head, p)
    ensures forall i | 0 <= i < |p| :: p[i] < |a.slots|
    ensures Actives(a, Visits(a, a.head, {})) == Actives(a, p)
    ensures Actives(a, Chain(a, a.head, limit)) == Actives(a, p) <==> forall i | limit <= i < |p| :: !a.slots[p[i]].active
  {
    ListInside(a, a.head, p);
    VisitsList(a, a.head, {}, p);
    ChainList(a, a.head, limit, p);
    if |p| > limit { LiveTail(a, p, limit); }
  }

  lemma LiveTail(a: Arena, p: seq<nat>, n: nat)
    requires n <= |p| && forall i | 0 <= i < |p| :: p[i] < |a.slots|
    ensures Actives(a, p[..n]) == Actives(a, p) <==> forall i | n <= i < |p| :: !a.slots[p[i]].active
  {
    var front, back := p[..n], p[n..];
    assert p == front + back;
    ActivesAppend(a, front, back);
    NoneLive(a, back);
    assert forall i | n <= i < |p| :: p[i] == back[i - n];
    assert forall i | 0 <= i < |back| :: back[i] == p[i + n];
  }

  lemma {:induction false} NoneLive(a: Arena, p: seq<nat>)
    requires forall i | 0 <= i < |p| :: p[i] < |a.slots|
    ensures Actives(a, p) == [] <==> forall i | 0 <= i < |p| :: !a.slots[p[i]].active
  {
    if p != [] { NoneLive(a, p[..|p| - 1]); }
  }

  /** On any arena at all, cycles and wild links included, `walk` follows the links from the head,
      visits no slot twice, and only gives up where the links stop or close on themselves. */
  lemma {:induction false} WalkFollowsLinks(a: Arena, cursor: nat, seen: set<nat>)
    ensures var p := Visits(a, cursor, seen);
      && |p| <= |a.slots|
      && (p != [] ==> p[0] == cursor)
      && (forall i | 0 <= i < |p| - 1 :: p[i + 1] == a.slots[p[i]].next)
      && (var end := if p == [] then cursor else a.slots[p[|p| - 1]].next;
          Stops(a, end) || end in seen || end in p)
    decreases Indices(|a.slots|) - seen
  {
    var p := Visits(a, cursor, seen);
    Distinct(p, |a.slots|);
    if !Stops(a, cursor) && cursor !in seen {
      assert cursor in Indices(|a.slots|) - seen;
      WalkFollowsLinks(a, a.slots[cursor].next, seen + {cursor});
      var rest := Visits(a, a.slots[cursor].next, seen + {cursor});
      assert p == [cursor] + rest;
      forall i | 0 <= i < |p| - 1 ensures p[i + 1] == a.slots[p[i]].next {
        assert p[i + 1] == rest[i];
        if i > 0 { assert p[i] == rest[i - 1]; }
      }
      assert p[|p| - 1] == if rest == [] then cursor else rest[|rest| - 1];
    }
  }

  lemma {:induction false} Distinct(p: seq<nat>, n: nat)
    requires forall i | 0 <= i < |p| :: p[i] < n
    requires forall i, j | 0 <= i < j < |p| :: p[i] != p[j]
    ensures |p| <= n
  {
    if p == [] {
    } else if k :| 0 <= k < |p| && p[k] == n - 1 {
      Distinct(p[..k] + p[k + 1..], n - 1);
    } else {
      assert p[0] < n;
      Distinct(p, n - 1);
    }
  }
}
