/** The ring of prints: what the engine writes round and round, and the terminal's reader of it. */
module Tape {
  import opened Prelude

  datatype Print = Print(price: nat, lots: nat, timestamp: int)

  /** A slot of the ring; a sequence number of zero means it was never written. */
  datatype Entry = Entry(fillSeq: nat, fill: Print)

  const BLANK := Entry(0, Print(0, 0, 0))

  /** The ring after a whole history: slot by slot, the last print that landed there. */
  function Ring(history: seq<Print>, cap: nat): (ring: seq<Entry>)
    requires cap > 0
    ensures |ring| == cap
  {
    if history == [] then seq(cap, _ => BLANK)
    else
      var n := |history| - 1;
      Ring(history[..n], cap)[n % cap := Entry(n + 1, history[n])]
  }

  class FillTape {
    const entries: array<Entry>
    var count: nat
    ghost var history: seq<Print>

    ghost predicate Valid()
      reads this, entries
    {
      entries.Length > 0 && count == |history| && entries[..] == Ring(history, entries.Length)
    }

    constructor (cap: nat)
      requires cap > 0
      ensures Valid() && history == [] && entries.Length == cap && fresh(entries)
    {
      entries := new Entry[cap](_ => BLANK);
      count, history := 0, [];
    }

    /** `print`: the next number, at the count modulo the capacity. */
    method Record(p: Print) returns (fillSeq: nat)
      requires Valid()
      modifies this, entries
      ensures Valid() && history == old(history) + [p] && fillSeq == |history|
    {
      fillSeq := count + 1;
      entries[count % entries.Length] := Entry(fillSeq, p);
      history := history + [p];
      assert history[..count] == old(history);
      count := fillSeq;
    }

    /** `readTape`: newest first, at most as many as there are slots, skipping blanks. */
    method ReadTape() returns (out: seq<Entry>)
      requires Valid()
      ensures out == Newest(history, MinInt(count, entries.Length))
      ensures forall i, j | 0 <= i < j < |out| :: out[i].fillSeq > out[j].fillSeq
    {
      var cap := entries.Length;
      var n := MinInt(count, cap);
      out := [];
      var i := 0;
      while i < n
        invariant 0 <= i <= n && out == Newest(history, i)
      {
        var slot := (count - 1 - i + cap * 2) % cap;
        SlotOf(count - 1 - i, cap);
        RingHolds(history, cap, count - 1 - i);
        var e := entries[slot];
        assert e == entries[..][slot];
        if e.fillSeq != 0 { out := out + [e]; }
        i := i + 1;
      }
    }
  }

  /** The last `n` prints of a history, newest first. */
  function Newest(history: seq<Print>, n: nat): (out: seq<Entry>)
    requires n <= |history|
    ensures |out| == n
    ensures forall i | 0 <= i < n :: out[i] == Entry(|history| - i, history[|history| - 1 - i])
  {
    if n == 0 then [] else Newest(history, n - 1) + [Entry(|history| - n + 1, history[|history| - n])]
  }

  lemma SlotOf(k: nat, cap: nat)
    requires cap > 0
    ensures (k + cap * 2) % cap == k % cap
  {
    Wraps(k, cap);
    Wraps(k + cap, cap);
  }

  lemma Wraps(k: nat, cap: nat)
    requires cap > 0
    ensures (k + cap) % cap == k % cap
  {
    var q, r := k / cap, k % cap;
    assert k + cap == cap * (q + 1) + r;
    Unique(k + cap, cap, q + 1, r);
  }

  lemma Unique(k: nat, cap: nat, q: nat, r: nat)
    requires cap > 0 && k == cap * q + r && r < cap
    ensures k % cap == r
  {
    assert cap * (k / cap) + k % cap == k;
    NoMultiple(cap, k / cap - q, r - k % cap);
  }

  lemma Grows(cap: nat, d: int)
    requires d >= 1
    ensures cap * d >= cap && cap * -d <= -(cap as int)
  {
    assert cap * (d - 1) >= 0;
  }

  lemma NoMultiple(cap: nat, d: int, x: int)
    requires cap * d == x && -(cap as int) < x < cap
    ensures d == 0
  {
    if d >= 1 { Grows(cap, d); }
    if d <= -1 { Grows(cap, -d); }
  }

  /** Two prints less than a whole ring apart land in different slots. */
  lemma SlotsApart(j: nat, k: nat, cap: nat)
    requires cap > 0 && j < k < j + cap
    ensures j % cap != k % cap
  {
    var d := k / cap - j / cap;
    assert k - j == cap * d + (k % cap - j % cap);
    if k % cap == j % cap { NoMultiple(cap, d, k - j); }
  }

  /** The last `cap` prints are all still in the ring, each in its slot. */
  lemma {:induction false} RingHolds(history: seq<Print>, cap: nat, k: nat)
    requires cap > 0 && k < |history| <= k + cap
    ensures k % cap < cap && Ring(history, cap)[k % cap] == Entry(k + 1, history[k])
  {
    var n := |history| - 1;
    if k < n {
      SlotsApart(k, n, cap);
      RingHolds(history[..n], cap, k);
    }
  }

  /** And nothing else is: a slot is blank or holds the print that belongs there and is not lapped. */
  lemma {:induction false} RingForgets(history: seq<Print>, cap: nat, slot: nat)
    requires slot < cap
    ensures var e := Ring(history, cap)[slot];
      e.fillSeq == 0 || (|history| < e.fillSeq + cap && e.fillSeq <= |history| && (e.fillSeq - 1) % cap == slot
                         && e.fill == history[e.fillSeq - 1])
  {
    if history != [] {
      var n := |history| - 1;
      RingForgets(history[..n], cap, slot);
      var e := Ring(history[..n], cap)[slot];
      if e.fillSeq != 0 && n + 1 == e.fillSeq + cap { Wraps(e.fillSeq - 1, cap); }
    }
  }
}
