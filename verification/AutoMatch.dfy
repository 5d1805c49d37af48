/** The auto-matcher: which resting order is served, after how long, and what is done to the book. */
module AutoMatch {
  import opened Prelude
  import opened Orders
  import opened MatchingBook
  import opened ExactCross
  import opened LateLanding

  /** An order's identity. Price and size belong to it, so an amendment starts the delay again. */
  datatype Key = Key(market: nat, side: Side, owner: nat, coid: nat, price: nat, lots: nat)

  datatype Candidate = Candidate(key: Key, seqNo: nat, hidden: bool)

  function CandidateOf(market: nat, s: Side, o: Order): Candidate {
    Candidate(Key(market, s, o.trader, o.coid, o.price, o.lots), o.seqNo, o.hidden)
  }

  predicate SameOrder(o: Order, k: Key) {
    o.trader == k.owner && o.coid == k.coid && o.price == k.price && o.lots == k.lots
  }

  const MATCH_DELAY_MS := 10_000
  const RETRY_MS := 2_000

  // ── what a scan reads ─────────────────────────────────────────────────────

  function UserOrders(venue: set<nat>, market: nat, s: Side, q: seq<Order>): seq<Candidate> {
    if q == [] then []
    else
      var last := q[|q| - 1];
      UserOrders(venue, market, s, q[..|q| - 1]) + (if last.trader in venue then [] else [CandidateOf(market, s, last)])
  }

  function KeysOf(cs: seq<Candidate>): set<Key> { set c | c in cs :: c.key }

  /** A book that could not be read, or that still has fills to settle, is passed over. */
  predicate Readable(v: Option<Book>) { v.Some? && v.value.pending == 0 }

  function SideOrders(venue: set<nat>, base: nat, views: seq<Option<Book>>, i: nat, s: Side): seq<Candidate>
    requires i < |views|
  {
    if Readable(views[i]) then UserOrders(venue, base + i, s, QueueOf(views[i].value, s)) else []
  }

  /** Every user identity on the first `n` books. */
  function SeenIn(venue: set<nat>, base: nat, views: seq<Option<Book>>, n: nat): set<Key>
    requires n <= |views|
  {
    if n == 0 then {}
    else SeenIn(venue, base, views, n - 1)
         + KeysOf(SideOrders(venue, base, views, n - 1, Bid)) + KeysOf(SideOrders(venue, base, views, n - 1, Ask))
  }

  /** The first user order of a side, if any: the only one reachable without crossing another user. */
  function Head(cs: seq<Candidate>): seq<Candidate> { if cs == [] then [] else [cs[0]] }

  function HeadsIn(venue: set<nat>, base: nat, views: seq<Option<Book>>, n: nat): seq<Candidate>
    requires n <= |views|
  {
    if n == 0 then []
    else HeadsIn(venue, base, views, n - 1)
         + Head(SideOrders(venue, base, views, n - 1, Bid)) + Head(SideOrders(venue, base, views, n - 1, Ask))
  }

  // ── what a pick means ─────────────────────────────────────────────────────

  ghost function OrdersOf(b: Book, s: Side): seq<Order> { if s == Bid then b.bids else b.asks }

  /** The order at `k` on a readable book is a user's, and everything before it on its side is the venue's. */
  ghost predicate FirstUser(venue: set<nat>, views: seq<Option<Book>>, i: nat, s: Side, k: nat) {
    && i < |views| && views[i].Some? && views[i].value.pending == 0
    && var q := OrdersOf(views[i].value, s);
       k < |q| && q[k].trader !in venue && forall j | 0 <= j < k :: q[j].trader in venue
  }

  ghost predicate IsUser(venue: set<nat>, views: seq<Option<Book>>, i: nat, s: Side, k: nat) {
    && i < |views| && views[i].Some? && views[i].value.pending == 0
    && k < |OrdersOf(views[i].value, s)| && OrdersOf(views[i].value, s)[k].trader !in venue
  }

  ghost function At(base: nat, views: seq<Option<Book>>, i: nat, s: Side, k: nat): Candidate
    requires i < |views| && views[i].Some? && k < |OrdersOf(views[i].value, s)|
  {
    var o := OrdersOf(views[i].value, s)[k];
    Candidate(Key(base + i, s, o.trader, o.coid, o.price, o.lots), o.seqNo, o.hidden)
  }

  /** Ten seconds seen, and no back-off running. */
  ghost predicate Due(a: Ages, now: int, k: Key) {
    && k in a.firstSeen && now - a.firstSeen[k] >= 10_000
    && (if k in a.retryAfter then a.retryAfter[k] else 0) <= now
  }

  /** Of the first user orders of all sides, the pick is the one due with the least arrival number. */
  ghost predicate Picks(venue: set<nat>, base: nat, views: seq<Option<Book>>, a: Ages, now: int, chosen: Option<Candidate>) {
    && (chosen.Some? ==> exists i: nat, s: Side, k: nat ::
          FirstUser(venue, views, i, s, k) && chosen.value == At(base, views, i, s, k) && Due(a, now, chosen.value.key))
    && forall i: nat, s: Side, k: nat | FirstUser(venue, views, i, s, k) && Due(a, now, At(base, views, i, s, k).key) ::
         chosen.Some? && chosen.value.seqNo <= At(base, views, i, s, k).seqNo
  }

  lemma {:induction false} UsersOf(venue: set<nat>, market: nat, s: Side, q: seq<Order>)
    ensures var u := UserOrders(venue, market, s, q);
      && (u == [] <==> forall j | 0 <= j < |q| :: q[j].trader in venue)
      && (u != [] ==> exists k: nat :: k < |q| && q[k].trader !in venue && u[0] == CandidateOf(market, s, q[k])
                                       && forall j | 0 <= j < k :: q[j].trader in venue)
  {
    if q != [] {
      var n := |q| - 1;
      UsersOf(venue, market, s, q[..n]);
      var u := UserOrders(venue, market, s, q[..n]);
      if u != [] {
        var k: nat :| k < n && q[..n][k].trader !in venue && u[0] == CandidateOf(market, s, q[..n][k])
                      && forall j | 0 <= j < k :: q[..n][j].trader in venue;
        assert q[k] == q[..n][k] && forall j | 0 <= j < k :: q[j] == q[..n][j];
        assert UserOrders(venue, market, s, q)[0] == u[0];
      } else {
        assert forall j | 0 <= j < n :: q[j] == q[..n][j];
      }
    }
  }

  lemma OneFirst(venue: set<nat>, views: seq<Option<Book>>, i: nat, s: Side, k: nat, k': nat)
    requires FirstUser(venue, views, i, s, k) && FirstUser(venue, views, i, s, k')
    ensures k == k'
  {}

  /** A side's head, in its queue. */
  lemma HeadIs(venue: set<nat>, base: nat, views: seq<Option<Book>>, i: nat, s: Side)
    requires i < |views|
    ensures var h := Head(SideOrders(venue, base, views, i, s));
      && (forall c | c in h :: exists k: nat :: FirstUser(venue, views, i, s, k) && c == At(base, views, i, s, k))
      && (forall k: nat | FirstUser(venue, views, i, s, k) :: At(base, views, i, s, k) in h)
  {
    if Readable(views[i]) {
      var q := QueueOf(views[i].value, s);
      assert q == OrdersOf(views[i].value, s);
      UsersOf(venue, base + i, s, q);
      var u := UserOrders(venue, base + i, s, q);
      if u != [] {
        var k: nat :| k < |q| && q[k].trader !in venue && u[0] == CandidateOf(base + i, s, q[k])
                      && forall j | 0 <= j < k :: q[j].trader in venue;
        assert FirstUser(venue, views, i, s, k) && u[0] == At(base, views, i, s, k);
        forall k': nat | FirstUser(venue, views, i, s, k') ensures At(base, views, i, s, k') in Head(u) {
          OneFirst(venue, views, i, s, k, k');
        }
      }
    }
  }

  lemma {:induction false} HeadsAre(venue: set<nat>, base: nat, views: seq<Option<Book>>, n: nat)
    requires n <= |views|
    ensures forall c | c in HeadsIn(venue, base, views, n) ::
      exists i: nat, s: Side, k: nat :: i < n && FirstUser(venue, views, i, s, k) && c == At(base, views, i, s, k)
    ensures forall i: nat, s: Side, k: nat | i < n && FirstUser(venue, views, i, s, k) ::
      At(base, views, i, s, k) in HeadsIn(venue, base, views, n)
  {
    if n > 0 {
      HeadsAre(venue, base, views, n - 1);
      HeadIs(venue, base, views, n - 1, Bid);
      HeadIs(venue, base, views, n - 1, Ask);
      hide FirstUser, At, Head, SideOrders;
      forall i: nat, s: Side, k: nat | i < n && FirstUser(venue, views, i, s, k)
        ensures At(base, views, i, s, k) in HeadsIn(venue, base, views, n)
      {
        if i == n - 1 && s == Bid {
          assert At(base, views, i, s, k) in Head(SideOrders(venue, base, views, n - 1, Bid));
        } else if i == n - 1 {
          assert At(base, views, i, s, k) in Head(SideOrders(venue, base, views, n - 1, Ask));
        }
      }
    }
  }

  /** The choice among the heads is the pick. */
  lemma ChoicePicks(venue: set<nat>, base: nat, views: seq<Option<Book>>, a: Ages, now: int, chosen: Option<Candidate>)
    requires IsChoice(a, now, HeadsIn(venue, base, views, |views|), chosen)
    ensures Picks(venue, base, views, a, now, chosen)
  {
    HeadsAre(venue, base, views, |views|);
    hide FirstUser, At, HeadsIn;
  }

  lemma {:induction false} AllUsers(venue: set<nat>, market: nat, s: Side, q: seq<Order>)
    ensures forall c: Candidate :: c in UserOrders(venue, market, s, q) <==>
      exists k: nat :: k < |q| && q[k].trader !in venue && c == CandidateOf(market, s, q[k])
  {
    if q != [] {
      var n := |q| - 1;
      AllUsers(venue, market, s, q[..n]);
      forall c: Candidate
        ensures c in UserOrders(venue, market, s, q) <==>
          exists k: nat :: k < |q| && q[k].trader !in venue && c == CandidateOf(market, s, q[k])
      {
        if k: nat :| k < n && q[..n][k].trader !in venue && c == CandidateOf(market, s, q[..n][k]) {
          assert q[k] == q[..n][k];
        }
        if k: nat :| k < |q| && q[k].trader !in venue && c == CandidateOf(market, s, q[k]) {
          if k < n { assert q[..n][k] == q[k]; }
        }
      }
    }
  }

  /** What a scan has seen is every user order on a readable book. */
  lemma {:induction false} SeenAre(venue: set<nat>, base: nat, views: seq<Option<Book>>, n: nat)
    requires n <= |views|
    ensures forall key: Key | key in SeenIn(venue, base, views, n) ::
      exists i: nat, s: Side, k: nat :: i < n && IsUser(venue, views, i, s, k) && At(base, views, i, s, k).key == key
    ensures forall i: nat, s: Side, k: nat | i < n && IsUser(venue, views, i, s, k) ::
      At(base, views, i, s, k).key in SeenIn(venue, base, views, n)
  {
    if n > 0 {
      SeenAre(venue, base, views, n - 1);
      SideSeen(venue, base, views, n - 1, Bid);
      SideSeen(venue, base, views, n - 1, Ask);
      hide IsUser, At, KeysOf, SideOrders;
      forall i: nat, s: Side, k: nat | i < n && IsUser(venue, views, i, s, k)
        ensures At(base, views, i, s, k).key in SeenIn(venue, base, views, n)
      {
        if i == n - 1 && s == Bid {
          assert At(base, views, i, s, k).key in KeysOf(SideOrders(venue, base, views, n - 1, Bid));
        } else if i == n - 1 {
          assert At(base, views, i, s, k).key in KeysOf(SideOrders(venue, base, views, n - 1, Ask));
        }
      }
    }
  }

  lemma SeenIff(venue: set<nat>, base: nat, views: seq<Option<Book>>)
    ensures forall key :: key in SeenIn(venue, base, views, |views|) <==> exists i: nat, s: Side, k: nat ::
      IsUser(venue, views, i, s, k) && At(base, views, i, s, k).key == key
  {
    SeenAre(venue, base, views, |views|);
  }

  lemma SideSeen(venue: set<nat>, base: nat, views: seq<Option<Book>>, i: nat, s: Side)
    requires i < |views|
    ensures forall key: Key | key in KeysOf(SideOrders(venue, base, views, i, s)) ::
      exists k: nat :: IsUser(venue, views, i, s, k) && At(base, views, i, s, k).key == key
    ensures forall k: nat | IsUser(venue, views, i, s, k) ::
      At(base, views, i, s, k).key in KeysOf(SideOrders(venue, base, views, i, s))
  {
    if Readable(views[i]) {
      var q := QueueOf(views[i].value, s);
      assert q == OrdersOf(views[i].value, s);
      AllUsers(venue, base + i, s, q);
      var u := UserOrders(venue, base + i, s, q);
      forall key: Key | key in KeysOf(u) ensures exists k: nat :: IsUser(venue, views, i, s, k) && At(base, views, i, s, k).key == key {
        var c :| c in u && c.key == key;
        var k: nat :| k < |q| && q[k].trader !in venue && c == CandidateOf(base + i, s, q[k]);
        assert IsUser(venue, views, i, s, k);
      }
      forall k: nat | IsUser(venue, views, i, s, k) ensures At(base, views, i, s, k).key in KeysOf(u) {
        assert CandidateOf(base + i, s, q[k]) in u;
      }
    }
  }

  // ── the timers ────────────────────────────────────────────────────────────

  datatype Ages = Ages(firstSeen: map<Key, int>, retryAfter: map<Key, int>)

  function Noted(f: map<Key, int>, now: int, seen: set<Key>): map<Key, int> {
    map k | k in f.Keys + seen :: if k in f then f[k] else now
  }

  lemma NotedNone(f: map<Key, int>, now: int)
    ensures Noted(f, now, {}) == f
  {}

  lemma NotedTwice(f: map<Key, int>, now: int, a: set<Key>, b: set<Key>)
    ensures Noted(Noted(f, now, a), now, b) == Noted(f, now, a + b)
  {}

  lemma KeysSnoc(cs: seq<Candidate>, c: Candidate)
    ensures KeysOf(cs + [c]) == KeysOf(cs) + {c.key}
  {
    forall k | k in KeysOf(cs) + {c.key} ensures k in KeysOf(cs + [c]) {
      if k == c.key { assert c in cs + [c]; } else {
        var d :| d in cs && d.key == k;
        assert d in cs + [c];
      }
    }
  }

  /** Noting every identity met and then forgetting the ones that were not is one observation. */
  lemma Forgotten(a: Ages, now: int, seen: set<Key>)
    requires a.retryAfter.Keys <= a.firstSeen.Keys
    ensures var noted := Noted(a.firstSeen, now, seen);
      Observed(a, now, seen) == Ages(noted - (noted.Keys - seen), a.retryAfter - (noted.Keys - seen))
  {}

  /** A completed scan: new identities start their timer, vanished ones lose it. */
  function Observed(a: Ages, now: int, seen: set<Key>): Ages {
    Ages(map k | k in seen :: if k in a.firstSeen then a.firstSeen[k] else now,
         map k | k in a.retryAfter && k in seen :: a.retryAfter[k])
  }

  function Served(a: Ages, k: Key): Ages { Ages(a.firstSeen - {k}, a.retryAfter - {k}) }

  function PutOff(a: Ages, k: Key, until: int): Ages { a.(retryAfter := a.retryAfter[k := until]) }

  /** Old enough, and not backing off. */
  predicate Mature(a: Ages, now: int, k: Key) {
    && k in a.firstSeen && now - a.firstSeen[k] >= MATCH_DELAY_MS
    && now >= (if k in a.retryAfter then a.retryAfter[k] else 0)
  }

  predicate IsChoice(a: Ages, now: int, heads: seq<Candidate>, c: Option<Candidate>) {
    match c
    case None => forall h | h in heads :: !Mature(a, now, h.key)
    case Some(t) =>
      t in heads && Mature(a, now, t.key) && forall h | h in heads && Mature(a, now, h.key) :: t.seqNo <= h.seqNo
  }

  ghost predicate FirstOfTies(a: Ages, now: int, heads: seq<Candidate>, c: Candidate) {
    exists k :: 0 <= k < |heads| && heads[k] == c && EarlierAreNewer(a, now, heads, k)
  }

  ghost predicate EarlierAreNewer(a: Ages, now: int, heads: seq<Candidate>, k: nat)
    requires k < |heads|
  {
    forall j | 0 <= j < k && Mature(a, now, heads[j].key) :: heads[j].seqNo > heads[k].seqNo
  }

  lemma TiesGrow(a: Ages, now: int, heads: seq<Candidate>, i: nat, chosen: Option<Candidate>)
    requires i < |heads| && IsChoice(a, now, heads[..i], chosen)
    requires chosen.Some? ==> FirstOfTies(a, now, heads[..i], chosen.value)
    ensures chosen.Some? ==> FirstOfTies(a, now, heads[..i + 1], chosen.value)
    ensures chosen.None? || heads[i].seqNo < chosen.value.seqNo ==> FirstOfTies(a, now, heads[..i + 1], heads[i])
  {
    var more := heads[..i + 1];
    if chosen.Some? {
      var k :| 0 <= k < i && heads[..i][k] == chosen.value && EarlierAreNewer(a, now, heads[..i], k);
      forall j | 0 <= j < k && Mature(a, now, more[j].key) ensures more[j].seqNo > more[k].seqNo {
        assert heads[..i][j] == more[j];
      }
      assert more[k] == chosen.value && EarlierAreNewer(a, now, more, k);
    }
    if chosen.None? || heads[i].seqNo < chosen.value.seqNo {
      forall j | 0 <= j < i && Mature(a, now, more[j].key) ensures more[j].seqNo > more[i].seqNo {
        assert heads[..i][j] == more[j];
      }
      assert more[i] == heads[i] && EarlierAreNewer(a, now, more, i);
    }
  }

  datatype Scan = Scan(now: int, seen: set<Key>)

  ghost predicate SeenSince(scans: seq<Scan>, i: int, k: Key) {
    0 <= i < |scans| && forall j | i <= j < |scans| :: k in scans[j].seen
  }

  /** Timers are kept only for identities seen without a gap since the scan that started them. */
  ghost predicate Aged(scans: seq<Scan>, a: Ages) {
    && (forall k | k in a.firstSeen :: exists i :: SeenSince(scans, i, k) && scans[i].now == a.firstSeen[k])
    && a.retryAfter.Keys <= a.firstSeen.Keys
  }

  lemma ScanKeepsAges(scans: seq<Scan>, a: Ages, now: int, seen: set<Key>)
    requires Aged(scans, a)
    ensures Aged(scans + [Scan(now, seen)], Observed(a, now, seen))
    ensures Observed(a, now, seen).firstSeen.Keys == seen
  {
    var scans', a' := scans + [Scan(now, seen)], Observed(a, now, seen);
    forall k | k in a'.firstSeen
      ensures exists i :: SeenSince(scans', i, k) && scans'[i].now == a'.firstSeen[k]
    {
      if k in a.firstSeen {
        var i :| SeenSince(scans, i, k) && scans[i].now == a.firstSeen[k];
        assert SeenSince(scans', i, k) && scans'[i].now == a'.firstSeen[k];
      } else {
        assert SeenSince(scans', |scans|, k) && scans'[|scans|].now == now;
      }
    }
  }

  /** Whoever is served has been watched, unchanged, over the whole delay. */
  lemma MatureWasWatched(scans: seq<Scan>, a: Ages, now: int, k: Key)
    requires Aged(scans, a) && Mature(a, now, k)
    ensures exists i :: SeenSince(scans, i, k) && now - scans[i].now >= MATCH_DELAY_MS
  {
    var i :| SeenSince(scans, i, k) && scans[i].now == a.firstSeen[k];
  }

  lemma ChosenWasWatched(scans: seq<Scan>, a: Ages, now: int, heads: seq<Candidate>, c: Candidate)
    requires Aged(scans, a) && IsChoice(a, now, heads, Some(c))
    ensures c.key in a.firstSeen
    ensures exists i :: SeenSince(scans, i, c.key) && now - scans[i].now >= 10_000
  {
    MatureWasWatched(scans, a, now, c.key);
  }

  datatype Event =
    | Scanned(now: int, seen: set<Key>)
    | Matched(key: Key)
    | Deferred(key: Key, until: int)

  function After(a: Ages, e: Event): Ages {
    match e
    case Scanned(now, seen) => Observed(a, now, seen)
    case Matched(k) => Served(a, k)
    case Deferred(k, until) => PutOff(a, k, until)
  }

  /** Only an identity that still has its timer is ever matched or deferred. */
  ghost predicate IsRun(states: seq<Ages>, es: seq<Event>) {
    && |states| == |es| + 1 && states[0] == Ages(map[], map[])
    && forall i | 0 <= i < |es| ::
         && states[i + 1] == After(states[i], es[i])
         && (es[i].Scanned? || es[i].key in states[i].firstSeen)
  }

  function ScansOf(es: seq<Event>): seq<Scan> {
    if es == [] then []
    else
      var e := es[|es| - 1];
      ScansOf(es[..|es| - 1]) + (if e.Scanned? then [Scan(e.now, e.seen)] else [])
  }

  lemma FewerTimers(scans: seq<Scan>, a: Ages, a': Ages)
    requires Aged(scans, a) && a'.retryAfter.Keys <= a'.firstSeen.Keys
    requires forall k | k in a'.firstSeen :: k in a.firstSeen && a'.firstSeen[k] == a.firstSeen[k]
    ensures Aged(scans, a')
  {
    forall k | k in a'.firstSeen
      ensures exists i :: SeenSince(scans, i, k) && scans[i].now == a'.firstSeen[k]
    {
      var i :| SeenSince(scans, i, k) && scans[i].now == a.firstSeen[k];
    }
  }

  /** Over every run: each timer's identity was seen in every scan since the one that set it, and the
      timers nest: back-offs within first sightings, first sightings within the last scan. */
  lemma {:induction false} AgeingOverRuns(states: seq<Ages>, es: seq<Event>)
    requires IsRun(states, es)
    ensures AgedAndNested(ScansOf(es), states[|es|])
  {
    if es != [] {
      var n := |es| - 1;
      assert IsRun(states[..|es|], es[..n]);
      AgeingOverRuns(states[..|es|], es[..n]);
      assert states[|es|] == After(states[n], es[n]) && (es[n].Scanned? || es[n].key in states[n].firstSeen);
      hide IsRun, Aged, After;
      EventKeeps(ScansOf(es[..n]), states[n], es[n]);
    }
  }

  ghost predicate AgedAndNested(scans: seq<Scan>, a: Ages) {
    Aged(scans, a) && (if scans == [] then a.firstSeen == map[] else a.firstSeen.Keys <= scans[|scans| - 1].seen)
  }

  lemma EventKeeps(scans: seq<Scan>, a: Ages, e: Event)
    requires AgedAndNested(scans, a) && (e.Scanned? || e.key in a.firstSeen)
    ensures AgedAndNested(scans + (if e.Scanned? then [Scan(e.now, e.seen)] else []), After(a, e))
  {
    assert scans + [] == scans;
    match e {
      case Scanned(now, seen) => ScanKeepsAges(scans, a, now, seen);
      case Matched(k) => FewerTimers(scans, a, Served(a, k));
      case Deferred(k, until) => FewerTimers(scans, a, PutOff(a, k, until));
    }
  }

  // ── the process ───────────────────────────────────────────────────────────

  function Find(q: seq<Order>, k: Key): nat {
    if q == [] || SameOrder(q[0], k) then 0 else 1 + Find(q[1..], k)
  }

  ghost predicate FoundAt(q: seq<Order>, k: Key, i: nat) {
    && i <= |q| && (forall j | 0 <= j < i :: !SameOrder(q[j], k)) && (i < |q| ==> SameOrder(q[i], k))
  }

  /** What becomes of a match's requests: the book cannot be read; building breaks off after some cancels; the
      transaction does not take effect; it reaches the book, at once or when `put` of the rungs are back on it,
      but is never seen to; it is confirmed. */
  datatype Fate = Unread | Unbuilt(cancels: nat) | NotLanded | LandedUnseen(put: nat) | Confirmed

  /** How many of the rungs ahead are put back: those whose cancel had been built. */
  function Cleared(fate: Fate, ahead: nat): (n: nat)
    ensures n <= ahead
  {
    if fate.Unread? then 0 else if fate.Unbuilt? then MinInt(fate.cancels, ahead) else ahead
  }

  /** How many of those are back before the transaction reaches the book. */
  function PutFirst(fate: Fate, ahead: nat): (n: nat)
    ensures n <= Cleared(fate, ahead)
  {
    if fate.LandedUnseen? then MinInt(fate.put, ahead) else 0
  }

  predicate TakesEffect(fate: Fate, e: Option<Effect>) { (fate.LandedUnseen? || fate.Confirmed?) && e.Some? }

  /** The order in which the rungs put back reach the book: any there is, since each of those placements may
      itself land late. What is no order of them stands for the one they were sent in. */
  function Arriving(removed: seq<Order>, arrival: seq<Order>): (sent: seq<Order>)
    ensures Shuffled(sent, removed) && |sent| == |removed|
  {
    SameTerms(removed, removed);
    if Shuffled(arrival, removed) then SameTerms(arrival, removed); arrival else removed
  }

  /** The transaction run on the book it finds. */
  function Reaches(book: Book, s: Side, i: nat, maker: nat, coid: nat, put: nat, sent: seq<Order>, verdicts: seq<bool>)
    : (Book, Option<Effect>)
    requires i < |QueueOf(book, s)| && put <= |sent| == |verdicts|
  {
    var q := QueueOf(book, s);
    var before := Restored(book, s, sent[..put], maker, verdicts[..put]);
    (before, Execute(before, maker, MatchTx(s, q[..i], q[i], coid)))
  }

  /** The book once everything sent for a target at `i` has run. */
  function Cleaned(book: Book, s: Side, i: nat, maker: nat, coid: nat, fate: Fate, sent: seq<Order>, verdicts: seq<bool>): Book
    requires i < |QueueOf(book, s)| && |verdicts| == |sent| == Cleared(fate, i)
  {
    var put := PutFirst(fate, i);
    var (before, e) := Reaches(book, s, i, maker, coid, put, sent, verdicts);
    Restored(if TakesEffect(fate, e) then e.value.book else before, s, sent[put..], maker, verdicts[put..])
  }

  function Verdicts(accepts: nat -> bool, n: nat): seq<bool> { seq(n, k requires 0 <= k => accepts(k)) }

  /** Every way a match can end: unread, nothing to do, blocked, or cleared, crossed and restored. */
  ghost predicate MatchDone(maker: nat, target: Key, now: int, book: Book, coid: nat, fate: Fate, accepts: nat -> bool,
                            arrival: seq<Order>, was: Ages, ok: bool, after: Book, fills: seq<Fill>, ages: Ages) {
    var q := QueueOf(book, target.side);
    var i := Find(q, target);
    FindFinds(q, target);
    if fate.Unread? then
      !ok && after == book && fills == [] && ages == PutOff(was, target, now + RETRY_MS)
    else if book.pending != 0 || i >= |q| then
      !ok && after == book && fills == [] && ages == was
    else if exists o :: o in q[..i] && o.trader != maker then
      !ok && after == book && fills == [] && ages == PutOff(was, target, now + RETRY_MS)
    else
      var n := Cleared(fate, i);
      var sent, verdicts := Arriving(q[..n], arrival), Verdicts(accepts, n);
      var e := Reaches(book, target.side, i, maker, coid, PutFirst(fate, i), sent, verdicts).1;
      && ok == (fate.Confirmed? && e.Some?)
      && fills == (if TakesEffect(fate, e) then e.value.fills else [])
      && after == Cleaned(book, target.side, i, maker, coid, fate, sent, verdicts)
      && ages == (if ok then Served(was, target) else PutOff(was, target, now + RETRY_MS))
  }

  lemma MatchKeepsAges(scans: seq<Scan>, maker: nat, target: Key, now: int, book: Book, coid: nat, fate: Fate,
                       accepts: nat -> bool, arrival: seq<Order>, was: Ages, ok: bool, after: Book, fills: seq<Fill>, ages: Ages)
    requires Aged(scans, was) && target in was.firstSeen
    requires MatchDone(maker, target, now, book, coid, fate, accepts, arrival, was, ok, after, fills, ages)
    ensures Aged(scans, ages) && ages.firstSeen.Keys <= was.firstSeen.Keys
  {
    assert ages == was || ages == Served(was, target) || ages == PutOff(was, target, now + RETRY_MS);
    hide MatchDone;
    FewerTimers(scans, was, ages);
  }

  /** The loop state while one scan is under way. */
  class AutoMatcher {
    const maker: nat
    const venue: set<nat>
    const base: nat
    var firstSeen: map<Key, int>
    var retryAfter: map<Key, int>
    var matched: nat

    constructor (maker: nat, venue: set<nat>, base: nat)
      ensures State() == Ages(map[], map[]) && matched == 0
      ensures this.maker == maker && this.venue == venue && this.base == base
    {
      this.maker, this.venue, this.base := maker, venue, base;
      firstSeen, retryAfter, matched := map[], map[], 0;
    }

    ghost function State(): Ages
      reads this
    {
      Ages(firstSeen, retryAfter)
    }

    /** One side of one book. */
    method ScanSide(market: nat, s: Side, q: seq<Order>, now: int, seen: set<Key>)
      returns (userOrders: seq<Candidate>, seen': set<Key>)
      modifies this`firstSeen
      ensures userOrders == UserOrders(venue, market, s, q)
      ensures seen' == seen + KeysOf(userOrders)
      ensures firstSeen == Noted(old(firstSeen), now, KeysOf(userOrders))
    {
      userOrders, seen' := [], seen;
      ghost var was := firstSeen;
      NotedNone(was, now);
      for i := 0 to |q|
        invariant userOrders == UserOrders(venue, market, s, q[..i])
        invariant seen' == seen + KeysOf(userOrders)
        invariant firstSeen == Noted(was, now, KeysOf(userOrders))
      {
        hide Noted, KeysOf;
        assert q[..i + 1][..i] == q[..i];
        if q[i].trader !in venue {
          var target := CandidateOf(market, s, q[i]);
          KeysSnoc(userOrders, target);
          NotedTwice(was, now, KeysOf(userOrders), {target.key});
          userOrders := userOrders + [target];
          seen' := seen' + {target.key};
          Note(target.key, now);
        } else {
          assert userOrders + [] == userOrders;
        }
      }
      assert q[..|q|] == q;
    }

    method Note(k: Key, now: int)
      modifies this`firstSeen
      ensures firstSeen == Noted(old(firstSeen), now, {k})
    {
      if k !in firstSeen { firstSeen := firstSeen[k := now]; }
    }

    /** One book, both sides. */
    method ScanBook(views: seq<Option<Book>>, i: nat, now: int, seen: set<Key>)
      returns (bids: seq<Candidate>, asks: seq<Candidate>, seen': set<Key>)
      requires i < |views|
      modifies this`firstSeen
      ensures bids == SideOrders(venue, base, views, i, Bid) && asks == SideOrders(venue, base, views, i, Ask)
      ensures seen' == seen + KeysOf(bids) + KeysOf(asks)
      ensures firstSeen == Noted(old(firstSeen), now, KeysOf(bids) + KeysOf(asks))
    {
      ghost var was := firstSeen;
      bids, asks, seen' := [], [], seen;
      if Readable(views[i]) {
        bids, seen' := ScanSide(base + i, Bid, views[i].value.bids, now, seen);
        asks, seen' := ScanSide(base + i, Ask, views[i].value.asks, now, seen');
        NotedTwice(was, now, KeysOf(bids), KeysOf(asks));
      } else {
        NotedNone(was, now);
      }
    }

    /** Cancellation or amendment removes the old identity and its timers. */
    method Forget(seen: set<Key>)
      modifies this`firstSeen, this`retryAfter
      ensures firstSeen == old(firstSeen) - (old(firstSeen).Keys - seen)
      ensures retryAfter == old(retryAfter) - (old(firstSeen).Keys - seen)
    {
      var todo := firstSeen.Keys - seen;
      while todo != {}
        invariant todo <= old(firstSeen).Keys - seen
        invariant firstSeen == old(firstSeen) - (old(firstSeen).Keys - seen - todo)
        invariant retryAfter == old(retryAfter) - (old(firstSeen).Keys - seen - todo)
      {
        var key :| key in todo;
        firstSeen, retryAfter := firstSeen - {key}, retryAfter - {key};
        todo := todo - {key};
      }
    }

    /** A whole pass over the books: every identity noted, vanished ones forgotten, and the oldest
        arrival among the mature heads picked. */
    method Observe(now: int, views: seq<Option<Book>>) returns (seen: set<Key>, chosen: Option<Candidate>)
      requires retryAfter.Keys <= firstSeen.Keys
      modifies this`firstSeen, this`retryAfter
      ensures seen == SeenIn(venue, base, views, |views|)
      ensures State() == Observed(old(State()), now, seen)
      ensures IsChoice(State(), now, HeadsIn(venue, base, views, |views|), chosen)
      ensures Picks(venue, base, views, State(), now, chosen)
      ensures forall key :: key in seen <==> exists i: nat, s: Side, k: nat ::
                IsUser(venue, views, i, s, k) && At(base, views, i, s, k).key == key
    {
      hide IsChoice, SideOrders, Picks, FirstUser, IsUser, At;
      seen := {};
      var heads: seq<Candidate> := [];
      ghost var was, backOffs := firstSeen, retryAfter;
      NotedNone(was, now);
      for i := 0 to |views|
        invariant retryAfter == backOffs
        invariant seen == SeenIn(venue, base, views, i)
        invariant heads == HeadsIn(venue, base, views, i)
        invariant firstSeen == Noted(was, now, seen)
      {
        hide Noted, KeysOf;
        ghost var atStart := seen;
        var bids, asks;
        bids, asks, seen := ScanBook(views, i, now, seen);
        NotedTwice(was, now, atStart, KeysOf(bids) + KeysOf(asks));
        assert atStart + (KeysOf(bids) + KeysOf(asks)) == seen;
        heads := heads + Head(bids) + Head(asks);
      }
      Forget(seen);
      Forgotten(Ages(was, backOffs), now, seen);
      chosen := Oldest(now, heads);
      ChoicePicks(venue, base, views, State(), now, chosen);
      SeenIff(venue, base, views);
    }

    /** `mature.sort` by arrival, then the first of them. */
    method Oldest(now: int, heads: seq<Candidate>) returns (chosen: Option<Candidate>)
      ensures IsChoice(State(), now, heads, chosen)
      // Among equals the first met: the sort is stable.
      ensures chosen.Some? ==> FirstOfTies(State(), now, heads, chosen.value)
    {
      chosen := None;
      for i := 0 to |heads|
        invariant IsChoice(State(), now, heads[..i], chosen)
        invariant chosen.Some? ==> FirstOfTies(State(), now, heads[..i], chosen.value)
      {
        var h := heads[i];
        var due := h.key in firstSeen && now - firstSeen[h.key] >= MATCH_DELAY_MS
                   && now >= if h.key in retryAfter then retryAfter[h.key] else 0;
        TiesGrow(State(), now, heads, i, chosen);
        if due && (chosen.None? || h.seqNo < chosen.value.seqNo) { chosen := Some(h); }
      }
      assert heads[..|heads|] == heads;
    }

    /** Clear, cross, restore. `accepts` is the engine's verdict on each rung that is put back, in the order in
        which they arrive. */
    method Match(target: Key, now: int, book: Book, coid: nat, fate: Fate, accepts: nat -> bool, arrival: seq<Order>)
      returns (ok: bool, after: Book, fills: seq<Fill>)
      modifies this
      ensures MatchDone(maker, target, now, book, coid, fate, accepts, arrival, old(State()), ok, after, fills, State())
      ensures matched == old(matched) + if ok then 1 else 0
    {
      hide Execute, Restored, MatchTx, Find;
      ok, after, fills := false, book, [];
      if fate.Unread? {
        retryAfter := retryAfter[target := now + RETRY_MS];
        return;
      }
      if book.pending != 0 { return; }
      var q := QueueOf(book, target.side);
      var i := IndexOf(q, target);
      if i == |q| { return; }
      var ahead := q[..i];
      var blocked := Blocked(ahead);
      if blocked {
        retryAfter := retryAfter[target := now + RETRY_MS];
        return;
      }
      var n, put := Cleared(fate, i), PutFirst(fate, i);
      assert ahead[..n] == q[..n];
      var sent, verdicts := Arriving(ahead[..n], arrival), Verdicts(accepts, n);
      after := PutBack(after, target.side, sent[..put], verdicts[..put]);
      var e := Execute(after, maker, MatchTx(target.side, ahead, q[i], coid));
      if TakesEffect(fate, e) { after, fills := e.value.book, e.value.fills; }
      if fate.Confirmed? && e.Some? {
        ok := true;
        matched := matched + 1;
        firstSeen, retryAfter := firstSeen - {target}, retryAfter - {target};
      } else {
        retryAfter := retryAfter[target := now + RETRY_MS];
      }
      after := PutBack(after, target.side, sent[put..], verdicts[put..]);
    }

    /** `findIndex` by identity. */
    method IndexOf(q: seq<Order>, k: Key) returns (i: nat)
      ensures i == Find(q, k) && FoundAt(q, k, i)
    {
      i := 0;
      while i < |q| && !SameOrder(q[i], k)
        invariant i <= |q| && Find(q, k) == i + Find(q[i..], k)
        invariant forall j | 0 <= j < i :: !SameOrder(q[j], k)
      {
        assert q[i..][1..] == q[i + 1..];
        i := i + 1;
      }
    }

    /** Somebody else's rung rests ahead: it cannot be cleared. */
    method Blocked(ahead: seq<Order>) returns (b: bool)
      ensures b <==> exists o :: o in ahead && o.trader != maker
    {
      b := false;
      for i := 0 to |ahead|
        invariant b <==> exists o :: o in ahead[..i] && o.trader != maker
      {
        assert ahead[..i + 1] == ahead[..i] + [ahead[i]];
        if ahead[i].trader != maker { b := true; }
      }
      assert ahead[..|ahead|] == ahead;
    }

    /** The restore loop. */
    method PutBack(book: Book, s: Side, removed: seq<Order>, accepts: seq<bool>) returns (after: Book)
      requires |accepts| == |removed|
      ensures after == Restored(book, s, removed, maker, accepts)
    {
      after := book;
      for i := 0 to |removed|
        invariant Restored(book, s, removed, maker, accepts) == Restored(after, s, removed[i..], maker, accepts[i..])
      {
        var o := removed[i];
        var e := Place(after, s, PostOnly, o.price, o.lots, maker, o.coid, o.hidden);
        assert removed[i..][1..] == removed[i + 1..] && accepts[i..][1..] == accepts[i + 1..];
        if accepts[i] && e.Some? { after := e.value.book; }
      }
    }

    /** One turn of the process. The book may have moved between the scan and the match. */
    method ScanAndMatch(now: int, views: seq<Option<Book>>, fetched: Book, coid: nat, fate: Fate, accepts: nat -> bool,
                        arrival: seq<Order>, ghost scans: seq<Scan>)
      returns (served: Option<Candidate>, after: Book, fills: seq<Fill>)
      requires Aged(scans, State())
      modifies this
      ensures var seen := SeenIn(venue, base, views, |views|);
        && Aged(scans + [Scan(now, seen)], State())
        && State().firstSeen.Keys <= seen
        && (if served.None? then after == fetched && fills == [] && State() == Observed(old(State()), now, seen)
            else exists ok: bool :: MatchDone(maker, served.value.key, now, fetched, coid, fate, accepts, arrival,
                                              Observed(old(State()), now, seen), ok, after, fills, State()))
        && IsChoice(Observed(old(State()), now, seen), now, HeadsIn(venue, base, views, |views|), served)
        && Picks(venue, base, views, Observed(old(State()), now, seen), now, served)
        && (served.Some? ==> exists i ::
              SeenSince(scans + [Scan(now, seen)], i, served.value.key)
              && now - (scans + [Scan(now, seen)])[i].now >= 10_000)
    {
      hide Picks, IsChoice, MatchDone;
      after, fills := fetched, [];
      ghost var was := State();
      var seen, chosen := Observe(now, views);
      ScanKeepsAges(scans, was, now, seen);
      served := chosen;
      if chosen.Some? {
        ChosenWasWatched(scans + [Scan(now, seen)], State(), now, HeadsIn(venue, base, views, |views|), chosen.value);
        var ok;
        ghost var seenNow := State();
        ok, after, fills := Match(chosen.value.key, now, fetched, coid, fate, accepts, arrival);
        MatchKeepsAges(scans + [Scan(now, seen)], maker, chosen.value.key, now, fetched, coid, fate, accepts, arrival,
                       seenNow, ok, after, fills, State());
      }
    }
  }

  /** An order found by its identity and not the maker's own is filled whole, at its own price, and
      nobody else is; the restored ladder stands as it stood. */
  lemma ServedExactly(book: Book, k: Key, maker: nat, coid: nat, accepts: seq<bool>)
    requires Valid(book) && book.pending == 0 && k.owner != maker
    requires var q := QueueOf(book, k.side);
      Find(q, k) < |q| && |accepts| == Find(q, k) && forall o | o in q[..Find(q, k)] :: o.trader == maker
    requires forall i | 0 <= i < |accepts| :: accepts[i]
    ensures var q := QueueOf(book, k.side);
      var i := Find(q, k);
      var e := Execute(book, maker, MatchTx(k.side, q[..i], q[i], coid));
      && e.Some? && e.value.fills == [Fill(k.owner, k.coid, k.price, k.lots, true)]
      && var after := Restored(e.value.book, k.side, q[..i], maker, accepts);
         && Valid(after)
         && QueueOf(after, k.side.Opposite()) == QueueOf(book, k.side.Opposite())
         && AllTerms(q) == AllTerms(QueueOf(after, k.side)) + multiset{TermsOf(q[i])}
  {
    var q := QueueOf(book, k.side);
    FindFinds(q, k);
    hide Find, Restored, AllTerms, Execute, Valid;
    CrossesExactly(book, k.side, Find(q, k), maker, coid);
    MatchRestoresTheLadder(book, k.side, Find(q, k), maker, coid, accepts);
  }

  /** The venue's ladder after any match that got as far as clearing, whatever its fate, whatever the engine says
      of each rung and in whatever order they get there. If the transaction took no effect, the rungs put back
      are there twice, as far as there is room. If it did, seen or not and however late, the target was filled
      alone, and of the rungs already put back only those at its own price are left; only the target is gone
      exactly when nothing was lost. */
  lemma LadderAfterMatch(book: Book, k: Key, maker: nat, coid: nat, fate: Fate, sent: seq<Order>, accepts: seq<bool>)
    requires Valid(book) && book.pending == 0 && k.owner != maker && !fate.Unread?
    requires var q := QueueOf(book, k.side);
      && Find(q, k) < |q|
      && |accepts| == |sent| == (if fate.Unbuilt? && fate.cancels < Find(q, k) then fate.cancels else Find(q, k))
      && Shuffled(sent, q[..|sent|]) && forall o | o in q[..Find(q, k)] :: o.trader == maker
    ensures var q, i := QueueOf(book, k.side), Find(QueueOf(book, k.side), k);
      var after := Cleaned(book, k.side, i, maker, coid, fate, sent, accepts);
      && Valid(after) && QueueOf(after, k.side.Opposite()) == QueueOf(book, k.side.Opposite())
      && if fate.LandedUnseen? || fate.Confirmed? then
           var put := if fate.Confirmed? then 0 else if fate.put < i then fate.put else i;
           var e := Reaches(book, k.side, i, maker, coid, put, sent, accepts).1;
           && e.Some? && e.value.fills == [Fill(k.owner, k.coid, k.price, k.lots, true)]
           && AllTerms(QueueOf(after, k.side)) == AllTerms(q[i + 1..])
                + Beside(sent[..put], accepts[..put], Room(q), k.price) + Accepted(sent[put..], accepts[put..], ORDERS_PER_SIDE)
           && (AllTerms(q) == AllTerms(QueueOf(after, k.side)) + multiset{TermsOf(q[i])} <==> NothingLost(q, i, sent, put, accepts))
         else
           AllTerms(QueueOf(after, k.side)) == AllTerms(q) + Accepted(sent, accepts, Room(q))
  {
    var q := QueueOf(book, k.side);
    var i := Find(q, k);
    assert |sent| == Cleared(fate, i);
    assert fate.LandedUnseen? || fate.Confirmed? ==> PutFirst(fate, i) == if fate.Confirmed? then 0 else if fate.put < i then fate.put else i;
    hide *;
    FoundTarget(q, k);
    if fate.LandedUnseen? || fate.Confirmed? {
      LadderLanded(book, k.side, i, maker, coid, fate, sent, accepts);
    } else {
      LadderUntouched(book, k.side, i, maker, coid, fate, sent, accepts);
    }
  }

  lemma FoundTarget(q: seq<Order>, k: Key)
    requires Find(q, k) < |q|
    ensures var t := q[Find(q, k)];
      t.trader == k.owner && t.price == k.price && Whole(t) == Fill(k.owner, k.coid, k.price, k.lots, true)
  {
    FindFinds(q, k);
  }

  lemma LadderLanded(book: Book, s: Side, i: nat, maker: nat, coid: nat, fate: Fate, sent: seq<Order>, accepts: seq<bool>)
    requires Valid(book) && book.pending == 0 && i < |QueueOf(book, s)| && |accepts| == |sent| == Cleared(fate, i)
    requires Shuffled(sent, QueueOf(book, s)[..Cleared(fate, i)])
    requires forall o | o in QueueOf(book, s)[..i] :: o.trader == maker
    requires QueueOf(book, s)[i].trader != maker && (fate.LandedUnseen? || fate.Confirmed?)
    ensures var q, put, after := QueueOf(book, s), PutFirst(fate, i), Cleaned(book, s, i, maker, coid, fate, sent, accepts);
      var t, e := q[i], Reaches(book, s, i, maker, coid, put, sent, accepts).1;
      && e.Some? && e.value.fills == [Whole(t)]
      && Valid(after) && QueueOf(after, s.Opposite()) == QueueOf(book, s.Opposite())
      && AllTerms(QueueOf(after, s)) == AllTerms(q[i + 1..])
           + Beside(sent[..put], accepts[..put], Room(q), t.price) + Accepted(sent[put..], accepts[put..], ORDERS_PER_SIDE)
      && (AllTerms(q) == AllTerms(QueueOf(after, s)) + multiset{TermsOf(t)} <==> NothingLost(q, i, sent, put, accepts))
  {
    hide Restored, AllTerms, Execute, Valid, NothingLost, Beside, Accepted, MatchTx, QueueOf, Room, Shuffled;
    LadderAfterLanding(book, s, i, sent, PutFirst(fate, i), maker, coid, accepts);
  }

  lemma LadderUntouched(book: Book, s: Side, i: nat, maker: nat, coid: nat, fate: Fate, sent: seq<Order>, accepts: seq<bool>)
    requires Valid(book) && i < |QueueOf(book, s)| && |accepts| == |sent| == Cleared(fate, i)
    requires Shuffled(sent, QueueOf(book, s)[..Cleared(fate, i)])
    requires forall o | o in QueueOf(book, s)[..i] :: o.trader == maker
    requires !fate.LandedUnseen? && !fate.Confirmed?
    ensures var q, after := QueueOf(book, s), Cleaned(book, s, i, maker, coid, fate, sent, accepts);
      && Valid(after) && QueueOf(after, s.Opposite()) == QueueOf(book, s.Opposite())
      && AllTerms(QueueOf(after, s)) == AllTerms(q) + Accepted(sent, accepts, Room(q))
  {
    var q, n := QueueOf(book, s), |accepts|;
    assert accepts[..0] == [] && accepts[0..] == accepts && sent[..0] == [] && sent[0..] == sent;
    assert q[..n] == q[..i][..n];
    FrontOrders(book, s, i);
    ShuffledIn(sent, q[..n], 0);
    InFront(q[..i], n);
    InFront(q, i);
    RemovedCannotCross(book, s, sent);
    hide Restored, AllTerms, Execute, Valid, Accepted, MatchTx, Crosses, QueueOf, Shuffled;
    NoneRestored(book, s, maker);
    RestorePutsBack(book, s, sent, maker, accepts);
  }

  /** With the maker the only venue key, nothing but its own orders rests ahead of a side's first user order, and
      the match finds it there: it is never blocked by somebody else's. */
  lemma FirstUserIsClear(maker: nat, base: nat, views: seq<Option<Book>>, i: nat, s: Side, k: nat)
    requires FirstUser({maker}, views, i, s, k)
    ensures var q := OrdersOf(views[i].value, s);
      && Find(q, At(base, views, i, s, k).key) == k && q[k].trader != maker
      && forall o | o in q[..k] :: o.trader == maker
  {
    var q, key := OrdersOf(views[i].value, s), At(base, views, i, s, k).key;
    FindFinds(q, key);
    forall o | o in q[..k] ensures o.trader == maker {
      var j :| 0 <= j < k && q[j] == o;
    }
  }

  /** So the pick of a scan, matched on the book as it was scanned, is filled whole and alone at its own price and
      loses its timers, if its transaction is confirmed; otherwise it is put off for two seconds. */
  lemma PickIsServed(maker: nat, base: nat, views: seq<Option<Book>>, i: nat, s: Side, k: nat, now: int, coid: nat,
                     fate: Fate, accepts: nat -> bool, arrival: seq<Order>, was: Ages, ok: bool, after: Book,
                     fills: seq<Fill>, ages: Ages)
    requires FirstUser({maker}, views, i, s, k) && Valid(views[i].value)
    requires MatchDone(maker, At(base, views, i, s, k).key, now, views[i].value, coid, fate, accepts, arrival,
                       was, ok, after, fills, ages)
    ensures var o, key := OrdersOf(views[i].value, s)[k], At(base, views, i, s, k).key;
      && (ok <==> fate.Confirmed?)
      && (ok ==> fills == [Fill(o.trader, o.coid, o.price, o.lots, true)])
      && (ok ==> ages == Ages(was.firstSeen - {key}, was.retryAfter - {key}))
      && (!ok ==> ages == Ages(was.firstSeen, was.retryAfter[key := now + 2_000]))
  {
    var b, key := views[i].value, At(base, views, i, s, k).key;
    FirstUserIsClear(maker, base, views, i, s, k);
    assert QueueOf(b, s) == OrdersOf(b, s) && key.side == s && b.pending == 0;
    if fate.Confirmed? {
      ConfirmedFills(b, s, k, maker, coid, fate, Arriving(QueueOf(b, s)[..k], arrival), Verdicts(accepts, k));
      hide Execute, Restored, MatchTx, Find, Arriving, Cleaned, Valid;
    } else {
      hide Execute, Restored, MatchTx, Find, Arriving, Cleaned, Valid, Reaches;
    }
  }

  lemma ConfirmedFills(b: Book, s: Side, k: nat, maker: nat, coid: nat, fate: Fate, sent: seq<Order>, verdicts: seq<bool>)
    requires Valid(b) && b.pending == 0 && k < |QueueOf(b, s)| && QueueOf(b, s)[k].trader != maker && fate.Confirmed?
    requires |sent| == |verdicts| && forall o | o in QueueOf(b, s)[..k] :: o.trader == maker
    ensures var t, e := QueueOf(b, s)[k], Reaches(b, s, k, maker, coid, PutFirst(fate, k), sent, verdicts).1;
      e.Some? && e.value.fills == [Fill(t.trader, t.coid, t.price, t.lots, true)]
  {
    assert sent[..0] == [] && verdicts[..0] == [];
    NoneRestored(b, s, maker);
    hide Execute, Restored, MatchTx, Valid;
    CrossesExactly(b, s, k, maker, coid);
  }

  lemma {:induction false} FindFinds(q: seq<Order>, k: Key)
    ensures FoundAt(q, k, Find(q, k))
  {
    if q != [] && !SameOrder(q[0], k) {
      FindFinds(q[1..], k);
      var i := Find(q[1..], k);
      forall j | 0 <= j < 1 + i ensures !SameOrder(q[j], k) {
        if j > 0 { assert q[j] == q[1..][j - 1]; }
      }
    }
  }
}
