/** The trader's account as the clients can step it, and the one transaction that sets a market up. */
module Onboarding {
  import opened Prelude

  /** `deposited` is the base-layer ledger's running total, `claimed` the high-water mark the
      account has absorbed; `spent` is what has left the wallet. */
  datatype Account = Account(
    isOpen: bool,
    ledger: bool,
    deposited: nat,
    claimed: nat,
    capital: int,
    pnl: int,
    spent: nat,
    permissioned: bool,
    delegated: bool)

  datatype Ix =
    | OpenPortfolio
    | InitializeLedger
    | Deposit(atoms: nat)
    | CreatePermission
    | DelegatePortfolio
    | GrantSession
    | FloatFees

  /** What the programs check. Nothing stops a permission being created on a delegated account. */
  function Step(a: Account, ix: Ix): Option<Account> {
    match ix
    case OpenPortfolio => if a.isOpen then None else Some(a.(isOpen := true))
    case InitializeLedger => if a.ledger then None else Some(a.(ledger := true))
    case Deposit(x) =>
      if !a.ledger || x == 0 then None else Some(a.(deposited := a.deposited + x, spent := a.spent + x))
    case CreatePermission => if a.permissioned then None else Some(a.(permissioned := true))
    case DelegatePortfolio => if !a.isOpen || a.delegated then None else Some(a.(delegated := true))
    case GrantSession => Some(a)
    case FloatFees => Some(a)
  }

  /** A transaction is all or nothing. */
  function Execute(a: Account, tx: seq<Ix>): Option<Account>
    decreases |tx|
  {
    if tx == [] then Some(a)
    else match Step(a, tx[0])
      case None => None
      case Some(b) => Execute(b, tx[1..])
  }

  /** An instruction that took effect, with the account it ran on. */
  datatype Ran = Ran(ix: Ix, before: Account)

  /** What a transaction runs, instruction by instruction. */
  function Trace(a: Account, tx: seq<Ix>): seq<Ran>
    decreases |tx|
  {
    if tx == [] then []
    else match Step(a, tx[0])
      case None => []
      case Some(b) => [Ran(tx[0], a)] + Trace(b, tx[1..])
  }

  /** Every permission is created on an account that is not delegated at that moment. */
  ghost predicate HidesFirst(ran: seq<Ran>) {
    forall r | r in ran && r.ix.CreatePermission? :: !r.before.delegated
  }

  /** Every delegation is of an account that is already hidden. */
  ghost predicate DelegatesHidden(ran: seq<Ran>) {
    forall r | r in ran && r.ix.DelegatePortfolio? :: r.before.permissioned
  }

  /** `claim_deposit`: credit what the ledger has over the high-water mark. Anyone may send it. */
  function Claim(a: Account): Account {
    if a.deposited <= a.claimed then a
    else a.(capital := a.capital + a.deposited - a.claimed, claimed := a.deposited)
  }

  datatype Need = Need(open: bool, deposit: bool, delegate: bool, grant: bool, permission: bool)

  /** The instruction list, in the order that matters: hide before delegating. */
  function SetupTx(need: Need, atoms: nat): seq<Ix> {
    (if need.open then [OpenPortfolio, InitializeLedger] else [])
    + (if need.deposit then [Deposit(atoms)] else [])
    + (if need.permission then [CreatePermission] else [])
    + (if need.delegate then [DelegatePortfolio] else [])
    + (if need.grant then [GrantSession, FloatFees] else [])
  }

  /** `setupMarket`: push what is needed, then send it as one transaction or send nothing. */
  method SetupMarket(need: Need, atoms: nat) returns (ixs: seq<Ix>)
    ensures ixs == SetupTx(need, atoms)
  {
    ixs := [];
    if need.open { ixs := ixs + [OpenPortfolio, InitializeLedger]; }
    assert ixs == if need.open then [OpenPortfolio, InitializeLedger] else [];
    if need.deposit { ixs := ixs + [Deposit(atoms)]; }
    if need.permission { ixs := ixs + [CreatePermission]; }
    if need.delegate { ixs := ixs + [DelegatePortfolio]; }
    if need.grant { ixs := ixs + [GrantSession, FloatFees]; }
  }

  /** What has to be missing, and present, for the set-up transaction to land. */
  predicate Lands(a: Account, need: Need, atoms: nat) {
    && (need.open ==> !a.isOpen && !a.ledger)
    && (need.deposit ==> 0 < atoms && (a.ledger || need.open))
    && (need.permission ==> !a.permissioned)
    && (need.delegate ==> !a.delegated && (a.isOpen || need.open))
  }

  /** When the set-up transaction lands, and everything it then changes. In particular it moves money
      only with its deposit, and delegates or permissions only what was neither. */
  lemma SetupEffect(a: Account, need: Need, atoms: nat)
    ensures var r := Execute(a, SetupTx(need, atoms));
      && r.Some? == Lands(a, need, atoms)
      && (r.Some? ==>
            r.value == a.(isOpen := a.isOpen || need.open, ledger := a.ledger || need.open,
                          deposited := a.deposited + (if need.deposit then atoms else 0),
                          spent := a.spent + (if need.deposit then atoms else 0),
                          permissioned := a.permissioned || need.permission,
                          delegated := a.delegated || need.delegate))
  {
    hide Execute, SetupTx, Tail, Step, MaybeStep, Stages, Trace;
    SetupSplits(need, atoms);
    Opened(a, need, atoms, PermitPair(need));
  }

  /** Inside a set-up that lands, the permission is created before delegation and delegation finds it there:
      the one way to hide a delegated account is to ask for a permission and no delegation. */
  lemma SetupHidesFirst(a: Account, need: Need, atoms: nat)
    requires Execute(a, SetupTx(need, atoms)).Some?
    ensures HidesFirst(Trace(a, SetupTx(need, atoms))) <==> !(need.permission && a.delegated)
    ensures DelegatesHidden(Trace(a, SetupTx(need, atoms))) <==> !need.delegate || need.permission || a.permissioned
    ensures need.delegate ==> !a.delegated
  {
    hide Execute, SetupTx, Tail, Step, MaybeStep, Stages, Trace;
    SetupSplits(need, atoms);
    Opened(a, need, atoms, PermitPair(need));
  }

  /** The same instructions with delegation first. */
  function SwappedTx(need: Need, atoms: nat): seq<Ix> { SetupHead(need) + Tail(need, atoms, DelegatePair(need)) }

  /** Swapped, the transaction lands exactly when it did and leaves the very same account, but it creates
      a permission on a delegated account whenever it both hides and delegates. */
  lemma SwappedHidesLast(a: Account, need: Need, atoms: nat)
    ensures Execute(a, SwappedTx(need, atoms)) == Execute(a, SetupTx(need, atoms))
    ensures Execute(a, SwappedTx(need, atoms)).Some? ==>
      && (HidesFirst(Trace(a, SwappedTx(need, atoms))) <==> !(need.permission && (need.delegate || a.delegated)))
      && (DelegatesHidden(Trace(a, SwappedTx(need, atoms))) <==> !need.delegate || a.permissioned)
  {
    hide Execute, SetupTx, Tail, Step, MaybeStep, Stages, Trace;
    SetupSplits(need, atoms);
    Opened(a, need, atoms, PermitPair(need));
    Opened(a, need, atoms, DelegatePair(need));
  }

  // ── stage by stage ────────────────────────────────────────────────────────

  /** The two instructions whose order matters, each wanted or not. */
  datatype Pair = Pair(w: bool, x: Ix, v: bool, y: Ix)

  function PermitPair(need: Need): Pair { Pair(need.permission, CreatePermission, need.delegate, DelegatePortfolio) }

  function DelegatePair(need: Need): Pair { Pair(need.delegate, DelegatePortfolio, need.permission, CreatePermission) }

  function SetupHead(need: Need): seq<Ix> { if need.open then [OpenPortfolio, InitializeLedger] else [] }

  function Grant(need: Need): seq<Ix> { if need.grant then [GrantSession, FloatFees] else [] }

  function Tail(need: Need, atoms: nat, p: Pair): seq<Ix> {
    Maybe(need.deposit, Deposit(atoms)) + (Maybe(p.w, p.x) + (Maybe(p.v, p.y) + Grant(need)))
  }

  lemma SetupSplits(need: Need, atoms: nat)
    ensures SetupTx(need, atoms) == SetupHead(need) + Tail(need, atoms, PermitPair(need))
  {
  }

  function MaybeStep(a: Account, want: bool, x: Ix): Option<Account> { if want then Step(a, x) else Some(a) }

  function MaybeRan(a: Account, want: bool, x: Ix): seq<Ran> { if want then [Ran(x, a)] else [] }

  datatype Staged = Staged(paid: Account, between: Account, last: Account)

  function Stages(b: Account, need: Need, atoms: nat, p: Pair): Option<Staged> {
    match MaybeStep(b, need.deposit, Deposit(atoms))
    case None => None
    case Some(c) =>
      match MaybeStep(c, p.w, p.x)
      case None => None
      case Some(d) =>
        match MaybeStep(d, p.v, p.y)
        case None => None
        case Some(e) => Some(Staged(c, d, e))
  }

  /** Where the pair runs and what is left, in either order. */
  lemma StagesClose(b: Account, need: Need, atoms: nat, p: Pair)
    requires p == PermitPair(need) || p == DelegatePair(need)
    ensures var s := Stages(b, need, atoms, p);
      && (s.Some? <==> && (need.deposit ==> 0 < atoms && b.ledger) && (need.permission ==> !b.permissioned)
                       && (need.delegate ==> !b.delegated && b.isOpen))
      && (s.Some? ==>
            && s.value.paid.delegated == b.delegated && s.value.paid.permissioned == b.permissioned
            && s.value.between.delegated == (b.delegated || (p == DelegatePair(need) && p.w))
            && s.value.between.permissioned == (b.permissioned || (p == PermitPair(need) && p.w))
            && s.value.last == b.(deposited := b.deposited + (if need.deposit then atoms else 0),
                                  spent := b.spent + (if need.deposit then atoms else 0),
                                  permissioned := b.permissioned || need.permission,
                                  delegated := b.delegated || need.delegate))
  {
  }

  lemma Opened(a: Account, need: Need, atoms: nat, p: Pair)
    requires p == PermitPair(need) || p == DelegatePair(need)
    ensures var tx := SetupHead(need) + Tail(need, atoms, p);
      var b := if need.open then a.(isOpen := true, ledger := true) else a;
      && (Execute(a, tx).Some? <==> Lands(a, need, atoms))
      && (Execute(a, tx).Some? ==>
            && Execute(a, tx).value == b.(deposited := b.deposited + (if need.deposit then atoms else 0),
                                          spent := b.spent + (if need.deposit then atoms else 0),
                                          permissioned := b.permissioned || need.permission,
                                          delegated := b.delegated || need.delegate)
            && (HidesFirst(Trace(a, tx)) <==> !(need.permission && (a.delegated || (p == DelegatePair(need) && need.delegate))))
            && (DelegatesHidden(Trace(a, tx)) <==>
                  !need.delegate || a.permissioned || (p == PermitPair(need) && need.permission)))
  {
    var head, b := SetupHead(need), if need.open then a.(isOpen := true, ledger := true) else a;
    Chained(a, head, Tail(need, atoms, p));
    HeadEffect(a, need);
    hide Execute, Trace, Tail, SetupHead, HidesFirst, DelegatesHidden;
    if Execute(a, head).Some? {
      TailEffect(b, need, atoms, p);
      StagesClose(b, need, atoms, p);
      hide Stages, Step;
      JoinTraces(Trace(a, head), Trace(b, Tail(need, atoms, p)));
    }
  }

  lemma HeadEffect(a: Account, need: Need)
    ensures Execute(a, SetupHead(need)) ==
      if !need.open then Some(a)
      else if a.isOpen || a.ledger then None
      else Some(a.(isOpen := true, ledger := true))
    ensures HidesFirst(Trace(a, SetupHead(need))) && DelegatesHidden(Trace(a, SetupHead(need)))
  {
    if need.open { Two(a, OpenPortfolio, InitializeLedger); } else { Nothing(a); }
  }

  lemma JoinTraces(t: seq<Ran>, u: seq<Ran>)
    ensures HidesFirst(t + u) <==> HidesFirst(t) && HidesFirst(u)
    ensures DelegatesHidden(t + u) <==> DelegatesHidden(t) && DelegatesHidden(u)
  {
    assert forall r :: r in t + u <==> r in t || r in u;
  }

  lemma TailEffect(b: Account, need: Need, atoms: nat, p: Pair)
    requires p == PermitPair(need) || p == DelegatePair(need)
    ensures var tx, s := Tail(need, atoms, p), Stages(b, need, atoms, p);
      && (Execute(b, tx).Some? <==> s.Some?)
      && (s.Some? ==>
            && Execute(b, tx).value == s.value.last
            && (HidesFirst(Trace(b, tx)) <==>
                  !(need.permission && (if p == PermitPair(need) then s.value.paid else s.value.between).delegated))
            && (DelegatesHidden(Trace(b, tx)) <==>
                  !need.delegate || (if p == PermitPair(need) then s.value.between else s.value.paid).permissioned))
  {
    var rest1, rest2 := Maybe(p.w, p.x) + (Maybe(p.v, p.y) + Grant(need)), Maybe(p.v, p.y) + Grant(need);
    hide Execute, Step, Maybe, Trace, HidesFirst, DelegatesHidden;
    ThenMaybe(b, need.deposit, Deposit(atoms), rest1);
    var c := MaybeStep(b, need.deposit, Deposit(atoms));
    if c.Some? {
      ThenMaybe(c.value, p.w, p.x, rest2);
      var d := MaybeStep(c.value, p.w, p.x);
      if d.Some? {
        ThenMaybe(d.value, p.v, p.y, Grant(need));
        var e := MaybeStep(d.value, p.v, p.y);
        if e.Some? {
          GrantsNothing(e.value, need);
          JoinTraces(MaybeRan(d.value, p.v, p.y), Trace(e.value, Grant(need)));
          JoinTraces(MaybeRan(c.value, p.w, p.x), Trace(d.value, rest2));
          JoinTraces(MaybeRan(b, need.deposit, Deposit(atoms)), Trace(c.value, rest1));
          OneRan(b, need.deposit, Deposit(atoms));
          OneRan(c.value, p.w, p.x);
          OneRan(d.value, p.v, p.y);
        }
      }
    }
  }

  lemma OneRan(a: Account, want: bool, x: Ix)
    ensures HidesFirst(MaybeRan(a, want, x)) <==> !(want && x.CreatePermission? && a.delegated)
    ensures DelegatesHidden(MaybeRan(a, want, x)) <==> !(want && x.DelegatePortfolio? && !a.permissioned)
  {
    if want { assert Ran(x, a) in MaybeRan(a, want, x); }
  }

  lemma GrantsNothing(a: Account, need: Need)
    ensures Execute(a, Grant(need)) == Some(a)
    ensures HidesFirst(Trace(a, Grant(need))) && DelegatesHidden(Trace(a, Grant(need)))
  {
    if need.grant { Two(a, GrantSession, FloatFees); } else { Nothing(a); }
  }

  function Maybe(want: bool, x: Ix): seq<Ix> { if want then [x] else [] }

  lemma ThenMaybe(a: Account, want: bool, x: Ix, rest: seq<Ix>)
    ensures Execute(a, Maybe(want, x) + rest) ==
      match MaybeStep(a, want, x) case None => None case Some(b) => Execute(b, rest)
    ensures MaybeStep(a, want, x).Some? ==>
      Trace(a, Maybe(want, x) + rest) == MaybeRan(a, want, x) + Trace(MaybeStep(a, want, x).value, rest)
  {
    Chained(a, Maybe(want, x), rest);
    if want { One(a, x); } else { Nothing(a); }
  }

  lemma Nothing(a: Account)
    ensures Execute(a, []) == Some(a) && Trace(a, []) == []
  {}

  lemma {:induction false} Chained(a: Account, p: seq<Ix>, q: seq<Ix>)
    ensures Execute(a, p + q) == match Execute(a, p) case None => None case Some(b) => Execute(b, q)
    ensures Execute(a, p).Some? ==> Trace(a, p + q) == Trace(a, p) + Trace(Execute(a, p).value, q)
    decreases |p|
  {
    if p == [] {
      assert p + q == q && [] + Trace(a, q) == Trace(a, q);
    } else {
      assert (p + q)[0] == p[0] && (p + q)[1..] == p[1..] + q;
      match Step(a, p[0]) {
        case None =>
        case Some(b) => Chained(b, p[1..], q);
      }
    }
  }

  lemma One(a: Account, x: Ix)
    ensures Execute(a, [x]) == Step(a, x)
    ensures Step(a, x).Some? ==> Trace(a, [x]) == [Ran(x, a)]
  {
    assert [x][1..] == [];
  }

  lemma Two(a: Account, x: Ix, y: Ix)
    ensures Execute(a, [x, y]) == match Step(a, x) case None => None case Some(b) => Step(b, y)
    ensures forall r | r in Trace(a, [x, y]) :: r.ix == x || r.ix == y
  {
    assert [x, y][1..] == [y];
    match Step(a, x) {
      case None =>
      case Some(b) => One(b, y);
    }
  }
}
