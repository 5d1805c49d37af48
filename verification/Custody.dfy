/** Funding a market: what one call may take from the wallet, and what any number of retries,
    with the venue's own claims landing at any moment, may take together. Money is in quote atoms. */
module Custody {
  import opened Prelude
  import opened Onboarding

  const DOLLAR := 1_000_000

  /** Which of the two accounts answer during this call. */
  datatype Reads = Reads(portfolio: bool, ledger: bool)

  function Pending(a: Account): int { a.deposited - a.claimed }

  /** Capital plus unrealised PnL; an account that cannot be read counts as empty. */
  function CollateralOf(a: Account, r: Reads): int {
    if r.portfolio && a.isOpen then a.capital + a.pnl else 0
  }

  /** Money paid in but not credited. An unreadable portfolio makes every deposit pending; an
      unreadable ledger makes none of them. */
  function Uncredited(a: Account, r: Reads): int {
    if !r.ledger || !a.ledger then 0
    else if r.portfolio && a.isOpen then MaxInt(0, Pending(a))
    else a.deposited
  }

  /** Bookkeeping that custody rests on: what was credited never exceeds what the ledger holds. Capital may
      lie above or below it, by what trading has realised. */
  ghost predicate Books(a: Account) {
    && a.claimed <= a.deposited
    && (!a.ledger ==> a.deposited == 0)
    && (!a.isOpen ==> a.claimed == 0 && a.capital == 0)
  }

  predicate NeedsNothing(asked: Need) { !asked.open && !asked.delegate && !asked.grant }

  /** What a call that nobody disturbs sends into custody. */
  function Charge(usd: real, asked: Need, a: Account, r: Reads): nat {
    var shortfall := usd - CollateralOf(a, r) as real;
    if !asked.open && Uncredited(a, r) > DOLLAR then 0
    else if shortfall <= DOLLAR as real then 0
    else MaxInt(0, Round(shortfall))
  }

  // ── what a call must do, in numbers ───────────────────────────────────────

  /** Capital and unrealised profit and loss of an account that answers. */
  ghost function Standing(a: Account, r: Reads): int { if r.portfolio && a.isOpen then a.capital + a.pnl else 0 }

  /** More than a dollar is paid in and not yet credited. */
  ghost predicate OnItsWay(a: Account, r: Reads) {
    r.ledger && a.ledger && a.deposited - (if r.portfolio && a.isOpen then a.claimed else 0) > 1_000_000
  }

  /** The set-up transaction of a call that finds `standing` lands: nothing it makes exists, and it has a ledger
      to deposit into if it is short by more than a dollar. */
  ghost predicate CanLand(a: Account, asked: Need, hidden: bool, usd: real, standing: int) {
    && (asked.open ==> !a.isOpen && !a.ledger)
    && (asked.delegate ==> !a.delegated && (a.isOpen || asked.open) && (hidden || !a.permissioned))
    && (usd - standing as real > 1_000_000.0 ==> a.ledger || asked.open)
  }

  /** It then takes what is missing, to the nearest atom, if that is more than a dollar, and makes what was asked. */
  ghost predicate SetsUp(a: Account, asked: Need, hidden: bool, usd: real, standing: int, a': Account) {
    var paid := a'.spent - a.spent;
    && (if usd - standing as real > 1_000_000.0 then Nearest(paid, usd - standing as real) else paid == 0)
    && a'.deposited == a.deposited + paid && a'.claimed == a.claimed && a'.capital == a.capital && a'.pnl == a.pnl
    && a'.isOpen == (a.isOpen || asked.open) && a'.ledger == (a.ledger || asked.open)
    && a'.delegated == (a.delegated || asked.delegate) && a'.permissioned == (a.permissioned || (asked.delegate && !hidden))
  }

  lemma WaitingIff(a: Account, r: Reads)
    requires Books(a)
    ensures Uncredited(a, r) > DOLLAR <==> OnItsWay(a, r)
  {}

  lemma LandsIff(a: Account, asked: Need, hidden: bool, usd: real, standing: int, need: Need, atoms: nat)
    requires var shortfall := usd - standing as real;
      && need == asked.(deposit := shortfall > 1_000_000.0, permission := asked.delegate && !hidden)
      && atoms == MaxInt(0, Round(shortfall))
    ensures var result := Execute(a, SetupTx(need, atoms));
      && (result.Some? <==> CanLand(a, asked, hidden, usd, standing))
      && (result.Some? ==> SetsUp(a, asked, hidden, usd, standing, result.value))
  {
    SetupEffect(a, need, atoms);
    RoundIsNearest(usd - standing as real);
    hide Execute, SetupTx, Round;
  }

  /** A set-up transaction that was sent and given up on: it may still land, or never. */
  datatype Setup = Setup(need: Need, atoms: nat)

  function Late(a: Account, s: Setup): Account {
    var r := Execute(a, SetupTx(s.need, s.atoms));
    if r.Some? then r.value else a
  }

  datatype Outcome = Ready(collateral: int) | AwaitingCredit | NotSent | Lagging

  class Venue {
    var account: Account

    constructor (a: Account)
      ensures account == a
    {
      account := a;
    }

    /** A browser or the keeper may run the claim at any moment; it is permissionless. */
    method Others(ghost was: Account, busy: bool)
      requires Quiet(was, account, busy)
      modifies this
      ensures Quiet(was, account, busy)
      ensures Quiet(old(account), account, busy)
    {
      var now: bool := *;
      if busy && now { account := Claimed(account); }
    }

    /** One wait of a poll, in which somebody may claim. */
    method Wait(busy: bool, claimed: bool)
      modifies this
      ensures account == if busy && claimed then Claimed(old(account)) else old(account)
    {
      if busy && claimed { account := Claimed(account); }
    }

    /** `fundMarket`. `hidden` is what the privacy read says; `lands` is whether the wallet signed and
        the network was seen to take the transaction; `busy` is whether anybody else may claim meanwhile, and
        `claims` whether it happens in a poll's next wait. A transaction that was given up on is `flight`. */
    method FundMarket(usd: real, asked: Need, r: Reads, hidden: bool, lands: bool, busy: bool, claims: nat -> bool)
      returns (out: Outcome, flight: Option<Setup>, ghost atSend: Account, waits: nat)
      requires Books(account)
      modifies this
      ensures Books(account)
      ensures r.ledger ==> CallMoney(usd, r, old(account), account)
      ensures account.spent > old(account).spent && r.ledger && old(account).isOpen ==> Pending(atSend) <= DOLLAR
      ensures out == NotSent ==> account.spent == old(account).spent
      ensures !busy && out != NotSent ==> account.spent == old(account).spent + Charge(usd, asked, old(account), r)
      // Undisturbed: it answers at once if nothing is missing, waits if a deposit is on its way, and otherwise sends
      // the one transaction, which lands exactly if it can.
      ensures !busy ==>
        var a, standing := old(account), Standing(old(account), r);
        if !asked.open && !asked.delegate && !asked.grant && usd - standing as real <= 1_000_000.0 then
          out == Ready(standing) && account == a && waits == 0
        else if !asked.open && OnItsWay(a, r) then
          out == AwaitingCredit && account == a
        else
          && (out != NotSent <==> lands && CanLand(a, asked, hidden, usd, standing))
          && (if out == NotSent then account == a else SetsUp(a, asked, hidden, usd, standing, account))
          && (flight.Some? <==> !lands && CanLand(a, asked, hidden, usd, standing))
          && (out != NotSent && usd - standing as real <= 1_000_000.0 ==> out == Ready(standing) && waits == 0)
      // After a deposit it is ready only when the money has arrived, and lags only while it has not.
      ensures account.spent > old(account).spent ==> out.Ready? || out.Lagging?
      ensures account.spent > old(account).spent && out.Ready? ==> out.collateral as real >= usd - 1_000_000.0
      ensures out.Ready? ==> out.collateral == Standing(account, r)
                             || (account.spent == old(account).spent && (asked.open || asked.delegate || asked.grant))
      ensures out.Lagging? ==> usd - Standing(account, r) as real > 1_000_000.0
      ensures flight.Some? ==> out == NotSent && InFlight(usd, r, old(account), account, flight.value)
      ensures out == NotSent ==> waits == 0
    {
      hide CallMoney, Books, Claimed, Execute, Round, CanLand, InFlight;
      ghost var was := account;
      atSend, flight, waits := account, None, 0;
      Others(was, busy);
      QuietMoney(usd, r, was, account, busy);
      if NeedsNothing(asked) {
        var funded := CollateralOf(account, r);
        if funded as real >= usd - DOLLAR as real { return Ready(funded), None, atSend, 0; }
      }
      if !asked.open {
        var waiting := Uncredited(account, r);
        WaitingIff(account, r);
        if waiting > DOLLAR {
          out, waits := AwaitCredit(was, r, busy, claims);
          QuietMoney(usd, r, was, account, busy);
          return;
        }
      }
      ghost var checked := account;
      Others(was, busy);
      QuietMoney(usd, r, was, account, busy);
      var already := CollateralOf(account, r);
      var shortfall := usd - already as real;
      if shortfall <= DOLLAR as real && NeedsNothing(asked) { return Ready(already), None, atSend, 0; }
      ghost var read := account;
      Others(was, busy);
      QuietMoney(usd, r, was, account, busy);
      atSend := account;
      var sent;
      sent, flight := Send(usd, asked, r, already, hidden, lands, was, checked, read, busy);
      if !sent { return NotSent, flight, atSend, 0; }
      if shortfall <= DOLLAR as real { return Ready(already), None, atSend, 0; }
      out, waits := PollCredit(usd, r, was, busy, claims);
    }

    /** The one transaction of a call, deposit included when the shortfall is worth one. */
    method Send(usd: real, asked: Need, r: Reads, already: int, hidden: bool, lands: bool,
                ghost was: Account, ghost checked: Account, ghost read: Account, ghost busy: bool)
      returns (sent: bool, flight: Option<Setup>)
      requires Books(was) && Quiet(was, checked, busy) && Quiet(checked, read, busy) && Quiet(read, account, busy)
      requires !asked.open ==> Uncredited(checked, r) <= DOLLAR
      requires already == CollateralOf(read, r)
      modifies this
      ensures Books(account)
      ensures r.ledger ==> CallMoney(usd, r, was, account)
      ensures account.spent > was.spent && r.ledger && was.isOpen ==> Pending(old(account)) <= DOLLAR
      ensures !sent ==> account == old(account)
      ensures flight.Some? ==> !sent && InFlight(usd, r, was, account, flight.value)
      ensures sent <==> lands && CanLand(old(account), asked, hidden, usd, already)
      ensures sent ==> SetsUp(old(account), asked, hidden, usd, already, account)
      ensures flight.Some? <==> !lands && CanLand(old(account), asked, hidden, usd, already)
      ensures !busy && sent ==> account.spent == was.spent + Charge(usd, asked, was, r)
    {
      var shortfall := usd - already as real;
      var atoms := MaxInt(0, Round(shortfall));
      var need := asked.(deposit := shortfall > DOLLAR as real, permission := asked.delegate && !hidden);
      var tx := SetupMarket(need, atoms);
      SizedTx(usd, r, asked, read, account, need, atoms);
      LandsIff(account, asked, hidden, usd, already, need, atoms);
      hide *;
      var result := Execute(account, tx);
      sent := lands && result.Some?;
      flight := if !lands && result.Some? then Some(Setup(need, atoms)) else None;
      if flight.Some? { GivenUp(usd, r, asked, was, checked, read, account, flight.value, busy); }
      Covered(usd, r, asked, was, checked, read, account, if sent then result.value else account, busy, sent);
      if sent { account := result.value; }
    }

    /** After a deposit: wait for the credit to show up inside the rollup. */
    method PollCredit(usd: real, r: Reads, ghost was: Account, busy: bool, claims: nat -> bool) returns (out: Outcome, waits: nat)
      requires Books(account) && (r.ledger ==> CallMoney(usd, r, was, account))
      modifies this
      ensures Books(account) && (r.ledger ==> CallMoney(usd, r, was, account))
      ensures account.spent == old(account).spent && Quiet(old(account), account, busy)
      ensures out.Ready? || out.Lagging?
      ensures out.Ready? ==> out.collateral == Standing(account, r) && out.collateral as real >= usd - 1_000_000.0
      ensures out.Lagging? ==> usd - Standing(account, r) as real > 1_000_000.0
      // Up to ten waits, and not one past the first after which the money is there.
      ensures 1 <= waits <= 10 && account == AfterWaits(old(account), busy, claims, waits) && (out.Lagging? ==> waits == 10)
      ensures forall k: nat | 1 <= k < waits :: usd - Standing(AfterWaits(old(account), busy, claims, k), r) as real > 1_000_000.0
    {
      ghost var funded := account;
      for i := 0 to 10
        invariant Quiet(funded, account, busy) && account == AfterWaits(funded, busy, claims, i)
        invariant forall k: nat | 1 <= k <= i :: usd - Standing(AfterWaits(funded, busy, claims, k), r) as real > 1_000_000.0
      {
        Wait(busy, claims(i));
        var now := CollateralOf(account, r);
        if now as real >= usd - DOLLAR as real { return Ready(now), i + 1; }
      }
      waits := 10;
      var settled := CollateralOf(account, r);
      out := if settled as real < usd - DOLLAR as real then Lagging else Ready(settled);
    }

    /** A click made while a deposit is in flight only waits for it; it never sends another. */
    method AwaitCredit(ghost was: Account, r: Reads, busy: bool, claims: nat -> bool) returns (out: Outcome, waits: nat)
      requires Quiet(was, account, busy)
      modifies this
      ensures Quiet(was, account, busy)
      ensures out == AwaitingCredit || out == Ready(CollateralOf(account, r))
      ensures out == AwaitingCredit <==> Uncredited(account, r) > DOLLAR
      ensures out.Ready? ==> out.collateral == Standing(account, r)
      // Up to eight waits, none once no more than a dollar is pending.
      ensures waits <= 8 && account == AfterWaits(old(account), busy, claims, waits) && (out == AwaitingCredit ==> waits == 8)
      ensures forall k: nat | k < waits :: Uncredited(AfterWaits(old(account), busy, claims, k), r) > 1_000_000
    {
      ghost var start := account;
      waits := 0;
      for i := 0 to 8
        invariant Quiet(was, account, busy) && waits == i && account == AfterWaits(start, busy, claims, i)
        invariant forall k: nat | k < i :: Uncredited(AfterWaits(start, busy, claims, k), r) > 1_000_000
      {
        if Uncredited(account, r) <= DOLLAR { break; }
        Wait(busy, claims(i));
        waits := waits + 1;
      }
      out := if Uncredited(account, r) > DOLLAR then AwaitingCredit else Ready(CollateralOf(account, r));
    }
  }

  /** The keeper's pass over the ledgers: a claim is sent for exactly the opened accounts that could be read
      and have something pending, and moves only that. */
  method ClaimDeposits(accounts: seq<Account>, answers: seq<bool>, lands: seq<bool>)
    returns (after: seq<Account>, sent: set<nat>)
    requires |answers| == |lands| == |accounts|
    ensures |after| == |accounts|
    ensures forall i: nat :: i in sent <==> i < |accounts| && accounts[i].ledger && Due(accounts[i], answers[i])
    ensures forall i: nat | i < |accounts| :: after[i] == if i in sent && lands[i] then Claim(accounts[i]) else accounts[i]
    ensures forall i: nat | i in sent && lands[i] :: Pending(after[i]) == 0 && after[i].capital == accounts[i].capital + Pending(accounts[i])
  {
    after, sent := accounts, {};
    for k := 0 to |accounts|
      invariant |after| == |accounts|
      invariant forall i: nat :: i in sent <==> i < k && accounts[i].ledger && Due(accounts[i], answers[i])
      invariant forall i: nat | i < |accounts| :: after[i] == if i in sent && lands[i] then Claim(accounts[i]) else accounts[i]
    {
      var a := accounts[k];
      if a.ledger && a.deposited != 0 && answers[k] && a.isOpen && a.deposited > a.claimed {
        sent := sent + {k};
        if lands[k] { after := after[k := Claim(a)]; }
      }
    }
  }

  predicate Due(a: Account, answered: bool) { answered && a.isOpen && Pending(a) > 0 }

  /** A claim can only reach an account that exists. */
  function Claimed(a: Account): Account { if a.isOpen then Claim(a) else a }

  /** The account after some waits, in each of which somebody may have claimed. */
  ghost function AfterWaits(a: Account, busy: bool, claims: nat -> bool, waits: nat): Account {
    if waits == 0 then a
    else
      var before := AfterWaits(a, busy, claims, waits - 1);
      if busy && claims(waits - 1) then Claimed(before) else before
  }

  /** Nothing but claims, and none at all if nobody else is about. */
  ghost predicate Quiet(was: Account, now: Account, busy: bool) {
    now == was || (busy && now == Claimed(was))
  }

  lemma QuietMoney(usd: real, r: Reads, was: Account, now: Account, busy: bool)
    requires Books(was) && Quiet(was, now, busy)
    ensures Books(now) && CallMoney(usd, r, was, now) && now.spent == was.spent
  {}

  /** What a call sees standing behind the trader, credited or on its way. */
  function Total(a: Account): int { a.capital + a.pnl + Pending(a) }

  /** All that one call may do to the money. */
  ghost predicate CallMoney(usd: real, r: Reads, a: Account, a': Account) {
    var x := a'.spent - a.spent;
    && a'.deposited == a.deposited + x && 0 <= x && a'.pnl == a.pnl
    && a'.capital - a'.claimed == a.capital - a.claimed && a.claimed <= a'.claimed
    && (a.isOpen ==> a'.isOpen) && (a.ledger ==> a'.ledger)
    && (x > 0 ==>
          if a.isOpen && r.portfolio then Round(usd) - Total(a) <= x <= Round(usd) - Total(a) + DOLLAR
          else x == Round(usd) && a.deposited <= DOLLAR)
  }

  /** A transaction that a call given `a` leaves in flight over `now`: it would land as things stand, and the
      two together are then what that call may do. */
  ghost predicate InFlight(usd: real, r: Reads, a: Account, now: Account, s: Setup) {
    Execute(now, SetupTx(s.need, s.atoms)).Some? && (r.ledger ==> CallMoney(usd, r, a, Late(now, s)))
  }

  /** A deposit that was sized after a clean check covers the shortfall and at most a dollar more:
      claims landing in between can only shrink what was pending when the check passed. */
  lemma Covered(usd: real, r: Reads, asked: Need, was: Account, checked: Account, read: Account, before: Account,
                after: Account, busy: bool, sent: bool)
    requires Books(was) && Quiet(was, checked, busy) && Quiet(checked, read, busy) && Quiet(read, before, busy)
    requires !asked.open ==> Uncredited(checked, r) <= DOLLAR
    requires Sized(usd, r, asked, read, before, after, sent)
    ensures Books(after) && (r.ledger ==> CallMoney(usd, r, was, after))
    ensures after.spent > was.spent && r.ledger && was.isOpen ==> Pending(before) <= DOLLAR
    ensures !busy && sent ==> after.spent == was.spent + Charge(usd, asked, was, r)
  {
    CoveredMoney(usd, r, asked, was, checked, read, before, after, busy, sent);
    if !busy && sent { CoveredCharge(usd, r, asked, was, before, after); }
    hide Sized, Charge, CallMoney;
  }

  /** What the transaction did, against the read it was sized by. */
  ghost predicate Sized(usd: real, r: Reads, asked: Need, read: Account, before: Account, after: Account, sent: bool) {
    var wanted := usd - CollateralOf(read, r) as real > DOLLAR as real;
    var x := if wanted then MaxInt(0, Round(usd) - CollateralOf(read, r)) else 0;
    if !sent then after == before else (
      && (asked.open ==> !before.isOpen && !before.ledger) && (wanted ==> before.ledger || asked.open)
      && after == before.(isOpen := before.isOpen || asked.open, ledger := before.ledger || asked.open,
                          deposited := before.deposited + x, spent := before.spent + x,
                          permissioned := after.permissioned, delegated := after.delegated))
  }

  /** The transaction a call builds carries what it was sized by. */
  lemma SizedTx(usd: real, r: Reads, asked: Need, read: Account, before: Account, need: Need, atoms: nat)
    requires var shortfall := usd - CollateralOf(read, r) as real;
      need == asked.(deposit := shortfall > DOLLAR as real, permission := need.permission) && atoms == MaxInt(0, Round(shortfall))
    ensures var result := Execute(before, SetupTx(need, atoms));
      && (result.Some? ==> Sized(usd, r, asked, read, before, result.value, true))
      && Sized(usd, r, asked, read, before, before, false)
  {
    SetupEffect(before, need, atoms);
    RoundWhole(usd, CollateralOf(read, r));
    hide Execute, SetupTx, Round;
  }

  lemma GivenUp(usd: real, r: Reads, asked: Need, was: Account, checked: Account, read: Account, before: Account,
                s: Setup, busy: bool)
    requires Books(was) && Quiet(was, checked, busy) && Quiet(checked, read, busy) && Quiet(read, before, busy)
    requires !asked.open ==> Uncredited(checked, r) <= DOLLAR
    requires var result := Execute(before, SetupTx(s.need, s.atoms));
      result.Some? && Sized(usd, r, asked, read, before, result.value, true)
    ensures InFlight(usd, r, was, before, s)
  {
    hide Execute, SetupTx, Sized, CallMoney, Books, Quiet, Uncredited;
    Covered(usd, r, asked, was, checked, read, before, Late(before, s), busy, true);
  }

  lemma CoveredCharge(usd: real, r: Reads, asked: Need, was: Account, before: Account, after: Account)
    requires before == was && Books(was) && (!asked.open ==> Uncredited(was, r) <= DOLLAR)
    requires Sized(usd, r, asked, was, before, after, true)
    ensures after.spent == was.spent + Charge(usd, asked, was, r)
  {
    RoundWhole(usd, CollateralOf(was, r));
    hide Round;
  }

  lemma CoveredMoney(usd: real, r: Reads, asked: Need, was: Account, checked: Account, read: Account, before: Account,
                     after: Account, busy: bool, sent: bool)
    requires Books(was) && Quiet(was, checked, busy) && Quiet(checked, read, busy) && Quiet(read, before, busy)
    requires !asked.open ==> Uncredited(checked, r) <= DOLLAR
    requires Sized(usd, r, asked, read, before, after, sent)
    ensures Books(after) && (r.ledger ==> CallMoney(usd, r, was, after))
    ensures after.spent > was.spent && r.ledger && was.isOpen ==> Pending(before) <= DOLLAR
  {
    hide Round;
  }

  // ── over every run ────────────────────────────────────────────────────────

  /** `flying` are the set-ups given up on, by the number of their call; `sent` numbers the calls and `sized`
      is one past the last that asked for a deposit. `stale` counts what landed after a later call had been
      sized without it. */
  datatype World = World(account: Account, flying: map<nat, Setup>, sent: nat, sized: nat, stale: nat)

  datatype Event = Fund(answered: Reads, given: Option<Setup>) | ClaimLanded | Land(call: nat) | Drop(call: nat)

  /** The call's deposit, if any, is the last to have been sized. */
  function Numbered(w: World, a: Account, deposit: bool): World {
    w.(account := a, sent := w.sent + 1, sized := if deposit then w.sent + 1 else w.sized)
  }

  function Landed(w: World, k: nat): World
    requires k in w.flying
  {
    var s := w.flying[k];
    var a := Late(w.account, s);
    w.(account := a, flying := w.flying - {k}, stale := w.stale + if k + 1 < w.sized then Paid(w.account, a) else 0)
  }

  function Paid(a: Account, a': Account): nat { if a.spent < a'.spent then a'.spent - a.spent else 0 }

  /** A call whose ledger read answers. One whose portfolio read does not takes the account for empty, and is
      let in only where trading has not put capital above what was credited. */
  ghost predicate Next(usd: real, w: World, e: Event, w': World) {
    match e
    case Fund(r, given) =>
      var a, a' := w.account, w'.account;
      && r.ledger && (r.portfolio || !a.isOpen || a.capital <= a.claimed)
      && Books(a') && CallMoney(usd, r, a, a')
      && (match given
          case None => w' == Numbered(w, a', a.spent < a'.spent)
          case Some(s) =>
            && a'.spent == a.spent && InFlight(usd, r, a, a', s)
            && w' == Numbered(w, a', s.need.deposit).(flying := w.flying[w.sent := s]))
    case ClaimLanded => w' == w.(account := Claimed(w.account))
    case Land(k) => k in w.flying && w' == Landed(w, k)
    case Drop(k) => w' == w.(flying := w.flying - {k})
  }

  ghost predicate IsRun(usd: real, ws: seq<World>, es: seq<Event>) {
    && |ws| == |es| + 1 && Books(ws[0].account) && ws[0] == World(ws[0].account, map[], 0, 0, 0)
    && forall i | 0 <= i < |es| :: Next(usd, ws[i], es[i], ws[i + 1])
  }

  /** The trader's own money at the first click, with losses counted and gains not. */
  function Floor(a: Account): int { a.capital + MinInt(0, a.pnl) + Pending(a) }

  function Most(usd: real, a: Account): int { MaxInt(0, Round(usd) - Floor(a)) + DOLLAR }

  ghost predicate Kept(a0: Account, a: Account) {
    && a.spent - a0.spent == a.deposited - a0.deposited >= 0
    && a.capital - a.claimed == a0.capital - a0.claimed && a.pnl == a0.pnl && Books(a)
  }

  /** What is out, and what would be if the last deposit sized were still to land. */
  ghost predicate Bounded(usd: real, a0: Account, w: World) {
    && Kept(a0, w.account) && w.account.spent - a0.spent <= Most(usd, a0) + w.stale
    && w.sized <= w.sent && (forall k | k in w.flying :: k < w.sent && (w.sized <= k ==> Atoms(w.flying[k]) == 0))
    && forall k | k in w.flying && k + 1 == w.sized ::
         w.account.spent - a0.spent + Atoms(w.flying[k]) <= Most(usd, a0) + w.stale
  }

  function Atoms(s: Setup): nat { if s.need.deposit then s.atoms else 0 }

  /** What a set-up does to the money whenever it lands. */
  lemma LateMoney(a: Account, s: Setup)
    requires Books(a)
    ensures var b := Late(a, s);
      && Books(b) && b.pnl == a.pnl && b.capital == a.capital && b.claimed == a.claimed
      && b.spent - a.spent == b.deposited - a.deposited
      && b.spent - a.spent == if Execute(a, SetupTx(s.need, s.atoms)).Some? then Atoms(s) else 0
  {
    SetupEffect(a, s.need, s.atoms);
    hide Execute, SetupTx;
  }

  /** A call sizes its deposit for all that stands behind the trader when it is made. */
  lemma SizedMoney(usd: real, r: Reads, a0: Account, a: Account, a': Account)
    requires Kept(a0, a) && Books(a') && CallMoney(usd, r, a, a') && (r.portfolio || !a.isOpen || a.capital <= a.claimed)
    ensures Kept(a0, a')
    ensures a'.spent == a.spent || a'.spent - a0.spent <= Most(usd, a0)
  {
    hide Round;
  }

  lemma LandKeeps(usd: real, a0: Account, w: World, k: nat)
    requires Bounded(usd, a0, w) && k in w.flying
    ensures Bounded(usd, a0, Landed(w, k))
  {
    var s, w' := w.flying[k], Landed(w, k);
    LateMoney(w.account, s);
    hide Execute, SetupTx, Most, Late;
    assert Kept(a0, w'.account);
    forall j | j in w'.flying && j + 1 == w'.sized
      ensures w'.account.spent - a0.spent + Atoms(w'.flying[j]) <= Most(usd, a0) + w'.stale
    {
      assert j in w.flying && w.flying[j] == w'.flying[j] && j != k;
    }
  }

  lemma FundKeeps(usd: real, a0: Account, w: World, e: Event, w': World)
    requires Bounded(usd, a0, w) && e.Fund? && Next(usd, w, e, w')
    ensures Bounded(usd, a0, w')
  {
    SizedMoney(usd, e.answered, a0, w.account, w'.account);
    if e.given.Some? {
      var s := e.given.value;
      LateMoney(w'.account, s);
      SizedMoney(usd, e.answered, a0, w.account, Late(w'.account, s));
    }
    hide Execute, SetupTx, Most, Late, CallMoney;
  }

  /** However often the same amount is asked for, whatever claims land in between and whichever deposits land
      late: the wallet is out by at most what was missing at the first click, one dollar, and what landed
      after a later call had been sized without it. */
  lemma {:induction false} OutlayOverRuns(usd: real, ws: seq<World>, es: seq<Event>)
    requires IsRun(usd, ws, es)
    ensures Bounded(usd, ws[0].account, ws[|es|])
  {
    if es != [] {
      var n := |es| - 1;
      assert IsRun(usd, ws[..|es|], es[..n]);
      OutlayOverRuns(usd, ws[..|es|], es[..n]);
      assert Next(usd, ws[n], es[n], ws[|es|]);
      hide Most, CallMoney, InFlight;
      match es[n] {
        case Fund(_, _) => FundKeeps(usd, ws[0].account, ws[n], es[n], ws[|es|]);
        case Land(k) => LandKeeps(usd, ws[0].account, ws[n], k);
        case _ =>
      }
    }
  }

  /** No double charge: the wallet is out by at most what was missing at the first click and one dollar, unless
      a deposit landed after a later call had been sized. */
  lemma NoDoubleCharge(usd: real, ws: seq<World>, es: seq<Event>)
    requires IsRun(usd, ws, es)
    ensures ws[|es|].stale == 0 ==> 0 <= ws[|es|].account.spent - ws[0].account.spent <= Most(usd, ws[0].account)
    ensures Kept(ws[0].account, ws[|es|].account)
  {
    OutlayOverRuns(usd, ws, es);
  }

  const ONLY_DEPOSIT := Need(false, true, false, false, false)

  /** And then it can break: two clicks whose deposits are both given up on and both land charge twice, which
      is past the bound exactly when the charge and what was already pending exceed a dollar and the gains. */
  lemma TwoClicksChargeTwice(usd: real, a: Account, r: Reads) returns (ws: seq<World>, es: seq<Event>)
    requires Books(a) && a.isOpen && a.ledger && r.ledger && r.portfolio
    requires Charge(usd, Need(false, false, false, false, false), a, r) > 0
    ensures var c := Charge(usd, Need(false, false, false, false, false), a, r);
      && IsRun(usd, ws, es) && ws[0].account == a && |es| == 4
      && ws[4].account.spent == a.spent + 2 * c && ws[4].stale == c
      && (ws[4].account.spent - a.spent <= Most(usd, a) <==> c + Pending(a) <= DOLLAR + MaxInt(0, a.pnl))
  {
    var c := Charge(usd, Need(false, false, false, false, false), a, r);
    var s := Setup(ONLY_DEPOSIT, c);
    var once, twice := Paying(a, c), Paying(Paying(a, c), c);
    ClickInFlight(usd, a, r);
    LatePays(a, c);
    LatePays(once, c);
    hide Execute, SetupTx, Charge, Late, Round, InFlight, CallMoney;
    ws := [ World(a, map[], 0, 0, 0), World(a, map[0 := s], 1, 1, 0), World(a, map[0 := s, 1 := s], 2, 2, 0),
            World(once, map[1 := s], 2, 2, c), World(twice, map[], 2, 2, c) ];
    es := [Fund(r, Some(s)), Fund(r, Some(s)), Land(0), Land(1)];
    assert ws[2].flying - {0} == map[1 := s] && ws[3].flying - {1} == map[];
    assert Next(usd, ws[0], es[0], ws[1]) && Next(usd, ws[1], es[1], ws[2]);
    assert Next(usd, ws[2], es[2], ws[3]) && Next(usd, ws[3], es[3], ws[4]);
  }

  function Paying(a: Account, x: nat): Account { a.(deposited := a.deposited + x, spent := a.spent + x) }

  lemma LatePays(a: Account, c: nat)
    requires a.ledger && c > 0
    ensures Execute(a, SetupTx(ONLY_DEPOSIT, c)).Some? && Late(a, Setup(ONLY_DEPOSIT, c)) == Paying(a, c)
  {
    SetupEffect(a, ONLY_DEPOSIT, c);
    hide Execute, SetupTx;
  }

  lemma ClickInFlight(usd: real, a: Account, r: Reads)
    requires Books(a) && a.isOpen && a.ledger && r.ledger && r.portfolio
    requires Charge(usd, Need(false, false, false, false, false), a, r) > 0
    ensures var c := Charge(usd, Need(false, false, false, false, false), a, r);
      && c == Round(usd) - a.capital - a.pnl && c >= DOLLAR >= Pending(a)
      && CallMoney(usd, r, a, a) && InFlight(usd, r, a, a, Setup(ONLY_DEPOSIT, c))
  {
    var c := Charge(usd, Need(false, false, false, false, false), a, r);
    RoundWhole(usd, a.capital + a.pnl);
    LatePays(a, c);
    hide Execute, SetupTx, Late;
  }

  /** With no unrealised loss, what was missing is exactly the amount less capital and deposits in flight. */
  lemma FloorWithoutLosses(a: Account)
    ensures a.pnl >= 0 <==> Floor(a) == a.capital + Pending(a)
  {}

  /** What an undisturbed call charges an account it can read: nothing while more than a dollar is pending or
      equity is within a dollar of the amount, and otherwise the amount less equity, so every dollar of
      unrealised loss is charged again. */
  lemma LossIsTopUp(usd: real, asked: Need, a: Account, r: Reads)
    requires r.portfolio && a.isOpen && r.ledger && a.ledger && !asked.open && Books(a)
    ensures Charge(usd, asked, a, r) > 0 <==> Pending(a) <= DOLLAR && usd - (a.capital + a.pnl) as real > DOLLAR as real
    ensures Charge(usd, asked, a, r) > 0 ==> Charge(usd, asked, a, r) == Round(usd) - a.capital - a.pnl
    ensures a.pnl <= 0 && Charge(usd, asked, a.(pnl := 0), r) > 0 ==>
              Charge(usd, asked, a, r) == Charge(usd, asked, a.(pnl := 0), r) - a.pnl
  {
    RoundWhole(usd, a.capital + a.pnl);
    RoundWhole(usd, a.capital);
  }

  /** The bound of a single call on an open account that cannot be read, with at most a dollar ever deposited:
      it holds exactly when there was at most a dollar to overlook, or less than a dollar asked for. */
  lemma UnreadableBoundIff(usd: real, asked: Need, a: Account, r: Reads)
    requires !r.portfolio && r.ledger && a.isOpen && a.ledger && !asked.open && Books(a)
    requires a.deposited <= DOLLAR && usd > DOLLAR as real
    ensures Charge(usd, asked, a, r) == Round(usd)
    ensures Charge(usd, asked, a, r) <= MaxInt(0, Round(usd) - Floor(a)) + DOLLAR <==> Floor(a) <= DOLLAR || Round(usd) <= DOLLAR
    ensures a.capital <= a.claimed ==> Floor(a) <= DOLLAR
  {
    RoundWhole(usd, 0);
  }

  /** The guard against charging twice rests on the ledger answering: an open account with more than
      a dollar in flight is charged again exactly when the ledger read fails and equity falls short. */
  lemma LedgerOutageChargesAgain(usd: real, asked: Need, a: Account, r: Reads)
    requires a.isOpen && a.ledger && Books(a) && !asked.open && Pending(a) > DOLLAR
    ensures Charge(usd, asked, a, r) > 0 <==> !r.ledger && usd - CollateralOf(a, r) as real > DOLLAR as real
  {}

  /** `claim_deposit` is idempotent and conserves: it moves what is pending into capital. */
  lemma ClaimConserves(a: Account)
    ensures a.deposited <= a.claimed ==> Claim(a) == a
    ensures Books(a) ==> var b := Claim(a);
      Pending(b) == 0 && Total(b) == Total(a) && Claim(b) == b && Books(a.(isOpen := true)) && b.spent == a.spent
    ensures Books(a) && a.isOpen ==> Pending(Claimed(a)) == 0 && Claimed(a).capital == a.capital + Pending(a) && Books(Claimed(a))
    ensures !a.isOpen ==> Claimed(a) == a
  {}
}
