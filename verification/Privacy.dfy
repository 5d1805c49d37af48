/** Hiding an account: set-up calls and migrations, any number of each, interleaved at every read
    and every send, with stale flags, failed reads, and sends that fail or land later. */
module Privacy {
  import opened Onboarding

  /** Where a call stands between two awaits. `asked` is what the caller believes is missing. */
  datatype Pc =
    | FundStart(asked: Need)
    | FundSend(asked: Need, permission: bool)
    | MigrateStart
    | MigrateLook
    | MigrateUndelegate
    | MigrateAwaitHome
    | MigratePermit
    | MigrateConfirm
    | MigrateDelegate
    | Ended

  /** `ran` is everything the base layer has executed, instruction by instruction; `flying` are the steps whose
      transaction was sent and given up on, and may still land. */
  datatype World = World(account: Account, calls: map<nat, Pc>, flying: seq<Pc>, ran: seq<Ran>)

  predicate Sends(pc: Pc) { pc.FundSend? || pc.MigratePermit? || pc.MigrateDelegate? }

  /** What the rollup and the network do to one step of a call. */
  datatype Luck = Answered | Failed

  /** `portfolioIsPrivate`: a failed read looks like "no record". */
  function SeesPrivate(a: Account, luck: Luck): bool { luck.Answered? && a.permissioned }

  /** A transaction is sent: it takes effect whole and its instructions run one after the other, or it
      does not happen. */
  ghost predicate Sent(a: Account, tx: seq<Ix>, luck: Luck, a': Account, ran: seq<Ran>) {
    var r := Execute(a, tx);
    if luck.Answered? && r.Some? then a' == r.value && ran == Trace(a, tx) else a' == a && ran == []
  }

  /** One step of one call: its next program counter, the account afterwards and what was run. */
  ghost predicate CallStep(a: Account, pc: Pc, luck: Luck, a': Account, ran: seq<Ran>, pc': Pc) {
    match pc
    case FundStart(need) =>
      a' == a && ran == [] && pc' == FundSend(need, need.delegate && !SeesPrivate(a, luck))
    case FundSend(need, permission) =>
      // Any deposit amount may ride along; only the account flags matter here.
      pc' == Ended && exists atoms: nat :: Sent(a, SetupTx(need.(permission := permission), atoms), luck, a', ran)
    case MigrateStart =>
      a' == a && ran == [] && pc' == (if SeesPrivate(a, luck) then Ended else MigrateLook)
    case MigrateLook =>
      a' == a && ran == [] && pc' == (if luck.Failed? || !a.isOpen then Ended
                                      else if a.delegated then MigrateUndelegate else MigratePermit)
    case MigrateUndelegate =>
      a' == a && ran == [] && pc' == (if luck.Failed? then Ended else MigrateAwaitHome)
    case MigrateAwaitHome =>
      a' == a && ran == []
      && (pc' == (if luck.Answered? && !a.delegated then MigratePermit else MigrateAwaitHome) || pc' == Ended)
    case MigratePermit =>
      Sent(a, [CreatePermission], luck, a', ran) && pc' == (if ran != [] then MigrateConfirm else Ended)
    case MigrateConfirm =>
      a' == a && ran == [] && (pc' == (if SeesPrivate(a, luck) then MigrateDelegate else MigrateConfirm) || pc' == Ended)
    case MigrateDelegate =>
      Sent(a, [DelegatePortfolio], luck, a', ran) && pc' == Ended
    case Ended => a' == a && ran == [] && pc' == Ended
  }

  datatype Event =
    | Call(id: nat, pc: Pc)
    | Run(id: nat, luck: Luck)
    | Land(flight: nat)
    | Claimed
    | CameHome

  /** New calls start at any time; a commit-and-undelegate arrives whenever it arrives; and a transaction whose
      call was told that it failed lands at any later time, or never. */
  ghost predicate Next(w: World, e: Event, w': World) {
    match e
    case Call(id, pc) =>
      (pc.FundStart? || pc.MigrateStart?) && id !in w.calls && w' == w.(calls := w.calls[id := pc])
    case Run(id, luck) =>
      && id in w.calls && id in w'.calls && w'.calls == w.calls[id := w'.calls[id]]
      && w'.flying == w.flying + (if Sends(w.calls[id]) && luck.Failed? then [w.calls[id]] else [])
      && |w.ran| <= |w'.ran| && w'.ran[..|w.ran|] == w.ran
      && CallStep(w.account, w.calls[id], luck, w'.account, w'.ran[|w.ran|..], w'.calls[id])
    case Land(k) =>
      && k < |w.flying| && w' == World(w'.account, w.calls, w.flying[..k] + w.flying[k + 1..], w'.ran)
      && |w.ran| <= |w'.ran| && w'.ran[..|w.ran|] == w.ran
      && exists pc' :: CallStep(w.account, w.flying[k], Answered, w'.account, w'.ran[|w.ran|..], pc')
    case Claimed => w' == w.(account := Claim(w.account))
    case CameHome => w' == w.(account := w.account.(delegated := false))
  }

  /** A read of the permission that fails looks like no record: the call asks for a second one, and the program
      then refuses its whole transaction. */
  lemma FailedReadAsks(a: Account, need: Need, pc': Pc, atoms: nat)
    requires CallStep(a, FundStart(need), Failed, a, [], pc') && need.delegate && a.permissioned
    ensures pc' == FundSend(need, true) && Execute(a, SetupTx(need.(permission := true), atoms)).None?
  {
    SetupEffect(a, need.(permission := true), atoms);
  }

  /** Any of a call's three kinds of transaction may still land after the call was told that it failed. */
  lemma FailedSendFlies(w: World, id: nat, w': World)
    requires Next(w, Run(id, Failed), w')
    requires match w.calls[id] case FundSend(_, _) => true case MigratePermit => true case MigrateDelegate => true case _ => false
    ensures w'.flying == w.flying + [w.calls[id]] && w'.account == w.account && w'.calls[id] == Ended
  {}

  /** What a call is entitled to believe at the point it is about to act on it. */
  ghost predicate Entitled(a: Account, pc: Pc) {
    match pc
    case FundSend(need, permission) => (permission ==> need.delegate) && (need.delegate && !permission ==> a.permissioned)
    case MigratePermit => a.delegated ==> a.permissioned
    case MigrateDelegate => a.permissioned
    case _ => true
  }

  ghost predicate Sound(w: World) {
    && (forall id | id in w.calls :: Entitled(w.account, w.calls[id]))
    && forall pc | pc in w.flying :: Entitled(w.account, pc)
  }

  /** What a call was entitled to believe stays true, however late its transaction lands. */
  lemma StaysEntitled(a: Account, a': Account, pc: Pc)
    requires Entitled(a, pc) && Evolves(a, a')
    ensures Entitled(a', pc)
  {}

  /** What the account's flags may do from one step to the next: nothing takes a permission away, and a
      delegation that appears finds its permission. */
  ghost predicate Evolves(a: Account, a': Account) {
    && (a.permissioned ==> a'.permissioned)
    && (a'.delegated && !a.delegated ==> a'.permissioned)
  }

  /** Instruction by instruction: permissions only on accounts at home, delegation only of hidden ones. */
  ghost predicate RunsHidden(ran: seq<Ran>) { HidesFirst(ran) && DelegatesHidden(ran) }

  lemma CallEvolves(a: Account, pc: Pc, luck: Luck, a': Account, ran: seq<Ran>, pc': Pc)
    requires Entitled(a, pc) && CallStep(a, pc, luck, a', ran, pc')
    ensures Evolves(a, a') && Entitled(a', pc') && RunsHidden(ran)
  {
    match pc {
      case FundSend(need, permission) =>
        var asked := need.(permission := permission);
        var atoms: nat :| Sent(a, SetupTx(asked, atoms), luck, a', ran);
        SetupEffect(a, asked, atoms);
        if Execute(a, SetupTx(asked, atoms)).Some? { SetupHidesFirst(a, asked, atoms); }
      case MigratePermit => One(a, CreatePermission);
      case MigrateDelegate => One(a, DelegatePortfolio);
      case _ =>
    }
  }

  /** One step of the world: whatever it runs, no instruction permissions a delegated account and none
      delegates an account that is not hidden. */
  lemma StepEvolves(w: World, e: Event, w': World)
    requires Sound(w) && RunsHidden(w.ran) && Next(w, e, w')
    ensures Sound(w') && RunsHidden(w'.ran) && Evolves(w.account, w'.account)
  {
    match e {
      case Run(id, luck) =>
        RunEvolves(w, w.calls[id], luck, w', w'.calls[id]);
        assert forall pc | pc in w'.flying :: pc in w.flying || pc == w.calls[id];
      case Land(k) =>
        var pc' :| CallStep(w.account, w.flying[k], Answered, w'.account, w'.ran[|w.ran|..], pc');
        RunEvolves(w, w.flying[k], Answered, w', pc');
        assert forall pc | pc in w'.flying :: pc in w.flying;
      case _ =>
    }
    hide Entitled, RunsHidden;
    forall k | k in w'.calls ensures Entitled(w'.account, w'.calls[k]) {
      if k in w.calls && w'.calls[k] == w.calls[k] { StaysEntitled(w.account, w'.account, w.calls[k]); }
    }
    forall pc | pc in w'.flying ensures Entitled(w'.account, pc) {
      StaysEntitled(w.account, w'.account, pc);
    }
  }

  lemma RunEvolves(w: World, pc: Pc, luck: Luck, w': World, pc': Pc)
    requires Entitled(w.account, pc) && RunsHidden(w.ran) && |w.ran| <= |w'.ran| && w'.ran[..|w.ran|] == w.ran
    requires CallStep(w.account, pc, luck, w'.account, w'.ran[|w.ran|..], pc')
    ensures Evolves(w.account, w'.account) && Entitled(w'.account, pc') && RunsHidden(w'.ran)
  {
    var ran := w'.ran[|w.ran|..];
    CallEvolves(w.account, pc, luck, w'.account, ran, pc');
    assert w'.ran == w.ran + ran;
    hide CallStep, Entitled;
    JoinTraces(w.ran, ran);
  }

  ghost predicate IsRun(ws: seq<World>, es: seq<Event>) {
    && |ws| == |es| + 1 && ws[0].calls == map[] && ws[0].flying == [] && ws[0].ran == []
    && forall i | 0 <= i < |es| :: Next(ws[i], es[i], ws[i + 1])
  }

  /** In every interleaving, late landings included, from any account whatever: every permission that is ever created is created,
      at that very instruction, on an account that is not delegated, and every delegation is of an
      account that carries its permission by then. */
  lemma {:induction false} NeverPermissionedAfterDelegation(ws: seq<World>, es: seq<Event>)
    requires IsRun(ws, es)
    ensures HidesFirst(ws[|es|].ran) && DelegatesHidden(ws[|es|].ran)
    ensures forall i | 0 <= i < |es| :: Evolves(ws[i].account, ws[i + 1].account)
    ensures Sound(ws[|es|])
  {
    if es != [] {
      var n := |es| - 1;
      assert IsRun(ws[..|es|], es[..n]);
      NeverPermissionedAfterDelegation(ws[..|es|], es[..n]);
      forall i | 0 <= i < n ensures Evolves(ws[i].account, ws[i + 1].account) {
        assert Evolves(ws[..|es|][i].account, ws[..|es|][i + 1].account);
      }
      StepEvolves(ws[n], es[n], ws[|es|]);
    }
  }

  /** Starting from an account that is not a legacy one, delegated always means permissioned. */
  lemma {:induction false} DelegatedMeansHidden(ws: seq<World>, es: seq<Event>, n: nat)
    requires IsRun(ws, es) && n <= |es|
    requires ws[0].account.delegated ==> ws[0].account.permissioned
    ensures ws[n].account.delegated ==> ws[n].account.permissioned
  {
    NeverPermissionedAfterDelegation(ws, es);
    if n > 0 {
      DelegatedMeansHidden(ws, es, n - 1);
      assert Evolves(ws[n - 1].account, ws[n].account);
    }
  }

  /** What a call may believe when it sends is what makes its set-up hide first; with the two instructions
      swapped the same call would land the same account and break that exactly when it both hides
      and delegates. */
  lemma OrderMatters(a: Account, need: Need, permission: bool, atoms: nat)
    requires Entitled(a, FundSend(need, permission))
    requires Execute(a, SetupTx(need.(permission := permission), atoms)).Some?
    ensures RunsHidden(Trace(a, SetupTx(need.(permission := permission), atoms)))
    ensures Execute(a, SwappedTx(need.(permission := permission), atoms)) == Execute(a, SetupTx(need.(permission := permission), atoms))
    ensures RunsHidden(Trace(a, SwappedTx(need.(permission := permission), atoms))) <==> !permission || !need.delegate
  {
    SetupHidesFirst(a, need.(permission := permission), atoms);
    SwappedHidesLast(a, need.(permission := permission), atoms);
    hide Execute, Trace, SetupTx, SwappedTx, HidesFirst, DelegatesHidden;
  }
}
