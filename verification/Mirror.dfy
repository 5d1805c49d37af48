/** Standing a trader's order mirror up: four steps on two layers, run by any number of keepers at
    once, any of which may fail, crash or be told nothing at any point. */
module Mirror {
  import opened Prelude

  /** What the layers hold, and how often each base-layer step has taken effect. */
  datatype Chain = Chain(created: nat, permissioned: nat, delegated: nat, hidden: bool)

  /** Create, then permission, then delegate, each at most once; hidden only inside the rollup. */
  ghost predicate Ordered(c: Chain) {
    && c.delegated <= c.permissioned <= c.created <= 1
    && (c.hidden ==> c.delegated == 1)
  }

  /** Everything any run ever does: flags only go up, in order. */
  ghost predicate Forward(c: Chain, d: Chain) {
    && Ordered(d)
    && c.created <= d.created && c.permissioned <= d.permissioned && c.delegated <= d.delegated
    && (c.hidden ==> d.hidden)
  }

  ghost predicate Complete(c: Chain) { c.created == 1 && c.permissioned == 1 && c.delegated == 1 && c.hidden }

  /** Whether this run's reads and sends may go wrong, which of its reads come back empty, which of its sends are
      dropped and which are reported as failed if so, and whether other runs are under way. */
  datatype World = World(faulty: bool, alone: bool, lost: nat -> bool, dropped: Send -> bool, unheard: Send -> bool)

  datatype Send = Initialize | Permission | Delegate | Hide

  /** The programs' own guards: none of them knows about the step before it except delegation, which
      needs an account to delegate, and hiding, which happens where the account was delegated to. */
  function Effect(c: Chain, s: Send): Option<Chain> {
    match s
    case Initialize => if c.created > 0 then None else Some(c.(created := c.created + 1))
    case Permission => if c.permissioned > 0 then None else Some(c.(permissioned := c.permissioned + 1))
    case Delegate => if c.created == 0 || c.delegated > 0 then None else Some(c.(delegated := c.delegated + 1))
    case Hide => if c.delegated == 0 || c.hidden then None else Some(c.(hidden := true))
  }

  class Layers {
    var chain: Chain

    constructor ()
      ensures chain == Chain(0, 0, 0, false)
    {
      chain := Chain(0, 0, 0, false);
    }

    /** Other runs move on between any two awaits. */
    method Others(w: World)
      requires Ordered(chain)
      modifies this
      ensures Forward(old(chain), chain)
      ensures w.alone ==> chain == old(chain)
    {
      var moved: Chain := *;
      var moves: bool := *;
      var ok := Follows(chain, moved);
      if !w.alone && moves && ok { chain := moved; }
    }

    /** A read answers, or comes back empty. */
    method Exists(flag: bool, w: World, k: nat) returns (found: bool)
      ensures found <==> flag && !(w.faulty && w.lost(k))
    {
      found := flag && !(w.faulty && w.lost(k));
    }

    /** A send is lost, is refused, or lands; one that lands may still be reported as failed. */
    method SendTx(s: Send, w: World) returns (ok: bool)
      modifies this
      ensures chain == old(chain) || Effect(old(chain), s) == Some(chain)
      ensures Effect(old(chain), s) == Some(chain) <==> Effect(old(chain), s).Some? && !(w.faulty && w.dropped(s))
      ensures ok <==> Effect(old(chain), s) == Some(chain) && !(w.faulty && w.unheard(s))
    {
      var e := Effect(chain, s);
      ok := false;
      if e.Some? && !(w.faulty && w.dropped(s)) {
        chain := e.value;
        ok := !(w.faulty && w.unheard(s));
      }
    }

    /** The first half of `provisionMirror`: the account and its permission, each made only where it is
        missing; a failed send ends the run. */
    method Prepare(w: World) returns (ok: bool)
      requires Ordered(chain)
      modifies this
      ensures Forward(old(chain), chain)
      ensures ok ==> chain.permissioned == 1
      ensures w.alone ==> chain.delegated == old(chain).delegated && chain.hidden == old(chain).hidden
      ensures w.alone && w.faulty && old(chain).created == 0 && w.unheard(Initialize) ==> !ok && chain.permissioned == 0
      ensures w.alone && w.faulty && old(chain).permissioned == 0 && w.unheard(Permission) ==> !ok
      ensures !w.faulty && w.alone ==> ok
    {
      var found := Exists(chain.created > 0, w, 0);
      if !found {
        Others(w);
        ok := SendTx(Initialize, w);
        if !ok { return; }
      }
      Others(w);
      found := Exists(chain.permissioned > 0, w, 1);
      if !found {
        Others(w);
        ok := SendTx(Permission, w);
        if !ok { return; }
      }
      ok := true;
    }

    /** `provisionMirror`: delegation follows the permission, and hiding follows delegation. */
    method ProvisionMirror(w: World) returns (finished: bool)
      requires Ordered(chain)
      modifies this
      ensures Forward(old(chain), chain)
      ensures finished && !w.faulty ==> chain == Chain(1, 1, 1, true)
      ensures !w.faulty && w.alone ==> finished
      // A run that does not see the account on base layer does not delegate it.
      ensures w.faulty && w.alone && w.lost(2) ==> chain.delegated == old(chain).delegated
      // A send that came back as failed ends the run, whether or not it took effect.
      ensures w.faulty && w.alone && old(chain).created == 0 && w.unheard(Initialize) ==> !finished && chain.permissioned == 0
      ensures w.faulty && w.alone && old(chain).permissioned == 0 && w.unheard(Permission) ==> !finished && chain.delegated == 0
      ensures w.faulty && w.alone && old(chain).delegated == 0 && w.unheard(Delegate) ==> !finished && !chain.hidden
      ensures w.faulty && w.alone && !old(chain).hidden && w.unheard(Hide) ==> !finished
    {
      finished := false;
      var prepared := Prepare(w);
      if !prepared { return; }
      Others(w);
      var onBase := Exists(chain.created > 0, w, 2);
      if onBase && chain.delegated == 0 {
        Others(w);
        var ok := SendTx(Delegate, w);
        if !ok { return; }
      }
      Others(w);
      var found := Exists(chain.hidden, w, 3);
      if !found {
        Others(w);
        var ok := SendTx(Hide, w);
        if !ok { return; }
      }
      finished := true;
    }

    /** However many runs it takes, and whatever went wrong in each, the steps stay in order and happen
        at most once; one undisturbed run from wherever that left things finishes the job. */
    method Retry(faults: seq<World>)
      requires Ordered(chain)
      modifies this
      ensures chain == Chain(1, 1, 1, true) && Forward(old(chain), chain)
    {
      for i := 0 to |faults|
        invariant Ordered(chain) && Forward(old(chain), chain)
      {
        var finished := ProvisionMirror(faults[i]);
      }
      var finished := ProvisionMirror(World(false, true, _ => false, _ => false, _ => false));
    }
  }

  /** Other runs are runs of the same program. */
  method Follows(c: Chain, d: Chain) returns (ok: bool)
    ensures ok <==> Forward(c, d)
  {
    ok := d.delegated <= d.permissioned && d.permissioned <= d.created && d.created <= 1
          && (d.hidden ==> d.delegated == 1)
          && c.created <= d.created && c.permissioned <= d.permissioned && c.delegated <= d.delegated
          && (c.hidden ==> d.hidden);
  }

  /** Each program's own refusals. */
  lemma RefusedIff(c: Chain)
    ensures Effect(c, Initialize).None? <==> c.created > 0
    ensures Effect(c, Permission).None? <==> c.permissioned > 0
    ensures Effect(c, Delegate).None? <==> c.created == 0 || c.delegated > 0
    ensures Effect(c, Hide).None? <==> c.delegated == 0 || c.hidden
  {}

  /** Without the guards' order the programs alone would not give this: they permission an account
      that is already delegated. Only the keeper's sequence keeps the two apart. */
  lemma GuardsAloneDoNotOrder()
    ensures var c := Chain(1, 0, 0, false);
      && Ordered(c) && Effect(c, Delegate).Some? && !Ordered(Effect(c, Delegate).value)
      && Effect(Effect(c, Delegate).value, Permission).Some?
  {}

  // ── any number of runs at once ────────────────────────────────────────────

  /** Where a run stands between two awaits: about to look, or about to send what it saw missing. */
  datatype Pc =
    | LookAccount
    | MakeAccount
    | LookPermission
    | MakePermission
    | LookHome
    | MakeDelegation
    | LookRollup
    | MakeHidden
    | Over

  datatype System = System(chain: Chain, runs: map<nat, Pc>)

  datatype Event = Start(id: nat) | Step(id: nat) | Crash(id: nat)

  /** A send is lost, refused or lands; only one that is known to have landed lets the run go on. */
  ghost predicate Sends(c: Chain, s: Send, next: Pc, c': Chain, pc': Pc) {
    (c' == c && pc' == Over) || (Effect(c, s) == Some(c') && (pc' == next || pc' == Over))
  }

  /** One uninterrupted stretch of a run. A look may always come back empty. */
  ghost predicate RunStep(c: Chain, pc: Pc, c': Chain, pc': Pc) {
    match pc
    case LookAccount => c' == c && (pc' == MakeAccount || (c.created > 0 && pc' == LookPermission))
    case MakeAccount => Sends(c, Initialize, LookPermission, c', pc')
    case LookPermission => c' == c && (pc' == MakePermission || (c.permissioned > 0 && pc' == LookHome))
    case MakePermission => Sends(c, Permission, LookHome, c', pc')
    case LookHome => c' == c && (pc' == LookRollup || (c.created > 0 && c.delegated == 0 && pc' == MakeDelegation))
    case MakeDelegation => Sends(c, Delegate, LookRollup, c', pc')
    case LookRollup => c' == c && (pc' == MakeHidden || (c.hidden && pc' == Over))
    case MakeHidden => Sends(c, Hide, Over, c', pc')
    case Over => c' == c && pc' == Over
  }

  ghost predicate Next(s: System, e: Event, s': System) {
    match e
    case Start(id) => id !in s.runs && s' == s.(runs := s.runs[id := LookAccount])
    case Crash(id) => id in s.runs && s' == s.(runs := s.runs[id := Over])
    case Step(id) =>
      && id in s.runs && id in s'.runs && s'.runs == s.runs[id := s'.runs[id]]
      && RunStep(s.chain, s.runs[id], s'.chain, s'.runs[id])
  }

  /** What a run has learned by the time it gets somewhere, and what nobody can undo. */
  ghost predicate Knows(c: Chain, pc: Pc) {
    && (pc.LookPermission? || pc.MakePermission? ==> c.created == 1)
    && (pc.LookHome? || pc.MakeDelegation? || pc.LookRollup? || pc.MakeHidden? ==> c.permissioned == 1)
  }

  ghost predicate Sound(s: System) {
    Ordered(s.chain) && forall id | id in s.runs :: Knows(s.chain, s.runs[id])
  }

  /** Every single step of a run moves the marks forward in order: what one run guarantees at each step is
      what it relies on all the others for. */
  lemma StepIsForward(s: System, e: Event, s': System)
    requires Sound(s) && Next(s, e, s')
    ensures Sound(s') && Forward(s.chain, s'.chain)
  {
    forall id | id in s'.runs ensures Knows(s'.chain, s'.runs[id]) {
      if id in s.runs { assert Knows(s.chain, s.runs[id]); }
    }
  }

  /** Forward moves compose. */
  lemma ForwardComposes(c: Chain, d: Chain, e: Chain)
    requires Forward(c, d) && Forward(d, e)
    ensures Forward(c, e)
    ensures Ordered(c) ==> Forward(c, c)
  {}

  ghost predicate IsRun(ss: seq<System>, es: seq<Event>) {
    && |ss| == |es| + 1 && Ordered(ss[0].chain) && ss[0].runs == map[]
    && forall i | 0 <= i < |es| :: Next(ss[i], es[i], ss[i + 1])
  }

  /** Any number of runs, interleaved at every await, with crashes, lost sends and empty reads anywhere:
      from any point to any later one each step has taken effect at most once, in order, and nothing is
      undone. In particular what is delegated is permissioned. */
  lemma {:induction false} ManyRunsGoForward(ss: seq<System>, es: seq<Event>, i: nat)
    requires IsRun(ss, es) && i <= |es|
    ensures Sound(ss[|es|]) && Forward(ss[i].chain, ss[|es|].chain)
    ensures ss[|es|].chain.delegated > 0 ==> ss[|es|].chain.permissioned == 1
    decreases |es|
  {
    if es != [] {
      var n := |es| - 1;
      assert IsRun(ss[..|es|], es[..n]);
      ManyRunsGoForward(ss[..|es|], es[..n], if i <= n then i else n);
      assert Next(ss[n], es[n], ss[|es|]);
      StepIsForward(ss[n], es[n], ss[|es|]);
      hide Forward, Sound, IsRun;
      if i <= n { ForwardComposes(ss[i].chain, ss[n].chain, ss[|es|].chain); }
    }
  }
}
