/**
Building the kernel once per process (engine-py/python/rust_orm_shim.py): every routed read of every
thread first asks for the kernel, and whoever finds none builds it behind a double-checked lock that is
not reentrant, while the factory itself may read again on the building thread.
*/
module BuildSteps {
  import opened Wrappers

  /** A build succeeds, finds the registry still loading, or fails for good. */
  datatype Outcome = Built | Incomplete | Failed

  /** The module's globals.  `loading` identifies the registry and the models it holds so far. */
  datatype Globals = Globals(
    armed: bool,
    kernel: bool,
    tried: bool,
    incomplete: Option<int>,
    loading: int,
    holder: Option<nat>,
    building: Option<nat>,
    builds: nat,
    failures: nat)

  /** Where a read stands: each constructor is the statement it executes next. */
  datatype Pc =
    | Idle
    | CheckKernel
    | CheckFactory
    | CheckTried
    | CheckLoading
    | CheckHere(loading: int)
    | Acquire(loading: int)
    | RecheckKernel(loading: int)
    | RecheckTried(loading: int)
    | EnterBuilding(loading: int)
    | InFactory(loading: int, previous: Option<nat>)
    | LeaveBuilding(loading: int, previous: Option<nat>, outcome: Outcome)
    | Record(loading: int, outcome: Outcome)
    | Release(pending: Option<bool>)
    | ReadKernel
    | Done(result: bool)

  predicate CanMove(g: Globals, pc: Pc)
  {
    !pc.Idle? && !pc.Done? && (pc.Acquire? ==> g.holder.None?)
  }

  /** One statement of thread `me`; `outcome` is what the factory does. */
  function Move(g: Globals, me: nat, pc: Pc, outcome: Outcome): (Globals, Pc)
    requires CanMove(g, pc)
  {
    match pc
    case CheckKernel => (g, if g.kernel then Done(true) else CheckFactory)
    case CheckFactory => (g, if !g.armed then Done(false) else CheckTried)
    case CheckTried => (g, if g.tried then Done(false) else CheckLoading)
    case CheckLoading => (g, if g.incomplete == Some(g.loading) then Done(false) else CheckHere(g.loading))
    case CheckHere(l) => (g, if g.building == Some(me) then Done(false) else Acquire(l))
    case Acquire(l) => (g.(holder := Some(me)), RecheckKernel(l))
    case RecheckKernel(l) => (g, if g.kernel then Release(Some(true)) else RecheckTried(l))
    case RecheckTried(l) => (g, if g.tried then Release(Some(false)) else EnterBuilding(l))
    case EnterBuilding(l) => (g.(building := Some(me)), InFactory(l, g.building))
    case InFactory(l, previous) =>
      (if outcome.Built? then g.(kernel := true, builds := g.builds + 1) else g, LeaveBuilding(l, previous, outcome))
    case LeaveBuilding(l, previous, out) => (g.(building := previous), Record(l, out))
    case Record(l, out) =>
      (match out
       case Built => (g, Release(None))
       case Incomplete => (g.(incomplete := Some(l)), Release(Some(false)))
       case Failed => (g.(tried := true, failures := g.failures + 1), Release(Some(false))))
    case Release(pending) =>
      (g.(holder := None), match pending case None => ReadKernel case Some(r) => Done(r))
    case ReadKernel => (g, Done(g.kernel))
  }

  /** The whole function for one thread, which finds the globals as `meanwhile`, whatever the other
      threads did to them, once it has waited for the lock. */
  function Alone(g: Globals, me: nat, meanwhile: Globals, outcome: Outcome): (Globals, bool)
  {
    if g.kernel then (g, true)
    else if !g.armed || g.tried || g.incomplete == Some(g.loading) || g.building == Some(me) then (g, false)
    else Locked(meanwhile.(holder := None), g.loading, outcome)
  }

  /** The part under the lock: check again, and build. */
  function Locked(g: Globals, loading: int, outcome: Outcome): (Globals, bool)
  {
    if g.kernel then (g, true)
    else if g.tried then (g, false)
    else
      match outcome
      case Built => (g.(kernel := true, builds := g.builds + 1), true)
      case Incomplete => (g.(incomplete := Some(loading)), false)
      case Failed => (g.(tried := true, failures := g.failures + 1), false)
  }

  function MoveOn(g: Globals, me: nat, pc: Pc, outcome: Outcome, steps: nat): (Globals, Pc)
    decreases steps
  {
    if steps == 0 || !CanMove(g, pc) then (g, pc)
    else
      var (g', pc') := Move(g, me, pc, outcome);
      MoveOn(g', me, pc', outcome, steps - 1)
  }

  /** The statements one by one have exactly the effect of the function, and never stop short of an
      answer: five before the lock and at most nine from there. */
  lemma AloneIsMoves(g: Globals, me: nat, meanwhile: Globals, outcome: Outcome)
    ensures var (g1, p1) := MoveOn(g, me, CheckKernel, outcome, 5);
            var g2 := if p1.Acquire? then meanwhile.(holder := None) else g1;
            var (g', result) := Alone(g, me, meanwhile, outcome);
            MoveOn(g2, me, p1, outcome, 9) == (g', Done(result))
  {
    var (g1, p1) := MoveOn(g, me, CheckKernel, outcome, 5);
    BeforeTheLock(g, me, outcome);
    if p1.Acquire? {
      LockedIsMoves(meanwhile.(holder := None), me, p1.loading, outcome);
    }
  }

  lemma LockedIsMoves(g: Globals, me: nat, loading: int, outcome: Outcome)
    requires g.holder.None?
    ensures var (g', result) := Locked(g, loading, outcome);
            MoveOn(g, me, Acquire(loading), outcome, 9) == (g', Done(result))
  {
    if g.kernel || g.tried {
      TurnedAway(g, me, loading, outcome);
    } else {
      var inside := g.(holder := Some(me), building := Some(me));
      MovesAdd(g, me, Acquire(loading), outcome, 4, 5);
      UnderTheLock(g, me, loading, outcome);
      InsideTheBuild(inside, me, loading, g.building, outcome);
    }
  }

  lemma TurnedAway(g: Globals, me: nat, loading: int, outcome: Outcome)
    requires g.holder.None? && (g.kernel || g.tried)
    ensures MoveOn(g, me, Acquire(loading), outcome, 9) == (g, Done(g.kernel))
  {
    var h := g.(holder := Some(me));
    assert MoveOn(g, me, Acquire(loading), outcome, 9) == MoveOn(h, me, RecheckKernel(loading), outcome, 8);
    if g.kernel {
      assert MoveOn(h, me, RecheckKernel(loading), outcome, 8) == MoveOn(h, me, Release(Some(true)), outcome, 7);
    } else {
      assert MoveOn(h, me, RecheckKernel(loading), outcome, 8) == MoveOn(h, me, RecheckTried(loading), outcome, 7);
      assert MoveOn(h, me, RecheckTried(loading), outcome, 7) == MoveOn(h, me, Release(Some(false)), outcome, 6);
    }
  }

  lemma BeforeTheLock(g: Globals, me: nat, outcome: Outcome)
    ensures MoveOn(g, me, CheckKernel, outcome, 5) ==
            (g, if g.kernel || !g.armed || g.tried || g.incomplete == Some(g.loading) || g.building == Some(me)
                then Done(g.kernel) else Acquire(g.loading))
  {
    assert MoveOn(g, me, CheckKernel, outcome, 5) ==
           if g.kernel then (g, Done(true)) else MoveOn(g, me, CheckFactory, outcome, 4);
    assert MoveOn(g, me, CheckTried, outcome, 3) ==
           if g.tried then (g, Done(false)) else MoveOn(g, me, CheckLoading, outcome, 2);
  }

  lemma UnderTheLock(g: Globals, me: nat, loading: int, outcome: Outcome)
    requires g.holder.None? && !g.kernel && !g.tried
    ensures MoveOn(g, me, Acquire(loading), outcome, 4) ==
            (g.(holder := Some(me), building := Some(me)), InFactory(loading, g.building))
  {
    assert MoveOn(g, me, Acquire(loading), outcome, 4) == MoveOn(g.(holder := Some(me)), me, RecheckKernel(loading), outcome, 3);
    assert MoveOn(g.(holder := Some(me)), me, RecheckKernel(loading), outcome, 3)
        == MoveOn(g.(holder := Some(me)), me, RecheckTried(loading), outcome, 2);
  }

  lemma InsideTheBuild(g: Globals, me: nat, loading: int, previous: Option<nat>, outcome: Outcome)
    ensures MoveOn(g, me, InFactory(loading, previous), outcome, 5) ==
            var after := g.(building := previous, holder := None);
            match outcome
            case Built => (after.(kernel := true, builds := g.builds + 1), Done(true))
            case Incomplete => (after.(incomplete := Some(loading)), Done(false))
            case Failed => (after.(tried := true, failures := g.failures + 1), Done(false))
  {
    var g1 := if outcome.Built? then g.(kernel := true, builds := g.builds + 1) else g;
    var g2 := g1.(building := previous);
    assert MoveOn(g, me, InFactory(loading, previous), outcome, 5) == MoveOn(g1, me, LeaveBuilding(loading, previous, outcome), outcome, 4);
    assert MoveOn(g1, me, LeaveBuilding(loading, previous, outcome), outcome, 4) == MoveOn(g2, me, Record(loading, outcome), outcome, 3);
    var (g3, p3) := Move(g2, me, Record(loading, outcome), outcome);
    assert MoveOn(g2, me, Record(loading, outcome), outcome, 3) == MoveOn(g3, me, p3, outcome, 2);
  }

  lemma {:induction false} MovesAdd(g: Globals, me: nat, pc: Pc, outcome: Outcome, m: nat, n: nat)
    ensures var (g', pc') := MoveOn(g, me, pc, outcome, m);
            MoveOn(g, me, pc, outcome, m + n) == MoveOn(g', me, pc', outcome, n)
    decreases m
  {
    if m > 0 && CanMove(g, pc) {
      var (g', pc') := Move(g, me, pc, outcome);
      MovesAdd(g', me, pc', outcome, m - 1, n);
    }
  }

  /** The globals of one process. */
  class Process {
    var armed: bool
    var kernel: bool
    var tried: bool
    var incomplete: Option<int>
    var loading: int
    var holder: Option<nat>
    var building: Option<nat>
    var builds: nat
    var failures: nat

    function Now(): Globals
      reads this
    {
      Globals(armed, kernel, tried, incomplete, loading, holder, building, builds, failures)
    }

    constructor (loading: int)
      ensures Now() == Fresh(loading)
    {
      armed, kernel, tried, incomplete, this.loading := false, false, false, None, loading;
      holder, building, builds, failures := None, None, 0, 0;
    }

    /** The other threads may do anything before this one has the lock. */
    method WaitForLock(me: nat, meanwhile: Globals)
      modifies this
      ensures Now() == meanwhile.(holder := Some(me))
    {
      armed, kernel, tried, incomplete := meanwhile.armed, meanwhile.kernel, meanwhile.tried, meanwhile.incomplete;
      loading, building := meanwhile.loading, meanwhile.building;
      builds, failures := meanwhile.builds, meanwhile.failures;
      holder := Some(me);
    }

    /** Whether a kernel is available, building it if this read is the first that can. */
    method InitializeIfReady(me: nat, meanwhile: Globals, outcome: Outcome) returns (available: bool)
      modifies this
      ensures Now() == Alone(old(Now()), me, meanwhile, outcome).0
      ensures available == Alone(old(Now()), me, meanwhile, outcome).1
      ensures old(kernel) ==> available && Now() == old(Now())
      ensures !old(kernel) && (!old(armed) || old(tried) || old(incomplete) == Some(old(loading)) || old(building) == Some(me)) ==>
                !available && Now() == old(Now())
      ensures !old(kernel) && old(armed) && !old(tried) && old(incomplete) != Some(old(loading)) && old(building) != Some(me) ==>
                var m := meanwhile.(holder := None);
                && (available <==> m.kernel || (!m.tried && outcome == Built))
                && Now() == if m.kernel || m.tried then m
                            else match outcome
                                 case Built => m.(kernel := true, builds := m.builds + 1)
                                 case Incomplete => m.(incomplete := Some(old(loading)))
                                 case Failed => m.(tried := true, failures := m.failures + 1)
    {
      if kernel {
        return true;
      }
      if !armed {
        return false;
      }
      if tried {
        return false;
      }
      var now := loading;
      if incomplete == Some(now) {
        return false;
      }
      if building == Some(me) {
        return false;
      }
      WaitForLock(me, meanwhile);
      if kernel {
        holder := None;
        return true;
      }
      if tried {
        holder := None;
        return false;
      }
      var previous := building;
      building := Some(me);
      if outcome.Built? {
        kernel, builds := true, builds + 1;
      }
      building := previous;
      match outcome {
        case Built =>
        case Incomplete =>
          incomplete := Some(now);
          holder := None;
          return false;
        case Failed =>
          tried, failures := true, failures + 1;
          holder := None;
          return false;
      }
      holder := None;
      return kernel;
    }
  }

  function Fresh(loading: int): Globals
  {
    Globals(false, false, false, None, loading, None, None, 0, 0)
  }
}

module BuildProtocol {
  import opened BuildSteps
  import opened Wrappers

  /** A thread with the read it executes and, while that one is in the factory, a read the factory
      makes on the same thread. */
  datatype Thread = Thread(outer: Pc, inner: Pc)

  datatype State = State(g: Globals, threads: map<nat, Thread>)

  datatype Action =
    | Begin(t: nat)
    | Act(t: nat, outcome: Outcome)
    | Return(t: nat)
    | Load(loading: int)
    | Arm

  function Top(th: Thread): Pc
  {
    if th.inner.Idle? then th.outer else th.inner
  }

  function WithTop(th: Thread, pc: Pc): Thread
  {
    if th.inner.Idle? then Thread(pc, Idle) else Thread(th.outer, pc)
  }

  predicate Enabled(s: State, a: Action)
  {
    match a
    case Begin(t) => t in s.threads && s.threads[t].inner.Idle? && (s.threads[t].outer.Idle? || s.threads[t].outer.InFactory?)
    case Act(t, _) => t in s.threads && CanMove(s.g, Top(s.threads[t]))
    case Return(t) => t in s.threads && Top(s.threads[t]).Done?
    case Load(_) => true
    case Arm => true
  }

  function Apply(s: State, a: Action): State
    requires Enabled(s, a)
  {
    match a
    case Begin(t) =>
      var th := s.threads[t];
      s.(threads := s.threads[t := if th.outer.Idle? then Thread(CheckKernel, Idle) else Thread(th.outer, CheckKernel)])
    case Act(t, outcome) =>
      var th := s.threads[t];
      var (g', pc') := Move(s.g, t, Top(th), outcome);
      State(g', s.threads[t := WithTop(th, pc')])
    case Return(t) => s.(threads := s.threads[t := WithTop(s.threads[t], Idle)])
    case Load(loading) => s.(g := s.g.(loading := loading))
    case Arm => s.(g := s.g.(armed := true))
  }

  predicate Legal(s: State, actions: seq<Action>)
    decreases |actions|
  {
    actions == [] || (Enabled(s, actions[0]) && Legal(Apply(s, actions[0]), actions[1..]))
  }

  function After(s: State, actions: seq<Action>): State
    requires Legal(s, actions)
    decreases |actions|
  {
    if actions == [] then s else After(Apply(s, actions[0]), actions[1..])
  }

  // ----- the invariant ---------------------------------------------------------------------------------------------

  predicate HoldsLock(pc: Pc)
  {
    pc.RecheckKernel? || pc.RecheckTried? || pc.EnterBuilding? || pc.InFactory? || pc.LeaveBuilding? || pc.Record? || pc.Release?
  }

  predicate Building(pc: Pc)
  {
    pc.InFactory? || pc.LeaveBuilding?
  }

  /** What a statement may rely on when it is reached. */
  predicate Knows(g: Globals, pc: Pc)
  {
    match pc
    case RecheckTried(_) => !g.kernel
    case EnterBuilding(_) => !g.kernel && !g.tried
    case InFactory(_, previous) => !g.kernel && !g.tried && previous == None
    case LeaveBuilding(_, previous, outcome) => previous == None && (if outcome.Built? then g.kernel else !g.kernel && !g.tried)
    case Record(_, outcome) => if outcome.Built? then g.kernel else !g.kernel && !g.tried
    case Release(pending) => pending == Some(true) ==> g.kernel
    case Done(result) => result ==> g.kernel
    case _ => true
  }

  predicate ThreadInv(g: Globals, t: nat, th: Thread)
  {
    && (HoldsLock(th.outer) <==> g.holder == Some(t))
    && (Building(th.outer) <==> g.building == Some(t))
    && (!th.inner.Idle? ==> th.outer.InFactory?)
    && !HoldsLock(th.inner) && !th.inner.Acquire? && !th.inner.ReadKernel?
    && Knows(g, th.outer) && Knows(g, th.inner)
  }

  predicate CountInv(g: Globals)
  {
    && g.builds == (if g.kernel then 1 else 0)
    && g.failures == (if g.tried then 1 else 0)
    && !(g.kernel && g.tried)
  }

  ghost predicate Inv(s: State)
  {
    && CountInv(s.g)
    && (s.g.holder.Some? ==> s.g.holder.value in s.threads)
    && (s.g.building.Some? ==> s.g.building.value in s.threads)
    && (forall t :: t in s.threads ==> ThreadInv(s.g, t, s.threads[t]))
  }

  /** Nobody else builds or holds the lock while `t` holds it. */
  lemma HolderBuilds(s: State, t: nat)
    requires Inv(s) && t in s.threads && HoldsLock(s.threads[t].outer)
    ensures s.g.building == None || s.g.building == Some(t)
  {
    if s.g.building.Some? {
      var u := s.g.building.value;
      assert ThreadInv(s.g, u, s.threads[u]) && ThreadInv(s.g, t, s.threads[t]);
    }
  }

  lemma HolderKeeps(s: State, t: nat, outcome: Outcome)
    requires Inv(s) && Enabled(s, Act(t, outcome)) && HoldsLock(s.threads[t].outer) && s.threads[t].inner.Idle?
    ensures var s' := Apply(s, Act(t, outcome));
            ThreadInv(s'.g, t, s'.threads[t]) && CountInv(s'.g)
  {
    assert ThreadInv(s.g, t, s.threads[t]);
    HolderBuilds(s, t);
  }

  lemma VisitorKeeps(s: State, t: nat, outcome: Outcome)
    requires Inv(s) && Enabled(s, Act(t, outcome)) && (!HoldsLock(s.threads[t].outer) || !s.threads[t].inner.Idle?)
    ensures var s' := Apply(s, Act(t, outcome));
            ThreadInv(s'.g, t, s'.threads[t]) && CountInv(s'.g)
  {
    assert ThreadInv(s.g, t, s.threads[t]);
  }

  /** The thread that moves keeps its part of the invariant. */
  lemma MoverKeeps(s: State, t: nat, outcome: Outcome)
    requires Inv(s) && Enabled(s, Act(t, outcome))
    ensures var s' := Apply(s, Act(t, outcome));
            ThreadInv(s'.g, t, s'.threads[t]) && CountInv(s'.g)
  {
    if HoldsLock(s.threads[t].outer) && s.threads[t].inner.Idle? {
      HolderKeeps(s, t, outcome);
    } else {
      VisitorKeeps(s, t, outcome);
    }
  }

  /** Every other thread keeps its part. */
  lemma OthersKeep(s: State, t: nat, outcome: Outcome, u: nat)
    requires Inv(s) && Enabled(s, Act(t, outcome)) && u in s.threads && u != t
    ensures var s' := Apply(s, Act(t, outcome));
            ThreadInv(s'.g, u, s.threads[u])
  {
    assert ThreadInv(s.g, t, s.threads[t]) && ThreadInv(s.g, u, s.threads[u]);
    if HoldsLock(s.threads[t].outer) {
      HolderBuilds(s, t);
    }
  }

  lemma InvStep(s: State, a: Action)
    requires Inv(s) && Enabled(s, a)
    ensures Inv(Apply(s, a))
  {
    var s' := Apply(s, a);
    match a
    case Act(t, outcome) =>
      MoverKeeps(s, t, outcome);
      forall u | u in s'.threads
        ensures ThreadInv(s'.g, u, s'.threads[u])
      {
        if u != t {
          OthersKeep(s, t, outcome, u);
        }
      }
      ActKeepsPlaces(s, t, outcome);
    case Begin(t) => assert ThreadInv(s.g, t, s.threads[t]);
    case Return(t) => assert ThreadInv(s.g, t, s.threads[t]);
    case Load(loading) =>
      forall u | u in s'.threads
        ensures ThreadInv(s'.g, u, s'.threads[u])
      {
        assert ThreadInv(s.g, u, s.threads[u]);
      }
    case Arm =>
      forall u | u in s'.threads
        ensures ThreadInv(s'.g, u, s'.threads[u])
      {
        assert ThreadInv(s.g, u, s.threads[u]);
      }
  }

  lemma ActKeepsPlaces(s: State, t: nat, outcome: Outcome)
    requires Inv(s) && Enabled(s, Act(t, outcome))
    ensures var s' := Apply(s, Act(t, outcome));
            && (s'.g.holder.Some? ==> s'.g.holder.value in s'.threads)
            && (s'.g.building.Some? ==> s'.g.building.value in s'.threads)
  {
    assert ThreadInv(s.g, t, s.threads[t]);
  }

  /** No thread reads yet, no kernel was tried. */
  ghost predicate Initial(s: State)
  {
    && s.g == Fresh(s.g.loading)
    && forall t :: t in s.threads ==> s.threads[t] == Thread(Idle, Idle)
  }

  lemma {:induction false} InvAfter(s: State, actions: seq<Action>)
    requires Inv(s) && Legal(s, actions)
    ensures Inv(After(s, actions))
    decreases |actions|
  {
    if actions != [] {
      InvStep(s, actions[0]);
      InvAfter(Apply(s, actions[0]), actions[1..]);
    }
  }

  // ----- the laws -----------------------------------------------------------------------------------------------

  /** Over every interleaving, successful builds and decisive failures total at most one; a kernel is
      there exactly after a successful build, and at most one thread is in the factory. */
  lemma BuiltAtMostOnce(s: State, actions: seq<Action>)
    requires Initial(s) && Legal(s, actions)
    ensures var g := After(s, actions).g;
            && g.builds + g.failures <= 1
            && (g.kernel <==> g.builds == 1)
            && (g.tried <==> g.failures == 1)
    ensures var s' := After(s, actions);
            forall t, u :: t in s'.threads && u in s'.threads && s'.threads[t].outer.InFactory? && s'.threads[u].outer.InFactory? ==>
              t == u
  {
    InvAfter(s, actions);
    var s' := After(s, actions);
    forall t, u | t in s'.threads && u in s'.threads && s'.threads[t].outer.InFactory? && s'.threads[u].outer.InFactory?
      ensures t == u
    {
      assert ThreadInv(s'.g, t, s'.threads[t]) && ThreadInv(s'.g, u, s'.threads[u]);
    }
  }

  /** A read the factory makes never reaches the lock its own thread holds, and is told that there is
      no kernel; no thread ever waits for itself. */
  lemma ReentrantReadsReturn(s: State, actions: seq<Action>, t: nat)
    requires Initial(s) && Legal(s, actions) && t in s.threads
    ensures t in After(s, actions).threads
    ensures var s' := After(s, actions);
            var th := s'.threads[t];
            && !th.inner.Acquire? && !HoldsLock(th.inner)
            && (th.inner.Done? ==> !th.inner.result)
            && (Top(th).Acquire? ==> s'.g.holder != Some(t))
  {
    InvAfter(s, actions);
    ThreadsStay(s, actions);
    var s' := After(s, actions);
    assert ThreadInv(s'.g, t, s'.threads[t]);
  }

  lemma {:induction false} ThreadsStay(s: State, actions: seq<Action>)
    requires Legal(s, actions)
    ensures After(s, actions).threads.Keys == s.threads.Keys
    decreases |actions|
  {
    if actions != [] {
      ThreadsStay(Apply(s, actions[0]), actions[1..]);
      assert Apply(s, actions[0]).threads.Keys == s.threads.Keys;
    }
  }

  /** A read that answers true does so with the kernel there, and the kernel stays. */
  lemma {:induction false} KernelStays(s: State, actions: seq<Action>)
    requires Inv(s) && Legal(s, actions)
    ensures s.g.kernel ==> After(s, actions).g.kernel
    ensures forall t :: t in s.threads && s.threads[t].outer == Done(true) ==> After(s, actions).g.kernel
    decreases |actions|
  {
    forall t | t in s.threads && s.threads[t].outer == Done(true)
      ensures s.g.kernel
    {
      assert ThreadInv(s.g, t, s.threads[t]);
    }
    if actions != [] {
      InvStep(s, actions[0]);
      KernelStays(Apply(s, actions[0]), actions[1..]);
    }
  }

  /** Only a successful build or a decisive failure ends the attempts: after any interleaving that left
      the lock free, a read builds again exactly if there is a factory, neither of the two has
      happened, and the registry has moved on since the last incomplete export. */
  lemma RetryLeftOpen(s: State, actions: seq<Action>, t: nat, outcome: Outcome)
    requires Initial(s) && Legal(s, actions) && t in s.threads
    requires After(s, actions).g.holder == None
    ensures var g := After(s, actions).g;
            MoveOn(g, t, CheckKernel, outcome, 9).1.InFactory? <==>
            g.armed && g.builds == 0 && g.failures == 0 && g.incomplete != Some(g.loading)
  {
    InvAfter(s, actions);
    ThreadsStay(s, actions);
    var s' := After(s, actions);
    var g := s'.g;
    assert ThreadInv(g, t, s'.threads[t]);
    BeforeTheLock(g, t, outcome);
    MovesAdd(g, t, CheckKernel, outcome, 5, 4);
    if MoveOn(g, t, CheckKernel, outcome, 5).1.Acquire? {
      UnderTheLock(g, t, g.loading, outcome);
    }
  }
}
