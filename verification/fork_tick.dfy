/**
The tick thread and the kill-switch connection across forks (addons/rust_engine/__init__.py).  Before a
fork the tick is stopped and the connection closed; the parent resumes its tick afterwards, and a child
starts one of its own when it first reports.
*/
module EngineHooks {
  import opened Wrappers

  datatype Tick = Tick(thread: nat, seconds: int)

  datatype Switch = Switch(owner: nat, conn: nat)

  /** One process: the entries of its state dict, the tick threads alive in it, and the switch
      connections it holds open. */
  datatype Proc = Proc(
    pid: nat,
    tick: Option<Tick>,
    tickResume: Option<int>,
    reporter: Option<nat>,
    switchConn: Option<Switch>,
    running: set<nat>,
    held: set<nat>) {

    function StartTick(thread: nat, seconds: int): Proc
    {
      this.(tick := Some(Tick(thread, seconds)), running := running + {thread})
    }

    /** The join is taken not to time out. */
    function StopTick(): Proc
    {
      if tick.None? then this else this.(tick := None, running := running - {tick.value.thread})
    }

    function TickSeconds(): Option<int>
    {
      if tick.None? then None else Some(tick.value.seconds)
    }

    /** The process's own connection, opened if it has none that is open. */
    function WithSwitch(conn: nat): Proc
    {
      if switchConn.None? || switchConn.value.owner != pid || switchConn.value.conn !in held
      then this.(switchConn := Some(Switch(pid, conn)), held := held + {conn})
      else this
    }

    function CloseSwitch(): Proc
    {
      this.(switchConn := None,
            held := if switchConn.Some? && switchConn.value.owner == pid then held - {switchConn.value.conn} else held)
    }

    /** A failed read drops and closes the connection it used. */
    function DropSwitch(): Proc
    {
      this.(switchConn := None,
            held := if switchConn.Some? then held - {switchConn.value.conn} else held)
    }

    function BeforeFork(): Proc
    {
      StopTick().(tickResume := TickSeconds()).CloseSwitch()
    }

    function AfterForkInParent(thread: nat): Proc
    {
      var p := this.(tickResume := None);
      if tickResume.Some? && tickResume.value != 0 && tick.None? then p.StartTick(thread, tickResume.value) else p
    }

    function AfterForkInChild(): Proc
    {
      this.(tickResume := None)
    }

    /** The fork itself copies the state and the open connections, but no thread. */
    function Forked(child: nat): Proc
    {
      this.(pid := child, running := {})
    }

    function ReportHere(thread: nat, seconds: int): Proc
    {
      if reporter == Some(pid) then this
      else
        var p := this.(reporter := Some(pid));
        if seconds <= 0 then p else p.StartTick(thread, seconds)
    }
  }

  /** The addon's module state in one process. */
  class Engine {
    const pid: nat
    var tick: Option<Tick>
    var tickResume: Option<int>
    var reporter: Option<nat>
    var switchConn: Option<Switch>
    var running: set<nat>
    var held: set<nat>

    function Now(): Proc
      reads this
    {
      Proc(pid, tick, tickResume, reporter, switchConn, running, held)
    }

    constructor (pid: nat)
      ensures Now() == Proc(pid, None, None, None, None, {}, {})
    {
      this.pid := pid;
      tick, tickResume, reporter, switchConn, running, held := None, None, None, None, {}, {};
    }

    method SwitchConnection(number: nat) returns (conn: nat)
      modifies this
      ensures Now() == old(Now()).WithSwitch(number)
      ensures switchConn == Some(Switch(pid, conn)) && conn in held
      ensures if old(switchConn.Some? && switchConn.value.owner == pid && switchConn.value.conn in held)
              then conn == old(switchConn).value.conn && held == old(held)
              else conn == number && held == old(held) + {number}
    {
      if switchConn.None? || switchConn.value.owner != pid || switchConn.value.conn !in held {
        held := held + {number};
        switchConn := Some(Switch(pid, number));
      }
      conn := switchConn.value.conn;
    }

    method CloseSwitchConnection()
      modifies this
      ensures Now() == old(Now()).CloseSwitch()
      ensures switchConn == None
      ensures old(switchConn.Some? && switchConn.value.owner == pid) ==> held == old(held - {switchConn.value.conn})
      ensures old(switchConn.Some? && switchConn.value.owner != pid) ==> held == old(held)
    {
      var entry := switchConn;
      switchConn := None;
      if entry.Some? && entry.value.owner == pid {
        held := held - {entry.value.conn};
      }
    }

    /** Reading the parameters; `fails` is a database error. */
    method ReadParams(number: nat, fails: bool)
      modifies this
      ensures Now() == if fails then old(Now()).WithSwitch(number).DropSwitch() else old(Now()).WithSwitch(number)
    {
      var conn := SwitchConnection(number);
      if fails {
        switchConn := None;
        held := held - {conn};
      }
    }

    method StartTick(thread: nat, seconds: int)
      modifies this
      ensures Now() == old(Now()).StartTick(thread, seconds)
    {
      tick := Some(Tick(thread, seconds));
      running := running + {thread};
    }

    method StopTick() returns (seconds: Option<int>)
      modifies this
      ensures Now() == old(Now()).StopTick() && seconds == old(Now()).TickSeconds()
      ensures tick == None && (old(tick).None? ==> seconds == None && running == old(running))
      ensures old(tick).Some? ==> seconds == Some(old(tick).value.seconds) && running == old(running) - {old(tick).value.thread}
    {
      var entry := tick;
      tick := None;
      if entry.None? {
        return None;
      }
      running := running - {entry.value.thread};
      seconds := Some(entry.value.seconds);
    }

    method BeforeFork()
      modifies this
      ensures Now() == old(Now()).BeforeFork()
    {
      tickResume := StopTick();
      CloseSwitchConnection();
    }

    method AfterForkInParent(thread: nat)
      modifies this
      ensures Now() == old(Now()).AfterForkInParent(thread)
      ensures tickResume == None
      ensures if old(tick) == None && old(tickResume) !in {None, Some(0)}
              then tick == Some(Tick(thread, old(tickResume).value)) && running == old(running) + {thread}
              else tick == old(tick) && running == old(running)
    {
      var seconds := tickResume;
      tickResume := None;
      if seconds.Some? && seconds.value != 0 && tick.None? {
        StartTick(thread, seconds.value);
      }
    }

    method AfterForkInChild()
      modifies this
      ensures Now() == old(Now()).AfterForkInChild()
    {
      tickResume := None;
    }

    method ReportHere(thread: nat, seconds: int)
      modifies this
      ensures Now() == old(Now()).ReportHere(thread, seconds)
      ensures reporter == Some(pid)
      ensures if old(reporter) != Some(pid) && seconds > 0
              then tick == Some(Tick(thread, seconds)) && running == old(running) + {thread}
              else tick == old(tick) && running == old(running)
    {
      if reporter == Some(pid) {
        return;
      }
      reporter := Some(pid);
      if seconds <= 0 {
        return;
      }
      StartTick(thread, seconds);
    }
  }
}

module ForkTree {
  import opened EngineHooks
  import opened Wrappers

  /** Where the thread that calls the hooks stands in its process. */
  datatype Phase = Normal | Prepared | InParent | InChild

  datatype Node = Node(p: Proc, phase: Phase)

  /** All living processes; process ids, threads and connections are numbered and never reused. */
  datatype World = World(procs: map<nat, Node>, used: set<nat>, next: nat)

  datatype Action =
    | Report(pid: nat, seconds: int)
    | ReadParams(pid: nat, fails: bool)
    | Broken(pid: nat)
    | BeforeFork(pid: nat)
    | Fork(pid: nat, child: nat)
    | ForkFails(pid: nat)
    | AfterParent(pid: nat)
    | AfterChild(pid: nat)
    | Exit(pid: nat)

  /** The hooks run on one thread in the order the fork calls them; the tick reads only while it runs. */
  predicate Enabled(w: World, a: Action)
  {
    a.pid in w.procs &&
    var n := w.procs[a.pid];
    match a
    case Report(_, _) => n.phase.Normal?
    case ReadParams(_, _) => n.p.running != {}
    case Broken(_) => n.p.switchConn.Some?
    case BeforeFork(_) => n.phase.Normal?
    case Fork(_, child) => n.phase.Prepared? && child !in w.used
    case ForkFails(_) => n.phase.Prepared?
    case AfterParent(_) => n.phase.InParent?
    case AfterChild(_) => n.phase.InChild?
    case Exit(_) => true
  }

  function Apply(w: World, a: Action): World
    requires Enabled(w, a)
  {
    var n := w.procs[a.pid];
    match a
    case Report(pid, seconds) => World(w.procs[pid := n.(p := n.p.ReportHere(w.next, seconds))], w.used, w.next + 1)
    case ReadParams(pid, fails) =>
      var read := n.p.WithSwitch(w.next);
      World(w.procs[pid := n.(p := if fails then read.DropSwitch() else read)], w.used, w.next + 1)
    case Broken(pid) => w.(procs := w.procs[pid := n.(p := n.p.(held := n.p.held - {n.p.switchConn.value.conn}))])
    case BeforeFork(pid) => w.(procs := w.procs[pid := Node(n.p.BeforeFork(), Prepared)])
    case Fork(pid, child) =>
      World(w.procs[pid := n.(phase := InParent)][child := Node(n.p.Forked(child), InChild)], w.used + {child}, w.next)
    case ForkFails(pid) => w.(procs := w.procs[pid := n.(phase := InParent)])
    case AfterParent(pid) => World(w.procs[pid := Node(n.p.AfterForkInParent(w.next), Normal)], w.used, w.next + 1)
    case AfterChild(pid) => w.(procs := w.procs[pid := Node(n.p.AfterForkInChild(), Normal)])
    case Exit(pid) => w.(procs := w.procs - {pid})
  }

  predicate Legal(w: World, actions: seq<Action>)
    decreases |actions|
  {
    actions == [] || (Enabled(w, actions[0]) && Legal(Apply(w, actions[0]), actions[1..]))
  }

  function After(w: World, actions: seq<Action>): World
    requires Legal(w, actions)
    decreases |actions|
  {
    if actions == [] then w else After(Apply(w, actions[0]), actions[1..])
  }

  // ----- the invariant -----------------------------------------------------------------------------------------------

  ghost predicate NodeInv(pid: nat, n: Node, next: nat)
  {
    && n.p.pid == pid
    && n.p.running == (if n.p.tick.Some? then {n.p.tick.value.thread} else {})
    && (n.p.tick.Some? ==> n.p.reporter == Some(pid) && n.p.tick.value.seconds > 0)
    && n.p.held <= (if n.p.switchConn.Some? then {n.p.switchConn.value.conn} else {})
    && (n.p.switchConn.Some? ==> n.p.switchConn.value.owner == pid && n.p.switchConn.value.conn < next)
    && (n.phase.Normal? ==> n.p.tickResume.None?)
    && (!n.phase.Normal? ==> n.p.tick.None? && n.p.switchConn.None?)
    && ((n.phase.Prepared? || n.phase.InParent?) && n.p.tickResume.Some? ==> n.p.reporter == Some(pid) && n.p.tickResume.value > 0)
    && (n.phase.InChild? ==> n.p.reporter != Some(pid))
  }

  predicate Apart(a: Proc, b: Proc)
  {
    a.held !! b.held
  }

  /** Reporters are processes of the tree. */
  predicate ReporterUsed(n: Node, used: set<nat>)
  {
    n.p.reporter.Some? ==> n.p.reporter.value in used
  }

  ghost predicate Inv(w: World)
  {
    && (forall i :: i in w.procs ==> i in w.used && NodeInv(i, w.procs[i], w.next) && ReporterUsed(w.procs[i], w.used))
    && (forall i, j :: i in w.procs && j in w.procs && i != j ==> Apart(w.procs[i].p, w.procs[j].p))
  }

  lemma ActorNode(w: World, a: Action)
    requires Inv(w) && Enabled(w, a) && !a.Exit?
    ensures NodeInv(a.pid, Apply(w, a).procs[a.pid], Apply(w, a).next)
  {
    assert NodeInv(a.pid, w.procs[a.pid], w.next);
  }

  /** What an action makes of its own process. */
  lemma ActorKeeps(w: World, a: Action)
    requires Inv(w) && Enabled(w, a) && !a.Exit?
    ensures var w' := Apply(w, a);
            && NodeInv(a.pid, w'.procs[a.pid], w'.next)
            && ReporterUsed(w'.procs[a.pid], w'.used)
            && (forall c :: c in w'.procs[a.pid].p.held ==> c in w.procs[a.pid].p.held || c == w.next)
  {
    ActorNode(w, a);
  }

  lemma InvStep(w: World, a: Action)
    requires Inv(w) && Enabled(w, a)
    ensures Inv(Apply(w, a))
  {
    var w' := Apply(w, a);
    if !a.Exit? {
      ActorKeeps(w, a);
      forall i | i in w'.procs
        ensures i in w'.used && NodeInv(i, w'.procs[i], w'.next) && ReporterUsed(w'.procs[i], w'.used)
      {
        if i != a.pid && i in w.procs {
          assert NodeInv(i, w.procs[i], w.next) && ReporterUsed(w.procs[i], w.used);
        } else if i != a.pid {
          assert NodeInv(a.pid, w.procs[a.pid], w.next) && ReporterUsed(w.procs[a.pid], w.used);
        }
      }
      forall i, j | i in w'.procs && j in w'.procs && i != j
        ensures Apart(w'.procs[i].p, w'.procs[j].p)
      {
        StayApart(w, a, i, j);
      }
    }
  }

  lemma StayApart(w: World, a: Action, i: nat, j: nat)
    requires Inv(w) && Enabled(w, a) && !a.Exit?
    requires i in Apply(w, a).procs && j in Apply(w, a).procs && i != j
    ensures Apart(Apply(w, a).procs[i].p, Apply(w, a).procs[j].p)
  {
    ActorKeeps(w, a);
    forall k | k in w.procs
      ensures NodeInv(k, w.procs[k], w.next)
      ensures forall c :: c in w.procs[k].p.held ==> c < w.next
    {
    }
    if i in w.procs && j in w.procs {
      assert Apart(w.procs[i].p, w.procs[j].p);
    }
  }

  /** One process that has done nothing yet. */
  function Root(pid: nat): World
  {
    World(map[pid := Node(Proc(pid, None, None, None, None, {}, {}), Normal)], {pid}, 0)
  }

  lemma {:induction false} InvAfter(w: World, actions: seq<Action>)
    requires Inv(w) && Legal(w, actions)
    ensures Inv(After(w, actions))
    decreases |actions|
  {
    if actions != [] {
      InvStep(w, actions[0]);
      InvAfter(Apply(w, actions[0]), actions[1..]);
    }
  }

  lemma InvRoot(pid: nat, actions: seq<Action>)
    requires Legal(Root(pid), actions)
    ensures Inv(After(Root(pid), actions))
  {
    InvAfter(Root(pid), actions);
  }

  // ----- the laws -------------------------------------------------------------------------------------------------------

  /** Over every fork tree a process has at most one tick thread, the one its state names. */
  lemma OneTick(root: nat, actions: seq<Action>, pid: nat)
    requires Legal(Root(root), actions) && pid in After(Root(root), actions).procs
    ensures var p := After(Root(root), actions).procs[pid].p;
            |p.running| <= 1 && (p.running != {} <==> p.tick.Some?) && (p.tick.Some? ==> p.reporter == Some(pid))
  {
    InvRoot(root, actions);
    var w := After(Root(root), actions);
    assert NodeInv(pid, w.procs[pid], w.next);
  }

  /** Every fork happens with no tick running and no switch connection open. */
  lemma ForksQuietly(root: nat, actions: seq<Action>, pid: nat, child: nat)
    requires Legal(Root(root), actions) && Enabled(After(Root(root), actions), Fork(pid, child))
    ensures var p := After(Root(root), actions).procs[pid].p;
            p.running == {} && p.held == {} && p.tick.None? && p.switchConn.None?
  {
    InvRoot(root, actions);
    var w := After(Root(root), actions);
    assert NodeInv(pid, w.procs[pid], w.next);
  }

  /** No switch connection is ever held by two processes, and each is used by the process that opened it. */
  lemma ConnectionsNotShared(root: nat, actions: seq<Action>, i: nat, j: nat)
    requires Legal(Root(root), actions)
    requires i in After(Root(root), actions).procs && j in After(Root(root), actions).procs && i != j
    ensures var w := After(Root(root), actions);
            && w.procs[i].p.held !! w.procs[j].p.held
            && (w.procs[i].p.switchConn.Some? ==> w.procs[i].p.switchConn.value.owner == i)
  {
    InvRoot(root, actions);
    var w := After(Root(root), actions);
    assert NodeInv(i, w.procs[i], w.next);
    assert Apart(w.procs[i].p, w.procs[j].p);
  }

  /** The process waits in a fork, its tick stopped and remembered. */
  ghost predicate Paused(w: World, pid: nat, seconds: Option<int>)
  {
    && pid in w.procs && pid in w.used
    && (w.procs[pid].phase.Prepared? || w.procs[pid].phase.InParent?)
    && w.procs[pid].p.tick.None? && w.procs[pid].p.running == {} && w.procs[pid].p.switchConn.None?
    && w.procs[pid].p.tickResume == seconds
  }

  lemma {:induction false} PausedStays(w: World, actions: seq<Action>, pid: nat, seconds: Option<int>)
    requires Legal(w, actions) && Paused(w, pid, seconds)
    requires forall i :: 0 <= i < |actions| ==> actions[i] != AfterParent(pid) && actions[i] != Exit(pid)
    ensures Paused(After(w, actions), pid, seconds)
    decreases |actions|
  {
    if actions != [] {
      assert actions[0] != AfterParent(pid) && actions[0] != Exit(pid);
      assert Paused(Apply(w, actions[0]), pid, seconds);
      forall i | 0 <= i < |actions[1..]|
        ensures actions[1..][i] != AfterParent(pid) && actions[1..][i] != Exit(pid)
      {
        assert actions[1..][i] == actions[i + 1];
      }
      PausedStays(Apply(w, actions[0]), actions[1..], pid, seconds);
    }
  }

  /** Whatever the other processes do meanwhile, and whether the fork succeeds or not, the parent's tick
      runs after the fork exactly if it ran before, at the same pace. */
  lemma ParentResumes(w: World, actions: seq<Action>, pid: nat)
    requires Inv(w) && Enabled(w, BeforeFork(pid)) && Legal(Apply(w, BeforeFork(pid)), actions)
    requires forall i :: 0 <= i < |actions| ==> actions[i] != AfterParent(pid) && actions[i] != Exit(pid)
    requires Enabled(After(Apply(w, BeforeFork(pid)), actions), AfterParent(pid))
    ensures var p := w.procs[pid].p;
            var q := Apply(After(Apply(w, BeforeFork(pid)), actions), AfterParent(pid)).procs[pid].p;
            && q.TickSeconds() == p.TickSeconds()
            && (q.running != {} <==> p.running != {})
            && q.tickResume.None?
  {
    assert NodeInv(pid, w.procs[pid], w.next);
    var w1 := Apply(w, BeforeFork(pid));
    PausedStays(w1, actions, pid, w.procs[pid].p.TickSeconds());
  }

  /** A process that never reported: it has no tick and none to resume. */
  ghost predicate Silent(w: World, pid: nat)
  {
    && pid in w.procs && pid in w.used
    && w.procs[pid].p.tick.None? && w.procs[pid].p.running == {}
    && (w.procs[pid].p.tickResume.None? || w.procs[pid].phase.InChild?)
    && w.procs[pid].p.reporter != Some(pid) && w.procs[pid].p.pid == pid
  }

  lemma {:induction false} SilentStays(w: World, actions: seq<Action>, pid: nat)
    requires Legal(w, actions) && Silent(w, pid)
    requires forall i :: 0 <= i < |actions| ==> !(actions[i].Report? && actions[i].pid == pid) && actions[i] != Exit(pid)
    ensures Silent(After(w, actions), pid)
    decreases |actions|
  {
    if actions != [] {
      assert !(actions[0].Report? && actions[0].pid == pid) && actions[0] != Exit(pid);
      assert Silent(Apply(w, actions[0]), pid);
      forall i | 0 <= i < |actions[1..]|
        ensures !(actions[1..][i].Report? && actions[1..][i].pid == pid) && actions[1..][i] != Exit(pid)
      {
        assert actions[1..][i] == actions[i + 1];
      }
      SilentStays(Apply(w, actions[0]), actions[1..], pid);
    }
  }

  /** A forked child starts only a tick of its own: over every run it has none until it reports itself,
      and its report then starts exactly one if the period is positive. */
  lemma ChildStartsItsOwn(w: World, pid: nat, child: nat, actions: seq<Action>, thread: nat, seconds: int)
    requires Inv(w) && Enabled(w, Fork(pid, child)) && Legal(Apply(w, Fork(pid, child)), actions)
    requires forall i :: 0 <= i < |actions| ==> !(actions[i].Report? && actions[i].pid == child) && actions[i] != Exit(child)
    ensures Silent(After(Apply(w, Fork(pid, child)), actions), child)
    ensures var p := After(Apply(w, Fork(pid, child)), actions).procs[child].p;
            && p.ReportHere(thread, seconds).running == (if seconds > 0 then {thread} else {})
            && p.ReportHere(thread, seconds).reporter == Some(child)
  {
    assert NodeInv(pid, w.procs[pid], w.next) && ReporterUsed(w.procs[pid], w.used);
    SilentStays(Apply(w, Fork(pid, child)), actions, child);
  }

  /** Only the first report of a process starts a tick. */
  lemma ReportsOnce(p: Proc, thread: nat, seconds: int, thread': nat, seconds': int)
    ensures p.ReportHere(thread, seconds).ReportHere(thread', seconds') == p.ReportHere(thread, seconds)
  {
  }
}
