/**
Kernel reads run inside the caller's own transaction (engine-py/src/kernel.rs).  Each dispatch is
bracketed by a savepoint whose SAVEPOINT and RELEASE are queued on the connection without being
awaited; a failing dispatch is undone by an awaited ROLLBACK TO / RELEASE batch.  The connection
delivers statements to the server first in, first out, and the server may lag behind arbitrarily.

The result of the module is non-interference: erasing every dispatch from a run changes neither the
replies the caller sees nor the transaction it ends up with.
*/
module KernelDispatch {
  import opened Wrappers

  const KERNEL_SAVEPOINT := "rust_kernel_dispatch"

  // ----- the transaction server -----------------------------------------------------------------

  /** What running a query against the current data does; supplied by the database. */
  datatype Outcome<+D, +R> = Done(data: D, rows: R) | Failed

  datatype Stmt =
    | Savepoint(name: string)
    | Release(name: string)
    | RollbackTo(name: string)
    | Undo(name: string)          // one batch: ROLLBACK TO name; RELEASE name
    | Query(sql: string)
    | Commit
    | Rollback

  datatype Mark<+D> = Mark(name: string, data: D)

  datatype Server<+D> = Server(base: D, data: D, marks: seq<Mark<D>>, aborted: bool)

  datatype Reply<+R> = Accepted | Rows(rows: R) | SqlError

  /** The index of the innermost savepoint called `name`, or -1. */
  function Innermost<D>(marks: seq<Mark<D>>, name: string): (k: int)
    ensures -1 <= k < |marks|
    ensures k >= 0 ==> marks[k].name == name
    ensures forall j :: k < j < |marks| ==> marks[j].name != name
  {
    if marks == [] then -1
    else if marks[|marks| - 1].name == name then |marks| - 1
    else Innermost(marks[..|marks| - 1], name)
  }

  function Reject<D, R>(s: Server<D>): (Server<D>, Reply<R>)
  {
    (s.(aborted := true), SqlError)
  }

  function ExecRelease<D, R>(s: Server<D>, name: string): (Server<D>, Reply<R>)
  {
    var k := Innermost(s.marks, name);
    if s.aborted || k < 0 then Reject(s) else (s.(marks := s.marks[..k]), Accepted)
  }

  /** ROLLBACK TO is accepted in an aborted transaction too, and keeps the savepoint. */
  function ExecRollbackTo<D, R>(s: Server<D>, name: string): (Server<D>, Reply<R>)
  {
    var k := Innermost(s.marks, name);
    if k < 0 then Reject(s)
    else (s.(data := s.marks[k].data, marks := s.marks[..k + 1], aborted := false), Accepted)
  }

  function Exec<D, R>(run: (D, string) -> Outcome<D, R>, s: Server<D>, st: Stmt): (Server<D>, Reply<R>)
  {
    match st
    case Savepoint(name) =>
      if s.aborted then Reject(s) else (s.(marks := s.marks + [Mark(name, s.data)]), Accepted)
    case Release(name) => ExecRelease(s, name)
    case RollbackTo(name) => ExecRollbackTo(s, name)
    case Undo(name) =>
      var (s1, reply) := ExecRollbackTo<D, R>(s, name);
      if reply == SqlError then (s1, reply) else ExecRelease(s1, name)
    case Query(sql) =>
      if s.aborted then Reject(s)
      else (match run(s.data, sql)
            case Done(data, rows) => (s.(data := data), Rows(rows))
            case Failed => Reject(s))
    case Commit =>
      var kept := if s.aborted then s.base else s.data;
      (Server(kept, kept, [], false), Accepted)
    case Rollback => (Server(s.base, s.base, [], false), Accepted)
  }

  function Drain<D, R>(run: (D, string) -> Outcome<D, R>, s: Server<D>, queue: seq<Stmt>): Server<D>
    decreases |queue|
  {
    if queue == [] then s else Drain(run, Exec(run, s, queue[0]).0, queue[1..])
  }

  lemma {:induction false} DrainAppend<D, R>(run: (D, string) -> Outcome<D, R>, s: Server<D>, queue: seq<Stmt>, st: Stmt)
    ensures Drain(run, s, queue + [st]) == Exec(run, Drain(run, s, queue), st).0
    decreases |queue|
  {
    if queue == [] {
      assert Drain(run, s, [st]) == Drain(run, Exec(run, s, st).0, []);
      assert queue + [st] == [st];
    } else {
      assert (queue + [st])[1..] == queue[1..] + [st];
      DrainAppend(run, Exec(run, s, queue[0]).0, queue[1..], st);
    }
  }

  // ----- one dispatch, as the server eventually sees it -------------------------------------------

  datatype Verdict = Answer | Refuse | DenyAccess | RegistryMoved | Break

  /** The kernel's own code is abstract: the queries it sends and what it makes of their success.
      A failing query always makes the dispatch fail. */
  datatype Program = Program(queries: seq<string>, verdict: Verdict)

  function AfterQueries<D, R>(run: (D, string) -> Outcome<D, R>, s: Server<D>, queries: seq<string>): Server<D>
    decreases |queries|
  {
    if queries == [] then s else AfterQueries(run, Exec(run, s, Query(queries[0])).0, queries[1..])
  }

  predicate AllSucceed<D, R(==)>(run: (D, string) -> Outcome<D, R>, s: Server<D>, queries: seq<string>)
    decreases |queries|
  {
    queries == [] ||
    (var (s1, reply) := Exec(run, s, Query(queries[0]));
     reply.Rows? && AllSucceed(run, s1, queries[1..]))
  }

  /** Each query succeeds in the state the ones before it lead to. */
  lemma {:induction false} AllSucceedIff<D, R>(run: (D, string) -> Outcome<D, R>, s: Server<D>, queries: seq<string>)
    ensures AllSucceed(run, s, queries) <==>
            forall i :: 0 <= i < |queries| ==>
              var before := AfterQueries(run, s, queries[..i]);
              !before.aborted && run(before.data, queries[i]).Done?
    decreases |queries|
  {
    if queries != [] {
      var s1, rest := Exec(run, s, Query(queries[0])).0, queries[1..];
      AllSucceedIff(run, s1, rest);
      assert AfterQueries(run, s, queries[..0]) == s;
      forall i | 0 <= i < |rest|
        ensures AfterQueries(run, s, queries[..i + 1]) == AfterQueries(run, s1, rest[..i]) && rest[i] == queries[i + 1]
      {
        assert queries[..i + 1][1..] == rest[..i];
      }
      assert forall i :: 0 < i < |queries| ==> queries[i] == rest[i - 1] && AfterQueries(run, s, queries[..i]) == AfterQueries(run, s1, rest[..i - 1]);
    }
  }

  function Opened<D, R>(run: (D, string) -> Outcome<D, R>, s: Server<D>): Server<D>
  {
    Exec(run, s, Savepoint(KERNEL_SAVEPOINT)).0
  }

  predicate Answered<D, R(==)>(run: (D, string) -> Outcome<D, R>, s: Server<D>, p: Program)
  {
    p.verdict.Answer? && AllSucceed(run, Opened(run, s), p.queries)
  }

  function DispatchEffect<D, R(==)>(run: (D, string) -> Outcome<D, R>, s: Server<D>, p: Program): Server<D>
  {
    var ran := AfterQueries(run, Opened(run, s), p.queries);
    Exec(run, ran, if Answered(run, s, p) then Release(KERNEL_SAVEPOINT) else Undo(KERNEL_SAVEPOINT)).0
  }

  /** Kernel methods are reads: a query that succeeds leaves the data alone. */
  ghost predicate ReadOnly<D(!new), R>(run: (D, string) -> Outcome<D, R>, queries: seq<string>)
  {
    forall d: D, q | q in queries && run(d, q).Done? :: run(d, q).data == d
  }

  lemma {:induction false} QueriesKeepMarks<D(!new), R>(run: (D, string) -> Outcome<D, R>, s: Server<D>, queries: seq<string>)
    ensures var t := AfterQueries(run, s, queries);
            t.base == s.base && t.marks == s.marks && (s.aborted ==> t == s)
    ensures AllSucceed(run, s, queries) ==> (queries == [] || !s.aborted)
    ensures AllSucceed(run, s, queries) && ReadOnly(run, queries) ==> AfterQueries(run, s, queries) == s
    decreases |queries|
  {
    if queries != [] {
      var s1 := Exec(run, s, Query(queries[0])).0;
      QueriesKeepMarks(run, s1, queries[1..]);
      if AllSucceed(run, s, queries) && ReadOnly(run, queries) {
        assert queries[0] in queries;
        assert s1 == s;
        assert forall q :: q in queries[1..] ==> q in queries;
      }
    }
  }

  ghost predicate Holds<D(!new)>(s: Server<D>, name: string)
  {
    exists i :: 0 <= i < |s.marks| && s.marks[i].name == name
  }

  ghost predicate Harmless<D(!new)>(s: Server<D>, p: Program)
  {
    !(s.aborted && Holds(s, KERNEL_SAVEPOINT) && !(p.verdict.Answer? && p.queries == []))
  }

  lemma HoldsIff<D(!new)>(s: Server<D>, name: string)
    ensures Holds(s, name) <==> Innermost(s.marks, name) >= 0
  {
    var k := Innermost(s.marks, name);
    if k >= 0 {
      assert s.marks[k].name == name;
    }
  }

  /** The bracket closes over whatever the queries did in an open transaction. */
  lemma OpenBracketCloses<D, R>(run: (D, string) -> Outcome<D, R>, s: Server<D>, ran: Server<D>)
    requires !s.aborted && ran.base == s.base && ran.marks == s.marks + [Mark(KERNEL_SAVEPOINT, s.data)]
    ensures Exec(run, ran, Undo(KERNEL_SAVEPOINT)).0 == s
    ensures !ran.aborted && ran.data == s.data ==> Exec(run, ran, Release(KERNEL_SAVEPOINT)).0 == s
  {
    assert Innermost(ran.marks, KERNEL_SAVEPOINT) == |s.marks|;
    assert ran.marks[..|s.marks|] == s.marks;
    assert ran.marks[..|s.marks| + 1] == ran.marks;
  }

  lemma DispatchInOpen<D(!new), R>(run: (D, string) -> Outcome<D, R>, s: Server<D>, p: Program)
    requires !s.aborted && (Answered(run, s, p) ==> ReadOnly(run, p.queries))
    ensures DispatchEffect(run, s, p) == s
  {
    var entered := Opened(run, s);
    QueriesKeepMarks(run, entered, p.queries);
    OpenBracketCloses(run, s, AfterQueries(run, entered, p.queries));
  }

  lemma DispatchInAborted<D(!new), R>(run: (D, string) -> Outcome<D, R>, s: Server<D>, p: Program)
    requires s.aborted
    ensures DispatchEffect(run, s, p) == s <==> Harmless(s, p)
  {
    QueriesKeepMarks(run, s, p.queries);
    HoldsIff(s, KERNEL_SAVEPOINT);
    assert Answered(run, s, p) <==> p.verdict.Answer? && p.queries == [];
  }

  /** Exactly when one dispatch is invisible to the caller's transaction: always, unless the transaction
      is already aborted, the caller itself holds the kernel's name in it, and the program is not one
      that answers without sending a query. */
  lemma DispatchInvisibleIff<D(!new), R>(run: (D, string) -> Outcome<D, R>, s: Server<D>, p: Program)
    requires Answered(run, s, p) ==> ReadOnly(run, p.queries)
    ensures DispatchEffect(run, s, p) == s <==> Harmless(s, p)
  {
    if s.aborted {
      DispatchInAborted(run, s, p);
    } else {
      DispatchInOpen(run, s, p);
    }
  }

  // ----- whole runs ---------------------------------------------------------------------------------

  /** The connection as it stands: what the server has processed and what is still in flight. */
  datatype Wire<+D> = Wire(server: Server<D>, queue: seq<Stmt>)

  datatype Event =
    | Caller(st: Stmt)
    | Dispatch(p: Program)
    | ServerMoves

  function Settled<D, R>(run: (D, string) -> Outcome<D, R>, w: Wire<D>): Server<D>
  {
    Drain(run, w.server, w.queue)
  }

  function Posted<D>(w: Wire<D>, st: Stmt): Wire<D>
  {
    w.(queue := w.queue + [st])
  }

  function Awaited<D, R>(run: (D, string) -> Outcome<D, R>, w: Wire<D>, st: Stmt): (Wire<D>, Reply<R>)
  {
    var (s, reply) := Exec(run, Settled(run, w), st);
    (Wire(s, []), reply)
  }

  function AwaitQueries<D, R>(run: (D, string) -> Outcome<D, R>, w: Wire<D>, queries: seq<string>): Wire<D>
    decreases |queries|
  {
    if queries == [] then w
    else AwaitQueries(run, Awaited(run, w, Query(queries[0])).0, queries[1..])
  }

  /** The savepoint bracket on the wire: SAVEPOINT and RELEASE are posted, everything else awaited. */
  function DispatchWire<D, R(==)>(run: (D, string) -> Outcome<D, R>, w: Wire<D>, p: Program): Wire<D>
  {
    var ran := AwaitQueries(run, Posted(w, Savepoint(KERNEL_SAVEPOINT)), p.queries);
    if Answered(run, Settled(run, w), p)
    then Posted(ran, Release(KERNEL_SAVEPOINT))
    else Awaited(run, ran, Undo(KERNEL_SAVEPOINT)).0
  }

  function Moved<D, R>(run: (D, string) -> Outcome<D, R>, w: Wire<D>): Wire<D>
  {
    if w.queue == [] then w else Wire(Exec(run, w.server, w.queue[0]).0, w.queue[1..])
  }

  function StepWire<D, R(==)>(run: (D, string) -> Outcome<D, R>, w: Wire<D>, e: Event): (Wire<D>, seq<Reply<R>>)
  {
    match e
    case Caller(st) => var (w1, reply) := Awaited(run, w, st); (w1, [reply])
    case Dispatch(p) => (DispatchWire(run, w, p), [])
    case ServerMoves => (Moved(run, w), [])
  }

  function RunWire<D, R(==)>(run: (D, string) -> Outcome<D, R>, w: Wire<D>, events: seq<Event>): (Wire<D>, seq<Reply<R>>)
    decreases |events|
  {
    if events == [] then (w, [])
    else
      var (w1, replies) := StepWire(run, w, events[0]);
      var (w2, more) := RunWire(run, w1, events[1..]);
      (w2, replies + more)
  }

  /** The same run with the kernel switched off and a server that never lags. */
  function Erase(events: seq<Event>): seq<Event>
  {
    if events == [] then []
    else (if events[0].Caller? then [events[0]] else []) + Erase(events[1..])
  }

  lemma PostedSettles<D, R>(run: (D, string) -> Outcome<D, R>, w: Wire<D>, st: Stmt)
    ensures Settled(run, Posted(w, st)) == Exec(run, Settled(run, w), st).0
  {
    DrainAppend(run, w.server, w.queue, st);
  }

  lemma {:induction false} AwaitQueriesSettles<D, R>(run: (D, string) -> Outcome<D, R>, w: Wire<D>, queries: seq<string>)
    ensures Settled(run, AwaitQueries(run, w, queries)) == AfterQueries(run, Settled(run, w), queries)
    decreases |queries|
  {
    if queries != [] {
      AwaitQueriesSettles(run, Awaited(run, w, Query(queries[0])).0, queries[1..]);
    }
  }

  /** An awaited query leaves nothing on the wire. */
  lemma {:induction false} AwaitQueriesDrains<D, R>(run: (D, string) -> Outcome<D, R>, w: Wire<D>, queries: seq<string>)
    ensures AwaitQueries(run, w, queries).queue == if queries == [] then w.queue else []
    decreases |queries|
  {
    if queries != [] {
      AwaitQueriesDrains(run, Awaited(run, w, Query(queries[0])).0, queries[1..]);
    }
  }

  lemma DispatchWireSettles<D, R>(run: (D, string) -> Outcome<D, R>, w: Wire<D>, p: Program)
    ensures Settled(run, DispatchWire(run, w, p)) == DispatchEffect(run, Settled(run, w), p)
  {
    var entered := Posted(w, Savepoint(KERNEL_SAVEPOINT));
    PostedSettles(run, w, Savepoint(KERNEL_SAVEPOINT));
    AwaitQueriesSettles(run, entered, p.queries);
    var ran := AwaitQueries(run, entered, p.queries);
    PostedSettles(run, ran, Release(KERNEL_SAVEPOINT));
  }

  /** Every dispatch of the run that is answered in the state it finds has only read.  What a refused
      or failing one has written is of no matter. */
  ghost predicate AnswersOnlyRead<D(!new), R>(run: (D, string) -> Outcome<D, R>, w: Wire<D>, events: seq<Event>)
    decreases |events|
  {
    events == [] ||
    ((events[0].Dispatch? && Answered(run, Settled(run, w), events[0].p) ==> ReadOnly(run, events[0].p.queries))
     && AnswersOnlyRead(run, StepWire(run, w, events[0]).0, events[1..]))
  }

  /** No dispatch of the run meets an aborted transaction in which the caller holds the kernel's name. */
  ghost predicate NamesApart<D(!new), R>(run: (D, string) -> Outcome<D, R>, w: Wire<D>, events: seq<Event>)
    decreases |events|
  {
    events == [] ||
    ((events[0].Dispatch? ==> Harmless(Settled(run, w), events[0].p))
     && NamesApart(run, StepWire(run, w, events[0]).0, events[1..]))
  }

  /** The connection without the dispatches, after one event of the run with them. */
  function StepAlone<D, R(==)>(run: (D, string) -> Outcome<D, R>, alone: Wire<D>, e: Event): Wire<D>
  {
    if e.Caller? then StepWire(run, alone, e).0 else alone
  }

  /** At every moment of the run both connections settle into the same transaction. */
  ghost predicate Undisturbed<D(!new), R>(run: (D, string) -> Outcome<D, R>, w: Wire<D>, alone: Wire<D>, events: seq<Event>)
    decreases |events|
  {
    && Settled(run, w) == Settled(run, alone)
    && (events == [] || Undisturbed(run, StepWire(run, w, events[0]).0, StepAlone(run, alone, events[0]), events[1..]))
  }

  lemma StepTogether<D(!new), R>(run: (D, string) -> Outcome<D, R>, w: Wire<D>, alone: Wire<D>, e: Event)
    requires Settled(run, w) == Settled(run, alone)
    requires e.Dispatch? && Answered(run, Settled(run, w), e.p) ==> ReadOnly(run, e.p.queries)
    ensures Settled(run, StepWire(run, w, e).0) == Settled(run, StepAlone(run, alone, e)) <==>
            (e.Dispatch? ==> Harmless(Settled(run, w), e.p))
    ensures e.Caller? ==> StepWire(run, w, e).1 == StepWire(run, alone, e).1
  {
    if e.Dispatch? {
      DispatchWireSettles(run, w, e.p);
      DispatchInvisibleIff(run, Settled(run, w), e.p);
    }
  }

  /** Exactly which runs leave the caller's transaction alone at every moment. */
  lemma {:induction false} UndisturbedIff<D(!new), R>(run: (D, string) -> Outcome<D, R>, w: Wire<D>, alone: Wire<D>, events: seq<Event>)
    requires AnswersOnlyRead(run, w, events) && Settled(run, w) == Settled(run, alone)
    ensures Undisturbed(run, w, alone, events) <==> NamesApart(run, w, events)
    decreases |events|
  {
    if events != [] {
      StepTogether(run, w, alone, events[0]);
      var w1, alone1 := StepWire(run, w, events[0]).0, StepAlone(run, alone, events[0]);
      if Settled(run, w1) == Settled(run, alone1) {
        UndisturbedIff(run, w1, alone1, events[1..]);
      }
    }
  }

  /** Non-interference over whole runs: for any mix of answered, refused and failing dispatches and
      any lag of the server, the caller's replies and the transaction the connection settles into
      are those of the run without the dispatches. */
  lemma {:induction false} NonInterference<D(!new), R>(run: (D, string) -> Outcome<D, R>, w: Wire<D>, alone: Wire<D>, events: seq<Event>)
    requires AnswersOnlyRead(run, w, events) && NamesApart(run, w, events)
    requires Settled(run, w) == Settled(run, alone)
    ensures RunWire(run, w, events).1 == RunWire(run, alone, Erase(events)).1
    ensures Settled(run, RunWire(run, w, events).0) == Settled(run, RunWire(run, alone, Erase(events)).0)
    decreases |events|
  {
    if events != [] {
      var e, rest := events[0], events[1..];
      StepTogether(run, w, alone, e);
      NonInterference(run, StepWire(run, w, e).0, StepAlone(run, alone, e), rest);
      if e.Caller? {
        assert Erase(events) == [e] + Erase(rest);
        assert Erase(events)[1..] == Erase(rest);
      } else {
        assert Erase(events) == Erase(rest);
      }
    }
  }

  // ----- a caller that leaves the name alone -----------------------------------------------------------------

  predicate AvoidsKernelName(st: Stmt)
  {
    st.Savepoint? ==> st.name != KERNEL_SAVEPOINT
  }

  ghost predicate NameFree<D(!new)>(marks: seq<Mark<D>>)
  {
    forall i :: 0 <= i < |marks| ==> marks[i].name != KERNEL_SAVEPOINT
  }

  lemma CallerKeepsNameFree<D(!new), R>(run: (D, string) -> Outcome<D, R>, s: Server<D>, st: Stmt)
    requires AvoidsKernelName(st) && NameFree(s.marks)
    ensures NameFree(Exec(run, s, st).0.marks)
  {
    if st.Undo? {
      var s1 := ExecRollbackTo<D, R>(s, st.name).0;
      assert NameFree(s1.marks);
    }
  }

  /** A caller that never opens a savepoint under the kernel's name is never disturbed. */
  lemma {:induction false} AvoidingIsEnough<D(!new), R>(run: (D, string) -> Outcome<D, R>, w: Wire<D>, events: seq<Event>)
    requires AnswersOnlyRead(run, w, events)
    requires forall i :: 0 <= i < |events| && events[i].Caller? ==> AvoidsKernelName(events[i].st)
    requires NameFree(Settled(run, w).marks)
    ensures NamesApart(run, w, events)
    decreases |events|
  {
    if events != [] {
      var e, rest := events[0], events[1..];
      assert forall i :: 0 <= i < |rest| ==> rest[i] == events[i + 1];
      if e.Caller? {
        CallerKeepsNameFree(run, Settled(run, w), e.st);
      } else {
        StepTogether(run, w, w, e);
      }
      AvoidingIsEnough(run, StepWire(run, w, e).0, rest);
    }
  }

  /** The assumption on the name is needed: a refused dispatch revives an aborted transaction whose
      caller holds a savepoint under the kernel's name. */
  lemma NameClashRevives(run: (int, string) -> Outcome<int, int>)
    ensures var s := Server(0, 1, [Mark(KERNEL_SAVEPOINT, 0)], true);
            DispatchEffect(run, s, Program([], Refuse)) == Server(0, 0, [], false)
  {
    var s := Server(0, 1, [Mark(KERNEL_SAVEPOINT, 0)], true);
    assert Innermost(s.marks, KERNEL_SAVEPOINT) == 0;
    assert s.marks[..1] == s.marks;
    assert s.marks[..0] == [];
  }

  // ----- the objects ----------------------------------------------------------------------------------

  datatype Signals = Signals(generation: int, snapshot: int)

  class Connection<D, R(==)> {
    const run: (D, string) -> Outcome<D, R>
    var server: Server<D>
    var queue: seq<Stmt>
    var autocommit: bool
    var callerPlans: set<string>
    var kernelPlans: set<string>
    var kernelGeneration: int
    var ddlInTransaction: bool
    var signals: Option<Signals>   // checked in the current transaction

    constructor (run: (D, string) -> Outcome<D, R>, data: D)
      ensures this.run == run && View() == Wire(Server(data, data, [], false), [])
      ensures !autocommit && callerPlans == kernelPlans == {} && kernelGeneration == 0
      ensures !ddlInTransaction && signals == None
    {
      this.run := run;
      server, queue := Server(data, data, [], false), [];
      autocommit, callerPlans, kernelPlans, kernelGeneration := false, {}, {}, 0;
      ddlInTransaction, signals := false, None;
    }

    function View(): Wire<D>
      reads this
    {
      Wire(server, queue)
    }

    /** What this transaction already knows of the signals, for this generation of the kernel. */
    function CheckedSignals(generation: int): Option<int>
      reads this
    {
      if signals.Some? && signals.value.generation == generation then Some(signals.value.snapshot) else None
    }

    /** The kernel's plans, which only its own generation may use. */
    method KernelStatementsAt(generation: int)
      modifies this`kernelPlans, this`kernelGeneration
      ensures kernelGeneration == generation
      ensures kernelPlans == if old(kernelGeneration) == generation then old(kernelPlans) else {}
    {
      var previous := kernelGeneration;
      kernelGeneration := generation;
      if previous != generation {
        kernelPlans := {};
      }
    }

    /** A rollback drops the caller's plans, and after DDL the kernel's as well. */
    method ClearPreparedAfterRollback()
      modifies this`callerPlans, this`kernelPlans
      ensures callerPlans == {}
      ensures kernelPlans == if ddlInTransaction then {} else old(kernelPlans)
    {
      callerPlans := {};
      if ddlInTransaction {
        kernelPlans := {};
      }
    }

    /** The server takes the next statement off the wire. */
    method ServerMove()
      modifies this`server, this`queue
      ensures View() == Moved(run, old(View()))
      ensures Settled(run, View()) == old(Settled(run, View()))
    {
      if queue != [] {
        server := Exec(run, server, queue[0]).0;
        queue := queue[1..];
      }
    }

    /** `batch_execute(..).now_or_never()`: the statement is on the wire, its reply is dropped. */
    method Post(st: Stmt)
      modifies this`queue
      ensures View() == Posted(old(View()), st)
    {
      queue := queue + [st];
    }

    method Await(st: Stmt) returns (reply: Reply<R>)
      modifies this`server, this`queue
      ensures (View(), reply) == Awaited(run, old(View()), st)
    {
      ghost var goal := Settled(run, View());
      while queue != []
        invariant Settled(run, View()) == goal
        decreases |queue|
      {
        ServerMove();
      }
      var (s, r) := Exec(run, server, st);
      server, reply := s, r;
    }

    /** The orm's queries, one awaited after the other. */
    method AwaitAll(queries: seq<string>) returns (ok: bool)
      modifies this`server, this`queue
      ensures View() == AwaitQueries(run, old(View()), queries)
      ensures ok <==> AllSucceed(run, old(Settled(run, View())), queries)
    {
      ok := true;
      for i := 0 to |queries|
        invariant AwaitQueries(run, View(), queries[i..]) == AwaitQueries(run, old(View()), queries)
        invariant AllSucceed(run, old(Settled(run, View())), queries) <==> ok && AllSucceed(run, Settled(run, View()), queries[i..])
      {
        var reply := Await(Query(queries[i]));
        ok := ok && reply.Rows?;
        assert queries[i..][1..] == queries[i + 1..];
      }
    }
  }

  datatype Request = Malformed | Request(registrySequence: Option<int>)

  datatype Response =
    | Raw
    | KernelRefused
    | KernelAccessDenied
    | KernelRegistryStale
    | KernelDatabaseError
    | KernelInternalError

  function Reported(verdict: Verdict): Response
  {
    match verdict
    case Answer => Raw
    case Refuse => KernelRefused
    case DenyAccess => KernelAccessDenied
    case RegistryMoved => KernelRegistryStale
    case Break => KernelInternalError
  }

  class RustKernel<D, R(==)> {
    const registrySequence: int
    const generation: int
    var stale: bool

    constructor (registrySequence: int, generation: int)
      ensures this.registrySequence == registrySequence && this.generation == generation && !stale
    {
      this.registrySequence, this.generation := registrySequence, generation;
      stale := false;
    }

    /** A dispatch is let in if the kernel is not stale, the request is well formed and made for this
        kernel's registry, and the connection is in a transaction; any other one touches nothing.  One
        that is let in moves the connection as DispatchWire says, and answers exactly if all its queries
        succeed and the orm answers; a moved registry marks the kernel stale for good. */
    method Dispatch(conn: Connection<D, R>, request: Request, program: Program, snapshot: int) returns (out: Response)
      modifies this`stale, conn`server, conn`queue, conn`callerPlans, conn`kernelPlans, conn`kernelGeneration, conn`signals
      ensures var letIn := !old(stale) && request.Request? && !conn.autocommit
                        && (request.registrySequence == None || request.registrySequence == Some(registrySequence));
              var s := old(Settled(conn.run, conn.View()));
              var succeed := AllSucceed(conn.run, Exec(conn.run, s, Savepoint(KERNEL_SAVEPOINT)).0, program.queries);
              && (out.Raw? <==> letIn && succeed && program.verdict.Answer?)
              && (!letIn ==> unchanged(this) && unchanged(conn) && out == if old(stale) then KernelRegistryStale else KernelRefused)
              && (letIn && !succeed ==> out == KernelDatabaseError)
              && (letIn && succeed ==>
                    match program.verdict
                    case Answer => out == Raw
                    case Refuse => out == KernelRefused
                    case DenyAccess => out == KernelAccessDenied
                    case RegistryMoved => out == KernelRegistryStale
                    case Break => out == KernelInternalError)
              && (letIn ==>
                    && conn.View() == DispatchWire(conn.run, old(conn.View()), program)
                    && Settled(conn.run, conn.View()) == DispatchEffect(conn.run, s, program)
                    && conn.queue == (if out != Raw then []
                                      else (if program.queries == [] then old(conn.queue) + [Savepoint(KERNEL_SAVEPOINT)] else [])
                                           + [Release(KERNEL_SAVEPOINT)])
                    && (stale <==> out == KernelRegistryStale)
                    && conn.callerPlans == (if out == Raw then old(conn.callerPlans) else {})
                    && conn.kernelGeneration == generation
                    && conn.kernelPlans == (if stale || (out != Raw && conn.ddlInTransaction) || old(conn.kernelGeneration) != generation
                                            then {} else old(conn.kernelPlans))
                    && conn.signals == (if out == Raw && (old(conn.signals).None? || old(conn.signals).value.generation != generation)
                                        then Some(Signals(generation, snapshot)) else old(conn.signals)))
      ensures old(stale) ==> stale
    {
      if stale {
        return KernelRegistryStale;
      }
      if request.Malformed? {
        return KernelRefused;
      }
      if request.registrySequence.Some? && request.registrySequence.value != registrySequence {
        return KernelRefused;
      }
      if conn.autocommit {
        return KernelRefused;
      }
      ghost var before := conn.View();
      ghost var s := Settled(conn.run, before);
      DispatchWireSettles(conn.run, before, program);
      var checked := conn.CheckedSignals(generation);
      conn.KernelStatementsAt(generation);
      conn.Post(Savepoint(KERNEL_SAVEPOINT));
      PostedSettles(conn.run, before, Savepoint(KERNEL_SAVEPOINT));
      AwaitQueriesDrains(conn.run, conn.View(), program.queries);
      var ok := conn.AwaitAll(program.queries);
      if program.verdict.Answer? && ok {
        conn.Post(Release(KERNEL_SAVEPOINT));
      } else {
        var _ := conn.Await(Undo(KERNEL_SAVEPOINT));
        conn.ClearPreparedAfterRollback();
      }
      out := if ok then Reported(program.verdict) else KernelDatabaseError;
      if out.KernelRegistryStale? {
        stale := true;
        conn.kernelPlans := {};
      }
      if out.Raw? && checked.None? {
        conn.signals := Some(Signals(generation, snapshot));
      }
    }
  }
}
