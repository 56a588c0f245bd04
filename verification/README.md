# Verification of the rust engine's Odoo layer

This project models the layer that makes the rust engine safe to put under Odoo, and proves what that
layer is for.  The SQL compiler itself is not modelled: what the kernel answers is a parameter everywhere.

| file | part of the system |
|---|---|
| `kernel_dispatch.dfy` | a kernel dispatch inside the caller's transaction: a FIFO of queued statements in front of a server with a savepoint stack and an aborted flag |
| `pool.dfy` | the connection pool: its locked sections as a class, and the protocol of all threads as a state machine over those sections |
| `taint.dfy` | which reads are held back because of security writes not yet committed or signalled |
| `routing.dfy` | policy, shadow comparison, quarantine and breaker, over trees of nested calls |
| `kernel_build.dfy` | the double-checked build of the kernel, statement by statement over all threads |
| `domain_rewrite.dfy`, `order_fragments.dfy`, `web_read.dfy`, `web_length.dfy`, `worklists.dfy` | transformations that must keep their meaning, and closures that must be exact |
| `conninfo.dfy`, `json_diff.dfy`, `text.dfy` | parsers and printers, and the string operations they use |
| `write_port.dfy` | batched native writes and their delegation |
| `wrappers.dfy`, `sequences.dfy` | the option type they share, and what it is to pass over elements of a sequence |
| `fork_tick.dfy` | the tick thread and the kill-switch connection across a tree of forks |

Code that works in place is a class or a method with loops, proved against a specification function; the
main results are lemmas about that function, over all inputs, runs or interleavings.  `dafny verify
dfyconfig.toml` checks everything.

What comes from outside is a parameter: the orm's verdict and queries (`kernel_dispatch`), which
connections the server has closed and whether a deadline has passed (`pool`), the outcome of a dispatch,
Python's answer and the nested calls (`routing`), the factory's outcome (`kernel_build`), the resolver and
the value every field has in the whole read (`web_read`), the field table (`order_fragments`, `worklists`),
the search and its hits (`domain_rewrite`), the bytes of a name (`conninfo`), and the kernel's refusals
(`write_port`).

Six promises hold only under a condition.  The exact condition is proved, together with a run or an
input that breaks the promise without it:

- a dispatch is invisible unless its transaction is aborted, the caller holds the kernel's savepoint name
  in it, and the program sends a query or does not answer, and a run of them unless that happens on the way
  (`DispatchInvisibleIff`, `UndisturbedIff`, `NameClashRevives`);
- no wake-up is lost unless a resize leaves more free slots than getconns on their way while somebody sleeps
  and no close is about to wake them (`NoLostWakeup`, `ResizeLosesWakeup`);
- the taint marks are the outstanding writes unless a signal clears a cursor that has written on top of the
  commit it signals (`TracksThroughoutIff`, `BusySignalForgets`);
- an order is restored unless a kept name is spelled like an issued placeholder (`RestoresIff`,
  `ClashExample`);
- the conninfo parser ends unless an equals sign stands where a key should start (`SpinsIff`,
  `LeadingEqualsSpins`);
- the database override changes dbname and nothing else of a rendered dsn unless its first key begins like a
  URI (`OverrideChangesOnlyDbname`, `UriKeyExample`).

## Model

| member | source | states |
|---|---|---|
| `KernelDispatch.NonInterference` | engine-py/src/kernel.rs:203-294 | over every run, with any mix of answered, refused and failing dispatches, whatever the refused and failing ones have written, any lag of the server and any savepoint names of the caller, as long as none of its aborted transactions a dispatch meets holds the kernel's name, erasing the dispatches changes neither the caller's replies nor the savepoint stack, aborted flag and data the connection settles into |
| `KernelDispatch.UndisturbedIff` | engine-py/src/kernel.rs:203-294 | a run leaves the caller's transaction at every moment as it would be without the dispatches exactly when no dispatch meets an aborted transaction in which the caller holds the kernel's savepoint name, save one that answers without a query |
| `KernelDispatch.AvoidingIsEnough` | engine-py/src/kernel.rs:15-18 | a caller that never opens a savepoint under the kernel's name meets that condition on every run |
| `KernelDispatch.DispatchInvisibleIff` | engine-py/src/kernel.rs:245-264 | one dispatch leaves the caller's transaction as it was, unless it is aborted, the caller holds the kernel's savepoint name in it, and the program is not one that answers without a query; and exactly then |
| `KernelDispatch.NameClashRevives` | engine-py/src/kernel.rs:15-18 | the assumption on the name is needed: a concrete refused dispatch revives an aborted transaction that holds a savepoint of that name |
| `KernelDispatch.CallerKeepsNameFree` | engine-py/src/kernel.rs:15-18 | a caller that never uses the kernel's name never has a savepoint under it |
| `KernelDispatch.PostedSettles` | engine-py/src/kernel.rs:246-246 | a statement queued without being awaited takes its effect after all statements queued before it |
| `KernelDispatch.AwaitQueriesSettles` | engine-py/src/kernel.rs:249-249 | the awaited queries of the orm act on the state the queued statements lead to |
| `KernelDispatch.DispatchWireSettles` | engine-py/src/kernel.rs:245-264 | queued SAVEPOINT and RELEASE and awaited undo have the effect of the statements executed in order, whatever is still on the wire |
| `KernelDispatch.QueriesKeepMarks` | engine-py/src/kernel.rs:245-264 | the kernel's own queries open and close no savepoint |
| `KernelDispatch.AllSucceedIff` | engine-py/src/kernel.rs:249-249 | all queries succeed exactly if each one does, in a transaction that is not aborted, on the data the ones before it leave |
| `KernelDispatch.AwaitQueriesDrains` | engine-py/src/kernel.rs:246-249 | after an awaited query nothing is left on the wire |
| `KernelDispatch.Connection.Post` | engine-py/src/kernel.rs:246-253 | a posted statement joins the queue and nothing else changes |
| `KernelDispatch.Connection.Await` | engine-py/src/kernel.rs:254-254 | an awaited statement is executed after the queue is drained, and its own reply comes back |
| `KernelDispatch.Connection.AwaitAll` | engine-py/src/kernel.rs:249-249 | the orm's queries are awaited one after the other, and all succeed exactly if each did in the state it met |
| `KernelDispatch.Connection.ServerMove` | engine-py/src/kernel.rs:245-264 | the server takes one statement at any moment without changing what the connection settles into |
| `KernelDispatch.RustKernel.Dispatch` | engine-py/src/kernel.rs:203-294 | a dispatch is let in exactly if the kernel is not stale, the request well formed and for this kernel's registry or none, and the connection not in autocommit, and answers exactly if it is let in, its queries succeed and the orm answers; whole new state of kernel and connection for each way it can go: turned away untouched, answered, refused, failed, stale for good; the caller's plans dropped on rollback, the kernel's on rollback after DDL, on a change of kernel generation and when stale; signals remembered only by the first answered one of a generation |
| `KernelDispatch.Connection.KernelStatementsAt` | engine-py/src/cursor.rs:1511-1522 | another generation of the kernel starts with no plans |
| `KernelDispatch.Connection.ClearPreparedAfterRollback` | engine-py/src/cursor.rs:2090-2126 | a rollback drops the caller's plans, and the kernel's if DDL ran in the transaction |
| `PoolSections.RustPool.constructor` | engine-py/python/rust_db_shim.py:671-696 | an empty pool with a limit of at least one for any size, closed unless opened |
| `PoolSections.RustPool.CheckoutLocked` | engine-py/python/rust_db_shim.py:774-794 | the locked section of getconn: pops until a connection of the current generation is found, closes the popped others top first, and reports reuse, connect, wait, timeout or closed |
| `PoolSections.CheckoutDecides` | engine-py/python/rust_db_shim.py:774-794 | in an open pool getconn reuses exactly if some entry is of the current generation and not closed, and then the topmost such; all entries above it, or all of them, are stale or closed and go; without one the limit decides between connecting and waiting, and the deadline between waiting and giving up |
| `PoolSections.RustPool.GiveBackLocked` | engine-py/python/rust_db_shim.py:802-811 | a reserved slot is given back |
| `PoolSections.RustPool.ReturnLocked` | engine-py/python/rust_db_shim.py:834-844 | a returned connection goes on top of the stack exactly if it is kept, current, not closed, with room and in a pool that is open; the count never goes below zero |
| `PoolSections.RustPool.BumpLocked` | engine-py/python/rust_db_shim.py:861-862 | drain's first section raises the generation and nothing else |
| `PoolSections.RustPool.TakeIdleLocked` | engine-py/python/rust_db_shim.py:846-851 | drain's second section empties the stack and hands over what was on it |
| `PoolSections.RustPool.SetClosedLocked` | engine-py/python/rust_db_shim.py:865-873 | close and open set the flag and nothing else |
| `PoolSections.RustPool.Resize` | engine-py/python/rust_db_shim.py:878-881 | a limit of at least one, also for a negative size; a falsy size changes nothing |
| `PoolProtocol.InvStep` | engine-py/python/rust_db_shim.py:768-881 | every locked section and every step between them keeps the places of all connections and the count of slots |
| `PoolProtocol.InvAlways` | engine-py/python/rust_db_shim.py:768-881 | the invariant holds after every legal interleaving |
| `PoolProtocol.Conservation` | engine-py/python/rust_db_shim.py:768-869 | every opened connection is in exactly one of idle (once), one thread's hands, lent, or closed; the out counter is the slots held plus the connections lent |
| `PoolProtocol.CapacityStep` | engine-py/python/rust_db_shim.py:785-794 | each step leaves idle plus out within the limit or does not raise it, resizes included |
| `PoolProtocol.CapacityAlways` | engine-py/python/rust_db_shim.py:785-794 | without a resize idle plus out never exceeds the limit |
| `PoolProtocol.ResizeKeepsWakeIff` | engine-py/python/rust_db_shim.py:878-881 | a resize loses no wake-up exactly when nobody sleeps, or the size is falsy, or the limit it stands for at most the slots out plus the getconns notified, or a close is about to wake everybody |
| `PoolProtocol.WakeStepIff` | engine-py/python/rust_db_shim.py:771-881 | every other step of every thread, closing and opening included, loses none |
| `PoolProtocol.NoLostWakeup` | engine-py/python/rust_db_shim.py:771-881 | over every run with closes, opens and resizes, at every moment but between the two sections of a close a getconn sleeps unnotified only while the pool is open and the free slots are at most the notified ones still to run: exactly when every resize meets that condition |
| `PoolProtocol.OpenPoolRouses` | engine-py/python/rust_db_shim.py:771-815 | a pool that is never closed needs no exception for a close |
| `PoolProtocol.SleepMeansExhausted` | engine-py/python/rust_db_shim.py:785-793 | with a fixed limit, closes and opens allowed: if nobody is awake, no close is under way and somebody sleeps, the pool is open and exhausted, with nothing idle and every slot out |
| `PoolProtocol.ResizeLosesWakeup` | engine-py/python/rust_db_shim.py:878-881 | a concrete legal run in which a resize leaves a getconn asleep beside a slot it freed |
| `PoolProtocol.StampFixed` | engine-py/python/rust_db_shim.py:806-807 | a connection's generation stamp never changes and the generation never goes back |
| `PoolProtocol.ReuseIsCurrent` | engine-py/python/rust_db_shim.py:778-784 | a reused connection carries the current generation |
| `PoolProtocol.ReuseIsAlive` | engine-py/python/rust_db_shim.py:778-784 | a connection the server has closed is not handed out |
| `PoolProtocol.DeadNeverReused` | engine-py/python/rust_db_shim.py:778-784 | nor by any later getconn of the run |
| `PoolProtocol.StaleNeverReused` | engine-py/python/rust_db_shim.py:778-784 | a connection with an older stamp is never handed out again by any later section |
| `PoolProtocol.DrainedNeverReused` | engine-py/python/rust_db_shim.py:853-863 | a connection known before a drain's bump is never handed out by a getconn whose section follows it, although bump and eviction are separate sections |
| `PoolProtocol.LateConnectNeverReused` | engine-py/python/rust_db_shim.py:796-807 | the same for a connection opened after the bump on a slot reserved before it, once it is returned |
| `TaintState.Taint.IsTainted` | engine-py/python/rust_orm_shim.py:339-341 | whether a read as this user on this cursor is held back |
| `TaintState.Taint.TaintUsers` | engine-py/python/rust_orm_shim.py:344-346 | adds users to the cursor's own set, made on first use; no set object is shared between entries |
| `TaintState.Taint.TaintRecord` | engine-py/python/rust_orm_shim.py:2222-2241 | a write that touches a watched column, or whose columns or watched columns are not known, holds back every read of the cursor, or for res.users the reads of the written users; one that touches no watched column changes nothing |
| `TaintLaws.WriteIsOwed` | engine-py/python/rust_orm_shim.py:379-400 | the marks a write leaves are those owed for it: by its model, its records and whether some key of it is a watched column |
| `TaintState.Taint.TaintCreate` | engine-py/python/rust_orm_shim.py:2244-2260 | a create of res.users marks the users it made, any other create of a security model marks the cursor whatever its values |
| `TaintState.Taint.KeepCommittedUsers` | engine-py/python/rust_orm_shim.py:1957-1958 | a commit copies the users of the cursor into a set of its own |
| `TaintState.Taint.RestoreUsers` | engine-py/python/rust_orm_shim.py:1962-1965 | a rollback replaces the users by a fresh copy of the committed ones, or drops them |
| `TaintState.Taint.Untaint` | engine-py/python/rust_orm_shim.py:1952-1966 | commit and rollback as functions of the marks, with the committed and the live sets never aliased |
| `TaintState.Taint.SignalCursors` | engine-py/python/rust_orm_shim.py:1969-1973 | the walk over the committed cursors clears exactly those of the signalled database, in any order |
| `TaintState.Taint.SignalUsers` | engine-py/python/rust_orm_shim.py:1974-1977 | the same for the users' marks |
| `TaintState.Taint.Signal` | engine-py/python/rust_orm_shim.py:1969-1977 | a signal clears the committed marks of its database and no other |
| `TaintLaws.TaintIsExact` | engine-py/python/rust_orm_shim.py:1952-1977 | over every run of writes, creates, commits, rollbacks and quiet signals a read is tainted if and only if its cursor has an uncommitted or committed-but-unsignalled write to a security model that touches a watched column, or such a write to its user |
| `TaintLaws.TracksThroughoutIff` | engine-py/python/rust_orm_shim.py:1952-1977 | over every run the marks are the outstanding writes at every moment exactly when every signal is quiet: none of the cursors it clears has written on top of the commit it signals |
| `TaintLaws.OpenWriteSurvivesSignal` | engine-py/python/rust_orm_shim.py:1969-1977 | a signal for one cursor's commit leaves the open write of another cursor of the database marked |
| `TaintLaws.SignalKeepsTrackIff` | engine-py/python/rust_orm_shim.py:1969-1977 | a signal keeps the marks right exactly when no cursor of its database has written on top of a commit it has not signalled |
| `TaintLaws.BusySignalForgets` | engine-py/python/rust_orm_shim.py:1969-1977 | commit, new security write, signal: the taint of the uncommitted write is dropped |
| `TaintLaws.NestedAlways` | engine-py/python/rust_orm_shim.py:1952-1977 | the committed marks stay inside the dirty marks over every run, quiet or not |
| `TaintLaws.WritesRollBack` | engine-py/python/rust_orm_shim.py:1959-1965 | whatever was written since, a rollback gives what it would have given without the writes |
| `TaintLaws.CommitWritesRollback` | engine-py/python/rust_orm_shim.py:1952-1966 | commit, any writes, rollback leaves what the commit alone leaves |
| `TaintLaws.OtherCursorsUntouched` | engine-py/python/rust_orm_shim.py:1952-1977 | an event on one cursor, or a signal of another database, changes no other cursor's marks |
| `RoutingState.Router.PolicyAllows` | engine-py/python/rust_orm_shim.py:190-212 | the policy's verdict, and its one side effect: a tripped model is listed once |
| `RoutingState.Router.RecordError` | engine-py/python/rust_orm_shim.py:1559-1572 | the counters an error moves, and which errors go to the caller |
| `RoutingState.Router.VerifiedBaseline` | engine-py/python/rust_orm_shim.py:307-312 | Python runs one baseline deeper, the depth is restored also when it raises, and raising quarantines the model |
| `RoutingState.Router.Try` | engine-py/python/rust_orm_shim.py:2045-2054 | gate, flush, dispatch and counters up to the point where Python is or is not asked: not after a caller's own error, nor in mode on when the kernel answers an unsampled call |
| `RoutingState.Router.SearchCount` | engine-py/python/rust_orm_shim.py:2043-2071 | a routed call, with the routed calls Odoo's own method makes inside it, moves the router's whole state as its specification says and delivers the specified answer |
| `RoutingState.Router.ResetBreaker` | engine-py/python/rust_orm_shim.py:90-100 | a reset of one model, or of all |
| `RoutingLaws.ShadowInvisible` | engine-py/python/rust_orm_shim.py:2051-2071 | over every run in shadow mode, whatever the kernel answers and whatever is quarantined on the way, every call at every depth delivers what it would deliver with Python left alone, where Python's answer depends on what its nested calls deliver; errors of the caller's own aside |
| `RoutingLaws.CallDecides` | engine-py/python/rust_orm_shim.py:2043-2071 | what one call does, read off mode, policy, gate, sampling and what the kernel came to: kept back for Python; the kernel's answer alone, with two counters moved, exactly in mode on and unsampled; Python's answer with exactly one comparison counter moved otherwise; the caller's own error; or recorded and left to Python |
| `RoutingLaws.UnsampledNeverCompares` | engine-py/python/rust_orm_shim.py:2051-2052 | over every run in mode on without sampled calls no comparison is counted and nothing quarantined |
| `RoutingLaws.EveryAnswerCompared` | engine-py/python/rust_orm_shim.py:2051-2067 | over every run in shadow mode, or with every call sampled, each answer of the kernel is compared |
| `RoutingLaws.AgreementInvisible` | engine-py/python/rust_orm_shim.py:2043-2071 | in any mode a body of calls hears what Python alone would tell it, on every run on which the kernel answers as Python alone would |
| `RoutingLaws.DivergenceQuarantines` | engine-py/python/rust_orm_shim.py:219-224 | a compared call adds its model to the quarantine exactly when Python left alone raises or answers otherwise, and no other call adds its own |
| `RoutingLaws.DivergenceLasts` | engine-py/python/rust_orm_shim.py:199-200 | after a divergence no later call on the model reaches the kernel, through any nested calls and mode changes, until a reset names it |
| `RoutingLaws.GivenUpUntilReset` | engine-py/python/rust_orm_shim.py:199-211 | the same for a model the breaker has tripped |
| `RoutingLaws.NothingRouted` | engine-py/python/rust_orm_shim.py:191-194 | under a baseline, or with routing off, no call of any nested run reaches the kernel, nothing but the gate counter moves, and Python hears what it would hear alone |
| `RoutingLaws.DepthRestored` | engine-py/python/rust_orm_shim.py:182-187 | every run leaves the baseline depth as it found it |
| `RoutingLaws.InvRun` | engine-py/python/rust_orm_shim.py:293-296 | every run keeps the lists free of repeats and the unexpected errors of a model within a positive breaker |
| `RoutingLaws.AgreementKeepsRouting` | engine-py/python/rust_orm_shim.py:219-224 | if Python agrees wherever the kernel answers, a run quarantines nothing |
| `RoutingLaws.EveryCallCounted` | engine-py/python/rust_orm_shim.py:80-87 | every call of a nested run is counted as kernel, gate or error exactly once, unless its error went to the caller, so the shares add up |
| `RoutingLaws.ResetGivesBack` | engine-py/python/rust_orm_shim.py:90-100 | a reset gives exactly the named models back, which needs the lists to be free of repeats |
| `RoutingLaws.RoutingAlways` | engine-py/python/rust_orm_shim.py:190-212 | the invariant over every run of calls, resets and mode changes, with no baseline left open |
| `BuildSteps.Process.InitializeIfReady` | engine-py/python/rust_orm_shim.py:122-172 | one thread's whole read of the kernel, whatever the other threads do while it waits for the lock |
| `BuildSteps.AloneIsMoves` | engine-py/python/rust_orm_shim.py:122-172 | the interleaved statements of one thread have exactly the effect of the whole function, in five statements before the lock and nine from it |
| `BuildProtocol.InvStep` | engine-py/python/rust_orm_shim.py:122-172 | every statement of every thread keeps the lock, the building mark and what each thread has learnt |
| `BuildProtocol.BuiltAtMostOnce` | engine-py/python/rust_orm_shim.py:143-168 | over all interleavings successful builds and decisive failures total at most one, and at most one thread is in the factory |
| `BuildProtocol.ReentrantReadsReturn` | engine-py/python/rust_orm_shim.py:141-142 | a read made by the factory on the building thread never reaches the lock and is told there is no kernel; no thread waits for itself |
| `BuildProtocol.KernelStays` | engine-py/python/rust_orm_shim.py:131-132 | a read that answers true does so with the kernel there, and it stays |
| `BuildProtocol.RetryLeftOpen` | engine-py/python/rust_orm_shim.py:138-166 | with the lock free a read reaches the factory again exactly if there is one, nothing was built or has failed, and the registry has moved on since the last incomplete export |
| `DomainRewrite.ResolveDisplayNameExact` | engine-py/python/rust_orm_shim.py:1029-1063 | the loop computes the rewriting, including the errors of odd values |
| `DomainRewrite.LeafRewritten` | engine-py/python/rust_orm_shim.py:1047-1062 | a leaf that is looked up becomes the ids an exact search over the exact fields finds, or else any of the name fields, relational ones by their display name; it stays only if there is neither |
| `DomainRewrite.OthersCopied` | engine-py/python/rust_orm_shim.py:1038-1053 | every other element is copied, but for a display_name leaf whose value cannot be listed, which raises |
| `DomainRewrite.NameFieldsInOrder` | engine-py/python/rust_orm_shim.py:1017-1026 | the name fields are those declared, in their order, without display_name and cyclic ones |
| `DomainRewrite.NoLeafLeft` | engine-py/python/rust_orm_shim.py:1029-1063 | no looked-up leaf is left in the rewritten domain while there is a name field |
| `DomainRewrite.AnyOfMeansAny` | engine-py/python/rust_orm_shim.py:1034-1035 | any_of of non-empty leaves is one complete term, true exactly when one leaf is |
| `DomainRewrite.ItemKeepsMeaning` | engine-py/python/rust_orm_shim.py:1038-1062 | one rewritten element pushes what the element pushed |
| `DomainRewrite.RewriteKeepsMeaning` | engine-py/python/rust_orm_shim.py:1029-1063 | any domain, under any nesting of operators, keeps its complete top-level terms and their truth on every record |
| `DomainRewrite.RewriteOfTrees` | engine-py/python/rust_orm_shim.py:1029-1063 | a domain spelling expression trees keeps as many terms, each as true as its tree, and accepts the same records |
| `DomainRewrite.ErrorSticks` | engine-py/python/rust_orm_shim.py:1048-1053 | an element whose value cannot be listed fails the whole rewriting |
| `OrderFragments.RewriteOrder` | engine-py/python/rust_orm_shim.py:1293-1321 | the loop computes the rewritten order and its fragments, or gives the order back |
| `OrderFragments.UntouchedIff` | engine-py/python/rust_orm_shim.py:1293-1321 | the order is given back exactly when some part goes on behind its name other than by a direction, a place for nulls or both, in any case of letters, or sorts by a computed field without an expression |
| `OrderFragments.RewrittenReads` | engine-py/python/rust_orm_shim.py:1293-1321 | read as an order clause, the rewritten text has the planned terms, with placeholders numbered from zero in the order of the fragments |
| `OrderFragments.RestoresIff` | engine-py/python/rust_orm_shim.py:1310-1321 | putting the fields back restores the terms exactly when no kept term is itself called by an issued placeholder |
| `OrderFragments.RewriteInvertible` | engine-py/python/rust_orm_shim.py:1293-1321 | either the order comes back untouched with no fragments, or substitution restores every term with direction and nulls words, exactly under that condition |
| `OrderFragments.ClashExample` | engine-py/python/rust_orm_shim.py:1310-1320 | the condition is needed: an unknown name spelled $0 beside a computed one comes out indistinguishable from it |
| `WebRead.SpecPlan` | engine-py/python/rust_orm_shim.py:1690-1711 | no plan exactly when a field is unknown or a specification is no dict; otherwise the kernel is asked for exactly the entries it can read, by the kind of field and the shape of the specification, Python for the others, and the id stands in when no field is left |
| `WebRead.KernelReadsExactly` | engine-py/python/rust_orm_shim.py:1641-1664 | an entry is the kernel's exactly if its field is no skipped type, stored, or related (through columns if not stored), or a display_name it can compute, and its specification carries no context, nor sub-fields but a many2one's display_name, nor, for an x2many, anything at all or a domain or search in Python |
| `WebRead.OnInOrder` | engine-py/python/rust_orm_shim.py:1690-1711 | the entries of a side keep the order of the specification |
| `WebRead.OnExactly` | engine-py/python/rust_orm_shim.py:1641-1664 | an entry is on a side exactly if it is of the specification and belongs there |
| `WebRead.SplitMany2ones` | engine-py/python/rust_orm_shim.py:1734-1740 | named many2ones of comodels the kernel labels are unredacted, the others raw |
| `WebRead.ResolveUnredacted` | engine-py/python/rust_orm_shim.py:1748-1759 | in place: tuples become dicts, empty values stay, and exactly the records whose value was hidden get the resolver's |
| `WebRead.ResolveMany2ones` | engine-py/python/rust_orm_shim.py:1743-1760 | all many2ones of all records in place, raw ones first |
| `WebRead.ResolvingSettles` | engine-py/python/rust_orm_shim.py:1743-1760 | after resolving, every value is the one the whole read shows |
| `WebRead.ReadReorder` | engine-py/python/rust_orm_shim.py:1889-1909 | one fresh copy per requested id in the order asked for, repetitions included; nothing exactly when an id was not returned and may exist |
| `WebRead.KeptInOrder` | engine-py/python/rust_orm_shim.py:1889-1909 | the ids that are kept are the known ones, each as often and in the order asked for |
| `WebRead.LatestIsLast` | engine-py/python/rust_orm_shim.py:1889-1898 | a record returned twice counts as it was returned last |
| `WebRead.Merge` | engine-py/python/rust_orm_shim.py:1714-1731 | the merged records: id first, then the specification's names in order, kernel's value where it has one; no key is missing |
| `WebRead.WithoutInOrder` | engine-py/python/rust_orm_shim.py:1714-1731 | the keys of a merged record behind the id are the other names in the order of the specification |
| `WebRead.MergedShows` | engine-py/python/rust_orm_shim.py:1714-1731 | the two halves together hold every name with its value |
| `WebRead.ReplyCovers` | engine-py/python/rust_orm_shim.py:1889-1898 | the ids the kernel returned are those that exist among the requested ones, each with its record |
| `WebRead.WebRead` | engine-py/python/rust_orm_shim.py:2427-2478 | the split read is refused exactly in the stated cases, and otherwise gives exactly the records of the whole read for any id list with duplicates, in specification order when merged |
| `WebRead.WebSearchRead` | engine-py/python/rust_orm_shim.py:2329-2393 | refused exactly when nothing is specified, before or after screening, or no plan can be made; otherwise exactly the records of the whole read, in the order the search found them, with a length that agrees with the search's total as far as the client counts, exactly unless an empty page was asked for |
| `Worklists.SearchExact` | engine-py/python/rust_orm_shim.py:700-716 | a depth-first worklist ends on every graph and finds a hit exactly if a known node reached from the roots is one |
| `Worklists.OrderDrifted` | engine-py/python/rust_orm_shim.py:433-449 | true exactly if some model reachable through many2one order and groupby edges has an order other than the exported one |
| `Worklists.DriftLoop` | engine-py/python/rust_orm_shim.py:435-448 | the loop over (model, names) pairs is that search |
| `Worklists.LookAt` | engine-py/python/rust_orm_shim.py:440-448 | one model looked at: drifted, or its comodels pushed with no names of their own |
| `Worklists.ClauseNames` | engine-py/python/rust_orm_shim.py:426-431 | the names an order clause sorts by are read off its text, with blanks, directions and properties around them |
| `Worklists.OrderEdgesExactly` | engine-py/python/rust_orm_shim.py:445-448 | an edge leads to a registered model exactly if a many2one to it is among the names of the model's order, or at the root among those the read asks for |
| `Worklists.AccessTheKernelLacks` | engine-py/python/rust_orm_shim.py:690-716 | a closure reason exactly if some registered model reached, or a parent whose rules it takes, is framed or outside the table; the reason names such a model |
| `Worklists.AccessLoop` | engine-py/python/rust_orm_shim.py:701-716 | the loop gives the reason for the first such model the search finds |
| `Worklists.ParentsReached` | engine-py/python/rust_orm_shim.py:701-716 | a registered model is reached exactly if it is a root or a parent of a reached model that takes its parents' rules |
| `Worklists.ReachDependsOnPrincipal` | engine-py/python/rust_orm_shim.py:1218-1236 | a principal-dependent reach is found exactly if one is reachable |
| `Conninfo.ParseConninfo` | engine-py/python/rust_db_shim.py:554-585 | the loops compute the parsed pairs and report when they would spin |
| `Conninfo.ReadTurn` | engine-py/python/rust_db_shim.py:557-585 | one turn of the outer loop: the index it leaves and the pair it yields |
| `Conninfo.SpinsIff` | engine-py/python/rust_db_shim.py:554-585 | the parser ends exactly on the texts in which one pass over the characters meets no equals sign where a key should start |
| `Conninfo.QuotedSettingRead` | engine-py/python/rust_db_shim.py:557-585 | a quoted setting, with blanks anywhere around key and equals sign and any characters escaped, is read as meant, to the closing quote or else the end |
| `Conninfo.BareSettingRead` | engine-py/python/rust_db_shim.py:557-585 | the same for a bare value, up to the next whitespace |
| `Conninfo.WordPassedOver` | engine-py/python/rust_db_shim.py:560-567 | a word that no equals sign follows yields nothing |
| `Conninfo.LastBackslash` | engine-py/python/rust_db_shim.py:572-585 | a backslash at the end of the text stands for itself |
| `Conninfo.LeadingEqualsSpins` | engine-py/python/rust_db_shim.py:560-566 | every text that begins with an equals sign is never parsed to its end |
| `Conninfo.RoundTrip` | engine-py/python/rust_db_shim.py:664-667 | parsing a rendered list gives it back in order, for arbitrary values, exactly when its keys are non-empty and free of whitespace and equals signs |
| `Conninfo.UnescapeEscape` | engine-py/python/rust_db_shim.py:571-578 | an escaped value between quotes is read back |
| `Conninfo.ComposeDsn` | engine-py/python/rust_db_shim.py:655-667 | the composed dsn renders the settings updated in place by CONNINFO, conninfo and kwargs |
| `Conninfo.LastWriterWins` | engine-py/python/rust_db_shim.py:656-663 | every key is named once and holds the last value written under it |
| `Conninfo.WhoWins` | engine-py/python/rust_db_shim.py:655-663 | a keyword that is given wins over the conninfo, and that over CONNINFO; among the settings of one text the last one wins |
| `Conninfo.ComposedParses` | engine-py/python/rust_db_shim.py:655-667 | the composed dsn parses back to the resolved settings, each key once |
| `Conninfo.RenderIsFixedPoint` | engine-py/python/rust_db_shim.py:655-667 | composing a rendered dsn again gives the same text |
| `Conninfo.ParsedKeysValid` | engine-py/python/rust_db_shim.py:560-566 | whatever is parsed has keys that render |
| `Conninfo.WithDbname` | kernel/src/config.rs:84-100 | the override is appended percent-encoded to a URI, behind an ampersand if it already has parameters and a question mark if not, and quoted to a conninfo |
| `Conninfo.OverrideChangesOnlyDbname` | kernel/src/config.rs:84-104 | what the override makes of a rendered dsn parses to the same settings with dbname changed and nothing else, exactly when its first key does not begin like a URI, or the dsn already holds both the name and the setting a URI would get |
| `Conninfo.RenderIsUriIff` | kernel/src/config.rs:87-87 | a rendered dsn is taken for a URI exactly when its first key begins with a URI scheme |
| `Conninfo.UriOverrideParses` | kernel/src/config.rs:87-97 | a rendered dsn taken for a URI parses, once overridden, to the same settings and one more, whose key is dbname behind a question mark or an ampersand and whose value is the percent-encoded name |
| `Conninfo.UriKeepsDbname` | kernel/src/config.rs:87-97 | so it keeps the dbname it had, if any, and every other setting but that one |
| `Conninfo.UriKeyExample` | kernel/src/config.rs:87-97 | a dsn whose first key was read off a URI is left without any dbname by the override |
| `Conninfo.PercentRoundTrip` | kernel/src/config.rs:89-96 | a percent-encoded name decodes to the same bytes |
| `Conninfo.StandsForItself` | kernel/src/config.rs:89-96 | letters, digits and four marks are not encoded, every other byte takes three characters |
| `JsonDiff.EqReportsFirst` | harness/diff.py:27-52 | eq reports the first mismatch, at the path that leads to it |
| `JsonDiff.DiffIsReal` | harness/diff.py:27-52 | at a reported mismatch both values have a node and the two disagree |
| `JsonDiff.EqMeansAgree` | harness/diff.py:27-52 | the verdict holds exactly if both values have the same shape and every leaf agrees |
| `JsonDiff.NumbersApart` | harness/diff.py:30-33 | finite numbers are told apart exactly when they differ by more than the tolerance, and by more than it times either of them |
| `JsonDiff.SpecialNumbers` | harness/diff.py:30-33 | what is not a number equals nothing; an infinity everything else but itself |
| `JsonDiff.OthersEqual` | harness/diff.py:28-36 | everything but two numbers, two lists or two dicts is compared for equality |
| `JsonDiff.ListsDecide` | harness/diff.py:36-43 | lists agree exactly if they are as long and agree item by item; the mismatch reported is in the first item that does not |
| `JsonDiff.DictsDecide` | harness/diff.py:44-51 | dicts agree exactly if they have the same keys and agree key by key, in any order |
| `JsonDiff.EqSymmetric` | harness/diff.py:27-52 | the verdict does not depend on which value is the expected one |
| `JsonDiff.EqReflexiveIff` | harness/diff.py:30-33 | a value equals itself exactly when no number in it is infinite or not a number |
| `JsonDiff.InfinityPasses` | harness/diff.py:30-33 | an infinity equals every finite number, and not itself |
| `JsonDiff.Dig` | harness/diff.py:321-336 | the reader of paths: its tokens, its indices, which may be signed, padded and grouped as int() takes them and count from the back when negative, and its fallback to the whole value |
| `JsonDiff.DigFollows` | harness/diff.py:321-336 | a printed path of plain keys and decimal indices is followed to where it leads |
| `JsonDiff.DigReachesMismatch` | harness/diff.py:27-52 | at a leaf mismatch the printed path makes the reader reach the unequal pair in both values |
| `Parameters.FlattenUndone` | engine-py/python/rust_backend.py:390-390 | row-major flattening is undone by reading the parameters row by row |
| `Parameters.FlattenIndexed` | engine-py/python/rust_backend.py:390-390 | and by (row, column) indexing |
| `Parameters.RunsUndo` | engine-py/python/rust_backend.py:307-310 | repeating each value of a uniform update is undone by taking one per run |
| `WritePort.PlanStatements` | engine-py/python/rust_backend.py:385-393 | one statement per batch, or none at all when any is refused, and nothing executed yet |
| `WritePort.PlannedUnlessRefused` | engine-py/python/rust_backend.py:385-393 | there is no plan exactly if some batch is refused |
| `WritePort.PlannedBatches` | engine-py/python/rust_backend.py:385-393 | the statement at each position takes the next `size` rows, or those that are left; together they take every row once |
| `WritePort.AnyRefusedIff` | engine-py/python/rust_backend.py:385-393 | some batch is refused exactly if the kernel refuses one of these |
| `WritePort.InsertBinds` | engine-py/python/rust_backend.py:387-397 | an insert binds exactly the rows of its batch, also without columns |
| `WritePort.ExecuteInserts` | engine-py/python/rust_backend.py:395-399 | every row becomes a record of its own under the id at its position, over all batches; nothing else is touched |
| `WritePort.CreateRowsNative` | engine-py/python/rust_backend.py:335-399 | native exactly if the rows are not left to COPY, there is a kernel of this registry, every value is a parameter and no batch is refused; refused without a trace; otherwise ids paired with rows |
| `WritePort.UpdateRowsNative` | engine-py/python/rust_backend.py:283-332 | the uniform and the batched form both write every row in turn, or nothing |
| `WritePort.RustBackend.CreateRows` | engine-py/python/rust_backend.py:146-154 | all or nothing: native rows and no delegate call, or no native statement and one delegate call with all rows; every call counted on one side |
| `WritePort.RustBackend.UpdateRows` | engine-py/python/rust_backend.py:156-162 | the same for updates |
| `EngineHooks.Engine.SwitchConnection` | addons/rust_engine/__init__.py:240-250 | the process's own open connection, opened when there is none |
| `EngineHooks.Engine.CloseSwitchConnection` | addons/rust_engine/__init__.py:253-260 | the entry is cleared and the connection closed only by its owner |
| `EngineHooks.Engine.ReadParams` | addons/rust_engine/__init__.py:263-277 | a failed read closes and forgets the connection it used |
| `EngineHooks.Engine.StopTick` | addons/rust_engine/__init__.py:378-391 | the tick is stopped and its period returned |
| `EngineHooks.Engine.BeforeFork` | addons/rust_engine/__init__.py:410-412 | the tick is stopped and remembered and the connection closed |
| `EngineHooks.Engine.AfterForkInParent` | addons/rust_engine/__init__.py:415-418 | the remembered tick is started again unless one runs |
| `EngineHooks.Engine.AfterForkInChild` | addons/rust_engine/__init__.py:421-422 | the child forgets what its parent would resume |
| `EngineHooks.Engine.ReportHere` | addons/rust_engine/__init__.py:449-458 | the first report of a process starts its tick, if the period is positive |
| `ForkTree.InvStep` | addons/rust_engine/__init__.py:410-458 | every hook of every process of the tree keeps the invariant |
| `ForkTree.OneTick` | addons/rust_engine/__init__.py:366-391 | over every fork tree a process has at most one tick thread, the one its state names |
| `ForkTree.ForksQuietly` | addons/rust_engine/__init__.py:410-412 | every fork happens with no tick running and no switch connection open |
| `ForkTree.ConnectionsNotShared` | addons/rust_engine/__init__.py:240-260 | no switch connection is ever held by two processes, and each is used by its opener |
| `ForkTree.ParentResumes` | addons/rust_engine/__init__.py:410-418 | whatever other processes do meanwhile, the parent's tick runs after the fork exactly if it ran before, at the same pace, also when the fork fails |
| `ForkTree.ChildStartsItsOwn` | addons/rust_engine/__init__.py:421-458 | over every run a forked child has no tick until it reports itself, and then exactly one if the period is positive |
| `ForkTree.ReportsOnce` | addons/rust_engine/__init__.py:449-450 | only the first report of a process starts a tick |
| `WebLength.LengthIsTotal` | engine-py/python/rust_orm_shim.py:1763-1771 | the reported length agrees with the true total as far as the client counts, and equals it without a cap, exactly unless an empty first page of some records was asked for |
| `WebLength.CountSpared` | engine-py/python/rust_orm_shim.py:1763-1771 | the kernel is not asked to count when the page is not full or reaches the client's cap, and counting is not forced |

## Left out

- The compiler modules (`orm`, `sqlgen`, `domain`, `scan`, `security`, `write`, `cursor`, `fragment`, `trigram`): what the kernel answers or refuses is a parameter.
- PostgreSQL beyond savepoints, the aborted flag and a table of rows; sockets, TLS, tokio and the interpreter lock.
- KernelDispatch.RustKernel.Dispatch: does not model the BEGIN that opens a transaction when there is none; the model starts inside a transaction.  Parse errors of the request are one of its refusals.
- KernelDispatch.NonInterference: takes an answered dispatch to have executed only queries that change no data; the statements a connection keeps prepared are in `Dispatch` and not in the run, and the plans a dispatch prepares itself are not modelled.
- Fork handling inside the pool: eviction does not first forget inherited connections, so no clean claim holds after a drain in a child.
- PoolProtocol.Conservation: a failing `configure` counts as a connection that was not opened, because the code drops it unclosed; the retries of a failing connect are internal to one step.
- PoolProtocol.NoLostWakeup: says nothing while a close is between its two sections, where sleepers may be left beside free slots until its second section wakes them all.
- TaintLaws.TaintIsExact: needs quiet signals; `TracksThroughoutIff` says exactly what that means for a run.
- Weak references that drop the marks of collected cursors, unhashable cursors, and the marks of written x2many fields.
- RoutingState.Router.SearchCount: stands for the wrappers of the other methods, which route in the same way; Python's bodies are finite lists of calls, each made or passed over and answered in the light of what was delivered before; a routed call made by the flush before a dispatch is not modelled, and neither is a change of mode during one call.
- The first error message kept per model, the reasons of the gate and all logging.
- BuildProtocol.BuiltAtMostOnce: is about one process and leaves out a registry hook that builds at the same time outside the lock.
- The process hook that runs before the kernel is looked up.
- DomainRewrite.RewriteKeepsMeaning: takes a `display_name` leaf to mean the exact hits when there are any and the name fields otherwise, which is the meaning the rewriting implements.
- WebRead.WebRead: the rest of the gate, the flush, the warming of the cache and the shadow comparison of the result are not in it; Odoo's resolver and `web_read` are given by the value function they agree with, and no value of a whole read is a tuple.
- WebRead.WebSearchRead: the search itself, the count and the screening of the specification are parameters, and pseudo-fields and overridden hooks, which leave the read to Python, belong to the gate; the count and the search see the same records.
- WebRead.ReadReorder: the sorting of the absent ids is not modelled, only whether there are any and whether one exists.
- JsonDiff.Dig: digits of other scripts, which Python's `int` also accepts, lead nowhere; the text of a key difference is a parameter, and rounding and overflow of floats are left out.
- Conninfo.ComposeDsn: a kwargs value is its text already; URIs are only appended to, never parsed.
- WritePort.CreateRowsNative: a statement that fails on the server raises through the port and is not modelled; the copy strategy belongs to the cursor.
- WritePort.UpdateRowsNative: with a repeated id in one statement the model takes the last row, where the server promises no order; the values Odoo finds uniform and the repeat counts of the statement are parameters with their contract.
- ForkTree.OneTick: the join never times out, one thread calls the hooks, and process ids are never used again.
- Reading and applying the kill-switch parameters, and the text of the periodic report.
- Benchmarks, soak and HTTP drivers, corpus generators, the export script, environment settings, and the tracing bridge.
- Statistics ratios, error kinds and stale checks that one branch settles.
