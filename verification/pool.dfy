/**
The connection pool of the database shim (`_RustPool` in engine-py/python/rust_db_shim.py): a lock,
a condition variable, a stack of idle connections stamped with the generation they were checked out
under, and a count of the slots handed out.

`RustPool` is the object, one method per locked section.  `PoolProtocol` runs any number of threads
through those sections, with everything the lock does not cover (connecting, health checks,
timeouts, closing a connection) as separate steps, and proves conservation, capacity, generations
and wake-ups over every interleaving.
*/
module PoolSections {
  import opened Wrappers

  type Conn = nat

  datatype Entry = Entry(conn: Conn, gen: nat)

  datatype Core = Core(idle: seq<Entry>, out: int, generation: nat, closed: bool, maxSize: nat)

  datatype Checkout =
    | PoolClosed
    | Reuse(conn: Conn, gen: nat)
    | Connect(gen: nat)
    | Wait
    | PoolTimeout

  predicate Fresh(e: Entry, generation: nat, dead: set<Conn>)
  {
    e.gen == generation && e.conn !in dead
  }

  /** The height the idle stack is popped down to: everything above it is stale or closed, and the
      entry just below it, if any, is fresh. */
  function FreshHeight(idle: seq<Entry>, generation: nat, dead: set<Conn>): (k: nat)
    ensures k <= |idle|
    ensures forall i :: k <= i < |idle| ==> !Fresh(idle[i], generation, dead)
    ensures k > 0 ==> Fresh(idle[k - 1], generation, dead)
  {
    if idle == [] then 0
    else if Fresh(idle[|idle| - 1], generation, dead) then |idle|
    else FreshHeight(idle[..|idle| - 1], generation, dead)
  }

  /** The locked section of getconn: the new pool, the outcome, and the height above which the
      popped entries were closed. */
  function CheckoutSection(p: Core, dead: set<Conn>, expired: bool): (Core, Checkout, nat)
  {
    if p.closed then (p, PoolClosed, |p.idle|)
    else
      var k := FreshHeight(p.idle, p.generation, dead);
      if k > 0 then
        (p.(idle := p.idle[..k - 1], out := p.out + 1), Reuse(p.idle[k - 1].conn, p.idle[k - 1].gen), k)
      else if p.out >= p.maxSize then
        (p.(idle := []), if expired then PoolTimeout else Wait, 0)
      else
        (p.(idle := [], out := p.out + 1), Connect(p.generation), 0)
  }

  /** What getconn decides: in an open pool the topmost entry of the current generation whose connection
      is not closed is reused, and all above it go; without one everything goes, and the limit decides
      between connecting and waiting, and the deadline between waiting and giving up. */
  lemma CheckoutDecides(p: Core, dead: set<Conn>, expired: bool)
    ensures var (p', outcome, k) := CheckoutSection(p, dead, expired);
            && (outcome.PoolClosed? <==> p.closed)
            && (outcome.Reuse? <==> !p.closed && exists i :: 0 <= i < |p.idle| && p.idle[i].gen == p.generation && p.idle[i].conn !in dead)
            && (outcome.Reuse? ==>
                  && 0 < k <= |p.idle| && p.idle[k - 1] == Entry(outcome.conn, outcome.gen)
                  && outcome.gen == p.generation && outcome.conn !in dead
                  && p' == p.(idle := p.idle[..k - 1], out := p.out + 1))
            && (forall i :: k <= i < |p.idle| ==> p.idle[i].gen != p.generation || p.idle[i].conn in dead)
            && (!p.closed && !outcome.Reuse? ==>
                  && k == 0
                  && outcome == (if p.out < p.maxSize then Connect(p.generation) else if expired then PoolTimeout else Wait)
                  && p' == p.(idle := [], out := if p.out < p.maxSize then p.out + 1 else p.out))
            && (p.closed ==> p' == p && k == |p.idle|)
  {
    var k := FreshHeight(p.idle, p.generation, dead);
    if k > 0 {
      assert p.idle[k - 1].gen == p.generation && p.idle[k - 1].conn !in dead;
    }
    forall i | 0 <= i < |p.idle| && p.idle[i].gen == p.generation && p.idle[i].conn !in dead
      ensures i < k
    {
      assert Fresh(p.idle[i], p.generation, dead);
    }
  }

  /** The locked section of putconn: the new pool and whether the connection was kept. */
  function ReturnSection(p: Core, conn: Conn, stamp: nat, dead: set<Conn>, keep: bool): (Core, bool)
  {
    var kept := keep && |p.idle| < p.maxSize && stamp == p.generation && !p.closed && conn !in dead;
    (p.(out := if p.out <= 1 then 0 else p.out - 1,
        idle := if kept then p.idle + [Entry(conn, p.generation)] else p.idle),
     kept)
  }

  /** The entries above height `k`, top first. */
  predicate DroppedFrom(dropped: seq<Entry>, idle: seq<Entry>, k: nat)
  {
    && |dropped| + k == |idle|
    && forall i :: 0 <= i < |dropped| ==> dropped[i] == idle[|idle| - 1 - i]
  }

  /** The limit a size stands for: at least one connection. */
  function LimitOf(size: int): nat
  {
    if size < 1 then 1 else size
  }

  class RustPool {
    var idle: seq<Entry>
    var out: int
    var generation: nat
    var closed: bool
    var maxSize: nat

    constructor (maxSize: int, open: bool)
      ensures View() == Core([], 0, 0, !open, LimitOf(maxSize))
    {
      idle, out, generation, closed := [], 0, 0, !open;
      this.maxSize := LimitOf(maxSize);
    }

    function View(): Core
      reads this
    {
      Core(idle, out, generation, closed, maxSize)
    }

    /** Pops until a fresh connection is found; `dropped` lists the entries it closed, top first. */
    method PopFresh(dead: set<Conn>) returns (conn: Option<Entry>, dropped: seq<Entry>)
      modifies this`idle
      ensures var k := FreshHeight(old(idle), generation, dead);
              && (conn.Some? <==> k > 0)
              && idle == old(idle)[..if k > 0 then k - 1 else 0]
              && (conn.Some? ==> conn.value == old(idle)[k - 1])
              && DroppedFrom(dropped, old(idle), k)
    {
      dropped, conn := [], None;
      while idle != [] && conn.None?
        invariant |idle| + (if conn.Some? then 1 else 0) <= |old(idle)| && idle == old(idle)[..|idle|]
        invariant DroppedFrom(dropped, old(idle), |idle| + if conn.Some? then 1 else 0)
        invariant conn.None? ==> FreshHeight(old(idle), generation, dead) == FreshHeight(idle, generation, dead)
        invariant conn.Some? ==> FreshHeight(old(idle), generation, dead) == |idle| + 1 && conn.value == old(idle)[|idle|]
        decreases |idle|
      {
        var candidate := idle[|idle| - 1];
        idle := idle[..|idle| - 1];
        if candidate.gen == generation && candidate.conn !in dead {
          conn := Some(candidate);
        } else {
          dropped := dropped + [candidate];
        }
      }
    }

    /** getconn, one pass under the lock. */
    method CheckoutLocked(dead: set<Conn>, expired: bool) returns (outcome: Checkout, dropped: seq<Entry>)
      modifies this`idle, this`out
      ensures View() == CheckoutSection(old(View()), dead, expired).0
      ensures outcome == CheckoutSection(old(View()), dead, expired).1
      ensures DroppedFrom(dropped, old(idle), CheckoutSection(old(View()), dead, expired).2)
      ensures outcome.PoolClosed? <==> closed
      ensures outcome.Reuse? <==>
                !closed && exists i :: 0 <= i < |old(idle)| && old(idle)[i].gen == generation && old(idle)[i].conn !in dead
      ensures outcome.Reuse? ==>
                && old(idle)[|idle|..] != [] && old(idle)[|idle|] == Entry(outcome.conn, generation) && outcome.conn !in dead
                && out == old(out) + 1
      ensures !closed && !outcome.Reuse? ==>
                && idle == []
                && outcome == (if old(out) < maxSize then Connect(generation) else if expired then PoolTimeout else Wait)
                && out == (if old(out) < maxSize then old(out) + 1 else old(out))
      ensures closed ==> idle == old(idle) && out == old(out) && dropped == []
      ensures idle <= old(idle) && |old(idle)| == |idle| + |dropped| + if outcome.Reuse? then 1 else 0
      ensures forall i :: 0 <= i < |dropped| ==>
                && dropped[i] == old(idle)[|old(idle)| - 1 - i]
                && (dropped[i].gen != generation || dropped[i].conn in dead)
    {
      CheckoutDecides(View(), dead, expired);
      if closed {
        return PoolClosed, [];
      }
      var conn: Option<Entry>;
      conn, dropped := PopFresh(dead);
      if conn.None? && out >= maxSize {
        outcome := if expired then PoolTimeout else Wait;
        return;
      }
      out := out + 1;
      outcome := if conn.Some? then Reuse(conn.value.conn, conn.value.gen) else Connect(generation);
    }

    /** A reserved slot is given back after a failed check, a failed connect or an exception. */
    method GiveBackLocked()
      modifies this`out
      ensures View() == old(View()).(out := old(out) - 1)
    {
      out := out - 1;
    }

    method ReturnLocked(conn: Conn, stamp: nat, dead: set<Conn>, keep: bool) returns (kept: bool)
      modifies this`idle, this`out
      ensures (View(), kept) == ReturnSection(old(View()), conn, stamp, dead, keep)
      ensures kept <==> keep && |old(idle)| < maxSize && stamp == generation && !closed && conn !in dead
      ensures idle == old(idle) + if kept then [Entry(conn, generation)] else []
      ensures out == if old(out) > 1 then old(out) - 1 else 0
    {
      out := if out - 1 > 0 then out - 1 else 0;
      var room := |idle| < maxSize;
      var current := stamp == generation;
      kept := keep && room && current && !closed && conn !in dead;
      if kept {
        idle := idle + [Entry(conn, generation)];
      }
    }

    method BumpLocked()
      modifies this`generation
      ensures View() == old(View()).(generation := old(generation) + 1)
    {
      generation := generation + 1;
    }

    method TakeIdleLocked() returns (taken: seq<Entry>)
      modifies this`idle
      ensures View() == old(View()).(idle := []) && taken == old(idle)
    {
      taken, idle := idle, [];
    }

    method SetClosedLocked(flag: bool)
      modifies this`closed
      ensures View() == old(View()).(closed := flag)
    {
      closed := flag;
    }

    method Resize(size: int)
      modifies this`maxSize
      ensures View() == old(View()).(maxSize := if size == 0 then old(maxSize) else LimitOf(size))
    {
      if size != 0 {
        maxSize := LimitOf(size);
      }
    }
  }
}

module PoolProtocol {
  import opened PoolSections
  import opened Wrappers

  type Thread = nat

  datatype Phase =
    | Entering                                    // in getconn, about to take the lock
    | Sleeping                                    // in cond.wait, not notified
    | TimedOut                                    // its wait ran out; may still be on the waiter list
    | Notified                                    // woken by a notify, has not rerun yet
    | Connecting(gen: nat)                        // holds a slot, opening a connection
    | Checking(conn: Conn, gen: nat)              // holds a slot and a popped idle connection
    | Failing(held: Option<Conn>, retry: bool)    // holds a slot it is about to give back
    | Evictor(closing: bool)                      // drain or close, between its two locked sections

  /** Who is responsible for a connection. */
  datatype Place = Idle(slot: nat) | Reserved(thread: Thread) | Lent | Leaving | Closed

  datatype State = State(
    core: Core,
    threads: map<Thread, Phase>,
    place: map<Conn, Place>,
    stamp: map<Conn, nat>,
    dead: set<Conn>)

  datatype Action =
    | Call(t: Thread)
    | CheckoutStep(t: Thread, expired: bool)
    | Expire(t: Thread)
    | ConnectOk(t: Thread, conn: Conn)
    | ConnectFail(t: Thread)
    | CheckPass(t: Thread)
    | CheckFail(t: Thread)
    | CheckBroken(t: Thread)
    | GiveBack(t: Thread, woken: Option<Thread>)
    | PutConn(conn: Conn, keep: bool, woken: Option<Thread>)
    | Bump(t: Thread)
    | CloseFlag(t: Thread)
    | Evict(t: Thread)
    | Dispose(conn: Conn)
    | Die(conn: Conn)
    | Open
    | Resize(size: int)

  predicate In(s: State, t: Thread, p: Phase)
  {
    t in s.threads && s.threads[t] == p
  }

  function Sleepers(s: State): set<Thread>
  {
    set t | t in s.threads && s.threads[t].Sleeping?
  }

  function Awoken(threads: map<Thread, Phase>): set<Thread>
  {
    set t | t in threads && threads[t].Notified?
  }

  /** notify() wakes one thread on the waiter list, if there is one.  A waiter that has just timed
      out may still be on the list. */
  predicate NotifyOk(s: State, woken: Option<Thread>)
  {
    match woken
    case None => Sleepers(s) == {}
    case Some(w) => w in s.threads && (s.threads[w].Sleeping? || s.threads[w].TimedOut?)
  }

  function Woken(threads: map<Thread, Phase>, woken: Option<Thread>): map<Thread, Phase>
  {
    match woken
    case None => threads
    case Some(w) => threads[w := Notified]
  }

  predicate Enabled(s: State, a: Action)
  {
    match a
    case Call(t) => t !in s.threads
    case CheckoutStep(t, _) => In(s, t, Entering) || In(s, t, TimedOut) || In(s, t, Notified)
    case Expire(t) => In(s, t, Sleeping)
    case ConnectOk(t, c) => t in s.threads && s.threads[t].Connecting? && c !in s.stamp && c !in s.place
    case ConnectFail(t) => t in s.threads && s.threads[t].Connecting?
    case CheckPass(t) => t in s.threads && s.threads[t].Checking?
    case CheckFail(t) => t in s.threads && s.threads[t].Checking?
    case CheckBroken(t) => t in s.threads && s.threads[t].Checking?
    case GiveBack(t, woken) => t in s.threads && s.threads[t].Failing? && NotifyOk(s, woken)
    case PutConn(c, _, woken) => c in s.place && s.place[c].Lent? && c in s.stamp && NotifyOk(s, woken)
    case Bump(t) => t !in s.threads
    case CloseFlag(t) => t !in s.threads
    case Evict(t) => t in s.threads && s.threads[t].Evictor?
    case Dispose(c) => c in s.place && s.place[c].Leaving?
    case Die(_) => true
    case Open => true
    case Resize(_) => true
  }

  /** The idle connections from stack position `k` upwards go elsewhere. */
  function Moved(place: map<Conn, Place>, k: nat, to: Place): map<Conn, Place>
  {
    map c | c in place :: if place[c].Idle? && place[c].slot >= k then to else place[c]
  }

  function AfterCheckout(s: State, t: Thread, expired: bool): State
    requires t in s.threads
  {
    var (core, outcome, k) := CheckoutSection(s.core, s.dead, expired);
    var s1 := s.(core := core, place := Moved(s.place, k, Closed));
    match outcome
    case PoolClosed => s1.(threads := s.threads - {t})
    case PoolTimeout => s1.(threads := s.threads - {t})
    case Wait => s1.(threads := s.threads[t := Sleeping])
    case Connect(g) => s1.(threads := s.threads[t := Connecting(g)])
    case Reuse(c, g) => s1.(threads := s.threads[t := Checking(c, g)], place := s1.place[c := Reserved(t)])
  }

  function Apply(s: State, a: Action): State
    requires Enabled(s, a)
  {
    match a
    case Call(t) => s.(threads := s.threads[t := Entering])
    case CheckoutStep(t, expired) => AfterCheckout(s, t, expired)
    case Expire(t) => s.(threads := s.threads[t := TimedOut])
    case ConnectOk(t, c) =>
      s.(threads := s.threads - {t}, place := s.place[c := Lent], stamp := s.stamp[c := s.threads[t].gen])
    case ConnectFail(t) => s.(threads := s.threads[t := Failing(None, false)])
    case CheckPass(t) =>
      var c := s.threads[t].conn;
      s.(threads := s.threads - {t}, place := s.place[c := Lent], stamp := s.stamp[c := s.threads[t].gen])
    case CheckFail(t) =>
      s.(threads := s.threads[t := Failing(None, true)], place := s.place[s.threads[t].conn := Closed])
    case CheckBroken(t) => s.(threads := s.threads[t := Failing(Some(s.threads[t].conn), false)])
    case GiveBack(t, woken) =>
      var held := s.threads[t].held;
      var rest := if s.threads[t].retry then s.threads[t := Entering] else s.threads - {t};
      s.(core := s.core.(out := s.core.out - 1),
         threads := Woken(rest, woken),
         place := if held.Some? then s.place[held.value := Leaving] else s.place)
    case PutConn(c, keep, woken) =>
      var (core, kept) := ReturnSection(s.core, c, s.stamp[c], s.dead, keep);
      s.(core := core, threads := Woken(s.threads, woken), place := s.place[c := if kept then Idle(|s.core.idle|) else Leaving])
    case Bump(t) =>
      s.(core := s.core.(generation := s.core.generation + 1), threads := s.threads[t := Evictor(false)])
    case CloseFlag(t) => s.(core := s.core.(closed := true), threads := s.threads[t := Evictor(true)])
    case Evict(t) =>
      s.(core := s.core.(idle := []),
         threads := map u | u in s.threads && u != t :: if s.threads[u].Sleeping? then Notified else s.threads[u],
         place := Moved(s.place, 0, Leaving))
    case Dispose(c) => s.(place := s.place[c := Closed])
    case Die(c) => s.(dead := s.dead + {c})
    case Open => s.(core := s.core.(closed := false))
    case Resize(size) => s.(core := s.core.(maxSize := if size == 0 then s.core.maxSize else LimitOf(size)))
  }

  function Initial(maxSize: int): State
  {
    State(Core([], 0, 0, false, LimitOf(maxSize)), map[], map[], map[], {})
  }

  // ----- the invariant ---------------------------------------------------------------------------------

  predicate HasSlot(p: Phase)
  {
    p.Connecting? || p.Checking? || p.Failing?
  }

  function Held(p: Phase): Option<Conn>
  {
    match p
    case Checking(c, _) => Some(c)
    case Failing(held, _) => held
    case _ => None
  }

  function Slots(threads: map<Thread, Phase>): set<Thread>
  {
    set t | t in threads && HasSlot(threads[t])
  }

  function LentOut(place: map<Conn, Place>): set<Conn>
  {
    set c | c in place && place[c].Lent?
  }

  ghost predicate IdleOk(s: State)
  {
    && (forall i :: 0 <= i < |s.core.idle| ==>
          var e := s.core.idle[i];
          e.conn in s.place && s.place[e.conn] == Idle(i) && e.conn in s.stamp && s.stamp[e.conn] == e.gen)
    && (forall c :: c in s.place && s.place[c].Idle? ==>
          s.place[c].slot < |s.core.idle| && s.core.idle[s.place[c].slot].conn == c)
  }

  ghost predicate ReservedOk(s: State)
  {
    && (forall t :: t in s.threads && Held(s.threads[t]).Some? ==>
          var c := Held(s.threads[t]).value; c in s.place && s.place[c] == Reserved(t))
    && (forall c :: c in s.place && s.place[c].Reserved? ==>
          s.place[c].thread in s.threads && Held(s.threads[s.place[c].thread]) == Some(c))
  }

  ghost predicate StampsOk(s: State)
  {
    && s.place.Keys == s.stamp.Keys
    && (forall c :: c in s.stamp ==> s.stamp[c] <= s.core.generation)
    && (forall t :: t in s.threads && s.threads[t].Connecting? ==> s.threads[t].gen <= s.core.generation)
    && (forall t :: t in s.threads && s.threads[t].Checking? ==>
          s.threads[t].conn in s.stamp && s.stamp[s.threads[t].conn] == s.threads[t].gen)
  }

  ghost predicate CountOk(s: State)
  {
    s.core.out == |Slots(s.threads)| + |LentOut(s.place)|
  }

  ghost predicate Inv(s: State)
  {
    IdleOk(s) && ReservedOk(s) && StampsOk(s) && CountOk(s)
  }

  function SlotsOf(threads: map<Thread, Phase>, t: Thread): nat
  {
    if t in threads && HasSlot(threads[t]) then 1 else 0
  }

  lemma SlotsUpdated(threads: map<Thread, Phase>, t: Thread, p: Phase)
    ensures |Slots(threads[t := p])| == |Slots(threads)| - SlotsOf(threads, t) + (if HasSlot(p) then 1 else 0)
  {
    var before, after := Slots(threads), Slots(threads[t := p]);
    assert after - {t} == before - {t};
    assert |before - {t}| == |before| - SlotsOf(threads, t);
    assert |after - {t}| == |after| - (if HasSlot(p) then 1 else 0);
  }

  lemma SlotsRemoved(threads: map<Thread, Phase>, t: Thread)
    ensures |Slots(threads - {t})| == |Slots(threads)| - SlotsOf(threads, t)
  {
    assert Slots(threads - {t}) == Slots(threads) - {t};
  }

  function LentOf(place: map<Conn, Place>, c: Conn): nat
  {
    if c in place && place[c].Lent? then 1 else 0
  }

  lemma LentUpdated(place: map<Conn, Place>, c: Conn, p: Place)
    ensures |LentOut(place[c := p])| == |LentOut(place)| - LentOf(place, c) + (if p.Lent? then 1 else 0)
  {
    var before, after := LentOut(place), LentOut(place[c := p]);
    assert after - {c} == before - {c};
    assert |before - {c}| == |before| - LentOf(place, c);
    assert |after - {c}| == |after| - (if p.Lent? then 1 else 0);
  }

  lemma WokenKeepsSlots(s: State, threads: map<Thread, Phase>, woken: Option<Thread>)
    requires woken.Some? ==> woken.value in threads && !HasSlot(threads[woken.value])
    ensures Slots(Woken(threads, woken)) == Slots(threads)
  {
  }

  // The invariant is kept in two parts: who holds which connection, and the count of slots.

  ghost predicate PlacesOk(s: State)
  {
    IdleOk(s) && ReservedOk(s) && StampsOk(s)
  }

  /** The entries from `k` upwards leave the idle stack. */
  function Trimmed(s: State, k: nat, to: Place): State
    requires k <= |s.core.idle|
  {
    s.(core := s.core.(idle := s.core.idle[..k]), place := Moved(s.place, k, to))
  }

  lemma TrimKeepsInv(s: State, k: nat, to: Place)
    requires Inv(s) && k <= |s.core.idle| && (to.Closed? || to.Leaving?)
    ensures Inv(Trimmed(s, k, to))
  {
    assert LentOut(Trimmed(s, k, to).place) == LentOut(s.place);
  }

  /** Thread `t` takes a slot together with the topmost idle connection. */
  function Taken(s: State, t: Thread): State
    requires s.core.idle != []
  {
    var n := |s.core.idle| - 1;
    var top := s.core.idle[n];
    s.(core := s.core.(idle := s.core.idle[..n], out := s.core.out + 1),
       threads := s.threads[t := Checking(top.conn, top.gen)],
       place := s.place[top.conn := Reserved(t)])
  }

  lemma TakeKeepsInv(s: State, t: Thread)
    requires Inv(s) && s.core.idle != [] && t in s.threads && !HasSlot(s.threads[t])
    ensures Inv(Taken(s, t))
  {
    var top := s.core.idle[|s.core.idle| - 1];
    SlotsUpdated(s.threads, t, Checking(top.conn, top.gen));
    LentUpdated(s.place, top.conn, Reserved(t));
  }

  /** A thread without a slot moves on, taking at most an empty slot. */
  lemma RephaseKeepsInv(s: State, t: Thread, p: Phase)
    requires Inv(s) && t in s.threads && !HasSlot(s.threads[t]) && !p.Checking? && !p.Failing?
    requires p.Connecting? ==> p.gen <= s.core.generation
    ensures Inv(s.(core := s.core.(out := s.core.out + if HasSlot(p) then 1 else 0), threads := s.threads[t := p]))
  {
    SlotsUpdated(s.threads, t, p);
  }

  lemma LeaveKeepsInv(s: State, t: Thread)
    requires Inv(s) && t in s.threads && !HasSlot(s.threads[t])
    ensures Inv(s.(threads := s.threads - {t}))
  {
    SlotsRemoved(s.threads, t);
  }

  lemma ReuseTakes(s: State, t: Thread, expired: bool)
    requires Enabled(s, CheckoutStep(t, expired))
    requires CheckoutSection(s.core, s.dead, expired).1.Reuse?
    ensures var k := CheckoutSection(s.core, s.dead, expired).2;
            && 0 < k <= |s.core.idle|
            && AfterCheckout(s, t, expired) == Taken(Trimmed(s, k, Closed), t)
  {
    var (core, outcome, k) := CheckoutSection(s.core, s.dead, expired);
    assert Trimmed(s, k, Closed).core.idle[..k - 1] == core.idle;
  }

  lemma InvReuse(s: State, t: Thread, expired: bool)
    requires Inv(s) && Enabled(s, CheckoutStep(t, expired))
    requires CheckoutSection(s.core, s.dead, expired).1.Reuse?
    ensures Inv(AfterCheckout(s, t, expired))
  {
    var (core, outcome, k) := CheckoutSection(s.core, s.dead, expired);
    TrimKeepsInv(s, k, Closed);
    ReuseTakes(s, t, expired);
    TakeKeepsInv(Trimmed(s, k, Closed), t);
  }

  lemma InvCheckout(s: State, t: Thread, expired: bool)
    requires Inv(s) && Enabled(s, CheckoutStep(t, expired))
    ensures Inv(AfterCheckout(s, t, expired))
  {
    var (core, outcome, k) := CheckoutSection(s.core, s.dead, expired);
    var trimmed := Trimmed(s, k, Closed);
    var s' := AfterCheckout(s, t, expired);
    TrimKeepsInv(s, k, Closed);
    match outcome {
      case Wait =>
        assert s' == trimmed.(threads := s.threads[t := Sleeping]);
        RephaseKeepsInv(trimmed, t, Sleeping);
      case Connect(g) =>
        RephaseKeepsInv(trimmed, t, Connecting(g));
      case Reuse(_, _) => InvReuse(s, t, expired);
      case PoolClosed =>
        assert s' == trimmed.(threads := s.threads - {t});
        LeaveKeepsInv(trimmed, t);
      case PoolTimeout =>
        assert s' == trimmed.(threads := s.threads - {t});
        LeaveKeepsInv(trimmed, t);
    }
  }

  lemma ReservedGiveBack(s: State, t: Thread, woken: Option<Thread>)
    requires Inv(s) && Enabled(s, GiveBack(t, woken))
    ensures ReservedOk(Apply(s, GiveBack(t, woken)))
  {
  }

  lemma StampsGiveBack(s: State, t: Thread, woken: Option<Thread>)
    requires Inv(s) && Enabled(s, GiveBack(t, woken))
    ensures StampsOk(Apply(s, GiveBack(t, woken)))
  {
  }

  lemma PlacesGiveBack(s: State, t: Thread, woken: Option<Thread>)
    requires Inv(s) && Enabled(s, GiveBack(t, woken))
    ensures PlacesOk(Apply(s, GiveBack(t, woken)))
  {
    ReservedGiveBack(s, t, woken);
    StampsGiveBack(s, t, woken);
  }

  lemma CountGiveBack(s: State, t: Thread, woken: Option<Thread>)
    requires Inv(s) && Enabled(s, GiveBack(t, woken))
    ensures CountOk(Apply(s, GiveBack(t, woken)))
  {
    var held := s.threads[t].held;
    var rest := if s.threads[t].retry then s.threads[t := Entering] else s.threads - {t};
    SlotsUpdated(s.threads, t, Entering);
    SlotsRemoved(s.threads, t);
    WokenKeepsSlots(s, rest, woken);
    if held.Some? {
      LentUpdated(s.place, held.value, Leaving);
    }
  }

  lemma PlacesPutConn(s: State, c: Conn, keep: bool, woken: Option<Thread>)
    requires Inv(s) && Enabled(s, PutConn(c, keep, woken))
    ensures PlacesOk(Apply(s, PutConn(c, keep, woken)))
  {
    var s' := Apply(s, PutConn(c, keep, woken));
    assert IdleOk(s');
    assert ReservedOk(s');
    assert StampsOk(s');
  }

  lemma CountPutConn(s: State, c: Conn, keep: bool, woken: Option<Thread>)
    requires Inv(s) && Enabled(s, PutConn(c, keep, woken))
    ensures CountOk(Apply(s, PutConn(c, keep, woken)))
  {
    var (core, kept) := ReturnSection(s.core, c, s.stamp[c], s.dead, keep);
    WokenKeepsSlots(s, s.threads, woken);
    LentUpdated(s.place, c, if kept then Idle(|s.core.idle|) else Leaving);
  }

  /** Threads without a slot may go, or be in any other phase without one. */
  lemma SlotlessKeepInv(s: State, threads: map<Thread, Phase>)
    requires Inv(s)
    requires forall u :: u in threads ==> u in s.threads && (threads[u] == s.threads[u] || (!HasSlot(s.threads[u]) && !HasSlot(threads[u])))
    requires forall u :: u in s.threads && u !in threads ==> !HasSlot(s.threads[u])
    ensures Inv(s.(threads := threads))
  {
    assert Slots(threads) == Slots(s.threads);
  }

  lemma InvEvict(s: State, t: Thread)
    requires Inv(s) && Enabled(s, Evict(t))
    ensures Inv(Apply(s, Evict(t)))
  {
    TrimKeepsInv(s, 0, Leaving);
    SlotlessKeepInv(Trimmed(s, 0, Leaving), Apply(s, Evict(t)).threads);
  }

  predicate Simple(a: Action)
  {
    !a.CheckoutStep? && !a.GiveBack? && !a.PutConn? && !a.Evict?
  }

  lemma IdleSimple(s: State, a: Action)
    requires Inv(s) && Enabled(s, a) && Simple(a)
    ensures IdleOk(Apply(s, a))
  {
  }

  predicate HandsOver(a: Action)
  {
    a.ConnectOk? || a.CheckPass? || a.CheckFail? || a.CheckBroken?
  }

  lemma StampsSimple(s: State, a: Action)
    requires Inv(s) && Enabled(s, a) && Simple(a)
    ensures StampsOk(Apply(s, a))
  {
  }

  lemma PlacesSimple(s: State, a: Action)
    requires Inv(s) && Enabled(s, a) && Simple(a)
    ensures PlacesOk(Apply(s, a))
  {
    IdleSimple(s, a);
    StampsSimple(s, a);
  }

  lemma CountSimple(s: State, a: Action)
    requires Inv(s) && Enabled(s, a) && Simple(a)
    ensures CountOk(Apply(s, a))
  {
    match a {
      case Call(t) => SlotsUpdated(s.threads, t, Entering);
      case Expire(t) => SlotsUpdated(s.threads, t, TimedOut);
      case ConnectOk(t, c) =>
        SlotsRemoved(s.threads, t);
        LentUpdated(s.place, c, Lent);
      case ConnectFail(t) =>
        SlotsUpdated(s.threads, t, Failing(None, false));
      case CheckPass(t) =>
        SlotsRemoved(s.threads, t);
        LentUpdated(s.place, s.threads[t].conn, Lent);
      case CheckFail(t) =>
        SlotsUpdated(s.threads, t, Failing(None, true));
        LentUpdated(s.place, s.threads[t].conn, Closed);
      case CheckBroken(t) =>
        SlotsUpdated(s.threads, t, Failing(Some(s.threads[t].conn), false));
      case Bump(t) => SlotsUpdated(s.threads, t, Evictor(false));
      case CloseFlag(t) => SlotsUpdated(s.threads, t, Evictor(true));
      case Dispose(c) => LentUpdated(s.place, c, Closed);
      case _ =>
    }
  }

  lemma InvStep(s: State, a: Action)
    requires Inv(s) && Enabled(s, a)
    ensures Inv(Apply(s, a))
  {
    match a {
      case CheckoutStep(t, expired) => InvCheckout(s, t, expired);
      case GiveBack(t, woken) => PlacesGiveBack(s, t, woken); CountGiveBack(s, t, woken);
      case PutConn(c, keep, woken) => PlacesPutConn(s, c, keep, woken); CountPutConn(s, c, keep, woken);
      case Evict(t) => InvEvict(s, t);
      case _ => PlacesSimple(s, a); CountSimple(s, a);
    }
  }

  // ----- runs --------------------------------------------------------------------------------------------

  /** The state after a schedule of actions; Legal says each was enabled when it was taken. */
  function After(s: State, actions: seq<Action>): State
  {
    if actions == [] then s
    else
      var n := |actions| - 1;
      var s1 := After(s, actions[..n]);
      if Enabled(s1, actions[n]) then Apply(s1, actions[n]) else s1
  }

  predicate Legal(s: State, actions: seq<Action>)
  {
    forall i :: 0 <= i < |actions| ==> Enabled(After(s, actions[..i]), actions[i])
  }

  lemma {:induction false} AfterStep(s: State, actions: seq<Action>, i: nat)
    requires i < |actions| && Legal(s, actions)
    ensures After(s, actions[..i + 1]) == Apply(After(s, actions[..i]), actions[i])
  {
    assert actions[..i + 1][..i] == actions[..i];
  }

  lemma AfterLast(maxSize: int, actions: seq<Action>)
    requires actions != [] && Legal(Initial(maxSize), actions)
    ensures var n := |actions| - 1;
            var s := After(Initial(maxSize), actions[..n]);
            Enabled(s, actions[n]) && After(Initial(maxSize), actions) == Apply(s, actions[n])
  {
    AfterStep(Initial(maxSize), actions, |actions| - 1);
    assert actions[..|actions| - 1 + 1] == actions;
  }

  lemma {:induction false} LegalPrefix(s: State, actions: seq<Action>, i: nat)
    requires i <= |actions| && Legal(s, actions)
    ensures Legal(s, actions[..i])
  {
    forall j | 0 <= j < i
      ensures Enabled(After(s, actions[..i][..j]), actions[..i][j])
    {
      assert actions[..i][..j] == actions[..j];
    }
  }

  lemma {:induction false} InvAlways(maxSize: int, actions: seq<Action>)
    requires Legal(Initial(maxSize), actions)
    ensures Inv(After(Initial(maxSize), actions))
  {
    if actions == [] {
      assert Slots(map[]) == {} && LentOut(map[]) == {};
    } else {
      var n := |actions| - 1;
      LegalPrefix(Initial(maxSize), actions, n);
      InvAlways(maxSize, actions[..n]);
      AfterLast(maxSize, actions);
      InvStep(After(Initial(maxSize), actions[..n]), actions[n]);
    }
  }

  // ----- conservation --------------------------------------------------------------------------------------

  ghost predicate OnIdle(s: State, c: Conn)
  {
    exists i :: 0 <= i < |s.core.idle| && s.core.idle[i].conn == c
  }

  ghost predicate InHands(s: State, c: Conn)
  {
    exists t :: t in s.threads && Held(s.threads[t]) == Some(c)
  }

  ghost predicate Gone(s: State, c: Conn)
  {
    c in s.place && (s.place[c].Leaving? || s.place[c].Closed?)
  }

  function One(b: bool): nat
  {
    if b then 1 else 0
  }

  /** Conservation over every interleaving: an opened connection is on the idle stack once, or held
      by one thread inside getconn, or lent to one holder, or closed (or about to be); and `_out`
      counts the threads holding a slot plus the connections lent. */
  lemma Conservation(maxSize: int, actions: seq<Action>)
    requires Legal(Initial(maxSize), actions)
    ensures var s := After(Initial(maxSize), actions);
            && s.core.out == |Slots(s.threads)| + |LentOut(s.place)|
            && (forall c :: c in s.stamp ==>
                  One(OnIdle(s, c)) + One(InHands(s, c)) + One(c in LentOut(s.place)) + One(Gone(s, c)) == 1)
            && (forall i, j :: 0 <= i < j < |s.core.idle| ==> s.core.idle[i].conn != s.core.idle[j].conn)
            && (forall t, u :: t in s.threads && u in s.threads && t != u && Held(s.threads[t]).Some? ==>
                  Held(s.threads[t]) != Held(s.threads[u]))
  {
    InvAlways(maxSize, actions);
    var s := After(Initial(maxSize), actions);
    forall c | c in s.stamp
      ensures One(OnIdle(s, c)) + One(InHands(s, c)) + One(c in LentOut(s.place)) + One(Gone(s, c)) == 1
    {
      assert c in s.place;
      assert OnIdle(s, c) <==> s.place[c].Idle?;
      assert InHands(s, c) <==> s.place[c].Reserved?;
    }
  }

  // ----- capacity ---------------------------------------------------------------------------------------------

  function Load(s: State): int
  {
    |s.core.idle| + s.core.out
  }

  /** Each step leaves idle + out within the limit or does not raise it, resizes included. */
  lemma CapacityStep(s: State, a: Action)
    requires Inv(s) && Enabled(s, a)
    ensures var s' := Apply(s, a); Load(s') <= s'.core.maxSize || Load(s') <= Load(s)
  {
    if a.PutConn? {
      assert a.conn in LentOut(s.place);
    }
  }

  predicate NeverResizes(actions: seq<Action>)
  {
    forall i :: 0 <= i < |actions| ==> !actions[i].Resize?
  }

  lemma {:induction false} CapacityAlways(maxSize: int, actions: seq<Action>)
    requires Legal(Initial(maxSize), actions) && NeverResizes(actions)
    ensures var s := After(Initial(maxSize), actions);
            s.core.maxSize == Initial(maxSize).core.maxSize && Load(s) <= s.core.maxSize
  {
    if actions != [] {
      var n := |actions| - 1;
      LegalPrefix(Initial(maxSize), actions, n);
      CapacityAlways(maxSize, actions[..n]);
      InvAlways(maxSize, actions[..n]);
      AfterLast(maxSize, actions);
      CapacityStep(After(Initial(maxSize), actions[..n]), actions[n]);
    }
  }

  // ----- wake-ups -----------------------------------------------------------------------------------------------

  function AwokenOf(threads: map<Thread, Phase>, t: Thread): nat
  {
    One(t in threads && threads[t].Notified?)
  }

  lemma AwokenUpdated(threads: map<Thread, Phase>, t: Thread, p: Phase)
    ensures |Awoken(threads[t := p])| == |Awoken(threads)| - AwokenOf(threads, t) + One(p.Notified?)
  {
    var before, after := Awoken(threads), Awoken(threads[t := p]);
    assert after - {t} == before - {t};
    assert |before - {t}| == |before| - AwokenOf(threads, t);
    assert |after - {t}| == |after| - One(p.Notified?);
  }

  lemma AwokenRemoved(threads: map<Thread, Phase>, t: Thread)
    ensures |Awoken(threads - {t})| == |Awoken(threads)| - AwokenOf(threads, t)
  {
    assert Awoken(threads - {t}) == Awoken(threads) - {t};
  }

  /** Whenever some getconn sleeps unnotified, every free slot has a notified getconn on its way. */
  ghost predicate Roused(s: State)
  {
    Sleepers(s) != {} ==> s.core.maxSize - s.core.out <= |Awoken(s.threads)|
  }

  /** A close has raised its flag and is still to wake everybody. */
  ghost predicate Closing(s: State)
  {
    exists t :: t in s.threads && s.threads[t] == Evictor(true)
  }

  /** Nobody sleeps beside a free slot, nor in a closed pool, but while a close is on its way to wake
      them all. */
  ghost predicate WakeOk(s: State)
  {
    Closing(s) || (Roused(s) && (s.core.closed ==> Sleepers(s) == {}))
  }

  lemma WakeNotify(s: State, rest: map<Thread, Phase>, woken: Option<Thread>, s': State)
    requires Roused(s) && NotifyOk(s, woken)
    requires s'.threads == Woken(rest, woken)
    requires |Awoken(rest)| == |Awoken(s.threads)|
    requires forall t :: t in rest && rest[t].Sleeping? ==> t in Sleepers(s)
    requires woken.Some? ==> woken.value in rest && !rest[woken.value].Notified?
    requires s'.core.maxSize == s.core.maxSize && s'.core.out >= s.core.out - 1
    ensures Roused(s') && Sleepers(s') <= Sleepers(s)
  {
    match woken {
      case None =>
      case Some(w) => AwokenUpdated(rest, w, Notified);
    }
    forall t | t in Sleepers(s')
      ensures t in Sleepers(s)
    {
      assert t in rest && rest[t].Sleeping?;
    }
  }

  lemma WakeCheckout(s: State, t: Thread, expired: bool)
    requires Roused(s) && !s.core.closed && Enabled(s, CheckoutStep(t, expired))
    ensures Roused(AfterCheckout(s, t, expired))
  {
    var s' := AfterCheckout(s, t, expired);
    match CheckoutSection(s.core, s.dead, expired).1 {
      case PoolClosed =>
      case PoolTimeout => AwokenRemoved(s.threads, t);
      case Wait => AwokenUpdated(s.threads, t, Sleeping);
      case Connect(g) => AwokenUpdated(s.threads, t, Connecting(g));
      case Reuse(c, g) => AwokenUpdated(s.threads, t, Checking(c, g));
    }
    if Sleepers(s') != {} && Sleepers(s) == {} {
      var u :| u in Sleepers(s');
      assert u == t || u in Sleepers(s);
    }
  }

  /** Which steps can lose a wake-up: only a resize that leaves more free slots than getconns on their
      way, while somebody sleeps and no close is about to wake everybody. */
  ghost predicate Rouses(s: State, a: Action)
  {
    a.Resize? && !Closing(s) ==> Sleepers(s) == {} || a.size == 0 || LimitOf(a.size) <= s.core.out + |Awoken(s.threads)|
  }

  lemma ResizeKeepsWakeIff(s: State, size: int)
    requires WakeOk(s)
    ensures WakeOk(Apply(s, Resize(size))) <==> Rouses(s, Resize(size))
  {
    var s' := Apply(s, Resize(size));
    assert s'.threads == s.threads && Sleepers(s') == Sleepers(s);
    assert Closing(s') <==> Closing(s);
  }

  /** A close in progress stays so until its own last section. */
  lemma ClosingStays(s: State, a: Action)
    requires Closing(s) && Enabled(s, a) && !a.Evict?
    ensures Closing(Apply(s, a))
  {
    var t :| t in s.threads && s.threads[t] == Evictor(true);
    assert t in Apply(s, a).threads && Apply(s, a).threads[t] == Evictor(true);
  }

  /** Once everybody is woken nobody sleeps. */
  lemma EvictRouses(s: State, t: Thread)
    requires Enabled(s, Evict(t))
    ensures Sleepers(Apply(s, Evict(t))) == {}
  {
  }

  /** Every step in a pool that is open, resizes aside. */
  lemma OpenStepRouses(s: State, a: Action)
    requires Roused(s) && !s.core.closed && Enabled(s, a) && !a.Resize? && !a.CloseFlag? && !a.Evict?
    ensures Roused(Apply(s, a))
  {
    var s' := Apply(s, a);
    match a {
      case CheckoutStep(t, expired) => WakeCheckout(s, t, expired);
      case GiveBack(t, woken) =>
        var rest := if s.threads[t].retry then s.threads[t := Entering] else s.threads - {t};
        AwokenUpdated(s.threads, t, Entering);
        AwokenRemoved(s.threads, t);
        WakeNotify(s, rest, woken, s');
      case PutConn(c, keep, woken) => WakeNotify(s, s.threads, woken, s');
      case ConnectOk(t, c) => AwokenRemoved(s.threads, t); assert Sleepers(s') == Sleepers(s);
      case CheckPass(t) => AwokenRemoved(s.threads, t); assert Sleepers(s') == Sleepers(s);
      case Call(t) => AwokenUpdated(s.threads, t, Entering); assert Sleepers(s') == Sleepers(s);
      case Expire(t) => AwokenUpdated(s.threads, t, TimedOut); assert Sleepers(s') <= Sleepers(s);
      case ConnectFail(t) => AwokenUpdated(s.threads, t, s'.threads[t]); assert Sleepers(s') == Sleepers(s);
      case CheckFail(t) => AwokenUpdated(s.threads, t, s'.threads[t]); assert Sleepers(s') == Sleepers(s);
      case CheckBroken(t) => AwokenUpdated(s.threads, t, s'.threads[t]); assert Sleepers(s') == Sleepers(s);
      case Bump(t) => AwokenUpdated(s.threads, t, Evictor(false)); assert Sleepers(s') == Sleepers(s);
      case _ =>
    }
  }

  lemma CloseFlagCloses(s: State, t: Thread)
    requires Enabled(s, CloseFlag(t))
    ensures Closing(Apply(s, CloseFlag(t)))
  {
    assert Apply(s, CloseFlag(t)).threads[t] == Evictor(true);
  }

  lemma OtherStepKeepsWake(s: State, a: Action)
    requires WakeOk(s) && Enabled(s, a) && !a.Resize? && !a.CloseFlag? && !a.Evict?
    ensures WakeOk(Apply(s, a))
  {
    if Closing(s) {
      ClosingStays(s, a);
    } else if s.core.closed {
    } else {
      OpenStepRouses(s, a);
    }
  }

  /** Exactly which steps keep every wake-up: all of them, but for such a resize. */
  lemma WakeStepIff(s: State, a: Action)
    requires WakeOk(s) && Enabled(s, a)
    ensures WakeOk(Apply(s, a)) <==> Rouses(s, a)
  {
    match a {
      case Resize(size) => ResizeKeepsWakeIff(s, size);
      case Evict(t) => EvictRouses(s, t);
      case CloseFlag(t) => CloseFlagCloses(s, t);
      case _ => OtherStepKeepsWake(s, a);
    }
  }

  ghost predicate WakeOkAt(maxSize: int, actions: seq<Action>, i: nat)
    requires i <= |actions|
  {
    WakeOk(After(Initial(maxSize), actions[..i]))
  }

  ghost predicate RousesAt(maxSize: int, actions: seq<Action>, i: nat)
    requires i < |actions|
  {
    Rouses(After(Initial(maxSize), actions[..i]), actions[i])
  }

  ghost predicate WakesThrough(maxSize: int, actions: seq<Action>, n: nat)
    requires n <= |actions|
  {
    forall i :: 0 <= i <= n ==> WakeOkAt(maxSize, actions, i)
  }

  ghost predicate RousesThrough(maxSize: int, actions: seq<Action>, n: nat)
    requires n <= |actions|
  {
    forall i :: 0 <= i < n ==> RousesAt(maxSize, actions, i)
  }

  lemma PrefixWakes(maxSize: int, actions: seq<Action>, n: nat)
    requires n <= |actions|
    ensures WakesThrough(maxSize, actions[..n], n) == WakesThrough(maxSize, actions, n)
  {
    forall i | 0 <= i <= n
      ensures WakeOkAt(maxSize, actions[..n], i) == WakeOkAt(maxSize, actions, i)
    {
      assert actions[..n][..i] == actions[..i];
    }
  }

  lemma PrefixRouses(maxSize: int, actions: seq<Action>, n: nat)
    requires n <= |actions|
    ensures RousesThrough(maxSize, actions[..n], n) == RousesThrough(maxSize, actions, n)
  {
    forall i | 0 <= i < n
      ensures RousesAt(maxSize, actions[..n], i) == RousesAt(maxSize, actions, i)
    {
      assert actions[..n][..i] == actions[..i];
    }
  }

  /** No wake-up is lost, over every run with closes, opens and resizes, exactly when every resize that
      leaves more free slots than getconns on their way finds nobody asleep or a close on its way. */
  lemma {:induction false} NoLostWakeup(maxSize: int, actions: seq<Action>)
    requires Legal(Initial(maxSize), actions)
    ensures WakesThrough(maxSize, actions, |actions|) <==> RousesThrough(maxSize, actions, |actions|)
  {
    if actions != [] {
      var n := |actions| - 1;
      LegalPrefix(Initial(maxSize), actions, n);
      NoLostWakeup(maxSize, actions[..n]);
      PrefixWakes(maxSize, actions, n);
      PrefixRouses(maxSize, actions, n);
      assert WakesThrough(maxSize, actions, |actions|) <==> WakesThrough(maxSize, actions, n) && WakeOkAt(maxSize, actions, |actions|);
      assert RousesThrough(maxSize, actions, |actions|) <==> RousesThrough(maxSize, actions, n) && RousesAt(maxSize, actions, n);
      if WakeOkAt(maxSize, actions, n) {
        LastWakeIff(maxSize, actions);
      }
    }
  }

  lemma LastWakeIff(maxSize: int, actions: seq<Action>)
    requires Legal(Initial(maxSize), actions) && actions != []
    requires WakeOkAt(maxSize, actions, |actions| - 1)
    ensures WakeOkAt(maxSize, actions, |actions|) <==> RousesAt(maxSize, actions, |actions| - 1)
  {
    var n := |actions| - 1;
    AfterLast(maxSize, actions);
    assert actions == actions[..|actions|];
    WakeStepIff(After(Initial(maxSize), actions[..n]), actions[n]);
  }

  predicate NeverCloses(actions: seq<Action>)
  {
    forall i :: 0 <= i < |actions| ==> !actions[i].CloseFlag?
  }

  /** In particular with a fixed limit a getconn left asleep with nobody on the way, and no close under
      way, means the pool is open and truly exhausted. */
  lemma SleepMeansExhausted(maxSize: int, actions: seq<Action>)
    requires Legal(Initial(maxSize), actions) && NeverResizes(actions)
    ensures var s := After(Initial(maxSize), actions);
            Sleepers(s) != {} && Awoken(s.threads) == {} && !Closing(s) ==>
              !s.core.closed && s.core.idle == [] && s.core.out == s.core.maxSize
  {
    NoLostWakeup(maxSize, actions);
    CapacityAlways(maxSize, actions);
    assert WakeOkAt(maxSize, actions, |actions|) && actions[..|actions|] == actions;
  }

  ghost predicate StaysOpen(s: State)
  {
    !Closing(s) && !s.core.closed
  }

  lemma StaysOpenStep(s: State, a: Action)
    requires StaysOpen(s) && Enabled(s, a) && !a.CloseFlag?
    ensures StaysOpen(Apply(s, a))
  {
    forall t | t in Apply(s, a).threads
      ensures Apply(s, a).threads[t] != Evictor(true)
    {
      assert t in s.threads ==> s.threads[t] != Evictor(true);
    }
  }

  lemma {:induction false} NeverClosed(maxSize: int, actions: seq<Action>)
    requires Legal(Initial(maxSize), actions) && NeverCloses(actions)
    ensures StaysOpen(After(Initial(maxSize), actions))
  {
    if actions != [] {
      var n := |actions| - 1;
      LegalPrefix(Initial(maxSize), actions, n);
      NeverClosed(maxSize, actions[..n]);
      AfterLast(maxSize, actions);
      StaysOpenStep(After(Initial(maxSize), actions[..n]), actions[n]);
    }
  }

  /** A pool that is never closed needs no exception: while anybody sleeps the free slots are at most
      the notified getconns still to run. */
  lemma OpenPoolRouses(maxSize: int, actions: seq<Action>)
    requires Legal(Initial(maxSize), actions) && NeverCloses(actions)
    requires RousesThrough(maxSize, actions, |actions|)
    ensures Roused(After(Initial(maxSize), actions))
  {
    NoLostWakeup(maxSize, actions);
    NeverClosed(maxSize, actions);
    assert WakeOkAt(maxSize, actions, |actions|) && actions[..|actions|] == actions;
  }

  // A pool of one: thread 1 takes the only slot, thread 2 goes to sleep.

  const SLEEPER_RUN: seq<Action> :=
    [Call(1), CheckoutStep(1, false), ConnectOk(1, 7), Call(2), CheckoutStep(2, false)]

  function SleeperStage(k: nat): State
    requires k <= 5
  {
    var one := Core([], 1, 0, false, 1);
    if k == 0 then Initial(1)
    else if k == 1 then Initial(1).(threads := map[1 := Entering])
    else if k == 2 then State(one, map[1 := Connecting(0)], map[], map[], {})
    else
      var threads := if k == 3 then map[] else if k == 4 then map[2 := Entering] else map[2 := Sleeping];
      State(one, threads, map[7 := Lent], map[7 := 0], {})
  }

  lemma SleeperStep(k: nat)
    requires k < 5
    ensures Enabled(SleeperStage(k), SLEEPER_RUN[k]) && Apply(SleeperStage(k), SLEEPER_RUN[k]) == SleeperStage(k + 1)
  {
  }

  lemma {:induction false} SleeperReaches(k: nat)
    requires k <= 5
    ensures After(Initial(1), SLEEPER_RUN[..k]) == SleeperStage(k)
  {
    if k > 0 {
      SleeperReaches(k - 1);
      SleeperStep(k - 1);
      assert SLEEPER_RUN[..k][..k - 1] == SLEEPER_RUN[..k - 1];
    }
  }

  /** Raising the limit notifies nobody: in a legal run a getconn goes on sleeping beside a slot that
      a resize has just freed. */
  lemma ResizeLosesWakeup()
    ensures Legal(Initial(1), SLEEPER_RUN)
    ensures var s := After(Initial(1), SLEEPER_RUN);
            WakeOk(s) && 2 in Sleepers(s) && !WakeOk(Apply(s, Resize(2)))
  {
    forall i | 0 <= i < 5
      ensures Enabled(After(Initial(1), SLEEPER_RUN[..i]), SLEEPER_RUN[i])
    {
      SleeperReaches(i);
      SleeperStep(i);
    }
    SleeperReaches(5);
    assert SLEEPER_RUN[..5] == SLEEPER_RUN;
    ResizeKeepsWakeIff(SleeperStage(5), 2);
  }

  // ----- generations -------------------------------------------------------------------------------------------

  /** Does this step hand the idle connection `c` to a getconn? */
  predicate Reuses(s: State, a: Action, c: Conn)
  {
    a.CheckoutStep? &&
    var outcome := CheckoutSection(s.core, s.dead, a.expired).1; outcome.Reuse? && outcome.conn == c
  }

  lemma GenerationNeverFalls(s: State, a: Action)
    requires Enabled(s, a)
    ensures s.core.generation <= Apply(s, a).core.generation
  {
  }

  lemma StampFixed(s: State, a: Action, c: Conn)
    requires Inv(s) && Enabled(s, a) && c in s.stamp
    ensures c in Apply(s, a).stamp && Apply(s, a).stamp[c] == s.stamp[c]
    ensures s.core.generation <= Apply(s, a).core.generation
  {
    GenerationNeverFalls(s, a);
  }

  lemma ReuseIsCurrent(s: State, a: Action, c: Conn)
    requires Inv(s) && Enabled(s, a) && Reuses(s, a, c)
    ensures c in s.stamp && s.stamp[c] == s.core.generation
  {
  }

  /** A connection that has closed is not handed out, and stays closed. */
  lemma ReuseIsAlive(s: State, a: Action, c: Conn)
    requires Enabled(s, a)
    ensures Reuses(s, a, c) ==> c !in s.dead
    ensures s.dead <= Apply(s, a).dead
  {
    if a.CheckoutStep? {
      CheckoutDecides(s.core, s.dead, a.expired);
    }
  }

  lemma {:induction false} DeadStays(s: State, actions: seq<Action>, i: nat, j: nat)
    requires Legal(s, actions) && i <= j <= |actions|
    ensures After(s, actions[..i]).dead <= After(s, actions[..j]).dead
    decreases j - i
  {
    if i < j {
      DeadStays(s, actions, i, j - 1);
      DeadStayOnce(s, actions, j - 1);
    }
  }

  lemma DeadStayOnce(s: State, actions: seq<Action>, k: nat)
    requires Legal(s, actions) && k < |actions|
    ensures After(s, actions[..k]).dead <= After(s, actions[..k + 1]).dead
  {
    AfterStep(s, actions, k);
    ReuseIsAlive(After(s, actions[..k]), actions[k], 0);
  }

  /** Once closed by the server, a connection is never handed out by any later getconn. */
  lemma DeadNeverReused(maxSize: int, actions: seq<Action>, i: nat, j: nat, c: Conn)
    requires Legal(Initial(maxSize), actions) && i <= j < |actions|
    requires c in After(Initial(maxSize), actions[..i]).dead
    ensures !Reuses(After(Initial(maxSize), actions[..j]), actions[j], c)
  {
    DeadStays(Initial(maxSize), actions, i, j);
    AfterStep(Initial(maxSize), actions, j);
    ReuseIsAlive(After(Initial(maxSize), actions[..j]), actions[j], c);
  }

  lemma {:induction false} StampFixedFrom(maxSize: int, actions: seq<Action>, i: nat, j: nat, c: Conn)
    requires Legal(Initial(maxSize), actions) && i <= j <= |actions|
    requires c in After(Initial(maxSize), actions[..i]).stamp
    ensures var si, sj := After(Initial(maxSize), actions[..i]), After(Initial(maxSize), actions[..j]);
            c in sj.stamp && sj.stamp[c] == si.stamp[c] && si.core.generation <= sj.core.generation
    decreases j - i
  {
    if i < j {
      StampFixedFrom(maxSize, actions, i, j - 1, c);
      StampFixedOnce(maxSize, actions, j - 1, c);
    }
  }

  lemma StampFixedOnce(maxSize: int, actions: seq<Action>, k: nat, c: Conn)
    requires Legal(Initial(maxSize), actions) && k < |actions| && c in After(Initial(maxSize), actions[..k]).stamp
    ensures var s, s' := After(Initial(maxSize), actions[..k]), After(Initial(maxSize), actions[..k + 1]);
            c in s'.stamp && s'.stamp[c] == s.stamp[c] && s.core.generation <= s'.core.generation
  {
    AfterStep(Initial(maxSize), actions, k);
    LegalPrefix(Initial(maxSize), actions, k);
    InvAlways(maxSize, actions[..k]);
    StampFixed(After(Initial(maxSize), actions[..k]), actions[k], c);
  }

  lemma StaleNeverReused(maxSize: int, actions: seq<Action>, i: nat, j: nat, c: Conn)
    requires Legal(Initial(maxSize), actions) && i <= j < |actions|
    requires var s := After(Initial(maxSize), actions[..i]); c in s.stamp && s.stamp[c] < s.core.generation
    ensures !Reuses(After(Initial(maxSize), actions[..j]), actions[j], c)
  {
    StampFixedFrom(maxSize, actions, i, j, c);
    LegalPrefix(Initial(maxSize), actions, j);
    InvAlways(maxSize, actions[..j]);
    var sj := After(Initial(maxSize), actions[..j]);
    if Reuses(sj, actions[j], c) {
      ReuseIsCurrent(sj, actions[j], c);
    }
  }

  lemma BumpOutdates(s: State, a: Action, c: Conn)
    requires Inv(s) && Enabled(s, a) && a.Bump? && c in s.stamp
    ensures c in Apply(s, a).stamp && Apply(s, a).stamp[c] < Apply(s, a).core.generation
  {
  }

  /** A connection opened before a drain's generation bump is never handed out by a getconn whose
      locked section follows the bump, wherever the drain's second section falls. */
  lemma DrainedNeverReused(maxSize: int, actions: seq<Action>, bump: nat, j: nat, c: Conn)
    requires Legal(Initial(maxSize), actions) && bump < j < |actions| && actions[bump].Bump?
    requires c in After(Initial(maxSize), actions[..bump]).stamp
    ensures !Reuses(After(Initial(maxSize), actions[..j]), actions[j], c)
  {
    LegalPrefix(Initial(maxSize), actions, bump);
    InvAlways(maxSize, actions[..bump]);
    AfterStep(Initial(maxSize), actions, bump);
    BumpOutdates(After(Initial(maxSize), actions[..bump]), actions[bump], c);
    StaleNeverReused(maxSize, actions, bump + 1, j, c);
  }

  /** The same for a connection whose slot was reserved before the bump but which opened after it. */
  lemma LateConnectNeverReused(maxSize: int, actions: seq<Action>, k: nat, j: nat, c: Conn)
    requires Legal(Initial(maxSize), actions) && k < j < |actions|
    requires actions[k].ConnectOk? && actions[k].conn == c
    requires var s := After(Initial(maxSize), actions[..k]); s.threads[actions[k].t].gen < s.core.generation
    ensures !Reuses(After(Initial(maxSize), actions[..j]), actions[j], c)
  {
    AfterStep(Initial(maxSize), actions, k);
    StaleNeverReused(maxSize, actions, k + 1, j, c);
  }
}
