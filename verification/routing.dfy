/**
Routing of calls between the kernel and Python (engine-py/python/rust_orm_shim.py): the policy that
decides whether a model may be routed, the shadow comparison with its quarantine, and the breaker.  The
Python body of a call may itself make routed calls, so a run is a tree of calls.
*/
module RoutingState {

  datatype Mode = On | Off | Shadow

  datatype Delivered = Value(v: int) | Raises(e: int)

  /** What the attempt to have the kernel answer comes to. */
  datatype Outcome =
    | Answered(v: int)
    | FlushFailed
    | Refused
    | Stale
    | Unexpected
    | CallersError(e: int)

  /** The routed calls a piece of Python makes.  A call is made or passed over depending on what the
      earlier ones delivered, so that an exception can end the body.  Odoo's own method for a call
      makes the routed calls of `inner` and gives `python` of what they delivered. */
  datatype Body = Done | Call(made: seq<Delivered> -> bool, name: string, gateOpen: bool, outcome: Outcome,
                              sampled: bool, python: seq<Delivered> -> Delivered, inner: Body, next: Body)

  datatype State = State(
    mode: Mode,
    only: set<string>,
    excepted: set<string>,
    breaker: nat,
    quarantined: seq<string>,
    tripped: seq<string>,
    errorsByModel: map<string, nat>,
    depth: nat,
    kernel: nat,
    fallbackGate: nat,
    fallbackError: nat,
    kernelRefused: nat,
    registryStale: nat,
    shadowOk: nat,
    shadowDiff: nat,
    dispatched: multiset<string>) {

    function Errors(name: string): nat
    {
      if name in errorsByModel then errorsByModel[name] else 0
    }

    predicate Allows(name: string)
    {
      && mode != Off
      && depth == 0
      && (only == {} || name in only)
      && name !in excepted
      && name !in quarantined
      && !(breaker > 0 && Errors(name) >= breaker)
    }

    /** The policy's one side effect: the breaker's refusal is noted once. */
    function Asked(name: string): State
    {
      if (mode != Off && depth == 0 && (only == {} || name in only) && name !in excepted && name !in quarantined
          && breaker > 0 && Errors(name) >= breaker && name !in tripped)
      then this.(tripped := tripped + [name])
      else this
    }

    function Quarantine(name: string): State
    {
      this.(shadowDiff := shadowDiff + 1,
            quarantined := if name in quarantined then quarantined else quarantined + [name])
    }

    function Compared(name: string, kernelResult: int, python: Delivered): State
    {
      if python == Value(kernelResult) then this.(shadowOk := shadowOk + 1) else Quarantine(name)
    }

    function Recorded(name: string, outcome: Outcome): State
    {
      this.(registryStale := registryStale + (if outcome.Stale? then 1 else 0),
            fallbackError := fallbackError + 1,
            kernelRefused := kernelRefused + (if outcome.Unexpected? then 0 else 1),
            errorsByModel := if outcome.Unexpected? then errorsByModel[name := Errors(name) + 1] else errorsByModel)
    }

    function Served(): State
    {
      this.(kernel := kernel + 1)
    }

    function Sent(name: string): State
    {
      this.(dispatched := dispatched + multiset{name})
    }
  }

  /** Whether this call gets as far as being put to the kernel. */
  predicate Routed(s: State, b: Body)
    requires b.Call?
  {
    s.Allows(b.name) && b.gateOpen
  }

  predicate Compares(s: State, b: Body)
    requires b.Call?
  {
    Routed(s, b) && b.outcome.Answered? && (s.mode == Shadow || b.sampled)
  }

  /** Python is not asked when the kernel's answer stands or the error is the caller's own. */
  predicate Consults(s: State, b: Body)
    requires b.Call?
  {
    Routed(s, b) ==> !b.outcome.CallersError? && (b.outcome.Answered? ==> Compares(s, b))
  }

  /** The state once the gate has spoken and the kernel has been tried. */
  function Tried(s: State, b: Body): State
    requires b.Call?
  {
    var s1 := s.Asked(b.name);
    if !Routed(s, b) then s1.(fallbackGate := s1.fallbackGate + 1)
    else
      match b.outcome
      case Answered(v) => s1.Sent(b.name).Served()
      case CallersError(_) => s1.Sent(b.name)
      case FlushFailed => s1.Recorded(b.name, b.outcome)
      case _ => s1.Sent(b.name).Recorded(b.name, b.outcome)
  }

  /** The state in which Odoo's own method starts: a comparison opens a baseline. */
  function Before(s: State, b: Body): State
    requires b.Call?
  {
    if Compares(s, b) then Tried(s, b).(depth := Tried(s, b).depth + 1) else Tried(s, b)
  }

  /** The state when the call is over: a comparison closes its baseline and judges the answers. */
  function Finished(s: State, b: Body, t: State, python: Delivered): State
    requires b.Call? && (Compares(s, b) ==> t.depth > 0)
  {
    if Compares(s, b) then t.(depth := t.depth - 1).Compared(b.name, b.outcome.v, python) else t
  }

  /** What is delivered without asking Python. */
  function KernelGives(s: State, b: Body): Delivered
    requires b.Call? && !Consults(s, b)
  {
    if b.outcome.CallersError? then Raises(b.outcome.e) else Value(b.outcome.v)
  }

  /** One call: the state it leaves and what it delivers. */
  function Serve(s: State, b: Body): (r: (State, Delivered))
    requires b.Call?
    ensures r.0.depth == s.depth
    decreases b, 0
  {
    if Consults(s, b) then
      var (t, heard) := Run(Before(s, b), [], b.inner);
      (Finished(s, b, t, b.python(heard)), b.python(heard))
    else (Before(s, b), KernelGives(s, b))
  }

  /** The rest of a body that has heard the deliveries of its earlier calls: the state it leaves and
      all that it has heard.  The baseline depth is restored by every run, whatever raises on the way. */
  function Run(s: State, heard: seq<Delivered>, b: Body): (r: (State, seq<Delivered>))
    ensures r.0.depth == s.depth
    decreases b, 1
  {
    if b.Done? then (s, heard)
    else if !b.made(heard) then Run(s, heard, b.next)
    else
      var (t, d) := Serve(s, b);
      Run(t, heard + [d], b.next)
  }

  /** What a body hears when nothing is routed at all: every call delivers what Odoo's own method makes
      of the deliveries it hears in turn. */
  function Alone(heard: seq<Delivered>, b: Body): seq<Delivered>
    decreases b
  {
    if b.Done? then heard
    else if !b.made(heard) then Alone(heard, b.next)
    else Alone(heard + [b.python(Alone([], b.inner))], b.next)
  }

  /** list.remove: the first occurrence goes. */
  function Removed(names: seq<string>, name: string): seq<string>
  {
    if names == [] then []
    else if names[0] == name then names[1..]
    else [names[0]] + Removed(names[1..], name)
  }

  datatype Which = All | One(name: string)

  function Reset(s: State, which: Which): State
  {
    match which
    case All => s.(errorsByModel := map[], tripped := [], quarantined := [])
    case One(name) =>
      s.(errorsByModel := s.errorsByModel - {name},
         tripped := Removed(s.tripped, name),
         quarantined := Removed(s.quarantined, name))
  }

  /** The module-level state of the router: MODE, STATS and the thread's baseline depth. */
  class Router {
    var mode: Mode
    const only: set<string>
    const excepted: set<string>
    const breaker: nat
    var quarantined: seq<string>
    var tripped: seq<string>
    var errorsByModel: map<string, nat>
    var depth: nat
    var kernel: nat
    var fallbackGate: nat
    var fallbackError: nat
    var kernelRefused: nat
    var registryStale: nat
    var shadowOk: nat
    var shadowDiff: nat
    var dispatched: multiset<string>

    function Now(): State
      reads this
    {
      State(mode, only, excepted, breaker, quarantined, tripped, errorsByModel, depth, kernel, fallbackGate,
            fallbackError, kernelRefused, registryStale, shadowOk, shadowDiff, dispatched)
    }

    constructor (mode: Mode, only: set<string>, excepted: set<string>, breaker: nat)
      ensures Now() == Start(mode, only, excepted, breaker)
    {
      this.mode, this.only, this.excepted, this.breaker := mode, only, excepted, breaker;
      quarantined, tripped, errorsByModel, depth := [], [], map[], 0;
      kernel, fallbackGate, fallbackError, kernelRefused, registryStale := 0, 0, 0, 0, 0;
      shadowOk, shadowDiff, dispatched := 0, 0, multiset{};
    }

    method PolicyAllows(name: string) returns (allowed: bool)
      modifies this
      ensures allowed == old(Now()).Allows(name)
      ensures Now() == old(Now()).Asked(name)
    {
      if mode == Off {
        return false;
      }
      if depth > 0 {
        return false;
      }
      if only != {} && name !in only {
        return false;
      }
      if name in excepted {
        return false;
      }
      if name in quarantined {
        return false;
      }
      if breaker > 0 && (if name in errorsByModel then errorsByModel[name] else 0) >= breaker {
        if name !in tripped {
          tripped := tripped + [name];
        }
        return false;
      }
      return true;
    }

    method QuarantineModel(name: string)
      modifies this
      ensures Now() == old(Now()).Quarantine(name)
    {
      shadowDiff := shadowDiff + 1;
      if name !in quarantined {
        quarantined := quarantined + [name];
      }
    }

    method CompareShadow(name: string, kernelResult: int, pythonResult: int)
      modifies this
      ensures Now() == old(Now()).Compared(name, kernelResult, Value(pythonResult))
    {
      if kernelResult == pythonResult {
        shadowOk := shadowOk + 1;
        return;
      }
      QuarantineModel(name);
    }

    /** True when the error is the caller's own and Python is not asked. */
    method RecordError(name: string, outcome: Outcome) returns (raises: bool)
      modifies this
      ensures raises == outcome.CallersError?
      ensures Now() == if raises then old(Now()) else old(Now()).Recorded(name, outcome)
    {
      if outcome.CallersError? {
        return true;
      }
      var unexpected := outcome.Unexpected?;
      if outcome.Stale? {
        registryStale := registryStale + 1;
      }
      fallbackError := fallbackError + 1;
      if !unexpected {
        kernelRefused := kernelRefused + 1;
      }
      if unexpected {
        errorsByModel := errorsByModel[name := (if name in errorsByModel then errorsByModel[name] else 0) + 1];
      }
      return false;
    }

    /** Odoo's own method: it makes its routed calls and then answers or raises. */
    method Original(b: Body) returns (python: Delivered)
      requires b.Call?
      modifies this
      ensures Now() == Run(old(Now()), [], b.inner).0
      ensures python == b.python(Run(old(Now()), [], b.inner).1)
      decreases b, 1
    {
      var heard := Python([], b.inner);
      python := b.python(heard);
    }

    /** A body of Python makes its routed calls, each in the light of what it has heard. */
    method Python(before: seq<Delivered>, b: Body) returns (heard: seq<Delivered>)
      modifies this
      ensures Now() == Run(old(Now()), before, b).0 && heard == Run(old(Now()), before, b).1
      decreases b, 4
    {
      if b.Done? {
        return before;
      }
      if !b.made(before) {
        heard := Python(before, b.next);
        return;
      }
      var delivered := SearchCount(b);
      heard := Python(before + [delivered], b.next);
    }

    /** Python's answer under the baseline; raising where the kernel answered is a divergence. */
    method VerifiedBaseline(b: Body) returns (python: Delivered)
      requires b.Call?
      modifies this
      ensures var (after, heard) := Run(old(Now()).(depth := old(depth) + 1), [], b.inner);
              var restored := after.(depth := after.depth - 1);
              && python == b.python(heard)
              && Now() == if python.Raises? then restored.Quarantine(b.name) else restored
      decreases b, 2
    {
      depth := depth + 1;
      python := Original(b);
      depth := depth - 1;
      if python.Raises? {
        QuarantineModel(b.name);
      }
    }

    /** The gate, and the attempt to have the kernel answer; whether Python is asked, and whether its
        answer is compared. */
    method Try(b: Body) returns (consults: bool, compares: bool)
      requires b.Call?
      modifies this
      ensures Now() == Tried(old(Now()), b)
      ensures consults == Consults(old(Now()), b) && compares == Compares(old(Now()), b)
      ensures compares ==> b.outcome.Answered? && (mode == Shadow || b.sampled)
      ensures consults && !compares ==> kernel == old(kernel) && (b.outcome.CallersError? ==> dispatched == old(dispatched))
      ensures !consults ==>
                || (b.outcome.Answered? && mode == On && !b.sampled && kernel == old(kernel) + 1)
                || (b.outcome.CallersError? && kernel == old(kernel) && dispatched == old(dispatched) + multiset{b.name})
    {
      var allowed := PolicyAllows(b.name);
      if !allowed || !b.gateOpen {
        fallbackGate := fallbackGate + 1;
        return true, false;
      }
      if !b.outcome.FlushFailed? {
        dispatched := dispatched + multiset{b.name};
      }
      if b.outcome.Answered? {
        kernel := kernel + 1;
        compares := mode == Shadow || b.sampled;
        return compares, compares;
      }
      var raises := RecordError(b.name, b.outcome);
      return !raises, false;
    }

    /** One routed call. */
    method SearchCount(b: Body) returns (delivered: Delivered)
      requires b.Call?
      modifies this
      ensures Now() == Serve(old(Now()), b).0 && delivered == Serve(old(Now()), b).1
      decreases b, 3
    {
      var consults, compares := Try(b);
      if compares {
        delivered := VerifiedBaseline(b);
        if delivered.Value? {
          CompareShadow(b.name, b.outcome.v, delivered.v);
        }
      } else if consults {
        delivered := Original(b);
      } else if b.outcome.CallersError? {
        delivered := Raises(b.outcome.e);
      } else {
        delivered := Value(b.outcome.v);
      }
    }

    method ResetBreaker(which: Which)
      modifies this
      ensures Now() == Reset(old(Now()), which)
    {
      match which {
        case All =>
          errorsByModel, tripped, quarantined := map[], [], [];
        case One(name) =>
          errorsByModel := errorsByModel - {name};
          RemovedAbsent(tripped, name);
          RemovedAbsent(quarantined, name);
          if name in tripped {
            tripped := Removed(tripped, name);
          }
          if name in quarantined {
            quarantined := Removed(quarantined, name);
          }
      }
    }
  }

  function Start(mode: Mode, only: set<string>, excepted: set<string>, breaker: nat): State
  {
    State(mode, only, excepted, breaker, [], [], map[], 0, 0, 0, 0, 0, 0, 0, 0, multiset{})
  }

  lemma {:induction false} RemovedAbsent(names: seq<string>, name: string)
    ensures name !in names ==> Removed(names, name) == names
  {
    if names != [] && name !in names {
      RemovedAbsent(names[1..], name);
      assert names == [names[0]] + names[1..];
    }
  }
}

module RoutingLaws {
  import opened RoutingState

  // ----- baselines -----------------------------------------------------------------------------------------------

  /** The state, counters of calls answered by Python aside. */
  predicate SameRouting(s: State, t: State)
  {
    t == s.(fallbackGate := t.fallbackGate)
  }

  /** Under a baseline, or with routing off, no call of any body reaches the kernel: all of them are
      counted as kept back, nothing else changes, and the body hears what Python alone would tell it. */
  lemma {:induction false} NothingRouted(s: State, heard: seq<Delivered>, b: Body)
    requires s.depth > 0 || s.mode == Off
    ensures var t := Run(s, heard, b).0; SameRouting(s, t) && t.fallbackGate >= s.fallbackGate
    ensures Run(s, heard, b).1 == Alone(heard, b)
    decreases b
  {
    if b.Done? {
    } else if !b.made(heard) {
      NothingRouted(s, heard, b.next);
    } else {
      NothingRouted(Before(s, b), [], b.inner);
      NothingRouted(Serve(s, b).0, heard + [Serve(s, b).1], b.next);
    }
  }

  /** Whatever happens on the way, the baseline depth is restored and the configuration untouched. */
  predicate SameSetting(s: State, t: State)
  {
    t.depth == s.depth && t.mode == s.mode && t.only == s.only && t.excepted == s.excepted && t.breaker == s.breaker
  }

  lemma {:induction false} DepthRestored(s: State, heard: seq<Delivered>, b: Body)
    ensures SameSetting(s, Run(s, heard, b).0)
    decreases b, 1
  {
    if b.Done? {
    } else if !b.made(heard) {
      DepthRestored(s, heard, b.next);
    } else {
      ServeRestores(s, b);
      DepthRestored(Serve(s, b).0, heard + [Serve(s, b).1], b.next);
    }
  }

  lemma {:induction false} ServeRestores(s: State, b: Body)
    requires b.Call?
    ensures SameSetting(s, Serve(s, b).0)
    decreases b, 0
  {
    DepthRestored(Before(s, b), [], b.inner);
  }

  // ----- one call ---------------------------------------------------------------------------------------------------

  /** The router, for a call whose model is neither restricted, given up on nor under a baseline. */
  predicate LetsThrough(s: State, b: Body)
    requires b.Call?
  {
    && s.mode != Off && s.depth == 0 && b.gateOpen
    && (s.only == {} || b.name in s.only) && b.name !in s.excepted && b.name !in s.quarantined
    && (s.breaker == 0 || b.name !in s.errorsByModel || s.errorsByModel[b.name] < s.breaker)
  }

  /** When the kernel's answer stands: in mode on, for a call that is not sampled.  It is delivered as it
      is, and nothing but the two counters moves: Python is not asked. */
  lemma AnswerStands(s: State, b: Body)
    requires b.Call? && LetsThrough(s, b) && b.outcome.Answered? && s.mode == On && !b.sampled
    ensures Serve(s, b) == (s.(kernel := s.kernel + 1, dispatched := s.dispatched + multiset{b.name}), Value(b.outcome.v))
  {
  }

  /** Otherwise it is compared: Python's answer is delivered, exactly one of the comparison's counters
      moves, and the model is quarantined if the answers differ. */
  lemma AnswerCompared(s: State, b: Body)
    requires b.Call? && LetsThrough(s, b) && b.outcome.Answered? && (s.mode == Shadow || b.sampled)
    ensures var (t, d) := Serve(s, b);
            var same := d == Value(b.outcome.v);
            && d == b.python(Alone([], b.inner))
            && t == s.(kernel := s.kernel + 1, dispatched := s.dispatched + multiset{b.name}, fallbackGate := t.fallbackGate,
                       shadowOk := s.shadowOk + (if same then 1 else 0), shadowDiff := s.shadowDiff + (if same then 0 else 1),
                       quarantined := s.quarantined + if same then [] else [b.name])
  {
    NothingRouted(Before(s, b), [], b.inner);
  }

  /** The state after an error that is not the caller's own: recorded, and against the model's breaker
      only if it was not expected.  A failed flush has sent nothing. */
  function Failed(s: State, name: string, outcome: Outcome): State
  {
    var errors := if name in s.errorsByModel then s.errorsByModel[name] else 0;
    s.(fallbackError := s.fallbackError + 1,
       kernelRefused := s.kernelRefused + (if outcome == Unexpected then 0 else 1),
       registryStale := s.registryStale + (if outcome == Stale then 1 else 0),
       errorsByModel := if outcome == Unexpected then s.errorsByModel[name := errors + 1] else s.errorsByModel,
       dispatched := if outcome == FlushFailed then s.dispatched else s.dispatched + multiset{name})
  }

  lemma ErrorFallsBack(s: State, b: Body)
    requires b.Call? && LetsThrough(s, b) && !b.outcome.Answered? && !b.outcome.CallersError?
    ensures Consults(s, b) && !Compares(s, b) && Before(s, b) == Failed(s, b.name, b.outcome)
  {
  }

  lemma KeptBack(s: State, b: Body)
    requires b.Call? && !LetsThrough(s, b)
    ensures Consults(s, b) && !Compares(s, b) && Before(s, b) == Gated(s, b)
  {
  }

  /** The state after a call is kept back: its model is noted once if its errors are the reason. */
  function Gated(s: State, b: Body): State
    requires b.Call?
  {
    var spent := b.name in s.errorsByModel && 0 < s.breaker <= s.errorsByModel[b.name]
                 && LetsThrough(s.(errorsByModel := map[]), b.(gateOpen := true));
    s.(fallbackGate := s.fallbackGate + 1,
       tripped := if spent && b.name !in s.tripped then s.tripped + [b.name] else s.tripped)
  }

  lemma PythonServes(s: State, b: Body)
    requires b.Call? && Consults(s, b) && !Compares(s, b)
    ensures var (t, heard) := Run(Before(s, b), [], b.inner);
            Serve(s, b) == (t, b.python(heard))
  {
  }

  /** What one call does, read off the mode, the policy, the gate, the sampling and what the kernel came to:
      kept back, answered by the kernel alone, compared, the caller's own error, or fallen back on Python. */
  lemma CallDecides(s: State, b: Body)
    requires b.Call?
    ensures var let := && s.mode != Off && s.depth == 0 && b.gateOpen
                       && (s.only == {} || b.name in s.only) && b.name !in s.excepted && b.name !in s.quarantined
                       && (s.breaker == 0 || b.name !in s.errorsByModel || s.errorsByModel[b.name] < s.breaker);
            var sent := s.(dispatched := s.dispatched + multiset{b.name});
            var (t, d) := Serve(s, b);
            && (!let ==>
                  var (after, heard) := Run(Gated(s, b), [], b.inner);
                  (t, d) == (after, b.python(heard)))
            && (let && b.outcome.Answered? && s.mode == On && !b.sampled ==>
                  (t, d) == (sent.(kernel := s.kernel + 1), Value(b.outcome.v)))
            && (let && b.outcome.Answered? && (s.mode == Shadow || b.sampled) ==>
                  && d == b.python(Alone([], b.inner))
                  && (d == Value(b.outcome.v) ==>
                        t == sent.(kernel := s.kernel + 1, fallbackGate := t.fallbackGate, shadowOk := s.shadowOk + 1))
                  && (d != Value(b.outcome.v) ==>
                        t == sent.(kernel := s.kernel + 1, fallbackGate := t.fallbackGate, shadowDiff := s.shadowDiff + 1,
                                   quarantined := s.quarantined + [b.name])))
            && (let && b.outcome.CallersError? ==> (t, d) == (sent, Raises(b.outcome.e)))
            && (let && !b.outcome.Answered? && !b.outcome.CallersError? ==>
                  var (after, heard) := Run(Failed(s, b.name, b.outcome), [], b.inner);
                  (t, d) == (after, b.python(heard)))
  {
    if !LetsThrough(s, b) {
      KeptBack(s, b);
      PythonServes(s, b);
    } else if b.outcome.Answered? {
      if s.mode == Shadow || b.sampled {
        AnswerCompared(s, b);
      } else {
        AnswerStands(s, b);
      }
    } else if !b.outcome.CallersError? {
      ErrorFallsBack(s, b);
      PythonServes(s, b);
    }
  }

  /** No call of the body, nor any of those made inside it, is sampled. */
  predicate Unsampled(b: Body)
  {
    b.Call? ==> !b.sampled && Unsampled(b.inner) && Unsampled(b.next)
  }

  lemma {:induction false} UnsampledServe(s: State, b: Body)
    requires b.Call? && s.mode == On && Unsampled(b)
    ensures var t := Serve(s, b).0;
            t.shadowOk == s.shadowOk && t.shadowDiff == s.shadowDiff && t.quarantined == s.quarantined
    decreases b, 0
  {
    if LetsThrough(s, b) && b.outcome.Answered? {
      AnswerStands(s, b);
    } else {
      UnsampledNeverCompares(Before(s, b), [], b.inner);
    }
  }

  /** In mode on, a run without sampled calls compares nothing and quarantines nothing, whatever the
      kernel and Python answer. */
  lemma {:induction false} UnsampledNeverCompares(s: State, heard: seq<Delivered>, b: Body)
    requires s.mode == On && Unsampled(b)
    ensures var t := Run(s, heard, b).0;
            t.shadowOk == s.shadowOk && t.shadowDiff == s.shadowDiff && t.quarantined == s.quarantined
    decreases b, 1
  {
    if b.Done? {
    } else if !b.made(heard) {
      UnsampledNeverCompares(s, heard, b.next);
    } else {
      UnsampledServe(s, b);
      ServeRestores(s, b);
      UnsampledNeverCompares(Serve(s, b).0, heard + [Serve(s, b).1], b.next);
    }
  }

  /** The answers of the kernel that were not compared. */
  function Uncompared(s: State): int
  {
    s.kernel - s.shadowOk - s.shadowDiff
  }

  /** Every call of the body, and every one made inside it, is sampled. */
  predicate AllSampled(b: Body)
  {
    b.Call? ==> b.sampled && AllSampled(b.inner) && AllSampled(b.next)
  }

  lemma {:induction false} ComparedServe(s: State, b: Body)
    requires b.Call? && (s.mode == Shadow || AllSampled(b))
    ensures Uncompared(Serve(s, b).0) == Uncompared(s)
    decreases b, 0
  {
    if LetsThrough(s, b) && b.outcome.Answered? {
      AnswerCompared(s, b);
    } else {
      EveryAnswerCompared(Before(s, b), [], b.inner);
    }
  }

  /** In shadow mode, or with every call sampled, every answer of the kernel is compared, over every run. */
  lemma {:induction false} EveryAnswerCompared(s: State, heard: seq<Delivered>, b: Body)
    requires s.mode == Shadow || AllSampled(b)
    ensures Uncompared(Run(s, heard, b).0) == Uncompared(s)
    decreases b, 1
  {
    if b.Done? {
    } else if !b.made(heard) {
      EveryAnswerCompared(s, heard, b.next);
    } else {
      ComparedServe(s, b);
      ServeRestores(s, b);
      EveryAnswerCompared(Serve(s, b).0, heard + [Serve(s, b).1], b.next);
    }
  }

  /** A compared call quarantines its model exactly when Python, left alone, raises or answers
      otherwise than the kernel; any other call leaves the quarantine as its nested calls left it. */
  lemma DivergenceQuarantines(s: State, b: Body)
    requires b.Call?
    ensures Compares(s, b) ==>
              Serve(s, b).0.quarantined ==
              s.quarantined + if b.python(Alone([], b.inner)) == Value(b.outcome.v) then [] else [b.name]
    ensures !Compares(s, b) ==>
              Serve(s, b).0.quarantined ==
              if Consults(s, b) then Run(Before(s, b), [], b.inner).0.quarantined else s.quarantined
  {
    if Compares(s, b) {
      NothingRouted(Before(s, b), [], b.inner);
    }
  }

  // ----- runs -------------------------------------------------------------------------------------------------------

  ghost predicate NoRepeats(names: seq<string>)
  {
    forall i, j :: 0 <= i < j < |names| ==> names[i] != names[j]
  }

  ghost predicate Inv(s: State)
  {
    && NoRepeats(s.quarantined)
    && NoRepeats(s.tripped)
    && (s.breaker > 0 ==> forall n :: n in s.errorsByModel ==> s.errorsByModel[n] <= s.breaker)
    && (forall n :: n in s.tripped ==> s.breaker > 0 && s.Errors(n) == s.breaker)
  }

  lemma InvAsked(s: State, name: string)
    requires Inv(s)
    ensures Inv(s.Asked(name))
  {
  }

  lemma InvRecorded(s: State, name: string, outcome: Outcome)
    requires Inv(s) && (s.breaker > 0 ==> s.Errors(name) < s.breaker)
    ensures Inv(s.Recorded(name, outcome))
  {
  }

  lemma InvCompared(s: State, name: string, v: int, python: Delivered)
    requires Inv(s)
    ensures Inv(s.Compared(name, v, python))
  {
  }

  lemma InvBefore(s: State, b: Body)
    requires b.Call? && Inv(s)
    ensures Inv(Before(s, b))
  {
    InvAsked(s, b.name);
    if Routed(s, b) {
      InvRecorded(s, b.name, b.outcome);
    }
  }

  lemma InvFinished(s: State, b: Body, t: State, python: Delivered)
    requires b.Call? && Inv(t) && (Compares(s, b) ==> t.depth > 0)
    ensures Inv(Finished(s, b, t, python))
  {
    if Compares(s, b) {
      InvCompared(t.(depth := t.depth - 1), b.name, b.outcome.v, python);
    }
  }

  lemma {:induction false} InvServe(s: State, b: Body)
    requires b.Call? && Inv(s)
    ensures Inv(Serve(s, b).0)
    decreases b, 0
  {
    InvBefore(s, b);
    if Consults(s, b) {
      var (t, heard) := Run(Before(s, b), [], b.inner);
      InvRun(Before(s, b), [], b.inner);
      InvFinished(s, b, t, b.python(heard));
    }
  }

  /** Every run of nested calls keeps the lists free of repeats and the unexpected errors of a model
      within a positive breaker; a tripped model has used it up. */
  lemma {:induction false} InvRun(s: State, heard: seq<Delivered>, b: Body)
    requires Inv(s)
    ensures Inv(Run(s, heard, b).0)
    decreases b, 1
  {
    if b.Done? {
    } else if !b.made(heard) {
      InvRun(s, heard, b.next);
    } else {
      InvServe(s, b);
      InvRun(Serve(s, b).0, heard + [Serve(s, b).1], b.next);
    }
  }

  /** A model that routing has given up on. */
  predicate GivenUp(s: State, name: string)
  {
    name in s.quarantined || (s.breaker > 0 && s.Errors(name) >= s.breaker)
  }

  lemma GivenUpBefore(s: State, b: Body, name: string)
    requires b.Call? && GivenUp(s, name)
    ensures GivenUp(Before(s, b), name) && Before(s, b).dispatched[name] == s.dispatched[name]
  {
  }

  lemma {:induction false} GivenUpServe(s: State, b: Body, name: string)
    requires b.Call? && GivenUp(s, name)
    ensures GivenUp(Serve(s, b).0, name) && Serve(s, b).0.dispatched[name] == s.dispatched[name]
    decreases b, 0
  {
    GivenUpBefore(s, b, name);
    GivenUpStays(Before(s, b), [], b.inner, name);
  }

  /** No call on such a model reaches the kernel, and it stays given up. */
  lemma {:induction false} GivenUpStays(s: State, heard: seq<Delivered>, b: Body, name: string)
    requires GivenUp(s, name)
    ensures var t := Run(s, heard, b).0; GivenUp(t, name) && t.dispatched[name] == s.dispatched[name]
    decreases b, 1
  {
    if b.Done? {
    } else if !b.made(heard) {
      GivenUpStays(s, heard, b.next, name);
    } else {
      GivenUpServe(s, b, name);
      GivenUpStays(Serve(s, b).0, heard + [Serve(s, b).1], b.next, name);
    }
  }

  // ----- what Python hears ------------------------------------------------------------------------------------------

  /** No call of the run is put to the kernel and meets an error that is the caller's own. */
  predicate Faultless(s: State, heard: seq<Delivered>, b: Body)
    decreases b
  {
    b.Call? ==>
      if !b.made(heard) then Faultless(s, heard, b.next)
      else
        && (Routed(s, b) ==> !b.outcome.CallersError?)
        && (Consults(s, b) ==> Faultless(Before(s, b), [], b.inner))
        && Faultless(Serve(s, b).0, heard + [Serve(s, b).1], b.next)
  }

  /** Every delivery of a run, those of nested calls before that of the call they are nested in. */
  function Deliveries(s: State, heard: seq<Delivered>, b: Body): seq<Delivered>
    decreases b
  {
    if b.Done? then []
    else if !b.made(heard) then Deliveries(s, heard, b.next)
    else
      var (t, d) := Serve(s, b);
      (if Consults(s, b) then Deliveries(Before(s, b), [], b.inner) else []) + [d] + Deliveries(t, heard + [d], b.next)
  }

  /** And those of Python left alone. */
  function AloneDeliveries(heard: seq<Delivered>, b: Body): seq<Delivered>
    decreases b
  {
    if b.Done? then []
    else if !b.made(heard) then AloneDeliveries(heard, b.next)
    else
      var d := b.python(Alone([], b.inner));
      AloneDeliveries([], b.inner) + [d] + AloneDeliveries(heard + [d], b.next)
  }

  /** Shadow mode is invisible: over every run from any state, whatever the kernel answers and however
      models are quarantined on the way, every call at every depth delivers what it would deliver with
      Python left alone, errors of the caller's own aside. */
  lemma {:induction false} ShadowInvisible(s: State, heard: seq<Delivered>, b: Body)
    requires s.mode == Shadow && Faultless(s, heard, b)
    ensures Run(s, heard, b).1 == Alone(heard, b)
    ensures Deliveries(s, heard, b) == AloneDeliveries(heard, b)
    decreases b
  {
    if b.Done? {
    } else if !b.made(heard) {
      ShadowInvisible(s, heard, b.next);
    } else {
      ShadowInvisible(Before(s, b), [], b.inner);
      ServeRestores(s, b);
      ShadowInvisible(Serve(s, b).0, heard + [Serve(s, b).1], b.next);
    }
  }

  /** Where the kernel has an answer, it is the one Python alone would give. */
  predicate Agreeing(b: Body)
  {
    b.Call? ==>
      && (b.outcome.Answered? ==> b.python(Alone([], b.inner)) == Value(b.outcome.v))
      && Agreeing(b.inner) && Agreeing(b.next)
  }

  /** In every mode, routing is invisible while the kernel agrees: under any quarantine, breaker and
      sampling a body hears what Python alone would tell it. */
  lemma {:induction false} AgreementInvisible(s: State, heard: seq<Delivered>, b: Body)
    requires Agreeing(b) && Faultless(s, heard, b)
    ensures Run(s, heard, b).1 == Alone(heard, b)
    decreases b
  {
    if b.Done? {
    } else if !b.made(heard) {
      AgreementInvisible(s, heard, b.next);
    } else {
      if Consults(s, b) {
        AgreementInvisible(Before(s, b), [], b.inner);
      }
      AgreementInvisible(Serve(s, b).0, heard + [Serve(s, b).1], b.next);
    }
  }

  lemma {:induction false} AgreementServe(s: State, b: Body)
    requires b.Call? && Agreeing(b)
    ensures var t := Serve(s, b).0; t.quarantined == s.quarantined && t.shadowDiff == s.shadowDiff
    decreases b, 0
  {
    AgreementKeepsRouting(Before(s, b), [], b.inner);
    if Compares(s, b) {
      NothingRouted(Before(s, b), [], b.inner);
    }
  }

  /** And it quarantines nothing: not one comparison of the run diverges, whatever errors there are. */
  lemma {:induction false} AgreementKeepsRouting(s: State, heard: seq<Delivered>, b: Body)
    requires Agreeing(b)
    ensures var t := Run(s, heard, b).0; t.quarantined == s.quarantined && t.shadowDiff == s.shadowDiff
    decreases b, 1
  {
    if b.Done? {
    } else if !b.made(heard) {
      AgreementKeepsRouting(s, heard, b.next);
    } else {
      AgreementServe(s, b);
      AgreementKeepsRouting(Serve(s, b).0, heard + [Serve(s, b).1], b.next);
    }
  }

  // ----- accounting -------------------------------------------------------------------------------------------------

  function Settled(s: State): nat
  {
    s.kernel + s.fallbackGate + s.fallbackError
  }

  /** The calls of a run whose error goes straight to the caller, and the calls there are in all. */
  function Counts(s: State, heard: seq<Delivered>, b: Body): (nat, nat)
    decreases b
  {
    if b.Done? then (0, 0)
    else if !b.made(heard) then Counts(s, heard, b.next)
    else
      var own := if Routed(s, b) && b.outcome.CallersError? then 1 else 0;
      var inner := if Consults(s, b) then Counts(Before(s, b), [], b.inner) else (0, 0);
      var rest := Counts(Serve(s, b).0, heard + [Serve(s, b).1], b.next);
      (own + inner.0 + rest.0, 1 + inner.1 + rest.1)
  }

  lemma CallCounted(s: State, b: Body)
    requires b.Call?
    ensures Settled(Before(s, b)) + (if Routed(s, b) && b.outcome.CallersError? then 1 else 0) == Settled(s) + 1
    ensures Settled(Serve(s, b).0) ==
            Settled(if Consults(s, b) then Run(Before(s, b), [], b.inner).0 else Before(s, b))
  {
  }

  /** The shares of the statistics add up: every call is counted as answered by the kernel, kept back by
      the gate or fallen back on an error, and by exactly one of them, unless its error went to the
      caller. */
  lemma {:induction false} EveryCallCounted(s: State, heard: seq<Delivered>, b: Body)
    ensures Settled(Run(s, heard, b).0) + Counts(s, heard, b).0 == Settled(s) + Counts(s, heard, b).1
    decreases b
  {
    if b.Done? {
    } else if !b.made(heard) {
      EveryCallCounted(s, heard, b.next);
    } else {
      CallCounted(s, b);
      EveryCallCounted(Before(s, b), [], b.inner);
      EveryCallCounted(Serve(s, b).0, heard + [Serve(s, b).1], b.next);
    }
  }

  // ----- runs with resets and changes of mode ------------------------------------------------------------------------

  datatype Event = Calls(body: Body) | ResetBreaker(which: Which) | SetMode(mode: Mode)

  function Step(s: State, e: Event): State
  {
    match e
    case Calls(body) => Run(s, [], body).0
    case ResetBreaker(which) => Reset(s, which)
    case SetMode(mode) => s.(mode := mode)
  }

  function After(s: State, es: seq<Event>): State
    decreases |es|
  {
    if es == [] then s else Step(After(s, es[..|es| - 1]), es[|es| - 1])
  }

  lemma {:induction false} RemovedExactly(names: seq<string>, name: string)
    requires NoRepeats(names)
    ensures NoRepeats(Removed(names, name))
    ensures forall n :: n in Removed(names, name) <==> n in names && n != name
  {
    if names != [] {
      var rest := names[1..];
      assert NoRepeats(rest) by {
        forall i, j | 0 <= i < j < |rest|
          ensures rest[i] != rest[j]
        {
          assert names[i + 1] != names[j + 1];
        }
      }
      RemovedExactly(rest, name);
      assert names == [names[0]] + rest;
      assert names[0] !in rest;
    }
  }

  lemma InvReset(s: State, which: Which)
    requires Inv(s)
    ensures Inv(Reset(s, which))
  {
    if which.One? {
      RemovedExactly(s.quarantined, which.name);
      RemovedExactly(s.tripped, which.name);
    }
  }

  /** A reset gives exactly the named models back to routing. */
  lemma ResetGivesBack(s: State, which: Which, name: string)
    requires Inv(s)
    ensures GivenUp(Reset(s, which), name) <==> GivenUp(s, name) && which.One? && which.name != name
  {
    if which.One? {
      RemovedExactly(s.quarantined, which.name);
    }
  }

  /** Over every run of calls, resets and changes of mode the invariant holds and no baseline is left
      open. */
  lemma {:induction false} RoutingAlways(mode: Mode, only: set<string>, excepted: set<string>, breaker: nat, es: seq<Event>)
    ensures var s := After(Start(mode, only, excepted, breaker), es);
            Inv(s) && s.depth == 0 && s.breaker == breaker
            && (breaker > 0 ==> forall n :: n in s.errorsByModel ==> s.errorsByModel[n] <= breaker)
    decreases |es|
  {
    if es != [] {
      var n := |es| - 1;
      RoutingAlways(mode, only, excepted, breaker, es[..n]);
      var s := After(Start(mode, only, excepted, breaker), es[..n]);
      match es[n]
      case Calls(body) =>
        InvRun(s, [], body);
        DepthRestored(s, [], body);
      case ResetBreaker(which) => InvReset(s, which);
      case SetMode(_) =>
    }
  }

  /** A model given up on is not dispatched again by any run, under any changes of mode, until a reset
      names it. */
  lemma {:induction false} GivenUpUntilReset(s: State, es: seq<Event>, name: string)
    requires Inv(s) && GivenUp(s, name)
    requires forall i :: 0 <= i < |es| && es[i].ResetBreaker? ==> es[i].which.One? && es[i].which.name != name
    ensures Inv(After(s, es)) && GivenUp(After(s, es), name)
    ensures After(s, es).dispatched[name] == s.dispatched[name]
    decreases |es|
  {
    if es != [] {
      var n := |es| - 1;
      GivenUpUntilReset(s, es[..n], name);
      var t := After(s, es[..n]);
      match es[n]
      case Calls(body) =>
        InvRun(t, [], body);
        GivenUpStays(t, [], body, name);
      case ResetBreaker(which) =>
        InvReset(t, which);
        ResetGivesBack(t, which, name);
      case SetMode(_) =>
    }
  }

  /** A divergence, or Python raising where the kernel answered, keeps the model from the kernel in
      every later run until a reset names it. */
  lemma DivergenceLasts(s: State, b: Body, es: seq<Event>)
    requires Inv(s) && b.Call? && Compares(s, b) && b.python(Alone([], b.inner)) != Value(b.outcome.v)
    requires forall i :: 0 <= i < |es| && es[i].ResetBreaker? ==> es[i].which.One? && es[i].which.name != b.name
    ensures var t := Serve(s, b).0;
            After(t, es).dispatched[b.name] == t.dispatched[b.name]
  {
    InvServe(s, b);
    DivergenceQuarantines(s, b);
    GivenUpUntilReset(Serve(s, b).0, es, b.name);
  }
}
