/**
The three worklist closures of the routing gate (engine-py/python/rust_orm_shim.py): has the order of
a model a read sorts through changed since the kernel was built, does a read reach a model the kernel
cannot judge access to, and does a rule reach depend on the principal.  Models form arbitrary, possibly
cyclic graphs; each closure must find exactly what is reachable.
*/
module Worklists {
  import opened Text
  import opened Wrappers

  // ----- reachability ---------------------------------------------------------------------------------------

  /** `y` is `n` edges away from one of the roots. */
  ghost predicate Steps(edges: string -> seq<string>, roots: set<string>, y: string, n: nat)
    decreases n
  {
    if n == 0 then y in roots else exists z :: Steps(edges, roots, z, n - 1) && y in edges(z)
  }

  ghost predicate Reached(edges: string -> seq<string>, roots: set<string>, y: string)
  {
    exists n: nat :: Steps(edges, roots, y, n)
  }

  lemma ReachedRoot(edges: string -> seq<string>, roots: set<string>, x: string)
    requires x in roots
    ensures Reached(edges, roots, x)
  {
    assert Steps(edges, roots, x, 0);
  }

  lemma ReachedNext(edges: string -> seq<string>, roots: set<string>, y: string, z: string)
    requires Reached(edges, roots, y) && z in edges(y)
    ensures Reached(edges, roots, z)
  {
    var n: nat :| Steps(edges, roots, y, n);
    assert Steps(edges, roots, z, n + 1);
  }

  /** A set of nodes holding the roots and closed under the edges holds everything reached. */
  lemma {:induction false} ClosedHolds(edges: string -> seq<string>, roots: set<string>, known: set<string>,
                                       closed: set<string>, y: string, n: nat)
    requires forall u, v :: u in closed && v in edges(u) ==> v in closed || v !in known
    requires forall u :: u !in known ==> edges(u) == []
    requires forall r :: r in roots ==> r in closed || r !in known
    requires Steps(edges, roots, y, n)
    ensures y in closed || y !in known
    decreases n
  {
    if n > 0 {
      var z :| Steps(edges, roots, z, n - 1) && y in edges(z);
      ClosedHolds(edges, roots, known, closed, z, n - 1);
    }
  }

  function SetOf(nodes: seq<string>): set<string>
  {
    set m | m in nodes
  }

  /** The known successors of a set of nodes. */
  ghost function Successors(edges: string -> seq<string>, known: set<string>, nodes: set<string>): set<string>
  {
    set n | n in known && exists m :: m in nodes && n in edges(m)
  }

  ghost function Closure(edges: string -> seq<string>, roots: set<string>, known: set<string>): set<string>
  {
    set m | m in known && Reached(edges, roots, m)
  }

  /** The state of a worklist: `seen` nodes are done, `pending` ones are to be looked at, and nodes
      that are not `known` are passed over. */
  ghost predicate Exploring(edges: string -> seq<string>, roots: set<string>, known: set<string>,
                            seen: set<string>, pending: set<string>)
  {
    && seen + (pending * known) <= Closure(edges, roots, known)
    && (roots * known) + Successors(edges, known, seen) <= seen + pending
  }

  lemma ExploreStart(edges: string -> seq<string>, roots: set<string>, known: set<string>)
    ensures Exploring(edges, roots, known, {}, roots)
  {
    forall m | m in roots
      ensures Reached(edges, roots, m)
    {
      ReachedRoot(edges, roots, m);
    }
    assert Successors(edges, known, {}) == {};
  }

  lemma ExploreVisit(edges: string -> seq<string>, roots: set<string>, known: set<string>,
                     seen: set<string>, pending: set<string>, current: string)
    requires Exploring(edges, roots, known, seen, pending + {current}) && current in known
    ensures Exploring(edges, roots, known, seen + {current}, pending + SetOf(edges(current)))
    ensures Reached(edges, roots, current)
  {
    assert current in (pending + {current}) * known;
    forall m | m in SetOf(edges(current))
      ensures Reached(edges, roots, m)
    {
      ReachedNext(edges, roots, current, m);
    }
    forall n | n in Successors(edges, known, seen + {current})
      ensures n in seen + {current} + (pending + SetOf(edges(current)))
    {
      var m :| m in seen + {current} && n in edges(m);
      if m in seen {
        assert n in Successors(edges, known, seen);
      }
    }
  }

  /** When nothing is pending, exactly the known reached nodes have been seen. */
  lemma ExploreDone(edges: string -> seq<string>, roots: set<string>, known: set<string>, seen: set<string>)
    requires Exploring(edges, roots, known, seen, {})
    requires forall x :: x !in known ==> edges(x) == []
    ensures seen == Closure(edges, roots, known)
  {
    forall m | m in Closure(edges, roots, known)
      ensures m in seen
    {
      var n: nat :| Steps(edges, roots, m, n);
      forall u, v | u in seen && v in edges(u)
        ensures v in seen || v !in known
      {
        assert v in known ==> v in Successors(edges, known, seen);
      }
      forall r | r in roots
        ensures r in seen || r !in known
      {
        assert r in known ==> r in roots * known;
      }
      ClosedHolds(edges, roots, known, seen, m, n);
    }
  }

  lemma SetOfConcat(a: seq<string>, b: seq<string>)
    ensures SetOf(a + b) == SetOf(a) + SetOf(b)
    ensures forall c: string :: SetOf([c]) == {c}
  {
    forall c: string
      ensures SetOf([c]) == {c}
    {
      assert c in [c];
    }
  }

  /** The last pending node is looked at and its successors go onto the list. */
  lemma VisitTurn(edges: string -> seq<string>, roots: set<string>, known: set<string>,
                  seen: set<string>, pending: seq<string>)
    requires pending != [] && Exploring(edges, roots, known, seen, SetOf(pending))
    requires pending[|pending| - 1] in known && pending[|pending| - 1] !in seen
    ensures var n := |pending| - 1;
            var current := pending[n];
            && Reached(edges, roots, current)
            && Exploring(edges, roots, known, seen + {current}, SetOf(pending[..n] + edges(current)))
            && |known - (seen + {current})| < |known - seen|
  {
    var n := |pending| - 1;
    var current := pending[n];
    assert pending == pending[..n] + [current];
    SetOfConcat(pending[..n], [current]);
    SetOfConcat(pending[..n], edges(current));
    ExploreVisit(edges, roots, known, seen, SetOf(pending[..n]), current);
    Shrinks(known, seen, current);
  }

  lemma Shrinks(known: set<string>, seen: set<string>, current: string)
    requires current in known && current !in seen
    ensures |known - (seen + {current})| < |known - seen|
  {
    assert known - (seen + {current}) == (known - seen) - {current};
    assert current in known - seen;
  }

  /** The search all three loops perform: pop the last pending node, pass over it if it is done or
      unknown, stop if it is a hit, otherwise push its successors. */
  function Search(edges: string -> seq<string>, known: set<string>, hit: string -> bool,
                  seen: set<string>, pending: seq<string>): Option<string>
    decreases |known - seen|, |pending|
  {
    if pending == [] then None
    else
      var current, rest := pending[|pending| - 1], pending[..|pending| - 1];
      if current in seen || current !in known then Search(edges, known, hit, seen, rest)
      else if hit(current) then Some(current)
      else
        Shrinks(known, seen, current);
        Search(edges, known, hit, seen + {current}, rest + edges(current))
  }

  lemma {:induction false} SearchFinds(edges: string -> seq<string>, roots: set<string>, known: set<string>,
                                       hit: string -> bool, seen: set<string>, pending: seq<string>)
    requires forall x :: x !in known ==> edges(x) == []
    requires Exploring(edges, roots, known, seen, SetOf(pending))
    requires forall m :: m in seen ==> !hit(m)
    ensures match Search(edges, known, hit, seen, pending)
            case None => forall m :: m in Closure(edges, roots, known) ==> !hit(m)
            case Some(m) => m in Closure(edges, roots, known) && hit(m)
    decreases |known - seen|, |pending|
  {
    if pending == [] {
      assert SetOf(pending) == {};
      ExploreDone(edges, roots, known, seen);
    } else {
      var n := |pending| - 1;
      var current := pending[n];
      if current in seen || current !in known {
        SearchFinds(edges, roots, known, hit, seen, pending[..n]);
      } else {
        VisitTurn(edges, roots, known, seen, pending);
        if !hit(current) {
          SearchFinds(edges, roots, known, hit, seen + {current}, pending[..n] + edges(current));
        }
      }
    }
  }

  /** The search is exact on every graph: it ends, and finds a hit precisely when a known node
      reached from the roots is one. */
  lemma SearchExact(edges: string -> seq<string>, known: set<string>, hit: string -> bool, roots: seq<string>)
    requires forall x :: x !in known ==> edges(x) == []
    ensures match Search(edges, known, hit, {}, roots)
            case None => forall m :: m in Closure(edges, SetOf(roots), known) ==> !hit(m)
            case Some(m) => m in Closure(edges, SetOf(roots), known) && hit(m)
  {
    ExploreStart(edges, SetOf(roots), known);
    SearchFinds(edges, SetOf(roots), known, hit, {}, roots);
  }

  // ----- order drift -------------------------------------------------------------------------------------------

  datatype Field = Field(many2one: bool, comodel: string)

  datatype Model = Model(order: string, fields: map<string, Field>)

  type Env = map<string, Model>

  function OrderNames(parts: seq<string>): seq<string>
  {
    if parts == [] then []
    else
      var name := Split(Split(Strip(parts[0]), ' ')[0], ':')[0];
      (if name == "" then [] else [name]) + OrderNames(parts[1..])
  }

  function NamesOf(order: string): seq<string>
  {
    OrderNames(Split(order, ','))
  }

  /** A part of an order clause that sorts by `name`: blanks, the name, and then nothing, or a direction
      behind a blank, or a property behind a colon. */
  ghost predicate SortsBy(part: string, lead: string, name: string, tail: string)
  {
    && part == lead + name + tail
    && (forall i :: 0 <= i < |lead| ==> IsSpace(lead[i]))
    && IsWord(name) && ':' !in name
    && (tail == "" || tail[0] == ' ' || tail[0] == ':')
  }

  lemma {:induction false} StripLead(lead: string, rest: string)
    requires forall i :: 0 <= i < |lead| ==> IsSpace(lead[i])
    ensures Strip(lead + rest) == Strip(rest)
  {
    if lead == "" {
      assert lead + rest == rest;
    } else {
      assert (lead + rest)[1..] == lead[1..] + rest;
      StripLead(lead[1..], rest);
    }
  }

  /** Stripping takes no part of a word at the front. */
  lemma {:induction false} StripTail(name: string, tail: string) returns (kept: string)
    requires IsWord(name)
    ensures kept <= tail && Strip(name + tail) == name + kept
    decreases |tail|
  {
    var s := name + tail;
    if IsSpace(s[|s| - 1]) {
      assert tail != "" && s[..|s| - 1] == name + tail[..|tail| - 1];
      kept := StripTail(name, tail[..|tail| - 1]);
    } else {
      kept := tail;
    }
  }

  /** A text without the separator stays in front of the first piece. */
  lemma {:induction false} SplitBehind(a: string, b: string, sep: char)
    requires sep !in a
    ensures Split(a + b, sep)[0] == a + Split(b, sep)[0]
  {
    if a == "" {
      assert a + b == b;
    } else {
      assert (a + b)[1..] == a[1..] + b;
      SplitBehind(a[1..], b, sep);
    }
  }

  lemma NameOfPart(part: string, lead: string, name: string, tail: string)
    requires SortsBy(part, lead, name, tail)
    ensures Split(Split(Strip(part), ' ')[0], ':')[0] == name
  {
    Assoc(lead, name, tail);
    StripLead(lead, name + tail);
    var kept := StripTail(name, tail);
    SplitBehind(name, kept, ' ');
    var y := Split(kept, ' ')[0];
    assert y == "" || y[0] == ':';
    SplitBehind(name, y, ':');
    assert Split(y, ':')[0] == "";
  }

  /** The parts of an order clause, each with the name it sorts by. */
  ghost predicate Clause(parts: seq<string>, leads: seq<string>, names: seq<string>, tails: seq<string>)
  {
    && |parts| == |leads| == |names| == |tails|
    && (forall i :: 0 <= i < |parts| ==> ',' !in parts[i] && SortsBy(parts[i], leads[i], names[i], tails[i]))
  }

  lemma {:induction false} NamesOfParts(parts: seq<string>, leads: seq<string>, names: seq<string>, tails: seq<string>)
    requires Clause(parts, leads, names, tails)
    ensures OrderNames(parts) == names
  {
    if parts != [] {
      NameOfPart(parts[0], leads[0], names[0], tails[0]);
      assert Clause(parts[1..], leads[1..], names[1..], tails[1..]);
      NamesOfParts(parts[1..], leads[1..], names[1..], tails[1..]);
      assert [names[0]] + names[1..] == names;
    }
  }

  lemma {:induction false} SplitParts(parts: seq<string>)
    requires parts != [] && forall i :: 0 <= i < |parts| ==> ',' !in parts[i]
    ensures Split(Join(parts, ","), ',') == parts
  {
    if |parts| == 1 {
      SplitWhole(parts[0], ',');
    } else {
      assert Join(parts, ",") == parts[0] + [','] + Join(parts[1..], ",");
      SplitFirst(parts[0], ',', Join(parts[1..], ","));
      SplitParts(parts[1..]);
      assert [parts[0]] + parts[1..] == parts;
    }
  }

  /** The names an order clause sorts by are read off its text. */
  lemma ClauseNames(parts: seq<string>, leads: seq<string>, names: seq<string>, tails: seq<string>)
    requires parts != [] && Clause(parts, leads, names, tails)
    ensures NamesOf(Join(parts, ",")) == names
  {
    SplitParts(parts);
    NamesOfParts(parts, leads, names, tails);
  }

  /** The models that sorting by these names goes through. */
  function Comodels(env: Env, fields: map<string, Field>, names: seq<string>): seq<string>
  {
    if names == [] then []
    else
      var n := names[|names| - 1];
      Comodels(env, fields, names[..|names| - 1]) +
      if n in fields && fields[n].many2one && fields[n].comodel in env then [fields[n].comodel] else []
  }

  /** The order edges of a read: the root also sorts by what the read itself asks for. */
  function OrderEdges(env: Env, root: string, asked: seq<string>): string -> seq<string>
  {
    m => if m in env
         then Comodels(env, env[m].fields, (if m == root then asked else []) + NamesOf(env[m].order))
         else []
  }

  lemma {:induction false} ComodelsExactly(env: Env, fields: map<string, Field>, names: seq<string>, c: string)
    ensures c in Comodels(env, fields, names) <==>
            exists n :: n in names && n in fields && fields[n].many2one && fields[n].comodel == c && c in env
  {
    if names != [] {
      ComodelsExactly(env, fields, names[..|names| - 1], c);
      assert forall n :: n in names <==> n in names[..|names| - 1] || n == names[|names| - 1];
    }
  }

  /** An edge leads to a model exactly if a many2one to it is sorted by: by the model's own order, or at
      the root by what the read asks for. */
  lemma OrderEdgesExactly(env: Env, root: string, asked: seq<string>, m: string, c: string)
    ensures c in OrderEdges(env, root, asked)(m) <==>
            && m in env && c in env
            && exists n :: (n in NamesOf(env[m].order) || (m == root && n in asked))
                           && n in env[m].fields && env[m].fields[n] == Field(true, c)
  {
    if m in env {
      var names := (if m == root then asked else []) + NamesOf(env[m].order);
      ComodelsExactly(env, env[m].fields, names, c);
      assert forall n :: n in names <==> n in NamesOf(env[m].order) || (m == root && n in asked);
    }
  }

  predicate Drifted(env: Env, exported: map<string, string>, m: string)
  {
    m in env && m in exported && exported[m] != env[m].order
  }

  /** The inner loop: the comodels of the named many2one fields go onto the list, with no names of
      their own.  The list of (model, names) pairs is kept as two lists. */
  method PushComodels(env: Env, fields: map<string, Field>, names: seq<string>, models: seq<string>, asked: seq<seq<string>>)
    returns (models': seq<string>, asked': seq<seq<string>>)
    requires |models| == |asked|
    ensures models' == models + Comodels(env, fields, names)
    ensures |asked'| == |models'| && asked <= asked'
    ensures forall i :: |asked| <= i < |asked'| ==> asked'[i] == [] && models'[i] in env
  {
    models', asked' := models, asked;
    assert models == models + [];
    for i := 0 to |names|
      invariant models' == models + Comodels(env, fields, names[..i])
      invariant |asked'| == |models'| && asked <= asked'
      invariant forall k :: |asked| <= k < |asked'| ==> asked'[k] == [] && models'[k] in env
    {
      var n := names[i];
      assert names[..i + 1][..i] == names[..i];
      ghost var pushed := Comodels(env, fields, names[..i]);
      if n in fields && fields[n].many2one && fields[n].comodel in env {
        models', asked' := models' + [fields[n].comodel], asked' + [[]];
        assert models' == models + (pushed + [fields[n].comodel]);
      } else {
        assert pushed + [] == pushed;
      }
    }
    assert names[..|names|] == names;
  }

  /** A list of models to look at, with the names asked of each: the root once with what the read asks
      for, and everything pushed later with nothing of its own. */
  ghost predicate Waiting(env: Env, root: string, asked: seq<string>, seen: set<string>,
                          todo: seq<string>, names: seq<seq<string>>)
  {
    && |names| == |todo|
    && (forall i :: 0 <= i < |todo| ==> todo[i] in env)
    && (if seen == {} then todo == [root] && names == [asked]
        else root in seen && forall i :: 0 <= i < |names| ==> names[i] == [])
  }

  lemma WaitingPopped(env: Env, root: string, asked: seq<string>, seen: set<string>,
                      todo: seq<string>, names: seq<seq<string>>)
    requires todo != [] && Waiting(env, root, asked, seen, todo, names)
    ensures var n := |todo| - 1;
            && todo[n] in env
            && (todo[n] in seen ==> Waiting(env, root, asked, seen, todo[..n], names[..n]))
            && (todo[n] !in seen ==>
                  && names[n] == (if todo[n] == root then asked else [])
                  && Waiting(env, root, asked, seen + {todo[n]}, todo[..n], names[..n]))
  {
    assert todo[|todo| - 1] in seen ==> seen != {};
    assert seen + {todo[|todo| - 1]} != {};
  }

  function Drift(env: Env, exported: map<string, string>, root: string, asked: seq<string>,
                 seen: set<string>, todo: seq<string>): bool
  {
    Search(OrderEdges(env, root, asked), env.Keys, m => Drifted(env, exported, m), seen, todo).Some?
  }

  /** The last model on the list, not seen before: a drifted order ends the search, otherwise the
      models it sorts through go onto the list. */
  method LookAt(env: Env, exported: map<string, string>, ghost root: string, ghost asked: seq<string>,
                ghost seen: set<string>, todo: seq<string>, names: seq<seq<string>>)
    returns (drifted: bool, todo': seq<string>, names': seq<seq<string>>)
    requires todo != [] && |names| == |todo|
    requires todo[|todo| - 1] in env && todo[|todo| - 1] !in seen
    requires names[|names| - 1] == if todo[|todo| - 1] == root then asked else []
    ensures drifted ==> Drift(env, exported, root, asked, seen, todo)
    ensures !drifted ==> Drift(env, exported, root, asked, seen + {todo[|todo| - 1]}, todo') ==
                         Drift(env, exported, root, asked, seen, todo)
    ensures |names'| == |todo'| && todo[..|todo| - 1] <= todo' && names[..|todo| - 1] <= names'
    ensures forall i :: |todo| - 1 <= i < |names'| ==> names'[i] == [] && todo'[i] in env
  {
    var n := |todo| - 1;
    var current := todo[n];
    todo', names' := todo[..n], names[..n];
    drifted := current in exported && exported[current] != env[current].order;
    if !drifted {
      todo', names' := PushComodels(env, env[current].fields, names[n] + NamesOf(env[current].order), todo[..n], names[..n]);
    }
  }

  /** One turn of the loop: the last model is passed over when it was seen, and looked at otherwise. */
  method DriftStep(env: Env, exported: map<string, string>, ghost root: string, ghost asked: seq<string>,
                   seen: set<string>, todo: seq<string>, names: seq<seq<string>>)
    returns (drifted: bool, seen': set<string>, todo': seq<string>, names': seq<seq<string>>)
    requires todo != [] && Waiting(env, root, asked, seen, todo, names)
    ensures drifted ==> Drift(env, exported, root, asked, seen, todo)
    ensures !drifted ==> Drift(env, exported, root, asked, seen', todo') == Drift(env, exported, root, asked, seen, todo)
    ensures !drifted ==> Waiting(env, root, asked, seen', todo', names')
    ensures !drifted ==> |env.Keys - seen'| < |env.Keys - seen| || (seen' == seen && |todo'| < |todo|)
  {
    WaitingPopped(env, root, asked, seen, todo, names);
    var n := |todo| - 1;
    var current := todo[n];
    if current in seen {
      return false, seen, todo[..n], names[..n];
    }
    drifted, todo', names' := LookAt(env, exported, root, asked, seen, todo, names);
    Shrinks(env.Keys, seen, current);
    seen' := seen + {current};
  }

  /** The loop: it follows the search from the root along the order edges. */
  method DriftLoop(env: Env, exported: map<string, string>, root: string, asked: seq<string>) returns (drifted: bool)
    requires root in env
    ensures drifted == Drift(env, exported, root, asked, {}, [root])
  {
    var todo, names := [root], [asked];
    var seen: set<string> := {};
    while todo != []
      invariant Waiting(env, root, asked, seen, todo, names)
      invariant Drift(env, exported, root, asked, seen, todo) == Drift(env, exported, root, asked, {}, [root])
      decreases |env.Keys - seen|, |todo|
    {
      drifted, seen, todo, names := DriftStep(env, exported, root, asked, seen, todo, names);
      if drifted {
        return;
      }
    }
    drifted := false;
  }

  /** True exactly when some model reachable through order and groupby edges has an order other than
      the exported one; terminates on every graph. */
  method OrderDrifted(env: Env, exported: map<string, string>, root: string, order: string, groupby: seq<string>)
    returns (drifted: bool)
    requires root in env
    ensures drifted <==>
            exists m :: m in Closure(OrderEdges(env, root, NamesOf(order) + groupby), {root}, env.Keys)
                        && m in env && m in exported && exported[m] != env[m].order
  {
    var asked := NamesOf(order) + groupby;
    SearchExact(OrderEdges(env, root, asked), env.Keys, m => Drifted(env, exported, m), [root]);
    assert SetOf([root]) == {root} by { SetOfConcat([], []); }
    drifted := DriftLoop(env, exported, root, asked);
  }

  // ----- access ---------------------------------------------------------------------------------------------------

  /** `inherits` counts only where a model takes its parents' rules. */
  datatype Inheritance = Inheritance(inheritsRules: bool, inherits: seq<string>)

  type Registry = map<string, Inheritance>

  function ParentEdges(reg: Registry): string -> seq<string>
  {
    m => if m in reg && reg[m].inheritsRules then reg[m].inherits else []
  }

  /** Parents count exactly where the rules of parents are taken. */
  lemma {:induction false} ParentsReached(reg: Registry, roots: seq<string>, m: string)
    ensures ReachedFrom(reg, roots, m) <==>
            m in reg && (m in roots || exists p :: ReachedFrom(reg, roots, p) && reg[p].inheritsRules && m in reg[p].inherits)
  {
    var edges, from := ParentEdges(reg), SetOf(roots);
    if m in reg && m in roots {
      ReachedRoot(edges, from, m);
    }
    if p :| ReachedFrom(reg, roots, p) && reg[p].inheritsRules && m in reg[p].inherits && m in reg {
      ReachedNext(edges, from, p, m);
    }
    if ReachedFrom(reg, roots, m) && m !in roots {
      var n: nat :| Steps(edges, from, m, n);
      var z :| Steps(edges, from, z, n - 1) && m in edges(z);
      assert ReachedFrom(reg, roots, z);
    }
  }

  /** What the search does with the last model on the list. */
  lemma ParentTurn(reg: Registry, hit: string -> bool, seen: set<string>, pending: seq<string>)
    requires pending != []
    ensures var current, rest := pending[|pending| - 1], pending[..|pending| - 1];
            var found := Search(ParentEdges(reg), reg.Keys, hit, seen, pending);
            && (current in seen || current !in reg ==> found == Search(ParentEdges(reg), reg.Keys, hit, seen, rest))
            && (current !in seen && current in reg && hit(current) ==> found == Some(current))
            && (current !in seen && current in reg && !hit(current) ==>
                  found == Search(ParentEdges(reg), reg.Keys, hit, seen + {current},
                                  if reg[current].inheritsRules then rest + reg[current].inherits else rest))
  {
    var rest := pending[..|pending| - 1];
    assert rest + [] == rest;
  }

  datatype Lack = LinksPresented | HeldByBlock(model: string) | RowOutsideTable(model: string)

  /** A registered model the read reaches, or a parent of one whose rules it takes. */
  ghost predicate ReachedFrom(reg: Registry, roots: seq<string>, m: string)
  {
    m in Closure(ParentEdges(reg), SetOf(roots), reg.Keys)
  }

  predicate Judged(framed: Option<set<string>>, outside: set<string>, m: string)
  {
    (framed.Some? && m in framed.value) || m in outside
  }

  /** A reason names a model that gives it; a privileged block is looked at first. */
  ghost predicate Gives(lack: Lack, reg: Registry, roots: seq<string>, framed: Option<set<string>>, outside: set<string>)
  {
    match lack
    case LinksPresented => false
    case HeldByBlock(m) => ReachedFrom(reg, roots, m) && framed.Some? && m in framed.value
    case RowOutsideTable(m) => ReachedFrom(reg, roots, m) && m in outside && (framed.None? || m !in framed.value)
  }

  function ReasonFor(framed: Option<set<string>>, m: string): Lack
  {
    if framed.Some? && m in framed.value then HeldByBlock(m) else RowOutsideTable(m)
  }

  /** The loop: the reason for the first judged model the search finds. */
  method AccessLoop(outside: set<string>, framed: Option<set<string>>, reg: Registry, roots: seq<string>)
    returns (lack: Option<Lack>)
    ensures var found := Search(ParentEdges(reg), reg.Keys, m => Judged(framed, outside, m), {}, roots);
            lack == if found.None? then None else Some(ReasonFor(framed, found.value))
  {
    ghost var hit := m => Judged(framed, outside, m);
    ghost var goal := Search(ParentEdges(reg), reg.Keys, hit, {}, roots);
    var pending, seen: set<string> := roots, {};
    while pending != []
      invariant Search(ParentEdges(reg), reg.Keys, hit, seen, pending) == goal
      decreases |reg.Keys - seen|, |pending|
    {
      ParentTurn(reg, hit, seen, pending);
      var current, rest := pending[|pending| - 1], pending[..|pending| - 1];
      pending := rest;
      if current in seen || current !in reg {
        continue;
      }
      Shrinks(reg.Keys, seen, current);
      seen := seen + {current};
      if framed.Some? && current in framed.value {
        return Some(HeldByBlock(current));
      }
      if current in outside {
        return Some(RowOutsideTable(current));
      }
      if reg[current].inheritsRules {
        pending := rest + reg[current].inherits;
      }
    }
    lack := None;
  }

  /** A closure reason is given exactly when some registered model reached by the read, or a parent
      whose rules it takes, is held by a privileged block or granted outside the access table; and
      the reason names such a model. */
  method AccessTheKernelLacks(su: bool, links: bool, outside: set<string>, framed: Option<set<string>>,
                              reg: Registry, roots: seq<string>) returns (lack: Option<Lack>)
    ensures su ==> lack == None
    ensures !su && links ==> lack == Some(LinksPresented)
    ensures !su && !links ==>
              (lack.Some? <==> exists m :: ReachedFrom(reg, roots, m) && ((framed.Some? && m in framed.value) || m in outside))
    ensures !su && !links && lack.Some? ==> Gives(lack.value, reg, roots, framed, outside)
  {
    if su {
      return None;
    }
    if links {
      return Some(LinksPresented);
    }
    if outside == {} && framed.None? {
      return None;
    }
    SearchExact(ParentEdges(reg), reg.Keys, m => Judged(framed, outside, m), roots);
    lack := AccessLoop(outside, framed, reg, roots);
  }

  // ----- rule reaches ------------------------------------------------------------------------------------------------

  /** A reach is a constant unless it is something other than nothing, "all" or "none". */
  predicate DependsOnPrincipal(reach: Option<string>)
  {
    reach.Some? && reach.value !in {"", "all", "none"}
  }

  predicate DynamicRows(rows: map<string, seq<Option<string>>>, m: string)
  {
    m in rows && exists i :: 0 <= i < |rows[m]| && DependsOnPrincipal(rows[m][i])
  }

  /** Every parent whose rules are inherited is itself registered. */
  ghost predicate Registered(reg: Registry)
  {
    forall m, n :: m in reg && reg[m].inheritsRules && n in reg[m].inherits ==> n in reg
  }

  /** One turn of the loop, on the last model of the list. */
  method ReachStep(reg: Registry, rows: map<string, seq<Option<string>>>, seen: set<string>, pending: seq<string>)
    returns (found: bool, seen': set<string>, pending': seq<string>)
    requires Registered(reg) && pending != []
    requires forall i :: 0 <= i < |pending| ==> pending[i] in reg
    ensures found ==> Reaches(reg, rows, seen, pending)
    ensures !found ==> Reaches(reg, rows, seen', pending') == Reaches(reg, rows, seen, pending)
    ensures forall i :: 0 <= i < |pending'| ==> pending'[i] in reg
    ensures !found ==> |reg.Keys - seen'| < |reg.Keys - seen| || (seen' == seen && |pending'| < |pending|)
  {
    ParentTurn(reg, m => DynamicRows(rows, m), seen, pending);
    var current, rest := pending[|pending| - 1], pending[..|pending| - 1];
    if current in seen {
      return false, seen, rest;
    }
    Shrinks(reg.Keys, seen, current);
    seen' := seen + {current};
    if DynamicRows(rows, current) {
      return true, seen', rest;
    }
    found, pending' := false, rest;
    if reg[current].inheritsRules {
      pending' := rest + reg[current].inherits;
    }
  }

  function Reaches(reg: Registry, rows: map<string, seq<Option<string>>>, seen: set<string>, pending: seq<string>): bool
  {
    Search(ParentEdges(reg), reg.Keys, m => DynamicRows(rows, m), seen, pending).Some?
  }

  /** The loop: it follows the search along the parents whose rules are taken. */
  method ReachLoop(reg: Registry, rows: map<string, seq<Option<string>>>, name: string) returns (dynamicReach: bool)
    requires name in reg && Registered(reg)
    ensures dynamicReach == Reaches(reg, rows, {}, [name])
  {
    var pending, seen: set<string> := [name], {};
    while pending != []
      invariant Reaches(reg, rows, seen, pending) == Reaches(reg, rows, {}, [name])
      invariant forall i :: 0 <= i < |pending| ==> pending[i] in reg
      decreases |reg.Keys - seen|, |pending|
    {
      dynamicReach, seen, pending := ReachStep(reg, rows, seen, pending);
      if dynamicReach {
        return;
      }
    }
    dynamicReach := false;
  }

  lemma DynamicIff(reg: Registry, rows: map<string, seq<Option<string>>>, name: string)
    ensures (exists m :: ReachedFrom(reg, [name], m) && DynamicRows(rows, m)) <==>
            exists m, reach :: ReachedFrom(reg, [name], m) && m in rows && reach in rows[m]
                               && reach !in {None, Some(""), Some("all"), Some("none")}
  {
    if m, reach :| ReachedFrom(reg, [name], m) && m in rows && reach in rows[m] && reach !in {None, Some(""), Some("all"), Some("none")} {
      var i :| 0 <= i < |rows[m]| && rows[m][i] == reach;
      assert DependsOnPrincipal(rows[m][i]);
    }
    if m :| ReachedFrom(reg, [name], m) && DynamicRows(rows, m) {
      var i :| 0 <= i < |rows[m]| && DependsOnPrincipal(rows[m][i]);
      assert rows[m][i] in rows[m];
    }
  }

  /** The reach loop finds a principal-dependent reach exactly when one is reachable. */
  method ReachDependsOnPrincipal(reg: Registry, rows: map<string, seq<Option<string>>>, name: string)
    returns (dynamicReach: bool)
    requires name in reg && Registered(reg)
    ensures dynamicReach <==> exists m, reach :: ReachedFrom(reg, [name], m) && m in rows && reach in rows[m]
                                                 && reach !in {None, Some(""), Some("all"), Some("none")}
  {
    DynamicIff(reg, rows, name);
    SearchExact(ParentEdges(reg), reg.Keys, m => DynamicRows(rows, m), [name]);
    dynamicReach := ReachLoop(reg, rows, name);
  }
}
