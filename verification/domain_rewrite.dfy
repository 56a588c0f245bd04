/**
The `display_name` rewrite of prefix-notation domains (`_resolve_display_name_exact` in
engine-py/python/rust_orm_shim.py).  A `display_name` leaf is replaced, in place, by an id leaf or by
the prefix expression "any of these name fields"; everything around it is copied.

The domain keeps its meaning: on every record the rewritten domain has the same complete top-level
terms with the same truth values, under any nesting of the operators.
*/
module DomainRewrite {
  import opened Sequences

  datatype Result<+T> = Ok(value: T) | TypeError

  datatype Operator = Not | And | Or

  datatype Elem = Text(text: string) | NonText(id: int)

  datatype Value = One(text: string) | Many(items: seq<Elem>) | Ids(ids: seq<int>) | Scalar(truthy: bool)

  /** An element of a domain list: an operator, a (field, operator, value) triple, or anything else,
      which is copied untouched and read as a term. */
  datatype Item =
    | Op(op: Operator)
    | Leaf(field: string, operator: string, value: Value)
    | Opaque(id: int)

  type Domain = seq<Item>

  /** What the rewrite asks of a model: the fields whose exact match decides a display name, the names
      a display name searches, which of them are relational or would loop, and the search itself. */
  datatype Model = Model(
    exact: seq<string>,
    recNames: seq<string>,
    cyclic: set<string>,
    relational: set<string>,
    search: Domain -> seq<int>)

  // ----- the rewrite --------------------------------------------------------------------------------------

  function Repeat(op: Operator, n: nat): (r: Domain)
    ensures |r| == n && forall i :: 0 <= i < n ==> r[i] == Op(op)
  {
    seq(n, _ => Op(op))
  }

  function AnyOf(leaves: Domain): Domain
    requires leaves != []
  {
    Repeat(Or, |leaves| - 1) + leaves
  }

  function DefaultNameFields(names: seq<string>, cyclic: set<string>): seq<string>
  {
    if names == [] then []
    else (if names[0] != "display_name" && names[0] !in cyclic then [names[0]] else [])
         + DefaultNameFields(names[1..], cyclic)
  }

  predicate Truthy(v: Value)
  {
    match v
    case One(text) => text != ""
    case Many(items) => items != []
    case Ids(ids) => ids != []
    case Scalar(truthy) => truthy
  }

  predicate Candidate(item: Item)
  {
    item.Leaf? && item.field == "display_name" && item.operator in {"in", "ilike"} && Truthy(item.value)
  }

  /** list(value) of a text is the text itself here; of a scalar it raises. */
  function Values(v: Value): Result<seq<Elem>>
  {
    match v
    case One(text) => Ok([Text(text)])
    case Many(items) => Ok(items)
    case Ids(ids) => Ok(seq(|ids|, i requires 0 <= i < |ids| => NonText(ids[i])))
    case Scalar(_) => TypeError
  }

  predicate AllText(values: seq<Elem>)
  {
    forall i :: 0 <= i < |values| ==> values[i].Text? && values[i].text != ""
  }

  function ExactLeaves(exact: seq<string>, values: seq<Elem>): Domain
  {
    seq(|exact|, i requires 0 <= i < |exact| => Leaf(exact[i], "in", Many(values)))
  }

  function NameLeaf(m: Model, field: string, operator: string, value: Value): Item
  {
    Leaf(if field in m.relational then field + ".display_name" else field, operator, value)
  }

  function NameLeaves(m: Model, fields: seq<string>, operator: string, value: Value): (r: Domain)
    ensures |r| == |fields|
    ensures forall i :: 0 <= i < |r| ==> r[i] == NameLeaf(m, fields[i], operator, value)
  {
    seq(|fields|, i requires 0 <= i < |fields| => NameLeaf(m, fields[i], operator, value))
  }

  /** What one element becomes; the model declares at least one exact field. */
  function RewriteItem(m: Model, item: Item): Result<Domain>
    requires m.exact != []
  {
    if !Candidate(item) then Ok([item])
    else
      match Values(item.value)
      case TypeError => TypeError
      case Ok(values) =>
        if !AllText(values) then Ok([item])
        else
          var hits := m.search(AnyOf(ExactLeaves(m.exact, values)));
          var terms := NameLeaves(m, DefaultNameFields(m.recNames, m.cyclic), item.operator, item.value);
          if hits != [] then Ok([Leaf("id", "in", Ids(hits))])
          else if terms != [] then Ok(AnyOf(terms))
          else Ok([item])
  }

  function Rewrite(m: Model, domain: Domain): Result<Domain>
  {
    if m.exact == [] then Ok(domain)
    else if domain == [] then Ok([])
    else
      match RewriteItem(m, domain[0])
      case TypeError => TypeError
      case Ok(head) =>
        match Rewrite(m, domain[1..])
        case TypeError => TypeError
        case Ok(tail) => Ok(head + tail)
  }

  lemma {:induction false} RewriteAppend(m: Model, done: Domain, item: Item)
    requires m.exact != []
    ensures Rewrite(m, done + [item]) ==
            match Rewrite(m, done)
            case TypeError => TypeError
            case Ok(out) => (match RewriteItem(m, item) case TypeError => TypeError case Ok(new_) => Ok(out + new_))
  {
    if done == [] {
      assert done + [item] == [item] && [item][1..] == [];
      match RewriteItem(m, item) {
        case TypeError =>
        case Ok(new_) => assert new_ + [] == new_ && [] + new_ == new_;
      }
    } else {
      assert (done + [item])[1..] == done[1..] + [item];
      RewriteAppend(m, done[1..], item);
      match RewriteItem(m, done[0]) {
        case TypeError =>
        case Ok(head) =>
          match Rewrite(m, done[1..]) {
            case TypeError =>
            case Ok(tail) =>
              match RewriteItem(m, item) {
                case TypeError =>
                case Ok(new_) => assert (head + tail) + new_ == head + (tail + new_);
              }
          }
      }
    }
  }

  lemma {:induction false} ErrorSticks(m: Model, done: Domain, rest: Domain)
    requires m.exact != [] && Rewrite(m, done).TypeError?
    ensures Rewrite(m, done + rest).TypeError?
  {
    assert (done + rest)[1..] == done[1..] + rest;
    if RewriteItem(m, done[0]).Ok? {
      ErrorSticks(m, done[1..], rest);
    }
  }

  method ResolveDisplayNameExact(m: Model, domain: Domain) returns (r: Result<Domain>)
    ensures r == Rewrite(m, domain)
  {
    if m.exact == [] {
      return Ok(domain);
    }
    var out: Domain := [];
    var i := 0;
    while i < |domain|
      invariant 0 <= i <= |domain|
      invariant Rewrite(m, domain[..i]) == Ok(out)
    {
      var item := domain[i];
      RewriteAppend(m, domain[..i], item);
      assert domain[..i] + [item] == domain[..i + 1];
      assert domain[..i + 1] + domain[i + 1..] == domain;
      i := i + 1;
      if !Candidate(item) {
        out := out + [item];
        continue;
      }
      var values := Values(item.value);
      if values.TypeError? {
        ErrorSticks(m, domain[..i], domain[i..]);
        return TypeError;
      }
      if !AllText(values.value) {
        out := out + [item];
        continue;
      }
      var hits := m.search(AnyOf(ExactLeaves(m.exact, values.value)));
      if hits != [] {
        out := out + [Leaf("id", "in", Ids(hits))];
        continue;
      }
      var terms: Domain := [];
      var names := DefaultNameFields(m.recNames, m.cyclic);
      for k := 0 to |names|
        invariant terms == NameLeaves(m, names, item.operator, item.value)[..k]
      {
        terms := terms + [NameLeaf(m, names[k], item.operator, item.value)];
      }
      assert terms == NameLeaves(m, names, item.operator, item.value);
      out := out + (if terms != [] then AnyOf(terms) else [item]);
    }
    assert domain[..i] == domain;
    return Ok(out);
  }

  // ----- what becomes of each element ---------------------------------------------------------------------

  /** A display_name leaf that is looked up: the values it lists. */
  ghost predicate LooksUp(item: Item, values: seq<Elem>)
  {
    && item.Leaf? && item.field == "display_name" && (item.operator == "in" || item.operator == "ilike")
    && match item.value
       case One(text) => text != "" && values == [Text(text)]
       case Many(items) => items != [] && values == items && forall e :: e in items ==> e.Text? && e.text != ""
       case _ => false
  }

  /** "Any of `leaves`" in prefix notation. */
  ghost predicate Spells(d: Domain, leaves: Domain)
  {
    && leaves != [] && |d| == 2 * |leaves| - 1
    && (forall i :: 0 <= i < |leaves| - 1 ==> d[i] == Op(Or))
    && (forall i :: 0 <= i < |leaves| ==> d[|leaves| - 1 + i] == leaves[i])
  }

  lemma AnyOfSpells(leaves: Domain, d: Domain)
    requires leaves != []
    ensures Spells(AnyOf(leaves), leaves)
    ensures Spells(d, leaves) ==> d == AnyOf(leaves)
  {
  }

  /** A leaf that is looked up becomes the ids an exact search finds, or else any of the name fields, by
      their own display name where they are relational; it stays only if there is neither. */
  lemma LeafRewritten(m: Model, item: Item, values: seq<Elem>, asked: Domain, searched: Domain, terms: Domain)
    requires m.exact != [] && LooksUp(item, values)
    requires |asked| == |m.exact| && forall i :: 0 <= i < |asked| ==> asked[i] == Leaf(m.exact[i], "in", Many(values))
    requires Spells(searched, asked)
    requires var names := DefaultNameFields(m.recNames, m.cyclic);
             && |terms| == |names|
             && forall i :: 0 <= i < |names| ==>
                  terms[i] == Leaf(if names[i] in m.relational then names[i] + ".display_name" else names[i], item.operator, item.value)
    ensures RewriteItem(m, item).Ok?
    ensures var out, found := RewriteItem(m, item).value, m.search(searched);
            if found != [] then out == [Leaf("id", "in", Ids(found))]
            else if terms != [] then Spells(out, terms)
            else out == [item]
  {
    AnyOfSpells(asked, searched);
    assert ExactLeaves(m.exact, values) == asked;
    assert NameLeaves(m, DefaultNameFields(m.recNames, m.cyclic), item.operator, item.value) == terms;
    assert Values(item.value) == Ok(values) && AllText(values);
    if terms != [] {
      AnyOfSpells(terms, []);
    }
  }

  /** Everything else is copied, but for a display_name leaf with a value that cannot be listed. */
  lemma OthersCopied(m: Model, item: Item)
    requires m.exact != [] && forall values :: !LooksUp(item, values)
    ensures RewriteItem(m, item) ==
            if item.Leaf? && item.field == "display_name" && item.operator in {"in", "ilike"} && item.value == Scalar(true)
            then TypeError else Ok([item])
  {
    if item.Leaf? {
      match item.value
      case One(text) => assert !LooksUp(item, [Text(text)]);
      case Many(items) =>
        assert !LooksUp(item, items);
        assert AllText(items) ==> forall e :: e in items ==> e.Text? && e.text != "";
      case Ids(ids) =>
        if ids != [] {
          assert Values(item.value).value[0] == NonText(ids[0]);
        }
      case _ =>
    }
  }

  lemma {:induction false} NoNameFields(names: seq<string>, cyclic: set<string>)
    ensures DefaultNameFields(names, cyclic) == [] <==> forall n :: n in names ==> n == "display_name" || n in cyclic
    ensures forall n :: n in DefaultNameFields(names, cyclic) ==> n != "display_name"
  {
    if names != [] {
      NoNameFields(names[1..], cyclic);
      assert forall n :: n in names <==> n == names[0] || n in names[1..];
    }
  }

  lemma ItemLeavesNone(m: Model, item: Item, k: nat, values: seq<Elem>)
    requires m.exact != [] && RewriteItem(m, item).Ok? && k < |RewriteItem(m, item).value|
    requires LooksUp(RewriteItem(m, item).value[k], values)
    ensures forall n :: n in m.recNames ==> n == "display_name" || n in m.cyclic
    ensures RewriteItem(m, item) == Ok([item])
  {
    var out := RewriteItem(m, item).value;
    var terms := NameLeaves(m, DefaultNameFields(m.recNames, m.cyclic), item.operator, item.value);
    NoNameFields(m.recNames, m.cyclic);
    if terms != [] && out == AnyOf(terms) {
      TermsAreNamed(m, item.operator, item.value, out[k]);
    } else {
      assert out == [item] && AllText(values);
    }
  }

  lemma TermsAreNamed(m: Model, operator: string, value: Value, item: Item)
    requires var terms := NameLeaves(m, DefaultNameFields(m.recNames, m.cyclic), operator, value);
             terms != [] && item in AnyOf(terms)
    ensures item.Leaf? ==> item.field != "display_name"
  {
    var names := DefaultNameFields(m.recNames, m.cyclic);
    NoNameFields(m.recNames, m.cyclic);
    if item.Leaf? {
      var i :| 0 <= i < |names| && item == NameLeaf(m, names[i], operator, value);
      assert names[i] in names;
    }
  }

  /** A display_name leaf that is looked up is left in a domain only if there is no name field to look
      it up by. */
  lemma {:induction false} NoLeafLeft(m: Model, domain: Domain, k: nat, values: seq<Elem>)
    requires m.exact != [] && Rewrite(m, domain).Ok? && k < |Rewrite(m, domain).value|
    requires LooksUp(Rewrite(m, domain).value[k], values)
    ensures forall n :: n in m.recNames ==> n == "display_name" || n in m.cyclic
  {
    var head := RewriteItem(m, domain[0]).value;
    if k < |head| {
      ItemLeavesNone(m, domain[0], k, values);
    } else {
      NoLeafLeft(m, domain[1..], k - |head|, values);
    }
  }

  /** The name fields in their order, display_name itself and cyclic ones left out. */
  lemma {:induction false} NameFieldsInOrder(names: seq<string>, cyclic: set<string>) returns (at: seq<nat>)
    ensures InOrder(names, DefaultNameFields(names, cyclic), at)
    ensures forall i :: 0 <= i < |names| ==> (i in at <==> names[i] != "display_name" && names[i] !in cyclic)
  {
    if names == [] {
      at := [];
    } else {
      var n := |names| - 1;
      at := NameFieldsInOrder(names[..n], cyclic);
      NameFieldsAppend(names[..n], names[n], cyclic);
      assert names[..n] + [names[n]] == names;
      InOrderTake(names, DefaultNameFields(names[..n], cyclic), at, n);
      if names[n] != "display_name" && names[n] !in cyclic {
        at := at + [n];
      }
    }
  }

  lemma {:induction false} NameFieldsAppend(names: seq<string>, name: string, cyclic: set<string>)
    ensures DefaultNameFields(names + [name], cyclic) ==
            DefaultNameFields(names, cyclic) + if name != "display_name" && name !in cyclic then [name] else []
  {
    if names == [] {
      assert ([name])[1..] == [];
    } else {
      assert (names + [name])[1..] == names[1..] + [name];
      NameFieldsAppend(names[1..], name, cyclic);
    }
  }

  // ----- what a domain means ---------------------------------------------------------------------------------

  datatype Stack = Bad | Good(terms: seq<bool>)

  /** One element read from the right: a term is pushed, an operator takes its operands. */
  function Push(holds: Item -> bool, item: Item, st: Stack): Stack
  {
    match st
    case Bad => Bad
    case Good(terms) =>
      match item
      case Op(Not) => if |terms| < 1 then Bad else Good([!terms[0]] + terms[1..])
      case Op(And) => if |terms| < 2 then Bad else Good([terms[0] && terms[1]] + terms[2..])
      case Op(Or) => if |terms| < 2 then Bad else Good([terms[0] || terms[1]] + terms[2..])
      case _ => Good([holds(item)] + terms)
  }

  function EvalOnto(holds: Item -> bool, d: Domain, st: Stack): Stack
    decreases |d|
  {
    if d == [] then st else Push(holds, d[0], EvalOnto(holds, d[1..], st))
  }

  /** The truth of each complete top-level term of a domain on one record, or Bad when an operator
      lacks an operand; the domain as a whole is their conjunction. */
  function Eval(holds: Item -> bool, d: Domain): Stack
  {
    EvalOnto(holds, d, Good([]))
  }

  predicate Accepts(holds: Item -> bool, d: Domain)
  {
    Eval(holds, d).Good? && false !in Eval(holds, d).terms
  }

  lemma {:induction false} EvalConcat(holds: Item -> bool, a: Domain, b: Domain, st: Stack)
    ensures EvalOnto(holds, a + b, st) == EvalOnto(holds, a, EvalOnto(holds, b, st))
    decreases |a|
  {
    if a == [] {
      assert a + b == b;
    } else {
      assert (a + b)[1..] == a[1..] + b;
      EvalConcat(holds, a[1..], b, st);
    }
  }

  predicate AnyHolds(holds: Item -> bool, leaves: Domain)
  {
    exists i :: 0 <= i < |leaves| && holds(leaves[i])
  }

  predicate AllTerms(d: Domain)
  {
    forall i :: 0 <= i < |d| ==> !d[i].Op?
  }

  function Truths(holds: Item -> bool, leaves: Domain): (r: seq<bool>)
    ensures |r| == |leaves| && forall i :: 0 <= i < |r| ==> r[i] == holds(leaves[i])
  {
    seq(|leaves|, i requires 0 <= i < |leaves| => holds(leaves[i]))
  }

  lemma {:induction false} LeavesPush(holds: Item -> bool, leaves: Domain, terms: seq<bool>)
    requires AllTerms(leaves)
    ensures EvalOnto(holds, leaves, Good(terms)) == Good(Truths(holds, leaves) + terms)
    decreases |leaves|
  {
    if leaves != [] {
      LeavesPush(holds, leaves[1..], terms);
      assert [holds(leaves[0])] + (Truths(holds, leaves[1..]) + terms) == Truths(holds, leaves) + terms;
    } else {
      assert Truths(holds, leaves) + terms == terms;
    }
  }

  /** Folding the first two of some terms keeps whether one of the first ones is true. */
  lemma FoldOnce(terms: seq<bool>, n: nat)
    requires 0 < n < |terms|
    ensures var once := [terms[0] || terms[1]] + terms[2..];
            (true in once[..n] <==> true in terms[..n + 1]) && once[n..] == terms[n + 1..]
  {
    var once := [terms[0] || terms[1]] + terms[2..];
    var tail := terms[2..n + 1];
    assert terms[..n + 1] == [terms[0], terms[1]] + tail;
    assert once[..n] == [terms[0] || terms[1]] + tail;
    assert true in [terms[0], terms[1]] + tail <==> terms[0] || terms[1] || true in tail;
    assert true in [terms[0] || terms[1]] + tail <==> (terms[0] || terms[1]) || true in tail;
  }

  lemma FirstOfOne(terms: seq<bool>)
    requires terms != []
    ensures [true in terms[..1]] + terms[1..] == terms
  {
    assert terms[..1] == [terms[0]];
    assert (true in [terms[0]]) == terms[0];
    assert [terms[0]] + terms[1..] == terms;
  }

  lemma {:induction false} OrsFold(holds: Item -> bool, n: nat, terms: seq<bool>)
    requires n < |terms|
    ensures EvalOnto(holds, Repeat(Or, n), Good(terms)) == Good([true in terms[..n + 1]] + terms[n + 1..])
    decreases n
  {
    if n == 0 {
      assert Repeat(Or, n) == [];
      FirstOfOne(terms);
    } else {
      var once := [terms[0] || terms[1]] + terms[2..];
      RepeatLast(Or, n);
      EvalConcat(holds, Repeat(Or, n - 1), [Op(Or)], Good(terms));
      OrsFold(holds, n - 1, once);
      FoldOnce(terms, n);
    }
  }

  lemma RepeatLast(op: Operator, n: nat)
    requires n > 0
    ensures Repeat(op, n) == Repeat(op, n - 1) + [Op(op)]
  {
  }

  /** any_of is one complete term, true exactly when one of its leaves is. */
  lemma AnyOfMeansAny(holds: Item -> bool, leaves: Domain, terms: seq<bool>)
    requires leaves != [] && AllTerms(leaves)
    ensures EvalOnto(holds, AnyOf(leaves), Good(terms)) == Good([AnyHolds(holds, leaves)] + terms)
  {
    var n := |leaves|;
    var pushed := Truths(holds, leaves) + terms;
    EvalConcat(holds, Repeat(Or, n - 1), leaves, Good(terms));
    LeavesPush(holds, leaves, terms);
    OrsFold(holds, n - 1, pushed);
    assert pushed[..n] == Truths(holds, leaves);
    assert pushed[n..] == terms;
    assert (true in Truths(holds, leaves)) == AnyHolds(holds, leaves) by {
      if true in Truths(holds, leaves) {
        var i :| 0 <= i < n && Truths(holds, leaves)[i];
        assert holds(leaves[i]);
      }
      if AnyHolds(holds, leaves) {
        var i :| 0 <= i < n && holds(leaves[i]);
        assert Truths(holds, leaves)[i];
      }
    }
  }

  lemma {:induction false} BadSticks(holds: Item -> bool, d: Domain)
    ensures EvalOnto(holds, d, Bad) == Bad
    decreases |d|
  {
    if d != [] {
      BadSticks(holds, d[1..]);
    }
  }

  /** Odoo's reading of an eligible display_name leaf, as the shim assumes it: the records an exact
      search hits, or when it hits none, those any name field matches. */
  ghost predicate ReadsDisplayName(m: Model, holds: Item -> bool)
    requires m.exact != []
  {
    forall item: Item :: Candidate(item) && Values(item.value).Ok? && AllText(Values(item.value).value) ==>
      var hits := m.search(AnyOf(ExactLeaves(m.exact, Values(item.value).value)));
      var terms := NameLeaves(m, DefaultNameFields(m.recNames, m.cyclic), item.operator, item.value);
      holds(item) == if hits != [] then holds(Leaf("id", "in", Ids(hits)))
                     else if terms != [] then AnyHolds(holds, terms) else holds(item)
  }

  lemma ItemKeepsMeaning(m: Model, holds: Item -> bool, item: Item, st: Stack)
    requires m.exact != [] && ReadsDisplayName(m, holds) && RewriteItem(m, item).Ok?
    ensures EvalOnto(holds, RewriteItem(m, item).value, st) == Push(holds, item, st)
  {
    var out := RewriteItem(m, item).value;
    if st.Bad? {
      BadSticks(holds, out);
    } else if out == [item] {
      assert out[1..] == [];
    } else {
      var values := Values(item.value).value;
      var hits := m.search(AnyOf(ExactLeaves(m.exact, values)));
      var terms := NameLeaves(m, DefaultNameFields(m.recNames, m.cyclic), item.operator, item.value);
      if hits != [] {
        assert out == [Leaf("id", "in", Ids(hits))] && out[1..] == [];
      } else {
        AnyOfMeansAny(holds, terms, st.terms);
      }
    }
  }

  /** Any domain, well formed or not, keeps its complete terms and their truth on every record. */
  lemma {:induction false} RewriteKeepsMeaning(m: Model, holds: Item -> bool, domain: Domain, st: Stack)
    requires m.exact != [] ==> ReadsDisplayName(m, holds)
    requires Rewrite(m, domain).Ok?
    ensures EvalOnto(holds, Rewrite(m, domain).value, st) == EvalOnto(holds, domain, st)
    decreases |domain|
  {
    if m.exact != [] && domain != [] {
      var head, tail := RewriteItem(m, domain[0]).value, Rewrite(m, domain[1..]).value;
      RewriteKeepsMeaning(m, holds, domain[1..], st);
      EvalConcat(holds, head, tail, st);
      ItemKeepsMeaning(m, holds, domain[0], EvalOnto(holds, tail, st));
    }
  }

  // ----- the same in terms of expression trees ------------------------------------------------------------------

  datatype Term = Atom(item: Item) | Negation(t: Term) | Both(l: Term, r: Term) | Either(l: Term, r: Term)

  function Flatten(t: Term): Domain
  {
    match t
    case Atom(item) => [item]
    case Negation(t1) => [Op(Not)] + Flatten(t1)
    case Both(l, r) => [Op(And)] + Flatten(l) + Flatten(r)
    case Either(l, r) => [Op(Or)] + Flatten(l) + Flatten(r)
  }

  predicate TruthOf(holds: Item -> bool, t: Term)
  {
    match t
    case Atom(item) => holds(item)
    case Negation(t1) => !TruthOf(holds, t1)
    case Both(l, r) => TruthOf(holds, l) && TruthOf(holds, r)
    case Either(l, r) => TruthOf(holds, l) || TruthOf(holds, r)
  }

  function Size(t: Term): (n: nat)
    ensures n >= 1
  {
    match t
    case Atom(_) => 1
    case Negation(t1) => 1 + Size(t1)
    case Both(l, r) => 1 + Size(l) + Size(r)
    case Either(l, r) => 1 + Size(l) + Size(r)
  }

  predicate Sane(t: Term)
  {
    match t
    case Atom(item) => !item.Op?
    case Negation(t1) => Sane(t1)
    case Both(l, r) => Sane(l) && Sane(r)
    case Either(l, r) => Sane(l) && Sane(r)
  }

  lemma PushTerm(holds: Item -> bool, item: Item, terms: seq<bool>)
    requires !item.Op?
    ensures EvalOnto(holds, [item], Good(terms)) == Good([holds(item)] + terms)
  {
    assert [item] + [] == [item];
  }

  lemma PushBinary(holds: Item -> bool, a: bool, b: bool, terms: seq<bool>)
    ensures Push(holds, Op(And), Good([a, b] + terms)) == Good([a && b] + terms)
    ensures Push(holds, Op(Or), Good([a, b] + terms)) == Good([a || b] + terms)
  {
    assert ([a, b] + terms)[2..] == terms;
  }

  lemma EvalBinary(holds: Item -> bool, op: Operator, l: Domain, r: Domain, st: Stack)
    ensures EvalOnto(holds, [Op(op)] + l + r, st) == Push(holds, Op(op), EvalOnto(holds, l + r, st))
  {
    assert [Op(op)] + l + r == [Op(op)] + (l + r);
  }

  lemma {:induction false} EvalOfTree(holds: Item -> bool, t: Term, terms: seq<bool>)
    requires Sane(t)
    ensures EvalOnto(holds, Flatten(t), Good(terms)) == Good([TruthOf(holds, t)] + terms)
    decreases Size(t)
  {
    match t {
      case Atom(item) => PushTerm(holds, item, terms);
      case Negation(t1) =>
        EvalOfTree(holds, t1, terms);
      case Both(l, r) =>
        EvalPair(holds, l, r, terms);
        EvalBinary(holds, And, Flatten(l), Flatten(r), Good(terms));
        PushBinary(holds, TruthOf(holds, l), TruthOf(holds, r), terms);
      case Either(l, r) =>
        EvalPair(holds, l, r, terms);
        EvalBinary(holds, Or, Flatten(l), Flatten(r), Good(terms));
        PushBinary(holds, TruthOf(holds, l), TruthOf(holds, r), terms);
    }
  }

  lemma {:induction false} EvalPair(holds: Item -> bool, l: Term, r: Term, terms: seq<bool>)
    requires Sane(l) && Sane(r)
    ensures EvalOnto(holds, Flatten(l) + Flatten(r), Good(terms))
         == Good([TruthOf(holds, l), TruthOf(holds, r)] + terms)
    decreases Size(l) + Size(r)
  {
    var a, b := TruthOf(holds, l), TruthOf(holds, r);
    EvalOfTree(holds, r, terms);
    EvalOfTree(holds, l, [b] + terms);
    EvalConcat(holds, Flatten(l), Flatten(r), Good(terms));
    PairUp(a, b, terms);
  }

  lemma PairUp(a: bool, b: bool, terms: seq<bool>)
    ensures [a] + ([b] + terms) == [a, b] + terms
  {
  }

  function FlattenAll(ts: seq<Term>): Domain
  {
    if ts == [] then [] else Flatten(ts[0]) + FlattenAll(ts[1..])
  }

  function TruthsOf(holds: Item -> bool, ts: seq<Term>): (r: seq<bool>)
    ensures |r| == |ts| && forall i :: 0 <= i < |r| ==> r[i] == TruthOf(holds, ts[i])
  {
    seq(|ts|, i requires 0 <= i < |ts| => TruthOf(holds, ts[i]))
  }

  lemma {:induction false} EvalOfTrees(holds: Item -> bool, ts: seq<Term>)
    requires forall i :: 0 <= i < |ts| ==> Sane(ts[i])
    ensures Eval(holds, FlattenAll(ts)) == Good(TruthsOf(holds, ts))
  {
    if ts != [] {
      EvalOfTrees(holds, ts[1..]);
      EvalConcat(holds, Flatten(ts[0]), FlattenAll(ts[1..]), Good([]));
      EvalOfTree(holds, ts[0], TruthsOf(holds, ts[1..]));
      assert [TruthOf(holds, ts[0])] + TruthsOf(holds, ts[1..]) == TruthsOf(holds, ts);
    } else {
      assert TruthsOf(holds, ts) == [];
    }
  }

  /** A domain that spells expression trees is rewritten into one with as many top-level terms, each
      as true as the tree it came from, and accepts the same records. */
  lemma RewriteOfTrees(m: Model, holds: Item -> bool, ts: seq<Term>)
    requires m.exact != [] ==> ReadsDisplayName(m, holds)
    requires forall i :: 0 <= i < |ts| ==> Sane(ts[i])
    requires Rewrite(m, FlattenAll(ts)).Ok?
    ensures var out := Rewrite(m, FlattenAll(ts)).value;
            && Eval(holds, out) == Good(TruthsOf(holds, ts))
            && (Accepts(holds, out) <==> forall i :: 0 <= i < |ts| ==> TruthOf(holds, ts[i]))
  {
    EvalOfTrees(holds, ts);
    RewriteKeepsMeaning(m, holds, FlattenAll(ts), Good([]));
    var truths := TruthsOf(holds, ts);
    if forall i :: 0 <= i < |ts| ==> TruthOf(holds, ts[i]) {
      assert forall i :: 0 <= i < |truths| ==> truths[i];
    } else {
      var i :| 0 <= i < |ts| && !TruthOf(holds, ts[i]);
      assert truths[i] == false;
    }
  }
}
