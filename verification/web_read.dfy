/**
The split web read (engine-py/python/rust_orm_shim.py): a plan sends some fields of a specification to
the kernel and the rest to Python, many2one values are resolved in place, records are put back into the
order of the requested ids, and the two halves are merged.  One value function says what the whole read
of Odoo would show for each record and field; the split read must show exactly that.
*/
module WebRead {
  import opened Sequences
  import opened WebLength
  import opened Wrappers

  // ----- specifications and the plan ----------------------------------------------------------------------

  datatype Kind = Many2one | X2many | Skipped | Other

  datatype Field = Field(kind: Kind, store: bool, related: bool, relatedReadsColumns: bool,
                         perRecordDomain: bool, comodelSearchesInPython: bool, kernelLabels: bool)

  datatype SubFields = Missing | Null | Odd | Names(names: set<string>)

  datatype Sub = NotDict | Sub(context: bool, fields: SubFields, more: bool)

  /** One entry of a specification, with the model's field of that name. */
  datatype Item = Item(name: string, field: Option<Field>, sub: Sub)

  predicate Plannable(it: Item)
  {
    it.field.Some? && it.sub.Sub?
  }

  predicate FieldInPython(f: Field, name: string, sub: Sub)
    requires sub.Sub?
  {
    || f.kind.Skipped?
    || (name != "display_name" && !(f.store || f.related))
    || (f.related && !f.store && !f.relatedReadsColumns)
    || (f.kind.Many2one? && (sub.context || sub.fields.Odd? || (sub.fields.Names? && sub.fields.names != {"display_name"})))
    || (f.kind.X2many? && (sub.context || !sub.fields.Missing? || sub.more || f.perRecordDomain || f.comodelSearchesInPython))
  }

  predicate InPython(displayOk: bool, it: Item)
    requires Plannable(it)
  {
    (it.name == "display_name" && !displayOk) || FieldInPython(it.field.value, it.name, it.sub)
  }

  predicate Named(it: Item)
    requires it.sub.Sub?
  {
    !it.sub.fields.Missing?
  }

  datatype Plan = NoPlan | Plan(fields: seq<string>, many2ones: seq<Item>, python: seq<Item>)

  datatype Side = Kernel | KernelMany2one | Python

  function SideOf(displayOk: bool, it: Item): Side
    requires Plannable(it)
  {
    if InPython(displayOk, it) then Python
    else if it.field.value.kind.Many2one? then KernelMany2one
    else Kernel
  }

  predicate AllPlannable(items: seq<Item>)
  {
    forall i :: 0 <= i < |items| ==> Plannable(items[i])
  }

  /** The entries on some of the sides, in the order of the specification. */
  function On(sides: set<Side>, displayOk: bool, items: seq<Item>): seq<Item>
    requires AllPlannable(items)
  {
    if items == [] then []
    else
      var n := |items| - 1;
      On(sides, displayOk, items[..n]) + if SideOf(displayOk, items[n]) in sides then [items[n]] else []
  }

  function NamesOf(items: seq<Item>): seq<string>
  {
    seq(|items|, i requires 0 <= i < |items| => items[i].name)
  }

  lemma {:induction false} OnExactly(sides: set<Side>, displayOk: bool, items: seq<Item>, it: Item)
    requires AllPlannable(items)
    ensures it in On(sides, displayOk, items) <==> it in items && SideOf(displayOk, it) in sides
  {
    if items != [] {
      var n := |items| - 1;
      OnExactly(sides, displayOk, items[..n], it);
      assert it in items <==> it in items[..n] || it == items[n];
    }
  }

  /** What the kernel can read for an entry, by the kind of its field and the shape of its specification. */
  ghost predicate KernelReads(displayOk: bool, it: Item)
  {
    match it
    case Item(name, Some(Field(kind, store, related, relatedReadsColumns, perRecordDomain, comodelSearchesInPython, _)), Sub(context, fields, more)) =>
      && kind != Skipped
      && (if name == "display_name" then displayOk else store || related)
      && (store || !related || relatedReadsColumns)
      && (kind == Many2one ==> !context && (fields == Missing || fields == Null || fields == Names({"display_name"})))
      && (kind == X2many ==> !context && fields == Missing && !more && !perRecordDomain && !comodelSearchesInPython)
    case _ => false
  }

  lemma KernelReadsExactly(displayOk: bool, it: Item)
    requires Plannable(it)
    ensures KernelReads(displayOk, it) <==> !SideOf(displayOk, it).Python?
    ensures SideOf(displayOk, it).KernelMany2one? <==> KernelReads(displayOk, it) && it.field.value.kind == Many2one
  {
  }

  /** The entries of a side in the order of the specification. */
  lemma {:induction false} OnInOrder(sides: set<Side>, displayOk: bool, items: seq<Item>) returns (at: seq<nat>)
    requires AllPlannable(items)
    ensures InOrder(items, On(sides, displayOk, items), at)
    ensures forall i :: 0 <= i < |items| ==> (i in at <==> SideOf(displayOk, items[i]) in sides)
  {
    if items == [] {
      at := [];
    } else {
      var n := |items| - 1;
      at := OnInOrder(sides, displayOk, items[..n]);
      InOrderTake(items, On(sides, displayOk, items[..n]), at, n);
      if SideOf(displayOk, items[n]) in sides {
        at := at + [n];
      }
    }
  }

  lemma SidesExactly(items: seq<Item>, displayOk: bool, it: Item)
    requires AllPlannable(items)
    ensures it in On({Python}, displayOk, items) <==> it in items && !KernelReads(displayOk, it)
    ensures it in On({KernelMany2one}, displayOk, items) <==>
            it in items && KernelReads(displayOk, it) && it.field.value.kind == Many2one
    ensures it in On({Kernel, KernelMany2one}, displayOk, items) <==> it in items && KernelReads(displayOk, it)
  {
    OnExactly({Python}, displayOk, items, it);
    OnExactly({KernelMany2one}, displayOk, items, it);
    OnExactly({Kernel, KernelMany2one}, displayOk, items, it);
    if it in items {
      KernelReadsExactly(displayOk, it);
    }
  }

  lemma Naming(its: seq<Item>)
    ensures forall it :: it in its ==> it.name in NamesOf(its)
    ensures forall n :: n in NamesOf(its) ==> exists it :: it in its && it.name == n
  {
    forall it | it in its
      ensures it.name in NamesOf(its)
    {
      var k :| 0 <= k < |its| && its[k] == it;
      assert NamesOf(its)[k] == it.name;
    }
    forall n | n in NamesOf(its)
      ensures exists it :: it in its && it.name == n
    {
      var k :| 0 <= k < |its| && NamesOf(its)[k] == n;
      assert its[k] in its;
    }
  }

  /** Every entry is on the side that can read it, and the kernel is asked for nothing else. */
  ghost predicate Splits(items: seq<Item>, displayOk: bool, plan: Plan)
    requires plan.Plan?
  {
    && (forall it :: it in plan.python <==> it in items && !KernelReads(displayOk, it))
    && (forall it :: it in plan.many2ones <==> it in items && KernelReads(displayOk, it) && it.field.value.kind == Many2one)
    && (forall it :: it in items && KernelReads(displayOk, it) ==> it.name in plan.fields)
    && (forall n :: n in plan.fields ==>
          || (n == "id" && plan.fields == ["id"] && forall it :: it in items ==> !KernelReads(displayOk, it))
          || exists it :: it in items && KernelReads(displayOk, it) && it.name == n)
  }

  lemma PlanSplits(items: seq<Item>, displayOk: bool)
    requires AllPlannable(items)
    ensures Splits(items, displayOk,
                   Plan(AskedOfKernel(items, displayOk), On({KernelMany2one}, displayOk, items), On({Python}, displayOk, items)))
  {
    var kernel := On({Kernel, KernelMany2one}, displayOk, items);
    forall it
      ensures it in On({Python}, displayOk, items) <==> it in items && !KernelReads(displayOk, it)
      ensures it in On({KernelMany2one}, displayOk, items) <==>
              it in items && KernelReads(displayOk, it) && it.field.value.kind == Many2one
      ensures it in kernel <==> it in items && KernelReads(displayOk, it)
    {
      SidesExactly(items, displayOk, it);
    }
    Naming(kernel);
    if NamesOf(kernel) == [] {
      assert forall it :: it !in kernel;
    }
  }

  /** No plan exactly when a field is unknown or a specification is not a dict; otherwise every entry
      goes to one side, in order, and a plan without kernel fields still asks for the id. */
  method SpecPlan(items: seq<Item>, displayOk: bool) returns (plan: Plan)
    ensures plan.NoPlan? <==> !AllPlannable(items)
    ensures plan.Plan? ==>
              && plan.fields == AskedOfKernel(items, displayOk)
              && plan.many2ones == On({KernelMany2one}, displayOk, items)
              && plan.python == On({Python}, displayOk, items)
    ensures plan.NoPlan? <==> exists i :: 0 <= i < |items| && (items[i].field == None || items[i].sub == NotDict)
    ensures plan.Plan? ==> Splits(items, displayOk, plan)
  {
    var fields: seq<string>, many2ones: seq<Item>, python: seq<Item> := [], [], [];
    for i := 0 to |items|
      invariant AllPlannable(items[..i])
      invariant fields == NamesOf(On({Kernel, KernelMany2one}, displayOk, items[..i]))
      invariant many2ones == On({KernelMany2one}, displayOk, items[..i])
      invariant python == On({Python}, displayOk, items[..i])
    {
      var it := items[i];
      if !Plannable(it) {
        return NoPlan;
      }
      assert items[..i + 1][..i] == items[..i];
      if InPython(displayOk, it) {
        python := python + [it];
        continue;
      }
      if it.field.value.kind.Many2one? {
        many2ones := many2ones + [it];
      }
      fields := fields + [it.name];
    }
    assert items[..|items|] == items;
    PlanSplits(items, displayOk);
    plan := Plan(if fields == [] then ["id"] else fields, many2ones, python);
  }

  function AskedOfKernel(items: seq<Item>, displayOk: bool): seq<string>
    requires AllPlannable(items)
  {
    var names := NamesOf(On({Kernel, KernelMany2one}, displayOk, items));
    if names == [] then ["id"] else names
  }

  // ----- records ------------------------------------------------------------------------------------------------

  /** What a record may hold; a `Pair` is the kernel's (id, label) tuple, `Labelled` its dict form. */
  datatype Val = Falsy | Scalar(text: string) | Link(target: int) | Pair(target: int, text: string)
               | Labelled(target: int, text: string)

  /** A dict: its keys in insertion order; `id` is the value of the key "id". */
  datatype Row = Row(id: int, keys: seq<string>, vals: map<string, Val>) {
    ghost predicate Valid()
    {
      forall n :: n in keys <==> n == "id" || n in vals
    }

    /** An assignment to a key the dict already has. */
    function Put(name: string, v: Val): Row
    {
      Row(id, keys, vals[name := v])
    }
  }

  /** What the whole read shows: the record's id and one value per entry. */
  type Truth = (int, string) -> Val

  /** A record is a mutable dict. */
  class Rec {
    var row: Row

    constructor (row: Row)
      ensures this.row == row
    {
      this.row := row;
    }

    method Assign(name: string, v: Val)
      modifies this
      ensures row == old(row).Put(name, v)
    {
      row := row.Put(name, v);
    }
  }

  ghost predicate Distinct(recs: seq<Rec>)
  {
    forall i, j :: 0 <= i < j < |recs| ==> recs[i] != recs[j]
  }

  ghost predicate Have(recs: seq<Rec>, name: string)
    reads recs
  {
    forall i :: 0 <= i < |recs| ==> name in recs[i].row.vals
  }

  // ----- resolving many2ones in place ----------------------------------------------------------------------

  datatype Way = Raw | Unredacted

  /** A named many2one of a comodel the kernel labels is asked for unredacted, any other one raw. */
  function WayOf(it: Item): Way
    requires Plannable(it)
  {
    if Named(it) && it.field.value.kernelLabels then Unredacted else Raw
  }

  /** Odoo's resolver: it writes the value the whole read shows into every record given to it. */
  method ResolveMany2one(truth: Truth, recs: seq<Rec>, name: string)
    requires Distinct(recs)
    modifies recs
    ensures forall i :: 0 <= i < |recs| ==> recs[i].row == old(recs[i].row).Put(name, truth(old(recs[i].row).id, name))
  {
    for i := 0 to |recs|
      invariant forall k :: 0 <= k < i ==> recs[k].row == old(recs[k].row).Put(name, truth(old(recs[k].row).id, name))
      invariant forall k :: i <= k < |recs| ==> recs[k].row == old(recs[k].row)
    {
      recs[i].Assign(name, truth(recs[i].row.id, name));
    }
  }

  /** The value a many2one ends up with: what Odoo's resolver writes, unless the kernel's answer is
      final or only needs its dict form. */
  function Resolved(truth: Truth, it: Item, row: Row): Row
    requires Plannable(it)
  {
    if it.name !in row.vals then row
    else if WayOf(it).Raw? then if Named(it) then row.Put(it.name, truth(row.id, it.name)) else row
    else match row.vals[it.name]
         case Pair(target, text) => row.Put(it.name, Labelled(target, text))
         case Falsy => row
         case _ => row.Put(it.name, truth(row.id, it.name))
  }

  method ResolveRaw(truth: Truth, recs: seq<Rec>, it: Item)
    requires Plannable(it) && WayOf(it).Raw? && Distinct(recs) && Have(recs, it.name)
    modifies recs
    ensures forall i :: 0 <= i < |recs| ==> recs[i].row == Resolved(truth, it, old(recs[i].row))
  {
    if Named(it) {
      ResolveMany2one(truth, recs, it.name);
    }
  }

  /** Tuples become dicts at once; the records whose value the kernel could not label are collected
      and resolved together afterwards. */
  method ResolveUnredacted(truth: Truth, recs: seq<Rec>, it: Item)
    requires Plannable(it) && WayOf(it).Unredacted? && Distinct(recs) && Have(recs, it.name)
    modifies recs
    ensures forall i :: 0 <= i < |recs| ==> recs[i].row == Resolved(truth, it, old(recs[i].row))
  {
    var hidden: seq<Rec> := [];
    ghost var at: seq<nat> := [];
    for i := 0 to |recs|
      invariant |at| == |hidden|
      invariant forall k :: 0 <= k < |at| ==> at[k] < i && hidden[k] == recs[at[k]] && !Settled(old(recs[at[k]].row), it.name)
      invariant forall k, m :: 0 <= k < m < |at| ==> at[k] < at[m]
      invariant forall k :: 0 <= k < i && !Settled(old(recs[k].row), it.name) ==>
                  recs[k] in hidden && recs[k].row == old(recs[k].row)
      invariant forall k :: 0 <= k < i && Settled(old(recs[k].row), it.name) ==>
                  recs[k].row == Resolved(truth, it, old(recs[k].row))
      invariant forall k :: i <= k < |recs| ==> recs[k].row == old(recs[k].row)
    {
      match recs[i].row.vals[it.name] {
        case Pair(target, text) => recs[i].Assign(it.name, Labelled(target, text));
        case Falsy =>
        case _ =>
          hidden, at := hidden + [recs[i]], at + [i];
      }
    }
    if hidden != [] {
      ResolveMany2one(truth, hidden, it.name);
    }
  }

  predicate Settled(row: Row, name: string)
    requires name in row.vals
  {
    row.vals[name].Pair? || row.vals[name].Falsy?
  }

  function Ways(way: Way, its: seq<Item>): seq<Item>
    requires AllPlannable(its)
  {
    if its == [] then []
    else
      var n := |its| - 1;
      Ways(way, its[..n]) + if WayOf(its[n]) == way then [its[n]] else []
  }

  lemma {:induction false} WaysOnly(way: Way, its: seq<Item>)
    requires AllPlannable(its)
    ensures forall it :: it in Ways(way, its) <==> it in its && WayOf(it) == way
  {
    if its != [] {
      var n := |its| - 1;
      WaysOnly(way, its[..n]);
      assert forall it :: it in its <==> it in its[..n] || it == its[n];
    }
  }

  method SplitMany2ones(its: seq<Item>) returns (raw: seq<Item>, unredacted: seq<Item>)
    requires AllPlannable(its)
    ensures raw == Ways(Raw, its) && unredacted == Ways(Unredacted, its)
    ensures forall it :: it in unredacted <==> it in its && it.sub.fields != Missing && it.field.value.kernelLabels
    ensures forall it :: it in raw <==> it in its && (it.sub.fields == Missing || !it.field.value.kernelLabels)
  {
    WaysOnly(Raw, its);
    WaysOnly(Unredacted, its);
    raw, unredacted := [], [];
    for i := 0 to |its|
      invariant raw == Ways(Raw, its[..i]) && unredacted == Ways(Unredacted, its[..i])
    {
      assert its[..i + 1][..i] == its[..i];
      if WayOf(its[i]).Unredacted? {
        unredacted := unredacted + [its[i]];
      } else {
        raw := raw + [its[i]];
      }
    }
    assert its[..|its|] == its;
  }

  function ResolvedAll(truth: Truth, its: seq<Item>, row: Row): (r: Row)
    requires AllPlannable(its)
    ensures r.id == row.id && r.keys == row.keys && r.vals.Keys == row.vals.Keys
  {
    if its == [] then row
    else Resolved(truth, its[|its| - 1], ResolvedAll(truth, its[..|its| - 1], row))
  }

  /** All many2ones of one way, one field after the other, on every record. */
  method ResolveAll(truth: Truth, recs: seq<Rec>, way: Way, its: seq<Item>)
    requires AllPlannable(its) && Distinct(recs)
    requires forall i :: 0 <= i < |its| ==> WayOf(its[i]) == way && Have(recs, its[i].name)
    modifies recs
    ensures forall k :: 0 <= k < |recs| ==> recs[k].row == ResolvedAll(truth, its, old(recs[k].row))
  {
    for i := 0 to |its|
      invariant forall k :: 0 <= k < |recs| ==> recs[k].row == ResolvedAll(truth, its[..i], old(recs[k].row))
    {
      assert its[..i + 1][..i] == its[..i];
      assert Have(recs, its[i].name) by {
        assert old(Have(recs, its[i].name));
      }
      if way.Raw? {
        ResolveRaw(truth, recs, its[i]);
      } else {
        ResolveUnredacted(truth, recs, its[i]);
      }
    }
    assert its[..|its|] == its;
  }

  method ResolveMany2ones(truth: Truth, recs: seq<Rec>, raw: seq<Item>, unredacted: seq<Item>)
    requires AllPlannable(raw) && AllPlannable(unredacted) && Distinct(recs)
    requires forall i :: 0 <= i < |raw| ==> WayOf(raw[i]).Raw? && Have(recs, raw[i].name)
    requires forall i :: 0 <= i < |unredacted| ==> WayOf(unredacted[i]).Unredacted? && Have(recs, unredacted[i].name)
    modifies recs
    ensures forall k :: 0 <= k < |recs| ==>
              recs[k].row == ResolvedAll(truth, unredacted, ResolvedAll(truth, raw, old(recs[k].row)))
  {
    ResolveAll(truth, recs, Raw, raw);
    forall i | 0 <= i < |unredacted|
      ensures Have(recs, unredacted[i].name)
    {
      assert old(Have(recs, unredacted[i].name));
    }
    ResolveAll(truth, recs, Unredacted, unredacted);
  }

  /** What the kernel's answer for a many2one promises about the value the whole read shows. */
  ghost predicate Fits(truth: Truth, it: Item, row: Row)
    requires Plannable(it) && it.name in row.vals
  {
    var v := row.vals[it.name];
    var whole := truth(row.id, it.name);
    match WayOf(it)
    case Raw => !Named(it) ==> v == whole
    case Unredacted =>
      && (v.Pair? ==> whole == Labelled(v.target, v.text))
      && (v.Falsy? ==> whole == Falsy)
  }

  /** Every value is final, or that of a many2one still to be resolved. */
  ghost predicate Settling(truth: Truth, its: seq<Item>, row: Row)
    requires AllPlannable(its)
  {
    forall n :: n in row.vals ==>
      row.vals[n] == truth(row.id, n) || exists k :: 0 <= k < |its| && its[k].name == n && Fits(truth, its[k], row)
  }

  /** A web read shows an id or a dict for a many2one, never a tuple. */
  ghost predicate NoTuples(truth: Truth)
  {
    forall i, n :: !truth(i, n).Pair?
  }

  lemma FitStays(truth: Truth, it: Item, other: Item, row: Row)
    requires Plannable(it) && Plannable(other) && other.name in row.vals
    requires NoTuples(truth) && Fits(truth, other, row)
    ensures var row' := Resolved(truth, it, row);
            row'.vals[other.name] == truth(row.id, other.name) || Fits(truth, other, row')
  {
  }

  lemma SettlesOne(truth: Truth, its: seq<Item>, row: Row)
    requires AllPlannable(its) && its != [] && NoTuples(truth) && Settling(truth, its, row)
    ensures Settling(truth, its[1..], Resolved(truth, its[0], row))
  {
    var it, row', rest := its[0], Resolved(truth, its[0], row), its[1..];
    forall n | n in row'.vals
      ensures row'.vals[n] == truth(row.id, n) || exists k :: 0 <= k < |rest| && rest[k].name == n && Fits(truth, rest[k], row')
    {
      if row.vals[n] != truth(row.id, n) {
        var k :| 0 <= k < |its| && its[k].name == n && Fits(truth, its[k], row);
        if k > 0 {
          FitStays(truth, it, its[k], row);
          assert rest[k - 1] == its[k];
        }
      }
    }
  }

  lemma {:induction false} ResolvedFirst(truth: Truth, its: seq<Item>, row: Row)
    requires AllPlannable(its) && its != []
    ensures ResolvedAll(truth, its, row) == ResolvedAll(truth, its[1..], Resolved(truth, its[0], row))
  {
    var n := |its| - 1;
    if n > 0 {
      ResolvedFirst(truth, its[..n], row);
      assert its[..n][1..] == its[1..][..n - 1];
    }
  }

  /** Resolving in place makes every value final. */
  lemma {:induction false} ResolvingSettles(truth: Truth, its: seq<Item>, row: Row)
    requires AllPlannable(its) && NoTuples(truth) && Settling(truth, its, row)
    ensures forall n :: n in row.vals ==> ResolvedAll(truth, its, row).vals[n] == truth(row.id, n)
  {
    if its != [] {
      SettlesOne(truth, its, row);
      ResolvedFirst(truth, its, row);
      ResolvingSettles(truth, its[1..], Resolved(truth, its[0], row));
    }
  }

  lemma {:induction false} ResolvedConcat(truth: Truth, a: seq<Item>, b: seq<Item>, row: Row)
    requires AllPlannable(a) && AllPlannable(b)
    ensures AllPlannable(a + b)
    ensures ResolvedAll(truth, a + b, row) == ResolvedAll(truth, b, ResolvedAll(truth, a, row))
  {
    assert AllPlannable(a + b);
    if b == [] {
      assert a + b == a;
    } else {
      var n := |b| - 1;
      ResolvedConcat(truth, a, b[..n], row);
      assert (a + b)[..|a + b| - 1] == a + b[..n];
    }
  }

  // ----- reordering -------------------------------------------------------------------------------------------------

  function Latest(rows: seq<Row>): map<int, Row>
  {
    if rows == [] then map[] else Latest(rows[..|rows| - 1])[rows[|rows| - 1].id := rows[|rows| - 1]]
  }

  lemma {:induction false} LatestIsRow(rows: seq<Row>, i: int) returns (k: nat)
    requires i in Latest(rows)
    ensures k < |rows| && rows[k] == Latest(rows)[i] && rows[k].id == i
  {
    var n := |rows| - 1;
    if rows[n].id == i {
      k := n;
    } else {
      k := LatestIsRow(rows[..n], i);
    }
  }

  /** A record returned more than once counts as it was returned last. */
  lemma {:induction false} LatestIsLast(rows: seq<Row>, k: nat)
    requires k < |rows| && forall m :: k < m < |rows| ==> rows[m].id != rows[k].id
    ensures rows[k].id in Latest(rows) && Latest(rows)[rows[k].id] == rows[k]
  {
    var n := |rows| - 1;
    if k < n {
      LatestIsLast(rows[..n], k);
    }
  }

  /** The requested ids that are known, with repetitions, in their order. */
  function Kept(ids: seq<int>, known: set<int>): seq<int>
  {
    if ids == [] then []
    else
      var n := |ids| - 1;
      Kept(ids[..n], known) + if ids[n] in known then [ids[n]] else []
  }

  lemma {:induction false} KeptAgree(ids: seq<int>, known: set<int>, known': set<int>)
    requires forall i :: 0 <= i < |ids| ==> (ids[i] in known <==> ids[i] in known')
    ensures Kept(ids, known) == Kept(ids, known')
  {
    if ids != [] {
      KeptAgree(ids[..|ids| - 1], known, known');
    }
  }

  lemma {:induction false} KeptKnown(ids: seq<int>, known: set<int>)
    ensures forall k :: 0 <= k < |Kept(ids, known)| ==> Kept(ids, known)[k] in known
  {
    if ids != [] {
      KeptKnown(ids[..|ids| - 1], known);
    }
  }

  /** No known id is lost, repeated or moved. */
  lemma {:induction false} KeptInOrder(ids: seq<int>, known: set<int>) returns (at: seq<nat>)
    ensures InOrder(ids, Kept(ids, known), at)
    ensures forall i :: 0 <= i < |ids| ==> (i in at <==> ids[i] in known)
  {
    if ids == [] {
      at := [];
    } else {
      var n := |ids| - 1;
      at := KeptInOrder(ids[..n], known);
      InOrderTake(ids, Kept(ids[..n], known), at, n);
      if ids[n] in known {
        at := at + [n];
      }
    }
  }

  /** A copy as a non-classic load shows it: only the id of a tuple. */
  function Loaded(classic: bool, row: Row): Row
  {
    if classic then row
    else Row(row.id, row.keys, map n | n in row.vals :: if row.vals[n].Pair? then Link(row.vals[n].target) else row.vals[n])
  }

  /** Some requested id was not returned, and the read cannot be sure that it is gone. */
  ghost predicate Doubtful(ids: seq<int>, known: set<int>, readsAColumn: bool, existing: set<int>)
  {
    && (exists i :: i in ids && i !in known)
    && (!readsAColumn || exists i :: i in ids && i !in known && i in existing)
  }

  lemma DoubtfulIfThere(ids: seq<int>, known: set<int>, readsAColumn: bool, existing: set<int>, k: nat)
    requires k < |ids| && ids[k] !in known
    ensures ids[k] in existing ==> Doubtful(ids, known, readsAColumn, existing)
  {
    var i := ids[k];
    assert i in ids && i !in known;
  }

  /** One fresh copy of its record for every requested id, in the order asked for; nothing when a
      record may exist that the kernel did not return. */
  method ReadReorder(ids: seq<int>, rows: seq<Row>, classic: bool, readsAColumn: bool, existing: set<int>)
    returns (out: Option<seq<Rec>>)
    ensures out.None? <==> Doubtful(ids, Latest(rows).Keys, readsAColumn, existing)
    ensures out.None? <==> exists i :: i in ids && i !in Latest(rows)
                                       && (!readsAColumn || exists j :: j in ids && j !in Latest(rows) && j in existing)
    ensures out.Some? ==>
              var known := Latest(rows);
              && fresh(out.value) && Distinct(out.value)
              && |out.value| == |Kept(ids, known.Keys)|
              && (forall k :: 0 <= k < |out.value| ==> Kept(ids, known.Keys)[k] in known)
              && (forall k :: 0 <= k < |out.value| ==> out.value[k].row == Loaded(classic, known[Kept(ids, known.Keys)[k]]))
  {
    var byId := Latest(rows);
    var absent := exists i :: i in ids && i !in byId;
    var remaining := exists i :: i in ids && i !in byId && i in existing;
    if absent && (!readsAColumn || remaining) {
      return None;
    }
    assert !Doubtful(ids, byId.Keys, readsAColumn, existing);
    var recs: seq<Rec> := [];
    for i := 0 to |ids|
      invariant fresh(recs) && Distinct(recs)
      invariant |recs| == |Kept(ids[..i], byId.Keys)|
      invariant forall k :: 0 <= k < |recs| ==> Kept(ids[..i], byId.Keys)[k] in byId
      invariant forall k :: 0 <= k < |recs| ==> recs[k].row == Loaded(classic, byId[Kept(ids[..i], byId.Keys)[k]])
    {
      assert ids[..i + 1][..i] == ids[..i];
      if ids[i] in byId {
        var rec := new Rec(Loaded(classic, byId[ids[i]]));
        recs := recs + [rec];
      }
    }
    assert ids[..|ids|] == ids;
    out := Some(recs);
  }

  // ----- merging ----------------------------------------------------------------------------------------------------

  function Without(names: seq<string>): seq<string>
  {
    if names == [] then []
    else
      var n := |names| - 1;
      Without(names[..n]) + if names[n] == "id" then [] else [names[n]]
  }

  /** The names in the order of the specification, the id left out. */
  lemma {:induction false} WithoutInOrder(names: seq<string>) returns (at: seq<nat>)
    ensures InOrder(names, Without(names), at)
    ensures forall i :: 0 <= i < |names| ==> (i in at <==> names[i] != "id")
  {
    if names == [] {
      at := [];
    } else {
      var n := |names| - 1;
      at := WithoutInOrder(names[..n]);
      InOrderTake(names, Without(names[..n]), at, n);
      if names[n] != "id" {
        at := at + [n];
      }
    }
  }

  /** The merged dict: the id first, then every name of the specification in its order, from the
      kernel's record if it has the name and from Python's otherwise. */
  function Merged(names: seq<string>, rec: Row, extra: Row): Row
    requires Complete(names, rec, extra)
  {
    Row(rec.id, ["id"] + Without(names),
        map n | n in names && n != "id" :: if n in rec.vals then rec.vals[n] else extra.vals[n])
  }

  predicate Complete(names: seq<string>, rec: Row, extra: Row)
  {
    forall n :: n in names && n != "id" ==> n in rec.vals || n in extra.vals
  }

  /** The two halves become one record each; there is no missing key. */
  method Merge(names: seq<string>, recs: seq<Rec>, python: seq<Row>) returns (merged: seq<Rec>)
    requires forall k :: 0 <= k < |recs| ==>
               recs[k].row.id in Latest(python) && Complete(names, recs[k].row, Latest(python)[recs[k].row.id])
    ensures python == [] ==> merged == recs
    ensures |merged| == |recs|
    ensures python != [] ==>
              && fresh(merged)
              && forall k :: 0 <= k < |recs| ==> merged[k].row == Merged(names, recs[k].row, Latest(python)[recs[k].row.id])
  {
    if python == [] {
      return recs;
    }
    var byId := Latest(python);
    merged := [];
    for i := 0 to |recs|
      invariant |merged| == i && fresh(merged)
      invariant forall k :: 0 <= k < i ==> merged[k].row == Merged(names, recs[k].row, byId[recs[k].row.id])
    {
      var rec := new Rec(Merged(names, recs[i].row, byId[recs[i].row.id]));
      merged := merged + [rec];
    }
  }

  // ----- the two halves and the whole --------------------------------------------------------------------------

  /** The name "id" stands for the record's own id. */
  predicate IdIsPlain(items: seq<Item>)
  {
    forall i :: 0 <= i < |items| && items[i].name == "id" && items[i].field.Some? ==> items[i].field.value.kind.Other?
  }

  /** The kernel's record holds what it was asked for, and agrees with the whole read. */
  ghost predicate KernelRow(truth: Truth, items: seq<Item>, displayOk: bool, row: Row)
    requires AllPlannable(items)
  {
    && row.Valid()
    && (forall n :: n in row.vals <==> n in AskedOfKernel(items, displayOk) && n != "id")
    && (forall it :: it in On({Kernel}, displayOk, items) && it.name != "id" && it.name in row.vals ==>
          row.vals[it.name] == truth(row.id, it.name))
    && (forall it :: it in On({KernelMany2one}, displayOk, items) && it.name in row.vals && Plannable(it) ==> Fits(truth, it, row))
  }

  ghost predicate KernelAgrees(truth: Truth, items: seq<Item>, displayOk: bool, existing: set<int>, rows: seq<Row>)
    requires AllPlannable(items)
  {
    forall k :: 0 <= k < |rows| ==> rows[k].id in existing && KernelRow(truth, items, displayOk, rows[k])
  }

  /** Python's half answers for the records asked for, and agrees with the whole read. */
  ghost predicate PythonAnswers(truth: Truth, items: seq<Item>, displayOk: bool, ids: seq<int>, rows: seq<Row>)
    requires AllPlannable(items)
  {
    forall k :: 0 <= k < |ids| ==> ids[k] in Latest(rows) && PythonRow(truth, items, displayOk, ids[k], Latest(rows)[ids[k]])
  }

  ghost predicate PythonRow(truth: Truth, items: seq<Item>, displayOk: bool, id: int, row: Row)
    requires AllPlannable(items)
  {
    forall it :: it in On({Python}, displayOk, items) && it.name != "id" ==>
      it.name in row.vals && row.vals[it.name] == truth(id, it.name)
  }

  /** The record the whole read gives: every name of the specification with its value, and no other. */
  ghost predicate Shows(truth: Truth, items: seq<Item>, id: int, row: Row)
  {
    && row.id == id
    && (forall n :: n in row.vals <==> n in NamesOf(items) && n != "id")
    && (forall n :: n in row.vals ==> row.vals[n] == truth(id, n))
  }

  lemma SideFor(items: seq<Item>, displayOk: bool, n: string)
    requires AllPlannable(items)
    ensures n in NamesOf(items) <==> exists i :: 0 <= i < |items| && items[i].name == n
    ensures n in NamesOf(items) ==>
              || n in NamesOf(On({Kernel, KernelMany2one}, displayOk, items))
              || exists it :: it in On({Python}, displayOk, items) && it.name == n
    ensures n in NamesOf(On({Kernel, KernelMany2one}, displayOk, items)) ==>
              exists it :: it in items && Plannable(it) && it.name == n && !SideOf(displayOk, it).Python?
  {
    var kernel := On({Kernel, KernelMany2one}, displayOk, items);
    forall it | it in items
      ensures it in kernel || it in On({Python}, displayOk, items)
    {
      OnExactly({Kernel, KernelMany2one}, displayOk, items, it);
      OnExactly({Python}, displayOk, items, it);
    }
    if n in NamesOf(items) {
      var i :| 0 <= i < |items| && NamesOf(items)[i] == n;
      assert items[i] in items;
      if items[i] in kernel {
        var k :| 0 <= k < |kernel| && kernel[k] == items[i];
        assert NamesOf(kernel)[k] == n;
      }
    }
    if exists i :: 0 <= i < |items| && items[i].name == n {
      var i :| 0 <= i < |items| && items[i].name == n;
      assert NamesOf(items)[i] == n;
    }
    if n in NamesOf(kernel) {
      var k :| 0 <= k < |kernel| && NamesOf(kernel)[k] == n;
      OnExactly({Kernel, KernelMany2one}, displayOk, items, kernel[k]);
    }
  }

  /** The many2ones of a plan in the order they are resolved: raw ones first. */
  function ResolveOrder(items: seq<Item>, displayOk: bool): (r: seq<Item>)
    requires AllPlannable(items)
    ensures AllPlannable(r)
  {
    var its := On({KernelMany2one}, displayOk, items);
    OnPlannable({KernelMany2one}, displayOk, items);
    WaysPlannable(Raw, its);
    WaysPlannable(Unredacted, its);
    Ways(Raw, its) + Ways(Unredacted, its)
  }

  lemma {:induction false} OnPlannable(sides: set<Side>, displayOk: bool, items: seq<Item>)
    requires AllPlannable(items)
    ensures AllPlannable(On(sides, displayOk, items))
  {
    if items != [] {
      OnPlannable(sides, displayOk, items[..|items| - 1]);
    }
  }

  lemma {:induction false} WaysPlannable(way: Way, its: seq<Item>)
    requires AllPlannable(its)
    ensures AllPlannable(Ways(way, its))
    ensures forall i :: 0 <= i < |Ways(way, its)| ==> WayOf(Ways(way, its)[i]) == way
  {
    if its != [] {
      WaysPlannable(way, its[..|its| - 1]);
    }
  }

  lemma OrderHolds(items: seq<Item>, displayOk: bool, it: Item)
    requires AllPlannable(items)
    ensures it in ResolveOrder(items, displayOk) <==> it in items && SideOf(displayOk, it).KernelMany2one?
  {
    var its := On({KernelMany2one}, displayOk, items);
    OnPlannable({KernelMany2one}, displayOk, items);
    OnExactly({KernelMany2one}, displayOk, items, it);
    WaysOnly(Raw, its);
    WaysOnly(Unredacted, its);
    assert it in its ==> WayOf(it) == Raw || WayOf(it) == Unredacted;
  }

  /** Every value of the kernel's record is final or still to be resolved. */
  lemma KernelSettling(truth: Truth, items: seq<Item>, displayOk: bool, row: Row)
    requires AllPlannable(items) && KernelRow(truth, items, displayOk, row)
    ensures Settling(truth, ResolveOrder(items, displayOk), row)
  {
    var its := ResolveOrder(items, displayOk);
    forall n | n in row.vals
      ensures row.vals[n] == truth(row.id, n) || exists k :: 0 <= k < |its| && its[k].name == n && Fits(truth, its[k], row)
    {
      SideFor(items, displayOk, n);
      var it :| it in items && Plannable(it) && it.name == n && !SideOf(displayOk, it).Python?;
      if SideOf(displayOk, it).Kernel? {
        OnExactly({Kernel}, displayOk, items, it);
      } else {
        OnExactly({KernelMany2one}, displayOk, items, it);
        OrderHolds(items, displayOk, it);
        var k :| 0 <= k < |its| && its[k] == it;
        assert Fits(truth, its[k], row);
      }
    }
  }

  /** The kernel's record holds every many2one there is to resolve. */
  lemma KernelHolds(truth: Truth, items: seq<Item>, displayOk: bool, row: Row, it: Item)
    requires AllPlannable(items) && IdIsPlain(items) && KernelRow(truth, items, displayOk, row)
    requires it in items && !SideOf(displayOk, it).Python? && it.name != "id"
    ensures it.name in row.vals
  {
    var kernel := On({Kernel, KernelMany2one}, displayOk, items);
    OnExactly({Kernel, KernelMany2one}, displayOk, items, it);
    var k :| 0 <= k < |kernel| && kernel[k] == it;
    assert NamesOf(kernel)[k] == it.name;
  }

  /** A record with the kernel's names, each with its final value. */
  ghost predicate Final(truth: Truth, items: seq<Item>, displayOk: bool, row: Row)
    requires AllPlannable(items)
  {
    && (forall n :: n in row.vals <==> n in AskedOfKernel(items, displayOk) && n != "id")
    && (forall n :: n in row.vals ==> row.vals[n] == truth(row.id, n))
  }

  lemma KernelFinal(truth: Truth, items: seq<Item>, displayOk: bool, row: Row)
    requires AllPlannable(items) && NoTuples(truth) && KernelRow(truth, items, displayOk, row)
    ensures Final(truth, items, displayOk, ResolvedAll(truth, ResolveOrder(items, displayOk), row))
  {
    KernelSettling(truth, items, displayOk, row);
    ResolvingSettles(truth, ResolveOrder(items, displayOk), row);
  }

  /** Nothing is left to Python: the kernel's resolved record is the whole record. */
  lemma KernelShows(truth: Truth, items: seq<Item>, displayOk: bool, row: Row)
    requires AllPlannable(items) && On({Python}, displayOk, items) == [] && Final(truth, items, displayOk, row)
    ensures Shows(truth, items, row.id, row)
  {
    forall n
      ensures n in row.vals <==> n in NamesOf(items) && n != "id"
    {
      SideFor(items, displayOk, n);
      if n in NamesOf(On({Kernel, KernelMany2one}, displayOk, items)) {
        var it :| it in items && Plannable(it) && it.name == n && !SideOf(displayOk, it).Python?;
        var i :| 0 <= i < |items| && items[i] == it;
      }
    }
  }

  /** Both halves together hold every name with its value. */
  lemma MergedShows(truth: Truth, items: seq<Item>, displayOk: bool, rec: Row, extra: Row)
    requires AllPlannable(items) && Final(truth, items, displayOk, rec) && PythonRow(truth, items, displayOk, rec.id, extra)
    ensures Complete(NamesOf(items), rec, extra)
    ensures Shows(truth, items, rec.id, Merged(NamesOf(items), rec, extra))
  {
    forall n | n in NamesOf(items) && n != "id"
      ensures n in rec.vals || (n in extra.vals && extra.vals[n] == truth(rec.id, n))
    {
      SideFor(items, displayOk, n);
    }
  }

  // ----- the two entry points -------------------------------------------------------------------------------

  ghost predicate Whole(truth: Truth, items: seq<Item>, displayOk: bool, ids: seq<int>, recs: seq<Rec>)
    requires AllPlannable(items)
    reads recs
  {
    && |recs| == |ids|
    && (forall k :: 0 <= k < |recs| ==> Shows(truth, items, ids[k], recs[k].row))
    && (On({Python}, displayOk, items) != [] ==>
          forall k :: 0 <= k < |recs| ==> recs[k].row.keys == ["id"] + Without(NamesOf(items)))
  }

  /** The kernel's records after their many2ones were resolved in place: every value is final. */
  method ResolvePlan(truth: Truth, items: seq<Item>, displayOk: bool, many2ones: seq<Item>, recs: seq<Rec>)
    requires AllPlannable(items) && IdIsPlain(items) && NoTuples(truth) && Distinct(recs)
    requires many2ones == On({KernelMany2one}, displayOk, items)
    requires forall k :: 0 <= k < |recs| ==> KernelRow(truth, items, displayOk, recs[k].row)
    modifies recs
    ensures forall k :: 0 <= k < |recs| ==>
              && recs[k].row.id == old(recs[k].row.id) && recs[k].row.keys == old(recs[k].row.keys)
              && Final(truth, items, displayOk, recs[k].row)
  {
    OnPlannable({KernelMany2one}, displayOk, items);
    WaysPlannable(Raw, many2ones);
    WaysPlannable(Unredacted, many2ones);
    var raw, unredacted := SplitMany2ones(many2ones);
    ghost var its := ResolveOrder(items, displayOk);
    assert forall i :: 0 <= i < |raw| ==> its[i] == raw[i];
    assert forall i :: 0 <= i < |unredacted| ==> its[|raw| + i] == unredacted[i];
    forall i | 0 <= i < |its|
      ensures Have(recs, its[i].name)
    {
      OrderHave(truth, items, displayOk, recs, its[i]);
    }
    ResolveMany2ones(truth, recs, raw, unredacted);
    forall k | 0 <= k < |recs|
      ensures Final(truth, items, displayOk, recs[k].row)
    {
      ResolvedConcat(truth, raw, unredacted, old(recs[k].row));
      KernelFinal(truth, items, displayOk, old(recs[k].row));
    }
  }

  lemma OrderHave(truth: Truth, items: seq<Item>, displayOk: bool, recs: seq<Rec>, it: Item)
    requires AllPlannable(items) && IdIsPlain(items) && it in ResolveOrder(items, displayOk)
    requires forall k :: 0 <= k < |recs| ==> KernelRow(truth, items, displayOk, recs[k].row)
    ensures Have(recs, it.name)
  {
    OrderHolds(items, displayOk, it);
    var i :| 0 <= i < |items| && items[i] == it;
    forall k | 0 <= k < |recs|
      ensures it.name in recs[k].row.vals
    {
      KernelHolds(truth, items, displayOk, recs[k].row, it);
    }
  }

  /** Resolve the kernel's records in place, then merge Python's half into them if there is one. */
  method Finish(truth: Truth, items: seq<Item>, displayOk: bool, plan: Plan, recs: seq<Rec>,
                half: seq<Row>, ghost ids: seq<int>)
    returns (result: seq<Rec>)
    requires AllPlannable(items) && IdIsPlain(items) && NoTuples(truth) && Distinct(recs)
    requires plan == Plan(AskedOfKernel(items, displayOk), On({KernelMany2one}, displayOk, items), On({Python}, displayOk, items))
    requires |ids| == |recs|
    requires forall k :: 0 <= k < |recs| ==> recs[k].row.id == ids[k] && KernelRow(truth, items, displayOk, recs[k].row)
    requires plan.python != [] ==> PythonAnswers(truth, items, displayOk, ids, half)
    modifies recs
    ensures Whole(truth, items, displayOk, ids, result)
  {
    ResolvePlan(truth, items, displayOk, plan.many2ones, recs);
    if plan.python == [] {
      forall k | 0 <= k < |recs|
        ensures Shows(truth, items, ids[k], recs[k].row)
      {
        KernelShows(truth, items, displayOk, recs[k].row);
      }
      return recs;
    }
    forall k | 0 <= k < |recs|
      ensures recs[k].row.id in Latest(half)
      ensures Complete(NamesOf(items), recs[k].row, Latest(half)[recs[k].row.id])
      ensures Shows(truth, items, ids[k], Merged(NamesOf(items), recs[k].row, Latest(half)[recs[k].row.id]))
    {
      MergedShows(truth, items, displayOk, recs[k].row, Latest(half)[recs[k].row.id]);
    }
    assert |recs| > 0 ==> recs[0].row.id in Latest(half);
    assert |recs| > 0 ==> half != [];
    result := Merge(NamesOf(items), recs, half);
  }

  /** What the kernel and Python are asked, as functions of the request. */
  type Kernel = (seq<string>, seq<Item>, seq<Item>) -> seq<Row>
  type PythonHalf = seq<Item> -> seq<Row>

  /** The reply of the kernel to the plan of a specification. */
  function Reply(kernel: Kernel, items: seq<Item>, displayOk: bool): seq<Row>
    requires AllPlannable(items)
  {
    var its := On({KernelMany2one}, displayOk, items);
    OnPlannable({KernelMany2one}, displayOk, items);
    kernel(AskedOfKernel(items, displayOk), Ways(Raw, its), Ways(Unredacted, its))
  }

  /** Without a doubtful id, the ids the kernel returned are those that exist, and each has its row. */
  lemma ReplyCovers(truth: Truth, items: seq<Item>, displayOk: bool, rows: seq<Row>, ids: seq<int>,
                    readsAColumn: bool, existing: set<int>)
    requires AllPlannable(items) && KernelAgrees(truth, items, displayOk, existing, rows)
    requires !Doubtful(ids, Latest(rows).Keys, readsAColumn, existing)
    ensures Kept(ids, Latest(rows).Keys) == Kept(ids, existing)
    ensures forall k :: 0 <= k < |Kept(ids, existing)| ==>
              var i := Kept(ids, existing)[k];
              i in Latest(rows) && Latest(rows)[i].id == i && KernelRow(truth, items, displayOk, Latest(rows)[i])
  {
    var known := Latest(rows).Keys;
    forall i | 0 <= i < |ids|
      ensures ids[i] in known <==> ids[i] in existing
    {
      if ids[i] in known {
        var k := LatestIsRow(rows, ids[i]);
      } else {
        DoubtfulIfThere(ids, known, readsAColumn, existing, i);
      }
    }
    KeptAgree(ids, known, existing);
    KeptKnown(ids, known);
    forall k | 0 <= k < |Kept(ids, existing)|
      ensures var i := Kept(ids, existing)[k];
              i in Latest(rows) && Latest(rows)[i].id == i && KernelRow(truth, items, displayOk, Latest(rows)[i])
    {
      var m := LatestIsRow(rows, Kept(ids, existing)[k]);
    }
  }

  /** The kernel's half of a web read, in the order of the ids; nothing when it must be left to Python. */
  method ReadInOrder(truth: Truth, kernel: Kernel, plan: Plan, ids: seq<int>, items: seq<Item>, displayOk: bool,
                     readsAColumn: bool, existing: set<int>)
    returns (ordered: Option<seq<Rec>>)
    requires AllPlannable(items)
    requires plan == Plan(AskedOfKernel(items, displayOk), On({KernelMany2one}, displayOk, items), On({Python}, displayOk, items))
    requires KernelAgrees(truth, items, displayOk, existing, Reply(kernel, items, displayOk))
    ensures ordered.None? <==> Doubtful(ids, Latest(Reply(kernel, items, displayOk)).Keys, readsAColumn, existing)
    ensures ordered.Some? ==>
              && fresh(ordered.value) && Distinct(ordered.value)
              && |ordered.value| == |Kept(ids, existing)|
              && forall k :: 0 <= k < |ordered.value| ==>
                   && ordered.value[k].row.id == Kept(ids, existing)[k]
                   && KernelRow(truth, items, displayOk, ordered.value[k].row)
  {
    OnPlannable({KernelMany2one}, displayOk, items);
    var raw, unredacted := SplitMany2ones(plan.many2ones);
    var rows := kernel(plan.fields, raw, unredacted);
    ordered := ReadReorder(ids, rows, true, readsAColumn, existing);
    if ordered.Some? {
      ReplyCovers(truth, items, displayOk, rows, ids, readsAColumn, existing);
    }
  }

  /** Either the whole read is left to Python, or exactly its records come back: one per requested
      existing id, with repetitions, in the order asked for, and in the order of the specification
      whenever the two halves are merged. */
  method WebRead(truth: Truth, kernel: Kernel, half: PythonHalf, ids: seq<int>, items: seq<Item>,
                 displayOk: bool, readsAColumn: bool, existing: set<int>)
    returns (result: Option<seq<Rec>>)
    requires IdIsPlain(items) && NoTuples(truth)
    requires AllPlannable(items) ==> KernelAgrees(truth, items, displayOk, existing, Reply(kernel, items, displayOk))
    requires AllPlannable(items) && On({Python}, displayOk, items) != [] ==>
               PythonAnswers(truth, items, displayOk, Kept(ids, existing), half(On({Python}, displayOk, items)))
    ensures result.Some? <==>
              && ids != [] && (forall i :: 0 <= i < |ids| ==> ids[i] > 0)
              && (exists i :: 0 <= i < |items| && items[i].name != "id")
              && AllPlannable(items)
              && !Doubtful(ids, Latest(Reply(kernel, items, displayOk)).Keys, readsAColumn, existing)
    ensures result.Some? ==> Whole(truth, items, displayOk, Kept(ids, existing), result.value)
  {
    if ids == [] || (forall i :: 0 <= i < |items| ==> items[i].name == "id") || !(forall i :: 0 <= i < |ids| ==> ids[i] > 0) {
      return None;
    }
    var plan := SpecPlan(items, displayOk);
    if plan.NoPlan? {
      return None;
    }
    var ordered := ReadInOrder(truth, kernel, plan, ids, items, displayOk, readsAColumn, existing);
    if ordered.None? {
      return None;
    }
    var python := if plan.python == [] then [] else half(plan.python);
    var records := Finish(truth, items, displayOk, plan, ordered.value, python, Kept(ids, existing));
    result := Some(records);
  }

  /** What a search read answers. */
  datatype Found = Found(length: nat, records: seq<Rec>)

  /** Fresh records around the kernel's rows. */
  method Revive(rows: seq<Row>) returns (recs: seq<Rec>)
    ensures fresh(recs) && Distinct(recs) && |recs| == |rows|
    ensures forall k :: 0 <= k < |rows| ==> recs[k].row == rows[k]
  {
    recs := [];
    for i := 0 to |rows|
      invariant |recs| == i && fresh(recs) && Distinct(recs)
      invariant forall k :: 0 <= k < i ==> recs[k].row == rows[k]
    {
      var rec := new Rec(rows[i]);
      recs := recs + [rec];
    }
  }

  /** Refused exactly when nothing is specified, before or after screening, or no plan can be made.  The
      records are those the kernel found, in its order; the length agrees with what the search finds in
      all, as far as the client counts, unless an empty page was asked for. */
  method WebSearchRead(truth: Truth, kernel: Kernel, half: PythonHalf, count: Option<nat> -> nat,
                       specification: seq<Item>, screen: seq<Item> -> seq<Item>, displayOk: bool,
                       offset: nat, limit: Option<nat>, countLimit: Option<nat>, force: bool,
                       ghost existing: set<int>, ghost total: nat)
    returns (result: Option<Found>)
    requires var items := screen(specification);
             && IdIsPlain(items) && NoTuples(truth) && Counts(count, total)
             && (AllPlannable(items) ==>
                   && KernelAgrees(truth, items, displayOk, existing, Reply(kernel, items, displayOk))
                   && |Reply(kernel, items, displayOk)| == PageSize(total, offset, limit))
             && (AllPlannable(items) && On({Python}, displayOk, items) != [] ==>
                   PythonAnswers(truth, items, displayOk, IdsOf(Reply(kernel, items, displayOk)), half(On({Python}, displayOk, items))))
    ensures result.Some? <==> specification != [] && screen(specification) != [] && AllPlannable(screen(specification))
    ensures result.Some? ==>
              && Whole(truth, screen(specification), displayOk, IdsOf(Reply(kernel, screen(specification), displayOk)), result.value.records)
              && (Agrees(result.value.length, total, countLimit) <==> !AsksForNothing(total, offset, limit, countLimit))
  {
    if specification == [] {
      return None;
    }
    var items := screen(specification);
    if items == [] {
      return None;
    }
    var plan := SpecPlan(items, displayOk);
    if plan.NoPlan? {
      return None;
    }
    OnPlannable({KernelMany2one}, displayOk, items);
    var raw, unredacted := SplitMany2ones(plan.many2ones);
    var rows := kernel(plan.fields, raw, unredacted);
    var length := LengthOf(|rows|, offset, limit, countLimit, force, count);
    LengthIsTotal(total, offset, limit, countLimit, force, count);
    var recs := Revive(rows);
    var python := if plan.python == [] || rows == [] then [] else half(plan.python);
    var records := Finish(truth, items, displayOk, plan, recs, python, IdsOf(rows));
    result := Some(Found(length, records));
  }

  function IdsOf(rows: seq<Row>): seq<int>
  {
    seq(|rows|, k requires 0 <= k < |rows| => rows[k].id)
  }
}
