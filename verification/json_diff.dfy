/**
Comparing expected and actual results (harness/diff.py): `eq` walks two JSON values together and
returns a verdict with the printed path of the first mismatch, and `_dig` reads such a path back to
show the offending values.
*/
module JsonDiff {
  import opened Text
  import opened Wrappers

  datatype Entry = Entry(key: string, value: Json)

  /** Python numbers are compared by value, whatever their type; the floats that are no numbers are
      those its JSON reader accepts. */
  datatype Number = Finite(value: real) | Infinite(negative: bool) | NotANumber

  datatype Json =
    | Null
    | Bool(b: bool)
    | Num(n: Number)
    | Str(s: string)
    | List(items: seq<Json>)
    | Obj(entries: seq<Entry>)

  predicate DistinctKeys(entries: seq<Entry>)
  {
    forall i, j :: 0 <= i < j < |entries| ==> entries[i].key != entries[j].key
  }

  /** A dict holds each key once, at every level. */
  ghost predicate WellFormed(v: Json)
  {
    match v
    case List(items) => forall i :: 0 <= i < |items| ==> WellFormed(items[i])
    case Obj(entries) =>
      DistinctKeys(entries) && forall i :: 0 <= i < |entries| ==> WellFormed(entries[i].value)
    case _ => true
  }

  function Keys(entries: seq<Entry>): set<string>
  {
    set i | 0 <= i < |entries| :: entries[i].key
  }

  function Lookup(entries: seq<Entry>, key: string): (r: Option<Json>)
    ensures r.Some? <==> key in Keys(entries)
    ensures r.Some? ==> exists i :: 0 <= i < |entries| && entries[i] == Entry(key, r.value)
  {
    if entries == [] then None
    else if entries[0].key == key then Some(entries[0].value)
    else
      var r := Lookup(entries[1..], key);
      assert Keys(entries) == {entries[0].key} + Keys(entries[1..]);
      r
  }

  const FLOAT_TOL := 0.000000001

  function Abs(x: real): real
  {
    if x < 0.0 then -x else x
  }

  function Max(x: real, y: real): real
  {
    if x < y then y else x
  }

  /** The tolerance test on floats.  An infinity makes the tolerance infinite, so that everything passes
      but the two whose difference is not a number: infinities of one sign.  Nothing passes with
      not-a-number. */
  predicate Close(x: Number, y: Number)
  {
    match (x, y)
    case (Finite(p), Finite(q)) => Abs(p - q) <= FLOAT_TOL * Max(1.0, Max(Abs(p), Abs(q)))
    case (NotANumber, _) => false
    case (_, NotANumber) => false
    case _ => x != y
  }

  // ----- eq -----------------------------------------------------------------------------------------------

  function ShowIndex(i: nat): string
  {
    "[" + Decimal(i) + "]"
  }

  function Lengths(m: nat, n: nat): string
  {
    " (len " + Decimal(m) + " != " + Decimal(n) + ")"
  }

  /** `repr` prints the sorted list of keys only one side has. */
  function Eq(a: Json, b: Json, path: string, repr: set<string> -> string): (bool, string)
    decreases a, 1, 0
  {
    if a.Bool? || b.Bool? then (a == b, path)
    else if a.Num? && b.Num? then (Close(a.n, b.n), path)
    else
      match (a, b)
      case (List(xs), List(ys)) =>
        if |xs| != |ys| then (false, path + Lengths(|xs|, |ys|)) else EqItems(a, b, 0, path, repr)
      case (Obj(xs), Obj(ys)) =>
        if Keys(xs) != Keys(ys) then
          (false, path + " (keys " + repr((Keys(xs) - Keys(ys)) + (Keys(ys) - Keys(xs))) + ")")
        else EqEntries(a, b, 0, path, repr)
      case (Str(s), Str(t)) => (s == t, path)
      case (Null, Null) => (true, path)
      case _ => (false, path)
  }

  function EqItems(a: Json, b: Json, i: nat, path: string, repr: set<string> -> string): (bool, string)
    requires a.List? && b.List? && |a.items| == |b.items| && i <= |a.items|
    decreases a, 0, |a.items| - i
  {
    if i == |a.items| then (true, path)
    else
      var r := Eq(a.items[i], b.items[i], path + ShowIndex(i), repr);
      if !r.0 then r else EqItems(a, b, i + 1, path, repr)
  }

  function EqEntries(a: Json, b: Json, i: nat, path: string, repr: set<string> -> string): (bool, string)
    requires a.Obj? && b.Obj? && Keys(a.entries) == Keys(b.entries) && i <= |a.entries|
    decreases a, 0, |a.entries| - i
  {
    if i == |a.entries| then (true, path)
    else
      var e := a.entries[i];
      assert e.key in Keys(a.entries);
      var r := Eq(e.value, Lookup(b.entries, e.key).value, path + "." + e.key, repr);
      if !r.0 then r else EqEntries(a, b, i + 1, path, repr)
  }

  // ----- paths, independently of how they are printed ---------------------------------------------------------

  datatype Step = Idx(i: nat) | Key(k: string)

  function Child(v: Json, s: Step): Option<Json>
  {
    match s
    case Idx(i) => if v.List? && i < |v.items| then Some(v.items[i]) else None
    case Key(k) => if v.Obj? then Lookup(v.entries, k) else None
  }

  function At(v: Json, steps: seq<Step>): Option<Json>
    decreases |steps|
  {
    if steps == [] then Some(v)
    else
      var c := Child(v, steps[0]);
      if c.None? then None else At(c.value, steps[1..])
  }

  /** Two nodes agree on what can be seen without descending: leaves by value (numbers within the
      tolerance, booleans only with booleans), lists by length, dicts by their keys. */
  predicate NodeAgree(x: Json, y: Json)
  {
    match (x, y)
    case (Null, Null) => true
    case (Bool(p), Bool(q)) => p == q
    case (Num(m), Num(n)) => Close(m, n)
    case (Str(s), Str(t)) => s == t
    case (List(xs), List(ys)) => |xs| == |ys|
    case (Obj(xs), Obj(ys)) => Keys(xs) == Keys(ys)
    case _ => false
  }

  predicate PathAgree(a: Json, b: Json, steps: seq<Step>)
  {
    var x, y := At(a, steps), At(b, steps);
    if x.Some? && y.Some? then NodeAgree(x.value, y.value) else x.None? && y.None?
  }

  /** Same shape, and every leaf agrees: the two values agree along every path. */
  ghost predicate Agree(a: Json, b: Json)
  {
    forall steps :: PathAgree(a, b, steps)
  }

  // ----- the first mismatch -----------------------------------------------------------------------------------

  datatype Note = Leaf | Lens(m: nat, n: nat) | KeySets(only: set<string>)

  datatype Diff = Diff(steps: seq<Step>, note: Note)

  function Under(s: Step, d: Option<Diff>): Option<Diff>
  {
    if d.None? then None else Some(d.value.(steps := [s] + d.value.steps))
  }

  function FirstDiff(a: Json, b: Json): Option<Diff>
    decreases a, 1, 0
  {
    match (a, b)
    case (List(xs), List(ys)) =>
      if |xs| != |ys| then Some(Diff([], Lens(|xs|, |ys|))) else DiffItems(a, b, 0)
    case (Obj(xs), Obj(ys)) =>
      if Keys(xs) != Keys(ys) then Some(Diff([], KeySets((Keys(xs) - Keys(ys)) + (Keys(ys) - Keys(xs)))))
      else DiffEntries(a, b, 0)
    case _ => if NodeAgree(a, b) then None else Some(Diff([], Leaf))
  }

  function DiffItems(a: Json, b: Json, i: nat): Option<Diff>
    requires a.List? && b.List? && |a.items| == |b.items| && i <= |a.items|
    decreases a, 0, |a.items| - i
  {
    if i == |a.items| then None
    else
      var d := FirstDiff(a.items[i], b.items[i]);
      if d.Some? then Under(Idx(i), d) else DiffItems(a, b, i + 1)
  }

  function DiffEntries(a: Json, b: Json, i: nat): Option<Diff>
    requires a.Obj? && b.Obj? && Keys(a.entries) == Keys(b.entries) && i <= |a.entries|
    decreases a, 0, |a.entries| - i
  {
    if i == |a.entries| then None
    else
      var e := a.entries[i];
      assert e.key in Keys(a.entries);
      var d := FirstDiff(e.value, Lookup(b.entries, e.key).value);
      if d.Some? then Under(Key(e.key), d) else DiffEntries(a, b, i + 1)
  }

  function ShowStep(s: Step): string
  {
    match s
    case Idx(i) => ShowIndex(i)
    case Key(k) => "." + k
  }

  function Print(steps: seq<Step>): string
  {
    if steps == [] then "" else ShowStep(steps[0]) + Print(steps[1..])
  }

  function ShowNote(note: Note, repr: set<string> -> string): string
  {
    match note
    case Leaf => ""
    case Lens(m, n) => Lengths(m, n)
    case KeySets(only) => " (keys " + repr(only) + ")"
  }

  function Reported(d: Option<Diff>, path: string, repr: set<string> -> string): (bool, string)
  {
    match d
    case None => (true, path)
    case Some(diff) => (false, path + Print(diff.steps) + ShowNote(diff.note, repr))
  }

  lemma ReportUnder(s: Step, d: Option<Diff>, path: string, repr: set<string> -> string)
    requires d.Some?
    ensures Reported(Under(s, d), path, repr) == Reported(d, path + ShowStep(s), repr)
  {
    var steps := [s] + d.value.steps;
    assert steps[1..] == d.value.steps;
    assert path + (ShowStep(s) + Print(d.value.steps)) == (path + ShowStep(s)) + Print(d.value.steps);
  }

  /** eq reports the first mismatch at the path that leads to it. */
  lemma {:induction false} EqReportsFirst(a: Json, b: Json, path: string, repr: set<string> -> string)
    ensures Eq(a, b, path, repr).0 == FirstDiff(a, b).None?
    ensures FirstDiff(a, b).Some? ==> Eq(a, b, path, repr) == Reported(FirstDiff(a, b), path, repr)
    decreases a, 1, 0
  {
    assert path + "" + "" == path;
    match (a, b) {
      case (List(xs), List(ys)) =>
        if |xs| == |ys| {
          EqReportsItems(a, b, 0, path, repr);
        } else {
          assert path + "" + Lengths(|xs|, |ys|) == path + Lengths(|xs|, |ys|);
        }
      case (Obj(xs), Obj(ys)) =>
        if Keys(xs) == Keys(ys) {
          EqReportsEntries(a, b, 0, path, repr);
        } else {
          var only := (Keys(xs) - Keys(ys)) + (Keys(ys) - Keys(xs));
          assert path + "" + (" (keys " + repr(only) + ")") == path + " (keys " + repr(only) + ")";
        }
      case _ =>
    }
  }

  lemma {:induction false} EqReportsItems(a: Json, b: Json, i: nat, path: string, repr: set<string> -> string)
    requires a.List? && b.List? && |a.items| == |b.items| && i <= |a.items|
    ensures EqItems(a, b, i, path, repr).0 == DiffItems(a, b, i).None?
    ensures DiffItems(a, b, i).Some? ==> EqItems(a, b, i, path, repr) == Reported(DiffItems(a, b, i), path, repr)
    decreases a, 0, |a.items| - i
  {
    if i < |a.items| {
      var d := FirstDiff(a.items[i], b.items[i]);
      EqReportsFirst(a.items[i], b.items[i], path + ShowIndex(i), repr);
      if d.Some? {
        ReportUnder(Idx(i), d, path, repr);
      } else {
        EqReportsItems(a, b, i + 1, path, repr);
      }
    }
  }

  lemma {:induction false} EqReportsEntries(a: Json, b: Json, i: nat, path: string, repr: set<string> -> string)
    requires a.Obj? && b.Obj? && Keys(a.entries) == Keys(b.entries) && i <= |a.entries|
    ensures EqEntries(a, b, i, path, repr).0 == DiffEntries(a, b, i).None?
    ensures DiffEntries(a, b, i).Some? ==> EqEntries(a, b, i, path, repr) == Reported(DiffEntries(a, b, i), path, repr)
    decreases a, 0, |a.entries| - i
  {
    if i < |a.entries| {
      var e := a.entries[i];
      assert e.key in Keys(a.entries);
      var other := Lookup(b.entries, e.key).value;
      var d := FirstDiff(e.value, other);
      assert path + "." + e.key == path + ("." + e.key);
      EqReportsFirst(e.value, other, path + "." + e.key, repr);
      if d.Some? {
        ReportUnder(Key(e.key), d, path, repr);
      } else {
        EqReportsEntries(a, b, i + 1, path, repr);
      }
    }
  }

  // ----- the verdict means agreement -----------------------------------------------------------------------------

  predicate SameContainer(x: Json, y: Json)
  {
    (x.List? && y.List?) || (x.Obj? && y.Obj?)
  }

  /** A mismatch leads to a node of each value, and these disagree; it is a leaf mismatch unless both
      are lists or both are dicts. */
  predicate Locates(a: Json, b: Json, d: Diff)
  {
    var x, y := At(a, d.steps), At(b, d.steps);
    && x.Some? && y.Some?
    && !NodeAgree(x.value, y.value)
    && (d.note.Leaf? <==> !SameContainer(x.value, y.value))
  }

  /** Where a mismatch is reported both values have a node, and the two nodes disagree. */
  lemma {:induction false} DiffIsReal(a: Json, b: Json)
    requires WellFormed(a) && FirstDiff(a, b).Some?
    ensures Locates(a, b, FirstDiff(a, b).value)
    decreases a, 1, 0
  {
    match (a, b) {
      case (List(xs), List(ys)) =>
        if |xs| == |ys| {
          DiffItemsReal(a, b, 0);
        }
      case (Obj(xs), Obj(ys)) =>
        if Keys(xs) == Keys(ys) {
          DiffEntriesReal(a, b, 0);
        }
      case _ =>
    }
  }

  lemma {:induction false} DiffItemsReal(a: Json, b: Json, i: nat)
    requires WellFormed(a) && a.List? && b.List? && |a.items| == |b.items| && i <= |a.items|
    requires DiffItems(a, b, i).Some?
    ensures Locates(a, b, DiffItems(a, b, i).value)
    decreases a, 0, |a.items| - i
  {
    var d := FirstDiff(a.items[i], b.items[i]);
    if d.Some? {
      DiffIsReal(a.items[i], b.items[i]);
    } else {
      DiffItemsReal(a, b, i + 1);
    }
  }

  lemma {:induction false} DiffEntriesReal(a: Json, b: Json, i: nat)
    requires WellFormed(a) && a.Obj? && b.Obj? && Keys(a.entries) == Keys(b.entries) && i <= |a.entries|
    requires DiffEntries(a, b, i).Some?
    ensures Locates(a, b, DiffEntries(a, b, i).value)
    decreases a, 0, |a.entries| - i
  {
    var e := a.entries[i];
    LookupAt(a.entries, i);
    assert e.key in Keys(a.entries);
    var other := Lookup(b.entries, e.key).value;
    var d := FirstDiff(e.value, other);
    if d.Some? {
      DiffIsReal(e.value, other);
    } else {
      DiffEntriesReal(a, b, i + 1);
    }
  }

  lemma LookupAt(entries: seq<Entry>, i: nat)
    requires DistinctKeys(entries) && i < |entries|
    ensures Lookup(entries, entries[i].key) == Some(entries[i].value)
  {
    assert entries[i].key in Keys(entries);
    var r := Lookup(entries, entries[i].key);
    var j :| 0 <= j < |entries| && entries[j] == Entry(entries[i].key, r.value);
    assert i == j;
  }

  /** Values without a mismatch agree along every path. */
  lemma {:induction false} NoDiffAgrees(a: Json, b: Json, steps: seq<Step>)
    requires WellFormed(a) && FirstDiff(a, b).None?
    ensures PathAgree(a, b, steps)
    decreases |steps|
  {
    if steps == [] {
    } else if a.List? && b.List? {
      if Child(a, steps[0]).Some? {
        NoDiffItems(a, b, 0, steps[0].i);
        NoDiffAgrees(a.items[steps[0].i], b.items[steps[0].i], steps[1..]);
      }
    } else if a.Obj? && b.Obj? {
      if Child(a, steps[0]).Some? {
        var k := steps[0].k;
        var j :| 0 <= j < |a.entries| && a.entries[j] == Entry(k, Lookup(a.entries, k).value);
        assert k in Keys(a.entries);
        NoDiffEntries(a, b, 0, j);
        NoDiffAgrees(a.entries[j].value, Lookup(b.entries, k).value, steps[1..]);
      }
    }
  }

  lemma {:induction false} NoDiffItems(a: Json, b: Json, i: nat, j: nat)
    requires a.List? && b.List? && |a.items| == |b.items| && i <= j < |a.items|
    requires DiffItems(a, b, i).None?
    ensures FirstDiff(a.items[j], b.items[j]).None?
    decreases j - i
  {
    if i < j {
      NoDiffItems(a, b, i + 1, j);
    }
  }

  lemma {:induction false} NoDiffEntries(a: Json, b: Json, i: nat, j: nat)
    requires a.Obj? && b.Obj? && Keys(a.entries) == Keys(b.entries) && i <= j < |a.entries|
    requires DiffEntries(a, b, i).None?
    ensures a.entries[j].key in Keys(b.entries)
    ensures FirstDiff(a.entries[j].value, Lookup(b.entries, a.entries[j].key).value).None?
    decreases j - i
  {
    assert a.entries[i].key in Keys(a.entries);
    assert a.entries[j].key in Keys(a.entries);
    if i < j {
      NoDiffEntries(a, b, i + 1, j);
    }
  }

  /** The verdict holds exactly when the two values have the same shape and every leaf agrees. */
  lemma EqMeansAgree(a: Json, b: Json, path: string, repr: set<string> -> string)
    requires WellFormed(a)
    ensures Eq(a, b, path, repr).0 <==> Agree(a, b)
  {
    EqReportsFirst(a, b, path, repr);
    if FirstDiff(a, b).Some? {
      DiffIsReal(a, b);
      assert !PathAgree(a, b, FirstDiff(a, b).value.steps);
    } else {
      forall steps
        ensures PathAgree(a, b, steps)
      {
        NoDiffAgrees(a, b, steps);
      }
    }
  }

  // ----- what the verdict comes to, case by case ---------------------------------------------------------------

  /** Two finite numbers are told apart exactly when they differ by more than the tolerance, and by more
      than the tolerance times either of them. */
  lemma NumbersApart(p: real, q: real, path: string, repr: set<string> -> string)
    ensures !Eq(Num(Finite(p)), Num(Finite(q)), path, repr).0 <==>
            var apart := if p < q then q - p else p - q;
            && apart > 0.000000001
            && apart > 0.000000001 * (if p < 0.0 then -p else p)
            && apart > 0.000000001 * (if q < 0.0 then -q else q)
  {
  }

  /** An infinity passes with everything but itself and what is not a number; that passes with nothing. */
  lemma SpecialNumbers(x: Number, negative: bool, path: string, repr: set<string> -> string)
    ensures !Eq(Num(NotANumber), Num(x), path, repr).0 && !Eq(Num(x), Num(NotANumber), path, repr).0
    ensures Eq(Num(Infinite(negative)), Num(x), path, repr).0 <==> x != NotANumber && x != Infinite(negative)
  {
  }

  /** Everything but two numbers, two lists or two dicts is compared for equality. */
  lemma OthersEqual(a: Json, b: Json, path: string, repr: set<string> -> string)
    requires !(a.Num? && b.Num?) && !(a.List? && b.List?) && !(a.Obj? && b.Obj?)
    ensures Eq(a, b, path, repr).0 <==> a == b
  {
  }

  lemma {:induction false} ItemsAgree(a: Json, b: Json, i: nat, path: string, repr: set<string> -> string)
    requires a.List? && b.List? && |a.items| == |b.items| && i <= |a.items|
    ensures DiffItems(a, b, i).None? <==> forall j :: i <= j < |a.items| ==> Eq(a.items[j], b.items[j], path, repr).0
    ensures DiffItems(a, b, i).Some? ==>
              exists j :: i <= j < |a.items| && DiffItems(a, b, i).value.steps != [] && DiffItems(a, b, i).value.steps[0] == Idx(j)
                          && !Eq(a.items[j], b.items[j], path, repr).0
                          && forall k :: i <= k < j ==> Eq(a.items[k], b.items[k], path, repr).0
    decreases |a.items| - i
  {
    if i < |a.items| {
      var d := FirstDiff(a.items[i], b.items[i]);
      EqReportsFirst(a.items[i], b.items[i], path, repr);
      if d.Some? {
        assert ([Idx(i)] + d.value.steps)[0] == Idx(i);
      } else {
        ItemsAgree(a, b, i + 1, path, repr);
      }
    }
  }

  /** Lists agree item by item, and the mismatch reported is in the first item that does not. */
  lemma ListsDecide(a: Json, b: Json, path: string, repr: set<string> -> string)
    requires a.List? && b.List?
    ensures Eq(a, b, path, repr).0 <==>
            |a.items| == |b.items| && forall i :: 0 <= i < |a.items| ==> Eq(a.items[i], b.items[i], path, repr).0
    ensures |a.items| == |b.items| && !Eq(a, b, path, repr).0 ==>
              exists j :: 0 <= j < |a.items| && FirstDiff(a, b).Some? && FirstDiff(a, b).value.steps != []
                          && FirstDiff(a, b).value.steps[0] == Idx(j)
                          && forall k :: 0 <= k < j ==> Eq(a.items[k], b.items[k], path, repr).0
  {
    EqReportsFirst(a, b, path, repr);
    if |a.items| == |b.items| {
      ItemsAgree(a, b, 0, path, repr);
    }
  }

  lemma {:induction false} EntriesAgree(a: Json, b: Json, i: nat, path: string, repr: set<string> -> string)
    requires a.Obj? && b.Obj? && Keys(a.entries) == Keys(b.entries) && i <= |a.entries| && DistinctKeys(b.entries)
    ensures DiffEntries(a, b, i).None? <==>
            forall j, k :: i <= j < |a.entries| && 0 <= k < |b.entries| && a.entries[j].key == b.entries[k].key ==>
              Eq(a.entries[j].value, b.entries[k].value, path, repr).0
    decreases |a.entries| - i
  {
    if i < |a.entries| {
      var e := a.entries[i];
      assert e.key in Keys(a.entries);
      var other := Lookup(b.entries, e.key).value;
      var m :| 0 <= m < |b.entries| && b.entries[m] == Entry(e.key, other);
      EqReportsFirst(e.value, other, path, repr);
      EntriesAgree(a, b, i + 1, path, repr);
      assert forall k :: 0 <= k < |b.entries| && b.entries[k].key == e.key ==> k == m;
    }
  }

  ghost predicate HasKey(entries: seq<Entry>, key: string)
  {
    exists i :: 0 <= i < |entries| && entries[i].key == key
  }

  /** All that is under one key of both is told equal. */
  ghost predicate SameUnder(a: Json, b: Json, key: string, path: string, repr: set<string> -> string)
    requires a.Obj? && b.Obj?
  {
    forall i, j :: 0 <= i < |a.entries| && 0 <= j < |b.entries| && a.entries[i].key == key == b.entries[j].key ==>
      Eq(a.entries[i].value, b.entries[j].value, path, repr).0
  }

  /** Dicts agree key by key, in whatever order they hold them. */
  lemma DictsDecide(a: Json, b: Json, path: string, repr: set<string> -> string)
    requires a.Obj? && b.Obj? && DistinctKeys(b.entries)
    ensures Eq(a, b, path, repr).0 <==>
            && (forall k :: HasKey(a.entries, k) <==> HasKey(b.entries, k))
            && (forall k :: SameUnder(a, b, k, path, repr))
  {
    EqReportsFirst(a, b, path, repr);
    SameKeys(a.entries, b.entries);
    if Keys(a.entries) == Keys(b.entries) {
      EntriesAgree(a, b, 0, path, repr);
      if j, k :| 0 <= j < |a.entries| && 0 <= k < |b.entries| && a.entries[j].key == b.entries[k].key
                 && !Eq(a.entries[j].value, b.entries[k].value, path, repr).0 {
        assert !SameUnder(a, b, a.entries[j].key, path, repr);
      }
    }
  }

  lemma SameKeys(xs: seq<Entry>, ys: seq<Entry>)
    ensures Keys(xs) == Keys(ys) <==> forall k :: HasKey(xs, k) <==> HasKey(ys, k)
  {
    forall k
      ensures HasKey(xs, k) <==> k in Keys(xs)
      ensures HasKey(ys, k) <==> k in Keys(ys)
    {
    }
  }

  lemma PathAgreeSwapped(a: Json, b: Json, steps: seq<Step>)
    ensures PathAgree(a, b, steps) <==> PathAgree(b, a, steps)
  {
  }

  /** The verdict does not depend on which value is the expected one. */
  lemma EqSymmetric(a: Json, b: Json, path: string, repr: set<string> -> string)
    requires WellFormed(a) && WellFormed(b)
    ensures Eq(a, b, path, repr).0 == Eq(b, a, path, repr).0
  {
    EqMeansAgree(a, b, path, repr);
    EqMeansAgree(b, a, path, repr);
    forall steps
      ensures PathAgree(a, b, steps) <==> PathAgree(b, a, steps)
    {
      PathAgreeSwapped(a, b, steps);
    }
  }

  /** A value equals itself exactly when no number in it is infinite or not a number. */
  lemma EqReflexiveIff(v: Json, path: string, repr: set<string> -> string)
    requires WellFormed(v)
    ensures Eq(v, v, path, repr).0 <==> forall steps :: HoldsNumber(v, steps) ==> At(v, steps).value.n.Finite?
  {
    EqMeansAgree(v, v, path, repr);
    forall steps
      ensures PathAgree(v, v, steps) <==> (HoldsNumber(v, steps) ==> At(v, steps).value.n.Finite?)
    {
    }
  }

  predicate HoldsNumber(v: Json, steps: seq<Step>)
  {
    At(v, steps).Some? && At(v, steps).value.Num?
  }

  /** And an infinity passes for any finite number. */
  lemma InfinityPasses(x: real, negative: bool, path: string, repr: set<string> -> string)
    ensures Eq(Num(Infinite(negative)), Num(Finite(x)), path, repr).0
    ensures !Eq(Num(Infinite(negative)), Num(Infinite(negative)), path, repr).0
  {
  }

  // ----- reading a path back --------------------------------------------------------------------------------------

  function Remove(s: string, c: char): string
  {
    if s == "" then "" else (if s[0] == c then "" else [s[0]]) + Remove(s[1..], c)
  }

  function StripLeft(s: string, c: char): (r: string)
    ensures |r| <= |s|
  {
    if s != "" && s[0] == c then StripLeft(s[1..], c) else s
  }

  function StripRight(s: string, c: char): string
  {
    if s != "" && s[|s| - 1] == c then StripRight(s[..|s| - 1], c) else s
  }

  /** str.partition: the text before the first `c` and the text after it. */
  function Partition(s: string, c: char): (r: (string, string))
    ensures |r.0| + |r.1| <= |s|
    ensures c in s ==> |r.0| + |r.1| < |s|
  {
    if s == "" then ("", "")
    else if s[0] == c then ("", s[1..])
    else var r := Partition(s[1..], c); ([s[0]] + r.0, r.1)
  }

  /** `cur[base]`: only dicts take a text. */
  function Get(cur: Json, key: string): Option<Json>
  {
    if cur.Obj? then Lookup(cur.entries, key) else None
  }

  /** str.strip(). */
  function Trim(s: string): string
    decreases |s|
  {
    if s == "" then ""
    else if IsSpace(s[0]) then Trim(s[1..])
    else if IsSpace(s[|s| - 1]) then Trim(s[..|s| - 1])
    else s
  }

  /** Digits, with single underscores between them; -1 for anything else. */
  function ParseDigits(s: string): int
    decreases |s|
  {
    if s == "" || !IsDigit(s[|s| - 1]) then -1
    else
      var d := s[|s| - 1] as int - '0' as int;
      if |s| == 1 then d
      else
        var before := s[..|s| - 1];
        var high := ParseDigits(if before[|before| - 1] == '_' then before[..|before| - 1] else before);
        if high < 0 then -1 else 10 * high + d
  }

  /** int() of a text: blanks around it, a sign and single underscores are read over. */
  function IntOf(s: string): Option<int>
  {
    var t := Trim(s);
    var signed := t != "" && t[0] in {'+', '-'};
    var n := ParseDigits(if signed then t[1..] else t);
    if n < 0 then None else Some(if signed && t[0] == '-' then -n else n)
  }

  /** A position counted from the front, or from the back when it is negative. */
  function Position(i: int, n: nat): Option<nat>
  {
    if 0 <= i < n then Some(i) else if 0 <= n + i < n then Some(n + i) else None
  }

  /** `cur[int(idx)]`: lists and texts take a number. */
  function Index(cur: Json, idx: string): Option<Json>
  {
    var i := IntOf(idx);
    if i.None? then None
    else if cur.List? then
      var at := Position(i.value, |cur.items|);
      if at.Some? then Some(cur.items[at.value]) else None
    else if cur.Str? then
      var at := Position(i.value, |cur.s|);
      if at.Some? then Some(Str([cur.s[at.value]])) else None
    else None
  }

  /** One dotted token: a base, then any number of bracketed indices. */
  function WalkToken(cur: Json, tok: string): Option<Json>
    decreases |tok|
  {
    if '[' in tok then
      var (base, rest) := Partition(tok, '[');
      var (idx, after) := Partition(rest, ']');
      var at := if base == "" then Some(cur) else Get(cur, base);
      if at.None? then None
      else
        var next := Index(at.value, idx);
        if next.None? then None else WalkToken(next.value, StripLeft(after, '.'))
    else if tok == "" then Some(cur)
    else Get(cur, tok)
  }

  function WalkAll(cur: Json, toks: seq<string>): Option<Json>
    decreases |toks|
  {
    if toks == [] then Some(cur)
    else
      var next := WalkToken(cur, toks[0]);
      if next.None? then None else WalkAll(next.value, toks[1..])
  }

  function Tokens(path: string): seq<string>
  {
    Split(StripRight(StripLeft(Remove(path, '$'), '.'), '.'), '.')
  }

  /** The value at a path, or the whole value when the path does not lead anywhere. */
  function Dug(value: Json, path: string): Json
  {
    var r := WalkAll(value, Tokens(path));
    if r.Some? then r.value else value
  }

  method Dig(value: Json, path: string) returns (r: Json)
    ensures r == Dug(value, path)
  {
    var cur := value;
    var toks := Tokens(path);
    for k := 0 to |toks|
      invariant WalkAll(value, toks) == WalkAll(cur, toks[k..])
    {
      var tok := toks[k];
      ghost var goal := WalkToken(cur, tok);
      assert toks[k..][1..] == toks[k + 1..];
      while '[' in tok
        invariant WalkToken(cur, tok) == goal
        decreases |tok|
      {
        var (base, rest) := Partition(tok, '[');
        var (idx, after) := Partition(rest, ']');
        if base != "" {
          if Get(cur, base).None? {
            return value;
          }
          cur := Get(cur, base).value;
        }
        if Index(cur, idx).None? {
          return value;
        }
        cur := Index(cur, idx).value;
        tok := StripLeft(after, '.');
      }
      if tok != "" {
        if Get(cur, tok).None? {
          return value;
        }
        cur := Get(cur, tok).value;
      }
    }
    r := cur;
  }

  predicate PlainKey(k: string)
  {
    k != "" && '.' !in k && '[' !in k && ']' !in k && '$' !in k
  }

  predicate PlainSteps(steps: seq<Step>)
  {
    forall i :: 0 <= i < |steps| && steps[i].Key? ==> PlainKey(steps[i].k)
  }

  predicate AllIdx(steps: seq<Step>)
  {
    forall i :: 0 <= i < |steps| ==> steps[i].Idx?
  }

  lemma {:induction false} PartitionAt(a: string, c: char, b: string)
    requires c !in a
    ensures Partition(a + [c] + b, c) == (a, b)
  {
    var s := a + [c] + b;
    if a == "" {
      assert s[1..] == b;
    } else {
      assert s[1..] == a[1..] + [c] + b;
      PartitionAt(a[1..], c, b);
      assert [a[0]] + a[1..] == a;
    }
  }

  lemma DecimalPlain(n: nat)
    ensures forall c :: c in Decimal(n) ==> IsDigit(c)
    ensures IntOf(Decimal(n)) == Some(n)
  {
    DecimalRoundTrip(n);
    PlainDigits(Decimal(n));
    DigitIsPlain(Decimal(n)[0]);
    DigitIsPlain(Decimal(n)[|Decimal(n)| - 1]);
  }

  lemma DigitIsPlain(c: char)
    requires IsDigit(c)
    ensures !IsSpace(c) && c !in {'+', '-', '_'}
  {
  }

  /** Without underscores the digits are read as they stand. */
  lemma {:induction false} PlainDigits(s: string)
    requires forall i :: 0 <= i < |s| ==> IsDigit(s[i])
    ensures ParseDigits(s) == ParseDecimal(s)
    decreases |s|
  {
    if |s| > 1 {
      DigitIsPlain(s[|s| - 2]);
      PlainDigits(s[..|s| - 1]);
    }
  }

  /** Where a token is cut around its first bracketed index. */
  lemma TokenCut(base: string, digits: string, after: string)
    requires '[' !in base && ']' !in digits
    ensures var tok := base + ("[" + digits + "]") + after;
            '[' in tok && Partition(tok, '[') == (base, digits + [']'] + after)
    ensures Partition(digits + [']'] + after, ']') == (digits, after)
  {
    var tok := base + ("[" + digits + "]") + after;
    assert tok == base + ['['] + (digits + [']'] + after);
    PartitionAt(base, '[', digits + [']'] + after);
    PartitionAt(digits, ']', after);
    assert tok[|base|] == '[';
  }

  /** One bracketed index is read off the front of a token. */
  lemma TokenIndex(cur: Json, base: string, i: nat, after: string)
    requires '[' !in base && (after == "" || after[0] != '.')
    ensures WalkToken(cur, base + ShowIndex(i) + after) ==
            var at := if base == "" then Some(cur) else Get(cur, base);
            if at.None? || Index(at.value, Decimal(i)).None? then None
            else WalkToken(Index(at.value, Decimal(i)).value, after)
  {
    DecimalPlain(i);
    TokenCut(base, Decimal(i), after);
  }

  function BaseSteps(base: string): seq<Step>
  {
    if base == "" then [] else [Key(base)]
  }

  /** Where the base of a token leads. */
  function Enter(cur: Json, base: string): Option<Json>
  {
    if base == "" then Some(cur) else Get(cur, base)
  }

  lemma AtBase(cur: Json, base: string, steps: seq<Step>)
    ensures At(cur, BaseSteps(base) + steps) ==
            if Enter(cur, base).None? then None else At(Enter(cur, base).value, steps)
  {
    if base == "" {
      assert BaseSteps(base) + steps == steps;
    } else {
      assert (BaseSteps(base) + steps)[1..] == steps;
    }
  }

  /** A token made of a base and indices walks along exactly those steps. */
  lemma {:induction false} TokenWalks(cur: Json, base: string, idxs: seq<Step>)
    requires (base == "" || PlainKey(base)) && AllIdx(idxs)
    requires Enter(cur, base).Some? && At(Enter(cur, base).value, idxs).Some?
    ensures WalkToken(cur, base + Print(idxs)) == At(Enter(cur, base).value, idxs)
    decreases |idxs|
  {
    if idxs == [] {
      assert base + Print(idxs) == base;
    } else {
      var i, rest := idxs[0].i, idxs[1..];
      Assoc(base, ShowIndex(i), Print(rest));
      TokenIndex(cur, base, i, Print(rest));
      DecimalPlain(i);
      var next := Child(Enter(cur, base).value, idxs[0]).value;
      TokenWalks(next, "", rest);
      assert "" + Print(rest) == Print(rest);
    }
  }

  /** The leading indices of a path. */
  function IdxRun(steps: seq<Step>): (n: nat)
    ensures n <= |steps| && AllIdx(steps[..n]) && (n < |steps| ==> steps[n].Key?)
  {
    if steps == [] || steps[0].Key? then 0 else 1 + IdxRun(steps[1..])
  }

  lemma {:induction false} PrintConcat(a: seq<Step>, b: seq<Step>)
    ensures Print(a + b) == Print(a) + Print(b)
  {
    if a == [] {
      assert a + b == b;
    } else {
      assert (a + b)[1..] == a[1..] + b;
      PrintConcat(a[1..], b);
    }
  }

  lemma {:induction false} PrintIdxNoDot(idxs: seq<Step>)
    requires AllIdx(idxs)
    ensures '.' !in Print(idxs)
  {
    if idxs != [] {
      PrintIdxNoDot(idxs[1..]);
      DecimalPlain(idxs[0].i);
    }
  }

  lemma {:induction false} AtConcat(v: Json, a: seq<Step>, b: seq<Step>)
    ensures At(v, a + b) == if At(v, a).None? then None else At(At(v, a).value, b)
    decreases |a|
  {
    if a == [] {
      assert a + b == b;
    } else {
      assert (a + b)[1..] == a[1..] + b;
      if Child(v, a[0]).Some? {
        AtConcat(Child(v, a[0]).value, a[1..], b);
      }
    }
  }

  /** A printed path splits after its leading indices. */
  lemma SplitPath(base: string, run: seq<Step>, k: string, more: seq<Step>)
    requires (base == "" || PlainKey(base)) && AllIdx(run)
    ensures Split(base + Print(run), '.') == [base + Print(run)]
    ensures Split(base + Print(run + [Key(k)] + more), '.') == [base + Print(run)] + Split(k + Print(more), '.')
  {
    var tok := base + Print(run);
    PrintIdxNoDot(run);
    SplitWhole(tok, '.');
    SplitFirst(tok, '.', k + Print(more));
    Assoc(run, [Key(k)], more);
    PrintConcat(run, [Key(k)] + more);
    PrintKey(k, more);
    Assoc(base, Print(run), "." + (k + Print(more)));
    Assoc(tok, ".", k + Print(more));
  }

  lemma PrintKey(k: string, more: seq<Step>)
    ensures Print([Key(k)] + more) == "." + (k + Print(more))
  {
    assert ([Key(k)] + more)[1..] == more;
    Assoc(".", k, Print(more));
  }

  /** Walking the first token and then the others. */
  lemma WalkRun(cur: Json, base: string, run: seq<Step>, k: string, more: seq<Step>)
    requires (base == "" || PlainKey(base)) && AllIdx(run)
    requires Enter(cur, base).Some? && At(Enter(cur, base).value, run).Some?
    ensures var mid := At(Enter(cur, base).value, run).value;
            && WalkAll(cur, Split(base + Print(run), '.')) == Some(mid)
            && WalkAll(cur, Split(base + Print(run + [Key(k)] + more), '.')) == WalkAll(mid, Split(k + Print(more), '.'))
  {
    var tok := base + Print(run);
    TokenWalks(cur, base, run);
    SplitPath(base, run, k, more);
    WalkFirst(cur, tok, []);
    WalkFirst(cur, tok, Split(k + Print(more), '.'));
    assert [tok] + [] == [tok];
  }

  lemma AtRun(v: Json, run: seq<Step>, k: string, more: seq<Step>)
    requires At(v, run + [Key(k)] + more).Some?
    requires k != ""
    ensures At(v, run).Some? && Enter(At(v, run).value, k).Some?
    ensures At(v, run + [Key(k)] + more) == At(Enter(At(v, run).value, k).value, more)
  {
    Assoc(run, [Key(k)], more);
    AtConcat(v, run, [Key(k)] + more);
    AtBase(At(v, run).value, k, more);
  }

  /** Splitting a printed path on its dots and walking the tokens follows the steps. */
  lemma {:induction false} PathWalks(cur: Json, base: string, steps: seq<Step>)
    requires (base == "" || PlainKey(base)) && PlainSteps(steps)
    requires Enter(cur, base).Some? && At(Enter(cur, base).value, steps).Some?
    ensures WalkAll(cur, Split(base + Print(steps), '.')) == At(Enter(cur, base).value, steps)
    decreases |steps|
  {
    var n := IdxRun(steps);
    if n == |steps| {
      assert steps[..n] == steps;
      WalkRun(cur, base, steps, "", []);
    } else {
      var run, k, more := steps[..n], steps[n].k, steps[n + 1..];
      assert steps == run + [Key(k)] + more;
      assert forall i :: 0 <= i < |more| ==> more[i] == steps[n + 1 + i];
      assert PlainKey(k);
      var at := Enter(cur, base).value;
      AtRun(at, run, k, more);
      WalkRun(cur, base, run, k, more);
      PathWalks(At(at, run).value, k, more);
    }
  }

  lemma WalkFirst(cur: Json, tok: string, toks: seq<string>)
    requires WalkToken(cur, tok).Some?
    ensures WalkAll(cur, [tok] + toks) == WalkAll(WalkToken(cur, tok).value, toks)
  {
    assert ([tok] + toks)[1..] == toks;
  }

  lemma {:induction false} RemoveNothing(s: string, c: char)
    requires c !in s
    ensures Remove(s, c) == s
  {
    if s != "" {
      RemoveNothing(s[1..], c);
    }
  }

  lemma {:induction false} PrintPlain(steps: seq<Step>)
    requires PlainSteps(steps)
    ensures '$' !in Print(steps)
    ensures steps != [] ==> Print(steps)[|Print(steps)| - 1] != '.'
  {
    if steps != [] {
      assert forall i :: 0 <= i < |steps[1..]| ==> steps[1..][i] == steps[i + 1];
      PrintPlain(steps[1..]);
      StepPlain(steps[0]);
      if steps[1..] == [] {
        assert Print(steps) == ShowStep(steps[0]);
      }
    }
  }

  lemma StepPlain(step: Step)
    requires step.Key? ==> PlainKey(step.k)
    ensures '$' !in ShowStep(step) && ShowStep(step) != "" && ShowStep(step)[|ShowStep(step)| - 1] != '.'
  {
    if step.Idx? {
      DecimalPlain(step.i);
    }
  }

  lemma StripKeyDot(body: string)
    requires body != "" && body[0] != '.' && body[|body| - 1] != '.'
    ensures StripRight(StripLeft("." + body, '.'), '.') == body
    ensures StripRight(StripLeft(body, '.'), '.') == body
  {
    assert ("." + body)[1..] == body;
  }

  function Stripped(s: string): string
  {
    StripRight(StripLeft(s, '.'), '.')
  }

  lemma TokensDollar(text: string)
    requires '$' !in text
    ensures Tokens("$" + text) == Split(Stripped(text), '.')
  {
    assert ("$" + text)[1..] == text;
    RemoveNothing(text, '$');
    assert "" + text == text;
  }

  lemma StrippedPath(steps: seq<Step>)
    requires PlainSteps(steps)
    ensures Stripped(Print(steps)) ==
            if steps != [] && steps[0].Key? then steps[0].k + Print(steps[1..]) else Print(steps)
  {
    PrintPlain(steps);
    if steps != [] && steps[0].Key? {
      var k := steps[0].k;
      assert PlainKey(k);
      var body := k + Print(steps[1..]);
      Assoc(".", k, Print(steps[1..]));
      assert Print(steps)[|Print(steps)| - 1] == body[|body| - 1];
      StripKeyDot(body);
    } else if steps != [] {
      StripKeyDot(Print(steps));
    }
  }

  lemma TokensOfPath(steps: seq<Step>)
    requires PlainSteps(steps)
    ensures Tokens("$" + Print(steps)) ==
            if steps != [] && steps[0].Key? then Split(steps[0].k + Print(steps[1..]), '.') else Split(Print(steps), '.')
  {
    PrintPlain(steps);
    TokensDollar(Print(steps));
    StrippedPath(steps);
  }

  /** A path printed from steps leads back along the steps. */
  lemma DigFollows(v: Json, steps: seq<Step>)
    requires PlainSteps(steps) && At(v, steps).Some?
    ensures Dug(v, "$" + Print(steps)) == At(v, steps).value
  {
    TokensOfPath(steps);
    if steps != [] && steps[0].Key? {
      var k, rest := steps[0].k, steps[1..];
      assert PlainKey(k);
      assert forall i :: 0 <= i < |rest| ==> rest[i] == steps[i + 1];
      assert BaseSteps(k) + rest == steps;
      AtBase(v, k, rest);
      PathWalks(v, k, rest);
    } else {
      assert "" + Print(steps) == Print(steps);
      PathWalks(v, "", steps);
    }
  }

  /** At a leaf mismatch the printed path leads `_dig` to the two values that disagree. */
  lemma DigReachesMismatch(a: Json, b: Json, repr: set<string> -> string)
    requires WellFormed(a) && !Eq(a, b, "$", repr).0
    requires var d := FirstDiff(a, b); d.Some? && d.value.note.Leaf? && PlainSteps(d.value.steps)
    ensures var path := Eq(a, b, "$", repr).1;
            var d := FirstDiff(a, b).value;
            && Some(Dug(a, path)) == At(a, d.steps) && Some(Dug(b, path)) == At(b, d.steps)
            && !NodeAgree(Dug(a, path), Dug(b, path))
  {
    var d := FirstDiff(a, b).value;
    EqReportsFirst(a, b, "$", repr);
    DiffIsReal(a, b);
    assert "$" + Print(d.steps) + "" == "$" + Print(d.steps);
    DigFollows(a, d.steps);
    DigFollows(b, d.steps);
  }
}
