/**
Order rewriting (`_order_fragments` in engine-py/python/rust_orm_shim.py): a term of an order clause
whose field is computed in Python is replaced by a numbered SQL fragment, `$0`, `$1`, and so on.

The rewrite is invertible: putting each fragment's field back gives the original terms, exactly when
no kept term already bears one of the issued placeholders as its name.
*/
module OrderFragments {
  import opened Text
  import opened Wrappers

  /** How the model sees a name: a column or related field, or a computed field whose SQL either can
      be had as a self-contained expression or cannot. */
  datatype Field = Unknown | Plain | Computed(sql: Option<string>)

  type Model = string -> Field

  /** ASCII lower case, which decides membership among the direction words. */
  function Lower(w: string): string
  {
    seq(|w|, i requires 0 <= i < |w| => if 'A' <= w[i] <= 'Z' then (w[i] as int + 32) as char else w[i])
  }

  predicate OrderWords(tail: seq<string>)
  {
    tail in {["asc"], ["desc"], ["nulls", "first"], ["nulls", "last"]}
  }

  function LowerAll(words: seq<string>): seq<string>
  {
    seq(|words|, i requires 0 <= i < |words| => Lower(words[i]))
  }

  function AfterDirection(rest: seq<string>): seq<string>
  {
    if rest != [] && (rest[0] == "asc" || rest[0] == "desc") then rest[1..] else rest
  }

  /** The words after the name are a direction, a nulls clause, or one after the other. */
  predicate Tail(rest: seq<string>)
  {
    AfterDirection(rest) == [] || OrderWords(AfterDirection(rest))
  }

  // ----- what becomes of each part ----------------------------------------------------------------------

  datatype Term = Kept(text: string) | Placed(origin: string, sql: string, tail: seq<string>)

  datatype Plan = Bail | Plan(terms: seq<Term>)

  function PlanPart(m: Model, part: string): Plan
  {
    var words := Words(part);
    if words == [] then Plan([])
    else if !Tail(LowerAll(words[1..])) then Bail
    else
      match m(words[0])
      case Computed(Some(sql)) => Plan([Placed(words[0], sql, words[1..])])
      case Computed(None) => Bail
      case _ => Plan([Kept(Strip(part))])
  }

  function PlanAll(m: Model, parts: seq<string>): Plan
  {
    if parts == [] then Plan([])
    else
      var before := PlanAll(m, parts[..|parts| - 1]);
      var last := PlanPart(m, parts[|parts| - 1]);
      if before.Bail? || last.Bail? then Bail else Plan(before.terms + last.terms)
  }

  function Placeholder(k: nat): string
  {
    "$" + Decimal(k)
  }

  function Fragments(terms: seq<Term>): seq<string>
  {
    if terms == [] then []
    else
      var last := terms[|terms| - 1];
      Fragments(terms[..|terms| - 1]) + if last.Placed? then [last.sql] else []
  }

  function Spell(t: Term, k: nat): string
  {
    match t
    case Kept(text) => text
    case Placed(_, _, tail) => Join([Placeholder(k)] + tail, " ")
  }

  function Spelled(terms: seq<Term>): seq<string>
  {
    if terms == [] then []
    else
      var before := terms[..|terms| - 1];
      Spelled(before) + [Spell(terms[|terms| - 1], |Fragments(before)|)]
  }

  function Rewritten(m: Model, order: string): (string, seq<string>)
  {
    match PlanAll(m, Split(order, ','))
    case Bail => (order, [])
    case Plan(terms) => (Join(Spelled(terms), ", "), Fragments(terms))
  }

  lemma {:induction false} BailSticks(m: Model, parts: seq<string>, i: nat)
    requires i <= |parts| && PlanAll(m, parts[..i]).Bail?
    ensures PlanAll(m, parts).Bail?
    decreases |parts| - i
  {
    if i < |parts| {
      assert parts[..i + 1][..i] == parts[..i];
      BailSticks(m, parts, i + 1);
    } else {
      assert parts[..i] == parts;
    }
  }

  /** One turn of the loop: the text and fragment appended for `part`, if any, when `k` fragments
      have been issued so far. */
  method RewritePart(m: Model, part: string, k: nat) returns (bail: bool, texts: seq<string>, sqls: seq<string>)
    ensures bail <==> PlanPart(m, part).Bail?
    ensures !bail ==>
              var terms := PlanPart(m, part).terms;
              |terms| <= 1 && sqls == Fragments(terms) &&
              texts == if terms == [] then [] else [Spell(terms[0], k)]
  {
    var words := Words(part);
    if words == [] {
      return false, [], [];
    }
    var tail := AfterDirection(LowerAll(words[1..]));
    if tail != [] && !OrderWords(tail) {
      return true, [], [];
    }
    var field := m(words[0]);
    if !field.Computed? {
      assert [Kept(Strip(part))][..0] == [];
      return false, [Strip(part)], [];
    }
    if field.sql.None? {
      return true, [], [];
    }
    assert [Placed(words[0], field.sql.value, words[1..])][..0] == [];
    assert Fragments([Placed(words[0], field.sql.value, words[1..])]) == [field.sql.value];
    return false, [Join([Placeholder(k)] + words[1..], " ")], [field.sql.value];
  }

  lemma PlanGrows(plan: seq<Term>, added: seq<Term>)
    requires |added| <= 1
    ensures Fragments(plan + added) == Fragments(plan) + Fragments(added)
    ensures Spelled(plan + added) ==
            Spelled(plan) + if added == [] then [] else [Spell(added[0], |Fragments(plan)|)]
  {
    if added == [] {
      assert plan + added == plan;
    } else {
      assert (plan + added)[..|plan|] == plan;
      assert added[..0] == [];
    }
  }

  method RewriteOrder(m: Model, order: string) returns (rewritten: string, fragments: seq<string>)
    ensures (rewritten, fragments) == Rewritten(m, order)
  {
    var parts := Split(order, ',');
    var terms: seq<string> := [];
    ghost var plan: seq<Term> := [];
    fragments := [];
    for i := 0 to |parts|
      invariant PlanAll(m, parts[..i]) == Plan(plan)
      invariant terms == Spelled(plan) && fragments == Fragments(plan)
    {
      assert parts[..i + 1][..i] == parts[..i];
      var bail, texts, sqls := RewritePart(m, parts[i], |fragments|);
      if bail {
        BailSticks(m, parts, i + 1);
        return order, [];
      }
      PlanGrows(plan, PlanPart(m, parts[i]).terms);
      plan := plan + PlanPart(m, parts[i]).terms;
      terms := terms + texts;
      fragments := fragments + sqls;
    }
    assert parts[..|parts|] == parts;
    rewritten := Join(terms, ", ");
  }

  // ----- when the order comes back untouched ------------------------------------------------------------------

  /** `w` is `word`, which is in lower case, in any case. */
  ghost predicate Spelt(w: string, word: string)
  {
    |w| == |word| && forall i :: 0 <= i < |w| ==> w[i] == word[i] || w[i] as int + 32 == word[i] as int
  }

  lemma SpeltIff(w: string, word: string)
    requires forall i :: 0 <= i < |word| ==> 'a' <= word[i] <= 'z'
    ensures Lower(w) == word <==> Spelt(w, word)
  {
    var low := Lower(w);
    if |w| == |word| {
      forall i | 0 <= i < |w|
        ensures low[i] == word[i] <==> w[i] == word[i] || w[i] as int + 32 == word[i] as int
      {
      }
    }
  }

  ghost predicate Direction(w: string)
  {
    Spelt(w, "asc") || Spelt(w, "desc")
  }

  /** A direction, or where the nulls go. */
  ghost predicate OneClause(rest: seq<string>)
  {
    || (|rest| == 1 && Direction(rest[0]))
    || (|rest| == 2 && Spelt(rest[0], "nulls") && (Spelt(rest[1], "first") || Spelt(rest[1], "last")))
  }

  /** What may follow a name: nothing, one clause, or a direction and one clause. */
  ghost predicate WellFormed(rest: seq<string>)
  {
    rest == [] || OneClause(rest) || (Direction(rest[0]) && (rest[1..] == [] || OneClause(rest[1..])))
  }

  lemma DirectionIff(w: string)
    ensures Direction(w) <==> Lower(w) == "asc" || Lower(w) == "desc"
  {
    SpeltIff(w, "asc");
    SpeltIff(w, "desc");
  }

  lemma OneClauseIff(rest: seq<string>)
    ensures OneClause(rest) <==> OrderWords(LowerAll(rest))
  {
    var low := LowerAll(rest);
    if |rest| == 1 {
      DirectionIff(rest[0]);
      assert low == [Lower(rest[0])];
    } else if |rest| == 2 {
      SpeltIff(rest[0], "nulls");
      SpeltIff(rest[1], "first");
      SpeltIff(rest[1], "last");
      assert low == [Lower(rest[0]), Lower(rest[1])];
    }
  }

  lemma WellFormedIff(rest: seq<string>)
    ensures WellFormed(rest) <==> Tail(LowerAll(rest))
  {
    OneClauseIff(rest);
    if rest != [] {
      DirectionIff(rest[0]);
      OneClauseIff(rest[1..]);
      assert LowerAll(rest)[1..] == LowerAll(rest[1..]);
      assert OneClause(rest) ==> |rest| == 1 || !Direction(rest[0]) by { NullsNoDirection(rest[0]); }
    }
  }

  lemma NullsNoDirection(w: string)
    ensures Spelt(w, "nulls") ==> !Direction(w)
  {
  }

  /** A part that sorts by a computed field without an expression, or goes on in another way. */
  ghost predicate Stops(m: Model, part: string)
  {
    var words := Words(part);
    words != [] && (!WellFormed(words[1..]) || m(words[0]) == Computed(None))
  }

  lemma StopsIff(m: Model, part: string)
    ensures PlanPart(m, part).Bail? <==> Stops(m, part)
  {
    if Words(part) != [] {
      WellFormedIff(Words(part)[1..]);
    }
  }

  lemma {:induction false} BailsIff(m: Model, parts: seq<string>)
    ensures PlanAll(m, parts).Bail? <==> exists i :: 0 <= i < |parts| && Stops(m, parts[i])
  {
    if parts != [] {
      var n := |parts| - 1;
      BailsIff(m, parts[..n]);
      StopsIff(m, parts[n]);
      assert forall i :: 0 <= i < n ==> parts[..n][i] == parts[i];
    }
  }

  /** The order is given back exactly when one of its parts stops the rewriting. */
  lemma UntouchedIff(m: Model, order: string)
    ensures PlanAll(m, Split(order, ',')).Bail? <==>
            exists i :: 0 <= i < |Split(order, ',')| && Stops(m, Split(order, ',')[i])
    ensures PlanAll(m, Split(order, ',')).Bail? ==> Rewritten(m, order) == (order, [])
  {
    BailsIff(m, Split(order, ','));
  }

  // ----- reading an order clause ------------------------------------------------------------------------------

  /** The terms of an order clause as lists of words, empty ones dropped. */
  function TermsOf(parts: seq<string>): seq<seq<string>>
  {
    if parts == [] then []
    else
      var words := Words(parts[|parts| - 1]);
      TermsOf(parts[..|parts| - 1]) + if words == [] then [] else [words]
  }

  function OrderTerms(order: string): seq<seq<string>>
  {
    TermsOf(Split(order, ','))
  }

  function SourceWords(t: Term): seq<string>
  {
    match t
    case Kept(text) => Words(text)
    case Placed(origin, _, tail) => [origin] + tail
  }

  function Sources(terms: seq<Term>): seq<seq<string>>
  {
    seq(|terms|, i requires 0 <= i < |terms| => SourceWords(terms[i]))
  }

  /** What a plan made from an order clause guarantees about its terms. */
  ghost predicate Proper(m: Model, t: Term)
  {
    match t
    case Kept(text) => ',' !in text && Words(text) != [] && !m(Words(text)[0]).Computed?
    case Placed(origin, sql, tail) =>
      && m(origin) == Computed(Some(sql)) && IsWord(origin) && ',' !in origin
      && (forall i :: 0 <= i < |tail| ==> IsWord(tail[i]) && ',' !in tail[i])
  }

  ghost predicate AllProper(m: Model, terms: seq<Term>)
  {
    forall i :: 0 <= i < |terms| ==> Proper(m, terms[i])
  }

  lemma {:induction false} WordsKeepOut(s: string, c: char)
    requires c !in s
    ensures forall i :: 0 <= i < |Words(s)| ==> c !in Words(s)[i]
    decreases |s|
  {
    if s != "" {
      if IsSpace(s[0]) {
        WordsKeepOut(s[1..], c);
      } else {
        WordsKeepOut(s[WordEnd(s)..], c);
      }
    }
  }

  lemma KeptFaithful(m: Model, part: string)
    requires ',' !in part && Words(part) != [] && !m(Words(part)[0]).Computed?
    ensures Proper(m, Kept(Strip(part))) && SourceWords(Kept(Strip(part))) == Words(part)
  {
    WordsOfStrip(part);
    StripKeepsOut(part, ',');
  }

  lemma PlacedFaithful(m: Model, part: string, sql: string)
    requires ',' !in part && Words(part) != [] && m(Words(part)[0]) == Computed(Some(sql))
    ensures var t := Placed(Words(part)[0], sql, Words(part)[1..]);
            Proper(m, t) && SourceWords(t) == Words(part)
  {
    var words := Words(part);
    WordsAreWords(part);
    WordsKeepOut(part, ',');
    assert forall i :: 0 <= i < |words[1..]| ==> words[1..][i] == words[i + 1];
  }

  lemma PlanPartFaithful(m: Model, part: string)
    requires ',' !in part && PlanPart(m, part).Plan?
    ensures AllProper(m, PlanPart(m, part).terms)
    ensures Sources(PlanPart(m, part).terms) == (if Words(part) == [] then [] else [Words(part)])
  {
    if Words(part) != [] {
      match m(Words(part)[0])
      case Computed(Some(sql)) => PlacedFaithful(m, part, sql);
      case _ => KeptFaithful(m, part);
    }
  }

  lemma {:induction false} PlanFaithful(m: Model, parts: seq<string>)
    requires forall i :: 0 <= i < |parts| ==> ',' !in parts[i]
    requires PlanAll(m, parts).Plan?
    ensures AllProper(m, PlanAll(m, parts).terms)
    ensures Sources(PlanAll(m, parts).terms) == TermsOf(parts)
  {
    if parts != [] {
      var n := |parts| - 1;
      PlanFaithful(m, parts[..n]);
      PlanPartFaithful(m, parts[n]);
      var a, b := PlanAll(m, parts[..n]).terms, PlanPart(m, parts[n]).terms;
      assert Sources(a + b) == Sources(a) + Sources(b);
    }
  }

  // ----- the rewritten clause read back ------------------------------------------------------------------------

  function TargetWords(t: Term, k: nat): seq<string>
  {
    match t
    case Kept(text) => Words(text)
    case Placed(_, _, tail) => [Placeholder(k)] + tail
  }

  function Targets(terms: seq<Term>): seq<seq<string>>
  {
    if terms == [] then []
    else
      var before := terms[..|terms| - 1];
      Targets(before) + [TargetWords(terms[|terms| - 1], |Fragments(before)|)]
  }

  lemma PlaceholderIsWord(k: nat)
    ensures IsWord(Placeholder(k)) && ',' !in Placeholder(k)
  {
    DecimalRoundTrip(k);
    var s := Placeholder(k);
    forall i | 0 <= i < |s|
      ensures !IsSpace(s[i]) && s[i] != ','
    {
      assert s[i] == '$' || IsDigit(s[i]);
    }
  }

  lemma {:induction false} JoinKeepsOut(parts: seq<string>, glue: string, c: char)
    requires c !in glue && forall i :: 0 <= i < |parts| ==> c !in parts[i]
    ensures c !in Join(parts, glue)
  {
    if |parts| > 1 {
      JoinKeepsOut(parts[1..], glue, c);
    }
  }

  lemma SpellReads(m: Model, t: Term, k: nat)
    requires Proper(m, t)
    ensures Words(Spell(t, k)) == TargetWords(t, k) && ',' !in Spell(t, k)
    ensures TargetWords(t, k) != []
  {
    if t.Placed? {
      var words := [Placeholder(k)] + t.tail;
      PlaceholderIsWord(k);
      WordsOfJoin(words);
      JoinKeepsOut(words, " ", ',');
    }
  }

  lemma {:induction false} SpelledReads(m: Model, terms: seq<Term>)
    requires AllProper(m, terms)
    ensures |Spelled(terms)| == |terms| == |Targets(terms)|
    ensures forall i :: 0 <= i < |terms| ==>
              Words(Spelled(terms)[i]) == Targets(terms)[i] && Targets(terms)[i] != [] && ',' !in Spelled(terms)[i]
  {
    if terms != [] {
      var n := |terms| - 1;
      SpelledReads(m, terms[..n]);
      SpellReads(m, terms[n], |Fragments(terms[..n])|);
    }
  }

  /** Reading texts joined by ", " gives their words back. */
  lemma {:induction false} JoinReads(texts: seq<string>, terms: seq<seq<string>>)
    requires |texts| == |terms|
    requires forall i :: 0 <= i < |texts| ==> Words(texts[i]) == terms[i] && terms[i] != [] && ',' !in texts[i]
    ensures OrderTerms(Join(texts, ", ")) == terms
  {
    if texts == [] {
      assert Split("", ',') == [""] && [""][..0] == [];
      assert Words("") == [];
    } else {
      SplitJoin(texts);
      var parts := Split(Join(texts, ", "), ',');
      forall i | 0 <= i < |parts|
        ensures Words(parts[i]) == terms[i]
      {
        if i > 0 {
          assert (" " + texts[i])[1..] == texts[i];
        }
      }
      TermsOfEach(parts, terms);
    }
  }

  lemma {:induction false} SplitJoin(texts: seq<string>)
    requires texts != [] && forall i :: 0 <= i < |texts| ==> ',' !in texts[i]
    ensures var parts := Split(Join(texts, ", "), ',');
            && |parts| == |texts| && parts[0] == texts[0]
            && forall i :: 0 < i < |texts| ==> parts[i] == " " + texts[i]
  {
    if |texts| == 1 {
      SplitWhole(texts[0], ',');
    } else {
      var rest := Join(texts[1..], ", ");
      assert Join(texts, ", ") == texts[0] + [','] + (" " + rest);
      SplitFirst(texts[0], ',', " " + rest);
      SplitJoin(texts[1..]);
      var parts := Split(Join(texts, ", "), ',');
      forall i | 1 < i < |texts|
        ensures parts[i] == " " + texts[i]
      {
        assert texts[1..][i - 1] == texts[i];
      }
    }
  }

  lemma {:induction false} TermsOfEach(parts: seq<string>, terms: seq<seq<string>>)
    requires |parts| == |terms|
    requires forall i :: 0 <= i < |parts| ==> Words(parts[i]) == terms[i] && terms[i] != []
    ensures TermsOf(parts) == terms
  {
    if parts != [] {
      var n := |parts| - 1;
      TermsOfEach(parts[..n], terms[..n]);
      assert terms == terms[..n] + [terms[n]];
    }
  }

  /** The rewritten clause, read as an order clause, has the planned terms; one fragment is issued for
      each placeholder, numbered from zero in order. */
  lemma RewrittenReads(m: Model, order: string)
    requires PlanAll(m, Split(order, ',')).Plan?
    ensures var terms := PlanAll(m, Split(order, ',')).terms;
            && AllProper(m, terms)
            && Sources(terms) == OrderTerms(order)
            && OrderTerms(Rewritten(m, order).0) == Targets(terms)
            && Rewritten(m, order).1 == Fragments(terms)
  {
    var terms := PlanAll(m, Split(order, ',')).terms;
    SplitKeepsOut(order, ',');
    PlanFaithful(m, Split(order, ','));
    SpelledReads(m, terms);
    JoinReads(Spelled(terms), Targets(terms));
  }

  /** The number a placed term gets: how many were placed before it. */
  lemma {:induction false} TargetAt(terms: seq<Term>, i: nat)
    requires i < |terms|
    ensures |Targets(terms)| == |terms| && Targets(terms)[i] == TargetWords(terms[i], |Fragments(terms[..i])|)
    ensures terms[i].Placed? ==>
              |Fragments(terms[..i])| < |Fragments(terms)|
              && Fragments(terms)[|Fragments(terms[..i])|] == terms[i].sql
    ensures Fragments(terms[..i]) <= Fragments(terms)
  {
    var n := |terms| - 1;
    if i == n {
      TargetsLength(terms);
    } else {
      TargetAt(terms[..n], i);
      assert terms[..n][..i] == terms[..i];
      assert Targets(terms)[i] == Targets(terms[..n])[i];
    }
  }

  lemma {:induction false} TargetsLength(terms: seq<Term>)
    ensures |Targets(terms)| == |terms|
  {
    if terms != [] {
      TargetsLength(terms[..|terms| - 1]);
    }
  }

  // ----- substituting the fields back -----------------------------------------------------------------------------

  function Origins(terms: seq<Term>): (r: seq<string>)
    ensures |r| == |Fragments(terms)|
  {
    if terms == [] then []
    else
      var last := terms[|terms| - 1];
      Origins(terms[..|terms| - 1]) + if last.Placed? then [last.origin] else []
  }

  /** A term whose name is an issued placeholder gets the field that fragment came from. */
  function Restore(words: seq<string>, origins: seq<string>, k: nat): seq<string>
    requires k <= |origins|
    decreases k
  {
    if words == [] || k == 0 then words
    else if words[0] == Placeholder(k - 1) then [origins[k - 1]] + words[1..]
    else Restore(words, origins, k - 1)
  }

  function RestoreAll(terms: seq<seq<string>>, origins: seq<string>): seq<seq<string>>
  {
    seq(|terms|, i requires 0 <= i < |terms| => Restore(terms[i], origins, |origins|))
  }

  lemma {:induction false} RestorePlaced(tail: seq<string>, origins: seq<string>, j: nat, k: nat)
    requires j < k <= |origins|
    ensures Restore([Placeholder(j)] + tail, origins, k) == [origins[j]] + tail
    decreases k
  {
    var words := [Placeholder(j)] + tail;
    assert words[1..] == tail;
    if j < k - 1 {
      RestorePlaced(tail, origins, j, k - 1);
      if Placeholder(j) == Placeholder(k - 1) {
        assert Placeholder(j)[1..] == Decimal(j) && Placeholder(k - 1)[1..] == Decimal(k - 1);
        DecimalInjective(j, k - 1);
      }
    }
  }

  ghost predicate IsIssued(name: string, k: nat)
  {
    exists j: nat :: j < k && name == Placeholder(j)
  }

  lemma {:induction false} RestoreKept(words: seq<string>, origins: seq<string>, k: nat)
    requires k <= |origins| && words != []
    ensures !IsIssued(words[0], k) ==> Restore(words, origins, k) == words
    ensures IsIssued(words[0], k) ==> exists j :: 0 <= j < k && Restore(words, origins, k) == [origins[j]] + words[1..]
    decreases k
  {
    if k > 0 {
      RestoreKept(words, origins, k - 1);
      if words[0] == Placeholder(k - 1) {
        assert Restore(words, origins, k) == [origins[k - 1]] + words[1..];
        assert IsIssued(words[0], k);
      } else if words[0] != Placeholder(k - 1) && IsIssued(words[0], k) {
        assert IsIssued(words[0], k - 1);
      }
    }
  }

  lemma {:induction false} OriginAt(terms: seq<Term>, i: nat)
    requires i < |terms| && terms[i].Placed?
    ensures |Fragments(terms[..i])| < |Origins(terms)|
    ensures Origins(terms)[|Fragments(terms[..i])|] == terms[i].origin
  {
    var n := |terms| - 1;
    if i < n {
      OriginAt(terms[..n], i);
      assert terms[..n][..i] == terms[..i];
    }
  }

  lemma {:induction false} OriginsComputed(m: Model, terms: seq<Term>)
    requires AllProper(m, terms)
    ensures forall j :: 0 <= j < |Origins(terms)| ==> m(Origins(terms)[j]).Computed?
  {
    if terms != [] {
      OriginsComputed(m, terms[..|terms| - 1]);
    }
  }

  /** No term left in place is called by a placeholder that was issued. */
  ghost predicate NoClash(terms: seq<Term>)
  {
    forall i :: 0 <= i < |terms| && terms[i].Kept? && Words(terms[i].text) != [] ==>
      !IsIssued(Words(terms[i].text)[0], |Fragments(terms)|)
  }

  /** Either the order comes back untouched with no fragments, or the placeholders are issued in
      order and putting the fields back restores every term, direction and nulls words intact --
      exactly when no kept term is itself called by an issued placeholder. */
  lemma RewriteInvertible(m: Model, order: string)
    ensures PlanAll(m, Split(order, ',')).Bail? ==> Rewritten(m, order) == (order, [])
    ensures PlanAll(m, Split(order, ',')).Plan? ==>
              var terms := PlanAll(m, Split(order, ',')).terms;
              var (rewritten, fragments) := Rewritten(m, order);
              && |Origins(terms)| == |fragments|
              && (forall i :: 0 <= i < |terms| && terms[i].Placed? ==>
                    var k := |Fragments(terms[..i])|;
                    k < |fragments| && fragments[k] == terms[i].sql
                    && i < |OrderTerms(rewritten)| && OrderTerms(rewritten)[i] == [Placeholder(k)] + terms[i].tail)
              && (RestoreAll(OrderTerms(rewritten), Origins(terms)) == OrderTerms(order) <==> NoClash(terms))
  {
    if PlanAll(m, Split(order, ',')).Plan? {
      RewrittenReads(m, order);
      var terms := PlanAll(m, Split(order, ',')).terms;
      TargetsLength(terms);
      forall i | 0 <= i < |terms|
        ensures Targets(terms)[i] == TargetWords(terms[i], |Fragments(terms[..i])|)
        ensures terms[i].Placed? ==>
                  |Fragments(terms[..i])| < |Fragments(terms)|
                  && Fragments(terms)[|Fragments(terms[..i])|] == terms[i].sql
      {
        TargetAt(terms, i);
      }
      RestoresIff(m, terms);
    }
  }

  lemma RestoresIff(m: Model, terms: seq<Term>)
    requires AllProper(m, terms)
    ensures RestoreAll(Targets(terms), Origins(terms)) == Sources(terms) <==> NoClash(terms)
  {
    var origins, k := Origins(terms), |Fragments(terms)|;
    TargetsLength(terms);
    forall i | 0 <= i < |terms|
      ensures Restore(Targets(terms)[i], origins, k) == SourceWords(terms[i]) <==>
              (terms[i].Kept? ==> !IsIssued(Words(terms[i].text)[0], k))
    {
      assert Proper(m, terms[i]);
      TargetAt(terms, i);
      match terms[i] {
        case Placed(origin, _, tail) =>
          OriginAt(terms, i);
          RestorePlaced(tail, origins, |Fragments(terms[..i])|, k);
        case Kept(text) =>
          RestoreKept(Words(text), origins, k);
          OriginsComputed(m, terms);
          if IsIssued(Words(text)[0], k) {
            var j :| 0 <= j < k && Restore(Words(text), origins, k) == [origins[j]] + Words(text)[1..];
            assert m(origins[j]).Computed?;
            assert ([origins[j]] + Words(text)[1..])[0] != Words(text)[0];
          }
      }
    }
    var restored := RestoreAll(Targets(terms), origins);
    if NoClash(terms) {
      forall i | 0 <= i < |terms|
        ensures restored[i] == Sources(terms)[i]
      {
        assert Proper(m, terms[i]);
      }
    } else {
      var i :| 0 <= i < |terms| && terms[i].Kept? && Words(terms[i].text) != []
        && IsIssued(Words(terms[i].text)[0], k);
      assert restored[i] != Sources(terms)[i];
    }
  }

  lemma WordItself(w: string)
    requires IsWord(w)
    ensures Words(w) == [w] && Strip(w) == w
  {
    WordsFirst(w, "");
    assert w + "" == w;
  }

  lemma JoinTwo(a: string, b: string, glue: string)
    ensures Join([a, b], glue) == a + glue + b
  {
    assert [a, b][1..] == [b];
  }

  lemma ClashPlanned(m: Model, kept: string, name: string, sql: string)
    requires IsWord(kept) && IsWord(name) && m(kept) == Unknown && m(name) == Computed(Some(sql))
    ensures PlanAll(m, [kept, name]) == Plan([Kept(kept), Placed(name, sql, [])])
  {
    WordItself(kept);
    WordItself(name);
    assert [kept][1..] == [] && [name][1..] == [];
    assert PlanPart(m, kept) == Plan([Kept(kept)]);
    assert PlanPart(m, name) == Plan([Placed(name, sql, [])]);
    assert [kept, name][..1] == [kept] && [kept][..0] == [];
    assert PlanAll(m, [kept]) == Plan([] + [Kept(kept)]);
  }

  lemma ClashSpelled(kept: string, name: string, sql: string)
    ensures var terms := [Kept(kept), Placed(name, sql, [])];
            Fragments(terms) == [sql] && Spelled(terms) == [kept, Placeholder(0)]
  {
    var terms := [Kept(kept), Placed(name, sql, [])];
    assert terms[..1] == [Kept(kept)] && [Kept(kept)][..0] == [];
    assert Fragments([Kept(kept)]) == [];
    assert Spelled([]) == [];
    assert Spelled([Kept(kept)]) == [Spell(Kept(kept), 0)];
    assert [Placeholder(0)] + [] == [Placeholder(0)];
  }

  /** Such a clash: an unknown name spelled "$0" beside a computed one.  Both come out as "$0", and the
      rewritten order no longer tells them apart. */
  lemma ClashExample(m: Model, name: string, sql: string)
    requires IsWord(name) && ',' !in name
    requires m(Placeholder(0)) == Unknown && m(name) == Computed(Some(sql))
    ensures var order := Placeholder(0) + [','] + name;
            && Rewritten(m, order) == (Placeholder(0) + ", " + Placeholder(0), [sql])
            && PlanAll(m, Split(order, ',')).Plan? && !NoClash(PlanAll(m, Split(order, ',')).terms)
  {
    var kept := Placeholder(0);
    PlaceholderIsWord(0);
    SplitFirst(kept, ',', name);
    SplitWhole(name, ',');
    assert [kept] + [name] == [kept, name];
    ClashPlanned(m, kept, name, sql);
    ClashSpelled(kept, name, sql);
    JoinTwo(kept, kept, ", ");
    WordItself(kept);
    var terms := [Kept(kept), Placed(name, sql, [])];
    assert terms[0].Kept? && Words(terms[0].text)[0] == kept;
    assert IsIssued(kept, 1);
  }
}
