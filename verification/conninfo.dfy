/**
Connection strings: the parser and renderer of the database shim (`_parse_conninfo` and
`_dsn_with_kwargs` in engine-py/python/rust_db_shim.py) and the override appended by the kernel's
configuration (`with_dbname` in kernel/src/config.rs).

Rendering then parsing gives back the same ordered settings, whatever their values contain, exactly when
their keys can be keys; and the override changes dbname alone, exactly when the dsn does not begin like a URI.
*/
module Conninfo {
  import opened Text
  import opened Wrappers

  datatype Pair = Pair(key: string, value: string)

  // ----- the parser ------------------------------------------------------------------------------------------

  function SkipSpace(t: string, i: nat): (j: nat)
    requires i <= |t|
    ensures i <= j <= |t|
    ensures forall k :: i <= k < j ==> IsSpace(t[k])
    ensures j < |t| ==> !IsSpace(t[j])
    decreases |t| - i
  {
    if i < |t| && IsSpace(t[i]) then SkipSpace(t, i + 1) else i
  }

  function KeyEnd(t: string, i: nat): (j: nat)
    requires i <= |t|
    ensures i <= j <= |t|
    ensures forall k :: i <= k < j ==> !IsSpace(t[k]) && t[k] != '='
    ensures j < |t| ==> IsSpace(t[j]) || t[j] == '='
    decreases |t| - i
  {
    if i < |t| && !IsSpace(t[i]) && t[i] != '=' then KeyEnd(t, i + 1) else i
  }

  /** Where a run of value characters stops: at a quote, or at whitespace. */
  predicate Stops(quoted: bool, c: char)
  {
    if quoted then c == '\'' else IsSpace(c)
  }

  /** The unescaped characters from `i` up to the stop, and where the stop is.  A backslash makes the
      next character literal, unless it is the last of the text. */
  function Chars(t: string, i: nat, quoted: bool): (r: (string, nat))
    requires i <= |t|
    ensures i <= r.1 <= |t|
    decreases |t| - i
  {
    if i >= |t| || Stops(quoted, t[i]) then ("", i)
    else
      var at := if t[i] == '\\' && i + 1 < |t| then i + 1 else i;
      var rest := Chars(t, at + 1, quoted);
      ([t[at]] + rest.0, rest.1)
  }

  /** The value after an `=`, and where it leaves the index: behind a closing quote, or at the stop. */
  function ValueAt(t: string, i: nat): (r: (string, nat))
    requires i <= |t|
    ensures i <= r.1 <= |t|
  {
    var v := SkipSpace(t, i);
    if v < |t| && t[v] == '\'' then
      var (text, end) := Chars(t, v + 1, true);
      (text, if end < |t| then end + 1 else |t|)
    else Chars(t, v, false)
  }

  /** One turn of the outer loop: where it leaves the index, and the pair it yields, if any. */
  datatype Turn = Turn(next: nat, yielded: seq<Pair>)

  function TurnAt(t: string, i: nat): (r: Turn)
    requires i < |t|
    ensures i <= r.next <= |t| && |r.yielded| <= 1
    ensures r.yielded != [] ==> i < r.next
  {
    var start := SkipSpace(t, i);
    var stop := KeyEnd(t, start);
    var eq := SkipSpace(t, stop);
    if eq >= |t| || t[eq] != '=' || stop == start then Turn(eq, [])
    else
      var (text, next) := ValueAt(t, eq + 1);
      Turn(next, [Pair(t[start..stop], text)])
  }

  /** What the generator yields from `i`, and whether it then spins without ever advancing. */
  datatype Parsed = Parsed(pairs: seq<Pair>, spins: bool)

  function ParseFrom(t: string, i: nat): Parsed
    requires i <= |t|
    decreases |t| - i
  {
    if i >= |t| then Parsed([], false)
    else
      var turn := TurnAt(t, i);
      if turn.next == i then Parsed([], true)
      else
        var rest := ParseFrom(t, turn.next);
        Parsed(turn.yielded + rest.pairs, rest.spins)
  }

  function Parse(t: string): Parsed
  {
    ParseFrom(t, 0)
  }

  /** One character of a value, literal after a backslash. */
  lemma CharsStep(t: string, i: nat, quoted: bool, done: string)
    requires i < |t| && !Stops(quoted, t[i])
    ensures var at := if t[i] == '\\' && i + 1 < |t| then i + 1 else i;
            var (r, end) := Chars(t, i, quoted);
            var (rest, end') := Chars(t, at + 1, quoted);
            end == end' && done + r == (done + [t[at]]) + rest
  {
  }

  /** The innermost loops: the value characters, quoted or bare. */
  method ReadChars(t: string, from: nat, quoted: bool) returns (chars: string, i: nat)
    requires from <= |t|
    ensures (chars, i) == Chars(t, from, quoted)
  {
    chars, i := "", from;
    assert "" + Chars(t, from, quoted).0 == Chars(t, from, quoted).0;
    while i < |t| && !Stops(quoted, t[i])
      invariant from <= i <= |t|
      invariant var r := Chars(t, i, quoted); Chars(t, from, quoted) == (chars + r.0, r.1)
    {
      CharsStep(t, i, quoted, chars);
      if t[i] == '\\' && i + 1 < |t| {
        i := i + 1;
      }
      chars := chars + [t[i]];
      i := i + 1;
    }
    AndNothing(chars);
  }

  /** The whitespace loop, which the source spells out three times. */
  method ReadSpace(t: string, from: nat) returns (i: nat)
    requires from <= |t|
    ensures i == SkipSpace(t, from)
  {
    i := from;
    while i < |t| && IsSpace(t[i])
      invariant from <= i <= |t| && SkipSpace(t, from) == SkipSpace(t, i)
    {
      i := i + 1;
    }
  }

  method ReadKey(t: string, from: nat) returns (i: nat)
    requires from <= |t|
    ensures i == KeyEnd(t, from)
  {
    i := from;
    while i < |t| && !IsSpace(t[i]) && t[i] != '='
      invariant from <= i <= |t| && KeyEnd(t, from) == KeyEnd(t, i)
    {
      i := i + 1;
    }
  }

  method ReadValue(t: string, from: nat) returns (chars: string, i: nat)
    requires from <= |t|
    ensures (chars, i) == ValueAt(t, from)
  {
    i := ReadSpace(t, from);
    if i < |t| && t[i] == '\'' {
      chars, i := ReadChars(t, i + 1, true);
      i := if i < |t| then i + 1 else |t|;
    } else {
      chars, i := ReadChars(t, i, false);
    }
  }

  /** The body of the outer loop. */
  method ReadTurn(t: string, before: nat) returns (i: nat, yielded: seq<Pair>)
    requires before < |t|
    ensures Turn(i, yielded) == TurnAt(t, before)
  {
    var start := ReadSpace(t, before);
    i := ReadKey(t, start);
    var key := t[start..i];
    i := ReadSpace(t, i);
    if i >= |t| || t[i] != '=' || key == "" {
      return i, [];
    }
    var chars: string;
    chars, i := ReadValue(t, i + 1);
    yielded := [Pair(key, chars)];
  }

  /** The loop of the source.  A turn that does not advance would be repeated forever; it is reported
      as `spins`, and happens exactly when an `=` stands where a key should start. */
  method ParseConninfo(t: string) returns (pairs: seq<Pair>, spins: bool)
    ensures Parsed(pairs, spins) == Parse(t)
  {
    pairs, spins := [], false;
    var i := 0;
    while i < |t|
      invariant 0 <= i <= |t|
      invariant Parse(t) == Parsed(pairs + ParseFrom(t, i).pairs, ParseFrom(t, i).spins)
    {
      var next, yielded := ReadTurn(t, i);
      if next == i {
        AndNothing(pairs);
        return pairs, true;
      }
      Assoc(pairs, yielded, ParseFrom(t, next).pairs);
      pairs, i := pairs + yielded, next;
    }
    AndNothing(pairs);
  }

  lemma TurnStuckIff(t: string, i: nat)
    requires i < |t|
    ensures TurnAt(t, i).next == i <==> t[i] == '='
  {
    assert !IsSpace('=');
    if t[i] == '=' {
      assert SkipSpace(t, i) == i && KeyEnd(t, i) == i;
    } else if IsSpace(t[i]) {
      assert SkipSpace(t, i) > i;
    } else {
      assert KeyEnd(t, i) > i;
    }
  }

  // ----- which texts are never parsed to their end -----------------------------------------------------

  datatype Mode = Between | InKey | AfterKey | BeforeValue | Quoted | Bare

  /** Whether a backslash makes the next character literal. */
  predicate Escapes(t: string, i: nat)
  {
    i + 1 < |t| && t[i] == '\\'
  }

  /** One pass over the characters, each looked at once: does an `=` stand where a key should start? */
  predicate Stuck(t: string, i: nat, mode: Mode)
    decreases |t| - i
  {
    if i >= |t| then false
    else
      match mode
      case Between => if IsSpace(t[i]) then Stuck(t, i + 1, Between) else t[i] == '=' || Stuck(t, i + 1, InKey)
      case InKey => Stuck(t, i + 1, if t[i] == '=' then BeforeValue else if IsSpace(t[i]) then AfterKey else InKey)
      case AfterKey => Stuck(t, i + 1, if t[i] == '=' then BeforeValue else if IsSpace(t[i]) then AfterKey else InKey)
      case BeforeValue =>
        if IsSpace(t[i]) then Stuck(t, i + 1, BeforeValue)
        else if t[i] == '\'' then Stuck(t, i + 1, Quoted)
        else Stuck(t, if Escapes(t, i) then i + 2 else i + 1, Bare)
      case Quoted =>
        if t[i] == '\'' then Stuck(t, i + 1, Between) else Stuck(t, if Escapes(t, i) then i + 2 else i + 1, Quoted)
      case Bare =>
        if IsSpace(t[i]) then Stuck(t, i + 1, Between) else Stuck(t, if Escapes(t, i) then i + 2 else i + 1, Bare)
  }

  lemma {:induction false} StuckOverSpace(t: string, i: nat, mode: Mode)
    requires i <= |t| && (mode.Between? || mode.AfterKey? || mode.BeforeValue?)
    ensures Stuck(t, i, mode) == Stuck(t, SkipSpace(t, i), mode)
    decreases |t| - i
  {
    assert !IsSpace('=');
    if i < |t| && IsSpace(t[i]) {
      StuckOverSpace(t, i + 1, mode);
    }
  }

  lemma {:induction false} StuckOverKey(t: string, i: nat)
    requires i <= |t|
    ensures Stuck(t, i, InKey) == Stuck(t, KeyEnd(t, i), InKey)
    decreases |t| - i
  {
    if i < |t| && !IsSpace(t[i]) && t[i] != '=' {
      StuckOverKey(t, i + 1);
    }
  }

  lemma {:induction false} StuckOverQuoted(t: string, i: nat)
    requires i <= |t|
    ensures var end := Chars(t, i, true).1;
            Stuck(t, i, Quoted) == (end < |t| && Stuck(t, end + 1, Between))
    decreases |t| - i
  {
    if i < |t| && t[i] != '\'' {
      StuckOverQuoted(t, if Escapes(t, i) then i + 2 else i + 1);
    }
  }

  lemma {:induction false} StuckOverBare(t: string, i: nat)
    requires i <= |t|
    ensures Stuck(t, i, Bare) == Stuck(t, Chars(t, i, false).1, Between)
    decreases |t| - i
  {
    if i < |t| && !IsSpace(t[i]) {
      StuckOverBare(t, if Escapes(t, i) then i + 2 else i + 1);
    }
  }

  /** From the end of a key: the blanks, and the `=` if there is one. */
  lemma StuckAfterKey(t: string, i: nat)
    requires i <= |t| && (i < |t| ==> IsSpace(t[i]) || t[i] == '=')
    ensures var eq := SkipSpace(t, i);
            Stuck(t, i, InKey) ==
            (eq < |t| && if t[eq] == '=' then Stuck(t, eq + 1, BeforeValue) else Stuck(t, eq, Between))
  {
    assert !IsSpace('=');
    StuckOverSpace(t, i, AfterKey);
    assert i < |t| ==> Stuck(t, i, InKey) == Stuck(t, i, AfterKey);
  }

  /** From the `=`: the value, quoted or bare. */
  lemma StuckOverValue(t: string, i: nat)
    requires i <= |t|
    ensures Stuck(t, i, BeforeValue) == Stuck(t, ValueAt(t, i).1, Between)
  {
    var v := SkipSpace(t, i);
    StuckOverSpace(t, i, BeforeValue);
    if v < |t| && t[v] == '\'' {
      StuckOverQuoted(t, v + 1);
    } else {
      StuckOverBare(t, v);
    }
  }

  /** One turn of the outer loop carries the scan along, unless it is stuck. */
  lemma StuckOverTurn(t: string, i: nat)
    requires i < |t|
    ensures Stuck(t, i, Between) <==> (TurnAt(t, i).next == i || Stuck(t, TurnAt(t, i).next, Between))
  {
    TurnStuckIff(t, i);
    var start := SkipSpace(t, i);
    StuckOverSpace(t, i, Between);
    if start < |t| && t[start] != '=' {
      StuckOverNamedTurn(t, i);
    } else {
      assert !IsSpace('=');
      assert KeyEnd(t, start) == start;
    }
  }

  lemma StuckOverNamedTurn(t: string, i: nat)
    requires i < |t| && SkipSpace(t, i) < |t| && t[SkipSpace(t, i)] != '='
    ensures Stuck(t, SkipSpace(t, i), Between) == Stuck(t, TurnAt(t, i).next, Between)
  {
    var start := SkipSpace(t, i);
    var stop := KeyEnd(t, start);
    assert stop > start;
    StuckInKey(t, start);
    StuckOverKey(t, start);
    StuckFromKeyEnd(t, stop);
    TurnEnds(t, i, start, stop, SkipSpace(t, stop));
  }

  lemma StuckFromKeyEnd(t: string, stop: nat)
    requires stop <= |t| && (stop < |t| ==> IsSpace(t[stop]) || t[stop] == '=')
    ensures var eq := SkipSpace(t, stop);
            Stuck(t, stop, InKey) == Stuck(t, if eq < |t| && t[eq] == '=' then ValueAt(t, eq + 1).1 else eq, Between)
  {
    var eq := SkipSpace(t, stop);
    StuckAfterKey(t, stop);
    if eq < |t| && t[eq] == '=' {
      StuckOverValue(t, eq + 1);
    }
  }

  lemma StuckInKey(t: string, i: nat)
    requires i < |t| && !IsSpace(t[i]) && t[i] != '='
    ensures Stuck(t, i, Between) == Stuck(t, i, InKey)
  {
  }

  lemma TurnEnds(t: string, i: nat, start: nat, stop: nat, eq: nat)
    requires i < |t| && start == SkipSpace(t, i) && stop == KeyEnd(t, start) && eq == SkipSpace(t, stop) && start < stop
    ensures TurnAt(t, i).next == if eq < |t| && t[eq] == '=' then ValueAt(t, eq + 1).1 else eq
  {
  }

  /** The parser ends exactly on the texts in which no `=` stands where a key should start. */
  lemma {:induction false} SpinsIff(t: string, i: nat)
    requires i <= |t|
    ensures ParseFrom(t, i).spins <==> Stuck(t, i, Between)
    decreases |t| - i
  {
    if i < |t| {
      StuckOverTurn(t, i);
      if TurnAt(t, i).next != i {
        SpinsIff(t, TurnAt(t, i).next);
      }
    }
  }

  /** For instance, a text that begins with an `=` is never parsed to its end. */
  lemma LeadingEqualsSpins(rest: string)
    ensures Parse("=" + rest) == Parsed([], true)
  {
    var t := "=" + rest;
    TurnStuckIff(t, 0);
    assert TurnAt(t, 0).yielded == [];
  }

  // ----- the renderer -------------------------------------------------------------------------------------------

  function ReplaceChar(s: string, c: char, replacement: string): string
  {
    if s == "" then "" else (if s[0] == c then replacement else [s[0]]) + ReplaceChar(s[1..], c, replacement)
  }

  /** The shim and the kernel quote a value the same way: backslashes first, then quotes. */
  function Escape(value: string): string
  {
    ReplaceChar(ReplaceChar(value, '\\', "\\\\"), '\'', "\\'")
  }

  function ConninfoValue(value: string): string
  {
    "'" + Escape(value) + "'"
  }

  function RenderPair(p: Pair): string
  {
    p.key + "=" + ConninfoValue(p.value)
  }

  /** " ".join over the settings. */
  function Render(pairs: seq<Pair>): string
  {
    if pairs == [] then ""
    else if |pairs| == 1 then RenderPair(pairs[0])
    else RenderPair(pairs[0]) + " " + Render(pairs[1..])
  }

  predicate ValidKey(key: string)
  {
    key != "" && forall i :: 0 <= i < |key| ==> !IsSpace(key[i]) && key[i] != '='
  }

  predicate ValidKeys(pairs: seq<Pair>)
  {
    forall i :: 0 <= i < |pairs| ==> ValidKey(pairs[i].key)
  }

  // ----- round trip ------------------------------------------------------------------------------------------------

  lemma {:induction false} ReplaceConcat(a: string, b: string, c: char, replacement: string)
    ensures ReplaceChar(a + b, c, replacement) == ReplaceChar(a, c, replacement) + ReplaceChar(b, c, replacement)
  {
    if a == "" {
      assert a + b == b;
    } else {
      assert (a + b)[1..] == a[1..] + b;
      ReplaceConcat(a[1..], b, c, replacement);
    }
  }

  function EscapeChar(c: char): (r: string)
    ensures 1 <= |r| <= 2
  {
    if c == '\\' || c == '\'' then ['\\', c] else [c]
  }

  /** Character by character: a backslash or a quote gets a backslash in front. */
  lemma EscapeStep(value: string)
    requires value != ""
    ensures Escape(value) == EscapeChar(value[0]) + Escape(value[1..])
  {
    var head := if value[0] == '\\' then "\\\\" else [value[0]];
    ReplaceConcat(head, ReplaceChar(value[1..], '\\', "\\\\"), '\'', "\\'");
    assert head[1..] == if value[0] == '\\' then "\\" else "";
    assert "\\"[1..] == "";
  }

  /** The parser reads `piece` at position `i` of `t`. */
  ghost predicate At(t: string, i: nat, piece: string)
  {
    i + |piece| <= |t| && forall k :: 0 <= k < |piece| ==> piece[k] == t[i + k]
  }

  lemma AtSplit(t: string, i: nat, a: string, b: string)
    requires At(t, i, a + b)
    ensures At(t, i, a) && At(t, i + |a|, b)
  {
    var s := a + b;
    assert forall k :: 0 <= k < |a| ==> a[k] == s[k];
    assert forall k :: 0 <= k < |b| ==> b[k] == s[|a| + k];
  }

  lemma AtChar(t: string, i: nat, piece: string, k: nat)
    requires At(t, i, piece) && k < |piece|
    ensures t[i + k] == piece[k]
  {
    assert piece[k] == t[i + k];
  }

  lemma AtIs(t: string, i: nat, piece: string)
    requires At(t, i, piece)
    ensures t[i..i + |piece|] == piece
  {
  }

  /** One escaped character is read as the character. */
  lemma EscapedChar(t: string, i: nat, c: char)
    requires At(t, i, EscapeChar(c))
    ensures var (rest, end) := Chars(t, i + |EscapeChar(c)|, true);
            Chars(t, i, true) == ([c] + rest, end)
  {
    var head := EscapeChar(c);
    AtChar(t, i, head, 0);
    if |head| == 2 {
      AtChar(t, i, head, 1);
    }
  }

  lemma EscapedPieces(t: string, i: nat, value: string)
    requires value != "" && At(t, i, Escape(value) + "'")
    ensures At(t, i, EscapeChar(value[0]))
    ensures At(t, i + |EscapeChar(value[0])|, Escape(value[1..]) + "'")
    ensures |Escape(value)| == |EscapeChar(value[0])| + |Escape(value[1..])|
  {
    var head, rest := EscapeChar(value[0]), Escape(value[1..]);
    EscapeStep(value);
    Assoc(head, rest, "'");
    AtSplit(t, i, head, rest + "'");
  }

  lemma {:induction false} UnescapeEscape(t: string, i: nat, value: string)
    requires At(t, i, Escape(value) + "'")
    ensures Chars(t, i, true) == (value, i + |Escape(value)|)
    decreases |value|
  {
    if value == "" {
      AtChar(t, i, Escape(value) + "'", 0);
    } else {
      EscapedPieces(t, i, value);
      UnescapeEscape(t, i + |EscapeChar(value[0])|, value[1..]);
      EscapedChar(t, i, value[0]);
      assert [value[0]] + value[1..] == value;
    }
  }

  lemma KeyEndAt(t: string, i: nat, key: string)
    requires ValidKey(key) && At(t, i, key + "=")
    ensures SkipSpace(t, i) == i && KeyEnd(t, i) == i + |key|
    ensures t[i + |key|] == '=' && SkipSpace(t, i + |key|) == i + |key|
  {
    AtSplit(t, i, key, "=");
    AtChar(t, i + |key|, "=", 0);
    forall k | i <= k < i + |key|
      ensures !IsSpace(t[k]) && t[k] != '='
    {
      AtChar(t, i, key, k - i);
    }
    assert !IsSpace('=');
    KeyEndIs(t, i, i + |key|);
  }

  lemma {:induction false} KeyEndIs(t: string, i: nat, j: nat)
    requires i <= j <= |t| && (j < |t| ==> IsSpace(t[j]) || t[j] == '=')
    requires forall k :: i <= k < j ==> !IsSpace(t[k]) && t[k] != '='
    ensures KeyEnd(t, i) == j
    decreases j - i
  {
    if i < j {
      KeyEndIs(t, i + 1, j);
    }
  }

  // ----- settings as a user may write them --------------------------------------------------------------------

  lemma {:induction false} SkipSpaceIs(t: string, i: nat, j: nat)
    requires i <= j <= |t| && (j < |t| ==> !IsSpace(t[j])) && forall k :: i <= k < j ==> IsSpace(t[k])
    ensures SkipSpace(t, i) == j
    decreases j - i
  {
    if i < j {
      SkipSpaceIs(t, i + 1, j);
    }
  }

  /** A character of a value as it is written: by itself, or behind a backslash. */
  datatype Piece = ByItself(c: char) | Escaped(c: char)

  function Written(pieces: seq<Piece>): string
  {
    if pieces == [] then ""
    else (if pieces[0].Escaped? then ['\\', pieces[0].c] else [pieces[0].c]) + Written(pieces[1..])
  }

  function Meant(pieces: seq<Piece>): string
  {
    if pieces == [] then "" else [pieces[0].c] + Meant(pieces[1..])
  }

  /** Between quotes only the quote ends a value, elsewhere only whitespace. */
  predicate Writable(pieces: seq<Piece>, quoted: bool)
  {
    forall k :: 0 <= k < |pieces| && pieces[k].ByItself? ==>
      pieces[k].c != '\\' && if quoted then pieces[k].c != '\'' else !IsSpace(pieces[k].c)
  }

  lemma WrittenFirst(t: string, i: nat, pieces: seq<Piece>)
    requires pieces != [] && At(t, i, Written(pieces))
    ensures var n := if pieces[0].Escaped? then 2 else 1;
            && i + n <= |t| && t[i + n - 1] == pieces[0].c && (pieces[0].Escaped? ==> t[i] == '\\')
            && At(t, i + n, Written(pieces[1..])) && |Written(pieces)| == n + |Written(pieces[1..])|
  {
    var head := if pieces[0].Escaped? then ['\\', pieces[0].c] else [pieces[0].c];
    AtSplit(t, i, head, Written(pieces[1..]));
    AtChar(t, i, head, 0);
    AtChar(t, i, head, |head| - 1);
  }

  /** A value is read as it is meant, however its characters are escaped, up to its end. */
  lemma {:induction false} CharsRead(t: string, i: nat, pieces: seq<Piece>, quoted: bool, end: nat)
    requires At(t, i, Written(pieces)) && Writable(pieces, quoted)
    requires end == i + |Written(pieces)|
    requires end == |t| || if quoted then t[end] == '\'' else IsSpace(t[end])
    ensures Chars(t, i, quoted) == (Meant(pieces), end)
    decreases |pieces|
  {
    if pieces != [] {
      assert !IsSpace('\\');
      WrittenFirst(t, i, pieces);
      CharsRead(t, i + (if pieces[0].Escaped? then 2 else 1), pieces[1..], quoted, end);
    }
  }

  /** A backslash at the very end stands for itself. */
  lemma LastBackslash(t: string, quoted: bool)
    requires t != "" && t[|t| - 1] == '\\'
    ensures Chars(t, |t| - 1, quoted) == (['\\'], |t|)
  {
    assert !IsSpace('\\');
    assert Chars(t, |t|, quoted) == ("", |t|);
    AndNothing(['\\']);
  }

  /** A key from `start`, with blanks before it and before and behind its equals sign, and a value from `v`. */
  ghost predicate KeyAt(t: string, i: nat, start: nat, stop: nat, eq: nat, v: nat)
  {
    && i <= start < stop <= eq < v <= |t| && t[eq] == '='
    && (v < |t| ==> !IsSpace(t[v]))
    && (forall k :: i <= k < start ==> IsSpace(t[k]))
    && (forall k :: stop <= k < eq ==> IsSpace(t[k]))
    && (forall k :: eq < k < v ==> IsSpace(t[k]))
    && (forall k :: start <= k < stop ==> !IsSpace(t[k]) && t[k] != '=')
  }

  lemma KeyIsRead(t: string, i: nat, start: nat, stop: nat, eq: nat, v: nat)
    requires KeyAt(t, i, start, stop, eq, v)
    ensures SkipSpace(t, eq + 1) == v
    ensures var (text, next) := ValueAt(t, eq + 1); TurnAt(t, i) == Turn(next, [Pair(t[start..stop], text)])
  {
    assert !IsSpace('=');
    SkipSpaceIs(t, i, start);
    KeyEndIs(t, start, stop);
    SkipSpaceIs(t, stop, eq);
    SkipSpaceIs(t, eq + 1, v);
  }

  lemma QuotedValue(t: string, i: nat, v: nat, text: string, end: nat)
    requires i <= v < |t| && SkipSpace(t, i) == v && t[v] == '\'' && Chars(t, v + 1, true) == (text, end)
    ensures ValueAt(t, i) == (text, if end < |t| then end + 1 else |t|)
  {
  }

  lemma BareValue(t: string, i: nat, v: nat, text: string, end: nat)
    requires i <= v <= |t| && SkipSpace(t, i) == v && (v < |t| ==> t[v] != '\'') && Chars(t, v, false) == (text, end)
    ensures ValueAt(t, i) == (text, end)
  {
  }

  /** A quoted setting; a value that is never closed goes on to the end of the text. */
  lemma QuotedSettingRead(t: string, i: nat, start: nat, stop: nat, eq: nat, v: nat, pieces: seq<Piece>, end: nat)
    requires KeyAt(t, i, start, stop, eq, v) && v < |t| && t[v] == '\''
    requires At(t, v + 1, Written(pieces)) && Writable(pieces, true)
    requires end == v + 1 + |Written(pieces)| && (end == |t| || t[end] == '\'')
    ensures TurnAt(t, i) == Turn(if end < |t| then end + 1 else |t|, [Pair(t[start..stop], Meant(pieces))])
  {
    KeyIsRead(t, i, start, stop, eq, v);
    QuotedPart(t, eq + 1, v, pieces, end);
  }

  lemma QuotedPart(t: string, i: nat, v: nat, pieces: seq<Piece>, end: nat)
    requires i <= v < |t| && SkipSpace(t, i) == v && t[v] == '\''
    requires At(t, v + 1, Written(pieces)) && Writable(pieces, true)
    requires end == v + 1 + |Written(pieces)| && (end == |t| || t[end] == '\'')
    ensures ValueAt(t, i) == (Meant(pieces), if end < |t| then end + 1 else |t|)
  {
    CharsRead(t, v + 1, pieces, true, end);
    QuotedValue(t, i, v, Meant(pieces), end);
  }

  /** A bare setting; nothing at all is a value too, at the end of the text. */
  lemma BareSettingRead(t: string, i: nat, start: nat, stop: nat, eq: nat, v: nat, pieces: seq<Piece>, end: nat)
    requires KeyAt(t, i, start, stop, eq, v) && (v < |t| ==> t[v] != '\'')
    requires At(t, v, Written(pieces)) && Writable(pieces, false)
    requires end == v + |Written(pieces)| && (end == |t| || IsSpace(t[end]))
    ensures TurnAt(t, i) == Turn(end, [Pair(t[start..stop], Meant(pieces))])
  {
    KeyIsRead(t, i, start, stop, eq, v);
    CharsRead(t, v, pieces, false, end);
    BareValue(t, eq + 1, v, Meant(pieces), end);
  }

  /** A word that no equals sign follows is passed over. */
  lemma WordPassedOver(t: string, i: nat, start: nat, stop: nat, next: nat)
    requires i <= start < stop <= next <= |t| && (next < |t| ==> stop < next && !IsSpace(t[next]) && t[next] != '=')
    requires forall k :: i <= k < start || stop <= k < next ==> IsSpace(t[k])
    requires forall k :: start <= k < stop ==> !IsSpace(t[k]) && t[k] != '='
    ensures TurnAt(t, i) == Turn(next, [])
  {
    SkipSpaceIs(t, i, start);
    KeyEndIs(t, start, stop);
    SkipSpaceIs(t, stop, next);
  }

  // ----- rendered settings -------------------------------------------------------------------------------------

  /** A turn over `key='value'`, given where its pieces are. */
  lemma QuotedTurn(t: string, i: nat, k: nat, end: nat, key: string, value: string)
    requires i < k && k + 2 <= end < |t| && t[i..k] == key && t[k] == '=' && t[k + 1] == '\''
    requires SkipSpace(t, i) == i && KeyEnd(t, i) == k && SkipSpace(t, k) == k && SkipSpace(t, k + 1) == k + 1
    requires Chars(t, k + 2, true) == (value, end)
    ensures TurnAt(t, i) == Turn(end + 1, [Pair(key, value)])
  {
  }

  /** Where the pieces of a rendered pair are. */
  lemma PairPieces(t: string, i: nat, key: string, escaped: string)
    requires At(t, i, (key + "=") + ("'" + (escaped + "'")))
    ensures At(t, i, key + "=") && At(t, i, key)
    ensures var k := i + |key|;
            && t[k + 1] == '\'' && At(t, k + 2, escaped + "'")
            && k + 2 + |escaped| < |t|
  {
    var k := i + |key|;
    AtSplit(t, i, key + "=", "'" + (escaped + "'"));
    AtSplit(t, i, key, "=");
    AtSplit(t, k + 1, "'", escaped + "'");
    AtChar(t, k + 1, "'", 0);
  }

  lemma PairTurn(t: string, i: nat, key: string, value: string, end: nat)
    requires ValidKey(key) && At(t, i, key + "=") && At(t, i, key)
    requires i + |key| + 2 <= end < |t| && t[i + |key| + 1] == '\''
    requires Chars(t, i + |key| + 2, true) == (value, end)
    ensures TurnAt(t, i) == Turn(end + 1, [Pair(key, value)])
  {
    KeyEndAt(t, i, key);
    assert !IsSpace('\'');
    AtIs(t, i, key);
    QuotedTurn(t, i, i + |key|, end, key, value);
  }

  lemma PairLength(p: Pair)
    ensures RenderPair(p) == (p.key + "=") + ("'" + (Escape(p.value) + "'"))
    ensures |RenderPair(p)| == |p.key| + 3 + |Escape(p.value)|
  {
  }

  /** One rendered pair is one turn of the parser. */
  lemma TurnReadsPair(t: string, i: nat, p: Pair)
    requires ValidKey(p.key) && At(t, i, RenderPair(p))
    ensures i < |t| && TurnAt(t, i) == Turn(i + |RenderPair(p)|, [p])
  {
    var escaped := Escape(p.value);
    PairLength(p);
    PairPieces(t, i, p.key, escaped);
    UnescapeEscape(t, i + |p.key| + 2, p.value);
    PairTurn(t, i, p.key, p.value, i + |p.key| + 2 + |escaped|);
  }

  lemma TurnSkipsSpace(t: string, i: nat)
    requires i < |t| && IsSpace(t[i]) && i + 1 < |t| && !IsSpace(t[i + 1])
    ensures TurnAt(t, i) == TurnAt(t, i + 1)
  {
    assert SkipSpace(t, i) == i + 1 == SkipSpace(t, i + 1);
  }

  lemma ParseSkipsSpace(t: string, i: nat)
    requires i + 1 < |t| && IsSpace(t[i]) && !IsSpace(t[i + 1]) && TurnAt(t, i + 1).next > i + 1
    ensures ParseFrom(t, i) == ParseFrom(t, i + 1)
  {
    TurnSkipsSpace(t, i);
  }

  lemma RenderSplits(pairs: seq<Pair>)
    requires |pairs| >= 2
    ensures Render(pairs) == RenderPair(pairs[0]) + (" " + Render(pairs[1..]))
  {
    Assoc(RenderPair(pairs[0]), " ", Render(pairs[1..]));
  }

  lemma ThreePieces(t: string, i: nat, a: string, sep: string, b: string)
    requires |sep| == 1 && At(t, i, a + (sep + b))
    ensures At(t, i, a) && t[i + |a|] == sep[0] && At(t, i + |a| + 1, b)
    ensures i + |a| + 1 + |b| == i + |a + (sep + b)|
  {
    AtSplit(t, i, a, sep + b);
    AtSplit(t, i + |a|, sep, b);
    AtChar(t, i + |a|, sep, 0);
  }

  lemma RenderPieces(t: string, i: nat, pairs: seq<Pair>, head: string, tail: string)
    requires |pairs| >= 2 && head == RenderPair(pairs[0]) && tail == Render(pairs[1..]) && At(t, i, Render(pairs))
    ensures At(t, i, head) && i + |head| < |t| && t[i + |head|] == ' ' && At(t, i + |head| + 1, tail)
    ensures i + |head| + 1 + |tail| == i + |Render(pairs)|
  {
    RenderSplits(pairs);
    ThreePieces(t, i, head, " ", tail);
  }

  /** Some pairs, and then what the rest of the text yields. */
  function Followed(pairs: seq<Pair>, rest: Parsed): Parsed
  {
    Parsed(pairs + rest.pairs, rest.spins)
  }

  lemma FollowedTwice(a: seq<Pair>, b: seq<Pair>, rest: Parsed)
    ensures Followed(a, Followed(b, rest)) == Followed(a + b, rest)
  {
    Assoc(a, b, rest.pairs);
  }

  lemma PrependTurn(t: string, i: nat, next: nat, yielded: seq<Pair>, rest: Parsed)
    requires i < next <= |t| && TurnAt(t, i) == Turn(next, yielded) && ParseFrom(t, next) == rest
    ensures ParseFrom(t, i) == Followed(yielded, rest)
  {
  }

  lemma ReadOnePair(t: string, i: nat, p: Pair, next: nat, rest: Parsed)
    requires ValidKey(p.key) && At(t, i, RenderPair(p)) && next == i + |RenderPair(p)| && ParseFrom(t, next) == rest
    ensures ParseFrom(t, i) == Followed([p], rest)
  {
    PairLength(p);
    TurnReadsPair(t, i, p);
    PrependTurn(t, i, next, [p], rest);
  }

  lemma HeadTail(pairs: seq<Pair>)
    requires pairs != []
    ensures [pairs[0]] + pairs[1..] == pairs
  {
  }

  /** A blank before a rendered pair changes nothing. */
  lemma ParseAfterSpace(t: string, i: nat, p: Pair)
    requires i < |t| && t[i] == ' ' && ValidKey(p.key) && At(t, i + 1, RenderPair(p))
    ensures ParseFrom(t, i) == ParseFrom(t, i + 1)
  {
    PairLength(p);
    AtChar(t, i + 1, RenderPair(p), 0);
    assert RenderPair(p)[0] == p.key[0];
    TurnReadsPair(t, i + 1, p);
    ParseSkipsSpace(t, i);
  }

  /** Turn by turn from `i`, the parser yields one of the pairs each, and stands at `end` behind them. */
  ghost predicate Turns(t: string, i: nat, pairs: seq<Pair>, end: nat)
    decreases |pairs|
  {
    if pairs == [] then i == end
    else i < |t| && TurnAt(t, i).yielded == [pairs[0]] && Turns(t, TurnAt(t, i).next, pairs[1..], end)
  }

  lemma {:induction false} TurnsAreRead(t: string, i: nat, pairs: seq<Pair>, end: nat)
    requires i <= |t| && end <= |t| && Turns(t, i, pairs, end)
    ensures ParseFrom(t, i) == Followed(pairs, ParseFrom(t, end))
    decreases |pairs|
  {
    if pairs == [] {
      AndNothing(ParseFrom(t, end).pairs);
    } else {
      TurnsAreRead(t, TurnAt(t, i).next, pairs[1..], end);
      PrependTurn(t, i, TurnAt(t, i).next, [pairs[0]], Followed(pairs[1..], ParseFrom(t, end)));
      FollowedTwice([pairs[0]], pairs[1..], ParseFrom(t, end));
      HeadTail(pairs);
    }
  }

  lemma RenderStarts(t: string, i: nat, pairs: seq<Pair>)
    requires pairs != [] && ValidKeys(pairs) && At(t, i, Render(pairs))
    ensures i < |t| && !IsSpace(t[i])
  {
    assert Render(pairs)[0] == pairs[0].key[0];
    AtChar(t, i, Render(pairs), 0);
  }

  /** The first of several pairs is a turn, and the next one starts at the blank or behind it. */
  lemma HeadTurn(t: string, i: nat, pairs: seq<Pair>) returns (next: nat, rest: nat)
    requires |pairs| > 1 && ValidKeys(pairs) && At(t, i, Render(pairs))
    ensures i < |t| && TurnAt(t, i) == Turn(next, [pairs[0]])
    ensures next < rest < |t| && TurnAt(t, next) == TurnAt(t, rest)
    ensures ValidKeys(pairs[1..]) && At(t, rest, Render(pairs[1..]))
    ensures rest + |Render(pairs[1..])| == i + |Render(pairs)|
  {
    next := i + |RenderPair(pairs[0])|;
    rest := next + 1;
    RenderPieces(t, i, pairs, RenderPair(pairs[0]), Render(pairs[1..]));
    TurnReadsPair(t, i, pairs[0]);
    RenderStarts(t, rest, pairs[1..]);
    TurnSkipsSpace(t, next);
  }

  lemma FirstTurn(t: string, i: nat, pairs: seq<Pair>, next: nat, rest: nat, end: nat)
    requires |pairs| > 1 && i < |t| && TurnAt(t, i) == Turn(next, [pairs[0]])
    requires next < rest < |t| && TurnAt(t, next) == TurnAt(t, rest) && Turns(t, rest, pairs[1..], end)
    ensures Turns(t, i, pairs, end)
  {
    assert Turns(t, next, pairs[1..], end);
  }

  lemma LastTurn(t: string, i: nat, pairs: seq<Pair>)
    requires |pairs| == 1 && ValidKeys(pairs) && At(t, i, Render(pairs))
    ensures Turns(t, i, pairs, i + |Render(pairs)|)
  {
    TurnReadsPair(t, i, pairs[0]);
  }

  lemma {:induction false} RenderTurns(t: string, i: nat, pairs: seq<Pair>, end: nat)
    requires pairs != [] && ValidKeys(pairs) && At(t, i, Render(pairs)) && end == i + |Render(pairs)|
    ensures Turns(t, i, pairs, end)
    decreases |pairs|
  {
    if |pairs| == 1 {
      LastTurn(t, i, pairs);
    } else {
      var next, rest := HeadTurn(t, i, pairs);
      RenderTurns(t, rest, pairs[1..], end);
      FirstTurn(t, i, pairs, next, rest, end);
    }
  }

  /** Rendered pairs are read off the front of a text, whatever comes after them. */
  lemma ParseReadsRender(t: string, i: nat, pairs: seq<Pair>, end: nat, rest: Parsed)
    requires pairs != [] && ValidKeys(pairs) && At(t, i, Render(pairs))
    requires end == i + |Render(pairs)| && ParseFrom(t, end) == rest
    ensures ParseFrom(t, i) == Followed(pairs, rest)
  {
    RenderTurns(t, i, pairs, end);
    TurnsAreRead(t, i, pairs, end);
  }

  /** Parsing a rendered list gives the list back, in order and for arbitrary values, exactly when its
      keys are not empty and free of whitespace and equals signs. */
  lemma RoundTrip(pairs: seq<Pair>)
    ensures Parse(Render(pairs)) == Parsed(pairs, false) <==> ValidKeys(pairs)
  {
    var t := Render(pairs);
    ParsedKeysValid(t, 0);
    if ValidKeys(pairs) && pairs != [] {
      ParseReadsRender(t, 0, pairs, |t|, Parsed([], false));
      AndNothing(pairs);
    }
  }

  // ----- composing a dsn ------------------------------------------------------------------------------------------

  const DSN_KEYS := {
    "host", "hostaddr", "port", "dbname", "user", "password", "options",
    "application_name", "connect_timeout", "sslmode", "target_session_attrs"
  }

  /** Settings resolved so far: an insertion-ordered dict. */
  function Put(d: seq<Pair>, p: Pair): seq<Pair>
  {
    if d == [] then [p]
    else if d[0].key == p.key then [p] + d[1..]
    else [d[0]] + Put(d[1..], p)
  }

  function Update(d: seq<Pair>, pairs: seq<Pair>): seq<Pair>
  {
    if pairs == [] then d else Put(Update(d, pairs[..|pairs| - 1]), pairs[|pairs| - 1])
  }

  function Lookup(d: seq<Pair>, key: string): Option<string>
  {
    if d == [] then None
    else if d[0].key == key then Some(d[0].value) else Lookup(d[1..], key)
  }

  /** The last value written under a key. */
  function LastOf(pairs: seq<Pair>, key: string): Option<string>
  {
    if pairs == [] then None
    else
      var last := pairs[|pairs| - 1];
      if last.key == key then Some(last.value) else LastOf(pairs[..|pairs| - 1], key)
  }

  datatype KwValue = NoneValue | EmptyText | Given(text: string)   // `text` is str(value)

  datatype Keyword = Keyword(key: string, value: KwValue)

  function Accepted(kwargs: seq<Keyword>): seq<Pair>
  {
    if kwargs == [] then []
    else
      var k := kwargs[|kwargs| - 1];
      Accepted(kwargs[..|kwargs| - 1]) +
      (if k.key in DSN_KEYS && k.value.Given? then [Pair(k.key, k.value.text)] else [])
  }

  /** The settings of the texts in order; nothing if one of them makes the parser spin. */
  function TextWriters(texts: seq<string>): Option<seq<Pair>>
  {
    if texts == [] then Some([])
    else
      var before := TextWriters(texts[..|texts| - 1]);
      var last := Parse(texts[|texts| - 1]);
      if before.None? || last.spins then None else Some(before.value + last.pairs)
  }

  /** All settings in the order they are written: CONNINFO, then conninfo, then the keywords. */
  function Writers(global: Option<string>, conninfo: string, kwargs: seq<Keyword>): Option<seq<Pair>>
  {
    var texts := TextWriters([if global.Some? then global.value else "", conninfo]);
    if texts.None? then None else Some(texts.value + Accepted(kwargs))
  }

  lemma NextText(texts: seq<string>, i: nat)
    requires i < |texts| && TextWriters(texts[..i]).Some?
    ensures var before, last := TextWriters(texts[..i]).value, Parse(texts[i]);
            && TextWriters(texts[..i + 1]) == (if last.spins then None else Some(before + last.pairs))
            && (texts[i] == "" ==> TextWriters(texts[..i + 1]) == Some(before))
  {
    assert texts[..i + 1][..i] == texts[..i];
    AndNothing(TextWriters(texts[..i]).value);
  }

  method ResolveTexts(texts: seq<string>) returns (resolved: Option<seq<Pair>>)
    ensures var w := TextWriters(texts); resolved == if w.None? then None else Some(Update([], w.value))
  {
    var d: seq<Pair> := [];
    for i := 0 to |texts|
      invariant TextWriters(texts[..i]).Some? && d == Update([], TextWriters(texts[..i]).value)
    {
      NextText(texts, i);
      if texts[i] != "" {
        var pairs, spins := ParseConninfo(texts[i]);
        if spins {
          SpinSticks(texts, i + 1);
          return None;
        }
        UpdateConcat([], TextWriters(texts[..i]).value, pairs);
        d := UpdateDict(d, pairs);
      }
    }
    assert texts[..|texts|] == texts;
    resolved := Some(d);
  }

  lemma {:induction false} SpinSticks(texts: seq<string>, i: nat)
    requires i <= |texts| && TextWriters(texts[..i]).None?
    ensures TextWriters(texts).None?
    decreases |texts| - i
  {
    if i < |texts| {
      assert texts[..i + 1][..i] == texts[..i];
      SpinSticks(texts, i + 1);
    } else {
      assert texts[..i] == texts;
    }
  }

  method ComposeDsn(global: Option<string>, conninfo: string, kwargs: seq<Keyword>) returns (dsn: Option<string>)
    ensures var w := Writers(global, conninfo, kwargs);
            dsn == if w.None? then None else Some(Render(Update([], w.value)))
  {
    var texts := [if global.Some? then global.value else "", conninfo];
    var parsed := ResolveTexts(texts);
    if parsed.None? {
      return None;
    }
    var resolved := parsed.value;
    for i := 0 to |kwargs|
      invariant resolved == Update(parsed.value, Accepted(kwargs[..i]))
    {
      var k := kwargs[i];
      assert kwargs[..i + 1][..i] == kwargs[..i];
      ghost var done := Accepted(kwargs[..i]);
      if k.key !in DSN_KEYS || k.value.NoneValue? || k.value.EmptyText? {
        assert Accepted(kwargs[..i + 1]) == done + [];
        AndNothing(done);
        continue;
      }
      var p := Pair(k.key, k.value.text);
      assert (done + [p])[..|done|] == done;
      resolved := Put(resolved, p);
    }
    assert kwargs[..|kwargs|] == kwargs;
    UpdateConcat([], TextWriters(texts).value, Accepted(kwargs));
    dsn := Some(Render(resolved));
  }

  method UpdateDict(d: seq<Pair>, pairs: seq<Pair>) returns (r: seq<Pair>)
    ensures r == Update(d, pairs)
  {
    r := d;
    for i := 0 to |pairs|
      invariant r == Update(d, pairs[..i])
    {
      assert pairs[..i + 1][..i] == pairs[..i];
      r := Put(r, pairs[i]);
    }
    assert pairs[..|pairs|] == pairs;
  }

  lemma {:induction false} UpdateConcat(d: seq<Pair>, a: seq<Pair>, b: seq<Pair>)
    ensures Update(d, a + b) == Update(Update(d, a), b)
    decreases |b|
  {
    if b == [] {
      assert a + b == a;
    } else {
      assert (a + b)[..|a + b| - 1] == a + b[..|b| - 1];
      UpdateConcat(d, a, b[..|b| - 1]);
    }
  }

  predicate DistinctKeys(d: seq<Pair>)
  {
    forall i, j :: 0 <= i < j < |d| ==> d[i].key != d[j].key
  }

  lemma {:induction false} PutLooks(d: seq<Pair>, p: Pair)
    requires DistinctKeys(d)
    ensures forall k :: Lookup(Put(d, p), k) == if k == p.key then Some(p.value) else Lookup(d, k)
  {
    if d != [] {
      PutLooks(d[1..], p);
      if d[0].key == p.key {
        NotBelow(d);
      }
    }
  }

  lemma PutNext(d: seq<Pair>, p: Pair)
    requires d != [] && d[0].key != p.key
    ensures |Put(d, p)| == 1 + |Put(d[1..], p)| && Put(d, p)[0] == d[0]
    ensures forall i :: 0 < i < |Put(d, p)| ==> Put(d, p)[i] == Put(d[1..], p)[i - 1]
  {
  }

  lemma {:induction false} PutSize(d: seq<Pair>, p: Pair)
    ensures |Put(d, p)| == |d| + (if Lookup(d, p.key).None? then 1 else 0)
    ensures |Put(d, p)| > |d| ==> Put(d, p)[|d|] == p
  {
    if d != [] && d[0].key != p.key {
      PutNext(d, p);
      PutSize(d[1..], p);
    }
  }

  lemma {:induction false} PutAt(d: seq<Pair>, p: Pair, i: nat)
    requires i < |Put(d, p)|
    ensures Put(d, p)[i] == p || Put(d, p)[i] in d
    ensures i < |d| ==> Put(d, p)[i].key == d[i].key
  {
    if d != [] && d[0].key != p.key {
      PutNext(d, p);
      if i > 0 {
        PutAt(d[1..], p, i - 1);
      }
    } else if d != [] && i > 0 {
      assert Put(d, p)[i] == d[i];
    }
  }

  lemma PutPlaces(d: seq<Pair>, p: Pair)
    ensures forall i :: 0 <= i < |Put(d, p)| ==> Put(d, p)[i] == p || Put(d, p)[i] in d
    ensures |Put(d, p)| >= |d| && forall i :: 0 <= i < |d| ==> Put(d, p)[i].key == d[i].key
    ensures |Put(d, p)| == |d| + (if Lookup(d, p.key).None? then 1 else 0)
    ensures |Put(d, p)| > |d| ==> Put(d, p)[|d|] == p
  {
    PutSize(d, p);
    forall i | 0 <= i < |Put(d, p)|
      ensures Put(d, p)[i] == p || Put(d, p)[i] in d
      ensures i < |d| ==> Put(d, p)[i].key == d[i].key
    {
      PutAt(d, p, i);
    }
  }

  lemma {:induction false} LookupSome(d: seq<Pair>, key: string)
    ensures Lookup(d, key) == None ==> forall i :: 0 <= i < |d| ==> d[i].key != key
  {
    if d != [] {
      LookupSome(d[1..], key);
      assert forall i :: 0 < i < |d| ==> d[i] == d[1..][i - 1];
    }
  }

  lemma PutKeeps(d: seq<Pair>, p: Pair)
    requires DistinctKeys(d)
    ensures DistinctKeys(Put(d, p))
    ensures forall k :: Lookup(Put(d, p), k) == if k == p.key then Some(p.value) else Lookup(d, k)
    ensures forall i :: 0 <= i < |Put(d, p)| ==> Put(d, p)[i] == p || Put(d, p)[i] in d
    ensures |Put(d, p)| >= |d| && forall i :: 0 <= i < |d| ==> Put(d, p)[i].key == d[i].key
    ensures |Put(d, p)| == |d| + (if Lookup(d, p.key).None? then 1 else 0)
  {
    PutLooks(d, p);
    PutPlaces(d, p);
    LookupSome(d, p.key);
  }

  lemma {:induction false} LookupNone(d: seq<Pair>, key: string)
    requires forall i :: 0 <= i < |d| ==> d[i].key != key
    ensures Lookup(d, key) == None
  {
    if d != [] {
      LookupNone(d[1..], key);
    }
  }

  lemma NotBelow(d: seq<Pair>)
    requires d != [] && DistinctKeys(d)
    ensures Lookup(d[1..], d[0].key) == None
  {
    LookupNone(d[1..], d[0].key);
  }

  /** Every key is named once, and holds the last value written under it. */
  lemma {:induction false} LastWriterWins(pairs: seq<Pair>)
    ensures DistinctKeys(Update([], pairs))
    ensures forall k :: Lookup(Update([], pairs), k) == LastOf(pairs, k)
    ensures ValidKeys(pairs) ==> ValidKeys(Update([], pairs))
  {
    if pairs != [] {
      var n := |pairs| - 1;
      LastWriterWins(pairs[..n]);
      PutKeeps(Update([], pairs[..n]), pairs[n]);
      if ValidKeys(pairs) {
        assert ValidKeys(pairs[..n]);
      }
    }
  }

  lemma {:induction false} ParsedKeysValid(t: string, i: nat)
    requires i <= |t|
    ensures ValidKeys(ParseFrom(t, i).pairs)
    decreases |t| - i
  {
    if i < |t| && TurnAt(t, i).next != i {
      ParsedKeysValid(t, TurnAt(t, i).next);
    }
  }

  lemma DsnKeyValid(key: string)
    requires key in DSN_KEYS
    ensures ValidKey(key)
  {
  }

  lemma {:induction false} AcceptedKeysValid(kwargs: seq<Keyword>)
    ensures ValidKeys(Accepted(kwargs))
  {
    if kwargs != [] {
      var k := kwargs[|kwargs| - 1];
      AcceptedKeysValid(kwargs[..|kwargs| - 1]);
      if k.key in DSN_KEYS {
        DsnKeyValid(k.key);
      }
    }
  }

  lemma TwoTexts(a: string, b: string)
    ensures TextWriters([a, b]) ==
            if Parse(a).spins || Parse(b).spins then None else Some(Parse(a).pairs + Parse(b).pairs)
  {
    assert [a, b][..1] == [a] && [a][..0] == [];
    AndNothing(Parse(a).pairs);
    assert TextWriters([a]) == if Parse(a).spins then None else Some(Parse(a).pairs);
  }

  lemma {:induction false} LastOfConcat(a: seq<Pair>, b: seq<Pair>, key: string)
    ensures LastOf(a + b, key) == if LastOf(b, key).Some? then LastOf(b, key) else LastOf(a, key)
    decreases |b|
  {
    if b == [] {
      AndNothing(a);
    } else {
      assert (a + b)[..|a + b| - 1] == a + b[..|b| - 1];
      LastOfConcat(a, b[..|b| - 1], key);
    }
  }

  /** A keyword that is given under this key: one of the keys of a dsn, and neither None nor empty. */
  predicate Gives(k: Keyword, key: string)
  {
    k.key == key && key in DSN_KEYS && k.value.Given?
  }

  /** `i` is the last keyword given under the key. */
  ghost predicate LastGiven(kwargs: seq<Keyword>, key: string, i: int)
  {
    0 <= i < |kwargs| && Gives(kwargs[i], key) && forall j :: i < j < |kwargs| ==> !Gives(kwargs[j], key)
  }

  ghost predicate NoneGiven(kwargs: seq<Keyword>, key: string)
  {
    forall i :: 0 <= i < |kwargs| ==> !Gives(kwargs[i], key)
  }

  lemma AcceptedNext(kwargs: seq<Keyword>, key: string)
    requires kwargs != []
    ensures var k, before := kwargs[|kwargs| - 1], Accepted(kwargs[..|kwargs| - 1]);
            LastOf(Accepted(kwargs), key) == if Gives(k, key) then Some(k.value.text) else LastOf(before, key)
  {
    var k, before := kwargs[|kwargs| - 1], Accepted(kwargs[..|kwargs| - 1]);
    if k.key in DSN_KEYS && k.value.Given? {
      assert (before + [Pair(k.key, k.value.text)])[..|before|] == before;
    } else {
      AndNothing(before);
    }
  }

  lemma {:induction false} AcceptedNone(kwargs: seq<Keyword>, key: string)
    requires NoneGiven(kwargs, key)
    ensures LastOf(Accepted(kwargs), key) == None
  {
    if kwargs != [] {
      AcceptedNext(kwargs, key);
      AcceptedNone(kwargs[..|kwargs| - 1], key);
    }
  }

  lemma {:induction false} AcceptedLast(kwargs: seq<Keyword>, key: string, i: nat)
    requires LastGiven(kwargs, key, i)
    ensures LastOf(Accepted(kwargs), key) == Some(kwargs[i].value.text)
  {
    AcceptedNext(kwargs, key);
    if i < |kwargs| - 1 {
      AcceptedLast(kwargs[..|kwargs| - 1], key, i);
    }
  }

  lemma WritersByPart(global: Option<string>, conninfo: string, kwargs: seq<Keyword>, key: string)
    requires Writers(global, conninfo, kwargs).Some?
    ensures var shared := if global.Some? then Parse(global.value).pairs else [];
            var own, given := LastOf(Parse(conninfo).pairs, key), LastOf(Accepted(kwargs), key);
            LastOf(Writers(global, conninfo, kwargs).value, key) ==
            if given.Some? then given else if own.Some? then own else LastOf(shared, key)
  {
    var text := if global.Some? then global.value else "";
    TwoTexts(text, conninfo);
    LastOfConcat(Parse(text).pairs + Parse(conninfo).pairs, Accepted(kwargs), key);
    LastOfConcat(Parse(text).pairs, Parse(conninfo).pairs, key);
    assert Parse("") == Parsed([], false);
  }

  /** Which setting wins: a keyword that is given, the last of them if there are several; else the last
      one of the conninfo; else the last one of CONNINFO. */
  lemma WhoWins(global: Option<string>, conninfo: string, kwargs: seq<Keyword>, key: string)
    requires Writers(global, conninfo, kwargs).Some?
    ensures var w := Writers(global, conninfo, kwargs).value;
            var own := LastOf(Parse(conninfo).pairs, key);
            && (forall i :: LastGiven(kwargs, key, i) ==> LastOf(w, key) == Some(kwargs[i].value.text))
            && (NoneGiven(kwargs, key) && own.Some? ==> LastOf(w, key) == own)
            && (NoneGiven(kwargs, key) && own.None? && global.Some? ==> LastOf(w, key) == LastOf(Parse(global.value).pairs, key))
            && (NoneGiven(kwargs, key) && own.None? && global.None? ==> LastOf(w, key) == None)
  {
    WritersByPart(global, conninfo, kwargs, key);
    forall i | LastGiven(kwargs, key, i)
      ensures LastOf(Accepted(kwargs), key) == Some(kwargs[i].value.text)
    {
      AcceptedLast(kwargs, key, i);
    }
    if NoneGiven(kwargs, key) {
      AcceptedNone(kwargs, key);
    }
  }

  /** The composed dsn parses back to the resolved settings: each key once, last writer first served. */
  lemma ComposedParses(global: Option<string>, conninfo: string, kwargs: seq<Keyword>)
    requires Writers(global, conninfo, kwargs).Some?
    ensures var w := Writers(global, conninfo, kwargs).value;
            var parsed := Parse(Render(Update([], w)));
            && !parsed.spins
            && DistinctKeys(parsed.pairs)
            && forall k :: Lookup(parsed.pairs, k) == LastOf(w, k)
  {
    var w := Writers(global, conninfo, kwargs).value;
    var text := if global.Some? then global.value else "";
    TwoTexts(text, conninfo);
    ParsedKeysValid(text, 0);
    ParsedKeysValid(conninfo, 0);
    AcceptedKeysValid(kwargs);
    LastWriterWins(w);
    RoundTrip(Update([], w));
  }

  lemma {:induction false} PutAppends(d: seq<Pair>, p: Pair)
    requires forall i :: 0 <= i < |d| ==> d[i].key != p.key
    ensures Put(d, p) == d + [p]
  {
    if d != [] {
      PutAppends(d[1..], p);
    }
  }

  lemma {:induction false} UpdateFromEmpty(d: seq<Pair>)
    requires DistinctKeys(d)
    ensures Update([], d) == d
  {
    if d != [] {
      var n := |d| - 1;
      UpdateFromEmpty(d[..n]);
      PutAppends(d[..n], d[n]);
      assert d[..n] + [d[n]] == d;
    }
  }

  lemma WritersOfRendered(d: seq<Pair>)
    requires ValidKeys(d)
    ensures Writers(None, Render(d), []) == Some(d)
  {
    RoundTrip(d);
    TwoTexts("", Render(d));
    assert Parse("") == Parsed([], false);
    AndNothing(d);
  }

  /** Composing a rendered dsn again, with nothing to add, gives the same text. */
  lemma RenderIsFixedPoint(d: seq<Pair>)
    requires ValidKeys(d) && DistinctKeys(d)
    ensures Writers(None, Render(d), []) == Some(d)
    ensures Render(Update([], Writers(None, Render(d), []).value)) == Render(d)
  {
    WritersOfRendered(d);
    UpdateFromEmpty(d);
  }

  // ----- the kernel's database override ------------------------------------------------------------------------------

  type Byte = b: int | 0 <= b < 256

  const HEX := "0123456789ABCDEF"

  predicate Unreserved(b: Byte)
  {
    || '0' as int <= b <= '9' as int
    || 'A' as int <= b <= 'Z' as int
    || 'a' as int <= b <= 'z' as int
    || b in {'-' as int, '.' as int, '_' as int, '~' as int}
  }

  function EncodeByte(b: Byte): string
  {
    if Unreserved(b) then [b as char] else ['%', HEX[b / 16], HEX[b % 16]]
  }

  /** Letters, digits, and the four marks - . _ ~ stand for themselves; every other byte takes three
      characters. */
  lemma StandsForItself(b: Byte)
    ensures EncodeByte(b) == [b as char] <==>
            48 <= b <= 57 || 65 <= b <= 90 || 97 <= b <= 122 || b == 45 || b == 46 || b == 95 || b == 126
    ensures EncodeByte(b) != [b as char] ==> |EncodeByte(b)| == 3 && EncodeByte(b)[0] == '%'
  {
  }

  function PercentEncode(bytes: seq<Byte>): string
  {
    if bytes == [] then "" else PercentEncode(bytes[..|bytes| - 1]) + EncodeByte(bytes[|bytes| - 1])
  }

  function HexValue(c: char): int
  {
    if '0' <= c <= '9' then c as int - '0' as int
    else if 'A' <= c <= 'F' then c as int - 'A' as int + 10 else -1
  }

  /** Reading a percent-encoded text back into bytes. */
  function PercentDecode(s: string): Option<seq<Byte>>
  {
    if s == "" then Some([])
    else if s[0] == '%' then
      if |s| < 3 || HexValue(s[1]) < 0 || HexValue(s[2]) < 0 then None
      else
        var rest := PercentDecode(s[3..]);
        if rest.None? then None else Some([HexValue(s[1]) * 16 + HexValue(s[2])] + rest.value)
    else if s[0] as int >= 256 then None
    else
      var rest := PercentDecode(s[1..]);
      if rest.None? then None else Some([s[0] as int] + rest.value)
  }

  lemma DecodeByte(b: Byte, rest: string)
    ensures PercentDecode(EncodeByte(b) + rest) == Prepend([b], PercentDecode(rest))
  {
    var s := EncodeByte(b) + rest;
    if Unreserved(b) {
      assert s[1..] == rest;
    } else {
      assert s[3..] == rest;
      HexDigits(b / 16);
      HexDigits(b % 16);
    }
  }

  lemma HexDigits(n: int)
    requires 0 <= n < 16
    ensures HexValue(HEX[n]) == n
  {
  }

  function Prepend(bytes: seq<Byte>, rest: Option<seq<Byte>>): Option<seq<Byte>>
  {
    if rest.None? then None else Some(bytes + rest.value)
  }

  lemma NothingPrepended(rest: Option<seq<Byte>>)
    ensures Prepend([], rest) == rest
  {
    if rest.Some? {
      AndNothing(rest.value);
    }
  }

  lemma PrependTwice(a: seq<Byte>, b: seq<Byte>, rest: Option<seq<Byte>>)
    ensures Prepend(a, Prepend(b, rest)) == Prepend(a + b, rest)
  {
    if rest.Some? {
      Assoc(a, b, rest.value);
    }
  }

  lemma {:induction false} PercentSuffix(bytes: seq<Byte>, rest: string)
    ensures PercentDecode(PercentEncode(bytes) + rest) == Prepend(bytes, PercentDecode(rest))
    decreases |bytes|
  {
    if bytes == [] {
      assert PercentEncode(bytes) + rest == rest;
      NothingPrepended(PercentDecode(rest));
    } else {
      var n := |bytes| - 1;
      var b := bytes[n];
      Assoc(PercentEncode(bytes[..n]), EncodeByte(b), rest);
      PercentSuffix(bytes[..n], EncodeByte(b) + rest);
      DecodeByte(b, rest);
      PrependTwice(bytes[..n], [b], PercentDecode(rest));
      assert bytes[..n] + [b] == bytes;
    }
  }

  /** A percent-encoded database name decodes to the same bytes. */
  lemma PercentRoundTrip(bytes: seq<Byte>)
    ensures PercentDecode(PercentEncode(bytes)) == Some(bytes)
  {
    AndNothing(PercentEncode(bytes));
    PercentSuffix(bytes, "");
    AndNothing(bytes);
  }

  predicate IsUri(dsn: string)
  {
    "postgres://" <= dsn || "postgresql://" <= dsn
  }

  /** The loop over the bytes of the name. */
  method PushEncoded(head: string, bytes: seq<Byte>) returns (r: string)
    ensures r == head + PercentEncode(bytes)
  {
    r := head;
    for i := 0 to |bytes|
      invariant r == head + PercentEncode(bytes[..i])
    {
      assert bytes[..i + 1][..i] == bytes[..i];
      Assoc(head, PercentEncode(bytes[..i]), EncodeByte(bytes[i]));
      if Unreserved(bytes[i]) {
        r := r + [bytes[i] as char];
      } else {
        r := r + ['%', HEX[bytes[i] / 16], HEX[bytes[i] % 16]];
      }
    }
    assert bytes[..|bytes|] == bytes;
  }

  /** The mark that leads to the next parameter of a URI. */
  function Joiner(dsn: string): char
  {
    if '?' in dsn then '&' else '?'
  }

  function Overridden(dsn: string, name: string, utf8: string -> seq<Byte>): string
  {
    if IsUri(dsn) then dsn + [Joiner(dsn)] + "dbname=" + PercentEncode(utf8(name))
    else dsn + " dbname=" + ConninfoValue(name)
  }

  method WithDbname(dsn: string, name: string, utf8: string -> seq<Byte>) returns (r: string)
    ensures r == Overridden(dsn, name, utf8)
  {
    if IsUri(dsn) {
      r := PushEncoded(dsn + (if '?' in dsn then "&" else "?") + "dbname=", utf8(name));
      return;
    }
    r := dsn + " dbname=" + ConninfoValue(name);
  }

  lemma {:induction false} RenderAppend(d: seq<Pair>, p: Pair)
    requires d != []
    ensures Render(d) + " " + RenderPair(p) == Render(d + [p])
    decreases |d|
  {
    assert (d + [p])[1..] == d[1..] + [p];
    if |d| == 1 {
      assert Render([p]) == RenderPair(p);
    } else {
      RenderAppend(d[1..], p);
      assert RenderPair(d[0]) + " " + Render(d[1..]) + " " + RenderPair(p)
          == RenderPair(d[0]) + " " + (Render(d[1..]) + " " + RenderPair(p));
    }
  }

  lemma OverrideOfNothing(p: Pair)
    requires ValidKey(p.key)
    ensures Parse(" " + RenderPair(p)) == Parsed([p], false)
  {
    var t := " " + RenderPair(p);
    assert t[1..1 + |RenderPair(p)|] == RenderPair(p);
    ReadOnePair(t, 1, p, |t|, Parsed([], false));
    assert Render([p]) == RenderPair(p);
    ParseAfterSpace(t, 0, p);
    AndNothing([p]);
  }

  lemma OverrideParses(d: seq<Pair>, p: Pair)
    requires ValidKeys(d) && ValidKey(p.key)
    ensures Parse(Render(d) + " " + RenderPair(p)) == Parsed(d + [p], false)
  {
    var t := Render(d) + " " + RenderPair(p);
    if d == [] {
      assert t == " " + RenderPair(p);
      OverrideOfNothing(p);
      AndNothing([p]);
    } else {
      RenderAppend(d, p);
      RoundTrip(d + [p]);
    }
  }

  lemma OverrideText(rendered: string, name: string)
    ensures rendered + " dbname=" + ConninfoValue(name) == rendered + " " + RenderPair(Pair("dbname", name))
  {
    var value := ConninfoValue(name);
    assert " dbname=" == " " + ("dbname" + "=");
    Assoc(rendered, " ", "dbname" + "=");
    Assoc(rendered + " ", "dbname" + "=", value);
  }

  /** The settings are those of `d` with dbname set to `name`, in the order of `d`. */
  ghost predicate DbnameSet(d: seq<Pair>, name: string, settings: seq<Pair>)
  {
    && DistinctKeys(settings)
    && (forall k :: Lookup(settings, k) == if k == "dbname" then Some(name) else Lookup(d, k))
    && |settings| == |d| + (if Lookup(d, "dbname").None? then 1 else 0)
    && (forall i :: 0 <= i < |d| ==> settings[i].key == d[i].key)
  }

  /** The text parses to such settings. */
  ghost predicate SetsOnlyDbname(d: seq<Pair>, name: string, t: string)
  {
    !Parse(t).spins && DbnameSet(d, name, Update([], Parse(t).pairs))
  }

  lemma UpdateWithOne(d: seq<Pair>, p: Pair)
    requires DistinctKeys(d)
    ensures Update([], d + [p]) == Put(d, p)
  {
    UpdateConcat([], d, [p]);
    UpdateFromEmpty(d);
    assert [p][..0] == [];
  }

  lemma KeyValueOverride(d: seq<Pair>, name: string, utf8: string -> seq<Byte>)
    requires ValidKeys(d) && DistinctKeys(d) && !IsUri(Render(d))
    ensures SetsOnlyDbname(d, name, Overridden(Render(d), name, utf8))
  {
    var p := Pair("dbname", name);
    OverrideText(Render(d), name);
    OverrideParses(d, p);
    UpdateWithOne(d, p);
    PutKeeps(d, p);
  }

  // ----- a rendered dsn that looks like a URI ------------------------------------------------------------------

  lemma SchemeInKey(key: string, rest: string, scheme: string)
    requires '=' !in scheme
    ensures scheme <= key + "=" + rest <==> scheme <= key
  {
    var t := key + "=" + rest;
    assert t[..|key|] == key && t[|key|] == '=';
    if scheme <= t && |scheme| <= |key| {
      assert key[..|scheme|] == t[..|scheme|] == scheme;
    }
    if scheme <= key {
      assert t[..|scheme|] == key[..|scheme|];
    }
  }

  lemma RenderOpens(d: seq<Pair>)
    requires d != []
    ensures exists rest :: Render(d) == d[0].key + "=" + rest
  {
    var value := ConninfoValue(d[0].value);
    if |d| == 1 {
      assert Render(d) == d[0].key + "=" + value;
    } else {
      var tail := " " + Render(d[1..]);
      RenderSplits(d);
      Assoc(d[0].key + "=", value, tail);
      assert Render(d) == d[0].key + "=" + (value + tail);
    }
  }

  /** A rendered dsn is taken for a URI exactly when its first key begins like one. */
  lemma RenderIsUriIff(d: seq<Pair>)
    ensures IsUri(Render(d)) <==> d != [] && IsUri(d[0].key)
  {
    if d != [] {
      RenderOpens(d);
      var rest :| Render(d) == d[0].key + "=" + rest;
      SchemeInKey(d[0].key, rest, "postgres://");
      SchemeInKey(d[0].key, rest, "postgresql://");
    }
  }

  /** Characters a bare value is made of when it is read as it stands. */
  predicate PlainText(s: string)
  {
    forall i :: 0 <= i < |s| ==> !IsSpace(s[i]) && s[i] != '\\' && s[i] != '\''
  }

  lemma HexDigitPlain(n: int)
    requires 0 <= n < 16
    ensures !IsSpace(HEX[n]) && HEX[n] != '\\' && HEX[n] != '\''
  {
    HexDigits(n);
  }

  lemma EncodedBytePlain(b: Byte)
    ensures PlainText(EncodeByte(b))
  {
    if !Unreserved(b) {
      HexDigitPlain(b / 16);
      HexDigitPlain(b % 16);
    }
  }

  lemma {:induction false} EncodedPlain(bytes: seq<Byte>)
    ensures PlainText(PercentEncode(bytes))
  {
    if bytes != [] {
      EncodedPlain(bytes[..|bytes| - 1]);
      EncodedBytePlain(bytes[|bytes| - 1]);
    }
  }

  lemma {:induction false} BareChars(t: string, i: nat)
    requires i <= |t| && PlainText(t[i..])
    ensures Chars(t, i, false) == (t[i..], |t|)
    decreases |t| - i
  {
    if i < |t| {
      assert t[i] == t[i..][0];
      assert t[i + 1..] == t[i..][1..];
      BareChars(t, i + 1);
      assert [t[i]] + t[i + 1..] == t[i..];
    }
  }

  /** A bare value at the end of the text. */
  lemma BareTurn(t: string, i: nat, key: string)
    requires ValidKey(key) && At(t, i, key + "=") && PlainText(t[i + |key| + 1..])
    ensures i < |t| && TurnAt(t, i) == Turn(|t|, [Pair(key, t[i + |key| + 1..])])
  {
    var v := i + |key| + 1;
    KeyEndAt(t, i, key);
    AtSplit(t, i, key, "=");
    assert v < |t| ==> t[v] == t[v..][0];
    assert SkipSpace(t, v) == v;
    BareChars(t, v);
    AtIs(t, i, key);
  }

  lemma UriPieces(rendered: string, key: string, value: string)
    ensures var t := rendered + key + "=" + value;
            At(t, 0, rendered) && At(t, |rendered|, key + "=") && t[|rendered| + |key| + 1..] == value
            && |t| == |rendered| + |key| + 1 + |value|
  {
    var t := rendered + key + "=" + value;
    assert t[0..|rendered|] == rendered;
    assert t[|rendered|..|rendered| + |key + "="|] == key + "=";
  }

  /** A bare pair after a rendered list. */
  lemma BareAfterRender(t: string, d: seq<Pair>, key: string, value: string)
    requires ValidKeys(d) && d != [] && ValidKey(key) && PlainText(value)
    requires At(t, 0, Render(d)) && At(t, |Render(d)|, key + "=") && t[|Render(d)| + |key| + 1..] == value
    ensures Parse(t) == Parsed(d + [Pair(key, value)], false)
  {
    var n := |Render(d)|;
    BareTurn(t, n, key);
    PrependTurn(t, n, |t|, [Pair(key, value)], Parsed([], false));
    ParseReadsRender(t, 0, d, n, Parsed([Pair(key, value)], false));
  }

  lemma JoinerText(rendered: string, c: char)
    requires c in {'?', '&'}
    ensures rendered + [c] + "dbname=" == rendered + ([c] + "dbname") + "="
    ensures ValidKey([c] + "dbname") && [c] + "dbname" != "dbname"
  {
    assert "dbname=" == "dbname" + "=";
    Assoc(rendered, [c], "dbname");
    Assoc(rendered + [c], "dbname", "=");
    assert |[c] + "dbname"| == 7;
  }

  /** The setting a dsn taken for a URI gets instead. */
  function Misplaced(d: seq<Pair>, name: string, utf8: string -> seq<Byte>): Pair
  {
    Pair([Joiner(Render(d))] + "dbname", PercentEncode(utf8(name)))
  }

  /** Taken for a URI, a rendered dsn gets another setting than dbname. */
  lemma UriOverrideParses(d: seq<Pair>, name: string, utf8: string -> seq<Byte>)
    requires ValidKeys(d) && IsUri(Render(d))
    ensures Parse(Overridden(Render(d), name, utf8)) == Parsed(d + [Misplaced(d, name, utf8)], false)
    ensures Misplaced(d, name, utf8).key != "dbname"
  {
    var p, rendered := Misplaced(d, name, utf8), Render(d);
    RenderIsUriIff(d);
    EncodedPlain(utf8(name));
    JoinerText(rendered, Joiner(rendered));
    UriPieces(rendered, p.key, p.value);
    BareAfterRender(rendered + p.key + "=" + p.value, d, p.key, p.value);
  }

  /** All of `d` is still there, but for the one setting. */
  ghost predicate Keeps(d: seq<Pair>, p: Pair, settings: seq<Pair>)
  {
    && Lookup(settings, "dbname") == Lookup(d, "dbname")
    && forall k :: Lookup(settings, k) == if k == p.key then Some(p.value) else Lookup(d, k)
  }

  lemma PutKeepsOthers(d: seq<Pair>, p: Pair)
    requires DistinctKeys(d) && p.key != "dbname"
    ensures Keeps(d, p, Put(d, p))
  {
    PutLooks(d, p);
  }

  /** It keeps the dbname it had, if any, and every other setting but that one. */
  lemma UriKeepsDbname(d: seq<Pair>, name: string, utf8: string -> seq<Byte>)
    requires ValidKeys(d) && DistinctKeys(d) && IsUri(Render(d))
    ensures Keeps(d, Misplaced(d, name, utf8), Update([], Parse(Overridden(Render(d), name, utf8)).pairs))
  {
    var p := Misplaced(d, name, utf8);
    UriOverrideParses(d, name, utf8);
    UpdateWithOne(d, p);
    PutKeepsOthers(d, p);
  }

  lemma MisplacedIff(d: seq<Pair>, p: Pair, name: string)
    requires DistinctKeys(d) && p.key != "dbname"
    ensures DbnameSet(d, name, Put(d, p)) <==> Lookup(d, "dbname") == Some(name) && Lookup(d, p.key) == Some(p.value)
  {
    PutKeeps(d, p);
    var settings := Put(d, p);
    assert Lookup(settings, "dbname") == Lookup(d, "dbname");
    assert Lookup(settings, p.key) == Some(p.value);
  }

  /** What the override gives changes dbname and nothing else, exactly when the dsn does not begin like
      a URI, or already holds both the name and the setting a URI would get. */
  lemma OverrideChangesOnlyDbname(d: seq<Pair>, name: string, utf8: string -> seq<Byte>)
    requires ValidKeys(d) && DistinctKeys(d)
    ensures var p := Misplaced(d, name, utf8);
            SetsOnlyDbname(d, name, Overridden(Render(d), name, utf8)) <==>
            || d == [] || !IsUri(d[0].key)
            || (Lookup(d, "dbname") == Some(name) && Lookup(d, p.key) == Some(p.value))
  {
    RenderIsUriIff(d);
    if !IsUri(Render(d)) {
      KeyValueOverride(d, name, utf8);
    } else {
      UriOverrideParses(d, name, utf8);
      UpdateWithOne(d, Misplaced(d, name, utf8));
      MisplacedIff(d, Misplaced(d, name, utf8), name);
    }
  }

  /** For instance, a first key that was read off a URI: no dbname is set. */
  lemma UriKeyExample(value: string, name: string, utf8: string -> seq<Byte>)
    ensures var d := [Pair("postgres://h", value)];
            && ValidKeys(d) && DistinctKeys(d)
            && Lookup(Update([], Parse(Overridden(Render(d), name, utf8)).pairs), "dbname") == None
            && !SetsOnlyDbname(d, name, Overridden(Render(d), name, utf8))
  {
    var d := [Pair("postgres://h", value)];
    assert d[0].key[..11] == "postgres://";
    RenderIsUriIff(d);
    UriKeepsDbname(d, name, utf8);
    OverrideChangesOnlyDbname(d, name, utf8);
  }
}
