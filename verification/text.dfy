/**
The string operations of the Python standard library that several components rely on, with the few
facts about them the other modules need.
*/
module Text {

  /** The whitespace of str.isspace. */
  predicate IsSpace(c: char)
  {
    || '\t' <= c <= '\r' || '\U{1C}' <= c <= ' ' || c == '\U{85}' || c == '\U{A0}' || c == '\U{1680}'
    || '\U{2000}' <= c <= '\U{200A}' || '\U{2028}' <= c <= '\U{2029}'
    || c == '\U{202F}' || c == '\U{205F}' || c == '\U{3000}'
  }

  // ----- split on a separator, and join ---------------------------------------------------------------

  function Split(s: string, sep: char): (r: seq<string>)
    ensures |r| >= 1
  {
    if s == "" then [""]
    else
      var rest := Split(s[1..], sep);
      if s[0] == sep then [""] + rest else [[s[0]] + rest[0]] + rest[1..]
  }

  function Join(parts: seq<string>, glue: string): string
  {
    if parts == [] then ""
    else if |parts| == 1 then parts[0]
    else parts[0] + glue + Join(parts[1..], glue)
  }

  lemma {:induction false} SplitWhole(s: string, sep: char)
    requires sep !in s
    ensures Split(s, sep) == [s]
  {
    if s != "" {
      SplitWhole(s[1..], sep);
      assert [s[0]] + s[1..] == s;
    }
  }

  lemma {:induction false} SplitFirst(s: string, sep: char, rest: string)
    requires sep !in s
    ensures Split(s + [sep] + rest, sep) == [s] + Split(rest, sep)
  {
    if s == "" {
      assert (s + [sep] + rest)[1..] == rest;
    } else {
      assert (s + [sep] + rest)[1..] == s[1..] + [sep] + rest;
      SplitFirst(s[1..], sep, rest);
      assert [s[0]] + s[1..] == s;
    }
  }

  // ----- split on whitespace, and strip ----------------------------------------------------------------

  function WordEnd(s: string): (n: nat)
    ensures n <= |s|
    ensures forall i :: 0 <= i < n ==> !IsSpace(s[i])
    ensures n < |s| ==> IsSpace(s[n])
  {
    if s == "" || IsSpace(s[0]) then 0 else 1 + WordEnd(s[1..])
  }

  function Words(s: string): seq<string>
    decreases |s|
  {
    if s == "" then []
    else if IsSpace(s[0]) then Words(s[1..])
    else var n := WordEnd(s); [s[..n]] + Words(s[n..])
  }

  function Strip(s: string): string
    decreases |s|
  {
    if s == "" then ""
    else if IsSpace(s[0]) then Strip(s[1..])
    else if IsSpace(s[|s| - 1]) then Strip(s[..|s| - 1])
    else s
  }

  predicate IsWord(w: string)
  {
    w != "" && forall i :: 0 <= i < |w| ==> !IsSpace(w[i])
  }

  lemma {:induction false} WordEndIs(s: string, n: nat)
    requires n <= |s| && (forall i :: 0 <= i < n ==> !IsSpace(s[i])) && (n < |s| ==> IsSpace(s[n]))
    ensures WordEnd(s) == n
  {
    if n > 0 {
      WordEndIs(s[1..], n - 1);
    }
  }

  lemma WordsFirst(w: string, rest: string)
    requires IsWord(w) && (rest == "" || IsSpace(rest[0]))
    ensures Words(w + rest) == [w] + Words(rest)
  {
    var s := w + rest;
    WordEndIs(s, |w|);
    assert s[..|w|] == w && s[|w|..] == rest;
  }

  lemma {:induction false} WordsOfJoin(words: seq<string>)
    requires forall i :: 0 <= i < |words| ==> IsWord(words[i])
    ensures Words(Join(words, " ")) == words
  {
    if words != [] {
      var tail := if |words| == 1 then "" else " " + Join(words[1..], " ");
      assert Join(words, " ") == words[0] + tail;
      WordsFirst(words[0], tail);
      WordsOfJoin(words[1..]);
      assert tail != "" ==> tail[1..] == Join(words[1..], " ");
      assert words == [words[0]] + words[1..];
    }
  }

  lemma {:induction false} WordsAreWords(s: string)
    ensures forall i :: 0 <= i < |Words(s)| ==> IsWord(Words(s)[i])
    decreases |s|
  {
    if s != "" {
      if IsSpace(s[0]) {
        WordsAreWords(s[1..]);
      } else {
        var n := WordEnd(s);
        WordsAreWords(s[n..]);
        assert IsWord(s[..n]);
      }
    }
  }

  lemma WordEndDropLast(s: string)
    requires s != "" && IsSpace(s[|s| - 1])
    ensures var n := WordEnd(s);
            var t := s[..|s| - 1];
            n < |s| && WordEnd(t) == n && t[..n] == s[..n] && t[n..] == s[n..][..|s| - n - 1]
  {
    WordEndIs(s[..|s| - 1], WordEnd(s));
  }

  lemma {:induction false} WordsDropLast(s: string)
    requires s != "" && IsSpace(s[|s| - 1])
    ensures Words(s[..|s| - 1]) == Words(s)
    decreases |s|
  {
    var t := s[..|s| - 1];
    if IsSpace(s[0]) {
      if |s| > 1 {
        WordsDropLast(s[1..]);
        assert s[1..][..|s| - 2] == t[1..];
      } else {
        assert s[1..] == "" && t == "";
      }
    } else {
      var n := WordEnd(s);
      WordEndDropLast(s);
      WordsDropLast(s[n..]);
    }
  }

  lemma {:induction false} WordsOfStrip(s: string)
    ensures Words(Strip(s)) == Words(s)
    decreases |s|
  {
    if s != "" {
      if IsSpace(s[0]) {
        WordsOfStrip(s[1..]);
      } else if IsSpace(s[|s| - 1]) {
        WordsOfStrip(s[..|s| - 1]);
        WordsDropLast(s);
      }
    }
  }

  lemma {:induction false} StripKeepsOut(s: string, c: char)
    requires c !in s
    ensures c !in Strip(s)
    decreases |s|
  {
    if s != "" {
      if IsSpace(s[0]) {
        StripKeepsOut(s[1..], c);
      } else if IsSpace(s[|s| - 1]) {
        StripKeepsOut(s[..|s| - 1], c);
      }
    }
  }

  lemma {:induction false} SplitKeepsOut(s: string, sep: char)
    ensures forall i :: 0 <= i < |Split(s, sep)| ==> sep !in Split(s, sep)[i]
  {
    if s != "" {
      SplitKeepsOut(s[1..], sep);
      var rest := Split(s[1..], sep);
      assert sep !in rest[0];
      var r := Split(s, sep);
      forall i | 0 <= i < |r|
        ensures sep !in r[i]
      {
        if s[0] == sep {
          assert i == 0 || r[i] == rest[i - 1];
        } else {
          assert i == 0 || r[i] == rest[i];
        }
      }
    }
  }

  // ----- decimal numbers -------------------------------------------------------------------------------------

  function Digit(d: nat): char
    requires d < 10
  {
    "0123456789"[d]
  }

  function Decimal(n: nat): (s: string)
    ensures s != ""
  {
    if n < 10 then [Digit(n)] else Decimal(n / 10) + [Digit(n % 10)]
  }

  predicate IsDigit(c: char)
  {
    '0' <= c <= '9'
  }

  /** int() of a text of plain digits; -1 for anything else. */
  function ParseDecimal(s: string): int
  {
    if s == "" || !IsDigit(s[|s| - 1]) then -1
    else
      var d := s[|s| - 1] as int - '0' as int;
      if |s| == 1 then d
      else
        var high := ParseDecimal(s[..|s| - 1]);
        if high < 0 then -1 else 10 * high + d
  }

  lemma {:induction false} DecimalRoundTrip(n: nat)
    ensures ParseDecimal(Decimal(n)) == n
    ensures forall i :: 0 <= i < |Decimal(n)| ==> IsDigit(Decimal(n)[i])
  {
    if n >= 10 {
      DecimalRoundTrip(n / 10);
      assert Decimal(n)[..|Decimal(n)| - 1] == Decimal(n / 10);
    }
  }

  lemma DecimalInjective(m: nat, n: nat)
    requires Decimal(m) == Decimal(n)
    ensures m == n
  {
    DecimalRoundTrip(m);
    DecimalRoundTrip(n);
  }

  lemma Assoc<T>(a: seq<T>, b: seq<T>, c: seq<T>)
    ensures a + b + c == a + (b + c)
  {
  }

  lemma AndNothing<T>(a: seq<T>)
    ensures a + [] == a && [] + a == a
  {
  }
}
