/**
 * String helpers with the meaning Java gives them: `toUpperCase`, `equalsIgnoreCase`,
 * `endsWith`, `trim`, `split("\\s+")` and `compareTo`. Case mapping is ASCII only.
 */
module Text {

  /** Java's `Character.toUpperCase`, restricted to ASCII letters. */
  function UpperChar(c: char): char
  {
    if 'a' <= c <= 'z' then (c as int - 32) as char else c
  }

  /** `String.toUpperCase`, ASCII letters only. */
  function Upper(s: string): (r: string)
    ensures |r| == |s|
    ensures forall i :: 0 <= i < |s| ==> r[i] == UpperChar(s[i])
  {
    if s == [] then [] else [UpperChar(s[0])] + Upper(s[1..])
  }

  predicate IsUpper(s: string)
  {
    Upper(s) == s
  }

  lemma UpperIsIdempotent(s: string)
    ensures IsUpper(Upper(s))
  {
    assert forall i :: 0 <= i < |s| ==> UpperChar(UpperChar(s[i])) == UpperChar(s[i]);
  }

  lemma {:induction false} UpperConcat(a: string, b: string)
    ensures Upper(a + b) == Upper(a) + Upper(b)
    decreases |a|
  {
    if a == [] {
      assert a + b == b;
    } else {
      var head := [UpperChar(a[0])];
      assert (a + b)[0] == a[0];
      assert (a + b)[1..] == a[1..] + b;
      UpperConcat(a[1..], b);
      assert head + Upper(a[1..]) + Upper(b) == head + (Upper(a[1..]) + Upper(b));
    }
  }

  /** `String.equalsIgnoreCase`, under the same ASCII case mapping. */
  predicate EqualsIgnoreCase(a: string, b: string)
  {
    Upper(a) == Upper(b)
  }

  predicate EndsWith(s: string, suffix: string)
  {
    |suffix| <= |s| && s[|s| - |suffix|..] == suffix
  }

  /** A character of the regular-expression class `\s`: space, tab, line feed, vertical tab, form feed, carriage return. */
  predicate IsSpace(c: char)
  {
    c == ' ' || 9 <= c as int <= 13
  }

  /** A character that `String.trim` strips: any code point up to and including U+0020. */
  predicate IsTrimmable(c: char)
  {
    c as int <= 32
  }

  /** A non-empty word of characters that `trim` does not strip (hence none of them is in `\s`). */
  predicate IsToken(w: string)
  {
    w != [] && forall i :: 0 <= i < |w| ==> !IsTrimmable(w[i])
  }

  /** Every word of `ws` is a token. */
  predicate AllTokens(ws: seq<string>)
  {
    forall i :: 0 <= i < |ws| ==> IsToken(ws[i])
  }

  function TrimStart(s: string): (r: string)
    ensures |r| <= |s| && r == s[|s| - |r|..]
    ensures r == [] || !IsTrimmable(r[0])
  {
    if s != [] && IsTrimmable(s[0]) then TrimStart(s[1..]) else s
  }

  function TrimEnd(s: string): (r: string)
    ensures |r| <= |s| && r == s[..|r|]
    ensures r == [] || !IsTrimmable(r[|r| - 1])
  {
    if s != [] && IsTrimmable(s[|s| - 1]) then TrimEnd(s[..|s| - 1]) else s
  }

  /** `String.trim`: strips leading and trailing characters up to U+0020. */
  function Trim(s: string): (r: string)
    ensures |r| <= |s|
    ensures r == [] || (!IsTrimmable(r[0]) && !IsTrimmable(r[|r| - 1]))
  {
    var t := TrimStart(s);
    var r := TrimEnd(t);
    assert r != [] ==> r[0] == t[0];
    r
  }

  function SkipSpaces(s: string): (r: string)
    ensures |r| <= |s| && r == s[|s| - |r|..]
    ensures r == [] || !IsSpace(r[0])
  {
    if s != [] && IsSpace(s[0]) then SkipSpaces(s[1..]) else s
  }

  /** Length of the longest prefix of `s` without a `\s` character. */
  function WordLength(s: string): (n: nat)
    ensures n <= |s|
    ensures forall i :: 0 <= i < n ==> !IsSpace(s[i])
    ensures n == |s| || IsSpace(s[n])
  {
    if s == [] || IsSpace(s[0]) then 0 else 1 + WordLength(s[1..])
  }

  /** The maximal runs of non-`\s` characters of `s`, left to right. */
  function Words(s: string): (ws: seq<string>)
    decreases |s|
  {
    var t := SkipSpaces(s);
    if t == [] then []
    else
      var n := WordLength(t);
      [t[..n]] + Words(t[n..])
  }

  /**
   * `s.trim().split("\\s+")`. After `trim` the string neither starts nor ends with a `\s`
   * character, so Java's split yields exactly the maximal non-space runs, except that an
   * empty string splits into one empty token.
   */
  function Tokens(s: string): (ts: seq<string>)
    ensures |ts| >= 1
  {
    var t := Trim(s);
    if t == [] then [""] else Words(t)
  }

  /** Words joined by single spaces: the canonical rendering of a token list. */
  function JoinSpaced(ws: seq<string>): string
  {
    if ws == [] then "" else if |ws| == 1 then ws[0] else ws[0] + (" " + JoinSpaced(ws[1..]))
  }

  lemma {:induction false} WordLengthOfToken(w: string, rest: string)
    requires forall i :: 0 <= i < |w| ==> !IsSpace(w[i])
    requires rest == [] || IsSpace(rest[0])
    ensures WordLength(w + rest) == |w|
    decreases |w|
  {
    if w != [] {
      assert (w + rest)[1..] == w[1..] + rest;
      WordLengthOfToken(w[1..], rest);
    } else {
      assert w + rest == rest;
    }
  }

  /** A word followed by nothing or by a space run splits off as the first word. */
  lemma WordsCons(w: string, rest: string)
    requires IsToken(w)
    requires rest == [] || IsSpace(rest[0])
    ensures Words(w + rest) == [w] + Words(rest)
  {
    assert forall i :: 0 <= i < |w| ==> !IsSpace(w[i]);
    var s := w + rest;
    assert s[0] == w[0];
    assert SkipSpaces(s) == s;
    WordLengthOfToken(w, rest);
    assert s[..|w|] == w;
    assert s[|w|..] == rest;
  }

  lemma WordsOfJoinStep(w: string, tail: seq<string>)
    requires IsToken(w) && tail != []
    ensures Words(JoinSpaced([w] + tail)) == [w] + Words(JoinSpaced(tail))
  {
    var rest := " " + JoinSpaced(tail);
    assert ([w] + tail)[1..] == tail;
    assert JoinSpaced([w] + tail) == w + rest;
    WordsCons(w, rest);
    WordsSkipLeadingSpace(JoinSpaced(tail));
  }

  lemma WordsOfSingle(w: string)
    requires IsToken(w)
    ensures Words(JoinSpaced([w])) == [w]
  {
    WordsCons(w, []);
    assert w + [] == w;
  }

  lemma AllTokensTail(ws: seq<string>)
    requires ws != [] && AllTokens(ws)
    ensures IsToken(ws[0]) && AllTokens(ws[1..])
  {
    var tail := ws[1..];
    forall i | 0 <= i < |tail| ensures IsToken(tail[i]) {
      assert tail[i] == ws[i + 1];
    }
  }

  lemma {:induction false} WordsOfJoin(ws: seq<string>)
    requires AllTokens(ws)
    ensures Words(JoinSpaced(ws)) == ws
    decreases |ws|
  {
    if ws == [] {
    } else if |ws| == 1 {
      var w := ws[0];
      assert ws == [w];
      WordsOfSingle(w);
    } else {
      var w, tail := ws[0], ws[1..];
      assert ws == [w] + tail;
      AllTokensTail(ws);
      WordsOfJoin(tail);
      WordsOfJoinStep(w, tail);
    }
  }

  lemma WordsSkipLeadingSpace(s: string)
    ensures Words(" " + s) == Words(s)
  {
    assert (" " + s)[1..] == s;
  }

  lemma {:induction false} JoinEnds(ws: seq<string>)
    requires |ws| >= 1
    requires AllTokens(ws)
    ensures var j := JoinSpaced(ws); j != [] && !IsTrimmable(j[0]) && !IsTrimmable(j[|j| - 1])
    decreases |ws|
  {
    if |ws| > 1 {
      JoinEnds(ws[1..]);
      var t := JoinSpaced(ws[1..]);
      var j := ws[0] + (" " + t);
      assert JoinSpaced(ws) == j;
      assert j[0] == ws[0][0];
      assert j[|j| - 1] == t[|t| - 1];
    }
  }

  lemma ThreeTokens(verb: string, symbol: string, number: string)
    requires IsToken(verb) && IsToken(symbol) && IsToken(number)
    ensures AllTokens([verb, symbol, number])
  {
    var parts := [verb, symbol, number];
    assert parts[0] == verb && parts[1] == symbol && parts[2] == number;
  }

  /** A string of trimmable characters only trims to nothing, and so splits into one empty token. */
  lemma {:induction false} BlankTrimsToEmpty(s: string)
    requires forall i :: 0 <= i < |s| ==> IsTrimmable(s[i])
    ensures Trim(s) == [] && Tokens(s) == [""]
    decreases |s|
  {
    if s != [] {
      var rest := s[1..];
      forall i | 0 <= i < |rest| ensures IsTrimmable(rest[i]) {
        assert rest[i] == s[i + 1];
      }
      BlankTrimsToEmpty(rest);
      assert TrimStart(s) == TrimStart(rest);
    }
  }

  /** Tokenising a message rendered from well-formed tokens gives those tokens back. */
  lemma TokensOfJoin(ws: seq<string>)
    requires |ws| >= 1
    requires AllTokens(ws)
    ensures Tokens(JoinSpaced(ws)) == ws
  {
    var j := JoinSpaced(ws);
    JoinEnds(ws);
    assert TrimStart(j) == j;
    assert TrimEnd(j) == j;
    WordsOfJoin(ws);
  }

  /** A non-empty run of characters outside `\s`: what `split("\\s+")` yields between separators. */
  predicate IsRun(w: string)
  {
    w != [] && forall i :: 0 <= i < |w| ==> !IsSpace(w[i])
  }

  lemma {:induction false} WordsAreRuns(s: string)
    ensures forall w :: w in Words(s) ==> IsRun(w)
    decreases |s|
  {
    var t := SkipSpaces(s);
    if t != [] {
      var n := WordLength(t);
      var first, rest := t[..n], Words(t[n..]);
      assert IsRun(first) by {
        assert n > 0;
        forall i | 0 <= i < n ensures !IsSpace(first[i]) {
          assert first[i] == t[i];
        }
      }
      WordsAreRuns(t[n..]);
      assert Words(s) == [first] + rest;
      forall w | w in [first] + rest ensures IsRun(w) {
        if w != first {
          assert w in rest;
        }
      }
    }
  }

  /** Apart from the single empty token of a blank message, every token is a run. */
  lemma TokensAreRuns(s: string)
    ensures Tokens(s) == [""] || forall w :: w in Tokens(s) ==> IsRun(w)
  {
    WordsAreRuns(Trim(s));
  }

  /** `a.compareTo(b) <= 0`: lexicographic order on characters, a prefix first. */
  predicate LexLe(a: string, b: string)
  {
    if a == [] then true
    else if b == [] then false
    else if a[0] != b[0] then a[0] < b[0]
    else LexLe(a[1..], b[1..])
  }

  lemma {:induction false} LexLeTotal(a: string, b: string)
    ensures LexLe(a, b) || LexLe(b, a)
    decreases |a|
  {
    if a != [] && b != [] && a[0] == b[0] {
      LexLeTotal(a[1..], b[1..]);
    }
  }

  lemma {:induction false} LexLeTransitive(a: string, b: string, c: string)
    requires LexLe(a, b) && LexLe(b, c)
    ensures LexLe(a, c)
    decreases |a|
  {
    if a != [] && b != [] && c != [] && a[0] == b[0] && b[0] == c[0] {
      LexLeTransitive(a[1..], b[1..], c[1..]);
    }
  }
}
