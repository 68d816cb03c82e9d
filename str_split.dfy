/** Python's argument-less `str.split()`: the string is cut at every run of
    whitespace, and leading and trailing whitespace produce no empty tokens. */
module StrSplit {

  /** The characters CPython's `str.isspace()` accepts, which are exactly
      the separators of `str.split()` without arguments. */
  predicate IsSpace(c: char)
  {
    ('\t' <= c <= '\r') || ('\U{1C}' <= c <= ' ') || c == '\U{85}' || c == '\U{A0}'
    || c == '\U{1680}' || ('\U{2000}' <= c <= '\U{200A}') || c == '\U{2028}' || c == '\U{2029}'
    || c == '\U{202F}' || c == '\U{205F}' || c == '\U{3000}'
  }

  /** Among ASCII characters, the separators are exactly tab, line feed,
      vertical tab, form feed, carriage return, the four information
      separators 0x1C-0x1F and space. */
  lemma AsciiSpaces(c: char)
    requires (c as int) < 128
    ensures IsSpace(c) <==> c in "\t\n\U{B}\U{C}\r\U{1C}\U{1D}\U{1E}\U{1F} "
  {
  }

  /** A token as `str.split()` produces it: non-empty, without whitespace. */
  predicate IsWord(w: string)
  {
    w != [] && forall i :: 0 <= i < |w| ==> !IsSpace(w[i])
  }

  predicate AllSpace(s: string)
  {
    forall i :: 0 <= i < |s| ==> IsSpace(s[i])
  }

  /** Splitting `s` when the word read so far is `cur`: a space ends a
      pending word, any other character extends it. */
  function SplitFrom(s: string, cur: string): (words: seq<string>)
    requires forall i :: 0 <= i < |cur| ==> !IsSpace(cur[i])
    ensures forall k :: 0 <= k < |words| ==> IsWord(words[k])
    decreases |s|
  {
    if s == [] then
      (if cur == [] then [] else [cur])
    else if IsSpace(s[0]) then
      (if cur == [] then [] else [cur]) + SplitFrom(s[1..], [])
    else
      SplitFrom(s[1..], cur + [s[0]])
  }

  function Split(s: string): (words: seq<string>)
    ensures forall k :: 0 <= k < |words| ==> IsWord(words[k])
  {
    SplitFrom(s, [])
  }

  /** The inverse direction: words glued together with one blank each. */
  function Join(words: seq<string>): string
  {
    if words == [] then ""
    else if |words| == 1 then words[0]
    else words[0] + " " + Join(words[1..])
  }

  /** All characters of `s` that are not whitespace, in order. */
  function NonSpace(s: string): string
  {
    if s == [] then "" else (if IsSpace(s[0]) then "" else [s[0]]) + NonSpace(s[1..])
  }

  function Concat(words: seq<string>): string
  {
    if words == [] then "" else words[0] + Concat(words[1..])
  }

  lemma {:induction false} SplitFromAppend(a: string, sp: char, b: string, cur: string)
    requires IsSpace(sp)
    requires forall i :: 0 <= i < |cur| ==> !IsSpace(cur[i])
    ensures SplitFrom(a + [sp] + b, cur) == SplitFrom(a, cur) + Split(b)
    decreases |a|
  {
    if a == [] {
      assert a + [sp] + b == [sp] + b;
      assert ([sp] + b)[1..] == b;
    } else {
      assert (a + [sp] + b)[0] == a[0];
      assert (a + [sp] + b)[1..] == a[1..] + [sp] + b;
      if IsSpace(a[0]) {
        SplitFromAppend(a[1..], sp, b, []);
      } else {
        SplitFromAppend(a[1..], sp, b, cur + [a[0]]);
      }
    }
  }

  /** Whitespace between two strings separates their tokens: the tokens of
      the whole are the tokens of the left part followed by those of the
      right part. */
  lemma SplitAppend(a: string, sp: char, b: string)
    requires IsSpace(sp)
    ensures Split(a + [sp] + b) == Split(a) + Split(b)
  {
    SplitFromAppend(a, sp, b, []);
  }

  lemma {:induction false} SplitFromWord(w: string, cur: string)
    requires forall i :: 0 <= i < |cur| ==> !IsSpace(cur[i])
    requires forall i :: 0 <= i < |w| ==> !IsSpace(w[i])
    requires cur + w != []
    ensures SplitFrom(w, cur) == [cur + w]
    decreases |w|
  {
    if w == [] {
      assert cur + w == cur;
    } else {
      assert !IsSpace(w[0]);
      assert (cur + [w[0]]) + w[1..] == cur + w;
      SplitFromWord(w[1..], cur + [w[0]]);
    }
  }

  /** A single word splits to itself. */
  lemma SplitWord(w: string)
    requires IsWord(w)
    ensures Split(w) == [w]
  {
    SplitFromWord(w, []);
    assert [] + w == w;
  }

  /** Splitting undoes joining: the words come back exactly. */
  lemma {:induction false} SplitJoin(words: seq<string>)
    requires forall k :: 0 <= k < |words| ==> IsWord(words[k])
    ensures Split(Join(words)) == words
  {
    if words == [] {
    } else if |words| == 1 {
      SplitWord(words[0]);
    } else {
      assert IsWord(words[0]);
      SplitJoin(words[1..]);
      SplitAppend(words[0], ' ', Join(words[1..]));
      assert words[0] + " " + Join(words[1..]) == words[0] + [' '] + Join(words[1..]);
      SplitWord(words[0]);
      assert words == [words[0]] + words[1..];
    }
  }

  lemma {:induction false} SplitFromEmpty(s: string, cur: string)
    requires forall i :: 0 <= i < |cur| ==> !IsSpace(cur[i])
    ensures SplitFrom(s, cur) == [] <==> cur == [] && AllSpace(s)
    decreases |s|
  {
    if s != [] {
      if IsSpace(s[0]) {
        SplitFromEmpty(s[1..], []);
        if AllSpace(s[1..]) {
          forall i | 0 <= i < |s| ensures IsSpace(s[i]) {
            if i > 0 { assert s[i] == s[1..][i - 1]; }
          }
        }
      } else {
        SplitFromEmpty(s[1..], cur + [s[0]]);
      }
    }
  }

  /** `str.split()` yields no token exactly when the string is empty or
      consists of whitespace only. */
  lemma SplitEmpty(s: string)
    ensures Split(s) == [] <==> AllSpace(s)
  {
    SplitFromEmpty(s, []);
  }

  lemma {:induction false} SplitFromKeepsText(s: string, cur: string)
    requires forall i :: 0 <= i < |cur| ==> !IsSpace(cur[i])
    ensures Concat(SplitFrom(s, cur)) == cur + NonSpace(s)
    decreases |s|
  {
    if s == [] {
      assert cur + NonSpace(s) == cur;
      if cur != [] {
        assert Concat([cur]) == cur + Concat([]);
      }
    } else if IsSpace(s[0]) {
      SplitFromKeepsText(s[1..], []);
      var rest := SplitFrom(s[1..], []);
      if cur != [] {
        ConcatAppend([cur], rest);
        assert Concat([cur]) == cur + Concat([]);
      } else {
        assert [] + rest == rest;
      }
      assert [] + NonSpace(s[1..]) == NonSpace(s[1..]);
    } else {
      SplitFromKeepsText(s[1..], cur + [s[0]]);
      assert (cur + [s[0]]) + NonSpace(s[1..]) == cur + ([s[0]] + NonSpace(s[1..]));
    }
  }

  lemma {:induction false} ConcatAppend(u: seq<string>, v: seq<string>)
    ensures Concat(u + v) == Concat(u) + Concat(v)
  {
    if u == [] {
      assert u + v == v;
    } else {
      assert (u + v)[0] == u[0];
      assert (u + v)[1..] == u[1..] + v;
      ConcatAppend(u[1..], v);
    }
  }

  /** No character other than whitespace is lost or invented: the tokens
      laid end to end are the input with its whitespace removed. */
  lemma SplitKeepsText(s: string)
    ensures Concat(Split(s)) == NonSpace(s)
  {
    SplitFromKeepsText(s, []);
    assert [] + NonSpace(s) == NonSpace(s);
  }
}
