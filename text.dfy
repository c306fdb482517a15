/**
 * The string operations the components use: JavaScript's `\s` class, ASCII
 * lower-casing, `includes`, `replace(/\s+/g, r)`, `trim` and `split(' ')`.
 * Strings are sequences of characters, one `char` per Unicode scalar value;
 * JavaScript counts UTF-16 code units instead, which differ only past U+FFFF.
 */
module Text {

  /** The characters JavaScript's regular-expression class `\s` matches (and `trim` removes). */
  predicate IsWhitespace(c: char) {
    || c == ' ' || c == '\t' || c == '\n' || c == '\r' || c == '\U{000B}' || c == '\U{000C}'
    || c == '\U{00A0}' || c == '\U{1680}' || ('\U{2000}' <= c <= '\U{200A}')
    || c == '\U{2028}' || c == '\U{2029}' || c == '\U{202F}' || c == '\U{205F}'
    || c == '\U{3000}' || c == '\U{FEFF}'
  }

  predicate NoWhitespace(s: string) {
    forall i :: 0 <= i < |s| ==> !IsWhitespace(s[i])
  }

  // ---------------------------------------------------------------- lower case

  function LowerChar(c: char): (d: char)
    ensures 'A' <= c <= 'Z' ==> d as int == c as int + 32
    ensures !('A' <= c <= 'Z') ==> d == c
  {
    if 'A' <= c <= 'Z' then (c as int + 32) as char else c
  }

  /** `s.toLowerCase()`, on the ASCII letters. */
  function Lower(s: string): (r: string)
    ensures |r| == |s|
    ensures forall i :: 0 <= i < |s| ==> r[i] == LowerChar(s[i])
  {
    if s == [] then [] else [LowerChar(s[0])] + Lower(s[1..])
  }

  lemma {:induction false} LowerIdempotent(s: string)
    ensures Lower(Lower(s)) == Lower(s)
  {
    if s != [] {
      LowerIdempotent(s[1..]);
      assert Lower(s)[1..] == Lower(s[1..]);
    }
  }

  /** Lower-casing works character by character, so it distributes over concatenation. */
  lemma LowerAppend(a: string, b: string)
    ensures Lower(a + b) == Lower(a) + Lower(b)
  {
    var l := Lower(a + b);
    var r := Lower(a) + Lower(b);
    forall i | 0 <= i < |l| ensures l[i] == r[i] {
      assert l[i] == LowerChar((a + b)[i]);
      if i < |a| {
        assert (a + b)[i] == a[i];
        assert r[i] == Lower(a)[i];
      } else {
        assert (a + b)[i] == b[i - |a|];
        assert r[i] == Lower(b)[i - |a|];
      }
    }
  }

  // ---------------------------------------------------------------- includes

  /** `s.includes(sub)`: `sub` occurs in `s` as a contiguous block. */
  predicate Contains(s: string, sub: string) {
    sub <= s || (s != [] && Contains(s[1..], sub))
  }

  /** `sub` starts at index `i` of `s`. */
  predicate OccursAt(s: string, sub: string, i: nat) {
    i + |sub| <= |s| && s[i..i + |sub|] == sub
  }

  /** `Contains` agrees with the positional reading: `sub` starts at some index of `s`. */
  lemma {:induction false} ContainsAt(s: string, sub: string)
    ensures Contains(s, sub) <==> exists i: nat :: OccursAt(s, sub, i)
  {
    if sub <= s {
      assert OccursAt(s, sub, 0);
    } else if s == [] {
    } else {
      ContainsAt(s[1..], sub);
      if Contains(s[1..], sub) {
        var i: nat :| OccursAt(s[1..], sub, i);
        OccursShift(s, sub, i);
      }
      if exists i: nat :: OccursAt(s, sub, i) {
        var i: nat :| OccursAt(s, sub, i);
        OccursAtStart(s, sub);
        OccursShift(s, sub, i - 1);
      }
    }
  }

  lemma OccursAtStart(s: string, sub: string)
    ensures OccursAt(s, sub, 0) <==> sub <= s
  {
  }

  lemma OccursShift(s: string, sub: string, i: nat)
    requires s != []
    ensures OccursAt(s[1..], sub, i) <==> OccursAt(s, sub, i + 1)
  {
    if i + |sub| <= |s| - 1 {
      assert s[1..][i..i + |sub|] == s[i + 1..i + 1 + |sub|];
    }
  }

  lemma ContainsEmpty(s: string)
    ensures Contains(s, "")
  {
  }

  lemma ContainsSelf(s: string)
    ensures Contains(s, s)
  {
    assert s <= s;
  }

  /** Whatever contains a longer block contains every block inside it. */
  lemma ContainsInfix(s: string, sub: string, i: nat, j: nat)
    requires i <= j <= |sub|
    requires Contains(s, sub)
    ensures Contains(s, sub[i..j])
  {
    ContainsAt(s, sub);
    var k: nat :| OccursAt(s, sub, k);
    assert k + j <= |s|;
    forall t | 0 <= t < j - i ensures s[k + i..k + j][t] == sub[i..j][t] {
      assert s[k + i + t] == s[k..k + |sub|][i + t];
    }
    assert s[k + i..k + j] == sub[i..j];
    assert OccursAt(s, sub[i..j], k + i);
    ContainsAt(s, sub[i..j]);
  }

  // ---------------------------------------------------------------- replace(/\s+/g, r)

  /** `s` without its leading run of whitespace. */
  function DropWhitespace(s: string): (r: string)
    ensures |r| <= |s|
    ensures s != [] && IsWhitespace(s[0]) ==> |r| < |s|
    ensures r == [] || !IsWhitespace(r[0])
    ensures r == s[|s| - |r|..]
    ensures forall i :: 0 <= i < |s| - |r| ==> IsWhitespace(s[i])
  {
    if s != [] && IsWhitespace(s[0]) then
      var r := DropWhitespace(s[1..]);
      assert s[1..][|s| - 1 - |r|..] == s[|s| - |r|..];
      assert forall i :: 1 <= i < |s| - |r| ==> s[i] == s[1..][i - 1];
      r
    else s
  }

  /** `s.replace(/\s+/g, sep)`: every maximal run of whitespace becomes one `sep`. */
  function ReplaceWhitespaceRuns(s: string, sep: string): string
    decreases |s|
  {
    if s == [] then []
    else if IsWhitespace(s[0]) then sep + ReplaceWhitespaceRuns(DropWhitespace(s), sep)
    else [s[0]] + ReplaceWhitespaceRuns(s[1..], sep)
  }

  /** With a whitespace-free separator the result holds no whitespace at all. */
  lemma {:induction false} ReplaceLeavesNoWhitespace(s: string, sep: string)
    requires NoWhitespace(sep)
    ensures NoWhitespace(ReplaceWhitespaceRuns(s, sep))
    decreases |s|
  {
    if s == [] {
    } else if IsWhitespace(s[0]) {
      ReplaceLeavesNoWhitespace(DropWhitespace(s), sep);
    } else {
      ReplaceLeavesNoWhitespace(s[1..], sep);
    }
  }

  /** A string without whitespace comes back unchanged. */
  lemma {:induction false} ReplaceIdentity(s: string, sep: string)
    requires NoWhitespace(s)
    ensures ReplaceWhitespaceRuns(s, sep) == s
  {
    if s != [] {
      ReplaceIdentity(s[1..], sep);
    }
  }

  /** A one-character separator never makes the string longer. */
  lemma {:induction false} ReplaceNoLonger(s: string, sep: string)
    requires |sep| <= 1
    ensures |ReplaceWhitespaceRuns(s, sep)| <= |s|
    decreases |s|
  {
    if s == [] {
    } else if IsWhitespace(s[0]) {
      ReplaceNoLonger(DropWhitespace(s), sep);
    } else {
      ReplaceNoLonger(s[1..], sep);
    }
  }

  /** Each run is replaced as a whole: a word, a run of whitespace and the rest. */
  lemma {:induction false} ReplaceRun(word: string, run: string, rest: string, sep: string)
    requires NoWhitespace(word)
    requires run != [] && forall i :: 0 <= i < |run| ==> IsWhitespace(run[i])
    requires rest == [] || !IsWhitespace(rest[0])
    ensures ReplaceWhitespaceRuns(word + run + rest, sep)
         == word + sep + ReplaceWhitespaceRuns(rest, sep)
    decreases |word|
  {
    if word == [] {
      assert word + run + rest == run + rest;
      assert word + sep == sep;
      ReplaceAtRun(run, rest, sep);
    } else {
      var w := word[1..];
      NoWhitespaceTail(word);
      ReplaceRun(w, run, rest, sep);
      ConsAssoc(word, run, rest);
      ReplaceStep(word[0], w + run + rest, sep);
      ConsAssoc(word, sep, ReplaceWhitespaceRuns(rest, sep));
    }
  }

  lemma NoWhitespaceAppend(a: string, b: string)
    requires NoWhitespace(a) && NoWhitespace(b)
    ensures NoWhitespace(a + b)
  {
    forall i | 0 <= i < |a + b| ensures !IsWhitespace((a + b)[i]) {
      if i < |a| {
        assert (a + b)[i] == a[i];
      } else {
        assert (a + b)[i] == b[i - |a|];
      }
    }
  }

  lemma NoWhitespaceTail(s: string)
    requires s != [] && NoWhitespace(s)
    ensures NoWhitespace(s[1..])
  {
    forall i | 0 <= i < |s| - 1 ensures !IsWhitespace(s[1..][i]) {
      assert s[1..][i] == s[i + 1];
    }
  }

  lemma ConsAssoc(a: string, b: string, c: string)
    requires a != []
    ensures a + b + c == [a[0]] + (a[1..] + b + c)
  {
  }

  lemma ReplaceAtRun(run: string, rest: string, sep: string)
    requires run != [] && forall i :: 0 <= i < |run| ==> IsWhitespace(run[i])
    requires rest == [] || !IsWhitespace(rest[0])
    ensures ReplaceWhitespaceRuns(run + rest, sep) == sep + ReplaceWhitespaceRuns(rest, sep)
  {
    assert (run + rest)[0] == run[0];
    DropRun(run, rest);
  }

  lemma ReplaceStep(c: char, t: string, sep: string)
    requires !IsWhitespace(c)
    ensures ReplaceWhitespaceRuns([c] + t, sep) == [c] + ReplaceWhitespaceRuns(t, sep)
  {
    assert ([c] + t)[1..] == t;
  }

  lemma {:induction false} DropRun(run: string, rest: string)
    requires forall i :: 0 <= i < |run| ==> IsWhitespace(run[i])
    requires rest == [] || !IsWhitespace(rest[0])
    ensures DropWhitespace(run + rest) == rest
  {
    if run != [] {
      assert (run + rest)[1..] == run[1..] + rest;
      DropRun(run[1..], rest);
    } else {
      assert run + rest == rest;
    }
  }

  // ---------------------------------------------------------------- trim

  /** `s.trim()`: the string without leading and trailing whitespace. */
  function Trim(s: string): (r: string)
    ensures r == [] || (!IsWhitespace(r[0]) && !IsWhitespace(r[|r| - 1]))
  {
    var d := DropWhitespace(s);
    var r := TrimEnd(d);
    assert r != [] ==> r[0] == d[0];
    r
  }

  /** What `trim()` keeps is a piece of the input, starting after its leading whitespace. */
  lemma TrimOccurs(s: string)
    ensures OccursAt(s, Trim(s), |s| - |DropWhitespace(s)|)
  {
    PrefixOfSuffix(s, DropWhitespace(s), Trim(s));
  }

  lemma PrefixOfSuffix(s: string, d: string, r: string)
    requires |d| <= |s| && d == s[|s| - |d|..] && r <= d
    ensures OccursAt(s, r, |s| - |d|)
  {
    assert r == d[..|r|];
  }

  function TrimEnd(s: string): (r: string)
    ensures r <= s
    ensures r == [] || !IsWhitespace(r[|r| - 1])
    ensures forall i :: |r| <= i < |s| ==> IsWhitespace(s[i])
  {
    if s != [] && IsWhitespace(s[|s| - 1]) then TrimEnd(s[..|s| - 1]) else s
  }

  /** `trim()` yields the empty string exactly when the input is all whitespace. */
  lemma TrimEmptyIff(s: string)
    ensures Trim(s) == [] <==> forall i :: 0 <= i < |s| ==> IsWhitespace(s[i])
  {
    var d := DropWhitespace(s);
    assert d != [] ==> !IsWhitespace(d[0]) && d[0] == s[|s| - |d|];
  }

  lemma {:induction false} TrimIdempotent(s: string)
    ensures Trim(Trim(s)) == Trim(s)
  {
    var t := Trim(s);
    assert DropWhitespace(t) == t;
    assert TrimEnd(t) == t;
  }

  // ---------------------------------------------------------------- split(' ')

  /** `s.split(sep)` for a one-character separator: the pieces between separators. */
  function Split(s: string, sep: char): (parts: seq<string>)
    ensures |parts| >= 1
    ensures forall k, i :: 0 <= k < |parts| && 0 <= i < |parts[k]| ==> parts[k][i] != sep
  {
    if s == [] then [[]]
    else
      var rest := Split(s[1..], sep);
      if s[0] == sep then [[]] + rest
      else [[s[0]] + rest[0]] + rest[1..]
  }

  /** `parts.join(sep)`. */
  function Join(parts: seq<string>, sep: char): string
    requires |parts| >= 1
  {
    if |parts| == 1 then parts[0] else parts[0] + [sep] + Join(parts[1..], sep)
  }

  /** Splitting and joining with the same separator gives the string back. */
  lemma {:induction false} JoinSplit(s: string, sep: char)
    ensures Join(Split(s, sep), sep) == s
  {
    if s != [] {
      JoinSplit(s[1..], sep);
      var rest := Split(s[1..], sep);
      if s[0] == sep {
        JoinEmptyFirst(rest, sep);
      } else {
        JoinExtendFirst(s[0], rest, sep);
      }
      assert s == [s[0]] + s[1..];
    }
  }

  lemma JoinEmptyFirst(rest: seq<string>, sep: char)
    requires |rest| >= 1
    ensures Join([[]] + rest, sep) == [sep] + Join(rest, sep)
  {
    assert ([[]] + rest)[1..] == rest;
  }

  lemma JoinExtendFirst(c: char, rest: seq<string>, sep: char)
    requires |rest| >= 1
    ensures Join([[c] + rest[0]] + rest[1..], sep) == [c] + Join(rest, sep)
  {
    var parts := [[c] + rest[0]] + rest[1..];
    assert parts[1..] == rest[1..];
  }

  /** A separator at the end of the input leaves an empty last piece. */
  lemma {:induction false} SplitTrailing(s: string, sep: char)
    ensures Split(s + [sep], sep)[|Split(s + [sep], sep)| - 1] == []
  {
    if s == [] {
      assert [] + [sep] == [sep];
      assert Split([sep][1..], sep) == [[]];
    } else {
      assert (s + [sep])[1..] == s[1..] + [sep];
      SplitTrailing(s[1..], sep);
    }
  }

  /** Two separators in a row leave an empty piece between them. */
  lemma {:induction false} SplitDouble(a: string, b: string, sep: char)
    ensures exists k :: 1 <= k < |Split(a + [sep, sep] + b, sep)| && Split(a + [sep, sep] + b, sep)[k] == []
  {
    var parts := Split(a + [sep, sep] + b, sep);
    if a == [] {
      assert a + [sep, sep] + b == [sep] + ([sep] + b);
      assert ([sep] + ([sep] + b))[1..] == [sep] + b;
      assert ([sep] + b)[1..] == b;
      assert Split([sep] + b, sep) == [[]] + Split(b, sep);
      assert parts == [[]] + Split([sep] + b, sep);
      assert parts[1] == [];
    } else {
      assert (a + [sep, sep] + b)[1..] == a[1..] + [sep, sep] + b;
      SplitDouble(a[1..], b, sep);
      var rest := Split(a[1..] + [sep, sep] + b, sep);
      var k :| 1 <= k < |rest| && rest[k] == [];
      if a[0] == sep {
        assert parts[k + 1] == [];
      } else {
        assert parts[k] == [];
      }
    }
  }
}
