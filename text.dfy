/** The JavaScript string operations the core relies on: `trim`, `indexOf`,
    `includes`, `replace` with a string pattern, `replace` with a global
    character class, `startsWith` and `split`. Strings are sequences of
    UTF-16 code units in JavaScript; here they are sequences of characters. */
module Text {
  import opened Wrappers

  /** WhiteSpace and LineTerminator code points of ECMAScript (section 12.2
      and 12.3 of ECMA-262): the characters `trim` removes and `parseInt` skips. */
  predicate IsSpace(c: char) {
    || c == ' ' || c == '\t' || c == '\n' || c == '\r' || c == '\U{B}' || c == '\U{C}'
    || c == '\U{A0}' || c == '\U{1680}' || ('\U{2000}' <= c <= '\U{200A}')
    || c == '\U{2028}' || c == '\U{2029}' || c == '\U{202F}' || c == '\U{205F}'
    || c == '\U{3000}' || c == '\U{FEFF}'
  }

  predicate IsDigit(c: char) {
    '0' <= c <= '9'
  }

  /** No whitespace at either end: what `trim` guarantees. */
  predicate IsTrimmed(s: string) {
    s == [] || (!IsSpace(s[0]) && !IsSpace(s[|s| - 1]))
  }

  /** `trimStart`: the suffix left after dropping leading whitespace. */
  function TrimStart(s: string): (r: string)
    ensures |r| <= |s| && r == s[|s| - |r|..]
    ensures r == [] || !IsSpace(r[0])
    ensures forall i :: 0 <= i < |s| - |r| ==> IsSpace(s[i])
  {
    if |s| > 0 && IsSpace(s[0]) then TrimStart(s[1..]) else s
  }

  /** `trimEnd`: the prefix left after dropping trailing whitespace. */
  function TrimEnd(s: string): (r: string)
    ensures |r| <= |s| && r == s[..|r|]
    ensures r == [] || !IsSpace(r[|r| - 1])
    ensures forall i :: |r| <= i < |s| ==> IsSpace(s[i])
  {
    if |s| > 0 && IsSpace(s[|s| - 1]) then TrimEnd(s[..|s| - 1]) else s
  }

  /** `String.prototype.trim`. The result is the substring of `s` that starts
      after its leading whitespace and has no whitespace at either end. */
  function Trim(s: string): (r: string)
    ensures IsTrimmed(r)
    ensures |r| <= |TrimStart(s)| && r == TrimStart(s)[..|r|]
    ensures forall i :: |r| <= i < |TrimStart(s)| ==> IsSpace(TrimStart(s)[i])
  {
    TrimEnd(TrimStart(s))
  }

  /** Trimming something already trimmed changes nothing. */
  lemma TrimOfTrimmed(s: string)
    requires IsTrimmed(s)
    ensures Trim(s) == s
  {
  }

  lemma TrimIdempotent(s: string)
    ensures Trim(Trim(s)) == Trim(s)
  {
    TrimOfTrimmed(Trim(s));
  }

  /** A string of whitespace only trims to the empty string, and only such a string does. */
  lemma TrimEmptyIff(s: string)
    ensures Trim(s) == [] <==> forall i :: 0 <= i < |s| ==> IsSpace(s[i])
  {
    if Trim(s) == [] {
      assert TrimStart(s) == [];
    }
  }

  /** Trimming never introduces a character. */
  lemma TrimKeepsOut(s: string, c: char)
    requires c !in s
    ensures c !in Trim(s)
  {
    var t := TrimStart(s);
    SliceKeepsOut(s, |s| - |t|, |s|, c);
    SliceKeepsOut(t, 0, |Trim(s)|, c);
  }

  /** A slice holds no character its sequence does not. */
  lemma SliceKeepsOut(s: string, a: nat, b: nat, c: char)
    requires a <= b <= |s|
    requires c !in s
    ensures c !in s[a..b]
  {
    forall k | 0 <= k < b - a ensures s[a..b][k] != c {
      assert s[a..b][k] == s[a + k];
      assert s[a + k] in s;
    }
  }

  /** `pat` occurs in `s` starting at index `k`. */
  predicate OccursAt(s: string, pat: string, k: int) {
    0 <= k && k + |pat| <= |s| && s[k..k + |pat|] == pat
  }

  /** `s.indexOf(pat, from)`: the first index at or after `from` where `pat`
      occurs, or `None` where JavaScript gives -1. */
  function IndexOf(s: string, pat: string, from: nat): (r: Option<nat>)
    ensures r.Some? ==> from <= r.value && OccursAt(s, pat, r.value)
    ensures r.Some? ==> forall k :: from <= k < r.value ==> !OccursAt(s, pat, k)
    ensures r.None? ==> forall k :: from <= k ==> !OccursAt(s, pat, k)
    decreases |s| - from
  {
    if from + |pat| > |s| then None
    else if s[from..from + |pat|] == pat then Some(from)
    else IndexOf(s, pat, from + 1)
  }

  /** A one-character pattern occurs exactly where that character is. */
  lemma OccursAtChar(s: string, c: char, k: int)
    ensures OccursAt(s, [c], k) <==> 0 <= k < |s| && s[k] == c
  {
    if 0 <= k < |s| {
      assert s[k..k + 1] == [s[k]];
    }
  }

  /** `s.includes(c)` for one character agrees with `indexOf`. */
  lemma IndexOfCharNone(s: string, c: char, from: nat)
    ensures IndexOf(s, [c], from).None? <==> forall k :: from <= k < |s| ==> s[k] != c
  {
    if IndexOf(s, [c], from).Some? {
      OccursAtChar(s, c, IndexOf(s, [c], from).value);
    } else {
      forall k | from <= k < |s| ensures s[k] != c {
        OccursAtChar(s, c, k);
      }
    }
  }

  /** `s.replace(pat, rep)` with a string pattern: only the first occurrence is replaced. */
  function ReplaceFirst(s: string, pat: string, rep: string): (r: string)
    ensures IndexOf(s, pat, 0).None? ==> r == s
    ensures IndexOf(s, pat, 0).Some? ==>
      var i := IndexOf(s, pat, 0).value;
      r == s[..i] + rep + s[i + |pat|..]
  {
    match IndexOf(s, pat, 0)
    case None => s
    case Some(i) => s[..i] + rep + s[i + |pat|..]
  }

  /** `s.replace(/[...]/g, '')`: every character of `cs` removed, the others kept in order. */
  function RemoveChars(s: string, cs: set<char>): (r: string)
    ensures |r| <= |s|
    ensures forall k :: 0 <= k < |r| ==> r[k] !in cs && r[k] in s
  {
    if s == [] then []
    else if s[0] in cs then RemoveChars(s[1..], cs)
    else [s[0]] + RemoveChars(s[1..], cs)
  }

  /** Every character that is not removed keeps its number of occurrences. */
  lemma {:induction false} RemoveCharsCounts(s: string, cs: set<char>)
    ensures forall c :: c !in cs ==> multiset(RemoveChars(s, cs))[c] == multiset(s)[c]
  {
    if s != [] {
      assert s == [s[0]] + s[1..];
      RemoveCharsCounts(s[1..], cs);
    }
  }

  /** Removing characters distributes over concatenation. */
  lemma {:induction false} RemoveCharsAppend(s: string, t: string, cs: set<char>)
    ensures RemoveChars(s + t, cs) == RemoveChars(s, cs) + RemoveChars(t, cs)
  {
    if s == [] {
      assert s + t == t;
    } else {
      var u := s + t;
      assert u[0] == s[0] && u[1..] == s[1..] + t;
      RemoveCharsAppend(s[1..], t, cs);
      var rest := RemoveChars(s[1..] + t, cs);
      if s[0] in cs {
        assert RemoveChars(u, cs) == rest;
      } else {
        assert RemoveChars(u, cs) == [s[0]] + rest;
        assert RemoveChars(s, cs) == [s[0]] + RemoveChars(s[1..], cs);
      }
    }
  }

  /** Removing characters that do not occur changes nothing. */
  lemma {:induction false} RemoveCharsAbsent(s: string, cs: set<char>)
    requires forall k :: 0 <= k < |s| ==> s[k] !in cs
    ensures RemoveChars(s, cs) == s
  {
    if s != [] {
      RemoveCharsAbsent(s[1..], cs);
    }
  }

  /** `s.startsWith(p)`. */
  predicate StartsWith(s: string, p: string) {
    |p| <= |s| && s[..|p|] == p
  }

  /** `s.split(sep)[0]` and `s.split(sep)[1]` for a one-character separator that
      occurs in `s`: the text before the first separator, and the text between
      it and the next one (or the end). */
  function SplitFirstTwo(s: string, sep: char): (r: (string, string))
    requires sep in s
    ensures var i := FirstOf(s, sep);
      i < |s| && r == (s[..i], s[i + 1..NextOf(s, i + 1, sep)])
    ensures sep !in r.0 && sep !in r.1
  {
    var i := FirstOf(s, sep);
    var j := NextOf(s, i + 1, sep);
    SliceAvoids(s, i + 1, j, sep);
    (s[..i], s[i + 1..j])
  }

  /** A slice of characters none of which is `c` does not contain `c`. */
  lemma SliceAvoids(s: string, a: nat, b: nat, c: char)
    requires a <= b <= |s|
    requires forall k :: a <= k < b ==> s[k] != c
    ensures c !in s[a..b]
  {
    forall k | 0 <= k < b - a ensures s[a..b][k] != c {
      assert s[a..b][k] == s[a + k];
    }
  }

  /** Index of the first `c` at or after `k`, or `|s|`. */
  function NextOf(s: string, k: nat, c: char): (j: nat)
    requires k <= |s|
    ensures k <= j <= |s|
    ensures forall m :: k <= m < j ==> s[m] != c
    ensures j == |s| || s[j] == c
    decreases |s| - k
  {
    if k == |s| || s[k] == c then k else NextOf(s, k + 1, c)
  }

  /** Index of the first occurrence of `c` in `s`. */
  function FirstOf(s: string, c: char): (i: nat)
    requires c in s
    ensures i < |s| && s[i] == c
    ensures c !in s[..i]
  {
    if s[0] == c then 0 else FirstOf(s[1..], c) + 1
  }

  /** End of the run of characters satisfying `p` that starts at `i`. */
  function SpanEnd(s: string, i: nat, p: char -> bool): (j: nat)
    requires i <= |s|
    ensures i <= j <= |s|
    ensures forall k :: i <= k < j ==> p(s[k])
    ensures j == |s| || !p(s[j])
    decreases |s| - i
  {
    if i == |s| || !p(s[i]) then i else SpanEnd(s, i + 1, p)
  }

  /** Index of the first character at or after `i` that satisfies `p`, or `|s|`. */
  function FindFrom(s: string, i: nat, p: char -> bool): (j: nat)
    requires i <= |s|
    ensures i <= j <= |s|
    ensures forall k :: i <= k < j ==> !p(s[k])
    ensures j == |s| || p(s[j])
    decreases |s| - i
  {
    if i == |s| || p(s[i]) then i else FindFrom(s, i + 1, p)
  }

  /** A text made only of class characters matches as a whole. */
  lemma FirstRunWhole(s: string, p: char -> bool)
    requires s != [] && forall k :: 0 <= k < |s| ==> p(s[k])
    ensures FirstRun(s, p) == Some((0, |s|))
  {
    assert FindFrom(s, 0, p) == 0;
  }

  /** The match of the regular expression `/[C]+/` (for the character class
      `p`) that JavaScript's `match` reports: the leftmost run, taken as long
      as it goes. */
  function FirstRun(s: string, p: char -> bool): (r: Option<(nat, nat)>)
    ensures r.None? <==> forall k :: 0 <= k < |s| ==> !p(s[k])
    ensures r.Some? ==> r.value.0 < r.value.1 <= |s|
    ensures r.Some? ==> forall k :: r.value.0 <= k < r.value.1 ==> p(s[k])
    ensures r.Some? ==> forall k :: 0 <= k < r.value.0 ==> !p(s[k])
    ensures r.Some? ==> r.value.1 == |s| || !p(s[r.value.1])
  {
    var i := FindFrom(s, 0, p);
    if i == |s| then None else Some((i, SpanEnd(s, i, p)))
  }
}
