/**
 * The few Python `str` methods the launcher relies on, with the meaning Python gives them:
 * `strip()`, `partition(c)` / `split(c, 1)`, `split(c)`, `replace(a, b)` and the test
 * `c in s`. Characters are Unicode scalar values: a Python `str` may also hold lone
 * surrogates (U+D800 to U+DFFF), which a Dafny `char` cannot.
 */
module PyStr {
  import opened Wrappers

  /**
   * Python's `str.isspace()` on one character: the characters `strip()` drops. `int()`
   * skips all of them but U+001C to U+001F (`PyInt.IsIntSpace`).
   */
  predicate IsSpace(c: char) {
    || c == ' '
    || '\t' <= c <= '\r'
    || '\U{1C}' <= c <= '\U{1F}'
    || c == '\U{85}' || c == '\U{A0}' || c == '\U{1680}'
    || '\U{2000}' <= c <= '\U{200A}'
    || c == '\U{2028}' || c == '\U{2029}' || c == '\U{202F}' || c == '\U{205F}' || c == '\U{3000}'
  }

  /**
   * `s.lstrip()`: a suffix of `s` that does not start with white space. That only white
   * space is dropped, so that the suffix is the longest one, is `StripLeftDropsSpace`.
   */
  function StripLeft(s: string): (r: string)
    ensures |r| <= |s| && r == s[|s| - |r|..]
    ensures r != [] ==> !IsSpace(r[0])
    decreases |s|
  {
    if s != [] && IsSpace(s[0]) then StripLeft(s[1..]) else s
  }

  /**
   * `s.rstrip()`: a prefix of `s` that does not end with white space. That only white
   * space is dropped, so that the prefix is the longest one, is `StripRightDropsSpace`.
   */
  function StripRight(s: string): (r: string)
    ensures |r| <= |s| && r == s[..|r|]
    ensures r != [] ==> !IsSpace(r[|r| - 1])
    decreases |s|
  {
    if s != [] && IsSpace(s[|s| - 1]) then StripRight(s[..|s| - 1]) else s
  }

  /** `s.strip()`: `s` without its leading and trailing white space. */
  function Strip(s: string): (r: string)
    ensures r == [] || (!IsSpace(r[0]) && !IsSpace(r[|r| - 1]))
    ensures |r| <= |s|
  {
    StripRight(StripLeft(s))
  }

  /** What `lstrip()` drops is white space. */
  lemma {:induction false} StripLeftDropsSpace(s: string)
    ensures forall i :: 0 <= i < |s| - |StripLeft(s)| ==> IsSpace(s[i])
    decreases |s|
  {
    if s != [] && IsSpace(s[0]) {
      StripLeftDropsSpace(s[1..]);
      assert forall i :: 1 <= i < |s| - |StripLeft(s)| ==> s[i] == s[1..][i - 1];
    }
  }

  /** What `rstrip()` drops is white space. */
  lemma {:induction false} StripRightDropsSpace(s: string)
    ensures forall i :: |StripRight(s)| <= i < |s| ==> IsSpace(s[i])
    decreases |s|
  {
    if s != [] && IsSpace(s[|s| - 1]) {
      StripRightDropsSpace(s[..|s| - 1]);
      assert forall i :: |StripRight(s)| <= i < |s| - 1 ==> s[i] == s[..|s| - 1][i];
    }
  }

  /** A string that neither starts nor ends with white space is its own `strip()`. */
  lemma StripTrimmed(s: string)
    requires s == [] || (!IsSpace(s[0]) && !IsSpace(s[|s| - 1]))
    ensures Strip(s) == s
  {
    assert StripLeft(s) == s;
  }

  /** `strip()` is idempotent. */
  lemma StripIdempotent(s: string)
    ensures Strip(Strip(s)) == Strip(s)
  {
    StripTrimmed(Strip(s));
  }

  /** `s.find(c)` as an `Option`: the position of the first `c` in `s`. */
  function Find(s: string, c: char): (r: Option<nat>)
    ensures r.None? <==> c !in s
    ensures r.Some? ==> r.value < |s| && s[r.value] == c && c !in s[..r.value]
  {
    if s == [] then None
    else if s[0] == c then Some(0)
    else match Find(s[1..], c)
      case None => None
      case Some(i) =>
        assert s[..i + 1] == [s[0]] + s[1..][..i];
        Some(i + 1)
  }

  /**
   * `s.partition(c)` without the separator: the text before the first `c` and the text
   * after it, or `(s, "")` when `c` does not occur. When `c` occurs this is also
   * `s.split(c, 1)`.
   */
  function Partition(s: string, c: char): (r: (string, string))
    ensures c !in s ==> r == (s, "")
    ensures c in s ==> s == r.0 + [c] + r.1 && c !in r.0
  {
    match Find(s, c)
    case None => (s, "")
    case Some(i) =>
      assert s == s[..i] + [c] + s[i + 1..];
      (s[..i], s[i + 1..])
  }

  /** The separator found by `Partition` is the first one: any split at a first `c` is it. */
  lemma PartitionAt(a: string, c: char, b: string)
    requires c !in a
    ensures Partition(a + [c] + b, c) == (a, b)
  {
    var s := a + [c] + b;
    assert s[|a|] == c;
    var r := Partition(s, c);
    assert r.0 == s[..|a|] == a;
    assert r.1 == s[|a| + 1..] == b;
  }

  /** `s.split(c)`: the pieces of `s` between occurrences of `c`. */
  function Split(s: string, c: char): (r: seq<string>)
    ensures |r| >= 1
    ensures forall p :: p in r ==> c !in p
    decreases |s|
  {
    if c in s then
      var (before, after) := Partition(s, c);
      [before] + Split(after, c)
    else
      [s]
  }

  /** `c.join(ps)`. */
  function Join(ps: seq<string>, c: char): string {
    if ps == [] then ""
    else if |ps| == 1 then ps[0]
    else ps[0] + [c] + Join(ps[1..], c)
  }

  /** `split` and `join` on the same separator are inverse. */
  lemma {:induction false} JoinSplit(s: string, c: char)
    ensures Join(Split(s, c), c) == s
    decreases |s|
  {
    if c in s {
      var (before, after) := Partition(s, c);
      JoinSplit(after, c);
      assert Split(s, c) == [before] + Split(after, c);
    }
  }

  /** Splitting at a separator splits the two sides independently. */
  lemma {:induction false} SplitAppend(a: string, c: char, b: string)
    ensures Split(a + [c] + b, c) == Split(a, c) + Split(b, c)
    decreases |a|
  {
    var s := a + [c] + b;
    if c in a {
      var (a1, a2) := Partition(a, c);
      assert s == a1 + [c] + (a2 + [c] + b);
      PartitionAt(a1, c, a2 + [c] + b);
      SplitAppend(a2, c, b);
    } else {
      PartitionAt(a, c, b);
    }
  }

  /** `s.replace(from, to)` for one-character arguments. */
  function Replace(s: string, from: char, to: char): (r: string)
    ensures |r| == |s|
    ensures forall i :: 0 <= i < |s| ==> r[i] == (if s[i] == from then to else s[i])
  {
    if s == [] then []
    else [if s[0] == from then to else s[0]] + Replace(s[1..], from, to)
  }

  /** `a` is `b` with some characters taken out, the others kept in order. */
  predicate IsSubsequence(a: string, b: string)
    decreases |b|
  {
    if a == [] then true
    else if b == [] then false
    else if a[0] == b[0] then IsSubsequence(a[1..], b[1..])
    else IsSubsequence(a, b[1..])
  }

  lemma {:induction false} SubsequenceDropFirst(a: string, b: string)
    requires a != [] && IsSubsequence(a, b)
    ensures IsSubsequence(a[1..], b)
    decreases |b|, 1
  {
    if a[0] == b[0] {
      SubsequenceOfTail(a[1..], b);
    } else {
      SubsequenceDropFirst(a, b[1..]);
      SubsequenceOfTail(a[1..], b);
    }
  }

  /** Whatever is a subsequence of the tail of `b` is a subsequence of `b`. */
  lemma {:induction false} SubsequenceOfTail(a: string, b: string)
    requires b != [] && IsSubsequence(a, b[1..])
    ensures IsSubsequence(a, b)
    decreases |b|, 0
  {
    if a != [] && a[0] == b[0] {
      SubsequenceDropFirst(a, b[1..]);
    }
  }

  lemma {:induction false} SubsequenceDropLast(a: string, b: string)
    requires a != [] && IsSubsequence(a, b)
    ensures IsSubsequence(a[..|a| - 1], b)
    decreases |b|
  {
    if |a| == 1 {
    } else if a[0] == b[0] {
      SubsequenceDropLast(a[1..], b[1..]);
      assert a[1..][..|a[1..]| - 1] == a[..|a| - 1][1..];
    } else {
      SubsequenceDropLast(a, b[1..]);
    }
  }

  lemma {:induction false} StripLeftSubsequence(a: string, b: string)
    requires IsSubsequence(a, b)
    ensures IsSubsequence(StripLeft(a), b)
    decreases |a|
  {
    if a != [] && IsSpace(a[0]) {
      SubsequenceDropFirst(a, b);
      StripLeftSubsequence(a[1..], b);
    }
  }

  lemma {:induction false} StripRightSubsequence(a: string, b: string)
    requires IsSubsequence(a, b)
    ensures IsSubsequence(StripRight(a), b)
    decreases |a|
  {
    if a != [] && IsSpace(a[|a| - 1]) {
      SubsequenceDropLast(a, b);
      StripRightSubsequence(a[..|a| - 1], b);
    }
  }

  /** Stripping a subsequence of `b` leaves a subsequence of `b`. */
  lemma StripSubsequence(a: string, b: string)
    requires IsSubsequence(a, b)
    ensures IsSubsequence(Strip(a), b)
  {
    StripLeftSubsequence(a, b);
    StripRightSubsequence(StripLeft(a), b);
  }

  /** `strip()` keeps a contiguous part of its input, starting after the leading white space. */
  lemma StripInfix(s: string)
    ensures var k := |s| - |StripLeft(s)|; k + |Strip(s)| <= |s| && Strip(s) == s[k..k + |Strip(s)|]
  {
    var k := |s| - |StripLeft(s)|;
    assert Strip(s) == StripLeft(s)[..|Strip(s)|];
  }

  /** `strip()` only removes characters. */
  lemma StripKeepsCharacters(s: string)
    ensures forall c :: c in Strip(s) ==> c in s
  {
    var l := StripLeft(s);
    assert forall c :: c in l ==> c in s by {
      forall c | c in l ensures c in s {
        var k :| 0 <= k < |l| && l[k] == c;
        assert s[|s| - |l| + k] == c;
      }
    }
  }
}
