/** String helpers shared by the KML builder and the date cleaner. */
module Text {

  /** Python's `''.join(parts)`: the parts, concatenated in order. */
  function Concat(parts: seq<string>): string
  {
    if parts == [] then "" else Concat(parts[..|parts| - 1]) + parts[|parts| - 1]
  }

  lemma ConcatPush(parts: seq<string>, s: string)
    ensures Concat(parts + [s]) == Concat(parts) + s
  {
    assert (parts + [s])[..|parts|] == parts;
  }

  lemma ConcatOne(s: string)
    ensures Concat([s]) == s
  {
    assert [s][..0] == [];
  }

  lemma {:induction false} ConcatAppend(a: seq<string>, b: seq<string>)
    ensures Concat(a + b) == Concat(a) + Concat(b)
    decreases |b|
  {
    if b == [] {
      assert a + b == a;
    } else {
      var front, last := b[..|b| - 1], b[|b| - 1];
      AppendLast(a, b);
      ConcatPush(a + front, last);
      ConcatAppend(a, front);
      ConcatPush(front, last);
    }
  }

  lemma SplitAt<T>(s: seq<T>, i: int)
    requires 0 <= i < |s|
    ensures s == s[..i] + [s[i]] + s[i + 1..]
  {
  }

  /** Joining a run with one part before and one after it. */
  lemma ConcatAround(a: string, m: seq<string>, b: string)
    ensures Concat([a] + m + [b]) == a + Concat(m) + b
  {
    ConcatPush([a] + m, b);
    ConcatAppend([a], m);
    ConcatOne(a);
  }

  /** The first and last parts of a three-part concatenation. */
  lemma PrefixSuffix(a: string, m: string, b: string)
    ensures |a + m + b| >= |a| + |b|
    ensures (a + m + b)[..|a|] == a && (a + m + b)[|a + m + b| - |b|..] == b
  {
  }

  /** `a + b` with the last element of a non-empty `b` split off. */
  lemma AppendLast<T>(a: seq<T>, b: seq<T>)
    requires |b| > 0
    ensures a + b == (a + b[..|b| - 1]) + [b[|b| - 1]]
    ensures b == b[..|b| - 1] + [b[|b| - 1]]
  {
  }

  lemma TakeAll<T>(s: seq<T>)
    ensures s[..|s|] == s && s[..0] == []
  {
  }

  lemma EmptyAppend<T>(s: seq<T>)
    ensures [] + s == s
  {
  }

  lemma PairParts<T>(a: T, b: T)
    ensures [a, b][..1] == [a] && [a, b][1] == b && [a][..0] == [] && [a][0] == a
  {
  }

  lemma AppendAssoc<T>(a: seq<T>, b: seq<T>, c: seq<T>)
    ensures a + b + c == a + (b + c)
  {
  }

  /** Regrouping appends around a middle run. */
  lemma AppendAround<T>(s: seq<T>, a: T, m: seq<T>, b: T)
    ensures s + [a] + m + [b] == s + ([a] + m + [b])
  {
  }

  /** Regrouping appends made one after the other, starting from nothing, around a middle run. */
  lemma AppendFrame<T>(a: T, b: T, m: seq<T>, c: T, d: T)
    ensures [] + [a] + [b] + m + [c] + [d] == [a] + ([b] + m + [c]) + [d]
  {
  }

  /** Regrouping a five-part concatenation around its middle part. */
  lemma AssocMiddle(a: string, b: string, x: string, c: string, d: string)
    ensures a + (b + x + c) + d == (a + b) + x + (c + d)
  {
  }

  /** `x in s` for Python strings: `x` occurs somewhere in `s` as a contiguous run. */
  ghost predicate Contains(s: string, x: string)
  {
    exists i :: OccursAt(s, x, i)
  }

  /** `x` starts at index `i` of `s`. */
  predicate OccursAt(s: string, x: string, i: int)
  {
    0 <= i && i + |x| <= |s| && s[i..i + |x|] == x
  }

  lemma ContainsMiddle(a: string, x: string, b: string)
    ensures Contains(a + x + b, x)
  {
    var s := a + x + b;
    assert s[|a|..|a| + |x|] == x;
    assert OccursAt(s, x, |a|);
  }

  lemma ContainsPrefix(x: string, b: string)
    ensures Contains(x + b, x)
  {
    assert OccursAt(x + b, x, 0);
  }

  lemma ContainsSuffix(a: string, x: string)
    ensures Contains(a + x, x)
  {
    assert (a + x)[|a|..|a| + |x|] == x;
    assert OccursAt(a + x, x, |a|);
  }

  /** Containment is transitive. */
  lemma ContainsTrans(s: string, t: string, x: string)
    requires Contains(s, t) && Contains(t, x)
    ensures Contains(s, x)
  {
    var i :| OccursAt(s, t, i);
    var k :| OccursAt(t, x, k);
    assert forall n :: 0 <= n < |x| ==> s[i + k + n] == t[k + n] == x[n];
    assert OccursAt(s, x, i + k);
  }

  /** Each part appears in the joined text. */
  lemma {:induction false} ConcatContains(parts: seq<string>, k: int)
    requires 0 <= k < |parts|
    ensures Contains(Concat(parts), parts[k])
    decreases |parts|
  {
    var front, last := parts[..|parts| - 1], parts[|parts| - 1];
    if k == |parts| - 1 {
      ContainsSuffix(Concat(front), last);
    } else {
      ConcatContains(front, k);
      ContainsPrefix(Concat(front), last);
      ContainsTrans(Concat(parts), Concat(front), parts[k]);
    }
  }

  predicate IsAsciiDigit(c: char)
  {
    '0' <= c <= '9'
  }

  /** `str.upper` restricted to ASCII: a-z become A-Z, every other character is kept. */
  function UpperChar(c: char): char
  {
    if 'a' <= c <= 'z' then (c as int - 32) as char else c
  }

  function Upper(s: string): (r: string)
    ensures |r| == |s|
    ensures forall k :: 0 <= k < |s| ==> r[k] == UpperChar(s[k])
  {
    if s == [] then [] else [UpperChar(s[0])] + Upper(s[1..])
  }

  function Min(a: int, b: int): int
  {
    if a < b then a else b
  }
}
