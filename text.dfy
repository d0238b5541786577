/** Option and Result, the two wrappers the model needs. */
module Wrappers {
  datatype Option<+T> = None | Some(value: T)

  datatype Result<+T, +E> = Ok(value: T) | Err(error: E)
}

/**
 * The Python `str` operations the orchestrator and its renderers rely on,
 * with the semantics CPython gives them: `in`, `find`/`index`, `replace`,
 * `count`, `join`, `translate` (deleting characters), `isdigit`/`int` on
 * ASCII digits, and `str` of an integer.
 */
module Text {

  /** `p` occurs in `t` starting at index `k` */
  predicate OccursAt(t: string, p: string, k: int)
  {
    0 <= k && k + |p| <= |t| && t[k..k + |p|] == p
  }

  /** Python `p in t` for strings */
  predicate Contains(t: string, p: string)
  {
    exists k | 0 <= k <= |t| - |p| :: OccursAt(t, p, k)
  }

  /** Python `t.find(p)`: the lowest index at which `p` occurs in `t`, or -1
      (`t.index(p)` is the same but raises where this gives -1) */
  function Find(t: string, p: string): (r: int)
    ensures -1 <= r <= |t|
    ensures r == -1 <==> !Contains(t, p)
    ensures r >= 0 ==> OccursAt(t, p, r)
    ensures r >= 0 ==> forall j :: 0 <= j < r ==> !OccursAt(t, p, j)
  {
    FindFrom(t, p, 0)
  }

  function FindFrom(t: string, p: string, i: nat): (r: int)
    requires i <= |t|
    decreases |t| - i
    ensures r == -1 || (i <= r <= |t| && OccursAt(t, p, r))
    ensures r == -1 ==> forall j :: i <= j ==> !OccursAt(t, p, j)
    ensures r >= 0 ==> forall j :: i <= j < r ==> !OccursAt(t, p, j)
  {
    if i + |p| > |t| then -1
    else if t[i..i + |p|] == p then i
    else FindFrom(t, p, i + 1)
  }

  /** Python `t.replace(p, r)` for a non-empty `p`: every occurrence found
      scanning left to right, without overlaps, is replaced */
  function Replace(t: string, p: string, r: string): string
    requires |p| > 0
    decreases |t|
  {
    if |t| < |p| then t
    else if t[..|p|] == p then r + Replace(t[|p|..], p, r)
    else [t[0]] + Replace(t[1..], p, r)
  }

  /** Python `t.count(p)` for a non-empty `p`: occurrences without overlaps */
  function Count(t: string, p: string): nat
    requires |p| > 0
    decreases |t|
  {
    if |t| < |p| then 0
    else if t[..|p|] == p then 1 + Count(t[|p|..], p)
    else Count(t[1..], p)
  }

  /** Python `sep.join(xs)` */
  function Join(xs: seq<string>, sep: string): string
  {
    if |xs| == 0 then ""
    else if |xs| == 1 then xs[0]
    else xs[0] + sep + Join(xs[1..], sep)
  }

  /** Python `"".join(xs)`, built from the right so that loops can append */
  function Concat(xs: seq<string>): string
  {
    if xs == [] then "" else Concat(xs[..|xs| - 1]) + xs[|xs| - 1]
  }

  /** Python `s.translate({ord(c): None for c in marks})`: `s` without those characters */
  function Strip(s: string, marks: set<char>): (r: string)
    ensures forall i :: 0 <= i < |r| ==> r[i] !in marks
    ensures |r| <= |s|
  {
    if s == [] then ""
    else
      var n := |s| - 1;
      if s[n] in marks then Strip(s[..n], marks) else Strip(s[..n], marks) + [s[n]]
  }

  predicate IsDigit(c: char)
  {
    '0' <= c <= '9'
  }

  /** Python `s.isdigit()` restricted to ASCII: non-empty and all digits */
  predicate IsDigits(s: string)
  {
    |s| > 0 && forall i :: 0 <= i < |s| ==> IsDigit(s[i])
  }

  function DigitChar(d: nat): (c: char)
    requires d < 10
    ensures IsDigit(c) && c as int - '0' as int == d
  {
    ('0' as int + d) as char
  }

  /** Python `int(s)` on a string of ASCII digits */
  function DigitsValue(s: string): nat
    requires forall i :: 0 <= i < |s| ==> IsDigit(s[i])
  {
    if s == [] then 0
    else
      var d := s[|s| - 1];
      assert IsDigit(d);
      DigitsValue(s[..|s| - 1]) * 10 + (d as int - '0' as int)
  }

  /** Python `str(n)` for a non-negative integer */
  function NatToString(n: nat): string
    decreases n
  {
    if n < 10 then [DigitChar(n)] else NatToString(n / 10) + [DigitChar(n % 10)]
  }

  /** Python `str(i)` */
  function IntToString(i: int): string
  {
    if i < 0 then "-" + NatToString(-i) else NatToString(i)
  }

  /** `int(str(n)) == n`: the decimal rendering reads back as the number */
  lemma {:induction false} NatToStringRoundTrip(n: nat)
    ensures IsDigits(NatToString(n))
    ensures DigitsValue(NatToString(n)) == n
    decreases n
  {
    if n >= 10 {
      NatToStringRoundTrip(n / 10);
      var s := NatToString(n);
      assert s[..|s| - 1] == NatToString(n / 10);
    }
  }

  /** a string without `p` is left alone by `replace`, so the guard
      `if z in ret_str` before a `replace` changes nothing */
  lemma {:induction false} ReplaceAbsent(t: string, p: string, r: string)
    requires |p| > 0
    requires !Contains(t, p)
    ensures Replace(t, p, r) == t
    decreases |t|
  {
    if |t| >= |p| {
      assert !OccursAt(t, p, 0);
      forall k | 0 <= k <= |t[1..]| - |p|
        ensures !OccursAt(t[1..], p, k)
      {
        assert !OccursAt(t, p, k + 1);
        assert t[1..][k..k + |p|] == t[k + 1..k + 1 + |p|];
      }
      ReplaceAbsent(t[1..], p, r);
    }
  }

  /** `replace` cannot see across a character that `p` does not contain */
  lemma {:induction false} ReplaceAround(a: string, c: char, b: string, p: string, r: string)
    requires |p| > 0 && c !in p
    ensures Replace(a + [c] + b, p, r) == Replace(a, p, r) + [c] + Replace(b, p, r)
    decreases |a|
  {
    var t := a + [c] + b;
    if |t| < |p| {
      ShortReplace(t, p, r);
      ShortReplace(a, p, r);
      ShortReplace(b, p, r);
    } else if a == [] {
      AroundFirst(c, b, p, r);
    } else if |a| < |p| {
      ReplaceAround(a[1..], c, b, p, r);
      AroundShort(a, c, b, p, r);
    } else if a[..|p|] == p {
      ReplaceAround(a[|p|..], c, b, p, r);
      AroundMatch(a, c, b, p, r);
    } else {
      ReplaceAround(a[1..], c, b, p, r);
      AroundSkip(a, c, b, p, r);
    }
  }

  lemma AroundFirst(c: char, b: string, p: string, r: string)
    requires |p| > 0 && c !in p && |[c] + b| >= |p|
    ensures Replace([] + [c] + b, p, r) == Replace([], p, r) + [c] + Replace(b, p, r)
  {
    var t := [c] + b;
    assert t[..|p|][0] == c;
    assert [] + [c] + b == t && t[1..] == b;
    ReplaceStep(t, p, r);
  }

  lemma AroundShort(a: string, c: char, b: string, p: string, r: string)
    requires |p| > 0 && c !in p && 0 < |a| < |p| <= |a| + 1 + |b|
    requires Replace(a[1..] + [c] + b, p, r) == Replace(a[1..], p, r) + [c] + Replace(b, p, r)
    ensures Replace(a + [c] + b, p, r) == Replace(a, p, r) + [c] + Replace(b, p, r)
  {
    var t, a' := a + [c] + b, a[1..];
    assert t[..|p|][|a|] == c;
    TailOf(a, c, b);
    ReplaceStep(t, p, r);
    ShortReplace(a, p, r);
    ShortReplace(a', p, r);
    ConsAssoc(a, c, Replace(b, p, r));
  }

  lemma AroundMatch(a: string, c: char, b: string, p: string, r: string)
    requires |p| > 0 && c !in p && |a| >= |p| && a[..|p|] == p
    requires Replace(a[|p|..] + [c] + b, p, r) == Replace(a[|p|..], p, r) + [c] + Replace(b, p, r)
    ensures Replace(a + [c] + b, p, r) == Replace(a, p, r) + [c] + Replace(b, p, r)
  {
    var t, a' := a + [c] + b, a[|p|..];
    assert t[..|p|] == p;
    assert t[|p|..] == a' + [c] + b;
    Assoc(r, Replace(a', p, r), [c], Replace(b, p, r));
  }

  lemma AroundSkip(a: string, c: char, b: string, p: string, r: string)
    requires |p| > 0 && c !in p && |a| >= |p| && a[..|p|] != p
    requires Replace(a[1..] + [c] + b, p, r) == Replace(a[1..], p, r) + [c] + Replace(b, p, r)
    ensures Replace(a + [c] + b, p, r) == Replace(a, p, r) + [c] + Replace(b, p, r)
  {
    var t := a + [c] + b;
    TailOf(a, c, b);
    assert t[..|p|] == a[..|p|];
    ReplaceStep(t, p, r);
    ReplaceStep(a, p, r);
    Assoc([a[0]], Replace(a[1..], p, r), [c], Replace(b, p, r));
  }

  /** the tail of `a + [c] + b` for a non-empty `a` */
  lemma TailOf<T>(a: seq<T>, c: T, b: seq<T>)
    requires |a| > 0
    ensures (a + [c] + b)[0] == a[0] && (a + [c] + b)[1..] == a[1..] + [c] + b
  {
  }

  lemma ConsAssoc<T>(a: seq<T>, c: T, b: seq<T>)
    requires |a| > 0
    ensures [a[0]] + (a[1..] + [c] + b) == a + [c] + b
  {
  }

  lemma Assoc<T>(x: seq<T>, y: seq<T>, z: seq<T>, w: seq<T>)
    ensures x + (y + z + w) == x + y + z + w
  {
  }

  /** a text whose start is not `p` keeps its first character */
  lemma ReplaceStep(t: string, p: string, r: string)
    requires |p| > 0 && |t| >= |p| && t[..|p|] != p
    ensures Replace(t, p, r) == [t[0]] + Replace(t[1..], p, r)
  {
  }

  lemma ShortReplace(t: string, p: string, r: string)
    requires |p| > 0 && |t| < |p|
    ensures Replace(t, p, r) == t
  {
  }
}

/**
 * A Python `dict` with its insertion order: a sequence of key/value pairs.
 * Assigning to an existing key keeps its position; a new key goes last.
 */
module Dicts {
  import opened Wrappers

  type Dict<K, V> = seq<(K, V)>

  function Keys<K, V>(d: Dict<K, V>): (ks: seq<K>)
    ensures |ks| == |d| && forall i :: 0 <= i < |d| ==> ks[i] == d[i].0
  {
    if d == [] then [] else Keys(d[..|d| - 1]) + [d[|d| - 1].0]
  }

  ghost predicate DistinctKeys<K, V>(d: Dict<K, V>)
  {
    forall i, j :: 0 <= i < j < |d| ==> d[i].0 != d[j].0
  }

  /** position of the first entry with key `k`, or -1 */
  function KeyIndex<K(==), V>(d: Dict<K, V>, k: K): (i: int)
    ensures -1 <= i < |d|
    ensures i >= 0 ==> d[i].0 == k && forall j :: 0 <= j < i ==> d[j].0 != k
    ensures i == -1 <==> forall j :: 0 <= j < |d| ==> d[j].0 != k
  {
    KeyIndexFrom(d, k, 0)
  }

  /** the scan behind `KeyIndex`, from position `n` on */
  function KeyIndexFrom<K(==), V>(d: Dict<K, V>, k: K, n: nat): (i: int)
    requires n <= |d|
    ensures i == -1 || n <= i < |d|
    ensures i >= 0 ==> d[i].0 == k && forall j :: n <= j < i ==> d[j].0 != k
    ensures i == -1 <==> forall j :: n <= j < |d| ==> d[j].0 != k
    decreases |d| - n
  {
    if n == |d| then -1
    else if d[n].0 == k then n
    else KeyIndexFrom(d, k, n + 1)
  }

  /** Python `d.get(k)` */
  function Get<K(==), V>(d: Dict<K, V>, k: K): Option<V>
  {
    var i := KeyIndex(d, k);
    if i == -1 then None else Some(d[i].1)
  }

  /** Python `d[k] = v`: `k` reads `v` afterwards, every other key reads
      what it read before, and the key order is kept, a new key going last */
  function Put<K(==, !new), V>(d: Dict<K, V>, k: K, v: V): (d': Dict<K, V>)
    ensures KeyIndex(d, k) == -1 ==> d' == d + [(k, v)]
    ensures KeyIndex(d, k) >= 0 ==> d' == d[KeyIndex(d, k) := (k, v)]
    ensures Get(d', k) == Some(v)
    ensures forall k' :: k' != k ==> Get(d', k') == Get(d, k')
    ensures KeyIndex(d, k) >= 0 ==> Keys(d') == Keys(d)
    ensures KeyIndex(d, k) == -1 ==> Keys(d') == Keys(d) + [k]
  {
    var i := KeyIndex(d, k);
    var e := if i == -1 then d + [(k, v)] else d[i := (k, v)];
    Assigned(d, k, v, e);
    e
  }

  /** what the two cases of `Put` have in common: the keys of `d` are kept
      in place (position i already held `k`), and only `k` can follow them */
  lemma Assigned<K, V>(d: Dict<K, V>, k: K, v: V, e: Dict<K, V>)
    requires e == if KeyIndex(d, k) == -1 then d + [(k, v)] else d[KeyIndex(d, k) := (k, v)]
    ensures Get(e, k) == Some(v)
    ensures forall k' :: k' != k ==> Get(e, k') == Get(d, k')
    ensures KeyIndex(d, k) >= 0 ==> Keys(e) == Keys(d)
    ensures KeyIndex(d, k) == -1 ==> Keys(e) == Keys(d) + [k]
  {
    var i := KeyIndex(d, k);
    assert KeyIndex(e, k) == (if i == -1 then |d| else i);
    forall k' | k' != k
      ensures Get(e, k') == Get(d, k')
    {
      var b := KeyIndex(d, k');
      var c := KeyIndex(e, k');
      if b >= 0 {
        assert e[b].0 == k';
        assert c == b;
      } else {
        assert c == -1;
      }
    }
  }

  /** the entry at a key's position is what `get` finds when keys are distinct */
  lemma GetAt<K, V>(d: Dict<K, V>, j: int)
    requires DistinctKeys(d) && 0 <= j < |d|
    ensures Get(d, d[j].0) == Some(d[j].1)
  {
    assert KeyIndex(d, d[j].0) == j;
  }

  /** assignment keeps keys distinct, makes `k` read `v`, leaves every other
      key's value and the order of the existing keys as they were */
  lemma PutProperties<K(!new), V>(d: Dict<K, V>, k: K, v: V)
    requires DistinctKeys(d)
    ensures DistinctKeys(Put(d, k, v))
    ensures Get(Put(d, k, v), k) == Some(v)
    ensures forall k' :: k' != k ==> Get(Put(d, k, v), k') == Get(d, k')
    ensures KeyIndex(d, k) >= 0 ==> Keys(Put(d, k, v)) == Keys(d)
    ensures KeyIndex(d, k) == -1 ==> Keys(Put(d, k, v)) == Keys(d) + [k]
  {
    PutDistinct(d, k, v);
    GetAt(Put(d, k, v), if KeyIndex(d, k) == -1 then |d| else KeyIndex(d, k));
    forall k' | k' != k
      ensures Get(Put(d, k, v), k') == Get(d, k')
    {
      PutOther(d, k, v, k');
    }
    PutKeys(d, k, v);
  }

  lemma PutDistinct<K(!new), V>(d: Dict<K, V>, k: K, v: V)
    requires DistinctKeys(d)
    ensures DistinctKeys(Put(d, k, v))
  {
  }

  lemma PutOther<K(!new), V>(d: Dict<K, V>, k: K, v: V, k': K)
    requires DistinctKeys(d) && k' != k
    ensures Get(Put(d, k, v), k') == Get(d, k')
  {
    var b := KeyIndex(d, k');
    if b >= 0 {
      PutDistinct(d, k, v);
      assert Put(d, k, v)[b] == d[b];
      GetAt(Put(d, k, v), b);
    }
  }

  lemma PutKeys<K(!new), V>(d: Dict<K, V>, k: K, v: V)
    ensures KeyIndex(d, k) >= 0 ==> Keys(Put(d, k, v)) == Keys(d)
    ensures KeyIndex(d, k) == -1 ==> Keys(Put(d, k, v)) == Keys(d) + [k]
  {
  }
}
