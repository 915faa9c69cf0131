/** Order-preserving selection from a sequence, as Array.prototype.filter and
    a Python list-building loop do it. */
module Sequences {

  /** The elements of s that satisfy p, in their original order. */
  function Filter<T>(s: seq<T>, p: T -> bool): (r: seq<T>)
    ensures |r| <= |s|
  {
    if s == [] then [] else (if p(s[0]) then [s[0]] else []) + Filter(s[1..], p)
  }

  /** t can be obtained from s by deleting elements, so t keeps s's order. */
  predicate IsSubsequence<T(==)>(t: seq<T>, s: seq<T>)
    decreases |s|
  {
    t == [] || (s != [] && ((t[0] == s[0] && IsSubsequence(t[1..], s[1..])) || IsSubsequence(t, s[1..])))
  }

  /** An element is kept exactly when it occurs in s and satisfies p. */
  lemma {:induction false} FilterMember<T>(s: seq<T>, p: T -> bool, x: T)
    ensures x in Filter(s, p) <==> (x in s && p(x))
  {
    if s != [] {
      FilterMember(s[1..], p, x);
      assert s == [s[0]] + s[1..];
    }
  }

  /** Every element of the result satisfies p. */
  lemma FilterSatisfies<T>(s: seq<T>, p: T -> bool)
    ensures forall i :: 0 <= i < |Filter(s, p)| ==> p(Filter(s, p)[i])
  {
    forall i | 0 <= i < |Filter(s, p)|
      ensures p(Filter(s, p)[i])
    {
      FilterMember(s, p, Filter(s, p)[i]);
    }
  }

  /** Filtering keeps the original order. */
  lemma {:induction false} FilterSubsequence<T>(s: seq<T>, p: T -> bool)
    ensures IsSubsequence(Filter(s, p), s)
  {
    if s != [] {
      FilterSubsequence(s[1..], p);
      if p(s[0]) {
        assert Filter(s, p)[0] == s[0];
        assert Filter(s, p)[1..] == Filter(s[1..], p);
      } else {
        assert Filter(s, p) == Filter(s[1..], p);
      }
    }
  }

  /** When every element satisfies p, nothing is removed. */
  lemma {:induction false} FilterAll<T>(s: seq<T>, p: T -> bool)
    requires forall i :: 0 <= i < |s| ==> p(s[i])
    ensures Filter(s, p) == s
  {
    if s != [] {
      FilterAll(s[1..], p);
      assert s == [s[0]] + s[1..];
    }
  }

  /** Filtering distributes over concatenation. */
  lemma {:induction false} FilterAppend<T>(a: seq<T>, b: seq<T>, p: T -> bool)
    ensures Filter(a + b, p) == Filter(a, p) + Filter(b, p)
  {
    if a != [] {
      FilterAppend(a[1..], b, p);
      assert (a + b)[1..] == a[1..] + b;
    } else {
      assert a + b == b;
    }
  }

  /** Filtering one more element appends it when it is kept. */
  lemma FilterSnoc<T>(s: seq<T>, x: T, p: T -> bool)
    ensures Filter(s + [x], p) == Filter(s, p) + (if p(x) then [x] else [])
  {
    FilterAppend(s, [x], p);
    assert [x][1..] == [];
  }

  /** The dictionary of sets built by visiting s in order and adding
      val(x) to the set under key(x), creating the set on first use. */
  function GroupBy<T, K, V>(s: seq<T>, key: T -> K, val: T -> V): map<K, set<V>>
    decreases |s|
  {
    if s == [] then map[]
    else
      var m := GroupBy(s[..|s| - 1], key, val);
      var k := key(s[|s| - 1]);
      m[k := (if k in m then m[k] else {}) + {val(s[|s| - 1])}]
  }

  /** A key is present exactly when some element has it. */
  lemma {:induction false} GroupByKeys<T, K, V>(s: seq<T>, key: T -> K, val: T -> V, k: K)
    ensures k in GroupBy(s, key, val) <==> exists i :: 0 <= i < |s| && key(s[i]) == k
    decreases |s|
  {
    if s != [] {
      var t := s[..|s| - 1];
      GroupByKeys(t, key, val, k);
      if exists i :: 0 <= i < |t| && key(t[i]) == k {
        var i :| 0 <= i < |t| && key(t[i]) == k;
        assert s[i] == t[i];
      }
      if exists i :: 0 <= i < |s| && key(s[i]) == k {
        var i :| 0 <= i < |s| && key(s[i]) == k;
        if i < |t| {
          assert t[i] == s[i];
        }
      }
    }
  }

  /** A value is listed under a key exactly when some element has both. */
  lemma {:induction false} GroupByMembers<T, K, V>(s: seq<T>, key: T -> K, val: T -> V, k: K, v: V)
    ensures (k in GroupBy(s, key, val) && v in GroupBy(s, key, val)[k]) <==>
      exists i :: 0 <= i < |s| && key(s[i]) == k && val(s[i]) == v
    decreases |s|
  {
    if s != [] {
      var t := s[..|s| - 1];
      GroupByMembers(t, key, val, k, v);
      if exists i :: 0 <= i < |t| && key(t[i]) == k && val(t[i]) == v {
        var i :| 0 <= i < |t| && key(t[i]) == k && val(t[i]) == v;
        assert s[i] == t[i];
      }
      if exists i :: 0 <= i < |s| && key(s[i]) == k && val(s[i]) == v {
        var i :| 0 <= i < |s| && key(s[i]) == k && val(s[i]) == v;
        if i < |t| {
          assert t[i] == s[i];
        }
      }
    }
  }
}
