/** Counting the entries of a map that satisfy a predicate. */
module Counting {
  function Bit(b: bool): int { if b then 1 else 0 }

  ghost function Where<K, V>(m: map<K, V>, p: V -> bool): set<K> {
    set x | x in m && p(m[x])
  }

  lemma SizeWithout<T>(s: set<T>, x: T)
    ensures |s| == |s - {x}| + Bit(x in s)
  {
    if x in s {
      assert s == (s - {x}) + {x};
    } else {
      assert s == s - {x};
    }
  }

  lemma WhereElsewhere<K, V>(m: map<K, V>, x: K, v: V, p: V -> bool)
    ensures Where(m, p) - {x} == Where(m[x := v], p) - {x}
  {
    forall y ensures y in Where(m, p) - {x} <==> y in Where(m[x := v], p) - {x} {
      if y != x { assert y in m <==> y in m[x := v]; }
    }
  }

  /** Writing one entry moves the count by what that entry gained or lost. */
  lemma WhereAfter<K, V>(m: map<K, V>, x: K, v: V, p: V -> bool)
    ensures |Where(m[x := v], p)| == |Where(m, p)| - Bit(x in m && p(m[x])) + Bit(p(v))
  {
    WhereElsewhere(m, x, v, p);
    SizeWithout(Where(m, p), x);
    SizeWithout(Where(m[x := v], p), x);
  }
}
