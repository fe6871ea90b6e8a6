/** Small facts about arithmetic and finite sets that several modules need. */
module Basics {

  datatype Option<T> = None | Some(value: T)

  /** What splitting and stripping text treat as white space, within ASCII. */
  predicate IsSpace(c: char) { c == ' ' || '\t' <= c <= '\r' || 0x1c <= c as int <= 0x1f }

  lemma MulMonotone(a: nat, b: nat, k: nat)
    requires a <= b
    ensures a * k <= b * k
  {
    assert b * k == a * k + (b - a) * k;
  }

  lemma DivMod(q: nat, m: nat, r: nat)
    requires r < m
    ensures (q * m + r) / m == q && (q * m + r) % m == r
  {
    var x := q * m + r;
    assert x == x / m * m + x % m;
    if x / m < q {
      MulMonotone(x / m + 1, q, m);
    } else if x / m > q {
      MulMonotone(q + 1, x / m, m);
    }
  }

  ghost function Below(n: nat): set<nat> {
    if n == 0 then {} else Below(n - 1) + {n - 1}
  }

  lemma {:induction false} BelowIs(n: nat)
    ensures |Below(n)| == n && forall w: nat :: w in Below(n) <==> w < n
  {
    if n > 0 { BelowIs(n - 1); }
  }

  /** A subset as large as the whole is the whole. */
  lemma FullSet(s: set<nat>, all: set<nat>, w: nat)
    requires s <= all && |s| >= |all| && w in all
    ensures w in s
  {
    if w !in s {
      assert s <= all - {w};
      SubsetCard(s, all - {w});
    }
  }

  lemma {:induction false} SubsetCard(s: set<nat>, t: set<nat>)
    requires s <= t
    ensures |s| <= |t|
    decreases |s|
  {
    if s != {} {
      var x :| x in s;
      SubsetCard(s - {x}, t - {x});
    }
  }

  ghost function Range(lo: nat, hi: nat): set<nat>
    requires lo <= hi
  {
    Below(hi) - Below(lo)
  }

  lemma RangeIs(lo: nat, hi: nat)
    requires lo <= hi
    ensures |Range(lo, hi)| == hi - lo
    ensures forall w: nat :: w in Range(lo, hi) <==> lo <= w < hi
  {
    BelowIs(lo);
    BelowIs(hi);
    assert Below(hi) == Below(lo) + Range(lo, hi);
  }
}
