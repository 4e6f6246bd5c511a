// Shared value types and finite sums.

module Common {
  datatype Option<+T> = None | Some(value: T)

  newtype byte = b: int | 0 <= b < 256

  type Bytes = seq<byte>

  function Min(a: nat, b: nat): nat { if a <= b then a else b }

  function Pow2(n: nat): nat { if n == 0 then 1 else 2 * Pow2(n - 1) }

  /** Powers of two start at one and double. */
  lemma Pow2Doubles(n: nat)
    ensures Pow2(0) == 1 && Pow2(n + 1) == 2 * Pow2(n)
  {
  }

  lemma {:induction false} Pow2Grows(m: nat, n: nat)
    requires m <= n
    ensures 1 <= Pow2(m) <= Pow2(n)
  {
    if m < n {
      Pow2Grows(m, n - 1);
    } else if m > 0 {
      Pow2Grows(m - 1, n - 1);
    }
  }

  lemma Pow2Strict(m: nat, n: nat)
    requires m < n
    ensures Pow2(m) < Pow2(n)
  {
    Pow2Grows(m, n - 1);
  }

  lemma Reassociate<T>(a: seq<T>, b: seq<T>, c: seq<T>)
    ensures a + (b + c) == a + b + c
  {
  }

  /** A loop over a map moves one entry at a time from what is left to what is done. */
  lemma MoveEntry<K, V>(done: map<K, V>, left: map<K, V>, k: K)
    requires k in left && done.Keys !! left.Keys
    ensures done[k := left[k]] + (left - {k}) == done + left
    ensures done[k := left[k]].Keys !! (left - {k}).Keys
  {
  }
}

/** Sums of the values of a finite map of naturals, independent of any enumeration order. */
module Sums {
  ghost function Sum<K>(m: map<K, nat>): nat {
    if m == map[] then 0
    else
      var k :| k in m;
      m[k] + Sum(m - {k})
  }

  lemma {:induction false} SumRemove<K>(m: map<K, nat>, k: K)
    requires k in m
    ensures Sum(m) == m[k] + Sum(m - {k})
    decreases m
  {
    var c :| c in m && Sum(m) == m[c] + Sum(m - {c});
    if c != k {
      var mc, mk := m - {c}, m - {k};
      SumRemove(mc, k);
      SumRemove(mk, c);
      assert mc - {k} == mk - {c};
    }
  }

  lemma SumUpdate<K>(m: map<K, nat>, k: K, v: nat)
    ensures Sum(m[k := v]) == Sum(m) - (if k in m then m[k] else 0) + v
  {
    SumRemove(m[k := v], k);
    if k in m {
      SumRemove(m, k);
      assert m[k := v] - {k} == m - {k};
    } else {
      assert m[k := v] - {k} == m;
    }
  }

  /** Pointwise smaller maps over the same keys have smaller sums. */
  lemma {:induction false} SumMonotone<K>(m: map<K, nat>, n: map<K, nat>)
    requires m.Keys <= n.Keys
    requires forall k :: k in m ==> m[k] <= n[k]
    ensures Sum(m) <= Sum(n)
    decreases m
  {
    if m != map[] {
      var k :| k in m;
      SumRemove(m, k);
      SumRemove(n, k);
      SumMonotone(m - {k}, n - {k});
    }
  }
}

/** Residues of shifted integers. */
module Residues {
  lemma Multiples(d: int, n: int)
    requires n > 0
    ensures d >= 1 ==> d * n >= n
    ensures d <= -1 ==> d * n <= -n
  {
    if d >= 1 {
      assert (d - 1) * n >= 0;
    } else if d <= -1 {
      assert (-d - 1) * n >= 0;
    }
  }

  lemma ModOfShift(i: int, q: int, n: int)
    requires 0 <= i < n
    ensures (i + q * n) % n == i
  {
    var x := i + q * n;
    var d := x / n - q;
    assert d * n == i - x % n by {
      assert x == (x / n) * n + x % n;
    }
    Multiples(d, n);
  }

  /** Among the n values base .. base + n - 1, exactly one has residue i. */
  lemma ResidueHit(base: nat, i: nat, n: nat) returns (j: nat)
    requires i < n
    ensures j < n && (base + j) % n == i
  {
    j := (i - base) % n;
    var q := (i - base) / n;
    assert base + j == i + (-q) * n;
    ModOfShift(i, -q, n);
  }

  /** The one value among base .. base + n - 1 with residue i. */
  lemma TurnOf(base: nat, i: nat, n: nat) returns (turn: nat)
    requires i < n
    ensures base <= turn < base + n && turn % n == i
    ensures forall o: nat :: base <= o < base + n && o % n == i ==> o == turn
  {
    var j := ResidueHit(base, i, n);
    turn := base + j;
    forall o: nat | base <= o < base + n && o % n == i
      ensures o == turn
    {
      ResidueUnique(base, j, o - base, n);
    }
  }

  lemma ResidueUnique(base: nat, j: nat, k: nat, n: nat)
    requires j < n && k < n && (base + j) % n == (base + k) % n
    ensures j == k
  {
    var d := (base + j) / n - (base + k) / n;
    assert j - k == d * n by {
      assert base + j == ((base + j) / n) * n + (base + j) % n;
      assert base + k == ((base + k) / n) * n + (base + k) % n;
    }
    Multiples(d, n);
  }
}
