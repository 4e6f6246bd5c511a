// Class-by-class ordering with rotation, over any list whose members are classified.

module Ordering {
  import opened Common
  import opened Residues

  datatype Egress = Cf | Vercel | NativeVps

  function OfClass<T>(urls: seq<T>, cls: T -> Egress, e: Egress): (r: seq<T>)
    ensures forall i :: 0 <= i < |r| ==> cls(r[i]) == e
  {
    if urls == [] then []
    else
      var last := urls[|urls| - 1];
      OfClass(urls[..|urls| - 1], cls, e) + (if cls(last) == e then [last] else [])
  }

  function RotateLeft<T>(s: seq<T>, k: nat): seq<T>
    requires k <= |s|
  {
    s[k..] + s[..k]
  }

  function Rotated<T>(s: seq<T>, offset: nat): (r: seq<T>)
    ensures |r| == |s|
  {
    if s == [] then [] else RotateLeft(s, offset % |s|)
  }

  function Ordered<T>(urls: seq<T>, cls: T -> Egress, vercelFirst: bool, offset: nat): seq<T> {
    var vps := Rotated(OfClass(urls, cls, NativeVps), offset);
    var vercel := Rotated(OfClass(urls, cls, Vercel), offset);
    var cf := Rotated(OfClass(urls, cls, Cf), offset);
    vps + (if vercelFirst then vercel + cf else cf + vercel)
  }

  /** Buckets, rotates and concatenates, as order_endpoints_with_offset does. */
  method OrderEndpoints<T>(urls: seq<T>, cls: T -> Egress, vercelFirst: bool, offset: nat)
    returns (list: seq<T>)
    ensures list == Ordered(urls, cls, vercelFirst, offset)
  {
    var vpsList, vercelList, cfList := [], [], [];
    for i := 0 to |urls|
      invariant vpsList == OfClass(urls[..i], cls, NativeVps)
      invariant vercelList == OfClass(urls[..i], cls, Vercel)
      invariant cfList == OfClass(urls[..i], cls, Cf)
    {
      var u := urls[i];
      assert urls[..i + 1][..i] == urls[..i];
      match cls(u)
      case NativeVps => vpsList := vpsList + [u];
      case Vercel => vercelList := vercelList + [u];
      case Cf => cfList := cfList + [u];
    }
    assert urls[..|urls|] == urls;
    vpsList := Rotate(vpsList, offset);
    vercelList := Rotate(vercelList, offset);
    cfList := Rotate(cfList, offset);
    list := vpsList;
    if vercelFirst {
      list := list + vercelList;
      list := list + cfList;
    } else {
      list := list + cfList;
      list := list + vercelList;
    }
    assert list == Ordered(urls, cls, vercelFirst, offset);
  }

  /** A list of at most one member, or a zero offset, is left alone. */
  method Rotate<T>(s: seq<T>, offset: nat) returns (r: seq<T>)
    ensures r == Rotated(s, offset)
  {
    r := s;
    if |s| > 1 && offset > 0 {
      r := RotateLeft(s, offset % |s|);
    } else if s != [] {
      assert offset % |s| == 0;
      assert RotateLeft(s, 0) == s;
    }
  }

  lemma {:induction false} OfClassConcat<T>(a: seq<T>, b: seq<T>, cls: T -> Egress, e: Egress)
    ensures OfClass(a + b, cls, e) == OfClass(a, cls, e) + OfClass(b, cls, e)
  {
    if b == [] {
      assert a + b == a;
    } else {
      OfClassConcat(a, b[..|b| - 1], cls, e);
      assert (a + b)[..|a + b| - 1] == a + b[..|b| - 1];
    }
  }

  lemma {:induction false} OfClassUniform<T>(s: seq<T>, cls: T -> Egress, c: Egress, e: Egress)
    requires forall i :: 0 <= i < |s| ==> cls(s[i]) == c
    ensures OfClass(s, cls, e) == if c == e then s else []
  {
    if s != [] {
      OfClassUniform(s[..|s| - 1], cls, c, e);
      assert s == s[..|s| - 1] + [s[|s| - 1]];
    }
  }

  lemma RotatedUniform<T>(s: seq<T>, cls: T -> Egress, c: Egress, offset: nat)
    requires forall i :: 0 <= i < |s| ==> cls(s[i]) == c
    ensures forall i :: 0 <= i < |s| ==> cls(Rotated(s, offset)[i]) == c
  {
  }

  /** A rotation moves position i + offset, counted around, to position i. */
  lemma RotatedAt<T>(s: seq<T>, offset: nat, i: nat)
    requires i < |s|
    ensures Rotated(s, offset)[i] == s[(i + offset) % |s|]
  {
    var n, k := |s|, offset % |s|;
    var q := offset / n;
    assert offset == k + q * n;
    if i + k < n {
      ModOfShift(i + k, q, n);
    } else {
      ModOfShift(i + k - n, q + 1, n);
      assert (q + 1) * n == q * n + n;
    }
  }

  /** The output's members of one class are the configured ones, counted around from the offset. */
  lemma OrderedRotatesEachClass<T>(urls: seq<T>, cls: T -> Egress, vercelFirst: bool, offset: nat, e: Egress)
    ensures OfClass(Ordered(urls, cls, vercelFirst, offset), cls, e) == Rotated(OfClass(urls, cls, e), offset)
    ensures var members, now := OfClass(urls, cls, e), OfClass(Ordered(urls, cls, vercelFirst, offset), cls, e);
      |now| == |members| && forall i :: 0 <= i < |members| ==> now[i] == members[(i + offset) % |members|]
  {
    forall i | 0 <= i < |OfClass(urls, cls, e)|
      ensures Rotated(OfClass(urls, cls, e), offset)[i] == OfClass(urls, cls, e)[(i + offset) % |OfClass(urls, cls, e)|]
    {
      RotatedAt(OfClass(urls, cls, e), offset, i);
    }
    ClassRotated(urls, cls, vercelFirst, offset, e);
  }

  lemma ClassRotated<T>(urls: seq<T>, cls: T -> Egress, vercelFirst: bool, offset: nat, e: Egress)
    ensures OfClass(Ordered(urls, cls, vercelFirst, offset), cls, e) == Rotated(OfClass(urls, cls, e), offset)
  {
    RotatedUniform(OfClass(urls, cls, NativeVps), cls, NativeVps, offset);
    RotatedUniform(OfClass(urls, cls, Vercel), cls, Vercel, offset);
    RotatedUniform(OfClass(urls, cls, Cf), cls, Cf, offset);
    BlockOf(Rotated(OfClass(urls, cls, NativeVps), offset), Rotated(OfClass(urls, cls, Vercel), offset),
            Rotated(OfClass(urls, cls, Cf), offset), cls, vercelFirst, e);
  }

  /** Of three blocks, one for each class, one class picks its own. */
  lemma BlockOf<T>(vps: seq<T>, vercel: seq<T>, cf: seq<T>, cls: T -> Egress, vercelFirst: bool, e: Egress)
    requires forall i :: 0 <= i < |vps| ==> cls(vps[i]) == NativeVps
    requires forall i :: 0 <= i < |vercel| ==> cls(vercel[i]) == Vercel
    requires forall i :: 0 <= i < |cf| ==> cls(cf[i]) == Cf
    ensures OfClass(vps + (if vercelFirst then vercel + cf else cf + vercel), cls, e) ==
      match e case NativeVps => vps case Vercel => vercel case Cf => cf
  {
    OfClassUniform(vps, cls, NativeVps, e);
    OfClassUniform(vercel, cls, Vercel, e);
    OfClassUniform(cf, cls, Cf, e);
    OfClassConcat(vercel, cf, cls, e);
    OfClassConcat(cf, vercel, cls, e);
    OfClassConcat(vps, if vercelFirst then vercel + cf else cf + vercel, cls, e);
  }

  /** VPS endpoints come first, then Vercel and CF in the preferred order. */
  lemma OrderedByRank<T>(urls: seq<T>, cls: T -> Egress, vercelFirst: bool, offset: nat)
    ensures var l := Ordered(urls, cls, vercelFirst, offset);
      forall i, j :: 0 <= i < j < |l| ==>
        && (cls(l[j]) == NativeVps ==> cls(l[i]) == NativeVps)
        && (vercelFirst && cls(l[j]) == Vercel ==> cls(l[i]) != Cf)
        && (!vercelFirst && cls(l[j]) == Cf ==> cls(l[i]) != Vercel)
  {
    RotatedUniform(OfClass(urls, cls, NativeVps), cls, NativeVps, offset);
    RotatedUniform(OfClass(urls, cls, Vercel), cls, Vercel, offset);
    RotatedUniform(OfClass(urls, cls, Cf), cls, Cf, offset);
  }

  lemma MultisetLast<T>(s: seq<T>)
    requires s != []
    ensures multiset(s) == multiset(s[..|s| - 1]) + multiset{s[|s| - 1]}
  {
    assert s == s[..|s| - 1] + [s[|s| - 1]];
  }

  lemma LastOfClass<T>(s: seq<T>, cls: T -> Egress, e: Egress)
    requires s != []
    ensures multiset(OfClass(s, cls, e)) == multiset(OfClass(s[..|s| - 1], cls, e))
      + (if cls(s[|s| - 1]) == e then multiset{s[|s| - 1]} else multiset{})
  {
  }

  lemma RotatedIsPermutation<T>(s: seq<T>, offset: nat)
    ensures multiset(Rotated(s, offset)) == multiset(s)
  {
    if s != [] {
      var k := offset % |s|;
      assert s == s[..k] + s[k..];
    }
  }

  lemma {:induction false} ClassesPartition<T>(s: seq<T>, cls: T -> Egress)
    ensures multiset(s) == multiset(OfClass(s, cls, NativeVps))
      + multiset(OfClass(s, cls, Vercel)) + multiset(OfClass(s, cls, Cf))
  {
    if s != [] {
      ClassesPartition(s[..|s| - 1], cls);
      MultisetLast(s);
      LastOfClass(s, cls, NativeVps);
      LastOfClass(s, cls, Vercel);
      LastOfClass(s, cls, Cf);
      AddOne(multiset(OfClass(s[..|s| - 1], cls, NativeVps)), multiset(OfClass(s[..|s| - 1], cls, Vercel)),
             multiset(OfClass(s[..|s| - 1], cls, Cf)), s[|s| - 1]);
    }
  }

  lemma AddOne<T>(a: multiset<T>, b: multiset<T>, c: multiset<T>, x: T)
    ensures a + b + c + multiset{x} == (a + multiset{x}) + b + c
    ensures a + b + c + multiset{x} == a + (b + multiset{x}) + c
    ensures a + b + c + multiset{x} == a + b + (c + multiset{x})
  {
  }

  /** Ordering loses no endpoint and invents none. */
  lemma OrderedIsPermutation<T>(urls: seq<T>, cls: T -> Egress, vercelFirst: bool, offset: nat)
    ensures multiset(Ordered(urls, cls, vercelFirst, offset)) == multiset(urls)
  {
    ClassesPartition(urls, cls);
    RotatedIsPermutation(OfClass(urls, cls, NativeVps), offset);
    RotatedIsPermutation(OfClass(urls, cls, Vercel), offset);
    RotatedIsPermutation(OfClass(urls, cls, Cf), offset);
  }

  /** The first endpoint of a class in the order for this offset. */
  function Leader<T>(urls: seq<T>, cls: T -> Egress, vercelFirst: bool, offset: nat, e: Egress): Option<T> {
    var now := OfClass(Ordered(urls, cls, vercelFirst, offset), cls, e);
    if now == [] then None else Some(now[0])
  }

  lemma LeaderOfClass<T>(urls: seq<T>, cls: T -> Egress, vercelFirst: bool, offset: nat, e: Egress)
    requires OfClass(urls, cls, e) != []
    ensures Leader(urls, cls, vercelFirst, offset, e) == Some(OfClass(urls, cls, e)[offset % |OfClass(urls, cls, e)|])
  {
    ClassRotated(urls, cls, vercelFirst, offset, e);
  }

  ghost predicate Distinct<T>(s: seq<T>) { forall i, j :: 0 <= i < j < |s| ==> s[i] != s[j] }

  /**
   * Over any |class| consecutive counter values the configured members lead in turn, and the i-th, if
   * no endpoint is configured twice, leads exactly once.
   */
  lemma EachMemberLeadsOnce<T>(urls: seq<T>, cls: T -> Egress, vercelFirst: bool, base: nat, e: Egress, i: nat)
    returns (turn: nat)
    requires i < |OfClass(urls, cls, e)|
    ensures base <= turn < base + |OfClass(urls, cls, e)|
    ensures Leader(urls, cls, vercelFirst, turn, e) == Some(OfClass(urls, cls, e)[i])
    ensures forall o :: base <= o < base + |OfClass(urls, cls, e)| ==>
      Leader(urls, cls, vercelFirst, o, e) == Some(OfClass(urls, cls, e)[o % |OfClass(urls, cls, e)|])
    ensures Distinct(OfClass(urls, cls, e)) ==>
      forall o :: base <= o < base + |OfClass(urls, cls, e)| ==>
        (Leader(urls, cls, vercelFirst, o, e) == Some(OfClass(urls, cls, e)[i]) <==> o == turn)
  {
    var members := OfClass(urls, cls, e);
    var n := |members|;
    turn := TurnOf(base, i, n);
    forall o: nat | base <= o < base + n
      ensures Leader(urls, cls, vercelFirst, o, e) == Some(members[o % n])
      ensures Distinct(members) ==> (members[o % n] == members[i] <==> o == turn)
    {
      LeaderOfClass(urls, cls, vercelFirst, o, e);
      OnlyTurn(members, base, i, turn, o);
    }
  }

  lemma OnlyTurn<T>(members: seq<T>, base: nat, i: nat, turn: nat, o: nat)
    requires i < |members| && base <= turn < base + |members| && turn % |members| == i
    requires base <= o < base + |members|
    ensures Distinct(members) ==> (members[o % |members|] == members[i] <==> o == turn)
  {
    var n := |members|;
    if o % n == i {
      ResidueUnique(base, o - base, turn - base, n);
    } else if o % n < i {
      assert Distinct(members) ==> members[o % n] != members[i];
    } else {
      assert Distinct(members) ==> members[i] != members[o % n];
    }
  }

  // ---- the compliant-egress filter ----

  function WithoutCf<T>(ordered: seq<T>, cls: T -> Egress): (r: seq<T>)
    ensures |r| <= |ordered|
    ensures forall i :: 0 <= i < |r| ==> cls(r[i]) != Cf && r[i] in ordered
  {
    if ordered == [] then []
    else
      var last := ordered[|ordered| - 1];
      WithoutCf(ordered[..|ordered| - 1], cls) + (if cls(last) != Cf then [last] else [])
  }

  /** The filter removes exactly the CF members and keeps the members of each other class in order. */
  lemma {:induction false} FilterKeepsOrder<T>(ordered: seq<T>, cls: T -> Egress, e: Egress)
    ensures OfClass(WithoutCf(ordered, cls), cls, e) == if e == Cf then [] else OfClass(ordered, cls, e)
  {
    if ordered != [] {
      var init, last := ordered[..|ordered| - 1], ordered[|ordered| - 1];
      FilterKeepsOrder(init, cls, e);
      if cls(last) == Cf {
        assert WithoutCf(init, cls) + [] == WithoutCf(init, cls);
        assert OfClass(init, cls, e) + [] == OfClass(init, cls, e);
      } else {
        OfClassLast(WithoutCf(init, cls), last, cls, e);
      }
    }
  }

  lemma OfClassLast<T>(s: seq<T>, last: T, cls: T -> Egress, e: Egress)
    ensures OfClass(s + [last], cls, e) == OfClass(s, cls, e) + if cls(last) == e then [last] else []
  {
    assert (s + [last])[..|s|] == s;
  }

  lemma {:induction false} WithoutCfConcat<T>(a: seq<T>, b: seq<T>, cls: T -> Egress)
    ensures WithoutCf(a + b, cls) == WithoutCf(a, cls) + WithoutCf(b, cls)
  {
    if b == [] {
      assert a + b == a;
    } else {
      WithoutCfConcat(a, b[..|b| - 1], cls);
      assert (a + b)[..|a + b| - 1] == a + b[..|b| - 1];
    }
  }

  lemma {:induction false} WithoutCfUniform<T>(s: seq<T>, cls: T -> Egress, c: Egress)
    requires forall i :: 0 <= i < |s| ==> cls(s[i]) == c
    ensures WithoutCf(s, cls) == if c == Cf then [] else s
  {
    if s != [] {
      WithoutCfUniform(s[..|s| - 1], cls, c);
      assert s == s[..|s| - 1] + [s[|s| - 1]];
    }
  }

  /** Whatever the preference, what survives the filter is the VPS block followed by the Vercel block. */
  lemma CompliantOrder<T>(urls: seq<T>, cls: T -> Egress, vercelFirst: bool, offset: nat)
    ensures WithoutCf(Ordered(urls, cls, vercelFirst, offset), cls) ==
      Rotated(OfClass(urls, cls, NativeVps), offset) + Rotated(OfClass(urls, cls, Vercel), offset)
  {
    var vps := Rotated(OfClass(urls, cls, NativeVps), offset);
    var vercel := Rotated(OfClass(urls, cls, Vercel), offset);
    var cf := Rotated(OfClass(urls, cls, Cf), offset);
    RotatedUniform(OfClass(urls, cls, NativeVps), cls, NativeVps, offset);
    RotatedUniform(OfClass(urls, cls, Vercel), cls, Vercel, offset);
    RotatedUniform(OfClass(urls, cls, Cf), cls, Cf, offset);
    WithoutCfUniform(vps, cls, NativeVps);
    WithoutCfUniform(vercel, cls, Vercel);
    WithoutCfUniform(cf, cls, Cf);
    WithoutCfConcat(vercel, cf, cls);
    WithoutCfConcat(cf, vercel, cls);
    var rest := if vercelFirst then vercel + cf else cf + vercel;
    WithoutCfConcat(vps, rest, cls);
    assert WithoutCf(rest, cls) == vercel;
  }
}
