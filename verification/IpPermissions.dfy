/** Sets of EC2 permissions, and their splitting into single ones. */
module IpPermissions {

  datatype Base = Base(protocol: string, fromPort: int, toPort: int)

  datatype Permission = Permission(
    base: Base, ranges: seq<string>, pairs: seq<string>, prefixes: seq<string>, ipv6Ranges: seq<string>)

  datatype Source = Range(r: string) | Pair(p: string) | Prefix(l: string) | V6(r6: string)

  /** One source that may reach one protocol and port range. */
  datatype Grant = Grant(base: Base, source: Source)

  function Grants(p: Permission): set<Grant> {
    (set r | r in p.ranges :: Grant(p.base, Range(r))) + (set u | u in p.pairs :: Grant(p.base, Pair(u)))
    + (set l | l in p.prefixes :: Grant(p.base, Prefix(l))) + (set v | v in p.ipv6Ranges :: Grant(p.base, V6(v)))
  }

  /** Each source of a permission is granted, and no other. */
  lemma GrantsExact(p: Permission, base: Base, x: string)
    ensures Grant(base, Range(x)) in Grants(p) <==> base == p.base && x in p.ranges
    ensures Grant(base, Pair(x)) in Grants(p) <==> base == p.base && x in p.pairs
    ensures Grant(base, Prefix(x)) in Grants(p) <==> base == p.base && x in p.prefixes
    ensures Grant(base, V6(x)) in Grants(p) <==> base == p.base && x in p.ipv6Ranges
  {
  }

  function GrantsIn(l: seq<Permission>): set<Grant> {
    if l == [] then {} else GrantsIn(l[..|l| - 1]) + Grants(l[|l| - 1])
  }

  lemma GrantsSnoc(l: seq<Permission>, p: Permission)
    ensures GrantsIn(l + [p]) == GrantsIn(l) + Grants(p)
  {
    assert (l + [p])[..|l|] == l;
  }

  lemma GrantsNext(l: seq<Permission>, i: nat)
    requires i < |l|
    ensures GrantsIn(l[..i + 1]) == GrantsIn(l[..i]) + Grants(l[i])
  {
    assert l[..i + 1] == l[..i] + [l[i]];
    GrantsSnoc(l[..i], l[i]);
  }

  lemma {:induction false} GrantsInExact(l: seq<Permission>, g: Grant)
    ensures g in GrantsIn(l) <==> exists i :: 0 <= i < |l| && g in Grants(l[i])
  {
    if l != [] {
      GrantsInExact(l[..|l| - 1], g);
      assert forall i :: 0 <= i < |l| - 1 ==> l[..|l| - 1][i] == l[i];
    }
  }

  // ---- the three loops of Ungroup ----

  /** Copies of `p` with one range each: the first `k`. */
  function RangeCopies(p: Permission, k: nat): set<Grant>
    requires k <= |p.ranges|
  {
    if k == 0 then {} else RangeCopies(p, k - 1) + Grants(p.(ranges := [p.ranges[k - 1]]))
  }

  function PairCopies(p: Permission, k: nat): set<Grant>
    requires k <= |p.pairs|
  {
    if k == 0 then {} else PairCopies(p, k - 1) + Grants(p.(pairs := [p.pairs[k - 1]]))
  }

  function PrefixCopies(p: Permission, k: nat): set<Grant>
    requires k <= |p.prefixes|
  {
    if k == 0 then {} else PrefixCopies(p, k - 1) + Grants(p.(prefixes := [p.prefixes[k - 1]]))
  }

  lemma {:induction false} RangeCopiesExact(p: Permission, k: nat)
    requires 0 < k <= |p.ranges|
    ensures RangeCopies(p, k) == Grants(p.(ranges := p.ranges[..k]))
  {
    assert p.ranges[..k] == p.ranges[..k - 1] + [p.ranges[k - 1]];
    if k > 1 {
      RangeCopiesExact(p, k - 1);
    } else {
      assert RangeCopies(p, 0) == {};
    }
  }

  lemma {:induction false} PairCopiesExact(p: Permission, k: nat)
    requires 0 < k <= |p.pairs|
    ensures PairCopies(p, k) == Grants(p.(pairs := p.pairs[..k]))
  {
    assert p.pairs[..k] == p.pairs[..k - 1] + [p.pairs[k - 1]];
    if k > 1 {
      PairCopiesExact(p, k - 1);
    } else {
      assert PairCopies(p, 0) == {};
    }
  }

  lemma {:induction false} PrefixCopiesExact(p: Permission, k: nat)
    requires 0 < k <= |p.prefixes|
    ensures PrefixCopies(p, k) == Grants(p.(prefixes := p.prefixes[..k]))
  {
    assert p.prefixes[..k] == p.prefixes[..k - 1] + [p.prefixes[k - 1]];
    if k > 1 {
      PrefixCopiesExact(p, k - 1);
    } else {
      assert PrefixCopies(p, 0) == {};
    }
  }

  predicate ManyPairs(p: Permission) {
    |p.pairs| > 1
  }

  predicate AnyManyPairs(l: seq<Permission>) {
    exists i :: 0 <= i < |l| && ManyPairs(l[i])
  }

  predicate SingleRanges(l: seq<Permission>) {
    forall i :: 0 <= i < |l| ==> |l[i].ranges| <= 1
  }

  predicate SinglePrefixes(l: seq<Permission>) {
    forall i :: 0 <= i < |l| ==> |l[i].prefixes| <= 1
  }

  lemma AnyNext(l: seq<Permission>, i: nat)
    requires i < |l|
    ensures AnyManyPairs(l[..i + 1]) <==> AnyManyPairs(l[..i]) || ManyPairs(l[i])
  {
    assert forall j :: 0 <= j < i ==> l[..i + 1][j] == l[..i][j];
    assert l[..i + 1][i] == l[i];
    if AnyManyPairs(l[..i]) {
      var j :| 0 <= j < i && ManyPairs(l[..i][j]);
      assert ManyPairs(l[..i + 1][j]);
    }
  }

  lemma AnySnoc(l: seq<Permission>, p: Permission)
    ensures AnyManyPairs(l + [p]) <==> AnyManyPairs(l) || ManyPairs(p)
  {
    assert (l + [p])[..|l|] == l && (l + [p])[..|l| + 1] == l + [p];
    AnyNext(l + [p], |l|);
  }

  lemma AllRangeCopies(p: Permission)
    requires |p.ranges| > 0
    ensures RangeCopies(p, |p.ranges|) == Grants(p)
  {
    RangeCopiesExact(p, |p.ranges|);
    assert p.ranges[..|p.ranges|] == p.ranges;
  }

  lemma UnionAssociates<T>(a: set<T>, b: set<T>, c: set<T>)
    ensures (a + b) + c == a + (b + c)
  {
  }

  /** `l` is `before` with the first `j` copies. */
  predicate RangesCopied(before: seq<Permission>, l: seq<Permission>, p: Permission, j: nat)
    requires j <= |p.ranges|
  {
    && SingleRanges(l) && GrantsIn(l) == GrantsIn(before) + RangeCopies(p, j)
    && (AnyManyPairs(l) <==> AnyManyPairs(before) || (j > 0 && ManyPairs(p)))
  }

  lemma NoRangeCopied(before: seq<Permission>, p: Permission)
    requires SingleRanges(before)
    ensures RangesCopied(before, before, p, 0)
  {
  }

  lemma RangeCopyAdds(before: seq<Permission>, l: seq<Permission>, p: Permission, j: nat)
    requires j < |p.ranges| && RangesCopied(before, l, p, j)
    ensures RangesCopied(before, l + [p.(ranges := [p.ranges[j]])], p, j + 1)
  {
    var c := p.(ranges := [p.ranges[j]]);
    GrantsSnoc(l, c);
    AnySnoc(l, c);
    SingleSnoc(l, c);
    UnionAssociates(GrantsIn(before), RangeCopies(p, j), Grants(c));
  }

  lemma RangesAllCopied(before: seq<Permission>, l: seq<Permission>, p: Permission)
    requires |p.ranges| > 0 && RangesCopied(before, l, p, |p.ranges|)
    ensures GrantsIn(l) == GrantsIn(before) + Grants(p) && SingleRanges(l)
    ensures AnyManyPairs(l) <==> AnyManyPairs(before) || ManyPairs(p)
  {
    AllRangeCopies(p);
  }

  /** A copy of `p` for each of its ranges. */
  method AppendRangeCopies(before: seq<Permission>, p: Permission) returns (l: seq<Permission>)
    requires SingleRanges(before) && |p.ranges| > 1
    ensures GrantsIn(l) == GrantsIn(before) + Grants(p) && SingleRanges(l)
    ensures AnyManyPairs(l) <==> AnyManyPairs(before) || ManyPairs(p)
  {
    l := before;
    NoRangeCopied(before, p);
    var j := 0;
    while j < |p.ranges|
      invariant j <= |p.ranges| && RangesCopied(before, l, p, j)
    {
      var c := p.(ranges := [p.ranges[j]]);
      RangeCopyAdds(before, l, p, j);
      l := l + [c];
      j := j + 1;
    }
    RangesAllCopied(before, l, p);
  }

  method SplitRanges(list: seq<Permission>) returns (l: seq<Permission>)
    ensures GrantsIn(l) == GrantsIn(list) && SingleRanges(l)
    ensures AnyManyPairs(l) <==> AnyManyPairs(list)
  {
    l := [];
    var i := 0;
    while i < |list|
      invariant i <= |list| && GrantsIn(l) == GrantsIn(list[..i]) && SingleRanges(l)
      invariant AnyManyPairs(l) <==> AnyManyPairs(list[..i])
    {
      var p := list[i];
      GrantsNext(list, i);
      AnyNext(list, i);
      if |p.ranges| <= 1 {
        GrantsSnoc(l, p);
        AnySnoc(l, p);
        l := l + [p];
      } else {
        l := AppendRangeCopies(l, p);
      }
      i := i + 1;
    }
    assert list[..i] == list;
  }

  lemma PartOfGrants(l: seq<Permission>, i: nat)
    requires i < |l|
    ensures Grants(l[i]) <= GrantsIn(l)
  {
    forall g | g in Grants(l[i])
      ensures g in GrantsIn(l)
    {
      GrantsInExact(l, g);
    }
  }

  /** Starts over from the whole input list at every copy: only the last copy is appended. */
  method RestartWithPairCopies(l: seq<Permission>, p: Permission) returns (l2: seq<Permission>)
    requires |p.pairs| > 1 && Grants(p) <= GrantsIn(l) && AnyManyPairs(l)
    ensures l2 == l + [p.(pairs := [p.pairs[|p.pairs| - 1]])]
    ensures GrantsIn(l2) == GrantsIn(l) && AnyManyPairs(l2)
    ensures SingleRanges(l) && |p.ranges| <= 1 ==> SingleRanges(l2)
  {
    l2 := [];
    var j := 0;
    while j < |p.pairs|
      invariant j <= |p.pairs|
      invariant j > 0 ==> l2 == l + [p.(pairs := [p.pairs[j - 1]])]
    {
      var c := p.(pairs := [p.pairs[j]]);
      l2 := l + [c];
      j := j + 1;
    }
    var last := p.(pairs := [p.pairs[j - 1]]);
    assert Grants(last) <= Grants(p);
    GrantsSnoc(l, last);
    AnySnoc(l, last);
  }

  lemma SingleSnoc(l: seq<Permission>, p: Permission)
    ensures SingleRanges(l) && |p.ranges| <= 1 ==> SingleRanges(l + [p])
  {
  }

  /** What is appended after the last restart adds no grant. */
  lemma PairsStep(l: seq<Permission>, i: nat, l2: seq<Permission>)
    requires i < |l| && |l[i].pairs| <= 1
    requires (AnyManyPairs(l[..i]) ==> GrantsIn(l2) == GrantsIn(l)) && (!AnyManyPairs(l[..i]) ==> l2 == l[..i])
    ensures AnyManyPairs(l[..i + 1]) ==> GrantsIn(l2 + [l[i]]) == GrantsIn(l)
    ensures !AnyManyPairs(l[..i + 1]) ==> l2 + [l[i]] == l[..i + 1]
  {
    AnyNext(l, i);
    PartOfGrants(l, i);
    GrantsSnoc(l2, l[i]);
  }

  /** The second loop of Ungroup, with that restart. */
  method SplitPairs(l: seq<Permission>) returns (l2: seq<Permission>)
    ensures GrantsIn(l2) == GrantsIn(l)
    ensures SingleRanges(l) ==> SingleRanges(l2)
    ensures AnyManyPairs(l2) <==> AnyManyPairs(l)
  {
    l2 := [];
    var i := 0;
    while i < |l|
      invariant i <= |l| && (SingleRanges(l) ==> SingleRanges(l2))
      invariant AnyManyPairs(l2) <==> AnyManyPairs(l[..i])
      invariant AnyManyPairs(l[..i]) ==> GrantsIn(l2) == GrantsIn(l)
      invariant !AnyManyPairs(l[..i]) ==> l2 == l[..i]
    {
      var p := l[i];
      AnyNext(l, i);
      if |p.pairs| <= 1 {
        AnySnoc(l2, p);
        PairsStep(l, i, l2);
        SingleSnoc(l2, p);
        l2 := l2 + [p];
      } else {
        assert ManyPairs(l[i]);
        PartOfGrants(l, i);
        l2 := RestartWithPairCopies(l, p);
      }
      i := i + 1;
    }
    assert l[..i] == l;
  }

  /** A copy of `p` for each of its prefixes. */
  method AppendPrefixCopies(before: seq<Permission>, p: Permission) returns (l: seq<Permission>)
    requires SinglePrefixes(before) && |p.prefixes| > 1
    ensures GrantsIn(l) == GrantsIn(before) + Grants(p) && SinglePrefixes(l)
    ensures SingleRanges(before) && |p.ranges| <= 1 ==> SingleRanges(l)
    ensures AnyManyPairs(l) <==> AnyManyPairs(before) || ManyPairs(p)
  {
    l := before;
    var j := 0;
    while j < |p.prefixes|
      invariant j <= |p.prefixes| && SinglePrefixes(l) && (SingleRanges(before) && |p.ranges| <= 1 ==> SingleRanges(l))
      invariant GrantsIn(l) == GrantsIn(before) + PrefixCopies(p, j)
      invariant AnyManyPairs(l) <==> AnyManyPairs(before) || (j > 0 && ManyPairs(p))
    {
      var c := p.(prefixes := [p.prefixes[j]]);
      GrantsSnoc(l, c);
      AnySnoc(l, c);
      l := l + [c];
      j := j + 1;
    }
    PrefixCopiesExact(p, j);
    assert p.(prefixes := p.prefixes[..j]) == p by {
      assert p.prefixes[..j] == p.prefixes;
    }
  }

  method SplitPrefixes(l2: seq<Permission>) returns (l3: seq<Permission>)
    ensures GrantsIn(l3) == GrantsIn(l2) && SinglePrefixes(l3)
    ensures SingleRanges(l2) ==> SingleRanges(l3)
    ensures AnyManyPairs(l3) <==> AnyManyPairs(l2)
  {
    l3 := [];
    var i := 0;
    while i < |l2|
      invariant i <= |l2| && GrantsIn(l3) == GrantsIn(l2[..i]) && SinglePrefixes(l3)
      invariant SingleRanges(l2) ==> SingleRanges(l3)
      invariant AnyManyPairs(l3) <==> AnyManyPairs(l2[..i])
    {
      var p := l2[i];
      GrantsNext(l2, i);
      AnyNext(l2, i);
      if |p.prefixes| <= 1 {
        GrantsSnoc(l3, p);
        AnySnoc(l3, p);
        l3 := l3 + [p];
      } else {
        l3 := AppendPrefixCopies(l3, p);
      }
      i := i + 1;
    }
    assert l2[..i] == l2;
  }

  // ---- the set ----

  predicate Single(p: Permission) {
    |p.ranges| <= 1 && |p.pairs| <= 1 && |p.prefixes| <= 1
  }

  class IPPermissionSet {
    const keyOf: Permission -> string
    var s: map<string, Permission>

    /** Members are filed under their keys, and a key tells which permission it is for. */
    ghost predicate Valid()
      reads this
    {
      && (forall p, q :: keyOf(p) == keyOf(q) ==> p == q)
      && (forall k :: k in s ==> keyOf(s[k]) == k)
    }

    ghost function Members(): set<Permission>
      reads this
    {
      s.Values
    }

    constructor (keyOf: Permission -> string)
      requires forall p, q :: keyOf(p) == keyOf(q) ==> p == q
      ensures Valid() && Members() == {} && this.keyOf == keyOf
    {
      this.keyOf, s := keyOf, map[];
    }

    method Insert(items: seq<Permission>)
      requires Valid()
      modifies this
      ensures Valid() && Members() == old(Members()) + set p | p in items
    {
      var i := 0;
      while i < |items|
        invariant i <= |items| && Valid() && Members() == old(Members()) + set p | p in items[..i]
      {
        InsertOne(items[i]);
        assert items[..i + 1] == items[..i] + [items[i]];
        i := i + 1;
      }
      assert items[..i] == items;
    }

    method InsertOne(p: Permission)
      requires Valid()
      modifies this
      ensures Valid() && Members() == old(Members()) + {p}
    {
      var k := keyOf(p);
      ghost var before := s;
      s := s[k := p];
      forall q
        ensures q in s.Values <==> q in before.Values || q == p
      {
        if q == p {
          assert s[k] == q;
        } else if q in before.Values {
          var j :| j in before && before[j] == q;
          assert s[j] == q;
        }
      }
    }

    /** The members once each, in any order. */
    method List() returns (l: seq<Permission>)
      requires Valid()
      ensures (forall p :: p in l <==> p in Members()) && |l| == |s|
    {
      l := [];
      var rest := s.Keys;
      while rest != {}
        invariant rest <= s.Keys && |l| + |rest| == |s.Keys|
        invariant forall p :: p in l <==> exists k :: k in s && k !in rest && s[k] == p
        decreases |rest|
      {
        var k :| k in rest;
        rest := rest - {k};
        l := l + [s[k]];
      }
    }

    /** Splitting keeps exactly the grants, in any order of visits. The members that come out are
        single exactly when no member that goes in has more than one pair. */
    method Ungroup() returns (r: IPPermissionSet)
      requires Valid()
      ensures fresh(r) && r.Valid() && r.keyOf == keyOf
      ensures GrantsOfSet(r.Members()) == GrantsOfSet(Members())
      ensures (forall p :: p in r.Members() ==> Single(p)) <==> (forall p :: p in Members() ==> !ManyPairs(p))
    {
      var list := List();
      var l := SplitRanges(list);
      var l2 := SplitPairs(l);
      var l3 := SplitPrefixes(l2);
      r := new IPPermissionSet(keyOf);
      r.Insert(l3);
      ListGrants(list, Members());
      ListGrants(l3, r.Members());
      ManyPairsIff(list, l3);
    }

    method IsSuperset(s2: IPPermissionSet) returns (b: bool)
      requires Valid() && s2.Valid() && s2.keyOf == keyOf
      ensures b <==> s2.Members() <= Members()
    {
      var rest := s2.s.Keys;
      while rest != {}
        invariant rest <= s2.s.Keys && s2.s.Keys - rest <= s.Keys
        decreases |rest|
      {
        var k :| k in rest;
        if k !in s {
          NotMember(s2, k);
          return false;
        }
        rest := rest - {k};
      }
      KeysToMembers(s2);
      b := true;
    }

    /** A member of `s2` whose key is not here is not a member here. */
    lemma NotMember(s2: IPPermissionSet, k: string)
      requires Valid() && s2.Valid() && s2.keyOf == keyOf && k in s2.s && k !in s
      ensures s2.s[k] in s2.Members() && s2.s[k] !in Members()
    {
    }

    lemma KeysToMembers(s2: IPPermissionSet)
      requires Valid() && s2.Valid() && s2.keyOf == keyOf && s2.s.Keys <= s.Keys
      ensures s2.Members() <= Members()
    {
      forall p | p in s2.Members()
        ensures p in Members()
      {
        var k :| k in s2.s && s2.s[k] == p;
        assert keyOf(s[k]) == keyOf(p);
      }
    }

    /** The same size and all members of the other: exactly the same members. */
    method Equal(s2: IPPermissionSet) returns (b: bool)
      requires Valid() && s2.Valid() && s2.keyOf == keyOf
      ensures b <==> Members() == s2.Members()
    {
      SizeOfMembers();
      s2.SizeOfMembers();
      if |s| != |s2.s| {
        return false;
      }
      b := IsSuperset(s2);
      if b {
        SubsetSameSize(s2.Members(), Members());
      }
    }

    lemma SizeOfMembers()
      requires Valid()
      ensures |s| == |Members()|
    {
      ValuesSize(s, keyOf);
    }

    method Difference(s2: IPPermissionSet) returns (r: IPPermissionSet)
      requires Valid() && s2.Valid() && s2.keyOf == keyOf
      ensures fresh(r) && r.Valid() && r.keyOf == keyOf && r.Members() == Members() - s2.Members()
    {
      r := new IPPermissionSet(keyOf);
      var result := Others(s2);
      DifferenceMembers(result, s2);
      r.s := result;
    }

    method Others(s2: IPPermissionSet) returns (result: map<string, Permission>)
      ensures forall k :: k in result <==> k in s && k !in s2.s
      ensures forall k :: k in result ==> result[k] == s[k]
    {
      result := map[];
      var rest := s.Keys;
      while rest != {}
        invariant rest <= s.Keys
        invariant forall k :: k in result <==> k in s && k !in rest && k !in s2.s
        invariant forall k :: k in result ==> result[k] == s[k]
        decreases |rest|
      {
        var k :| k in rest;
        if k !in s2.s {
          result := result[k := s[k]];
        }
        rest := rest - {k};
      }
    }

    /** A key is for one permission, here and there. */
    lemma KeysAgree(s2: IPPermissionSet)
      requires Valid() && s2.Valid() && s2.keyOf == keyOf
      ensures forall k :: k in s && k in s2.s ==> s[k] == s2.s[k]
    {
    }

    lemma DifferenceMembers(result: map<string, Permission>, s2: IPPermissionSet)
      requires Valid() && s2.Valid() && s2.keyOf == keyOf
      requires forall k :: k in result <==> k in s && k !in s2.s
      requires forall k :: k in result ==> result[k] == s[k]
      ensures result.Values == Members() - s2.Members()
    {
      KeysAgree(s2);
      forall p | p in result.Values
        ensures p in Members() && p !in s2.Members()
      {
        var k :| k in result && result[k] == p;
        assert forall j :: j in s2.s && s2.s[j] == p ==> j == keyOf(p) == k;
      }
      assert forall k :: k in s2.s ==> s2.s[k] in s2.Members();
      forall p | p in Members() && p !in s2.Members()
        ensures p in result.Values
      {
        var k :| k in s && s[k] == p;
        assert result[k] == p;
      }
    }
  }

  function GrantsOfSet(ps: set<Permission>): set<Grant> {
    set p, g | p in ps && g in Grants(p) :: g
  }

  lemma ListGrants(l: seq<Permission>, ps: set<Permission>)
    requires forall p :: p in l <==> p in ps
    ensures GrantsIn(l) == GrantsOfSet(ps)
  {
    forall g
      ensures g in GrantsIn(l) <==> g in GrantsOfSet(ps)
    {
      GrantsInExact(l, g);
      assert forall i :: 0 <= i < |l| ==> l[i] in ps;
    }
  }

  lemma ManyPairsIff(list: seq<Permission>, l3: seq<Permission>)
    requires SingleRanges(l3) && SinglePrefixes(l3) && (AnyManyPairs(l3) <==> AnyManyPairs(list))
    ensures (forall p :: p in l3 ==> Single(p)) <==> (forall p :: p in list ==> !ManyPairs(p))
  {
    if AnyManyPairs(list) {
      var i :| 0 <= i < |list| && ManyPairs(list[i]);
      var j :| 0 <= j < |l3| && ManyPairs(l3[j]);
      assert list[i] in list && l3[j] in l3 && !Single(l3[j]);
    }
  }

  lemma SubsetSameSize<T>(a: set<T>, b: set<T>)
    requires a <= b && |a| == |b|
    ensures a == b
  {
    if x :| x in b && x !in a {
      SubsetSize(a, b - {x});
    }
  }

  lemma {:induction false} SubsetSize<T>(a: set<T>, b: set<T>)
    requires a <= b
    ensures |a| <= |b|
  {
    if x :| x in a {
      SubsetSize(a - {x}, b - {x});
    }
  }

  lemma {:induction false} ValuesSize(m: map<string, Permission>, keyOf: Permission -> string)
    requires forall k :: k in m ==> keyOf(m[k]) == k
    ensures |m| == |m.Values|
  {
    if k :| k in m {
      var rest := m - {k};
      ValuesSize(rest, keyOf);
      forall p
        ensures p in m.Values <==> p in rest.Values || p == m[k]
      {
        if p in m.Values && p != m[k] {
          var j :| j in m && m[j] == p;
          assert rest[j] == p;
        }
      }
      assert m.Values == rest.Values + {m[k]};
      assert m[k] !in rest.Values;
    }
  }
}
