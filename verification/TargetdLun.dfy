/** The first free LUN of a targetd export list. */
module TargetdLun {
  import opened Common

  datatype Export = Export(lun: int, initiator: string)

  datatype LunError = NoLunsLeft

  ghost function Luns(exports: seq<Export>): set<int> {
    set e | e in exports :: e.lun
  }

  ghost predicate LeastUnused(luns: set<int>, v: int) {
    v >= 0 && v !in luns && forall j :: 0 <= j < v ==> j in luns
  }

  predicate Increasing(s: seq<int>) {
    forall i, j :: 0 <= i < j < |s| ==> s[i] < s[j]
  }

  /** sort.Sort on numbers without duplicates. */
  method Sort(luns: seq<int>) returns (s: seq<int>)
    requires forall i, j :: 0 <= i < j < |luns| ==> luns[i] != luns[j]
    ensures Increasing(s) && |s| == |luns| && forall x :: x in s <==> x in luns
  {
    s := [];
    var i := 0;
    while i < |luns|
      invariant i <= |luns| && |s| == i && Increasing(s)
      invariant forall x :: x in s <==> x in luns[..i]
    {
      var k := 0;
      while k < |s| && s[k] < luns[i]
        invariant k <= |s| && forall j :: 0 <= j < k ==> s[j] < luns[i]
      {
        k := k + 1;
      }
      assert luns[i] !in luns[..i];
      assert k < |s| ==> s[k] in s && s[k] != luns[i];
      assert luns[..i + 1] == luns[..i] + [luns[i]];
      ghost var before := s;
      s := s[..k] + [luns[i]] + s[k..];
      SplitIn(before, k, luns[i]);
      i := i + 1;
    }
    assert luns[..i] == luns;
  }

  lemma SplitIn(s: seq<int>, k: nat, y: int)
    requires k <= |s|
    ensures forall x :: x in s[..k] + [y] + s[k..] <==> x in s || x == y
  {
    assert s == s[..k] + s[k..];
  }

  /** The first place where the sorted list is ahead of its index. */
  method FirstGap(s: seq<int>) returns (lun: nat)
    ensures lun <= |s| && (forall i :: 0 <= i < lun ==> s[i] <= i) && (lun < |s| ==> lun < s[lun])
  {
    lun := |s|;
    var i := 0;
    while i < |s|
      invariant i <= |s| && lun == |s| && forall j :: 0 <= j < i ==> s[j] <= j
    {
      if i < s[i] {
        lun := i;
        return;
      }
      i := i + 1;
    }
  }

  lemma GapIsUnused(s: seq<int>, lun: nat)
    requires Increasing(s) && lun <= |s| && (forall i :: 0 <= i < lun ==> s[i] <= i) && (lun < |s| ==> lun < s[lun])
    ensures lun !in s
  {
    forall i | 0 <= i < |s|
      ensures s[i] != lun
    {
      if i > lun {
        assert s[lun] < s[i];
      }
    }
  }

  /** Distinct numbers from zero on are at least their index. */
  lemma {:induction false} AtLeastIndex(s: seq<int>, i: nat)
    requires Increasing(s) && i < |s| && s[0] >= 0
    ensures s[i] >= i
  {
    if i > 0 {
      AtLeastIndex(s, i - 1);
      assert s[i - 1] < s[i];
    }
  }

  /** With a negative number in front, some number below the gap is missing: the last index
      that its element is behind. */
  lemma {:induction false} MissingBelow(s: seq<int>, lun: nat, i: nat) returns (j: nat)
    requires Increasing(s) && i < lun <= |s| && s[0] < 0
    requires (forall k :: 0 <= k < lun ==> s[k] <= k) && (i + 1 < |s| ==> i + 1 <= s[i + 1])
    ensures j < lun && j !in s
    decreases i
  {
    if s[i] < i {
      j := i;
      forall k | 0 <= k < |s|
        ensures s[k] != i
      {
        if k < i {
          assert s[k] < s[i];
        } else if k > i + 1 {
          assert s[i + 1] < s[k];
        }
      }
    } else {
      j := MissingBelow(s, lun, i - 1);
    }
  }

  /** The gap is the least unused number exactly when no number is negative. */
  lemma GapLeastIff(s: seq<int>, luns: set<int>, lun: nat)
    requires Increasing(s) && forall x :: x in s <==> x in luns
    requires lun <= |s| && (forall i :: 0 <= i < lun ==> s[i] <= i) && (lun < |s| ==> lun < s[lun])
    ensures LeastUnused(luns, lun) <==> forall l :: l in luns ==> l >= 0
  {
    GapIsUnused(s, lun);
    if forall l :: l in luns ==> l >= 0 {
      forall j | 0 <= j < lun
        ensures j in luns
      {
        assert s[0] in s;
        AtLeastIndex(s, j);
        assert s[j] == j;
      }
    } else {
      var l :| l in luns && l < 0;
      var k :| 0 <= k < |s| && s[k] == l;
      assert s[0] <= s[k];
      var j := MissingBelow(s, lun, lun - 1);
      assert j !in luns;
    }
  }

  lemma SizeOfDistinct(s: seq<int>, luns: set<int>)
    requires (forall i, j :: 0 <= i < j < |s| ==> s[i] != s[j]) && forall x :: x in s <==> x in luns
    ensures |s| == |luns|
  {
    if s == [] {
      assert forall x :: x in luns ==> x in s;
      assert luns == {};
    } else {
      var rest, last := s[..|s| - 1], s[|s| - 1];
      assert s == rest + [last];
      SizeOfDistinct(rest, luns - {last});
    }
  }

  /** One export for each LUN. */
  method UniqueExports(exports: seq<Export>) returns (uniqueExport: map<int, Export>)
    ensures uniqueExport.Keys == Luns(exports) && forall l :: l in uniqueExport ==> uniqueExport[l].lun == l
  {
    uniqueExport := map[];
    var n := 0;
    while n < |exports|
      invariant n <= |exports| && uniqueExport.Keys == Luns(exports[..n])
      invariant forall l :: l in uniqueExport ==> uniqueExport[l].lun == l
    {
      uniqueExport := uniqueExport[exports[n].lun := exports[n]];
      LunsNext(exports, n);
      n := n + 1;
    }
    assert exports[..n] == exports;
  }

  /** The LUNs of a map's exports, in any order. */
  method ListLuns(uniqueExport: map<int, Export>) returns (luns: seq<int>)
    requires forall l :: l in uniqueExport ==> uniqueExport[l].lun == l
    ensures forall x :: x in luns <==> x in uniqueExport
    ensures forall i, j :: 0 <= i < j < |luns| ==> luns[i] != luns[j]
  {
    luns := [];
    var rest := uniqueExport.Keys;
    while exists l :: l in rest
      invariant rest <= uniqueExport.Keys
      invariant forall x :: x in luns <==> x in uniqueExport && x !in rest
      invariant forall i, j :: 0 <= i < j < |luns| ==> luns[i] != luns[j]
      decreases |rest|
    {
      var l :| l in rest;
      assert l !in luns;
      luns := luns + [uniqueExport[l].lun];
      rest := rest - {l};
    }
  }

  /** An error exactly when 255 or more different LUNs are used; otherwise an unused LUN of
      0..254, the least one exactly when no LUN in the list is negative. */
  method GetFirstAvailableLun(exports: seq<Export>) returns (r: Result<int, LunError>)
    ensures r.Err? <==> |Luns(exports)| >= 255
    ensures r.Ok? ==> 0 <= r.value <= 254 && r.value !in Luns(exports)
    ensures r.Ok? ==> (LeastUnused(Luns(exports), r.value) <==> forall l :: l in Luns(exports) ==> l >= 0)
  {
    var uniqueExport := UniqueExports(exports);
    var luns := ListLuns(uniqueExport);
    SizeOfDistinct(luns, Luns(exports));
    if |luns| >= 255 {
      return Err(NoLunsLeft);
    }
    var sluns := Sort(luns);
    var lun := FirstGap(sluns);
    GapIsUnused(sluns, lun);
    GapLeastIff(sluns, Luns(exports), lun);
    return Ok(lun);
  }

  lemma LunsNext(exports: seq<Export>, n: nat)
    requires n < |exports|
    ensures Luns(exports[..n + 1]) == Luns(exports[..n]) + {exports[n].lun}
  {
    assert exports[..n + 1] == exports[..n] + [exports[n]];
  }
}
