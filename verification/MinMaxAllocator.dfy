/** An allocator of numbers in a range, with a cached count of the free ones. */
module MinMaxAllocators {
  import opened Common

  const TWO_63: int := 0x8000_0000_0000_0000
  const TWO_64: int := 0x1_0000_0000_0000_0000

  /** Go's int on a 64-bit machine. */
  type Int64 = x: int | -TWO_63 <= x < TWO_63

  function Wrap64(x: int): (r: Int64)
  {
    (x + TWO_63) % TWO_64 - TWO_63
  }

  /** Wrapping early or late is the same, and small numbers are not changed. */
  lemma WrapFacts(x: int, d: int)
    ensures Wrap64(Wrap64(x) + d) == Wrap64(x + d)
    ensures -TWO_63 <= x < TWO_63 ==> Wrap64(x) == x
    ensures 0 <= x <= TWO_64 ==> (Wrap64(x) > 0 <==> 0 < x < TWO_63)
  {
    var q := (x + TWO_63) / TWO_64;
    assert Wrap64(x) == x - q * TWO_64;
    SameRemainder(x + d + TWO_63, -q);
    if TWO_63 <= x < TWO_64 {
      SameRemainder(x + TWO_63 - TWO_64, 1);
    }
  }

  lemma SameRemainder(x: int, q: int)
    ensures (x + q * TWO_64) % TWO_64 == x % TWO_64
  {
    var k, r := x / TWO_64, x % TWO_64;
    assert x + q * TWO_64 == (k + q) * TWO_64 + r;
  }

  datatype Error = ErrConflict | ErrInvalidRange | ErrOutOfRange | ErrRangeFull | ErrInternal

  function Within(numbers: set<int>, lo: int, hi: int): set<int> {
    set i | i in numbers && lo <= i <= hi
  }

  lemma WithinWithout(numbers: set<int>, i: int, lo: int, hi: int)
    requires i in numbers
    ensures |Within(numbers, lo, hi)| == |Within(numbers - {i}, lo, hi)| + if lo <= i <= hi then 1 else 0
  {
    assert Within(numbers, lo, hi) == Within(numbers - {i}, lo, hi) + if lo <= i <= hi then {i} else {};
  }

  /** What an allocator stands for. */
  datatype Table = Table(min: int, max: int, used: set<int>) {

    predicate InRange(i: int) {
      min <= i <= max
    }

    function UsedInRange(): set<int> {
      Within(used, min, max)
    }

    ghost function Unused(): set<int> {
      set i | min <= i <= max && i !in used
    }

    /** The count that the allocator caches, before it wraps. */
    function Free(): int {
      1 + max - min - |UsedInRange()|
    }

    ghost predicate LeastUnused(i: int) {
      InRange(i) && i !in used && forall j :: min <= j < i ==> j in used
    }

    /** The first unused number from `i` on. */
    function FirstFrom(i: int): Option<int>
      decreases max - i
    {
      if i > max then None else if i !in used then Some(i) else FirstFrom(i + 1)
    }

    function SetRange(lo: int, hi: int): Table {
      this.(min := lo, max := hi)
    }

    function Take(i: int): Table {
      this.(used := used + {i})
    }

    function Release(i: int): Table {
      this.(used := used - {i})
    }

    function Next(): Result<int, Error>
      requires min <= max
    {
      var first := FirstFrom(min);
      if 0 < Free() < TWO_63 && first.Some? then Ok(first.value) else Err(ErrRangeFull)
    }
  }

  function Interval(lo: int, hi: int): (s: set<int>)
    ensures forall i :: i in s <==> lo <= i <= hi
    decreases hi - lo
  {
    if lo > hi then {} else {lo} + Interval(lo + 1, hi)
  }

  lemma {:induction false} IntervalSize(lo: int, hi: int)
    requires lo <= hi + 1
    ensures |Interval(lo, hi)| == hi - lo + 1
    decreases hi - lo
  {
    if lo <= hi {
      IntervalSize(lo + 1, hi);
    }
  }

  /** The cached count is the number of unused numbers of the range. */
  lemma FreeCountsUnused(t: Table)
    requires t.min <= t.max
    ensures t.Free() == |t.Unused()|
  {
    IntervalSize(t.min, t.max);
    assert Interval(t.min, t.max) == t.UsedInRange() + t.Unused();
    assert t.UsedInRange() !! t.Unused();
  }

  lemma {:induction false} FirstFromIsLeast(t: Table, i: int)
    requires t.min <= i && forall j :: t.min <= j < i ==> j in t.used
    ensures var r := t.FirstFrom(i);
            if r.Some? then t.LeastUnused(r.value) else forall j :: t.InRange(j) ==> j in t.used
    decreases t.max - i
  {
    if i <= t.max && i in t.used {
      FirstFromIsLeast(t, i + 1);
    }
  }

  /** A least unused number exists exactly when the count is positive (pigeonhole). */
  lemma FirstFromIff(t: Table)
    requires t.min <= t.max
    ensures t.FirstFrom(t.min).Some? <==> t.Free() > 0
    ensures t.FirstFrom(t.min).Some? ==> t.LeastUnused(t.FirstFrom(t.min).value)
  {
    FirstFromIsLeast(t, t.min);
    FreeCountsUnused(t);
    if t.FirstFrom(t.min).Some? {
      assert t.FirstFrom(t.min).value in t.Unused();
    } else {
      assert t.Unused() == {};
    }
  }

  /** Taking or releasing a number moves the count by one if the number is in range. */
  lemma CountMoves(t: Table, i: int)
    ensures i !in t.used ==> t.Take(i).Free() == t.Free() - if t.InRange(i) then 1 else 0
    ensures i in t.used ==> t.Release(i).Free() == t.Free() + if t.InRange(i) then 1 else 0
  {
    assert t.Take(i).UsedInRange() == t.UsedInRange() + (if t.InRange(i) then {i} else {});
    assert t.Release(i).UsedInRange() == t.UsedInRange() - {i};
  }

  lemma FreeBounds(t: Table)
    requires -TWO_63 <= t.min <= t.max < TWO_63
    ensures 0 <= t.Free() <= TWO_64
  {
    FreeCountsUnused(t);
  }

  class MinMaxAllocator {
    var min: Int64
    var max: Int64
    var free: Int64
    var used: map<Int64, bool>

    ghost function View(): Table
      reads this
    {
      Table(min, max, used.Keys)
    }

    /** The range is not empty, and `free` is the exact count, wrapped. */
    ghost predicate Valid()
      reads this
    {
      min <= max && free == Wrap64(View().Free())
    }

    constructor (min: Int64, max: Int64)
      requires min <= max
      ensures Valid() && View() == Table(min, max, {})
    {
      this.min, this.max, this.free, this.used := min, max, Wrap64(1 + max - min), map[];
      new;
      assert View().UsedInRange() == {};
    }

    static method New(min: Int64, max: Int64) returns (r: Result<MinMaxAllocator, Error>)
      ensures r.Ok? <==> min <= max
      ensures r.Ok? ==> fresh(r.value) && r.value.Valid() && r.value.View() == Table(min, max, {})
      ensures r.Err? ==> r.error == ErrInvalidRange
    {
      if min > max {
        return Err(ErrInvalidRange);
      }
      var a := new MinMaxAllocator(min, max);
      r := Ok(a);
    }

    predicate InRange(i: Int64)
      reads this
    {
      min <= i <= max
    }

    /** Used numbers are kept, whether or not they are in the new range. */
    method SetRange(lo: Int64, hi: Int64) returns (r: Result<(), Error>)
      requires Valid()
      modifies this
      ensures Valid()
      ensures r == if lo > hi then Err(ErrInvalidRange) else Ok(())
      ensures View() == if lo > hi then old(View()) else old(View()).SetRange(lo, hi)
      ensures used == old(used) && (if lo > hi then min == old(min) && max == old(max) else min == lo && max == hi)
    {
      if lo > hi {
        return Err(ErrInvalidRange);
      }
      if min == lo && max == hi {
        return Ok(());
      }
      min, max := lo, hi;
      var numUsed := 0;
      var rest := used.Keys;
      while rest != {}
        invariant View() == old(View()).SetRange(lo, hi) && used == old(used) && min == lo && max == hi
        invariant numUsed + |Within(rest, lo, hi)| == |View().UsedInRange()|
        decreases |rest|
      {
        var i :| i in rest;
        if InRange(i) {
          numUsed := numUsed + 1;
        }
        WithinWithout(rest, i, lo, hi);
        rest := rest - {i};
      }
      free := Wrap64(1 + max - min - numUsed);
      r := Ok(());
    }

    method Allocate(i: Int64) returns (r: Result<(), Error>)
      requires Valid()
      modifies this
      ensures Valid()
      ensures r == if i < old(min) || i > old(max) then Err(ErrOutOfRange)
                   else if i in old(used) then Err(ErrConflict) else Ok(())
      ensures View() == if r.Ok? then old(View()).Take(i) else old(View())
      ensures used.Keys == old(used).Keys + (if r.Ok? then {i} else {}) && min == old(min) && max == old(max)
    {
      if !InRange(i) {
        return Err(ErrOutOfRange);
      }
      if i in used {
        return Err(ErrConflict);
      }
      CountMoves(View(), i);
      WrapFacts(View().Free(), -1);
      used := used[i := true];
      free := Wrap64(free - 1);
      assert View() == old(View()).Take(i);
      r := Ok(());
    }

    /** The least unused number, or ErrRangeFull; ErrInternal is never returned. The range is
        reported full although it is not when 2^63 or more of its numbers are free. */
    method AllocateNext() returns (r: Result<Int64, Error>)
      requires Valid()
      modifies this
      ensures Valid()
      ensures r.Ok? <==> 0 < old(View()).Free() < TWO_63
      ensures r.Ok? ==> old(View()).LeastUnused(r.value) && View() == old(View()).Take(r.value)
      ensures r.Ok? ==> min <= r.value <= max && r.value !in old(used)
      ensures r.Ok? ==> forall j :: min <= j < r.value ==> j in old(used)
      ensures used.Keys == old(used).Keys + (if r.Ok? then {r.value} else {}) && min == old(min) && max == old(max)
      ensures r.Err? ==> r.error == ErrRangeFull && View() == old(View())
    {
      ghost var t := View();
      FreeBounds(t);
      WrapFacts(t.Free(), -1);
      if free <= 0 {
        return Err(ErrRangeFull);
      }
      FirstFromIff(t);
      ghost var least := t.FirstFrom(t.min).value;
      var i := min;
      while i <= max
        invariant View() == t && Valid() && free > 0
        invariant min <= i <= least
        decreases max - i
      {
        if i !in used {
          CountMoves(t, i);
          used := used[i := true];
          free := Wrap64(free - 1);
          assert View() == t.Take(i);
          return Ok(i);
        }
        i := Wrap64(i + 1);
      }
      r := Err(ErrInternal);
    }

    method Release(i: Int64)
      requires Valid()
      modifies this
      ensures Valid() && View() == old(View()).Release(i)
      ensures used.Keys == old(used).Keys - {i} && min == old(min) && max == old(max)
    {
      if i !in used {
        assert View().Release(i) == View();
        return;
      }
      CountMoves(View(), i);
      WrapFacts(View().Free(), 1);
      used := used - {i};
      assert View() == old(View()).Release(i);
      if InRange(i) {
        free := Wrap64(free + 1);
      }
    }

    method Has(i: Int64) returns (b: bool)
      ensures b <==> i in View().used
    {
      b := i in used;
    }

    /** Exact as long as fewer than 2^63 numbers are free. */
    method Free() returns (n: Int64)
      requires Valid()
      ensures n == Wrap64(|View().Unused()|)
      ensures |View().Unused()| < TWO_63 ==> n == |View().Unused()|
    {
      FreeCountsUnused(View());
      WrapFacts(View().Free(), 0);
      n := free;
    }
  }

  /** The full range of 64-bit numbers, and any range of at least 2^63 free numbers, is
      reported full: the condition of `AllocateNext` cannot be dropped. */
  lemma HugeRangeReportsFull(lo: Int64, hi: Int64)
    requires hi - lo >= TWO_63 - 1
    ensures Table(lo, hi, {}).Next() == Err(ErrRangeFull) && lo in Table(lo, hi, {}).Unused()
  {
    FreeCountsUnused(Table(lo, hi, {}));
    assert Table(lo, hi, {}).UsedInRange() == {};
  }

  /** `Next` gives what `AllocateNext` gives. */
  lemma NextIff(t: Table)
    requires t.min <= t.max
    ensures t.Next().Ok? <==> 0 < t.Free() < TWO_63
    ensures t.Next().Ok? ==> t.LeastUnused(t.Next().value)
    ensures t.Next().Err? ==> t.Next().error == ErrRangeFull
  {
    FirstFromIff(t);
  }
}
