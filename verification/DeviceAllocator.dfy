/** The ring of EBS device names. */
module DeviceAllocators {
  import opened Common

  const COUNT: int := 52

  function DeviceName(i: nat): string
    requires i < COUNT
  {
    [if i < 26 then 'b' else 'c', 'a' + (i % 26) as char]
  }

  /** ba..bz, ca..cz */
  function DeviceNames(): (names: seq<string>)
    ensures |names| == COUNT && forall i :: 0 <= i < COUNT ==> names[i] == DeviceName(i)
  {
    seq(COUNT, i requires 0 <= i < COUNT => DeviceName(i))
  }

  /** The names in order: "ba" to "bz", then "ca" to "cz". */
  lemma NamesInOrder(i: nat)
    requires i < 26
    ensures var first, second := DeviceNames()[i], DeviceNames()[26 + i];
            && |first| == |second| == 2 && first[0] == 'b' && second[0] == 'c'
            && first[1] == second[1] && first[1] as int == 'a' as int + i
  {
  }

  /** Different places of the ring have different names. */
  lemma NamesDistinct(i: nat, j: nat)
    requires i < COUNT && j < COUNT && DeviceName(i) == DeviceName(j)
    ensures i == j
  {
    assert DeviceName(i)[0] == DeviceName(j)[0] && DeviceName(i)[1] == DeviceName(j)[1];
  }

  /** The index that is tried first after `last`. */
  function After(n: nat, last: int): (i: nat)
    requires n > 0 && last >= -1
    ensures i < n
  {
    if last + 1 < n then last + 1 else 0
  }

  /** `o` places on from `start`, around the ring. */
  function Ring(n: nat, start: nat, o: nat): (i: nat)
    requires start < n && o <= n
    ensures i < n
  {
    if start + o < n then start + o else start + o - n
  }

  /** The devices that are not attached. */
  function FreeDevices(names: seq<string>, existing: set<string>): set<nat> {
    set i: nat | i < |names| && names[i] !in existing
  }

  /** How far from `start` the first free device is, from `o` places on, within one turn. */
  function FirstFree(n: nat, free: set<nat>, start: nat, o: nat): (r: Option<nat>)
    requires start < n && o <= n
    ensures r.Some? ==> o <= r.value < n && Ring(n, start, r.value) in free
    ensures r.Some? ==> forall p :: o <= p < r.value ==> Ring(n, start, p) !in free
    ensures r.None? ==> forall p :: o <= p < n ==> Ring(n, start, p) !in free
    decreases n - o
  {
    if o == n then None
    else if Ring(n, start, o) in free then Some(o)
    else FirstFree(n, free, start, o + 1)
  }

  /** A turn of the ring visits every device. */
  lemma RingCovers(n: nat, start: nat, i: nat)
    requires start < n && i < n
    ensures var o := if i >= start then i - start else i + n - start; o < n && Ring(n, start, o) == i
  {
  }

  /** No device is found exactly when all are taken. */
  lemma NoneFreeIff(n: nat, free: set<nat>, start: nat)
    requires start < n && forall i :: i in free ==> i < n
    ensures FirstFree(n, free, start, 0).None? <==> free == {}
  {
    if FirstFree(n, free, start, 0).None? {
      forall i: nat | i < n
        ensures i !in free
      {
        RingCovers(n, start, i);
      }
    } else {
      assert Ring(n, start, FirstFree(n, free, start, 0).value) in free;
    }
  }

  /** On the way around the ring from one index to another, both left out. */
  predicate Passed(last: int, next: int, i: int) {
    if last < next then last < i < next else last < i || i < next
  }

  lemma PassedAreTaken(n: nat, free: set<nat>, last: int, i: nat)
    requires n > 0 && last >= -1 && i < n && FirstFree(n, free, After(n, last), 0).Some?
    requires Passed(last, Ring(n, After(n, last), FirstFree(n, free, After(n, last), 0).value), i)
    ensures i !in free
  {
    var start := After(n, last);
    RingCovers(n, start, i);
  }

  datatype DeviceError = NoDevices

  class DeviceAllocator {
    const possibleDevices: seq<string>
    var lastIndex: int

    constructor (lastIndex: int)
      ensures this.lastIndex == lastIndex && possibleDevices == DeviceNames()
    {
      this.lastIndex, possibleDevices := lastIndex, DeviceNames();
    }

    ghost function Free(existing: set<string>): set<nat> {
      FreeDevices(possibleDevices, existing)
    }

    method NextDevice(nextIndex: nat) returns (device: string, index: nat)
      requires possibleDevices != []
      ensures index == (if nextIndex < |possibleDevices| then nextIndex else 0) && device == possibleDevices[index]
    {
      if nextIndex < |possibleDevices| {
        return possibleDevices[nextIndex], nextIndex;
      }
      return possibleDevices[0], 0;
    }

    /** The first free device after the last one, around the ring; an error, with the last index
        kept, exactly when all are taken. From an index outside the ring the search ends only if
        some device is free. */
    method GetNext(existingDevices: map<string, string>) returns (r: Result<string, DeviceError>)
      requires possibleDevices != [] && lastIndex >= -1
      requires 0 <= lastIndex < |possibleDevices| || Free(existingDevices.Keys) != {}
      modifies this
      ensures var n := |possibleDevices|;
              var start := After(n, old(lastIndex));
              var first := FirstFree(n, Free(existingDevices.Keys), start, 0);
              if first.Some? then lastIndex == Ring(n, start, first.value) && r == Ok(possibleDevices[lastIndex])
              else lastIndex == old(lastIndex) && r == Err(NoDevices)
      ensures r.Err? <==> Free(existingDevices.Keys) == {}
      ensures r.Err? ==> forall i :: 0 <= i < |possibleDevices| ==> possibleDevices[i] in existingDevices
      ensures r.Ok? ==> 0 <= lastIndex < |possibleDevices| && r.value == possibleDevices[lastIndex]
                        && r.value !in existingDevices
      ensures r.Ok? ==> forall i :: 0 <= i < |possibleDevices| && Passed(old(lastIndex), lastIndex, i) ==>
                          possibleDevices[i] in existingDevices
    {
      ghost var n, free := |possibleDevices|, Free(existingDevices.Keys);
      ghost var start := After(n, lastIndex);
      NoneFreeIff(n, free, start);
      forall i: nat | i < n && FirstFree(n, free, start, 0).Some?
                      && Passed(lastIndex, Ring(n, start, FirstFree(n, free, start, 0).value), i)
        ensures i !in free
      {
        PassedAreTaken(n, free, lastIndex, i);
      }
      var foundIndex := lastIndex;
      ghost var o := 0;
      while true
        invariant 0 <= o < n && lastIndex == old(lastIndex)
        invariant FirstFree(n, free, start, 0) == FirstFree(n, free, start, o)
        invariant foundIndex >= -1 && After(n, foundIndex) == Ring(n, start, o)
        decreases n - o
      {
        var candidate;
        candidate, foundIndex := NextDevice(foundIndex + 1);
        assert candidate !in existingDevices <==> foundIndex in free;
        if candidate !in existingDevices {
          lastIndex := foundIndex;
          return Ok(candidate);
        }
        if foundIndex == lastIndex {
          assert o == n - 1;
          assert forall i: nat :: i < n ==> (i in free <==> possibleDevices[i] !in existingDevices);
          return Err(NoDevices);
        }
        o := o + 1;
      }
    }
  }

  // ---- successive calls ----

  /** The devices that `m` calls return while the free ones do not change. */
  function Calls(n: nat, free: set<nat>, last: nat, m: nat): seq<nat>
    requires last < n
    decreases m
  {
    if m == 0 then []
    else
      var first := FirstFree(n, free, After(n, last), 0);
      if first.None? then []
      else
        var index := Ring(n, After(n, last), first.value);
        [index] + Calls(n, free, index, m - 1)
  }

  /** The free devices in the rest of a turn. */
  function FreeFrom(n: nat, free: set<nat>, start: nat, o: nat): (s: set<nat>)
    requires start < n && o <= n
    ensures s <= free
    decreases n - o
  {
    if o == n then {}
    else FreeFrom(n, free, start, o + 1) + if Ring(n, start, o) in free then {Ring(n, start, o)} else {}
  }

  lemma {:induction false} InRest(n: nat, free: set<nat>, start: nat, o: nat, p: nat)
    requires start < n && o <= n && p < n
    ensures Ring(n, start, p) in FreeFrom(n, free, start, o) <==> o <= p && Ring(n, start, p) in free
    decreases n - o
  {
    if o < n {
      InRest(n, free, start, o + 1, p);
    }
  }

  lemma RingOn(n: nat, start: nat, o: nat, p: nat)
    requires start < n && o + p <= n
    ensures Ring(n, Ring(n, start, o), p) == Ring(n, start, o + p)
    ensures o < n ==> After(n, Ring(n, start, o)) == Ring(n, start, o + 1)
  {
  }

  /** A search that starts `o` places on finds the same device. */
  lemma {:induction false} FirstFreeShift(n: nat, free: set<nat>, start: nat, o: nat, p: nat)
    requires start < n && o + p <= n && FirstFree(n, free, start, o + p).Some?
    ensures FirstFree(n, free, Ring(n, start, o), p) == Some(FirstFree(n, free, start, o + p).value - o)
    decreases n - p
  {
    RingOn(n, start, o, p);
    if Ring(n, start, o + p) !in free {
      FirstFreeShift(n, free, start, o, p + 1);
    }
  }

  /** What is left of the turn after the first free device. */
  lemma {:induction false} FreeFromFirst(n: nat, free: set<nat>, start: nat, o: nat)
    requires start < n && o <= n && FreeFrom(n, free, start, o) != {}
    ensures var first := FirstFree(n, free, start, o);
            && first.Some?
            && Ring(n, start, first.value) !in FreeFrom(n, free, start, first.value + 1)
            && FreeFrom(n, free, start, o) == {Ring(n, start, first.value)} + FreeFrom(n, free, start, first.value + 1)
    decreases n - o
  {
    if Ring(n, start, o) in free {
      InRest(n, free, start, o + 1, o);
    } else {
      FreeFromFirst(n, free, start, o + 1);
    }
  }

  predicate Distinct(s: seq<nat>) {
    forall i, j :: 0 <= i < j < |s| ==> s[i] != s[j]
  }

  ghost predicate DistinctIn(calls: seq<nat>, m: nat, devices: set<nat>) {
    |calls| == m && Distinct(calls) && forall i :: 0 <= i < |calls| ==> calls[i] in devices
  }

  lemma OneMore(i: nat, rest: seq<nat>, m: nat, devices: set<nat>, calls: seq<nat>, all: set<nat>)
    requires DistinctIn(rest, m, devices) && i !in devices && calls == [i] + rest && all == {i} + devices
    ensures DistinctIn(calls, m + 1, all)
  {
  }

  lemma CallsFirst(n: nat, free: set<nat>, start: nat, o: nat, last: nat, m: nat)
    requires start < n && o <= n && last < n && After(n, last) == Ring(n, start, o)
    requires m > 0 && FirstFree(n, free, start, o).Some?
    ensures var i := Ring(n, start, FirstFree(n, free, start, o).value);
            Calls(n, free, last, m) == [i] + Calls(n, free, i, m - 1)
  {
    FirstFreeShift(n, free, start, o, 0);
    RingOn(n, start, o, FirstFree(n, free, start, o).value - o);
  }

  lemma NextCall(n: nat, free: set<nat>, start: nat, o: nat, last: nat, m: nat) returns (p: nat, i: nat)
    requires start < n && o <= n && last < n && After(n, last) == Ring(n, start, o)
    requires 0 < m <= |FreeFrom(n, free, start, o)|
    ensures o <= p < n && i < n && After(n, i) == Ring(n, start, p + 1)
    ensures Calls(n, free, last, m) == [i] + Calls(n, free, i, m - 1)
    ensures i !in FreeFrom(n, free, start, p + 1)
    ensures FreeFrom(n, free, start, o) == {i} + FreeFrom(n, free, start, p + 1)
    ensures m - 1 <= |FreeFrom(n, free, start, p + 1)|
  {
    FreeFromFirst(n, free, start, o);
    p := FirstFree(n, free, start, o).value;
    i := Ring(n, start, p);
    CallsFirst(n, free, start, o, last, m);
    RingOn(n, start, p, 0);
  }

  lemma {:induction false} CallsInTurn(n: nat, free: set<nat>, start: nat, o: nat, last: nat, m: nat, devices: set<nat>)
    requires start < n && o <= n && last < n && After(n, last) == Ring(n, start, o)
    requires devices == FreeFrom(n, free, start, o) && m <= |devices|
    ensures DistinctIn(Calls(n, free, last, m), m, devices)
    decreases m
  {
    if m == 0 {
      assert Calls(n, free, last, m) == [];
    } else {
      var p, i := NextCall(n, free, start, o, last, m);
      var rest := FreeFrom(n, free, start, p + 1);
      CallsInTurn(n, free, start, p + 1, i, m - 1, rest);
      OneMore(i, Calls(n, free, i, m - 1), m - 1, rest, Calls(n, free, last, m), devices);
    }
  }

  /** With k free devices and nothing attached meanwhile, any k successive calls succeed and
      return k different free devices: every free device is used before one is used again. */
  lemma SuccessiveCallsDistinct(names: seq<string>, existing: set<string>, last: nat, m: nat)
    requires last < |names| && m <= |FreeDevices(names, existing)|
    ensures DistinctIn(Calls(|names|, FreeDevices(names, existing), last, m), m, FreeDevices(names, existing))
  {
    var n, free := |names|, FreeDevices(names, existing);
    var start := After(n, last);
    assert FreeFrom(n, free, start, 0) == free by {
      forall i | i in free
        ensures i in FreeFrom(n, free, start, 0)
      {
        RingCovers(n, start, i);
        InRest(n, free, start, 0, if i >= start then i - start else i + n - start);
      }
    }
    CallsInTurn(n, free, start, 0, last, m, free);
  }

  // ---- the calls themselves ----

  /** The allocator called `m` times while `existing` stays as it is: it returns the devices of
      `Calls`, and so no device twice as long as there are free ones. */
  method GetNextTimes(a: DeviceAllocator, existing: map<string, string>, m: nat) returns (devices: seq<string>)
    requires 0 <= a.lastIndex < |a.possibleDevices| && m <= |a.Free(existing.Keys)|
    modifies a
    ensures var calls := Calls(|a.possibleDevices|, a.Free(existing.Keys), old(a.lastIndex), m);
            && |calls| == |devices| == m
            && forall i :: 0 <= i < m ==> calls[i] < |a.possibleDevices| && devices[i] == a.possibleDevices[calls[i]]
    ensures a.possibleDevices == DeviceNames() ==> forall i, j :: 0 <= i < j < m ==> devices[i] != devices[j]
    ensures forall i :: 0 <= i < m ==> devices[i] !in existing
  {
    ghost var n, free := |a.possibleDevices|, a.Free(existing.Keys);
    ghost var calls := Calls(n, free, a.lastIndex, m);
    SuccessiveCallsDistinct(a.possibleDevices, existing.Keys, a.lastIndex, m);
    devices := [];
    while |devices| < m
      invariant |devices| <= m && 0 <= a.lastIndex < n
      invariant calls[|devices|..] == Calls(n, free, a.lastIndex, m - |devices|)
      invariant forall i :: 0 <= i < |devices| ==> devices[i] == a.possibleDevices[calls[i]]
    {
      NoneFreeIff(n, free, After(n, a.lastIndex));
      assert calls[|devices|] in free;
      var device := a.GetNext(existing);
      devices := devices + [device.value];
    }
    assert m > 0 ==> calls[0] in free;
    if a.possibleDevices == DeviceNames() {
      forall i, j | 0 <= i < j < m
        ensures devices[i] != devices[j]
      {
        assert calls[i] in free && calls[j] in free && calls[i] != calls[j];
        if DeviceName(calls[i]) == DeviceName(calls[j]) {
          NamesDistinct(calls[i], calls[j]);
        }
      }
    }
  }
}
