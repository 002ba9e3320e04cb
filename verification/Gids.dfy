/** Reading GIDs: from a volume's annotation, from a storage class's parameters, and from all
    the volumes of a class. */
module Gids {
  import opened Common
  import opened Text
  import opened MinMaxAllocators

  const MAX_INT32: int := 0x7fff_ffff
  const ABSOLUTE_GID_MIN := 2000
  const ABSOLUTE_GID_MAX := MAX_INT32
  const DEFAULT_GID_MIN := 2000
  const DEFAULT_GID_MAX := MAX_INT32

  /** strconv.ParseInt(s, 10, 32) */
  function ParseInt32(s: string): (r: Option<int>)
    ensures r.Some? ==> -MAX_INT32 - 1 <= r.value <= MAX_INT32
  {
    var signed := s != "" && (s[0] == '-' || s[0] == '+');
    var digits := if signed then s[1..] else s;
    if digits == "" || !AllDigits(digits) then None
    else
      var size: int := Value(digits);
      var n := if signed && s[0] == '-' then -size else size;
      if -MAX_INT32 - 1 <= n <= MAX_INT32 then Some(n) else None
  }

  function ConvertGid(s: string): (r: Option<nat>)
    ensures r.Some? ==> r.value <= MAX_INT32
  {
    var n := ParseInt32(s);
    if n.Some? && n.value >= 0 then Some(n.value) else None
  }

  /** The annotation written for a GID reads back as that GID. */
  lemma ConvertFormatted(gid: nat)
    requires gid <= MAX_INT32
    ensures ConvertGid(FormatUint(gid)) == Some(gid)
  {
    ValueOfFormat(gid);
    assert IsDigit(FormatUint(gid)[0]);
  }

  /** Zeros, then the number as it is printed. */
  ghost predicate Numeral(digits: string, n: nat) {
    exists zeros: nat :: ZerosThen(digits, zeros, FormatUint(n))
  }

  function Zeros(n: nat): (s: string)
    ensures |s| == n && forall i :: 0 <= i < n ==> s[i] == '0'
  {
    seq(n, _ => '0')
  }

  predicate ZerosThen(digits: string, zeros: nat, rest: string) {
    digits == Zeros(zeros) + rest
  }

  lemma {:induction false} ValueAfterZeros(zeros: nat, n: nat)
    ensures AllDigits(Zeros(zeros) + FormatUint(n)) && Value(Zeros(zeros) + FormatUint(n)) == n
    decreases n
  {
    var digits := Zeros(zeros) + FormatUint(n);
    if n < 10 {
      ValueOfZeros(zeros);
      assert digits[..|digits| - 1] == Zeros(zeros);
    } else {
      ValueAfterZeros(zeros, n / 10);
      assert digits[..|digits| - 1] == Zeros(zeros) + FormatUint(n / 10);
    }
  }

  lemma {:induction false} ValueOfZeros(zeros: nat)
    ensures AllDigits(Zeros(zeros)) && Value(Zeros(zeros)) == 0
  {
    if zeros > 0 {
      ValueOfZeros(zeros - 1);
      assert Zeros(zeros)[..zeros - 1] == Zeros(zeros - 1);
    }
  }

  /** Digits denote the number that they print, and no other. */
  lemma {:induction false} ValueIff(digits: string, n: nat)
    requires digits != "" && AllDigits(digits)
    ensures Value(digits) == n <==> Numeral(digits, n)
  {
    if Numeral(digits, n) {
      var zeros: nat :| ZerosThen(digits, zeros, FormatUint(n));
      ValueAfterZeros(zeros, n);
    }
    if Value(digits) == n {
      NumeralOfValue(digits);
    }
  }

  lemma {:induction false} NumeralOfValue(digits: string)
    requires digits != "" && AllDigits(digits)
    ensures Numeral(digits, Value(digits))
  {
    var less, last := digits[..|digits| - 1], digits[|digits| - 1];
    assert digits == less + [last];
    if less == "" {
      assert Value(digits) == (last - '0') as int;
      assert ZerosThen(digits, 0, FormatUint(Value(digits)));
    } else {
      NumeralOfValue(less);
      var zeros: nat :| ZerosThen(less, zeros, FormatUint(Value(less)));
      OneMoreDigit(zeros, Value(less), last);
    }
  }

  lemma OneMoreDigit(zeros: nat, n: nat, last: char)
    requires IsDigit(last)
    ensures Numeral(Zeros(zeros) + FormatUint(n) + [last], 10 * n + (last - '0') as int)
  {
    var d := (last - '0') as int;
    var digits := Zeros(zeros) + FormatUint(n) + [last];
    assert DIGITS[d] == last;
    if n == 0 {
      assert Zeros(zeros) + FormatUint(0) == Zeros(zeros + 1);
      assert ZerosThen(digits, zeros + 1, FormatUint(d));
    } else {
      assert (10 * n + d) / 10 == n && (10 * n + d) % 10 == d;
      assert FormatUint(10 * n + d) == FormatUint(n) + [last];
      assert ZerosThen(digits, zeros, FormatUint(10 * n + d));
    }
  }

  /** Exactly these texts are read as `n`: its digits, with zeros before them, with "+", and for
      a negative number, or zero, with "-"; a number of more than 32 bits is refused. */
  lemma ParseIff(s: string, n: int)
    ensures ParseInt32(s) == Some(n) <==>
              && -0x8000_0000 <= n <= 0x7fff_ffff
              && ((n >= 0 && Numeral(s, n))
                  || (n >= 0 && s != "" && s[0] == '+' && Numeral(s[1..], n))
                  || (n <= 0 && s != "" && s[0] == '-' && Numeral(s[1..], -n)))
  {
    NumeralDigits(s, n);
    if s != "" {
      NumeralDigits(s[1..], n);
      NumeralDigits(s[1..], -n);
    }
  }

  lemma NumeralDigits(digits: string, n: int)
    ensures n >= 0 && Numeral(digits, n) <==> digits != "" && AllDigits(digits) && Value(digits) == n
  {
    if n >= 0 && Numeral(digits, n) {
      var zeros: nat :| ZerosThen(digits, zeros, FormatUint(n));
      ValueAfterZeros(zeros, n);
    }
    if digits != "" && AllDigits(digits) && n >= 0 {
      ValueIff(digits, n);
    }
  }

  /** So a GID is read from these texts only. */
  lemma ConvertIff(s: string, gid: nat)
    ensures ConvertGid(s) == Some(gid) <==>
              && gid <= 0x7fff_ffff
              && (Numeral(s, gid)
                  || (s != "" && s[0] == '+' && Numeral(s[1..], gid))
                  || (gid == 0 && s != "" && s[0] == '-' && Numeral(s[1..], 0)))
  {
    ParseIff(s, gid);
  }

  // ---- storage class parameters ----

  datatype Parameter = Parameter(key: string, value: string)

  datatype ParameterError = BadValue | BelowMinimum | EmptyRange

  /** How Go lowers one character; which one that is does not matter here. */
  type Lowering = char -> char

  /** strings.ToLower */
  function ToLower(s: string, lower: Lowering): string {
    seq(|s|, i requires 0 <= i < |s| => lower(s[i]))
  }

  /** A value that can bound a range. */
  predicate ValidBound(p: Parameter, lower: Lowering) {
    ToLower(p.key, lower) in {"gidmin", "gidmax"} ==>
      ConvertGid(p.value).Some? && ConvertGid(p.value).value >= ABSOLUTE_GID_MIN
  }

  /** The value of the last parameter with this lower-case key. */
  function LastOf(params: seq<Parameter>, key: string, lower: Lowering): (r: Option<string>)
  {
    if params == [] then None
    else if ToLower(params[|params| - 1].key, lower) == key then Some(params[|params| - 1].value)
    else LastOf(params[..|params| - 1], key, lower)
  }

  function Bound(params: seq<Parameter>, key: string, default: int, lower: Lowering): int {
    var v := LastOf(params, key, lower);
    if v.Some? && ConvertGid(v.value).Some? then ConvertGid(v.value).value else default
  }

  predicate AllValid(params: seq<Parameter>, lower: Lowering) {
    forall i :: 0 <= i < |params| ==> ValidBound(params[i], lower)
  }

  lemma LastOfNext(params: seq<Parameter>, i: nat, key: string, lower: Lowering)
    requires i < |params|
    ensures AllValid(params[..i + 1], lower) <==> AllValid(params[..i], lower) && ValidBound(params[i], lower)
    ensures LastOf(params[..i + 1], key, lower) ==
              if ToLower(params[i].key, lower) == key then Some(params[i].value) else LastOf(params[..i], key, lower)
  {
    assert params[..i + 1][..i] == params[..i] && params[..i + 1][i] == params[i];
    assert forall j :: 0 <= j < i ==> params[..i + 1][j] == params[..i][j];
  }

  lemma BoundNext(params: seq<Parameter>, i: nat, key: string, default: int, lower: Lowering)
    requires i < |params| && key in {"gidmin", "gidmax"} && ValidBound(params[i], lower)
    ensures Bound(params[..i + 1], key, default, lower) ==
              if ToLower(params[i].key, lower) == key then ConvertGid(params[i].value).value
              else Bound(params[..i], key, default, lower)
  {
    LastOfNext(params, i, key, lower);
  }

  /** One parameter; keys other than the two bounds are skipped. */
  method ReadParameter(p: Parameter, lower: Lowering, gidMin: int, gidMax: int)
    returns (r: Result<(int, int), ParameterError>)
    ensures r.Ok? <==> ValidBound(p, lower)
    ensures r.Ok? ==> r.value.0 == if ToLower(p.key, lower) == "gidmin" then ConvertGid(p.value).value else gidMin
    ensures r.Ok? ==> r.value.1 == if ToLower(p.key, lower) == "gidmax" then ConvertGid(p.value).value else gidMax
    ensures r.Err? ==> r.error != EmptyRange
  {
    var key := ToLower(p.key, lower);
    r := Ok((gidMin, gidMax));
    if key == "gidmin" || key == "gidmax" {
      var gid := ConvertGid(p.value);
      if gid.None? {
        return Err(BadValue);
      }
      if gid.value < ABSOLUTE_GID_MIN {
        return Err(BelowMinimum);
      }
      r := Ok(if key == "gidmin" then (gid.value, gidMax) else (gidMin, gid.value));
    }
  }

  /** Some parameters have been read. */
  predicate BoundsRead(params: seq<Parameter>, lower: Lowering, gidMin: int, gidMax: int) {
    && AllValid(params, lower)
    && gidMin == Bound(params, "gidmin", DEFAULT_GID_MIN, lower) && ABSOLUTE_GID_MIN <= gidMin <= ABSOLUTE_GID_MAX
    && gidMax == Bound(params, "gidmax", DEFAULT_GID_MAX, lower) && ABSOLUTE_GID_MIN <= gidMax <= ABSOLUTE_GID_MAX
  }

  lemma ReadNext(params: seq<Parameter>, i: nat, lower: Lowering, gidMin: int, gidMax: int)
    requires i < |params| && BoundsRead(params[..i], lower, gidMin, gidMax) && ValidBound(params[i], lower)
    ensures BoundsRead(params[..i + 1], lower,
                       if ToLower(params[i].key, lower) == "gidmin" then ConvertGid(params[i].value).value else gidMin,
                       if ToLower(params[i].key, lower) == "gidmax" then ConvertGid(params[i].value).value else gidMax)
  {
    LastOfNext(params, i, "gidmin", lower);
    BoundNext(params, i, "gidmin", DEFAULT_GID_MIN, lower);
    BoundNext(params, i, "gidmax", DEFAULT_GID_MAX, lower);
  }

  /** The range of a class, from its parameters in the order in which they are visited. */
  method ParseClassParameters(params: seq<Parameter>, lower: Lowering) returns (r: Result<(int, int), ParameterError>)
    ensures var lo := Bound(params, "gidmin", DEFAULT_GID_MIN, lower);
            var hi := Bound(params, "gidmax", DEFAULT_GID_MAX, lower);
            (r.Ok? <==> AllValid(params, lower) && lo <= hi) && (r.Ok? ==> r.value == (lo, hi))
    ensures r.Ok? ==> ABSOLUTE_GID_MIN <= r.value.0 <= r.value.1 <= ABSOLUTE_GID_MAX
    ensures r.Err? ==> (r.error == EmptyRange <==> AllValid(params, lower))
  {
    var gidMin, gidMax := DEFAULT_GID_MIN, DEFAULT_GID_MAX;
    var i := 0;
    while i < |params|
      invariant i <= |params| && BoundsRead(params[..i], lower, gidMin, gidMax)
    {
      r := ReadParameter(params[i], lower, gidMin, gidMax);
      if r.Err? {
        return;
      }
      ReadNext(params, i, lower, gidMin, gidMax);
      gidMin, gidMax := r.value.0, r.value.1;
      i := i + 1;
    }
    assert params[..i] == params;
    if gidMin > gidMax {
      return Err(EmptyRange);
    }
    r := Ok((gidMin, gidMax));
  }

  predicate KeysDistinct(params: seq<Parameter>, lower: Lowering) {
    forall i, j :: 0 <= i < j < |params| ==> ToLower(params[i].key, lower) != ToLower(params[j].key, lower)
  }

  /** Of several parameters with one lower-case key the last gives the value. */
  lemma {:induction false} LastOfLast(params: seq<Parameter>, i: nat, lower: Lowering)
    requires i < |params|
    requires forall j :: i < j < |params| ==> ToLower(params[j].key, lower) != ToLower(params[i].key, lower)
    ensures LastOf(params, ToLower(params[i].key, lower), lower) == Some(params[i].value)
  {
    if i < |params| - 1 {
      LastOfLast(params[..|params| - 1], i, lower);
    }
  }

  lemma {:induction false} LastOfAbsent(params: seq<Parameter>, key: string, lower: Lowering)
    requires forall i :: 0 <= i < |params| ==> ToLower(params[i].key, lower) != key
    ensures LastOf(params, key, lower) == None
  {
    if params != [] {
      LastOfAbsent(params[..|params| - 1], key, lower);
    }
  }

  /** A bound is a number that can be read and is neither below 2000 nor above 2^31 - 1. */
  lemma ValidBoundIff(p: Parameter, lower: Lowering)
    ensures ValidBound(p, lower) <==>
              ToLower(p.key, lower) !in {"gidmin", "gidmax"} || exists gid: nat :: IsBound(p.value, gid)
  {
    if ConvertGid(p.value).Some? {
      assert IsBound(p.value, ConvertGid(p.value).value) || ConvertGid(p.value).value < 2000;
    }
  }

  predicate IsBound(value: string, gid: nat) {
    2000 <= gid <= 0x7fff_ffff && ConvertGid(value) == Some(gid)
  }

  /** A bound that no parameter gives is the end of the whole range. */
  lemma DefaultBounds(params: seq<Parameter>, lower: Lowering)
    ensures (forall i :: 0 <= i < |params| ==> ToLower(params[i].key, lower) != "gidmin") ==>
              Bound(params, "gidmin", DEFAULT_GID_MIN, lower) == 2000
    ensures (forall i :: 0 <= i < |params| ==> ToLower(params[i].key, lower) != "gidmax") ==>
              Bound(params, "gidmax", DEFAULT_GID_MAX, lower) == 0x7fff_ffff
  {
    if forall i :: 0 <= i < |params| ==> ToLower(params[i].key, lower) != "gidmin" {
      LastOfAbsent(params, "gidmin", lower);
    }
    if forall i :: 0 <= i < |params| ==> ToLower(params[i].key, lower) != "gidmax" {
      LastOfAbsent(params, "gidmax", lower);
    }
  }

  /** Go visits the parameters in any order. It makes no difference when no two keys differ in
      case only. */
  lemma OrderIrrelevant(p: seq<Parameter>, q: seq<Parameter>, key: string, lower: Lowering)
    requires multiset(p) == multiset(q) && KeysDistinct(p, lower) && KeysDistinct(q, lower)
    ensures LastOf(p, key, lower) == LastOf(q, key, lower) && (AllValid(p, lower) <==> AllValid(q, lower))
  {
    assert forall x :: x in p <==> x in multiset(p);
    assert forall x :: x in q <==> x in multiset(q);
    forall i | 0 <= i < |p|
      ensures p[i] in q
    {
      assert p[i] in multiset(p);
    }
    forall i | 0 <= i < |q|
      ensures q[i] in p
    {
      assert q[i] in multiset(q);
    }
    if i :| 0 <= i < |p| && ToLower(p[i].key, lower) == key {
      var j :| 0 <= j < |q| && q[j] == p[i];
      LastOfLast(p, i, lower);
      LastOfLast(q, j, lower);
    } else {
      LastOfAbsent(p, key, lower);
      LastOfAbsent(q, key, lower);
    }
  }

  /** With "gidMin" and "GIDMIN" both present, the range depends on the order. */
  lemma OrderMattersForDuplicates(lower: Lowering)
    requires ToLower("gidMin", lower) == "gidmin" == ToLower("GIDMIN", lower)
    ensures var p, q := Parameter("gidMin", "3000"), Parameter("GIDMIN", "4000");
            multiset([p, q]) == multiset([q, p]) && LastOf([p, q], "gidmin", lower) != LastOf([q, p], "gidmin", lower)
  {
    var p, q := Parameter("gidMin", "3000"), Parameter("GIDMIN", "4000");
    assert ToLower("gidMin", lower) == "gidmin" == ToLower("GIDMIN", lower);
    assert [p, q] == [p] + [q] && [q, p] == [q] + [p];
    assert LastOf([p, q], "gidmin", lower) == Some("4000") && LastOf([q, p], "gidmin", lower) == Some("3000");
  }

  // ---- the volumes of a class ----

  /** A PersistentVolume as the API server lists it. */
  datatype ListedPV = ListedPV(name: string, className: string, annotation: Option<string>)

  function GidOf(pv: ListedPV): Option<nat> {
    if pv.annotation.None? then None else ConvertGid(pv.annotation.value)
  }

  /** What one volume adds to the GIDs of a class. */
  function GidIn(pv: ListedPV, className: string): set<int> {
    if pv.className == className && GidOf(pv).Some? then {GidOf(pv).value} else {}
  }

  /** The GIDs of the volumes of one class. */
  function GidsOf(pvs: seq<ListedPV>, className: string): set<int> {
    if pvs == [] then {}
    else GidsOf(pvs[..|pvs| - 1], className) + GidIn(pvs[|pvs| - 1], className)
  }

  /** A volume of the class whose annotation reads as this GID. */
  predicate HasGid(pv: ListedPV, className: string, gid: int) {
    pv.className == className && pv.annotation.Some?
    && ConvertGid(pv.annotation.value).Some? && ConvertGid(pv.annotation.value).value == gid
  }

  lemma {:induction false} GidsOfExact(pvs: seq<ListedPV>, className: string, gid: int)
    ensures gid in GidsOf(pvs, className) <==>
              exists i :: 0 <= i < |pvs| && HasGid(pvs[i], className, gid)
  {
    if pvs != [] {
      var rest := pvs[..|pvs| - 1];
      GidsOfExact(rest, className, gid);
      assert forall i :: 0 <= i < |rest| ==> rest[i] == pvs[i];
    }
  }

  lemma GidsOfNext(pvs: seq<ListedPV>, className: string, i: nat, before: set<int>)
    requires i < |pvs|
    ensures before + GidsOf(pvs[..i], className) + GidIn(pvs[i], className) == before + GidsOf(pvs[..i + 1], className)
  {
    assert pvs[..i + 1][..i] == pvs[..i];
  }

  /** Marks the GID of one volume as used; it may be marked already. A volume of another class,
      or without a readable GID, is skipped. */
  method CollectGid(className: string, table: MinMaxAllocator, pv: ListedPV) returns (r: Result<(), Error>)
    requires table.Valid() && table.min == 0 && table.max == ABSOLUTE_GID_MAX
    modifies table
    ensures r == Ok(()) && table.Valid()
    ensures table.View() == old(table.View()).(used := old(table.View().used) + GidIn(pv, className))
  {
    r := Ok(());
    if pv.className != className || pv.annotation.None? {
      return;
    }
    var gid := ConvertGid(pv.annotation.value);
    if gid.None? {
      return;
    }
    r := table.Allocate(gid.value);
    if r == Err(ErrConflict) {
      r := Ok(());
    }
    assert table.View().used == old(table.View().used) + {gid.value};
  }

  /** Marks every GID of the class as used. A volume without a readable GID is skipped, a GID
      seen twice is accepted, and no GID is out of the full range. */
  method CollectGids(className: string, table: MinMaxAllocator, pvs: seq<ListedPV>) returns (r: Result<(), Error>)
    requires table.Valid() && table.min == 0 && table.max == ABSOLUTE_GID_MAX
    modifies table
    ensures r == Ok(()) && table.Valid()
    ensures table.View() == old(table.View()).(used := old(table.View()).used + GidsOf(pvs, className))
  {
    ghost var before := table.View();
    var i := 0;
    while i < |pvs|
      invariant 0 <= i <= |pvs| && table.Valid()
      invariant table.View() == before.(used := before.used + GidsOf(pvs[..i], className))
    {
      GidsOfNext(pvs, className, i, before.used);
      r := CollectGid(className, table, pvs[i]);
      if r.Err? {
        return;
      }
      i := i + 1;
    }
    assert pvs[..i] == pvs;
    r := Ok(());
  }
}
