/** One volume's GID from its claim to its release, when nothing comes between: the least unused
    one of the class's range, and back again. */
module GidLives {
  import opened Common
  import Gids
  import opened MinMaxAllocators
  import opened GidAllocators
  import opened GidSafety

  /** `acts` lead from one state to the other. */
  ghost predicate Reached(from: State, acts: seq<Action>, to: State) {
    CanRun(from, acts) && Run(from, acts) == to
  }

  lemma {:induction false} Then(from: State, acts: seq<Action>, s: State, a: Action)
    requires Reached(from, acts, s) && Enabled(s, a)
    ensures Reached(from, acts + [a], Apply(s, a))
    decreases |acts|
  {
    if acts == [] {
      assert [a][1..] == [];
    } else {
      assert (acts + [a])[1..] == acts[1..] + [a];
      Then(Apply(from, acts[0]), acts[1..], s, a);
    }
  }

  function With(s: State, w: nat, me: Worker): State {
    s.(workers := s.workers[w := me])
  }

  lemma NextStage(s: State, w: nat, me: Worker, stage: Stage)
    requires w !in s.workers
    ensures With(s, w, me).Goto(w, stage) == With(s, w, me.(stage := stage)) && With(s, w, me).Drop(w) == s
  {
    assert s.workers[w := me][w := me.(stage := stage)] == s.workers[w := me.(stage := stage)];
    assert s.workers[w := me] - {w} == s.workers;
  }

  function WithTable(s: State, c: string, t: Table): State {
    s.(tables := s.tables[c := t])
  }

  /** The least number of the range that is not used. */
  ghost predicate Least(used: set<int>, lo: int, hi: int, g: int) {
    lo <= g <= hi && g !in used && forall j :: lo <= j < g ==> j in used
  }

  /** A worker that has its table gets the least unused GID and stores it with its volume. */
  lemma ReadyGetsLeast(s: State, w: nat, me: Worker, g: nat, name: string)
    requires w !in s.workers && me.stage == Ready && me.purpose.ForClaim? && me.className in s.tables
    requires var t := s.tables[me.className]; ClassRange(t.min, t.max) && Least(t.used, t.min, t.max, g)
    requires name !in s.pvs
    ensures var t := s.tables[me.className];
            Reached(With(s, w, me), [Allocate(w), CreatePV(w, name)],
                    WithTable(s, me.className, Table(t.min, t.max, t.used + {g})).(
                      pvs := s.pvs[name := PV(me.className, Some(g), true)]))
  {
    var t := s.tables[me.className];
    var issued := WithTable(s, me.className, Table(t.min, t.max, t.used + {g}));
    LeastIsNext(t, g);
    Then(With(s, w, me), [], With(s, w, me), Allocate(w));
    assert [] + [Allocate(w)] == [Allocate(w)];
    NextStage(issued, w, me, Issued(g));
    Then(With(s, w, me), [Allocate(w)], With(issued, w, me.(stage := Issued(g))), CreatePV(w, name));
    NextStage(issued.(pvs := s.pvs[name := PV(me.className, Some(g), true)]), w, me.(stage := Issued(g)), Ready);
    assert [Allocate(w)] + [CreatePV(w, name)] == [Allocate(w), CreatePV(w, name)];
  }

  lemma LeastIsNext(t: Table, g: int)
    requires ClassRange(t.min, t.max) && Least(t.used, t.min, t.max, g)
    ensures t.Next() == Ok(g)
  {
    FullIff(t);
    NextIff(t);
    var n := t.Next().value;
    assert !(n < g) && !(g < n);
  }

  /** A worker for this class, with the range that its parameters give. */
  function Claimer(c: string, lo: int, hi: int, stage: Stage): Worker {
    Worker(ForClaim, c, lo, hi, stage)
  }

  /** The class has a table: it takes the class's range, and the volume the least GID that the
      table does not use. */
  lemma ClaimGetsLeast(s: State, w: nat, c: string, lo: int, hi: int, g: nat, name: string)
    requires w !in s.workers && c in s.tables && ClassRange(lo, hi) && Least(s.tables[c].used, lo, hi, g)
    requires name !in s.pvs
    ensures Reached(s, [BeginAllocate(w, c, lo, hi), Lookup(w)] + [Allocate(w), CreatePV(w, name)],
                    WithTable(s, c, Table(lo, hi, s.tables[c].used + {g})).(
                      pvs := s.pvs[name := PV(c, Some(g), true)]))
  {
    var ranged := WithTable(s, c, Table(lo, hi, s.tables[c].used));
    Then(s, [], s, BeginAllocate(w, c, lo, hi));
    assert [] + [BeginAllocate(w, c, lo, hi)] == [BeginAllocate(w, c, lo, hi)];
    NextStage(ranged, w, Claimer(c, lo, hi, Starting), Ready);
    Then(s, [BeginAllocate(w, c, lo, hi)], With(s, w, Claimer(c, lo, hi, Starting)), Lookup(w));
    assert [BeginAllocate(w, c, lo, hi)] + [Lookup(w)] == [BeginAllocate(w, c, lo, hi), Lookup(w)];
    ReadyGetsLeast(ranged, w, Claimer(c, lo, hi, Ready), g, name);
    Replaced(s, c, Table(lo, hi, s.tables[c].used), Table(lo, hi, s.tables[c].used + {g}));
    Join(s, [BeginAllocate(w, c, lo, hi), Lookup(w)], With(ranged, w, Claimer(c, lo, hi, Ready)),
         [Allocate(w), CreatePV(w, name)],
         WithTable(s, c, Table(lo, hi, s.tables[c].used + {g})).(pvs := s.pvs[name := PV(c, Some(g), true)]));
  }

  lemma Replaced(s: State, c: string, t: Table, u: Table)
    ensures WithTable(WithTable(s, c, t), c, u) == WithTable(s, c, u)
  {
    assert s.tables[c := t][c := u] == s.tables[c := u];
  }

  lemma {:induction false} Join(a: State, first: seq<Action>, b: State, second: seq<Action>, c: State)
    requires Reached(a, first, b) && Reached(b, second, c)
    ensures Reached(a, first + second, c)
    decreases |first|
  {
    if first == [] {
      assert first + second == second;
    } else {
      assert (first + second)[1..] == first[1..] + second;
      Join(Apply(a, first[0]), first[1..], b, second, c);
    }
  }

  /** The GIDs of the listed volumes of the class. */
  function Listed(pvs: map<string, PV>, c: string): set<int> {
    set n | n in pvs && pvs[n].className == c && pvs[n].gid.Some? :: pvs[n].gid.value
  }

  function Building(w: nat, c: string, lo: int, hi: int): seq<Action> {
    [BeginAllocate(w, c, lo, hi), Lookup(w), ListPVs(w), Install(w)]
  }

  /** The class has no table yet: one is built of all GIDs that volumes of the class have. */
  lemma FirstClaimBuilds(s: State, w: nat, c: string, lo: int, hi: int)
    requires w !in s.workers && c !in s.tables && ClassRange(lo, hi)
    ensures Reached(s, Building(w, c, lo, hi),
                    With(WithTable(s, c, Table(lo, hi, Listed(s.pvs, c))), w, Claimer(c, lo, hi, Ready)))
  {
    var t, me := Table(lo, hi, Listed(s.pvs, c)), Claimer(c, lo, hi, Starting);
    var acts: seq<Action> := [];
    Then(s, acts, s, BeginAllocate(w, c, lo, hi));
    acts := acts + [BeginAllocate(w, c, lo, hi)];
    NextStage(s, w, me, Missing);
    Then(s, acts, With(s, w, me), Lookup(w));
    acts := acts + [Lookup(w)];
    NextStage(s, w, me.(stage := Missing), Built(t));
    Then(s, acts, With(s, w, me.(stage := Missing)), ListPVs(w));
    acts := acts + [ListPVs(w)];
    NextStage(WithTable(s, c, t), w, me.(stage := Built(t)), Ready);
    Then(s, acts, With(s, w, me.(stage := Built(t))), Install(w));
    acts := acts + [Install(w)];
    assert acts == Building(w, c, lo, hi);
  }

  lemma FirstClaimGetsLeast(s: State, w: nat, c: string, lo: int, hi: int, g: nat, name: string)
    requires w !in s.workers && c !in s.tables && ClassRange(lo, hi) && Least(Listed(s.pvs, c), lo, hi, g)
    requires name !in s.pvs
    ensures Reached(s, Building(w, c, lo, hi) + [Allocate(w), CreatePV(w, name)],
                    WithTable(s, c, Table(lo, hi, Listed(s.pvs, c) + {g})).(
                      pvs := s.pvs[name := PV(c, Some(g), true)]))
  {
    var t := Table(lo, hi, Listed(s.pvs, c));
    FirstClaimBuilds(s, w, c, lo, hi);
    ReadyGetsLeast(WithTable(s, c, t), w, Claimer(c, lo, hi, Ready), g, name);
    Replaced(s, c, t, Table(lo, hi, t.used + {g}));
    Join(s, Building(w, c, lo, hi), With(WithTable(s, c, t), w, Claimer(c, lo, hi, Ready)),
         [Allocate(w), CreatePV(w, name)],
         WithTable(s, c, Table(lo, hi, t.used + {g})).(pvs := s.pvs[name := PV(c, Some(g), true)]));
  }

  function Releasing(w: nat, name: string, lo: int, hi: int): seq<Action> {
    [BeginRelease(w, name, true, lo, hi), Lookup(w), ReleaseGid(w), RemovePV(name)]
  }

  /** The removal of a volume gives its GID back to the table of its class. */
  lemma ReleaseReturnsGid(s: State, w: nat, name: string, lo: int, hi: int)
    requires w !in s.workers && ClassRange(lo, hi) && name in s.pvs && s.pvs[name].gid.Some?
    requires s.pvs[name].className in s.tables
    ensures var pv := s.pvs[name];
            Reached(s, Releasing(w, name, lo, hi),
                    WithTable(s, pv.className, Table(lo, hi, s.tables[pv.className].used - {pv.gid.value})).(
                      pvs := s.pvs - {name}))
  {
    var pv := s.pvs[name];
    var c, g := pv.className, pv.gid.value;
    var me := Worker(ForRelease(name, g), c, lo, hi, Starting);
    var ranged := WithTable(s, c, Table(lo, hi, s.tables[c].used));
    var freed := WithTable(s, c, Table(lo, hi, s.tables[c].used - {g}));
    var acts: seq<Action> := [];
    Then(s, acts, s, BeginRelease(w, name, true, lo, hi));
    acts := acts + [BeginRelease(w, name, true, lo, hi)];
    NextStage(ranged, w, me, Ready);
    Then(s, acts, With(s, w, me), Lookup(w));
    acts := acts + [Lookup(w)];
    Replaced(s, c, Table(lo, hi, s.tables[c].used), Table(lo, hi, s.tables[c].used - {g}));
    NextStage(freed.(pvs := s.pvs[name := pv.(live := false)]), w, me.(stage := Ready), Starting);
    Then(s, acts, With(ranged, w, me.(stage := Ready)), ReleaseGid(w));
    acts := acts + [ReleaseGid(w)];
    Then(s, acts, freed.(pvs := s.pvs[name := pv.(live := false)]), RemovePV(name));
    acts := acts + [RemovePV(name)];
    assert s.pvs[name := pv.(live := false)] - {name} == s.pvs - {name};
    assert acts == Releasing(w, name, lo, hi);
  }

  /** Claim and removal, one after the other: nothing is left but the range of the class. */
  lemma ReleaseUndoesClaim(s: State, w: nat, c: string, lo: int, hi: int, g: nat, name: string)
    requires w !in s.workers && c in s.tables && ClassRange(lo, hi) && Least(s.tables[c].used, lo, hi, g)
    requires name !in s.pvs
    ensures Reached(s, [BeginAllocate(w, c, lo, hi), Lookup(w)] + [Allocate(w), CreatePV(w, name)]
                       + Releasing(w, name, lo, hi),
                    WithTable(s, c, Table(lo, hi, s.tables[c].used)))
  {
    var t := Table(lo, hi, s.tables[c].used);
    var stored := WithTable(s, c, Table(lo, hi, t.used + {g})).(pvs := s.pvs[name := PV(c, Some(g), true)]);
    ClaimGetsLeast(s, w, c, lo, hi, g, name);
    ReleaseReturnsGid(stored, w, name, lo, hi);
    Replaced(s, c, Table(lo, hi, t.used + {g}), t);
    assert t.used + {g} - {g} == t.used && s.pvs[name := PV(c, Some(g), true)] - {name} == s.pvs;
    Join(s, [BeginAllocate(w, c, lo, hi), Lookup(w)] + [Allocate(w), CreatePV(w, name)], stored,
         Releasing(w, name, lo, hi), WithTable(s, c, t));
  }

  /** A class whose range is used up refuses the claim. */
  lemma FullClassRefuses(s: State, w: nat, c: string, lo: int, hi: int)
    requires w !in s.workers && c in s.tables && ClassRange(lo, hi)
    requires forall g :: lo <= g <= hi ==> g in s.tables[c].used
    ensures Reached(s, [BeginAllocate(w, c, lo, hi), Lookup(w), Allocate(w)],
                    WithTable(s, c, Table(lo, hi, s.tables[c].used)))
  {
    var t := Table(lo, hi, s.tables[c].used);
    var me := Claimer(c, lo, hi, Starting);
    var acts: seq<Action> := [];
    Then(s, acts, s, BeginAllocate(w, c, lo, hi));
    acts := acts + [BeginAllocate(w, c, lo, hi)];
    NextStage(WithTable(s, c, t), w, me, Ready);
    Then(s, acts, With(s, w, me), Lookup(w));
    acts := acts + [Lookup(w)];
    FullIff(t);
    NextStage(WithTable(s, c, t), w, me.(stage := Ready), Ready);
    Then(s, acts, With(WithTable(s, c, t), w, me.(stage := Ready)), Allocate(w));
    acts := acts + [Allocate(w)];
    assert acts == [BeginAllocate(w, c, lo, hi), Lookup(w), Allocate(w)];
  }

  /** Only the named assumptions exclude anything: a worker gives up anywhere, a release may not find
      the class, and starts for any volume with a GID. */
  lemma ClusterMayAct(s: State, w: nat, name: string, found: bool, lo: int, hi: int)
    ensures w in s.workers ==> Enabled(s, Abandon(w)) && Apply(s, Abandon(w)) == s.(workers := s.workers - {w})
    ensures w !in s.workers && name in s.pvs && s.pvs[name].gid.Some? && ClassRange(lo, hi) ==>
              Enabled(s, BeginRelease(w, name, found, lo, hi))
  {
  }
}
