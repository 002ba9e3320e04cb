/** provisionClaimOperation and deleteVolumeOperation as code with loops: run without
    interruption, each is a run of the state machine of `Provisioning`. */
module ProvisionOperations {
  import opened Provisioning

  /** The answers of API server and provisioner: of the Get, of Provision, and of each attempt
      in the two loops. */
  datatype Answers = Answers(
    getOk: bool, provisionOk: bool,
    createFails: nat -> bool, storesAnyway: nat -> bool,
    cleanOk: nat -> bool, removesAnyway: nat -> bool)

  lemma {:induction false} RunThen(s: State, acts: seq<Action>, a: Action)
    requires CanRun(s, acts) && Enabled(Run(s, acts), a)
    ensures CanRun(s, acts + [a]) && Run(s, acts + [a]) == Apply(Run(s, acts), a)
    decreases |acts|
  {
    if acts == [] {
      assert acts + [a] == [a] && [a][1..] == [];
    } else {
      assert (acts + [a])[1..] == acts[1..] + [a];
      RunThen(Apply(s, acts[0]), acts[1..], a);
    }
  }

  /** `acts` lead from `from` to a state with these fields and one worker at `op`, or none. */
  ghost predicate Reached(from: State, acts: seq<Action>, to: State) {
    CanRun(from, acts) && Run(from, acts) == to
  }

  lemma Step(from: State, acts: seq<Action>, s: State, a: Action)
    requires Reached(from, acts, s) && Enabled(s, a)
    ensures Reached(from, acts + [a], Apply(s, a))
  {
    RunThen(from, acts, a);
  }

  /** What one attempt does to a machine whose only worker is in the create loop. */
  lemma CreateAttempt(s: State, name: string, asset: nat, left: nat, fails: bool, stores: bool)
    requires s.workers == map[0 := Creating(name, asset, left)] && left > 0
    requires stores ==> name !in s.pvs
    ensures var result := if fails then CreateError(stores) else if name in s.pvs then AlreadyExists else Stored;
            && Enabled(s, Create(0, result))
            && Apply(s, Create(0, result)) == s.(
                 pvs := if stores || (!fails && name !in s.pvs) then s.pvs[name := StoredPV(asset, false)] else s.pvs,
                 workers := if !fails then map[]
                            else if left == 1 then map[0 := Cleaning(name, asset, s.retries)]
                            else map[0 := Creating(name, asset, left - 1)])
  {
    assert s.workers - {0} == map[];
  }

  lemma CleanAttempt(s: State, name: string, asset: nat, left: nat, ok: bool, removed: bool)
    requires s.workers == map[0 := Cleaning(name, asset, left)] && left > 0 && (ok ==> removed)
    ensures Enabled(s, Clean(0, ok, removed))
    ensures Apply(s, Clean(0, ok, removed)) == s.(
              assets := if removed then s.assets - {asset} else s.assets,
              reported := if !ok && left == 1 then s.reported + {asset} else s.reported,
              workers := if ok || left == 1 then map[] else map[0 := Cleaning(name, asset, left - 1)])
  {
    assert s.workers - {0} == map[];
  }

  /** At one of the first `n` attempts. */
  predicate Happens(answer: nat -> bool, n: nat) {
    exists i: nat :: i < n && answer(i)
  }

  ghost predicate IsFresh(pvs: map<string, StoredPV>, reported: set<nat>, asset: nat) {
    asset !in reported && forall n :: n in pvs ==> pvs[n].asset != asset
  }

  /** The two loops lose a fresh asset exactly when an attempt finds a volume of that name. */
  lemma LostIff(s: State, t: State, name: string, created: bool, cleaned: bool, env: Answers)
    requires IsFresh(s.pvs, s.reported, s.nextAsset)
    requires t.pvs == if name !in s.pvs && (created || Happens(env.storesAnyway, s.retries))
                      then s.pvs[name := StoredPV(s.nextAsset, false)] else s.pvs
    requires t.assets == if !created && (cleaned || Happens(env.removesAnyway, s.retries))
                         then s.assets - {s.nextAsset} else s.assets + {s.nextAsset}
    requires t.reported == if !created && !cleaned then s.reported + {s.nextAsset} else s.reported
    ensures s.nextAsset in t.assets && IsFresh(t.pvs, t.reported, s.nextAsset) <==> created && name in s.pvs
  {
    if name !in s.pvs && created {
      assert t.pvs[name].asset == s.nextAsset;
    }
  }

  class ProvisionController {
    const retries: nat
    var pvs: map<string, StoredPV>
    var assets: set<nat>
    var reported: set<nat>
    var nextAsset: nat

    constructor (retries: nat)
      ensures this.retries == retries && Now(map[]) == Start(retries)
    {
      this.retries, pvs, assets, reported, nextAsset := retries, map[], {}, {}, 0;
    }

    /** The machine's state with these workers. */
    ghost function Now(workers: map<nat, Op>): State
      reads this
    {
      State(retries, pvs, assets, reported, nextAsset, workers)
    }

    /** The create loop: up to `retries` attempts; an existing volume counts as created. */
    method CreateLoop(name: string, asset: nat, env: Answers, ghost from: State, ghost before: seq<Action>)
      returns (failed: bool, ghost acts: seq<Action>)
      requires retries > 0 && Reached(from, before, Now(map[0 := Creating(name, asset, retries)]))
      modifies this`pvs
      ensures Reached(from, acts, Now(if failed then map[0 := Cleaning(name, asset, retries)] else map[]))
      ensures failed <==> forall i :: 0 <= i < retries ==> env.createFails(i)
      ensures !failed ==> name in pvs
      ensures pvs == if name !in old(pvs) && (!failed || Happens(env.storesAnyway, retries))
                     then old(pvs)[name := StoredPV(asset, false)] else old(pvs)
    {
      acts := before;
      failed := false;
      var i := 0;
      while i < retries
        invariant i <= retries && (i > 0 ==> failed)
        invariant forall j :: 0 <= j < i ==> env.createFails(j)
        invariant pvs == if name !in old(pvs) && Happens(env.storesAnyway, i)
                         then old(pvs)[name := StoredPV(asset, false)] else old(pvs)
        invariant Reached(from, acts,
                          Now(map[0 := if i < retries then Creating(name, asset, retries - i)
                                       else Cleaning(name, asset, retries)]))
      {
        ghost var s := Now(map[0 := Creating(name, asset, retries - i)]);
        var fails := env.createFails(i);
        var stores := fails && env.storesAnyway(i) && name !in pvs;
        ghost var a := Create(0, if fails then CreateError(stores) else if name in pvs then AlreadyExists else Stored);
        CreateAttempt(s, name, asset, retries - i, fails, stores);
        Step(from, acts, s, a);
        acts := acts + [a];
        if stores || (!fails && name !in pvs) {
          pvs := pvs[name := StoredPV(asset, false)];
        }
        if !fails {
          return false, acts;
        }
        failed := true;
        i := i + 1;
      }
    }

    /** One attempt of the cleanup loop; the last one that fails reports the asset. */
    method CleanOnce(name: string, asset: nat, left: nat, ok: bool, removes: bool, ghost from: State,
                     ghost before: seq<Action>)
      returns (ghost acts: seq<Action>)
      requires left > 0 && Reached(from, before, Now(map[0 := Cleaning(name, asset, left)]))
      modifies this`assets, this`reported
      ensures Reached(from, acts, Now(if ok || left == 1 then map[] else map[0 := Cleaning(name, asset, left - 1)]))
      ensures assets == if ok || removes then old(assets) - {asset} else old(assets)
      ensures reported == if !ok && left == 1 then old(reported) + {asset} else old(reported)
    {
      CleanAttempt(Now(map[0 := Cleaning(name, asset, left)]), name, asset, left, ok, ok || removes);
      Step(from, before, Now(map[0 := Cleaning(name, asset, left)]), Clean(0, ok, ok || removes));
      acts := before + [Clean(0, ok, ok || removes)];
      if ok || removes {
        assets := assets - {asset};
      }
      if !ok && left == 1 {
        reported := reported + {asset};
      }
    }

    /** The cleanup loop: up to `retries` attempts, then the asset is reported. */
    method CleanupLoop(name: string, asset: nat, env: Answers, ghost from: State, ghost before: seq<Action>)
      returns (cleaned: bool, ghost acts: seq<Action>)
      requires retries > 0 && Reached(from, before, Now(map[0 := Cleaning(name, asset, retries)]))
      modifies this`assets, this`reported
      ensures Reached(from, acts, Now(map[]))
      ensures cleaned <==> exists i :: 0 <= i < retries && env.cleanOk(i)
      ensures reported == if cleaned then old(reported) else old(reported) + {asset}
      ensures assets == if cleaned || Happens(env.removesAnyway, retries) then old(assets) - {asset} else old(assets)
    {
      acts := before;
      var i := 0;
      while i < retries
        invariant i <= retries && forall j :: 0 <= j < i ==> !env.cleanOk(j)
        invariant reported == if i < retries then old(reported) else old(reported) + {asset}
        invariant assets == if Happens(env.removesAnyway, i) then old(assets) - {asset} else old(assets)
        invariant Reached(from, acts, Now(if i < retries then map[0 := Cleaning(name, asset, retries - i)] else map[]))
      {
        var ok := env.cleanOk(i);
        acts := CleanOnce(name, asset, retries - i, ok, env.removesAnyway(i), from, acts);
        if ok {
          return true, acts;
        }
        i := i + 1;
      }
      cleaned := false;
    }

    /** The two loops: the volume is stored, or its asset removed or reported. */
    method CreateOrClean(name: string, asset: nat, env: Answers, ghost from: State, ghost before: seq<Action>)
      returns (ghost acts: seq<Action>)
      requires retries > 0 && Reached(from, before, Now(map[0 := Creating(name, asset, retries)]))
      modifies this`pvs, this`assets, this`reported
      ensures Reached(from, acts, Now(map[]))
      ensures var created := exists i: nat :: i < retries && !env.createFails(i);
              var cleaned := exists i: nat :: i < retries && env.cleanOk(i);
              && pvs == (if name !in old(pvs) && (created || Happens(env.storesAnyway, retries))
                         then old(pvs)[name := StoredPV(asset, false)] else old(pvs))
              && assets == (if !created && (cleaned || Happens(env.removesAnyway, retries))
                            then old(assets) - {asset} else old(assets))
              && reported == (if !created && !cleaned then old(reported) + {asset} else old(reported))
    {
      var failed;
      failed, acts := CreateLoop(name, asset, env, from, before);
      if failed {
        var cleaned;
        cleaned, acts := CleanupLoop(name, asset, env, from, acts);
      }
    }

    /** No volume and no report has this asset. */
    ghost predicate Fresh(asset: nat)
      reads this
    {
      IsFresh(pvs, reported, asset)
    }

    /** Behind no volume, and reported to nobody. */
    ghost predicate Lost(asset: nat)
      reads this
    {
      asset in assets && Fresh(asset)
    }

    /** The start of the operation: a Get that may fail to find the volume. */
    method FindVolume(name: string, getOk: bool) returns (found: bool, ghost acts: seq<Action>)
      ensures found <==> getOk && name in pvs
      ensures Reached(Now(map[]), acts, Now(if found then map[] else map[0 := Op.Provisioning(name)]))
    {
      ghost var from, s := Now(map[]), Now(map[0 := Getting(name)]);
      assert Reached(from, [], from);
      Step(from, [], from, StartProvision(0, name));
      acts := [] + [StartProvision(0, name)];
      assert Apply(from, StartProvision(0, name)) == s;
      found := getOk && name in pvs;
      Step(from, acts, s, GetPv(0, found));
      acts := acts + [GetPv(0, found)];
      assert Apply(s, GetPv(0, found)) == Now(if found then map[] else map[0 := Op.Provisioning(name)]);
    }

    /** Without interruption the operation is a run of the machine that ends without its worker.
        Its asset is lost exactly when there are no attempts at all, or when an attempt finds the
        volume that the Get has failed to find. */
    method ProvisionClaimOperation(name: string, env: Answers) returns (ghost acts: seq<Action>)
      modifies this
      ensures Reached(old(Now(map[])), acts, Now(map[]))
      ensures (name in old(pvs) && env.getOk) || !env.provisionOk ==> Now(map[]) == old(Now(map[]))
      ensures !(name in old(pvs) && env.getOk) && env.provisionOk ==>
                var a := old(nextAsset);
                var created := exists i: nat :: i < retries && !env.createFails(i);
                var cleaned := exists i: nat :: i < retries && env.cleanOk(i);
                && nextAsset == a + 1
                && pvs == (if name !in old(pvs) && (created || Happens(env.storesAnyway, retries))
                           then old(pvs)[name := StoredPV(a, false)] else old(pvs))
                && assets == (if !created && retries > 0 && (cleaned || Happens(env.removesAnyway, retries))
                              then old(assets) - {a} else old(assets) + {a})
                && reported == (if !created && retries > 0 && !cleaned then old(reported) + {a} else old(reported))
                && (old(Fresh(nextAsset)) ==> (Lost(a) <==> retries == 0 || (created && name in old(pvs))))
    {
      ghost var from := Now(map[]);
      var found;
      found, acts := FindVolume(name, env.getOk);
      if found {
        return;
      }
      ghost var s := Now(map[0 := Op.Provisioning(name)]);
      Step(from, acts, s, Provision(0, env.provisionOk));
      acts := acts + [Provision(0, env.provisionOk)];
      if !env.provisionOk {
        assert Apply(s, Provision(0, false)) == Now(map[]);
        return;
      }
      var asset := nextAsset;
      assets, nextAsset := assets + {asset}, nextAsset + 1;
      if retries == 0 {
        assert Apply(s, Provision(0, true)) == Now(map[]);
        return;
      }
      assert Apply(s, Provision(0, true)) == Now(map[0 := Creating(name, asset, retries)]);
      acts := CreateOrClean(name, asset, env, from, acts);
      assert old(assets) + {asset} - {asset} == old(assets) - {asset};
      if IsFresh(from.pvs, from.reported, asset) {
        LostIff(from, Now(map[]), name, exists i: nat :: i < retries && !env.createFails(i),
                exists i: nat :: i < retries && env.cleanOk(i), env);
      }
    }

    /** Without interruption a deletion is a run of the machine, too. The volume goes only after
        its asset, and only if it is still to be deleted; `deleting` says that it is being deleted
        already. */
    method DeleteVolumeOperation(name: string, cached: nat, getOk: bool, deleting: bool,
                                 assetOk: bool, assetRemoved: bool, pvRemoved: bool)
      returns (ghost acts: seq<Action>)
      modifies this`assets, this`pvs
      ensures Reached(old(Now(map[])), acts, Now(map[]))
      ensures var due := getOk && name in old(pvs) && old(pvs)[name].released && !deleting;
              && assets == (if due && (assetOk || assetRemoved) then old(assets) - {cached} else old(assets))
              && pvs == (if due && assetOk && pvRemoved then old(pvs) - {name} else old(pvs))
    {
      ghost var from := Now(map[]);
      assert Reached(from, [], from);
      Step(from, [], from, StartDelete(0, name, cached));
      acts := [] + [StartDelete(0, name, cached)];
      ghost var s := Now(map[0 := Checking(name, cached)]);
      var found := getOk && name in pvs;
      var due := found && pvs[name].released && !deleting;
      Step(from, acts, s, CheckPv(0, found, due));
      acts := acts + [CheckPv(0, found, due)];
      if !due {
        assert Apply(s, CheckPv(0, found, due)) == from;
        return;
      }
      s := Now(map[0 := DeletingAsset(name, cached)]);
      var removed := assetOk || assetRemoved;
      Step(from, acts, s, DeleteAsset(0, assetOk, removed));
      acts := acts + [DeleteAsset(0, assetOk, removed)];
      if removed {
        assets := assets - {cached};
      }
      if !assetOk {
        assert Apply(s, DeleteAsset(0, assetOk, removed)) == Now(map[]);
        return;
      }
      s := Now(map[0 := DeletingPv(name, cached)]);
      Step(from, acts, s, DeletePv(0, pvRemoved));
      acts := acts + [DeletePv(0, pvRemoved)];
      if pvRemoved {
        pvs := pvs - {name};
      }
      assert Apply(s, DeletePv(0, pvRemoved)) == Now(map[]);
    }
  }

  // ---- the life of a volume ----

  function WithWorker(s: State, w: nat, op: Op): State {
    s.(workers := s.workers[w := op])
  }

  lemma NextOp(s: State, w: nat, op: Op, next: Op)
    requires w !in s.workers
    ensures WithWorker(s, w, op).Goto(w, next) == WithWorker(s, w, next) && WithWorker(s, w, op).Drop(w) == s
  {
    assert s.workers[w := op][w := next] == s.workers[w := next] && s.workers[w := op] - {w} == s.workers;
  }

  /** With a new volume and its asset. */
  function Provisioned(s: State, name: string): State {
    s.(pvs := s.pvs[name := StoredPV(s.nextAsset, false)], assets := s.assets + {s.nextAsset},
       nextAsset := s.nextAsset + 1)
  }

  /** A claim whose calls all go through gets one volume with one asset of its own. */
  lemma ClaimGetsVolume(s: State, w: nat, name: string)
    requires w !in s.workers && name !in s.pvs && s.retries > 0
    ensures Reached(s, [StartProvision(w, name), GetPv(w, false), Provision(w, true), Create(w, Stored)],
                    Provisioned(s, name))
  {
    var made := s.(assets := s.assets + {s.nextAsset}, nextAsset := s.nextAsset + 1);
    var getting, creating := Getting(name), Creating(name, s.nextAsset, s.retries);
    var acts: seq<Action> := [];
    Step(s, acts, s, StartProvision(w, name));
    acts := acts + [StartProvision(w, name)];
    Step(s, acts, WithWorker(s, w, getting), GetPv(w, false));
    acts := acts + [GetPv(w, false)];
    NextOp(s, w, getting, Op.Provisioning(name));
    Step(s, acts, WithWorker(s, w, Op.Provisioning(name)), Provision(w, true));
    acts := acts + [Provision(w, true)];
    NextOp(made, w, Op.Provisioning(name), creating);
    Step(s, acts, WithWorker(made, w, creating), Create(w, Stored));
    acts := acts + [Create(w, Stored)];
    NextOp(Provisioned(s, name), w, creating, creating);
    assert acts == [StartProvision(w, name), GetPv(w, false), Provision(w, true), Create(w, Stored)];
  }

  function Dooms(w: nat, name: string, asset: nat): seq<Action> {
    [Release(name), StartDelete(w, name, asset), CheckPv(w, true, true), DeleteAsset(w, true, true), DeletePv(w, true)]
  }

  /** Once released and deleted, the volume has left nothing behind but its number. */
  lemma DeletionUndoesClaim(s: State, w: nat, name: string)
    requires w !in s.workers && name !in s.pvs && s.nextAsset !in s.assets
    ensures Reached(Provisioned(s, name), Dooms(w, name, s.nextAsset), s.(nextAsset := s.nextAsset + 1))
  {
    var from, a := Provisioned(s, name), s.nextAsset;
    var doomed := from.(pvs := s.pvs[name := StoredPV(a, true)]);
    var bare := doomed.(assets := s.assets);
    var acts: seq<Action> := [];
    Step(from, acts, from, Release(name));
    acts := acts + [Release(name)];
    assert from.pvs[name := StoredPV(a, true)] == doomed.pvs;
    Step(from, acts, doomed, StartDelete(w, name, a));
    acts := acts + [StartDelete(w, name, a)];
    Step(from, acts, WithWorker(doomed, w, Checking(name, a)), CheckPv(w, true, true));
    acts := acts + [CheckPv(w, true, true)];
    NextOp(doomed, w, Checking(name, a), DeletingAsset(name, a));
    Step(from, acts, WithWorker(doomed, w, DeletingAsset(name, a)), DeleteAsset(w, true, true));
    acts := acts + [DeleteAsset(w, true, true)];
    NextOp(bare, w, DeletingAsset(name, a), DeletingPv(name, a));
    assert doomed.assets - {a} == s.assets;
    Step(from, acts, WithWorker(bare, w, DeletingPv(name, a)), DeletePv(w, true));
    acts := acts + [DeletePv(w, true)];
    assert bare.pvs - {name} == s.pvs;
    NextOp(bare.(pvs := s.pvs), w, DeletingPv(name, a), DeletingPv(name, a));
    assert acts == Dooms(w, name, a);
  }

  /** A volume that is taken back, or was never released, is left alone. */
  lemma KeptVolumeStays(s: State, w: nat, name: string, cached: nat)
    requires w !in s.workers && name in s.pvs
    ensures Reached(s, [TakeBack(name), StartDelete(w, name, cached), CheckPv(w, true, false)],
                    s.(pvs := s.pvs[name := StoredPV(s.pvs[name].asset, false)]))
    ensures !Enabled(WithWorker(Apply(s, TakeBack(name)), w, Checking(name, cached)), CheckPv(w, true, true))
  {
    var t := s.(pvs := s.pvs[name := StoredPV(s.pvs[name].asset, false)]);
    var acts: seq<Action> := [];
    Step(s, acts, s, TakeBack(name));
    acts := acts + [TakeBack(name)];
    Step(s, acts, t, StartDelete(w, name, cached));
    acts := acts + [StartDelete(w, name, cached)];
    Step(s, acts, WithWorker(t, w, Checking(name, cached)), CheckPv(w, true, false));
    acts := acts + [CheckPv(w, true, false)];
    NextOp(t, w, Checking(name, cached), Checking(name, cached));
    assert acts == [TakeBack(name), StartDelete(w, name, cached), CheckPv(w, true, false)];
  }
}
