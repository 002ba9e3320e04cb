/** Each assumption of `ProvisioningSafety` is needed: what a single step against it does. */
module ProvisioningLimits {
  import opened Provisioning
  import opened ProvisioningSafety

  lemma RunFirst(s: State, a: Action, rest: seq<Action>)
    requires Enabled(s, a) && CanRun(Apply(s, a), rest)
    ensures CanRun(s, [a] + rest) && Run(s, [a] + rest) == Run(Apply(s, a), rest)
  {
    assert ([a] + rest)[1..] == rest;
  }

  lemma RunTwo(s: State, a: Action, b: Action)
    requires Enabled(s, a) && Enabled(Apply(s, a), b)
    ensures CanRun(s, [a, b]) && Run(s, [a, b]) == Apply(Apply(s, a), b)
  {
    RunFirst(Apply(s, a), b, []);
    RunFirst(s, a, [b]);
    assert [b] + [] == [b] && [a] + [b] == [a, b];
  }

  lemma RunThree(s: State, a: Action, b: Action, c: Action)
    requires Enabled(s, a) && Enabled(Apply(s, a), b) && Enabled(Apply(Apply(s, a), b), c)
    ensures CanRun(s, [a, b, c]) && Run(s, [a, b, c]) == Apply(Apply(Apply(s, a), b), c)
  {
    RunTwo(Apply(s, a), b, c);
    RunFirst(s, a, [b, c]);
    assert [a] + [b, c] == [a, b, c];
  }

  ghost predicate NeverLeaks(retries: nat) {
    forall s, acts :: Settled(s) && s.retries == retries && CanRun(s, acts) && AbidingRun(s, acts) ==>
                        NothingLeaked(Run(s, acts))
  }

  /** The retry count decides: without attempts the create loop reports success for an asset
      that no volume points to. */
  lemma NothingLeaksIffRetries(retries: nat)
    ensures NeverLeaks(retries) <==> retries > 0
  {
    if retries > 0 {
      forall s, acts | Settled(s) && s.retries == retries && CanRun(s, acts) && AbidingRun(s, acts)
        ensures NothingLeaked(Run(s, acts))
      {
        EveryRunIsSafe(s, acts);
      }
    } else {
      var acts := [StartProvision(0, "pvc-1"), GetPv(0, false), Provision(0, true)];
      RunThree(Start(0), acts[0], acts[1], acts[2]);
      AbidingFirst(acts);
      var t := Run(Start(0), acts);
      assert 0 in t.assets && t.pvs == map[] && t.reported == {} && t.workers == map[];
      assert !Accounted(t, 0);
      assert Settled(Start(0));
    }
  }

  lemma AbidingFirst(acts: seq<Action>)
    requires acts == [StartProvision(0, "pvc-1"), GetPv(0, false), Provision(0, true)]
    requires CanRun(Start(0), acts)
    ensures AbidingRun(Start(0), acts)
  {
    var s1 := Apply(Start(0), acts[0]);
    var s2 := Apply(s1, acts[1]);
    assert acts[1..][0] == acts[1] && acts[1..][1..] == acts[2..] && acts[2..][0] == acts[2] && acts[2..][1..] == [];
    assert AbidingRun(s2, acts[2..]);
    assert AbidingRun(s1, acts[1..]);
  }

  /** An existing asset without an owner is a leak. */
  lemma Unowned(s: State, a: nat)
    requires a in s.assets && a !in s.reported
    requires forall n :: n in s.pvs ==> s.pvs[n].asset != a
    requires forall w :: w in s.workers && s.workers[w].Holds() ==> s.workers[w].asset != a
    ensures !NothingLeaked(s)
  {
    assert !Accounted(s, a);
  }

  /** A Get that fails although the volume exists: a second asset is made, the API server says
      that the volume already exists, and the second asset is dropped. */
  lemma UnreliableGetLeaks(s: State, w: nat)
    requires Inv(s) && s.retries > 0
    requires w in s.workers && s.workers[w].Getting? && s.workers[w].name in s.pvs
    ensures var acts := [GetPv(w, false), Provision(w, true), Create(w, AlreadyExists)];
            CanRun(s, acts) && !NothingLeaked(Run(s, acts))
  {
    RunThree(s, GetPv(w, false), Provision(w, true), Create(w, AlreadyExists));
    Unowned(Run(s, [GetPv(w, false), Provision(w, true), Create(w, AlreadyExists)]), s.nextAsset);
  }

  /** Two workers about to create one volume: the second one's asset is dropped. */
  lemma SecondCreateLeaks(s: State, v: nat, w: nat)
    requires v != w && v in s.workers && w in s.workers
    requires s.workers[v].Creating? && s.workers[w].Creating? && s.workers[v].name == s.workers[w].name
    requires s.workers[w].name !in s.pvs
    requires s.workers[v].left > 0 && s.workers[w].left > 0
    requires s.workers[w].asset in s.assets - s.reported
    requires HeldApart(s.workers) && HeldNotStored(s.workers, s.pvs)
    ensures var acts := [Create(v, Stored), Create(w, AlreadyExists)]; CanRun(s, acts) && !NothingLeaked(Run(s, acts))
  {
    RunTwo(s, Create(v, Stored), Create(w, AlreadyExists));
    Unowned(Run(s, [Create(v, Stored), Create(w, AlreadyExists)]), s.workers[w].asset);
  }

  /** Two workers at one name that have both seen that the volume does not exist. */
  ghost predicate BothProvision(s: State, v: nat, w: nat) {
    && v != w && v in s.workers && w in s.workers && s.retries > 0
    && s.workers[v].Provisioning? && s.workers[w] == s.workers[v] && s.workers[v].name !in s.pvs
    && HeldApart(s.workers) && HeldNotStored(s.workers, s.pvs)
    && AssetsPast(s.reported, s.nextAsset) && VolumesPast(s.pvs, s.nextAsset) && HeldPast(s.workers, s.nextAsset)
  }

  lemma BothProvisionedLeak(s: State, v: nat, w: nat)
    requires BothProvision(s, v, w)
    ensures var acts := [Provision(v, true), Provision(w, true)];
            && CanRun(s, acts)
            && var t := Run(s, acts); var more := [Create(v, Stored), Create(w, AlreadyExists)];
               CanRun(t, more) && !NothingLeaked(Run(t, more))
  {
    RunTwo(s, Provision(v, true), Provision(w, true));
    var s1 := Apply(s, Provision(v, true));
    ProvisionedStaysApart(s, v);
    ProvisionedStaysApart(s1, w);
    SecondCreateLeaks(Apply(s1, Provision(w, true)), v, w);
  }

  lemma {:induction false} RunConcat(s: State, acts: seq<Action>, more: seq<Action>)
    requires CanRun(s, acts) && CanRun(Run(s, acts), more)
    ensures CanRun(s, acts + more) && Run(s, acts + more) == Run(Run(s, acts), more)
    decreases |acts|
  {
    if acts == [] {
      assert acts + more == more;
    } else {
      assert (acts + more)[1..] == acts[1..] + more;
      RunConcat(Apply(s, acts[0]), acts[1..], more);
    }
  }

  /** From there an asset can be lost. */
  lemma TwoWorkersLeak(s: State, v: nat, w: nat)
    requires BothProvision(s, v, w)
    ensures exists acts :: CanRun(s, acts) && !NothingLeaked(Run(s, acts))
  {
    BothProvisionedLeak(s, v, w);
    RunConcat(s, [Provision(v, true), Provision(w, true)], [Create(v, Stored), Create(w, AlreadyExists)]);
  }

  lemma ProvisionedStaysApart(s: State, w: nat)
    requires w in s.workers && s.workers[w].Provisioning? && s.retries > 0
    requires HeldApart(s.workers) && HeldNotStored(s.workers, s.pvs)
    requires VolumesPast(s.pvs, s.nextAsset) && HeldPast(s.workers, s.nextAsset)
    ensures var t := ApplyProvisioned(s, w);
            && HeldApart(t.workers) && HeldNotStored(t.workers, t.pvs)
            && VolumesPast(t.pvs, t.nextAsset) && HeldPast(t.workers, t.nextAsset)
  {
  }

  /** A Create that stores the volume and still fails, at the last attempt: the cleanup deletes
      the asset of a stored volume. */
  lemma StoringCreateErrorUnbacks(s: State, w: nat)
    requires Inv(s) && w in s.workers && s.workers[w].Creating? && s.workers[w].left == 1
    ensures var acts := [Create(w, CreateError(true)), Clean(w, true, true)];
            CanRun(s, acts) && !VolumesBacked(Run(s, acts))
  {
    var op := s.workers[w];
    assert op.PastGet() && op.name !in s.pvs && op.Holds();
    RunTwo(s, Create(w, CreateError(true)), Clean(w, true, true));
    var t := Run(s, [Create(w, CreateError(true)), Clean(w, true, true)]);
    assert op.name in t.pvs && t.pvs[op.name] == StoredPV(op.asset, false) && op.asset !in t.assets;
  }

  /** A deletion with a cached volume from an earlier life of the name: it deletes an asset that
      is gone, then the volume, and the volume's asset stays. */
  lemma StaleCacheLeaks(s: State, w: nat)
    requires Inv(s) && w in s.workers && s.workers[w].Checking?
    requires var op := s.workers[w];
             && op.name in s.pvs && s.pvs[op.name].released && op.cached != s.pvs[op.name].asset
             && s.pvs[op.name].asset in s.assets - s.reported
    ensures var acts := [CheckPv(w, true, true), DeleteAsset(w, true, true), DeletePv(w, true)];
            CanRun(s, acts) && !NothingLeaked(Run(s, acts))
  {
    var op := s.workers[w];
    RunThree(s, CheckPv(w, true, true), DeleteAsset(w, true, true), DeletePv(w, true));
    Unowned(Run(s, [CheckPv(w, true, true), DeleteAsset(w, true, true), DeletePv(w, true)]), s.pvs[op.name].asset);
  }

  /** A volume can be taken back exactly when its asset exists and nobody is deleting it. */
  lemma TakeBackHarmlessIff(s: State, name: string)
    requires Inv(s) && name in s.pvs
    ensures Inv(Apply(s, TakeBack(name))) <==> MayTakeBack(s, name)
  {
    if MayTakeBack(s, name) {
      TakeBackKeeps(s, name);
    } else if w :| w in s.workers && s.workers[w].PastCheck() && s.workers[w].name == name {
      assert !Doomed(Apply(s, TakeBack(name)).pvs, name, s.workers[w].cached);
    } else {
      var t := Apply(s, TakeBack(name));
      assert name in t.pvs && t.pvs[name] == StoredPV(s.pvs[name].asset, false) && t.pvs[name].asset !in t.assets;
    }
  }

  /** Taken back between the worker's Get and its deletion of the asset, a volume that is not to
      be deleted loses its asset. */
  lemma LateTakeBackUnbacks(s: State, w: nat)
    requires Inv(s) && w in s.workers && s.workers[w].DeletingAsset?
    ensures var acts := [TakeBack(s.workers[w].name), DeleteAsset(w, true, true)];
            CanRun(s, acts) && !VolumesBacked(Run(s, acts))
  {
    var op := s.workers[w];
    assert op.PastCheck() && Doomed(s.pvs, op.name, op.cached);
    RunTwo(s, TakeBack(op.name), DeleteAsset(w, true, true));
    var t := Run(s, [TakeBack(op.name), DeleteAsset(w, true, true)]);
    assert op.name in t.pvs && t.pvs[op.name] == StoredPV(op.cached, false) && op.cached !in t.assets;
  }

  /** A crash is harmless exactly when the worker does not hold an asset that exists. */
  lemma CrashHarmlessIff(s: State, w: nat)
    requires Inv(s) && NothingLeaked(s) && w in s.workers
    ensures NothingLeaked(Apply(s, Crash(w))) <==> NoCrashWithAsset(s, Crash(w))
  {
    if s.workers[w].Holds() && s.workers[w].asset in s.assets - s.reported {
      Unowned(s.Drop(w), s.workers[w].asset);
    } else {
      DropLeaksNothing(s, w);
    }
  }

  /** Anybody else may delete a volume exactly when its asset is gone (or reported), and no worker
      is deleting it. */
  lemma DeletionByOthersHarmlessIff(s: State, name: string)
    requires Inv(s) && NothingLeaked(s) && name in s.pvs
    ensures var t := Apply(s, DeleteByOthers(name)); Inv(t) && NothingLeaked(t) <==> MayVanish(s, name)
  {
    var t := Apply(s, DeleteByOthers(name));
    if MayVanish(s, name) {
      RemovePvKeeps(s, name);
      RemovePvLeaksNothing(s, name);
    } else if w :| w in s.workers && s.workers[w].PastCheck() && s.workers[w].name == name {
      assert !Doomed(t.pvs, name, s.workers[w].cached);
    } else {
      Unowned(t, s.pvs[name].asset);
    }
  }

  // ---- what the machine allows ----

  /** Only the named assumptions exclude anything: volumes are released, taken back and deleted at any
      time, a worker starts for any volume, and crashes anywhere. */
  lemma ClusterMayAct(s: State, w: nat, name: string, cached: nat)
    ensures name in s.pvs ==>
              Enabled(s, Release(name)) && Enabled(s, TakeBack(name)) && Enabled(s, DeleteByOthers(name))
    ensures if w in s.workers then Enabled(s, Crash(w))
            else Enabled(s, StartProvision(w, name)) && Enabled(s, StartDelete(w, name, cached))
  {
  }

  /** And every call of a worker can fail, with or without its effect. */
  lemma CallsCanFail(s: State, w: nat, effect: bool)
    requires w in s.workers
    ensures var op := s.workers[w];
            && (op.Getting? ==> Enabled(s, GetPv(w, false)))
            && (op.Provisioning? ==> Enabled(s, Provision(w, false)))
            && (op.Creating? && op.left > 0 && (effect ==> op.name !in s.pvs) ==>
                  Enabled(s, Create(w, CreateError(effect))))
            && (op.Cleaning? && op.left > 0 ==> Enabled(s, Clean(w, false, effect)))
            && (op.Checking? ==> Enabled(s, CheckPv(w, false, false)))
            && (op.DeletingAsset? ==> Enabled(s, DeleteAsset(w, false, effect)))
            && (op.DeletingPv? ==> Enabled(s, DeletePv(w, effect)))
  {
  }
}
