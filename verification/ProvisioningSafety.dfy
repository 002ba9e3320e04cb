/** No asset is lost and no volume loses its asset, in any run that keeps the assumptions; and
    what goes wrong when one of them fails. */
module ProvisioningSafety {
  import opened Provisioning

  /** Workers of a kind are at different names. */
  ghost predicate NamesApart(workers: map<nat, Op>) {
    forall v, w :: v in workers && w in workers && v != w && workers[v].Provisions() == workers[w].Provisions()
      ==> workers[v].name != workers[w].name
  }

  /** What a worker has seen still holds. */
  ghost predicate SeenAbsent(workers: map<nat, Op>, pvs: map<string, StoredPV>) {
    forall w :: w in workers && workers[w].PastGet() ==> workers[w].name !in pvs
  }

  ghost predicate SeenDoomed(workers: map<nat, Op>, pvs: map<string, StoredPV>) {
    forall w :: w in workers && workers[w].PastCheck() ==> Doomed(pvs, workers[w].name, workers[w].cached)
  }

  /** The volume is stored with this asset, and Released. */
  predicate Doomed(pvs: map<string, StoredPV>, name: string, asset: nat) {
    name in pvs && pvs[name] == StoredPV(asset, true)
  }

  /** No asset has two owners. */
  ghost predicate HeldApart(workers: map<nat, Op>) {
    forall v, w :: v in workers && w in workers && v != w && workers[v].Holds() && workers[w].Holds()
      ==> workers[v].asset != workers[w].asset
  }

  ghost predicate VolumesApart(pvs: map<string, StoredPV>) {
    forall m, n :: m in pvs && n in pvs && m != n ==> pvs[m].asset != pvs[n].asset
  }

  ghost predicate HeldNotStored(workers: map<nat, Op>, pvs: map<string, StoredPV>) {
    forall n, w :: n in pvs && w in workers && workers[w].Holds() ==> pvs[n].asset != workers[w].asset
  }

  /** Assets come from the past. */
  ghost predicate AssetsPast(assets: set<nat>, next: nat) {
    forall a :: a in assets ==> a < next
  }

  ghost predicate VolumesPast(pvs: map<string, StoredPV>, next: nat) {
    forall n :: n in pvs ==> pvs[n].asset < next
  }

  ghost predicate HeldPast(workers: map<nat, Op>, next: nat) {
    forall w :: w in workers && workers[w].Holds() ==> workers[w].asset < next
  }

  /** A volume about to be created has its asset, one about to be removed has none. */
  ghost predicate CreatingBacked(workers: map<nat, Op>, assets: set<nat>) {
    forall w :: w in workers && workers[w].Creating? ==> workers[w].asset in assets
  }

  ghost predicate DeletingGone(workers: map<nat, Op>, assets: set<nat>) {
    forall w :: w in workers && workers[w].DeletingPv? ==> workers[w].cached !in assets
  }

  /** A loop that is being run has an attempt left, and never more than the retry count. */
  ghost predicate AttemptsLeft(workers: map<nat, Op>, retries: nat) {
    forall w :: w in workers && workers[w].Holds() ==> 0 < workers[w].left <= retries
  }

  ghost predicate Inv(s: State) {
    && NamesApart(s.workers) && SeenAbsent(s.workers, s.pvs) && SeenDoomed(s.workers, s.pvs)
    && HeldApart(s.workers) && VolumesApart(s.pvs) && HeldNotStored(s.workers, s.pvs)
    && AssetsPast(s.assets, s.nextAsset) && AssetsPast(s.reported, s.nextAsset)
    && VolumesPast(s.pvs, s.nextAsset) && HeldPast(s.workers, s.nextAsset)
    && CreatingBacked(s.workers, s.assets) && DeletingGone(s.workers, s.assets)
    && AttemptsLeft(s.workers, s.retries)
    && VolumesBacked(s)
  }

  lemma DropKeeps(s: State, w: nat)
    requires Inv(s)
    ensures Inv(s.Drop(w))
  {
  }

  /** What a worker may do next without touching a volume or an asset. */
  predicate MayGoto(s: State, w: nat, op: Op)
    requires w in s.workers
  {
    var was := s.workers[w];
    && op.name == was.name && op.Provisions() == was.Provisions()
    && (op.PastGet() ==> op.name !in s.pvs)
    && (op.PastCheck() ==> Doomed(s.pvs, op.name, op.cached))
    && (op.DeletingPv? ==> op.cached !in s.assets)
    && (op.Holds() ==> was.Holds() && op.asset == was.asset && 0 < op.left <= s.retries)
    && (op.Creating? ==> was.Creating?)
  }

  lemma GotoKeeps(s: State, w: nat, op: Op)
    requires Inv(s) && w in s.workers && MayGoto(s, w, op)
    ensures Inv(s.Goto(w, op))
  {
  }

  lemma DropLeaksNothing(s: State, w: nat)
    requires NothingLeaked(s) && w in s.workers
    requires s.workers[w].Holds() && s.workers[w].asset in s.assets ==>
               s.workers[w].asset in s.reported || BehindVolume(s, s.workers[w].asset)
    ensures NothingLeaked(s.Drop(w))
  {
    forall a | a in s.assets
      ensures Accounted(s.Drop(w), a)
    {
      assert BehindVolume(s, a) ==> BehindVolume(s.Drop(w), a);
      if a !in s.reported && !BehindVolume(s, a) {
        var v :| v in s.workers && s.workers[v].Holds() && s.workers[v].asset == a;
        assert v in s.Drop(w).workers && s.Drop(w).workers[v] == s.workers[v];
      }
    }
  }

  /** Moving on with the same asset, or with none before. */
  lemma GotoLeaksNothing(s: State, w: nat, op: Op)
    requires NothingLeaked(s)
    requires w in s.workers && s.workers[w].Holds() ==> op.Holds() && op.asset == s.workers[w].asset
    ensures NothingLeaked(s.Goto(w, op))
  {
    forall a | a in s.assets
      ensures Accounted(s.Goto(w, op), a)
    {
      assert BehindVolume(s, a) ==> BehindVolume(s.Goto(w, op), a);
      if a !in s.reported && !BehindVolume(s, a) {
        var v :| v in s.workers && s.workers[v].Holds() && s.workers[v].asset == a;
        assert v in s.Goto(w, op).workers && s.Goto(w, op).workers[v].Holds() && s.Goto(w, op).workers[v].asset == a;
      }
    }
  }

  lemma RemoveAssetKeepsAccounts(s: State, a: nat)
    requires NothingLeaked(s)
    ensures NothingLeaked(s.(assets := s.assets - {a}))
  {
    var t := s.(assets := s.assets - {a});
    forall b | b in t.assets
      ensures Accounted(t, b)
    {
      assert BehindVolume(s, b) ==> BehindVolume(t, b);
      assert HeldByWorker(s, b) ==> HeldByWorker(t, b);
    }
  }

  // ---- provisioning ----

  lemma ProvisionedKeeps(s: State, w: nat)
    requires Inv(s) && Enabled(s, Provision(w, true)) && s.retries > 0
    ensures Inv(ApplyProvisioned(s, w))
  {
  }

  lemma ProvisionedLeaksNothing(s: State, w: nat)
    requires NothingLeaked(s) && Enabled(s, Provision(w, true)) && s.retries > 0
    ensures NothingLeaked(ApplyProvisioned(s, w))
  {
    var t := ApplyProvisioned(s, w);
    assert t.workers[w].Holds() && t.workers[w].asset == s.nextAsset;
    assert HeldByWorker(t, s.nextAsset);
    forall a | a in s.assets
      ensures Accounted(t, a)
    {
      assert BehindVolume(s, a) ==> BehindVolume(t, a);
      if a !in s.reported && !BehindVolume(s, a) {
        var v :| v in s.workers && s.workers[v].Holds() && s.workers[v].asset == a;
        assert v in t.workers && t.workers[v] == s.workers[v];
      }
    }
  }

  /** A new volume whose name and asset no worker and no other volume has. */
  lemma StoreKeeps(s: State, name: string, asset: nat)
    requires Inv(s) && name !in s.pvs && asset in s.assets
    requires forall w :: w in s.workers && s.workers[w].PastGet() ==> s.workers[w].name != name
    requires forall w :: w in s.workers && s.workers[w].Holds() ==> s.workers[w].asset != asset
    requires forall n :: n in s.pvs ==> s.pvs[n].asset != asset
    ensures Inv(s.(pvs := s.pvs[name := StoredPV(asset, false)]))
  {
  }

  lemma CreateKeeps(s: State, w: nat, result: CreateResult)
    requires Inv(s) && Enabled(s, Create(w, result)) && (result.CreateError? ==> !result.stored)
    ensures Inv(ApplyCreate(s, w, result))
  {
    var op := s.workers[w];
    assert op.PastGet();
    if result.Stored? {
      DropKeeps(s, w);
      StoreKeeps(s.Drop(w), op.name, op.asset);
      assert ApplyCreate(s, w, result) == s.Drop(w).(pvs := s.pvs[op.name := StoredPV(op.asset, false)]);
    } else if op.left == 1 {
      GotoKeeps(s, w, Cleaning(op.name, op.asset, s.retries));
    } else {
      GotoKeeps(s, w, Creating(op.name, op.asset, op.left - 1));
    }
  }

  /** A worker whose Create says that the volume exists would drop its asset; with one worker
      for each name and a reliable Get, it cannot happen. */
  lemma CreateLeaksNothing(s: State, w: nat, result: CreateResult)
    requires Inv(s) && NothingLeaked(s) && Enabled(s, Create(w, result)) && (result.CreateError? ==> !result.stored)
    ensures NothingLeaked(ApplyCreate(s, w, result)) && !result.AlreadyExists?
  {
    var op := s.workers[w];
    assert op.PastGet();
    if result.Stored? {
      var stored := s.(pvs := s.pvs[op.name := StoredPV(op.asset, false)]);
      assert op.name in stored.pvs && stored.pvs[op.name].asset == op.asset;
      forall a | a in s.assets
        ensures Accounted(stored, a)
      {
        if BehindVolume(s, a) {
          var n :| n in s.pvs && s.pvs[n].asset == a;
          assert n in stored.pvs && stored.pvs[n].asset == a;
        }
        assert HeldByWorker(s, a) ==> HeldByWorker(stored, a);
      }
      DropLeaksNothing(stored, w);
    } else {
      GotoLeaksNothing(s, w, if op.left == 1 then Cleaning(op.name, op.asset, s.retries)
                             else Creating(op.name, op.asset, op.left - 1));
    }
  }

  lemma RemoveHeldKeeps(s: State, w: nat)
    requires Inv(s) && w in s.workers && s.workers[w].Cleaning?
    ensures Inv(s.(assets := s.assets - {s.workers[w].asset}))
  {
    assert s.workers[w].Holds();
  }

  lemma ReportKeeps(s: State, a: nat)
    requires Inv(s) && a < s.nextAsset
    ensures Inv(s.(reported := s.reported + {a}))
  {
  }

  lemma CleanKeeps(s: State, w: nat, ok: bool, removed: bool)
    requires Inv(s) && Enabled(s, Clean(w, ok, removed))
    ensures Inv(ApplyClean(s, w, ok, removed))
  {
    var op := s.workers[w];
    RemoveHeldKeeps(s, w);
    var after := if removed then s.(assets := s.assets - {op.asset}) else s;
    assert Inv(after) && after.workers == s.workers;
    if ok {
      DropKeeps(after, w);
    } else if op.left == 1 {
      ReportKeeps(after, op.asset);
      DropKeeps(after.(reported := after.reported + {op.asset}), w);
    } else {
      GotoKeeps(after, w, Cleaning(op.name, op.asset, op.left - 1));
    }
  }

  lemma CleanLeaksNothing(s: State, w: nat, ok: bool, removed: bool)
    requires Inv(s) && NothingLeaked(s) && Enabled(s, Clean(w, ok, removed))
    ensures NothingLeaked(ApplyClean(s, w, ok, removed))
  {
    var op := s.workers[w];
    var after := if removed then s.(assets := s.assets - {op.asset}) else s;
    RemoveAssetKeepsAccounts(s, op.asset);
    if ok {
      DropLeaksNothing(after, w);
    } else if op.left == 1 {
      var told := after.(reported := after.reported + {op.asset});
      forall a | a in told.assets
        ensures Accounted(told, a)
      {
        assert BehindVolume(after, a) ==> BehindVolume(told, a);
        assert HeldByWorker(after, a) ==> HeldByWorker(told, a);
      }
      DropLeaksNothing(told, w);
    } else {
      GotoLeaksNothing(after, w, Cleaning(op.name, op.asset, op.left - 1));
    }
  }

  // ---- deletion ----

  lemma CheckKeeps(s: State, w: nat, found: bool, due: bool)
    requires Inv(s) && Enabled(s, CheckPv(w, found, due)) && CachedVolumeIsFresh(s, CheckPv(w, found, due))
    ensures Inv(ApplyCheck(s, w, due))
  {
    var op := s.workers[w];
    if due {
      GotoKeeps(s, w, DeletingAsset(op.name, op.cached));
    } else {
      DropKeeps(s, w);
    }
  }

  lemma RemoveDoomedKeeps(s: State, name: string, asset: nat)
    requires Inv(s) && Doomed(s.pvs, name, asset)
    ensures Inv(s.(assets := s.assets - {asset}))
  {
  }

  lemma DeleteAssetKeeps(s: State, w: nat, ok: bool, removed: bool)
    requires Inv(s) && Enabled(s, DeleteAsset(w, ok, removed))
    ensures Inv(ApplyDeleteAsset(s, w, ok, removed))
  {
    var op := s.workers[w];
    assert Doomed(s.pvs, op.name, op.cached);
    RemoveDoomedKeeps(s, op.name, op.cached);
    var after := if removed then s.(assets := s.assets - {op.cached}) else s;
    assert Inv(after) && after.workers == s.workers && after.pvs == s.pvs;
    if ok {
      GotoKeeps(after, w, DeletingPv(op.name, op.cached));
    } else {
      DropKeeps(after, w);
    }
  }

  lemma DeleteAssetLeaksNothing(s: State, w: nat, ok: bool, removed: bool)
    requires NothingLeaked(s) && Enabled(s, DeleteAsset(w, ok, removed))
    ensures NothingLeaked(ApplyDeleteAsset(s, w, ok, removed))
  {
    var op := s.workers[w];
    var after := if removed then s.(assets := s.assets - {op.cached}) else s;
    RemoveAssetKeepsAccounts(s, op.cached);
    if ok {
      GotoLeaksNothing(after, w, DeletingPv(op.name, op.cached));
    } else {
      DropLeaksNothing(after, w);
    }
  }

  lemma RemovePvKeeps(s: State, name: string)
    requires Inv(s)
    requires forall w :: w in s.workers && s.workers[w].PastCheck() ==> s.workers[w].name != name
    ensures Inv(s.(pvs := s.pvs - {name}))
  {
  }

  lemma DeletePvKeeps(s: State, w: nat, removed: bool)
    requires Inv(s) && Enabled(s, DeletePv(w, removed))
    ensures Inv(ApplyDeletePv(s, w, removed))
  {
    var op := s.workers[w];
    assert !op.Provisions();
    DropKeeps(s, w);
    if removed {
      RemovePvKeeps(s.Drop(w), op.name);
      assert ApplyDeletePv(s, w, removed) == s.Drop(w).(pvs := s.pvs - {op.name});
    }
  }

  /** A volume whose asset is gone can go. */
  lemma RemovePvLeaksNothing(s: State, name: string)
    requires NothingLeaked(s) && name in s.pvs && s.pvs[name].asset !in s.assets - s.reported
    ensures NothingLeaked(s.(pvs := s.pvs - {name}))
  {
    var t := s.(pvs := s.pvs - {name});
    forall a | a in t.assets
      ensures Accounted(t, a)
    {
      if BehindVolume(s, a) && a !in s.reported {
        var n :| n in s.pvs && s.pvs[n].asset == a;
        assert n in t.pvs && t.pvs[n].asset == a;
      }
      assert HeldByWorker(s, a) ==> HeldByWorker(t, a);
    }
  }

  lemma DeletePvLeaksNothing(s: State, w: nat, removed: bool)
    requires Inv(s) && NothingLeaked(s) && Enabled(s, DeletePv(w, removed))
    ensures NothingLeaked(ApplyDeletePv(s, w, removed))
  {
    var op := s.workers[w];
    assert Doomed(s.pvs, op.name, op.cached) && op.cached !in s.assets;
    if removed {
      RemovePvLeaksNothing(s, op.name);
      DropLeaksNothing(s.(pvs := s.pvs - {op.name}), w);
    } else {
      DropLeaksNothing(s, w);
    }
  }

  // ---- the rest ----

  lemma StartKeeps(s: State, w: nat, op: Op)
    requires Inv(s) && w !in s.workers && (op.Getting? || op.Checking?)
    requires forall v :: v in s.workers && s.workers[v].Provisions() == op.Provisions() ==> s.workers[v].name != op.name
    ensures Inv(s.Goto(w, op))
  {
  }

  lemma ReleaseKeeps(s: State, name: string)
    requires Inv(s) && name in s.pvs
    ensures Inv(Apply(s, Release(name)))
  {
  }

  lemma TakeBackKeeps(s: State, name: string)
    requires Inv(s) && name in s.pvs && MayTakeBack(s, name)
    ensures Inv(Apply(s, TakeBack(name)))
  {
  }

  lemma MarkLeaksNothing(s: State, name: string, released: bool)
    requires NothingLeaked(s) && name in s.pvs
    ensures NothingLeaked(s.(pvs := s.pvs[name := s.pvs[name].(released := released)]))
  {
    var t := s.(pvs := s.pvs[name := s.pvs[name].(released := released)]);
    forall a | a in s.assets
      ensures Accounted(t, a)
    {
      if BehindVolume(s, a) {
        var n :| n in s.pvs && s.pvs[n].asset == a;
        assert n in t.pvs && t.pvs[n].asset == a;
      }
      assert HeldByWorker(s, a) ==> HeldByWorker(t, a);
    }
  }

  lemma OthersStepKeeps(s: State, a: Action)
    requires Inv(s) && NothingLeaked(s) && Enabled(s, a) && Abides(s, a) && (a.DeleteByOthers? || a.Crash?)
    ensures Inv(Apply(s, a)) && NothingLeaked(Apply(s, a))
  {
    match a
    case DeleteByOthers(name) =>
      RemovePvKeeps(s, name);
      RemovePvLeaksNothing(s, name);
    case Crash(w) =>
      DropKeeps(s, w);
      DropLeaksNothing(s, w);
  }

  lemma ProvisioningStepKeeps(s: State, a: Action)
    requires s.retries > 0 && Inv(s) && NothingLeaked(s) && Enabled(s, a) && Abides(s, a)
    requires a.StartProvision? || a.GetPv? || a.Provision? || a.Create? || a.Clean?
    ensures Inv(Apply(s, a)) && NothingLeaked(Apply(s, a))
  {
    match a
    case StartProvision(w, name) =>
      StartKeeps(s, w, Getting(name));
      GotoLeaksNothing(s, w, Getting(name));
    case GetPv(w, found) =>
      DropKeeps(s, w);
      DropLeaksNothing(s, w);
      if !found {
        GotoKeeps(s, w, Op.Provisioning(s.workers[w].name));
        GotoLeaksNothing(s, w, Op.Provisioning(s.workers[w].name));
      }
    case Provision(w, ok) =>
      if ok {
        ProvisionedKeeps(s, w);
        ProvisionedLeaksNothing(s, w);
      } else {
        DropKeeps(s, w);
        DropLeaksNothing(s, w);
      }
    case Create(w, result) =>
      CreateKeeps(s, w, result);
      CreateLeaksNothing(s, w, result);
    case Clean(w, ok, removed) =>
      CleanKeeps(s, w, ok, removed);
      CleanLeaksNothing(s, w, ok, removed);
  }

  lemma DeletionStepKeeps(s: State, a: Action)
    requires Inv(s) && NothingLeaked(s) && Enabled(s, a) && Abides(s, a)
    requires a.StartDelete? || a.CheckPv? || a.DeleteAsset? || a.DeletePv? || a.Release? || a.TakeBack?
    ensures Inv(Apply(s, a)) && NothingLeaked(Apply(s, a))
  {
    match a
    case StartDelete(w, name, cached) =>
      StartKeeps(s, w, Checking(name, cached));
      GotoLeaksNothing(s, w, Checking(name, cached));
    case CheckPv(w, found, due) =>
      CheckKeeps(s, w, found, due);
      DropLeaksNothing(s, w);
      GotoLeaksNothing(s, w, DeletingAsset(s.workers[w].name, s.workers[w].cached));
    case DeleteAsset(w, ok, removed) =>
      DeleteAssetKeeps(s, w, ok, removed);
      DeleteAssetLeaksNothing(s, w, ok, removed);
    case DeletePv(w, removed) =>
      DeletePvKeeps(s, w, removed);
      DeletePvLeaksNothing(s, w, removed);
    case Release(name) =>
      ReleaseKeeps(s, name);
      MarkLeaksNothing(s, name, true);
    case TakeBack(name) =>
      TakeBackKeeps(s, name);
      MarkLeaksNothing(s, name, false);
  }

  lemma StepKeeps(s: State, a: Action)
    requires s.retries > 0 && Inv(s) && NothingLeaked(s) && Enabled(s, a) && Abides(s, a)
    ensures Inv(Apply(s, a)) && NothingLeaked(Apply(s, a)) && Apply(s, a).retries == s.retries
  {
    if a.StartProvision? || a.GetPv? || a.Provision? || a.Create? || a.Clean? {
      ProvisioningStepKeeps(s, a);
    } else if a.DeleteByOthers? || a.Crash? {
      OthersStepKeeps(s, a);
    } else {
      DeletionStepKeeps(s, a);
    }
  }

  lemma {:induction false} RunKeeps(s: State, acts: seq<Action>)
    requires s.retries > 0 && Inv(s) && NothingLeaked(s) && CanRun(s, acts) && AbidingRun(s, acts)
    ensures Inv(Run(s, acts)) && NothingLeaked(Run(s, acts))
    decreases |acts|
  {
    if acts != [] {
      StepKeeps(s, acts[0]);
      RunKeeps(Apply(s, acts[0]), acts[1..]);
    }
  }

  /** A cluster that a controller can start on: any volumes, each with an asset of its own, and
      nothing leaked. */
  ghost predicate Settled(s: State) {
    && s.workers == map[] && VolumesApart(s.pvs) && VolumesBacked(s) && NothingLeaked(s)
    && AssetsPast(s.assets, s.nextAsset) && AssetsPast(s.reported, s.nextAsset) && VolumesPast(s.pvs, s.nextAsset)
  }

  /** The main result: in every run that keeps the assumptions, from any settled cluster and with
      a retry count of at least one, a stored volume has its asset until it is Released, and every
      asset that exists is behind a stored volume, held by a worker, or reported; no asset has two
      volumes, and no loop makes more attempts than the retry count. */
  lemma EveryRunIsSafe(s: State, acts: seq<Action>)
    requires Settled(s) && s.retries > 0 && CanRun(s, acts) && AbidingRun(s, acts)
    ensures VolumesBacked(Run(s, acts)) && NothingLeaked(Run(s, acts)) && VolumesApart(Run(s, acts).pvs)
    ensures AttemptsLeft(Run(s, acts).workers, Run(s, acts).retries)
  {
    RunKeeps(s, acts);
  }
}
