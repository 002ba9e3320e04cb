/** The provision controller's workers: provisionClaimOperation and deleteVolumeOperation step by
    step, over the API server's PersistentVolumes and the storage assets behind them. */
module Provisioning {

  /** A PersistentVolume; `released` means that it is to be deleted, or is being deleted already:
      shouldDelete has held of it, and it has not been taken back. */
  datatype StoredPV = StoredPV(asset: nat, released: bool)

  /** Where a worker is. `left` counts the attempts left in its loop, `cached` is the asset of
      the volume in the informer's cache. */
  datatype Op =
    | Getting(name: string)
    | Provisioning(name: string)
    | Creating(name: string, asset: nat, left: nat)
    | Cleaning(name: string, asset: nat, left: nat)
    | Checking(name: string, cached: nat)
    | DeletingAsset(name: string, cached: nat)
    | DeletingPv(name: string, cached: nat)
  {
    predicate Provisions() {
      Getting? || Provisioning? || Creating? || Cleaning?
    }

    /** Has seen that the volume does not exist. */
    predicate PastGet() {
      Provisioning? || Creating? || Cleaning?
    }

    predicate Holds() {
      Creating? || Cleaning?
    }

    /** Has seen that the volume is to be deleted. */
    predicate PastCheck() {
      DeletingAsset? || DeletingPv?
    }
  }

  datatype State = State(
    retries: nat,                     // createProvisionedPVRetryCount
    pvs: map<string, StoredPV>,
    assets: set<nat>,
    reported: set<nat>,               // assets named in a ProvisioningCleanupFailed event
    nextAsset: nat,
    workers: map<nat, Op>)
  {
    function Goto(w: nat, op: Op): State {
      this.(workers := workers[w := op])
    }

    function Drop(w: nat): State {
      this.(workers := workers - {w})
    }
  }

  datatype CreateResult = Stored | AlreadyExists | CreateError(stored: bool)

  /** A failed call may or may not have had its effect, as `removed` and `stored` say. */
  datatype Action =
    | StartProvision(w: nat, name: string)
    | GetPv(w: nat, found: bool)
    | Provision(w: nat, ok: bool)                 // not ok: failed or ignored
    | Create(w: nat, result: CreateResult)
    | Clean(w: nat, ok: bool, removed: bool)
    | StartDelete(w: nat, name: string, cached: nat)
    | CheckPv(w: nat, found: bool, due: bool)     // due: shouldDelete holds of the volume that was found
    | DeleteAsset(w: nat, ok: bool, removed: bool)
    | DeletePv(w: nat, removed: bool)
    | Release(name: string)
    | TakeBack(name: string)                      // policy, phase or annotation change: not to be deleted
    | DeleteByOthers(name: string)
    | Crash(w: nat)

  predicate Enabled(s: State, a: Action) {
    match a
    case StartProvision(w, _) => w !in s.workers
    case StartDelete(w, _, _) => w !in s.workers
    case GetPv(w, found) => w in s.workers && s.workers[w].Getting? && (found ==> s.workers[w].name in s.pvs)
    case Provision(w, _) => w in s.workers && s.workers[w].Provisioning?
    case Create(w, result) =>
      && w in s.workers && s.workers[w].Creating? && s.workers[w].left > 0
      && (result.AlreadyExists? ==> s.workers[w].name in s.pvs)
      && (result.Stored? || (result.CreateError? && result.stored) ==> s.workers[w].name !in s.pvs)
    case Clean(w, ok, removed) => w in s.workers && s.workers[w].Cleaning? && s.workers[w].left > 0 && (ok ==> removed)
    case CheckPv(w, found, due) =>
      && w in s.workers && s.workers[w].Checking? && (found ==> s.workers[w].name in s.pvs)
      && (due ==> found && s.pvs[s.workers[w].name].released)
    case DeleteAsset(w, ok, removed) => w in s.workers && s.workers[w].DeletingAsset? && (ok ==> removed)
    case DeletePv(w, removed) => w in s.workers && s.workers[w].DeletingPv?
    case Release(name) => name in s.pvs
    case TakeBack(name) => name in s.pvs
    case DeleteByOthers(name) => name in s.pvs
    case Crash(w) => w in s.workers
  }

  function Apply(s: State, a: Action): State
    requires Enabled(s, a)
  {
    match a
    case StartProvision(w, name) => s.Goto(w, Getting(name))
    case GetPv(w, found) => if found then s.Drop(w) else s.Goto(w, Op.Provisioning(s.workers[w].name))
    case Provision(w, ok) => if ok then ApplyProvisioned(s, w) else s.Drop(w)
    case Create(w, result) => ApplyCreate(s, w, result)
    case Clean(w, ok, removed) => ApplyClean(s, w, ok, removed)
    case StartDelete(w, name, cached) => s.Goto(w, Checking(name, cached))
    case CheckPv(w, _, due) => ApplyCheck(s, w, due)
    case DeleteAsset(w, ok, removed) => ApplyDeleteAsset(s, w, ok, removed)
    case DeletePv(w, removed) => ApplyDeletePv(s, w, removed)
    case Release(name) => s.(pvs := s.pvs[name := s.pvs[name].(released := true)])
    case TakeBack(name) => s.(pvs := s.pvs[name := s.pvs[name].(released := false)])
    case DeleteByOthers(name) => s.(pvs := s.pvs - {name})
    case Crash(w) => s.Drop(w)
  }

  /** Without attempts the create loop leaves `err` nil, and the operation reports success. */
  function ApplyProvisioned(s: State, w: nat): State
    requires w in s.workers && s.workers[w].Provisioning?
  {
    var made := s.(assets := s.assets + {s.nextAsset}, nextAsset := s.nextAsset + 1);
    if s.retries == 0 then made.Drop(w) else made.Goto(w, Creating(s.workers[w].name, s.nextAsset, s.retries))
  }

  function ApplyCreate(s: State, w: nat, result: CreateResult): State
    requires w in s.workers && s.workers[w].Creating? && s.workers[w].left > 0
  {
    var op := s.workers[w];
    var stores := result.Stored? || (result.CreateError? && result.stored);
    var after := if stores then s.(pvs := s.pvs[op.name := StoredPV(op.asset, false)]) else s;
    if !result.CreateError? then after.Drop(w)
    else if op.left == 1 then after.Goto(w, Cleaning(op.name, op.asset, s.retries))
    else after.Goto(w, Creating(op.name, op.asset, op.left - 1))
  }

  function ApplyClean(s: State, w: nat, ok: bool, removed: bool): State
    requires w in s.workers && s.workers[w].Cleaning? && s.workers[w].left > 0
  {
    var op := s.workers[w];
    var after := if removed then s.(assets := s.assets - {op.asset}) else s;
    if ok then after.Drop(w)
    else if op.left == 1 then after.(reported := after.reported + {op.asset}).Drop(w)
    else after.Goto(w, Cleaning(op.name, op.asset, op.left - 1))
  }

  function ApplyCheck(s: State, w: nat, due: bool): State
    requires w in s.workers && s.workers[w].Checking?
  {
    var op := s.workers[w];
    if due then s.Goto(w, DeletingAsset(op.name, op.cached)) else s.Drop(w)
  }

  function ApplyDeleteAsset(s: State, w: nat, ok: bool, removed: bool): State
    requires w in s.workers && s.workers[w].DeletingAsset?
  {
    var op := s.workers[w];
    var after := if removed then s.(assets := s.assets - {op.cached}) else s;
    if ok then after.Goto(w, DeletingPv(op.name, op.cached)) else after.Drop(w)
  }

  function ApplyDeletePv(s: State, w: nat, removed: bool): State
    requires w in s.workers && s.workers[w].DeletingPv?
  {
    (if removed then s.(pvs := s.pvs - {s.workers[w].name}) else s).Drop(w)
  }

  predicate CanRun(s: State, acts: seq<Action>)
    decreases |acts|
  {
    acts == [] || (Enabled(s, acts[0]) && CanRun(Apply(s, acts[0]), acts[1..]))
  }

  function Run(s: State, acts: seq<Action>): State
    requires CanRun(s, acts)
    decreases |acts|
  {
    if acts == [] then s else Run(Apply(s, acts[0]), acts[1..])
  }

  function Start(retries: nat): State {
    State(retries, map[], {}, {}, 0, map[])
  }

  // ---- the assumptions ----

  /** No worker of the same kind is at work on the same volume name. */
  ghost predicate OneWorkerPerName(s: State, a: Action) {
    && (a.StartProvision? ==> forall w :: w in s.workers && s.workers[w].Provisions() ==> s.workers[w].name != a.name)
    && (a.StartDelete? ==> forall w :: w in s.workers && !s.workers[w].Provisions() ==> s.workers[w].name != a.name)
  }

  /** A Get that finds nothing means that the volume does not exist. */
  predicate GetIsReliable(s: State, a: Action)
    requires Enabled(s, a)
  {
    a.GetPv? && !a.found ==> s.workers[a.w].name !in s.pvs
  }

  predicate FailedCreateStoresNothing(a: Action) {
    a.Create? && a.result.CreateError? ==> !a.result.stored
  }

  /** When a deletion goes ahead, the cache and the API server agree on the volume's asset. */
  predicate CachedVolumeIsFresh(s: State, a: Action)
    requires Enabled(s, a)
  {
    a.CheckPv? && a.due ==> s.pvs[s.workers[a.w].name].asset == s.workers[a.w].cached
  }

  /** A volume can be taken back while its asset exists and no worker has seen it as one to be
      deleted. */
  ghost predicate MayTakeBack(s: State, name: string)
    requires name in s.pvs
  {
    && s.pvs[name].asset in s.assets
    && forall w :: w in s.workers && s.workers[w].PastCheck() ==> s.workers[w].name != name
  }

  ghost predicate TakenBackInTime(s: State, a: Action)
    requires Enabled(s, a)
  {
    a.TakeBack? ==> MayTakeBack(s, a.name)
  }

  /** Anybody may remove a volume without an asset that nobody is deleting: so a deletion that was
      accepted is completed. */
  ghost predicate MayVanish(s: State, name: string)
    requires name in s.pvs
  {
    && s.pvs[name].asset !in s.assets - s.reported
    && forall w :: w in s.workers && s.workers[w].PastCheck() ==> s.workers[w].name != name
  }

  ghost predicate OthersDeleteOnlyRemains(s: State, a: Action)
    requires Enabled(s, a)
  {
    a.DeleteByOthers? ==> MayVanish(s, a.name)
  }

  /** The process does not crash while a worker holds an asset. */
  predicate NoCrashWithAsset(s: State, a: Action)
    requires Enabled(s, a)
  {
    a.Crash? && s.workers[a.w].Holds() ==> s.workers[a.w].asset !in s.assets - s.reported
  }

  ghost predicate Abides(s: State, a: Action)
    requires Enabled(s, a)
  {
    && OneWorkerPerName(s, a)
    && GetIsReliable(s, a)
    && FailedCreateStoresNothing(a)
    && CachedVolumeIsFresh(s, a)
    && TakenBackInTime(s, a)
    && OthersDeleteOnlyRemains(s, a)
    && NoCrashWithAsset(s, a)
  }

  ghost predicate AbidingRun(s: State, acts: seq<Action>)
    requires CanRun(s, acts)
    decreases |acts|
  {
    acts == [] || (Abides(s, acts[0]) && AbidingRun(Apply(s, acts[0]), acts[1..]))
  }

  // ---- what is to hold ----

  ghost predicate BehindVolume(s: State, a: nat) {
    exists n :: n in s.pvs && s.pvs[n].asset == a
  }

  ghost predicate HeldByWorker(s: State, a: nat) {
    exists w :: w in s.workers && s.workers[w].Holds() && s.workers[w].asset == a
  }

  ghost predicate Accounted(s: State, a: nat) {
    a in s.reported || BehindVolume(s, a) || HeldByWorker(s, a)
  }

  /** Every existing asset is behind a stored volume, held by a worker, or reported. */
  ghost predicate NothingLeaked(s: State) {
    forall a :: a in s.assets ==> Accounted(s, a)
  }

  /** Every stored volume has its asset until it is Released. */
  ghost predicate VolumesBacked(s: State) {
    forall n :: n in s.pvs && !s.pvs[n].released ==> s.pvs[n].asset in s.assets
  }
}
