/** The deleter and the discoverer of local volumes as code with loops over the shared table and
    cache: run without interruption, a turn of the main loop is a run of `CleanupProtocol`. */
module LocalVolumes {
  import opened Common
  import opened ProcTables
  import opened VolumeCaches
  import opened CleanupProtocol

  /** For each PV: whether the checks before the cleaning pass, and whether the API call, or the
      start of the cleaner, succeeds. */
  datatype DeletionAnswers = DeletionAnswers(supported: string -> bool, callOk: string -> bool)

  /** For each file: whether its volume can be used, and whether the API call succeeds. */
  datatype DiscoveryAnswers = DiscoveryAnswers(usable: string -> bool, callOk: string -> bool)

  lemma Step(from: World, acts: seq<Action>, w: World, a: Action, to: World)
    requires Reached(from, acts, w) && Enabled(w, a) && Apply(w, a) == to
    ensures Reached(from, acts + [a], to)
  {
    RunThen(from, acts, a, {});
  }

  /** What the table and the API server have for one name. */
  datatype NameState = NameState(status: Option<CleanupState>, stored: Option<PV>)

  function StateOf(table: Table, api: map<string, PV>, name: string): NameState {
    NameState(if name in table.entries then Some(table.entries[name].status) else None,
              if name in api then Some(api[name]) else None)
  }

  /** What a visit makes of it: nothing while a cleaning runs, deletion after a successful one,
      a new cleaning otherwise; the entry is gone also when the deletion or the start fails. */
  function AfterVisit(s: NameState, supported: bool, callOk: bool): NameState {
    if !supported || s.status == Some(CSRunning) || s.status == Some(CSUnknown) then s
    else if s.status == Some(CSSucceeded) then NameState(None, if callOk then None else s.stored)
    else NameState(if callOk then Some(CSRunning) else None, s.stored)
  }

  predicate Due(pv: PV) {
    pv.phase == Released && pv.policy == Delete
  }

  /** A cached name that a pass is to reclaim. */
  predicate Reclaims(cache: Cache, name: string, env: DeletionAnswers) {
    name in cache && cache[name].phase == Released && cache[name].policy == Delete && env.supported(name)
  }

  predicate Was(table: Table, name: string, status: CleanupState) {
    name in table.entries && table.entries[name].status == status
  }

  /** The object of this name, or its absence, is as before. */
  predicate SameObject(api: map<string, PV>, api': map<string, PV>, name: string) {
    if name in api then name in api' && api'[name] == api[name] else name !in api'
  }

  /** Neither the object nor the entry of this name has changed. */
  ghost predicate Kept(w: World, w': World, name: string) {
    && SameObject(w.api, w'.api, name)
    && if name in w.table.entries then Was(w'.table, name, w.table.entries[name].status)
       else name !in w'.table.entries
  }

  class LocalProvisioner {
    const me: string
    const table: ProcTableImpl
    const cache: VolumeCache
    var api: map<string, PV>
    var nextInc: nat
    var clock: nat
    ghost var history: set<PV>
    ghost var cleaners: seq<Cleaner>
    ghost var log: seq<Event>

    /** The clock counts the events. */
    ghost predicate Valid()
      reads this, cache
    {
      cache.Valid() && clock == |log|
    }

    /** The machine's world with the main loop at `pc`. */
    ghost function Now(pc: Pc): World
      reads this, cache, table
    {
      World(me, api, history, nextInc, cache.pvs, table.Model(), cleaners, pc, log)
    }

    ghost function Here(name: string): NameState
      reads this, table
    {
      StateOf(table.Model(), api, name)
    }

    constructor (me: string, table: ProcTableImpl, cache: VolumeCache, api: map<string, PV>, nextInc: nat)
      requires cache.Valid() && cache.pvs == map[] && table.Model() == Table(map[], 0, 0)
      requires forall name :: name in api ==> api[name].name == name && api[name].inc < nextInc
      ensures Valid() && Init(Now(Idle)) && this.table == table && this.cache == cache && this.me == me
      ensures this.api == api
    {
      this.me, this.table, this.cache, this.api, this.nextInc := me, table, cache, api, nextInc;
      clock, history, cleaners, log := 0, api.Values, [], [];
    }

    /** deletePV, after the checks of policy and phase: nothing while the PV is being cleaned,
        deletion after a successful cleaning, a new cleaning otherwise. */
    method DeletePV(pv: PV, ghost rest: seq<PV>, supported: bool, callOk: bool, ghost from: World,
                    ghost before: seq<Action>)
      returns (ghost acts: seq<Action>)
      requires Valid() && Due(pv)
      requires Reached(from, before, Now(Scanning([pv] + rest)))
      modifies this, table
      ensures Valid() && Reached(from, acts, Now(Scanning(rest)))
      ensures Here(pv.name) == AfterVisit(old(Here(pv.name)), supported, callOk)
      ensures forall n :: n != pv.name ==> Here(n) == old(Here(n))
    {
      ghost var w := Now(Scanning([pv] + rest));
      assert ([pv] + rest)[1..] == rest;
      var inProgress := table.IsRunning(pv.name);
      if !supported || inProgress {
        Step(from, before, w, Visit(supported), Now(Scanning(rest)));
        return before + [Visit(supported)];
      }
      Step(from, before, w, Visit(supported), Now(RemovingStatus(pv, rest)));
      acts := before + [Visit(supported)];
      w := Now(RemovingStatus(pv, rest));
      var state, startTime, err := table.RemoveEntry(pv.name);
      if err {
        Step(from, acts, w, RemoveStatus, Now(Scanning(rest)));
        return acts + [RemoveStatus];
      }
      Step(from, acts, w, RemoveStatus, Now(Acting(pv, state, startTime, rest)));
      acts := acts + [RemoveStatus];
      acts := Finish(pv, state, startTime, rest, callOk, from, acts);
    }

    /** The switch of deletePV: its entry is out of the table. */
    method Finish(pv: PV, state: CleanupState, startTime: Option<nat>, ghost rest: seq<PV>, callOk: bool,
                  ghost from: World, ghost before: seq<Action>)
      returns (ghost acts: seq<Action>)
      requires Valid() && pv.name !in table.procTable && state in {CSSucceeded, CSFailed, CSNotFound}
      requires Reached(from, before, Now(Acting(pv, state, startTime, rest)))
      modifies this, table
      ensures Valid() && Reached(from, acts, Now(Scanning(rest)))
      ensures Here(pv.name) == AfterVisit(NameState(Some(state), old(Here(pv.name)).stored), true, callOk)
      ensures forall n :: n != pv.name ==> Here(n) == old(Here(n))
    {
      ghost var w := Now(Acting(pv, state, startTime, rest));
      if state == CSSucceeded {
        if callOk && pv.name in api {
          clock, log := clock + 1, log + [DeletedByDeleter(pv.name, api[pv.name].inc)];
          api := api - {pv.name};
        }
      } else if callOk {
        RunProcess(pv);
      }
      Step(from, before, w, Act(callOk), Now(Scanning(rest)));
      acts := before + [Act(callOk)];
    }

    /** runProcess: a cleaner starts if the table takes the name. */
    method RunProcess(pv: PV)
      requires Valid()
      modifies this`clock, this`log, this`cleaners, table
      ensures Valid() && table.Model() == old(table.Model()).MarkRunning(pv.name, |old(log)|)
      ensures if old(table.Model()).CanMarkRunning(pv.name)
              then && log == old(log) + [CleanStarted(pv.name, pv.inc, old(Now(Idle)).IsReleased(pv.name, pv.inc))]
                   && cleaners == old(cleaners) + [Cleaner(pv.name, pv.inc, |old(log)|)]
              else log == old(log) && cleaners == old(cleaners)
    {
      ghost var released := Now(Idle).IsReleased(pv.name, pv.inc);
      var ok := table.MarkRunning(pv.name, clock);
      if ok {
        cleaners := cleaners + [Cleaner(pv.name, pv.inc, |log|)];
        clock, log := clock + 1, log + [CleanStarted(pv.name, pv.inc, released)];
      }
    }

    /** One PV of the pass. */
    method VisitPV(pv: PV, ghost rest: seq<PV>, env: DeletionAnswers, ghost from: World, ghost before: seq<Action>)
      returns (ghost acts: seq<Action>)
      requires Valid() && Reached(from, before, Now(Scanning([pv] + rest)))
      modifies this, table
      ensures Valid() && Reached(from, acts, Now(Scanning(rest)))
      ensures Changes(old(Now(Idle)), Now(Idle), pv, env)
    {
      ghost var w := Now(Idle);
      assert ([pv] + rest)[1..] == rest;
      assert forall n :: StateOf(w.table, w.api, n) == Here(n);
      if !Due(pv) {
        Step(from, before, Now(Scanning([pv] + rest)), Visit(true), Now(Scanning(rest)));
        return before + [Visit(true)];
      }
      acts := DeletePV(pv, rest, env.supported(pv.name), env.callOk(pv.name), from, before);
      assert forall n :: StateOf(Now(Idle).table, Now(Idle).api, n) == Here(n);
    }

    /** The loop over the listed PVs. */
    method VisitAll(list: seq<PV>, env: DeletionAnswers, ghost from: World) returns (ghost acts: seq<Action>)
      requires Valid() && from == Now(Idle) && Lists(list, cache.pvs)
      modifies this, table
      ensures Valid() && Reached(from, acts, Now(Scanning([])))
      ensures PassDone(from, Now(Idle), list, env)
    {
      acts := [];
      assert Reached(from, acts, from);
      Step(from, acts, from, BeginPass(list), Now(Scanning(list)));
      acts := acts + [BeginPass(list)];
      var i := 0;
      assert list[i..] == list;
      while i < |list|
        invariant i <= |list| && Valid() && Reached(from, acts, Now(Scanning(list[i..])))
        invariant PassDone(from, Now(Idle), list[..i], env)
      {
        acts := VisitNext(list, i, env, from, acts);
        i := i + 1;
      }
      assert list[i..] == [] && list[..i] == list;
    }

    /** One turn of that loop. */
    method VisitNext(list: seq<PV>, i: nat, env: DeletionAnswers, ghost from: World, ghost before: seq<Action>)
      returns (ghost acts: seq<Action>)
      requires Valid() && i < |list| && Lists(list, from.cache) && PassDone(from, Now(Idle), list[..i], env)
      requires Reached(from, before, Now(Scanning(list[i..])))
      modifies this, table
      ensures Valid() && Reached(from, acts, Now(Scanning(list[i + 1..])))
      ensures PassDone(from, Now(Idle), list[..i + 1], env)
    {
      ghost var w := Now(Idle);
      assert list[i..] == [list[i]] + list[i + 1..];
      acts := VisitPV(list[i], list[i + 1..], env, from, before);
      PassDoneNext(from, w, Now(Idle), list, i, env);
    }

    /** A deletion pass without interruption is a run of the machine. It leaves alone every name
        whose cached PV is not Released, or has another policy than Delete, or is being cleaned. A
        PV that has been cleaned is deleted; any other gets a cleaner. The entry goes also when
        the deletion or the start fails. */
    method DeletePVs(env: DeletionAnswers) returns (ghost acts: seq<Action>)
      requires Valid()
      modifies this, table
      ensures Valid() && Reached(old(Now(Idle)), acts, Now(Scanning([])))
      ensures cache.pvs == old(cache.pvs)
      ensures forall n :: FieldsAfterPass(old(Now(Idle)), Now(Idle), env, n)
    {
      ghost var from := Now(Idle);
      var list := cache.ListPVs();
      acts := VisitAll(list, env, from);
      AllListed(from, Now(Idle), list, env);
      forall n
        ensures FieldsAfterPass(from, Now(Idle), env, n)
      {
        StateIsFields(from, Now(Idle), env, n);
      }
    }

    /** A file gets a PV: neither cached nor being cleaned, and no call fails. */
    ghost predicate Creates(name: string, usable: bool, callOk: bool)
      reads this, cache, table
    {
      usable && callOk && name !in cache.pvs && name !in table.Model().Running()
    }

    /** createPV: the API server refuses a name that is taken. */
    method CreatePV(name: string, callOk: bool, policy: ReclaimPolicy)
      requires Valid()
      modifies this`api, this`nextInc, this`history, this`clock, this`log
      ensures Valid()
      ensures if callOk && name !in old(api) then
                var pv := PV(name, old(nextInc), Available, policy, Some(me));
                && api == old(api)[name := pv] && history == old(history) + {pv} && nextInc == old(nextInc) + 1
                && log == old(log) + [Created(name, old(nextInc))]
              else api == old(api) && history == old(history) && nextInc == old(nextInc) && log == old(log)
    {
      if callOk && name !in api {
        var pv := PV(name, nextInc, Available, policy, Some(me));
        clock, log := clock + 1, log + [Created(name, nextInc)];
        api, history, nextInc := api[name := pv], history + {pv}, nextInc + 1;
      }
    }

    /** One file: a PV is created unless its name is cached or being cleaned. */
    method VisitFile(name: string, ghost rest: seq<string>, usable: bool, callOk: bool, policy: ReclaimPolicy,
                     ghost from: World, ghost before: seq<Action>)
      returns (ghost acts: seq<Action>)
      requires Valid() && Reached(from, before, Now(Discovering([name] + rest)))
      modifies this`api, this`nextInc, this`history, this`clock, this`log
      ensures Valid() && Reached(from, acts, Now(Discovering(rest)))
      ensures forall n :: n in old(api) ==> n in api && api[n] == old(api)[n]
      ensures api.Keys == old(api).Keys + if Creates(name, usable, callOk) then {name} else {}
    {
      ghost var w := Now(Discovering([name] + rest));
      assert ([name] + rest)[1..] == rest;
      var cached := cache.GetPV(name);
      acts := before + [LookInCache];
      if cached.Some? {
        Step(from, before, w, LookInCache, Now(Discovering(rest)));
        return;
      }
      Step(from, before, w, LookInCache, Now(Probing(name, rest)));
      acts := ProbeFile(name, rest, usable, callOk, policy, from, acts);
    }

    /** A file that is not cached. */
    method ProbeFile(name: string, ghost rest: seq<string>, usable: bool, callOk: bool, policy: ReclaimPolicy,
                     ghost from: World, ghost before: seq<Action>)
      returns (ghost acts: seq<Action>)
      requires Valid() && name !in cache.pvs && Reached(from, before, Now(Probing(name, rest)))
      modifies this`api, this`nextInc, this`history, this`clock, this`log
      ensures Valid() && Reached(from, acts, Now(Discovering(rest)))
      ensures forall n :: n in old(api) ==> n in api && api[n] == old(api)[n]
      ensures api.Keys == old(api).Keys + if Creates(name, usable, callOk) then {name} else {}
    {
      var inProgress := table.IsRunning(name);
      acts := before + [LookInTable(usable)];
      if inProgress || !usable {
        Step(from, before, Now(Probing(name, rest)), LookInTable(usable), Now(Discovering(rest)));
        return;
      }
      ghost var w := Now(Creating(name, rest));
      Step(from, before, Now(Probing(name, rest)), LookInTable(usable), w);
      CreatePV(name, callOk, policy);
      Step(from, acts, w, Create(callOk, policy), Now(Discovering(rest)));
      acts := acts + [Create(callOk, policy)];
    }

    /** The loop over the files. */
    method VisitFiles(files: seq<string>, env: DiscoveryAnswers, policy: ReclaimPolicy, ghost from: World,
                      ghost before: seq<Action>)
      returns (ghost acts: seq<Action>)
      requires Valid() && Reached(from, before, Now(Discovering(files)))
      modifies this`api, this`nextInc, this`history, this`clock, this`log
      ensures Valid() && Reached(from, acts, Now(Discovering([])))
      ensures forall name :: name in old(api) ==> name in api && api[name] == old(api)[name]
      ensures forall n :: n in api <==> n in old(api) || (n in files && Creates(n, env.usable(n), env.callOk(n)))
    {
      acts := before;
      var i := 0;
      assert files[i..] == files;
      while i < |files|
        invariant i <= |files| && Valid() && Reached(from, acts, Now(Discovering(files[i..])))
        invariant forall name :: name in old(api) ==> name in api && api[name] == old(api)[name]
        invariant forall n :: n in api <==>
                              n in old(api) || (n in files[..i] && Creates(n, env.usable(n), env.callOk(n)))
      {
        assert files[..i + 1] == files[..i] + [files[i]];
        assert files[i..] == [files[i]] + files[i + 1..];
        acts := VisitFile(files[i], files[i + 1..], env.usable(files[i]), env.callOk(files[i]), policy, from, acts);
        i := i + 1;
      }
      assert files[i..] == [] && files[..i] == files;
    }

    /** A discovery pass without interruption is a run of the machine. */
    method DiscoverVolumes(files: seq<string>, env: DiscoveryAnswers, policy: ReclaimPolicy)
      returns (ghost acts: seq<Action>)
      requires Valid()
      modifies this
      ensures Valid() && Reached(old(Now(Scanning([]))), acts, Now(Idle))
      ensures forall name :: name in old(api) ==> name in api && api[name] == old(api)[name]
      ensures forall n :: n in api <==> n in old(api) || (n in files && Creates(n, env.usable(n), env.callOk(n)))
    {
      ghost var from := Now(Scanning([]));
      acts := [];
      assert Reached(from, acts, from);
      Step(from, acts, from, EndPass(files), Now(Discovering(files)));
      acts := VisitFiles(files, env, policy, from, acts + [EndPass(files)]);
      Step(from, acts, Now(Discovering([])), EndDiscovery, Now(Idle));
      acts := acts + [EndDiscovery];
    }
  }

  ghost predicate Visited(done: seq<PV>, name: string) {
    exists i :: 0 <= i < |done| && done[i].name == name
  }

  lemma VisitedNext(list: seq<PV>, i: nat)
    requires i < |list| && forall j, k :: 0 <= j < k < |list| ==> list[j].name != list[k].name
    ensures !Visited(list[..i], list[i].name)
    ensures forall n :: Visited(list[..i + 1], n) <==> Visited(list[..i], n) || n == list[i].name
  {
    assert list[..i + 1] == list[..i] + [list[i]];
    forall n | Visited(list[..i], n)
      ensures Visited(list[..i + 1], n)
    {
      var j :| 0 <= j < i && list[..i][j].name == n;
      assert list[..i + 1][j].name == n;
    }
    assert list[..i + 1][i].name == list[i].name;
  }

  /** The visited names are as a visit leaves them, all others as they were. */
  ghost predicate PassDone(w0: World, w: World, done: seq<PV>, env: DeletionAnswers) {
    forall n :: StateOf(w.table, w.api, n) == AfterPass(w0, done, env, n)
  }

  ghost function AfterPass(w0: World, done: seq<PV>, env: DeletionAnswers, n: string): NameState {
    var s := StateOf(w0.table, w0.api, n);
    if Visited(done, n) && n in w0.cache && Due(w0.cache[n]) then AfterVisit(s, env.supported(n), env.callOk(n)) else s
  }

  /** A visit of `pv`, and nothing else, lies between the two worlds. */
  ghost predicate Changes(w: World, w': World, pv: PV, env: DeletionAnswers) {
    var s := StateOf(w.table, w.api, pv.name);
    && StateOf(w'.table, w'.api, pv.name) ==
         (if Due(pv) then AfterVisit(s, env.supported(pv.name), env.callOk(pv.name)) else s)
    && forall n :: n != pv.name ==> StateOf(w'.table, w'.api, n) == StateOf(w.table, w.api, n)
  }

  lemma PassDoneNext(w0: World, w: World, w': World, list: seq<PV>, i: nat, env: DeletionAnswers)
    requires i < |list| && Lists(list, w0.cache) && PassDone(w0, w, list[..i], env) && Changes(w, w', list[i], env)
    ensures PassDone(w0, w', list[..i + 1], env)
  {
    VisitedNext(list, i);
  }

  lemma AllListed(w0: World, w: World, list: seq<PV>, env: DeletionAnswers)
    requires Lists(list, w0.cache) && PassDone(w0, w, list, env)
    requires forall n :: n in w0.cache ==> w0.cache[n].name == n
    ensures forall n :: StateOf(w.table, w.api, n) ==
                          if n in w0.cache && Due(w0.cache[n])
                          then AfterVisit(StateOf(w0.table, w0.api, n), env.supported(n), env.callOk(n))
                          else StateOf(w0.table, w0.api, n)
  {
    forall n | n in w0.cache
      ensures Visited(list, n)
    {
      var i :| 0 <= i < |list| && list[i] == w0.cache[n];
      assert list[i].name == n;
    }
  }

  /** What a pass does to a name, field by field. */
  ghost predicate FieldsAfterPass(w: World, w': World, env: DeletionAnswers, n: string) {
    var due := Reclaims(w.cache, n, env);
    && (!due || Was(w.table, n, CSRunning) || Was(w.table, n, CSUnknown) ==> Kept(w, w', n))
    && (due && Was(w.table, n, CSSucceeded) ==>
          n !in w'.table.entries && if env.callOk(n) then n !in w'.api else SameObject(w.api, w'.api, n))
    && (due && (n !in w.table.entries || Was(w.table, n, CSFailed)) ==>
          SameObject(w.api, w'.api, n)
          && if env.callOk(n) then Was(w'.table, n, CSRunning) else n !in w'.table.entries)
  }

  lemma StateIsFields(w: World, w': World, env: DeletionAnswers, n: string)
    requires n in w.cache ==> w.cache[n].name == n
    requires StateOf(w'.table, w'.api, n) ==
               if n in w.cache && Due(w.cache[n])
               then AfterVisit(StateOf(w.table, w.api, n), env.supported(n), env.callOk(n))
               else StateOf(w.table, w.api, n)
    ensures FieldsAfterPass(w, w', env, n)
  {
    assert StateOf(w'.table, w'.api, n).stored.Some? <==> n in w'.api;
  }
}
