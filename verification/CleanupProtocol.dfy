/** The life of local PVs as a state machine: one main loop (a deletion pass, then a discovery
    pass), cleaner goroutines, the informer, and everybody else who talks to the API server.

    A step of the main loop reaches from one shared-state access to the next, so that
    cleaners, informer events and API changes can fall between any two accesses.
    Cleaning is process-based.
 */
module CleanupProtocol {
  import opened Common
  import opened ProcTables
  import opened VolumeCaches

  /** What happened so far, for stating properties of whole runs. `ofReleased` records whether
      the object being cleaned was, at that moment, in the API server and Released. */
  datatype Event =
    | Created(name: string, inc: nat)
    | CreatedByOther(name: string, inc: nat)
    | PhaseChanged(name: string, inc: nat, phase: Phase)
    | CleanStarted(name: string, inc: nat, ofReleased: bool)
    | CleanEnded(name: string, inc: nat, start: nat, ok: bool)
    | DeletedByDeleter(name: string, inc: nat)
    | DeletedByOther(name: string, inc: nat)

  /** A live cleaner goroutine; `start` is the log position of its start. */
  datatype Cleaner = Cleaner(name: string, inc: nat, start: nat)

  /** Where the main loop stands. */
  datatype Pc =
    | Idle
    | Scanning(todo: seq<PV>)
    | RemovingStatus(pv: PV, todo: seq<PV>)
    | Acting(pv: PV, state: CleanupState, start: Option<nat>, todo: seq<PV>)
    | Discovering(files: seq<string>)
    | Probing(name: string, files: seq<string>)  // not cached
    | Creating(name: string, files: seq<string>)

  datatype World = World(
    me: string,
    api: map<string, PV>,
    history: set<PV>,  // every version of every object the API server ever stored
    nextInc: nat,
    cache: Cache,
    table: Table,
    cleaners: seq<Cleaner>,
    pc: Pc,
    log: seq<Event>)
  {
    predicate IsReleased(name: string, inc: nat) {
      name in api && api[name].inc == inc && api[name].phase == Released
    }

    function Log(e: Event): World {
      this.(log := log + [e])
    }

    function Store(pv: PV): World {
      this.(api := api[pv.name := pv], history := history + {pv})
    }
  }

  datatype Action =
    // the rest of the cluster
    | OtherCreates(pv: PV)
    | EditPV(name: string, policy: ReclaimPolicy, provisionedBy: Option<string>)
    | ChangePhase(name: string, phase: Phase)
    | OtherDeletes(name: string)
    // informer events: any version ever stored, in any order; any deletion
    | InformerUpdate(pv: PV)
    | InformerDelete(name: string)
    // deletion pass
    | BeginPass(list: seq<PV>)
    | Visit(supported: bool)
    | RemoveStatus
    | Act(callOk: bool)
    // discovery pass
    | EndPass(files: seq<string>)
    | LookInCache
    | LookInTable(usable: bool)
    | Create(callOk: bool, policy: ReclaimPolicy)
    | EndDiscovery
    // a cleaner goroutine
    | FinishCleaning(i: nat, ok: bool)

  ghost predicate Enabled(w: World, a: Action) {
    match a
    case OtherCreates(pv) => pv.name !in w.api
    case EditPV(name, _, _) => name in w.api
    case ChangePhase(name, _) => name in w.api
    case OtherDeletes(name) => name in w.api
    case InformerUpdate(pv) => pv in w.history
    case InformerDelete(_) => true
    case BeginPass(list) => w.pc.Idle? && Lists(list, w.cache)
    case Visit(_) => w.pc.Scanning? && w.pc.todo != []
    case RemoveStatus => w.pc.RemovingStatus?
    case Act(_) => w.pc.Acting?
    case EndPass(_) => w.pc == Scanning([])
    case LookInCache => w.pc.Discovering? && w.pc.files != []
    case LookInTable(_) => w.pc.Probing?
    case Create(_, _) => w.pc.Creating?
    case EndDiscovery => w.pc == Discovering([])
    case FinishCleaning(i, _) => i < |w.cleaners|
  }

  ghost function Apply(w: World, a: Action): World
    requires Enabled(w, a)
  {
    match a
    case OtherCreates(pv) =>
      w.Store(pv.(inc := w.nextInc)).(nextInc := w.nextInc + 1).Log(CreatedByOther(pv.name, w.nextInc))
    case EditPV(name, policy, provisionedBy) =>
      w.Store(w.api[name].(name := name, policy := policy, provisionedBy := provisionedBy))
    case ChangePhase(name, phase) =>
      w.Store(w.api[name].(name := name, phase := phase)).Log(PhaseChanged(name, w.api[name].inc, phase))
    case OtherDeletes(name) =>
      w.(api := w.api - {name}).Log(DeletedByOther(name, w.api[name].inc))
    case InformerUpdate(pv) => w.(cache := HandlePVUpdate(w.cache, w.me, pv))
    case InformerDelete(name) => w.(cache := HandlePVDelete(w.cache, name))
    case BeginPass(list) => w.(pc := Scanning(list))
    case Visit(supported) => ApplyVisit(w, supported)
    case RemoveStatus =>
      var r := w.table.RemoveEntry(w.pc.pv.name);
      if r.failed then w.(pc := Scanning(w.pc.todo))
      else w.(table := r.table, pc := Acting(w.pc.pv, r.state, r.startTime, w.pc.todo))
    case Act(callOk) => if w.pc.state == CSSucceeded then ApplyDelete(w, callOk) else ApplyStart(w, callOk)
    case EndPass(files) => w.(pc := Discovering(files))
    case LookInCache => ApplyLook(w)
    case LookInTable(usable) =>
      var name, rest := w.pc.name, w.pc.files;
      if w.table.IsRunning(name) || !usable then w.(pc := Discovering(rest)) else w.(pc := Creating(name, rest))
    case Create(callOk, policy) => ApplyCreate(w, callOk, policy)
    case EndDiscovery => w.(pc := Idle)
    case FinishCleaning(i, ok) => ApplyFinish(w, i, ok)
  }

  /** One PV of the pass: only Released PVs with policy Delete that are not being cleaned go
      on; `supported` is false when an earlier check of deletePV returns an error. */
  ghost function ApplyVisit(w: World, supported: bool): World
    requires w.pc.Scanning? && w.pc.todo != []
  {
    var pv, rest := w.pc.todo[0], w.pc.todo[1..];
    if pv.phase != Released || pv.policy != Delete || !supported || w.table.IsRunning(pv.name)
    then w.(pc := Scanning(rest))
    else w.(pc := RemovingStatus(pv, rest))
  }

  /** The API object is deleted by name only. `callOk` is false when the call fails. */
  ghost function ApplyDelete(w: World, callOk: bool): World
    requires w.pc.Acting?
  {
    var name, next := w.pc.pv.name, w.(pc := Scanning(w.pc.todo));
    if callOk && name in w.api then
      next.(api := w.api - {name}).Log(DeletedByDeleter(name, w.api[name].inc))
    else next
  }

  /** Start a cleaner. `callOk` is false when a block volume has no cleaner command. */
  ghost function ApplyStart(w: World, callOk: bool): World
    requires w.pc.Acting?
  {
    var pv, next := w.pc.pv, w.(pc := Scanning(w.pc.todo));
    if callOk && w.pc.state in {CSFailed, CSNotFound} && w.table.CanMarkRunning(pv.name) then
      next.(table := w.table.MarkRunning(pv.name, |w.log|),
            cleaners := w.cleaners + [Cleaner(pv.name, pv.inc, |w.log|)])
          .Log(CleanStarted(pv.name, pv.inc, w.IsReleased(pv.name, pv.inc)))
    else next
  }

  /** One file of the discovery pass: a name that is cached has its PV. */
  ghost function ApplyLook(w: World): World
    requires w.pc.Discovering? && w.pc.files != []
  {
    var name, rest := w.pc.files[0], w.pc.files[1..];
    if name in w.cache then w.(pc := Discovering(rest)) else w.(pc := Probing(name, rest))
  }

  /** The API server refuses a name that is taken. */
  ghost function ApplyCreate(w: World, callOk: bool, policy: ReclaimPolicy): World
    requires w.pc.Creating?
  {
    var name, next := w.pc.name, w.(pc := Discovering(w.pc.files));
    if callOk && name !in w.api then
      next.Store(PV(name, w.nextInc, Available, policy, Some(w.me)))
          .(nextInc := w.nextInc + 1)
          .Log(Created(name, w.nextInc))
    else next
  }

  ghost function ApplyFinish(w: World, i: nat, ok: bool): World
    requires i < |w.cleaners|
  {
    var c := w.cleaners[i];
    w.(table := w.table.MarkStatus(c.name, if ok then CSSucceeded else CSFailed),
       cleaners := RemoveAt(w.cleaners, i))
     .Log(CleanEnded(c.name, c.inc, c.start, ok))
  }

  function RemoveAt<T>(s: seq<T>, i: nat): (r: seq<T>)
    requires i < |s|
    ensures |r| == |s| - 1
    ensures forall j :: 0 <= j < |r| ==> r[j] == s[if j < i then j else j + 1]
  {
    s[..i] + s[i + 1..]
  }

  /** Start of the provisioner: it has cleaned nothing yet; the API server may hold PVs. */
  ghost predicate Init(w: World) {
    && w.table == Table(map[], 0, 0)
    && w.cleaners == []
    && w.pc == Idle
    && w.log == []
    && w.cache == map[]
    && w.history == w.api.Values
    && (forall name :: name in w.api ==> w.api[name].name == name && w.api[name].inc < w.nextInc)
  }

  ghost predicate CanRun(w: World, acts: seq<Action>)
    decreases |acts|
  {
    acts == [] || (Enabled(w, acts[0]) && CanRun(Apply(w, acts[0]), acts[1..]))
  }

  /** The world after a run. */
  ghost function Run(w: World, acts: seq<Action>): World
    requires CanRun(w, acts)
    decreases |acts|
  {
    if acts == [] then w else Run(Apply(w, acts[0]), acts[1..])
  }

  /** Number of cleanings ever started. */
  ghost function Starts(log: seq<Event>): nat {
    if log == [] then 0
    else Starts(log[..|log| - 1]) + if log[|log| - 1].CleanStarted? then 1 else 0
  }

  /** A cleaning of `name` has started before position `k` and not ended before it. */
  ghost predicate CleaningAt(log: seq<Event>, k: nat, name: string)
    requires k <= |log|
  {
    exists i :: 0 <= i < k && log[i].CleanStarted? && log[i].name == name && !EndedWithin(log, i, k)
  }

  ghost predicate EndedWithin(log: seq<Event>, i: nat, k: nat)
    requires k <= |log|
  {
    exists j :: i < j < k && log[j].CleanEnded? && log[j].start == i
  }

  /** The discoverer never created a PV while a cleaner of that name was at work. */
  ghost predicate NeverCreatedWhileCleaning(log: seq<Event>) {
    forall k :: 0 <= k < |log| && log[k].Created? ==> !CleaningAt(log, k, log[k].name)
  }

  /** The deletion at position `d` removed an object that had been cleaned: a cleaning of this
      very object started while it was Released and succeeded, and from its start on the
      object neither changed phase nor was replaced. */
  ghost predicate Justified(log: seq<Event>, d: nat)
    requires d < |log| && log[d].DeletedByDeleter?
  {
    exists s, e :: CleanedBy(log, log[d].name, log[d].inc, s, e, d)
  }

  ghost predicate CleanedBy(log: seq<Event>, name: string, inc: nat, s: int, e: int, d: nat)
    requires d <= |log|
  {
    && 0 <= s < e < d
    && log[s] == CleanStarted(name, inc, true)
    && log[e] == CleanEnded(name, inc, s, true)
    && QuietSince(log, name, s, d)
  }

  /** The object of this name changes its phase, or is another one from here on. */
  predicate Disturbs(e: Event, name: string) {
    (e.PhaseChanged? || e.Created? || e.CreatedByOther?) && e.name == name
  }

  ghost predicate QuietSince(log: seq<Event>, name: string, s: int, d: nat)
    requires d <= |log|
  {
    forall k :: 0 <= s < k < d ==> !Disturbs(log[k], name)
  }

  ghost predicate DeletedOnlyAfterCleaning(log: seq<Event>) {
    forall d :: 0 <= d < |log| && log[d].DeletedByDeleter? ==> Justified(log, d)
  }

  ghost predicate WasDeleted(log: seq<Event>, name: string, inc: nat) {
    DeletedByDeleter(name, inc) in log
  }

  /** What the cluster must respect for "deleted only after cleaning":
      a pass starts on a cache that has seen the deleter's own deletions; nobody else deletes
      a Released PV; a Released PV stays Released. */
  datatype Rule = CacheSeesDeletions | OthersSpareReleased | ReleasedStaysReleased

  ghost predicate Respects(w: World, a: Action, rule: Rule) {
    match rule
    case CacheSeesDeletions => a.BeginPass? ==> CacheSawDeletions(w)
    case OthersSpareReleased => a.OtherDeletes? && a.name in w.api ==> w.api[a.name].phase != Released
    case ReleasedStaysReleased => a.ChangePhase? && a.name in w.api ==> w.api[a.name].phase != Released
  }

  ghost predicate CacheSawDeletions(w: World) {
    forall name :: name in w.cache ==> !WasDeleted(w.log, name, w.cache[name].inc)
  }

  ghost predicate RespectsAll(w: World, a: Action, rules: set<Rule>) {
    forall rule :: rule in rules ==> Respects(w, a, rule)
  }

  ghost predicate RespectfulRun(w: World, acts: seq<Action>, rules: set<Rule>)
    requires CanRun(w, acts)
    decreases |acts|
  {
    acts == [] || (RespectsAll(w, acts[0], rules) && RespectfulRun(Apply(w, acts[0]), acts[1..], rules))
  }

  const ALL_RULES: set<Rule> := {CacheSeesDeletions, OthersSpareReleased, ReleasedStaysReleased}

  /** `acts` lead from one world to the other. */
  ghost predicate Reached(from: World, acts: seq<Action>, to: World) {
    CanRun(from, acts) && Run(from, acts) == to
  }

  /** A run goes on by one step. */
  lemma {:induction false} RunThen(w: World, acts: seq<Action>, a: Action, rules: set<Rule>)
    requires CanRun(w, acts) && Enabled(Run(w, acts), a)
    ensures CanRun(w, acts + [a]) && Run(w, acts + [a]) == Apply(Run(w, acts), a)
    ensures RespectfulRun(w, acts, rules) && RespectsAll(Run(w, acts), a, rules) ==> RespectfulRun(w, acts + [a], rules)
    decreases |acts|
  {
    if acts == [] {
      assert acts + [a] == [a] && [a][1..] == [];
    } else {
      assert (acts + [a])[1..] == acts[1..] + [a];
      RunThen(Apply(w, acts[0]), acts[1..], a, rules);
    }
  }
}
