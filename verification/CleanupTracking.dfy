/** What holds in every run, whatever the cluster does: the table and the goroutines agree. */
module CleanupTracking {
  import opened Common
  import opened ProcTables
  import opened VolumeCaches
  import opened CleanupProtocol

  /** A CSRunning entry exists exactly for the names of live cleaners, one cleaner each. */
  ghost predicate RunningIffOneCleaner(w: World) {
    && (forall i :: 0 <= i < |w.cleaners| ==> EntryOf(w, w.cleaners[i]))
    && (forall i, j :: 0 <= i < j < |w.cleaners| ==> w.cleaners[i].name != w.cleaners[j].name)
    && (forall name :: w.table.IsRunning(name) ==> HasCleaner(w, name))
  }

  ghost predicate EntryOf(w: World, c: Cleaner) {
    && c.name in w.table.entries
    && w.table.entries[c.name] == ProcEntry(c.start, CSRunning)
    && c.start < |w.log|
    && w.log[c.start].CleanStarted?
    && w.log[c.start].name == c.name && w.log[c.start].inc == c.inc
  }

  ghost predicate HasCleaner(w: World, name: string) {
    exists i :: 0 <= i < |w.cleaners| && w.cleaners[i].name == name
  }

  ghost predicate StatusesKnown(w: World) {
    forall name :: name in w.table.entries ==> w.table.entries[name].status in {CSRunning, CSFailed, CSSucceeded}
  }

  ghost predicate PcOk(w: World) {
    match w.pc
    case RemovingStatus(pv, _) => !w.table.IsRunning(pv.name)
    case Acting(pv, state, _, _) => pv.name !in w.table.entries && state in {CSNotFound, CSFailed, CSSucceeded}
    case Creating(name, _) => !w.table.IsRunning(name)
    case _ => true
  }

  /** Every start in the log has ended or still has its cleaner. */
  ghost predicate StartsAccounted(w: World) {
    forall i :: 0 <= i < |w.log| && w.log[i].CleanStarted? ==>
      EndedWithin(w.log, i, |w.log|) || HasCleanerSince(w, i)
  }

  ghost predicate HasCleanerSince(w: World, start: nat) {
    exists c :: 0 <= c < |w.cleaners| && w.cleaners[c].start == start
  }

  ghost predicate Balanced(w: World) {
    Starts(w.log) == |w.cleaners| + w.table.succeeded + w.table.failed
  }

  ghost predicate Tracked(w: World) {
    && RunningIffOneCleaner(w)
    && StatusesKnown(w)
    && PcOk(w)
    && StartsAccounted(w)
    && Balanced(w)
    && NeverCreatedWhileCleaning(w.log)
  }

  /** Between two accesses of one call nothing surprising happens: the entry to remove is not
      running, the entry to create is not there, the entry to mark is there. */
  ghost predicate NoSurprise(w: World, a: Action)
    requires Enabled(w, a)
  {
    match a
    case RemoveStatus => !w.table.RemoveEntry(w.pc.pv.name).failed
    case Act(_) => w.pc.state != CSUnknown && w.table.CanMarkRunning(w.pc.pv.name)
    case FinishCleaning(i, _) => w.cleaners[i].name in w.table.entries
    case _ => true
  }

  lemma CleaningAtPrefix(log: seq<Event>, e: Event, k: nat, name: string)
    requires k <= |log|
    ensures CleaningAt(log + [e], k, name) == CleaningAt(log, k, name)
  {
    forall i | 0 <= i < k
      ensures EndedWithin(log + [e], i, k) == EndedWithin(log, i, k)
    {
      if EndedWithin(log, i, k) {
        var j :| i < j < k && log[j].CleanEnded? && log[j].start == i;
        assert (log + [e])[j] == log[j];
      }
      if EndedWithin(log + [e], i, k) {
        var j :| i < j < k && (log + [e])[j].CleanEnded? && (log + [e])[j].start == i;
        assert log[j] == (log + [e])[j];
      }
    }
    if CleaningAt(log, k, name) {
      var i :| 0 <= i < k && log[i].CleanStarted? && log[i].name == name && !EndedWithin(log, i, k);
      assert (log + [e])[i] == log[i];
    }
  }

  lemma NeverCreatedAppend(log: seq<Event>, e: Event)
    requires NeverCreatedWhileCleaning(log)
    requires e.Created? ==> !CleaningAt(log, |log|, e.name)
    ensures NeverCreatedWhileCleaning(log + [e])
  {
    forall k | 0 <= k < |log + [e]| && (log + [e])[k].Created?
      ensures !CleaningAt(log + [e], k, (log + [e])[k].name)
    {
      CleaningAtPrefix(log, e, k, (log + [e])[k].name);
    }
  }

  lemma EndedMonotone(log: seq<Event>, e: Event, i: nat)
    requires EndedWithin(log, i, |log|)
    ensures EndedWithin(log + [e], i, |log| + 1)
  {
    var j :| i < j < |log| && log[j].CleanEnded? && log[j].start == i;
    assert (log + [e])[j] == log[j];
  }

  lemma OpenStartIsRunning(w: World)
    requires RunningIffOneCleaner(w) && StartsAccounted(w)
    ensures forall name :: CleaningAt(w.log, |w.log|, name) ==> w.table.IsRunning(name)
  {
    forall name | CleaningAt(w.log, |w.log|, name)
      ensures w.table.IsRunning(name)
    {
      var i :| 0 <= i < |w.log| && w.log[i].CleanStarted? && w.log[i].name == name && !EndedWithin(w.log, i, |w.log|);
      assert HasCleanerSince(w, i);
      var c :| 0 <= c < |w.cleaners| && w.cleaners[c].start == i;
      assert EntryOf(w, w.cleaners[c]);
    }
  }

  /** Steps that leave table and cleaners alone, and log at most one event. */
  lemma StepAside(w: World, w': World, e: Event)
    requires Tracked(w)
    requires w'.table == w.table && w'.cleaners == w.cleaners && w'.log == w.log + [e]
    requires !e.CleanStarted? && !e.CleanEnded?
    requires e.Created? ==> !w.table.IsRunning(e.name)
    requires PcOk(w')
    ensures Tracked(w')
  {
    OpenStartIsRunning(w);
    NeverCreatedAppend(w.log, e);
    forall i | 0 <= i < |w'.log| && w'.log[i].CleanStarted?
      ensures EndedWithin(w'.log, i, |w'.log|) || HasCleanerSince(w', i)
    {
      assert w'.log[i] == w.log[i];
      if EndedWithin(w.log, i, |w.log|) {
        EndedMonotone(w.log, e, i);
      } else {
        assert HasCleanerSince(w, i);
        var c :| 0 <= c < |w.cleaners| && w.cleaners[c].start == i;
        assert w'.cleaners[c].start == i;
      }
    }
    TableKept(w, w');
    assert w'.log[..|w'.log| - 1] == w.log;
  }

  lemma TableKept(w: World, w': World)
    requires RunningIffOneCleaner(w)
    requires w'.table == w.table && w'.cleaners == w.cleaners && w.log <= w'.log
    ensures RunningIffOneCleaner(w')
  {
    forall name | w'.table.IsRunning(name)
      ensures HasCleaner(w', name)
    {
      assert HasCleaner(w, name);
    }
  }

  lemma StepSilent(w: World, w': World)
    requires Tracked(w)
    requires w'.cleaners == w.cleaners && w'.log == w.log && PcOk(w')
    requires w'.table == w.table
    ensures Tracked(w')
  {
    TableKept(w, w');
    forall i | 0 <= i < |w'.log| && w'.log[i].CleanStarted?
      ensures EndedWithin(w'.log, i, |w'.log|) || HasCleanerSince(w', i)
    {
      assert EndedWithin(w.log, i, |w.log|) || HasCleanerSince(w, i);
    }
  }

  lemma StepRemove(w: World)
    requires Tracked(w) && Enabled(w, RemoveStatus)
    ensures Tracked(Apply(w, RemoveStatus)) && NoSurprise(w, RemoveStatus)
  {
    var w' := Apply(w, RemoveStatus);
    forall name | w'.table.IsRunning(name)
      ensures HasCleaner(w', name)
    {
      assert w.table.IsRunning(name) && HasCleaner(w, name);
    }
    forall i | 0 <= i < |w'.cleaners|
      ensures EntryOf(w', w'.cleaners[i])
    {
      assert EntryOf(w, w.cleaners[i]);
    }
    forall i | 0 <= i < |w'.log| && w'.log[i].CleanStarted?
      ensures EndedWithin(w'.log, i, |w'.log|) || HasCleanerSince(w', i)
    {
      assert EndedWithin(w.log, i, |w.log|) || HasCleanerSince(w, i);
    }
  }

  lemma StartKeepsCleaners(w: World)
    requires RunningIffOneCleaner(w) && w.pc.Acting? && w.pc.pv.name !in w.table.entries
    requires w.pc.state in {CSNotFound, CSFailed}
    ensures RunningIffOneCleaner(ApplyStart(w, true))
  {
    var w', name, k := ApplyStart(w, true), w.pc.pv.name, |w.cleaners|;
    forall i | 0 <= i < |w'.cleaners|
      ensures EntryOf(w', w'.cleaners[i])
      ensures i < k ==> w'.cleaners[i].name != name
    {
      assert i < k ==> EntryOf(w, w.cleaners[i]);
    }
    assert w'.cleaners[k].name == name;
    forall n | w'.table.IsRunning(n)
      ensures HasCleaner(w', n)
    {
      if n != name {
        assert HasCleaner(w, n);
        var i :| 0 <= i < |w.cleaners| && w.cleaners[i].name == n;
        assert w'.cleaners[i].name == n;
      }
    }
  }

  lemma StepStart(w: World, callOk: bool)
    requires Tracked(w) && Enabled(w, Act(callOk)) && w.pc.state != CSSucceeded
    ensures Tracked(Apply(w, Act(callOk)))
  {
    var w' := ApplyStart(w, callOk);
    if w'.log == w.log {
      StepSilent(w, w');
      return;
    }
    StartKeepsCleaners(w);
    assert w'.cleaners[|w.cleaners|].start == |w.log|;
    AccountedAfterAppend(w, w');
    NeverCreatedAppend(w.log, w'.log[|w.log|]);
    assert w'.log == w.log + [w'.log[|w.log|]];
    assert w'.log[..|w'.log| - 1] == w.log;
  }

  lemma AccountedAfterAppend(w: World, w': World)
    requires StartsAccounted(w)
    requires |w'.log| == |w.log| + 1 && w.log <= w'.log
    requires w.cleaners <= w'.cleaners
    requires w'.log[|w.log|].CleanStarted? ==> HasCleanerSince(w', |w.log|)
    ensures StartsAccounted(w')
  {
    assert w'.log == w.log + [w'.log[|w.log|]];
    forall i | 0 <= i < |w'.log| && w'.log[i].CleanStarted?
      ensures EndedWithin(w'.log, i, |w'.log|) || HasCleanerSince(w', i)
    {
      if i < |w.log| {
        if EndedWithin(w.log, i, |w.log|) {
          EndedMonotone(w.log, w'.log[|w.log|], i);
        } else {
          var c :| 0 <= c < |w.cleaners| && w.cleaners[c].start == i;
          assert w'.cleaners[c].start == i;
        }
      }
    }
  }

  lemma StepFinish(w: World, k: nat, ok: bool)
    requires Tracked(w) && Enabled(w, FinishCleaning(k, ok))
    ensures Tracked(Apply(w, FinishCleaning(k, ok))) && NoSurprise(w, FinishCleaning(k, ok))
  {
    var w', c := Apply(w, FinishCleaning(k, ok)), w.cleaners[k];
    FinishKeepsCleaners(w, k, ok);
    assert forall n :: w'.table.IsRunning(n) <==> n in w'.table.Running();
    FinishAccounts(w, k, ok);
    NeverCreatedAppend(w.log, w'.log[|w.log|]);
    assert w'.log == w.log + [w'.log[|w.log|]];
    assert w'.log[..|w'.log| - 1] == w.log;
  }

  lemma FinishKeepsCleaners(w: World, k: nat, ok: bool)
    requires RunningIffOneCleaner(w) && k < |w.cleaners|
    ensures RunningIffOneCleaner(ApplyFinish(w, k, ok)) && w.cleaners[k].name in w.table.entries
    ensures ApplyFinish(w, k, ok).table.Running() == w.table.Running() - {w.cleaners[k].name}
  {
    var w', c := ApplyFinish(w, k, ok), w.cleaners[k];
    assert EntryOf(w, c);
    forall i | 0 <= i < |w'.cleaners|
      ensures EntryOf(w', w'.cleaners[i])
    {
      var old_i := if i < k then i else i + 1;
      assert EntryOf(w, w.cleaners[old_i]) && w.cleaners[old_i].name != c.name;
    }
    forall n | w'.table.IsRunning(n)
      ensures HasCleaner(w', n)
    {
      assert w.table.IsRunning(n) && HasCleaner(w, n);
      var i :| 0 <= i < |w.cleaners| && w.cleaners[i].name == n;
      assert w'.cleaners[if i < k then i else i - 1] == w.cleaners[i];
    }
  }

  lemma FinishAccounts(w: World, k: nat, ok: bool)
    requires RunningIffOneCleaner(w) && StartsAccounted(w) && k < |w.cleaners|
    ensures StartsAccounted(ApplyFinish(w, k, ok))
  {
    var w', c := ApplyFinish(w, k, ok), w.cleaners[k];
    assert EntryOf(w, c);
    assert w'.log == w.log + [w'.log[|w.log|]];
    forall i | 0 <= i < |w'.log| && w'.log[i].CleanStarted?
      ensures EndedWithin(w'.log, i, |w'.log|) || HasCleanerSince(w', i)
    {
      if i == c.start {
        assert w'.log[|w.log|].start == i;
      } else if EndedWithin(w.log, i, |w.log|) {
        EndedMonotone(w.log, w'.log[|w.log|], i);
      } else {
        assert HasCleanerSince(w, i);
        var j :| 0 <= j < |w.cleaners| && w.cleaners[j].start == i;
        assert w'.cleaners[if j < k then j else j - 1].start == i;
      }
    }
  }

  lemma StepAct(w: World, callOk: bool)
    requires Tracked(w) && Enabled(w, Act(callOk))
    ensures Tracked(Apply(w, Act(callOk))) && NoSurprise(w, Act(callOk))
  {
    var w' := Apply(w, Act(callOk));
    if w.pc.state != CSSucceeded {
      StepStart(w, callOk);
    } else if w'.log == w.log {
      StepSilent(w, w');
    } else {
      StepAside(w, w', w'.log[|w.log|]);
    }
  }

  lemma StepCreates(w: World, callOk: bool, policy: ReclaimPolicy)
    requires Tracked(w) && Enabled(w, Create(callOk, policy))
    ensures Tracked(Apply(w, Create(callOk, policy)))
  {
    var w' := ApplyCreate(w, callOk, policy);
    if w'.log == w.log {
      StepSilent(w, w');
    } else {
      StepAside(w, w', w'.log[|w.log|]);
    }
  }

  /** Every step, by anybody, keeps table and goroutines in agreement. */
  lemma StepKeepsTracked(w: World, a: Action)
    requires Tracked(w) && Enabled(w, a)
    ensures Tracked(Apply(w, a)) && NoSurprise(w, a)
  {
    var w' := Apply(w, a);
    match a
    case RemoveStatus => StepRemove(w);
    case FinishCleaning(i, ok) => StepFinish(w, i, ok);
    case Act(callOk) => StepAct(w, callOk);
    case OtherCreates(_) => StepAside(w, w', w'.log[|w.log|]);
    case ChangePhase(_, _) => StepAside(w, w', w'.log[|w.log|]);
    case OtherDeletes(_) => StepAside(w, w', w'.log[|w.log|]);
    case Create(callOk, policy) => StepCreates(w, callOk, policy);
    case _ => StepSilent(w, w');
  }

  lemma {:induction false} RunKeepsTracked(w: World, acts: seq<Action>)
    requires Tracked(w) && CanRun(w, acts)
    ensures Tracked(Run(w, acts))
    decreases |acts|
  {
    if acts != [] {
      StepKeepsTracked(w, acts[0]);
      RunKeepsTracked(Apply(w, acts[0]), acts[1..]);
    }
  }

  /** In every run from a fresh start, even when others delete PVs in the middle of a cleaning:
      a CSRunning entry exists iff one cleaner is live for that PV, the discoverer never
      created a PV under a name being cleaned, and no access in the middle of a call fails. */
  lemma TableAgreesWithCleaners(w: World, acts: seq<Action>)
    requires Init(w) && CanRun(w, acts)
    ensures RunningIffOneCleaner(Run(w, acts))
    ensures NeverCreatedWhileCleaning(Run(w, acts).log)
    ensures forall a :: Enabled(Run(w, acts), a) ==> NoSurprise(Run(w, acts), a)
  {
    RunKeepsTracked(w, acts);
    forall a | Enabled(Run(w, acts), a)
      ensures NoSurprise(Run(w, acts), a)
    {
      StepKeepsTracked(Run(w, acts), a);
    }
  }

  /** Conservation, in every run: cleanings started = running + succeeded + failed, in the
      numbers that Stats reports. */
  lemma StatsAddUp(w: World, acts: seq<Action>)
    requires Init(w) && CanRun(w, acts)
    ensures var t := Run(w, acts).table; Starts(Run(w, acts).log) == |t.Running()| + t.succeeded + t.failed
  {
    RunKeepsTracked(w, acts);
    OnePerRunningName(Run(w, acts));
  }

  lemma OnePerRunningName(w: World)
    requires RunningIffOneCleaner(w)
    ensures |w.table.Running()| == |w.cleaners|
  {
    var names := seq(|w.cleaners|, i requires 0 <= i < |w.cleaners| => w.cleaners[i].name);
    forall name
      ensures name in w.table.Running() <==> name in names
    {
      if w.table.IsRunning(name) {
        assert HasCleaner(w, name);
        var i :| 0 <= i < |w.cleaners| && w.cleaners[i].name == name;
        assert names[i] == name;
      }
      if name in names {
        var i :| 0 <= i < |names| && names[i] == name;
        assert EntryOf(w, w.cleaners[i]);
      }
    }
    assert w.table.Running() == set name | name in names;
    DistinctCount(names);
  }

  lemma DistinctCount(names: seq<string>)
    requires forall i, j :: 0 <= i < j < |names| ==> names[i] != names[j]
    ensures |set name | name in names| == |names|
  {
    if names != [] {
      var front, last := names[..|names| - 1], names[|names| - 1];
      DistinctCount(front);
      assert (set name | name in names) == (set name | name in front) + {last};
    }
  }

  // ---- what is cleaned ----

  /** Some stored version of this object was Released, with policy Delete. */
  ghost predicate Reclaimable(history: set<PV>, name: string, inc: nat) {
    exists pv :: pv in history && pv.name == name && pv.inc == inc && pv.phase == Released && pv.policy == Delete
  }

  ghost predicate Stored(pvs: seq<PV>, history: set<PV>) {
    forall i :: 0 <= i < |pvs| ==> pvs[i] in history
  }

  /** The PV that the deleter has decided on is Released, with policy Delete. */
  ghost predicate DecidedOnReclaimable(w: World) {
    w.pc.RemovingStatus? || w.pc.Acting? ==>
      w.pc.pv in w.history && w.pc.pv.phase == Released && w.pc.pv.policy == Delete
  }

  ghost predicate SeenStored(w: World) {
    && (forall name :: name in w.api ==> w.api[name].name == name)
    && (forall name :: name in w.cache ==> w.cache[name] in w.history)
    && (w.pc.Scanning? || w.pc.RemovingStatus? || w.pc.Acting? ==> Stored(w.pc.todo, w.history))
  }

  ghost predicate StartsReclaimable(w: World) {
    forall i :: 0 <= i < |w.log| && w.log[i].CleanStarted? ==> Reclaimable(w.history, w.log[i].name, w.log[i].inc)
  }

  lemma StartsKept(w: World, w': World)
    requires StartsReclaimable(w) && w.history <= w'.history
    requires w'.log == w.log || (|w'.log| == |w.log| + 1 && w.log <= w'.log)
    requires w'.log != w.log && w'.log[|w.log|].CleanStarted? ==>
               Reclaimable(w'.history, w'.log[|w.log|].name, w'.log[|w.log|].inc)
    ensures StartsReclaimable(w')
  {
    forall i | 0 <= i < |w'.log| && w'.log[i].CleanStarted?
      ensures Reclaimable(w'.history, w'.log[i].name, w'.log[i].inc)
    {
      if i < |w.log| {
        assert w'.log[i] == w.log[i] && Reclaimable(w.history, w.log[i].name, w.log[i].inc);
      }
    }
  }

  lemma StepKeepsSeen(w: World, a: Action)
    requires SeenStored(w) && DecidedOnReclaimable(w) && Enabled(w, a)
    ensures SeenStored(Apply(w, a)) && DecidedOnReclaimable(Apply(w, a))
  {
  }

  lemma StepKeepsReclaimable(w: World, a: Action)
    requires SeenStored(w) && DecidedOnReclaimable(w) && StartsReclaimable(w) && Enabled(w, a)
    ensures SeenStored(Apply(w, a)) && DecidedOnReclaimable(Apply(w, a)) && StartsReclaimable(Apply(w, a))
  {
    StepKeepsSeen(w, a);
    StartsKept(w, Apply(w, a));
  }

  lemma {:induction false} RunKeepsReclaimable(w: World, acts: seq<Action>)
    requires SeenStored(w) && DecidedOnReclaimable(w) && StartsReclaimable(w) && CanRun(w, acts)
    ensures DecidedOnReclaimable(Run(w, acts)) && StartsReclaimable(Run(w, acts))
    decreases |acts|
  {
    if acts != [] {
      StepKeepsReclaimable(w, acts[0]);
      RunKeepsReclaimable(Apply(w, acts[0]), acts[1..]);
    }
  }

  /** In every run, whatever the cluster does: the deleter decides on PVs only that it has seen
      Released and with policy Delete, and every object that is cleaned was stored so once. */
  lemma OnlyReclaimableCleaned(w: World, acts: seq<Action>)
    requires Init(w) && CanRun(w, acts)
    ensures DecidedOnReclaimable(Run(w, acts)) && StartsReclaimable(Run(w, acts))
  {
    RunKeepsReclaimable(w, acts);
  }

  // ---- what the log tells ----

  /** What one event says about the API server, the table and the cleaners before and after it. */
  ghost predicate Tells(w: World, w': World, e: Event) {
    match e
    case Created(n, inc) =>
      n !in w.api && n in w'.api && w'.api == w.api[n := PV(n, w.nextInc, Available, w'.api[n].policy, Some(w.me))]
      && inc == w.nextInc
    case CreatedByOther(n, inc) =>
      n !in w.api && n in w'.api && w'.api == w.api[n := w'.api[n]] && w'.api[n].inc == inc == w.nextInc
    case PhaseChanged(n, inc, phase) =>
      n in w.api && w.api[n].inc == inc && w'.api == w.api[n := w.api[n].(phase := phase)]
    case CleanStarted(n, inc, ofReleased) =>
      && (ofReleased <==> n in w.api && w.api[n].inc == inc && w.api[n].phase == Released)
      && w'.api == w.api && w'.cleaners == w.cleaners + [Cleaner(n, inc, |w.log|)]
    case CleanEnded(n, inc, start, ok) =>
      && Cleaner(n, inc, start) in w.cleaners && w'.api == w.api
      && (n in w.table.entries ==>
            n in w'.table.entries && w'.table.entries[n].status == if ok then CSSucceeded else CSFailed)
    case DeletedByDeleter(n, inc) => n in w.api && w.api[n].inc == inc && w'.api == w.api - {n}
    case DeletedByOther(n, inc) => n in w.api && w.api[n].inc == inc && w'.api == w.api - {n}
  }

  predicate NamesKept(api: map<string, PV>) {
    forall n :: n in api ==> api[n].name == n
  }

  /** Each event is true, and a step without an event changes no object but its policy and its
      annotation. */
  lemma LogTellsTruth(w: World, a: Action)
    requires Enabled(w, a) && NamesKept(w.api)
    ensures var w' := Apply(w, a);
            if w'.log == w.log
            then && w'.api.Keys == w.api.Keys && w'.cleaners == w.cleaners
                 && forall n :: n in w.api ==> w'.api[n].inc == w.api[n].inc && w'.api[n].phase == w.api[n].phase
            else |w'.log| == |w.log| + 1 && w.log <= w'.log && Tells(w, w', w'.log[|w.log|])
    ensures NamesKept(Apply(w, a).api)
  {
    if a.Act? {
      ActIsTrue(w, a);
    } else if a.Create? || a.FinishCleaning? {
      OwnEventIsTrue(w, a);
    }
  }

  lemma ActIsTrue(w: World, a: Action)
    requires Enabled(w, a) && NamesKept(w.api) && a.Act?
    ensures var w' := Apply(w, a);
            && NamesKept(w'.api)
            && if w'.log == w.log then w'.api == w.api && w'.cleaners == w.cleaners
               else |w'.log| == |w.log| + 1 && w.log <= w'.log && Tells(w, w', w'.log[|w.log|])
  {
  }

  lemma OwnEventIsTrue(w: World, a: Action)
    requires Enabled(w, a) && NamesKept(w.api) && (a.Create? || a.FinishCleaning?)
    ensures var w' := Apply(w, a);
            && NamesKept(w'.api)
            && if w'.log == w.log then w'.api == w.api && w'.cleaners == w.cleaners
               else |w'.log| == |w.log| + 1 && w.log <= w'.log && Tells(w, w', w'.log[|w.log|])
  {
  }

  function AfterEvent(before: map<string, nat>, e: Event): map<string, nat> {
    match e
    case Created(n, inc) => before[n := inc]
    case CreatedByOther(n, inc) => before[n := inc]
    case DeletedByDeleter(n, _) => before - {n}
    case DeletedByOther(n, _) => before - {n}
    case _ => before
  }

  /** The objects by name, as the log has them. */
  function Replayed(incs: map<string, nat>, log: seq<Event>): map<string, nat> {
    if log == [] then incs else AfterEvent(Replayed(incs, log[..|log| - 1]), log[|log| - 1])
  }

  lemma TrueEventReplays(w: World, w': World, e: Event)
    requires Tells(w, w', e)
    ensures Incs(w'.api) == AfterEvent(Incs(w.api), e)
  {
  }

  ghost function Incs(api: map<string, PV>): map<string, nat> {
    map n | n in api :: api[n].inc
  }

  lemma StepReplays(w: World, a: Action, incs: map<string, nat>)
    requires Enabled(w, a) && NamesKept(w.api) && Incs(w.api) == Replayed(incs, w.log)
    ensures NamesKept(Apply(w, a).api) && Incs(Apply(w, a).api) == Replayed(incs, Apply(w, a).log)
  {
    LogTellsTruth(w, a);
    var w' := Apply(w, a);
    if w'.log != w.log {
      TrueEventReplays(w, w', w'.log[|w.log|]);
      assert w'.log[..|w.log|] == w.log;
    }
  }

  lemma {:induction false} RunReplays(w: World, acts: seq<Action>, incs: map<string, nat>)
    requires CanRun(w, acts) && NamesKept(w.api) && Incs(w.api) == Replayed(incs, w.log)
    ensures Incs(Run(w, acts).api) == Replayed(incs, Run(w, acts).log)
    decreases |acts|
  {
    if acts != [] {
      StepReplays(w, acts[0], incs);
      RunReplays(Apply(w, acts[0]), acts[1..], incs);
    }
  }

  /** In every run the log replays to exactly the objects that the API server has. */
  lemma LogReplays(w: World, acts: seq<Action>)
    requires Init(w) && CanRun(w, acts)
    ensures Incs(Run(w, acts).api) == Replayed(Incs(w.api), Run(w, acts).log)
  {
    RunReplays(w, acts, Incs(w.api));
  }

  /** An edit of a PV is a new version, which the informer can show at once, and which the cache
      then takes if it has the PV, or if the annotation is this provisioner's. */
  lemma EditReachesCache(w: World, name: string, policy: ReclaimPolicy, mark: Option<string>)
    requires name in w.api && w.api[name].name == name && (name in w.cache || mark == Some(w.me))
    ensures var now := PV(name, w.api[name].inc, w.api[name].phase, policy, mark);
            && CanRun(w, [EditPV(name, policy, mark), InformerUpdate(now)])
            && Run(w, [EditPV(name, policy, mark), InformerUpdate(now)]) ==
                 w.(api := w.api[name := now], history := w.history + {now}, cache := w.cache[name := now])
  {
    var now := PV(name, w.api[name].inc, w.api[name].phase, policy, mark);
    var acts := [EditPV(name, policy, mark), InformerUpdate(now)];
    RunThen(w, [], EditPV(name, policy, mark), {});
    RunThen(w, [EditPV(name, policy, mark)], InformerUpdate(now), {});
    assert [] + [EditPV(name, policy, mark)] == [EditPV(name, policy, mark)];
    assert [EditPV(name, policy, mark)] + [InformerUpdate(now)] == acts;
  }

  /** A PV of another provisioner stays out of the cache. */
  lemma ForeignStaysOut(w: World, pv: PV)
    requires pv in w.history && pv.name !in w.cache && pv.provisionedBy != Some(w.me)
    ensures Enabled(w, InformerUpdate(pv)) && Apply(w, InformerUpdate(pv)) == w
  {
  }
}
