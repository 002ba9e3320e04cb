/** A local PV object is deleted by the deleter only after that very object was cleaned. */
module CleanupSafety {
  import opened Common
  import opened ProcTables
  import opened VolumeCaches
  import opened CleanupProtocol
  import opened CleanupTracking

  /** A released object stays in the API server until the deleter deletes it. */
  ghost predicate HistoryOk(w: World) {
    && (forall name :: name in w.api ==> w.api[name].name == name && w.api[name] in w.history)
    && (forall pv :: pv in w.history ==> Settled(w, pv))
  }

  ghost predicate Settled(w: World, pv: PV) {
    && pv.inc < w.nextInc
    && (pv.phase == Released ==> w.IsReleased(pv.name, pv.inc) || WasDeleted(w.log, pv.name, pv.inc))
  }

  ghost predicate CacheOk(w: World) {
    forall name :: name in w.cache ==> w.cache[name].name == name && w.cache[name] in w.history
  }

  /** PVs the current pass has still to look at. */
  ghost predicate TodoOk(w: World, todo: seq<PV>) {
    && (forall i :: 0 <= i < |todo| ==> todo[i].phase == Released ==> w.IsReleased(todo[i].name, todo[i].inc))
    && (forall i, j :: 0 <= i < j < |todo| ==> todo[i].name != todo[j].name)
  }

  ghost predicate CurrentOk(w: World, pv: PV, todo: seq<PV>) {
    && w.IsReleased(pv.name, pv.inc)
    && TodoOk(w, todo)
    && (forall i :: 0 <= i < |todo| ==> todo[i].name != pv.name)
  }

  ghost predicate PassOk(w: World) {
    match w.pc
    case Scanning(todo) => TodoOk(w, todo)
    case RemovingStatus(pv, todo) => CurrentOk(w, pv, todo)
    case Acting(pv, state, start, todo) =>
      && CurrentOk(w, pv, todo)
      && (state == CSSucceeded ==> start.Some? && Cleaned(w, pv.name, start.value))
    case _ => true
  }

  /** The cleaning that started at `s` was one of the object that is in the API server now,
      and nothing has happened to that object since. */
  ghost predicate StartedFor(w: World, name: string, s: nat) {
    && s < |w.log|
    && name in w.api && w.api[name].phase == Released
    && w.log[s] == CleanStarted(name, w.api[name].inc, true)
    && QuietSince(w.log, name, s, |w.log|)
  }

  ghost predicate Cleaned(w: World, name: string, s: nat) {
    StartedFor(w, name, s) && exists e :: EndsWell(w.log, name, w.api[name].inc, s, e)
  }

  ghost predicate EndsWell(log: seq<Event>, name: string, inc: nat, s: nat, e: int) {
    s < e < |log| && log[e] == CleanEnded(name, inc, s, true)
  }

  /** An entry of the table implies that its PV exists and is Released. */
  ghost predicate EntriesOk(w: World) {
    forall name :: name in w.table.entries ==> EntryOk(w, name)
  }

  ghost predicate EntryOk(w: World, name: string)
    requires name in w.table.entries
  {
    var entry := w.table.entries[name];
    && StartedFor(w, name, entry.startTime)
    && (entry.status == CSSucceeded ==> Cleaned(w, name, entry.startTime))
  }

  ghost predicate Guarded(w: World) {
    && HistoryOk(w)
    && CacheOk(w)
    && PassOk(w)
    && EntriesOk(w)
    && DeletedOnlyAfterCleaning(w.log)
  }

  lemma JustifiedAppend(log: seq<Event>, e: Event)
    requires DeletedOnlyAfterCleaning(log)
    requires e.DeletedByDeleter? ==> exists s, t :: CleanedBy(log, e.name, e.inc, s, t, |log|)
    ensures DeletedOnlyAfterCleaning(log + [e])
  {
    var log' := log + [e];
    forall d | 0 <= d < |log'| && log'[d].DeletedByDeleter?
      ensures Justified(log', d)
    {
      if d < |log| {
        assert Justified(log, d);
      }
      var s, t :| CleanedBy(log, log'[d].name, log'[d].inc, s, t, d);
      assert CleanedBy(log', log'[d].name, log'[d].inc, s, t, d);
    }
  }

  /** What one logged event does to the record of a cleaning. */
  lemma CleanedAppend(w: World, w': World, name: string, s: nat)
    requires StartedFor(w, name, s)
    requires |w'.log| == |w.log| + 1 && w.log <= w'.log
    requires name in w'.api && w'.api[name] == w.api[name]
    requires !Disturbs(w'.log[|w.log|], name)
    ensures StartedFor(w', name, s)
    ensures Cleaned(w, name, s) ==> Cleaned(w', name, s)
  {
    if Cleaned(w, name, s) {
      var e :| EndsWell(w.log, name, w.api[name].inc, s, e);
      assert EndsWell(w'.log, name, w'.api[name].inc, s, e);
    }
  }

  /** A step that logs one event and leaves every Released object alone keeps what is known
      about the table and the current pass. */
  lemma ReleasedUntouched(w: World, w': World)
    requires EntriesOk(w) && PassOk(w)
    requires |w'.log| == |w.log| + 1 && w.log <= w'.log
    requires w'.table == w.table && w'.pc == w.pc
    requires forall name :: name in w.api && w.api[name].phase == Released ==>
               name in w'.api && w'.api[name] == w.api[name]
    requires forall name :: name in w.api && w.api[name].phase == Released ==> !Disturbs(w'.log[|w.log|], name)
    ensures EntriesOk(w') && PassOk(w')
  {
    forall name | name in w'.table.entries
      ensures EntryOk(w', name)
    {
      assert EntryOk(w, name);
      CleanedAppend(w, w', name, w.table.entries[name].startTime);
    }
    if w.pc.Acting? && w.pc.state == CSSucceeded {
      CleanedAppend(w, w', w.pc.pv.name, w.pc.start.value);
    }
  }

  lemma HistoryKept(w: World, w': World)
    requires HistoryOk(w)
    requires w'.api == w.api && w'.history == w.history && w'.nextInc == w.nextInc && w.log <= w'.log
    ensures HistoryOk(w')
  {
    forall pv | pv in w'.history
      ensures Settled(w', pv)
    {
      assert Settled(w, pv);
    }
  }

  lemma StepChangePhase(w: World, name: string, phase: Phase)
    requires Guarded(w) && Enabled(w, ChangePhase(name, phase)) && RespectsAll(w, ChangePhase(name, phase), ALL_RULES)
    ensures Guarded(Apply(w, ChangePhase(name, phase)))
  {
    var w' := Apply(w, ChangePhase(name, phase));
    assert Respects(w, ChangePhase(name, phase), ReleasedStaysReleased);
    ReleasedUntouched(w, w');
    JustifiedAppend(w.log, w'.log[|w.log|]);
    assert Settled(w, w.api[name]);
    forall pv | pv in w'.history
      ensures Settled(w', pv)
    {
      assert pv in w.history ==> Settled(w, pv);
    }
  }

  lemma StepOtherDeletes(w: World, name: string)
    requires Guarded(w) && Enabled(w, OtherDeletes(name)) && RespectsAll(w, OtherDeletes(name), ALL_RULES)
    ensures Guarded(Apply(w, OtherDeletes(name)))
  {
    var w' := Apply(w, OtherDeletes(name));
    assert Respects(w, OtherDeletes(name), OthersSpareReleased);
    ReleasedUntouched(w, w');
    JustifiedAppend(w.log, w'.log[|w.log|]);
    forall pv | pv in w'.history
      ensures Settled(w', pv)
    {
      assert Settled(w, pv);
    }
  }

  lemma StepCreate(w: World, callOk: bool, policy: ReclaimPolicy)
    requires Guarded(w) && Enabled(w, Create(callOk, policy))
    ensures Guarded(Apply(w, Create(callOk, policy)))
  {
    var w' := Apply(w, Create(callOk, policy));
    if w'.log != w.log {
      ReleasedUntouched(w, w'.(pc := w.pc));
      JustifiedAppend(w.log, w'.log[|w.log|]);
      forall pv | pv in w'.history
        ensures Settled(w', pv)
      {
        assert pv in w.history ==> Settled(w, pv);
      }
      EntriesDependOn(w'.(pc := w.pc), w');
    } else {
      HistoryKept(w, w');
      EntriesDependOn(w, w');
    }
  }

  /** The object of this name is still there, in the same phase. */
  ghost predicate SameObject(w: World, w': World, name: string)
    requires name in w.api
  {
    name in w'.api && w'.api[name].inc == w.api[name].inc && w'.api[name].phase == w.api[name].phase
  }

  lemma EntriesDependOn(w: World, w': World)
    requires EntriesOk(w)
    requires w'.log == w.log
    requires forall name :: name in w.api ==> SameObject(w, w', name)
    requires forall name :: name in w'.table.entries ==>
               name in w.table.entries && w'.table.entries[name] == w.table.entries[name]
    ensures EntriesOk(w')
  {
    forall name | name in w'.table.entries
      ensures EntryOk(w', name)
    {
      assert EntryOk(w, name);
    }
  }

  lemma StepOtherCreates(w: World, pv: PV)
    requires Guarded(w) && Enabled(w, OtherCreates(pv))
    ensures Guarded(Apply(w, OtherCreates(pv)))
  {
    var w' := Apply(w, OtherCreates(pv));
    ReleasedUntouched(w, w');
    JustifiedAppend(w.log, w'.log[|w.log|]);
    forall p | p in w'.history
      ensures Settled(w', p)
    {
      assert p in w.history ==> Settled(w, p);
    }
  }

  lemma StepEdit(w: World, name: string, policy: ReclaimPolicy, provisionedBy: Option<string>)
    requires Guarded(w) && Enabled(w, EditPV(name, policy, provisionedBy))
    ensures Guarded(Apply(w, EditPV(name, policy, provisionedBy)))
  {
    var w' := Apply(w, EditPV(name, policy, provisionedBy));
    EntriesDependOn(w, w');
    assert Settled(w, w.api[name]);
    forall p | p in w'.history
      ensures Settled(w', p)
    {
      assert p in w.history ==> Settled(w, p);
    }
    if w.pc.Acting? && w.pc.state == CSSucceeded {
      var s, e :| s == w.pc.start.value && EndsWell(w.log, w.pc.pv.name, w.api[w.pc.pv.name].inc, s, e);
      assert EndsWell(w'.log, w.pc.pv.name, w'.api[w.pc.pv.name].inc, s, e);
    }
  }

  lemma StepBeginPass(w: World, list: seq<PV>)
    requires Guarded(w) && Enabled(w, BeginPass(list)) && RespectsAll(w, BeginPass(list), ALL_RULES)
    ensures Guarded(Apply(w, BeginPass(list)))
  {
    var w' := Apply(w, BeginPass(list));
    assert Respects(w, BeginPass(list), CacheSeesDeletions);
    HistoryKept(w, w');
    EntriesDependOn(w, w');
    forall i | 0 <= i < |list|
      ensures list[i].phase == Released ==> w.IsReleased(list[i].name, list[i].inc)
    {
      assert Settled(w, list[i]);
    }
  }

  /** The main loop moves on without touching anything shared. */
  lemma StepMovesOn(w: World, w': World)
    requires Guarded(w)
    requires w' == w.(pc := w'.pc) && PassOk(w')
    ensures Guarded(w')
  {
    HistoryKept(w, w');
    EntriesDependOn(w, w');
  }

  lemma StepRemoveStatus(w: World)
    requires Guarded(w) && Tracked(w) && Enabled(w, RemoveStatus)
    ensures Guarded(Apply(w, RemoveStatus))
  {
    var w', name := Apply(w, RemoveStatus), w.pc.pv.name;
    StepRemove(w);
    HistoryKept(w, w');
    EntriesDependOn(w, w');
    if name in w.table.entries {
      assert EntryOk(w, name);
      if w.table.entries[name].status == CSSucceeded {
        var e :| EndsWell(w.log, name, w.api[name].inc, w.table.entries[name].startTime, e);
        assert EndsWell(w'.log, name, w'.api[name].inc, w.table.entries[name].startTime, e);
      }
    }
  }

  lemma StepDelete(w: World, callOk: bool)
    requires Guarded(w) && Tracked(w) && w.pc.Acting? && w.pc.state == CSSucceeded
    ensures Guarded(ApplyDelete(w, callOk))
  {
    var w', pv, s := ApplyDelete(w, callOk), w.pc.pv, w.pc.start.value;
    if w'.log == w.log {
      StepMovesOn(w, w');
    } else {
      DeleteJustified(w);
      DeleteKeepsHistory(w);
      DeleteKeepsPass(w);
      DeleteKeepsEntries(w);
    }
  }

  lemma DeleteJustified(w: World)
    requires Guarded(w) && w.pc.Acting? && w.pc.state == CSSucceeded
    ensures DeletedOnlyAfterCleaning(ApplyDelete(w, true).log)
  {
    var pv, s := w.pc.pv, w.pc.start.value;
    var e :| EndsWell(w.log, pv.name, w.api[pv.name].inc, s, e);
    assert CleanedBy(w.log, pv.name, w.api[pv.name].inc, s, e, |w.log|);
    JustifiedAppend(w.log, DeletedByDeleter(pv.name, w.api[pv.name].inc));
  }

  lemma DeleteKeepsHistory(w: World)
    requires HistoryOk(w) && w.pc.Acting? && w.pc.pv.name in w.api
    ensures HistoryOk(ApplyDelete(w, true))
  {
    var w', pv := ApplyDelete(w, true), w.pc.pv;
    assert w'.log[|w.log|] == DeletedByDeleter(pv.name, w.api[pv.name].inc);
    forall p | p in w'.history
      ensures Settled(w', p)
    {
      assert Settled(w, p);
    }
  }

  lemma DeleteKeepsPass(w: World)
    requires PassOk(w) && w.pc.Acting?
    ensures PassOk(ApplyDelete(w, true))
  {
    var w' := ApplyDelete(w, true);
    forall i | 0 <= i < |w'.pc.todo| && w'.pc.todo[i].phase == Released
      ensures w'.IsReleased(w'.pc.todo[i].name, w'.pc.todo[i].inc)
    {
      assert w.IsReleased(w.pc.todo[i].name, w.pc.todo[i].inc);
    }
  }

  lemma DeleteKeepsEntries(w: World)
    requires EntriesOk(w) && w.pc.Acting? && w.pc.pv.name in w.api && w.pc.pv.name !in w.table.entries
    ensures EntriesOk(ApplyDelete(w, true))
  {
    var w' := ApplyDelete(w, true);
    forall name | name in w'.table.entries
      ensures EntryOk(w', name)
    {
      assert EntryOk(w, name);
      CleanedAppend(w, w', name, w.table.entries[name].startTime);
    }
  }

  lemma StepStartCleaner(w: World, callOk: bool)
    requires Guarded(w) && Tracked(w) && w.pc.Acting? && w.pc.state != CSSucceeded
    ensures Guarded(ApplyStart(w, callOk))
  {
    var w', pv := ApplyStart(w, callOk), w.pc.pv;
    if w'.log == w.log {
      StepMovesOn(w, w');
      return;
    }
    JustifiedAppend(w.log, w'.log[|w.log|]);
    HistoryKept(w, w');
    forall name | name in w'.table.entries
      ensures EntryOk(w', name)
    {
      if name == pv.name {
        assert StartedFor(w', name, |w.log|);
      } else {
        assert EntryOk(w, name);
        CleanedAppend(w, w', name, w.table.entries[name].startTime);
      }
    }
  }

  lemma StepFinishCleaning(w: World, i: nat, ok: bool)
    requires Guarded(w) && Tracked(w) && i < |w.cleaners|
    ensures Guarded(ApplyFinish(w, i, ok))
  {
    var w', c := ApplyFinish(w, i, ok), w.cleaners[i];
    assert EntryOf(w, c);
    JustifiedAppend(w.log, w'.log[|w.log|]);
    HistoryKept(w, w');
    ReleasedUntouched(w, w'.(table := w.table));
    forall name | name in w'.table.entries
      ensures EntryOk(w', name)
    {
      assert EntryOk(w, name);
      CleanedAppend(w, w', name, w.table.entries[name].startTime);
      if name == c.name && ok {
        assert EndsWell(w'.log, name, w'.api[name].inc, c.start, |w.log|);
      }
    }
  }

  lemma StepInformer(w: World, a: Action)
    requires Guarded(w) && Enabled(w, a) && (a.InformerUpdate? || a.InformerDelete?)
    ensures Guarded(Apply(w, a))
  {
    HistoryKept(w, Apply(w, a));
    EntriesDependOn(w, Apply(w, a));
  }

  /** The steps of the discovery pass that only look. */
  lemma StepLooks(w: World, a: Action)
    requires Guarded(w) && Enabled(w, a) && (a.EndPass? || a.LookInCache? || a.LookInTable? || a.EndDiscovery?)
    ensures Guarded(Apply(w, a))
  {
    StepMovesOn(w, Apply(w, a));
  }

  lemma StepVisit(w: World, supported: bool)
    requires Guarded(w) && Enabled(w, Visit(supported))
    ensures Guarded(ApplyVisit(w, supported))
  {
    StepMovesOn(w, ApplyVisit(w, supported));
  }

  lemma StepAct(w: World, callOk: bool)
    requires Guarded(w) && Tracked(w) && w.pc.Acting?
    ensures Guarded(Apply(w, Act(callOk)))
  {
    if w.pc.state == CSSucceeded {
      StepDelete(w, callOk);
    } else {
      StepStartCleaner(w, callOk);
    }
  }

  lemma StepKeepsGuarded(w: World, a: Action)
    requires Tracked(w) && Guarded(w) && Enabled(w, a) && RespectsAll(w, a, ALL_RULES)
    ensures Guarded(Apply(w, a))
  {
    match a
    case OtherCreates(pv) => StepOtherCreates(w, pv);
    case EditPV(name, policy, provisionedBy) => StepEdit(w, name, policy, provisionedBy);
    case ChangePhase(name, phase) => StepChangePhase(w, name, phase);
    case OtherDeletes(name) => StepOtherDeletes(w, name);
    case InformerUpdate(_) => StepInformer(w, a);
    case InformerDelete(_) => StepInformer(w, a);
    case BeginPass(list) => StepBeginPass(w, list);
    case Visit(supported) => StepVisit(w, supported);
    case RemoveStatus => StepRemoveStatus(w);
    case Act(callOk) => StepAct(w, callOk);
    case Create(callOk, policy) => StepCreate(w, callOk, policy);
    case FinishCleaning(i, ok) => StepFinishCleaning(w, i, ok);
    case _ => StepLooks(w, a);
  }

  lemma {:induction false} RunKeepsGuarded(w: World, acts: seq<Action>)
    requires Tracked(w) && Guarded(w) && CanRun(w, acts) && RespectfulRun(w, acts, ALL_RULES)
    ensures Guarded(Run(w, acts))
    decreases |acts|
  {
    if acts != [] {
      StepKeepsTracked(w, acts[0]);
      StepKeepsGuarded(w, acts[0]);
      RunKeepsGuarded(Apply(w, acts[0]), acts[1..]);
    }
  }

  /** Over every run that respects the three conditions, the deleter deletes a PV object only
      after a cleaning of that same object, started while it was Released, succeeded; and a
      table entry always means that its PV exists and is Released. */
  lemma DeletedOnlyAfterItsOwnCleaning(w: World, acts: seq<Action>)
    requires Init(w) && CanRun(w, acts) && RespectfulRun(w, acts, ALL_RULES)
    ensures DeletedOnlyAfterCleaning(Run(w, acts).log)
    ensures forall name :: name in Run(w, acts).table.entries ==>
              name in Run(w, acts).api && Run(w, acts).api[name].phase == Released
  {
    RunKeepsGuarded(w, acts);
    var last := Run(w, acts);
    forall name | name in last.table.entries
      ensures name in last.api && last.api[name].phase == Released
    {
      assert EntryOk(last, name);
    }
  }
}
