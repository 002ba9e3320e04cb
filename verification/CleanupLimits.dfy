/** The exact limits of "deleted only after cleaning": what each step needs to keep the
    table's entries meaningful, and for each of the three rules a run from a fresh start that
    breaks that rule alone and deletes a volume that was never cleaned. */
module CleanupLimits {
  import opened Common
  import opened ProcTables
  import opened VolumeCaches
  import opened CleanupProtocol
  import opened CleanupSafety

  /** Somebody else's deletion is harmless exactly when the table has no entry for the PV. */
  lemma DeletionByOthersHarmlessIff(w: World, name: string)
    requires EntriesOk(w) && Enabled(w, OtherDeletes(name))
    ensures EntriesOk(Apply(w, OtherDeletes(name))) <==> name !in w.table.entries
  {
    var w' := Apply(w, OtherDeletes(name));
    if name !in w.table.entries {
      forall n | n in w'.table.entries
        ensures EntryOk(w', n)
      {
        assert EntryOk(w, n);
        CleanedAppend(w, w', n, w.table.entries[n].startTime);
      }
    } else {
      assert !EntryOk(w', name);
    }
  }

  /** So is a phase change: also one that takes a Released PV back. */
  lemma PhaseChangeHarmlessIff(w: World, name: string, phase: Phase)
    requires EntriesOk(w) && Enabled(w, ChangePhase(name, phase)) && w.api[name].name == name
    ensures EntriesOk(Apply(w, ChangePhase(name, phase))) <==> name !in w.table.entries
  {
    var w' := Apply(w, ChangePhase(name, phase));
    if name !in w.table.entries {
      forall n | n in w'.table.entries
        ensures EntryOk(w', n)
      {
        assert EntryOk(w, n);
        CleanedAppend(w, w', n, w.table.entries[n].startTime);
      }
    } else {
      var s := w.table.entries[name].startTime;
      assert EntryOk(w, name);
      assert w'.log[|w.log|] == PhaseChanged(name, w.api[name].inc, phase);
      assert !QuietSince(w'.log, name, s, |w'.log|);
      assert !EntryOk(w', name);
    }
  }

  /** Starting a cleaner is sound exactly when the cached PV is still the Released object that
      the API server holds. */
  lemma StartSoundIff(w: World)
    requires EntriesOk(w) && w.pc.Acting? && w.pc.state in {CSFailed, CSNotFound}
    requires w.table.CanMarkRunning(w.pc.pv.name)
    ensures EntriesOk(ApplyStart(w, true)) <==> w.IsReleased(w.pc.pv.name, w.pc.pv.inc)
  {
    var w', pv := ApplyStart(w, true), w.pc.pv;
    assert w'.table.entries[pv.name].startTime == |w.log|;
    if w.IsReleased(pv.name, pv.inc) {
      forall n | n in w'.table.entries
        ensures EntryOk(w', n)
      {
        if n != pv.name {
          assert EntryOk(w, n);
          CleanedAppend(w, w', n, w.table.entries[n].startTime);
        }
      }
    } else {
      assert !EntryOk(w', pv.name);
    }
  }

  /** `acts` lead from a fresh start to `w` and respect `rules`. */
  ghost predicate Reaches(w0: World, acts: seq<Action>, w: World, rules: set<Rule>) {
    Init(w0) && Reached(w0, acts, w) && RespectfulRun(w0, acts, rules)
  }

  lemma Extend(w0: World, acts: seq<Action>, w: World, a: Action, rules: set<Rule>)
    returns (acts': seq<Action>, w': World)
    requires Reaches(w0, acts, w, rules) && Enabled(w, a) && RespectsAll(w, a, rules)
    ensures w' == Apply(w, a) && Reaches(w0, acts', w', rules)
  {
    RunThen(w0, acts, a, rules);
    acts', w' := acts + [a], Apply(w, a);
  }

  /** A pass begins on a cache that holds one reclaimable PV. */
  lemma BeginTurn(w0: World, acts: seq<Action>, w: World, pv: PV, rules: set<Rule>)
    returns (acts': seq<Action>, w': World)
    requires Reaches(w0, acts, w, rules) && w.pc == Idle
    requires w.cache == map[pv.name := pv] && pv.phase == Released && pv.policy == Delete && !w.table.IsRunning(pv.name)
    requires CacheSeesDeletions in rules ==> CacheSawDeletions(w)
    ensures Reaches(w0, acts', w', rules) && w' == w.(pc := RemovingStatus(pv, []))
  {
    assert Lists([pv], w.cache) && [pv][1..] == [];
    var w1;
    acts', w1 := Extend(w0, acts, w, BeginPass([pv]), rules);
    acts', w' := Extend(w0, acts', w1, Visit(true), rules);
  }

  /** A discovery pass that finds no files. */
  lemma EndTurn(w0: World, acts: seq<Action>, w: World, rules: set<Rule>) returns (acts': seq<Action>, w': World)
    requires Reaches(w0, acts, w, rules) && w.pc == Scanning([])
    ensures Reaches(w0, acts', w', rules) && w' == w.(pc := Idle)
  {
    var w1;
    acts', w1 := Extend(w0, acts, w, EndPass([]), rules);
    acts', w' := Extend(w0, acts', w1, EndDiscovery, rules);
  }

  /** The deleter takes the PV's entry out of the table. */
  lemma ActOn(w0: World, acts: seq<Action>, w: World, pv: PV, rules: set<Rule>)
    returns (acts': seq<Action>, w': World)
    requires Reaches(w0, acts, w, rules) && w.pc == RemovingStatus(pv, [])
    requires pv.name in w.table.entries ==> w.table.entries[pv.name].status == CSSucceeded
    ensures Reaches(w0, acts', w', rules) && w'.pc == Scanning([]) && w'.(pc := Idle) == TurnResult(w.(pc := Idle), pv)
  {
    var w1;
    acts', w1 := Extend(w0, acts, w, RemoveStatus, rules);
    acts', w' := Extend(w0, acts', w1, Act(true), rules);
  }

  /** One whole turn of the main loop over a cache that holds one reclaimable PV. */
  lemma Turn(w0: World, acts: seq<Action>, w: World, pv: PV, rules: set<Rule>)
    returns (acts': seq<Action>, w': World)
    requires Reaches(w0, acts, w, rules) && w.pc == Idle
    requires w.cache == map[pv.name := pv] && pv.phase == Released && pv.policy == Delete
    requires pv.name in w.table.entries ==> w.table.entries[pv.name].status == CSSucceeded
    requires CacheSeesDeletions in rules ==> CacheSawDeletions(w)
    ensures Reaches(w0, acts', w', rules)
    ensures w' == TurnResult(w, pv)
  {
    var w1, w2;
    acts', w1 := BeginTurn(w0, acts, w, pv, rules);
    acts', w2 := ActOn(w0, acts', w1, pv, rules);
    assert w1.(pc := Idle) == w;
    acts', w' := EndTurn(w0, acts', w2, rules);
  }

  ghost function TurnResult(w: World, pv: PV): World {
    if pv.name in w.table.entries then
      var done := w.(table := w.table.(entries := w.table.entries - {pv.name}));
      if pv.name in w.api then
        done.(api := w.api - {pv.name}).Log(DeletedByDeleter(pv.name, w.api[pv.name].inc))
      else done
    else
      w.(table := w.table.(entries := w.table.entries[pv.name := ProcEntry(|w.log|, CSRunning)]),
         cleaners := w.cleaners + [Cleaner(pv.name, pv.inc, |w.log|)])
       .Log(CleanStarted(pv.name, pv.inc, w.IsReleased(pv.name, pv.inc)))
  }

  /** A turn over an empty cache comes to a file. */
  lemma BeginProbe(w0: World, acts: seq<Action>, w: World, name: string, rules: set<Rule>)
    returns (acts': seq<Action>, w': World)
    requires Reaches(w0, acts, w, rules) && w.pc == Idle && w.cache == map[]
    ensures Reaches(w0, acts', w', rules) && w' == w.(pc := Probing(name, []))
  {
    var w1, w2;
    acts', w1 := Extend(w0, acts, w, BeginPass([]), rules);
    acts', w2 := Extend(w0, acts', w1, EndPass([name]), rules);
    acts', w' := Extend(w0, acts', w2, LookInCache, rules);
    assert [name][1..] == [];
  }

  /** One whole turn over an empty cache that finds the volume `name` again. */
  lemma Rediscovery(w0: World, acts: seq<Action>, w: World, name: string, rules: set<Rule>)
    returns (acts': seq<Action>, w': World)
    requires Reaches(w0, acts, w, rules) && w.pc == Idle && w.cache == map[]
    requires name !in w.api && !w.table.IsRunning(name)
    ensures Reaches(w0, acts', w', rules)
    ensures w' == w.Store(PV(name, w.nextInc, Available, Delete, Some(w.me)))
                   .(nextInc := w.nextInc + 1).Log(Created(name, w.nextInc))
  {
    var w1, w2, w3;
    acts', w1 := BeginProbe(w0, acts, w, name, rules);
    acts', w2 := Extend(w0, acts', w1, LookInTable(true), rules);
    acts', w3 := Extend(w0, acts', w2, Create(true, Delete), rules);
    acts', w' := Extend(w0, acts', w3, EndDiscovery, rules);
  }

  /** A provisioner that starts on a cluster with one Released PV, `v`. */
  ghost function Fresh(): World {
    var v := PV("v", 0, Released, Delete, Some("me"));
    World("me", map["v" := v], {v}, 1, map[], Table(map[], 0, 0), [], Idle, [])
  }

  lemma FreshReached(rules: set<Rule>)
    ensures Reaches(Fresh(), [], Fresh(), rules)
  {
    var v := PV("v", 0, Released, Delete, Some("me"));
    assert Fresh().api.Values == {v} by {
      assert Fresh().api["v"] == v;
    }
    assert Run(Fresh(), []) == Fresh();
  }

  /** The PV enters the cache, and its cleaner starts. */
  lemma FirstTurn(rules: set<Rule>) returns (acts: seq<Action>, w: World)
    ensures Reaches(Fresh(), acts, w, rules)
    ensures w == Fresh().(cache := Fresh().api,
                          table := Table(map["v" := ProcEntry(0, CSRunning)], 0, 0),
                          cleaners := [Cleaner("v", 0, 0)],
                          log := [CleanStarted("v", 0, true)])
  {
    var v := PV("v", 0, Released, Delete, Some("me"));
    FreshReached(rules);
    var w1;
    acts, w1 := Extend(Fresh(), [], Fresh(), InformerUpdate(v), rules);
    acts, w := Turn(Fresh(), acts, w1, v, rules);
  }

  /** The cleaner succeeds. */
  lemma CleanedOnce(rules: set<Rule>) returns (acts: seq<Action>, w: World)
    ensures Reaches(Fresh(), acts, w, rules)
    ensures w == Fresh().(cache := Fresh().api,
                          table := Table(map["v" := ProcEntry(0, CSSucceeded)], 1, 0),
                          log := [CleanStarted("v", 0, true), CleanEnded("v", 0, 0, true)])
  {
    var w1;
    acts, w1 := FirstTurn(rules);
    acts, w := Extend(Fresh(), acts, w1, FinishCleaning(0, true), rules);
    assert w.log == [CleanStarted("v", 0, true), CleanEnded("v", 0, 0, true)];
  }

  /** The volume `v` is found again as incarnation 1, used and Released. */
  lemma UsedAgain(w0: World, acts: seq<Action>, w: World, rules: set<Rule>)
    returns (acts': seq<Action>, w': World)
    requires Reaches(w0, acts, w, rules) && w.pc == Idle && w.cache == map[] && w.me == "me"
    requires "v" !in w.api && w.nextInc == 1 && !w.table.IsRunning("v")
    ensures var v1 := PV("v", 1, Released, Delete, Some("me"));
            && Reaches(w0, acts', w', rules) && w'.pc == Idle && w'.table == w.table
            && w'.cache == map["v" := v1] && "v" in w'.api && w'.api["v"] == v1
            && w'.log == w.log + [Created("v", 1), PhaseChanged("v", 1, Released)]
  {
    var v1 := PV("v", 1, Released, Delete, Some("me"));
    var w1, w2;
    acts', w1 := Rediscovery(w0, acts, w, "v", rules);
    acts', w2 := Extend(w0, acts', w1, ChangePhase("v", Released), rules);
    assert w2.api["v"] == v1 && v1 in w2.history;
    acts', w' := Extend(w0, acts', w2, InformerUpdate(v1), rules);
  }

  /** A deletion of an incarnation that was never cleaned. */
  lemma NeverCleaned(before: seq<Event>, log: seq<Event>)
    requires forall i :: 0 <= i < |before| ==> before[i].inc == 0
    requires log == before + [Created("v", 1), PhaseChanged("v", 1, Released)] + [DeletedByDeleter("v", 1)]
    ensures !DeletedOnlyAfterCleaning(log)
  {
    var d := |before| + 2;
    forall s, e
      ensures !CleanedBy(log, "v", 1, s, e, d)
    {
      assert 0 <= s < |before| ==> log[s] == before[s];
    }
    assert log[d] == DeletedByDeleter("v", 1) && !Justified(log, d);
  }

  /** With a stale successful entry in the table, the next turn deletes it. */
  lemma StaleSuccessDeletes(w0: World, acts: seq<Action>, w: World, rules: set<Rule>)
    returns (acts': seq<Action>, w': World)
    requires Reaches(w0, acts, w, rules) && w.pc == Idle && w.cache == map[] && w.me == "me"
    requires "v" !in w.api && w.nextInc == 1
    requires "v" in w.table.entries && w.table.entries["v"].status == CSSucceeded
    requires forall i :: 0 <= i < |w.log| ==> w.log[i].inc == 0
    ensures Reaches(w0, acts', w', rules)
    ensures !DeletedOnlyAfterCleaning(w'.log)
  {
    var w1;
    acts', w1 := UsedAgain(w0, acts, w, rules);
    acts', w' := Turn(w0, acts', w1, PV("v", 1, Released, Delete, Some("me")), rules);
    NeverCleaned(w.log, w'.log);
  }

  /** An admin deletes the Released PV during its cleaning: its successor is deleted uncleaned. */
  lemma OthersMustSpareReleased()
    ensures exists w0, acts, w ::
              && Reaches(w0, acts, w, ALL_RULES - {OthersSpareReleased})
              && !DeletedOnlyAfterCleaning(w.log)
  {
    var rules := ALL_RULES - {OthersSpareReleased};
    var acts, w := CleanedOnce(rules);
    var w1, w2, w3;
    acts, w1 := Extend(Fresh(), acts, w, OtherDeletes("v"), rules);
    acts, w2 := Extend(Fresh(), acts, w1, InformerDelete("v"), rules);
    assert w2.log == w.log + [DeletedByOther("v", 0)];
    acts, w3 := StaleSuccessDeletes(Fresh(), acts, w2, rules);
  }

  /** Two more turns over the stale cache: the PV is deleted, then cleaned though it is gone. */
  lemma CleanedAfterDeletion(rules: set<Rule>) returns (acts: seq<Action>, w: World)
    requires CacheSeesDeletions !in rules
    ensures Reaches(Fresh(), acts, w, rules)
    ensures w.pc == Idle && w.me == "me" && w.api == map[] && w.nextInc == 1 && w.cache.Keys == {"v"}
    ensures w.table == Table(map["v" := ProcEntry(3, CSRunning)], 1, 0) && w.cleaners == [Cleaner("v", 0, 3)]
    ensures w.log == [CleanStarted("v", 0, true), CleanEnded("v", 0, 0, true),
                      DeletedByDeleter("v", 0), CleanStarted("v", 0, false)]
  {
    var v := PV("v", 0, Released, Delete, Some("me"));
    var w1, w2;
    acts, w1 := CleanedOnce(rules);
    acts, w2 := Turn(Fresh(), acts, w1, v, rules);
    assert w2.table.entries == map[] && w2.api == map[];
    acts, w := Turn(Fresh(), acts, w2, v, rules);
  }

  lemma StaleSuccess(rules: set<Rule>) returns (acts: seq<Action>, w: World)
    requires CacheSeesDeletions !in rules
    ensures Reaches(Fresh(), acts, w, rules) && w.pc == Idle && w.cache == map[] && w.me == "me"
    ensures w.api == map[] && w.nextInc == 1 && w.table == Table(map["v" := ProcEntry(3, CSSucceeded)], 2, 0)
    ensures forall i :: 0 <= i < |w.log| ==> w.log[i].inc == 0
  {
    var w1, w2;
    acts, w1 := CleanedAfterDeletion(rules);
    acts, w2 := Extend(Fresh(), acts, w1, FinishCleaning(0, true), rules);
    assert w2.log == w1.log + [CleanEnded("v", 0, 3, true)];
    acts, w := Extend(Fresh(), acts, w2, InformerDelete("v"), rules);
  }

  /** A pass that still sees the PV the deleter has deleted cleans it once more, and the stale
      success deletes its successor uncleaned. */
  lemma CacheMustSeeDeletions()
    ensures exists w0, acts, w ::
              && Reaches(w0, acts, w, ALL_RULES - {CacheSeesDeletions})
              && !DeletedOnlyAfterCleaning(w.log)
  {
    var acts, w := StaleSuccess(ALL_RULES - {CacheSeesDeletions});
    var w';
    acts, w' := StaleSuccessDeletes(Fresh(), acts, w, ALL_RULES - {CacheSeesDeletions});
  }

  /** A deletion right after a phase change is not justified by a cleaning before the change. */
  lemma NotQuiet(log: seq<Event>)
    requires |log| == 5 && log[2] == PhaseChanged("v", 0, Bound) && log[4] == DeletedByDeleter("v", 0)
    ensures !DeletedOnlyAfterCleaning(log)
  {
    forall s, e
      ensures !CleanedBy(log, "v", 0, s, e, 4)
    {
      assert !QuietSince(log, "v", 0, 4) by {
        assert log[2] == PhaseChanged("v", 0, Bound);
      }
    }
    assert !Justified(log, 4);
  }

  /** The cleaned PV goes back to Bound and is released once more. */
  lemma ReleasedTwice(rules: set<Rule>) returns (acts: seq<Action>, w: World)
    requires ReleasedStaysReleased !in rules
    ensures Reaches(Fresh(), acts, w, rules) && w.pc == Idle && w.api == Fresh().api && w.cache == Fresh().api
    ensures w.table == Table(map["v" := ProcEntry(0, CSSucceeded)], 1, 0)
    ensures w.log == [CleanStarted("v", 0, true), CleanEnded("v", 0, 0, true),
                      PhaseChanged("v", 0, Bound), PhaseChanged("v", 0, Released)]
  {
    var w1, w2;
    acts, w1 := CleanedOnce(rules);
    acts, w2 := Extend(Fresh(), acts, w1, ChangePhase("v", Bound), rules);
    acts, w := Extend(Fresh(), acts, w2, ChangePhase("v", Released), rules);
    assert w.log == w1.log + [PhaseChanged("v", 0, Bound), PhaseChanged("v", 0, Released)];
  }

  /** A Released PV that is made Available, used and released again is deleted on the strength
      of the cleaning before. */
  lemma ReleasedMustStayReleased()
    ensures exists w0, acts, w ::
              && Reaches(w0, acts, w, ALL_RULES - {ReleasedStaysReleased})
              && !DeletedOnlyAfterCleaning(w.log)
  {
    var rules := ALL_RULES - {ReleasedStaysReleased};
    var acts, w := ReleasedTwice(rules);
    var w';
    acts, w' := Turn(Fresh(), acts, w, PV("v", 0, Released, Delete, Some("me")), rules);
    assert w'.log == w.log + [DeletedByDeleter("v", 0)];
    NotQuiet(w'.log);
  }

  /** Only the three rules exclude anything: objects are created, edited and deleted and change phase
      at any time, the informer shows any version that was ever stored, and any deletion, and a
      cleaning ends at any time, well or not. */
  lemma ClusterMayAct(w: World, pv: PV, phase: Phase, i: nat, ok: bool)
    ensures pv.name !in w.api ==> Enabled(w, OtherCreates(pv))
    ensures pv.name in w.api ==>
              && Enabled(w, EditPV(pv.name, pv.policy, pv.provisionedBy))
              && Enabled(w, ChangePhase(pv.name, phase)) && Enabled(w, OtherDeletes(pv.name))
    ensures pv in w.history ==> Enabled(w, InformerUpdate(pv))
    ensures Enabled(w, InformerDelete(pv.name)) && Apply(w, InformerDelete(pv.name)) == w.(cache := w.cache - {pv.name})
    ensures i < |w.cleaners| ==> Enabled(w, FinishCleaning(i, ok))
  {
  }
}
