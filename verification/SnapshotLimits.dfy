/** What the assumptions of `SnapshotSafety` are needed for. */
module SnapshotLimits {
  import opened Common
  import opened Snapshotters
  import opened SnapshotSafety

  lemma RunFirst(s: State, a: Action, rest: seq<Action>, labels: set<string>)
    requires Enabled(s, a) && CanRun(Apply(s, a), rest)
    ensures CanRun(s, [a] + rest) && Run(s, [a] + rest) == Run(Apply(s, a), rest)
    ensures ProperSnapshot(s, a, labels) && ReliableList(s, a) && AbidingRun(Apply(s, a), rest, labels) ==>
              AbidingRun(s, [a] + rest, labels)
  {
    assert ([a] + rest)[1..] == rest;
  }

  /** A list that shows no data object is harmless exactly when there is none. */
  lemma MissHarmlessIff(s: State, key: string)
    requires Inv(s) && Enabled(s, Look(key, None))
    ensures Inv(Apply(s, Look(key, None))) <==> forall d :: d in s.data ==> !RefersTo(s.data[d], key)
  {
    if forall d :: d in s.data ==> !RefersTo(s.data[d], key) {
      LookKeeps(s, key, None);
    } else {
      var d :| d in s.data && RefersTo(s.data[d], key);
      OpIsProper(s, key);
      RefersToExact(s.data[d], s.ops[key].id);
      NamesInjective(s.data[d].owner, s.ops[key].id);
      var t := Apply(s, Look(key, None));
      assert t.ops[key].id == s.ops[key].id && t.ops[key].stage == Finding && !NoneFor(t.data, t.ops[key].id);
    }
  }

  /** Conditions go onto whatever object has the snapshot's namespace and name, bound or not. */
  lemma UpdateKeepsConditionsIff(s: State, key: string, ok: bool)
    requires ConditionsOnlyBound(s.snaps) && CurrentStored(s.snaps, s.versions) && Enabled(s, Update(key, ok, true))
    ensures ConditionsOnlyBound(ApplyUpdate(s, key, ok, true).snaps) <==> s.snaps[s.ops[key].id.place].data.Some?
  {
    var op := s.ops[key];
    var was := s.snaps[op.id.place];
    var v := UpdatedVersion(was, op.stage);
    var t := ApplyUpdate(s, key, ok, true).snaps;
    assert t == s.snaps[op.id.place := v];
    assert t[op.id.place].conditions != [] && t[op.id.place].data == was.data;
  }

  /** An operation for a snapshot with the label "pvName", whose storage snapshot the plugin
      finds by its tags. */
  ghost predicate Recovering(s: State, key: string, stage: Stage) {
    && key in s.ops && s.ops[key].stage == stage
    && MakeSnapshotName(s.ops[key].id) == key && s.ops[key].seen.id == s.ops[key].id
    && s.ops[key].seen in s.versions && SimplifiedStatus(s.ops[key].seen.conditions) == StatusNew
    && PV_NAME_LABEL in s.ops[key].seen.labels
    && (forall d :: d in s.data ==> d < s.nextData)
    && forall d :: d in s.data ==> !RefersTo(s.data[d], key)
  }

  /** A short name is never a unique name. */
  lemma ShortNameDiffers(id: Id)
    requires WellFormed(id)
    ensures !RefersTo(Data(id.place.name, id), MakeSnapshotName(id))
  {
    RefersToExact(Data(id.place.name, id), id);
  }

  /** Recovery makes a data object that refers to the short name, and its binding fails. */
  lemma RecoverOnce(s: State, key: string, labels: set<string>)
    requires Recovering(s, key, Finding) && WellFormed(s.ops[key].id)
    ensures var acts := [Find(key, Some([])), Post(key, true, true), Bind(key, false, false)];
            CanRun(s, acts) && AbidingRun(s, acts, labels) && Run(s, acts) == Recovered(s, key)
  {
    var s1 := Apply(s, Find(key, Some([])));
    assert s1 == s.Goto(key, Posting(true, []));
    var s2 := Apply(s1, Post(key, true, true));
    assert s2.ops[key].id == s.ops[key].id && s2.ops[key].stage == Binding(s.nextData, Some([]), true);
    var s3 := Apply(s2, Bind(key, false, false));
    assert s3.ops == s.ops - {key};
    assert CanRun(s3, []) && AbidingRun(s3, [], labels);
    RunFirst(s2, Bind(key, false, false), [], labels);
    RunFirst(s1, Post(key, true, true), [Bind(key, false, false)] + [], labels);
    RunFirst(s, Find(key, Some([])), [Post(key, true, true)] + ([Bind(key, false, false)] + []), labels);
    assert [Find(key, Some([]))] + ([Post(key, true, true)] + ([Bind(key, false, false)] + [])) ==
      [Find(key, Some([])), Post(key, true, true), Bind(key, false, false)];
  }

  /** A sync of a copy of a new snapshot without a data object gets to the search by tags. */
  lemma Sync(s: State, seen: Version, labels: set<string>)
    requires seen in s.versions && SimplifiedStatus(seen.conditions) == StatusNew && MakeSnapshotName(seen.id) !in s.ops
    requires forall d :: d in s.data ==> !RefersTo(s.data[d], MakeSnapshotName(seen.id))
    ensures var key := MakeSnapshotName(seen.id); var acts := [Start(seen), Look(key, None)];
            && CanRun(s, acts) && AbidingRun(s, acts, labels)
            && Run(s, acts) == s.(ops := s.ops[key := Op(seen.id, seen, Finding)])
  {
    var key := MakeSnapshotName(seen.id);
    var s1 := Apply(s, Start(seen));
    var s2 := Apply(s1, Look(key, None));
    assert s2.ops == s.ops[key := Op(seen.id, seen, Finding)];
    RunFirst(s1, Look(key, None), [], labels);
    RunFirst(s, Start(seen), [Look(key, None)] + [], labels);
    assert [Start(seen)] + ([Look(key, None)] + []) == [Start(seen), Look(key, None)];
  }

  lemma {:induction false} RunConcat(s: State, acts: seq<Action>, more: seq<Action>, labels: set<string>)
    requires CanRun(s, acts) && AbidingRun(s, acts, labels)
    requires CanRun(Run(s, acts), more) && AbidingRun(Run(s, acts), more, labels)
    ensures CanRun(s, acts + more) && AbidingRun(s, acts + more, labels)
    ensures Run(s, acts + more) == Run(Run(s, acts), more)
    decreases |acts|
  {
    if acts == [] {
      assert acts + more == more;
    } else {
      assert (acts + more)[1..] == acts[1..] + more;
      RunConcat(Apply(s, acts[0]), acts[1..], more, labels);
    }
  }

  /** One recovery whose binding fails. */
  function Recovered(s: State, key: string): State
    requires key in s.ops
  {
    var op := s.ops[key];
    s.(data := s.data[s.nextData := Data(op.id.place.name, op.id)], nextData := s.nextData + 1,
       ops := s.ops - {key}, outcomes := s.outcomes + [Outcome(key, false)])
  }

  lemma RecoverAndSync(s: State, key: string, labels: set<string>) returns (acts: seq<Action>)
    requires Recovering(s, key, Finding) && WellFormed(s.ops[key].id)
    ensures CanRun(s, acts) && AbidingRun(s, acts, labels)
    ensures var t := Run(s, acts);
            && Recovering(t, key, Finding) && t.ops[key].id == s.ops[key].id
            && t.data == s.data[s.nextData := Data(s.ops[key].id.place.name, s.ops[key].id)]
            && t.nextData == s.nextData + 1
  {
    var one := [Find(key, Some([])), Post(key, true, true), Bind(key, false, false)];
    ShortNameDiffers(s.ops[key].id);
    RecoverOnce(s, key, labels);
    Sync(Recovered(s, key), s.ops[key].seen, labels);
    acts := one + [Start(s.ops[key].seen), Look(key, None)];
    RunConcat(s, one, [Start(s.ops[key].seen), Look(key, None)], labels);
  }

  /** A snapshot with the label "pvName" is created, and its first sync gets to the recovery. */
  lemma LabelledSnapshot(id: Id, labels: set<string>) returns (acts: seq<Action>)
    requires WellFormed(id) && PV_NAME_LABEL in labels
    ensures CanRun(START, acts) && AbidingRun(START, acts, labels)
    ensures Recovering(Run(START, acts), MakeSnapshotName(id), Finding)
    ensures Run(START, acts).ops[MakeSnapshotName(id)].id == id
  {
    var create, seen := CreateSnapshot(id, {PV_NAME_LABEL}), Version(id, None, {PV_NAME_LABEL}, []);
    var sync := [Start(seen), Look(MakeSnapshotName(id), None)];
    Sync(Apply(START, create), seen, labels);
    RunFirst(START, create, sync, labels);
    acts := [create] + sync;
  }

  /** With that label allowed, recovery can make any number of data objects: here two, in a run
      from a fresh start that keeps every other assumption. */
  lemma LabelledRecoveryMakesTwo(id: Id, labels: set<string>) returns (acts: seq<Action>)
    requires WellFormed(id) && PV_NAME_LABEL in labels
    ensures CanRun(START, acts) && AbidingRun(START, acts, labels) && !OneDataEach(Run(START, acts).data)
  {
    var key := MakeSnapshotName(id);
    var before := LabelledSnapshot(id, labels);
    var s := Run(START, before);
    var first := RecoverAndSync(s, key, labels);
    var t := Run(s, first);
    var second := RecoverAndSync(t, key, labels);
    var u := Run(t, second);
    RunConcat(s, first, second, labels);
    RunConcat(START, before, first + second, labels);
    acts := before + (first + second);
    SameOwner(u.data, s.nextData, t.nextData);
  }

  lemma SameOwner(data: map<nat, Data>, d: nat, e: nat)
    requires d in data && e in data && d != e && data[d].owner == data[e].owner
    ensures !OneDataEach(data)
  {
  }

  /** No run whose snapshots have at most these labels makes a second data object. */
  ghost predicate NeverTwo(labels: set<string>) {
    forall acts :: CanRun(START, acts) && AbidingRun(START, acts, labels) ==> OneDataEach(Run(START, acts).data)
  }

  /** One data object for each snapshot, in every run that keeps the other assumptions, exactly
      when no snapshot may have the label that recovery reads. */
  lemma OneDataEachIffUnlabelled(labels: set<string>)
    ensures NeverTwo(labels) <==> PV_NAME_LABEL !in labels
  {
    if PV_NAME_LABEL in labels {
      var uid := seq(UID_LENGTH, _ => 'u');
      var acts := LabelledRecoveryMakesTwo(Id(Place("ns", "name"), uid), labels);
      assert !NeverTwo(labels);
    } else {
      forall acts | CanRun(START, acts) && AbidingRun(START, acts, labels)
        ensures OneDataEach(Run(START, acts).data)
      {
        EveryRunIsSafe(acts, labels);
      }
    }
  }
}
