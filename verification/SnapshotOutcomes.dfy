/** Where an operation leads, stated on the conditions and answers themselves: what the last
    condition and a failed call decide, the run of an operation that succeeds, the wait for the
    plugin, and that every operation ends. */
module SnapshotOutcomes {
  import opened Common
  import opened Snapshotters

  // ---- what conditions decide ----

  function Last(conditions: seq<Condition>): Condition
    requires conditions != []
  {
    conditions[|conditions| - 1]
  }

  /** A sync goes by the last condition that it sees: Failed is an error and begins nothing,
      Ready makes the snapshot actual, Pending waits for the bound data object, and any other
      begins the operation. */
  lemma StartByLastCondition(s: State, seen: Version)
    requires Enabled(s, Start(seen))
    ensures var t, key, conditions := Apply(s, Start(seen)), MakeSnapshotName(seen.id), seen.conditions;
            && (conditions == [] ==> t == s.(ops := s.ops[key := Op(seen.id, seen, Looking)]))
            && (conditions != [] ==>
                  var c := Last(conditions);
                  && (c.kind == Failed ==> t == s.(outcomes := s.outcomes + [Outcome(key, false)]))
                  && (c.kind == Ready && c.status == True ==>
                        t == s.(actual := s.actual + {key}, outcomes := s.outcomes + [Outcome(key, true)]))
                  && (c.kind == Pending && c.status in {True, Unknown} ==>
                        t == s.(ops := s.ops[key := Op(seen.id, seen, Fetching(seen.data))]))
                  && (c.kind == OtherType || (c.kind == Ready && c.status != True)
                      || (c.kind == Pending && c.status == False) ==>
                        t == s.(ops := s.ops[key := Op(seen.id, seen, Looking)])))
  {
  }

  predicate Decides(c: Condition) {
    c.kind == Failed || (c.kind == Ready && c.status == True)
  }

  /** The plugin's condition, whatever became of the update: Failed ends the operation with an
      error, Ready ends it, with success if the update went through, and any other is waited on,
      up to the last step. */
  lemma UpdateByCondition(s: State, key: string, ok: bool, stored: bool)
    requires Enabled(s, Update(key, ok, stored))
    ensures var t, op := Apply(s, Update(key, ok, stored)), s.ops[key];
            var c, left := op.stage.condition, op.stage.left;
            && (Decides(c) || left == 1 ==>
                  var success := c.kind == Ready && c.status == True && ok;
                  && t.ops == s.ops - {key} && t.outcomes == s.outcomes + [Outcome(key, success)]
                  && t.actual == s.actual + if success then {MakeSnapshotName(s.snaps[op.id.place].id)} else {})
            && (!Decides(c) && left > 1 ==>
                  && t.ops == s.ops[key := Op(op.id, op.seen, Waiting(op.stage.data, left - 1))]
                  && t.outcomes == s.outcomes && t.actual == s.actual)
  {
  }

  /** What the update stores: the conditions, of this snapshot, and nothing else. The new one
      takes the place of the last one if that is of its kind. */
  lemma UpdateStores(s: State, key: string, ok: bool, stored: bool)
    requires Enabled(s, Update(key, ok, stored))
    ensures var t, op := Apply(s, Update(key, ok, stored)), s.ops[key];
            && t.data == s.data && t.nextData == s.nextData && t.reported == s.reported
            && (!stored ==> t.snaps == s.snaps && t.versions == s.versions)
            && (stored ==>
                  var was := s.snaps[op.id.place];
                  exists now :: t.snaps == s.snaps[was.id.place := now] && t.versions == s.versions + {now}
                                && now == was.(conditions := now.conditions)
                                && Follows(was.conditions, op.stage.condition, now.conditions))
  {
    var op := s.ops[key];
    if stored {
      var was := s.snaps[op.id.place];
      var now := was.(conditions := WithCondition(was.conditions, op.stage.condition));
      ConditionTakesItsPlace(was.conditions, op.stage.condition);
      assert Apply(s, Update(key, ok, stored)).snaps == s.snaps[was.id.place := now];
    }
  }

  ghost predicate Follows(was: seq<Condition>, c: Condition, now: seq<Condition>) {
    if was != [] && Last(was).kind == c.kind then now == was[..|was| - 1] + [c] else now == was + [c]
  }

  lemma ConditionTakesItsPlace(conditions: seq<Condition>, c: Condition)
    ensures Follows(conditions, c, WithCondition(conditions, c))
  {
  }

  /** An answer of the plugin in the wait: none is waited over, an empty one ends the operation
      with an error, and else the last condition is stored next. */
  lemma DescribeByAnswer(s: State, key: string, told: Option<seq<Condition>>)
    requires Enabled(s, Describe(key, told))
    ensures var t, op := Apply(s, Describe(key, told)), s.ops[key];
            var data, left := op.stage.data, op.stage.left;
            && t.snaps == s.snaps && t.versions == s.versions && t.data == s.data && t.actual == s.actual
            && (told == Some([]) || (told.None? && left == 1) ==>
                  t.ops == s.ops - {key} && t.outcomes == s.outcomes + [Outcome(key, false)])
            && (told.None? && left > 1 ==>
                  t.outcomes == s.outcomes && t.ops == s.ops[key := Op(op.id, op.seen, Waiting(data, left - 1))])
            && (told.Some? && told.value != [] ==>
                  && t.outcomes == s.outcomes
                  && t.ops == s.ops[key := Op(op.id, op.seen, Updating(data, Last(told.value), left))]
                  && t.reported == s.reported + if Last(told.value) == Condition(Ready, True) then {key} else {})
  {
  }

  // ---- failed calls ----

  /** A call fails; the wait goes on after a failed Describe or Update. */
  predicate Fails(a: Action) {
    match a
    case Prepare(_, ok, _) => !ok
    case Take(_, taken) => taken.None?
    case Post(_, ok, _) => !ok
    case Bind(_, ok, _) => !ok
    case Fetch(_, ok) => !ok
    case _ => false
  }

  /** The failed call ends the operation with an error, and no snapshot becomes actual by it; if it
      had no effect, nothing else has changed. */
  lemma FailedCallEnds(s: State, a: Action)
    requires Enabled(s, a) && Fails(a)
    ensures var t := Apply(s, a);
            && t.ops == s.ops - {a.key} && t.outcomes == s.outcomes + [Outcome(a.key, false)] && t.actual == s.actual
            && (((a.Prepare? || a.Post? || a.Bind?) && a.stored) || t == s.(ops := t.ops, outcomes := t.outcomes))
  {
  }

  /** A snapshot that is bound to no data object, or to one that is gone, cannot be waited for. */
  lemma MissingDataEnds(s: State, key: string, ok: bool)
    requires Enabled(s, Fetch(key, ok))
    requires s.ops[key].stage.bound.None? || s.ops[key].stage.bound.value !in s.data
    ensures var t := Apply(s, Fetch(key, ok)); key !in t.ops && t.outcomes == s.outcomes + [Outcome(key, false)]
  {
  }

  /** After a restart nothing but the operations and the actual state is lost, and any version that
      was ever stored can be synced again; a single name can be forgotten, too. */
  lemma RestartForgets(s: State, seen: Version, key: string)
    requires seen in s.versions
    ensures Enabled(s, Restart) && Apply(s, Restart) == s.(ops := map[], actual := {})
    ensures CanRun(s, [Restart, Start(seen)])
    ensures Enabled(s, ForgetActual(key)) && Apply(s, ForgetActual(key)) == s.(actual := s.actual - {key})
  {
    assert [Restart, Start(seen)][1..] == [Start(seen)] && [Start(seen)][1..] == [];
    assert CanRun(Apply(s, Restart), [Start(seen)]);
  }

  /** A deleted object is gone, and its name can be used again. */
  lemma DeletedIsGone(s: State, id: Id, labels: set<string>, d: nat)
    requires id.place in s.snaps && d in s.data
    ensures Enabled(s, DeleteSnapshot(id.place)) && Enabled(s, DeleteData(d))
    ensures Apply(s, DeleteSnapshot(id.place)) == s.(snaps := s.snaps - {id.place})
    ensures Apply(s, DeleteData(d)) == s.(data := s.data - {d})
    ensures !Enabled(s, CreateSnapshot(id, labels))
    ensures var t, v := Apply(s, DeleteSnapshot(id.place)), Version(id, None, labels, []);
            && Enabled(t, CreateSnapshot(id, labels))
            && Apply(t, CreateSnapshot(id, labels)) ==
                 s.(snaps := s.snaps[id.place := v], versions := s.versions + {v})
  {
    var v := Version(id, None, labels, []);
    assert (s.snaps - {id.place})[id.place := v] == s.snaps[id.place := v];
  }

  // ---- success ----

  /** `acts` lead from one state to the other. */
  ghost predicate Reached(from: State, acts: seq<Action>, to: State) {
    CanRun(from, acts) && Run(from, acts) == to
  }

  lemma {:induction false} Then(from: State, acts: seq<Action>, s: State, a: Action)
    requires Reached(from, acts, s) && Enabled(s, a)
    ensures Reached(from, acts + [a], Apply(s, a))
    decreases |acts|
  {
    if acts == [] {
      assert [a][1..] == [];
    } else {
      assert (acts + [a])[1..] == acts[1..] + [a];
      Then(Apply(from, acts[0]), acts[1..], s, a);
    }
  }

  /** The state with this one operation besides its own. */
  function With(s: State, key: string, op: Op): State {
    s.(ops := s.ops[key := op])
  }

  lemma WithGoto(s: State, key: string, op: Op, stage: Stage)
    ensures With(s, key, op).Goto(key, stage) == With(s, key, op.(stage := stage))
  {
    assert s.ops[key := op][key := op.(stage := stage)] == s.ops[key := op.(stage := stage)];
  }

  lemma WithEnd(s: State, key: string, op: Op, success: bool)
    requires key !in s.ops
    ensures With(s, key, op).End(key, success) == s.(outcomes := s.outcomes + [Outcome(key, success)])
  {
    assert s.ops[key := op] - {key} == s.ops;
  }

  /** The calls for a new snapshot, up to the binding, when nothing is found. */
  function Making(seen: Version, conditions: seq<Condition>): seq<Action> {
    var key := MakeSnapshotName(seen.id);
    [Start(seen), Look(key, None), Find(key, None), Prepare(key, true, true), Take(key, Some(conditions)),
     Post(key, true, true), Bind(key, true, true)]
  }

  /** What these calls leave behind: the data object, and the snapshot bound to it. */
  function Made(s: State, seen: Version, conditions: seq<Condition>): State {
    var labels := seen.labels + {"SnapshotMetadata-Timestamp", "SnapshotMetadata-PVName"};
    var now := Version(seen.id, Some(s.nextData), labels, conditions);
    s.(snaps := s.snaps[seen.id.place := now],
       versions := s.versions + {now.(data := seen.data, conditions := seen.conditions), now},
       data := s.data[s.nextData := Data(MakeSnapshotName(seen.id), seen.id)],
       nextData := s.nextData + 1,
       reported := s.reported + if conditions != [] && Last(conditions) == Condition(Ready, True)
                                then {MakeSnapshotName(seen.id)} else {})
  }

  lemma MakingLooks(s: State, seen: Version, conditions: seq<Condition>)
    requires Enabled(s, Start(seen)) && seen.conditions == []
    ensures Reached(s, Making(seen, conditions)[..3],
                    With(s, MakeSnapshotName(seen.id), Op(seen.id, seen, Preparing)))
  {
    var key := MakeSnapshotName(seen.id);
    var op := Op(seen.id, seen, Looking);
    var acts: seq<Action> := [];
    Then(s, acts, s, Start(seen));
    acts := acts + [Start(seen)];
    Then(s, acts, With(s, key, op), Look(key, None));
    acts := acts + [Look(key, None)];
    WithGoto(s, key, op, Finding);
    Then(s, acts, With(s, key, op.(stage := Finding)), Find(key, None));
    acts := acts + [Find(key, None)];
    WithGoto(s, key, op.(stage := Finding), Preparing);
    assert acts == Making(seen, conditions)[..3];
  }

  lemma MakingTakes(s: State, seen: Version, conditions: seq<Condition>)
    requires Enabled(s, Start(seen)) && seen.conditions == []
    requires seen.id.place in s.snaps && s.snaps[seen.id.place] == seen
    ensures var key := MakeSnapshotName(seen.id);
            Reached(s, Making(seen, conditions)[..5],
                    With(s.Put(PreparedVersion(seen)).Hear(key, conditions), key,
                         Op(seen.id, seen, Posting(false, conditions))))
  {
    var key := MakeSnapshotName(seen.id);
    var op := Op(seen.id, seen, Preparing);
    var t := s.Put(PreparedVersion(seen));
    MakingLooks(s, seen, conditions);
    var acts := Making(seen, conditions)[..3];
    Then(s, acts, With(s, key, op), Prepare(key, true, true));
    acts := acts + [Prepare(key, true, true)];
    WithGoto(t, key, op, Taking);
    assert With(s, key, op).Put(PreparedVersion(seen)) == With(t, key, op);
    Then(s, acts, With(t, key, op.(stage := Taking)), Take(key, Some(conditions)));
    acts := acts + [Take(key, Some(conditions))];
    WithGoto(t.Hear(key, conditions), key, op.(stage := Taking), Posting(false, conditions));
    assert acts == Making(seen, conditions)[..5];
  }

  /** The data object is there, and not yet bound. */
  function Posted(s: State, seen: Version, conditions: seq<Condition>): State {
    var t := s.Put(PreparedVersion(seen)).Hear(MakeSnapshotName(seen.id), conditions);
    t.(data := t.data[s.nextData := Data(MakeSnapshotName(seen.id), seen.id)], nextData := s.nextData + 1)
  }

  /** The rest of the calls: the data object is posted and bound. */
  lemma MakingMakes(s: State, seen: Version, conditions: seq<Condition>)
    requires Enabled(s, Start(seen)) && seen.conditions == []
    requires seen.id.place in s.snaps && s.snaps[seen.id.place] == seen
    ensures var key := MakeSnapshotName(seen.id);
            Reached(s, Making(seen, conditions),
                    With(Made(s, seen, conditions), key, Op(seen.id, seen, Waiting(s.nextData, 20))))
  {
    var key := MakeSnapshotName(seen.id);
    var op := Op(seen.id, seen, Posting(false, conditions));
    var t := s.Put(PreparedVersion(seen)).Hear(key, conditions);
    MakingTakes(s, seen, conditions);
    var acts := Making(seen, conditions)[..5];
    Then(s, acts, With(t, key, op), Post(key, true, true));
    acts := acts + [Post(key, true, true)];
    var u := Posted(s, seen, conditions);
    var binding := Binding(s.nextData, Some(conditions), false);
    WithGoto(u, key, op, binding);
    assert With(t, key, op).(data := u.data, nextData := u.nextData) == With(u, key, op);
    Then(s, acts, With(u, key, op.(stage := binding)), Bind(key, true, true));
    acts := acts + [Bind(key, true, true)];
    assert acts == Making(seen, conditions);
    BindWaits(u, key, op.(stage := binding));
    BoundIsMade(s, seen, conditions);
  }

  /** Posted and bound, the snapshot is made. */
  lemma BoundIsMade(s: State, seen: Version, conditions: seq<Condition>)
    requires seen.id.place in s.snaps && s.snaps[seen.id.place] == seen && seen.conditions == []
    ensures var binding := Binding(s.nextData, Some(conditions), false);
            Posted(s, seen, conditions).Put(BoundVersion(PreparedVersion(seen), binding)) == Made(s, seen, conditions)
  {
    var now := BoundVersion(PreparedVersion(seen), Binding(s.nextData, Some(conditions), false));
    var u, made, place := Posted(s, seen, conditions).Put(now), Made(s, seen, conditions), seen.id.place;
    assert s.snaps[place := PreparedVersion(seen)][place := now] == s.snaps[place := now];
    assert u.snaps == made.snaps && u.versions == made.versions && u.data == made.data && u.reported == made.reported;
  }

  lemma BindWaits(u: State, key: string, op: Op)
    requires op.stage.Binding? && !op.stage.fetch && op.id.place in u.snaps
    ensures var now := BoundVersion(u.snaps[op.id.place], op.stage);
            Apply(With(u, key, op), Bind(key, true, true))
              == With(u.Put(now), key, op.(stage := Waiting(op.stage.data, 20)))
  {
    var now := BoundVersion(u.snaps[op.id.place], op.stage);
    assert With(u, key, op).Put(now) == With(u.Put(now), key, op);
    WithGoto(u.Put(now), key, op, Waiting(op.stage.data, WAIT_STEPS));
  }

  /** The wait: what the plugin answers at each step that decides nothing. */
  predicate Undecided(told: Option<seq<Condition>>) {
    told.None? || (told.value != [] && !Decides(Last(told.value)))
  }

  /** One step of the wait; no update goes through. */
  function Poll(key: string, told: Option<seq<Condition>>): seq<Action> {
    if told.None? then [Describe(key, told)] else [Describe(key, told), Update(key, false, false)]
  }

  function Polls(key: string, answers: seq<Option<seq<Condition>>>): seq<Action> {
    if answers == [] then [] else Poll(key, answers[0]) + Polls(key, answers[1..])
  }

  lemma {:induction false} Join(a: State, first: seq<Action>, b: State, second: seq<Action>, c: State)
    requires Reached(a, first, b) && Reached(b, second, c)
    ensures Reached(a, first + second, c)
    decreases |first|
  {
    if first == [] {
      assert first + second == second;
    } else {
      assert (first + second)[1..] == first[1..] + second;
      Join(Apply(a, first[0]), first[1..], b, second, c);
    }
  }

  lemma PollWaits(s: State, key: string, op: Op, told: Option<seq<Condition>>)
    requires op.stage.Waiting? && op.stage.left > 0 && Undecided(told) && key !in s.ops
    ensures Reached(With(s, key, op), Poll(key, told),
                    if op.stage.left == 1 then s.(outcomes := s.outcomes + [Outcome(key, false)])
                    else With(s, key, op.(stage := Waiting(op.stage.data, op.stage.left - 1))))
  {
    var w := With(s, key, op);
    var data, left := op.stage.data, op.stage.left;
    WithEnd(s, key, op, false);
    WithGoto(s, key, op, Waiting(data, left - 1));
    Then(w, [], w, Describe(key, told));
    assert [] + [Describe(key, told)] == [Describe(key, told)];
    if told.Some? {
      var updating := op.(stage := Updating(data, Last(told.value), left));
      WithGoto(s, key, op, updating.stage);
      WithEnd(s, key, updating, false);
      WithGoto(s, key, updating, Waiting(data, left - 1));
      Then(w, [Describe(key, told)], With(s, key, updating), Update(key, false, false));
      assert [Describe(key, told)] + [Update(key, false, false)] == Poll(key, told);
    }
  }

  /** An operation that waits gives up with an error at its last step, and not before. */
  lemma {:induction false} UndecidedWait(s: State, key: string, op: Op, answers: seq<Option<seq<Condition>>>)
    requires op.stage.Waiting? && 0 < op.stage.left && |answers| <= op.stage.left && key !in s.ops
    requires forall i :: 0 <= i < |answers| ==> Undecided(answers[i])
    ensures var left := op.stage.left - |answers|;
            Reached(With(s, key, op), Polls(key, answers),
                    if left == 0 then s.(outcomes := s.outcomes + [Outcome(key, false)])
                    else With(s, key, op.(stage := Waiting(op.stage.data, left))))
    decreases |answers|
  {
    if answers != [] {
      var left := op.stage.left;
      PollWaits(s, key, op, answers[0]);
      if left == 1 {
        assert answers == [answers[0]] && Polls(key, answers) == Poll(key, answers[0]);
      } else {
        var next := op.(stage := Waiting(op.stage.data, left - 1));
        UndecidedWait(s, key, next, answers[1..]);
        var last := if left == |answers| then s.(outcomes := s.outcomes + [Outcome(key, false)])
                    else With(s, key, op.(stage := Waiting(op.stage.data, left - |answers|)));
        Join(With(s, key, op), Poll(key, answers[0]), With(s, key, next), Polls(key, answers[1..]), last);
      }
    }
  }

  function ReadyNow(key: string, told: seq<Condition>): seq<Action> {
    [Describe(key, Some(told)), Update(key, true, true)]
  }

  /** The snapshot has its Ready condition, and the operation has succeeded. */
  function Finished(s: State, id: Id): State
    requires id.place in s.snaps
  {
    var key, was := MakeSnapshotName(id), s.snaps[id.place];
    s.Put(was.(conditions := WithCondition(was.conditions, Condition(Ready, True))))
     .(reported := s.reported + {key}, actual := s.actual + {key}, outcomes := s.outcomes + [Outcome(key, true)])
  }

  lemma ReadySucceeds(s: State, op: Op, told: seq<Condition>)
    requires op.stage.Waiting? && op.stage.left > 0 && MakeSnapshotName(op.id) !in s.ops
    requires op.id.place in s.snaps && s.snaps[op.id.place].id == op.id
    requires told != [] && Last(told) == Condition(Ready, True)
    ensures var key := MakeSnapshotName(op.id); Reached(With(s, key, op), ReadyNow(key, told), Finished(s, op.id))
  {
    var key := MakeSnapshotName(op.id);
    var w, heard := With(s, key, op), s.Hear(key, told);
    var updating := op.(stage := Updating(op.stage.data, Last(told), op.stage.left));
    Then(w, [], w, Describe(key, Some(told)));
    assert [] + [Describe(key, Some(told))] == [Describe(key, Some(told))];
    WithGoto(heard, key, op, updating.stage);
    assert w.Hear(key, told) == With(heard, key, op);
    Then(w, [Describe(key, Some(told))], With(heard, key, updating), Update(key, true, true));
    assert [Describe(key, Some(told))] + [Update(key, true, true)] == ReadyNow(key, told);
    ReadyStores(s, op, told);
  }

  lemma ReadyStores(s: State, op: Op, told: seq<Condition>)
    requires op.stage.Waiting? && op.stage.left > 0 && MakeSnapshotName(op.id) !in s.ops
    requires op.id.place in s.snaps && s.snaps[op.id.place].id == op.id
    requires told != [] && Last(told) == Condition(Ready, True)
    ensures var key := MakeSnapshotName(op.id);
            var updating := op.(stage := Updating(op.stage.data, Last(told), op.stage.left));
            Apply(With(s.Hear(key, told), key, updating), Update(key, true, true)) == Finished(s, op.id)
  {
    var key := MakeSnapshotName(op.id);
    var updating := op.(stage := Updating(op.stage.data, Last(told), op.stage.left));
    var now := UpdatedVersion(s.snaps[op.id.place], updating.stage);
    var t := s.Hear(key, told).Put(now);
    assert With(s.Hear(key, told), key, updating).Put(now) == With(t, key, updating);
    WithEnd(t.(actual := t.actual + {key}), key, updating, true);
    assert With(t, key, updating).(actual := t.actual + {key}) == With(t.(actual := t.actual + {key}), key, updating);
  }

  /** The snapshot is made, and the operation waits on. */
  lemma MadeAndWaits(s: State, seen: Version, conditions: seq<Condition>, answers: seq<Option<seq<Condition>>>)
    requires Enabled(s, Start(seen)) && seen.conditions == []
    requires seen.id.place in s.snaps && s.snaps[seen.id.place] == seen
    requires |answers| <= 20 && forall i :: 0 <= i < |answers| ==> Undecided(answers[i])
    ensures var key, made := MakeSnapshotName(seen.id), Made(s, seen, conditions);
            Reached(s, Making(seen, conditions) + Polls(key, answers),
                    if |answers| == 20 then made.(outcomes := made.outcomes + [Outcome(key, false)])
                    else With(made, key, Op(seen.id, seen, Waiting(s.nextData, 20 - |answers|))))
  {
    var key, made := MakeSnapshotName(seen.id), Made(s, seen, conditions);
    var waiting := Op(seen.id, seen, Waiting(s.nextData, 20));
    MakingMakes(s, seen, conditions);
    UndecidedWait(made, key, waiting, answers);
    Join(s, Making(seen, conditions), With(made, key, waiting), Polls(key, answers),
         if |answers| == 20 then made.(outcomes := made.outcomes + [Outcome(key, false)])
         else With(made, key, Op(seen.id, seen, Waiting(s.nextData, 20 - |answers|))));
  }

  /** A new snapshot, whose every call goes through: if the plugin says Ready within twenty steps,
      it is bound to a new data object under its unique name, has the Ready condition, is actual,
      and the operation succeeds; other answers before change nothing. */
  lemma NewSnapshotSucceeds(s: State, seen: Version, conditions: seq<Condition>,
                            answers: seq<Option<seq<Condition>>>, told: seq<Condition>)
    requires Enabled(s, Start(seen)) && seen.conditions == []
    requires seen.id.place in s.snaps && s.snaps[seen.id.place] == seen
    requires |answers| < 20 && forall i :: 0 <= i < |answers| ==> Undecided(answers[i])
    requires told != [] && Last(told) == Condition(Ready, True)
    ensures var key := MakeSnapshotName(seen.id);
            Reached(s, Making(seen, conditions) + Polls(key, answers) + ReadyNow(key, told),
                    Finished(Made(s, seen, conditions), seen.id))
  {
    var key, made := MakeSnapshotName(seen.id), Made(s, seen, conditions);
    var late := Op(seen.id, seen, Waiting(s.nextData, 20 - |answers|));
    MadeAndWaits(s, seen, conditions, answers);
    ReadySucceeds(made, late, told);
    Join(s, Making(seen, conditions) + Polls(key, answers), With(made, key, late), ReadyNow(key, told),
         Finished(made, seen.id));
  }

  /** Twenty answers that decide nothing, and the operation ends with an error: the snapshot stays
      bound, with the conditions of its creation. */
  lemma NewSnapshotGivesUp(s: State, seen: Version, conditions: seq<Condition>, answers: seq<Option<seq<Condition>>>)
    requires Enabled(s, Start(seen)) && seen.conditions == []
    requires seen.id.place in s.snaps && s.snaps[seen.id.place] == seen
    requires |answers| == 20 && forall i :: 0 <= i < |answers| ==> Undecided(answers[i])
    ensures var key, made := MakeSnapshotName(seen.id), Made(s, seen, conditions);
            Reached(s, Making(seen, conditions) + Polls(key, answers),
                    made.(outcomes := made.outcomes + [Outcome(key, false)]))
  {
    MadeAndWaits(s, seen, conditions, answers);
  }

  /** A snapshot whose data object is listed is bound to it, and one that is Pending keeps the one
      it is bound to: nothing is made anew. */
  lemma FoundDataWaits(s: State, seen: Version, d: nat)
    requires Enabled(s, Start(seen)) && seen.conditions == []
    requires seen.id.place in s.snaps && d in s.data && RefersTo(s.data[d], MakeSnapshotName(seen.id))
    ensures var key := MakeSnapshotName(seen.id);
            Reached(s, [Start(seen), Look(key, Some(d)), Bind(key, true, true), Fetch(key, true)],
                    With(s.Put(s.snaps[seen.id.place].(data := Some(d))), key, Op(seen.id, seen, Waiting(d, 20))))
  {
    var key, op := MakeSnapshotName(seen.id), Op(seen.id, seen, Fetching(Some(d)));
    var bound := s.Put(s.snaps[seen.id.place].(data := Some(d)));
    FoundDataBinds(s, seen, d);
    var acts := [Start(seen), Look(key, Some(d)), Bind(key, true, true)];
    Then(s, acts, With(bound, key, op), Fetch(key, true));
    WithGoto(bound, key, op, Waiting(d, 20));
    assert acts + [Fetch(key, true)] == [Start(seen), Look(key, Some(d)), Bind(key, true, true), Fetch(key, true)];
  }

  lemma FoundDataBinds(s: State, seen: Version, d: nat)
    requires Enabled(s, Start(seen)) && seen.conditions == []
    requires seen.id.place in s.snaps && d in s.data && RefersTo(s.data[d], MakeSnapshotName(seen.id))
    ensures var key := MakeSnapshotName(seen.id);
            Reached(s, [Start(seen), Look(key, Some(d)), Bind(key, true, true)],
                    With(s.Put(s.snaps[seen.id.place].(data := Some(d))), key, Op(seen.id, seen, Fetching(Some(d)))))
  {
    var key, op := MakeSnapshotName(seen.id), Op(seen.id, seen, Looking);
    var binding := op.(stage := Binding(d, None, true));
    var now := s.snaps[seen.id.place].(data := Some(d));
    var acts: seq<Action> := [];
    Then(s, acts, s, Start(seen));
    acts := acts + [Start(seen)];
    Then(s, acts, With(s, key, op), Look(key, Some(d)));
    acts := acts + [Look(key, Some(d))];
    WithGoto(s, key, op, binding.stage);
    Then(s, acts, With(s, key, binding), Bind(key, true, true));
    acts := acts + [Bind(key, true, true)];
    assert With(s, key, binding).Put(now) == With(s.Put(now), key, binding);
    WithGoto(s.Put(now), key, binding, Fetching(Some(d)));
    assert acts == [Start(seen), Look(key, Some(d)), Bind(key, true, true)];
  }

  lemma PendingWaits(s: State, seen: Version)
    requires Enabled(s, Start(seen)) && seen.data.Some? && seen.data.value in s.data
    requires seen.conditions != [] && Last(seen.conditions) == Condition(Pending, True)
    ensures var key := MakeSnapshotName(seen.id);
            Reached(s, [Start(seen), Fetch(key, true)],
                    With(s, key, Op(seen.id, seen, Waiting(seen.data.value, 20))))
  {
    var key, op := MakeSnapshotName(seen.id), Op(seen.id, seen, Fetching(seen.data));
    Then(s, [], s, Start(seen));
    assert [] + [Start(seen)] == [Start(seen)];
    Then(s, [Start(seen)], With(s, key, op), Fetch(key, true));
    WithGoto(s, key, op, Waiting(seen.data.value, 20));
    assert [Start(seen)] + [Fetch(key, true)] == [Start(seen), Fetch(key, true)];
  }

  // ---- every operation ends ----

  /** How many of its own steps an operation can still take. */
  function Rank(stage: Stage): nat {
    match stage
    case Looking => 2 * WAIT_STEPS + 7
    case Finding => 2 * WAIT_STEPS + 6
    case Preparing => 2 * WAIT_STEPS + 5
    case Taking => 2 * WAIT_STEPS + 4
    case Posting(_, _) => 2 * WAIT_STEPS + 3
    case Binding(_, _, _) => 2 * WAIT_STEPS + 2
    case Fetching(_) => 2 * WAIT_STEPS + 1
    case Waiting(_, left) => 2 * left
    case Updating(_, _, left) => if left == 0 then 0 else 2 * left - 1
  }

  /** A step of the operation of this name. */
  predicate StepOf(a: Action, key: string) {
    && (a.Look? || a.Find? || a.Prepare? || a.Take? || a.Post? || a.Bind? || a.Fetch? || a.Describe? || a.Update?)
    && a.key == key
  }

  function StepsOf(acts: seq<Action>, key: string): nat {
    if acts == [] then 0 else (if StepOf(acts[0], key) then 1 else 0) + StepsOf(acts[1..], key)
  }

  predicate NotBegun(acts: seq<Action>, key: string) {
    forall i :: 0 <= i < |acts| && acts[i].Start? ==> MakeSnapshotName(acts[i].seen.id) != key
  }

  lemma OwnStepLowersRank(s: State, a: Action, key: string)
    requires Enabled(s, a) && StepOf(a, key)
    ensures key in s.ops && Rank(s.ops[key].stage) > 0
    ensures key in Apply(s, a).ops ==> Rank(Apply(s, a).ops[key].stage) < Rank(s.ops[key].stage)
  {
  }

  lemma OtherStepKeepsRank(s: State, a: Action, key: string)
    requires Enabled(s, a) && !StepOf(a, key) && (a.Start? ==> MakeSnapshotName(a.seen.id) != key)
    ensures key in Apply(s, a).ops ==> key in s.ops && Apply(s, a).ops[key] == s.ops[key]
  {
  }

  lemma {:induction false} StepsBounded(s: State, acts: seq<Action>, key: string)
    requires CanRun(s, acts) && NotBegun(acts, key)
    ensures StepsOf(acts, key) <= if key in s.ops then Rank(s.ops[key].stage) else 0
    decreases |acts|
  {
    if acts != [] {
      if StepOf(acts[0], key) {
        OwnStepLowersRank(s, acts[0], key);
      } else {
        OtherStepKeepsRank(s, acts[0], key);
      }
      StepsBounded(Apply(s, acts[0]), acts[1..], key);
    }
  }

  /** An operation takes at most 47 steps after its start, whatever else goes on. */
  lemma OperationEnds(s: State, seen: Version, acts: seq<Action>)
    requires Enabled(s, Start(seen)) && CanRun(Apply(s, Start(seen)), acts)
    requires NotBegun(acts, MakeSnapshotName(seen.id))
    ensures StepsOf(acts, MakeSnapshotName(seen.id)) <= 47
  {
    StepsBounded(Apply(s, Start(seen)), acts, MakeSnapshotName(seen.id));
  }

  ghost predicate StepsLeft(ops: map<string, Op>) {
    forall key :: key in ops && (ops[key].stage.Waiting? || ops[key].stage.Updating?) ==> ops[key].stage.left > 0
  }

  /** The next step of an operation, when its calls fail. */
  function FailingStep(key: string, stage: Stage): Action {
    match stage
    case Looking => Look(key, None)
    case Finding => Find(key, None)
    case Preparing => Prepare(key, false, false)
    case Taking => Take(key, None)
    case Posting(_, _) => Post(key, false, false)
    case Binding(_, _, _) => Bind(key, false, false)
    case Fetching(_) => Fetch(key, false)
    case Waiting(_, _) => Describe(key, None)
    case Updating(_, _, _) => Update(key, false, false)
  }

  predicate IsWait(a: Action) {
    a.Fetch? || a.Describe? || a.Update?
  }

  lemma WaitKeepsStepsLeft(s: State, a: Action)
    requires StepsLeft(s.ops) && Enabled(s, a) && IsWait(a)
    ensures StepsLeft(Apply(s, a).ops)
  {
  }

  lemma StepKeepsStepsLeft(s: State, a: Action)
    requires StepsLeft(s.ops) && Enabled(s, a)
    ensures StepsLeft(Apply(s, a).ops)
  {
    if IsWait(a) {
      WaitKeepsStepsLeft(s, a);
    }
  }

  lemma {:induction false} RunKeepsStepsLeft(s: State, acts: seq<Action>)
    requires StepsLeft(s.ops) && CanRun(s, acts)
    ensures StepsLeft(Run(s, acts).ops)
    decreases |acts|
  {
    if acts != [] {
      StepKeepsStepsLeft(s, acts[0]);
      RunKeepsStepsLeft(Apply(s, acts[0]), acts[1..]);
    }
  }

  /** And none is ever stuck: in every run each operation that has not ended can take a step. */
  lemma OperationGoesOn(acts: seq<Action>, key: string)
    requires CanRun(START, acts) && key in Run(START, acts).ops
    ensures var s := Run(START, acts); var a := FailingStep(key, s.ops[key].stage); StepOf(a, key) && Enabled(s, a)
  {
    RunKeepsStepsLeft(START, acts);
  }

  /** Only the named assumptions exclude anything: a list shows any data object under the name, or none,
      the plugin answers anything, and every call can fail, with or without its effect. */
  lemma CallsCanFail(s: State, key: string, told: Option<seq<Condition>>, effect: bool)
    requires key in s.ops && (effect ==> Exists(s, key))
    ensures var stage := s.ops[key].stage;
            && (stage.Looking? ==> Enabled(s, Look(key, None)))
            && (stage.Finding? ==> Enabled(s, Find(key, told)))
            && (stage.Preparing? ==> Enabled(s, Prepare(key, false, effect)))
            && (stage.Taking? ==> Enabled(s, Take(key, told)))
            && (stage.Posting? ==> Enabled(s, Post(key, false, effect)))
            && (stage.Binding? ==> Enabled(s, Bind(key, false, effect)))
            && (stage.Fetching? ==> Enabled(s, Fetch(key, false)))
            && (stage.Waiting? && stage.left > 0 ==> Enabled(s, Describe(key, told)))
            && (stage.Updating? && stage.left > 0 ==> Enabled(s, Update(key, false, effect)))
  {
  }
}
