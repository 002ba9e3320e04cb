/** Every run of the snapshotter: one data object for each snapshot, bound to it alone; only
    bound snapshots have conditions; and success means that the plugin has said Ready. */
module SnapshotSafety {
  import opened Common
  import opened Text
  import opened Snapshotters

  // ---- names ----

  /** Unique names are unique for slash-free namespaces and uids of one length. */
  lemma NamesInjective(a: Id, b: Id)
    requires WellFormed(a) && WellFormed(b) && MakeSnapshotName(a) == MakeSnapshotName(b)
    ensures a == b
  {
    var s := MakeSnapshotName(a);
    NameParts(a);
    NameParts(b);
    IndexOfConcat(a.place.namespace, '/', a.place.name + "-" + a.uid);
    IndexOfConcat(b.place.namespace, '/', b.place.name + "-" + b.uid);
    assert a.place.namespace == s[..|a.place.namespace|] && b.place.namespace == s[..|b.place.namespace|];
    var n := |a.place.namespace| + 1;
    assert a.uid == s[|s| - UID_LENGTH..] && b.uid == s[|s| - UID_LENGTH..];
    assert a.place.name == s[n..|s| - UID_LENGTH - 1] && b.place.name == s[n..|s| - UID_LENGTH - 1];
  }

  lemma NameParts(id: Id)
    ensures MakeSnapshotName(id) == id.place.namespace + ['/'] + (id.place.name + "-" + id.uid)
  {
  }

  /** With uids of different lengths two snapshots can have one name. */
  lemma NamesCollide()
    ensures MakeSnapshotName(Id(Place("ns", "a-b"), "c")) == MakeSnapshotName(Id(Place("ns", "a"), "b-c"))
  {
    assert MakeSnapshotName(Id(Place("ns", "a-b"), "c")) == "ns/a-b-c";
    assert MakeSnapshotName(Id(Place("ns", "a"), "b-c")) == "ns/a-b-c";
  }

  /** A data object found by a proper name was made under that name. */
  lemma RefersToExact(d: Data, id: Id)
    requires WellFormed(id)
    ensures RefersTo(d, MakeSnapshotName(id)) <==> d.ref == MakeSnapshotName(id)
  {
    var key := MakeSnapshotName(id);
    assert key[0] == id.place.namespace[0] && id.place.namespace[0] in id.place.namespace;
    assert ("" + "/" + d.ref)[0] == '/';
  }

  /** A reference without a namespace is found for a snapshot without a namespace, and no other. */
  lemma ShortReferenceIff(owner: Id, id: Id)
    ensures RefersTo(Data(id.place.name + "-" + id.uid, owner), MakeSnapshotName(id)) <==> id.place.namespace == ""
  {
    var ref, key := id.place.name + "-" + id.uid, MakeSnapshotName(id);
    NameParts(id);
    assert |key| == |id.place.namespace| + 1 + |ref|;
    if id.place.namespace == "" {
      assert "" + "/" + ref == "" + ['/'] + ref;
    }
  }

  // ---- the invariant ----

  ghost predicate VersionsOk(versions: set<Version>) {
    forall v :: v in versions ==>
      WellFormed(v.id) && PV_NAME_LABEL !in v.labels && (v.conditions != [] ==> v.data.Some?)
  }

  ghost predicate PlacesOnce(versions: set<Version>) {
    forall v, w :: v in versions && w in versions && v.id.place == w.id.place ==> v.id == w.id
  }

  ghost predicate VersionsReady(versions: set<Version>, reported: set<string>) {
    forall v :: v in versions && SimplifiedStatus(v.conditions) == StatusReady ==> MakeSnapshotName(v.id) in reported
  }

  ghost predicate VersionsOwn(versions: set<Version>, data: map<nat, Data>) {
    forall v :: v in versions && v.data.Some? && v.data.value in data ==> data[v.data.value].owner == v.id
  }

  ghost predicate VersionsPast(versions: set<Version>, next: nat) {
    forall v :: v in versions && v.data.Some? ==> v.data.value < next
  }

  ghost predicate CurrentStored(snaps: map<Place, Version>, versions: set<Version>) {
    forall p :: p in snaps ==> snaps[p] in versions && snaps[p].id.place == p
  }

  /** Binding is never undone. */
  ghost predicate BoundStays(snaps: map<Place, Version>, versions: set<Version>) {
    forall v :: v in versions && v.data.Some? && v.id.place in snaps ==> snaps[v.id.place].data.Some?
  }

  ghost predicate DataOk(data: map<nat, Data>, next: nat) {
    forall d :: d in data ==> d < next && WellFormed(data[d].owner) && data[d].ref == MakeSnapshotName(data[d].owner)
  }

  ghost predicate OpsOk(ops: map<string, Op>, versions: set<Version>) {
    forall k :: k in ops ==> MakeSnapshotName(ops[k].id) == k && ops[k].seen in versions && ops[k].seen.id == ops[k].id
  }

  /** Between looking for a data object and making one, there is none. */
  predicate HasNone(stage: Stage) {
    stage.Finding? || stage.Preparing? || stage.Taking? || stage.Posting?
  }

  ghost predicate NoneFor(data: map<nat, Data>, id: Id) {
    forall d :: d in data ==> data[d].owner != id
  }

  ghost predicate OpsFresh(ops: map<string, Op>, data: map<nat, Data>) {
    forall k :: k in ops && HasNone(ops[k].stage) ==> NoneFor(data, ops[k].id)
  }

  function DataOf(stage: Stage): Option<nat> {
    match stage
    case Binding(d, _, _) => Some(d)
    case Fetching(bound) => bound
    case Waiting(d, _) => Some(d)
    case Updating(d, _, _) => Some(d)
    case _ => None
  }

  predicate Owned(d: nat, id: Id, data: map<nat, Data>, next: nat) {
    d < next && (d in data ==> data[d].owner == id)
  }

  ghost predicate OpsOwn(ops: map<string, Op>, data: map<nat, Data>, next: nat) {
    forall k :: k in ops && DataOf(ops[k].stage).Some? ==> Owned(DataOf(ops[k].stage).value, ops[k].id, data, next)
  }

  predicate PastBind(stage: Stage) {
    stage.Fetching? || stage.Waiting? || stage.Updating?
  }

  ghost predicate OpsBound(ops: map<string, Op>, snaps: map<Place, Version>) {
    forall k :: k in ops && PastBind(ops[k].stage) && ops[k].id.place in snaps ==> snaps[ops[k].id.place].data.Some?
  }

  /** What the plugin has said and the operation still carries. */
  function Carried(stage: Stage): seq<Condition> {
    match stage
    case Posting(_, conditions) => conditions
    case Binding(_, status, _) => if status.Some? then status.value else []
    case Updating(_, condition, _) => [condition]
    case _ => []
  }

  ghost predicate OpsReady(ops: map<string, Op>, reported: set<string>) {
    forall k :: k in ops && SimplifiedStatus(Carried(ops[k].stage)) == StatusReady ==> k in reported
  }

  ghost predicate NeverRecovered(ops: map<string, Op>) {
    forall k :: k in ops && ops[k].stage.Posting? ==> !ops[k].stage.recovered
  }

  ghost predicate Inv(s: State) {
    && VersionsOk(s.versions) && PlacesOnce(s.versions) && VersionsReady(s.versions, s.reported)
    && VersionsOwn(s.versions, s.data) && VersionsPast(s.versions, s.nextData)
    && CurrentStored(s.snaps, s.versions) && BoundStays(s.snaps, s.versions)
    && DataOk(s.data, s.nextData) && OneDataEach(s.data)
    && OpsOk(s.ops, s.versions) && OpsFresh(s.ops, s.data) && OpsOwn(s.ops, s.data, s.nextData)
    && OpsBound(s.ops, s.snaps) && OpsReady(s.ops, s.reported) && NeverRecovered(s.ops)
    && SuccessMeansReady(s)
  }

  // ---- the changes that steps are made of ----

  lemma EndKeeps(s: State, key: string, success: bool)
    requires Inv(s) && (success ==> key in s.reported)
    ensures Inv(s.End(key, success))
  {
    assert OpsOk(s.ops - {key}, s.versions);
  }

  predicate MayGoto(s: State, key: string, stage: Stage)
    requires key in s.ops
  {
    var op := s.ops[key];
    && (DataOf(stage).Some? ==> Owned(DataOf(stage).value, op.id, s.data, s.nextData))
    && (PastBind(stage) && op.id.place in s.snaps ==> s.snaps[op.id.place].data.Some?)
    && (SimplifiedStatus(Carried(stage)) == StatusReady ==> key in s.reported)
    && (stage.Posting? ==> !stage.recovered)
  }

  lemma OpMoves(s: State, key: string, stage: Stage)
    requires OpsOk(s.ops, s.versions) && OpsFresh(s.ops, s.data) && OpsOwn(s.ops, s.data, s.nextData)
    requires OpsBound(s.ops, s.snaps) && OpsReady(s.ops, s.reported) && NeverRecovered(s.ops)
    requires key in s.ops && MayGoto(s, key, stage) && (HasNone(stage) ==> NoneFor(s.data, s.ops[key].id))
    ensures var ops := s.Goto(key, stage).ops;
            && OpsOk(ops, s.versions) && OpsFresh(ops, s.data) && OpsOwn(ops, s.data, s.nextData)
            && OpsBound(ops, s.snaps) && OpsReady(ops, s.reported) && NeverRecovered(ops)
  {
    var ops := s.Goto(key, stage).ops;
    assert ops[key].id == s.ops[key].id && ops[key].seen == s.ops[key].seen && ops[key].stage == stage;
  }

  lemma GotoKeeps(s: State, key: string, stage: Stage)
    requires Inv(s) && key in s.ops && MayGoto(s, key, stage)
    requires HasNone(stage) ==> NoneFor(s.data, s.ops[key].id)
    ensures Inv(s.Goto(key, stage))
  {
    OpMoves(s, key, stage);
  }

  lemma HearKeeps(s: State, key: string, conditions: seq<Condition>)
    requires Inv(s)
    ensures Inv(s.Hear(key, conditions))
    ensures SimplifiedStatus(conditions) == StatusReady ==> key in s.Hear(key, conditions).reported
  {
  }

  lemma NewVersion(versions: set<Version>, v: Version, reported: set<string>, data: map<nat, Data>, next: nat)
    requires VersionsOk(versions) && PlacesOnce(versions) && VersionsReady(versions, reported)
    requires VersionsOwn(versions, data) && VersionsPast(versions, next)
    requires WellFormed(v.id) && PV_NAME_LABEL !in v.labels && (v.conditions != [] ==> v.data.Some?)
    requires forall w :: w in versions && w.id.place == v.id.place ==> w.id == v.id
    requires v.data.Some? ==> Owned(v.data.value, v.id, data, next)
    requires SimplifiedStatus(v.conditions) == StatusReady ==> MakeSnapshotName(v.id) in reported
    ensures VersionsOk(versions + {v}) && PlacesOnce(versions + {v}) && VersionsReady(versions + {v}, reported)
    ensures VersionsOwn(versions + {v}, data) && VersionsPast(versions + {v}, next)
  {
  }

  lemma NewCurrent(snaps: map<Place, Version>, versions: set<Version>, ops: map<string, Op>, v: Version)
    requires CurrentStored(snaps, versions) && BoundStays(snaps, versions) && OpsOk(ops, versions)
    requires OpsBound(ops, snaps)
    requires v.id.place in snaps && (snaps[v.id.place].data.Some? ==> v.data.Some?)
    ensures CurrentStored(snaps[v.id.place := v], versions + {v}) && BoundStays(snaps[v.id.place := v], versions + {v})
    ensures OpsOk(ops, versions + {v}) && OpsBound(ops, snaps[v.id.place := v])
  {
  }

  /** A new version of an existing snapshot. */
  lemma PutKeeps(s: State, v: Version)
    requires Inv(s) && v.id.place in s.snaps && v.id == s.snaps[v.id.place].id
    requires PV_NAME_LABEL !in v.labels && (v.conditions != [] ==> v.data.Some?)
    requires s.snaps[v.id.place].data.Some? ==> v.data.Some?
    requires v.data.Some? ==> Owned(v.data.value, v.id, s.data, s.nextData)
    requires SimplifiedStatus(v.conditions) == StatusReady ==> MakeSnapshotName(v.id) in s.reported
    ensures Inv(s.Put(v))
  {
    assert s.snaps[v.id.place] in s.versions;
    NewVersion(s.versions, v, s.reported, s.data, s.nextData);
    NewCurrent(s.snaps, s.versions, s.ops, v);
  }

  lemma NewPlace(snaps: map<Place, Version>, versions: set<Version>, ops: map<string, Op>, v: Version)
    requires CurrentStored(snaps, versions) && BoundStays(snaps, versions) && OpsOk(ops, versions)
    requires OpsBound(ops, snaps)
    requires v.data == None && forall w :: w in versions ==> w.id.place != v.id.place
    ensures CurrentStored(snaps[v.id.place := v], versions + {v}) && BoundStays(snaps[v.id.place := v], versions + {v})
    ensures OpsOk(ops, versions + {v}) && OpsBound(ops, snaps[v.id.place := v])
  {
    forall k | k in ops
      ensures ops[k].id.place != v.id.place
    {
      assert ops[k].seen in versions;
    }
  }

  lemma NewSnapshotKeeps(s: State, v: Version)
    requires Inv(s) && WellFormed(v.id) && PV_NAME_LABEL !in v.labels && v.conditions == [] && v.data == None
    requires forall w :: w in s.versions ==> w.id.place != v.id.place
    ensures Inv(s.Put(v))
  {
    NewVersion(s.versions, v, s.reported, s.data, s.nextData);
    NewPlace(s.snaps, s.versions, s.ops, v);
  }

  /** The object that an operation writes to is its own snapshot. */
  lemma SameSnapshot(s: State, key: string)
    requires Inv(s) && key in s.ops && Exists(s, key)
    ensures s.snaps[s.ops[key].id.place].id == s.ops[key].id
    ensures s.snaps[s.ops[key].id.place] in s.versions && WellFormed(s.ops[key].id)
    ensures MakeSnapshotName(s.ops[key].id) == key
  {
    assert s.ops[key].seen in s.versions;
    assert s.snaps[s.ops[key].id.place] in s.versions;
  }

  // ---- the steps ----

  lemma StartKeeps(s: State, seen: Version)
    requires Inv(s) && Enabled(s, Start(seen))
    ensures Inv(ApplyStart(s, seen))
  {
    if SimplifiedStatus(seen.conditions) == StatusNew {
      BeginKeeps(s, Op(seen.id, seen, Looking));
    } else if SimplifiedStatus(seen.conditions) == StatusPending {
      assert seen.data.Some?;
      BeginKeeps(s, Op(seen.id, seen, Fetching(seen.data)));
    }
  }

  lemma BeginKeeps(s: State, op: Op)
    requires Inv(s) && op.seen in s.versions && op.seen.id == op.id
    requires op.stage == Looking || (op.stage == Fetching(op.seen.data) && op.seen.data.Some?)
    ensures Inv(s.(ops := s.ops[MakeSnapshotName(op.id) := op]))
  {
  }

  lemma FoundIsOwn(s: State, key: string, d: nat)
    requires Inv(s) && key in s.ops && d in s.data && RefersTo(s.data[d], key)
    ensures s.data[d].owner == s.ops[key].id && d < s.nextData
  {
    OpIsProper(s, key);
    RefersToExact(s.data[d], s.ops[key].id);
    NamesInjective(s.data[d].owner, s.ops[key].id);
  }

  lemma NotFoundIsNone(s: State, key: string)
    requires Inv(s) && key in s.ops && forall d :: d in s.data ==> !RefersTo(s.data[d], key)
    ensures NoneFor(s.data, s.ops[key].id)
  {
    OpIsProper(s, key);
    forall d | d in s.data
      ensures s.data[d].owner != s.ops[key].id
    {
      RefersToExact(s.data[d], s.ops[key].id);
    }
  }

  lemma LookKeeps(s: State, key: string, found: Option<nat>)
    requires Inv(s) && Enabled(s, Look(key, found)) && ReliableList(s, Look(key, found))
    ensures Inv(Apply(s, Look(key, found)))
  {
    if found.Some? {
      FoundIsOwn(s, key, found.value);
      GotoKeeps(s, key, Binding(found.value, None, true));
    } else {
      NotFoundIsNone(s, key);
      GotoKeeps(s, key, Finding);
    }
  }

  lemma FindKeeps(s: State, key: string, told: Option<seq<Condition>>)
    requires Inv(s) && Enabled(s, Find(key, told))
    ensures Inv(ApplyFind(s, key, told))
  {
    assert s.ops[key].seen in s.versions;
    if told.None? {
      GotoKeeps(s, key, Preparing);
    } else {
      HearKeeps(s, key, told.value);
      EndKeeps(s.Hear(key, told.value), key, false);
    }
  }

  lemma PreparedVersionKeeps(s: State, key: string)
    requires Inv(s) && key in s.ops && Exists(s, key)
    ensures Inv(s.Put(PreparedVersion(s.snaps[s.ops[key].id.place])))
  {
    SameSnapshot(s, key);
    PutKeeps(s, PreparedVersion(s.snaps[s.ops[key].id.place]));
  }

  lemma AfterPrepareKeeps(s: State, key: string, ok: bool)
    requires Inv(s) && key in s.ops && s.ops[key].stage.Preparing?
    ensures Inv(AfterPrepare(s, key, ok))
  {
    if ok {
      GotoKeeps(s, key, Taking);
    } else {
      EndKeeps(s, key, false);
    }
  }

  lemma PrepareKeeps(s: State, key: string, ok: bool, stored: bool)
    requires Inv(s) && Enabled(s, Prepare(key, ok, stored))
    ensures Inv(ApplyPrepare(s, key, ok, stored))
  {
    if stored {
      PreparedVersionKeeps(s, key);
      AfterPrepareKeeps(s.Put(PreparedVersion(s.snaps[s.ops[key].id.place])), key, ok);
    } else {
      AfterPrepareKeeps(s, key, ok);
    }
  }

  lemma TakeKeeps(s: State, key: string, taken: Option<seq<Condition>>)
    requires Inv(s) && Enabled(s, Take(key, taken))
    ensures Inv(Apply(s, Take(key, taken)))
  {
    if taken.Some? {
      HearKeeps(s, key, taken.value);
      GotoKeeps(s.Hear(key, taken.value), key, Posting(false, taken.value));
    } else {
      EndKeeps(s, key, false);
    }
  }

  function WithData(s: State, owner: Id): State {
    s.(data := s.data[s.nextData := Data(MakeSnapshotName(owner), owner)], nextData := s.nextData + 1)
  }

  lemma GotoTwice(s: State, key: string, first: Stage, second: Stage)
    requires key in s.ops
    ensures s.Goto(key, first).Goto(key, second) == s.Goto(key, second)
  {
    assert s.ops[key := s.ops[key].(stage := first)][key := s.ops[key].(stage := second)] ==
      s.ops[key := s.ops[key].(stage := second)];
  }

  /** The operation has made its data object ... */
  lemma MadeKeeps(s: State, key: string)
    requires Inv(s) && key in s.ops && s.ops[key].stage.Posting?
    ensures Inv(WithData(s.Goto(key, Looking), s.ops[key].id))
  {
    OpIsProper(s, key);
    GotoKeeps(s, key, Looking);
    NewDataKeeps(s.Goto(key, Looking), s.ops[key].id);
  }

  /** ... and goes on to bind it. */
  lemma MadeBindsKeeps(s: State, key: string, conditions: seq<Condition>)
    requires Inv(s) && key in s.ops && s.ops[key].stage == Looking && s.nextData > 0
    requires s.nextData - 1 in s.data && s.data[s.nextData - 1].owner == s.ops[key].id
    requires SimplifiedStatus(conditions) == StatusReady ==> key in s.reported
    ensures Inv(s.Goto(key, Binding(s.nextData - 1, Some(conditions), false)))
  {
    GotoKeeps(s, key, Binding(s.nextData - 1, Some(conditions), false));
  }

  lemma PostedKeeps(s: State, key: string)
    requires Inv(s) && Enabled(s, Post(key, true, true))
    ensures Inv(ApplyPost(s, key, true, true))
  {
    var id, conditions := s.ops[key].id, s.ops[key].stage.conditions;
    assert Carried(s.ops[key].stage) == conditions;
    MadeKeeps(s, key);
    MadeBindsKeeps(WithData(s.Goto(key, Looking), id), key, conditions);
    PostedState(s, key);
  }

  lemma PostedState(s: State, key: string)
    requires Enabled(s, Post(key, true, true)) && !s.ops[key].stage.recovered && MakeSnapshotName(s.ops[key].id) == key
    ensures ApplyPost(s, key, true, true) ==
              WithData(s.Goto(key, Looking), s.ops[key].id)
                .Goto(key, Binding(s.nextData, Some(s.ops[key].stage.conditions), false))
  {
    GotoTwice(WithData(s, s.ops[key].id), key, Looking, Binding(s.nextData, Some(s.ops[key].stage.conditions), false));
  }

  lemma OpIsProper(s: State, key: string)
    requires Inv(s) && key in s.ops
    ensures WellFormed(s.ops[key].id) && MakeSnapshotName(s.ops[key].id) == key
    ensures s.ops[key].stage.Posting? ==> !s.ops[key].stage.recovered && NoneFor(s.data, s.ops[key].id)
    ensures forall k :: k in s.ops && k != key ==> s.ops[k].id != s.ops[key].id
  {
    assert s.ops[key].seen in s.versions;
  }

  lemma PostKeeps(s: State, key: string, ok: bool, stored: bool)
    requires Inv(s) && Enabled(s, Post(key, ok, stored))
    ensures Inv(ApplyPost(s, key, ok, stored))
  {
    if ok {
      PostedKeeps(s, key);
    } else {
      EndKeeps(s, key, false);
      OpIsProper(s, key);
      if stored {
        NewDataKeeps(s.End(key, false), s.ops[key].id);
      }
    }
  }

  lemma NewDataKeeps(s: State, owner: Id)
    requires Inv(s) && WellFormed(owner) && NoneFor(s.data, owner)
    requires forall k :: k in s.ops && HasNone(s.ops[k].stage) ==> s.ops[k].id != owner
    ensures Inv(WithData(s, owner))
  {
  }

  lemma BoundVersionKeeps(s: State, key: string)
    requires Inv(s) && key in s.ops && s.ops[key].stage.Binding? && Exists(s, key)
    ensures Inv(s.Put(BoundVersion(s.snaps[s.ops[key].id.place], s.ops[key].stage)))
  {
    var op := s.ops[key];
    SameSnapshot(s, key);
    assert DataOf(op.stage) == Some(op.stage.data);
    assert op.stage.status.Some? ==> Carried(op.stage) == op.stage.status.value;
    PutKeeps(s, BoundVersion(s.snaps[op.id.place], op.stage));
  }

  lemma AfterBindKeeps(s: State, key: string, ok: bool)
    requires Inv(s) && key in s.ops && s.ops[key].stage.Binding?
    requires ok && Exists(s, key) ==> s.snaps[s.ops[key].id.place].data.Some?
    ensures Inv(AfterBind(s, key, ok))
  {
    var stage := s.ops[key].stage;
    assert DataOf(stage) == Some(stage.data);
    if ok {
      GotoKeeps(s, key, if stage.fetch then Fetching(Some(stage.data)) else Waiting(stage.data, WAIT_STEPS));
    } else {
      EndKeeps(s, key, false);
    }
  }

  lemma BindKeeps(s: State, key: string, ok: bool, stored: bool)
    requires Inv(s) && Enabled(s, Bind(key, ok, stored))
    ensures Inv(ApplyBind(s, key, ok, stored))
  {
    if stored {
      BoundVersionKeeps(s, key);
      SameSnapshot(s, key);
      AfterBindKeeps(s.Put(BoundVersion(s.snaps[s.ops[key].id.place], s.ops[key].stage)), key, ok);
    } else {
      AfterBindKeeps(s, key, ok);
    }
  }

  lemma FetchKeeps(s: State, key: string, ok: bool)
    requires Inv(s) && Enabled(s, Fetch(key, ok))
    ensures Inv(Apply(s, Fetch(key, ok)))
  {
    if ok {
      assert DataOf(s.ops[key].stage).Some?;
      GotoKeeps(s, key, Waiting(s.ops[key].stage.bound.value, WAIT_STEPS));
    } else {
      EndKeeps(s, key, false);
    }
  }

  lemma AgainKeeps(s: State, key: string, data: nat, left: nat)
    requires Inv(s) && key in s.ops && left > 0 && PastBind(s.ops[key].stage) && DataOf(s.ops[key].stage) == Some(data)
    ensures Inv(Again(s, key, data, left))
  {
    if left == 1 {
      EndKeeps(s, key, false);
    } else {
      GotoKeeps(s, key, Waiting(data, left - 1));
    }
  }

  lemma DescribeKeeps(s: State, key: string, told: Option<seq<Condition>>)
    requires Inv(s) && Enabled(s, Describe(key, told))
    ensures Inv(ApplyDescribe(s, key, told))
  {
    var stage := s.ops[key].stage;
    if told.None? {
      AgainKeeps(s, key, stage.data, stage.left);
    } else if told.value == [] {
      EndKeeps(s, key, false);
    } else {
      ToldKeeps(s, key, told.value);
    }
  }

  lemma ToldKeeps(s: State, key: string, conditions: seq<Condition>)
    requires Inv(s) && key in s.ops && s.ops[key].stage.Waiting? && conditions != []
    ensures var stage := s.ops[key].stage;
            Inv(s.Hear(key, conditions).Goto(key, Updating(stage.data, conditions[|conditions| - 1], stage.left)))
  {
    var stage := s.ops[key].stage;
    HearKeeps(s, key, conditions);
    assert DataOf(stage) == Some(stage.data);
    GotoKeeps(s.Hear(key, conditions), key, Updating(stage.data, conditions[|conditions| - 1], stage.left));
  }

  lemma StatusWithCondition(conditions: seq<Condition>, c: Condition)
    ensures SimplifiedStatus(WithCondition(conditions, c)) == SimplifiedStatus([c])
  {
  }

  lemma ActualKeeps(s: State, key: string)
    requires Inv(s) && key in s.reported
    ensures Inv(s.(actual := s.actual + {key}))
  {
  }

  /** The condition goes onto the snapshot. */
  lemma UpdatedVersionKeeps(s: State, key: string)
    requires Inv(s) && key in s.ops && s.ops[key].stage.Updating? && Exists(s, key)
    ensures Inv(s.Put(UpdatedVersion(s.snaps[s.ops[key].id.place], s.ops[key].stage)))
  {
    var op := s.ops[key];
    SameSnapshot(s, key);
    var was := s.snaps[op.id.place];
    StatusWithCondition(was.conditions, op.stage.condition);
    assert Carried(op.stage) == [op.stage.condition];
    assert was.data.Some? && Owned(was.data.value, was.id, s.data, s.nextData);
    PutKeeps(s, UpdatedVersion(was, op.stage));
  }

  lemma AfterUpdateKeeps(s: State, key: string, ok: bool)
    requires Inv(s) && key in s.ops && s.ops[key].stage.Updating? && s.ops[key].stage.left > 0
    requires (ok ==> Exists(s, key))
    ensures Inv(AfterUpdate(s, key, ok))
  {
    var op := s.ops[key];
    var status := SimplifiedStatus([op.stage.condition]);
    if status == StatusReady && ok {
      SameSnapshot(s, key);
      assert Carried(op.stage) == [op.stage.condition] && key in s.reported;
      ActualKeeps(s, key);
      EndKeeps(s.(actual := s.actual + {key}), key, true);
    } else if status == StatusReady || status == StatusError {
      EndKeeps(s, key, false);
    } else {
      AgainKeeps(s, key, op.stage.data, op.stage.left);
    }
  }

  lemma UpdateKeeps(s: State, key: string, ok: bool, stored: bool)
    requires Inv(s) && Enabled(s, Update(key, ok, stored))
    ensures Inv(ApplyUpdate(s, key, ok, stored))
  {
    if stored {
      UpdatedVersionKeeps(s, key);
      SameSnapshot(s, key);
      AfterUpdateKeeps(s.Put(UpdatedVersion(s.snaps[s.ops[key].id.place], s.ops[key].stage)), key, ok);
    } else {
      AfterUpdateKeeps(s, key, ok);
    }
  }

  lemma EnvironmentKeeps(s: State, a: Action, labels: set<string>)
    requires Inv(s) && Enabled(s, a) && ProperSnapshot(s, a, labels) && PV_NAME_LABEL !in labels
    requires a.CreateSnapshot? || a.DeleteSnapshot? || a.DeleteData? || a.ForgetActual? || a.Restart?
    ensures Inv(Apply(s, a))
  {
    match a
    case CreateSnapshot(id, labels) => NewSnapshotKeeps(s, Version(id, None, labels, []));
    case DeleteSnapshot(_) =>
    case DeleteData(_) =>
    case ForgetActual(_) =>
    case Restart =>
  }

  lemma FirstHalfKeeps(s: State, a: Action)
    requires Inv(s) && Enabled(s, a) && ReliableList(s, a)
    requires a.Start? || a.Look? || a.Find? || a.Prepare? || a.Take?
    ensures Inv(Apply(s, a))
  {
    match a
    case Start(seen) => StartKeeps(s, seen);
    case Look(key, found) => LookKeeps(s, key, found);
    case Find(key, told) => FindKeeps(s, key, told);
    case Prepare(key, ok, stored) => PrepareKeeps(s, key, ok, stored);
    case Take(key, taken) => TakeKeeps(s, key, taken);
  }

  lemma MakeAndBindKeeps(s: State, a: Action)
    requires Inv(s) && Enabled(s, a) && (a.Post? || a.Bind?)
    ensures Inv(Apply(s, a))
  {
    match a
    case Post(key, ok, stored) => PostKeeps(s, key, ok, stored);
    case Bind(key, ok, stored) => BindKeeps(s, key, ok, stored);
  }

  lemma AwaitKeeps(s: State, a: Action)
    requires Inv(s) && Enabled(s, a) && (a.Fetch? || a.Describe? || a.Update?)
    ensures Inv(Apply(s, a))
  {
    match a
    case Fetch(key, ok) => FetchKeeps(s, key, ok);
    case Describe(key, told) => DescribeKeeps(s, key, told);
    case Update(key, ok, stored) => UpdateKeeps(s, key, ok, stored);
  }

  lemma StepKeeps(s: State, a: Action, labels: set<string>)
    requires Inv(s) && Enabled(s, a) && ProperSnapshot(s, a, labels) && ReliableList(s, a) && PV_NAME_LABEL !in labels
    ensures Inv(Apply(s, a))
  {
    if a.Start? || a.Look? || a.Find? || a.Prepare? || a.Take? {
      FirstHalfKeeps(s, a);
    } else if a.Post? || a.Bind? {
      MakeAndBindKeeps(s, a);
    } else if a.Fetch? || a.Describe? || a.Update? {
      AwaitKeeps(s, a);
    } else {
      EnvironmentKeeps(s, a, labels);
    }
  }

  lemma {:induction false} RunKeeps(s: State, acts: seq<Action>, labels: set<string>)
    requires Inv(s) && CanRun(s, acts) && AbidingRun(s, acts, labels) && PV_NAME_LABEL !in labels
    ensures Inv(Run(s, acts))
    decreases |acts|
  {
    if acts != [] {
      StepKeeps(s, acts[0], labels);
      RunKeeps(Apply(s, acts[0]), acts[1..], labels);
    }
  }

  /** The main result, over every run that keeps the assumptions and in which no snapshot has the
      label "pvName": any copies that informers show, failed calls that had their effect, restarts,
      and concurrent deletions. */
  lemma EveryRunIsSafe(acts: seq<Action>, labels: set<string>)
    requires CanRun(START, acts) && AbidingRun(START, acts, labels) && PV_NAME_LABEL !in labels
    ensures var s := Run(START, acts);
            && OneDataEach(s.data) && BoundToOwn(s.snaps, s.data) && ConditionsOnlyBound(s.snaps)
            && SuccessMeansReady(s)
            && NeverRecovered(s.ops)
            && forall d :: d in s.data ==> s.data[d].ref == MakeSnapshotName(s.data[d].owner)
  {
    RunKeeps(START, acts, labels);
  }

  /** In such a run, an operation for which the plugin finds its snapshot in the storage ends with
      an error and without a data object: no snapshot is ever recovered. */
  lemma RecoveryAlwaysFails(acts: seq<Action>, labels: set<string>, key: string, told: seq<Condition>)
    requires CanRun(START, acts) && AbidingRun(START, acts, labels) && PV_NAME_LABEL !in labels
    requires Enabled(Run(START, acts), Find(key, Some(told)))
    ensures var s := Run(START, acts); var t := Apply(s, Find(key, Some(told)));
            key !in t.ops && t.outcomes == s.outcomes + [Outcome(key, false)] && t.data == s.data
  {
    RunKeeps(START, acts, labels);
    var s := Run(START, acts);
    assert s.ops[key].seen in s.versions;
  }

  // ---- success ----

  /** The operation that this step ends, if any, succeeds. */
  predicate Succeeds(s: State, t: State) {
    |t.outcomes| > |s.outcomes| && t.outcomes[|s.outcomes|].success
  }

  lemma OnlyTheseSucceed(s: State, a: Action)
    requires Enabled(s, a) && Succeeds(s, Apply(s, a))
    ensures a.Start? || a.Update?
  {
  }

  lemma UpdateEnds(s: State, key: string, ok: bool, stored: bool)
    requires Enabled(s, Update(key, ok, stored)) && Succeeds(s, ApplyUpdate(s, key, ok, stored))
    ensures Exists(s, key) && SimplifiedStatus([s.ops[key].stage.condition]) == StatusReady
    ensures var t := ApplyUpdate(s, key, ok, stored);
            && t.outcomes[|s.outcomes|].key == key && t.reported == s.reported
            && MakeSnapshotName(s.snaps[s.ops[key].id.place].id) in t.actual
  {
  }

  lemma UpdateSuccess(s: State, key: string, ok: bool, stored: bool)
    requires Inv(s) && Enabled(s, Update(key, ok, stored)) && Succeeds(s, ApplyUpdate(s, key, ok, stored))
    ensures var t := ApplyUpdate(s, key, ok, stored); t.outcomes[|s.outcomes|].key in t.actual * t.reported
    ensures SimplifiedStatus([s.ops[key].stage.condition]) == StatusReady
  {
    UpdateEnds(s, key, ok, stored);
    SameSnapshot(s, key);
    assert Carried(s.ops[key].stage) == [s.ops[key].stage.condition];
  }

  lemma StartSuccess(s: State, seen: Version)
    requires Inv(s) && Enabled(s, Start(seen)) && Succeeds(s, ApplyStart(s, seen))
    ensures var t := ApplyStart(s, seen); t.outcomes[|s.outcomes|].key in t.actual * t.reported
  {
  }

  /** An operation that ends successfully leaves its name in the actual state, and the plugin
      has said Ready for it. */
  lemma SuccessIsActual(s: State, a: Action)
    requires Inv(s) && Enabled(s, a) && Succeeds(s, Apply(s, a))
    ensures Apply(s, a).outcomes[|s.outcomes|].key in Apply(s, a).actual * Apply(s, a).reported
  {
    OnlyTheseSucceed(s, a);
    if a.Update? {
      UpdateSuccess(s, a.key, a.ok, a.stored);
    } else {
      StartSuccess(s, a.seen);
    }
  }

  /** So it is in every run that keeps the assumptions. */
  lemma SuccessInEveryRun(acts: seq<Action>, labels: set<string>, a: Action)
    requires CanRun(START, acts) && AbidingRun(START, acts, labels) && PV_NAME_LABEL !in labels
    requires var s := Run(START, acts); Enabled(s, a) && Succeeds(s, Apply(s, a))
    ensures var s := Run(START, acts); var t := Apply(s, a); t.outcomes[|s.outcomes|].key in t.actual * t.reported
  {
    RunKeeps(START, acts, labels);
    SuccessIsActual(Run(START, acts), a);
  }
}
