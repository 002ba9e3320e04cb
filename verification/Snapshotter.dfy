/** The volume snapshotter: the create operation step by step, over VolumeSnapshot and
    VolumeSnapshotData objects in the API server, a storage plugin, and the actual state. */
module Snapshotters {
  import opened Common

  datatype ConditionType = Ready | Failed | Pending | OtherType

  datatype ConditionStatus = True | False | Unknown

  datatype Condition = Condition(kind: ConditionType, status: ConditionStatus)

  datatype Status = StatusReady | StatusError | StatusPending | StatusNew

  /** Only the last condition counts. */
  function SimplifiedStatus(conditions: seq<Condition>): Status {
    if conditions == [] then StatusNew
    else
      var last := conditions[|conditions| - 1];
      if last == Condition(Ready, True) then StatusReady
      else if last.kind == Failed then StatusError
      else if last.kind == Pending && last.status != False then StatusPending
      else StatusNew
  }

  /** UpdateVolumeSnapshotStatus: a new type is appended, the same type replaces the last one. */
  function WithCondition(conditions: seq<Condition>, c: Condition): seq<Condition> {
    if conditions == [] || conditions[|conditions| - 1].kind != c.kind then conditions + [c]
    else conditions[|conditions| - 1 := c]
  }

  /** Where a VolumeSnapshot lives, and which one it is. */
  datatype Place = Place(namespace: string, name: string)

  datatype Id = Id(place: Place, uid: string)

  function MakeSnapshotName(id: Id): string {
    id.place.namespace + "/" + id.place.name + "-" + id.uid
  }

  const UID_LENGTH := 36

  predicate WellFormed(id: Id) {
    id.place.namespace != "" && '/' !in id.place.namespace && |id.uid| == UID_LENGTH
  }

  /** One stored version of a VolumeSnapshot; `data` is its SnapshotDataName, as a number. */
  datatype Version = Version(id: Id, data: Option<nat>, labels: set<string>, conditions: seq<Condition>)

  const TIMESTAMP_LABEL := "SnapshotMetadata-Timestamp"
  const METADATA_PV_LABEL := "SnapshotMetadata-PVName"
  const PV_NAME_LABEL := "pvName"

  /** A VolumeSnapshotData: the name in its reference, and the snapshot it was made for. */
  datatype Data = Data(ref: string, owner: Id)

  /** getSnapshotDataFromSnapshotName: the controller writes references without a namespace. */
  predicate RefersTo(d: Data, key: string) {
    "" + "/" + d.ref == key || d.ref == key
  }

  /** How far a create operation is. `left` counts the steps of the wait. */
  datatype Stage =
    | Looking                                                          // for its data object
    | Finding                                                          // by tags, through the plugin
    | Preparing                                                        // PV and metadata
    | Taking                                                           // the snapshot
    | Posting(recovered: bool, conditions: seq<Condition>)
    | Binding(data: nat, status: Option<seq<Condition>>, fetch: bool)
    | Fetching(bound: Option<nat>)
    | Waiting(data: nat, left: nat)
    | Updating(data: nat, condition: Condition, left: nat)

  datatype Op = Op(id: Id, seen: Version, stage: Stage)

  datatype Outcome = Outcome(key: string, success: bool)

  const WAIT_STEPS := 20

  datatype State = State(
    snaps: map<Place, Version>,
    versions: set<Version>,         // every version ever stored; informers show any of them
    data: map<nat, Data>,
    nextData: nat,
    actual: set<string>,
    ops: map<string, Op>,           // one create operation for each name
    reported: set<string>,          // the plugin has said Ready
    outcomes: seq<Outcome>)
  {
    function Goto(key: string, stage: Stage): State
      requires key in ops
    {
      this.(ops := ops[key := ops[key].(stage := stage)])
    }

    function End(key: string, success: bool): State {
      this.(ops := ops - {key}, outcomes := outcomes + [Outcome(key, success)])
    }

    function Put(v: Version): State {
      this.(snaps := snaps[v.id.place := v], versions := versions + {v})
    }

    function Hear(key: string, conditions: seq<Condition>): State {
      if SimplifiedStatus(conditions) == StatusReady then this.(reported := reported + {key}) else this
    }
  }

  /** `ok` says what a call returns, `stored` whether it had its effect. */
  datatype Action =
    | CreateSnapshot(id: Id, labels: set<string>)
    | DeleteSnapshot(place: Place)
    | DeleteData(d: nat)
    | ForgetActual(key: string)
    | Restart
    | Start(seen: Version)
    | Look(key: string, found: Option<nat>)
    | Find(key: string, told: Option<seq<Condition>>)
    | Prepare(key: string, ok: bool, stored: bool)
    | Take(key: string, taken: Option<seq<Condition>>)
    | Post(key: string, ok: bool, stored: bool)
    | Bind(key: string, ok: bool, stored: bool)
    | Fetch(key: string, ok: bool)
    | Describe(key: string, told: Option<seq<Condition>>)
    | Update(key: string, ok: bool, stored: bool)

  /** The object that the operation's snapshot is read from and written to. */
  predicate Exists(s: State, key: string)
    requires key in s.ops
  {
    s.ops[key].id.place in s.snaps
  }

  predicate Enabled(s: State, a: Action) {
    match a
    case CreateSnapshot(id, _) => id.place !in s.snaps
    case DeleteSnapshot(place) => place in s.snaps
    case DeleteData(d) => d in s.data
    case ForgetActual(_) => true
    case Restart => true
    case Start(seen) => seen in s.versions && MakeSnapshotName(seen.id) !in s.ops
    case Look(key, found) =>
      && key in s.ops && s.ops[key].stage.Looking?
      && (found.Some? ==> found.value in s.data && RefersTo(s.data[found.value], key))
    case Find(key, _) => key in s.ops && s.ops[key].stage.Finding?
    case Prepare(key, ok, stored) =>
      key in s.ops && s.ops[key].stage.Preparing? && (ok ==> stored) && (stored ==> Exists(s, key))
    case Take(key, _) => key in s.ops && s.ops[key].stage.Taking?
    case Post(key, ok, stored) => key in s.ops && s.ops[key].stage.Posting? && (ok ==> stored)
    case Bind(key, ok, stored) =>
      key in s.ops && s.ops[key].stage.Binding? && (ok ==> stored) && (stored ==> Exists(s, key))
    case Fetch(key, ok) =>
      key in s.ops && s.ops[key].stage.Fetching?
      && (ok ==> s.ops[key].stage.bound.Some? && s.ops[key].stage.bound.value in s.data)
    case Describe(key, _) => key in s.ops && s.ops[key].stage.Waiting? && s.ops[key].stage.left > 0
    case Update(key, ok, stored) =>
      && key in s.ops && s.ops[key].stage.Updating? && s.ops[key].stage.left > 0
      && (ok ==> stored) && (stored ==> Exists(s, key))
  }

  function Apply(s: State, a: Action): State
    requires Enabled(s, a)
  {
    match a
    case CreateSnapshot(id, labels) => s.Put(Version(id, None, labels, []))
    case DeleteSnapshot(place) => s.(snaps := s.snaps - {place})
    case DeleteData(d) => s.(data := s.data - {d})
    case ForgetActual(key) => s.(actual := s.actual - {key})
    case Restart => s.(ops := map[], actual := {})
    case Start(seen) => ApplyStart(s, seen)
    case Look(key, found) => s.Goto(key, if found.Some? then Binding(found.value, None, true) else Finding)
    case Find(key, told) => ApplyFind(s, key, told)
    case Prepare(key, ok, stored) => ApplyPrepare(s, key, ok, stored)
    case Take(key, taken) =>
      if taken.Some? then s.Hear(key, taken.value).Goto(key, Posting(false, taken.value)) else s.End(key, false)
    case Post(key, ok, stored) => ApplyPost(s, key, ok, stored)
    case Bind(key, ok, stored) => ApplyBind(s, key, ok, stored)
    case Fetch(key, ok) =>
      if ok then s.Goto(key, Waiting(s.ops[key].stage.bound.value, WAIT_STEPS)) else s.End(key, false)
    case Describe(key, told) => ApplyDescribe(s, key, told)
    case Update(key, ok, stored) => ApplyUpdate(s, key, ok, stored)
  }

  /** syncSnapshot's first decision, on the copy of the snapshot it was given. */
  function ApplyStart(s: State, seen: Version): State {
    var key := MakeSnapshotName(seen.id);
    match SimplifiedStatus(seen.conditions)
    case StatusReady => s.(actual := s.actual + {key}, outcomes := s.outcomes + [Outcome(key, true)])
    case StatusError => s.(outcomes := s.outcomes + [Outcome(key, false)])
    case StatusPending => s.(ops := s.ops[key := Op(seen.id, seen, Fetching(seen.data))])
    case StatusNew => s.(ops := s.ops[key := Op(seen.id, seen, Looking)])
  }

  /** findVolumeSnapshotMetadata returns the address of its map, so the test for nil tags never
      holds; a snapshot found through the plugin needs the label "pvName", which the controller
      itself never sets. */
  function ApplyFind(s: State, key: string, told: Option<seq<Condition>>): State
    requires key in s.ops
  {
    if told.None? then s.Goto(key, Preparing)
    else if PV_NAME_LABEL in s.ops[key].seen.labels then s.Hear(key, told.value).Goto(key, Posting(true, told.value))
    else s.Hear(key, told.value).End(key, false)
  }

  function PreparedVersion(was: Version): Version {
    was.(labels := was.labels + {TIMESTAMP_LABEL, METADATA_PV_LABEL})
  }

  function ApplyPrepare(s: State, key: string, ok: bool, stored: bool): State
    requires key in s.ops && (stored ==> Exists(s, key))
  {
    AfterPrepare(if stored then s.Put(PreparedVersion(s.snaps[s.ops[key].id.place])) else s, key, ok)
  }

  function AfterPrepare(s: State, key: string, ok: bool): State
    requires key in s.ops
  {
    if ok then s.Goto(key, Taking) else s.End(key, false)
  }

  /** A recovered snapshot's data object refers to the snapshot's short name. The first error
      ends the retries. */
  function ApplyPost(s: State, key: string, ok: bool, stored: bool): State
    requires key in s.ops && s.ops[key].stage.Posting?
  {
    var op := s.ops[key];
    var ref := if op.stage.recovered then op.id.place.name else key;
    var after := if stored then s.(data := s.data[s.nextData := Data(ref, op.id)], nextData := s.nextData + 1) else s;
    if ok then after.Goto(key, Binding(s.nextData, Some(op.stage.conditions), op.stage.recovered))
    else after.End(key, false)
  }

  /** Written onto a fresh copy: the data object's name and, when given, the conditions. */
  function BoundVersion(was: Version, stage: Stage): Version
    requires stage.Binding?
  {
    was.(data := Some(stage.data), conditions := if stage.status.Some? then stage.status.value else was.conditions)
  }

  function ApplyBind(s: State, key: string, ok: bool, stored: bool): State
    requires key in s.ops && s.ops[key].stage.Binding? && (stored ==> Exists(s, key))
  {
    AfterBind(if stored then s.Put(BoundVersion(s.snaps[s.ops[key].id.place], s.ops[key].stage)) else s, key, ok)
  }

  function AfterBind(s: State, key: string, ok: bool): State
    requires key in s.ops && s.ops[key].stage.Binding?
  {
    var stage := s.ops[key].stage;
    if !ok then s.End(key, false)
    else s.Goto(key, if stage.fetch then Fetching(Some(stage.data)) else Waiting(stage.data, WAIT_STEPS))
  }

  /** An empty list of conditions makes the operation panic, which ends it with an error. */
  function ApplyDescribe(s: State, key: string, told: Option<seq<Condition>>): State
    requires key in s.ops && s.ops[key].stage.Waiting? && s.ops[key].stage.left > 0
  {
    var stage := s.ops[key].stage;
    if told.None? then Again(s, key, stage.data, stage.left)
    else if told.value == [] then s.End(key, false)
    else s.Hear(key, told.value).Goto(key, Updating(stage.data, told.value[|told.value| - 1], stage.left))
  }

  function Again(s: State, key: string, data: nat, left: nat): State
    requires key in s.ops && left > 0
  {
    if left == 1 then s.End(key, false) else s.Goto(key, Waiting(data, left - 1))
  }

  function UpdatedVersion(was: Version, stage: Stage): Version
    requires stage.Updating?
  {
    was.(conditions := WithCondition(was.conditions, stage.condition))
  }

  function ApplyUpdate(s: State, key: string, ok: bool, stored: bool): State
    requires key in s.ops && s.ops[key].stage.Updating? && s.ops[key].stage.left > 0 && (ok ==> stored)
    requires stored ==> Exists(s, key)
  {
    AfterUpdate(if stored then s.Put(UpdatedVersion(s.snaps[s.ops[key].id.place], s.ops[key].stage)) else s, key, ok)
  }

  /** After a failed update a Ready snapshot makes AddSnapshot dereference nil: an error. */
  function AfterUpdate(s: State, key: string, ok: bool): State
    requires key in s.ops && s.ops[key].stage.Updating? && s.ops[key].stage.left > 0 && (ok ==> Exists(s, key))
  {
    var op := s.ops[key];
    match SimplifiedStatus([op.stage.condition])
    case StatusReady =>
      if ok then s.(actual := s.actual + {MakeSnapshotName(s.snaps[op.id.place].id)}).End(key, true)
      else s.End(key, false)
    case StatusError => s.End(key, false)
    case _ => Again(s, key, op.stage.data, op.stage.left)
  }

  predicate CanRun(s: State, acts: seq<Action>)
    decreases |acts|
  {
    acts == [] || (Enabled(s, acts[0]) && CanRun(Apply(s, acts[0]), acts[1..]))
  }

  function Run(s: State, acts: seq<Action>): State
    requires CanRun(s, acts)
    decreases |acts|
  {
    if acts == [] then s else Run(Apply(s, acts[0]), acts[1..])
  }

  const START := State(map[], {}, map[], 0, {}, map[], {}, [])

  // ---- the assumptions ----

  /** Snapshots have proper names, never a name that was used before, and only these labels. */
  ghost predicate ProperSnapshot(s: State, a: Action, labels: set<string>) {
    a.CreateSnapshot? ==>
      WellFormed(a.id) && a.labels <= labels && forall v :: v in s.versions ==> v.id.place != a.id.place
  }

  /** A list of the data objects that shows none for the name means that there is none. */
  ghost predicate ReliableList(s: State, a: Action) {
    a.Look? && a.found.None? ==> forall d :: d in s.data ==> !RefersTo(s.data[d], a.key)
  }

  ghost predicate AbidingRun(s: State, acts: seq<Action>, labels: set<string>)
    requires CanRun(s, acts)
    decreases |acts|
  {
    acts == [] ||
    (ProperSnapshot(s, acts[0], labels) && ReliableList(s, acts[0]) && AbidingRun(Apply(s, acts[0]), acts[1..], labels))
  }

  // ---- what is to hold ----

  /** At most one data object exists for each snapshot. */
  ghost predicate OneDataEach(data: map<nat, Data>) {
    forall d, e :: d in data && e in data && d != e ==> data[d].owner != data[e].owner
  }

  /** A snapshot with conditions is bound. */
  ghost predicate ConditionsOnlyBound(snaps: map<Place, Version>) {
    forall p :: p in snaps && snaps[p].conditions != [] ==> snaps[p].data.Some?
  }

  /** A snapshot is bound to the data object that was made for it. */
  ghost predicate BoundToOwn(snaps: map<Place, Version>, data: map<nat, Data>) {
    forall p :: p in snaps && snaps[p].data.Some? && snaps[p].data.value in data ==>
      data[snaps[p].data.value].owner == snaps[p].id
  }

  /** Successful operations, and snapshots in the actual state, were Ready for the plugin. */
  ghost predicate SuccessMeansReady(s: State) {
    && (forall i :: 0 <= i < |s.outcomes| && s.outcomes[i].success ==> s.outcomes[i].key in s.reported)
    && s.actual <= s.reported
  }
}
