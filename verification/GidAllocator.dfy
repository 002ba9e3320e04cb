/** The GID allocator under concurrent provisions and deletions: per-class tables that are built
    from the API server's volumes when first needed, and adapted to the class's range. */
module GidAllocators {
  import opened Common
  import Gids
  import opened MinMaxAllocators

  /** What a class's parameters can say. */
  predicate ClassRange(lo: int, hi: int) {
    Gids.ABSOLUTE_GID_MIN <= lo <= hi <= Gids.ABSOLUTE_GID_MAX
  }

  lemma ClassRangeIff(lo: int, hi: int)
    ensures ClassRange(lo, hi) <==> 2000 <= lo <= hi <= 0x7fff_ffff
  {
  }

  /** A volume in the API server; `gid` is what its annotation reads as. It is live until its
      GID is released, at its removal. */
  datatype PV = PV(className: string, gid: Option<nat>, live: bool) {
    predicate Owns(c: string, g: int) {
      live && className == c && gid.Some? && gid.value == g
    }
  }

  datatype Purpose = ForClaim | ForRelease(name: string, gid: nat)

  /** Where a worker is in getGidTable and after it. */
  datatype Stage =
    | Starting
    | Missing              // has found no table
    | Built(table: Table)  // has filled and narrowed a table of its own
    | Ready                // has the class's table, and has set its range
    | Issued(gid: int)     // has got a GID for a volume that is not stored yet

  datatype Worker = Worker(purpose: Purpose, className: string, lo: int, hi: int, stage: Stage) {
    predicate HasTable() {
      stage.Ready? || stage.Issued?
    }
  }

  datatype State = State(pvs: map<string, PV>, tables: map<string, Table>, workers: map<nat, Worker>) {

    function Goto(w: nat, stage: Stage): State
      requires w in workers
    {
      this.(workers := workers[w := workers[w].(stage := stage)])
    }

    function Drop(w: nat): State {
      this.(workers := workers - {w})
    }
  }

  /** `found` says whether the StorageClass was read: if not, its name and parameters are empty. */
  datatype Action =
    | BeginAllocate(w: nat, className: string, lo: int, hi: int)
    | BeginRelease(w: nat, name: string, found: bool, lo: int, hi: int)
    | Lookup(w: nat)
    | ListPVs(w: nat)
    | Install(w: nat)
    | Allocate(w: nat)
    | CreatePV(w: nat, name: string)
    | ReleaseGid(w: nat)
    | RemovePV(name: string)
    | Abandon(w: nat)

  predicate At(s: State, w: nat, stage: Stage) {
    w in s.workers && s.workers[w].stage == stage
  }

  predicate Enabled(s: State, a: Action) {
    match a
    case BeginAllocate(w, _, lo, hi) => w !in s.workers && ClassRange(lo, hi)
    case BeginRelease(w, name, _, lo, hi) =>
      w !in s.workers && ClassRange(lo, hi) && name in s.pvs && s.pvs[name].gid.Some?
    case Lookup(w) => At(s, w, Starting)
    case ListPVs(w) => At(s, w, Missing)
    case Install(w) => w in s.workers && s.workers[w].stage.Built?
    case Allocate(w) => At(s, w, Ready) && s.workers[w].purpose.ForClaim? && s.workers[w].className in s.tables
                        && s.tables[s.workers[w].className].min <= s.tables[s.workers[w].className].max
    case CreatePV(w, name) =>
      w in s.workers && s.workers[w].stage.Issued? && s.workers[w].stage.gid >= 0 && name !in s.pvs
    case ReleaseGid(w) => At(s, w, Ready) && s.workers[w].purpose.ForRelease? && s.workers[w].className in s.tables
    case RemovePV(name) => name in s.pvs && !s.pvs[name].live
    case Abandon(w) => w in s.workers
  }

  function Apply(s: State, a: Action): State
    requires Enabled(s, a)
  {
    match a
    case BeginAllocate(w, c, lo, hi) => s.(workers := s.workers[w := Worker(ForClaim, c, lo, hi, Starting)])
    case BeginRelease(w, name, found, lo, hi) =>
      s.(workers := s.workers[w := Releaser(s.pvs[name], name, found, lo, hi)])
    case Lookup(w) => ApplyLookup(s, w)
    case ListPVs(w) => s.Goto(w, Built(Fill(s.pvs, s.workers[w].className).SetRange(s.workers[w].lo, s.workers[w].hi)))
    case Install(w) => ApplyInstall(s, w)
    case Allocate(w) => ApplyAllocate(s, w)
    case CreatePV(w, name) => ApplyCreate(s, w, name)
    case ReleaseGid(w) => ApplyRelease(s, w)
    case RemovePV(name) => s.(pvs := s.pvs - {name})
    case Abandon(w) => s.Drop(w)
  }

  function Releaser(pv: PV, name: string, found: bool, lo: int, hi: int): Worker
    requires pv.gid.Some?
  {
    Worker(ForRelease(name, pv.gid.value), if found then pv.className else "", lo, hi, Starting)
  }

  /** An existing table gets the range of the class as this worker has read it. */
  function ApplyLookup(s: State, w: nat): State
    requires w in s.workers
  {
    var me := s.workers[w];
    if me.className in s.tables then
      s.(tables := s.tables[me.className := s.tables[me.className].SetRange(me.lo, me.hi)]).Goto(w, Ready)
    else s.Goto(w, Missing)
  }

  /** collectGids on the full range: every readable GID of every listed volume of the class. */
  function Fill(pvs: map<string, PV>, c: string): Table {
    Table(0, 0x7fff_ffff, set n | n in pvs && pvs[n].className == c && pvs[n].gid.Some? :: pvs[n].gid.value)
  }

  /** If a table has appeared in the meantime, it is used and the worker's own is dropped. */
  function ApplyInstall(s: State, w: nat): State
    requires w in s.workers && s.workers[w].stage.Built?
  {
    var me := s.workers[w];
    if me.className in s.tables then ApplyLookup(s, w)
    else s.(tables := s.tables[me.className := me.stage.table]).Goto(w, Ready)
  }

  function ApplyAllocate(s: State, w: nat): State
    requires w in s.workers && s.workers[w].className in s.tables
    requires s.tables[s.workers[w].className].min <= s.tables[s.workers[w].className].max
  {
    var c := s.workers[w].className;
    var next := s.tables[c].Next();
    if next.Ok? then s.(tables := s.tables[c := s.tables[c].Take(next.value)]).Goto(w, Issued(next.value))
    else s.Drop(w)
  }

  function ApplyCreate(s: State, w: nat, name: string): State
    requires w in s.workers && s.workers[w].stage.Issued? && s.workers[w].stage.gid >= 0
  {
    s.(pvs := s.pvs[name := PV(s.workers[w].className, Some(s.workers[w].stage.gid), true)]).Drop(w)
  }

  function ApplyRelease(s: State, w: nat): State
    requires w in s.workers && s.workers[w].purpose.ForRelease? && s.workers[w].className in s.tables
  {
    var c, name := s.workers[w].className, s.workers[w].purpose.name;
    var t := s.tables[c].Release(s.workers[w].purpose.gid);
    var pvs := if name in s.pvs then s.pvs[name := s.pvs[name].(live := false)] else s.pvs;
    s.(tables := s.tables[c := t], pvs := pvs).Drop(w)
  }

  predicate CanRun(s: State, acts: seq<Action>)
    decreases |acts|
  {
    acts == [] || (Enabled(s, acts[0]) && CanRun(Apply(s, acts[0]), acts[1..]))
  }

  function Run(s: State, acts: seq<Action>): State
    requires CanRun(s, acts)
    decreases |acts|
  {
    if acts == [] then s else Run(Apply(s, acts[0]), acts[1..])
  }

  // ---- the assumptions ----

  /** A volume's GID is released once, at the volume's removal. */
  ghost predicate ReleasedOnce(s: State, a: Action)
    requires Enabled(s, a)
  {
    a.BeginRelease? ==>
      && s.pvs[a.name].live
      && forall v :: v in s.workers && s.workers[v].purpose.ForRelease? ==> s.workers[v].purpose.name != a.name
  }

  /** The volume's StorageClass exists when the volume is removed. */
  predicate ClassFound(a: Action) {
    a.BeginRelease? ==> a.found
  }

  /** A GID that was issued gets its volume: Provision does not fail after it, and neither does
      the creation of the volume. */
  predicate NoneAbandoned(s: State, a: Action)
    requires Enabled(s, a)
  {
    a.Abandon? ==> !s.workers[a.w].stage.Issued?
  }

  ghost predicate AbidingRun(s: State, acts: seq<Action>)
    requires CanRun(s, acts)
    decreases |acts|
  {
    acts == [] || (ReleasedOnce(s, acts[0]) && ClassFound(acts[0]) && AbidingRun(Apply(s, acts[0]), acts[1..]))
  }

  /** The main property: no two live volumes of a class share a GID. */
  ghost predicate GidsApart(pvs: map<string, PV>) {
    forall m, n ::
      && m in pvs && n in pvs && m != n && pvs[m].live && pvs[n].live
      && pvs[m].className == pvs[n].className && pvs[m].gid.Some?
      ==> pvs[m].gid != pvs[n].gid
  }
}
