/** No two live volumes of a class share a GID, in every interleaving. */
module GidSafety {
  import opened Common
  import opened MinMaxAllocators
  import opened GidAllocators

  /** Tables know every live volume's GID, and so does a table that is about to be installed. */
  ghost predicate LiveUsed(pvs: map<string, PV>, tables: map<string, Table>) {
    forall n :: n in pvs && pvs[n].live && pvs[n].gid.Some? && pvs[n].className in tables
      ==> pvs[n].gid.value in tables[pvs[n].className].used
  }

  ghost predicate Covers(t: Table, pvs: map<string, PV>, c: string) {
    forall n :: n in pvs && pvs[n].live && pvs[n].className == c && pvs[n].gid.Some? ==> pvs[n].gid.value in t.used
  }

  ghost predicate BuiltCovers(s: State) {
    forall w :: w in s.workers && s.workers[w].stage.Built? && s.workers[w].className !in s.tables
      ==> Covers(s.workers[w].stage.table, s.pvs, s.workers[w].className)
  }

  /** The worker has this GID of the class for a volume that is not stored yet. */
  predicate HasIssued(w: Worker, c: string, g: int) {
    w.className == c && w.stage.Issued? && w.stage.gid == g
  }

  /** A GID on its way to a volume is used, and is nobody else's. */
  ghost predicate IssuedUsed(workers: map<nat, Worker>, tables: map<string, Table>) {
    forall w :: w in workers && workers[w].stage.Issued? && workers[w].className in tables
      ==> workers[w].stage.gid in tables[workers[w].className].used
  }

  ghost predicate IssuedApart(workers: map<nat, Worker>) {
    forall v, w :: v in workers && w in workers && v != w && workers[v].stage.Issued? && workers[w].stage.Issued?
      ==> workers[v].className != workers[w].className || workers[v].stage.gid != workers[w].stage.gid
  }

  ghost predicate IssuedNotLive(workers: map<nat, Worker>, pvs: map<string, PV>) {
    forall w, n :: w in workers && workers[w].stage.Issued? && n in pvs
      ==> !pvs[n].Owns(workers[w].className, workers[w].stage.gid)
  }

  ghost predicate HaveTables(workers: map<nat, Worker>, tables: map<string, Table>) {
    forall w :: w in workers && workers[w].HasTable() ==> workers[w].className in tables
  }

  /** A worker that releases a GID does it for the live volume that owns it, and alone. */
  ghost predicate ReleasesOwned(workers: map<nat, Worker>, pvs: map<string, PV>) {
    forall w :: w in workers && workers[w].purpose.ForRelease? ==>
      var p := workers[w].purpose; p.name in pvs && pvs[p.name].Owns(workers[w].className, p.gid)
  }

  ghost predicate ReleasesApart(workers: map<nat, Worker>) {
    forall v, w ::
      v in workers && w in workers && v != w && workers[v].purpose.ForRelease? && workers[w].purpose.ForRelease?
      ==> workers[v].purpose.name != workers[w].purpose.name
  }

  ghost predicate OnlyClaimsIssue(workers: map<nat, Worker>) {
    forall w :: w in workers && workers[w].stage.Issued? ==> workers[w].purpose.ForClaim?
  }

  ghost predicate Inv(s: State) {
    && GidsApart(s.pvs) && LiveUsed(s.pvs, s.tables) && BuiltCovers(s)
    && IssuedUsed(s.workers, s.tables) && IssuedApart(s.workers) && IssuedNotLive(s.workers, s.pvs)
    && HaveTables(s.workers, s.tables)
    && ReleasesOwned(s.workers, s.pvs) && ReleasesApart(s.workers) && OnlyClaimsIssue(s.workers)
  }

  lemma DropKeeps(s: State, w: nat)
    requires Inv(s)
    ensures Inv(s.Drop(w))
  {
  }

  lemma BeginKeeps(s: State, w: nat, me: Worker)
    requires Inv(s) && w !in s.workers && me.stage == Starting
    requires me.purpose.ForRelease? ==>
               && me.purpose.name in s.pvs && s.pvs[me.purpose.name].Owns(me.className, me.purpose.gid)
               && forall v :: v in s.workers && s.workers[v].purpose.ForRelease? ==>
                    s.workers[v].purpose.name != me.purpose.name
    ensures Inv(s.(workers := s.workers[w := me]))
  {
  }

  /** A worker moves on without a GID; it may gain a table that is there, or one of its own. */
  lemma GotoKeeps(s: State, w: nat, stage: Stage)
    requires Inv(s) && w in s.workers && !stage.Issued?
    requires stage.Ready? ==> s.workers[w].className in s.tables
    requires stage.Built? ==> Covers(stage.table, s.pvs, s.workers[w].className)
    ensures Inv(s.Goto(w, stage))
  {
  }

  /** A new range, and any table for a class without one that covers its volumes. */
  lemma TableKeeps(s: State, c: string, t: Table)
    requires Inv(s)
    requires if c in s.tables then t.used == s.tables[c].used else Covers(t, s.pvs, c)
    ensures Inv(s.(tables := s.tables[c := t]))
  {
  }

  lemma LookupKeeps(s: State, w: nat)
    requires Inv(s) && w in s.workers
    ensures Inv(ApplyLookup(s, w))
  {
    var me := s.workers[w];
    if me.className in s.tables {
      var t := s.tables[me.className].SetRange(me.lo, me.hi);
      TableKeeps(s, me.className, t);
      GotoKeeps(s.(tables := s.tables[me.className := t]), w, Ready);
    } else {
      GotoKeeps(s, w, Missing);
    }
  }

  lemma FillCovers(pvs: map<string, PV>, c: string, lo: int, hi: int)
    ensures Covers(Fill(pvs, c).SetRange(lo, hi), pvs, c)
  {
  }

  lemma InstallKeeps(s: State, w: nat)
    requires Inv(s) && w in s.workers && s.workers[w].stage.Built?
    ensures Inv(ApplyInstall(s, w))
  {
    var me := s.workers[w];
    if me.className in s.tables {
      LookupKeeps(s, w);
    } else {
      TableKeeps(s, me.className, me.stage.table);
      GotoKeeps(s.(tables := s.tables[me.className := me.stage.table]), w, Ready);
    }
  }

  lemma UseKeeps(s: State, c: string, g: int)
    requires Inv(s) && c in s.tables
    ensures Inv(s.(tables := s.tables[c := s.tables[c].Take(g)]))
  {
  }

  lemma IssueKeeps(s: State, w: nat, g: int)
    requires Inv(s) && At(s, w, Ready) && s.workers[w].purpose.ForClaim? && s.workers[w].className in s.tables
    requires g in s.tables[s.workers[w].className].used
    requires forall n :: n in s.pvs ==> !s.pvs[n].Owns(s.workers[w].className, g)
    requires forall v :: v in s.workers && v != w ==> !HasIssued(s.workers[v], s.workers[w].className, g)
    ensures Inv(s.Goto(w, Issued(g)))
  {
  }

  lemma AllocateKeeps(s: State, w: nat)
    requires Inv(s) && Enabled(s, Allocate(w))
    ensures Inv(ApplyAllocate(s, w))
  {
    var c := s.workers[w].className;
    var next := s.tables[c].Next();
    NextIff(s.tables[c]);
    if next.Ok? {
      UseKeeps(s, c, next.value);
      IssueKeeps(s.(tables := s.tables[c := s.tables[c].Take(next.value)]), w, next.value);
    } else {
      DropKeeps(s, w);
    }
  }

  lemma StoreKeeps(s: State, name: string, c: string, g: nat)
    requires Inv(s) && name !in s.pvs && c in s.tables && g in s.tables[c].used
    requires forall n :: n in s.pvs ==> !s.pvs[n].Owns(c, g)
    requires forall v :: v in s.workers && s.workers[v].stage.Issued? && s.workers[v].className == c ==>
               s.workers[v].stage.gid != g
    ensures Inv(s.(pvs := s.pvs[name := PV(c, Some(g), true)]))
  {
  }

  lemma CreateKeeps(s: State, w: nat, name: string)
    requires Inv(s) && Enabled(s, CreatePV(w, name))
    ensures Inv(ApplyCreate(s, w, name))
  {
    DropKeeps(s, w);
    StoreKeeps(s.Drop(w), name, s.workers[w].className, s.workers[w].stage.gid);
    assert ApplyCreate(s, w, name) ==
      s.Drop(w).(pvs := s.pvs[name := PV(s.workers[w].className, Some(s.workers[w].stage.gid), true)]);
  }

  /** A volume is no longer live; nobody is releasing it. */
  lemma RetireKeeps(s: State, name: string)
    requires Inv(s) && name in s.pvs
    requires forall v :: v in s.workers && s.workers[v].purpose.ForRelease? ==> s.workers[v].purpose.name != name
    ensures Inv(s.(pvs := s.pvs[name := s.pvs[name].(live := false)]))
  {
  }

  lemma FreeKeeps(s: State, c: string, g: int)
    requires Inv(s) && c in s.tables
    requires forall n :: n in s.pvs ==> !s.pvs[n].Owns(c, g)
    requires forall v :: v in s.workers && s.workers[v].stage.Issued? && s.workers[v].className == c ==>
               s.workers[v].stage.gid != g
    ensures Inv(s.(tables := s.tables[c := s.tables[c].Release(g)]))
  {
  }

  lemma ReleaseKeeps(s: State, w: nat)
    requires Inv(s) && Enabled(s, ReleaseGid(w))
    ensures Inv(ApplyRelease(s, w))
  {
    var me := s.workers[w];
    var name, g := me.purpose.name, me.purpose.gid;
    assert s.pvs[name].Owns(me.className, g);
    DropKeeps(s, w);
    var s1 := s.Drop(w);
    RetireKeeps(s1, name);
    var s2 := s1.(pvs := s.pvs[name := s.pvs[name].(live := false)]);
    FreeKeeps(s2, me.className, g);
    assert ApplyRelease(s, w) == s2.(tables := s.tables[me.className := s.tables[me.className].Release(g)]);
  }

  lemma RemoveKeeps(s: State, name: string)
    requires Inv(s) && name in s.pvs && !s.pvs[name].live
    ensures Inv(s.(pvs := s.pvs - {name}))
  {
  }

  lemma StepKeeps(s: State, a: Action)
    requires Inv(s) && Enabled(s, a) && ReleasedOnce(s, a) && ClassFound(a)
    ensures Inv(Apply(s, a))
  {
    match a
    case BeginAllocate(w, c, lo, hi) => BeginKeeps(s, w, Worker(ForClaim, c, lo, hi, Starting));
    case BeginRelease(w, name, found, lo, hi) => BeginKeeps(s, w, Releaser(s.pvs[name], name, found, lo, hi));
    case Lookup(w) => LookupKeeps(s, w);
    case ListPVs(w) =>
      var me := s.workers[w];
      FillCovers(s.pvs, me.className, me.lo, me.hi);
      GotoKeeps(s, w, Built(Fill(s.pvs, me.className).SetRange(me.lo, me.hi)));
    case Install(w) => InstallKeeps(s, w);
    case Allocate(w) => AllocateKeeps(s, w);
    case CreatePV(w, name) => CreateKeeps(s, w, name);
    case ReleaseGid(w) => ReleaseKeeps(s, w);
    case RemovePV(name) => RemoveKeeps(s, name);
    case Abandon(w) => DropKeeps(s, w);
  }

  lemma {:induction false} RunKeeps(s: State, acts: seq<Action>)
    requires Inv(s) && CanRun(s, acts) && AbidingRun(s, acts)
    ensures Inv(Run(s, acts))
    decreases |acts|
  {
    if acts != [] {
      StepKeeps(s, acts[0]);
      RunKeeps(Apply(s, acts[0]), acts[1..]);
    }
  }

  /** The main result: started on volumes with distinct GIDs, the allocator never lets two live
      volumes of a class share one, whatever ranges the class has had, however many workers
      build the first table at once, and whichever volumes are removed meanwhile. */
  lemma EveryRunKeepsGidsApart(pvs: map<string, PV>, acts: seq<Action>)
    requires GidsApart(pvs)
    requires CanRun(State(pvs, map[], map[]), acts) && AbidingRun(State(pvs, map[], map[]), acts)
    ensures GidsApart(Run(State(pvs, map[], map[]), acts).pvs)
  {
    RunKeeps(State(pvs, map[], map[]), acts);
  }

  // ---- the range of an issued GID ----

  predicate HasRange(s: State, c: string, lo: int, hi: int) {
    c in s.tables && s.tables[c].min == lo && s.tables[c].max == hi
  }

  /** A worker of the class that has read another range for it sets that range. */
  predicate ChangesRange(s: State, a: Action, c: string, lo: int, hi: int)
    requires Enabled(s, a)
  {
    (a.Lookup? || a.Install?) && s.workers[a.w].className == c && (s.workers[a.w].lo != lo || s.workers[a.w].hi != hi)
  }

  lemma StepKeepsRange(s: State, a: Action, c: string, lo: int, hi: int)
    requires Enabled(s, a) && HasRange(s, c, lo, hi) && !ChangesRange(s, a, c, lo, hi)
    ensures HasRange(Apply(s, a), c, lo, hi)
  {
  }

  predicate RangeUndisturbed(s: State, acts: seq<Action>, c: string, lo: int, hi: int)
    requires CanRun(s, acts)
    decreases |acts|
  {
    acts == [] || (!ChangesRange(s, acts[0], c, lo, hi) && RangeUndisturbed(Apply(s, acts[0]), acts[1..], c, lo, hi))
  }

  lemma {:induction false} RunKeepsRange(s: State, acts: seq<Action>, c: string, lo: int, hi: int)
    requires CanRun(s, acts) && HasRange(s, c, lo, hi) && RangeUndisturbed(s, acts, c, lo, hi)
    ensures HasRange(Run(s, acts), c, lo, hi)
    decreases |acts|
  {
    if acts != [] {
      StepKeepsRange(s, acts[0], c, lo, hi);
      RunKeepsRange(Apply(s, acts[0]), acts[1..], c, lo, hi);
    }
  }

  /** Ranges are those of the classes, and a table about to be installed has its worker's. */
  ghost predicate RangesOk(s: State) {
    && (forall c :: c in s.tables ==> ClassRange(s.tables[c].min, s.tables[c].max))
    && (forall w :: w in s.workers ==> ClassRange(s.workers[w].lo, s.workers[w].hi))
    && (forall w :: w in s.workers && s.workers[w].stage.Built? ==>
          s.workers[w].stage.table.min == s.workers[w].lo && s.workers[w].stage.table.max == s.workers[w].hi)
  }

  lemma StepKeepsRanges(s: State, a: Action)
    requires RangesOk(s) && Enabled(s, a)
    ensures RangesOk(Apply(s, a))
  {
  }

  lemma {:induction false} RunKeepsRanges(s: State, acts: seq<Action>)
    requires RangesOk(s) && CanRun(s, acts)
    ensures RangesOk(Run(s, acts))
    decreases |acts|
  {
    if acts != [] {
      StepKeepsRanges(s, acts[0]);
      RunKeepsRanges(Apply(s, acts[0]), acts[1..]);
    }
  }

  /** A range of a class is too small for the free count to wrap. */
  lemma FullIff(t: Table)
    requires ClassRange(t.min, t.max)
    ensures t.Next().Err? <==> forall i :: t.InRange(i) ==> i in t.used
  {
    NextIff(t);
    FreeCountsUnused(t);
    if t.Next().Ok? {
      assert t.InRange(t.Next().value) && t.Next().value !in t.used;
    } else {
      assert t.Unused() == {};
      assert forall i :: t.InRange(i) && i !in t.used ==> i in t.Unused();
    }
  }

  /** In any run, a worker gets the class's table and sets its range; any steps follow in which
      nobody sets another range; then the GID that it is given is the least unused one of its own
      range, and it is given none only if every GID of the range is used. */
  lemma IssuedInRange(pvs: map<string, PV>, before: seq<Action>, get: Action, between: seq<Action>)
    requires CanRun(State(pvs, map[], map[]), before)
    requires var s := Run(State(pvs, map[], map[]), before);
             && Enabled(s, get) && (get.Lookup? || get.Install?) && At(Apply(s, get), get.w, Ready)
             && CanRun(Apply(s, get), between)
    requires var s := Run(State(pvs, map[], map[]), before); var me, t := s.workers[get.w], Run(Apply(s, get), between);
             && RangeUndisturbed(Apply(s, get), between, me.className, me.lo, me.hi)
             && Enabled(t, Allocate(get.w)) && t.workers[get.w].className == me.className
    ensures var s := Run(State(pvs, map[], map[]), before); var me, t := s.workers[get.w], Run(Apply(s, get), between);
            var table, after := t.tables[me.className], Apply(t, Allocate(get.w));
            if get.w in after.workers then
              && after.workers[get.w].stage.Issued?
              && me.lo <= after.workers[get.w].stage.gid <= me.hi
              && table.LeastUnused(after.workers[get.w].stage.gid)
            else forall i :: me.lo <= i <= me.hi ==> i in table.used
  {
    RunKeepsRanges(State(pvs, map[], map[]), before);
    var s := Run(State(pvs, map[], map[]), before);
    var me, t := s.workers[get.w], Run(Apply(s, get), between);
    assert HasRange(Apply(s, get), me.className, me.lo, me.hi);
    RunKeepsRange(Apply(s, get), between, me.className, me.lo, me.hi);
    NextIff(t.tables[me.className]);
    FullIff(t.tables[me.className]);
  }

  // ---- no GID is used without a reason ----

  /** A live volume of the class has the GID, or a worker that is about to create one. */
  ghost predicate Owned(s: State, c: string, g: int) {
    || (exists n :: n in s.pvs && s.pvs[n].Owns(c, g))
    || (exists v :: v in s.workers && HasIssued(s.workers[v], c, g))
  }

  ghost predicate UsedOwned(s: State) {
    forall c, g :: c in s.tables && g in s.tables[c].used ==> Owned(s, c, g)
  }

  /** Until a class has a table, its volumes are live, and a table that is about to be installed
      has the GIDs of these only. */
  ghost predicate LiveUntilTable(s: State) {
    forall n :: n in s.pvs && s.pvs[n].className !in s.tables ==> s.pvs[n].live
  }

  ghost predicate BuiltOwned(s: State) {
    forall w :: w in s.workers && s.workers[w].stage.Built? && s.workers[w].className !in s.tables ==>
      forall g :: g in s.workers[w].stage.table.used ==> Owned(s, s.workers[w].className, g)
  }

  ghost predicate Exact(s: State) {
    UsedOwned(s) && LiveUntilTable(s) && BuiltOwned(s)
  }

  /** Owners stay. */
  ghost predicate KeepsOwner(s: State, t: State, c: string, g: int) {
    && (forall n :: n in s.pvs && s.pvs[n].Owns(c, g) ==> n in t.pvs && t.pvs[n].Owns(c, g))
    && (forall v :: v in s.workers && HasIssued(s.workers[v], c, g) ==> v in t.workers && HasIssued(t.workers[v], c, g))
  }

  lemma StillOwned(s: State, t: State, c: string, g: int)
    requires Owned(s, c, g) && KeepsOwner(s, t, c, g)
    ensures Owned(t, c, g)
  {
    if n :| n in s.pvs && s.pvs[n].Owns(c, g) {
      assert n in t.pvs && t.pvs[n].Owns(c, g);
    } else {
      var v :| v in s.workers && HasIssued(s.workers[v], c, g);
      assert v in t.workers && HasIssued(t.workers[v], c, g);
    }
  }

  /** A step that takes no GID, builds no table and installs none. */
  lemma QuietStepExact(s: State, t: State)
    requires Exact(s) && t.tables.Keys == s.tables.Keys
    requires forall c, g :: c in t.tables && g in t.tables[c].used ==> g in s.tables[c].used && KeepsOwner(s, t, c, g)
    requires forall n :: n in t.pvs && t.pvs[n].className !in t.tables ==> n in s.pvs && t.pvs[n] == s.pvs[n]
    requires forall w :: w in t.workers && t.workers[w].stage.Built? ==> w in s.workers && t.workers[w] == s.workers[w]
    requires forall c, g :: c !in s.tables ==> KeepsOwner(s, t, c, g)
    ensures Exact(t)
  {
    forall c, g | c in t.tables && g in t.tables[c].used
      ensures Owned(t, c, g)
    {
      StillOwned(s, t, c, g);
    }
    forall w, g | w in t.workers && t.workers[w].stage.Built? && t.workers[w].className !in t.tables
                  && g in t.workers[w].stage.table.used
      ensures Owned(t, t.workers[w].className, g)
    {
      StillOwned(s, t, t.workers[w].className, g);
    }
  }

  lemma ListExact(s: State, w: nat)
    requires Exact(s) && Enabled(s, ListPVs(w))
    ensures Exact(Apply(s, ListPVs(w)))
  {
    var t, c := Apply(s, ListPVs(w)), s.workers[w].className;
    assert forall d, g :: KeepsOwner(s, t, d, g);
    forall d, g | d in t.tables && g in t.tables[d].used
      ensures Owned(t, d, g)
    {
      StillOwned(s, t, d, g);
    }
    forall v, g | v in t.workers && t.workers[v].stage.Built? && t.workers[v].className !in t.tables
                  && g in t.workers[v].stage.table.used
      ensures Owned(t, t.workers[v].className, g)
    {
      if v != w {
        StillOwned(s, t, t.workers[v].className, g);
      } else {
        var n :| n in s.pvs && s.pvs[n].className == c && s.pvs[n].gid.Some? && s.pvs[n].gid.value == g;
        assert t.pvs[n].Owns(c, g);
      }
    }
  }

  lemma InstallExact(s: State, w: nat)
    requires Exact(s) && Enabled(s, Install(w)) && s.workers[w].className !in s.tables
    ensures Exact(ApplyInstall(s, w))
  {
    var t, c := ApplyInstall(s, w), s.workers[w].className;
    assert forall d, g :: KeepsOwner(s, t, d, g);
    forall d, g | d in t.tables && g in t.tables[d].used
      ensures Owned(t, d, g)
    {
      StillOwned(s, t, d, g);
    }
    forall v, g | v in t.workers && t.workers[v].stage.Built? && t.workers[v].className !in t.tables
                  && g in t.workers[v].stage.table.used
      ensures Owned(t, t.workers[v].className, g)
    {
      StillOwned(s, t, t.workers[v].className, g);
    }
  }

  lemma AllocateExact(s: State, w: nat)
    requires Exact(s) && Enabled(s, Allocate(w))
    ensures Exact(ApplyAllocate(s, w))
  {
    var t, c := ApplyAllocate(s, w), s.workers[w].className;
    var next := s.tables[c].Next();
    assert forall d, g :: KeepsOwner(s, t, d, g);
    forall d, g | d in t.tables && g in t.tables[d].used
      ensures Owned(t, d, g)
    {
      if g in s.tables[d].used {
        StillOwned(s, t, d, g);
      } else {
        assert HasIssued(t.workers[w], c, g);
      }
    }
    forall v, g | v in t.workers && t.workers[v].stage.Built? && t.workers[v].className !in t.tables
                  && g in t.workers[v].stage.table.used
      ensures Owned(t, t.workers[v].className, g)
    {
      StillOwned(s, t, t.workers[v].className, g);
    }
  }

  /** The new volume takes over from the worker. */
  lemma CreateExact(s: State, w: nat, name: string)
    requires Exact(s) && HaveTables(s.workers, s.tables) && Enabled(s, CreatePV(w, name))
    ensures Exact(ApplyCreate(s, w, name))
  {
    var t, me := ApplyCreate(s, w, name), s.workers[w];
    assert t.pvs[name].Owns(me.className, me.stage.gid);
    forall d, g | d in t.tables && g in t.tables[d].used
      ensures Owned(t, d, g)
    {
      if d != me.className || g != me.stage.gid {
        StillOwned(s, t, d, g);
      }
    }
    assert me.HasTable();
    forall v, g | v in t.workers && t.workers[v].stage.Built? && t.workers[v].className !in t.tables
                  && g in t.workers[v].stage.table.used
      ensures Owned(t, t.workers[v].className, g)
    {
      StillOwned(s, t, t.workers[v].className, g);
    }
  }

  lemma ReleaseExact(s: State, w: nat)
    requires Exact(s) && ReleasesOwned(s.workers, s.pvs) && Enabled(s, ReleaseGid(w)) && OnlyClaimsIssue(s.workers)
    ensures Exact(ApplyRelease(s, w))
  {
    var t, me := ApplyRelease(s, w), s.workers[w];
    assert s.pvs[me.purpose.name].Owns(me.className, me.purpose.gid);
    assert forall d, g :: d != me.className || g != me.purpose.gid ==> KeepsOwner(s, t, d, g);
    QuietStepExact(s, t);
  }

  lemma LookupExact(s: State, w: nat)
    requires Exact(s) && w in s.workers && (s.workers[w].stage.Starting? || s.workers[w].stage.Built?)
    ensures Exact(ApplyLookup(s, w))
  {
    var t := ApplyLookup(s, w);
    assert forall c, g :: KeepsOwner(s, t, c, g);
    QuietStepExact(s, t);
  }

  lemma BeginExact(s: State, w: nat, me: Worker)
    requires Exact(s) && w !in s.workers && me.stage == Starting
    ensures Exact(s.(workers := s.workers[w := me]))
  {
    var t := s.(workers := s.workers[w := me]);
    assert forall c, g :: KeepsOwner(s, t, c, g);
    QuietStepExact(s, t);
  }

  lemma LeaveExact(s: State, a: Action)
    requires Exact(s) && Enabled(s, a) && NoneAbandoned(s, a) && (a.RemovePV? || a.Abandon?)
    ensures Exact(Apply(s, a))
  {
    var t := Apply(s, a);
    assert forall c, g :: KeepsOwner(s, t, c, g);
    QuietStepExact(s, t);
  }

  lemma TableStepExact(s: State, a: Action)
    requires Exact(s) && Enabled(s, a) && (a.Lookup? || a.ListPVs? || a.Install?)
    ensures Exact(Apply(s, a))
  {
    match a
    case Lookup(w) => LookupExact(s, w);
    case ListPVs(w) => ListExact(s, w);
    case Install(w) =>
      if s.workers[w].className in s.tables {
        LookupExact(s, w);
      } else {
        InstallExact(s, w);
      }
  }

  lemma StepKeepsExact(s: State, a: Action)
    requires Inv(s) && Exact(s) && Enabled(s, a) && NoneAbandoned(s, a)
    ensures Exact(Apply(s, a))
  {
    match a
    case BeginAllocate(w, c, lo, hi) => BeginExact(s, w, Worker(ForClaim, c, lo, hi, Starting));
    case BeginRelease(w, name, found, lo, hi) => BeginExact(s, w, Releaser(s.pvs[name], name, found, lo, hi));
    case Allocate(w) => AllocateExact(s, w);
    case CreatePV(w, name) => CreateExact(s, w, name);
    case ReleaseGid(w) => ReleaseExact(s, w);
    case RemovePV(_) => LeaveExact(s, a);
    case Abandon(_) => LeaveExact(s, a);
    case _ => TableStepExact(s, a);
  }

  ghost predicate NoneAbandonedRun(s: State, acts: seq<Action>)
    requires CanRun(s, acts)
    decreases |acts|
  {
    acts == [] || (NoneAbandoned(s, acts[0]) && NoneAbandonedRun(Apply(s, acts[0]), acts[1..]))
  }

  lemma {:induction false} RunKeepsExact(s: State, acts: seq<Action>)
    requires Inv(s) && Exact(s) && CanRun(s, acts) && AbidingRun(s, acts) && NoneAbandonedRun(s, acts)
    ensures Inv(Run(s, acts)) && Exact(Run(s, acts))
    decreases |acts|
  {
    if acts != [] {
      StepKeeps(s, acts[0]);
      StepKeepsExact(s, acts[0]);
      RunKeepsExact(Apply(s, acts[0]), acts[1..]);
    }
  }

  /** Started on live volumes with distinct GIDs, the tables know the GIDs in use and no others,
      as long as no issued GID is abandoned: no GID is shared, and none is lost. */
  lemma EveryRunUsesExactly(pvs: map<string, PV>, acts: seq<Action>, c: string, g: int)
    requires GidsApart(pvs) && forall n :: n in pvs ==> pvs[n].live
    requires CanRun(State(pvs, map[], map[]), acts) && AbidingRun(State(pvs, map[], map[]), acts)
    requires NoneAbandonedRun(State(pvs, map[], map[]), acts)
    ensures var s := Run(State(pvs, map[], map[]), acts);
            c in s.tables ==> (g in s.tables[c].used <==> Owned(s, c, g))
  {
    RunKeepsExact(State(pvs, map[], map[]), acts);
  }

  /** To abandon an issued GID is what loses it. */
  lemma AbandonExactIff(s: State, w: nat)
    requires Inv(s) && Exact(s) && w in s.workers
    ensures Exact(Apply(s, Abandon(w))) <==> NoneAbandoned(s, Abandon(w))
  {
    var me, t := s.workers[w], s.Drop(w);
    if me.stage.Issued? {
      assert me.HasTable() && me.stage.gid in t.tables[me.className].used;
      assert !Owned(t, me.className, me.stage.gid);
    } else {
      StepKeepsExact(s, Abandon(w));
    }
  }

  // ---- when a release is harmful ----

  /** What a release is for: the GID becomes free in the volume's own class. It does exactly when
      the StorageClass was read, since the worker uses the table of the class "" otherwise. */
  lemma ReleaseFreesOwnIff(s: State, w: nat, pv: PV, name: string, found: bool, lo: int, hi: int)
    requires Enabled(s, ReleaseGid(w)) && pv.gid.Some?
    requires s.workers[w] == Releaser(pv, name, found, lo, hi).(stage := Ready)
    requires pv.className in s.tables && pv.gid.value in s.tables[pv.className].used
    ensures pv.gid.value !in ApplyRelease(s, w).tables[pv.className].used <==> found || pv.className == ""
  {
  }

  /** A GID that is used in a class, and that nobody has, gets or gives back. */
  ghost predicate Orphan(s: State, c: string, g: int) {
    && c in s.tables && g in s.tables[c].used
    && (forall n :: n in s.pvs ==> !s.pvs[n].Owns(c, g))
    && (forall v :: v in s.workers && s.workers[v].className == c ==>
          && (s.workers[v].stage.Issued? ==> s.workers[v].stage.gid != g)
          && (s.workers[v].purpose.ForRelease? ==> s.workers[v].purpose.gid != g))
  }

  /** A removal that could not read the volume's class makes the volume's GID an orphan of it. */
  lemma FailedReadOrphans(s: State, w: nat, name: string, lo: int, hi: int)
    requires Enabled(s, ReleaseGid(w)) && name in s.pvs && s.pvs[name].live && s.pvs[name].gid.Some?
    requires s.workers[w] == Releaser(s.pvs[name], name, false, lo, hi).(stage := Ready)
    requires s.pvs[name].className != "" && s.pvs[name].className in s.tables
    requires Inv(s.Drop(w))
    requires forall v :: v in s.workers && v != w && s.workers[v].purpose.ForRelease? ==>
               s.workers[v].purpose.name != name
    ensures Orphan(ApplyRelease(s, w), s.pvs[name].className, s.pvs[name].gid.value)
  {
    var c, g, rest, t := s.pvs[name].className, s.pvs[name].gid.value, s.Drop(w), ApplyRelease(s, w);
    assert rest.pvs[name].Owns(c, g);
    forall n | n in t.pvs
      ensures !t.pvs[n].Owns(c, g)
    {
      assert n != name ==> t.pvs[n] == rest.pvs[n];
    }
    forall v | v in t.workers && t.workers[v].className == c
      ensures t.workers[v].stage.Issued? ==> t.workers[v].stage.gid != g
      ensures t.workers[v].purpose.ForRelease? ==> t.workers[v].purpose.gid != g
    {
      assert v in rest.workers && t.workers[v] == rest.workers[v];
    }
  }

  lemma StepKeepsOrphan(s: State, a: Action, c: string, g: int)
    requires Orphan(s, c, g) && c != "" && Enabled(s, a) && ReleasedOnce(s, a)
    ensures Orphan(Apply(s, a), c, g)
  {
    match a
    case BeginRelease(_, name, _, _, _) =>
      assert !s.pvs[name].Owns(c, g);
    case Allocate(w) =>
      NextIff(s.tables[s.workers[w].className]);
    case _ =>
  }

  ghost predicate ReleasedOnceRun(s: State, acts: seq<Action>)
    requires CanRun(s, acts)
    decreases |acts|
  {
    acts == [] || (ReleasedOnce(s, acts[0]) && ReleasedOnceRun(Apply(s, acts[0]), acts[1..]))
  }

  /** It stays one while the process runs: whatever happens, no volume of the class gets the GID
      again. */
  lemma {:induction false} OrphanStays(s: State, acts: seq<Action>, c: string, g: int)
    requires Orphan(s, c, g) && c != "" && CanRun(s, acts) && ReleasedOnceRun(s, acts)
    ensures Orphan(Run(s, acts), c, g)
    decreases |acts|
  {
    if acts != [] {
      StepKeepsOrphan(s, acts[0], c, g);
      OrphanStays(Apply(s, acts[0]), acts[1..], c, g);
    }
  }

  /** A run that releases each volume's GID once and ends in `t`. */
  ghost predicate Leads(s: State, acts: seq<Action>, t: State) {
    CanRun(s, acts) && ReleasedOnceRun(s, acts) && Run(s, acts) == t
  }

  lemma {:induction false} Then(s: State, acts: seq<Action>, t: State, a: Action)
    requires Leads(s, acts, t) && Enabled(t, a) && ReleasedOnce(t, a)
    ensures Leads(s, acts + [a], Apply(t, a))
    decreases |acts|
  {
    if acts == [] {
      assert [a][1..] == [] && acts + [a] == [a];
    } else {
      assert (acts + [a])[1..] == acts[1..] + [a];
      Then(Apply(s, acts[0]), acts[1..], t, a);
    }
  }

  /** A worker comes to have a table of its own making. */
  lemma FirstTable(s: State, acts: seq<Action>, t: State, w: nat) returns (more: seq<Action>)
    requires Leads(s, acts, t) && At(t, w, Starting) && t.workers[w].className !in t.tables
    ensures var me := t.workers[w];
            var table := Fill(t.pvs, me.className).SetRange(me.lo, me.hi);
            Leads(s, more, t.(tables := t.tables[me.className := table]).Goto(w, Ready))
  {
    Then(s, acts, t, Lookup(w));
    var t1 := Apply(t, Lookup(w));
    Then(s, acts + [Lookup(w)], t1, ListPVs(w));
    var t2 := Apply(t1, ListPVs(w));
    Then(s, acts + [Lookup(w)] + [ListPVs(w)], t2, Install(w));
    more := acts + [Lookup(w)] + [ListPVs(w)] + [Install(w)];
    assert t1.workers[w] == t.workers[w].(stage := Missing);
    assert Apply(t2, Install(w)).workers == t.Goto(w, Ready).workers;
  }

  const FRESH := State(map[], map[], map[])

  /** The only GID of a class goes to a volume. */
  lemma OneVolume(c: string, g: nat, name: string) returns (acts: seq<Action>)
    requires ClassRange(g, g)
    ensures Leads(FRESH, acts, State(map[name := PV(c, Some(g), true)], map[c := Table(g, g, {g})], map[]))
  {
    var me := Worker(ForClaim, c, g, g, Starting);
    Then(FRESH, [], FRESH, BeginAllocate(0, c, g, g));
    acts := FirstTable(FRESH, [] + [BeginAllocate(0, c, g, g)], State(map[], map[], map[0 := me]), 0);
    var empty := Table(g, g, {});
    assert Fill(map[], c).SetRange(g, g) == empty;
    assert empty.UsedInRange() == {} && empty.FirstFrom(g) == Some(g) && empty.Take(g) == Table(g, g, {g});
    var t := State(map[], map[c := empty], map[0 := me.(stage := Ready)]);
    Then(FRESH, acts, t, Allocate(0));
    var t2 := State(map[], map[c := Table(g, g, {g})], map[0 := me.(stage := Issued(g))]);
    assert Apply(t, Allocate(0)) == t2;
    Then(FRESH, acts + [Allocate(0)], t2, CreatePV(0, name));
    acts := acts + [Allocate(0)] + [CreatePV(0, name)];
    assert Apply(t2, CreatePV(0, name)).workers == map[];
  }

  /** From a fresh start, one removal whose StorageClass read fails: no volume is left, and the
      class is full. */
  lemma FailedReadLosesGid(c: string, g: nat, name: string, lo: int, hi: int) returns (acts: seq<Action>, t: State)
    requires c != "" && ClassRange(g, g) && ClassRange(lo, hi)
    ensures Leads(FRESH, acts, t) && t.pvs == map[] && t.workers == map[]
    ensures c in t.tables && t.tables[c] == Table(g, g, {g}) && t.tables[c].Next() == Err(ErrRangeFull)
  {
    acts := OneVolume(c, g, name);
    var pv, full := PV(c, Some(g), true), Table(g, g, {g});
    var me := Releaser(pv, name, false, lo, hi);
    var t0 := State(map[name := pv], map[c := full], map[]);
    Then(FRESH, acts, t0, BeginRelease(0, name, false, lo, hi));
    var t1 := t0.(workers := map[0 := me]);
    acts := FirstTable(FRESH, acts + [BeginRelease(0, name, false, lo, hi)], t1, 0);
    var other := Fill(t1.pvs, "").SetRange(lo, hi);
    var t2 := State(t1.pvs, t1.tables["" := other], map[0 := me.(stage := Ready)]);
    Then(FRESH, acts, t2, ReleaseGid(0));
    var t3 := Apply(t2, ReleaseGid(0));
    Then(FRESH, acts + [ReleaseGid(0)], t3, RemovePV(name));
    acts, t := acts + [ReleaseGid(0)] + [RemovePV(name)], Apply(t3, RemovePV(name));
    assert full.UsedInRange() == {g} && full.Free() == 0;
  }

  /** Somebody other than the volume being removed has the GID in this class. */
  ghost predicate OthersHave(s: State, w: nat)
    requires w in s.workers && s.workers[w].purpose.ForRelease?
  {
    var c, p := s.workers[w].className, s.workers[w].purpose;
    || (exists n :: n in s.pvs && n != p.name && s.pvs[n].Owns(c, p.gid))
    || (exists v :: v in s.workers && HasIssued(s.workers[v], c, p.gid))
  }

  /** What a table owes its class: it knows the GIDs that are taken. */
  ghost predicate TablesKnow(s: State) {
    LiveUsed(s.pvs, s.tables) && IssuedUsed(s.workers, s.tables)
  }

  /** A release, of whatever class and however often repeated, leaves the tables right exactly
      when nobody else has that GID in the class it is released in. A failed read of the
      StorageClass makes that class "", a retried deletion makes the volume's successor the
      other owner. */
  lemma ReleaseHarmlessIff(s: State, w: nat)
    requires TablesKnow(s) && Enabled(s, ReleaseGid(w))
    ensures TablesKnow(ApplyRelease(s, w)) <==> !OthersHave(s, w)
  {
    var c, p := s.workers[w].className, s.workers[w].purpose;
    var t := ApplyRelease(s, w);
    if n :| n in s.pvs && n != p.name && s.pvs[n].Owns(c, p.gid) {
      assert t.pvs[n] == s.pvs[n] && p.gid !in t.tables[c].used;
    } else if v :| v in s.workers && HasIssued(s.workers[v], c, p.gid) {
      assert t.workers[v] == s.workers[v] && p.gid !in t.tables[c].used;
    }
  }

  /** A table that has forgotten a live volume's GID hands it out again. */
  lemma ForgottenGidIsShared(s: State, w: nat, owner: string, name: string)
    requires Enabled(s, Allocate(w)) && name !in s.pvs && owner in s.pvs
    requires var c := s.workers[w].className;
             s.pvs[owner].live && s.pvs[owner].className == c && s.pvs[owner].gid.Some?
             && s.tables[c].Next() == Ok(s.pvs[owner].gid.value)
    ensures Enabled(Apply(s, Allocate(w)), CreatePV(w, name))
    ensures !GidsApart(Apply(Apply(s, Allocate(w)), CreatePV(w, name)).pvs)
  {
    var t := Apply(Apply(s, Allocate(w)), CreatePV(w, name));
    assert t.pvs[owner] == s.pvs[owner] && t.pvs[name] == PV(s.pvs[owner].className, s.pvs[owner].gid, true);
  }
}
