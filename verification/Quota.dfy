/** The XFS quotaer: project ids in a map and, redundantly, in the projects file. */
module Quota {
  import opened Common
  import opened Text
  import opened BlockFile
  import opened Projects

  // ---- the id scan ----

  const MAX_UINT16: nat := 0xFFFF

  /** The loop of generateID: still scanning, or past the loop with this id. */
  datatype Scan = Scanning(id: uint16) | Stopped(id: uint16)

  /** One iteration: the guard `id <= MaxUint16`, the break, the wrapping increment. */
  function ScanStep(ids: map<uint16, bool>, s: Scan): Scan {
    if s.Stopped? then s
    else if s.id > MAX_UINT16 || s.id !in ids then Stopped(s.id)
    else Scanning((s.id + 1) % 0x1_0000)
  }

  function ScanAfter(ids: map<uint16, bool>, k: nat): Scan {
    if k == 0 then Scanning(1) else ScanStep(ids, ScanAfter(ids, k - 1))
  }

  lemma {:induction false} ScanAt(ids: map<uint16, bool>, k: nat)
    ensures var s := ScanAfter(ids, k); if s.Stopped? then s.id !in ids else s.id == (1 + k) % 0x1_0000
  {
    if k > 0 {
      ScanAt(ids, k - 1);
    }
  }

  lemma ScanReaches(ids: map<uint16, bool>, id: uint16) returns (k: nat)
    requires id !in ids
    ensures ScanAfter(ids, k).Stopped?
  {
    k := if id == 0 then 0xFFFF else id - 1;
    ScanAt(ids, k);
    k := k + 1;
  }

  predicate Ends(ids: map<uint16, bool>, k: nat) {
    ScanAfter(ids, k).Stopped?
  }

  /** The guard never fails, so the loop ends iff some id is unused, and then with one. */
  lemma ScanEndsIff(ids: map<uint16, bool>)
    ensures (exists k :: Ends(ids, k)) <==> (exists id: uint16 :: id !in ids)
    ensures forall k :: Ends(ids, k) ==> ScanAfter(ids, k).id !in ids
  {
    forall k: nat
      ensures Ends(ids, k) ==> ScanAfter(ids, k).id !in ids
    {
      ScanAt(ids, k);
    }
    if id: uint16 :| id !in ids {
      var k := ScanReaches(ids, id);
      assert Ends(ids, k);
    }
  }

  /** The least unused id of 1..65535, else 0. */
  ghost predicate IsNextId(ids: map<uint16, bool>, id: uint16) {
    && id !in ids
    && (id != 0 ==> forall j: uint16 :: 1 <= j < id ==> j in ids)
    && (id == 0 ==> forall j: uint16 :: 1 <= j ==> j in ids)
  }

  method NextId(ids: map<uint16, bool>) returns (id: uint16)
    requires exists free: uint16 :: free !in ids
    ensures IsNextId(ids, id) && exists k :: ScanAfter(ids, k) == Stopped(id)
  {
    ghost var k: nat := 0;
    id := 1;
    while id in ids
      invariant ScanAfter(ids, k) == Scanning(id)
      invariant id != 0 ==> forall j: uint16 :: 1 <= j < id ==> j in ids
      invariant id == 0 ==> forall j: uint16 :: 1 <= j ==> j in ids
      decreases if id == 0 then 0 else 0x1_0000 - id
    {
      id := (id + 1) % 0x1_0000;
      k := k + 1;
    }
    assert ScanAfter(ids, k + 1) == Stopped(id);
  }

  // ---- map and file ----

  /** Map and file agree: the file holds exactly the blocks of `live`, in order, and the map
      exactly their ids. */
  ghost predicate Agree(ids: map<uint16, bool>, file: string, live: seq<Project>) {
    && ProjectsOk(live)
    && file == FileOf(live)
    && ids.Keys == Ids(live)
    && (forall id :: id in ids ==> ids[id])
  }

  /** Agreement is with one list only, and it is exactly what a restart would load. */
  lemma AgreementIsUnique(ids: map<uint16, bool>, file: string, live: seq<Project>, other: seq<Project>)
    requires Agree(ids, file, live)
    ensures IdsIn(file) == ids.Keys
    ensures Agree(ids, file, other) ==> other == live
  {
    IdsOfFile(live);
    if Agree(ids, file, other) {
      FileDeterminesProjects(live, other);
    }
  }

  /** No list of projects explains map and file. */
  ghost predicate Inconsistent(ids: map<uint16, bool>, file: string) {
    !exists live :: Agree(ids, file, live)
  }

  lemma Stale(ids: map<uint16, bool>, file: string, live: seq<Project>)
    requires ProjectsOk(live) && file == FileOf(live) && ids.Keys != Ids(live)
    ensures Inconsistent(ids, file)
  {
    forall l
      ensures !Agree(ids, file, l)
    {
      if Agree(ids, file, l) {
        FileDeterminesProjects(live, l);
      }
    }
  }

  lemma AddAgrees(ids: map<uint16, bool>, file: string, live: seq<Project>, p: Project)
    requires Agree(ids, file, live) && FieldsOk(p.directory, p.bhard) && p.id !in ids
    ensures Agree(ids[p.id := true], file + Block(Line(p)), live + [p])
    ensures RemoveAll(file + Block(Line(p)), Block(Line(p))) == file && Without(live + [p], p) == live
  {
    AddProjectToFile(live, p);
    assert p !in live by {
      assert forall q :: q in live ==> q.id in Ids(live);
    }
    WithoutLast(live, p);
  }

  /** The start of a block that was never finished belongs to no list. */
  lemma TailInconsistent(ids: map<uint16, bool>, ps: seq<Project>, tail: string)
    requires ProjectsOk(ps) && Tail(tail) && tail != ""
    ensures Inconsistent(ids, FileOf(ps) + tail)
  {
    forall l
      ensures !Agree(ids, FileOf(ps) + tail, l)
    {
      if Agree(ids, FileOf(ps) + tail, l) {
        LinesOk(ps);
        LinesOk(l);
        RenderWithTail(Lines(ps), tail, Lines(l));
      }
    }
  }

  /** A failed append is harmless exactly when nothing was written. */
  lemma FailedAppendIff(ids: map<uint16, bool>, file: string, live: seq<Project>, p: Project, part: nat)
    requires Agree(ids, file, live) && FieldsOk(p.directory, p.bhard) && p.id !in ids
    ensures var after := AfterAppend(file, Block(Line(p)), AppendFailed(part));
            (Agree(ids, after, live) <==> part == 0) && (Inconsistent(ids, after) <==> part > 0)
  {
    var block := Block(Line(p));
    LineIsOk(p);
    if part == 0 {
      assert file + block[..0] == file;
      assert Agree(ids, file + block[..0], live);
    } else if part < |block| {
      PartIsTail(Line(p), part);
      TailInconsistent(ids, live, block[..part]);
    } else {
      AddProjectToFile(live, p);
      assert p in live + [p] && p.id in Ids(live + [p]);
      Stale(ids, file + block, live + [p]);
    }
  }

  /** A file that was cut off has lost a project that the map has. */
  lemma CutInconsistent(ids: map<uint16, bool>, ps: seq<Project>, n: nat)
    requires ProjectsOk(ps) && ids.Keys == Ids(ps) && n < |FileOf(ps)|
    ensures Inconsistent(ids, FileOf(ps)[..n])
  {
    forall l
      ensures !Agree(ids, FileOf(ps)[..n], l)
    {
      if Agree(ids, FileOf(ps)[..n], l) {
        ShorterFile(l, ps);
        assert |l| == |ps| ==> l == ps;
        PrefixIds(l, ps);
      }
    }
  }

  /** Removal of any project, live or not. */
  ghost predicate RemovesCleanly(ids: map<uint16, bool>, file: string, live: seq<Project>, p: Project,
                                 rewrite: Rewrite) {
    && (p in live || p.id !in ids)
    && AfterRewrite(file, Block(Line(p)), rewrite) == RemoveAll(file, Block(Line(p)))
  }

  /** The whole new text has been written. */
  lemma NewTextIff(ids: map<uint16, bool>, live: seq<Project>, p: Project)
    requires Agree(ids, FileOf(live), live) && FieldsOk(p.directory, p.bhard)
    ensures var rest := Without(live, p);
            && (Agree(ids - {p.id}, FileOf(rest), rest) <==> p in live || p.id !in ids)
            && (Inconsistent(ids - {p.id}, FileOf(rest)) <==> !(p in live || p.id !in ids))
  {
    var rest := Without(live, p);
    RemoveProjectFromFile(live, p);
    if p in live || p.id !in ids {
      assert Agree(ids - {p.id}, FileOf(rest), rest);
    } else {
      Stale(ids - {p.id}, FileOf(rest), rest);
    }
  }

  /** The file has kept the old text, or only a part of the new one. */
  lemma NotNewText(ids: map<uint16, bool>, live: seq<Project>, p: Project, rewrite: Rewrite)
    requires Agree(ids, FileOf(live), live) && FieldsOk(p.directory, p.bhard)
    requires AfterRewrite(FileOf(live), Block(Line(p)), rewrite) != FileOf(Without(live, p))
    requires p in live || p.id !in ids
    ensures Inconsistent(ids - {p.id}, AfterRewrite(FileOf(live), Block(Line(p)), rewrite))
  {
    var rest := Without(live, p);
    RemoveProjectFromFile(live, p);
    assert p in live ==> p.id in Ids(live);
    if rewrite.Untouched? {
      Stale(ids - {p.id}, FileOf(live), live);
    } else {
      CutInconsistent(ids - {p.id}, rest, rewrite.part);
    }
  }

  /** Map and file agree afterwards exactly when the id was the project's own, or nobody's, and
      the file ends up with the new text. A removal that is repeated after the id has been given
      out again takes it from its new owner. */
  lemma RemoveAgreesIff(ids: map<uint16, bool>, file: string, live: seq<Project>, p: Project, rewrite: Rewrite)
    requires Agree(ids, file, live) && FieldsOk(p.directory, p.bhard)
    ensures var after, text := AfterRewrite(file, Block(Line(p)), rewrite), RemoveAll(file, Block(Line(p)));
            && text == FileOf(Without(live, p))
            && (Agree(ids - {p.id}, after, Without(live, p)) <==> RemovesCleanly(ids, file, live, p, rewrite))
            && (p in live || p.id !in ids || after == text ==>
                  (Inconsistent(ids - {p.id}, after) <==> !RemovesCleanly(ids, file, live, p, rewrite)))
  {
    RemoveProjectFromFile(live, p);
    NewTextIff(ids, live, p);
    if AfterRewrite(file, Block(Line(p)), rewrite) != FileOf(Without(live, p)) && (p in live || p.id !in ids) {
      NotNewText(ids, live, p, rewrite);
    }
  }

  /** A second removal of the same project, whose id is another project's by now. */
  lemma SecondRemovalIff(ids: map<uint16, bool>, file: string, live: seq<Project>, p: Project)
    requires Agree(ids, file, live) && FieldsOk(p.directory, p.bhard) && Line(p) !in Lines(live)
    ensures RemoveAll(file, Block(Line(p))) == file
    ensures (exists l :: Agree(ids - {p.id}, file, l)) <==> p.id !in ids
  {
    forall i | 0 <= i < |live|
      ensures live[i] != p
    {
      assert Lines(live)[i] == Line(live[i]);
    }
    RemoveProjectFromFile(live, p);
    RemoveAgreesIff(ids, file, live, p, Rewritten);
  }

  datatype QuotaError = WriteFailed | CommandFailed | NotAdded

  datatype Added = Added(block: string, id: uint16)

  /** What the environment answers during one createQuota: the append, the two xfs_quota
      commands, and the rewrite of the file that a rollback needs. */
  datatype Outcomes = Outcomes(append: Append, project: bool, limit: bool, rewrite: Rewrite)

  class XfsQuotaer {
    var projectIDs: map<uint16, bool>
    var file: string
    ghost var live: seq<Project>  // in the order they were added

    ghost predicate Valid()
      reads this
    {
      Agree(projectIDs, file, live)
    }

    /** A process that starts on an existing projects file. */
    constructor (file: string)
      ensures this.file == file
      ensures projectIDs.Keys == IdsIn(file) && forall id :: id in projectIDs ==> projectIDs[id]
      ensures forall ps :: ProjectsOk(ps) && file == FileOf(ps) ==> Valid() && live == ps
    {
      var ids := LoadIds(file);
      this.file := file;
      projectIDs := ids;
      new;
      if ps :| ProjectsOk(ps) && file == FileOf(ps) {
        live := ps;
        IdsOfFile(ps);
        forall other | ProjectsOk(other) && file == FileOf(other)
          ensures other == ps
        {
          FileDeterminesProjects(ps, other);
        }
      }
    }

    static method LoadIds(text: string) returns (ids: map<uint16, bool>)
      ensures ids.Keys == IdsIn(text) && forall id :: id in ids ==> ids[id]
    {
      ids := map[];
      var rest, more := text, true;
      while more
        invariant ids.Keys + (if more then IdsIn(rest) else {}) == IdsIn(text)
        invariant forall id :: id in ids ==> ids[id]
        decreases more, |rest|
      {
        var k := IndexOf(rest, '\n');
        var line := rest[..k];
        var d := LeadingDigits(line);
        if d > 0 && ":/" <= line[d..] && |line| > d + 2 && Value(line[..d]) < 0x1_0000 {
          ids := ids[Value(line[..d]) := true];
        }
        if k < |rest| {
          rest := rest[k + 1..];
        } else {
          more := false;
        }
      }
    }

    /** A failed add leaves the map as it was. It leaves the file as it was exactly when nothing
        of the block was written, or all of the old text was written back; otherwise no list of
        projects explains the state. */
    method AddProject(directory: string, bhard: string, env: Outcomes) returns (r: Result<Added, QuotaError>)
      requires FieldsOk(directory, bhard)
      requires exists free: uint16 :: free !in projectIDs
      modifies this
      ensures r.Ok? <==> env.append.Appended? && env.project
      ensures r.Ok? ==> IsNextId(old(projectIDs), r.value.id) && projectIDs == old(projectIDs)[r.value.id := true]
      ensures r.Ok? ==> r.value.block == Block(Line(Project(r.value.id, directory, bhard)))
      ensures r.Ok? ==> live == old(live) + [Project(r.value.id, directory, bhard)] && file == old(file) + r.value.block
      ensures r.Err? ==> r.error != NotAdded && live == old(live) && projectIDs == old(projectIDs)
      ensures old(Valid()) ==> (Valid() <==> r.Ok? || LeavesNoTrace(old(file), env.append, env.rewrite))
      ensures old(Valid()) ==> (Inconsistent(projectIDs, file) <==> !Valid())
    {
      var id := NextId(projectIDs);
      ghost var p := Project(id, directory, bhard);
      var block := Block(Line(Project(id, directory, bhard)));
      if Valid() {
        AddAgrees(projectIDs, file, live, p);
        FailedAdd(projectIDs, file, live, p, env.append, env.rewrite);
      }
      MapRestored(projectIDs, id);
      projectIDs := projectIDs[id := true];
      file := AfterAppend(file, block, env.append);
      if env.append.AppendFailed? {
        projectIDs := projectIDs - {id};
        return Err(WriteFailed);
      }
      if !env.project {
        projectIDs := projectIDs - {id};
        file := AfterRewrite(file, block, env.rewrite);
        return Err(CommandFailed);
      }
      live := live + [p];
      return Ok(Added(block, id));
    }

    /** Called with the block and the id of a project. If map and file agree, they still do
        exactly when the id was that project's own, or nobody's, and the file has been rewritten
        as a whole. */
    method RemoveProject(block: string, id: uint16, rewrite: Rewrite, ghost p: Project)
      returns (r: Result<(), QuotaError>)
      requires FieldsOk(p.directory, p.bhard) && block == Block(Line(p)) && id == p.id
      modifies this
      ensures projectIDs == old(projectIDs) - {id} && live == Without(old(live), p)
      ensures file == AfterRewrite(old(file), block, rewrite)
      ensures r == if rewrite.Rewritten? then Ok(()) else Err(WriteFailed)
      ensures old(Valid()) ==> (Valid() <==> old(RemovesCleanly(projectIDs, file, live, p, rewrite)))
      ensures old(Valid()) && (p in old(live) || id !in old(projectIDs) || file == RemoveAll(old(file), block)) ==>
                (Inconsistent(projectIDs, file) <==> !Valid())
    {
      if Valid() {
        RemoveAgreesIff(projectIDs, file, live, p, rewrite);
      }
      live := Without(live, p);
      projectIDs := projectIDs - {id};
      file := AfterRewrite(file, block, rewrite);
      r := if rewrite.Rewritten? then Ok(()) else Err(WriteFailed);
    }

    method SetQuota(id: uint16, commandOk: bool) returns (r: Result<(), QuotaError>)
      ensures r == if id !in projectIDs || !projectIDs[id] then Err(NotAdded)
                   else if commandOk then Ok(()) else Err(CommandFailed)
    {
      if id !in projectIDs || !projectIDs[id] {
        return Err(NotAdded);
      }
      if !commandOk {
        return Err(CommandFailed);
      }
      return Ok(());
    }

    /** All or nothing: a project with its limit set, or map and file as before; the exception is
        the same as for AddProject. */
    method CreateQuota(directory: string, limit: string, env: Outcomes) returns (r: Result<Added, QuotaError>)
      requires FieldsOk(directory, limit)
      requires exists free: uint16 :: free !in projectIDs
      modifies this
      ensures r.Ok? <==> env.append.Appended? && env.project && env.limit
      ensures r.Ok? ==> IsNextId(old(projectIDs), r.value.id) && projectIDs == old(projectIDs)[r.value.id := true]
      ensures r.Ok? ==> r.value.block == Block(Line(Project(r.value.id, directory, limit)))
      ensures r.Ok? ==> live == old(live) + [Project(r.value.id, directory, limit)] && file == old(file) + r.value.block
      ensures r.Err? ==> r.error != NotAdded && projectIDs == old(projectIDs)
      ensures old(Valid()) ==> live == if r.Ok? then old(live) + [Project(r.value.id, directory, limit)] else old(live)
      ensures old(Valid()) ==> (Valid() <==> r.Ok? || LeavesNoTrace(old(file), env.append, env.rewrite))
      ensures old(Valid()) ==> (Inconsistent(projectIDs, file) <==> !Valid())
    {
      r := AddProject(directory, limit, env);
      if r.Ok? {
        var added := r.value;
        ghost var p := Project(added.id, directory, limit);
        var quota := SetQuota(added.id, env.limit);
        if quota.Err? {
          if old(Valid()) {
            AddAgrees(old(projectIDs), old(file), old(live), p);
            FailedAdd(old(projectIDs), old(file), old(live), p, env.append, env.rewrite);
          }
          MapRestored(old(projectIDs), added.id);
          var removed := RemoveProject(added.block, added.id, env.rewrite, p);
          r := Err(quota.error);
        }
      }
    }

    method Matches(ghost all: seq<Project>) returns (matches: seq<Match>)
      requires Valid() && all == live
      ensures AllMatched(matches, all)
    {
      MatchesOfFile(all);
      matches := MatchesIn(file);
    }

    /** Restoring is under way: of `all`, the ids in `dropped` have left the map. */
    ghost predicate Restoring(all: seq<Project>, dropped: set<uint16>)
      reads this
    {
      && ProjectsOk(all) && live == Kept(all, dropped)
      && projectIDs.Keys == Ids(live) && (forall id :: id in projectIDs ==> projectIDs[id])
    }

    /** One match of restoreQuotas, for the project `p` of `all`. The answer of RemoveProject is
        ignored. */
    method RestoreOne(m: Match, here: bool, commandOk: bool, rewrite: Rewrite,
                      ghost all: seq<Project>, ghost p: Project, ghost dropped: set<uint16>)
      returns (r: Result<(), QuotaError>)
      requires Restoring(all, dropped) && p in all && p.id !in dropped && Matched(m, p)
      modifies this
      ensures Restoring(all, if here then dropped else dropped + {p.id})
      ensures file == if here then old(file) else AfterRewrite(old(file), Block(Line(p)), rewrite)
      ensures r == if here && !commandOk then Err(CommandFailed) else Ok(())
    {
      var id := ParseId(m.digits);
      KeptHas(all, dropped, p);
      if !here {
        KeptOk(all, dropped);
        KeptDrops(all, dropped, p);
        IdsWithout(Kept(all, dropped), p);
        var removed := RemoveProject(m.block, id, rewrite, p);
        r := Ok(());
      } else {
        r := SetQuota(id, commandOk);
      }
    }

    /** The first `done` projects have been handled. */
    ghost predicate RestoredTo(file0: string, all: seq<Project>, done: nat, present: set<string>,
                               rewrites: uint16 -> Rewrite)
      requires done <= |all|
      reads this
    {
      && Restoring(all, Absent(all[..done], present))
      && file == FileAfter(file0, all[..done], present, rewrites)
    }

    method RestoreNext(m: Match, present: set<string>, commandOk: uint16 -> bool, rewrites: uint16 -> Rewrite,
                       ghost file0: string, ghost all: seq<Project>, ghost i: nat)
      returns (r: Result<(), QuotaError>)
      requires i < |all| && Matched(m, all[i]) && RestoredTo(file0, all, i, present, rewrites)
      requires NoneRefused(all[..i], present, commandOk)
      modifies this
      ensures RestoredTo(file0, all, if r.Ok? then i + 1 else i, present, rewrites)
      ensures r == if Refused(all[i], present, commandOk) then Err(CommandFailed) else Ok(())
      ensures r.Ok? ==> NoneRefused(all[..i + 1], present, commandOk)
    {
      var id := ParseId(m.digits);
      HandledNext(file0, all, i, present, rewrites);
      NextNotRefused(all, i, present, commandOk);
      r := RestoreOne(m, m.directory in present, commandOk(id), rewrites(id), all, all[i], Absent(all[..i], present));
    }

    /** Restart on the file left by a previous process: `present` are the directories that
        still exist. It handles all projects, or the first `done` and one for which the command
        fails; it never ends because an id "has not been added". The map is left with exactly
        the projects whose directory is still there. The file agrees with it iff the rewrites,
        whole or failed, end in the file of these projects; otherwise no list of projects
        explains the two. */
    method RestoreQuotas(present: set<string>, commandOk: uint16 -> bool, rewrites: uint16 -> Rewrite)
      returns (r: Result<(), QuotaError>, ghost done: nat)
      requires Valid()
      modifies this
      ensures r == if done == |old(live)| then Ok(()) else Err(CommandFailed)
      ensures done <= |old(live)| && NoneRefused(old(live)[..done], present, commandOk)
      ensures done < |old(live)| ==> Refused(old(live)[done], present, commandOk)
      ensures live == Kept(old(live), Absent(old(live)[..done], present)) && projectIDs.Keys == Ids(live)
      ensures file == FileAfter(old(file), old(live)[..done], present, rewrites)
      ensures Valid() <==> FileAfter(old(file), old(live)[..done], present, rewrites) == FileOf(live)
      ensures Inconsistent(projectIDs, file) <==> !Valid()
    {
      ghost var file0, all := file, live;
      var matches := Matches(all);
      KeptAll(all);
      r, done := RestoreAll(matches, present, commandOk, rewrites, file0, all);
      KeptOk(all, Absent(all[..done], present));
      RestoredIff(projectIDs, file0, all, all[..done], present, rewrites);
    }

    method RestoreAll(matches: seq<Match>, present: set<string>, commandOk: uint16 -> bool, rewrites: uint16 -> Rewrite,
                      ghost file0: string, ghost all: seq<Project>)
      returns (r: Result<(), QuotaError>, ghost done: nat)
      requires Restoring(all, {}) && file == file0 && AllMatched(matches, all)
      modifies this
      ensures r == if done == |all| then Ok(()) else Err(CommandFailed)
      ensures done <= |all| && NoneRefused(all[..done], present, commandOk)
      ensures done < |all| ==> Refused(all[done], present, commandOk)
      ensures RestoredTo(file0, all, done, present, rewrites)
    {
      var i := 0;
      NoneHandled(file0, all, present, rewrites);
      while i < |matches|
        invariant i <= |matches| && RestoredTo(file0, all, i, present, rewrites)
        invariant NoneRefused(all[..i], present, commandOk)
      {
        assert Matched(matches[i], all[i]);
        r := RestoreNext(matches[i], present, commandOk, rewrites, file0, all, i);
        if r.Err? {
          return r, i;
        }
        i := i + 1;
      }
      return Ok(()), i;
    }
  }

  /** The limit of this project is to be set again and the command for it fails. */
  ghost predicate Refused(p: Project, present: set<string>, commandOk: uint16 -> bool) {
    p.directory in present && !commandOk(p.id)
  }

  ghost predicate NoneRefused(ps: seq<Project>, present: set<string>, commandOk: uint16 -> bool) {
    forall p :: p in ps ==> !Refused(p, present, commandOk)
  }

  lemma NextNotRefused(all: seq<Project>, i: nat, present: set<string>, commandOk: uint16 -> bool)
    requires i < |all| && NoneRefused(all[..i], present, commandOk)
    ensures NoneRefused(all[..i + 1], present, commandOk) <==> !Refused(all[i], present, commandOk)
  {
    assert all[..i + 1] == all[..i] + [all[i]];
    assert forall p :: p in all[..i + 1] <==> p in all[..i] || p == all[i];
  }

  /** The ids of the projects whose directory is gone. */
  ghost function Absent(ps: seq<Project>, present: set<string>): set<uint16> {
    set p | p in ps && p.directory !in present :: p.id
  }

  /** The file after these projects have been handled, each with the answer to its rewrite. */
  ghost function FileAfter(file: string, ps: seq<Project>, present: set<string>, rewrites: uint16 -> Rewrite): string {
    if ps == [] then file
    else
      var before, last := FileAfter(file, ps[..|ps| - 1], present, rewrites), ps[|ps| - 1];
      if last.directory in present then before else AfterRewrite(before, Block(Line(last)), rewrites(last.id))
  }

  /** The projects without those whose ids are dropped, in order. */
  function Kept(ps: seq<Project>, dropped: set<uint16>): (r: seq<Project>)
    ensures forall p :: p in r <==> p in ps && p.id !in dropped
  {
    if ps == [] then []
    else if ps[0].id in dropped then Kept(ps[1..], dropped)
    else [ps[0]] + Kept(ps[1..], dropped)
  }

  lemma {:induction false} KeptAll(ps: seq<Project>)
    ensures Kept(ps, {}) == ps
  {
    if ps != [] {
      KeptAll(ps[1..]);
    }
  }

  /** One more project leaves. */
  lemma {:induction false} KeptDrops(ps: seq<Project>, dropped: set<uint16>, p: Project)
    requires forall q :: q in ps && q.id == p.id ==> q == p
    ensures Kept(ps, dropped + {p.id}) == Without(Kept(ps, dropped), p)
  {
    if ps != [] {
      KeptDrops(ps[1..], dropped, p);
      if ps[0].id !in dropped {
        WithoutCons(ps[0], Kept(ps[1..], dropped), p);
      }
    }
  }

  /** Only the ids of the projects themselves matter. */
  lemma {:induction false} KeptSame(ps: seq<Project>, dropped: set<uint16>, other: set<uint16>)
    requires Ids(Kept(ps, dropped)) == Ids(Kept(ps, other)) && ProjectsOk(ps)
    ensures Kept(ps, dropped) == Kept(ps, other)
  {
    forall p | p in ps
      ensures p.id in dropped <==> p.id in other
    {
      InKept(ps, dropped, p);
      InKept(ps, other, p);
    }
    KeptAlike(ps, dropped, other);
  }

  lemma InKept(ps: seq<Project>, dropped: set<uint16>, p: Project)
    requires ProjectsOk(ps) && p in ps
    ensures p.id in Ids(Kept(ps, dropped)) <==> p.id !in dropped
  {
    if p.id !in dropped {
      assert p in Kept(ps, dropped);
    }
  }

  lemma {:induction false} KeptAlike(ps: seq<Project>, dropped: set<uint16>, other: set<uint16>)
    requires forall p :: p in ps ==> (p.id in dropped <==> p.id in other)
    ensures Kept(ps, dropped) == Kept(ps, other)
  {
    if ps != [] {
      KeptAlike(ps[1..], dropped, other);
    }
  }

  lemma LaterIds(ps: seq<Project>, later: seq<Project>)
    requires ProjectsOk(ps) && ps != [] && forall p :: p in later ==> p in ps[1..]
    ensures forall i :: 0 <= i < |later| ==> later[i].id != ps[0].id
  {
    forall i | 0 <= i < |later|
      ensures later[i].id != ps[0].id
    {
      assert later[i] in ps[1..];
    }
  }

  lemma {:induction false} KeptOk(ps: seq<Project>, dropped: set<uint16>)
    requires ProjectsOk(ps)
    ensures ProjectsOk(Kept(ps, dropped))
  {
    if ps != [] {
      KeptOk(ps[1..], dropped);
      if ps[0].id !in dropped {
        LaterIds(ps, Kept(ps[1..], dropped));
        ConsOk(ps[0], Kept(ps[1..], dropped));
      }
    }
  }

  lemma KeptHas(ps: seq<Project>, dropped: set<uint16>, p: Project)
    requires p in ps && p.id !in dropped
    ensures p in Kept(ps, dropped) && p.id in Ids(Kept(ps, dropped))
  {
  }

  /** The first of the kept projects are the kept ones of a larger loss. */
  lemma KeptPrefix(ps: seq<Project>, dropped: set<uint16>, m: nat) returns (more: set<uint16>)
    requires ProjectsOk(ps) && m <= |Kept(ps, dropped)|
    ensures Kept(ps, more) == Kept(ps, dropped)[..m]
  {
    var kept := Kept(ps, dropped);
    more := dropped + Ids(kept[m..]);
    KeptMinus(ps, dropped, m);
  }

  lemma {:induction false} KeptMinus(ps: seq<Project>, dropped: set<uint16>, m: nat)
    requires ProjectsOk(ps) && m <= |Kept(ps, dropped)|
    ensures Kept(ps, dropped + Ids(Kept(ps, dropped)[m..])) == Kept(ps, dropped)[..m]
  {
    if ps != [] {
      var kept, rest := Kept(ps, dropped), Kept(ps[1..], dropped);
      if ps[0].id in dropped {
        KeptMinus(ps[1..], dropped, m);
      } else if m == 0 {
        NoneKept(ps, dropped);
      } else {
        KeptMinus(ps[1..], dropped, m - 1);
        SlicesCons(ps[0], rest, m);
        LaterIds(ps, rest[m - 1..]);
      }
    }
  }

  lemma SlicesCons<T>(first: T, rest: seq<T>, m: nat)
    requires 0 < m <= |rest| + 1
    ensures ([first] + rest)[m..] == rest[m - 1..] && ([first] + rest)[..m] == [first] + rest[..m - 1]
  {
  }

  lemma NoneKept(ps: seq<Project>, dropped: set<uint16>)
    ensures Kept(ps, dropped + Ids(Kept(ps, dropped)[0..])) == Kept(ps, dropped)[..0]
  {
    var kept := Kept(ps, dropped);
    assert kept[0..] == kept;
    forall p | p in ps
      ensures p.id in dropped + Ids(kept)
    {
      if p.id !in dropped {
        assert p in kept;
      }
    }
    AllDropped(ps, dropped + Ids(kept));
  }

  lemma {:induction false} AllDropped(ps: seq<Project>, dropped: set<uint16>)
    requires forall p :: p in ps ==> p.id in dropped
    ensures Kept(ps, dropped) == []
  {
    if ps != [] {
      AllDropped(ps[1..], dropped);
    }
  }

  lemma NoneHandled(file: string, all: seq<Project>, present: set<string>, rewrites: uint16 -> Rewrite)
    ensures Absent(all[..0], present) == {} && FileAfter(file, all[..0], present, rewrites) == file
  {
  }

  /** The next project joins those handled; its id is new. */
  lemma HandledNext(file: string, all: seq<Project>, i: nat, present: set<string>, rewrites: uint16 -> Rewrite)
    requires i < |all| && ProjectsOk(all)
    ensures all[i].id !in Absent(all[..i], present)
    ensures Absent(all[..i + 1], present) ==
              if all[i].directory in present then Absent(all[..i], present) else Absent(all[..i], present) + {all[i].id}
    ensures FileAfter(file, all[..i + 1], present, rewrites) ==
              var before := FileAfter(file, all[..i], present, rewrites);
              if all[i].directory in present then before
              else AfterRewrite(before, Block(Line(all[i])), rewrites(all[i].id))
  {
    assert all[..i + 1] == all[..i] + [all[i]] && all[..i + 1][..i] == all[..i];
    assert forall p :: p in all[..i + 1] <==> p in all[..i] || p == all[i];
  }

  /** Whatever the rewrites do, the file holds some of the projects whole, and the start of a
      block at most. */
  ghost predicate Holds(file: string, all: seq<Project>, gone: set<uint16>, tail: string) {
    Tail(tail) && file == FileOf(Kept(all, gone)) + tail
  }

  lemma RewriteHolds(file: string, all: seq<Project>, gone: set<uint16>, tail: string, p: Project, rewrite: Rewrite)
    returns (gone': set<uint16>, tail': string)
    requires ProjectsOk(all) && p in all && Holds(file, all, gone, tail)
    ensures Holds(AfterRewrite(file, Block(Line(p)), rewrite), all, gone', tail')
  {
    gone', tail' := gone, tail;
    if !rewrite.Untouched? {
      RemoveHolds(file, all, gone, tail, p);
      gone' := gone + {p.id};
      if rewrite.Truncated? {
        gone', tail' := CutHolds(RemoveAll(file, Block(Line(p))), all, gone', tail, rewrite.part);
      }
    }
  }

  lemma RemoveHolds(file: string, all: seq<Project>, gone: set<uint16>, tail: string, p: Project)
    requires ProjectsOk(all) && p in all && Holds(file, all, gone, tail)
    ensures Holds(RemoveAll(file, Block(Line(p))), all, gone + {p.id}, tail)
  {
    var kept := Kept(all, gone);
    KeptOk(all, gone);
    LinesOk(kept);
    LineIsOk(p);
    RemoveBlock(Lines(kept), Line(p), tail);
    LinesWithout(kept, p);
    KeptDrops(all, gone, p);
  }

  lemma CutHolds(file: string, all: seq<Project>, gone: set<uint16>, tail: string, n: nat)
    returns (gone': set<uint16>, tail': string)
    requires ProjectsOk(all) && Holds(file, all, gone, tail)
    ensures Holds(FirstPart(file, n), all, gone', tail')
  {
    var kept := Kept(all, gone);
    KeptOk(all, gone);
    LinesOk(kept);
    var m;
    m, tail' := CutFile(Lines(kept), tail, n);
    assert Lines(kept)[..m] == Lines(kept[..m]);
    gone' := KeptPrefix(all, gone, m);
  }

  lemma {:induction false} AfterHolds(all: seq<Project>, ps: seq<Project>, present: set<string>,
                                      rewrites: uint16 -> Rewrite)
    returns (gone: set<uint16>, tail: string)
    requires ProjectsOk(all) && forall p :: p in ps ==> p in all
    ensures Holds(FileAfter(FileOf(all), ps, present, rewrites), all, gone, tail)
  {
    if ps == [] {
      KeptAll(all);
      gone, tail := {}, "";
      assert FileOf(all) + "" == FileOf(all);
    } else {
      var last := ps[|ps| - 1];
      gone, tail := AfterHolds(all, ps[..|ps| - 1], present, rewrites);
      if last.directory !in present {
        gone, tail := RewriteHolds(FileAfter(FileOf(all), ps[..|ps| - 1], present, rewrites), all, gone, tail,
                                   last, rewrites(last.id));
      }
    }
  }

  /** A list that explains such a file, and a map with the kept ids, is the list of the kept
      projects. */
  lemma OnlyKeptExplains(ids: map<uint16, bool>, file: string, all: seq<Project>, dropped: set<uint16>,
                         gone: set<uint16>,
                         tail: string, l: seq<Project>)
    requires ProjectsOk(all) && ids.Keys == Ids(Kept(all, dropped))
    requires Holds(file, all, gone, tail) && Agree(ids, file, l)
    ensures l == Kept(all, dropped)
  {
    var kept := Kept(all, gone);
    KeptOk(all, gone);
    LinesOk(kept);
    LinesOk(l);
    RenderWithTail(Lines(kept), tail, Lines(l));
    assert FileOf(kept) + "" == FileOf(kept);
    FileDeterminesProjects(kept, l);
    KeptSame(all, dropped, gone);
  }

  /** After the projects `first`: map and file agree, with any list, iff the file is that of the
      kept projects. */
  lemma RestoredIff(ids: map<uint16, bool>, file: string, all: seq<Project>, first: seq<Project>, present: set<string>,
                    rewrites: uint16 -> Rewrite)
    requires ProjectsOk(all) && first <= all && file == FileOf(all)
    requires ids.Keys == Ids(Kept(all, Absent(first, present))) && forall id :: id in ids ==> ids[id]
    ensures var after, kept := FileAfter(file, first, present, rewrites), Kept(all, Absent(first, present));
            && (Agree(ids, after, kept) <==> after == FileOf(kept))
            && (Inconsistent(ids, after) <==> after != FileOf(kept))
  {
    var after, dropped := FileAfter(file, first, present, rewrites), Absent(first, present);
    KeptOk(all, dropped);
    assert forall p :: p in first ==> p in all;
    var gone, tail := AfterHolds(all, first, present, rewrites);
    if after == FileOf(Kept(all, dropped)) {
      assert Agree(ids, after, Kept(all, dropped));
    } else {
      forall l
        ensures !Agree(ids, after, l)
      {
        if Agree(ids, after, l) {
          OnlyKeptExplains(ids, after, all, dropped, gone, tail, l);
        }
      }
    }
  }

  // ---- when restoring is exact ----

  /** The project is to be removed and the file is not rewritten. */
  ghost predicate Lost(p: Project, present: set<string>, rewrites: uint16 -> Rewrite) {
    p.directory !in present && !rewrites(p.id).Rewritten?
  }

  ghost predicate AnyLost(ps: seq<Project>, present: set<string>, rewrites: uint16 -> Rewrite) {
    exists i :: 0 <= i < |ps| && Lost(ps[i], present, rewrites)
  }

  ghost predicate NoneTruncated(ps: seq<Project>, present: set<string>, rewrites: uint16 -> Rewrite) {
    forall i :: 0 <= i < |ps| ==> ps[i].directory in present || !rewrites(ps[i].id).Truncated?
  }

  /** The ids whose blocks have been taken out. */
  ghost function Unfiled(ps: seq<Project>, present: set<string>, rewrites: uint16 -> Rewrite): set<uint16> {
    set p | p in ps && p.directory !in present && rewrites(p.id).Rewritten? :: p.id
  }

  lemma {:induction false} AfterUntruncated(all: seq<Project>, i: nat, present: set<string>,
                                            rewrites: uint16 -> Rewrite)
    requires ProjectsOk(all) && i <= |all| && NoneTruncated(all[..i], present, rewrites)
    ensures FileAfter(FileOf(all), all[..i], present, rewrites) ==
              FileOf(Kept(all, Unfiled(all[..i], present, rewrites)))
  {
    if i == 0 {
      KeptAll(all);
      assert Unfiled(all[..0], present, rewrites) == {};
    } else {
      assert forall j :: 0 <= j < i - 1 ==> all[..i - 1][j] == all[..i][j];
      AfterUntruncated(all, i - 1, present, rewrites);
      HandledNext(FileOf(all), all, i - 1, present, rewrites);
      var p, before := all[i - 1], Unfiled(all[..i - 1], present, rewrites);
      assert all[..i][i - 1] == p;
      UnfiledNext(all, i - 1, present, rewrites);
      if p.directory !in present && rewrites(p.id).Rewritten? {
        KeptOk(all, before);
        RemoveProjectFromFile(Kept(all, before), p);
        KeptDrops(all, before, p);
      }
    }
  }

  lemma UnfiledNext(all: seq<Project>, i: nat, present: set<string>, rewrites: uint16 -> Rewrite)
    requires i < |all|
    ensures Unfiled(all[..i + 1], present, rewrites) ==
              if all[i].directory in present || !rewrites(all[i].id).Rewritten?
              then Unfiled(all[..i], present, rewrites)
              else Unfiled(all[..i], present, rewrites) + {all[i].id}
  {
    assert all[..i + 1] == all[..i] + [all[i]];
    assert forall p :: p in all[..i + 1] <==> p in all[..i] || p == all[i];
  }

  /** As long as a failed rewrite does not truncate, restoring is exact iff none fails. */
  lemma ExactIffNoneLost(all: seq<Project>, i: nat, present: set<string>, rewrites: uint16 -> Rewrite)
    requires ProjectsOk(all) && i <= |all| && NoneTruncated(all[..i], present, rewrites)
    ensures FileAfter(FileOf(all), all[..i], present, rewrites) == FileOf(Kept(all, Absent(all[..i], present)))
            <==> !AnyLost(all[..i], present, rewrites)
  {
    var first := all[..i];
    AfterUntruncated(all, i, present, rewrites);
    var filed, kept := Kept(all, Unfiled(first, present, rewrites)), Kept(all, Absent(first, present));
    KeptOk(all, Unfiled(first, present, rewrites));
    KeptOk(all, Absent(first, present));
    if j :| 0 <= j < |first| && Lost(first[j], present, rewrites) {
      StillFiled(all, first, present, rewrites, j);
      if FileOf(filed) == FileOf(kept) {
        FileDeterminesProjects(filed, kept);
      }
    } else {
      NoneLost(first, present, rewrites);
    }
  }

  lemma NoneLost(first: seq<Project>, present: set<string>, rewrites: uint16 -> Rewrite)
    requires !AnyLost(first, present, rewrites)
    ensures Absent(first, present) == Unfiled(first, present, rewrites)
  {
    forall p | p in first && p.directory !in present
      ensures rewrites(p.id).Rewritten?
    {
      assert !Lost(p, present, rewrites);
    }
  }

  /** A block that has not been taken out stays, while its id has left the map. */
  lemma StillFiled(all: seq<Project>, first: seq<Project>, present: set<string>, rewrites: uint16 -> Rewrite, i: nat)
    requires ProjectsOk(all) && first <= all && i < |first| && Lost(first[i], present, rewrites)
    ensures first[i] in Kept(all, Unfiled(first, present, rewrites)) && first[i] !in Kept(all, Absent(first, present))
  {
    assert first[i] == all[i] && first[i] in first;
    assert first[i].id in Absent(first, present);
  }

  /** A truncated file can come right again: the rewrite of the next project takes away nothing
      more, and both projects are gone from map and file. */
  lemma TruncationCanHeal(p: Project, q: Project)
    requires ProjectsOk([p, q])
    ensures var rewrites := (id: uint16) => if id == p.id then Truncated(0) else Rewritten;
            && AnyLost([p, q], {}, rewrites)
            && FileAfter(FileOf([p, q]), [p, q], {}, rewrites) == FileOf(Kept([p, q], Absent([p, q], {})))
  {
    var rewrites := (id: uint16) => if id == p.id then Truncated(0) else Rewritten;
    var file := FileOf([p, q]);
    assert [p, q][..1] == [p] && [p][..0] == [];
    assert Lost([p, q][0], {}, rewrites);
    assert FirstPart(RemoveAll(file, Block(Line(p))), 0) == "";
    assert FileAfter(file, [p], {}, rewrites) == "";
    assert RemoveAll("", Block(Line(q))) == "";
    assert {p.id, q.id} == Absent([p, q], {});
    AllDropped([p, q], {p.id, q.id});
  }

  /** What the two answers of a failed add leave behind. */
  lemma FailedAdd(ids: map<uint16, bool>, file: string, live: seq<Project>, p: Project, append: Append,
                  rewrite: Rewrite)
    requires Agree(ids, file, live) && FieldsOk(p.directory, p.bhard) && p.id !in ids
    ensures var added := AfterAppend(file, Block(Line(p)), append);
            var after := if append.AppendFailed? then added else AfterRewrite(added, Block(Line(p)), rewrite);
            && (Agree(ids, after, live) <==> LeavesNoTrace(file, append, rewrite))
            && (Inconsistent(ids, after) <==> !LeavesNoTrace(file, append, rewrite))
  {
    if append.AppendFailed? {
      FailedAppendIff(ids, file, live, p, append.part);
    } else {
      AddAgrees(ids, file, live, p);
      RemoveAgreesIff(ids[p.id := true], file + Block(Line(p)), live + [p], p, rewrite);
      MapRestored(ids, p.id);
      assert |file + Block(Line(p))| > |file|;
    }
  }

  lemma MapRestored(ids: map<uint16, bool>, id: uint16)
    requires id !in ids
    ensures ids[id := true] - {id} == ids
  {
  }
}
