/** The kernel exporter, and NFS volumes made and deleted as directory, export and quota. */
module NfsVolumes {
  import opened Common
  import opened Text
  import opened BlockFile
  import opened Projects
  import opened Exports
  import Q = Quota

  /** Map and file agree: the file holds exactly the blocks of `live`, in order, and the map
      exactly their ids. */
  ghost predicate ExportsAgree(ids: map<uint16, bool>, file: string, live: seq<Export>) {
    && ExportsOk(live)
    && file == FileOfExports(live)
    && ids.Keys == ExportIds(live)
  }

  /** No list of exports explains map and file. */
  ghost predicate Unexplained(ids: map<uint16, bool>, file: string) {
    !exists es :: ExportsAgree(ids, file, es)
  }

  lemma StaleExports(ids: map<uint16, bool>, file: string, es: seq<Export>)
    requires ExportsOk(es) && file == FileOfExports(es) && ids.Keys != ExportIds(es)
    ensures Unexplained(ids, file)
  {
    forall l
      ensures !ExportsAgree(ids, file, l)
    {
      if ExportsAgree(ids, file, l) {
        FileDeterminesIds(es, l);
      }
    }
  }

  lemma AddExportAgrees(ids: map<uint16, bool>, file: string, live: seq<Export>, e: Export)
    requires ExportsAgree(ids, file, live) && ExportOk(e) && e.id !in ids
    ensures ExportsAgree(ids[e.id := true], file + Block(ExportLine(e)), live + [e])
    ensures RemoveAll(file + Block(ExportLine(e)), Block(ExportLine(e))) == file
    ensures WithoutLine(live + [e], e) == live && HasLine(live + [e], e)
  {
    AddExportToFile(live, e);
    RemoveExportFromFile(live + [e], e);
  }

  /** The start of a block that was never finished belongs to no list. */
  lemma TailUnexplained(ids: map<uint16, bool>, es: seq<Export>, tail: string)
    requires ExportsOk(es) && Tail(tail) && tail != ""
    ensures Unexplained(ids, FileOfExports(es) + tail)
  {
    forall l
      ensures !ExportsAgree(ids, FileOfExports(es) + tail, l)
    {
      if ExportsAgree(ids, FileOfExports(es) + tail, l) {
        ExportLinesOk(es);
        ExportLinesOk(l);
        RenderWithTail(ExportLines(es), tail, ExportLines(l));
      }
    }
  }

  /** A failed append is harmless exactly when nothing was written. */
  lemma FailedAppendIff(ids: map<uint16, bool>, file: string, live: seq<Export>, e: Export, part: nat)
    requires ExportsAgree(ids, file, live) && ExportOk(e) && e.id !in ids
    ensures var after := AfterAppend(file, Block(ExportLine(e)), AppendFailed(part));
            (ExportsAgree(ids, after, live) <==> part == 0) && (Unexplained(ids, after) <==> part > 0)
  {
    var block := Block(ExportLine(e));
    ExportLineOk(e);
    if part == 0 {
      assert file + block[..0] == file;
      assert ExportsAgree(ids, file + block[..0], live);
    } else if part < |block| {
      PartIsTail(ExportLine(e), part);
      TailUnexplained(ids, live, block[..part]);
    } else {
      AddExportToFile(live, e);
      assert e.id in ExportIds(live) + {e.id};
      StaleExports(ids, file + block, live + [e]);
    }
  }

  /** A file that was cut off has lost an export that the map has. */
  lemma CutUnexplained(ids: map<uint16, bool>, es: seq<Export>, n: nat)
    requires ExportsOk(es) && ids.Keys == ExportIds(es) && n < |FileOfExports(es)|
    ensures Unexplained(ids, FileOfExports(es)[..n])
  {
    forall l
      ensures !ExportsAgree(ids, FileOfExports(es)[..n], l)
    {
      if ExportsAgree(ids, FileOfExports(es)[..n], l) {
        ShorterExports(l, es);
      }
    }
  }

  /** Removal of any export, live or not. */
  ghost predicate RemovesCleanly(ids: map<uint16, bool>, file: string, live: seq<Export>, e: Export, rewrite: Rewrite) {
    && (HasLine(live, e) || e.id !in ids)
    && AfterRewrite(file, Block(ExportLine(e)), rewrite) == RemoveAll(file, Block(ExportLine(e)))
  }

  lemma ExplainedIff(ids: map<uint16, bool>, es: seq<Export>)
    requires ExportsOk(es)
    ensures ExportsAgree(ids, FileOfExports(es), es) <==> ids.Keys == ExportIds(es)
    ensures Unexplained(ids, FileOfExports(es)) <==> ids.Keys != ExportIds(es)
  {
    if ids.Keys == ExportIds(es) {
      assert ExportsAgree(ids, FileOfExports(es), es);
    } else {
      StaleExports(ids, FileOfExports(es), es);
    }
  }

  lemma RemovedKeys(ids: map<uint16, bool>, live: seq<Export>, e: Export)
    requires ExportsOk(live) && ids.Keys == ExportIds(live) && ExportOk(e)
    ensures ExportsOk(WithoutLine(live, e))
    ensures (ids - {e.id}).Keys == ExportIds(WithoutLine(live, e)) <==> HasLine(live, e) || e.id !in ids
  {
    RemoveExportFromFile(live, e);
    assert (ids - {e.id}).Keys == ids.Keys - {e.id};
    if !HasLine(live, e) {
      assert e.id in ids <==> ids.Keys - {e.id} != ids.Keys;
    }
  }

  lemma NewTextIff(ids: map<uint16, bool>, live: seq<Export>, e: Export)
    requires ExportsAgree(ids, FileOfExports(live), live) && ExportOk(e)
    ensures var rest := WithoutLine(live, e);
            && (ExportsAgree(ids - {e.id}, FileOfExports(rest), rest) <==> HasLine(live, e) || e.id !in ids)
            && (Unexplained(ids - {e.id}, FileOfExports(rest)) <==> !(HasLine(live, e) || e.id !in ids))
  {
    RemovedKeys(ids, live, e);
    ExplainedIff(ids - {e.id}, WithoutLine(live, e));
  }

  lemma NotNewText(ids: map<uint16, bool>, live: seq<Export>, e: Export, rewrite: Rewrite)
    requires ExportsAgree(ids, FileOfExports(live), live) && ExportOk(e)
    requires AfterRewrite(FileOfExports(live), Block(ExportLine(e)), rewrite) != FileOfExports(WithoutLine(live, e))
    requires HasLine(live, e) || e.id !in ids
    ensures Unexplained(ids - {e.id}, AfterRewrite(FileOfExports(live), Block(ExportLine(e)), rewrite))
  {
    var rest := WithoutLine(live, e);
    RemoveExportFromFile(live, e);
    if rewrite.Untouched? {
      StaleExports(ids - {e.id}, FileOfExports(live), live);
    } else {
      CutUnexplained(ids - {e.id}, rest, rewrite.part);
    }
  }

  /** Map and file agree afterwards exactly when the id was the export's own, or nobody's, and
      the file ends up with the new text. */
  lemma RemoveAgreesIff(ids: map<uint16, bool>, file: string, live: seq<Export>, e: Export, rewrite: Rewrite)
    requires ExportsAgree(ids, file, live) && ExportOk(e)
    ensures var after, text := AfterRewrite(file, Block(ExportLine(e)), rewrite), RemoveAll(file, Block(ExportLine(e)));
            && text == FileOfExports(WithoutLine(live, e))
            && (ExportsAgree(ids - {e.id}, after, WithoutLine(live, e)) <==>
                  RemovesCleanly(ids, file, live, e, rewrite))
            && (HasLine(live, e) || e.id !in ids || after == text ==>
                  (Unexplained(ids - {e.id}, after) <==> !RemovesCleanly(ids, file, live, e, rewrite)))
  {
    RemoveExportFromFile(live, e);
    NewTextIff(ids, live, e);
    if AfterRewrite(file, Block(ExportLine(e)), rewrite) != FileOfExports(WithoutLine(live, e)) &&
       (HasLine(live, e) || e.id !in ids) {
      NotNewText(ids, live, e, rewrite);
    }
  }

  /** A second removal of the same export, whose id is another export's by now. */
  lemma SecondRemovalIff(ids: map<uint16, bool>, file: string, live: seq<Export>, e: Export)
    requires ExportsAgree(ids, file, live) && ExportOk(e) && !HasLine(live, e)
    ensures RemoveAll(file, Block(ExportLine(e))) == file
    ensures (exists l :: ExportsAgree(ids - {e.id}, file, l)) <==> e.id !in ids
  {
    RemoveExportFromFile(live, e);
    RemoveAgreesIff(ids, file, live, e, Rewritten);
  }

  /** What the answer of an append leaves behind. */
  lemma AppendIff(ids: map<uint16, bool>, file: string, live: seq<Export>, e: Export, append: Append)
    requires ExportsAgree(ids, file, live) && ExportOk(e) && e.id !in ids
    ensures var after := AfterAppend(file, Block(ExportLine(e)), append);
            var ids' := if append.Appended? then ids[e.id := true] else ids;
            var live' := if append.Appended? then live + [e] else live;
            && (ExportsAgree(ids', after, live') <==> append.Appended? || append.part == 0)
            && (Unexplained(ids', after) <==> !(append.Appended? || append.part == 0))
  {
    if append.AppendFailed? {
      FailedAppendIff(ids, file, live, e, append.part);
    } else {
      AddExportAgrees(ids, file, live, e);
      assert ExportsAgree(ids[e.id := true], file + Block(ExportLine(e)), live + [e]);
    }
  }

  /** What the two answers of a failed export leave behind. */
  lemma FailedExport(ids: map<uint16, bool>, file: string, live: seq<Export>, e: Export, append: Append,
                     rewrite: Rewrite)
    requires ExportsAgree(ids, file, live) && ExportOk(e) && e.id !in ids
    ensures var added := AfterAppend(file, Block(ExportLine(e)), append);
            var after := if append.AppendFailed? then added else AfterRewrite(added, Block(ExportLine(e)), rewrite);
            && (ExportsAgree(ids, after, live) <==> LeavesNoTrace(file, append, rewrite))
            && (Unexplained(ids, after) <==> !LeavesNoTrace(file, append, rewrite))
  {
    if append.AppendFailed? {
      FailedAppendIff(ids, file, live, e, append.part);
    } else {
      AddExportAgrees(ids, file, live, e);
      RemoveAgreesIff(ids[e.id := true], file + Block(ExportLine(e)), live + [e], e, rewrite);
      Q.MapRestored(ids, e.id);
      assert |file + Block(ExportLine(e))| > |file|;
    }
  }

  /** A limited exporter refuses exactly when it has as many exports as the limit. */
  lemma ExportCount(ids: map<uint16, bool>, file: string, live: seq<Export>)
    requires ExportsAgree(ids, file, live)
    ensures |ids| == |live|
  {
    DistinctIds(live);
    assert |ids| == |ids.Keys|;
  }

  lemma {:induction false} DistinctIds(es: seq<Export>)
    requires ExportsOk(es)
    ensures |ExportIds(es)| == |es|
  {
    if es != [] {
      assert es == [es[0]] + es[1..];
      DistinctIds(es[1..]);
      ExportIdsCons(es[0], es[1..]);
      assert es[0].id !in ExportIds(es[1..]);
    }
  }

  datatype ExportError = AppendFails | ExportFails | RewriteFails

  datatype Exported = Exported(block: string, id: uint16)

  class KernelExporter {
    var exportIDs: map<uint16, bool>
    var config: string
    ghost var live: seq<Export>

    ghost predicate Valid()
      reads this
    {
      ExportsAgree(exportIDs, config, live)
    }

    /** A process that starts on an exports file. On the file that another process has left for
        `es`, map and file agree unless a path or subnet names an id that is not taken. */
    constructor (config: string)
      ensures this.config == config && exportIDs.Keys == FsidsIn(config)
      ensures ExportsOk(live) && config == FileOfExports(live) ==> (Valid() <==> AllSpurious(live) <= ExportIds(live))
      ensures (exists es :: ExportsOk(es) && config == FileOfExports(es)) ==>
                ExportsOk(live) && config == FileOfExports(live)
    {
      var ids := LoadIds(config);
      this.config := config;
      exportIDs := ids;
      new;
      if es :| ExportsOk(es) && config == FileOfExports(es) {
        live := es;
      }
      RestartExactIff(live);
    }

    static method LoadIds(text: string) returns (ids: map<uint16, bool>)
      ensures ids.Keys == FsidsIn(text) && forall id :: id in ids ==> ids[id]
    {
      ids := map[];
      var rest := text;
      while rest != ""
        invariant ids.Keys + FsidsIn(rest) == FsidsIn(text) && forall id :: id in ids ==> ids[id]
        decreases |rest|
      {
        if FSID <= rest && LeadingDigits(rest[5..]) > 0 {
          var d := LeadingDigits(rest[5..]);
          var digits := rest[5..][..d];
          if Value(digits) < 0x1_0000 {
            ids := ids[Value(digits) := true];
          }
          rest := rest[5 + d..];
        } else {
          rest := rest[1..];
        }
      }
    }

    /** No limit if negative; otherwise fewer exports than the limit. */
    method CanExport(limit: int) returns (ok: bool)
      requires Valid()
      ensures ok <==> limit < 0 || |live| < limit
    {
      ExportCount(exportIDs, config, live);
      ok := limit < 0 || |exportIDs| < limit;
    }

    /** The block goes to the file; a failed append gives the id back. */
    method AppendExport(e: Export, append: Append)
      requires ExportOk(e) && e.id !in exportIDs
      modifies this
      ensures exportIDs == if append.Appended? then old(exportIDs)[e.id := true] else old(exportIDs)
      ensures live == if append.Appended? then old(live) + [e] else old(live)
      ensures config == AfterAppend(old(config), Block(ExportLine(e)), append)
      ensures old(Valid()) ==>
                (Valid() <==> append.Appended? || append.part == 0) && (Unexplained(exportIDs, config) <==> !Valid())
    {
      if Valid() {
        AppendIff(exportIDs, config, live, e, append);
      }
      Q.MapRestored(exportIDs, e.id);
      exportIDs := exportIDs[e.id := true];
      config := AfterAppend(config, Block(ExportLine(e)), append);
      if append.AppendFailed? {
        exportIDs := exportIDs - {e.id};
        return;
      }
      live := live + [e];
    }

    /** A failed append leaves the map as it was, and the file exactly if nothing was written. */
    method AddExportBlock(path: string, rootSquash: bool, subnet: string, append: Append)
      returns (r: Result<Exported, ExportError>)
      requires '\n' !in path && '\n' !in subnet
      requires exists free: uint16 :: free !in exportIDs
      modifies this
      ensures r.Ok? <==> append.Appended?
      ensures r.Err? ==> r.error == AppendFails && live == old(live) && exportIDs == old(exportIDs)
      ensures r.Ok? ==> Q.IsNextId(old(exportIDs), r.value.id) && exportIDs == old(exportIDs)[r.value.id := true]
      ensures r.Ok? ==> live == old(live) + [Export(r.value.id, path, rootSquash, subnet)]
      ensures r.Ok? ==> r.value.block == Block(ExportLine(Export(r.value.id, path, rootSquash, subnet)))
      ensures r.Ok? ==> config == old(config) + r.value.block
      ensures old(Valid()) ==>
                (Valid() <==> r.Ok? || append.part == 0) && (Unexplained(exportIDs, config) <==> !Valid())
    {
      var id := Q.NextId(exportIDs);
      var e := Export(id, path, rootSquash, subnet);
      AppendExport(e, append);
      r := if append.Appended? then Ok(Exported(Block(ExportLine(e)), id)) else Err(AppendFails);
    }

    /** Called with the block and the id of an export. If map and file agree, they still do
        exactly when the id was that export's own, or nobody's, and the file has been rewritten
        as a whole. */
    method RemoveExportBlock(block: string, id: uint16, rewrite: Rewrite, ghost e: Export)
      returns (r: Result<(), ExportError>)
      requires ExportOk(e) && block == Block(ExportLine(e)) && id == e.id
      modifies this
      ensures exportIDs == old(exportIDs) - {id} && live == WithoutLine(old(live), e)
      ensures config == AfterRewrite(old(config), block, rewrite)
      ensures r == if rewrite.Rewritten? then Ok(()) else Err(RewriteFails)
      ensures old(Valid()) ==> (Valid() <==> old(RemovesCleanly(exportIDs, config, live, e, rewrite)))
      ensures old(Valid()) &&
              (HasLine(old(live), e) || id !in old(exportIDs) || config == RemoveAll(old(config), block)) ==>
                (Unexplained(exportIDs, config) <==> !Valid())
    {
      if Valid() {
        RemoveAgreesIff(exportIDs, config, live, e, rewrite);
      }
      live := WithoutLine(live, e);
      exportIDs := exportIDs - {id};
      config := AfterRewrite(config, block, rewrite);
      r := if rewrite.Rewritten? then Ok(()) else Err(RewriteFails);
    }

    /** All or nothing: an export that the server has accepted, or map and file as before. The
        file is as before exactly when a failed append has written nothing, or the rollback has
        written all of the old text back; otherwise no list of exports explains the state. */
    method CreateExport(path: string, rootSquash: bool, subnet: string, append: Append, exported: bool,
                        rewrite: Rewrite)
      returns (r: Result<Exported, ExportError>)
      requires '\n' !in path && '\n' !in subnet
      requires exists free: uint16 :: free !in exportIDs
      modifies this
      ensures r.Ok? <==> append.Appended? && exported
      ensures r.Ok? ==> Q.IsNextId(old(exportIDs), r.value.id) && exportIDs == old(exportIDs)[r.value.id := true]
      ensures r.Ok? ==> r.value.block == Block(ExportLine(Export(r.value.id, path, rootSquash, subnet)))
      ensures r.Err? ==> exportIDs == old(exportIDs) && r.error == if append.Appended? then ExportFails else AppendFails
      ensures old(Valid()) ==>
                live == if r.Ok? then old(live) + [Export(r.value.id, path, rootSquash, subnet)] else old(live)
      ensures old(Valid()) ==> (Valid() <==> r.Ok? || LeavesNoTrace(old(config), append, rewrite))
      ensures old(Valid()) ==> (Unexplained(exportIDs, config) <==> !Valid())
    {
      r := AddExportBlock(path, rootSquash, subnet, append);
      if r.Ok? && !exported {
        ghost var e := Export(r.value.id, path, rootSquash, subnet);
        if old(Valid()) {
          AddExportAgrees(old(exportIDs), old(config), old(live), e);
          FailedExport(old(exportIDs), old(config), old(live), e, append, rewrite);
        }
        Q.MapRestored(old(exportIDs), e.id);
        var removed := RemoveExportBlock(r.value.block, r.value.id, rewrite, e);
        r := Err(ExportFails);
      }
    }
  }

  // ---- a whole volume ----

  datatype VolumeError =
    | LimitReached
    | DirectoryExists
    | DirectoryFailed
    | ExportStep(e: ExportError)
    | QuotaStep(q: Q.QuotaError)

  datatype Volume = Volume(path: string, exported: Exported, project: Q.Added)

  /** The answers of the environment: making the directory, giving it its permissions and group,
      removing it again; the append to the exports file, the export command, the rewrite of the
      file; and what the quota steps meet. */
  datatype Answers = Answers(
    mkdir: bool, permissions: bool, remove: bool,
    append: Append, exported: bool, rewrite: Rewrite,
    quota: Q.Outcomes)

  /** The answers during a deletion: removing the directory, the two rewrites, the unexport. */
  datatype DeletionAnswers = DeletionAnswers(remove: bool, exports: Rewrite, unexported: bool, projects: Rewrite)

  class NfsProvisioner {
    const exporter: KernelExporter
    const quotaer: Q.XfsQuotaer
    const exportDir: string
    const subnet: string
    const maxExports: int
    var directories: set<string>

    ghost predicate Valid()
      reads this, exporter, quotaer
    {
      && exporter.Valid() && quotaer.Valid()
      && exportDir != "" && exportDir[0] == '/' && '\n' !in exportDir && '\n' !in subnet
    }

    constructor (exporter: KernelExporter, quotaer: Q.XfsQuotaer, exportDir: string, subnet: string, maxExports: int)
      requires exporter.Valid() && quotaer.Valid()
      requires exportDir != "" && exportDir[0] == '/' && '\n' !in exportDir && '\n' !in subnet
      ensures Valid() && directories == {} && this.exporter == exporter && this.quotaer == quotaer
      ensures this.exportDir == exportDir && this.subnet == subnet && this.maxExports == maxExports
    {
      this.exporter, this.quotaer := exporter, quotaer;
      this.exportDir, this.subnet, this.maxExports := exportDir, subnet, maxExports;
      directories := {};
    }

    /** createDirectory: a new directory, or none unless it cannot be removed again. */
    method CreateDirectory(path: string, env: Answers) returns (r: Result<(), VolumeError>)
      modifies this
      ensures r == if path in old(directories) then Err(DirectoryExists)
                   else if env.mkdir && env.permissions then Ok(()) else Err(DirectoryFailed)
      ensures directories == old(directories) + if r.Ok? || (env.mkdir && !env.remove) then {path} else {}
    {
      if path in directories {
        assert directories + {path} == directories;
        return Err(DirectoryExists);
      }
      if !env.mkdir {
        return Err(DirectoryFailed);
      }
      directories := directories + {path};
      if !env.permissions {
        RemoveDirectory(path, env.remove);
        return Err(DirectoryFailed);
      }
      r := Ok(());
    }

    /** os.RemoveAll */
    method RemoveDirectory(path: string, works: bool)
      modifies this
      ensures directories == if works then old(directories) - {path} else old(directories)
    {
      if works {
        directories := directories - {path};
      }
    }

    function PathOf(name: string): string {
      exportDir + "/" + name
    }

    /** The volume that these calls have made, as its annotations say. */
    ghost predicate Made(v: Volume, e: Export, p: Project) {
      && v.exported == Exported(Block(ExportLine(e)), e.id) && e.path == v.path && ExportOk(e)
      && v.project == Q.Added(Block(Line(p)), p.id) && p.directory == v.path && FieldsOk(p.directory, p.bhard)
    }

    lemma PathOk(name: string)
      requires exportDir != "" && exportDir[0] == '/' && '\n' !in exportDir && '\n' !in name
      ensures PathOf(name) != "" && PathOf(name)[0] == '/' && '\n' !in PathOf(name)
    {
    }

    /** The export and the quota of a new directory. */
    method CreateExportAndQuota(path: string, rootSquash: bool, limit: string, env: Answers)
      returns (r: Result<Volume, VolumeError>)
      requires Valid() && path != "" && path[0] == '/' && '\n' !in path && limit != "" && ':' !in limit
      requires '\n' !in limit
      requires exists free: uint16 :: free !in exporter.exportIDs
      requires exists free: uint16 :: free !in quotaer.projectIDs
      modifies exporter, quotaer
      ensures var exported := env.append.Appended? && env.exported;
              && (r.Err? && r.error.ExportStep? <==> !exported)
              && (r.Err? ==> r.error.ExportStep? || r.error.QuotaStep?)
              && (r.Ok? <==> exported && env.quota.append.Appended? && env.quota.project && env.quota.limit)
      ensures r.Ok? ==> Valid() && Added(r.value, path, rootSquash, limit, old(exporter.live), old(quotaer.live),
                                         old(exporter.exportIDs), old(quotaer.projectIDs))
      ensures r.Err? ==> quotaer.live == old(quotaer.live) && quotaer.projectIDs == old(quotaer.projectIDs)
      ensures r.Err? && r.error.ExportStep? ==>
                && exporter.live == old(exporter.live) && exporter.exportIDs == old(exporter.exportIDs)
                && quotaer.Valid()
                && (exporter.Valid() <==> LeavesNoTrace(old(exporter.config), env.append, env.rewrite))
                && (Unexplained(exporter.exportIDs, exporter.config) <==> !exporter.Valid())
      ensures r.Err? && r.error.QuotaStep? ==>
                && OnlyExported(path, old(exporter.live))
                && (quotaer.Valid() <==> LeavesNoTrace(old(quotaer.file), env.quota.append, env.quota.rewrite))
                && (Q.Inconsistent(quotaer.projectIDs, quotaer.file) <==> !quotaer.Valid())
    {
      var made := exporter.CreateExport(path, rootSquash, subnet, env.append, env.exported, env.rewrite);
      if made.Err? {
        return Err(ExportStep(made.error));
      }
      var project := quotaer.CreateQuota(path, limit, env.quota);
      if project.Err? {
        return Err(QuotaStep(project.error));
      }
      r := Ok(Volume(path, made.value, project.value));
    }

    /** The volume has one new export and one new project, with the next ids. */
    ghost predicate Added(v: Volume, path: string, rootSquash: bool, limit: string, exports: seq<Export>,
                          projects: seq<Project>,
                          exportIDs: map<uint16, bool>, projectIDs: map<uint16, bool>)
      reads exporter, quotaer
    {
      var e, p := Export(v.exported.id, path, rootSquash, subnet), Project(v.project.id, path, limit);
      && v.path == path && Made(v, e, p) && exporter.live == exports + [e] && quotaer.live == projects + [p]
      && Q.IsNextId(exportIDs, e.id) && exporter.exportIDs == exportIDs[e.id := true]
      && Q.IsNextId(projectIDs, p.id) && quotaer.projectIDs == projectIDs[p.id := true]
    }

    /** A new export has been left behind. */
    ghost predicate OnlyExported(path: string, exports: seq<Export>)
      reads exporter
    {
      && exporter.Valid() && |exporter.live| == |exports| + 1 && exporter.live[..|exports|] == exports
      && exporter.live[|exports|].path == path
    }

    /** Success adds a directory, an export and a project. A failed export step leaves nothing
        behind if the exports file can be restored and the directory removed. A failed quota
        step is not rolled back as a whole: the export stays. */
    method CreateVolume(name: string, rootSquash: bool, limit: string, env: Answers)
      returns (r: Result<Volume, VolumeError>)
      requires Valid() && '\n' !in name && limit != "" && ':' !in limit && '\n' !in limit
      requires exists free: uint16 :: free !in exporter.exportIDs
      requires exists free: uint16 :: free !in quotaer.projectIDs
      modifies this, exporter, quotaer
      ensures var full := maxExports >= 0 && |old(exporter.live)| >= maxExports;
              var taken, directory := PathOf(name) in old(directories), env.mkdir && env.permissions;
              var exported := env.append.Appended? && env.exported;
              && (r == Err(LimitReached) <==> full)
              && (r == Err(DirectoryExists) <==> !full && taken)
              && (r == Err(DirectoryFailed) <==> !full && !taken && !directory)
              && (r.Err? && r.error.ExportStep? <==> !full && !taken && directory && !exported)
              && (r.Ok? <==> !full && !taken && directory && exported
                             && env.quota.append.Appended? && env.quota.project && env.quota.limit)
      ensures r.Ok? ==>
                && Valid() && directories == old(directories) + {PathOf(name)}
                && Added(r.value, PathOf(name), rootSquash, limit, old(exporter.live), old(quotaer.live),
                         old(exporter.exportIDs), old(quotaer.projectIDs))
      ensures r.Err? ==>
                && quotaer.live == old(quotaer.live) && quotaer.projectIDs == old(quotaer.projectIDs)
                && directories == old(directories) +
                     if env.mkdir && !env.remove && !r.error.LimitReached? then {PathOf(name)} else {}
      ensures r.Err? && !r.error.QuotaStep? ==>
                && exporter.live == old(exporter.live) && exporter.exportIDs == old(exporter.exportIDs)
                && quotaer.Valid()
                && (exporter.Valid() <==>
                      (r.error.ExportStep? ==> LeavesNoTrace(old(exporter.config), env.append, env.rewrite)))
                && (Unexplained(exporter.exportIDs, exporter.config) <==> !exporter.Valid())
      ensures r.Err? && r.error.QuotaStep? ==>
                && OnlyExported(PathOf(name), old(exporter.live))
                && (quotaer.Valid() <==> LeavesNoTrace(old(quotaer.file), env.quota.append, env.quota.rewrite))
                && (Q.Inconsistent(quotaer.projectIDs, quotaer.file) <==> !quotaer.Valid())
    {
      var allowed := exporter.CanExport(maxExports);
      if !allowed {
        return Err(LimitReached);
      }
      var path := PathOf(name);
      PathOk(name);
      var directory := CreateDirectory(path, env);
      if directory.Err? {
        return Err(directory.error);
      }
      r := CreateExportAndQuota(path, rootSquash, limit, env);
      if r.Err? {
        RemoveDirectory(path, env.remove);
      }
    }

    /** Delete, with what the volume's annotations say: directory, export and project, each step
        only if the one before succeeds. A step that succeeded is repeated when the call is. */
    method DeleteVolume(v: Volume, env: DeletionAnswers, ghost e: Export, ghost p: Project)
      returns (r: Result<(), DeletionError>)
      requires Made(v, e, p)
      modifies this, exporter, quotaer
      ensures var gone := v.path !in old(directories) || env.remove;
              && directories == (if env.remove then old(directories) - {v.path} else old(directories))
              && r == (if !gone then Err(DirectoryStays)
                       else if !env.exports.Rewritten? then Err(ExportStays)
                       else if !env.unexported then Err(NotUnexported)
                       else if !env.projects.Rewritten? then Err(ProjectStays) else Ok(()))
              && (if gone then exporter.exportIDs == old(exporter.exportIDs) - {e.id}
                               && exporter.live == WithoutLine(old(exporter.live), e)
                  else exporter.exportIDs == old(exporter.exportIDs) && exporter.live == old(exporter.live)
                       && exporter.config == old(exporter.config))
              && (if r.Ok? || r.error.ProjectStays?
                  then quotaer.projectIDs == old(quotaer.projectIDs) - {p.id}
                       && quotaer.live == Without(old(quotaer.live), p)
                  else quotaer.projectIDs == old(quotaer.projectIDs) && quotaer.live == old(quotaer.live)
                       && quotaer.file == old(quotaer.file))
      ensures old(exporter.Valid()) && !(r.Err? && r.error.DirectoryStays?) ==>
                (exporter.Valid() <==>
                   old(RemovesCleanly(exporter.exportIDs, exporter.config, exporter.live, e, env.exports)))
      ensures old(exporter.Valid()) && env.exports.Rewritten? ==>
                (Unexplained(exporter.exportIDs, exporter.config) <==> !exporter.Valid())
      ensures old(quotaer.Valid()) && (r.Ok? || r.error.ProjectStays?) ==>
                (quotaer.Valid() <==>
                   old(Q.RemovesCleanly(quotaer.projectIDs, quotaer.file, quotaer.live, p, env.projects)))
      ensures old(quotaer.Valid()) && env.projects.Rewritten? ==>
                (Q.Inconsistent(quotaer.projectIDs, quotaer.file) <==> !quotaer.Valid())
    {
      if v.path in directories {
        RemoveDirectory(v.path, env.remove);
        if !env.remove {
          return Err(DirectoryStays);
        }
      }
      var removed := exporter.RemoveExportBlock(v.exported.block, v.exported.id, env.exports, e);
      if removed.Err? {
        return Err(ExportStays);
      }
      if !env.unexported {
        return Err(NotUnexported);
      }
      var dropped := quotaer.RemoveProject(v.project.block, v.project.id, env.projects, p);
      if dropped.Err? {
        return Err(ProjectStays);
      }
      r := Ok(());
    }
  }

  datatype DeletionError = DirectoryStays | ExportStays | NotUnexported | ProjectStays

  // ---- a deletion that is repeated ----

  const CREATES := Answers(true, true, true, Appended, true, Rewritten, Q.Outcomes(Appended, true, true, Rewritten))
  const DELETES := DeletionAnswers(true, Rewritten, true, Rewritten)

  lemma NextIdUnique(ids: map<uint16, bool>, id: uint16, other: uint16)
    requires Q.IsNextId(ids, id) && Q.IsNextId(ids, other)
    ensures id == other
  {
  }

  /** Lines of exports with one id and different paths differ. */
  lemma PathsDiffer(e: Export, f: Export)
    requires e.id == f.id && e.rootSquash == f.rootSquash && e.subnet == f.subnet && ExportLine(e) == ExportLine(f)
    ensures e.path == f.path
  {
    var rest := " " + (e.subnet + "(" + (Options(e) + FormatUint(e.id) + ")"));
    LineOfPath(e);
    LineOfPath(f);
    assert |e.path| == |f.path|;
    assert e.path == (e.path + rest)[..|e.path|] && f.path == (f.path + rest)[..|f.path|];
  }

  lemma LineOfPath(e: Export)
    ensures ExportLine(e) == e.path + (" " + (e.subnet + "(" + (Options(e) + FormatUint(e.id) + ")")))
  {
  }

  lemma NewLine(live: seq<Export>, ids: map<uint16, bool>, e: Export, f: Export)
    requires ExportsOk(live) && ids.Keys == ExportIds(live) && e.id !in ids && f.id == e.id
    requires e.rootSquash == f.rootSquash && e.subnet == f.subnet && e.path != f.path
    ensures !HasLine(live + [f], e) && ids[f.id := true] - {e.id} == ids && WithoutLine(live + [f], e) == live + [f]
  {
    forall i | 0 <= i < |live + [f]|
      ensures ExportLines(live + [f])[i] != ExportLine(e)
    {
      var g := (live + [f])[i];
      assert i < |live| ==> g in live && g.id in ExportIds(live);
      if ExportLine(g) == ExportLine(e) {
        ExportLineDeterminesId(g, e);
        if i == |live| {
          PathsDiffer(e, f);
        }
      }
    }
    forall g | g in live + [f]
      ensures ExportLine(g) != ExportLine(e)
    {
      var i :| 0 <= i < |live + [f]| && (live + [f])[i] == g;
      assert ExportLines(live + [f])[i] == ExportLine(g);
    }
    NoSuchLine(live + [f], e);
  }

  lemma LastGoes(live: seq<Export>, ids: map<uint16, bool>, e: Export)
    requires ExportsOk(live) && ids.Keys == ExportIds(live) && ExportOk(e) && e.id !in ids
    ensures HasLine(live + [e], e) && WithoutLine(live + [e], e) == live && ids[e.id := true] - {e.id} == ids
  {
    AddExportToFile(live, e);
  }

  lemma NewProject(live: seq<Project>, ids: map<uint16, bool>, p: Project)
    requires ids.Keys == Ids(live) && p.id !in ids
    ensures p !in live && Without(live + [p], p) == live && ids[p.id := true] - {p.id} == ids
  {
    assert forall q :: q in live ==> q.id in Ids(live);
    WithoutLast(live, p);
  }

  /** Names, a limit, and room for one more volume. */
  ghost predicate HasRoom(n: NfsProvisioner, name: string, limit: string)
    reads n, n.exporter, n.quotaer
  {
    && n.Valid() && '\n' !in name && limit != "" && ':' !in limit && '\n' !in limit
    && (n.maxExports < 0 || |n.exporter.live| < n.maxExports) && n.PathOf(name) !in n.directories
    && (exists free: uint16 :: free !in n.exporter.exportIDs) && (exists free: uint16 :: free !in n.quotaer.projectIDs)
  }

  /** A creation in which every call works. */
  method Make(n: NfsProvisioner, name: string, rootSquash: bool, limit: string)
    returns (v: Volume, ghost e: Export, ghost p: Project)
    requires HasRoom(n, name, limit)
    modifies n, n.exporter, n.quotaer
    ensures n.Valid() && n.directories == old(n.directories) + {n.PathOf(name)}
    ensures n.Made(v, e, p) && v.path == n.PathOf(name)
    ensures e == Export(e.id, v.path, rootSquash, n.subnet) && p == Project(p.id, v.path, limit)
    ensures Q.IsNextId(old(n.exporter.exportIDs), e.id) && Q.IsNextId(old(n.quotaer.projectIDs), p.id)
    ensures n.exporter.live == old(n.exporter.live) + [e]
    ensures n.exporter.exportIDs == old(n.exporter.exportIDs)[e.id := true]
    ensures n.quotaer.live == old(n.quotaer.live) + [p]
    ensures n.quotaer.projectIDs == old(n.quotaer.projectIDs)[p.id := true]
  {
    var made := n.CreateVolume(name, rootSquash, limit, CREATES);
    v := made.value;
    e := Export(v.exported.id, v.path, rootSquash, n.subnet);
    p := Project(v.project.id, v.path, limit);
  }

  /** A deletion in which every call works. */
  method DeleteWell(n: NfsProvisioner, v: Volume, ghost e: Export, ghost p: Project)
    requires n.Valid() && n.Made(v, e, p)
    modifies n, n.exporter, n.quotaer
    ensures n.directories == old(n.directories) - {v.path}
    ensures n.exporter.exportIDs == old(n.exporter.exportIDs) - {e.id}
    ensures n.exporter.live == WithoutLine(old(n.exporter.live), e)
    ensures n.quotaer.projectIDs == old(n.quotaer.projectIDs) - {p.id}
    ensures n.quotaer.live == Without(old(n.quotaer.live), p)
    ensures n.exporter.Valid() <==> HasLine(old(n.exporter.live), e) || e.id !in old(n.exporter.exportIDs)
    ensures n.quotaer.Valid() <==> p in old(n.quotaer.live) || p.id !in old(n.quotaer.projectIDs)
    ensures Unexplained(n.exporter.exportIDs, n.exporter.config) <==> !n.exporter.Valid()
    ensures Q.Inconsistent(n.quotaer.projectIDs, n.quotaer.file) <==> !n.quotaer.Valid()
  {
    var deleted := n.DeleteVolume(v, DELETES, e, p);
  }

  /** The newest volume goes. */
  method DeleteNewest(n: NfsProvisioner, v: Volume, ghost e: Export, ghost p: Project, ghost exports: seq<Export>,
                      ghost exportIDs: map<uint16, bool>, ghost projects: seq<Project>,
                      ghost projectIDs: map<uint16, bool>)
    requires n.Valid() && n.Made(v, e, p)
    requires n.exporter.live == exports + [e] && n.exporter.exportIDs == exportIDs[e.id := true] && e.id !in exportIDs
    requires n.quotaer.live == projects + [p] && n.quotaer.projectIDs == projectIDs[p.id := true] && p.id !in projectIDs
    requires ExportsOk(exports) && exportIDs.Keys == ExportIds(exports) && projectIDs.Keys == Ids(projects)
    modifies n, n.exporter, n.quotaer
    ensures n.Valid() && n.directories == old(n.directories) - {v.path}
    ensures n.exporter.live == exports && n.exporter.exportIDs == exportIDs
    ensures n.quotaer.live == projects && n.quotaer.projectIDs == projectIDs
  {
    LastGoes(exports, exportIDs, e);
    NewProject(projects, projectIDs, p);
    DeleteWell(n, v, e, p);
  }

  /** A volume is made and deleted: everything is as before. */
  method MakeAndDelete(n: NfsProvisioner, name: string, rootSquash: bool, limit: string)
    returns (v: Volume, ghost e: Export, ghost p: Project)
    requires HasRoom(n, name, limit)
    modifies n, n.exporter, n.quotaer
    ensures n.Valid() && n.directories == old(n.directories)
    ensures n.exporter.live == old(n.exporter.live) && n.exporter.exportIDs == old(n.exporter.exportIDs)
    ensures n.quotaer.live == old(n.quotaer.live) && n.quotaer.projectIDs == old(n.quotaer.projectIDs)
    ensures n.Made(v, e, p) && e.path == n.PathOf(name) && e.rootSquash == rootSquash && e.subnet == n.subnet
    ensures Q.IsNextId(n.exporter.exportIDs, e.id) && Q.IsNextId(n.quotaer.projectIDs, p.id)
  {
    ghost var exports, projects := n.exporter.live, n.quotaer.live;
    ghost var exportIDs, projectIDs := n.exporter.exportIDs, n.quotaer.projectIDs;
    v, e, p := Make(n, name, rootSquash, limit);
    DeleteNewest(n, v, e, p, exports, exportIDs, projects, projectIDs);
  }

  /** A volume is made and deleted, but the object in the API server stays, so that the deletion
      will be repeated. Another volume is made in between: it gets the same two ids, and the
      second deletion takes them away from it. No lists explain maps and files any more, and the
      ids of the live volume are the next to be given out. */
  method RepeatedDeletion(n: NfsProvisioner, a: string, b: string, rootSquash: bool, limit: string)
    returns (ghost e: Export, ghost p: Project)
    requires HasRoom(n, a, limit) && HasRoom(n, b, limit) && a != b
    modifies n, n.exporter, n.quotaer
    ensures e.path == p.directory == n.PathOf(b) && e in n.exporter.live && p in n.quotaer.live
    ensures Unexplained(n.exporter.exportIDs, n.exporter.config) && Q.IsNextId(n.exporter.exportIDs, e.id)
    ensures Q.Inconsistent(n.quotaer.projectIDs, n.quotaer.file) && Q.IsNextId(n.quotaer.projectIDs, p.id)
  {
    ghost var exports, projects := n.exporter.live, n.quotaer.live;
    ghost var exportIDs, projectIDs := n.exporter.exportIDs, n.quotaer.projectIDs;
    var first, e', p' := MakeAndDelete(n, a, rootSquash, limit);
    var second;
    second, e, p := Make(n, b, rootSquash, limit);
    PathsApart(n.exportDir, a, b);
    NextIdUnique(exportIDs, e.id, e'.id);
    NextIdUnique(projectIDs, p.id, p'.id);
    NewLine(exports, exportIDs, e', e);
    NewProject(projects, projectIDs, p');
    DeleteWell(n, first, e', p');
  }

  lemma PathsApart(exportDir: string, a: string, b: string)
    requires a != b
    ensures exportDir + "/" + a != exportDir + "/" + b
  {
    assert (exportDir + "/" + a)[|exportDir| + 1..] == a && (exportDir + "/" + b)[|exportDir| + 1..] == b;
  }
}
