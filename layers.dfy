/**
 * The layer snapshot (`BuildSystem.copy_bitbake_and_layers`): every layer of
 * BBLAYERS, then COREBASE, is copied under a destination directory unless
 * it is a devtool workspace layer; a layer that sits directly inside
 * COREBASE keeps that nesting; COREBASE itself is not copied whole but file
 * by file from COREBASE_FILES, together with the bitbake directory; any
 * other layer is copied only when its destination is not there yet.  The
 * result lists each handled layer relative to the destination directory.
 *
 * The file system is abstract: a set of existing paths and the list of copy
 * actions performed so far.  The first line of each layer's
 * `conf/layer.conf` is an input: a path missing from the map has no such file.
 */
module Layers {
  import opened Text
  import opened Paths

  /** A `layer.conf` whose first line starts with this belongs to a devtool workspace. */
  const WorkspaceMarker: string := "# ### workspace layer auto-generated by devtool ###"

  /**
   * The configuration the copier reads, already resolved: BBLAYERS and
   * COREBASE_FILES split into words, COREBASE, and the path of bitbake's
   * `bb/__init__.py` (`bb.__file__`).
   */
  datatype BuildSystem = BuildSystem(layerdirs: seq<string>, corebase: string,
                                     corebaseFiles: seq<string>, bitbakeFile: string)

  /** One `_smart_copy(src, dest)`. */
  datatype Copy = Copy(src: string, dest: string)

  /** What one run depends on besides the file system's paths. */
  datatype Request = Request(system: BuildSystem, destdir: string, cwd: string,
                             layerConfs: map<string, string>)

  /** The outcome of a run: creating the destination directory failed, or the list of layers copied. */
  datatype Outcome = MakeDirsFailed | Copied(layersCopied: seq<string>)

  /**
   * The file system as the copier sees it: the paths that exist and the
   * copies made, in order.
   */
  class FileTree {
    var paths: set<string>
    var copies: seq<Copy>

    constructor(existing: set<string>)
      ensures paths == existing && copies == []
    {
      paths := existing;
      copies := [];
    }

    /** `os.path.exists(p)`. */
    predicate Exists(p: string)
      reads this
    {
      p in paths
    }

    /**
     * `bb.utils.mkdirhier(dir)`: creates `dir` (an existing one is fine);
     * fails on the empty path, for which `os.makedirs` raises.
     */
    method MakeDirs(dir: string) returns (ok: bool)
      modifies this
      ensures ok == (dir != "")
      ensures paths == if ok then old(paths) + {dir} else old(paths)
      ensures copies == old(copies)
    {
      ok := dir != "";
      if ok {
        paths := paths + {dir};
      }
    }

    /** `_smart_copy(src, dest)`: records the copy; afterwards `dest` exists. */
    method SmartCopy(src: string, dest: string)
      modifies this
      ensures paths == old(paths) + {dest}
      ensures copies == old(copies) + [Copy(src, dest)]
    {
      paths := paths + {dest};
      copies := copies + [Copy(src, dest)];
    }
  }

  /** `bb.__file__.rsplit('/', 3)[0]`: the bitbake directory, three levels above its `bb/__init__.py`. */
  function BitbakeDir(bitbakeFile: string): string
  {
    RSplitHead(bitbakeFile, Sep, 3)
  }

  /** The layers in processing order: BBLAYERS, then COREBASE. */
  function LayerList(system: BuildSystem): seq<string>
  {
    system.layerdirs + [system.corebase]
  }

  /** What is copied into the core layer: each COREBASE_FILES entry under COREBASE, then the bitbake directory. */
  function CorebaseSources(system: BuildSystem): seq<string>
  {
    seq(|system.corebaseFiles|, i requires 0 <= i < |system.corebaseFiles| =>
          Child(system.corebase, system.corebaseFiles[i]))
    + [BitbakeDir(system.bitbakeFile)]
  }

  /** `os.path.join(layer, 'conf', 'layer.conf')`. */
  function LayerConfPath(layer: string): string
  {
    PathJoin(PathJoin(layer, "conf"), "layer.conf")
  }

  /**
   * The configuration file sits under the layer: one separator is added
   * unless the layer path is empty or already ends with one.
   */
  lemma LayerConfPathOf(layer: string)
    ensures LayerConfPath(layer)
            == if layer == [] || EndsWith(layer, [Sep]) then layer + "conf/layer.conf"
               else layer + "/conf/layer.conf"
  {
    if layer == [] || EndsWith(layer, [Sep]) {
      LayerConfPathAfterSeparator(layer);
    } else {
      LayerConfPathAddsSeparator(layer);
    }
  }

  /** A layer path such as `/poky/meta` gets `/conf/layer.conf`. */
  lemma LayerConfPathAddsSeparator(layer: string)
    requires layer != [] && !EndsWith(layer, [Sep])
    ensures LayerConfPath(layer) == layer + "/conf/layer.conf"
  {
  }

  /** An empty layer path, or one such as `/poky/meta/`, gets `conf/layer.conf`. */
  lemma LayerConfPathAfterSeparator(layer: string)
    requires layer == [] || EndsWith(layer, [Sep])
    ensures LayerConfPath(layer) == layer + "conf/layer.conf"
  {
    assert "conf"[0] != Sep && "layer.conf"[0] != Sep;
    var dir := layer + "conf";
    assert dir[|dir| - 1..] == ['f'];
    assert LayerConfPath(layer) == dir + [Sep] + "layer.conf";
    assert "conf" + [Sep] + "layer.conf" == "conf/layer.conf";
    assert dir + [Sep] + "layer.conf" == layer + ("conf" + [Sep] + "layer.conf");
  }

  /** The layer's `layer.conf` exists and its first line carries the workspace marker. */
  predicate IsWorkspaceLayer(layerConfs: map<string, string>, layer: string)
  {
    LayerConfPath(layer) in layerConfs && StartsWith(layerConfs[LayerConfPath(layer)], WorkspaceMarker)
  }

  /**
   * Where a layer goes: `destdir/basename(layer)`, or
   * `destdir/basename(corebase)/basename(layer)` when the layer's parent
   * directory is COREBASE.
   */
  function LayerDestPath(destdir: string, corebase: string, layer: string): (dest: string)
    ensures |dest| > |destdir|
  {
    var parent := if corebase == Dirname(layer) then Child(destdir, Basename(corebase)) else destdir;
    Child(parent, Basename(layer))
  }

  /** The entry listed for a layer: its destination relative to `destdir`. */
  function EntryOf(req: Request, layer: string): string
  {
    RelPath(LayerDestPath(req.destdir, req.system.corebase, layer), req.destdir, req.cwd)
  }

  /** `os.path.join(dir, os.path.basename(src))`: where a core-layer source is copied to. */
  function CopyTarget(dir: string, src: string): string
  {
    PathJoin(dir, Basename(src))
  }

  /** The core layer's copies into `dir`: each source to `dir/basename(source)`, in order. */
  function CopiesInto(dir: string, srcs: seq<string>): (cs: seq<Copy>)
    ensures |cs| == |srcs|
    decreases |srcs|
  {
    if srcs == [] then []
    else
      var init, last := srcs[..|srcs| - 1], srcs[|srcs| - 1];
      CopiesInto(dir, init) + [Copy(last, CopyTarget(dir, last))]
  }

  /** The `i`-th copy into `dir` takes the `i`-th source to `dir/basename(source)`. */
  lemma {:induction false} CopiesIntoElement(dir: string, srcs: seq<string>, i: nat)
    requires i < |srcs|
    ensures CopiesInto(dir, srcs)[i] == Copy(srcs[i], CopyTarget(dir, srcs[i]))
    decreases |srcs|
  {
    if i < |srcs| - 1 {
      var init := srcs[..|srcs| - 1];
      assert init[i] == srcs[i];
      CopiesIntoElement(dir, init, i);
    }
  }

  /** The destinations of a list of copies. */
  function Dests(cs: seq<Copy>): set<string>
  {
    set c | c in cs :: c.dest
  }

  /**
   * The entries listed for `layers`: one per non-workspace layer, in order.
   * They depend on the layer names and the `layer.conf` first lines only,
   * not on which paths exist.
   */
  function Entries(req: Request, layers: seq<string>): seq<string>
    decreases |layers|
  {
    if layers == [] then []
    else
      var layer := layers[|layers| - 1];
      Entries(req, layers[..|layers| - 1])
      + (if IsWorkspaceLayer(req.layerConfs, layer) then [] else [EntryOf(req, layer)])
  }

  /** The file system state a run has reached: the paths that exist and the copies made. */
  datatype Progress = Progress(paths: set<string>, copies: seq<Copy>)

  /** Handling one layer (the body of the source's loop). */
  function Step(req: Request, p: Progress, layer: string): Progress
  {
    if IsWorkspaceLayer(req.layerConfs, layer) then p
    else
      var dest := LayerDestPath(req.destdir, req.system.corebase, layer);
      if layer == req.system.corebase then
        var cs := CopiesInto(dest, CorebaseSources(req.system));
        Progress(p.paths + {dest} + Dests(cs), p.copies + cs)
      else if dest in p.paths then p
      else Progress(p.paths + {dest}, p.copies + [Copy(layer, dest)])
  }

  /** Handling `layers` in order, starting from `p`. */
  function Run(req: Request, p: Progress, layers: seq<string>): Progress
    decreases |layers|
  {
    if layers == [] then p
    else Step(req, Run(req, p, layers[..|layers| - 1]), layers[|layers| - 1])
  }

  /** A whole run on a file system whose paths are `existing`, once `destdir` has been created. */
  function Planned(req: Request, existing: set<string>): Progress
  {
    Run(req, Progress(existing + {req.destdir}, []), LayerList(req.system))
  }

  /**
   * `copy_bitbake_and_layers(destdir)` on the file system `fs`: it returns
   * the `Entries` of the layer list, and the paths and copies it leaves are
   * those of `Planned`; with an empty `destdir` the first `mkdirhier`
   * raises and nothing changes.
   */
  method CopyBitbakeAndLayers(system: BuildSystem, destdir: string, cwd: string,
                              layerConfs: map<string, string>, fs: FileTree)
    returns (r: Outcome)
    modifies fs
    ensures destdir == "" ==> r == MakeDirsFailed && fs.paths == old(fs.paths) && fs.copies == old(fs.copies)
    ensures destdir != "" ==>
      var req := Request(system, destdir, cwd, layerConfs);
      var p := Planned(req, old(fs.paths));
      r == Copied(Entries(req, LayerList(system))) && fs.paths == p.paths && fs.copies == old(fs.copies) + p.copies
  {
    var req := Request(system, destdir, cwd, layerConfs);
    ghost var copies0 := fs.copies;
    var ok := fs.MakeDirs(destdir);
    if !ok {
      return MakeDirsFailed;
    }
    ghost var p0 := Progress(fs.paths, []);
    var layersCopied: seq<string> := [];
    var layers := system.layerdirs + [system.corebase];
    var corebaseFiles := seq(|system.corebaseFiles|, i requires 0 <= i < |system.corebaseFiles| =>
                               system.corebase + "/" + system.corebaseFiles[i]);
    corebaseFiles := corebaseFiles + [BitbakeDir(system.bitbakeFile)];
    assert corebaseFiles == CorebaseSources(system);
    ghost var prog := p0;
    for i := 0 to |layers|
      invariant prog == Run(req, p0, layers[..i]) && layersCopied == Entries(req, layers[..i])
      invariant fs.paths == prog.paths && fs.copies == copies0 + prog.copies
    {
      var layer := layers[i];
      RunOneMore(req, p0, layers, i);
      EntriesOneMore(req, layers, i);
      var layerconf := LayerConfPath(layer);
      if layerconf in layerConfs && StartsWith(layerConfs[layerconf], WorkspaceMarker) {
        WorkspaceLayerSkipped(req, prog, layer);
        continue;
      }
      layersCopied := CopyLayer(req, corebaseFiles, layersCopied, fs, layer, prog, copies0);
      prog := Step(req, prog, layer);
    }
    assert layers[..|layers|] == layers;
    return Copied(layersCopied);
  }

  /**
   * One layer that is not a workspace layer: its entry is listed; the core
   * layer's directory is created and its sources copied into it; any other
   * layer is copied unless its destination exists.
   */
  method CopyLayer(req: Request, corebaseFiles: seq<string>, layersCopied: seq<string>, fs: FileTree,
                   layer: string, ghost before: Progress, ghost copies0: seq<Copy>)
    returns (listed: seq<string>)
    requires !IsWorkspaceLayer(req.layerConfs, layer)
    requires corebaseFiles == CorebaseSources(req.system)
    requires fs.paths == before.paths && fs.copies == copies0 + before.copies
    modifies fs
    ensures listed == layersCopied + [EntryOf(req, layer)]
    ensures fs.paths == Step(req, before, layer).paths
    ensures fs.copies == copies0 + Step(req, before, layer).copies
  {
    var layerdestpath := LayerDestPath(req.destdir, req.system.corebase, layer);
    listed := layersCopied + [EntryOf(req, layer)];
    if req.system.corebase == layer {
      var made := fs.MakeDirs(layerdestpath);
      assert made;
      CopyFilesInto(fs, layerdestpath, corebaseFiles);
      AppendAssoc(copies0, before.copies, CopiesInto(layerdestpath, corebaseFiles));
    } else if !fs.Exists(layerdestpath) {
      fs.SmartCopy(layer, layerdestpath);
      AppendAssoc(copies0, before.copies, [Copy(layer, layerdestpath)]);
    }
  }

  /**
   * Regrouping the copies made before and during one layer. Stated on its own:
   * proved inside `CopyLayer`, next to `Step` and `LayerDestPath`, the same
   * equation costs the solver several times as much.
   */
  lemma AppendAssoc(a: seq<Copy>, b: seq<Copy>, c: seq<Copy>)
    ensures a + (b + c) == a + b + c
  {
  }

  /** The core-layer loop: each source copied to `dir/basename(source)`, in order. */
  method CopyFilesInto(fs: FileTree, dir: string, srcs: seq<string>)
    modifies fs
    ensures fs.copies == old(fs.copies) + CopiesInto(dir, srcs)
    ensures fs.paths == old(fs.paths) + Dests(CopiesInto(dir, srcs))
  {
    for j := 0 to |srcs|
      invariant fs.copies == old(fs.copies) + CopiesInto(dir, srcs[..j])
      invariant fs.paths == old(fs.paths) + Dests(CopiesInto(dir, srcs[..j]))
    {
      var f := srcs[j];
      var destname := CopyTarget(dir, f);
      ghost var done := CopiesInto(dir, srcs[..j]);
      fs.SmartCopy(f, destname);
      CopiesIntoSnoc(dir, srcs, j);
      AppendAssoc(old(fs.copies), done, [Copy(f, destname)]);
      assert forall d :: d in done + [Copy(f, destname)] <==> d in done || d == Copy(f, destname);
      assert Dests(done + [Copy(f, destname)]) == Dests(done) + {destname};
    }
    assert srcs[..|srcs|] == srcs;
  }

  /** Copying one more source appends its copy. */
  lemma CopiesIntoSnoc(dir: string, srcs: seq<string>, j: nat)
    requires j < |srcs|
    ensures CopiesInto(dir, srcs[..j + 1]) == CopiesInto(dir, srcs[..j]) + [Copy(srcs[j], CopyTarget(dir, srcs[j]))]
  {
    assert srcs[..j + 1][..j] == srcs[..j];
  }

  /** Handling one more layer of a list is one more `Step`. */
  lemma RunOneMore(req: Request, p: Progress, layers: seq<string>, i: nat)
    requires i < |layers|
    ensures Run(req, p, layers[..i + 1]) == Step(req, Run(req, p, layers[..i]), layers[i])
  {
    assert layers[..i + 1][..i] == layers[..i];
  }

  /** The paths after one step: the destination, and for COREBASE the targets of its copies, are added. */
  lemma StepPaths(req: Request, p: Progress, layer: string)
    ensures
      var dest := LayerDestPath(req.destdir, req.system.corebase, layer);
      Step(req, p, layer).paths
        == p.paths + (if IsWorkspaceLayer(req.layerConfs, layer) then {}
                      else {dest} + (if layer == req.system.corebase
                                     then Dests(CopiesInto(dest, CorebaseSources(req.system))) else {}))
  {
  }

  /** The copies after one step. */
  lemma StepCopies(req: Request, p: Progress, layer: string)
    ensures
      var dest := LayerDestPath(req.destdir, req.system.corebase, layer);
      Step(req, p, layer).copies
        == if IsWorkspaceLayer(req.layerConfs, layer) then p.copies
           else if layer == req.system.corebase then p.copies + CopiesInto(dest, CorebaseSources(req.system))
           else if dest in p.paths then p.copies
           else p.copies + [Copy(layer, dest)]
  {
  }

  /** Listing one more layer of a list. */
  lemma EntriesOneMore(req: Request, layers: seq<string>, i: nat)
    requires i < |layers|
    ensures Entries(req, layers[..i + 1])
            == Entries(req, layers[..i]) + (if IsWorkspaceLayer(req.layerConfs, layers[i]) then [] else [EntryOf(req, layers[i])])
  {
    assert layers[..i + 1][..i] == layers[..i];
  }

  /** A workspace layer leaves the progress as it was. */
  lemma WorkspaceLayerSkipped(req: Request, p: Progress, layer: string)
    requires IsWorkspaceLayer(req.layerConfs, layer)
    ensures Step(req, p, layer) == p
  {
  }

  /**
   * The paths handling `layers` makes sure of, whatever existed before: the
   * destination of every non-workspace layer and, for the core layer, the
   * target of each of its sources.
   */
  function Created(req: Request, layers: seq<string>): set<string>
    decreases |layers|
  {
    if layers == [] then {}
    else
      var layer := layers[|layers| - 1];
      var dest := LayerDestPath(req.destdir, req.system.corebase, layer);
      Created(req, layers[..|layers| - 1])
      + (if IsWorkspaceLayer(req.layerConfs, layer) then {}
         else {dest} + (if layer == req.system.corebase
                        then Dests(CopiesInto(dest, CorebaseSources(req.system))) else {}))
  }

  /** Entries of a concatenation are the concatenation of the entries. */
  lemma {:induction false} EntriesAppend(req: Request, a: seq<string>, b: seq<string>)
    ensures Entries(req, a + b) == Entries(req, a) + Entries(req, b)
    decreases |b|
  {
    if b == [] {
      assert a + b == a;
    } else {
      assert (a + b)[..|a + b| - 1] == a + b[..|b| - 1];
      EntriesAppend(req, a, b[..|b| - 1]);
    }
  }

  /**
   * The list `copy_bitbake_and_layers` returns: an entry for each
   * non-workspace layer of BBLAYERS in order, then one for COREBASE unless it
   * is a workspace layer.
   */
  lemma EntriesOfLayerList(req: Request)
    ensures Entries(req, LayerList(req.system))
            == Entries(req, req.system.layerdirs)
               + (if IsWorkspaceLayer(req.layerConfs, req.system.corebase) then [] else [EntryOf(req, req.system.corebase)])
  {
    var system := req.system;
    EntriesAppend(req, system.layerdirs, [system.corebase]);
    assert [system.corebase][..0] == [];
  }

  /** A run adds exactly `Created` to the paths: nothing is removed, and only destinations appear. */
  lemma {:induction false} RunPaths(req: Request, p: Progress, layers: seq<string>)
    ensures Run(req, p, layers).paths == p.paths + Created(req, layers)
    decreases |layers|
  {
    if layers != [] {
      var init := layers[..|layers| - 1];
      RunPaths(req, p, init);
      StepPaths(req, Run(req, p, init), layers[|layers| - 1]);
    }
  }

  /** Every non-workspace layer's destination is among the paths `Created` names. */
  lemma {:induction false} CreatedHoldsDestination(req: Request, layers: seq<string>, j: nat)
    requires j < |layers| && !IsWorkspaceLayer(req.layerConfs, layers[j])
    ensures LayerDestPath(req.destdir, req.system.corebase, layers[j]) in Created(req, layers)
    decreases |layers|
  {
    if j < |layers| - 1 {
      var init := layers[..|layers| - 1];
      assert init[j] == layers[j];
      CreatedHoldsDestination(req, init, j);
    }
  }

  /** After a run, the destination of every layer it did not skip exists. */
  lemma DestinationsExist(req: Request, p: Progress, layers: seq<string>)
    ensures forall layer :: layer in layers && !IsWorkspaceLayer(req.layerConfs, layer) ==>
              LayerDestPath(req.destdir, req.system.corebase, layer) in Run(req, p, layers).paths
  {
    RunPaths(req, p, layers);
    CreatedHoldsDestinations(req, layers);
  }

  /** `Created` names the destination of every non-workspace layer of the list. */
  lemma CreatedHoldsDestinations(req: Request, layers: seq<string>)
    ensures forall layer :: layer in layers && !IsWorkspaceLayer(req.layerConfs, layer) ==>
              LayerDestPath(req.destdir, req.system.corebase, layer) in Created(req, layers)
  {
    forall layer | layer in layers && !IsWorkspaceLayer(req.layerConfs, layer)
      ensures LayerDestPath(req.destdir, req.system.corebase, layer) in Created(req, layers)
    {
      var j :| 0 <= j < |layers| && layers[j] == layer;
      CreatedHoldsDestination(req, layers, j);
    }
  }

  /**
   * A layer other than COREBASE is copied, as one `Copy(layer, dest)`, if
   * and only if its destination is neither an existing path nor one made by
   * an earlier layer; otherwise it adds no copy.
   */
  lemma LayerCopiedOnlyIfNew(req: Request, p: Progress, layers: seq<string>, k: nat)
    requires k < |layers|
    requires layers[k] != req.system.corebase && !IsWorkspaceLayer(req.layerConfs, layers[k])
    ensures
      var before := Run(req, p, layers[..k]).copies;
      var dest := LayerDestPath(req.destdir, req.system.corebase, layers[k]);
      Run(req, p, layers[..k + 1]).copies
        == if dest in p.paths + Created(req, layers[..k]) then before else before + [Copy(layers[k], dest)]
  {
    RunOneMore(req, p, layers, k);
    RunPaths(req, p, layers[..k]);
  }

  /** A layer other than COREBASE whose destination already exists is not copied over it. */
  lemma ExistingDestinationNotOverwritten(req: Request, p: Progress, layers: seq<string>, k: nat)
    requires k < |layers| && layers[k] != req.system.corebase
    requires LayerDestPath(req.destdir, req.system.corebase, layers[k]) in p.paths
    ensures Run(req, p, layers[..k + 1]).copies == Run(req, p, layers[..k]).copies
  {
    RunOneMore(req, p, layers, k);
    RunPaths(req, p, layers[..k]);
    if IsWorkspaceLayer(req.layerConfs, layers[k]) {
      WorkspaceLayerSkipped(req, Run(req, p, layers[..k]), layers[k]);
    }
  }

  /** A later layer other than COREBASE with the same destination as an earlier copied one adds no copy. */
  lemma DuplicateDestinationCopiedOnce(req: Request, p: Progress, layers: seq<string>, j: nat, k: nat)
    requires j < k < |layers|
    requires !IsWorkspaceLayer(req.layerConfs, layers[j]) && layers[k] != req.system.corebase
    requires LayerDestPath(req.destdir, req.system.corebase, layers[j])
             == LayerDestPath(req.destdir, req.system.corebase, layers[k])
    ensures Run(req, p, layers[..k + 1]).copies == Run(req, p, layers[..k]).copies
  {
    assert layers[..k][j] == layers[j];
    CreatedHoldsDestination(req, layers[..k], j);
    RunOneMore(req, p, layers, k);
    RunPaths(req, p, layers[..k]);
    if IsWorkspaceLayer(req.layerConfs, layers[k]) {
      WorkspaceLayerSkipped(req, Run(req, p, layers[..k]), layers[k]);
    }
  }

  /**
   * Where a copy can come from: a non-workspace layer other than COREBASE
   * copied to its destination, or a core-layer source copied into the
   * destination of a non-workspace COREBASE.
   */
  predicate ExplainedCopy(req: Request, layers: seq<string>, c: Copy)
  {
    var corebase := req.system.corebase;
    (c.src in layers && c.src != corebase && !IsWorkspaceLayer(req.layerConfs, c.src)
     && c.dest == LayerDestPath(req.destdir, corebase, c.src))
    || (corebase in layers && !IsWorkspaceLayer(req.layerConfs, corebase) && c.src in CorebaseSources(req.system)
        && c.dest == CopyTarget(LayerDestPath(req.destdir, corebase, corebase), c.src))
  }

  /** A run only appends copies, and each copy it appends is explained by one of the layers. */
  lemma {:induction false} CopiesAreExplained(req: Request, p: Progress, layers: seq<string>)
    ensures p.copies <= Run(req, p, layers).copies
    ensures forall c :: c in Run(req, p, layers).copies[|p.copies|..] ==> ExplainedCopy(req, layers, c)
    decreases |layers|
  {
    if layers != [] {
      var init := layers[..|layers| - 1];
      CopiesAreExplained(req, p, init);
      var before := Run(req, p, init).copies;
      var after := Run(req, p, layers).copies;
      StepCopiesExplained(req, Run(req, p, init), layers);
      assert before == after[..|before|];
      assert after[|p.copies|..] == before[|p.copies|..] + after[|before|..];
      forall c | c in after[|p.copies|..] ensures ExplainedCopy(req, layers, c) {
        if c in before[|p.copies|..] {
          ExplainedByLongerList(req, layers, c);
        } else {
          assert c in after[|before|..];
        }
      }
    }
  }

  /** The copies one step adds are explained by its layer. */
  lemma StepCopiesExplained(req: Request, q: Progress, layers: seq<string>)
    requires layers != []
    ensures q.copies <= Step(req, q, layers[|layers| - 1]).copies
    ensures forall c :: c in Step(req, q, layers[|layers| - 1]).copies[|q.copies|..] ==> ExplainedCopy(req, layers, c)
  {
    var layer := layers[|layers| - 1];
    var dest := LayerDestPath(req.destdir, req.system.corebase, layer);
    StepCopies(req, q, layer);
    assert layer in layers;
    if IsWorkspaceLayer(req.layerConfs, layer) {
    } else if layer == req.system.corebase {
      var cs := CopiesInto(dest, CorebaseSources(req.system));
      assert (q.copies + cs)[|q.copies|..] == cs;
      CorebaseCopiesExplained(req, layers);
    } else if dest !in q.paths {
      assert (q.copies + [Copy(layer, dest)])[|q.copies|..] == [Copy(layer, dest)];
      assert ExplainedCopy(req, layers, Copy(layer, dest));
    }
  }

  /** What the core layer copies is explained by it, when it is listed and not a workspace layer. */
  lemma CorebaseCopiesExplained(req: Request, layers: seq<string>)
    requires req.system.corebase in layers && !IsWorkspaceLayer(req.layerConfs, req.system.corebase)
    ensures
      var dest := LayerDestPath(req.destdir, req.system.corebase, req.system.corebase);
      forall c :: c in CopiesInto(dest, CorebaseSources(req.system)) ==> ExplainedCopy(req, layers, c)
  {
    var dest := LayerDestPath(req.destdir, req.system.corebase, req.system.corebase);
    var srcs := CorebaseSources(req.system);
    var cs := CopiesInto(dest, srcs);
    forall c | c in cs ensures ExplainedCopy(req, layers, c) {
      var i :| 0 <= i < |cs| && cs[i] == c;
      CopiesIntoElement(dest, srcs, i);
      assert c == Copy(srcs[i], CopyTarget(dest, srcs[i]));
      assert srcs[i] in srcs;
    }
  }


  /** A copy explained by all but the last layer is explained by the whole list. */
  lemma ExplainedByLongerList(req: Request, layers: seq<string>, c: Copy)
    requires layers != [] && ExplainedCopy(req, layers[..|layers| - 1], c)
    ensures ExplainedCopy(req, layers, c)
  {
    var init := layers[..|layers| - 1];
    assert forall x :: x in init ==> x in layers;
  }

  /** A workspace layer is never a copy's source, unless it is also one of the core layer's sources. */
  lemma WorkspaceLayerNeverCopied(req: Request, p: Progress, layers: seq<string>, layer: string)
    requires IsWorkspaceLayer(req.layerConfs, layer) && layer !in CorebaseSources(req.system)
    ensures p.copies <= Run(req, p, layers).copies
    ensures forall c :: c in Run(req, p, layers).copies[|p.copies|..] ==> c.src != layer
  {
    CopiesAreExplained(req, p, layers);
  }

  /**
   * COREBASE (not a workspace layer, with a non-empty basename) gets its
   * directory and, in list order, one copy per COREBASE_FILES entry, from
   * `corebase/entry` to `dest/basename(entry)`, then one of the bitbake
   * directory to `dest/basename(bitbake directory)`.
   */
  lemma CorebaseCopies(req: Request, p: Progress)
    requires !IsWorkspaceLayer(req.layerConfs, req.system.corebase)
    requires Basename(req.system.corebase) != ""
    ensures
      var system := req.system;
      var dest := LayerDestPath(req.destdir, system.corebase, system.corebase);
      var after := Step(req, p, system.corebase);
      var added := after.copies[|p.copies|..];
      var files := system.corebaseFiles;
      var bitbake := BitbakeDir(system.bitbakeFile);
      && dest in after.paths
      && p.copies <= after.copies
      && |added| == |files| + 1
      && (forall i :: 0 <= i < |files| ==>
            added[i] == Copy(Child(system.corebase, files[i]), Child(dest, Basename(files[i]))))
      && added[|files|] == Copy(bitbake, Child(dest, Basename(bitbake)))
  {
    var system := req.system;
    var dest := LayerDestPath(req.destdir, system.corebase, system.corebase);
    var cs := CopiesInto(dest, CorebaseSources(system));
    StepCopies(req, p, system.corebase);
    StepPaths(req, p, system.corebase);
    assert (p.copies + cs)[|p.copies|..] == cs;
    forall i | 0 <= i < |system.corebaseFiles|
      ensures cs[i] == Copy(Child(system.corebase, system.corebaseFiles[i]), Child(dest, Basename(system.corebaseFiles[i])))
    {
      CorebaseFileCopy(req, i);
    }
    BitbakeCopy(req);
  }

  /** The `i`-th core-layer copy takes `corebase/entry` to `dest/basename(entry)`. */
  lemma CorebaseFileCopy(req: Request, i: nat)
    requires Basename(req.system.corebase) != ""
    requires i < |req.system.corebaseFiles|
    ensures
      var system := req.system;
      var dest := LayerDestPath(req.destdir, system.corebase, system.corebase);
      var f := system.corebaseFiles[i];
      CopiesInto(dest, CorebaseSources(system))[i] == Copy(Child(system.corebase, f), Child(dest, Basename(f)))
  {
    var system := req.system;
    var dest := LayerDestPath(req.destdir, system.corebase, system.corebase);
    var srcs := CorebaseSources(system);
    var f := system.corebaseFiles[i];
    assert srcs[i] == Child(system.corebase, f);
    CopiesIntoElement(dest, srcs, i);
    CorebaseDestination(req.destdir, system.corebase);
    CopyTargetBelow(dest, srcs[i]);
    BasenameUnderParent(system.corebase, f);
  }

  /** The last core-layer copy takes the bitbake directory to `dest/basename(bitbake directory)`. */
  lemma BitbakeCopy(req: Request)
    requires Basename(req.system.corebase) != ""
    ensures
      var system := req.system;
      var dest := LayerDestPath(req.destdir, system.corebase, system.corebase);
      var bitbake := BitbakeDir(system.bitbakeFile);
      CopiesInto(dest, CorebaseSources(system))[|system.corebaseFiles|] == Copy(bitbake, Child(dest, Basename(bitbake)))
  {
    var system := req.system;
    var dest := LayerDestPath(req.destdir, system.corebase, system.corebase);
    var srcs := CorebaseSources(system);
    assert srcs[|system.corebaseFiles|] == BitbakeDir(system.bitbakeFile);
    CopiesIntoElement(dest, srcs, |system.corebaseFiles|);
    CorebaseDestination(req.destdir, system.corebase);
    CopyTargetBelow(dest, srcs[|system.corebaseFiles|]);
  }

  /** The core layer's destination does not end in a separator when COREBASE's basename is not empty. */
  lemma CorebaseDestination(destdir: string, corebase: string)
    requires Basename(corebase) != ""
    ensures
      var dest := LayerDestPath(destdir, corebase, corebase);
      dest != "" && !EndsWith(dest, [Sep])
  {
    var dest := LayerDestPath(destdir, corebase, corebase);
    var b := Basename(corebase);
    assert dest[|dest| - 1] == b[|b| - 1];
    assert b[|b| - 1] in b;
    assert dest[|dest| - 1..] == [dest[|dest| - 1]];
  }

  /** Joining a basename onto a directory that does not end in a separator puts one in between. */
  lemma CopyTargetBelow(dir: string, f: string)
    requires dir != "" && !EndsWith(dir, [Sep])
    ensures CopyTarget(dir, f) == Child(dir, Basename(f))
  {
    var b := Basename(f);
    BasenameLacksSeparator(f);
    if b != [] {
      assert b[0] in b;
    }
  }

  /** `bb.__file__` being `dir/lib/bb/__init__.py` (or any three components below `dir`), bitbake is at `dir`. */
  lemma BitbakeDirOf(dir: string, a: string, b: string, c: string)
    requires Sep !in a && Sep !in b && Sep !in c
    ensures BitbakeDir(Child(Child(Child(dir, a), b), c)) == dir
  {
    RSplitHeadOfSuffix(dir + [Sep] + a + [Sep] + b, Sep, c, 2);
    RSplitHeadOfSuffix(dir + [Sep] + a, Sep, b, 1);
    RSplitHeadOfSuffix(dir, Sep, a, 0);
  }

  /** A layer directly inside COREBASE goes to `destdir/basename(corebase)/name`. */
  lemma NestedLayerKeepsCorebase(destdir: string, corebase: string, name: string)
    requires corebase != "" && !EndsWith(corebase, [Sep])
    requires Sep !in name
    ensures LayerDestPath(destdir, corebase, Child(corebase, name)) == Child(Child(destdir, Basename(corebase)), name)
  {
    DirnameOfChild(corebase, name);
    BasenameOfChild(corebase, name);
  }

  /**
   * The entry listed for a layer is `basename(layer)`, or
   * `basename(corebase)/basename(layer)` for a layer inside COREBASE, when
   * those names are plain and `destdir` is not empty.
   */
  lemma EntryName(req: Request, layer: string)
    requires req.destdir != ""
    requires IsPlainName(Basename(layer))
    requires req.system.corebase == Dirname(layer) ==> IsPlainName(Basename(req.system.corebase))
    ensures EntryOf(req, layer)
            == if req.system.corebase == Dirname(layer) then Child(Basename(req.system.corebase), Basename(layer))
               else Basename(layer)
  {
    var corebase, destdir := req.system.corebase, req.destdir;
    var a, b := Basename(corebase), Basename(layer);
    if corebase == Dirname(layer) {
      RelPathOfGrandchild(destdir, req.cwd, a, b);
    } else {
      RelPathOfChild(destdir, req.cwd, b);
    }
  }
}
