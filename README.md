# Build-system snapshot and locked-signature pruning

This project models two routines of OpenEmbedded's `meta/lib/oe/copy_buildsystem.py`
(Python 2), which the extensible SDK uses to package a build system:

- **The locked-signature pruner** is `prune_lockedsigs`. It makes one pass over the lines of a
  locked-signatures file. It copies each value block opened by a `SIGGEN_LOCKEDSIGS...` line.
  Inside a block it keeps only the `target:task:hash \` records whose task is allowed and whose
  target is not excluded. The first line of a block that is not a record is kept, and it closes
  the block. Every other line outside a block is dropped.
- **The layer snapshot** is `BuildSystem.copy_bitbake_and_layers`. It copies every layer of
  BBLAYERS, then COREBASE, into a destination directory, skipping devtool workspace layers.
  - A layer that sits directly inside COREBASE keeps that nesting.
  - COREBASE itself is copied entry by entry from COREBASE_FILES, followed by the bitbake
    directory.
  - Any other layer is copied only when its destination does not exist yet.
  - The routine returns, for each layer it handled, the layer's destination relative to the
    destination directory.

The project has four modules:

- `Text` (`text.dfy`) holds the byte-string operations the code uses: `startswith`,
  `endswith`, `split` on one character, `join`, `rfind`, `strip`, and `rsplit(sep, n)[0]`.
- `Paths` (`paths.dfy`) holds `posixpath`'s `basename`, `dirname` and `join`, plus `relpath`
  with the `abspath` and `normpath` it is built on. The working directory is a parameter.
- `LockedSigs` (`lockedsigs.dfy`) holds the pruner.
  - `PruneLockedSigs` is the loop, with `invalue` as loop state.
  - It fails before writing anything when the output path has no directory part. Otherwise it
    is proved equal to the specification function `PruneFrom`.
  - The properties are lemmas about `PruneFrom`.
  - `Pruning` is the outcome. It is either the lines written plus the final `invalue`, or
    `IndexError` with the lines written before a record with fewer than two fields raised.
    Those lines stay in the output file, because `with` closes it.
- `Layers` (`layers.dfy`) holds the snapshot.
  - The file system is a `FileTree` class: a set of paths that exist, and the list of
    `_smart_copy(src, dest)` actions made so far.
  - `CopyBitbakeAndLayers` is the loop. It is proved equal to the specification fold `Run` of
    `Step` over the layer list, and to the entry list `Entries`.
  - The first line of each layer's `conf/layer.conf` is an input map. A path missing from the
    map has no such file.

Three points of the code's behaviour the model keeps:

- Outside a block, every line that does not open one is dropped, because line 91 is an `elif`.
- A block's last line is never filtered, even when it names an excluded target
  (`LockedSigs.SampleFile`).
- A layer keeps the COREBASE nesting when `dirname(layer) == corebase` (line 47).

## Model

| member | source | states |
|---|---|---|
| LockedSigs.PruneLockedSigs | meta/lib/oe/copy_buildsystem.py:77-93 | an output path without a directory part makes line 79's `mkdirhier` fail before anything is written; otherwise the loop's outcome is `PruneFrom` of the whole file from outside a block: the lines written, in order, and the final block state, or the lines written before an IndexError |
| LockedSigs.IndexErrorPersists | meta/lib/oe/copy_buildsystem.py:85-86 | once a prefix of the input has raised IndexError, the whole input ends in that same IndexError |
| LockedSigs.PruneFrom | meta/lib/oe/copy_buildsystem.py:82-93 | the pruner's specification: the lines written and the final block state, or IndexError with the lines written before it, for the lines read from a given block state |
| LockedSigs.Feed | meta/lib/oe/copy_buildsystem.py:83-93 | the loop body: what one more line does to the outcome so far |
| LockedSigs.IsRecord | meta/lib/oe/copy_buildsystem.py:84 | a line inside a block is a record iff it ends with a backslash and a newline |
| LockedSigs.Fields | meta/lib/oe/copy_buildsystem.py:85 | a record's fields: `line.strip().split(':')` |
| LockedSigs.Survives | meta/lib/oe/copy_buildsystem.py:86 | a record is kept iff field 1 is an allowed task and field 0 is not an excluded target |
| LockedSigs.PruneOneMoreLine | meta/lib/oe/copy_buildsystem.py:82-93 | the pruner is the left fold of the loop body: one more input line is one more `Feed` step on the outcome so far |
| LockedSigs.InBlockRecord | meta/lib/oe/copy_buildsystem.py:84-87 | inside a block, a record with fewer than two colon fields raises IndexError; any other record is written iff field 1 is an allowed task and field 0 is not an excluded target, and the block stays open |
| LockedSigs.InBlockOtherLine | meta/lib/oe/copy_buildsystem.py:88-90 | inside a block, a line not ending in backslash-newline is written and closes the block |
| LockedSigs.OutsideBlockLine | meta/lib/oe/copy_buildsystem.py:91-93 | outside a block, a line is written iff it starts with `SIGGEN_LOCKEDSIGS`, and the new state is inside a block iff it does; all other lines are dropped |
| LockedSigs.AfterIndexError | meta/lib/oe/copy_buildsystem.py:85-86 | after the IndexError nothing more is written |
| LockedSigs.PruneWritesSubsequence | meta/lib/oe/copy_buildsystem.py:82-93 | every written line is an input line, unchanged and in input order: the output is a subsequence of the input, no longer than it |
| LockedSigs.PruneIdempotent | meta/lib/oe/copy_buildsystem.py:82-93 | pruning the output again from the same state writes it back unchanged, never raises, and ends in the same block state |
| LockedSigs.RecordWithoutTaskRaises | meta/lib/oe/copy_buildsystem.py:84-86 | a record without a colon right after a block header raises IndexError, leaving only the header written |
| LockedSigs.BlockThenOutsideLine | meta/lib/oe/copy_buildsystem.py:83-93 | a header, a surviving record and a non-record line are written whole; a following line that opens no block is dropped |
| LockedSigs.BlockWithDroppedRecord | meta/lib/oe/copy_buildsystem.py:83-93 | a record that fails the filter is the only line left out of its block; a last line that opens a block is written and the run ends inside a block |
| LockedSigs.RecordFields | meta/lib/oe/copy_buildsystem.py:84-85 | `target:task:rest` plus newline, where `rest` ends in a backslash, is a record whose stripped fields are exactly `[target, task, rest]` |
| LockedSigs.SampleFile | meta/lib/oe/copy_buildsystem.py:77-93 | on a four-line sample, with `do_compile` allowed and `pkgB` excluded, the block is kept, including its `pkgB` terminator, and the trailing assignment is dropped |
| Layers.FileTree.MakeDirs | meta/lib/oe/copy_buildsystem.py:24 | `mkdirhier(dir)` fails exactly on the empty path; otherwise `dir` exists afterwards and no copy is made |
| Layers.FileTree.Exists | meta/lib/oe/copy_buildsystem.py:64 | `os.path.exists(p)`: `p` is one of the paths the file system holds |
| Layers.FileTree.SmartCopy | meta/lib/oe/copy_buildsystem.py:6-14 | one copy action is recorded and its destination exists afterwards |
| Layers.Step | meta/lib/oe/copy_buildsystem.py:37-67 | the loop body's effect on the file system: a workspace layer changes nothing; COREBASE gets its destination and one copy per source; any other layer is copied to its destination unless that path exists |
| Layers.Run | meta/lib/oe/copy_buildsystem.py:36-67 | the loop's effect on the file system: `Step` for each layer in order |
| Layers.LayerList | meta/lib/oe/copy_buildsystem.py:25-28 | the layers handled, in order: BBLAYERS, then COREBASE appended |
| Layers.Planned | meta/lib/oe/copy_buildsystem.py:24-67 | what the routine leaves: the existing paths plus `destdir` from line 24, then `Run` over the layer list |
| Layers.Entries | meta/lib/oe/copy_buildsystem.py:36-53 | the returned list: `EntryOf` for each non-workspace layer, in order |
| Layers.EntryOf | meta/lib/oe/copy_buildsystem.py:51-52 | a layer's entry: its destination relative to `destdir` |
| Layers.LayerDestPath | meta/lib/oe/copy_buildsystem.py:46-49 | a layer's destination: `destdir`, then `/basename(corebase)` when `dirname(layer) == corebase`, then `/basename(layer)`; it is longer than `destdir` |
| Layers.CorebaseSources | meta/lib/oe/copy_buildsystem.py:30-34 | what COREBASE copies: `corebase + '/' + entry` for each COREBASE_FILES entry, then the bitbake directory |
| Layers.BitbakeDir | meta/lib/oe/copy_buildsystem.py:33 | `bb.__file__.rsplit('/', 3)[0]` |
| Layers.LayerConfPath | meta/lib/oe/copy_buildsystem.py:37 | `os.path.join(layer, 'conf', 'layer.conf')` |
| Layers.LayerConfPathOf | meta/lib/oe/copy_buildsystem.py:37 | the configuration file is `layer + '/conf/layer.conf'`, or `layer + 'conf/layer.conf'` when the layer path is empty or ends in `/` |
| Layers.LayerConfPathAddsSeparator | meta/lib/oe/copy_buildsystem.py:37 | a non-empty layer path not ending in `/` has its configuration file at `layer + '/conf/layer.conf'` |
| Layers.LayerConfPathAfterSeparator | meta/lib/oe/copy_buildsystem.py:37 | an empty layer path or one ending in `/` has its configuration file at `layer + 'conf/layer.conf'` |
| Layers.IsWorkspaceLayer | meta/lib/oe/copy_buildsystem.py:38-40 | the layer's `layer.conf` exists and its first line starts with the devtool workspace marker |
| Layers.CopiesInto | meta/lib/oe/copy_buildsystem.py:59-62 | the core-layer copies into a directory, one per source in order; as many as there are sources |
| Layers.CopyTarget | meta/lib/oe/copy_buildsystem.py:60-61 | a core-layer source's target: `join(dir, basename(source))` |
| Layers.CopyBitbakeAndLayers | meta/lib/oe/copy_buildsystem.py:21-69 | with an empty `destdir` the first `mkdirhier` fails and nothing changes; otherwise the result is `Entries` of BBLAYERS plus COREBASE, and the paths and copies left are those of `Run` over that list from the existing paths plus `destdir` |
| Layers.CopyLayer | meta/lib/oe/copy_buildsystem.py:46-67 | a non-workspace layer's entry is listed whether or not it is copied, and the file system moves by exactly one `Step` |
| Layers.CopyFilesInto | meta/lib/oe/copy_buildsystem.py:59-62 | the core-layer loop appends one copy per source, in order, from the source to `join(dir, basename(source))`, and makes each target exist |
| Layers.EntriesOfLayerList | meta/lib/oe/copy_buildsystem.py:25-28 | the returned list is the entries of BBLAYERS in order, then one for COREBASE unless it is a workspace layer |
| Layers.EntriesOneMore | meta/lib/oe/copy_buildsystem.py:36-53 | each further layer adds its entry to the list, unless it is a workspace layer, in which case it adds nothing |
| Layers.EntryName | meta/lib/oe/copy_buildsystem.py:46-53 | for plain names, a layer's entry is `basename(layer)`, or `basename(corebase)/basename(layer)` when its dirname is COREBASE |
| Layers.NestedLayerKeepsCorebase | meta/lib/oe/copy_buildsystem.py:46-49 | a layer directly inside COREBASE goes to `destdir/basename(corebase)/name` |
| Layers.RunPaths | meta/lib/oe/copy_buildsystem.py:36-67 | a run never removes a path and adds exactly the destinations of its non-workspace layers and the targets of the core layer's copies |
| Layers.DestinationsExist | meta/lib/oe/copy_buildsystem.py:46-67 | after a run, the destination of every layer that was not skipped exists |
| Layers.CreatedHoldsDestination | meta/lib/oe/copy_buildsystem.py:57-67 | the paths a run makes include the destination of each non-workspace layer |
| Layers.LayerCopiedOnlyIfNew | meta/lib/oe/copy_buildsystem.py:63-67 | a non-workspace layer other than COREBASE adds the single copy `(layer, dest)` iff its destination neither existed nor was made by an earlier layer; otherwise it adds no copy |
| Layers.ExistingDestinationNotOverwritten | meta/lib/oe/copy_buildsystem.py:63-67 | a layer other than COREBASE whose destination existed before the run adds no copy |
| Layers.DuplicateDestinationCopiedOnce | meta/lib/oe/copy_buildsystem.py:63-67 | a later layer other than COREBASE with the same destination as an earlier handled layer adds no copy |
| Layers.CopiesAreExplained | meta/lib/oe/copy_buildsystem.py:36-67 | a run only appends copies, and each copy is either a non-workspace layer other than COREBASE to its destination, or a core-layer source into COREBASE's destination |
| Layers.StepCopiesExplained | meta/lib/oe/copy_buildsystem.py:55-67 | one layer appends only copies that it explains |
| Layers.CorebaseCopiesExplained | meta/lib/oe/copy_buildsystem.py:57-62 | every copy the core layer makes has one of COREBASE's sources as its source and that source's target as its destination |
| Layers.WorkspaceLayerNeverCopied | meta/lib/oe/copy_buildsystem.py:37-42 | a workspace layer is the source of no copy, unless it is also one of the core layer's sources |
| Layers.CorebaseCopies | meta/lib/oe/copy_buildsystem.py:57-62 | COREBASE's destination is created, and COREBASE gets one copy per COREBASE_FILES entry, in order, from `corebase/entry` to `dest/basename(entry)`, then one copy of the bitbake directory to `dest/basename(bitbake directory)` |
| Layers.CorebaseFileCopy | meta/lib/oe/copy_buildsystem.py:30-31 | the `i`-th core-layer copy takes `corebase + '/' + entry` to `dest/basename(entry)` |
| Layers.BitbakeCopy | meta/lib/oe/copy_buildsystem.py:32-34 | the last core-layer copy is the bitbake directory |
| Layers.CopiesIntoElement | meta/lib/oe/copy_buildsystem.py:59-62 | the `i`-th copy into a directory takes the `i`-th source to `join(dir, basename(source))` |
| Layers.CorebaseDestination | meta/lib/oe/copy_buildsystem.py:46-49 | COREBASE's destination is non-empty and ends in no separator when COREBASE's basename is not empty |
| Layers.CopyTargetBelow | meta/lib/oe/copy_buildsystem.py:60-61 | `join(dir, basename(f))` is `dir/basename(f)` for a directory not ending in a separator |
| Layers.BitbakeDirOf | meta/lib/oe/copy_buildsystem.py:33 | `rsplit('/', 3)[0]` of `dir/a/b/c` is `dir`: bitbake sits three levels above `bb/__init__.py` |
| Text.Split | meta/lib/oe/copy_buildsystem.py:85 | `split(':')`: the runs between separators; always at least one field |
| Text.StartsWith | meta/lib/oe/copy_buildsystem.py:91 | `startswith`: the prefix is the string's first characters |
| Text.EndsWith | meta/lib/oe/copy_buildsystem.py:84 | `endswith`: the suffix is the string's last characters |
| Text.Join | meta/lib/oe/copy_buildsystem.py:51-52 | `sep.join(parts)`: the parts in order with one separator between neighbours, as `relpath` assembles its result |
| Text.Strip | meta/lib/oe/copy_buildsystem.py:85 | `strip()` of Python 2's ASCII whitespace |
| Text.RFind | meta/lib/oe/copy_buildsystem.py:49 | `rfind`: an index holding the character, or -1 |
| Text.RSplitHead | meta/lib/oe/copy_buildsystem.py:33 | `rsplit(sep, n)[0]`: a prefix of the string |
| Text.SplitJoin | meta/lib/oe/copy_buildsystem.py:85 | joining the fields of `split(sep)` with `sep` gives the string back |
| Text.JoinSplit | meta/lib/oe/copy_buildsystem.py:85 | splitting a join of separator-free fields gives the fields back |
| Text.SplitFieldsLackSeparator | meta/lib/oe/copy_buildsystem.py:85 | no field of a split holds the separator |
| Text.SplitAtSeparator | meta/lib/oe/copy_buildsystem.py:85 | the first separator ends the first field |
| Text.SplitWithoutSeparator | meta/lib/oe/copy_buildsystem.py:85 | a string without the separator is a single field |
| Text.SplitSnoc | meta/lib/oe/copy_buildsystem.py:85 | appending a separator and a separator-free field appends one field |
| Text.StripEnds | meta/lib/oe/copy_buildsystem.py:85 | `strip()` leaves a slice of the line whose two ends are not whitespace, and it removes only whitespace |
| Text.LStripSuffix | meta/lib/oe/copy_buildsystem.py:85 | `lstrip()` leaves a suffix not starting with whitespace and removes only whitespace |
| Text.RStripPrefix | meta/lib/oe/copy_buildsystem.py:85 | `rstrip()` leaves a prefix not ending in whitespace and removes only whitespace |
| Text.RFindIsLast | meta/lib/oe/copy_buildsystem.py:49 | `rfind` finds the last occurrence |
| Text.RFindAppend | meta/lib/oe/copy_buildsystem.py:49 | `rfind` on a concatenation looks in the second part first |
| Text.RSplitHeadOfSuffix | meta/lib/oe/copy_buildsystem.py:33 | cutting one more separator-free part off the end takes one more split |
| Paths.Basename | meta/lib/oe/copy_buildsystem.py:48-49 | `os.path.basename`: everything after the last `/` |
| Paths.Dirname | meta/lib/oe/copy_buildsystem.py:47 | `os.path.dirname`: everything up to the last `/`, with trailing `/`s removed unless only `/`s are left |
| Paths.PathJoin | meta/lib/oe/copy_buildsystem.py:61 | `os.path.join` of two components |
| Paths.AbsComponents | meta/lib/oe/copy_buildsystem.py:51-52 | the non-empty components of `abspath(p)`: a relative path is taken from the working directory, then normalised |
| Paths.Normalize | meta/lib/oe/copy_buildsystem.py:51-52 | `normpath` on components: empty and `.` components vanish, `..` drops the last kept one and is lost at the root |
| Paths.CommonPrefixLength | meta/lib/oe/copy_buildsystem.py:51-52 | the length of the longest common prefix of two component lists: both agree up to it and differ just after it when both go on |
| Paths.RelPath | meta/lib/oe/copy_buildsystem.py:51-52 | `os.path.relpath`: climb out of `start` with `..` as far as the absolute paths differ, then go down to `path`; `.` for the same directory |
| Paths.BasenameLacksSeparator | meta/lib/oe/copy_buildsystem.py:49 | a basename holds no separator |
| Paths.BasenameOfChild | meta/lib/oe/copy_buildsystem.py:48-49 | `basename(parent/name)` is `name` when `name` holds no separator |
| Paths.BasenameUnderParent | meta/lib/oe/copy_buildsystem.py:60 | `basename(corebase/entry)` is `basename(entry)` |
| Paths.DirnameOfChild | meta/lib/oe/copy_buildsystem.py:47 | `dirname(parent/name)` is `parent` for a non-empty parent not ending in a separator |
| Paths.AbsComponentsOfChild | meta/lib/oe/copy_buildsystem.py:51-52 | appending a plain component to a path appends it to the absolute path's components |
| Paths.CommonPrefixOfExtension | meta/lib/oe/copy_buildsystem.py:51-52 | a component list shares all of itself with any extension of it |
| Paths.RelPathBelow | meta/lib/oe/copy_buildsystem.py:51-52 | a path whose absolute components extend those of `start` is, relative to `start`, the extension joined by `/` |
| Paths.RelPathOfChild | meta/lib/oe/copy_buildsystem.py:51-52 | `relpath(start/a, start)` is `a` whatever the working directory |
| Paths.RelPathOfGrandchild | meta/lib/oe/copy_buildsystem.py:51-52 | `relpath(start/a/b, start)` is `a/b` whatever the working directory |

## Left out

- `generate_locked_sigs` (lines 71-75) is left out. It asks bitbake's signature generator to
  dump the signatures of BB_TASKDEPDATA, and that engine is not part of this model.
- `create_locked_sstate_cache` (lines 95-101) is left out. It runs the external
  `gen-lockedsig-cache` tool, then renames the output's NATIVELSBSTRING directory only when
  `fixedlsbstring` is non-empty. Both steps are process and file-system I/O.
- `_smart_copy` internals (lines 6-14) are left out. The choice between `copytree` and
  `copyfile` is not modelled. A copy is one recorded action after which its destination exists.
  - The model does not capture that a copied directory's contents also come to exist. A later
    layer whose destination lies inside an earlier copied tree is therefore copied here, where
    the source would find the path existing and skip it.
  - The model does not capture that `copytree` raises when its destination exists, for example
    when a core-layer entry is copied twice.
- Paths are compared as strings. Two spellings of the same path are distinct paths: a trailing
  or doubled `/`, `.` components, or a symlink. For example, BBLAYERS `/src/meta-foo/` has the
  destination `destdir/`. The code finds that path existing after `mkdirhier(destdir)` and skips
  the layer. The model copies it.
- `mkdirhier` is left out apart from failing on the empty path, for `destdir` (line 24) and for
  the pruner's output directory (line 79). The model does not create ancestor directories, and
  does not model the error for a path that exists as a file. Line 58's `mkdirhier` cannot fail
  in the model, because the core layer's destination is longer than `destdir`.
- Layers.Step: a copy or a `mkdirhier` makes only its destination exist, not the missing
  directories above it, which `copytree` and `mkdirhier` create. Take BBLAYERS `/poky/meta` and
  `/x/poky`, COREBASE `/poky` and `destdir` `/out`. The first layer is copied to
  `/out/poky/meta`, which makes `/out/poky` exist. The code then skips `/x/poky`, whose
  destination is `/out/poky`. The model copies it.
- Opening the locked-signatures file (line 78) is left out: its lines are an input.
- I/O errors are left out: unreadable or missing input files, write failures, and closing files.
- `bb.warn` and `bb.note` logging are left out.
- `d.getVar` lookups are left out. BBLAYERS and COREBASE_FILES are given already split into
  words, COREBASE as a string, and `bb.__file__` as the `bitbakeFile` string.
- Reading `layer.conf` is left out. The first line of each existing `conf/layer.conf` is an
  input map, and copies made during the run do not change it.
- `abspath` reads the process's working directory. Here the working directory is the `cwd`
  parameter.
- Bytes are modelled as `char`s. `strip()` removes the six ASCII whitespace bytes of Python 2's
  `str`. There is no Unicode handling.
- Paths.RelPath: requires a non-empty path; `relpath` raises ValueError on one. The copier
  always passes a non-empty destination.
- Layers.CorebaseCopies: stated only when COREBASE's basename is not empty. If COREBASE ends in
  `/`, the destination ends in `/` and `join` adds no separator.
- Layers.EntryName: stated for a non-empty `destdir` and plain basenames (not empty, `.` or
  `..`). Other names go through the general `RelPath`, which the model also defines.
- Layers.WorkspaceLayerNeverCopied: excludes a workspace layer that is also a core-layer
  source. Such a layer is copied as a source, as in the code.
