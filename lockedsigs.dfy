/**
 * The locked-signature pruner (`prune_lockedsigs`): one pass over the lines
 * of a locked-signatures file that copies value blocks opened by a
 * `SIGGEN_LOCKEDSIGS...` line, keeping inside each block only the
 * `target:task:hash \` records whose task is allowed and whose target is not
 * excluded.  Each line is a line as file iteration yields it, with its
 * trailing newline.
 */
module LockedSigs {
  import opened Text
  import opened Paths

  /** A line starting with this opens a value block. */
  const BlockMarker: string := "SIGGEN_LOCKEDSIGS"

  /** An in-block line ending in backslash-newline is a record; any other ends the block. */
  const Continuation: string := "\\\n"

  predicate IsRecord(line: string)
  {
    EndsWith(line, Continuation)
  }

  /** The colon-separated fields of a record, after stripping surrounding whitespace. */
  function Fields(line: string): seq<string>
  {
    Split(Strip(line), ':')
  }

  /** A record survives when its task (field 1) is allowed and its target (field 0) is not excluded. */
  predicate Survives(fields: seq<string>, allowedTasks: set<string>, excludedTargets: set<string>)
    requires |fields| >= 2
  {
    fields[1] in allowedTasks && fields[0] !in excludedTargets
  }

  /**
   * What a run leaves behind: the lines written to the output file and, when
   * the input was used up, whether it ended inside a value block; or the
   * lines written before a record with fewer than two fields raised
   * IndexError (the file is closed on the way out, so those lines stay).
   */
  datatype Pruning =
    | Complete(written: seq<string>, inValue: bool)
    | IndexError(written: seq<string>)

  /** The same outcome with `lines` written first. */
  function Emit(lines: seq<string>, r: Pruning): Pruning
  {
    r.(written := lines + r.written)
  }

  /** The pruner run over `lines` starting in state `inValue`. */
  function PruneFrom(lines: seq<string>, inValue: bool, allowedTasks: set<string>, excludedTargets: set<string>): Pruning
    decreases |lines|
  {
    if lines == [] then Complete([], inValue)
    else
      var line, rest := lines[0], lines[1..];
      if inValue then
        if IsRecord(line) then
          var fields := Fields(line);
          if |fields| < 2 then IndexError([])
          else if Survives(fields, allowedTasks, excludedTargets) then
            Emit([line], PruneFrom(rest, true, allowedTasks, excludedTargets))
          else PruneFrom(rest, true, allowedTasks, excludedTargets)
        else Emit([line], PruneFrom(rest, false, allowedTasks, excludedTargets))
      else if StartsWith(line, BlockMarker) then
        Emit([line], PruneFrom(rest, true, allowedTasks, excludedTargets))
      else PruneFrom(rest, false, allowedTasks, excludedTargets)
  }

  /** `a` is `b` with some elements left out, the rest in their order. */
  ghost predicate IsSubsequence(a: seq<string>, b: seq<string>)
    decreases |b|
  {
    a == [] || (b != [] && ((a[0] == b[0] && IsSubsequence(a[1..], b[1..])) || IsSubsequence(a, b[1..])))
  }

  /** A subsequence is no longer than the sequence and takes every element from it. */
  lemma {:induction false} SubsequenceElements(a: seq<string>, b: seq<string>)
    requires IsSubsequence(a, b)
    ensures |a| <= |b|
    ensures forall x :: x in a ==> x in b
    decreases |b|
  {
    if a != [] {
      if a[0] == b[0] && IsSubsequence(a[1..], b[1..]) {
        SubsequenceElements(a[1..], b[1..]);
        assert a == [a[0]] + a[1..];
        assert b == [b[0]] + b[1..];
      } else {
        SubsequenceElements(a, b[1..]);
        assert b == [b[0]] + b[1..];
      }
    }
  }

  /**
   * A run of `prune_lockedsigs`: `mkdirhier(dirname(pruned_output))` raises
   * when the output path has no directory part, before anything is written;
   * otherwise the pruner runs.
   */
  datatype PruneRun = OutputDirFailed | Pruned(result: Pruning)

  /**
   * `prune_lockedsigs(allowed_tasks, excluded_targets, lockedsigs, pruned_output)`
   * given the lines of `lockedsigs` and the path `prunedOutput`; a `Pruned`
   * result holds the lines of `pruned_output`.
   */
  method PruneLockedSigs(allowedTasks: set<string>, excludedTargets: set<string>, lockedsigs: seq<string>,
                         prunedOutput: string)
    returns (r: PruneRun)
    ensures r == if Dirname(prunedOutput) == "" then OutputDirFailed
                 else Pruned(PruneFrom(lockedsigs, false, allowedTasks, excludedTargets))
  {
    if Dirname(prunedOutput) == "" {
      return OutputDirFailed;
    }
    var written: seq<string> := [];
    var inValue := false;
    for i := 0 to |lockedsigs|
      invariant PruneFrom(lockedsigs[..i], false, allowedTasks, excludedTargets) == Complete(written, inValue)
    {
      var line := lockedsigs[i];
      assert lockedsigs[..i + 1] == lockedsigs[..i] + [line];
      PruneOneMoreLine(lockedsigs[..i], line, false, allowedTasks, excludedTargets);
      if inValue {
        if EndsWith(line, Continuation) {
          var splitval := Split(Strip(line), ':');
          if |splitval| < 2 {
            IndexErrorPersists(lockedsigs, i + 1, allowedTasks, excludedTargets);
            return Pruned(IndexError(written));
          }
          if splitval[1] in allowedTasks && splitval[0] !in excludedTargets {
            written := written + [line];
          }
        } else {
          written := written + [line];
          inValue := false;
        }
      } else if StartsWith(line, BlockMarker) {
        inValue := true;
        written := written + [line];
      }
    }
    assert lockedsigs[..|lockedsigs|] == lockedsigs;
    return Pruned(Complete(written, inValue));
  }

  /** Once a prefix of the input has raised, the whole input ends in that same IndexError. */
  lemma {:induction false} IndexErrorPersists(lines: seq<string>, k: nat, allowedTasks: set<string>, excludedTargets: set<string>)
    requires k <= |lines|
    requires PruneFrom(lines[..k], false, allowedTasks, excludedTargets).IndexError?
    ensures PruneFrom(lines, false, allowedTasks, excludedTargets) == PruneFrom(lines[..k], false, allowedTasks, excludedTargets)
    decreases |lines| - k
  {
    if k < |lines| {
      assert lines[..k + 1] == lines[..k] + [lines[k]];
      AfterIndexError(lines[..k], lines[k], false, allowedTasks, excludedTargets);
      IndexErrorPersists(lines, k + 1, allowedTasks, excludedTargets);
    } else {
      assert lines[..k] == lines;
    }
  }

  /**
   * Every written line is an input line, unchanged, in input order: the
   * output is a subsequence of the input, so no longer than it.
   */
  lemma {:induction false} PruneWritesSubsequence(lines: seq<string>, inValue: bool, allowedTasks: set<string>, excludedTargets: set<string>)
    ensures IsSubsequence(PruneFrom(lines, inValue, allowedTasks, excludedTargets).written, lines)
    ensures |PruneFrom(lines, inValue, allowedTasks, excludedTargets).written| <= |lines|
    ensures forall x :: x in PruneFrom(lines, inValue, allowedTasks, excludedTargets).written ==> x in lines
    decreases |lines|
  {
    var r := PruneFrom(lines, inValue, allowedTasks, excludedTargets);
    if lines != [] {
      var line, rest := lines[0], lines[1..];
      var next := if inValue then IsRecord(line) else StartsWith(line, BlockMarker);
      PruneWritesSubsequence(rest, next, allowedTasks, excludedTargets);
      var tail := PruneFrom(rest, next, allowedTasks, excludedTargets).written;
      if r.written != [] && r.written == [line] + tail {
        assert r.written[1..] == tail;
      }
    }
    SubsequenceElements(r.written, lines);
  }

  /**
   * What reading one more line does to the outcome so far (the body of the
   * source's loop):
   * - after an IndexError nothing more happens;
   * - inside a block, a record with fewer than two fields raises;
   * - inside a block, any other record is written iff its task is allowed
   *   and its target is not excluded, and the block stays open;
   * - inside a block, a line that is not a record is written and closes it;
   * - outside a block, a line is written iff it starts with the marker, and
   *   that line opens a block; every other line is dropped.
   */
  function Feed(before: Pruning, line: string, allowedTasks: set<string>, excludedTargets: set<string>): Pruning
  {
    match before
    case IndexError(_) => before
    case Complete(w, open) =>
      if open then
        if IsRecord(line) then
          if |Fields(line)| < 2 then IndexError(w)
          else if Survives(Fields(line), allowedTasks, excludedTargets) then Complete(w + [line], true)
          else Complete(w, true)
        else Complete(w + [line], false)
      else if StartsWith(line, BlockMarker) then Complete(w + [line], true)
      else Complete(w, false)
  }

  /** Lines written before do not change what one more line does. */
  lemma FeedAfterEmit(lines: seq<string>, r: Pruning, line: string, allowedTasks: set<string>, excludedTargets: set<string>)
    ensures Feed(Emit(lines, r), line, allowedTasks, excludedTargets) == Emit(lines, Feed(r, line, allowedTasks, excludedTargets))
  {
    match r
    case IndexError(_) =>
    case Complete(w, open) =>
      assert (lines + w) + [line] == lines + (w + [line]);
  }

  /**
   * The pruner is the left fold of `Feed`: running it over `lines` and then
   * one more line is feeding that line to the outcome of `lines`.
   */
  lemma {:induction false} PruneOneMoreLine(lines: seq<string>, line: string, inValue: bool, allowedTasks: set<string>, excludedTargets: set<string>)
    ensures PruneFrom(lines + [line], inValue, allowedTasks, excludedTargets)
            == Feed(PruneFrom(lines, inValue, allowedTasks, excludedTargets), line, allowedTasks, excludedTargets)
    decreases |lines|
  {
    if lines == [] {
      assert [] + [line] == [line];
      assert [line][1..] == [];
    } else {
      var first, rest := lines[0], lines[1..];
      assert (lines + [line])[0] == first;
      assert (lines + [line])[1..] == rest + [line];
      var next := if inValue then IsRecord(first) else StartsWith(first, BlockMarker);
      PruneOneMoreLine(rest, line, next, allowedTasks, excludedTargets);
      FeedAfterEmit([first], PruneFrom(rest, next, allowedTasks, excludedTargets), line, allowedTasks, excludedTargets);
    }
  }

  /**
   * Inside a block, a record with fewer than two fields raises; any other
   * record is written if and only if its task is allowed and its target is
   * not excluded, and the block stays open either way.
   */
  lemma InBlockRecord(lines: seq<string>, line: string, start: bool, allowedTasks: set<string>, excludedTargets: set<string>)
    requires PruneFrom(lines, start, allowedTasks, excludedTargets).Complete?
    requires PruneFrom(lines, start, allowedTasks, excludedTargets).inValue
    requires IsRecord(line)
    ensures
      var w := PruneFrom(lines, start, allowedTasks, excludedTargets).written;
      var after := PruneFrom(lines + [line], start, allowedTasks, excludedTargets);
      if |Fields(line)| < 2 then after == IndexError(w)
      else
        && after.Complete? && after.inValue
        && (after.written == w || after.written == w + [line])
        && (after.written == w + [line] <==> Fields(line)[1] in allowedTasks && Fields(line)[0] !in excludedTargets)
  {
    PruneOneMoreLine(lines, line, start, allowedTasks, excludedTargets);
  }

  /** Inside a block, a line that is not a record is written and closes the block. */
  lemma InBlockOtherLine(lines: seq<string>, line: string, start: bool, allowedTasks: set<string>, excludedTargets: set<string>)
    requires PruneFrom(lines, start, allowedTasks, excludedTargets).Complete?
    requires PruneFrom(lines, start, allowedTasks, excludedTargets).inValue
    requires !IsRecord(line)
    ensures PruneFrom(lines + [line], start, allowedTasks, excludedTargets)
            == Complete(PruneFrom(lines, start, allowedTasks, excludedTargets).written + [line], false)
  {
    PruneOneMoreLine(lines, line, start, allowedTasks, excludedTargets);
  }

  /**
   * Outside a block, a line is written if and only if it starts with the
   * marker, and then it opens a block; any other line is dropped.
   */
  lemma OutsideBlockLine(lines: seq<string>, line: string, start: bool, allowedTasks: set<string>, excludedTargets: set<string>)
    requires PruneFrom(lines, start, allowedTasks, excludedTargets).Complete?
    requires !PruneFrom(lines, start, allowedTasks, excludedTargets).inValue
    ensures
      var w := PruneFrom(lines, start, allowedTasks, excludedTargets).written;
      var after := PruneFrom(lines + [line], start, allowedTasks, excludedTargets);
      && after.Complete?
      && (after.written == w || after.written == w + [line])
      && (after.written == w + [line] <==> StartsWith(line, BlockMarker))
      && after.inValue == StartsWith(line, BlockMarker)
  {
    PruneOneMoreLine(lines, line, start, allowedTasks, excludedTargets);
  }

  /** Once a record has raised, later lines change nothing. */
  lemma AfterIndexError(lines: seq<string>, line: string, start: bool, allowedTasks: set<string>, excludedTargets: set<string>)
    requires PruneFrom(lines, start, allowedTasks, excludedTargets).IndexError?
    ensures PruneFrom(lines + [line], start, allowedTasks, excludedTargets) == PruneFrom(lines, start, allowedTasks, excludedTargets)
  {
    PruneOneMoreLine(lines, line, start, allowedTasks, excludedTargets);
  }

  /**
   * The output is already pruned: running the pruner over it again, from the
   * same state, writes it back unchanged, never raises, and ends in the same
   * block state.  So every record it keeps passes the filter and every block
   * it opens is laid out as in the input.
   */
  lemma {:induction false} PruneIdempotent(lines: seq<string>, inValue: bool, allowedTasks: set<string>, excludedTargets: set<string>)
    ensures
      var r := PruneFrom(lines, inValue, allowedTasks, excludedTargets);
      var again := PruneFrom(r.written, inValue, allowedTasks, excludedTargets);
      again.Complete? && again.written == r.written && (r.Complete? ==> again.inValue == r.inValue)
    decreases |lines|
  {
    if lines != [] {
      var line, rest := lines[0], lines[1..];
      var next := if inValue then IsRecord(line) else StartsWith(line, BlockMarker);
      PruneIdempotent(rest, next, allowedTasks, excludedTargets);
      var tail := PruneFrom(rest, next, allowedTasks, excludedTargets).written;
      assert ([line] + tail)[0] == line;
      assert ([line] + tail)[1..] == tail;
    }
  }

  /**
   * A value block with one surviving record, then a line outside any block:
   * the block is written whole and the outside line is dropped unless it
   * opens a block of its own.
   */
  lemma BlockThenOutsideLine(header: string, kept: string, close: string, other: string,
                             allowedTasks: set<string>, excludedTargets: set<string>)
    requires StartsWith(header, BlockMarker)
    requires IsRecord(kept) && |Fields(kept)| >= 2 && Survives(Fields(kept), allowedTasks, excludedTargets)
    requires !IsRecord(close)
    requires !StartsWith(other, BlockMarker)
    ensures PruneFrom([header, kept, close, other], false, allowedTasks, excludedTargets)
            == Complete([header, kept, close], false)
  {
    var lines := [header, kept, close, other];
    assert lines[1..][1..][1..][1..] == [];
    assert PruneFrom(lines[3..], false, allowedTasks, excludedTargets) == Complete([], false);
    assert lines[2..][1..] == lines[3..];
    assert PruneFrom(lines[2..], true, allowedTasks, excludedTargets) == Complete([close], false);
    assert lines[1..][1..] == lines[2..];
    assert PruneFrom(lines[1..], true, allowedTasks, excludedTargets) == Complete([kept, close], false);
  }

  /**
   * A value block whose second record does not survive, then a line that
   * opens a block and ends the file: the dropped record is the only line
   * left out, and the run ends inside a block.
   */
  lemma BlockWithDroppedRecord(header: string, kept: string, dropped: string, close: string, last: string,
                               allowedTasks: set<string>, excludedTargets: set<string>)
    requires StartsWith(header, BlockMarker)
    requires IsRecord(kept) && |Fields(kept)| >= 2 && Survives(Fields(kept), allowedTasks, excludedTargets)
    requires IsRecord(dropped) && |Fields(dropped)| >= 2 && !Survives(Fields(dropped), allowedTasks, excludedTargets)
    requires !IsRecord(close)
    requires StartsWith(last, BlockMarker)
    ensures PruneFrom([header, kept, dropped, close, last], false, allowedTasks, excludedTargets)
            == Complete([header, kept, close, last], true)
  {
    var lines := [header, kept, dropped, close, last];
    assert lines[4..][1..] == [];
    assert PruneFrom(lines[4..], false, allowedTasks, excludedTargets) == Complete([last], true);
    assert lines[3..][1..] == lines[4..];
    assert PruneFrom(lines[3..], true, allowedTasks, excludedTargets) == Complete([close, last], true);
    assert lines[2..][1..] == lines[3..];
    assert PruneFrom(lines[2..], true, allowedTasks, excludedTargets) == Complete([close, last], true);
    assert lines[1..][1..] == lines[2..];
    assert PruneFrom(lines[1..], true, allowedTasks, excludedTargets) == Complete([kept, close, last], true);
  }

  /** A line whose first character is not an `S` does not open a block. */
  lemma NotOpeningBlock(line: string)
    requires line != [] && line[0] != 'S'
    ensures !StartsWith(line, BlockMarker)
  {
    assert BlockMarker[0] == 'S';
  }

  /** A line whose next-to-last character is not a backslash is not a record. */
  lemma NotARecord(line: string)
    requires |line| >= 2 && line[|line| - 2] != '\\'
    ensures !IsRecord(line)
  {
    assert Continuation[0] == '\\';
  }

  /** The fields of a record line `target:task:rest \` followed by a newline. */
  lemma RecordFields(line: string, target: string, task: string, rest: string)
    requires ':' !in target && ':' !in task && ':' !in rest
    requires target != [] && !IsSpace(target[0])
    requires rest != [] && rest[|rest| - 1] == '\\'
    requires line == target + ":" + task + ":" + rest + "\n"
    ensures IsRecord(line)
    ensures Fields(line) == [target, task, rest]
  {
    StripRecord(line, target + ":" + task + ":" + rest);
    SplitThree(target, task, rest);
    assert line[|line| - 2..] == Continuation;
  }

  /** Stripping a line that is a non-blank text plus its newline gives the text. */
  lemma StripRecord(line: string, text: string)
    requires text != [] && !IsSpace(text[0]) && !IsSpace(text[|text| - 1])
    requires line == text + "\n"
    ensures Strip(line) == text
  {
    assert LStrip(line) == line;
    assert line[..|line| - 1] == text;
    assert RStrip(line) == RStrip(text);
  }

  /** Three colon-free fields joined by colons split back into them. */
  lemma SplitThree(target: string, task: string, rest: string)
    requires ':' !in target && ':' !in task && ':' !in rest
    ensures Split(target + ":" + task + ":" + rest, ':') == [target, task, rest]
  {
    var tail := task + ":" + rest;
    assert target + ":" + task + ":" + rest == target + [':'] + tail;
    SplitAtSeparator(target, ':', tail);
    assert tail == task + [':'] + rest;
    SplitAtSeparator(task, ':', rest);
    SplitWithoutSeparator(rest, ':');
  }

  /**
   * A record without a colon inside a block raises IndexError, leaving only
   * the lines written before it in the output.
   */
  lemma RecordWithoutTaskRaises(header: string, bad: string, rest: seq<string>,
                                allowedTasks: set<string>, excludedTargets: set<string>)
    requires StartsWith(header, BlockMarker)
    requires IsRecord(bad) && ':' !in bad
    ensures PruneFrom([header, bad] + rest, false, allowedTasks, excludedTargets) == IndexError([header])
  {
    var lines := [header, bad] + rest;
    assert lines[1..][0] == bad;
    assert ':' !in Strip(bad) by {
      StripEnds(bad);
      var r, k := Strip(bad), |bad| - |LStrip(bad)|;
      forall j | 0 <= j < |r| ensures r[j] != ':' {
        assert r[j] == bad[k + j];
        assert bad[k + j] in bad;
      }
    }
    SplitWithoutSeparator(Strip(bad), ':');
  }

  /** A small locked-signatures file: a block with one record and its closing line, then an unrelated assignment. */
  const SampleHeader: string := "SIGGEN_LOCKEDSIGS_task-a = \"\\\n"
  const SampleKept: string := "pkgA" + ":" + "do_compile" + ":" + "abc123 \\" + "\n"
  const SampleClose: string := "pkgB:do_compile:def456 \"\n"
  const SampleOther: string := "OTHER_LINE = \"x\"\n"

  lemma SampleHeaderOpens()
    ensures StartsWith(SampleHeader, BlockMarker)
  {
  }

  lemma SampleKeptSurvives()
    ensures IsRecord(SampleKept) && |Fields(SampleKept)| >= 2
    ensures Survives(Fields(SampleKept), {"do_compile"}, {"pkgB"})
  {
    RecordFields(SampleKept, "pkgA", "do_compile", "abc123 \\");
  }

  lemma SampleCloseEndsBlock()
    ensures !IsRecord(SampleClose)
  {
    NotARecord(SampleClose);
  }

  lemma SampleOtherOutside()
    ensures !StartsWith(SampleOther, BlockMarker)
  {
    NotOpeningBlock(SampleOther);
  }

  /**
   * Pruning the sample with `do_compile` allowed and `pkgB` excluded keeps
   * the block, including its last line although that line names `pkgB`
   * (it is not a record, so it is not filtered), and drops the assignment
   * after it.
   */
  lemma SampleFile()
    ensures PruneFrom([SampleHeader, SampleKept, SampleClose, SampleOther], false, {"do_compile"}, {"pkgB"})
            == Complete([SampleHeader, SampleKept, SampleClose], false)
  {
    SampleHeaderOpens();
    SampleKeptSurvives();
    SampleCloseEndsBlock();
    SampleOtherOutside();
    BlockThenOutsideLine(SampleHeader, SampleKept, SampleClose, SampleOther, {"do_compile"}, {"pkgB"});
  }
}
