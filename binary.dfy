/**
 * The bookkeeping of the command line runner: the order in which test files
 * run, the statistics tallied while they run, the exit code chosen from
 * them, and the colouring of the summary.
 */
module Binary {
  import opened Wrappers
  import opened Strings
  import Testphase

  // ---------------------------------------------------------------------------
  // Test files and their order

  /** The `incomplete` meta field: a flag, or a note saying why. */
  datatype Incomplete = Flag(b: bool) | Note(text: string)

  /** A test file's validated `meta`: the file's order, whether it is ignored, whether it is incomplete. */
  datatype Meta = Meta(order: int, ignore: bool, incomplete: Incomplete)

  /** `isset($meta->incomplete) && $meta->incomplete !== false`: anything but the flag `false`. */
  predicate IsIncomplete(m: Meta) {
    m.incomplete != Flag(false)
  }

  /** How one test of a file ended. */
  datatype TestRun =
      /** The test ran and reported; then storing its exports as globals failed or not. */
    | Reported(status: Testphase.Status, exportFailed: bool)
      /** The test raised an exception: an unset global or anything else. */
    | Raised(unsetGlobal: bool)

  /**
   * One test file as the runner sees it: its name, its meta, whether
   * `createTest` succeeded, and how each test of its collection ended.
   */
  datatype TestFile = TestFile(filename: string, meta: Meta, created: bool, runs: seq<TestRun>)

  /** `sortTestParser`: -1 when the first file's order is smaller, 1 otherwise (never 0, even for equal orders). */
  function SortTestParser(a: TestFile, b: TestFile): (r: int)
    ensures r == -1 || r == 1
    ensures r == -1 <==> a.meta.order < b.meta.order
  {
    if a.meta.order < b.meta.order then -1 else 1
  }

  /** Files in non-decreasing order. */
  predicate SortedByOrder(s: seq<TestFile>) {
    forall p, q :: 0 <= p < q < |s| ==> s[p].meta.order <= s[q].meta.order
  }

  /**
   * The `uasort` of the test parser collection by `sortTestParser`, as an
   * insertion sort that moves a file left while the comparator puts it
   * before its neighbour.
   */
  method SortTestParsers(a: array<TestFile>)
    modifies a
    ensures SortedByOrder(a[..])
    ensures multiset(a[..]) == multiset(old(a[..]))
  {
    for i := 0 to a.Length
      invariant SortedByOrder(a[..i])
      invariant multiset(a[..]) == multiset(old(a[..]))
    {
      InsertLast(a, i);
    }
    assert a[..a.Length] == a[..];
  }

  /** One pass of the sort: the file at `i` moves left into the sorted files before it. */
  method InsertLast(a: array<TestFile>, i: nat)
    requires i < a.Length && SortedByOrder(a[..i])
    modifies a
    ensures SortedByOrder(a[..i + 1])
    ensures multiset(a[..]) == multiset(old(a[..]))
  {
    var j := i;
    while j > 0 && SortTestParser(a[j - 1], a[j]) == 1
      invariant 0 <= j <= i
      invariant forall p, q :: 0 <= p < q <= i && q != j ==> a[p].meta.order <= a[q].meta.order
      invariant multiset(a[..]) == multiset(old(a[..]))
    {
      Swap(a, j - 1, j);
      j := j - 1;
    }
  }

  /** Exchanges two files; the collection keeps the same files. */
  method Swap(a: array<TestFile>, p: nat, q: nat)
    requires p < q < a.Length
    modifies a
    ensures a[..] == old(a[..])[p := old(a[q])][q := old(a[p])]
    ensures multiset(a[..]) == multiset(old(a[..]))
  {
    a[p], a[q] := a[q], a[p];
  }

  // ---------------------------------------------------------------------------
  // The statistics

  /** The statistics object's value: counters and the collected error messages' file names. */
  datatype Tally = Tally(tests: int, success: nat, error: nat, failure: nat, ignore: nat, incomplete: nat,
                           errors: seq<string>)

  /** The statistics before any file runs: every parsed file counts as one test. */
  function Initial(files: nat): Tally {
    Tally(files, 0, 0, 0, 0, 0, [])
  }

  /**
   * What one test's outcome adds: a report counts by its status, a failed
   * export afterwards counts once more as a failure; an unset global counts
   * as an error, any other exception as a failure.
   */
  function RunCounts(c: Tally, filename: string, run: TestRun): Tally {
    match run
    case Reported(status, exportFailed) =>
      var c1 := if status == Testphase.Success then c.(success := c.success + 1) else c.(failure := c.failure + 1);
      if exportFailed then c1.(failure := c1.failure + 1, errors := c1.errors + [filename]) else c1
    case Raised(unsetGlobal) =>
      if unsetGlobal then c.(error := c.error + 1, errors := c.errors + [filename])
      else c.(failure := c.failure + 1, errors := c.errors + [filename])
  }

  /** The outcomes of a file's tests, tallied in order. */
  function RunsCounts(c: Tally, filename: string, runs: seq<TestRun>): Tally {
    if |runs| == 0 then c
    else RunCounts(RunsCounts(c, filename, runs[..|runs| - 1]), filename, runs[|runs| - 1])
  }

  /** The file passes the `--subdir` filter: no filter, or one of its patterns matches the file's name under the test directory. */
  predicate Selected(f: TestFile, subdir: Option<seq<string>>, dir: string, matches: (string, string) -> bool) {
    subdir.None? || AnyMatch(subdir.value, CleanFilename(dir, f.filename), matches)
  }

  /** Some pattern, tried from the last one back, matches the name. */
  predicate AnyMatch(patterns: seq<string>, name: string, matches: (string, string) -> bool) {
    |patterns| > 0 && (AnyMatch(patterns[..|patterns| - 1], name, matches) || matches(patterns[|patterns| - 1], name))
  }

  /** The patterns are OR-combined: one matching pattern is enough, and one is needed. */
  lemma {:induction false} AnyMatchExists(patterns: seq<string>, name: string, matches: (string, string) -> bool)
    ensures AnyMatch(patterns, name, matches) <==> exists k :: 0 <= k < |patterns| && matches(patterns[k], name)
  {
    if |patterns| > 0 {
      var earlier := patterns[..|patterns| - 1];
      AnyMatchExists(earlier, name, matches);
      if exists k :: 0 <= k < |patterns| && matches(patterns[k], name) {
        var k :| 0 <= k < |patterns| && matches(patterns[k], name);
        if k < |earlier| {
          assert earlier[k] == patterns[k];
        }
      }
      if exists k :: 0 <= k < |earlier| && matches(earlier[k], name) {
        var k :| 0 <= k < |earlier| && matches(earlier[k], name);
        assert patterns[k] == earlier[k];
      }
    }
  }

  /** The file name with the test directory removed and surrounding slashes trimmed. */
  function CleanFilename(dir: string, filename: string): string {
    Trim(ReplaceAll(filename, dir, ""), '/')
  }

  /** The file's tests are run: it is selected and its meta does not ignore it. */
  predicate Executed(f: TestFile, subdir: Option<seq<string>>, dir: string, matches: (string, string) -> bool) {
    Selected(f, subdir, dir, matches) && !f.meta.ignore
  }

  /**
   * What one file adds, given whether it passed the `--subdir` filter, or
   * the name of the file whose `createTest` failed, which ends the run.
   */
  function FileCounts(c: Tally, f: TestFile, selected: bool): Result<Tally, string> {
    if !selected || f.meta.ignore then Ok(c.(ignore := c.ignore + 1))
    else
      var c1 := if IsIncomplete(f.meta) then c.(incomplete := c.incomplete + 1) else c;
      if !f.created then Err(f.filename)
      else Ok(RunsCounts(c1.(tests := c1.tests + |f.runs| - 1), f.filename, f.runs))
  }

  /** The files tallied in order from `c`. */
  function TallyFrom(c: Tally, files: seq<TestFile>, subdir: Option<seq<string>>, dir: string,
                     matches: (string, string) -> bool): Result<Tally, string> {
    if |files| == 0 then Ok(c)
    else match TallyFrom(c, files[..|files| - 1], subdir, dir, matches)
      case Err(name) => Err(name)
      case Ok(c1) => FileCounts(c1, files[|files| - 1], Selected(files[|files| - 1], subdir, dir, matches))
  }

  /** The exit code: 1 after an error, else 2 after a failure, else 0. */
  function ExitCode(c: Tally): (code: int)
    ensures code == 1 <==> c.error > 0
    ensures code == 2 <==> c.error == 0 && c.failure > 0
    ensures code == 0 <==> c.error == 0 && c.failure == 0
  {
    if c.error > 0 then 1 else if c.failure > 0 then 2 else 0
  }

  /** The exit code of a whole run: 1 when a test could not be created, else the one the statistics give. */
  function RunExitCode(files: seq<TestFile>, subdir: Option<seq<string>>, dir: string,
                       matches: (string, string) -> bool): int {
    match TallyFrom(Initial(|files|), files, subdir, dir, matches)
    case Err(_) => 1
    case Ok(c) => ExitCode(c)
  }

  // ---------------------------------------------------------------------------
  // Reference sums over the files the run executes

  /** How many files are not executed. */
  function SkippedFiles(files: seq<TestFile>, subdir: Option<seq<string>>, dir: string,
                        matches: (string, string) -> bool): nat {
    if |files| == 0 then 0
    else SkippedFiles(files[..|files| - 1], subdir, dir, matches)
         + (if Executed(files[|files| - 1], subdir, dir, matches) then 0 else 1)
  }

  /** How many tests the executed files hold. */
  function ExecutedTests(files: seq<TestFile>, subdir: Option<seq<string>>, dir: string,
                         matches: (string, string) -> bool): nat {
    if |files| == 0 then 0
    else ExecutedTests(files[..|files| - 1], subdir, dir, matches)
         + (if Executed(files[|files| - 1], subdir, dir, matches) then |files[|files| - 1].runs| else 0)
  }

  /** How many of those tests reported and then failed to store their exports. */
  function ExportFailures(runs: seq<TestRun>): nat {
    if |runs| == 0 then 0
    else ExportFailures(runs[..|runs| - 1]) + (if runs[|runs| - 1].Reported? && runs[|runs| - 1].exportFailed then 1 else 0)
  }

  function ExecutedExportFailures(files: seq<TestFile>, subdir: Option<seq<string>>, dir: string,
                                  matches: (string, string) -> bool): nat {
    if |files| == 0 then 0
    else ExecutedExportFailures(files[..|files| - 1], subdir, dir, matches)
         + (if Executed(files[|files| - 1], subdir, dir, matches) then ExportFailures(files[|files| - 1].runs) else 0)
  }

  /** A test that passed and stored its exports. */
  predicate Clean(run: TestRun) {
    run == Reported(Testphase.Success, false)
  }

  /** The file is skipped, or every one of its tests passed cleanly. */
  predicate FileClean(f: TestFile, subdir: Option<seq<string>>, dir: string, matches: (string, string) -> bool) {
    Executed(f, subdir, dir, matches) ==> forall j :: 0 <= j < |f.runs| ==> Clean(f.runs[j])
  }

  /** Every test of every executed file passed cleanly. */
  predicate AllClean(files: seq<TestFile>, subdir: Option<seq<string>>, dir: string, matches: (string, string) -> bool) {
    forall k :: 0 <= k < |files| ==> FileClean(files[k], subdir, dir, matches)
  }

  // ---------------------------------------------------------------------------
  // Lemmas about the statistics

  /** How many of the tests ended the way `outcome` says. */
  function CountWhere(runs: seq<TestRun>, outcome: TestRun -> bool): nat {
    if |runs| == 0 then 0
    else CountWhere(runs[..|runs| - 1], outcome) + (if outcome(runs[|runs| - 1]) then 1 else 0)
  }

  predicate Passed(run: TestRun) {
    run.Reported? && run.status == Testphase.Success
  }

  predicate FailedReport(run: TestRun) {
    run.Reported? && run.status == Testphase.Failure
  }

  predicate UnsetGlobal(run: TestRun) {
    run.Raised? && run.unsetGlobal
  }

  predicate OtherException(run: TestRun) {
    run.Raised? && !run.unsetGlobal
  }

  /**
   * Each test adds one to success (a passing report), error (an unset global)
   * or failure (a failing report or any other exception), and one more to
   * failure when its export fails; a message naming the file is collected for
   * every exception and every failed export.
   */
  lemma {:induction false} RunsCountsOutcomes(c: Tally, filename: string, runs: seq<TestRun>)
    ensures var d := RunsCounts(c, filename, runs);
            && d.success == c.success + CountWhere(runs, Passed)
            && d.error == c.error + CountWhere(runs, UnsetGlobal)
            && d.failure == c.failure + CountWhere(runs, FailedReport) + CountWhere(runs, OtherException) + ExportFailures(runs)
            && d.errors == c.errors + seq(CountWhere(runs, UnsetGlobal) + CountWhere(runs, OtherException) + ExportFailures(runs),
                                          _ => filename)
            && d.success + d.error + d.failure == c.success + c.error + c.failure + |runs| + ExportFailures(runs)
            && d.tests == c.tests && d.ignore == c.ignore && d.incomplete == c.incomplete
  {
    if |runs| > 0 {
      var earlier := runs[..|runs| - 1];
      RunsCountsOutcomes(c, filename, earlier);
      var n := CountWhere(earlier, UnsetGlobal) + CountWhere(earlier, OtherException) + ExportFailures(earlier);
      assert seq(n + 1, _ => filename) == seq(n, _ => filename) + [filename];
    }
  }

  /** Clean tests change no error or failure counter; an unclean one raises one of them. */
  lemma {:induction false} RunsCountsClean(c: Tally, filename: string, runs: seq<TestRun>)
    ensures var d := RunsCounts(c, filename, runs);
            && d.error >= c.error && d.failure >= c.failure
            && ((forall j :: 0 <= j < |runs| ==> Clean(runs[j])) <==> d.error == c.error && d.failure == c.failure)
  {
    if |runs| > 0 {
      var earlier := runs[..|runs| - 1];
      RunsCountsClean(c, filename, earlier);
      assert forall j :: 0 <= j < |earlier| ==> earlier[j] == runs[j];
    }
  }

  /**
   * The `tests` counter ends as the number of skipped files plus the number
   * of tests the executed files hold; every executed test adds to success,
   * error or failure (a failed export once more).
   */
  lemma {:induction false} TallyTotals(files: seq<TestFile>, n: nat, subdir: Option<seq<string>>, dir: string,
                                       matches: (string, string) -> bool)
    requires TallyFrom(Initial(n), files, subdir, dir, matches).Ok?
    ensures var c := TallyFrom(Initial(n), files, subdir, dir, matches).value;
            && c.tests == n - |files| + SkippedFiles(files, subdir, dir, matches) + ExecutedTests(files, subdir, dir, matches)
            && c.ignore == SkippedFiles(files, subdir, dir, matches)
            && c.success + c.error + c.failure
               == ExecutedTests(files, subdir, dir, matches) + ExecutedExportFailures(files, subdir, dir, matches)
  {
    if |files| > 0 {
      var earlier := files[..|files| - 1];
      var f := files[|files| - 1];
      TallyTotals(earlier, n, subdir, dir, matches);
      var c := TallyFrom(Initial(n), earlier, subdir, dir, matches).value;
      var selected := Selected(f, subdir, dir, matches);
      assert TallyFrom(Initial(n), files, subdir, dir, matches) == FileCounts(c, f, selected);
      FileCountsTotals(c, f, selected);
    }
  }

  /** What one file adds to the counters that the totals follow. */
  lemma FileCountsTotals(c: Tally, f: TestFile, selected: bool)
    requires FileCounts(c, f, selected).Ok?
    ensures var d := FileCounts(c, f, selected).value;
            var executed := selected && !f.meta.ignore;
            && d.tests == c.tests + (if executed then |f.runs| - 1 else 0)
            && d.ignore == c.ignore + (if executed then 0 else 1)
            && d.success + d.error + d.failure
               == c.success + c.error + c.failure + (if executed then |f.runs| + ExportFailures(f.runs) else 0)
  {
    if selected && !f.meta.ignore {
      var c1 := if IsIncomplete(f.meta) then c.(incomplete := c.incomplete + 1) else c;
      RunsCountsOutcomes(c1.(tests := c1.tests + |f.runs| - 1), f.filename, f.runs);
    }
  }

  /** One file keeps error and failure as they were exactly when it is skipped or all its tests are clean. */
  lemma FileCountsClean(c: Tally, f: TestFile, selected: bool)
    requires FileCounts(c, f, selected).Ok?
    ensures var d := FileCounts(c, f, selected).value;
            && d.error >= c.error && d.failure >= c.failure
            && ((!selected || f.meta.ignore || forall j :: 0 <= j < |f.runs| ==> Clean(f.runs[j]))
                <==> d.error == c.error && d.failure == c.failure)
  {
    if selected && !f.meta.ignore {
      var c1 := if IsIncomplete(f.meta) then c.(incomplete := c.incomplete + 1) else c;
      RunsCountsClean(c1.(tests := c1.tests + |f.runs| - 1), f.filename, f.runs);
    }
  }

  /** All files are clean when the earlier ones are and the last one is. */
  lemma AllCleanSnoc(files: seq<TestFile>, subdir: Option<seq<string>>, dir: string, matches: (string, string) -> bool)
    requires |files| > 0
    ensures AllClean(files, subdir, dir, matches) <==>
              AllClean(files[..|files| - 1], subdir, dir, matches) && FileClean(files[|files| - 1], subdir, dir, matches)
  {
    var earlier := files[..|files| - 1];
    var last := |files| - 1;
    if AllClean(files, subdir, dir, matches) {
      forall k | 0 <= k < |earlier|
        ensures FileClean(earlier[k], subdir, dir, matches)
      {
        assert earlier[k] == files[k];
        assert FileClean(files[k], subdir, dir, matches);
      }
      assert FileClean(files[last], subdir, dir, matches);
    }
    if AllClean(earlier, subdir, dir, matches) && FileClean(files[last], subdir, dir, matches) {
      forall k | 0 <= k < |files|
        ensures FileClean(files[k], subdir, dir, matches)
      {
        if k < |earlier| {
          assert files[k] == earlier[k];
          assert FileClean(earlier[k], subdir, dir, matches);
        }
      }
    }
  }

  /** The run ends with 0 exactly when every test of every executed file passed cleanly. */
  lemma {:induction false} TallyClean(files: seq<TestFile>, n: nat, subdir: Option<seq<string>>, dir: string,
                                      matches: (string, string) -> bool)
    requires TallyFrom(Initial(n), files, subdir, dir, matches).Ok?
    ensures var c := TallyFrom(Initial(n), files, subdir, dir, matches).value;
            AllClean(files, subdir, dir, matches) <==> c.error == 0 && c.failure == 0
  {
    if |files| > 0 {
      var earlier := files[..|files| - 1];
      var f := files[|files| - 1];
      TallyClean(earlier, n, subdir, dir, matches);
      var c := TallyFrom(Initial(n), earlier, subdir, dir, matches).value;
      FileCountsClean(c, f, Selected(f, subdir, dir, matches));
      AllCleanSnoc(files, subdir, dir, matches);
    }
  }

  /** Exit code 0 when, and only when, every file's tests could be made and every executed test passed cleanly. */
  lemma ExitZero(files: seq<TestFile>, subdir: Option<seq<string>>, dir: string, matches: (string, string) -> bool)
    ensures RunExitCode(files, subdir, dir, matches) == 0 <==>
              TallyFrom(Initial(|files|), files, subdir, dir, matches).Ok? && AllClean(files, subdir, dir, matches)
  {
    if TallyFrom(Initial(|files|), files, subdir, dir, matches).Ok? {
      TallyClean(files, |files|, subdir, dir, matches);
    }
  }

  // ---------------------------------------------------------------------------
  // The runner

  /** The statistics object `invoke` updates while the files run. */
  class Stats {
    var tests: int
    var success: nat
    var error: nat
    var failure: nat
    var ignore: nat
    var incomplete: nat
    /** The names of the files whose messages were collected, one per message. */
    var errors: seq<string>

    function Counts(): Tally
      reads this
    {
      Tally(tests, success, error, failure, ignore, incomplete, errors)
    }

    /** Every parsed file counts as one test to begin with. */
    constructor (files: nat)
      ensures Counts() == Initial(files)
    {
      tests := files;
      success := 0;
      error := 0;
      failure := 0;
      ignore := 0;
      incomplete := 0;
      errors := [];
    }

    /** One test's outcome: the branches of the body of the inner loop and its two `catch` blocks. */
    method Record(filename: string, run: TestRun)
      modifies this
      ensures Counts() == RunCounts(old(Counts()), filename, run)
    {
      match run
      case Reported(status, exportFailed) =>
        if status == Testphase.Success {
          success := success + 1;
        } else {
          failure := failure + 1;
        }
        if exportFailed {
          errors := errors + [filename];
          failure := failure + 1;
        }
      case Raised(unsetGlobal) =>
        errors := errors + [filename];
        if unsetGlobal {
          error := error + 1;
        } else {
          failure := failure + 1;
        }
    }

    /** One file: skipped, or counted and its tests recorded; `false` when its tests could not be made. */
    method RecordFile(f: TestFile, selected: bool) returns (created: bool)
      modifies this
      ensures var expected := FileCounts(old(Counts()), f, selected);
              && (created <==> expected.Ok?)
              && (created ==> Counts() == expected.value)
    {
      if !selected || f.meta.ignore {
        ignore := ignore + 1;
        return true;
      }
      if IsIncomplete(f.meta) {
        incomplete := incomplete + 1;
      }
      if !f.created {
        return false;
      }
      tests := tests + |f.runs| - 1;
      ghost var start := Counts();
      for k := 0 to |f.runs|
        invariant Counts() == RunsCounts(start, f.filename, f.runs[..k])
      {
        Record(f.filename, f.runs[k]);
        assert f.runs[..k + 1][..k] == f.runs[..k];
      }
      assert f.runs[..|f.runs|] == f.runs;
      created := true;
    }
  }

  /** The `--subdir` check: the patterns are tried in order until one matches the name. */
  method MatchesAny(patterns: seq<string>, name: string, matches: (string, string) -> bool) returns (found: bool)
    ensures found <==> exists k :: 0 <= k < |patterns| && matches(patterns[k], name)
    ensures found == AnyMatch(patterns, name, matches)
  {
    AnyMatchExists(patterns, name, matches);
    found := false;
    var k := 0;
    while k < |patterns|
      invariant 0 <= k <= |patterns|
      invariant forall m :: 0 <= m < k ==> !matches(patterns[m], name)
    {
      if matches(patterns[k], name) {
        return true;
      }
      k := k + 1;
    }
  }

  /**
   * The loop of `invoke` over the sorted files: tallies the statistics and
   * chooses the exit code. `matches(pattern, name)` is the regular
   * expression test of a `--subdir` pattern.
   */
  method Invoke(files: seq<TestFile>, subdir: Option<seq<string>>, dir: string, matches: (string, string) -> bool)
    returns (code: int, stats: Stats)
    ensures TallyFrom(Initial(|files|), files, subdir, dir, matches).Ok? ==>
              stats.Counts() == TallyFrom(Initial(|files|), files, subdir, dir, matches).value
    ensures code == RunExitCode(files, subdir, dir, matches)
  {
    stats := new Stats(|files|);
    for i := 0 to |files|
      invariant TallyFrom(Initial(|files|), files[..i], subdir, dir, matches) == Ok(stats.Counts())
    {
      var f := files[i];
      assert files[..i + 1][..i] == files[..i];
      var selected := true;
      if subdir.Some? {
        selected := MatchesAny(subdir.value, CleanFilename(dir, f.filename), matches);
      }
      ghost var before := stats.Counts();
      var created := stats.RecordFile(f, selected);
      if !created {
        assert TallyFrom(Initial(|files|), files[..i + 1], subdir, dir, matches) == FileCounts(before, f, selected);
        ExitOnFailedFile(files, i, subdir, dir, matches);
        return 1, stats;
      }
    }
    assert files[..|files|] == files;
    code := ExitCode(stats.Counts());
  }

  /** A file whose tests cannot be made ends the whole run with exit code 1. */
  lemma {:induction false} ExitOnFailedFile(files: seq<TestFile>, i: nat, subdir: Option<seq<string>>, dir: string,
                                            matches: (string, string) -> bool)
    requires i < |files|
    requires TallyFrom(Initial(|files|), files[..i + 1], subdir, dir, matches).Err?
    ensures TallyFrom(Initial(|files|), files, subdir, dir, matches).Err?
    ensures RunExitCode(files, subdir, dir, matches) == 1
    decreases |files| - i
  {
    if i + 1 < |files| {
      assert files[..i + 2][..i + 1] == files[..i + 1];
      ExitOnFailedFile(files, i + 1, subdir, dir, matches);
    } else {
      assert files[..i + 1] == files;
    }
  }

  // ---------------------------------------------------------------------------
  // Colours

  const ESC: char := '\U{1B}'

  /** The terminal colour code of a colour name; unknown names are black. */
  function ColorCode(color: string): (code: string)
    ensures code in {"0;30", "0;31", "0;32", "1;34", "1;33"}
    ensures color !in {"red", "green", "blue", "yellow"} ==> code == "0;30"
  {
    if color == "red" then "0;31"
    else if color == "green" then "0;32"
    else if color == "blue" then "1;34"
    else if color == "yellow" then "1;33"
    else "0;30"
  }

  /** `colored`: the text as is without colours, otherwise wrapped in the colour's escape and the reset escape. */
  function Colored(text: string, color: string, noColors: bool): string {
    if noColors then text else [ESC, '['] + ColorCode(color) + "m" + text + [ESC] + "[0m"
  }

  /** The text inside a coloured string: the escape prefix and the reset suffix dropped. */
  function Uncolored(s: string): string {
    if |s| >= 11 && s[0] == ESC && s[1] == '[' && s[6] == 'm' && s[|s| - 4..] == [ESC] + "[0m" then s[7..|s| - 4]
    else s
  }

  /** The colours only wrap the text: it can always be read back. */
  lemma ColoredText(text: string, color: string, noColors: bool)
    ensures noColors ==> Colored(text, color, noColors) == text
    ensures !noColors ==> Uncolored(Colored(text, color, noColors)) == text
  {
    if !noColors {
      var code := ColorCode(color);
      var s := Colored(text, color, noColors);
      assert |code| == 4;
      assert s[..7] == [ESC, '['] + code + "m";
      assert s[|s| - 4..] == [ESC] + "[0m";
      assert s[7..|s| - 4] == text;
    }
  }
}
