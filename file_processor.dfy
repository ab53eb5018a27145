/** `FileProcessor` of the desktop application: the background job that
    transcribes the chosen files, reports progress through a callback, and
    can be cancelled from the interface thread. The callback's calls are
    recorded in the field `events`. */
module Processor {
  import opened Wrappers
  import opened Strings
  import opened Sorting
  import Batch
  import opened CounterRace

  type FileResult = Batch.FileResult
  type PageOracle = Batch.PageOracle

  /** The first argument of a progress callback: "start", "complete", "error". */
  datatype ProgressKind = Start | Complete | Error

  /** One call `progress_callback(kind, count, filename)`. */
  datatype Progress = Progress(kind: ProgressKind, count: int, filename: string)

  const CancelMessage: string := "Processing cancelled by user"

  /** Where the interface thread's `cancel()` lands relative to the
      sequential loop: before the loop's check for file `index`, or between
      that check and the check at the top of `_process_single_file`. */
  datatype CancelPoint = NoCancel | BeforeCheck(index: nat) | AfterCheck(index: nat)

  /** What `run` returns: the records and the PDF paths. */
  datatype RunOutput = RunOutput(results: seq<FileResult>, pdfPaths: seq<string>)

  /** The progress calls of one processed file whose counter stood at
      `before`: "start" with that count, then "complete" or "error" with the
      count after the file. */
  function FileEvents(r: FileResult, before: int): (es: seq<Progress>)
    ensures |es| == 2
    ensures es[0] == Progress(Start, before, r.filename)
    ensures es[1].count == before + 1 && es[1].filename == r.filename
    ensures es[1].kind == Complete <==> r.status == Batch.Success
  {
    [Progress(Start, before, r.filename),
     Progress(if r.status == Batch.Success then Complete else Error, before + 1, r.filename)]
  }

  /** The progress calls for records processed one after another, starting
      from count `start`. */
  function EventsOf(rs: seq<FileResult>, start: int): (es: seq<Progress>)
    ensures |es| == 2 * |rs|
  {
    if rs == [] then []
    else EventsOf(rs[..|rs| - 1], start) + FileEvents(rs[|rs| - 1], start + |rs| - 1)
  }

  /** How many files the sequential loop processes before it stops. */
  function SequentialStop(n: nat, alreadyCancelled: bool, cancel: CancelPoint): (k: nat)
    ensures k <= n
    ensures alreadyCancelled ==> k == 0
    ensures !alreadyCancelled && cancel.NoCancel? ==> k == n
  {
    if alreadyCancelled then 0
    else
      match cancel
      case NoCancel => n
      case BeforeCheck(i) => if i < n then i else n
      case AfterCheck(i) => if i < n then i else n
  }

  /** The loop, having reached file `i`, stops there exactly when the job was
      already cancelled or the cancellation lands at file `i`. */
  lemma StopFacts(n: nat, alreadyCancelled: bool, cancel: CancelPoint, i: nat)
    requires i < n && i <= SequentialStop(n, alreadyCancelled, cancel)
    ensures SequentialStop(n, alreadyCancelled, cancel) == i <==>
      alreadyCancelled || cancel == BeforeCheck(i) || cancel == AfterCheck(i)
  {
  }

  /** The cancellation lands after the loop's check: the exception of
      `_process_single_file` leaves `run`. */
  predicate RaisesCancel(n: nat, alreadyCancelled: bool, cancel: CancelPoint)
  {
    !alreadyCancelled && cancel.AfterCheck? && cancel.index < n
  }

  class FileProcessor {
    const filePaths: seq<string>
    const maxWorkers: int
    var cancelled: bool
    var processedCount: int
    var events: seq<Progress>

    constructor(filePaths: seq<string>, maxWorkers: int)
      ensures this.filePaths == filePaths && this.maxWorkers == maxWorkers
      ensures !cancelled && processedCount == 0 && events == []
    {
      this.filePaths := filePaths;
      this.maxWorkers := maxWorkers;
      cancelled := false;
      processedCount := 0;
      events := [];
    }

    /** `cancel`. */
    method Cancel()
      modifies this
      ensures cancelled
      ensures processedCount == old(processedCount) && events == old(events)
    {
      cancelled := true;
    }

    /** `_process_single_file`: refuses to start once cancelled; otherwise
        counts the file and reports its start and its end. The record is the
        one the command-line tool makes for the same file. */
    method ProcessSingleFile(path: string, page: int, o: PageOracle) returns (r: Result<FileResult, string>)
      requires Batch.Supplies(o)
      modifies this
      ensures cancelled == old(cancelled)
      ensures old(cancelled) ==>
        r == Err(CancelMessage) && processedCount == old(processedCount) && events == old(events)
      ensures !old(cancelled) ==>
        && r == Ok(Batch.FileOutcome(path, page, Batch.Effects(path, o)))
        && processedCount == old(processedCount) + 1
        && events == old(events) + FileEvents(r.value, old(processedCount))
    {
      if cancelled {
        return Err(CancelMessage);
      }
      var filename := BaseName(path);
      events := events + [Progress(Start, processedCount, filename)];
      var record := Batch.ProcessSingleFile(path, page, o);
      processedCount := processedCount + 1;
      if record.status == Batch.Success {
        events := events + [Progress(Complete, processedCount, filename)];
      } else {
        events := events + [Progress(Error, processedCount, filename)];
      }
      return Ok(record);
    }

    /** `run` with one worker: files in list order, page `i + 1` for the
        `i`-th, stopping at the first file for which the loop sees the
        cancellation; a cancellation that slips past the loop's check ends
        `run` with the exception of `_process_single_file`. */
    method RunSequentially(oracles: seq<PageOracle>, cancel: CancelPoint) returns (out: Result<RunOutput, string>)
      requires maxWorkers == 1
      requires |oracles| == |filePaths| && Batch.AllSupply(oracles)
      modifies this
      ensures var k := SequentialStop(|filePaths|, old(cancelled), cancel);
        && processedCount == old(processedCount) + k
        && events == old(events) + EventsOf(Processed(filePaths, oracles, k), old(processedCount))
        && cancelled == (old(cancelled) || (!cancel.NoCancel? && cancel.index < |filePaths|))
      ensures RaisesCancel(|filePaths|, old(cancelled), cancel) ==> out == Err(CancelMessage)
      ensures !RaisesCancel(|filePaths|, old(cancelled), cancel) ==>
        var done := Processed(filePaths, oracles, SequentialStop(|filePaths|, old(cancelled), cancel));
        out.Ok? && out.value.results == done && out.value.pdfPaths == Batch.PdfPaths(done)
    {
      var results, failure := ProcessInOrder(oracles, cancel);
      if failure.Some? {
        return Err(failure.value);
      }
      return Ok(RunOutput(results, Batch.PdfPaths(results)));
    }

    /** The loop of the sequential branch: the records gathered until the
        loop stops, and the exception that ended it early, if any. */
    method ProcessInOrder(oracles: seq<PageOracle>, cancel: CancelPoint)
      returns (results: seq<FileResult>, failure: Option<string>)
      requires |oracles| == |filePaths| && Batch.AllSupply(oracles)
      modifies this
      ensures var k := SequentialStop(|filePaths|, old(cancelled), cancel);
        && results == Processed(filePaths, oracles, k)
        && processedCount == old(processedCount) + k
        && events == old(events) + EventsOf(results, old(processedCount))
        && cancelled == (old(cancelled) || (!cancel.NoCancel? && cancel.index < |filePaths|))
      ensures failure == if RaisesCancel(|filePaths|, old(cancelled), cancel) then Some(CancelMessage) else None
    {
      ghost var k := SequentialStop(|filePaths|, old(cancelled), cancel);
      results, failure := [], None;
      var i := 0;
      while i < |filePaths|
        invariant 0 <= i <= k
        invariant results == Processed(filePaths, oracles, i)
        invariant processedCount == old(processedCount) + i
        invariant events == old(events) + EventsOf(results, old(processedCount))
        invariant cancelled == (old(cancelled) || (!cancel.NoCancel? && cancel.index < i))
        invariant i > 0 ==> !cancelled
      {
        StopFacts(|filePaths|, old(cancelled), cancel, i);
        if cancel == BeforeCheck(i) {
          Cancel();
        }
        if cancelled {
          assert k == i;
          break;
        }
        if cancel == AfterCheck(i) {
          Cancel();
        }
        ghost var eventsBefore, countBefore := events, processedCount;
        var r := ProcessSingleFile(filePaths[i], i + 1, oracles[i]);
        if r.Err? {
          assert k == i && RaisesCancel(|filePaths|, old(cancelled), cancel);
          return results, Some(r.error);
        }
        ProcessedNext(filePaths, oracles, i, r.value);
        EventsStep(old(events), eventsBefore, events, results, r.value, old(processedCount), countBefore);
        results := results + [r.value];
        i := i + 1;
      }
      assert k == i;
    }

    /** `run` with a thread pool: `completion` is the order in which the
        tasks finish, the loop records the first `collected` of them before
        it sees the cancellation (`collected` is the number of files when it
        never does), `started` are the tasks that passed their own
        cancellation check, and `schedule` is how their unlocked increments
        of the counter interleave. `calls` names the task behind each
        progress call in the order the calls happen (every started task
        calls twice), and `counts` is the counter value each call reads. A
        job cancelled before `run` has every task raise at its check, so
        none starts and the loop stops at the first completion. */
    method RunConcurrently(oracles: seq<PageOracle>, completion: seq<nat>, collected: nat,
                           started: set<nat>, schedule: seq<Access>,
                           calls: seq<nat>, counts: seq<int>)
      returns (out: Result<RunOutput, string>)
      requires maxWorkers != 1
      requires |oracles| == |filePaths| && Batch.AllSupply(oracles)
      requires |completion| == |filePaths| && multiset(completion) == multiset(Range(|filePaths|))
      requires collected <= |filePaths|
      requires forall i :: i in started ==> i < |filePaths|
      requires cancelled ==> started == {}
      requires forall j :: 0 <= j < collected ==> completion[j] in started
      requires Stores(schedule) == |started|
      requires multiset(calls) == multiset(started) + multiset(started) && |counts| == |calls|
      modifies this
      ensures maxWorkers < 1 ==> out == Err("max_workers must be greater than 0")
      ensures maxWorkers < 1 ==>
        cancelled == old(cancelled) && processedCount == old(processedCount) && events == old(events)
      ensures maxWorkers > 1 ==> out.Ok? && InRange(completion, |filePaths|)
      ensures maxWorkers > 1 ==>
        var outcomes := Batch.AllOutcomes(filePaths, Batch.AllEffects(filePaths, oracles));
        out.value.results == SortBy(Pick(outcomes, completion[..collected]), Batch.PageKey)
      ensures maxWorkers > 1 ==> out.value.pdfPaths == Batch.PdfPaths(out.value.results)
      ensures maxWorkers > 1 ==> cancelled == (old(cancelled) || collected < |filePaths|)
      ensures maxWorkers > 1 ==> InRange(calls, |filePaths|)
      ensures maxWorkers > 1 ==>
        var outcomes := Batch.AllOutcomes(filePaths, Batch.AllEffects(filePaths, oracles));
        InRange(calls, |outcomes|) && events == old(events) + CallEvents(outcomes, calls, counts, {})
      ensures maxWorkers > 1 ==> |events| == |old(events)| + 2 * |started|
      ensures maxWorkers > 1 && old(cancelled) ==> out.value.results == [] && events == old(events)
      ensures maxWorkers > 1 ==> processedCount == Interleave(Counter(old(processedCount), map[]), schedule).count
      ensures maxWorkers > 1 ==> processedCount <= old(processedCount) + |started|
      ensures maxWorkers > 1 && Locked(schedule) ==> processedCount == old(processedCount) + |started|
    {
      if maxWorkers < 1 {
        return Err("max_workers must be greater than 0");
      }
      var output := CollectSorted(oracles, completion, collected);
      if collected < |filePaths| {
        cancelled := true;
      }
      TasksRan(Batch.AllOutcomes(filePaths, Batch.AllEffects(filePaths, oracles)), started, schedule, calls, counts);
      return Ok(output);
    }

    /** The main thread's loop over the completed tasks, then the sort by
        page number. */
    method CollectSorted(oracles: seq<PageOracle>, completion: seq<nat>, collected: nat)
      returns (output: RunOutput)
      requires |oracles| == |filePaths| && Batch.AllSupply(oracles)
      requires |completion| == |filePaths| && multiset(completion) == multiset(Range(|filePaths|))
      requires collected <= |filePaths|
      ensures InRange(completion, |filePaths|)
      ensures var outcomes := Batch.AllOutcomes(filePaths, Batch.AllEffects(filePaths, oracles));
        output.results == SortBy(Pick(outcomes, completion[..collected]), Batch.PageKey)
      ensures output.pdfPaths == Batch.PdfPaths(output.results)
    {
      PermutationInRange(completion, |filePaths|, collected);
      var completedResults := Batch.CollectCompletions(filePaths, oracles, completion[..collected]);
      var results := SortBy(completedResults, Batch.PageKey);
      return RunOutput(results, Batch.PdfPaths(results));
    }

    /** What the started tasks do to the shared state: their progress calls,
        in the order `calls` gives, and their increments of the counter,
        interleaved as `schedule` gives. */
    method TasksRan(outcomes: seq<FileResult>, started: set<nat>, schedule: seq<Access>,
                    calls: seq<nat>, counts: seq<int>)
      requires |outcomes| == |filePaths|
      requires forall i :: i in started ==> i < |filePaths|
      requires Stores(schedule) == |started|
      requires multiset(calls) == multiset(started) + multiset(started) && |counts| == |calls|
      modifies this
      ensures cancelled == old(cancelled)
      ensures InRange(calls, |filePaths|)
      ensures InRange(calls, |outcomes|) && events == old(events) + CallEvents(outcomes, calls, counts, {})
      ensures |events| == |old(events)| + 2 * |started|
      ensures processedCount == Interleave(Counter(old(processedCount), map[]), schedule).count
      ensures processedCount <= old(processedCount) + |started|
      ensures Locked(schedule) ==> processedCount == old(processedCount) + |started|
    {
      CallsInRange(calls, started, |filePaths|);
      events := events + CallEvents(outcomes, calls, counts, {});
      var before := processedCount;
      processedCount := Interleave(Counter(before, map[]), schedule).count;
      NeverOvercounts(Counter(before, map[]), schedule, before, 0);
      if Locked(schedule) {
        LockedCountsAll(Counter(before, map[]), schedule);
      }
    }
  }

  // ---------------------------------------------------------------------
  // The progress calls of tasks running side by side

  /** The kind of a task's second progress call. */
  function OutcomeKind(r: FileResult): (k: ProgressKind)
    ensures k != Start
    ensures k == Complete <==> r.status == Batch.Success
  {
    if r.status == Batch.Success then Complete else Error
  }

  /** The progress calls made by the tasks `calls` names, in that order:
      a task's first call is its "start", its next one the outcome of its
      record; `seen` are the tasks that have already called. */
  function CallEvents(outcomes: seq<FileResult>, calls: seq<nat>, counts: seq<int>, seen: set<nat>): (es: seq<Progress>)
    requires InRange(calls, |outcomes|) && |counts| == |calls|
    ensures |es| == |calls|
    decreases |calls|
  {
    if calls == [] then []
    else
      InRangeSuffix(calls, |outcomes|, 1);
      var r := outcomes[calls[0]];
      [Progress(if calls[0] in seen then OutcomeKind(r) else Start, counts[0], r.filename)]
        + CallEvents(outcomes, calls[1..], counts[1..], seen + {calls[0]})
  }

  /** Call `k` reports the count it read and its task's file name, and it
      is a "start" exactly when that task has not called before. */
  lemma {:induction false} CallEventsAt(outcomes: seq<FileResult>, calls: seq<nat>, counts: seq<int>,
                                        seen: set<nat>, k: nat)
    requires InRange(calls, |outcomes|) && |counts| == |calls| && k < |calls|
    ensures var e := CallEvents(outcomes, calls, counts, seen)[k];
      && e.count == counts[k]
      && e.filename == outcomes[calls[k]].filename
      && (e.kind == Start <==> calls[k] !in seen && calls[k] !in calls[..k])
      && (e.kind != Start ==> e.kind == OutcomeKind(outcomes[calls[k]]))
    decreases k
  {
    if k > 0 {
      InRangeSuffix(calls, |outcomes|, 1);
      CallEventsAt(outcomes, calls[1..], counts[1..], seen + {calls[0]}, k - 1);
      assert calls[..k] == [calls[0]] + calls[1..][..k - 1];
    }
  }

  /** Every progress call comes from a started task, and no other. */
  lemma CallsInRange(calls: seq<nat>, started: set<nat>, n: nat)
    requires forall i :: i in started ==> i < n
    requires multiset(calls) == multiset(started) + multiset(started)
    ensures InRange(calls, n)
    ensures forall k :: 0 <= k < |calls| ==> calls[k] in started
    ensures |calls| == 2 * |started|
  {
    forall k | 0 <= k < |calls|
      ensures calls[k] in started
    {
      assert calls[k] in multiset(calls);
    }
    assert |multiset(calls)| == |calls|;
    assert |multiset(started)| == |started|;
  }

  /** A value occurring twice in a sequence has a first occurrence and a
      later one. */
  lemma {:induction false} TwoOccurrences(s: seq<nat>, x: nat)
    requires multiset(s)[x] >= 2
    ensures exists p, q :: 0 <= p < q < |s| && s[p] == x && s[q] == x && x !in s[..p]
    decreases |s|
  {
    assert s == [s[0]] + s[1..];
    if s[0] == x {
      assert x in multiset(s[1..]);
      var q :| 0 <= q < |s[1..]| && s[1..][q] == x;
      assert s[q + 1] == x && s[..0] == [];
    } else {
      TwoOccurrences(s[1..], x);
      var p, q :| 0 <= p < q < |s[1..]| && s[1..][p] == x && s[1..][q] == x && x !in s[1..][..p];
      assert s[..p + 1] == [s[0]] + s[1..][..p];
      assert s[p + 1] == x && s[q + 1] == x;
    }
  }

  /** The concurrent run's progress calls: each started task makes a
      "start" call carrying its file name and, after it, a call that is
      "complete" when its record succeeded and "error" otherwise. */
  lemma StartedTaskEvents(outcomes: seq<FileResult>, calls: seq<nat>, counts: seq<int>,
                          started: set<nat>, i: nat)
    requires forall j :: j in started ==> j < |outcomes|
    requires multiset(calls) == multiset(started) + multiset(started) && |counts| == |calls|
    requires i in started
    ensures InRange(calls, |outcomes|)
    ensures var es := CallEvents(outcomes, calls, counts, {});
      exists p, q :: 0 <= p < q < |calls| &&
        es[p] == Progress(Start, counts[p], outcomes[i].filename) &&
        es[q] == Progress(OutcomeKind(outcomes[i]), counts[q], outcomes[i].filename)
  {
    CallsInRange(calls, started, |outcomes|);
    TwoOccurrences(calls, i);
    var p, q :| 0 <= p < q < |calls| && calls[p] == i && calls[q] == i && i !in calls[..p];
    CallEventsAt(outcomes, calls, counts, {}, p);
    CallEventsAt(outcomes, calls, counts, {}, q);
    assert calls[..q][p] == i;
  }

  /** The positions of a rearrangement of 0 .. n-1 are below n. */
  lemma PermutationInRange(completion: seq<nat>, n: nat, collected: nat)
    requires multiset(completion) == multiset(Range(n)) && collected <= |completion|
    ensures InRange(completion, n) && InRange(completion[..collected], n)
  {
    forall k | 0 <= k < |completion|
      ensures completion[k] < n
    {
      assert completion[k] in multiset(Range(n));
    }
  }

  /** The records of the first `k` files, processed in list order; file
      `i` is page `i + 1`. */
  function Processed(paths: seq<string>, oracles: seq<PageOracle>, k: nat): (rs: seq<FileResult>)
    requires |oracles| == |paths| && Batch.AllSupply(oracles) && k <= |paths|
    ensures |rs| == k
  {
    if k == 0 then []
    else Processed(paths, oracles, k - 1) + [Batch.FileOutcome(paths[k - 1], k, Batch.Effects(paths[k - 1], oracles[k - 1]))]
  }

  lemma ProcessedNext(paths: seq<string>, oracles: seq<PageOracle>, i: nat, record: FileResult)
    requires |oracles| == |paths| && Batch.AllSupply(oracles) && i < |paths|
    requires record == Batch.FileOutcome(paths[i], i + 1, Batch.Effects(paths[i], oracles[i]))
    ensures Processed(paths, oracles, i + 1) == Processed(paths, oracles, i) + [record]
  {
  }

  /** The loop's step for the progress calls: appending one file's calls
      to the calls of the files before it. */
  lemma EventsStep(base: seq<Progress>, before: seq<Progress>, after: seq<Progress>,
                   rs: seq<FileResult>, r: FileResult, start: int, count: int)
    requires count == start + |rs|
    requires before == base + EventsOf(rs, start)
    requires after == before + FileEvents(r, count)
    ensures after == base + EventsOf(rs + [r], start)
  {
    assert (rs + [r])[..|rs|] == rs;
  }

  // ---------------------------------------------------------------------
  // Properties of the two runs

  /** Each processed file moves the counter by one and produces exactly two
      progress calls, the first "start" with the count before the file and
      the second with the count after it. */
  lemma {:induction false} EventsCount(rs: seq<FileResult>, start: int)
    ensures forall k :: 0 <= k < |rs| ==>
      && EventsOf(rs, start)[2 * k] == Progress(Start, start + k, rs[k].filename)
      && EventsOf(rs, start)[2 * k + 1].count == start + k + 1
      && (EventsOf(rs, start)[2 * k + 1].kind == Complete <==> rs[k].status == Batch.Success)
    decreases |rs|
  {
    if rs != [] {
      var init := rs[..|rs| - 1];
      EventsCount(init, start);
      assert forall k :: 0 <= k < |init| ==> rs[k] == init[k];
    }
  }

  /** The sequential run's records are the first records of the full run
      (the one the command-line tool makes for the same files), and all of
      them when nobody cancels. */
  lemma {:induction false} ProcessedIsPrefix(paths: seq<string>, oracles: seq<PageOracle>, k: nat)
    requires |oracles| == |paths| && Batch.AllSupply(oracles) && k <= |paths|
    ensures Processed(paths, oracles, k) == Batch.AllOutcomes(paths, Batch.AllEffects(paths, oracles))[..k]
    ensures k == |paths| ==> Processed(paths, oracles, k) == Batch.AllOutcomes(paths, Batch.AllEffects(paths, oracles))
    decreases k
  {
    var outcomes := Batch.AllOutcomes(paths, Batch.AllEffects(paths, oracles));
    if k > 0 {
      ProcessedIsPrefix(paths, oracles, k - 1);
      PrefixNext(outcomes, k);
    }
  }

  /** The concurrent run's records are in strictly increasing page order,
      each one is the record of its file, and all records are there when
      nobody cancels. */
  lemma ConcurrentResults(paths: seq<string>, oracles: seq<PageOracle>, completion: seq<nat>, collected: nat)
    requires |oracles| == |paths| && Batch.AllSupply(oracles)
    requires |completion| == |paths| && multiset(completion) == multiset(Range(|paths|))
    requires collected <= |paths|
    ensures var outcomes := Batch.AllOutcomes(paths, Batch.AllEffects(paths, oracles));
      && InRange(completion, |paths|)
      && var results := SortBy(Pick(outcomes, completion[..collected]), Batch.PageKey);
      && StrictlyIncreasing(results, Batch.PageKey)
      && (forall r :: r in results ==> r in outcomes)
      && (collected == |paths| ==> results == outcomes)
  {
    Batch.PagesIncrease(paths, Batch.AllEffects(paths, oracles));
    SortPickedPrefix(Batch.AllOutcomes(paths, Batch.AllEffects(paths, oracles)), completion, collected, Batch.PageKey);
  }
}
