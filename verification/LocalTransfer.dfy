/** Bounded in-process transfers: admission, settlement in any completion order, draining after an error. */
module LocalTransfer {
  import opened Bytes

  datatype Entry = Entry(path: string, isFile: bool)

  /** How the transfer of one file ends: published, failed, or its task is gone. */
  datatype Result = Transferred(bytes: nat) | TransferFailed | TaskLost

  /** A spawned transfer, with the result it will have. */
  datatype Attempt = Attempt(entry: Entry, result: Result)

  datatype Item =
    | Observed(entry: Entry)
    | Failure(path: string)
    | DirectoryListed
    | Checkpoint
    | UnknownEvent

  datatype Fault =
    | BadIdentity
    | BadRequest(entry: Entry)
    | SinkRefused
    | JoinFailed
    | Unsupported
    | FinishFailed
    | CountMismatch

  datatype Ending = Broken | Cancelled | Completed(emitted: nat, failures: nat)

  datatype Report = Report(observed: nat, completed: nat, bytes: nat, entryFailures: nat, transferFailures: nat,
                           skipped: nat, peak: nat, cancelled: bool)

  /** One call into the sink. */
  datatype SinkCall =
    | CompletedCall(entry: Entry, bytes: nat)
    | TransferFailedCall(entry: Entry)
    | EntryFailedCall(path: string)

  datatype Outcome = Ok(report: Report) | Err(fault: Fault)

  function Min(a: nat, b: nat): nat { if a < b then a else b }

  function Max(a: nat, b: nat): nat { if a < b then b else a }

  // ---------------------------------------------------------------- what a stream of items asks for

  /** Files that the items name, in order. */
  function Files(items: seq<Item>): (r: seq<Entry>)
  {
    if items == [] then []
    else
      var last := items[|items| - 1];
      if last.Observed? && last.entry.isFile then Files(items[..|items| - 1]) + [last.entry]
      else Files(items[..|items| - 1])
  }

  function Entries(items: seq<Item>): (r: nat)
    ensures |Files(items)| <= r
  {
    if items == [] then 0
    else Entries(items[..|items| - 1]) + if items[|items| - 1].Observed? then 1 else 0
  }

  function Failures(items: seq<Item>): (r: seq<string>)
  {
    if items == [] then []
    else
      var last := items[|items| - 1];
      if last.Failure? then Failures(items[..|items| - 1]) + [last.path] else Failures(items[..|items| - 1])
  }

  lemma ItemsSnoc(items: seq<Item>, item: Item)
    ensures Files(items + [item])
         == if item.Observed? && item.entry.isFile then Files(items) + [item.entry] else Files(items)
    ensures Entries(items + [item]) == Entries(items) + if item.Observed? then 1 else 0
    ensures Failures(items + [item]) == if item.Failure? then Failures(items) + [item.path] else Failures(items)
  {
    assert (items + [item])[..|items|] == items;
  }

  // ---------------------------------------------------------------- what the sink was told

  datatype Tally = Tally(completed: nat, failed: nat, bytes: nat, told: multiset<Attempt>, listing: seq<string>)

  function Count(t: Tally, c: SinkCall): (r: Tally)
  {
    match c
    case CompletedCall(e, n) =>
      t.(completed := t.completed + 1, bytes := t.bytes + n, told := t.told + multiset{Attempt(e, Transferred(n))})
    case TransferFailedCall(e) => t.(failed := t.failed + 1, told := t.told + multiset{Attempt(e, TransferFailed)})
    case EntryFailedCall(p) => t.(listing := t.listing + [p])
  }

  function TallyOf(log: seq<SinkCall>): (r: Tally)
  {
    if log == [] then Tally(0, 0, 0, multiset{}, []) else Count(TallyOf(log[..|log| - 1]), log[|log| - 1])
  }

  lemma TallySnoc(log: seq<SinkCall>, c: SinkCall)
    ensures TallyOf(log + [c]) == Count(TallyOf(log), c)
  {
    assert (log + [c])[..|log|] == log;
  }

  /** Every attempt told to the sink was told as completed or as failed. */
  lemma {:induction false} TallyBalances(log: seq<SinkCall>)
    ensures |TallyOf(log).told| == TallyOf(log).completed + TallyOf(log).failed
  {
    if log != [] { TallyBalances(log[..|log| - 1]); }
  }

  // ---------------------------------------------------------------- where an admitted file can be

  ghost predicate Balanced(x: Attempt, all: multiset<Attempt>, flying: seq<Attempt>, told: multiset<Attempt>,
                           lost: multiset<Attempt>, inHand: multiset<Attempt>)
  {
    all[x] == multiset(flying)[x] + told[x] + lost[x] + inHand[x]
  }

  /** Each file of `all` is in flight, told to the sink, lost with its task, or in hand; once. */
  ghost predicate Parts(all: multiset<Attempt>, flying: seq<Attempt>, told: multiset<Attempt>, lost: multiset<Attempt>,
                        inHand: multiset<Attempt>)
  {
    forall x {:trigger Balanced(x, all, flying, told, lost, inHand)} :: Balanced(x, all, flying, told, lost, inHand)
  }

  lemma Lands(all: multiset<Attempt>, flying: seq<Attempt>, told: multiset<Attempt>, lost: multiset<Attempt>,
              k: nat)
    requires Parts(all, flying, told, lost, multiset{}) && k < |flying|
    ensures Parts(all, flying[..k] + flying[k + 1..], told, lost, multiset{flying[k]})
  {
    assert flying == flying[..k] + [flying[k]] + flying[k + 1..];
    var rest := flying[..k] + flying[k + 1..];
    forall x ensures Balanced(x, all, rest, told, lost, multiset{flying[k]}) {
      assert Balanced(x, all, flying, told, lost, multiset{});
    }
  }

  lemma IsTold(all: multiset<Attempt>, flying: seq<Attempt>, told: multiset<Attempt>, lost: multiset<Attempt>,
               e: Attempt)
    requires Parts(all, flying, told, lost, multiset{e})
    ensures Parts(all, flying, told + multiset{e}, lost, multiset{})
  {
    forall x ensures Balanced(x, all, flying, told + multiset{e}, lost, multiset{}) {
      assert Balanced(x, all, flying, told, lost, multiset{e});
    }
  }

  lemma IsLost(all: multiset<Attempt>, flying: seq<Attempt>, told: multiset<Attempt>, lost: multiset<Attempt>,
               e: Attempt)
    requires Parts(all, flying, told, lost, multiset{e})
    ensures Parts(all, flying, told, lost + multiset{e}, multiset{})
  {
    forall x ensures Balanced(x, all, flying, told, lost + multiset{e}, multiset{}) {
      assert Balanced(x, all, flying, told, lost, multiset{e});
    }
  }

  lemma TakesOff(admitted: seq<Attempt>, flying: seq<Attempt>, told: multiset<Attempt>, lost: multiset<Attempt>,
                 e: Attempt)
    requires Parts(multiset(admitted), flying, told, lost, multiset{})
    ensures Parts(multiset(admitted + [e]), flying + [e], told, lost, multiset{})
  {
    forall x ensures Balanced(x, multiset(admitted + [e]), flying + [e], told, lost, multiset{}) {
      assert Balanced(x, multiset(admitted), flying, told, lost, multiset{});
    }
  }

  /** With nothing in flight, lost or in hand, the sink was told exactly the admitted files. */
  lemma AllTold(all: multiset<Attempt>, told: multiset<Attempt>)
    requires Parts(all, [], told, multiset{}, multiset{})
    ensures told == all
  {
    forall x ensures told[x] == all[x] {
      assert Balanced(x, all, [], told, multiset{}, multiset{});
    }
  }

  lemma FileSnoc(items: seq<Item>, entry: Entry)
    requires entry.isFile
    ensures Files(items + [Observed(entry)]) == Files(items) + [entry]
    ensures Entries(items + [Observed(entry)]) == Entries(items) + 1
    ensures Failures(items + [Observed(entry)]) == Failures(items)
  {
    ItemsSnoc(items, Observed(entry));
  }

  ghost predicate OnlyLost(lost: multiset<Attempt>)
  {
    forall a :: a in lost ==> a.result.TaskLost?
  }

  /** One attempt for each file, in order. */
  predicate Starts(attempts: seq<Attempt>, files: seq<Entry>)
  {
    && |attempts| == |files|
    && forall k {:trigger StartsAt(attempts, files, k)} :: 0 <= k < |files| ==> StartsAt(attempts, files, k)
  }

  predicate StartsAt(attempts: seq<Attempt>, files: seq<Entry>, k: nat)
    requires k < |attempts| == |files|
  {
    attempts[k].entry == files[k]
  }

  lemma StartsSnoc(attempts: seq<Attempt>, files: seq<Entry>, attempt: Attempt)
    requires Starts(attempts, files)
    ensures Starts(attempts + [attempt], files + [attempt.entry])
  {
    forall k | 0 <= k <= |files| ensures StartsAt(attempts + [attempt], files + [attempt.entry], k) {
      if k < |files| { assert StartsAt(attempts, files, k); }
    }
  }

  ghost predicate Matches(r: Report, t: Tally)
  {
    && r.completed == t.completed && r.transferFailures == t.failed && r.bytes == t.bytes
    && r.entryFailures == |t.listing|
  }

  /** The totals the walk reports are those that were consumed. A cancelled walk is not compared. */
  predicate TotalsMatch(ending: Ending, r: Report)
  {
    ending.Completed? ==> ending.emitted == r.observed && ending.failures == r.entryFailures
  }

  /** Between two items: everything admitted in order, as much in flight as there may be, all items counted. */
  predicate Follows(items: seq<Item>, limit: nat, admitted: seq<Attempt>, flying: nat, r: Report, listing: seq<string>)
  {
    && Starts(admitted, Files(items)) && flying == r.peak == Min(limit, |Files(items)|)
    && r.observed == Entries(items) && r.skipped == Entries(items) - |Files(items)| && listing == Failures(items)
  }

  /** The same with one more file counted that waits for room. */
  predicate Waits(items: seq<Item>, limit: nat, admitted: seq<Attempt>, r: Report, listing: seq<string>)
  {
    && Starts(admitted, Files(items)) && r.peak == Min(limit, |Files(items)|)
    && r.observed == Entries(items) + 1 && r.skipped == Entries(items) - |Files(items)| && listing == Failures(items)
  }

  lemma FollowsSkipped(items: seq<Item>, limit: nat, admitted: seq<Attempt>, flying: nat, r: Report,
                       listing: seq<string>, entry: Entry)
    requires Follows(items, limit, admitted, flying, r, listing) && !entry.isFile
    ensures Follows(items + [Observed(entry)], limit, admitted, flying,
                    r.(observed := r.observed + 1, skipped := r.skipped + 1), listing)
  {
    ItemsSnoc(items, Observed(entry));
  }

  lemma FollowsFailure(items: seq<Item>, limit: nat, admitted: seq<Attempt>, flying: nat, r: Report,
                       listing: seq<string>, path: string)
    requires Follows(items, limit, admitted, flying, r, listing)
    ensures Follows(items + [Failure(path)], limit, admitted, flying,
                    r.(entryFailures := r.entryFailures + 1), listing + [path])
  {
    ItemsSnoc(items, Failure(path));
  }

  lemma FollowsOther(items: seq<Item>, limit: nat, admitted: seq<Attempt>, flying: nat, r: Report,
                     listing: seq<string>, item: Item)
    requires Follows(items, limit, admitted, flying, r, listing) && (item.DirectoryListed? || item.Checkpoint?)
    ensures Follows(items + [item], limit, admitted, flying, r, listing)
  {
    ItemsSnoc(items, item);
  }

  lemma FollowsFile(items: seq<Item>, limit: nat, admitted: seq<Attempt>, flying: nat, r: Report,
                    listing: seq<string>, attempt: Attempt)
    requires Waits(items, limit, admitted, r, listing) && attempt.entry.isFile
    requires 0 < limit && flying == Min(limit - 1, |Files(items)|)
    ensures Follows(items + [Observed(attempt.entry)], limit, admitted + [attempt], flying + 1,
                    r.(peak := Max(r.peak, flying + 1)), listing)
  {
    FileSnoc(items, attempt.entry);
    StartsSnoc(admitted, Files(items), attempt);
  }

  class LocalTransfer {
    const limit: nat
    var report: Report
    var attempts: seq<Attempt>
    var log: seq<SinkCall>
    var tripped: bool
    ghost var tally: Tally
    ghost var admitted: seq<Attempt>
    ghost var lost: multiset<Attempt>
    ghost var faults: seq<Fault>

    /** Every admitted file is in flight, in hand, was told to the sink once, or was lost with its task. */
    ghost predicate Accounted(inHand: multiset<Attempt>)
      reads this
    {
      && Matches(report, tally)
      && Parts(multiset(admitted), attempts, tally.told, lost, inHand)
      && (faults == [] ==> lost == multiset{} && !tripped)
    }

    ghost predicate Valid()
      reads this
    {
      && 0 < limit && |attempts| <= report.peak <= limit && OnlyLost(lost)
      && tally == TallyOf(log) && Accounted(multiset{})
    }

    constructor (limit: nat)
      requires 0 < limit
      ensures Valid() && this.limit == limit && attempts == [] && log == [] && faults == []
      ensures admitted == [] && report == Report(0, 0, 0, 0, 0, 0, 0, false)
    {
      this.limit := limit;
      report, attempts, log, tripped := Report(0, 0, 0, 0, 0, 0, 0, false), [], [], false;
      tally, admitted, lost, faults := TallyOf([]), [], multiset{}, [];
    }

    /** Takes whichever attempt finished first. */
    method JoinNext() returns (attempt: Attempt)
      requires Valid() && attempts != []
      modifies `attempts
      ensures |attempts| == |old(attempts)| - 1 && Accounted(multiset{attempt})
    {
      var k :| 0 <= k < |attempts|;
      attempt := attempts[k];
      Lands(multiset(admitted), attempts, tally.told, lost, k);
      attempts := attempts[..k] + attempts[k + 1..];
    }

    /** A completion is counted with its bytes, whether or not the sink accepts it. */
    method TellCompleted(entry: Entry, bytes: nat)
      requires tally == TallyOf(log) && Matches(report, tally)
      modifies `report, `log, `tally
      ensures tally == TallyOf(log) == Count(old(tally), CompletedCall(entry, bytes)) && Matches(report, tally)
      ensures report == old(report).(completed := report.completed, bytes := report.bytes)
    {
      report := report.(completed := report.completed + 1, bytes := report.bytes + bytes);
      Note(CompletedCall(entry, bytes));
    }

    method TellFailed(entry: Entry)
      requires tally == TallyOf(log) && Matches(report, tally)
      modifies `report, `log, `tally
      ensures tally == TallyOf(log) == Count(old(tally), TransferFailedCall(entry)) && Matches(report, tally)
      ensures report == old(report).(transferFailures := report.transferFailures)
    {
      report := report.(transferFailures := report.transferFailures + 1);
      Note(TransferFailedCall(entry));
    }

    /** Tells the sink how the attempt in hand ended. */
    method Tell(attempt: Attempt)
      requires tally == TallyOf(log) && Accounted(multiset{attempt}) && !attempt.result.TaskLost?
      modifies `report, `log, `tally
      ensures tally == TallyOf(log) && Accounted(multiset{}) && tally.listing == old(tally).listing
      ensures report.observed == old(report.observed) && report.skipped == old(report.skipped)
      ensures report.peak == old(report.peak) && report.cancelled == old(report.cancelled)
    {
      IsTold(multiset(admitted), attempts, tally.told, lost, attempt);
      match attempt.result {
        case Transferred(bytes) => TellCompleted(attempt.entry, bytes);
        case TransferFailed => TellFailed(attempt.entry);
      }
    }

    method Lose(attempt: Attempt) returns (fault: Option<Fault>)
      requires Accounted(multiset{attempt}) && OnlyLost(lost) && attempt.result.TaskLost?
      modifies `lost, `faults
      ensures Accounted(multiset{}) && OnlyLost(lost)
      ensures faults == old(faults) + [JoinFailed] && fault == Some(JoinFailed)
    {
      IsLost(multiset(admitted), attempts, tally.told, lost, attempt);
      lost, faults := lost + multiset{attempt}, faults + [JoinFailed];
      fault := Some(JoinFailed);
    }

    method Note(call: SinkCall)
      requires tally == TallyOf(log)
      modifies `log, `tally
      ensures log == old(log) + [call] && tally == TallyOf(log) == Count(old(tally), call)
    {
      TallySnoc(log, call);
      log, tally := log + [call], Count(tally, call);
    }

    method Raise(f: Fault) returns (fault: Option<Fault>)
      requires Valid()
      modifies `faults
      ensures Valid() && faults == old(faults) + [f] && fault == Some(f)
    {
      faults := faults + [f];
      fault := Some(f);
    }

    /** Settles whichever attempt finishes first; none in flight is no error. */
    method SettleOne() returns (fault: Option<Fault>)
      requires Valid()
      modifies `attempts, `report, `log, `tally, `lost, `faults
      ensures Valid()
      ensures |attempts| == if old(attempts) == [] then 0 else |old(attempts)| - 1
      ensures fault.None? ==> faults == old(faults) && lost == old(lost)
      ensures fault.Some? ==> faults == old(faults) + [fault.value] && fault.value in {SinkRefused, JoinFailed}
      ensures tally.listing == old(tally).listing
      ensures report.observed == old(report.observed) && report.skipped == old(report.skipped)
      ensures report.peak == old(report.peak) && report.cancelled == old(report.cancelled)
    {
      if attempts == [] { return None; }
      var attempt := JoinNext();
      if attempt.result.TaskLost? {
        fault := Lose(attempt);
        return;
      }
      Tell(attempt);
      var accepted: bool := *;
      fault := None;
      if !accepted { fault := Raise(SinkRefused); }
    }

    /** Trips the cancellation, settles everything in flight, and returns the first error. */
    method DrainAfterError(primary: Fault) returns (r: Outcome)
      requires Valid() && faults != [] && faults[0] == primary
      modifies this
      ensures Valid() && attempts == [] && tripped && r == Err(primary)
      ensures old(faults) <= faults && admitted == old(admitted)
    {
      tripped := true;
      while attempts != []
        invariant Valid() && tripped && admitted == old(admitted) && old(faults) <= faults
        decreases |attempts|
      {
        var _ := SettleOne();
      }
      return Err(primary);
    }

    /** The state between two items while nothing has failed. Attempts settle only to make room. */
    ghost predicate Running(items: seq<Item>)
      reads this
    {
      && Valid() && faults == [] && !report.cancelled
      && Follows(items, limit, admitted, |attempts|, report, tally.listing)
    }

    /** While a file that was already counted waits for room. */
    ghost predicate Making(items: seq<Item>)
      reads this
    {
      && Valid() && faults == [] && !report.cancelled
      && Waits(items, limit, admitted, report, tally.listing)
    }

    /** Settles attempts until one more fits. */
    method MakeRoom(ghost items: seq<Item>) returns (fault: Option<Fault>)
      requires Making(items) && |attempts| == report.peak
      modifies `attempts, `report, `log, `tally, `lost, `faults
      ensures Valid()
      ensures fault.None? ==> Making(items) && |attempts| == Min(limit - 1, |Files(items)|)
      ensures fault.Some? ==> faults != [] && faults[0] == fault.value
    {
      fault := None;
      while |attempts| >= limit
        invariant Making(items) && fault.None?
        invariant |attempts| == report.peak || |attempts| == limit - 1 < report.peak
        decreases |attempts|
      {
        fault := SettleOne();
        if fault.Some? { return; }
      }
    }

    method Spawn(entry: Entry, ghost items: seq<Item>)
      requires entry.isFile && Making(items) && |attempts| == Min(limit - 1, |Files(items)|)
      modifies `attempts, `admitted, `report
      ensures Running(items + [Observed(entry)])
    {
      var result: Result := *;
      var attempt := Attempt(entry, result);
      TakesOff(admitted, attempts, tally.told, lost, attempt);
      FollowsFile(items, limit, admitted, |attempts|, report, tally.listing, attempt);
      attempts, admitted := attempts + [attempt], admitted + [attempt];
      report := report.(peak := Max(report.peak, |attempts|));
    }

    /** Admits one file, after making room for it. */
    method Admit(entry: Entry, ghost items: seq<Item>) returns (fault: Option<Fault>)
      requires Running(items) && entry.isFile
      modifies this
      ensures Valid()
      ensures fault.None? ==> Running(items + [Observed(entry)])
      ensures fault.Some? ==> faults != [] && faults[0] == fault.value
    {
      report := report.(observed := report.observed + 1);
      fault := MakeRoom(items);
      if fault.None? {
        var requested: bool := *;
        if requested {
          Spawn(entry, items);
        } else {
          fault := Raise(BadRequest(entry));
        }
      }
    }

    method TellFailure(path: string)
      requires Valid()
      modifies `report, `log, `tally
      ensures Valid() && tally.listing == old(tally).listing + [path]
      ensures report == old(report).(entryFailures := old(report.entryFailures) + 1)
    {
      report := report.(entryFailures := report.entryFailures + 1);
      Note(EntryFailedCall(path));
    }

    /** Counts a listing failure and tells the sink. */
    method NoteFailure(path: string, ghost items: seq<Item>) returns (fault: Option<Fault>)
      requires Running(items)
      modifies this
      ensures Valid()
      ensures fault.None? ==> Running(items + [Failure(path)])
      ensures fault.Some? ==> faults != [] && faults[0] == fault.value
    {
      FollowsFailure(items, limit, admitted, |attempts|, report, tally.listing, path);
      TellFailure(path);
      var accepted: bool := *;
      fault := None;
      if !accepted { fault := Raise(SinkRefused); }
    }

    method CountSkipped(entry: Entry, ghost items: seq<Item>)
      requires Running(items) && !entry.isFile
      modifies `report
      ensures Running(items + [Observed(entry)]) && faults == old(faults)
    {
      FollowsSkipped(items, limit, admitted, |attempts|, report, tally.listing, entry);
      report := report.(observed := report.observed + 1, skipped := report.skipped + 1);
    }

    /** One turn of the loop. */
    method Take(item: Item, ghost items: seq<Item>) returns (fault: Option<Fault>)
      requires Running(items)
      modifies this
      ensures Valid()
      ensures fault.None? ==> Running(items + [item])
      ensures fault.Some? ==> faults != [] && faults[0] == fault.value
    {
      fault := None;
      match item {
        case Observed(entry) =>
          if entry.isFile {
            fault := Admit(entry, items);
          } else {
            CountSkipped(entry, items);
          }
        case Failure(path) => fault := NoteFailure(path, items);
        case DirectoryListed => FollowsOther(items, limit, admitted, |attempts|, report, tally.listing, item);
        case Checkpoint => FollowsOther(items, limit, admitted, |attempts|, report, tally.listing, item);
        case UnknownEvent =>
          faults := faults + [Unsupported];
          fault := Some(Unsupported);
      }
    }

    /**
     * Whatever the completion order and wherever an error falls, nothing is in flight at the end. The outcome is
     * good exactly when no fault arose and the totals match; the first fault is the one returned. Without a fault
     * there was one attempt per file, the sink was told each with its own result, and the peak depends only on the
     * limit and the number of files.
     */
    method Run(items: seq<Item>, identityOk: bool, ending: Ending) returns (r: Outcome)
      requires Running([])
      modifies this
      ensures Valid() && attempts == []
      ensures r.Ok? <==> faults == [] && TotalsMatch(ending, report)
      ensures r.Err? ==> r.fault == if faults == [] then CountMismatch else faults[0]
      ensures r.Ok? ==> r.report == report && (report.cancelled <==> ending.Cancelled?)
      ensures faults == [] ==> report.observed == report.completed + report.transferFailures + report.skipped
      ensures faults == [] ==> Starts(admitted, Files(items)) && tally.told == multiset(admitted)
      ensures faults == [] ==> tally.listing == Failures(items)
      ensures faults == [] ==> report.observed == Entries(items) && report.peak == Min(limit, |Files(items)|)
    {
      if !identityOk {
        faults := [BadIdentity];
        return Err(BadIdentity);
      }
      for i := 0 to |items|
        invariant Running(items[..i])
      {
        assert items[..i + 1] == items[..i] + [items[i]];
        var fault := Take(items[i], items[..i]);
        if fault.Some? {
          r := DrainAfterError(fault.value);
          return;
        }
      }
      assert items[..|items|] == items;
      r := SettleAll(items, ending);
    }

    /** Settles what is still in flight and compares the totals. */
    method SettleAll(ghost items: seq<Item>, ending: Ending) returns (r: Outcome)
      requires Running(items)
      modifies this
      ensures Valid() && attempts == []
      ensures r.Ok? <==> faults == [] && TotalsMatch(ending, report)
      ensures r.Err? ==> r.fault == if faults == [] then CountMismatch else faults[0]
      ensures r.Ok? ==> r.report == report && (report.cancelled <==> ending.Cancelled?)
      ensures faults == [] ==> report.observed == report.completed + report.transferFailures + report.skipped
      ensures faults == [] ==> Starts(admitted, Files(items)) && tally.told == multiset(admitted)
      ensures faults == [] ==> tally.listing == Failures(items)
      ensures faults == [] ==> report.observed == Entries(items) && report.peak == Min(limit, |Files(items)|)
    {
      while attempts != []
        invariant Valid() && faults == [] && !report.cancelled && Starts(admitted, Files(items))
        invariant report.peak == Min(limit, |Files(items)|) && tally.listing == Failures(items)
        invariant report.observed == Entries(items) && report.skipped == Entries(items) - |Files(items)|
        decreases |attempts|
      {
        var fault := SettleOne();
        if fault.Some? {
          r := DrainAfterError(fault.value);
          return;
        }
      }
      AllTold(multiset(admitted), tally.told);
      TallyBalances(log);
      assert |multiset(admitted)| == |Files(items)|;
      match ending {
        case Broken =>
          faults := [FinishFailed];
          return Err(FinishFailed);
        case Cancelled =>
          report := report.(cancelled := true);
        case Completed(emitted, failures) =>
          if emitted != report.observed || failures != report.entryFailures { return Err(CountMismatch); }
      }
      r := Ok(report);
    }
  }
}
