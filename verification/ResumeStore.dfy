/**
 * The byte-progress store of one large file: an in-memory interval set that is written to a
 * state file every sixteenth mark, across crashes, failed writes and reopenings.
 */
module ResumeStore {
  import opened Bytes
  import opened Intervals

  const STATE_VERSION: nat := 1
  const FLUSH_EVERY_CHUNKS: nat := 16

  /** Which source the recorded progress belongs to. */
  datatype Identity = Identity(size: nat, mtime: int, blockSize: nat)

  datatype StateFile = StateFile(version: nat, id: Identity, completed: seq<Interval>)

  // ---------------------------------------------------------------- specification

  /** The store as offsets: what is recorded in memory, and how many marks are not yet on disk. */
  ghost function DiskFor(disk: Option<StateFile>, id: Identity): iset<nat>
  {
    if disk.Some? && disk.value.version == STATE_VERSION && disk.value.id == id then Points(disk.value.completed)
    else iset{}
  }

  // ---------------------------------------------------------------- the store object

  /** The state file; None when there is no readable one. The marks are every mark ever made, by any store. */
  class StateDisk {
    var state: Option<StateFile>
    ghost var marks: seq<Mark>

    constructor ()
      ensures state == None && marks == []
    {
      state, marks := None, [];
    }

    /** The machine while no store is open. */
    ghost function AtRest(): Machine
      reads this
    {
      Machine(state, Closed, marks, [], false)
    }
  }

  class ByteResumeStore {
    const id: Identity
    const disk: StateDisk
    const completed: IntervalSet
    var dirty: nat
    ghost var unsaved: seq<Interval>
    ghost var failed: bool

    ghost predicate Valid()
      reads this, completed
    {
      completed.Valid()
    }

    ghost function Marked(): iset<nat>
      reads completed
    {
      Points(completed.intervals)
    }

    /** The machine this store is part of. */
    ghost function View(): Machine
      reads this, disk, completed
    {
      Machine(disk.state, Opened(id, Marked(), dirty), disk.marks, unsaved, failed)
    }

    /** Loads the state file when version and identity match, and otherwise tries to remove it. */
    constructor Open(disk: StateDisk, id: Identity, removeOk: bool)
      modifies disk
      ensures Valid() && this.id == id && this.disk == disk && fresh(completed) && dirty == 0
      ensures Marked() == DiskFor(old(disk.state), id) == DiskFor(disk.state, id)
      ensures Next(old(disk.AtRest()), Step.Open(id, removeOk), View())
    {
      var file := disk.state;
      this.id, this.disk := id, disk;
      dirty, unsaved, failed := 0, [], false;
      var loaded: IntervalSet;
      if file.Some? && file.value.version == STATE_VERSION && file.value.id == id {
        loaded := FromVec(file.value.completed);
      } else {
        loaded := FromVec([]);
      }
      completed := loaded;
      new;
      if !(file.Some? && file.value.version == STATE_VERSION && file.value.id == id) {
        if removeOk {
          disk.state := None;
        }
        assert Points([]) == iset{};
      }
    }

    /** Writes the whole set to a temporary file and renames it; a failure leaves the old file. */
    method FlushLocked(writeOk: bool) returns (ok: bool)
      requires Valid()
      modifies this`dirty, this`unsaved, this`failed, disk`state
      ensures ok == writeOk && Valid()
      ensures Next(old(View()), Flush(writeOk), View())
    {
      if !writeOk {
        failed := true;
        return false;
      }
      disk.state := Some(StateFile(STATE_VERSION, id, completed.intervals));
      dirty, unsaved, failed := 0, [], false;
      return true;
    }

    /** Records a confirmed chunk; every sixteenth unsaved mark triggers a flush. */
    method MarkCommitted(offset: nat, len: nat, writeOk: bool) returns (ok: bool)
      requires Valid()
      modifies this`dirty, this`unsaved, this`failed, disk, completed
      ensures Valid() && ok == (old(dirty) + 1 < FLUSH_EVERY_CHUNKS || writeOk)
      ensures Next(old(View()), MarkChunk(offset, len, writeOk), View())
    {
      completed.Insert(offset, offset + len);
      dirty := dirty + 1;
      disk.marks := disk.marks + [Mark(id, offset, len)];
      unsaved := unsaved + [(offset, offset + len)];
      ok := true;
      if dirty >= FLUSH_EVERY_CHUNKS {
        ok := FlushLocked(writeOk);
      }
    }

    method IsComplete() returns (r: bool)
      requires Valid()
      ensures r <==> Span(0, id.size) <= Marked()
    {
      r := completed.Covers(id.size);
    }

    method MissingIntervals() returns (r: seq<Interval>)
      requires Valid()
      ensures Canonical(r) && Points(r) == Span(0, id.size) - Marked()
    {
      r := completed.Missing(id.size);
    }

    method FinalizeDone(removeOk: bool) returns (ok: bool)
      modifies disk`state
      ensures ok == (old(disk.state).None? || removeOk)
      ensures Next(old(View()), Finalize(removeOk), disk.AtRest())
    {
      if disk.state.None? {
        return true;
      }
      if removeOk {
        disk.state := None;
      }
      return removeOk;
    }
  }

  // ---------------------------------------------------------------- runs with crashes

  datatype Mark = Mark(id: Identity, offset: nat, len: nat)

  /** The open store in memory. */
  datatype Memory = Closed | Opened(id: Identity, points: iset<nat>, dirty: nat)

  /**
   * `marks` is every mark ever made; `unsaved` the open store's marks since its last successful
   * flush or since opening; `failed` whether a flush failed since then.
   */
  datatype Machine = Machine(
    disk: Option<StateFile>, memory: Memory, marks: seq<Mark>, unsaved: seq<Interval>, failed: bool)

  datatype Step =
    | Open(id: Identity, removeOk: bool)
    | MarkChunk(offset: nat, len: nat, writeOk: bool)
    | Flush(writeOk: bool)
    | Finalize(removeOk: bool)
    | Crash

  ghost predicate Saves(disk: Option<StateFile>, id: Identity, points: iset<nat>)
  {
    && disk.Some? && disk.value.version == STATE_VERSION && disk.value.id == id
    && Canonical(disk.value.completed) && Points(disk.value.completed) == points
  }

  /** One step of the store, as its methods promise it. */
  ghost predicate Next(m: Machine, step: Step, m': Machine)
  {
    match step
    case Open(id, removeOk) =>
      && m.memory.Closed?
      && m'.memory == Opened(id, DiskFor(m.disk, id), 0)
      && m'.disk == (if removeOk && !Matches(m.disk, id) then None else m.disk)
      && m'.marks == m.marks && m'.unsaved == [] && !m'.failed
    case MarkChunk(offset, len, writeOk) =>
      && m.memory.Opened?
      && var points := m.memory.points + Span(offset, offset + len);
      var flushes := m.memory.dirty + 1 >= FLUSH_EVERY_CHUNKS;
      && m'.marks == m.marks + [Mark(m.memory.id, offset, len)]
      && if flushes && writeOk then
           && m'.memory == m.memory.(points := points, dirty := 0)
           && Saves(m'.disk, m.memory.id, points) && m'.unsaved == [] && !m'.failed
         else
           && m'.memory == m.memory.(points := points, dirty := m.memory.dirty + 1)
           && m'.disk == m.disk && m'.unsaved == m.unsaved + [(offset, offset + len)]
           && m'.failed == (m.failed || flushes)
    case Flush(writeOk) =>
      && m.memory.Opened? && m'.marks == m.marks
      && if writeOk then
           && m'.memory == m.memory.(dirty := 0)
           && Saves(m'.disk, m.memory.id, m.memory.points) && m'.unsaved == [] && !m'.failed
         else m' == m.(failed := true)
    case Finalize(removeOk) =>
      && m.memory.Opened?
      && m' == m.(memory := Closed, disk := if removeOk then None else m.disk, unsaved := [], failed := false)
    case Crash =>
      m' == m.(memory := Closed, unsaved := [], failed := false)
  }

  predicate Matches(disk: Option<StateFile>, id: Identity)
  {
    disk.Some? && disk.value.version == STATE_VERSION && disk.value.id == id
  }

  /** The offsets marked under one identity. */
  ghost function MarkedUnder(marks: seq<Mark>, id: Identity): iset<nat>
  {
    if marks == [] then iset{}
    else
      var last := marks[|marks| - 1];
      MarkedUnder(marks[..|marks| - 1], id)
      + if last.id == id then Span(last.offset, last.offset + last.len) else iset{}
  }

  ghost predicate RunOf(states: seq<Machine>, steps: seq<Step>)
  {
    && |states| == |steps| + 1 && states[0] == Machine(None, Closed, [], [], false)
    && forall i :: 0 <= i < |steps| ==> Next(states[i], steps[i], states[i + 1])
  }

  /** Nothing is recorded that was not marked, and memory is disk plus the unsaved marks. */
  ghost predicate Consistent(m: Machine)
  {
    && (m.disk.Some? ==> Points(m.disk.value.completed) <= MarkedUnder(m.marks, m.disk.value.id))
    && (m.memory.Opened? ==>
          && m.memory.points <= MarkedUnder(m.marks, m.memory.id)
          && m.memory.points == DiskFor(m.disk, m.memory.id) + Points(m.unsaved)
          && m.memory.dirty == |m.unsaved|
          && (!m.failed ==> m.memory.dirty < FLUSH_EVERY_CHUNKS))
  }

  lemma MarkedSnoc(marks: seq<Mark>, mark: Mark, id: Identity)
    ensures MarkedUnder(marks + [mark], id)
         == MarkedUnder(marks, id) + if mark.id == id then Span(mark.offset, mark.offset + mark.len) else iset{}
  {
    assert (marks + [mark])[..|marks|] == marks;
  }

  lemma ConsistentMark(m: Machine, offset: nat, len: nat, writeOk: bool, m': Machine)
    requires Consistent(m) && Next(m, MarkChunk(offset, len, writeOk), m')
    ensures Consistent(m')
  {
    MarkCovers(m, offset, len, writeOk, m');
    MarkAdds(m, offset, len, writeOk, m');
    MarkCounts(m, offset, len, writeOk, m');
  }

  lemma MarkAdds(m: Machine, offset: nat, len: nat, writeOk: bool, m': Machine)
    requires m.memory.Opened? && m.memory.points == DiskFor(m.disk, m.memory.id) + Points(m.unsaved)
    requires Next(m, MarkChunk(offset, len, writeOk), m')
    ensures m'.memory.points == DiskFor(m'.disk, m'.memory.id) + Points(m'.unsaved)
  {
    UnsavedGrows(DiskFor(m.disk, m.memory.id), m.unsaved, offset, offset + len);
    assert Points([]) == iset{};
  }

  lemma MarkCounts(m: Machine, offset: nat, len: nat, writeOk: bool, m': Machine)
    requires m.memory.Opened? && m.memory.dirty == |m.unsaved|
    requires !m.failed ==> m.memory.dirty < FLUSH_EVERY_CHUNKS
    requires Next(m, MarkChunk(offset, len, writeOk), m')
    ensures m'.memory.dirty == |m'.unsaved| && (!m'.failed ==> m'.memory.dirty < FLUSH_EVERY_CHUNKS)
  {
  }

  lemma UnsavedGrows(disk: iset<nat>, unsaved: seq<Interval>, start: nat, end: nat)
    ensures disk + Points(unsaved + [(start, end)]) == disk + Points(unsaved) + Span(start, end)
  {
    PointsAppend(unsaved, [(start, end)]);
    PointsOne(start, end);
  }

  lemma MarkCovers(m: Machine, offset: nat, len: nat, writeOk: bool, m': Machine)
    requires Consistent(m) && Next(m, MarkChunk(offset, len, writeOk), m')
    ensures m'.disk.Some? ==> Points(m'.disk.value.completed) <= MarkedUnder(m'.marks, m'.disk.value.id)
    ensures m'.memory.points <= MarkedUnder(m'.marks, m'.memory.id)
  {
    var mark := Mark(m.memory.id, offset, len);
    MarkedSnoc(m.marks, mark, m.memory.id);
    if m.disk.Some? { MarkedSnoc(m.marks, mark, m.disk.value.id); }
  }

  lemma ConsistentKept(m: Machine, step: Step, m': Machine)
    requires Consistent(m) && Next(m, step, m')
    ensures Consistent(m')
  {
    assert Points([]) == iset{};
    if step.MarkChunk? {
      ConsistentMark(m, step.offset, step.len, step.writeOk, m');
    }
  }

  lemma {:induction false} ConsistentAlways(states: seq<Machine>, steps: seq<Step>, k: nat)
    requires RunOf(states, steps) && k < |states|
    ensures Consistent(states[k])
  {
    if k > 0 {
      ConsistentAlways(states, steps, k - 1);
      ConsistentKept(states[k - 1], steps[k - 1], states[k]);
    }
  }

  /**
   * Crash and reopen under the same identity, at any point of any run: what is reloaded was
   * marked under that identity, and all that is lost are the marks since the last successful
   * flush, at most fifteen of them unless a flush failed.
   */
  lemma CrashRecovers(states: seq<Machine>, steps: seq<Step>, k: nat, id: Identity, crashed: Machine, reopened: Machine,
                      removeOk: bool)
    requires RunOf(states, steps) && k < |states| && states[k].memory.Opened? && states[k].memory.id == id
    requires Next(states[k], Crash, crashed) && Next(crashed, Open(id, removeOk), reopened)
    ensures reopened.memory.points <= MarkedUnder(states[k].marks, id)
    ensures reopened.memory.points + Points(states[k].unsaved) == states[k].memory.points
    ensures !states[k].failed ==> |states[k].unsaved| <= FLUSH_EVERY_CHUNKS - 1
  {
    ConsistentAlways(states, steps, k);
    assert DiskFor(crashed.disk, id) == DiskFor(states[k].disk, id);
  }

  // ---------------------------------------------------------------- the notification channel

  const CAPACITY: nat := 65_536

  /**
   * Notifications of one file reach its store through a bounded channel; a full or closed channel drops them.
   * `base` is what the state file held at the start, `lost` what this process dropped, and `gone` what crashes
   * took: queued, dropped or not yet on disk.
   */
  datatype Recorder = Recorder(
    machine: Machine, id: Identity, queue: seq<Interval>, closed: bool, dropped: nat,
    base: iset<nat>, notified: seq<Interval>, lost: seq<Interval>, gone: iset<nat>)

  datatype RecorderStep =
    | Notify(offset: nat, len: nat)
    | Drain(writeOk: bool)
    | Shutdown
    | FinalFlush(writeOk: bool)
    | Die
    | Restart(removeOk: bool)

  ghost predicate RecorderStart(r: Recorder)
  {
    && Consistent(r.machine) && r.machine.memory.Closed?
    && r.queue == [] && r.dropped == 0 && r.notified == [] && r.lost == []
    && r.base == DiskFor(r.machine.disk, r.id) && r.gone == iset{}
  }

  /** One step; every step of the store is a step of its machine. */
  ghost predicate RecorderNext(r: Recorder, step: RecorderStep, r': Recorder)
  {
    match step
    case Notify(offset, len) =>
      && r.machine.memory.Opened?
      && var told := r.(notified := r.notified + [(offset, offset + len)]);
      r' == if r.closed || |r.queue| >= CAPACITY then
              told.(dropped := r.dropped + 1, lost := r.lost + [(offset, offset + len)])
            else told.(queue := r.queue + [(offset, offset + len)])
    case Drain(writeOk) =>
      && r.machine.memory.Opened? && r.queue != [] && r.queue[0].0 <= r.queue[0].1
      && Next(r.machine, MarkChunk(r.queue[0].0, r.queue[0].1 - r.queue[0].0, writeOk), r'.machine)
      && r' == r.(machine := r'.machine, queue := r.queue[1..])
    case Shutdown => r' == r.(closed := true)
    case FinalFlush(writeOk) =>
      && Next(r.machine, Flush(writeOk), r'.machine) && r' == r.(machine := r'.machine)
    case Die =>
      && r.machine.memory.Opened? && Next(r.machine, Crash, r'.machine)
      && r' == r.(machine := r'.machine, queue := [], dropped := 0, lost := [],
                  gone := r.gone + Points(r.queue) + Points(r.lost) + Points(r.machine.unsaved))
    case Restart(removeOk) =>
      && Next(r.machine, Open(r.id, removeOk), r'.machine) && r' == r.(machine := r'.machine, closed := false)
  }

  ghost predicate RecorderRun(states: seq<Recorder>, steps: seq<RecorderStep>)
  {
    && |states| == |steps| + 1 && RecorderStart(states[0])
    && forall i :: 0 <= i < |steps| ==> RecorderNext(states[i], steps[i], states[i + 1])
  }

  /** What the store knows: its memory, or what the state file would give it. */
  ghost function Recorded(r: Recorder): iset<nat>
  {
    if r.machine.memory.Opened? then r.machine.memory.points else DiskFor(r.machine.disk, r.id)
  }

  ghost predicate BookedAt(x: nat, known: iset<nat>, queue: seq<Interval>, lost: seq<Interval>, gone: iset<nat>,
                           base: iset<nat>, notified: seq<Interval>)
  {
    x in known || Holds(queue, x) || Holds(lost, x) || x in gone <==> x in base || Holds(notified, x)
  }

  /** The books of the channel against what the store knows. */
  ghost predicate Books(known: iset<nat>, queue: seq<Interval>, lost: seq<Interval>, gone: iset<nat>, base: iset<nat>,
                        notified: seq<Interval>)
  {
    forall x: nat {:trigger BookedAt(x, known, queue, lost, gone, base, notified)} ::
      BookedAt(x, known, queue, lost, gone, base, notified)
  }

  lemma BooksMean(known: iset<nat>, queue: seq<Interval>, lost: seq<Interval>, gone: iset<nat>, base: iset<nat>,
                  notified: seq<Interval>)
    ensures Books(known, queue, lost, gone, base, notified)
       <==> known + Points(queue) + Points(lost) + gone == base + Points(notified)
  {
    if Books(known, queue, lost, gone, base, notified) {
      forall x ensures x in known + Points(queue) + Points(lost) + gone <==> x in base + Points(notified) {
        assert BookedAt(x, known, queue, lost, gone, base, notified);
      }
    }
    if known + Points(queue) + Points(lost) + gone == base + Points(notified) {
      forall x ensures BookedAt(x, known, queue, lost, gone, base, notified) {
        assert x in known + Points(queue) + Points(lost) + gone <==> x in base + Points(notified);
      }
    }
  }

  /** Every notification is recorded, queued, counted as dropped or taken by a crash; none is invented. */
  ghost predicate Balanced(r: Recorder)
  {
    && Consistent(r.machine) && (r.machine.memory.Opened? ==> r.machine.memory.id == r.id)
    && (r.machine.memory.Closed? ==> r.queue == [] && r.lost == [])
    && Books(Recorded(r), r.queue, r.lost, r.gone, r.base, r.notified)
    && r.dropped == |r.lost| && |r.queue| <= CAPACITY
  }

  lemma BooksNotify(known: iset<nat>, queue: seq<Interval>, lost: seq<Interval>, gone: iset<nat>, base: iset<nat>,
                    notified: seq<Interval>, one: Interval)
    requires Books(known, queue, lost, gone, base, notified)
    ensures Books(known, queue + [one], lost, gone, base, notified + [one])
    ensures Books(known, queue, lost + [one], gone, base, notified + [one])
  {
    BooksMean(known, queue, lost, gone, base, notified);
    BooksMean(known, queue + [one], lost, gone, base, notified + [one]);
    BooksMean(known, queue, lost + [one], gone, base, notified + [one]);
    PointsAppend(notified, [one]);
    PointsAppend(queue, [one]);
    PointsAppend(lost, [one]);
    Grow(known, Points(queue), Points(lost), gone, base, Points(notified), Points([one]));
  }

  lemma Grow(a: iset<nat>, b: iset<nat>, c: iset<nat>, d: iset<nat>, e: iset<nat>, f: iset<nat>, more: iset<nat>)
    requires a + b + c + d == e + f
    ensures a + (b + more) + c + d == e + (f + more)
    ensures a + b + (c + more) + d == e + (f + more)
  {
  }

  lemma BooksDrain(known: iset<nat>, queue: seq<Interval>, lost: seq<Interval>, gone: iset<nat>, base: iset<nat>,
                   notified: seq<Interval>)
    requires queue != [] && Books(known, queue, lost, gone, base, notified)
    ensures Books(known + Span(queue[0].0, queue[0].1), queue[1..], lost, gone, base, notified)
  {
    BooksMean(known, queue, lost, gone, base, notified);
    BooksMean(known + Span(queue[0].0, queue[0].1), queue[1..], lost, gone, base, notified);
    assert queue == [queue[0]] + queue[1..];
    PointsAppend([queue[0]], queue[1..]);
    PointsOne(queue[0].0, queue[0].1);
  }

  lemma BooksDie(disk: iset<nat>, unsaved: seq<Interval>, queue: seq<Interval>, lost: seq<Interval>, gone: iset<nat>,
                 base: iset<nat>, notified: seq<Interval>)
    requires Books(disk + Points(unsaved), queue, lost, gone, base, notified)
    ensures Books(disk, [], [], gone + Points(queue) + Points(lost) + Points(unsaved), base, notified)
  {
    BooksMean(disk + Points(unsaved), queue, lost, gone, base, notified);
    BooksMean(disk, [], [], gone + Points(queue) + Points(lost) + Points(unsaved), base, notified);
    assert Points([]) == iset{};
  }

  lemma NotifyBalanced(r: Recorder, offset: nat, len: nat, r': Recorder)
    requires Balanced(r) && RecorderNext(r, Notify(offset, len), r')
    ensures Balanced(r')
  {
    BooksNotify(Recorded(r), r.queue, r.lost, r.gone, r.base, r.notified, (offset, offset + len));
    assert r'.machine == r.machine && Recorded(r') == Recorded(r);
  }

  lemma ShutdownBalanced(r: Recorder, r': Recorder)
    requires Balanced(r) && RecorderNext(r, Shutdown, r')
    ensures Balanced(r')
  {
    assert r'.machine == r.machine && Recorded(r') == Recorded(r);
  }

  lemma FlushBalanced(r: Recorder, writeOk: bool, r': Recorder)
    requires Balanced(r) && RecorderNext(r, FinalFlush(writeOk), r')
    ensures Balanced(r')
  {
    ConsistentKept(r.machine, Flush(writeOk), r'.machine);
    assert Recorded(r') == Recorded(r);
  }

  lemma DrainBalanced(r: Recorder, writeOk: bool, r': Recorder)
    requires Balanced(r) && RecorderNext(r, Drain(writeOk), r')
    ensures Balanced(r')
  {
    var head := r.queue[0];
    ConsistentKept(r.machine, MarkChunk(head.0, head.1 - head.0, writeOk), r'.machine);
    BooksDrain(Recorded(r), r.queue, r.lost, r.gone, r.base, r.notified);
    DrainRecords(r.machine, head, writeOk, r'.machine);
  }

  lemma DrainRecords(m: Machine, head: Interval, writeOk: bool, m': Machine)
    requires head.0 <= head.1 && Next(m, MarkChunk(head.0, head.1 - head.0, writeOk), m')
    ensures m'.memory.Opened? && m'.memory.id == m.memory.id
    ensures m'.memory.points == m.memory.points + Span(head.0, head.1)
  {
    assert head.0 + (head.1 - head.0) == head.1;
  }

  lemma DieBalanced(r: Recorder, r': Recorder)
    requires Balanced(r) && RecorderNext(r, Die, r')
    ensures Balanced(r')
  {
    ConsistentKept(r.machine, Crash, r'.machine);
    BooksDie(DiskFor(r.machine.disk, r.id), r.machine.unsaved, r.queue, r.lost, r.gone, r.base, r.notified);
  }

  lemma RestartBalanced(r: Recorder, removeOk: bool, r': Recorder)
    requires Balanced(r) && RecorderNext(r, Restart(removeOk), r')
    ensures Balanced(r')
  {
    ConsistentKept(r.machine, Open(r.id, removeOk), r'.machine);
  }

  lemma BalancedKept(r: Recorder, step: RecorderStep, r': Recorder)
    requires Balanced(r) && RecorderNext(r, step, r')
    ensures Balanced(r')
  {
    match step
    case Notify(offset, len) => NotifyBalanced(r, offset, len, r');
    case Drain(writeOk) => DrainBalanced(r, writeOk, r');
    case Shutdown => ShutdownBalanced(r, r');
    case FinalFlush(writeOk) => FlushBalanced(r, writeOk, r');
    case Die => DieBalanced(r, r');
    case Restart(removeOk) => RestartBalanced(r, removeOk, r');
  }

  lemma {:induction false} BalancedAlways(states: seq<Recorder>, steps: seq<RecorderStep>, k: nat)
    requires RecorderRun(states, steps) && k < |states|
    ensures Balanced(states[k])
  {
    if k > 0 {
      BalancedAlways(states, steps, k - 1);
      BalancedKept(states[k - 1], steps[k - 1], states[k]);
    } else {
      var r := states[0];
      BooksMean(Recorded(r), r.queue, r.lost, r.gone, r.base, r.notified);
    }
  }

  /**
   * At any point of any run with crashes, the intervals that the store reports as missing contain everything that
   * was never notified, and beyond that only what is still queued, was dropped by the channel, or was taken by a
   * crash.
   */
  method MissingAcrossCrashes(store: ByteResumeStore, ghost states: seq<Recorder>, ghost steps: seq<RecorderStep>,
                              ghost k: nat)
    returns (gaps: seq<Interval>)
    requires store.Valid() && RecorderRun(states, steps) && k < |states| && store.View() == states[k].machine
    ensures
      var r := states[k];
      var ideal := Span(0, r.id.size) - (r.base + Points(r.notified));
      && Canonical(gaps) && ideal <= Points(gaps)
      && Points(gaps) <= ideal + Points(r.queue) + Points(r.lost) + r.gone
  {
    ghost var r := states[k];
    BalancedAlways(states, steps, k);
    BooksMean(Recorded(r), r.queue, r.lost, r.gone, r.base, r.notified);
    gaps := store.MissingIntervals();
  }

  /** Once the channel is drained and nothing was dropped or lost in a crash, the store has it all. */
  lemma DropsOnlyEnlargeMissing(states: seq<Recorder>, steps: seq<RecorderStep>, k: nat)
    requires RecorderRun(states, steps) && k < |states| && states[k].machine.memory.Opened?
    ensures
      var r := states[k];
      var ideal := Span(0, r.id.size) - (r.base + Points(r.notified));
      var actual := Span(0, r.id.size) - r.machine.memory.points;
      && ideal <= actual <= ideal + Points(r.queue) + Points(r.lost) + r.gone
      && (r.queue == [] && r.dropped == 0 && r.gone == iset{} ==>
            r.machine.memory.points == r.base + Points(r.notified))
  {
    var r := states[k];
    BalancedAlways(states, steps, k);
    BooksMean(Recorded(r), r.queue, r.lost, r.gone, r.base, r.notified);
    assert Points([]) == iset{};
  }
}
