/** What holds in every state of every run of the receiver. */
module ReceiverSafety {
  import opened Bytes
  import opened FileCommit
  import opened DeltaStream
  import opened Session
  import opened ReceiverSystem

  // ---------------------------------------------------------------- lockstep of session and committer

  lemma PhaseTwo(p: Phase, a: DiskCommitMsg, b: DiskCommitMsg)
    requires NextPhase(p, a).Some?
    ensures PhaseAfter(p, [a, b]) == NextPhase(NextPhase(p, a).value, b)
  {
    assert [a, b][1..] == [b] && [b][1..] == [];
    assert PhaseAfter(NextPhase(p, a).value, [b]) == NextPhase(NextPhase(p, a).value, b);
  }

  lemma {:induction false} IngestKeepsKeys(table: map<int, Entry>, items: seq<PageItem>)
    ensures table.Keys <= Ingest(table, items).Keys
    decreases |items|
  {
    if items != [] { IngestKeepsKeys(table[items[0].ndx := items[0].entry], items[1..]); }
  }

  /** Every command the session queues continues the bracket structure it believes in. */
  lemma MessageKeepsPhase(s: SessionState, msg: SenderMsg, blockSizeOf: nat -> nat)
    requires ActiveKnown(s) && (msg.FilePage? ==> KeepsActivePath(s, msg.items))
    ensures
      var r := OnMessage(s, msg, blockSizeOf);
      ActiveKnown(r.s) && PhaseAfter(SessionPhase(s), r.cmds) == Some(SessionPhase(r.s))
  {
    match msg
    case FilePage(items) => IngestKeepsKeys(s.table, items);
    case MatchToken(ndx, i) =>
      if ndx in s.table { DeltaKeepsPhase(s, ndx, DeltaMatch(s.table[ndx].path, i), DeltaOf(ndx), blockSizeOf); }
    case DataToken(ndx, data) =>
      if ndx in s.table { DeltaKeepsPhase(s, ndx, DeltaData(s.table[ndx].path, data), DeltaOf(ndx), blockSizeOf); }
    case EndOfFile(ndx, hash) =>
      if ndx in s.table {
        DeltaKeepsPhase(s, ndx, DeltaEnd(ndx, s.table[ndx].path, hash), NoTransfer, blockSizeOf);
        PhaseOne(SessionPhase(s), FileEnd(ndx, s.table[ndx].path, hash));
      }
    case BeginFile(ndx) =>
      if ndx in s.table { PhaseOne(SessionPhase(s), FileBegin(ndx, s.table[ndx])); }
    case FileData(ndx, offset, data) =>
      PhaseOne(SessionPhase(s), FileChunk(ndx, StreamChunk(offset, data, false)));
    case DeleteMarker(ndx) => PhaseOne(SessionPhase(s), WriteDeleteMarker(ndx));
    case _ => PhaseOne(SessionPhase(s), AbortFile);
  }

  lemma PhaseOne(p: Phase, a: DiskCommitMsg)
    ensures PhaseAfter(p, [a]) == NextPhase(p, a)
  {
    assert [a][1..] == [];
  }

  /** A delta event, with the begin it may need first. */
  lemma DeltaKeepsPhase(s: SessionState, ndx: int, cmd: DiskCommitMsg, next: ActiveTransfer, blockSizeOf: nat -> nat)
    requires ActiveKnown(s) && ndx in s.table
    requires cmd.DeltaMatch? || cmd.DeltaData? || cmd.DeltaEnd?
    requires cmd.path == s.table[ndx].path && (cmd.DeltaEnd? ==> cmd.ndx == ndx)
    requires next == if cmd.DeltaEnd? then NoTransfer else DeltaOf(ndx)
    ensures
      var r := OnDelta(s, ndx, cmd, next, blockSizeOf);
      ActiveKnown(r.s) && PhaseAfter(SessionPhase(s), r.cmds) == Some(SessionPhase(r.s))
  {
    PhaseOne(SessionPhase(s), cmd);
    if DeltaAllowed(s, ndx) {
      var begin := DeltaBegin(ndx, s.table[ndx], blockSizeOf(s.table[ndx].size));
      if s.active == NoTransfer {
        PhaseTwo(SessionPhase(s), begin, cmd);
        assert [begin] + [cmd] == [begin, cmd];
      } else {
        assert [] + [cmd] == [cmd];
      }
    }
  }

  lemma OutcomeKeepsActive(s: SessionState, ack: FileAck)
    ensures OnOutcome(s, ack).s.active == s.active && OnOutcome(s, ack).s.table == s.table
    ensures OnOutcome(s, ack).cmds == []
  {
  }

  lemma ShutdownCloses(p: Phase)
    ensures PhaseAfter(p, [Shutdown]) == Some(Outside)
    ensures PhaseAfter(p, [AbortFile, Shutdown]) == Some(Outside)
  {
    assert [Shutdown][1..] == [] && [AbortFile, Shutdown][1..] == [Shutdown];
  }

  /** A reaction extends the queue along the bracket structure. */
  lemma ReactKeepsPhase(sys: System, r: Reaction)
    requires ActiveKnown(r.s)
    requires PhaseAfter(sys.phase, sys.queue) == Some(if sys.loop.Running? then SessionPhase(sys.session) else Outside)
    requires if sys.loop.Running? then PhaseAfter(SessionPhase(sys.session), r.cmds) == Some(SessionPhase(r.s))
             else r.cmds == []
    ensures
      var sys' := React(sys, r);
      PhaseAfter(sys'.phase, sys'.queue) == Some(if sys'.loop.Running? then SessionPhase(sys'.session) else Outside)
  {
    PhaseAppend(sys.phase, sys.queue, r.cmds);
    PhaseAppend(sys.phase, sys.queue + r.cmds, [Shutdown]);
    ShutdownCloses(SessionPhase(r.s));
    assert sys.queue + r.cmds + [] == sys.queue + r.cmds;
    assert sys.queue + [] == sys.queue;
  }

  /** A command in its place leaves the committer with the right file, or failed with one report. */
  lemma DispatchFits(c: FileCommitState, phase: Phase, reports: nat, check: bool, cmd: DiskCommitMsg, w: World)
    requires CommitterFits(c, phase, reports) && NextPhase(phase, cmd).Some?
    ensures !Refuses(c, cmd)
    ensures
      var e := Dispatch(c, check, cmd, w);
      var made := if cmd.WriteDeleteMarker? then 0 else |e.acks|;
      var total := (if cmd.FileBegin? || cmd.DeltaBegin? then 0 else reports) + made;
      var next := NextPhase(phase, cmd).value;
      && CommitterFits(e.state, next, total)
      && (phase.Inside? && next.Outside? ==>
            if cmd.AbortFile? || cmd.Shutdown? then total <= 1 else total == 1)
  {
  }

  /** Lockstep is kept by every step that leaves the path of the active transfer as it was. */
  lemma LockstepKept(sys: System, setup: Setup, a: Action)
    requires Lockstep(sys) && Enabled(sys, a) && KeepsPath(sys, a)
    ensures Lockstep(Next(sys, setup, a))
  {
    match a
    case Receive(msg) =>
      MessageKeepsPhase(sys.session, msg, setup.blockSizeOf);
      ReactKeepsPhase(sys, OnMessage(sys.session, msg, setup.blockSizeOf));
    case Consume(w) =>
      DispatchFits(sys.committer, sys.phase, sys.reports, setup.check, sys.queue[0], w);
    case TakeAck =>
      OutcomeKeepsActive(sys.session, sys.acks[0]);
      var r := OnOutcome(sys.session, sys.acks[0]);
      var sys' := TakeAckStep(sys);
      ReactKeepsPhase(sys.(acks := sys.acks[1..], mismatches := sys'.mismatches), r);
    case Break =>
      PhaseAppend(sys.phase, sys.queue, [AbortFile, Shutdown]);
      ShutdownCloses(SessionPhase(sys.session));
  }

  /** A page keeps lockstep if and only if it keeps the path of the active transfer. */
  lemma PageKeepsLockstepIff(sys: System, setup: Setup, items: seq<PageItem>)
    requires Lockstep(sys) && sys.loop.Running?
    ensures Lockstep(ReceiveStep(sys, setup, FilePage(items))) <==> KeepsActivePath(sys.session, items)
  {
    IngestKeepsKeys(sys.session.table, items);
    assert sys.queue + [] + [] == sys.queue;
  }

  /**
   * In every interleaving in which no page changes the path of the active transfer the committer never refuses
   * a begin or a commit, every committed bracket has exactly one outcome and every aborted one at most one.
   */
  lemma {:induction false} LockstepAlways(setup: Setup, states: seq<System>, actions: seq<Action>, k: nat)
    requires Run(setup, states, actions) && k < |states| && KeepsPaths(states, actions)
    ensures Lockstep(states[k])
  {
    if k > 0 {
      LockstepAlways(setup, states, actions, k - 1);
      assert StepAt(setup, states, actions, k - 1) && KeepsPath(states[k - 1], actions[k - 1]);
      LockstepKept(states[k - 1], setup, actions[k - 1]);
    }
  }

  /** A run is in lockstep throughout if and only if none of its pages changes the path of an active transfer. */
  lemma LockstepIff(setup: Setup, states: seq<System>, actions: seq<Action>)
    requires Run(setup, states, actions)
    ensures (forall k :: 0 <= k < |states| ==> Lockstep(states[k])) <==> KeepsPaths(states, actions)
  {
    if KeepsPaths(states, actions) {
      forall k | 0 <= k < |states| ensures Lockstep(states[k]) {
        LockstepAlways(setup, states, actions, k);
      }
    }
    if forall k :: 0 <= k < |states| ==> Lockstep(states[k]) {
      forall i | 0 <= i < |actions| ensures KeepsPath(states[i], actions[i]) {
        assert StepAt(setup, states, actions, i);
        if actions[i].Receive? && actions[i].msg.FilePage? {
          PageKeepsLockstepIff(states[i], setup, actions[i].msg.items);
          assert Lockstep(states[i + 1]);
        }
      }
    }
  }

  // ---------------------------------------------------------------- commands arrive in order

  /** How many commands the committer takes in the steps from `from` up to `to`. */
  function Consumes(actions: seq<Action>, from: nat, to: nat): (r: nat)
    requires from <= to <= |actions|
  {
    if from == to then 0 else Consumes(actions, from, to - 1) + (if actions[to - 1].Consume? then 1 else 0)
  }

  lemma QueueStep(sys: System, setup: Setup, a: Action)
    requires Enabled(sys, a)
    ensures
      var sys' := Next(sys, setup, a);
      if a.Consume? then sys'.queue == sys.queue[1..]
      else sys.queue <= sys'.queue && sys'.committer == sys.committer && sys'.phase == sys.phase
           && sys'.reports == sys.reports && sys'.refused == sys.refused
  {
  }

  /** What was queued at one moment is taken before anything queued later. */
  lemma {:induction false} QueueIsFifo(setup: Setup, states: seq<System>, actions: seq<Action>, from: nat, k: nat)
    requires Run(setup, states, actions) && from <= k < |states|
    requires Consumes(actions, from, k) <= |states[from].queue|
    ensures states[from].queue[Consumes(actions, from, k)..] <= states[k].queue
    decreases k
  {
    if k > from {
      QueueIsFifo(setup, states, actions, from, k - 1);
      assert StepAt(setup, states, actions, k - 1);
      QueueStep(states[k - 1], setup, actions[k - 1]);
    }
  }

  lemma PrefixDrop<T>(a: seq<T>, b: seq<T>, c: seq<T>, n: nat)
    requires a <= b && n <= |a| && b[n..] <= c
    ensures a[n..] <= c
  {
  }

  lemma HeadOf<T>(a: seq<T>, n: nat, b: seq<T>)
    requires n < |a| && a[n..] <= b
    ensures b != [] && b[0] == a[n]
  {
    assert a[n..][0] == a[n];
  }

  // ---------------------------------------------------------------- ledger and retries

  function RedoCount(sent: seq<ReceiverMsg>, n: int): (r: nat)
  {
    if sent == [] then 0 else RedoCount(sent[..|sent| - 1], n) + (if sent[|sent| - 1] == Redo(n) then 1 else 0)
  }

  function TerminalCount(sent: seq<ReceiverMsg>, n: int): (r: nat)
  {
    if sent == [] then 0
    else
      var last := sent[|sent| - 1];
      TerminalCount(sent[..|sent| - 1], n) + (if last == SuccessAck(n) || last == ErrorAck(n) then 1 else 0)
  }

  predicate OutcomeReply(m: ReceiverMsg)
  {
    m.Redo? || m.SuccessAck? || m.ErrorAck?
  }

  lemma {:induction false} CountsIgnore(sent: seq<ReceiverMsg>, more: seq<ReceiverMsg>, n: int)
    requires forall m :: m in more ==> !OutcomeReply(m)
    ensures RedoCount(sent + more, n) == RedoCount(sent, n) && TerminalCount(sent + more, n) == TerminalCount(sent, n)
    decreases |more|
  {
    if more == [] {
      assert sent + more == sent;
    } else {
      assert (sent + more)[..|sent + more| - 1] == sent + more[..|more| - 1];
      assert (sent + more)[|sent + more| - 1] == more[|more| - 1] && !OutcomeReply(more[|more| - 1]);
      CountsIgnore(sent, more[..|more| - 1], n);
    }
  }

  lemma {:induction false} AskedOnlyRequests(items: seq<PageItem>)
    ensures forall m :: m in Asked(items) ==> m.TransferRequest?
  {
    if items != [] { AskedOnlyRequests(items[1..]); }
  }

  /** What the replies and the counter of one index amount to. */
  predicate IndexOk(sent: seq<ReceiverMsg>, tries: byte, settled: bool, mismatches: nat, n: int)
  {
    && RedoCount(sent, n) == (mismatches + 255) / 256 && tries == mismatches % 256
    && TerminalCount(sent, n) <= if settled then 1 else 0
  }

  ghost predicate IndexAt(sys: System, n: int)
  {
    IndexOk(sys.sent, Tries(sys.session.attempts, n), n in sys.session.terminated, sys.mismatches[n], n)
  }

  /** The ledger counts each settled index once; a redo is asked for at every 256th mismatch of an index. */
  ghost predicate LedgerOk(sys: System)
  {
    && sys.session.completed == |sys.session.terminated| + sys.unindexed
    && (forall n {:trigger IndexAt(sys, n)} :: IndexAt(sys, n))
  }

  /** The settled indexes and the completion count move together. */
  predicate Counted(s: SessionState, s': SessionState, unindexed: nat)
  {
    && s'.attempts == s.attempts && s.terminated <= s'.terminated
    && s'.completed == s.completed + (|s'.terminated| - |s.terminated|) + unindexed
  }

  lemma FailureCounts(s: SessionState, ndx: int)
    ensures Counted(s, OnSourceFailure(s, ndx).s, 0)
  {
  }

  lemma DeltaCounts(s: SessionState, ndx: int, cmd: DiskCommitMsg, next: ActiveTransfer, blockSizeOf: nat -> nat)
    ensures Counted(s, OnDelta(s, ndx, cmd, next, blockSizeOf).s, 0)
  {
  }

  lemma MessageCounts(s: SessionState, msg: SenderMsg, blockSizeOf: nat -> nat)
    ensures Counted(s, OnMessage(s, msg, blockSizeOf).s, CountsUnindexed(msg))
  {
    match msg
    case EntryError(ndx) => FailureCounts(s, ndx);
    case MatchToken(ndx, i) =>
      if ndx in s.table { DeltaCounts(s, ndx, DeltaMatch(s.table[ndx].path, i), DeltaOf(ndx), blockSizeOf); }
    case DataToken(ndx, data) =>
      if ndx in s.table { DeltaCounts(s, ndx, DeltaData(s.table[ndx].path, data), DeltaOf(ndx), blockSizeOf); }
    case EndOfFile(ndx, hash) =>
      if ndx in s.table {
        DeltaCounts(s, ndx, DeltaEnd(ndx, s.table[ndx].path, hash), NoTransfer, blockSizeOf);
      }
    case _ =>
  }

  lemma MessageReplies(s: SessionState, msg: SenderMsg, blockSizeOf: nat -> nat)
    ensures forall m :: m in OnMessage(s, msg, blockSizeOf).replies ==> !OutcomeReply(m)
  {
    if msg.FilePage? { AskedOnlyRequests(msg.items); }
  }

  lemma LedgerReceive(sys: System, setup: Setup, msg: SenderMsg)
    requires LedgerOk(sys)
    ensures LedgerOk(ReceiveStep(sys, setup, msg))
  {
    var r := OnMessage(sys.session, msg, setup.blockSizeOf);
    MessageCounts(sys.session, msg, setup.blockSizeOf);
    MessageReplies(sys.session, msg, setup.blockSizeOf);
    var sys' := ReceiveStep(sys, setup, msg);
    assert sys'.session == r.s && sys'.sent == sys.sent + r.replies && sys'.mismatches == sys.mismatches;
    forall n ensures IndexAt(sys', n) {
      assert IndexAt(sys, n);
      CountsIgnore(sys.sent, r.replies, n);
    }
  }

  lemma CountsSnoc(sent: seq<ReceiverMsg>, m: ReceiverMsg, n: int)
    ensures RedoCount(sent + [m], n) == RedoCount(sent, n) + if m == Redo(n) then 1 else 0
    ensures TerminalCount(sent + [m], n)
         == TerminalCount(sent, n) + if m == SuccessAck(n) || m == ErrorAck(n) then 1 else 0
  {
    assert (sent + [m])[..|sent|] == sent;
  }

  lemma Wraps(m: nat)
    ensures (m % 256 + 1) % 256 == (m + 1) % 256
    ensures (m + 1) % 256 == 1 <==> m % 256 == 0
    ensures (m + 1 + 255) / 256 == (m + 255) / 256 + if m % 256 == 0 then 1 else 0
  {
  }

  /** A redo is asked for exactly when the number of mismatches was a multiple of 256. */
  lemma OwnRedo(sent: seq<ReceiverMsg>, tries: byte, settled: bool, mismatches: nat, n: int)
    requires IndexOk(sent, tries, settled, mismatches, n) && Count8(tries) == 1
    ensures IndexOk(sent + [Redo(n)], 1, settled, mismatches + 1, n)
  {
    Wraps(mismatches);
    CountsSnoc(sent, Redo(n), n);
  }

  lemma OwnMismatch(sent: seq<ReceiverMsg>, tries: byte, settled: bool, mismatches: nat, n: int)
    requires IndexOk(sent, tries, settled, mismatches, n) && Count8(tries) != 1
    ensures IndexOk(sent, Count8(tries), settled, mismatches + 1, n)
  {
    Wraps(mismatches);
  }

  lemma OwnTerminal(sent: seq<ReceiverMsg>, tries: byte, mismatches: nat, n: int, m: ReceiverMsg)
    requires IndexOk(sent, tries, false, mismatches, n) && (m == SuccessAck(n) || m == ErrorAck(n))
    ensures IndexOk(sent + [m], tries, true, mismatches, n)
  {
    CountsSnoc(sent, m, n);
  }

  /** What an outcome does to the counts of its own index: a redo, a terminal, or nothing but the count. */
  lemma OwnOutcome(s: SessionState, ack: FileAck, sent: seq<ReceiverMsg>, mismatches: nat)
    requires IndexOk(sent, Tries(s.attempts, ack.ndx), ack.ndx in s.terminated, mismatches, ack.ndx)
    ensures
      var r, n := OnOutcome(s, ack), ack.ndx;
      IndexOk(sent + r.replies, Tries(r.s.attempts, n), n in r.s.terminated,
              mismatches + if Mismatch(ack.outcome) then 1 else 0, n)
  {
    var n, tries := ack.ndx, Tries(s.attempts, ack.ndx);
    var settled, count, r := n in s.terminated, Count8(tries), OnOutcome(s, ack);
    if Mismatch(ack.outcome) {
      assert Tries(r.s.attempts, n) == count;
      if count == 1 {
        OwnRedo(sent, tries, settled, mismatches, n);
        assert r.replies == [Redo(n)] && r.s.terminated == s.terminated;
      } else {
        OwnMismatch(sent, tries, settled, mismatches, n);
        if settled {
          assert r.replies == [] && sent + [] == sent;
        } else {
          OwnTerminal(sent, count, mismatches + 1, n, ErrorAck(n));
          assert r.replies == [ErrorAck(n)] && n in r.s.terminated;
        }
      }
    } else if settled {
      assert r.replies == [] && sent + [] == sent;
    } else {
      var m := if ack.outcome.Success? then SuccessAck(n) else ErrorAck(n);
      OwnTerminal(sent, tries, mismatches, n, m);
      assert r.replies == [m] && n in r.s.terminated;
    }
  }

  lemma OtherIndex(s: SessionState, ack: FileAck, sent: seq<ReceiverMsg>, n: int)
    requires n != ack.ndx
    ensures
      var r := OnOutcome(s, ack);
      && RedoCount(sent + r.replies, n) == RedoCount(sent, n)
      && TerminalCount(sent + r.replies, n) == TerminalCount(sent, n)
      && Tries(r.s.attempts, n) == Tries(s.attempts, n) && (n in r.s.terminated <==> n in s.terminated)
  {
    var r := OnOutcome(s, ack);
    if r.replies == [] {
      assert sent + r.replies == sent;
    } else {
      assert r.replies == [r.replies[0]];
      CountsSnoc(sent, r.replies[0], n);
    }
  }

  lemma LedgerOwn(sys: System)
    requires sys.acks != [] && IndexAt(sys, sys.acks[0].ndx)
    ensures IndexAt(TakeAckStep(sys), sys.acks[0].ndx)
  {
    OwnOutcome(sys.session, sys.acks[0], sys.sent, sys.mismatches[sys.acks[0].ndx]);
  }

  lemma LedgerOther(sys: System, n: int)
    requires sys.acks != [] && IndexAt(sys, n) && n != sys.acks[0].ndx
    ensures IndexAt(TakeAckStep(sys), n)
  {
    OtherIndex(sys.session, sys.acks[0], sys.sent, n);
  }

  lemma LedgerAck(sys: System)
    requires LedgerOk(sys) && sys.acks != []
    ensures LedgerOk(TakeAckStep(sys))
  {
    var ack, sys' := sys.acks[0], TakeAckStep(sys);
    OutcomeCounts(sys.session, ack);
    forall n ensures IndexAt(sys', n) {
      assert IndexAt(sys, n);
      if n == ack.ndx {
        LedgerOwn(sys);
      } else {
        LedgerOther(sys, n);
      }
    }
  }

  lemma OutcomeCounts(s: SessionState, ack: FileAck)
    ensures
      var r := OnOutcome(s, ack);
      r.s.completed == s.completed + (|r.s.terminated| - |s.terminated|)
  {
  }

  lemma LedgerKept(sys: System, setup: Setup, a: Action)
    requires LedgerOk(sys) && Enabled(sys, a)
    ensures LedgerOk(Next(sys, setup, a))
  {
    match a
    case Receive(msg) => LedgerReceive(sys, setup, msg);
    case Consume(w) => LedgerSame(sys, ConsumeStep(sys, setup, w));
    case TakeAck => LedgerAck(sys);
    case Break => LedgerSame(sys, BreakStep(sys));
  }

  lemma LedgerSame(sys: System, sys': System)
    requires LedgerOk(sys) && sys'.sent == sys.sent && sys'.mismatches == sys.mismatches
    requires sys'.session == sys.session.(active := sys'.session.active) && sys'.unindexed == sys.unindexed
    ensures LedgerOk(sys')
  {
    forall n ensures IndexAt(sys', n) {
      assert IndexAt(sys, n);
    }
  }

  /**
   * In every run, with any sender and any storage: the completion count is the number of
   * settled indexes plus the terminals without an index, each index draws at most one
   * terminal answer, and at most one redo exactly as long as at most 256 mismatches are handled.
   */
  lemma {:induction false} LedgerAlways(setup: Setup, states: seq<System>, actions: seq<Action>, k: nat)
    requires Run(setup, states, actions) && k < |states|
    ensures LedgerOk(states[k])
    ensures forall n :: TerminalCount(states[k].sent, n) <= 1
    ensures forall n :: RedoCount(states[k].sent, n) <= 1 <==> states[k].mismatches[n] <= 256
  {
    if k > 0 {
      LedgerAlways(setup, states, actions, k - 1);
      assert StepAt(setup, states, actions, k - 1);
      LedgerKept(states[k - 1], setup, actions[k - 1]);
    } else {
      assert LedgerOk(InitialSystem());
    }
    forall n
      ensures TerminalCount(states[k].sent, n) <= 1
      ensures RedoCount(states[k].sent, n) <= 1 <==> states[k].mismatches[n] <= 256
    {
      assert IndexAt(states[k], n);
    }
  }

  // ---------------------------------------------------------------- leaving the loop

  /** The loop has left through its completion break exactly when the ledger is complete. */
  predicate ExitIff(sys: System)
  {
    (sys.loop.Finished? ==> IsComplete(sys.session)) && (sys.loop.Running? ==> !IsComplete(sys.session))
  }

  lemma ExitKept(sys: System, setup: Setup, a: Action)
    requires ExitIff(sys) && Enabled(sys, a)
    ensures ExitIff(Next(sys, setup, a))
  {
    match a
    case Receive(msg) => MessageExits(sys.session, msg, setup.blockSizeOf);
    case Consume(_) =>
    case TakeAck => OutcomeExits(sys.session, sys.acks[0]);
    case Break =>
  }

  /** A message ends the loop exactly when it completes the ledger. */
  lemma MessageExits(s: SessionState, msg: SenderMsg, blockSizeOf: nat -> nat)
    requires !IsComplete(s)
    ensures OnMessage(s, msg, blockSizeOf).exit <==> IsComplete(OnMessage(s, msg, blockSizeOf).s)
  {
  }

  lemma OutcomeExits(s: SessionState, ack: FileAck)
    ensures IsComplete(s) ==> IsComplete(OnOutcome(s, ack).s)
    ensures !IsComplete(s) ==> (OnOutcome(s, ack).exit <==> IsComplete(OnOutcome(s, ack).s))
  {
  }

  lemma {:induction false} ExitAlways(setup: Setup, states: seq<System>, actions: seq<Action>, k: nat)
    requires Run(setup, states, actions) && k < |states|
    ensures ExitIff(states[k])
  {
    if k > 0 {
      ExitAlways(setup, states, actions, k - 1);
      assert StepAt(setup, states, actions, k - 1);
      ExitKept(states[k - 1], setup, actions[k - 1]);
    }
  }
}
