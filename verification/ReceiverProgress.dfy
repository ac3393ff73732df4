/** A stream that its session can no longer end, and the discipline under which none occurs. */
module ReceiverProgress {
  import opened Bytes
  import opened DeltaStream
  import opened FileCommit
  import opened Session
  import opened ReceiverSystem
  import opened ReceiverSafety

  // ---------------------------------------------------------------- a session that gets stuck

  predicate Streams(s: SessionState, n: int)
  {
    s.active == FullOf(n) || s.active == DeltaOf(n)
  }

  /** The end of a file frees the session exactly when its index has not been settled before. */
  lemma EndFreesIff(s: SessionState, n: int, hash: Option<string>, blockSizeOf: nat -> nat)
    requires n in s.table && Streams(s, n)
    ensures OnEndOfFile(s, n, hash, blockSizeOf).s.active == NoTransfer <==> n !in s.terminated
  {
  }

  /** A settled index still holds the stream. */
  predicate Stuck(s: SessionState, n: int)
  {
    Streams(s, n) && n in s.terminated
  }

  predicate Frees(msg: SenderMsg, n: int)
  {
    msg == EntryError(n) || msg.EntryErrorNoIndex?
  }

  predicate BeginsOrEnds(cmd: DiskCommitMsg)
  {
    cmd.FileBegin? || cmd.FileEnd? || cmd.DeltaBegin? || cmd.DeltaEnd?
  }

  predicate Inert(cmds: seq<DiskCommitMsg>)
  {
    forall i :: 0 <= i < |cmds| ==> !BeginsOrEnds(cmds[i])
  }

  /** A stuck session begins and commits nothing, whatever arrives, until a source failure frees it. */
  lemma StuckStays(s: SessionState, n: int, msg: SenderMsg, blockSizeOf: nat -> nat)
    requires Stuck(s, n) && !Frees(msg, n)
    ensures Stuck(OnMessage(s, msg, blockSizeOf).s, n) && Inert(OnMessage(s, msg, blockSizeOf).cmds)
  {
  }

  /** Nothing that is put on the queue begins or ends a file. */
  predicate BeginsNothing(before: System, after: System)
  {
    || (before.queue <= after.queue && Inert(after.queue[|before.queue|..]))
    || (before.queue != [] && after.queue == before.queue[1..])
  }

  lemma ReactAdds(sys: System, r: Reaction)
    requires Inert(r.cmds)
    ensures BeginsNothing(sys, React(sys, r))
  {
    var tail := if r.exit && sys.loop.Running? then [Shutdown] else [];
    assert React(sys, r).queue[|sys.queue|..] == r.cmds + tail;
  }

  lemma StuckStep(sys: System, setup: Setup, n: int, a: Action)
    requires Stuck(sys.session, n) && Enabled(sys, a) && a != Break && (a.Receive? ==> !Frees(a.msg, n))
    ensures Stuck(Next(sys, setup, a).session, n) && BeginsNothing(sys, Next(sys, setup, a))
  {
    match a
    case Receive(msg) =>
      StuckStays(sys.session, n, msg, setup.blockSizeOf);
      ReactAdds(sys, OnMessage(sys.session, msg, setup.blockSizeOf));
    case Consume(_) =>
    case TakeAck => StuckAck(sys, n);
  }

  lemma StuckAck(sys: System, n: int)
    requires Stuck(sys.session, n) && sys.acks != []
    ensures Stuck(TakeAckStep(sys).session, n) && BeginsNothing(sys, TakeAckStep(sys))
  {
    OutcomeKeepsActive(sys.session, sys.acks[0]);
    var taken := sys.(acks := sys.acks[1..], mismatches := TakeAckStep(sys).mismatches);
    ReactAdds(taken, OnOutcome(sys.session, sys.acks[0]));
  }

  /** Once stuck, a run stays stuck and queues no begin and no end of a file, as long as nothing frees it. */
  lemma {:induction false} StuckAlways(setup: Setup, states: seq<System>, actions: seq<Action>, n: int, from: nat,
                                       k: nat)
    requires Run(setup, states, actions) && from <= k < |states| && Stuck(states[from].session, n)
    requires forall i :: from <= i < k ==> actions[i] != Break && (actions[i].Receive? ==> !Frees(actions[i].msg, n))
    ensures Stuck(states[k].session, n)
    ensures k > from ==> BeginsNothing(states[k - 1], states[k])
    decreases k
  {
    if k > from {
      StuckAlways(setup, states, actions, n, from, k - 1);
      assert StepAt(setup, states, actions, k - 1);
      StuckStep(states[k - 1], setup, n, actions[k - 1]);
    }
  }

  // ---------------------------------------------------------------- outcomes still to come

  /** A command whose outcome settles index n or asks for its redo. */
  predicate Concludes(cmd: DiskCommitMsg, n: int)
  {
    (cmd.FileEnd? || cmd.DeltaEnd? || cmd.WriteDeleteMarker?) && cmd.ndx == n
  }

  function One(b: bool): nat
  {
    if b then 1 else 0
  }

  function QueuedFor(cmds: seq<DiskCommitMsg>, n: int): (r: nat)
  {
    if cmds == [] then 0 else One(Concludes(cmds[0], n)) + QueuedFor(cmds[1..], n)
  }

  function AcksFor(acks: seq<FileAck>, n: int): (r: nat)
  {
    if acks == [] then 0 else One(acks[0].ndx == n) + AcksFor(acks[1..], n)
  }

  lemma {:induction false} QueuedAppend(a: seq<DiskCommitMsg>, b: seq<DiskCommitMsg>, n: int)
    ensures QueuedFor(a + b, n) == QueuedFor(a, n) + QueuedFor(b, n)
  {
    if a == [] {
      assert a + b == b;
    } else {
      assert (a + b)[1..] == a[1..] + b;
      QueuedAppend(a[1..], b, n);
    }
  }

  lemma {:induction false} AcksAppend(a: seq<FileAck>, b: seq<FileAck>, n: int)
    ensures AcksFor(a + b, n) == AcksFor(a, n) + AcksFor(b, n)
  {
    if a == [] {
      assert a + b == b;
    } else {
      assert (a + b)[1..] == a[1..] + b;
      AcksAppend(a[1..], b, n);
    }
  }

  /** How many outcomes for index n are still to come: of its stream, of queued commands, and those on the way. */
  function Outstanding(sys: System, n: int): (r: nat)
  {
    One(Streams(sys.session, n)) + QueuedFor(sys.queue, n) + AcksFor(sys.acks, n)
  }

  /** The message begins index n, or queues its delete marker. */
  predicate Opens(s: SessionState, msg: SenderMsg, n: int)
  {
    match msg
    case DeleteMarker(m) => m == n && n in s.table
    case BeginFile(m) => m == n && n in s.table && n !in s.terminated && s.active == NoTransfer
    case MatchToken(m, _) => m == n && n in s.table && n !in s.terminated && s.active == NoTransfer
    case DataToken(m, _) => m == n && n in s.table && n !in s.terminated && s.active == NoTransfer
    case EndOfFile(m, _) => m == n && n in s.table && n !in s.terminated && s.active == NoTransfer
    case _ => false
  }

  predicate OpensAt(sys: System, a: Action, n: int)
  {
    a.Receive? && Opens(sys.session, a.msg, n)
  }

  lemma QueuedShort(a: DiskCommitMsg, b: DiskCommitMsg, n: int)
    ensures QueuedFor([], n) == 0 && QueuedFor([a], n) == One(Concludes(a, n))
    ensures QueuedFor([a, b], n) == One(Concludes(a, n)) + One(Concludes(b, n))
  {
    assert [a][1..] == [] && [a, b][1..] == [b] && [b][1..] == [];
    assert QueuedFor([b], n) == One(Concludes(b, n)) + QueuedFor([], n);
  }

  lemma DeltaOpens(s: SessionState, m: int, cmd: DiskCommitMsg, next: ActiveTransfer, blockSizeOf: nat -> nat, n: int)
    requires m in s.table && (cmd.DeltaMatch? || cmd.DeltaData? || cmd.DeltaEnd?) && (cmd.DeltaEnd? ==> cmd.ndx == m)
    requires next == if cmd.DeltaEnd? then NoTransfer else DeltaOf(m)
    ensures
      var r := OnDelta(s, m, cmd, next, blockSizeOf);
      One(Streams(r.s, n)) + QueuedFor(r.cmds, n)
      <= One(Streams(s, n)) + One(m == n && m !in s.terminated && s.active == NoTransfer)
  {
    if DeltaAllowed(s, m) {
      var begin := DeltaBegin(m, s.table[m], blockSizeOf(s.table[m].size));
      QueuedShort(begin, cmd, n);
      QueuedShort(cmd, cmd, n);
      if s.active == NoTransfer {
        assert [begin] + [cmd] == [begin, cmd];
      } else {
        assert [] + [cmd] == [cmd];
      }
    }
  }

  lemma EndOpens(s: SessionState, m: int, hash: Option<string>, blockSizeOf: nat -> nat, n: int)
    ensures
      var r := OnEndOfFile(s, m, hash, blockSizeOf);
      One(Streams(r.s, n)) + QueuedFor(r.cmds, n) <= One(Streams(s, n)) + One(Opens(s, EndOfFile(m, hash), n))
  {
    if m in s.table {
      DeltaOpens(s, m, DeltaEnd(m, s.table[m].path, hash), NoTransfer, blockSizeOf, n);
      QueuedShort(FileEnd(m, s.table[m].path, hash), AbortFile, n);
    }
  }

  lemma FailureOpens(s: SessionState, msg: SenderMsg, blockSizeOf: nat -> nat, n: int)
    requires msg.EntryError? || msg.EntryErrorNoIndex?
    ensures
      var r := OnMessage(s, msg, blockSizeOf);
      One(Streams(r.s, n)) + QueuedFor(r.cmds, n) <= One(Streams(s, n))
  {
    QueuedShort(AbortFile, AbortFile, n);
  }

  lemma FullOpens(s: SessionState, msg: SenderMsg, blockSizeOf: nat -> nat, n: int)
    requires msg.BeginFile? || msg.FileData?
    ensures
      var r := OnMessage(s, msg, blockSizeOf);
      One(Streams(r.s, n)) + QueuedFor(r.cmds, n) <= One(Streams(s, n)) + One(Opens(s, msg, n))
  {
    match msg
    case BeginFile(m) => if m in s.table { QueuedShort(FileBegin(m, s.table[m]), AbortFile, n); }
    case FileData(m, offset, data) => QueuedShort(FileChunk(m, StreamChunk(offset, data, false)), AbortFile, n);
  }

  /** A message adds an outcome to come only by opening the index. */
  lemma MessageOpens(s: SessionState, msg: SenderMsg, blockSizeOf: nat -> nat, n: int)
    ensures
      var r := OnMessage(s, msg, blockSizeOf);
      One(Streams(r.s, n)) + QueuedFor(r.cmds, n) <= One(Streams(s, n)) + One(Opens(s, msg, n))
  {
    match msg
    case MatchToken(m, i) =>
      if m in s.table { DeltaOpens(s, m, DeltaMatch(s.table[m].path, i), DeltaOf(m), blockSizeOf, n); }
    case DataToken(m, data) =>
      if m in s.table { DeltaOpens(s, m, DeltaData(s.table[m].path, data), DeltaOf(m), blockSizeOf, n); }
    case EndOfFile(m, hash) => EndOpens(s, m, hash, blockSizeOf, n);
    case BeginFile(_) => FullOpens(s, msg, blockSizeOf, n);
    case FileData(_, _, _) => FullOpens(s, msg, blockSizeOf, n);
    case EntryError(_) => FailureOpens(s, msg, blockSizeOf, n);
    case EntryErrorNoIndex(_) => FailureOpens(s, msg, blockSizeOf, n);
    case DeleteMarker(m) => QueuedShort(WriteDeleteMarker(m), AbortFile, n);
    case _ =>
  }

  /** Storage reports nothing about a file before its end. */
  predicate ReportsAtEnd(sys: System, setup: Setup, a: Action)
  {
    a.Consume? && sys.queue != []
    && !sys.queue[0].FileEnd? && !sys.queue[0].DeltaEnd? && !sys.queue[0].WriteDeleteMarker? ==>
      Dispatch(sys.committer, setup.check, sys.queue[0], a.w).acks == []
  }

  lemma DispatchReports(c: FileCommitState, check: bool, cmd: DiskCommitMsg, w: World, n: int)
    requires cmd.FileEnd? || cmd.DeltaEnd? || cmd.WriteDeleteMarker?
    ensures AcksFor(Dispatch(c, check, cmd, w).acks, n) <= One(Concludes(cmd, n))
  {
    var acks := Dispatch(c, check, cmd, w).acks;
    assert |acks| <= 1 && forall ack :: ack in acks ==> ack.ndx == cmd.ndx;
    if acks != [] { assert acks[1..] == []; }
  }

  ghost predicate Balance(sys: System, sys': System, opens: bool, n: int)
  {
    && Outstanding(sys', n) + RedoCount(sys'.sent, n) <= Outstanding(sys, n) + RedoCount(sys.sent, n) + One(opens)
    && RedoCount(sys'.sent, n) >= RedoCount(sys.sent, n)
  }

  lemma ReactQueues(sys: System, r: Reaction, n: int)
    ensures QueuedFor(React(sys, r).queue, n) == QueuedFor(sys.queue, n) + QueuedFor(r.cmds, n)
  {
    var tail := if r.exit && sys.loop.Running? then [Shutdown] else [];
    QueuedAppend(sys.queue + r.cmds, tail, n);
    QueuedAppend(sys.queue, r.cmds, n);
    QueuedShort(Shutdown, Shutdown, n);
  }

  lemma BalanceReceive(sys: System, setup: Setup, msg: SenderMsg, n: int)
    ensures Balance(sys, ReceiveStep(sys, setup, msg), Opens(sys.session, msg, n), n)
  {
    var r := OnMessage(sys.session, msg, setup.blockSizeOf);
    MessageOpens(sys.session, msg, setup.blockSizeOf, n);
    MessageReplies(sys.session, msg, setup.blockSizeOf);
    CountsIgnore(sys.sent, r.replies, n);
    ReactQueues(sys, r, n);
  }

  lemma BalanceConsume(sys: System, setup: Setup, w: World, n: int)
    requires sys.queue != [] && ReportsAtEnd(sys, setup, Consume(w))
    ensures Balance(sys, ConsumeStep(sys, setup, w), false, n)
  {
    var cmd := sys.queue[0];
    var e := Dispatch(sys.committer, setup.check, cmd, w);
    AcksAppend(sys.acks, e.acks, n);
    if cmd.FileEnd? || cmd.DeltaEnd? || cmd.WriteDeleteMarker? {
      DispatchReports(sys.committer, setup.check, cmd, w, n);
    }
  }

  lemma RedoOfOutcome(s: SessionState, ack: FileAck, sent: seq<ReceiverMsg>, n: int)
    ensures
      var r := OnOutcome(s, ack);
      RedoCount(sent, n) <= RedoCount(sent + r.replies, n) <= RedoCount(sent, n) + One(ack.ndx == n)
  {
    var r := OnOutcome(s, ack);
    if r.replies == [] {
      assert sent + r.replies == sent;
    } else {
      assert r.replies == [r.replies[0]];
      CountsSnoc(sent, r.replies[0], n);
    }
  }

  lemma AckQueue(sys: System, n: int)
    requires sys.acks != []
    ensures QueuedFor(TakeAckStep(sys).queue, n) == QueuedFor(sys.queue, n)
    ensures TakeAckStep(sys).session.active == sys.session.active && TakeAckStep(sys).acks == sys.acks[1..]
  {
    var r := OnOutcome(sys.session, sys.acks[0]);
    OutcomeKeepsActive(sys.session, sys.acks[0]);
    ReactQueues(sys.(acks := sys.acks[1..], mismatches := TakeAckStep(sys).mismatches), r, n);
    assert QueuedFor(r.cmds, n) == 0;
  }

  lemma AcksHead(acks: seq<FileAck>, n: int)
    requires acks != []
    ensures AcksFor(acks, n) == One(acks[0].ndx == n) + AcksFor(acks[1..], n)
  {
  }

  lemma BalanceAck(sys: System, n: int)
    requires sys.acks != []
    ensures Balance(sys, TakeAckStep(sys), false, n)
  {
    AckQueue(sys, n);
    AcksHead(sys.acks, n);
    RedoOfOutcome(sys.session, sys.acks[0], sys.sent, n);
    var r := OnOutcome(sys.session, sys.acks[0]);
    assert TakeAckStep(sys).sent == sys.sent + r.replies;
  }

  lemma BalanceBreak(sys: System, n: int)
    ensures Balance(sys, BreakStep(sys), false, n)
  {
    QueuedAppend(sys.queue, [AbortFile, Shutdown], n);
    QueuedShort(AbortFile, Shutdown, n);
  }

  lemma BalanceStep(sys: System, setup: Setup, a: Action, n: int)
    requires Enabled(sys, a) && ReportsAtEnd(sys, setup, a)
    ensures Balance(sys, Next(sys, setup, a), OpensAt(sys, a, n), n)
  {
    match a
    case Receive(msg) => BalanceReceive(sys, setup, msg, n);
    case Consume(w) => BalanceConsume(sys, setup, w, n);
    case TakeAck => BalanceAck(sys, n);
    case Break => BalanceBreak(sys, n);
  }

  // ---------------------------------------------------------------- a run that never gets stuck

  /** How often index n has been opened before step k. */
  function Openings(states: seq<System>, actions: seq<Action>, n: int, k: nat): (r: nat)
    requires k <= |actions| < |states|
  {
    if k == 0 then 0 else Openings(states, actions, n, k - 1) + One(OpensAt(states[k - 1], actions[k - 1], n))
  }

  /** The sender opens an index once, and once more after each redo it was asked for. */
  ghost predicate Patient(states: seq<System>, actions: seq<Action>, k: nat)
    requires k < |actions| < |states|
  {
    forall n :: OpensAt(states[k], actions[k], n) ==> Openings(states, actions, n, k) == RedoCount(states[k].sent, n)
  }

  ghost predicate HeldBack(setup: Setup, states: seq<System>, actions: seq<Action>, k: nat)
    requires k < |actions| < |states|
  {
    ReportsAtEnd(states[k], setup, actions[k]) && Patient(states, actions, k)
  }

  /** Storage reports at the end of files only, and the sender is patient. */
  ghost predicate PatientRun(setup: Setup, states: seq<System>, actions: seq<Action>)
  {
    && Run(setup, states, actions)
    && forall i {:trigger HeldBack(setup, states, actions, i)} :: 0 <= i < |actions| ==>
         HeldBack(setup, states, actions, i)
  }

  lemma {:induction false} OneOutstanding(setup: Setup, states: seq<System>, actions: seq<Action>, n: int, k: nat)
    requires PatientRun(setup, states, actions) && k < |states|
    ensures Outstanding(states[k], n) + RedoCount(states[k].sent, n) <= Openings(states, actions, n, k)
    ensures Openings(states, actions, n, k) <= RedoCount(states[k].sent, n) + 1
  {
    if k > 0 {
      OneOutstanding(setup, states, actions, n, k - 1);
      assert StepAt(setup, states, actions, k - 1) && HeldBack(setup, states, actions, k - 1);
      BalanceStep(states[k - 1], setup, actions[k - 1], n);
    }
  }

  /** The outcome is a mismatch that is answered with a redo. */
  predicate AsksRedo(s: SessionState, ack: FileAck)
  {
    Mismatch(ack.outcome) && Count8(Tries(s.attempts, ack.ndx)) == 1
  }

  lemma MessageSettles(s: SessionState, msg: SenderMsg, blockSizeOf: nat -> nat, n: int)
    requires !Stuck(s, n)
    ensures !Stuck(OnMessage(s, msg, blockSizeOf).s, n)
  {
  }

  lemma OutcomeSettles(s: SessionState, ack: FileAck, n: int)
    requires !Stuck(s, n)
    ensures Stuck(OnOutcome(s, ack).s, n) <==> Streams(s, n) && ack.ndx == n && !AsksRedo(s, ack)
  {
    OutcomeKeepsActive(s, ack);
  }

  /** A step makes the session stuck if and only if it handles a final outcome of the index that streams. */
  lemma BecomesStuckIff(sys: System, setup: Setup, a: Action, n: int)
    requires Enabled(sys, a) && !Stuck(sys.session, n)
    ensures Stuck(Next(sys, setup, a).session, n)
       <==> a.TakeAck? && Streams(sys.session, n) && sys.acks[0].ndx == n && !AsksRedo(sys.session, sys.acks[0])
  {
    match a
    case Receive(msg) => MessageSettles(sys.session, msg, setup.blockSizeOf, n);
    case Consume(_) =>
    case TakeAck => OutcomeSettles(sys.session, sys.acks[0], n);
    case Break =>
  }

  /**
   * If storage reports nothing about a file before its end, and the sender opens an index again only after a redo,
   * no state of any run is stuck, whatever the interleaving: every end of a file that streams frees the session.
   */
  lemma {:induction false} NeverStuck(setup: Setup, states: seq<System>, actions: seq<Action>, n: int, k: nat)
    requires PatientRun(setup, states, actions) && k < |states|
    ensures !Stuck(states[k].session, n)
  {
    if k > 0 {
      NeverStuck(setup, states, actions, n, k - 1);
      assert StepAt(setup, states, actions, k - 1);
      OneOutstanding(setup, states, actions, n, k - 1);
      BecomesStuckIff(states[k - 1], setup, actions[k - 1], n);
    }
  }
}
