/**
 * Session and committer joined by the FIFO command channel and the outcome channel, with an
 * unconstrained sender and unconstrained storage. A run is any interleaving of their steps.
 */
module ReceiverSystem {
  import opened Bytes
  import opened Delta
  import opened FileCommit
  import opened Session

  // ---------------------------------------------------------------- the dispatcher

  function Dispatch(c: FileCommitState, check: bool, cmd: DiskCommitMsg, w: World): Effect
  {
    match cmd
    case FileBegin(ndx, entry) => Begin(c, ndx, entry, None, w)
    case FileChunk(ndx, chunk) => Effect(PushFull(c, ndx, chunk, w), [], None)
    case FileEnd(ndx, path, hash) => Commit(c, check, ndx, path, hash, FullTransfer, w)
    case DeltaBegin(ndx, entry, bs) => Begin(c, ndx, entry, Some(bs), w)
    case DeltaMatch(path, i) => PushDelta(c, path, Match(i), w)
    case DeltaData(path, data) => PushDelta(c, path, Data(data), w)
    case DeltaEnd(ndx, path, hash) => Commit(c, check, ndx, path, hash, DeltaTransfer, w)
    case WriteDeleteMarker(ndx) => Effect(c, [FileAck(ndx, if w.publishOk then Success else HardError)], None)
    case AbortFile => Effect(Idle, [], None)
    case Shutdown => Effect(Idle, [], None)
  }

  /** The outcomes of a command list up to a shutdown, after which nothing is read. */
  function DispatchAll(c: FileCommitState, check: bool, cmds: seq<DiskCommitMsg>, worlds: seq<World>): seq<FileAck>
    requires |cmds| == |worlds|
    decreases |cmds|
  {
    if cmds == [] || cmds[0].Shutdown? then []
    else
      var e := Dispatch(c, check, cmds[0], worlds[0]);
      e.acks + DispatchAll(e.state, check, cmds[1..], worlds[1..])
  }

  /** The files published meanwhile. */
  function PublishAll(c: FileCommitState, check: bool, cmds: seq<DiskCommitMsg>, worlds: seq<World>): seq<ActiveFile>
    requires |cmds| == |worlds|
    decreases |cmds|
  {
    if cmds == [] || cmds[0].Shutdown? then []
    else
      var e := Dispatch(c, check, cmds[0], worlds[0]);
      (if e.published.Some? then [e.published.value] else []) + PublishAll(e.state, check, cmds[1..], worlds[1..])
  }

  lemma DispatchOne(c: FileCommitState, check: bool, cmds: seq<DiskCommitMsg>, worlds: seq<World>, i: nat,
                    acks: seq<FileAck>, published: seq<ActiveFile>)
    requires |cmds| == |worlds| && i < |cmds| && !cmds[i].Shutdown?
    ensures
      var e := Dispatch(c, check, cmds[i], worlds[i]);
      && acks + DispatchAll(c, check, cmds[i..], worlds[i..])
         == acks + e.acks + DispatchAll(e.state, check, cmds[i + 1..], worlds[i + 1..])
      && published + PublishAll(c, check, cmds[i..], worlds[i..])
         == published + (if e.published.Some? then [e.published.value] else [])
            + PublishAll(e.state, check, cmds[i + 1..], worlds[i + 1..])
  {
    var e := Dispatch(c, check, cmds[i], worlds[i]);
    DispatchHead(c, check, cmds[i..], worlds[i..]);
    assert cmds[i..][1..] == cmds[i + 1..] && worlds[i..][1..] == worlds[i + 1..];
    Associate(acks, e.acks, DispatchAll(e.state, check, cmds[i + 1..], worlds[i + 1..]));
    Associate(published, if e.published.Some? then [e.published.value] else [],
              PublishAll(e.state, check, cmds[i + 1..], worlds[i + 1..]));
  }

  lemma DispatchHead(c: FileCommitState, check: bool, cmds: seq<DiskCommitMsg>, worlds: seq<World>)
    requires |cmds| == |worlds| && cmds != [] && !cmds[0].Shutdown?
    ensures
      var e := Dispatch(c, check, cmds[0], worlds[0]);
      && DispatchAll(c, check, cmds, worlds) == e.acks + DispatchAll(e.state, check, cmds[1..], worlds[1..])
      && PublishAll(c, check, cmds, worlds)
         == (if e.published.Some? then [e.published.value] else []) + PublishAll(e.state, check, cmds[1..], worlds[1..])
  {
  }

  method HandleCommand(files: FileCommitter, cmd: DiskCommitMsg, w: World)
    modifies files
    ensures files.state == Dispatch(old(files.state), files.check, cmd, w).state
    ensures files.acks == old(files.acks) + Dispatch(old(files.state), files.check, cmd, w).acks
    ensures
      var p := Dispatch(old(files.state), files.check, cmd, w).published;
      files.published == old(files.published) + if p.Some? then [p.value] else []
  {
    match cmd {
      case FileBegin(ndx, entry) => files.BeginFile(ndx, entry, None, w);
      case FileChunk(ndx, chunk) => files.PushFullChunk(ndx, chunk, w);
      case FileEnd(ndx, path, hash) => files.CommitFile(ndx, path, hash, FullTransfer, w);
      case DeltaBegin(ndx, entry, bs) => files.BeginFile(ndx, entry, Some(bs), w);
      case DeltaMatch(path, i) => files.PushDeltaToken(path, Match(i), w);
      case DeltaData(path, data) => files.PushDeltaToken(path, Data(data), w);
      case DeltaEnd(ndx, path, hash) => files.CommitFile(ndx, path, hash, DeltaTransfer, w);
      case WriteDeleteMarker(ndx) => files.Report(ndx, if w.publishOk then Success else HardError);
      case AbortFile => files.Abort();
      case Shutdown => files.Abort();
    }
  }

  /** Handles one command of the list; what is done and what is still to come together stay the same. */
  method HandleNext(files: FileCommitter, cmds: seq<DiskCommitMsg>, worlds: seq<World>, i: nat)
    requires |cmds| == |worlds| && i < |cmds| && !cmds[i].Shutdown?
    modifies files
    ensures files.acks + DispatchAll(files.state, files.check, cmds[i + 1..], worlds[i + 1..])
         == old(files.acks + DispatchAll(files.state, files.check, cmds[i..], worlds[i..]))
    ensures files.published + PublishAll(files.state, files.check, cmds[i + 1..], worlds[i + 1..])
         == old(files.published + PublishAll(files.state, files.check, cmds[i..], worlds[i..]))
  {
    DispatchOne(files.state, files.check, cmds, worlds, i, files.acks, files.published);
    HandleCommand(files, cmds[i], worlds[i]);
  }

  /** The receive loop of the committing task; it always ends idle. */
  method DiskCommitTask(check: bool, cmds: seq<DiskCommitMsg>, worlds: seq<World>)
    returns (acks: seq<FileAck>, published: seq<ActiveFile>)
    requires |cmds| == |worlds|
    ensures acks == DispatchAll(Idle, check, cmds, worlds)
    ensures published == PublishAll(Idle, check, cmds, worlds)
  {
    var files := new FileCommitter(check);
    var i := 0;
    while i < |cmds| && !cmds[i].Shutdown?
      invariant 0 <= i <= |cmds| && fresh(files) && files.check == check
      invariant files.acks + DispatchAll(files.state, check, cmds[i..], worlds[i..])
             == DispatchAll(Idle, check, cmds, worlds)
      invariant files.published + PublishAll(files.state, check, cmds[i..], worlds[i..])
             == PublishAll(Idle, check, cmds, worlds)
    {
      HandleNext(files, cmds, worlds, i);
      i := i + 1;
    }
    files.Abort();
    acks, published := files.acks, files.published;
  }

  // ---------------------------------------------------------------- brackets

  /** Where a command stream stands: between files or inside a begin..commit bracket. */
  datatype Phase = Outside | Inside(ndx: int, path: Path, full: bool)

  /** The phase after a command, or None for a command that is out of place. */
  function NextPhase(p: Phase, cmd: DiskCommitMsg): Option<Phase>
  {
    match cmd
    case FileBegin(ndx, entry) => if p.Outside? then Some(Inside(ndx, entry.path, true)) else None
    case DeltaBegin(ndx, entry, _) => if p.Outside? then Some(Inside(ndx, entry.path, false)) else None
    case FileChunk(ndx, _) => if p.Inside? && p.full && p.ndx == ndx then Some(p) else None
    case DeltaMatch(path, _) => if p.Inside? && !p.full && p.path == path then Some(p) else None
    case DeltaData(path, _) => if p.Inside? && !p.full && p.path == path then Some(p) else None
    case FileEnd(ndx, path, _) => if p == Inside(ndx, path, true) then Some(Outside) else None
    case DeltaEnd(ndx, path, _) => if p == Inside(ndx, path, false) then Some(Outside) else None
    case WriteDeleteMarker(_) => Some(p)
    case AbortFile => Some(Outside)
    case Shutdown => Some(Outside)
  }

  function PhaseAfter(p: Phase, cmds: seq<DiskCommitMsg>): Option<Phase>
    decreases |cmds|
  {
    if cmds == [] then Some(p)
    else match NextPhase(p, cmds[0])
      case None => None
      case Some(q) => PhaseAfter(q, cmds[1..])
  }

  lemma {:induction false} PhaseAppend(p: Phase, a: seq<DiskCommitMsg>, b: seq<DiskCommitMsg>)
    requires PhaseAfter(p, a).Some?
    ensures PhaseAfter(p, a + b) == PhaseAfter(PhaseAfter(p, a).value, b)
    decreases |a|
  {
    if a == [] {
      assert a + b == b;
    } else {
      assert (a + b)[1..] == a[1..] + b;
      PhaseAppend(NextPhase(p, a[0]).value, a[1..], b);
    }
  }

  /** A finished bracket: its file, how many outcomes it reported, and whether it was aborted. */
  datatype Bracket = Bracket(ndx: int, reports: nat, aborted: bool)

  // ---------------------------------------------------------------- the system

  datatype LoopState = Running | Finished | Broken

  /**
   * `phase`, `reports`, `brackets` and `refused` record what the committer has consumed so far;
   * `unindexed` counts terminals that carried no index, `mismatches` the mismatches handled for each index.
   */
  datatype System = System(
    session: SessionState, committer: FileCommitState, queue: seq<DiskCommitMsg>, acks: seq<FileAck>,
    sent: seq<ReceiverMsg>, loop: LoopState,
    phase: Phase, reports: nat, brackets: seq<Bracket>, refused: bool, unindexed: nat, mismatches: multiset<int>)

  datatype Setup = Setup(check: bool, blockSizeOf: nat -> nat)

  datatype Action =
    | Receive(msg: SenderMsg)
    | Consume(w: World)
    | TakeAck
    | Break

  function InitialSystem(): System
  {
    System(INITIAL, Idle, [], [], [], Running, Outside, 0, [], false, 0, multiset{})
  }

  predicate Enabled(sys: System, a: Action)
  {
    match a
    case Receive(_) => sys.loop.Running?
    case Consume(_) => sys.queue != []
    case TakeAck => sys.acks != []
    case Break => sys.loop.Running?
  }

  /** The committer turns a command away although a file is active. */
  predicate Refuses(c: FileCommitState, cmd: DiskCommitMsg)
  {
    match cmd
    case FileBegin(_, _) => Active(c)
    case DeltaBegin(_, _, _) => Active(c)
    case FileEnd(ndx, path, _) => Active(c) && !CommitMatches(c, ndx, path, FullTransfer)
    case DeltaEnd(ndx, path, _) => Active(c) && !CommitMatches(c, ndx, path, DeltaTransfer)
    case _ => false
  }

  /** Applies a session reaction; leaving the loop queues the shutdown. */
  function React(sys: System, r: Reaction): System
  {
    var leaving := r.exit && sys.loop.Running?;
    sys.(session := r.s, queue := sys.queue + r.cmds + (if leaving then [Shutdown] else []),
         sent := sys.sent + r.replies, loop := if leaving then Finished else sys.loop)
  }

  function CountsUnindexed(msg: SenderMsg): nat
  {
    if msg.CreateSymlink? || msg.EntryErrorNoIndex? then 1 else 0
  }

  function ReceiveStep(sys: System, setup: Setup, msg: SenderMsg): System
  {
    React(sys, OnMessage(sys.session, msg, setup.blockSizeOf)).(unindexed := sys.unindexed + CountsUnindexed(msg))
  }

  function ConsumeStep(sys: System, setup: Setup, w: World): System
    requires sys.queue != []
  {
    var cmd := sys.queue[0];
    var e := Dispatch(sys.committer, setup.check, cmd, w);
    var next := NextPhase(sys.phase, cmd);
    var phase := if next.Some? then next.value else sys.phase;
    var opens := cmd.FileBegin? || cmd.DeltaBegin?;
    var made := if cmd.WriteDeleteMarker? then 0 else |e.acks|;
    var reports := (if opens then 0 else sys.reports) + made;
    var closes := sys.phase.Inside? && phase.Outside?;
    var aborted := cmd.AbortFile? || cmd.Shutdown?;
    sys.(committer := e.state, queue := sys.queue[1..], acks := sys.acks + e.acks,
         phase := phase, reports := reports,
         brackets := sys.brackets + (if closes then [Bracket(sys.phase.ndx, reports, aborted)] else []),
         refused := sys.refused || Refuses(sys.committer, cmd))
  }

  function TakeAckStep(sys: System): System
    requires sys.acks != []
  {
    var ack := sys.acks[0];
    var mismatched := if Mismatch(ack.outcome) then multiset{ack.ndx} else multiset{};
    React(sys.(acks := sys.acks[1..], mismatches := sys.mismatches + mismatched), OnOutcome(sys.session, ack))
  }

  /** The connection failed: the active file is aborted and the committer shut down. */
  function BreakStep(sys: System): System
  {
    sys.(session := sys.session.(active := NoTransfer), queue := sys.queue + [AbortFile, Shutdown], loop := Broken)
  }

  function Next(sys: System, setup: Setup, a: Action): System
    requires Enabled(sys, a)
  {
    match a
    case Receive(msg) => ReceiveStep(sys, setup, msg)
    case Consume(w) => ConsumeStep(sys, setup, w)
    case TakeAck => TakeAckStep(sys)
    case Break => BreakStep(sys)
  }

  function PathAt(table: map<int, Entry>, n: int): Option<Path>
  {
    if n in table then Some(table[n].path) else None
  }

  /** The page leaves the path of the active transfer as it was; other indexes may change. */
  predicate KeepsActivePath(s: SessionState, items: seq<PageItem>)
  {
    match s.active
    case NoTransfer => true
    case FullOf(n) => PathAt(Ingest(s.table, items), n) == PathAt(s.table, n)
    case DeltaOf(n) => PathAt(Ingest(s.table, items), n) == PathAt(s.table, n)
  }

  predicate KeepsPath(sys: System, a: Action)
  {
    a.Receive? && a.msg.FilePage? ==> KeepsActivePath(sys.session, a.msg.items)
  }

  /** No page of these steps changes the path of an active transfer. */
  ghost predicate KeepsPaths(states: seq<System>, actions: seq<Action>)
    requires |actions| < |states|
  {
    forall i {:trigger KeepsPath(states[i], actions[i])} :: 0 <= i < |actions| ==> KeepsPath(states[i], actions[i])
  }

  predicate StepAt(setup: Setup, states: seq<System>, actions: seq<Action>, i: nat)
    requires i < |actions| < |states|
  {
    Enabled(states[i], actions[i]) && states[i + 1] == Next(states[i], setup, actions[i])
  }

  /** A run of enabled actions from the initial state, with every state it passes. */
  ghost predicate Run(setup: Setup, states: seq<System>, actions: seq<Action>)
  {
    && |states| == |actions| + 1 && states[0] == InitialSystem()
    && forall i {:trigger StepAt(setup, states, actions, i)} :: 0 <= i < |actions| ==>
         StepAt(setup, states, actions, i)
  }

  // ---------------------------------------------------------------- lockstep

  /** The phase the session believes the command stream ends in. */
  function SessionPhase(s: SessionState): Phase
  {
    match s.active
    case NoTransfer => Outside
    case FullOf(n) => if n in s.table then Inside(n, s.table[n].path, true) else Outside
    case DeltaOf(n) => if n in s.table then Inside(n, s.table[n].path, false) else Outside
  }

  predicate ActiveKnown(s: SessionState)
  {
    match s.active
    case NoTransfer => true
    case FullOf(n) => n in s.table
    case DeltaOf(n) => n in s.table
  }

  /** The committer holds exactly the file of the open bracket, or has failed it with one report. */
  predicate CommitterFits(c: FileCommitState, phase: Phase, reports: nat)
  {
    match phase
    case Outside => c.Idle? || c.Failed? || c.Completed?
    case Inside(ndx, path, full) =>
      || (c.Failed? && reports == 1)
      || (&& reports == 0 && (if full then c.FullActive? else c.DeltaActive?)
          && c.file.ndx == ndx && c.file.entry.path == path && (full <==> c.file.mode.FullFile?))
  }

  predicate BracketOk(b: Bracket)
  {
    if b.aborted then b.reports <= 1 else b.reports == 1
  }

  ghost predicate Lockstep(sys: System)
  {
    && ActiveKnown(sys.session)
    && PhaseAfter(sys.phase, sys.queue) == Some(if sys.loop.Running? then SessionPhase(sys.session) else Outside)
    && CommitterFits(sys.committer, sys.phase, sys.reports)
    && !sys.refused
    && forall i :: 0 <= i < |sys.brackets| ==> BracketOk(sys.brackets[i])
  }
}
