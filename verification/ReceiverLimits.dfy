/** What happens outside the conditions of the receiver's laws, with runs that show each case. */
module ReceiverLimits {
  import opened Bytes
  import opened DeltaStream
  import opened FileCommit
  import opened Session
  import opened ReceiverSystem
  import opened ReceiverSafety
  import opened ReceiverCompletion
  import opened ReceiverProgress

  // ---------------------------------------------------------------- building runs

  lemma OnePage(table: map<int, Entry>, item: PageItem)
    ensures Ingest(table, [item]) == table[item.ndx := item.entry]
    ensures Asked([item]) == if item.request then [TransferRequest(item.ndx)] else []
    ensures AskedSet([item]) == if item.request then {item.ndx} else {}
    ensures DistinctRequests([item])
  {
    assert [item][1..] == [];
    assert Ingest(table[item.ndx := item.entry], []) == table[item.ndx := item.entry];
    assert Asked([]) == [] && AskedSet([]) == {} && DistinctRequests([]);
  }

  datatype History = History(states: seq<System>, actions: seq<Action>, xs: seq<Exchange>)

  const START := History([InitialSystem()], [], [NOTHING])

  function Now(h: History): System
    requires h.states != []
  {
    h.states[|h.states| - 1]
  }

  function Known(h: History): Exchange
    requires h.xs != []
  {
    h.xs[|h.xs| - 1]
  }

  ghost predicate Lived(setup: Setup, h: History)
  {
    ExchangeRun(setup, h.states, h.actions, h.xs)
  }

  ghost predicate WellBehaved(setup: Setup, h: History)
  {
    DisciplinedRun(setup, h.states, h.actions, h.xs)
  }

  /** One more action. */
  function Then(setup: Setup, h: History, a: Action): (r: History)
    requires h.states != [] && h.xs != [] && Enabled(Now(h), a)
    ensures r.states != [] && r.xs != []
    ensures Now(r) == Next(Now(h), setup, a) && Known(r) == Exchanged(Known(h), a)
  {
    History(h.states + [Next(Now(h), setup, a)], h.actions + [a], h.xs + [Exchanged(Known(h), a)])
  }

  lemma ThenLived(setup: Setup, h: History, a: Action)
    requires Lived(setup, h) && Enabled(Now(h), a)
    ensures Lived(setup, Then(setup, h, a))
  {
    var r, n := Then(setup, h, a), |h.actions|;
    forall i | 0 <= i < |r.actions|
      ensures StepAt(setup, r.states, r.actions, i) && ExchangedAt(r.actions, r.xs, i)
    {
      if i < n { assert StepAt(setup, h.states, h.actions, i) && ExchangedAt(h.actions, h.xs, i); }
    }
  }

  lemma ThenBehaved(setup: Setup, h: History, a: Action)
    requires WellBehaved(setup, h) && Enabled(Now(h), a) && Disciplined(Known(h), a)
    ensures WellBehaved(setup, Then(setup, h, a))
  {
    ThenLived(setup, h, a);
    var r := Then(setup, h, a);
    forall i | 0 <= i < |r.actions| ensures Disciplined(r.xs[i], r.actions[i]) {
      if i < |h.actions| { assert Disciplined(h.xs[i], h.actions[i]); }
    }
  }

  // ---------------------------------------------------------------- TransferDone ahead of the list

  /** File 1 is asked for and settled by a source failure; the list is not over. */
  lemma OneSettled(setup: Setup, entry: Entry) returns (h: History)
    ensures WellBehaved(setup, h) && |h.actions| == 2 && Now(h).loop.Running?
    ensures Now(h).session == SessionState(1, 1, false, {1}, map[1 := entry], NoTransfer, map[])
    ensures Known(h) == Exchange({1}, {}, {1}, false) && Now(h).queue == [] && Now(h).acks == []
  {
    h := Requested(setup, START, 1, entry);
    ThenBehaved(setup, h, Receive(EntryError(1)));
    h := Then(setup, h, Receive(EntryError(1)));
  }

  /**
   * The discipline on TransferDone is needed. File 1 is asked for and settled, then TransferDone arrives before the
   * list is over: the loop ends, and the index that the sender's next page asks for is never settled.
   */
  lemma EarlyDoneLoses(setup: Setup, entry: Entry, late: PageItem) returns (h: History)
    requires late.request && late.ndx != 1
    ensures Lived(setup, h) && |h.actions| == 3 && h.actions[2] == Receive(TransferDone)
    ensures Disciplined(h.xs[0], h.actions[0]) && Disciplined(h.xs[1], h.actions[1])
    ensures Now(h).loop.Finished? && !Enabled(Now(h), Receive(FilePage([late])))
    ensures Now(h).session.requested == 1 && Now(h).queue == [Shutdown] && Now(h).acks == []
    ensures
      var asked := Exchanged(Known(h), Receive(FilePage([late]))).asked;
      late.ndx in asked && late.ndx !in Now(h).session.terminated + Known(h).without
  {
    h := OneSettled(setup, entry);
    DoneLeaves(Now(h), setup);
    LateIsLost(Known(h), late);
    ThenLived(setup, h, Receive(TransferDone));
    h := Then(setup, h, Receive(TransferDone));
  }

  lemma DoneLeaves(sys: System, setup: Setup)
    requires sys.loop.Running? && sys.session.completed >= sys.session.requested
    ensures ReceiveStep(sys, setup, TransferDone)
         == sys.(session := sys.session.(transferDoneSeen := true), queue := sys.queue + [Shutdown], loop := Finished)
  {
    assert sys.queue + [] == sys.queue && sys.sent + [] == sys.sent;
  }

  lemma LateIsLost(x: Exchange, late: PageItem)
    requires late.request
    ensures Exchanged(x, Receive(FilePage([late]))).asked == x.asked + {late.ndx}
  {
    OnePage(map[], late);
  }

  /** A disciplined run in which one more index, not asked for before, is asked for. */
  lemma Requested(setup: Setup, h: History, n: int, entry: Entry) returns (r: History)
    requires WellBehaved(setup, h) && Now(h).loop.Running? && !Known(h).listed && n !in Known(h).asked
    requires Now(h).session.active == NoTransfer && Now(h).queue == [] && Now(h).acks == []
    ensures WellBehaved(setup, r) && |r.actions| == |h.actions| + 1
    ensures
      var s := Now(h).session;
      Now(r) == Now(h).(session := s.(table := s.table[n := entry], requested := s.requested + 1),
                        sent := Now(h).sent + [TransferRequest(n)])
    ensures Known(r) == Known(h).(asked := Known(h).asked + {n})
  {
    var page := Receive(FilePage([PageItem(n, entry, true)]));
    OnePage(Now(h).session.table, PageItem(n, entry, true));
    ThenBehaved(setup, h, page);
    r := Then(setup, h, page);
    assert Now(h).queue + [] + [] == Now(h).queue;
  }

  // ---------------------------------------------------------------- a session that gets stuck

  /** Files 1 and 2 are asked for, and the begin of file 1 arrives. */
  lemma OneBeginning(setup: Setup, entry: Entry, other: Entry) returns (h: History)
    ensures WellBehaved(setup, h) && Known(h) == Exchange({1, 2}, {}, {1}, false) && Now(h).loop.Running?
    ensures Now(h).session == SessionState(2, 0, false, {}, map[1 := entry, 2 := other], FullOf(1), map[])
    ensures Now(h).queue == [FileBegin(1, entry)] && Now(h).acks == [] && Now(h).committer == Idle
  {
    h := Requested(setup, START, 1, entry);
    h := Requested(setup, h, 2, other);
    assert Now(h).queue == [] && Now(h).session.active == NoTransfer;
    ThenBehaved(setup, h, Receive(BeginFile(1)));
    h := Then(setup, h, Receive(BeginFile(1)));
  }

  /** The begin of file 1 fails in storage and its outcome is handled before anything else arrives. */
  lemma BeginFails(setup: Setup, entry: Entry, other: Entry, w: World) returns (h: History)
    requires !w.prepareOk
    ensures WellBehaved(setup, h) && Known(h) == Exchange({1, 2}, {}, {1}, false) && Now(h).loop.Running?
    ensures Now(h).session == SessionState(2, 1, false, {1}, map[1 := entry, 2 := other], FullOf(1), map[])
    ensures Now(h).queue == [] && Now(h).acks == []
  {
    h := OneBeginning(setup, entry, other);
    var s := Now(h).session;
    ThenBehaved(setup, h, Consume(w));
    h := Then(setup, h, Consume(w));
    assert Now(h).session == s && Now(h).queue == [] && Now(h).acks == [FileAck(1, HardError)];
    ThenBehaved(setup, h, TakeAck);
    h := Then(setup, h, TakeAck);
  }

  /**
   * A stuck state is reached under a disciplined sender: the begin of file 1 fails in storage, its outcome is
   * handled before the end of file, and file 2 can no longer begin.
   */
  lemma StuckReachable(setup: Setup, entry: Entry, other: Entry, w: World) returns (h: History)
    requires !w.prepareOk
    ensures WellBehaved(setup, h)
    ensures Stuck(Now(h).session, 1) && Now(h).loop.Running? && Now(h).queue == [] && Now(h).acks == []
    ensures Known(h).asked == {1, 2} && Now(h).session.terminated == {1}
    ensures h.actions[|h.actions| - 1] == Receive(BeginFile(2))
  {
    h := BeginFails(setup, entry, other, w);
    var sys := Now(h);
    ThenBehaved(setup, h, Receive(EndOfFile(1, None)));
    h := Then(setup, h, Receive(EndOfFile(1, None)));
    assert Now(h) == sys;
    ThenBehaved(setup, h, Receive(BeginFile(2)));
    h := Then(setup, h, Receive(BeginFile(2)));
  }

  // ---------------------------------------------------------------- a page that moves the active file

  /** A delta token for another file than the active one is ignored by the committer. */
  predicate IsToken(cmd: DiskCommitMsg)
  {
    cmd.DeltaMatch? || cmd.DeltaData?
  }

  /** The phase after some commands, where delta tokens may also be out of place. */
  function LooseAfter(p: Phase, cmds: seq<DiskCommitMsg>): Option<Phase>
    decreases |cmds|
  {
    if cmds == [] then Some(p)
    else match NextPhase(p, cmds[0])
      case None => if IsToken(cmds[0]) then LooseAfter(p, cmds[1..]) else None
      case Some(q) => LooseAfter(q, cmds[1..])
  }

  lemma {:induction false} InPlaceIsLoose(p: Phase, cmds: seq<DiskCommitMsg>)
    requires PhaseAfter(p, cmds).Some?
    ensures LooseAfter(p, cmds) == PhaseAfter(p, cmds)
    decreases |cmds|
  {
    if cmds != [] { InPlaceIsLoose(NextPhase(p, cmds[0]).value, cmds[1..]); }
  }

  lemma {:induction false} LooseAppend(p: Phase, a: seq<DiskCommitMsg>, b: seq<DiskCommitMsg>)
    requires LooseAfter(p, a).Some?
    ensures LooseAfter(p, a + b) == LooseAfter(LooseAfter(p, a).value, b)
    decreases |a|
  {
    if a == [] {
      assert a + b == b;
    } else {
      assert (a + b)[1..] == a[1..] + b;
      var q := if NextPhase(p, a[0]).Some? then NextPhase(p, a[0]).value else p;
      LooseAppend(q, a[1..], b);
    }
  }

  /** The committer holds, or has failed, the file that these commands lead to. */
  ghost predicate LeadsTo(sys: System, cmds: seq<DiskCommitMsg>, file: Phase)
  {
    LooseAfter(sys.phase, cmds) == Some(file) && CommitterFits(sys.committer, sys.phase, sys.reports) && !sys.refused
  }

  lemma LooseDispatch(c: FileCommitState, phase: Phase, reports: nat, check: bool, cmd: DiskCommitMsg, w: World)
    requires CommitterFits(c, phase, reports) && NextPhase(phase, cmd).None? && IsToken(cmd)
    ensures Dispatch(c, check, cmd, w) == Effect(c, [], None) && !Refuses(c, cmd)
  {
  }

  lemma LeadsOn(sys: System, setup: Setup, w: World, cmds: seq<DiskCommitMsg>, file: Phase)
    requires cmds != [] && cmds <= sys.queue && LeadsTo(sys, cmds, file)
    ensures LeadsTo(ConsumeStep(sys, setup, w), cmds[1..], file)
  {
    assert cmds[0] == sys.queue[0];
    if NextPhase(sys.phase, cmds[0]).Some? {
      DispatchFits(sys.committer, sys.phase, sys.reports, setup.check, cmds[0], w);
    } else {
      LooseDispatch(sys.committer, sys.phase, sys.reports, setup.check, cmds[0], w);
    }
  }

  /** The file streams on, but the table gives its index another path than it was begun with. */
  predicate Moved(sys: System, n: int, begun: Path, active: ActiveTransfer)
  {
    && sys.loop.Running? && sys.session.active == active && (active == FullOf(n) || active == DeltaOf(n))
    && n in sys.session.table && sys.session.table[n].path != begun
  }

  function BegunAs(n: int, begun: Path, active: ActiveTransfer): Phase
  {
    Inside(n, begun, active == FullOf(n))
  }

  /** Whatever arrives while the file streams on is queued for it or ignored. */
  lemma MovedMessage(s: SessionState, msg: SenderMsg, blockSizeOf: nat -> nat, n: int, begun: Path)
    requires Streams(s, n) && OnMessage(s, msg, blockSizeOf).s.active == s.active
    ensures
      var file := BegunAs(n, begun, s.active);
      LooseAfter(file, OnMessage(s, msg, blockSizeOf).cmds) == Some(file)
  {
    var file := BegunAs(n, begun, s.active);
    match msg
    case MatchToken(m, i) =>
      if m in s.table { MovedToken(s, m, DeltaMatch(s.table[m].path, i), blockSizeOf, n, begun); }
    case DataToken(m, data) =>
      if m in s.table { MovedToken(s, m, DeltaData(s.table[m].path, data), blockSizeOf, n, begun); }
    case EndOfFile(m, hash) =>
    case FileData(m, offset, data) =>
      if s.active == FullOf(m) { LooseOne(file, FileChunk(m, StreamChunk(offset, data, false))); }
    case DeleteMarker(m) => LooseOne(file, WriteDeleteMarker(m));
    case _ =>
  }

  lemma LooseOne(p: Phase, cmd: DiskCommitMsg)
    requires NextPhase(p, cmd) == Some(p) || (NextPhase(p, cmd).None? && IsToken(cmd))
    ensures LooseAfter(p, [cmd]) == Some(p)
  {
    assert [cmd][1..] == [];
  }

  lemma MovedToken(s: SessionState, m: int, cmd: DiskCommitMsg, blockSizeOf: nat -> nat, n: int, begun: Path)
    requires Streams(s, n) && m in s.table && IsToken(cmd)
    ensures
      var file := BegunAs(n, begun, s.active);
      LooseAfter(file, OnDelta(s, m, cmd, DeltaOf(m), blockSizeOf).cmds) == Some(file)
  {
    LooseOne(BegunAs(n, begun, s.active), cmd);
    assert [] + [cmd] == [cmd];
  }

  lemma LooseReact(sys: System, r: Reaction, file: Phase)
    requires LeadsTo(sys, sys.queue, file) && LooseAfter(file, r.cmds) == Some(file) && React(sys, r).loop.Running?
    ensures LeadsTo(React(sys, r), React(sys, r).queue, file)
  {
    LooseAppend(sys.phase, sys.queue, r.cmds);
    assert sys.queue + r.cmds + [] == sys.queue + r.cmds;
  }

  lemma MovedStep(sys: System, setup: Setup, a: Action, n: int, begun: Path, active: ActiveTransfer)
    requires Enabled(sys, a) && sys.loop.Running? && sys.session.active == active && Streams(sys.session, n)
    requires LeadsTo(sys, sys.queue, BegunAs(n, begun, active)) && Moved(Next(sys, setup, a), n, begun, active)
    ensures
      var sys' := Next(sys, setup, a);
      LeadsTo(sys', sys'.queue, BegunAs(n, begun, active))
  {
    var file := BegunAs(n, begun, active);
    match a
    case Receive(msg) =>
      MovedMessage(sys.session, msg, setup.blockSizeOf, n, begun);
      LooseReact(sys, OnMessage(sys.session, msg, setup.blockSizeOf), file);
    case Consume(w) => LeadsOn(sys, setup, w, sys.queue, file);
    case TakeAck =>
      OutcomeKeepsActive(sys.session, sys.acks[0]);
      var taken := sys.(acks := sys.acks[1..], mismatches := TakeAckStep(sys).mismatches);
      LooseReact(taken, OnOutcome(sys.session, sys.acks[0]), file);
    case Break =>
  }

  /** From step i on a page has moved the file that streams, and up to step j it streams on. */
  ghost predicate MovedFrom(states: seq<System>, actions: seq<Action>, i: nat, j: nat, n: int)
    requires i < j < |actions| < |states|
  {
    var s := states[i].session;
    && actions[i].Receive? && actions[i].msg.FilePage? && Streams(s, n) && n in s.table
    && KeepsPaths(states[..i + 1], actions[..i])
    && (forall t {:trigger Moved(states[t], n, s.table[n].path, s.active)} :: i < t <= j ==>
          Moved(states[t], n, s.table[n].path, s.active))
  }

  lemma RunPrefix(setup: Setup, states: seq<System>, actions: seq<Action>, i: nat)
    requires Run(setup, states, actions) && i <= |actions|
    ensures Run(setup, states[..i + 1], actions[..i])
  {
    var before, done := states[..i + 1], actions[..i];
    forall t | 0 <= t < i ensures StepAt(setup, before, done, t) {
      assert StepAt(setup, states, actions, t);
    }
  }

  lemma MovedStarts(setup: Setup, states: seq<System>, actions: seq<Action>, i: nat, n: int)
    requires Run(setup, states, actions) && i < |actions| && Streams(states[i].session, n) && states[i].loop.Running?
    requires n in states[i].session.table && KeepsPaths(states[..i + 1], actions[..i])
    ensures
      var s := states[i].session;
      LeadsTo(states[i], states[i].queue, BegunAs(n, s.table[n].path, s.active))
  {
    RunPrefix(setup, states, actions, i);
    LockstepAlways(setup, states[..i + 1], actions[..i], i);
    InPlaceIsLoose(states[i].phase, states[i].queue);
  }

  lemma {:induction false} MovedLeads(setup: Setup, states: seq<System>, actions: seq<Action>, i: nat, j: nat, n: int,
                                      t: nat)
    requires Run(setup, states, actions) && i < j < |actions| && MovedFrom(states, actions, i, j, n) && i <= t <= j
    ensures
      var s := states[i].session;
      LeadsTo(states[t], states[t].queue, BegunAs(n, s.table[n].path, s.active))
    decreases t
  {
    var s := states[i].session;
    if t == i {
      assert StepAt(setup, states, actions, i);
      MovedStarts(setup, states, actions, i, n);
    } else {
      MovedLeads(setup, states, actions, i, j, n, t - 1);
      assert Moved(states[t], n, s.table[n].path, s.active) && StepAt(setup, states, actions, t - 1);
      if t - 1 > i { assert Moved(states[t - 1], n, s.table[n].path, s.active); }
      MovedStep(states[t - 1], setup, actions[t - 1], n, s.table[n].path, s.active);
    }
  }

  predicate EndsAs(cmd: DiskCommitMsg, n: int, path: Path, full: bool)
  {
    if full then cmd.FileEnd? && cmd.ndx == n && cmd.path == path
    else cmd.DeltaEnd? && cmd.ndx == n && cmd.path == path
  }

  /** The end of the moved file is queued under the new path, and the session goes on. */
  lemma MovedEnd(sys: System, setup: Setup, n: int, hash: Option<string>, begun: Path, active: ActiveTransfer)
    requires Moved(sys, n, begun, active) && n !in sys.session.terminated
    ensures
      var sys' := ReceiveStep(sys, setup, EndOfFile(n, hash));
      && sys'.session.active == NoTransfer && |sys'.queue| == |sys.queue| + 1
      && sys'.queue[..|sys.queue|] == sys.queue
      && EndsAs(sys'.queue[|sys.queue|], n, sys.session.table[n].path, active == FullOf(n))
      && sys'.committer == sys.committer && sys'.phase == sys.phase && sys'.reports == sys.reports
      && sys'.refused == sys.refused
  {
    var r := OnEndOfFile(sys.session, n, hash, setup.blockSizeOf);
    assert |r.cmds| == 1 && r.replies == [] && !r.exit;
    assert sys.queue + r.cmds + [] == sys.queue + r.cmds;
  }

  lemma MovedQueued(setup: Setup, states: seq<System>, actions: seq<Action>, i: nat, j: nat, n: int,
                    hash: Option<string>)
    returns (begun: Path, path: Path)
    requires Run(setup, states, actions) && i < j < |actions| && MovedFrom(states, actions, i, j, n)
    requires n !in states[j].session.terminated && actions[j] == Receive(EndOfFile(n, hash))
    ensures states[j + 1].session.active == NoTransfer
    ensures EndQueued(states[j + 1], |states[j].queue|, n, begun, path, states[i].session.active)
  {
    var s := states[i].session;
    begun := s.table[n].path;
    MovedLeads(setup, states, actions, i, j, n, j);
    assert Moved(states[j], n, begun, s.active);
    path := states[j].session.table[n].path;
    assert StepAt(setup, states, actions, j);
    MovedEnd(states[j], setup, n, hash, begun, s.active);
  }

  /** An end under another path stands behind the commands that lead to the file. */
  ghost predicate EndQueued(sys: System, ahead: nat, n: int, begun: Path, path: Path, active: ActiveTransfer)
  {
    && ahead < |sys.queue| && EndsAs(sys.queue[ahead], n, path, active == FullOf(n)) && path != begun
    && LeadsTo(sys, sys.queue[..ahead], BegunAs(n, begun, active))
  }

  /** While what was queued before is taken, the committer stays on its way to the file. */
  lemma {:induction false} StillLeads(setup: Setup, states: seq<System>, actions: seq<Action>, from: nat, k: nat,
                                      before: seq<DiskCommitMsg>, file: Phase)
    requires Run(setup, states, actions) && from <= k < |states|
    requires before <= states[from].queue && LeadsTo(states[from], before, file)
    requires Consumes(actions, from, k) <= |before|
    ensures LeadsTo(states[k], before[Consumes(actions, from, k)..], file)
    decreases k
  {
    if k > from {
      StillLeads(setup, states, actions, from, k - 1, before, file);
      var taken := Consumes(actions, from, k - 1);
      assert StepAt(setup, states, actions, k - 1);
      QueueIsFifo(setup, states, actions, from, k - 1);
      PrefixDrop(before, states[from].queue, states[k - 1].queue, taken);
      LeadsNext(states[k - 1], setup, actions[k - 1], before, taken, file);
    }
  }

  lemma LeadsNext(sys: System, setup: Setup, a: Action, before: seq<DiskCommitMsg>, taken: nat, file: Phase)
    requires Enabled(sys, a) && taken <= |before| && before[taken..] <= sys.queue && LeadsTo(sys, before[taken..], file)
    requires a.Consume? ==> taken < |before|
    ensures LeadsTo(Next(sys, setup, a), before[if a.Consume? then taken + 1 else taken..], file)
  {
    QueueStep(sys, setup, a);
    if a.Consume? { LeadsOn(sys, setup, a.w, before[taken..], file); }
  }

  /** A committer that holds the file under another path, or has failed it, does nothing at such an end. */
  lemma ForeignEnd(c: FileCommitState, reports: nat, check: bool, n: int, begun: Path, cmd: DiskCommitMsg,
                   path: Path, full: bool, w: World)
    requires CommitterFits(c, Inside(n, begun, full), reports) && path != begun && EndsAs(cmd, n, path, full)
    ensures Dispatch(c, check, cmd, w) == Effect(c, [], None)
    ensures Refuses(c, cmd) <==> !c.Failed?
  {
  }

  lemma EndTaken(sys: System, setup: Setup, n: int, begun: Path, path: Path, active: ActiveTransfer, w: World)
    requires sys.queue != [] && LeadsTo(sys, [], BegunAs(n, begun, active)) && path != begun
    requires EndsAs(sys.queue[0], n, path, active == FullOf(n))
    ensures
      var sys' := ConsumeStep(sys, setup, w);
      && sys'.committer == sys.committer && sys'.acks == sys.acks && (sys'.refused <==> !sys.committer.Failed?)
  {
    ForeignEnd(sys.committer, sys.reports, setup.check, n, begun, sys.queue[0], path, active == FullOf(n), w);
  }

  lemma MovedTaken(setup: Setup, states: seq<System>, actions: seq<Action>, from: nat, k: nat, ahead: nat, n: int,
                   begun: Path, path: Path, active: ActiveTransfer)
    requires Run(setup, states, actions) && from <= k < |actions|
    requires EndQueued(states[from], ahead, n, begun, path, active)
    requires actions[k].Consume? && Consumes(actions, from, k) == ahead
    ensures states[k + 1].committer == states[k].committer && states[k + 1].acks == states[k].acks
    ensures states[k + 1].refused <==> !states[k].committer.Failed?
  {
    StillLeads(setup, states, actions, from, k, states[from].queue[..ahead], BegunAs(n, begun, active));
    QueueIsFifo(setup, states, actions, from, k);
    HeadOf(states[from].queue, ahead, states[k].queue);
    assert StepAt(setup, states, actions, k);
    EndTaken(states[k], setup, n, begun, path, active, actions[k].w);
  }

  /**
   * In every run: if the page of step i moves the file that streams to another path, the file is still moved and
   * unsettled when its end arrives in step j, and step k takes that end from the queue, then step k changes nothing
   * at the committer, reports nothing, and is refused unless storage has already failed the file. Any messages,
   * commands and outcomes may come in between; the session goes on as if the file had been committed.
   */
  lemma MovedFileIsRefused(setup: Setup, states: seq<System>, actions: seq<Action>, i: nat, j: nat, k: nat, n: int,
                           hash: Option<string>)
    requires Run(setup, states, actions) && i < j < k < |actions| && MovedFrom(states, actions, i, j, n)
    requires n !in states[j].session.terminated && actions[j] == Receive(EndOfFile(n, hash))
    requires actions[k].Consume? && Consumes(actions, j + 1, k) == |states[j].queue|
    ensures states[j + 1].session.active == NoTransfer
    ensures states[k + 1].committer == states[k].committer && states[k + 1].acks == states[k].acks
    ensures states[k + 1].refused <==> !states[k].committer.Failed?
  {
    var begun, path := MovedQueued(setup, states, actions, i, j, n, hash);
    MovedTaken(setup, states, actions, j + 1, k, |states[j].queue|, n, begun, path, states[i].session.active);
  }

  /** Such a page occurs in a run: file 1 is begun as `entry`, then a page gives its index to `other`. */
  lemma UnstableTableRefused(setup: Setup, entry: Entry, other: Entry, w: World) returns (h: History)
    requires w.prepareOk && SafePath(entry.path) && other.path != entry.path
    ensures Lived(setup, h) && Now(h).refused
  {
    h := OneBegun(setup, entry, w);
    var page := Receive(FilePage([PageItem(1, other, false)]));
    OnePage(Now(h).session.table, PageItem(1, other, false));
    ThenLived(setup, h, page);
    h := Then(setup, h, page);
    assert Now(h).session.table[1] == other && Now(h).queue == [];
    ThenLived(setup, h, Receive(EndOfFile(1, None)));
    h := Then(setup, h, Receive(EndOfFile(1, None)));
    assert Now(h).queue == [FileEnd(1, other.path, None)];
    ThenLived(setup, h, Consume(w));
    h := Then(setup, h, Consume(w));
  }

  lemma OneBegun(setup: Setup, entry: Entry, w: World) returns (h: History)
    requires w.prepareOk && SafePath(entry.path)
    ensures Lived(setup, h) && Now(h).queue == [] && Now(h).loop.Running?
    ensures Now(h).session == SessionState(1, 0, false, {}, map[1 := entry], FullOf(1), map[])
    ensures Active(Now(h).committer) && Now(h).committer.file.entry == entry
  {
    h := Requested(setup, START, 1, entry);
    ThenLived(setup, h, Receive(BeginFile(1)));
    h := Then(setup, h, Receive(BeginFile(1)));
    assert Now(h).queue == [FileBegin(1, entry)];
    ThenLived(setup, h, Consume(w));
    h := Then(setup, h, Consume(w));
  }

  // ---------------------------------------------------------------- a second redo

  /** One bracket of file 1 that ends with a wrong length, while no outcome has been handled yet. */
  ghost predicate Piled(sys: System, entry: Entry, m: nat)
  {
    && sys.session == SessionState(1, 0, false, {}, map[1 := entry], NoTransfer, map[])
    && sys.loop.Running? && sys.queue == [] && !Active(sys.committer) && !sys.committer.Committing?
    && |sys.acks| == m && (forall k :: 0 <= k < m ==> sys.acks[k] == FileAck(1, SizeMismatch))
    && sys.mismatches == multiset{}
  }

  /** Storage that prepares and publishes, and a writer that received another length. */
  predicate WrongLength(entry: Entry, w: World)
  {
    SafePath(entry.path) && w.prepareOk && w.report.ok && w.report.received != entry.size
  }

  /** File 1 is begun once more, and storage prepares it. */
  lemma PileBegins(setup: Setup, entry: Entry, w: World, h: History, m: nat) returns (r: History)
    requires WellBehaved(setup, h) && Piled(Now(h), entry, m) && WrongLength(entry, w)
    requires 1 in Known(h).asked && 1 !in Known(h).without
    ensures WellBehaved(setup, r) && Known(r) == Known(h).(streamed := Known(h).streamed + {1})
    ensures
      var file := ActiveFile(1, entry, None, FullFile, [], false);
      && Now(r).session == Now(h).session.(active := FullOf(1)) && Now(r).loop.Running?
      && Now(r).committer == FullActive(file) && Now(r).queue == []
      && Now(r).acks == Now(h).acks && Now(r).mismatches == multiset{}
  {
    ThenBehaved(setup, h, Receive(BeginFile(1)));
    r := Then(setup, h, Receive(BeginFile(1)));
    assert Now(r).queue == [FileBegin(1, entry)];
    ThenBehaved(setup, r, Consume(w));
    r := Then(setup, r, Consume(w));
    assert Now(h).acks + [] == Now(h).acks;
  }

  /** The end of the active file 1 arrives. */
  lemma EndArrives(sys: System, setup: Setup, entry: Entry)
    requires sys.session == SessionState(1, 0, false, {}, map[1 := entry], FullOf(1), map[]) && sys.loop.Running?
    ensures Next(sys, setup, Receive(EndOfFile(1, None)))
         == sys.(session := sys.session.(active := NoTransfer), queue := sys.queue + [FileEnd(1, entry.path, None)])
  {
    var r := OnMessage(sys.session, EndOfFile(1, None), setup.blockSizeOf);
    assert r == Reaction(sys.session.(active := NoTransfer), [FileEnd(1, entry.path, None)], [], false);
    assert sys.queue + r.cmds + [] == sys.queue + r.cmds && sys.sent + [] == sys.sent;
  }

  /** The committer finds another length than declared. */
  lemma EndFails(sys: System, setup: Setup, entry: Entry, w: World)
    requires sys.committer == FullActive(ActiveFile(1, entry, None, FullFile, [], false))
    requires sys.queue == [FileEnd(1, entry.path, None)] && WrongLength(entry, w)
    ensures
      var r := Next(sys, setup, Consume(w));
      && r.committer == Failed && r.queue == [] && r.acks == sys.acks + [FileAck(1, SizeMismatch)]
      && r.session == sys.session && r.loop == sys.loop && r.mismatches == sys.mismatches
  {
    assert sys.queue[1..] == [];
  }

  /** It ends with the wrong length. */
  lemma OneMorePiled(setup: Setup, entry: Entry, w: World, h: History, m: nat) returns (r: History)
    requires WellBehaved(setup, h) && Piled(Now(h), entry, m) && WrongLength(entry, w)
    requires 1 in Known(h).asked && 1 !in Known(h).without
    ensures WellBehaved(setup, r) && Piled(Now(r), entry, m + 1)
    ensures 1 in Known(r).asked && 1 !in Known(r).without
  {
    r := PileBegins(setup, entry, w, h, m);
    EndArrives(Now(r), setup, entry);
    ThenBehaved(setup, r, Receive(EndOfFile(1, None)));
    r := Then(setup, r, Receive(EndOfFile(1, None)));
    EndFails(Now(r), setup, entry, w);
    ThenBehaved(setup, r, Consume(w));
    r := Then(setup, r, Consume(w));
  }

  lemma {:induction false} Pile(setup: Setup, entry: Entry, w: World, m: nat) returns (h: History)
    requires WrongLength(entry, w)
    ensures WellBehaved(setup, h) && Piled(Now(h), entry, m)
    ensures 1 in Known(h).asked && 1 !in Known(h).without
  {
    if m == 0 {
      h := Requested(setup, START, 1, entry);
    } else {
      h := Pile(setup, entry, w, m - 1);
      h := OneMorePiled(setup, entry, w, h, m - 1);
    }
  }

  /** The outcomes are handled one after the other; none of them ends the loop. */
  lemma {:induction false} Drained(setup: Setup, h: History, m: nat, j: nat) returns (r: History)
    requires WellBehaved(setup, h) && Now(h).loop.Running? && !Now(h).session.transferDoneSeen && j <= m
    requires |Now(h).acks| == m && forall k :: 0 <= k < m ==> Now(h).acks[k] == FileAck(1, SizeMismatch)
    requires Now(h).mismatches == multiset{}
    ensures WellBehaved(setup, r) && Now(r).acks == Now(h).acks[j..] && Now(r).mismatches[1] == j
    ensures !Now(r).session.transferDoneSeen
  {
    if j == 0 {
      r := h;
    } else {
      r := Drained(setup, h, m, j - 1);
      ThenBehaved(setup, r, TakeAck);
      r := Then(setup, r, TakeAck);
    }
  }

  /**
   * The 8-bit retry counter wraps: after 257 mismatches of one index, all still unhandled when the last bracket
   * ends, a second redo is asked for, under a disciplined sender.
   */
  lemma SecondRedo(setup: Setup, entry: Entry, w: World) returns (h: History)
    requires WrongLength(entry, w)
    ensures WellBehaved(setup, h) && RedoCount(Now(h).sent, 1) == 2
  {
    h := Pile(setup, entry, w, 257);
    h := Drained(setup, h, 257, 257);
    var last := |h.states| - 1;
    LedgerAlways(setup, h.states, h.actions, last);
    assert IndexAt(h.states[last], 1);
  }
}
