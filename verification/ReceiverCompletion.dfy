/** When the receive loop may end. */
module ReceiverCompletion {
  import opened Bytes
  import opened FileCommit
  import opened Session
  import opened ReceiverSystem
  import opened ReceiverSafety

  // ---------------------------------------------------------------- a disciplined sender

  /**
   * What the sender and receiver have exchanged: indexes asked for, indexes settled by a
   * message without an index, indexes named in any other data message, and whether the file
   * list is over.
   */
  datatype Exchange = Exchange(asked: set<int>, without: set<int>, streamed: set<int>, listed: bool)

  const NOTHING := Exchange({}, {}, {}, false)

  function AskedSet(items: seq<PageItem>): set<int>
  {
    if items == [] then {} else (if items[0].request then {items[0].ndx} else {}) + AskedSet(items[1..])
  }

  function MessageIndex(msg: SenderMsg): Option<int>
  {
    match msg
    case DeleteMarker(ndx) => Some(ndx)
    case BeginFile(ndx) => Some(ndx)
    case FileData(ndx, _, _) => Some(ndx)
    case MatchToken(ndx, _) => Some(ndx)
    case DataToken(ndx, _) => Some(ndx)
    case EndOfFile(ndx, _) => Some(ndx)
    case EntryError(ndx) => Some(ndx)
    case _ => None
  }

  function Exchanged(x: Exchange, a: Action): Exchange
  {
    if !a.Receive? then x
    else match a.msg
      case FilePage(items) => x.(asked := x.asked + AskedSet(items))
      case FileListDone => x.(listed := true)
      case CreateSymlink(n) => x.(without := x.without + {n})
      case EntryErrorNoIndex(n) => x.(without := x.without + {n})
      case _ => if MessageIndex(a.msg).Some? then x.(streamed := x.streamed + {MessageIndex(a.msg).value}) else x
  }

  /** No index is requested twice within a page. */
  predicate DistinctRequests(items: seq<PageItem>)
  {
    items == [] || (DistinctRequests(items[1..]) && (items[0].request ==> items[0].ndx !in AskedSet(items[1..])))
  }

  /**
   * The sender answers only what was asked, settles an index either through its data messages
   * or once without an index, and says it is done only after the list is over. Nothing is
   * assumed about the order in which data and control messages overtake each other.
   */
  predicate Disciplined(x: Exchange, a: Action)
  {
    a.Receive? ==>
      match a.msg
      case FilePage(items) => !x.listed && DistinctRequests(items) && AskedSet(items) !! x.asked
      case TransferDone => x.listed
      case CreateSymlink(n) => n in x.asked && n !in x.without && n !in x.streamed
      case EntryErrorNoIndex(n) => n in x.asked && n !in x.without && n !in x.streamed
      case _ =>
        MessageIndex(a.msg).Some? ==>
          MessageIndex(a.msg).value in x.asked && MessageIndex(a.msg).value !in x.without
  }

  function CommandIndex(cmd: DiskCommitMsg): Option<int>
  {
    match cmd
    case FileBegin(ndx, _) => Some(ndx)
    case FileEnd(ndx, _, _) => Some(ndx)
    case DeltaBegin(ndx, _, _) => Some(ndx)
    case DeltaEnd(ndx, _, _) => Some(ndx)
    case WriteDeleteMarker(ndx) => Some(ndx)
    case _ => None
  }

  /** Every index still travelling belongs to a data message the sender sent. */
  ghost predicate Travelling(sys: System, streamed: set<int>)
  {
    && (forall cmd :: cmd in sys.queue && CommandIndex(cmd).Some? ==> CommandIndex(cmd).value in streamed)
    && (forall ack :: ack in sys.acks ==> ack.ndx in streamed)
    && (Active(sys.committer) ==> sys.committer.file.ndx in streamed)
  }

  ghost predicate Accounted(sys: System, x: Exchange)
  {
    && sys.session.requested == |x.asked| && sys.unindexed == |x.without|
    && sys.session.completed == |sys.session.terminated| + sys.unindexed
    && sys.session.terminated <= x.streamed <= x.asked && x.without <= x.asked && x.without !! x.streamed
    && (sys.session.transferDoneSeen ==> x.listed)
    && Travelling(sys, x.streamed)
  }

  lemma {:induction false} AskedCount(items: seq<PageItem>)
    requires DistinctRequests(items)
    ensures |AskedSet(items)| == |Asked(items)|
  {
    if items != [] { AskedCount(items[1..]); }
  }

  lemma CardAdd(a: set<int>, n: int)
    requires n !in a
    ensures |a + {n}| == |a| + 1
  {
  }

  lemma CardUnion(a: set<int>, b: set<int>)
    requires a !! b
    ensures |a + b| == |a| + |b|
  {
  }

  lemma CardFull(part: set<int>, whole: set<int>)
    requires part <= whole && |part| >= |whole|
    ensures part == whole
  {
    assert whole == part + (whole - part);
    CardUnion(part, whole - part);
    assert |whole - part| == 0;
  }

  lemma CommandsTravel(s: SessionState, msg: SenderMsg, blockSizeOf: nat -> nat, streamed: set<int>)
    requires MessageIndex(msg).Some? ==> MessageIndex(msg).value in streamed
    ensures forall cmd :: cmd in OnMessage(s, msg, blockSizeOf).cmds && CommandIndex(cmd).Some? ==>
              CommandIndex(cmd).value in streamed
    ensures OnMessage(s, msg, blockSizeOf).s.terminated <= s.terminated + streamed
  {
  }

  lemma AccountedPage(sys: System, setup: Setup, items: seq<PageItem>, x: Exchange)
    requires Accounted(sys, x) && Disciplined(x, Receive(FilePage(items)))
    ensures Accounted(ReceiveStep(sys, setup, FilePage(items)), Exchanged(x, Receive(FilePage(items))))
  {
    AskedCount(items);
    CardUnion(x.asked, AskedSet(items));
    assert sys.queue + [] == sys.queue;
  }

  lemma QueueTravels(sys: System, r: Reaction, streamed: set<int>, streamed': set<int>)
    requires Travelling(sys, streamed) && streamed <= streamed'
    requires forall cmd :: cmd in r.cmds && CommandIndex(cmd).Some? ==> CommandIndex(cmd).value in streamed'
    ensures Travelling(React(sys, r), streamed')
  {
  }

  lemma AccountedReceive(sys: System, setup: Setup, msg: SenderMsg, x: Exchange)
    requires Accounted(sys, x) && Disciplined(x, Receive(msg))
    ensures Accounted(ReceiveStep(sys, setup, msg), Exchanged(x, Receive(msg)))
  {
    if msg.FilePage? {
      AccountedPage(sys, setup, msg.items, x);
    } else {
      var x' := Exchanged(x, Receive(msg));
      var r := OnMessage(sys.session, msg, setup.blockSizeOf);
      CommandsTravel(sys.session, msg, setup.blockSizeOf, x'.streamed);
      MessageCounts(sys.session, msg, setup.blockSizeOf);
      QueueTravels(sys, r, x.streamed, x'.streamed);
      RequestedKept(sys.session, msg, setup.blockSizeOf);
      if msg.CreateSymlink? || msg.EntryErrorNoIndex? { CardAdd(x.without, msg.answers); }
    }
  }

  lemma RequestedKept(s: SessionState, msg: SenderMsg, blockSizeOf: nat -> nat)
    requires !msg.FilePage?
    ensures OnMessage(s, msg, blockSizeOf).s.requested == s.requested
    ensures OnMessage(s, msg, blockSizeOf).s.transferDoneSeen ==> s.transferDoneSeen || msg.TransferDone?
  {
  }

  lemma DispatchTravels(c: FileCommitState, check: bool, cmd: DiskCommitMsg, w: World, streamed: set<int>)
    requires Active(c) ==> c.file.ndx in streamed
    requires CommandIndex(cmd).Some? ==> CommandIndex(cmd).value in streamed
    ensures
      var e := Dispatch(c, check, cmd, w);
      && (forall ack :: ack in e.acks ==> ack.ndx in streamed)
      && (Active(e.state) ==> e.state.file.ndx in streamed)
  {
  }

  lemma AccountedConsume(sys: System, setup: Setup, w: World, x: Exchange)
    requires Accounted(sys, x) && sys.queue != []
    ensures Accounted(ConsumeStep(sys, setup, w), x)
  {
    DispatchTravels(sys.committer, setup.check, sys.queue[0], w, x.streamed);
  }

  lemma AccountedAck(sys: System, x: Exchange)
    requires Accounted(sys, x) && sys.acks != []
    ensures Accounted(TakeAckStep(sys), x)
  {
    var ack := sys.acks[0];
    OutcomeCounts(sys.session, ack);
    OutcomeKeepsActive(sys.session, ack);
    var sys' := sys.(acks := sys.acks[1..], mismatches := TakeAckStep(sys).mismatches);
    assert Travelling(sys', x.streamed);
    QueueTravels(sys', OnOutcome(sys.session, ack), x.streamed, x.streamed);
  }

  lemma AccountedBreak(sys: System, x: Exchange)
    requires Accounted(sys, x)
    ensures Accounted(BreakStep(sys), x)
  {
  }

  lemma AccountedKept(sys: System, setup: Setup, a: Action, x: Exchange)
    requires Accounted(sys, x) && Enabled(sys, a) && Disciplined(x, a)
    ensures Accounted(Next(sys, setup, a), Exchanged(x, a))
  {
    match a
    case Receive(msg) => AccountedReceive(sys, setup, msg, x);
    case Consume(w) => AccountedConsume(sys, setup, w, x);
    case TakeAck => AccountedAck(sys, x);
    case Break => AccountedBreak(sys, x);
  }

  predicate ExchangedAt(actions: seq<Action>, xs: seq<Exchange>, i: nat)
    requires i < |actions| < |xs|
  {
    xs[i + 1] == Exchanged(xs[i], actions[i])
  }

  /** A run together with what has been exchanged in it. */
  ghost predicate ExchangeRun(setup: Setup, states: seq<System>, actions: seq<Action>, xs: seq<Exchange>)
  {
    && Run(setup, states, actions) && |xs| == |states| && xs[0] == NOTHING
    && forall i {:trigger ExchangedAt(actions, xs, i)} :: 0 <= i < |actions| ==> ExchangedAt(actions, xs, i)
  }

  /** The same under a disciplined sender. */
  ghost predicate DisciplinedRun(setup: Setup, states: seq<System>, actions: seq<Action>, xs: seq<Exchange>)
  {
    && ExchangeRun(setup, states, actions, xs)
    && forall i {:trigger Disciplined(xs[i], actions[i])} :: 0 <= i < |actions| ==> Disciplined(xs[i], actions[i])
  }

  lemma {:induction false} AccountedAlways(setup: Setup, states: seq<System>, actions: seq<Action>, xs: seq<Exchange>,
                                           k: nat)
    requires DisciplinedRun(setup, states, actions, xs) && k < |states|
    ensures Accounted(states[k], xs[k])
  {
    if k > 0 {
      AccountedAlways(setup, states, actions, xs, k - 1);
      assert StepAt(setup, states, actions, k - 1) && ExchangedAt(actions, xs, k - 1);
      assert Disciplined(xs[k - 1], actions[k - 1]);
      AccountedKept(states[k - 1], setup, actions[k - 1], xs[k - 1]);
    }
  }

  /**
   * The loop leaves through its completion break only when the list is over and every
   * requested index has reached a terminal, however early TransferDone overtakes file data;
   * and it is still running only while some of that is missing.
   */
  lemma LeavesWhenSettled(setup: Setup, states: seq<System>, actions: seq<Action>, xs: seq<Exchange>, k: nat)
    requires DisciplinedRun(setup, states, actions, xs) && k < |states|
    ensures states[k].loop.Finished? ==>
              xs[k].listed && states[k].session.terminated + xs[k].without == xs[k].asked
    ensures states[k].loop.Running? && states[k].session.transferDoneSeen ==>
              states[k].session.terminated + xs[k].without != xs[k].asked
  {
    AccountedAlways(setup, states, actions, xs, k);
    ExitAlways(setup, states, actions, k);
    var settled := states[k].session.terminated + xs[k].without;
    CardUnion(states[k].session.terminated, xs[k].without);
    if states[k].loop.Finished? {
      CardFull(settled, xs[k].asked);
    } else if states[k].loop.Running? && states[k].session.transferDoneSeen {
      assert |settled| < |xs[k].asked|;
    }
  }

  /** At any moment a TransferDone ends the loop if and only if everything asked for so far is settled. */
  lemma DoneLeavesIff(sys: System, setup: Setup, x: Exchange)
    requires Accounted(sys, x) && sys.loop.Running?
    ensures ReceiveStep(sys, setup, TransferDone).loop.Finished? <==> sys.session.terminated + x.without == x.asked
  {
    CardUnion(sys.session.terminated, x.without);
    if sys.session.completed >= sys.session.requested { CardFull(sys.session.terminated + x.without, x.asked); }
  }
}
