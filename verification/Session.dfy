/** The receiver session: request ledger, active transfer, retry policy, and the commands it queues. */
module Session {
  import opened Bytes
  import opened DeltaStream
  import opened FileCommit

  datatype ActiveTransfer = NoTransfer | FullOf(ndx: int) | DeltaOf(ndx: int)

  /** Commands on the FIFO channel to the committer. */
  datatype DiskCommitMsg =
    | FileBegin(ndx: int, entry: Entry)
    | FileChunk(ndx: int, chunk: StreamChunk)
    | FileEnd(ndx: int, path: Path, sourceHash: Option<string>)
    | DeltaBegin(ndx: int, entry: Entry, blockSize: nat)
    | DeltaMatch(path: Path, blockIndex: nat)
    | DeltaData(path: Path, data: Bytes)
    | DeltaEnd(ndx: int, path: Path, sourceHash: Option<string>)
    | WriteDeleteMarker(ndx: int)
    | AbortFile
    | Shutdown

  /** One advertised entry and whether the receiver asks for its content. */
  datatype PageItem = PageItem(ndx: int, entry: Entry, request: bool)

  /**
   * Messages from the sender. `answers` names the request that a message without an index
   * settles; the session never looks at it.
   */
  datatype SenderMsg =
    | FilePage(items: seq<PageItem>)
    | FileListDone
    | DeleteMarker(ndx: int)
    | BeginFile(ndx: int)
    | FileData(ndx: int, offset: nat, data: Bytes)
    | MatchToken(ndx: int, blockIndex: nat)
    | DataToken(ndx: int, data: Bytes)
    | EndOfFile(ndx: int, sourceHash: Option<string>)
    | CreateDir
    | CreateSymlink(answers: int)
    | SetAcl
    | EntryError(ndx: int)
    | EntryErrorNoIndex(answers: int)
    | TransferDone

  datatype ReceiverMsg =
    | TransferRequest(ndx: int)
    | RequestsDone
    | EntryAck
    | SuccessAck(ndx: int)
    | Redo(ndx: int)
    | ErrorAck(ndx: int)

  datatype SessionState = SessionState(
    requested: nat, completed: nat, transferDoneSeen: bool, terminated: set<int>,
    table: map<int, Entry>, active: ActiveTransfer, attempts: map<int, byte>)

  const INITIAL := SessionState(0, 0, false, {}, map[], NoTransfer, map[])

  /** What a handler leaves behind: state, commands queued, replies sent, whether the loop ends. */
  datatype Reaction = Reaction(s: SessionState, cmds: seq<DiskCommitMsg>, replies: seq<ReceiverMsg>, exit: bool)

  // ---------------------------------------------------------------- specification

  predicate IsComplete(s: SessionState)
  {
    s.transferDoneSeen && s.completed >= s.requested
  }

  function Quiet(s: SessionState): Reaction
  {
    Reaction(s, [], [], false)
  }

  function RecordTerminal(s: SessionState, ndx: int): SessionState
  {
    if ndx in s.terminated then s
    else s.(terminated := s.terminated + {ndx}, completed := s.completed + 1)
  }

  function OnUnindexed(s: SessionState, replies: seq<ReceiverMsg>): Reaction
  {
    var s' := s.(completed := s.completed + 1);
    Reaction(s', [], replies, IsComplete(s'))
  }

  function OnBeginFull(s: SessionState, ndx: int): Reaction
  {
    if ndx !in s.table || ndx in s.terminated || s.active != NoTransfer then Quiet(s)
    else Reaction(s.(active := FullOf(ndx)), [FileBegin(ndx, s.table[ndx])], [], false)
  }

  function OnFileData(s: SessionState, ndx: int, chunk: StreamChunk): Reaction
  {
    if s.active != FullOf(ndx) then Quiet(s) else Reaction(s, [FileChunk(ndx, chunk)], [], false)
  }

  /** Whether a delta event for the index may proceed, and the begin command it may need first. */
  predicate DeltaAllowed(s: SessionState, ndx: int)
  {
    ndx in s.table && ndx !in s.terminated && (s.active == NoTransfer || s.active == DeltaOf(ndx))
  }

  function LazyBegin(s: SessionState, ndx: int, blockSizeOf: nat -> nat): seq<DiskCommitMsg>
    requires ndx in s.table
  {
    if s.active == NoTransfer then [DeltaBegin(ndx, s.table[ndx], blockSizeOf(s.table[ndx].size))] else []
  }

  function OnDelta(s: SessionState, ndx: int, cmd: DiskCommitMsg, next: ActiveTransfer,
                   blockSizeOf: nat -> nat): Reaction
  {
    if !DeltaAllowed(s, ndx) then Quiet(s)
    else Reaction(s.(active := next), LazyBegin(s, ndx, blockSizeOf) + [cmd], [], false)
  }

  function OnEndOfFile(s: SessionState, ndx: int, hash: Option<string>, blockSizeOf: nat -> nat): Reaction
  {
    if ndx !in s.table then Quiet(s)
    else if ndx !in s.terminated && s.active == FullOf(ndx) then
      Reaction(s.(active := NoTransfer), [FileEnd(ndx, s.table[ndx].path, hash)], [], false)
    else OnDelta(s, ndx, DeltaEnd(ndx, s.table[ndx].path, hash), NoTransfer, blockSizeOf)
  }

  function OnSourceFailure(s: SessionState, ndx: int): Reaction
  {
    var s' := RecordTerminal(s, ndx);
    var exit := s' != s && IsComplete(s');
    if s.active == FullOf(ndx) || s.active == DeltaOf(ndx) then
      Reaction(s'.(active := NoTransfer), [AbortFile], [], exit)
    else Reaction(s', [], [], exit)
  }

  function OnUnindexedFailure(s: SessionState): Reaction
  {
    var s' := s.(active := NoTransfer, completed := s.completed + 1);
    Reaction(s', [AbortFile], [], IsComplete(s'))
  }

  function Ingest(table: map<int, Entry>, items: seq<PageItem>): map<int, Entry>
    decreases |items|
  {
    if items == [] then table else Ingest(table[items[0].ndx := items[0].entry], items[1..])
  }

  function Asked(items: seq<PageItem>): seq<ReceiverMsg>
  {
    if items == [] then []
    else (if items[0].request then [TransferRequest(items[0].ndx)] else []) + Asked(items[1..])
  }

  function OnPage(s: SessionState, items: seq<PageItem>): Reaction
  {
    var asked := Asked(items);
    Reaction(s.(table := Ingest(s.table, items), requested := s.requested + |asked|), [], asked, false)
  }

  function OnTransferDone(s: SessionState): Reaction
  {
    var s' := s.(transferDoneSeen := true);
    Reaction(s', [], [], IsComplete(s'))
  }

  function OnMessage(s: SessionState, msg: SenderMsg, blockSizeOf: nat -> nat): Reaction
  {
    match msg
    case FilePage(items) => OnPage(s, items)
    case FileListDone => Reaction(s, [], [RequestsDone], false)
    case DeleteMarker(ndx) =>
      if ndx in s.table then Reaction(s, [WriteDeleteMarker(ndx)], [], false) else Quiet(s)
    case BeginFile(ndx) => OnBeginFull(s, ndx)
    case FileData(ndx, offset, data) => OnFileData(s, ndx, StreamChunk(offset, data, false))
    case MatchToken(ndx, i) =>
      if ndx !in s.table then Quiet(s)
      else OnDelta(s, ndx, DeltaMatch(s.table[ndx].path, i), DeltaOf(ndx), blockSizeOf)
    case DataToken(ndx, data) =>
      if ndx !in s.table then Quiet(s)
      else OnDelta(s, ndx, DeltaData(s.table[ndx].path, data), DeltaOf(ndx), blockSizeOf)
    case EndOfFile(ndx, hash) => OnEndOfFile(s, ndx, hash, blockSizeOf)
    case CreateDir => Reaction(s, [], [EntryAck], false)
    case CreateSymlink(_) => OnUnindexed(s, [EntryAck])
    case SetAcl => Quiet(s)
    case EntryError(ndx) => OnSourceFailure(s, ndx)
    case EntryErrorNoIndex(_) => OnUnindexedFailure(s)
    case TransferDone => OnTransferDone(s)
  }

  predicate Mismatch(outcome: FileOutcome)
  {
    outcome.HashMismatch? || outcome.SizeMismatch?
  }

  function Tries(attempts: map<int, byte>, ndx: int): byte
  {
    if ndx in attempts then attempts[ndx] else 0
  }

  /** The 8-bit counter wraps around. */
  function Count8(tries: byte): byte
  {
    (tries + 1) % 256
  }

  /** One retry for the first mismatch, then a terminal; a second terminal for an index is dropped. */
  function OnOutcome(s: SessionState, ack: FileAck): Reaction
  {
    var ndx := ack.ndx;
    var count := Count8(Tries(s.attempts, ndx));
    var s1 := if Mismatch(ack.outcome) then s.(attempts := s.attempts[ndx := count]) else s;
    if Mismatch(ack.outcome) && count == 1 then Reaction(s1, [], [Redo(ndx)], false)
    else if ndx in s.terminated then Quiet(s1)
    else
      var s2 := RecordTerminal(s1, ndx);
      Reaction(s2, [], [if ack.outcome.Success? then SuccessAck(ndx) else ErrorAck(ndx)], IsComplete(s2))
  }

  // ---------------------------------------------------------------- the session object

  class RemoteSessionState {
    const blockSizeOf: nat -> nat
    var requested: nat
    var completed: nat
    var transferDoneSeen: bool
    var terminated: set<int>
    var table: map<int, Entry>
    var active: ActiveTransfer
    var attempts: map<int, byte>

    function View(): SessionState
      reads this
    {
      SessionState(requested, completed, transferDoneSeen, terminated, table, active, attempts)
    }

    constructor (blockSizeOf: nat -> nat)
      ensures View() == INITIAL && this.blockSizeOf == blockSizeOf
    {
      this.blockSizeOf := blockSizeOf;
      requested, completed, transferDoneSeen, terminated := 0, 0, false, {};
      table, active, attempts := map[], NoTransfer, map[];
    }

    method Complete() returns (r: bool)
      ensures r == IsComplete(View())
    {
      r := transferDoneSeen && completed >= requested;
    }

    method Terminate(ndx: int) returns (first: bool)
      modifies this`terminated, this`completed
      ensures View() == RecordTerminal(old(View()), ndx)
      ensures first == (ndx !in old(terminated))
    {
      if ndx in terminated {
        return false;
      }
      terminated := terminated + {ndx};
      completed := completed + 1;
      return true;
    }

    method CompleteUnindexed() returns (exit: bool)
      modifies this`completed
      ensures Reaction(View(), [], [EntryAck], exit) == OnUnindexed(old(View()), [EntryAck])
    {
      completed := completed + 1;
      exit := Complete();
    }

    method BeginFull(ndx: int, entry: Entry) returns (ok: bool, cmds: seq<DiskCommitMsg>)
      requires ndx in table && table[ndx] == entry
      modifies this`active
      ensures Reaction(View(), cmds, [], false) == OnBeginFull(old(View()), ndx)
      ensures ok == (ndx !in terminated && old(active) == NoTransfer)
    {
      if ndx in terminated || active != NoTransfer {
        return false, [];
      }
      active := FullOf(ndx);
      return true, [FileBegin(ndx, entry)];
    }

    method CommitFull(ndx: int, path: Path, hash: Option<string>) returns (ok: bool, cmds: seq<DiskCommitMsg>)
      modifies this`active
      ensures ok == (ndx !in terminated && old(active) == FullOf(ndx))
      ensures active == (if ok then NoTransfer else old(active))
      ensures cmds == if ok then [FileEnd(ndx, path, hash)] else []
    {
      if ndx in terminated || active != FullOf(ndx) {
        return false, [];
      }
      active := NoTransfer;
      return true, [FileEnd(ndx, path, hash)];
    }

    /** Starts the delta stream for an index unless it already runs or must not. */
    method EnsureDeltaActive(ndx: int, entry: Entry) returns (ok: bool, cmds: seq<DiskCommitMsg>)
      requires ndx in table && table[ndx] == entry
      modifies this`active
      ensures ok == DeltaAllowed(old(View()), ndx)
      ensures active == (if ok then DeltaOf(ndx) else old(active))
      ensures cmds == if ok then LazyBegin(old(View()), ndx, blockSizeOf) else []
    {
      if ndx in terminated {
        return false, [];
      }
      match active {
        case NoTransfer =>
          active := DeltaOf(ndx);
          return true, [DeltaBegin(ndx, entry, blockSizeOf(entry.size))];
        case DeltaOf(running) =>
          return running == ndx, [];
        case FullOf(_) =>
          return false, [];
      }
    }

    method PushDelta(ndx: int, entry: Entry, cmd: DiskCommitMsg) returns (cmds: seq<DiskCommitMsg>)
      requires ndx in table && table[ndx] == entry
      modifies this`active
      ensures Reaction(View(), cmds, [], false) == OnDelta(old(View()), ndx, cmd, DeltaOf(ndx), blockSizeOf)
    {
      var ok, begin := EnsureDeltaActive(ndx, entry);
      cmds := if ok then begin + [cmd] else [];
    }

    method CommitDelta(ndx: int, entry: Entry, hash: Option<string>) returns (cmds: seq<DiskCommitMsg>)
      requires ndx in table && table[ndx] == entry
      modifies this`active
      ensures Reaction(View(), cmds, [], false)
           == OnDelta(old(View()), ndx, DeltaEnd(ndx, entry.path, hash), NoTransfer, blockSizeOf)
    {
      var ok, begin := EnsureDeltaActive(ndx, entry);
      if !ok {
        return [];
      }
      active := NoTransfer;
      cmds := begin + [DeltaEnd(ndx, entry.path, hash)];
    }

    method HandleSourceFailure(ndx: Option<int>) returns (exit: bool, cmds: seq<DiskCommitMsg>)
      modifies this`active, this`terminated, this`completed
      ensures Reaction(View(), cmds, [], exit) ==
              if ndx.Some? then OnSourceFailure(old(View()), ndx.value) else OnUnindexedFailure(old(View()))
    {
      cmds := [];
      if ndx.Some? {
        var first := Terminate(ndx.value);
        if active == FullOf(ndx.value) || active == DeltaOf(ndx.value) {
          active := NoTransfer;
          cmds := [AbortFile];
        }
        var complete := Complete();
        exit := first && complete;
      } else {
        active := NoTransfer;
        cmds := [AbortFile];
        exit := CompleteUnindexed();
      }
    }

    /** A mismatch at which the counter becomes 1 asks for a redo, any other is an error. */
    method RedoOrError(ndx: int) returns (ack: ReceiverMsg, terminal: bool)
      modifies this`attempts
      ensures
        var count := Count8(Tries(old(attempts), ndx));
        && attempts == old(attempts)[ndx := count] && terminal == (count != 1)
        && ack == if count == 1 then Redo(ndx) else ErrorAck(ndx)
    {
      var count := Count8(Tries(attempts, ndx));
      attempts := attempts[ndx := count];
      if count == 1 {
        return Redo(ndx), false;
      }
      return ErrorAck(ndx), true;
    }

    method HandleFileOutcome(ndx: int, outcome: FileOutcome) returns (exit: bool, replies: seq<ReceiverMsg>)
      modifies this`attempts, this`terminated, this`completed
      ensures Reaction(View(), [], replies, exit) == OnOutcome(old(View()), FileAck(ndx, outcome))
    {
      var ack, terminal := SuccessAck(ndx), true;
      match outcome {
        case Success =>
        case HashMismatch => ack, terminal := RedoOrError(ndx);
        case SizeMismatch => ack, terminal := RedoOrError(ndx);
        case HardError => ack := ErrorAck(ndx);
      }
      if !terminal {
        return false, [ack];
      }
      var first := Terminate(ndx);
      if !first {
        return false, [];
      }
      exit := Complete();
      replies := [ack];
    }

    /** Registers a page and asks for the entries whose content is wanted. */
    method IngestPage(items: seq<PageItem>) returns (replies: seq<ReceiverMsg>)
      modifies this`table, this`requested
      ensures Reaction(View(), [], replies, false) == OnPage(old(View()), items)
    {
      replies := [];
      for i := 0 to |items|
        invariant Ingest(table, items[i..]) == Ingest(old(table), items)
        invariant replies + Asked(items[i..]) == Asked(items)
        invariant requested == old(requested) + |replies|
        invariant View() == old(View()).(table := table, requested := requested)
      {
        var item := items[i];
        assert items[i..][0] == item && items[i..][1..] == items[i + 1..];
        table := table[item.ndx := item.entry];
        if item.request {
          Associate(replies, [TransferRequest(item.ndx)], Asked(items[i + 1..]));
          replies := replies + [TransferRequest(item.ndx)];
          requested := requested + 1;
        }
      }
    }

    /** One message of the receive loop. */
    method Receive(msg: SenderMsg) returns (cmds: seq<DiskCommitMsg>, replies: seq<ReceiverMsg>, exit: bool)
      modifies this
      ensures Reaction(View(), cmds, replies, exit) == OnMessage(old(View()), msg, blockSizeOf)
    {
      cmds, replies, exit := [], [], false;
      match msg {
        case FilePage(items) => replies := IngestPage(items);
        case FileListDone => replies := [RequestsDone];
        case DeleteMarker(ndx) =>
          if ndx in table { cmds := [WriteDeleteMarker(ndx)]; }
        case BeginFile(ndx) =>
          if ndx in table {
            var ok;
            ok, cmds := BeginFull(ndx, table[ndx]);
          }
        case FileData(ndx, offset, data) =>
          if active == FullOf(ndx) { cmds := [FileChunk(ndx, StreamChunk(offset, data, false))]; }
        case MatchToken(ndx, i) =>
          if ndx in table { cmds := PushDelta(ndx, table[ndx], DeltaMatch(table[ndx].path, i)); }
        case DataToken(ndx, data) =>
          if ndx in table { cmds := PushDelta(ndx, table[ndx], DeltaData(table[ndx].path, data)); }
        case EndOfFile(ndx, hash) =>
          if ndx in table {
            var ok;
            ok, cmds := CommitFull(ndx, table[ndx].path, hash);
            if !ok { cmds := CommitDelta(ndx, table[ndx], hash); }
          }
        case CreateDir => replies := [EntryAck];
        case SetAcl =>
        case CreateSymlink(_) =>
          exit := CompleteUnindexed();
          replies := [EntryAck];
        case EntryError(ndx) => exit, cmds := HandleSourceFailure(Some(ndx));
        case EntryErrorNoIndex(_) => exit, cmds := HandleSourceFailure(None);
        case TransferDone =>
          transferDoneSeen := true;
          exit := Complete();
      }
    }
  }
}
