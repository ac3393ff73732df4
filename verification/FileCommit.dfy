/**
 * The life of one file on the receiving side: begin, stream, commit or abort. Answers of the
 * storage engine are parameters of each command.
 */
module FileCommit {
  import opened Bytes
  import opened Delta
  import opened Reconstruct
  import opened DeltaStream

  datatype Path = Path(absolute: bool, components: seq<string>)

  predicate SafePath(p: Path)
  {
    !p.absolute && ".." !in p.components
  }

  datatype Entry = Entry(path: Path, size: nat, isDir: bool)

  datatype FileOutcome = Success | HashMismatch | SizeMismatch | HardError
  datatype FileAck = FileAck(ndx: int, outcome: FileOutcome)

  datatype FileTransferMode = FullTransfer | DeltaTransfer
  datatype ActiveFileMode = FullFile | DeltaFile(ctx: DeltaCtx)

  /** `sent` is what the writer has been given; `writerClosed` says it stopped taking chunks. */
  datatype ActiveFile = ActiveFile(
    ndx: int, entry: Entry, basis: Option<Bytes>, mode: ActiveFileMode, sent: seq<StreamChunk>, writerClosed: bool)

  datatype FileCommitState =
    | Idle
    | FullActive(file: ActiveFile)
    | DeltaActive(file: ActiveFile)
    | Committing
    | Failed
    | Completed

  datatype BasisProbe = Found(content: Bytes) | Missing | ProbeFailed
  datatype WriteReport = WriteReport(ok: bool, received: nat, ended: bool, digest: string)

  /** What the storage answers while one command is handled. */
  datatype World = World(
    basis: BasisProbe, prepareOk: bool, readOk: bool, writerAlive: bool, report: WriteReport, publishOk: bool)

  /** The new state, the outcomes reported and the file published by one command. */
  datatype Effect = Effect(state: FileCommitState, acks: seq<FileAck>, published: Option<ActiveFile>)

  predicate Active(s: FileCommitState)
  {
    s.FullActive? || s.DeltaActive?
  }

  // ---------------------------------------------------------------- specification

  function Fail(ndx: int): Effect
  {
    Effect(Failed, [FileAck(ndx, HardError)], None)
  }

  function BasisSize(probe: BasisProbe, entry: Entry): nat
  {
    if probe.Found? then |probe.content| else entry.size
  }

  function Begin(s: FileCommitState, ndx: int, entry: Entry, deltaBlockSize: Option<nat>, w: World): Effect
  {
    if Active(s) || s.Committing? then Effect(s, [], None)
    else if !SafePath(entry.path) || (deltaBlockSize.Some? && w.basis.ProbeFailed?) || !w.prepareOk then Fail(ndx)
    else match deltaBlockSize
      case None => Effect(FullActive(ActiveFile(ndx, entry, None, FullFile, [], false)), [], None)
      case Some(bs) =>
        var basis := if w.basis.Found? then Some(w.basis.content) else None;
        var mode := DeltaFile(StartCtx(bs, BasisSize(w.basis, entry)));
        Effect(DeltaActive(ActiveFile(ndx, entry, basis, mode, [], false)), [], None)
  }

  /** Hands a chunk to the writer; a closed writer takes nothing more. */
  function Give(file: ActiveFile, chunk: StreamChunk, w: World): ActiveFile
  {
    if w.writerAlive && !file.writerClosed then file.(sent := file.sent + [chunk]) else file.(writerClosed := true)
  }

  function PushFull(s: FileCommitState, ndx: int, chunk: StreamChunk, w: World): FileCommitState
  {
    if s.FullActive? && s.file.ndx == ndx then FullActive(Give(s.file, chunk, w)) else s
  }

  /** An exact basis range, if the read succeeds. */
  function ReadBasis(basis: Option<Bytes>, p: PendingBasis, w: World): Option<Bytes>
  {
    if w.readOk && basis.Some? && p.offset + p.len <= |basis.value| then Some(basis.value[p.offset..p.offset + p.len])
    else None
  }

  /** Sends the pending basis range; None when the read or the writer fails. */
  function FlushBasis(file: ActiveFile, w: World): Option<ActiveFile>
  {
    match file.mode
    case FullFile => Some(file)
    case DeltaFile(ctx) =>
      match ctx.pendingBasis
      case None => Some(file)
      case Some(p) =>
        var data := ReadBasis(file.basis, p, w);
        var flushed := file.(mode := DeltaFile(ctx.(pendingBasis := None)));
        if data.None? || !w.writerAlive || file.writerClosed then None
        else Some(Give(flushed, StreamChunk(p.writeOffset, data.value, p.offset == p.writeOffset), w))
  }

  function PushDelta(s: FileCommitState, path: Path, token: DeltaToken, w: World): Effect
  {
    if !s.DeltaActive? || s.file.entry.path != path || !s.file.mode.DeltaFile? then Effect(s, [], None)
    else
      var ctx := s.file.mode.ctx;
      var step := ctx.reconstructor.Push(token);
      var moved := DeltaFile(Advanced(ctx, step));
      if Coalesces(ctx, step) then Effect(DeltaActive(s.file.(mode := moved)), [], None)
      else match FlushBasis(s.file, w)
        case None => Fail(s.file.ndx)
        case Some(file) =>
          var next := if step.Ready? then Give(file, StreamChunk(ctx.writePos, step.bytes, false), w) else file;
          Effect(DeltaActive(next.(mode := moved)), [], None)
  }

  /** Checks length and source digest before publishing. */
  function Finalize(check: bool, size: nat, sourceHash: Option<string>, report: WriteReport,
                    publishOk: bool): FileOutcome
  {
    if !report.ok then
      if report.received > size || (report.ended && report.received < size) then SizeMismatch else HardError
    else if report.received != size then SizeMismatch
    else if check && sourceHash.Some? && report.digest != sourceHash.value then HashMismatch
    else if !publishOk then HardError
    else Success
  }

  predicate CommitMatches(s: FileCommitState, ndx: int, path: Path, expected: FileTransferMode)
  {
    && Active(s) && s.file.ndx == ndx && s.file.entry.path == path
    && (expected == DeltaTransfer <==> s.file.mode.DeltaFile?)
  }

  /** The effect of finalizing a file whose writes are all sent. */
  function Concluded(file: ActiveFile, check: bool, sourceHash: Option<string>, w: World): Effect
  {
    var outcome := Finalize(check, file.entry.size, sourceHash, w.report, w.publishOk);
    if outcome.Success? then Effect(Completed, [FileAck(file.ndx, outcome)], Some(file))
    else Effect(Failed, [FileAck(file.ndx, outcome)], None)
  }

  function Commit(s: FileCommitState, check: bool, ndx: int, path: Path, sourceHash: Option<string>,
                  expected: FileTransferMode, w: World): Effect
  {
    if !CommitMatches(s, ndx, path, expected) then Effect(s, [], None)
    else match (if s.DeltaActive? then FlushBasis(s.file, w) else Some(s.file))
      case None => Fail(ndx)
      case Some(file) => Concluded(file, check, sourceHash, w)
  }

  // ---------------------------------------------------------------- the committer

  class FileCommitter {
    const check: bool
    var state: FileCommitState
    var acks: seq<FileAck>
    var published: seq<ActiveFile>
    var filesTransferred: nat
    var dirsCreated: nat
    var bytesTransferred: nat

    constructor (check: bool)
      ensures this.check == check && state == Idle && acks == [] && published == []
      ensures filesTransferred == dirsCreated == bytesTransferred == 0
    {
      this.check := check;
      state, acks, published := Idle, [], [];
      filesTransferred, dirsCreated, bytesTransferred := 0, 0, 0;
    }

    /** The fields after a command with the given effect. */
    twostate predicate Did(e: Effect)
      reads this
    {
      && state == e.state
      && acks == old(acks) + e.acks
      && published == old(published) + (if e.published.Some? then [e.published.value] else [])
    }

    /** A published file adds its size and one file or directory to the counters; nothing else moves them. */
    twostate predicate Counted(file: Option<ActiveFile>)
      reads this
    {
      match file
      case None =>
        && filesTransferred == old(filesTransferred) && dirsCreated == old(dirsCreated)
        && bytesTransferred == old(bytesTransferred)
      case Some(f) =>
        && bytesTransferred == old(bytesTransferred) + f.entry.size
        && dirsCreated == old(dirsCreated) + (if f.entry.isDir then 1 else 0)
        && filesTransferred == old(filesTransferred) + (if f.entry.isDir then 0 else 1)
    }

    method BeginFile(ndx: int, entry: Entry, deltaBlockSize: Option<nat>, w: World)
      modifies this`state, this`acks
      ensures Did(Begin(old(state), ndx, entry, deltaBlockSize, w))
    {
      if Active(state) || state.Committing? {
        return;
      }
      if !SafePath(entry.path) {
        state := Failed;
        Report(ndx, HardError);
        return;
      }
      var basisSize := 0;
      var basis := None;
      if deltaBlockSize.Some? {
        match w.basis {
          case Found(content) => basis, basisSize := Some(content), |content|;
          case Missing => basisSize := entry.size;
          case ProbeFailed =>
            state := Failed;
            Report(ndx, HardError);
            return;
        }
      }
      if !w.prepareOk {
        state := Failed;
        Report(ndx, HardError);
        return;
      }
      if deltaBlockSize.Some? {
        var ctx := StartCtx(deltaBlockSize.value, basisSize);
        state := DeltaActive(ActiveFile(ndx, entry, basis, DeltaFile(ctx), [], false));
      } else {
        state := FullActive(ActiveFile(ndx, entry, None, FullFile, [], false));
      }
    }

    method PushFullChunk(ndx: int, chunk: StreamChunk, w: World)
      modifies this`state
      ensures Did(Effect(PushFull(old(state), ndx, chunk, w), [], None))
    {
      if !state.FullActive? || state.file.ndx != ndx {
        return;
      }
      var active := SendChunk(state.file, chunk, w);
      state := FullActive(active);
    }

    method PushDeltaToken(path: Path, token: DeltaToken, w: World)
      modifies this`state, this`acks
      ensures Did(PushDelta(old(state), path, token, w))
    {
      if !state.DeltaActive? || state.file.entry.path != path || !state.file.mode.DeltaFile? {
        return;
      }
      var active := state.file;
      var delta := active.mode.ctx;
      var step := delta.reconstructor.Push(token);
      if step.NeedBasis? && delta.pendingBasis.Some? {
        var p := delta.pendingBasis.value;
        if p.offset + p.len == step.offset && p.len + step.len <= MAX_READ {
          delta := delta.(pendingBasis := Some(p.(len := p.len + step.len)));
          delta := delta.(writePos := delta.writePos + step.len);
          state := DeltaActive(active.(mode := DeltaFile(delta)));
          return;
        }
      }
      var flushed := FlushPending(active, w);
      if flushed.None? {
        state := Failed;
        Report(active.ndx, HardError);
        return;
      }
      active := flushed.value;
      match step {
        case NeedBasis(offset, len) =>
          delta := delta.(pendingBasis := Some(PendingBasis(offset, len, delta.writePos)));
          delta := delta.(writePos := delta.writePos + len);
        case Ready(data) =>
          var at := delta.writePos;
          delta := delta.(pendingBasis := None, writePos := delta.writePos + |data|);
          active := SendChunk(active, StreamChunk(at, data, false), w);
      }
      state := DeltaActive(active.(mode := DeltaFile(delta)));
    }

    method CommitFile(ndx: int, path: Path, sourceHash: Option<string>, expected: FileTransferMode, w: World)
      modifies this
      ensures Did(Commit(old(state), check, ndx, path, sourceHash, expected, w))
      ensures Counted(Commit(old(state), check, ndx, path, sourceHash, expected, w).published)
    {
      if !Active(state) {
        return;
      }
      var mode := if state.file.mode.DeltaFile? then DeltaTransfer else FullTransfer;
      if state.file.ndx != ndx || state.file.entry.path != path || mode != expected {
        return;
      }
      CommitActive(sourceHash, w);
    }

    /** Flushes the pending basis read of a delta file, then finalizes. */
    method CommitActive(sourceHash: Option<string>, w: World)
      requires Active(state)
      modifies this
      ensures
        var e := Commit(old(state), check, old(state).file.ndx, old(state).file.entry.path, sourceHash,
                        if old(state).file.mode.DeltaFile? then DeltaTransfer else FullTransfer, w);
        Did(e) && Counted(e.published)
    {
      var active := state.file;
      if state.DeltaActive? {
        var flushed := FlushPending(active, w);
        if flushed.None? {
          state := Failed;
          Report(active.ndx, HardError);
          return;
        }
        active := flushed.value;
      }
      Conclude(active, sourceHash, w);
    }

    /** Finalizes a file whose writes are all sent, and reports how that went. */
    method Conclude(active: ActiveFile, sourceHash: Option<string>, w: World)
      modifies this
      ensures Did(Concluded(active, check, sourceHash, w))
      ensures Counted(Concluded(active, check, sourceHash, w).published)
    {
      state := Committing;
      var outcome := FinalizeFile(active, sourceHash, w);
      state := if outcome.Success? then Completed else Failed;
      Report(active.ndx, outcome);
    }

    method FinalizeFile(active: ActiveFile, sourceHash: Option<string>, w: World) returns (outcome: FileOutcome)
      modifies this`published, this`filesTransferred, this`dirsCreated, this`bytesTransferred
      ensures outcome == Finalize(check, active.entry.size, sourceHash, w.report, w.publishOk)
      ensures published == old(published) + (if outcome.Success? then [active] else [])
      ensures Counted(if outcome.Success? then Some(active) else None)
    {
      var size := active.entry.size;
      if !w.report.ok {
        if w.report.received > size || (w.report.ended && w.report.received < size) {
          return SizeMismatch;
        }
        return HardError;
      }
      if w.report.received != size {
        return SizeMismatch;
      }
      if check && sourceHash.Some? && w.report.digest != sourceHash.value {
        return HashMismatch;
      }
      if !w.publishOk {
        return HardError;
      }
      published := published + [active];
      if active.entry.isDir {
        dirsCreated := dirsCreated + 1;
      } else {
        filesTransferred := filesTransferred + 1;
      }
      bytesTransferred := bytesTransferred + size;
      return Success;
    }

    method Abort()
      modifies this`state
      ensures Did(Effect(Idle, [], None))
    {
      state := Idle;
    }

    method Report(ndx: int, outcome: FileOutcome)
      modifies this`acks
      ensures acks == old(acks) + [FileAck(ndx, outcome)]
    {
      acks := acks + [FileAck(ndx, outcome)];
    }
  }

  method SendChunk(file: ActiveFile, chunk: StreamChunk, w: World) returns (r: ActiveFile)
    ensures r == Give(file, chunk, w)
  {
    r := file;
    if w.writerAlive && !r.writerClosed {
      r := r.(sent := r.sent + [chunk]);
    } else {
      r := r.(writerClosed := true);
    }
  }

  method FlushPending(file: ActiveFile, w: World) returns (r: Option<ActiveFile>)
    ensures r == FlushBasis(file, w)
  {
    if !file.mode.DeltaFile? || file.mode.ctx.pendingBasis.None? {
      return Some(file);
    }
    var p := file.mode.ctx.pendingBasis.value;
    var data := ReadBasis(file.basis, p, w);
    if data.None? || !w.writerAlive || file.writerClosed {
      return None;
    }
    var taken := file.(mode := DeltaFile(file.mode.ctx.(pendingBasis := None)));
    var flushed := SendChunk(taken, StreamChunk(p.writeOffset, data.value, p.offset == p.writeOffset), w);
    return Some(flushed);
  }

  // ---------------------------------------------------------------- what a success means

  /** Whatever went before, a commit publishes only content of the declared length and the wanted digest. */
  lemma PublishedIsChecked(s: FileCommitState, check: bool, ndx: int, path: Path, sourceHash: Option<string>,
                           expected: FileTransferMode, w: World, digest: Bytes -> string)
    ensures
      var e := Commit(s, check, ndx, path, sourceHash, expected, w);
      e.published.Some? && Honest(w.report, e.published.value, digest) ==>
        var content := Content(e.published.value.sent);
        && e.acks == [FileAck(ndx, Success)] && e.state == Completed
        && CommitMatches(s, ndx, path, expected) && |content| == s.file.entry.size
        && (check && sourceHash.Some? ==> digest(content) == sourceHash.value)
    ensures
      var e := Commit(s, check, ndx, path, sourceHash, expected, w);
      e.published.Some? <==> FileAck(ndx, Success) in e.acks
  {
  }

  /** A writer that reports success took every chunk and tells their length and digest truly. */
  ghost predicate Honest(report: WriteReport, file: ActiveFile, digest: Bytes -> string)
  {
    report.ok ==>
      && !file.writerClosed
      && report.received == |Content(file.sent)| && report.digest == digest(Content(file.sent))
  }

  /** The state after a list of tokens for one path, whatever the storage answers. */
  function PushDeltaAll(s: FileCommitState, path: Path, tokens: seq<DeltaToken>, worlds: seq<World>): FileCommitState
    requires |worlds| == |tokens|
    decreases |tokens|
  {
    if tokens == [] then s
    else PushDeltaAll(PushDelta(s, path, tokens[0], worlds[0]).state, path, tokens[1..], worlds[1..])
  }

  /** The file is a delta in progress over a basis of the size its reconstructor assumes. */
  predicate Streaming(file: ActiveFile, basis: Bytes)
  {
    && file.basis == Some(basis) && file.mode.DeltaFile?
    && file.mode.ctx.reconstructor.basisSize == |basis| && InBasis(file.mode.ctx)
  }

  lemma FlushGives(file: ActiveFile, basis: Bytes, w: World)
    requires Streaming(file, basis) && FlushBasis(file, w).Some?
    ensures
      var flushed := FlushBasis(file, w).value;
      && flushed.sent == file.sent + Flushed(file.mode.ctx, basis)
      && flushed.writerClosed == file.writerClosed
      && flushed == file.(sent := flushed.sent, mode := flushed.mode)
  {
  }

  lemma PushGives(file: ActiveFile, basis: Bytes, token: DeltaToken, w: World)
    requires Streaming(file, basis)
    ensures
      var s := PushDelta(DeltaActive(file), file.entry.path, token, w).state;
      var step := file.mode.ctx.reconstructor.Push(token);
      s == Failed ||
      (&& s.DeltaActive? && Streaming(s.file, basis) && s.file.entry == file.entry && s.file.ndx == file.ndx
       && s.file.mode.ctx == Advanced(file.mode.ctx, step)
       && (s.file.writerClosed || (!file.writerClosed && s.file.sent == file.sent + Sent(file.mode.ctx, basis, step))))
  {
    var step := file.mode.ctx.reconstructor.Push(token);
    if !Coalesces(file.mode.ctx, step) && FlushBasis(file, w).Some? {
      FlushGives(file, basis, w);
    }
  }

  /** Whatever fails on the way, a stream that is still healthy has sent what the fast form sends. */
  lemma {:induction false} StreamTracks(file: ActiveFile, basis: Bytes, tokens: seq<DeltaToken>, worlds: seq<World>)
    requires Streaming(file, basis) && |worlds| == |tokens|
    ensures
      var s := PushDeltaAll(DeltaActive(file), file.entry.path, tokens, worlds);
      s == Failed ||
      (&& s.DeltaActive? && Streaming(s.file, basis) && s.file.entry == file.entry && s.file.ndx == file.ndx
       && (s.file.writerClosed
           || (!file.writerClosed
               && s.file.sent + Flushed(s.file.mode.ctx, basis)
                  == file.sent + StreamAll(file.mode.ctx, basis, tokens))))
    decreases |tokens|
  {
    if tokens != [] {
      var s := PushDelta(DeltaActive(file), file.entry.path, tokens[0], worlds[0]).state;
      PushGives(file, basis, tokens[0], worlds[0]);
      if s.DeltaActive? {
        var step := file.mode.ctx.reconstructor.Push(tokens[0]);
        StreamTracks(s.file, basis, tokens[1..], worlds[1..]);
        Associate(file.sent, Sent(file.mode.ctx, basis, step), StreamAll(s.file.mode.ctx, basis, tokens[1..]));
      } else {
        FailedStays(file.entry.path, tokens[1..], worlds[1..]);
      }
    }
  }

  lemma {:induction false} FailedStays(path: Path, tokens: seq<DeltaToken>, worlds: seq<World>)
    requires |worlds| == |tokens|
    ensures PushDeltaAll(Failed, path, tokens, worlds) == Failed
    decreases |tokens|
  {
    if tokens != [] { FailedStays(path, tokens[1..], worlds[1..]); }
  }

  // ---------------------------------------------------------------- what a delta file holds

  /** The content that references point into; a missing basis has none. */
  function BasisBytes(basis: Option<Bytes>): (r: Bytes)
  {
    if basis.Some? then basis.value else []
  }

  /** A delta file with a basis that has taken these tokens: what it sent and what is pending is what they rebuild. */
  ghost predicate Built(file: ActiveFile, basis: Bytes, bs: nat, tokens: seq<DeltaToken>)
  {
    && Streaming(file, basis) && file.mode.ctx.reconstructor.blockSize == bs && Placed(file.mode.ctx)
    && (file.writerClosed
        || Content(file.sent) + PendingBytes(file.mode.ctx, basis) == Rebuild(basis, bs, tokens))
  }

  /** The same without a basis: a range that is pending can never be read. */
  ghost predicate BuiltBare(file: ActiveFile, bs: nat, tokens: seq<DeltaToken>)
  {
    && file.basis.None? && file.mode.DeltaFile? && file.mode.ctx.reconstructor.blockSize == bs
    && (file.mode.ctx.pendingBasis.None? ==>
          file.writerClosed || Content(file.sent) == Rebuild([], bs, tokens))
  }

  ghost predicate Taken(file: ActiveFile, basis: Option<Bytes>, bs: nat, tokens: seq<DeltaToken>)
  {
    match basis
    case Some(b) => Built(file, b, bs, tokens)
    case None => BuiltBare(file, bs, tokens)
  }

  lemma BuiltStep(file: ActiveFile, basis: Bytes, bs: nat, tokens: seq<DeltaToken>, token: DeltaToken, w: World)
    requires Built(file, basis, bs, tokens)
    ensures
      var s := PushDelta(DeltaActive(file), file.entry.path, token, w).state;
      s == Failed
      || (s.DeltaActive? && Built(s.file, basis, bs, tokens + [token])
          && s.file.entry == file.entry && s.file.ndx == file.ndx)
  {
    var ctx, step := file.mode.ctx, file.mode.ctx.reconstructor.Push(token);
    PushGives(file, basis, token, w);
    SentLaw(ctx, basis, step);
    PushResolves(basis, bs, token);
    RebuildSnoc(basis, bs, tokens, token);
    ContentAppend(file.sent, Sent(ctx, basis, step));
    Rejoin(Content(file.sent), Content(Sent(ctx, basis, step)), PendingBytes(Advanced(ctx, step), basis),
           PendingBytes(ctx, basis), Segment(basis, bs, token));
  }

  lemma Rejoin(done: Bytes, sent: Bytes, later: Bytes, pending: Bytes, segment: Bytes)
    requires sent + later == pending + segment
    ensures (done + sent) + later == (done + pending) + segment
  {
    Associate(done, sent, later);
    Associate(done, pending, segment);
  }

  lemma BareReady(bs: nat, size: nat, token: DeltaToken)
    requires Reconstructor(bs, size).Push(token).Ready?
    ensures Reconstructor(bs, size).Push(token).bytes == Segment([], bs, token)
  {
  }

  lemma BareStep(file: ActiveFile, bs: nat, tokens: seq<DeltaToken>, token: DeltaToken, w: World)
    requires BuiltBare(file, bs, tokens)
    ensures
      var s := PushDelta(DeltaActive(file), file.entry.path, token, w).state;
      s == Failed
      || (s.DeltaActive? && BuiltBare(s.file, bs, tokens + [token])
          && s.file.entry == file.entry && s.file.ndx == file.ndx)
  {
    var ctx, step := file.mode.ctx, file.mode.ctx.reconstructor.Push(token);
    if step.Ready? {
      BareReady(bs, ctx.reconstructor.basisSize, token);
      RebuildSnoc([], bs, tokens, token);
      var chunk := StreamChunk(ctx.writePos, step.bytes, false);
      ContentAppend(file.sent, [chunk]);
      assert Content([chunk]) == step.bytes + Content([]);
    }
  }

  lemma TakenStep(file: ActiveFile, basis: Option<Bytes>, bs: nat, done: seq<DeltaToken>, token: DeltaToken, w: World)
    requires Taken(file, basis, bs, done)
    ensures
      var s := PushDelta(DeltaActive(file), file.entry.path, token, w).state;
      s == Failed
      || (s.DeltaActive? && Taken(s.file, basis, bs, done + [token])
          && s.file.entry == file.entry && s.file.ndx == file.ndx)
  {
    if basis.Some? {
      BuiltStep(file, basis.value, bs, done, token, w);
    } else {
      BareStep(file, bs, done, token, w);
    }
  }

  lemma {:induction false} TakenAll(file: ActiveFile, basis: Option<Bytes>, bs: nat, done: seq<DeltaToken>,
                                    tokens: seq<DeltaToken>, worlds: seq<World>)
    requires Taken(file, basis, bs, done) && |worlds| == |tokens|
    ensures
      var s := PushDeltaAll(DeltaActive(file), file.entry.path, tokens, worlds);
      s == Failed
      || (s.DeltaActive? && Taken(s.file, basis, bs, done + tokens)
          && s.file.entry == file.entry && s.file.ndx == file.ndx)
    decreases |tokens|
  {
    if tokens == [] {
      assert done + tokens == done;
    } else {
      TakenStep(file, basis, bs, done, tokens[0], worlds[0]);
      var s := PushDelta(DeltaActive(file), file.entry.path, tokens[0], worlds[0]).state;
      if s.DeltaActive? {
        TakenAll(s.file, basis, bs, done + [tokens[0]], tokens[1..], worlds[1..]);
        assert done + [tokens[0]] + tokens[1..] == done + tokens;
      } else {
        FailedStays(file.entry.path, tokens[1..], worlds[1..]);
      }
    }
  }

  /** What is published of a delta file is what its tokens rebuild; without a basis only their literal bytes. */
  lemma TakenCommits(file: ActiveFile, basis: Option<Bytes>, bs: nat, tokens: seq<DeltaToken>, check: bool,
                     sourceHash: Option<string>, w: World)
    requires Taken(file, basis, bs, tokens)
    ensures
      var e := Commit(DeltaActive(file), check, file.ndx, file.entry.path, sourceHash, DeltaTransfer, w);
      e.published.Some? ==>
        e.published.value.writerClosed
        || Content(e.published.value.sent) == Rebuild(BasisBytes(basis), bs, tokens)
  {
    var flushed := FlushBasis(file, w);
    if basis.Some? && flushed.Some? {
      FlushGives(file, basis.value, w);
      FlushedLaw(file.mode.ctx, basis.value);
      ContentAppend(file.sent, Flushed(file.mode.ctx, basis.value));
    }
  }

  lemma BegunTaken(ndx: int, entry: Entry, bs: nat, w: World)
    ensures
      var s := Begin(Idle, ndx, entry, Some(bs), w).state;
      s == Failed
      || (s.DeltaActive? && s.file.ndx == ndx && s.file.entry == entry && Taken(s.file, s.file.basis, bs, [])
          && s.file.basis == if w.basis.Found? then Some(w.basis.content) else None)
  {
    assert Content([]) == [];
  }

  /**
   * A delta bracket from begin to commit, under any storage answers and an honest writer: it
   * publishes only the file the tokens rebuild (their literal bytes alone when there is no basis), of the
   * declared length and, when checked, with the source's digest.
   */
  lemma DeltaCommitRebuilds(check: bool, ndx: int, entry: Entry, bs: nat, tokens: seq<DeltaToken>,
                            begin: World, worlds: seq<World>, end: World, sourceHash: Option<string>,
                            digest: Bytes -> string)
    requires |worlds| == |tokens|
    requires
      var last := PushDeltaAll(Begin(Idle, ndx, entry, Some(bs), begin).state, entry.path, tokens, worlds);
      var e := Commit(last, check, ndx, entry.path, sourceHash, DeltaTransfer, end);
      e.published.Some? && Honest(end.report, e.published.value, digest)
    ensures
      var last := PushDeltaAll(Begin(Idle, ndx, entry, Some(bs), begin).state, entry.path, tokens, worlds);
      var e := Commit(last, check, ndx, entry.path, sourceHash, DeltaTransfer, end);
      var content := Content(e.published.value.sent);
      && e.acks == [FileAck(ndx, Success)]
      && content == Rebuild(if begin.basis.Found? then begin.basis.content else [], bs, tokens)
      && |content| == entry.size
      && (check && sourceHash.Some? ==> digest(content) == sourceHash.value)
  {
    var s0 := Begin(Idle, ndx, entry, Some(bs), begin).state;
    var last := PushDeltaAll(s0, entry.path, tokens, worlds);
    BegunTaken(ndx, entry, bs, begin);
    PublishedIsChecked(last, check, ndx, entry.path, sourceHash, DeltaTransfer, end, digest);
    if s0 == Failed {
      FailedStays(entry.path, tokens, worlds);
    } else {
      TakenAll(s0.file, s0.file.basis, bs, [], tokens, worlds);
      assert [] + tokens == tokens;
      if last.DeltaActive? { TakenCommits(last.file, s0.file.basis, bs, tokens, check, sourceHash, end); }
    }
  }
}
