/**
 * The committer's fast form of rebuilding: adjacent basis reads are merged, and a merged
 * read that lands at its own offset is flagged as already in place.
 */
module DeltaStream {
  import opened Bytes
  import opened Delta
  import opened Reconstruct

  // Merged basis reads stop at two mebibytes.
  const MAX_READ: int := 2 * 1024 * 1024

  datatype StreamChunk = StreamChunk(offset: nat, data: Bytes, unchangedBasis: bool)

  /** A basis range that is not read yet, and where in the output it goes. */
  datatype PendingBasis = PendingBasis(offset: nat, len: nat, writeOffset: nat)

  datatype DeltaCtx = DeltaCtx(reconstructor: Reconstructor, writePos: nat, pendingBasis: Option<PendingBasis>)

  function StartCtx(blockSize: nat, basisSize: nat): DeltaCtx
  {
    DeltaCtx(Reconstructor(blockSize, basisSize), 0, None)
  }

  /** The pending range lies inside the basis. */
  predicate InBasis(ctx: DeltaCtx)
  {
    ctx.pendingBasis.Some? ==> ctx.pendingBasis.value.offset + ctx.pendingBasis.value.len <= ctx.reconstructor.basisSize
  }

  /** A pending read is at most one block, or at most the merge limit. */
  predicate ReadBounded(ctx: DeltaCtx)
  {
    ctx.pendingBasis.Some? ==>
      var bs := ctx.reconstructor.blockSize;
      ctx.pendingBasis.value.len <= if bs > MAX_READ then bs else MAX_READ
  }

  /** The chunk for the pending range, if there is one. */
  function Flushed(ctx: DeltaCtx, basis: Bytes): (r: seq<StreamChunk>)
    requires InBasis(ctx) && ctx.reconstructor.basisSize == |basis|
  {
    match ctx.pendingBasis
    case None => []
    case Some(p) => [StreamChunk(p.writeOffset, basis[p.offset..p.offset + p.len], p.offset == p.writeOffset)]
  }

  /** The new range continues the pending one and the merged read stays within bounds. */
  predicate Coalesces(ctx: DeltaCtx, step: ReconstructStep)
  {
    && step.NeedBasis? && ctx.pendingBasis.Some?
    && ctx.pendingBasis.value.offset + ctx.pendingBasis.value.len == step.offset
    && ctx.pendingBasis.value.len + step.len <= MAX_READ
  }

  /** A read stays inside the basis. */
  predicate InRange(ctx: DeltaCtx, step: ReconstructStep)
  {
    step.NeedBasis? ==> step.offset + step.len <= ctx.reconstructor.basisSize
  }

  /** The context after a reconstruction step. */
  function Advanced(ctx: DeltaCtx, step: ReconstructStep): (r: DeltaCtx)
    ensures InBasis(ctx) && InRange(ctx, step) ==> InBasis(r)
    ensures r.reconstructor == ctx.reconstructor
    ensures ReadBounded(ctx) && (step.NeedBasis? ==> step.len <= ctx.reconstructor.blockSize) ==> ReadBounded(r)
  {
    if Coalesces(ctx, step) then
      var p := ctx.pendingBasis.value;
      ctx.(pendingBasis := Some(p.(len := p.len + step.len)), writePos := ctx.writePos + step.len)
    else match step
      case NeedBasis(offset, len) =>
        ctx.(pendingBasis := Some(PendingBasis(offset, len, ctx.writePos)), writePos := ctx.writePos + len)
      case Ready(data) =>
        ctx.(pendingBasis := None, writePos := ctx.writePos + |data|)
  }

  /** The chunks a step sends to the writer, when every read succeeds. */
  function Sent(ctx: DeltaCtx, basis: Bytes, step: ReconstructStep): (r: seq<StreamChunk>)
    requires InBasis(ctx) && ctx.reconstructor.basisSize == |basis|
  {
    if Coalesces(ctx, step) then []
    else match step
      case NeedBasis(_, _) => Flushed(ctx, basis)
      case Ready(data) => Flushed(ctx, basis) + [StreamChunk(ctx.writePos, data, false)]
  }

  /** Everything sent for a token list, including the flush at commit. */
  function StreamAll(ctx: DeltaCtx, basis: Bytes, tokens: seq<DeltaToken>): (r: seq<StreamChunk>)
    requires InBasis(ctx) && ctx.reconstructor.basisSize == |basis|
    decreases |tokens|
  {
    if tokens == [] then Flushed(ctx, basis)
    else
      var step := ctx.reconstructor.Push(tokens[0]);
      Sent(ctx, basis, step) + StreamAll(Advanced(ctx, step), basis, tokens[1..])
  }

  // ---------------------------------------------------------------- refinement

  function Content(chunks: seq<StreamChunk>): (r: Bytes)
  {
    if chunks == [] then [] else chunks[0].data + Content(chunks[1..])
  }

  /** Each chunk starts where the one before it ended. */
  predicate Contiguous(chunks: seq<StreamChunk>, from: nat)
    decreases |chunks|
  {
    chunks == [] || (chunks[0].offset == from && Contiguous(chunks[1..], from + |chunks[0].data|))
  }

  lemma {:induction false} ContentAppend(a: seq<StreamChunk>, b: seq<StreamChunk>)
    ensures Content(a + b) == Content(a) + Content(b)
  {
    if a == [] {
      assert a + b == b;
    } else {
      ContentAppend(a[1..], b);
      assert (a + b)[1..] == a[1..] + b;
      Associate(a[0].data, Content(a[1..]), Content(b));
    }
  }

  lemma {:induction false} ContiguousAppend(a: seq<StreamChunk>, b: seq<StreamChunk>, from: nat)
    requires Contiguous(a, from) && Contiguous(b, from + |Content(a)|)
    ensures Contiguous(a + b, from)
    decreases |a|
  {
    if a == [] {
      assert a + b == b;
    } else {
      assert (a + b)[1..] == a[1..] + b;
      ContiguousAppend(a[1..], b, from + |a[0].data|);
    }
  }

  /** A flagged chunk holds exactly what the basis already has at the chunk's own offset. */
  ghost predicate InPlace(basis: Bytes, c: StreamChunk)
  {
    c.unchangedBasis ==> c.offset + |c.data| <= |basis| && c.data == basis[c.offset..c.offset + |c.data|]
  }

  ghost predicate AllInPlace(basis: Bytes, chunks: seq<StreamChunk>)
  {
    forall c {:trigger InPlace(basis, c)} :: c in chunks ==> InPlace(basis, c)
  }

  /** The bytes of the pending range, and the output offset at which it starts. */
  function PendingBytes(ctx: DeltaCtx, basis: Bytes): (r: Bytes)
    requires InBasis(ctx) && ctx.reconstructor.basisSize == |basis|
  {
    match ctx.pendingBasis
    case None => []
    case Some(p) => basis[p.offset..p.offset + p.len]
  }

  /** The write position is where the pending bytes end. */
  predicate Placed(ctx: DeltaCtx)
  {
    match ctx.pendingBasis
    case None => true
    case Some(p) => p.writeOffset + p.len == ctx.writePos
  }

  function Start(ctx: DeltaCtx): (r: nat)
  {
    match ctx.pendingBasis
    case None => ctx.writePos
    case Some(p) => p.writeOffset
  }

  lemma FlushedLaw(ctx: DeltaCtx, basis: Bytes)
    requires InBasis(ctx) && ctx.reconstructor.basisSize == |basis| && Placed(ctx)
    ensures Content(Flushed(ctx, basis)) == PendingBytes(ctx, basis)
    ensures Contiguous(Flushed(ctx, basis), Start(ctx)) && AllInPlace(basis, Flushed(ctx, basis))
    ensures Start(ctx) + |PendingBytes(ctx, basis)| == ctx.writePos
  {
  }

  lemma MergedLaw(ctx: DeltaCtx, basis: Bytes, step: ReconstructStep)
    requires InBasis(ctx) && ctx.reconstructor.basisSize == |basis| && Placed(ctx)
    requires InRange(ctx, step) && Coalesces(ctx, step)
    ensures Placed(Advanced(ctx, step)) && Start(Advanced(ctx, step)) == Start(ctx)
    ensures PendingBytes(Advanced(ctx, step), basis) == PendingBytes(ctx, basis) + Resolve(basis, step)
  {
  }

  lemma ReadyLaw(ctx: DeltaCtx, basis: Bytes, data: Bytes)
    requires InBasis(ctx) && ctx.reconstructor.basisSize == |basis| && Placed(ctx)
    ensures
      var sent := Flushed(ctx, basis) + [StreamChunk(ctx.writePos, data, false)];
      && Content(sent) == PendingBytes(ctx, basis) + data
      && Contiguous(sent, Start(ctx)) && AllInPlace(basis, sent)
  {
    FlushedLaw(ctx, basis);
    var chunk := StreamChunk(ctx.writePos, data, false);
    assert Content([chunk]) == data + Content([]);
    ContentAppend(Flushed(ctx, basis), [chunk]);
    ContiguousAppend(Flushed(ctx, basis), [chunk], Start(ctx));
  }

  /** One step: what is sent plus what is still pending grows by exactly the bytes of the step. */
  lemma SentLaw(ctx: DeltaCtx, basis: Bytes, step: ReconstructStep)
    requires InBasis(ctx) && ctx.reconstructor.basisSize == |basis| && Placed(ctx) && InRange(ctx, step)
    ensures
      var ctx', sent := Advanced(ctx, step), Sent(ctx, basis, step);
      && Placed(ctx')
      && Content(sent) + PendingBytes(ctx', basis) == PendingBytes(ctx, basis) + Resolve(basis, step)
      && Contiguous(sent, Start(ctx)) && Start(ctx') == Start(ctx) + |Content(sent)|
      && AllInPlace(basis, sent)
  {
    if Coalesces(ctx, step) {
      MergedLaw(ctx, basis, step);
    } else if step.Ready? {
      ReadyLaw(ctx, basis, step.bytes);
      FlushedLaw(ctx, basis);
    } else {
      FlushedLaw(ctx, basis);
    }
  }

  lemma JoinStream(a: seq<StreamChunk>, b: seq<StreamChunk>, basis: Bytes, from: nat)
    requires Contiguous(a, from) && Contiguous(b, from + |Content(a)|)
    requires AllInPlace(basis, a) && AllInPlace(basis, b)
    ensures Contiguous(a + b, from) && Content(a + b) == Content(a) + Content(b) && AllInPlace(basis, a + b)
  {
    ContentAppend(a, b);
    ContiguousAppend(a, b, from);
    forall c | c in a + b ensures InPlace(basis, c) {
    }
  }

  lemma Regroup(sent: Bytes, later: Bytes, pending: Bytes, segment: Bytes, rest: Bytes)
    requires sent + later == pending + segment
    ensures sent + (later + rest) == pending + (segment + rest)
  {
    Associate(sent, later, rest);
    Associate(pending, segment, rest);
  }

  /** The chunks continue from what is pending, hold it and these bytes, and every flagged one is already in place. */
  ghost predicate Refines(ctx: DeltaCtx, basis: Bytes, bytes: Bytes, chunks: seq<StreamChunk>)
    requires InBasis(ctx) && ctx.reconstructor.basisSize == |basis|
  {
    && Contiguous(chunks, Start(ctx)) && Content(chunks) == PendingBytes(ctx, basis) + bytes
    && AllInPlace(basis, chunks)
  }

  lemma RefinesStep(ctx: DeltaCtx, basis: Bytes, step: ReconstructStep, bytes: Bytes, rest: seq<StreamChunk>)
    requires InBasis(ctx) && ctx.reconstructor.basisSize == |basis| && Placed(ctx) && InRange(ctx, step)
    requires Refines(Advanced(ctx, step), basis, bytes, rest)
    ensures Refines(ctx, basis, Resolve(basis, step) + bytes, Sent(ctx, basis, step) + rest)
  {
    var sent, ctx' := Sent(ctx, basis, step), Advanced(ctx, step);
    SentLaw(ctx, basis, step);
    JoinStream(sent, rest, basis, Start(ctx));
    Regroup(Content(sent), PendingBytes(ctx', basis), PendingBytes(ctx, basis), Resolve(basis, step), bytes);
  }

  /**
   * For every token list the chunks are contiguous, hold exactly the rebuilt file, and every
   * flagged one is already in place.
   */
  lemma {:induction false} StreamRefines(ctx: DeltaCtx, basis: Bytes, tokens: seq<DeltaToken>)
    requires InBasis(ctx) && ctx.reconstructor.basisSize == |basis| && Placed(ctx)
    ensures Refines(ctx, basis, Rebuild(basis, ctx.reconstructor.blockSize, tokens), StreamAll(ctx, basis, tokens))
    decreases |tokens|
  {
    if tokens == [] {
      FlushedLaw(ctx, basis);
    } else {
      var step := ctx.reconstructor.Push(tokens[0]);
      var ctx', bs, rest := Advanced(ctx, step), ctx.reconstructor.blockSize, tokens[1..];
      SentLaw(ctx, basis, step);
      StreamRefines(ctx', basis, rest);
      RefinesStep(ctx, basis, step, Rebuild(basis, bs, rest), StreamAll(ctx', basis, rest));
      PushResolves(basis, bs, tokens[0]);
    }
  }

  /** The same for a whole file, from its first token. */
  lemma WholeStream(basis: Bytes, bs: nat, tokens: seq<DeltaToken>)
    ensures
      var chunks := StreamAll(StartCtx(bs, |basis|), basis, tokens);
      Contiguous(chunks, 0) && Content(chunks) == Rebuild(basis, bs, tokens) && AllInPlace(basis, chunks)
  {
    var ctx := StartCtx(bs, |basis|);
    StreamRefines(ctx, basis, tokens);
    assert PendingBytes(ctx, basis) + Rebuild(basis, bs, tokens) == Rebuild(basis, bs, tokens);
  }

  // ---------------------------------------------------------------- patching in place

  /** A positioned write; a gap before the offset is filled with zeros. */
  function WriteAt(file: Bytes, offset: nat, data: Bytes): (r: Bytes)
  {
    var end := offset + |data|;
    if offset > |file| then file + seq(offset - |file|, _ => 0) + data
    else file[..offset] + data + (if end < |file| then file[end..] else [])
  }

  /** Writes the unflagged chunks only. */
  function Patch(file: Bytes, chunks: seq<StreamChunk>): (r: Bytes)
    decreases |chunks|
  {
    if chunks == [] then file
    else Patch(if chunks[0].unchangedBasis then file else WriteAt(file, chunks[0].offset, chunks[0].data), chunks[1..])
  }

  function From(basis: Bytes, n: nat): (r: Bytes)
  {
    if n <= |basis| then basis[n..] else []
  }

  lemma PatchOne(done: Bytes, basis: Bytes, c: StreamChunk)
    requires c.offset == |done| && InPlace(basis, c)
    ensures
      var file := done + From(basis, |done|);
      (if c.unchangedBasis then file else WriteAt(file, c.offset, c.data))
      == (done + c.data) + From(basis, |done + c.data|)
  {
    var file, end := done + From(basis, |done|), |done| + |c.data|;
    assert |done + c.data| == end && file[..|done|] == done;
    if c.unchangedBasis {
      assert basis[|done|..] == c.data + basis[end..];
      Associate(done, c.data, basis[end..]);
    } else if end < |file| {
      assert file[end..] == basis[end..];
    } else {
      assert From(basis, end) == [];
    }
  }

  lemma {:induction false} PatchPrefix(done: Bytes, basis: Bytes, chunks: seq<StreamChunk>)
    requires Contiguous(chunks, |done|) && AllInPlace(basis, chunks)
    ensures Patch(done + From(basis, |done|), chunks)
         == (done + Content(chunks)) + From(basis, |done + Content(chunks)|)
    decreases |chunks|
  {
    if chunks == [] {
      assert done + Content(chunks) == done;
    } else {
      var c := chunks[0];
      PatchOne(done, basis, c);
      PatchPrefix(done + c.data, basis, chunks[1..]);
      Associate(done, c.data, Content(chunks[1..]));
    }
  }

  /**
   * Writing only the unflagged chunks over the old basis and cutting to length gives the
   * rebuilt file, for every basis, block size and token list.
   */
  lemma PatchRebuilds(basis: Bytes, bs: nat, tokens: seq<DeltaToken>)
    ensures
      var patched := Patch(basis, StreamAll(StartCtx(bs, |basis|), basis, tokens));
      var whole := Rebuild(basis, bs, tokens);
      |whole| <= |patched| && patched[..|whole|] == whole
  {
    WholeStream(basis, bs, tokens);
    PatchFromStart(basis, StreamAll(StartCtx(bs, |basis|), basis, tokens));
  }

  lemma PatchFromStart(basis: Bytes, chunks: seq<StreamChunk>)
    requires Contiguous(chunks, 0) && AllInPlace(basis, chunks)
    ensures Patch(basis, chunks) == Content(chunks) + From(basis, |Content(chunks)|)
  {
    var none: Bytes := [];
    PatchPrefix(none, basis, chunks);
    assert none + From(basis, 0) == basis;
    assert none + Content(chunks) == Content(chunks);
  }
}
