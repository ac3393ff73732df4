/** What the receiver publishes in a run of the whole system, and that it is what the sender meant. */
module ReceiverContent {
  import opened Bytes
  import opened Delta
  import opened DeltaStream
  import opened FileCommit
  import opened Session
  import opened ReceiverSystem
  import opened ReceiverSafety

  /** The commands of the open bracket that carry content. */
  datatype Carried =
    | Nothing
    | Chunks(chunks: seq<StreamChunk>)
    | Tokens(basis: Option<Bytes>, blockSize: nat, tokens: seq<DeltaToken>)

  /** A published file with what its bracket carried. */
  datatype Publication = Publication(carried: Carried, file: ActiveFile)

  datatype Delivery = Delivery(open: Carried, published: seq<Publication>)

  const NONE_YET := Delivery(Nothing, [])

  /** What a consumed command adds to the open bracket. */
  function Carries(open: Carried, cmd: DiskCommitMsg, w: World): (r: Carried)
  {
    match cmd
    case FileBegin(_, _) => Chunks([])
    case DeltaBegin(_, _, bs) => Tokens(if w.basis.Found? then Some(w.basis.content) else None, bs, [])
    case FileChunk(_, chunk) => if open.Chunks? then Chunks(open.chunks + [chunk]) else open
    case DeltaMatch(_, i) => if open.Tokens? then open.(tokens := open.tokens + [Match(i)]) else open
    case DeltaData(_, data) => if open.Tokens? then open.(tokens := open.tokens + [Data(data)]) else open
    case FileEnd(_, _, _) => Nothing
    case DeltaEnd(_, _, _) => Nothing
    case WriteDeleteMarker(_) => open
    case AbortFile => Nothing
    case Shutdown => Nothing
  }

  function Recorded(d: Delivery, sys: System, setup: Setup, a: Action): (r: Delivery)
  {
    if !a.Consume? || sys.queue == [] then d
    else
      var cmd := sys.queue[0];
      var e := Dispatch(sys.committer, setup.check, cmd, a.w);
      Delivery(Carries(d.open, cmd, a.w),
               if e.published.Some? then d.published + [Publication(d.open, e.published.value)] else d.published)
  }

  /** The content that a bracket means. */
  function Meant(c: Carried): (r: Bytes)
  {
    match c
    case Nothing => []
    case Chunks(chunks) => Content(chunks)
    case Tokens(basis, bs, tokens) => Rebuild(BasisBytes(basis), bs, tokens)
  }

  /** Unless the writer closed early, the file holds what its bracket means. */
  ghost predicate Holds(p: Publication)
  {
    p.file.writerClosed || Content(p.file.sent) == Meant(p.carried)
  }

  /** The active file has taken exactly what the open bracket carried. */
  ghost predicate Keeps(c: FileCommitState, open: Carried)
  {
    match c
    case FullActive(f) => open.Chunks? && (f.writerClosed || f.sent == open.chunks)
    case DeltaActive(f) => open.Tokens? && Taken(f, open.basis, open.blockSize, open.tokens)
    case _ => true
  }

  ghost predicate Delivering(sys: System, d: Delivery)
  {
    Keeps(sys.committer, d.open) && forall p {:trigger Holds(p)} :: p in d.published ==> Holds(p)
  }

  lemma BeginKeeps(c: FileCommitState, ndx: int, entry: Entry, bs: nat, open: Carried, w: World)
    requires c.Idle? || c.Failed? || c.Completed?
    ensures Keeps(Begin(c, ndx, entry, Some(bs), w).state, Carries(open, DeltaBegin(ndx, entry, bs), w))
    ensures Keeps(Begin(c, ndx, entry, None, w).state, Carries(open, FileBegin(ndx, entry), w))
  {
    BegunTaken(ndx, entry, bs, w);
  }

  /** A command in its place keeps the committer in step with the bracket. */
  lemma DispatchKeeps(c: FileCommitState, phase: Phase, reports: nat, open: Carried, check: bool, cmd: DiskCommitMsg,
                      w: World)
    requires CommitterFits(c, phase, reports) && NextPhase(phase, cmd).Some? && Keeps(c, open)
    ensures Keeps(Dispatch(c, check, cmd, w).state, Carries(open, cmd, w))
  {
    match cmd
    case FileBegin(ndx, entry) => BeginKeeps(c, ndx, entry, 0, open, w);
    case DeltaBegin(ndx, entry, bs) => BeginKeeps(c, ndx, entry, bs, open, w);
    case DeltaMatch(_, i) =>
      if c.DeltaActive? { TakenStep(c.file, open.basis, open.blockSize, open.tokens, Match(i), w); }
    case DeltaData(_, data) =>
      if c.DeltaActive? { TakenStep(c.file, open.basis, open.blockSize, open.tokens, Data(data), w); }
    case _ =>
  }

  lemma FullPublishes(c: FileCommitState, open: Carried, check: bool, ndx: int, path: Path, hash: Option<string>,
                      w: World)
    requires Keeps(c, open) && !c.DeltaActive?
    ensures
      var e := Commit(c, check, ndx, path, hash, FullTransfer, w);
      e.published.Some? ==> Holds(Publication(open, e.published.value)) && open.Chunks?
  {
  }

  /** What a command in its place publishes holds what its bracket means. */
  lemma DispatchPublishes(c: FileCommitState, phase: Phase, reports: nat, open: Carried, check: bool,
                          cmd: DiskCommitMsg, w: World)
    requires CommitterFits(c, phase, reports) && NextPhase(phase, cmd).Some? && Keeps(c, open)
    ensures
      var e := Dispatch(c, check, cmd, w);
      e.published.Some? ==> Holds(Publication(open, e.published.value)) && (open.Chunks? || open.Tokens?)
  {
    if cmd.DeltaEnd? && c.DeltaActive? {
      TakenCommits(c.file, open.basis, open.blockSize, open.tokens, check, cmd.sourceHash, w);
    } else if cmd.FileEnd? {
      FullPublishes(c, open, check, cmd.ndx, cmd.path, cmd.sourceHash, w);
    }
  }

  lemma HeadInPlace(sys: System)
    requires Lockstep(sys) && sys.queue != []
    ensures NextPhase(sys.phase, sys.queue[0]).Some?
  {
  }

  lemma DeliveringKept(sys: System, d: Delivery, setup: Setup, a: Action)
    requires Lockstep(sys) && Delivering(sys, d) && Enabled(sys, a)
    ensures Delivering(Next(sys, setup, a), Recorded(d, sys, setup, a))
  {
    if a.Consume? {
      HeadInPlace(sys);
      DispatchKeeps(sys.committer, sys.phase, sys.reports, d.open, setup.check, sys.queue[0], a.w);
      DispatchPublishes(sys.committer, sys.phase, sys.reports, d.open, setup.check, sys.queue[0], a.w);
    }
    var d' := Recorded(d, sys, setup, a);
    forall p | p in d'.published ensures Holds(p) {
      if p in d.published { assert Holds(p); }
    }
  }

  predicate RecordedAt(setup: Setup, states: seq<System>, actions: seq<Action>, ds: seq<Delivery>, i: nat)
    requires i < |actions| < |states| && |ds| == |states|
  {
    ds[i + 1] == Recorded(ds[i], states[i], setup, actions[i])
  }

  /** A run with the record of what was delivered in it. */
  ghost predicate DeliveryRun(setup: Setup, states: seq<System>, actions: seq<Action>, ds: seq<Delivery>)
  {
    && Run(setup, states, actions) && |ds| == |states| && ds[0] == NONE_YET
    && forall i {:trigger RecordedAt(setup, states, actions, ds, i)} :: 0 <= i < |actions| ==>
         RecordedAt(setup, states, actions, ds, i)
  }

  lemma {:induction false} DeliveringAlways(setup: Setup, states: seq<System>, actions: seq<Action>, ds: seq<Delivery>,
                                            k: nat)
    requires DeliveryRun(setup, states, actions, ds) && k < |states| && KeepsPaths(states, actions)
    ensures Delivering(states[k], ds[k])
  {
    if k > 0 {
      DeliveringAlways(setup, states, actions, ds, k - 1);
      LockstepAlways(setup, states, actions, k - 1);
      assert StepAt(setup, states, actions, k - 1) && RecordedAt(setup, states, actions, ds, k - 1);
      DeliveringKept(states[k - 1], ds[k - 1], setup, actions[k - 1]);
    }
  }

  /** Whenever a file is published the writer has reported truly. */
  ghost predicate TruthfulWriter(sys: System, setup: Setup, a: Action, digest: Bytes -> string)
  {
    a.Consume? && sys.queue != [] ==>
      var e := Dispatch(sys.committer, setup.check, sys.queue[0], a.w);
      e.published.Some? ==> Honest(a.w.report, e.published.value, digest)
  }

  /** Content, length and, when checked, digest of what one step publishes. */
  ghost predicate Sound(sys: System, d: Delivery, setup: Setup, a: Action, digest: Bytes -> string)
    requires a.Consume? && sys.queue != []
  {
    var cmd := sys.queue[0];
    var e := Dispatch(sys.committer, setup.check, cmd, a.w);
    e.published.Some? ==>
      var file := e.published.value;
      && Content(file.sent) == Meant(d.open) && |Meant(d.open)| == file.entry.size
      && (cmd.FileEnd? || cmd.DeltaEnd?) && file.ndx == cmd.ndx && file.entry.path == cmd.path
      && (setup.check && cmd.sourceHash.Some? ==> digest(Meant(d.open)) == cmd.sourceHash.value)
  }

  /**
   * In every interleaving of a run in which no page moves the active file and the writer reports truly: a published
   * delta file is what the tokens of its bracket rebuild, a published full file is the content of its chunks, of
   * the declared length and with the wanted digest.
   */
  lemma PublishedAsMeant(setup: Setup, states: seq<System>, actions: seq<Action>, ds: seq<Delivery>, k: nat,
                         digest: Bytes -> string)
    requires DeliveryRun(setup, states, actions, ds) && k < |actions| && actions[k].Consume?
    requires KeepsPaths(states, actions) && TruthfulWriter(states[k], setup, actions[k], digest)
    ensures states[k].queue != [] && Sound(states[k], ds[k], setup, actions[k], digest)
  {
    assert StepAt(setup, states, actions, k);
    DeliveringAlways(setup, states, actions, ds, k);
    LockstepAlways(setup, states, actions, k);
    var sys, cmd, w := states[k], states[k].queue[0], actions[k].w;
    HeadInPlace(sys);
    DispatchPublishes(sys.committer, sys.phase, sys.reports, ds[k].open, setup.check, cmd, w);
    DispatchIsCommit(sys.committer, setup.check, cmd, w, digest);
  }

  /** Only a commit publishes. */
  lemma DispatchIsCommit(c: FileCommitState, check: bool, cmd: DiskCommitMsg, w: World, digest: Bytes -> string)
    ensures
      var e := Dispatch(c, check, cmd, w);
      e.published.Some? && Honest(w.report, e.published.value, digest) ==>
        var file := e.published.value;
        && !file.writerClosed && |Content(file.sent)| == file.entry.size
        && (cmd.FileEnd? || cmd.DeltaEnd?) && file.ndx == cmd.ndx && file.entry.path == cmd.path
        && (check && cmd.sourceHash.Some? ==> digest(Content(file.sent)) == cmd.sourceHash.value)
  {
    if cmd.FileEnd? {
      PublishedIsChecked(c, check, cmd.ndx, cmd.path, cmd.sourceHash, FullTransfer, w, digest);
      CommitKeepsEntry(c, check, cmd.ndx, cmd.path, cmd.sourceHash, FullTransfer, w);
    } else if cmd.DeltaEnd? {
      PublishedIsChecked(c, check, cmd.ndx, cmd.path, cmd.sourceHash, DeltaTransfer, w, digest);
      CommitKeepsEntry(c, check, cmd.ndx, cmd.path, cmd.sourceHash, DeltaTransfer, w);
    }
  }

  lemma CommitKeepsEntry(c: FileCommitState, check: bool, ndx: int, path: Path, hash: Option<string>,
                         expected: FileTransferMode, w: World)
    ensures
      var e := Commit(c, check, ndx, path, hash, expected, w);
      e.published.Some? ==>
        && CommitMatches(c, ndx, path, expected)
        && e.published.value.entry == c.file.entry && e.published.value.ndx == c.file.ndx
  {
  }
}
