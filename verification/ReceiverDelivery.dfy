/** From the messages of one file to what is published for it. */
module ReceiverDelivery {
  import opened Bytes
  import opened Signature
  import opened Delta
  import opened Reconstruct
  import opened DeltaStream
  import opened FileCommit
  import opened Session
  import opened ReceiverSystem
  import opened ReceiverSafety
  import opened ReceiverContent

  // ---------------------------------------------------------------- tokens in messages, commands and brackets

  /** The tokens that messages for index n carry in the steps from `from` up to `to`. */
  function TokensFor(actions: seq<Action>, n: int, from: nat, to: nat): (r: seq<DeltaToken>)
    requires from <= to <= |actions|
  {
    if from == to then []
    else TokensFor(actions, n, from, to - 1) + TokenOf(actions[to - 1], n)
  }

  lemma TokensForSnoc(actions: seq<Action>, n: int, from: nat, to: nat)
    requires from <= to < |actions|
    ensures TokensFor(actions, n, from, to + 1) == TokensFor(actions, n, from, to) + TokenOf(actions[to], n)
    ensures from == to ==> TokensFor(actions, n, from, to + 1) == TokenOf(actions[to], n)
  {
    assert [] + TokenOf(actions[to], n) == TokenOf(actions[to], n);
  }

  function TokenOf(a: Action, n: int): (r: seq<DeltaToken>)
  {
    if !a.Receive? then []
    else match a.msg
      case MatchToken(m, i) => if m == n then [Match(i)] else []
      case DataToken(m, data) => if m == n then [Data(data)] else []
      case _ => []
  }

  /** The tokens of the last bracket after one more command. */
  function TokensNext(tokens: seq<DeltaToken>, cmd: DiskCommitMsg): (r: seq<DeltaToken>)
  {
    match cmd
    case DeltaMatch(_, i) => tokens + [Match(i)]
    case DeltaData(_, data) => tokens + [Data(data)]
    case WriteDeleteMarker(_) => tokens
    case FileChunk(_, _) => tokens
    case _ => []
  }

  function TokensAfter(tokens: seq<DeltaToken>, cmds: seq<DiskCommitMsg>): (r: seq<DeltaToken>)
    decreases |cmds|
  {
    if cmds == [] then tokens else TokensAfter(TokensNext(tokens, cmds[0]), cmds[1..])
  }

  lemma {:induction false} TokensAppend(tokens: seq<DeltaToken>, a: seq<DiskCommitMsg>, b: seq<DiskCommitMsg>)
    ensures TokensAfter(tokens, a + b) == TokensAfter(TokensAfter(tokens, a), b)
    decreases |a|
  {
    if a == [] {
      assert a + b == b;
    } else {
      assert (a + b)[1..] == a[1..] + b;
      TokensAppend(TokensNext(tokens, a[0]), a[1..], b);
    }
  }

  lemma TokensShort(tokens: seq<DeltaToken>, a: DiskCommitMsg, b: DiskCommitMsg)
    ensures TokensAfter(tokens, []) == tokens && TokensAfter(tokens, [a]) == TokensNext(tokens, a)
    ensures TokensAfter(tokens, [a, b]) == TokensNext(TokensNext(tokens, a), b)
  {
    assert [a][1..] == [] && [a, b][1..] == [b] && [b][1..] == [];
    assert TokensAfter(TokensNext(tokens, a), [b]) == TokensNext(TokensNext(tokens, a), b);
  }

  function TokensIn(open: Carried): (r: seq<DeltaToken>)
  {
    if open.Tokens? then open.tokens else []
  }

  /** Inside a delta bracket tokens are recorded, inside a full one chunks. */
  predicate OpenFits(phase: Phase, open: Carried)
  {
    phase.Inside? ==> if phase.full then open.Chunks? else open.Tokens?
  }

  lemma CarriesTokens(phase: Phase, open: Carried, cmd: DiskCommitMsg, w: World)
    requires OpenFits(phase, open) && NextPhase(phase, cmd).Some?
    ensures OpenFits(NextPhase(phase, cmd).value, Carries(open, cmd, w))
    ensures TokensIn(Carries(open, cmd, w)) == TokensNext(TokensIn(open), cmd)
  {
  }

  // ---------------------------------------------------------------- while the file streams

  /** These commands, after what the open bracket holds, make a bracket with these tokens. */
  ghost predicate Holding(sys: System, d: Delivery, cmds: seq<DiskCommitMsg>, tokens: seq<DeltaToken>)
  {
    OpenFits(sys.phase, d.open) && TokensAfter(TokensIn(d.open), cmds) == tokens
  }

  lemma HoldingConsume(sys: System, d: Delivery, setup: Setup, w: World, cmds: seq<DiskCommitMsg>,
                       tokens: seq<DeltaToken>)
    requires Lockstep(sys) && cmds != [] && cmds <= sys.queue && Holding(sys, d, cmds, tokens)
    ensures Holding(ConsumeStep(sys, setup, w), Recorded(d, sys, setup, Consume(w)), cmds[1..], tokens)
  {
    assert cmds[0] == sys.queue[0];
    HeadInPlace(sys);
    CarriesTokens(sys.phase, d.open, sys.queue[0], w);
  }

  lemma OpenStep(sys: System, d: Delivery, setup: Setup, a: Action)
    requires Lockstep(sys) && Enabled(sys, a) && OpenFits(sys.phase, d.open)
    ensures OpenFits(Next(sys, setup, a).phase, Recorded(d, sys, setup, a).open)
  {
    QueueStep(sys, setup, a);
    if a.Consume? {
      HeadInPlace(sys);
      CarriesTokens(sys.phase, d.open, sys.queue[0], a.w);
    }
  }

  lemma {:induction false} OpenAlways(setup: Setup, states: seq<System>, actions: seq<Action>, ds: seq<Delivery>,
                                      k: nat)
    requires DeliveryRun(setup, states, actions, ds) && KeepsPaths(states, actions) && k < |states|
    ensures OpenFits(states[k].phase, ds[k].open)
  {
    if k > 0 {
      OpenAlways(setup, states, actions, ds, k - 1);
      LockstepAlways(setup, states, actions, k - 1);
      assert StepAt(setup, states, actions, k - 1) && RecordedAt(setup, states, actions, ds, k - 1);
      OpenStep(states[k - 1], ds[k - 1], setup, actions[k - 1]);
    }
  }

  /** The tokens that the session has queued for the delta it streams are those of the messages for it. */
  lemma StreamMessage(s: SessionState, msg: SenderMsg, blockSizeOf: nat -> nat, n: int, tokens: seq<DeltaToken>)
    requires s.active == DeltaOf(n) && OnMessage(s, msg, blockSizeOf).s.active == DeltaOf(n)
    requires n in s.table && n !in s.terminated
    ensures TokensAfter(tokens, OnMessage(s, msg, blockSizeOf).cmds) == tokens + TokenOf(Receive(msg), n)
  {
    match msg
    case MatchToken(m, i) => if m in s.table { TokenQueued(s, m, DeltaMatch(s.table[m].path, i), blockSizeOf, tokens); }
    case DataToken(m, data) =>
      if m in s.table { TokenQueued(s, m, DeltaData(s.table[m].path, data), blockSizeOf, tokens); }
    case DeleteMarker(m) => TokensShort(tokens, WriteDeleteMarker(m), AbortFile);
    case _ =>
  }

  lemma TokenQueued(s: SessionState, m: int, cmd: DiskCommitMsg, blockSizeOf: nat -> nat, tokens: seq<DeltaToken>)
    requires s.active.DeltaOf? && m in s.table && (cmd.DeltaMatch? || cmd.DeltaData?)
    ensures
      TokensAfter(tokens, OnDelta(s, m, cmd, DeltaOf(m), blockSizeOf).cmds)
      == if DeltaAllowed(s, m) then TokensNext(tokens, cmd) else tokens
  {
    TokensShort(tokens, cmd, cmd);
    assert [] + [cmd] == [cmd];
  }

  /** The message that begins the delta is its first token. */
  lemma StreamBegins(s: SessionState, msg: SenderMsg, blockSizeOf: nat -> nat, n: int, tokens: seq<DeltaToken>)
    requires s.active == NoTransfer && OnMessage(s, msg, blockSizeOf).s.active == DeltaOf(n)
    ensures TokensAfter(tokens, OnMessage(s, msg, blockSizeOf).cmds) == TokenOf(Receive(msg), n)
  {
    assert n in s.table;
    var begin := DeltaBegin(n, s.table[n], blockSizeOf(s.table[n].size));
    match msg
    case MatchToken(_, i) =>
      TokensShort(tokens, begin, DeltaMatch(s.table[n].path, i));
      assert [begin] + [DeltaMatch(s.table[n].path, i)] == [begin, DeltaMatch(s.table[n].path, i)];
    case DataToken(_, data) =>
      TokensShort(tokens, begin, DeltaData(s.table[n].path, data));
      assert [begin] + [DeltaData(s.table[n].path, data)] == [begin, DeltaData(s.table[n].path, data)];
    case _ =>
  }

  predicate Streaming(sys: System, n: int)
  {
    sys.loop.Running? && sys.session.active == DeltaOf(n)
  }

  /** Nothing streams at step b, and from the message of that step up to step j the delta of index n does. */
  ghost predicate StreamsFrom(states: seq<System>, n: int, b: nat, j: nat)
    requires b <= j < |states|
  {
    && states[b].session.active == NoTransfer
    && forall t {:trigger Streaming(states[t], n)} :: b < t <= j ==> Streaming(states[t], n)
  }

  lemma StreamStart(sys: System, d: Delivery, setup: Setup, a: Action, n: int)
    requires Enabled(sys, a) && OpenFits(sys.phase, d.open) && sys.session.active == NoTransfer
    requires Streaming(Next(sys, setup, a), n)
    ensures Holding(Next(sys, setup, a), Recorded(d, sys, setup, a), Next(sys, setup, a).queue, TokenOf(a, n))
  {
    if a.TakeAck? { OutcomeKeepsActive(sys.session, sys.acks[0]); }
    var r := OnMessage(sys.session, a.msg, setup.blockSizeOf);
    StreamBegins(sys.session, a.msg, setup.blockSizeOf, n, TokensAfter(TokensIn(d.open), sys.queue));
    TokensAppend(TokensIn(d.open), sys.queue, r.cmds);
    assert sys.queue + r.cmds + [] == sys.queue + r.cmds;
  }

  lemma StreamStep(sys: System, d: Delivery, setup: Setup, a: Action, n: int, tokens: seq<DeltaToken>)
    requires Lockstep(sys) && Enabled(sys, a) && Streaming(sys, n) && n !in sys.session.terminated
    requires Holding(sys, d, sys.queue, tokens) && Streaming(Next(sys, setup, a), n)
    ensures Holding(Next(sys, setup, a), Recorded(d, sys, setup, a), Next(sys, setup, a).queue,
                    tokens + TokenOf(a, n))
  {
    match a
    case Receive(msg) =>
      var r := OnMessage(sys.session, msg, setup.blockSizeOf);
      StreamMessage(sys.session, msg, setup.blockSizeOf, n, tokens);
      TokensAppend(TokensIn(d.open), sys.queue, r.cmds);
      assert sys.queue + r.cmds + [] == sys.queue + r.cmds;
    case Consume(w) =>
      HoldingConsume(sys, d, setup, w, sys.queue, tokens);
      assert tokens + [] == tokens;
    case TakeAck =>
      OutcomeKeepsActive(sys.session, sys.acks[0]);
      assert sys.queue + [] + [] == sys.queue && tokens + [] == tokens;
    case Break =>
  }

  lemma SettledGrows(sys: System, setup: Setup, a: Action)
    requires Enabled(sys, a)
    ensures sys.session.terminated <= Next(sys, setup, a).session.terminated
  {
    if a.Receive? { MessageCounts(sys.session, a.msg, setup.blockSizeOf); }
  }

  lemma {:induction false} SettledStays(setup: Setup, states: seq<System>, actions: seq<Action>, t: nat, k: nat)
    requires Run(setup, states, actions) && t <= k < |states|
    ensures states[t].session.terminated <= states[k].session.terminated
    decreases k
  {
    if k > t {
      SettledStays(setup, states, actions, t, k - 1);
      assert StepAt(setup, states, actions, k - 1);
      SettledGrows(states[k - 1], setup, actions[k - 1]);
    }
  }

  lemma StreamFirst(setup: Setup, states: seq<System>, actions: seq<Action>, ds: seq<Delivery>, n: int, b: nat)
    requires DeliveryRun(setup, states, actions, ds) && KeepsPaths(states, actions) && b < |actions|
    requires states[b].session.active == NoTransfer && Streaming(states[b + 1], n)
    ensures Holding(states[b + 1], ds[b + 1], states[b + 1].queue, TokenOf(actions[b], n))
  {
    OpenAlways(setup, states, actions, ds, b);
    assert StepAt(setup, states, actions, b) && RecordedAt(setup, states, actions, ds, b);
    StreamStart(states[b], ds[b], setup, actions[b], n);
  }

  lemma StreamNext(setup: Setup, states: seq<System>, actions: seq<Action>, ds: seq<Delivery>, n: int, t: nat,
                   tokens: seq<DeltaToken>)
    requires DeliveryRun(setup, states, actions, ds) && KeepsPaths(states, actions) && t < |actions|
    requires Streaming(states[t], n) && n !in states[t].session.terminated && Streaming(states[t + 1], n)
    requires Holding(states[t], ds[t], states[t].queue, tokens)
    ensures Holding(states[t + 1], ds[t + 1], states[t + 1].queue, tokens + TokenOf(actions[t], n))
  {
    LockstepAlways(setup, states, actions, t);
    assert StepAt(setup, states, actions, t) && RecordedAt(setup, states, actions, ds, t);
    StreamStep(states[t], ds[t], setup, actions[t], n, tokens);
  }

  /** While the delta streams, bracket and queue together hold the tokens of the messages for it. */
  lemma {:induction false} StreamHolds(setup: Setup, states: seq<System>, actions: seq<Action>, ds: seq<Delivery>,
                                       n: int, b: nat, j: nat, t: nat)
    requires DeliveryRun(setup, states, actions, ds) && KeepsPaths(states, actions)
    requires b < t <= j < |states| && StreamsFrom(states, n, b, j) && n !in states[j].session.terminated
    ensures Holding(states[t], ds[t], states[t].queue, TokensFor(actions, n, b, t))
    decreases t
  {
    var last := t - 1;
    assert Streaming(states[t], n);
    TokensForSnoc(actions, n, b, last);
    if last == b {
      StreamFirst(setup, states, actions, ds, n, b);
    } else {
      StreamHolds(setup, states, actions, ds, n, b, j, last);
      SettledStays(setup, states, actions, last, j);
      assert Streaming(states[last], n);
      StreamNext(setup, states, actions, ds, n, last, TokensFor(actions, n, b, last));
    }
  }

  // ---------------------------------------------------------------- until its end is taken

  /** The end of index n stands in the queue behind commands that complete its bracket with these tokens. */
  ghost predicate EndWaits(sys: System, d: Delivery, ahead: nat, n: int, tokens: seq<DeltaToken>)
  {
    && ahead < |sys.queue| && sys.queue[ahead].DeltaEnd? && sys.queue[ahead].ndx == n
    && Holding(sys, d, sys.queue[..ahead], tokens)
  }

  lemma EndArrives(sys: System, d: Delivery, setup: Setup, n: int, hash: Option<string>, tokens: seq<DeltaToken>)
    requires sys.loop.Running? && DeltaAllowed(sys.session, n) && OpenFits(sys.phase, d.open)
    requires if sys.session.active == NoTransfer then tokens == [] else Holding(sys, d, sys.queue, tokens)
    ensures
      var sys' := ReceiveStep(sys, setup, EndOfFile(n, hash));
      |sys'.queue| > 0 && EndWaits(sys', d, |sys'.queue| - 1, n, tokens)
  {
    var s := sys.session;
    var begin, end := LazyBegin(s, n, setup.blockSizeOf), DeltaEnd(n, s.table[n].path, hash);
    var sys' := ReceiveStep(sys, setup, EndOfFile(n, hash));
    assert sys'.queue == sys.queue + (begin + [end]) + [];
    assert sys'.queue == (sys.queue + begin) + [end];
    assert sys'.queue[..|sys'.queue| - 1] == sys.queue + begin;
    TokensAppend(TokensIn(d.open), sys.queue, begin);
    TokensShort(TokensAfter(TokensIn(d.open), sys.queue), DeltaBegin(n, s.table[n], setup.blockSizeOf(s.table[n].size)),
                end);
  }

  lemma {:induction false} StillHolds(setup: Setup, states: seq<System>, actions: seq<Action>, ds: seq<Delivery>,
                                      from: nat, k: nat, before: seq<DiskCommitMsg>, tokens: seq<DeltaToken>)
    requires DeliveryRun(setup, states, actions, ds) && KeepsPaths(states, actions) && from <= k < |states|
    requires before <= states[from].queue && Holding(states[from], ds[from], before, tokens)
    requires Consumes(actions, from, k) <= |before|
    ensures Holding(states[k], ds[k], before[Consumes(actions, from, k)..], tokens)
    decreases k
  {
    if k > from {
      StillHolds(setup, states, actions, ds, from, k - 1, before, tokens);
      var taken := Consumes(actions, from, k - 1);
      QueueIsFifo(setup, states, actions, from, k - 1);
      PrefixDrop(before, states[from].queue, states[k - 1].queue, taken);
      LockstepAlways(setup, states, actions, k - 1);
      assert StepAt(setup, states, actions, k - 1) && RecordedAt(setup, states, actions, ds, k - 1);
      HoldingNext(states[k - 1], ds[k - 1], setup, actions[k - 1], before, taken, tokens);
    }
  }

  lemma HoldingNext(sys: System, d: Delivery, setup: Setup, a: Action, before: seq<DiskCommitMsg>, taken: nat,
                    tokens: seq<DeltaToken>)
    requires Lockstep(sys) && Enabled(sys, a) && taken <= |before| && before[taken..] <= sys.queue
    requires Holding(sys, d, before[taken..], tokens) && (a.Consume? ==> taken < |before|)
    ensures Holding(Next(sys, setup, a), Recorded(d, sys, setup, a), before[if a.Consume? then taken + 1 else taken..],
                    tokens)
  {
    QueueStep(sys, setup, a);
    if a.Consume? { HoldingConsume(sys, d, setup, a.w, before[taken..], tokens); }
  }

  lemma EndTakenHolds(sys: System, d: Delivery, n: int, tokens: seq<DeltaToken>)
    requires Lockstep(sys) && sys.queue != [] && sys.queue[0].DeltaEnd? && sys.queue[0].ndx == n
    requires Holding(sys, d, [], tokens)
    ensures d.open.Tokens? && d.open.tokens == tokens
  {
    HeadInPlace(sys);
  }

  lemma EndTaken(setup: Setup, states: seq<System>, actions: seq<Action>, ds: seq<Delivery>, from: nat, k: nat,
                 ahead: nat, n: int, tokens: seq<DeltaToken>)
    requires DeliveryRun(setup, states, actions, ds) && KeepsPaths(states, actions) && from <= k < |actions|
    requires EndWaits(states[from], ds[from], ahead, n, tokens) && Consumes(actions, from, k) == ahead
    ensures ds[k].open.Tokens? && ds[k].open.tokens == tokens
    ensures states[k].queue != [] && states[k].queue[0].DeltaEnd? && states[k].queue[0].ndx == n
  {
    StillHolds(setup, states, actions, ds, from, k, states[from].queue[..ahead], tokens);
    QueueIsFifo(setup, states, actions, from, k);
    HeadOf(states[from].queue, ahead, states[k].queue);
    LockstepAlways(setup, states, actions, k);
    EndTakenHolds(states[k], ds[k], n, tokens);
  }

  // ---------------------------------------------------------------- the bracket carries the messages

  /**
   * The end of index n arrives in step j for a delta that streams since step b, and step k takes it from the queue.
   * When step j itself begins the bracket, b is j.
   */
  ghost predicate EndsAt(states: seq<System>, actions: seq<Action>, n: int, b: nat, j: nat, k: nat)
    requires b <= j < k < |actions| < |states|
  {
    && StreamsFrom(states, n, b, j) && DeltaAllowed(states[j].session, n)
    && actions[j].Receive? && actions[j].msg.EndOfFile? && actions[j].msg.ndx == n && actions[k].Consume?
    && states[j + 1].queue != [] && Consumes(actions, j + 1, k) == |states[j + 1].queue| - 1
  }

  /** The bracket that a delta's end closes carries exactly the tokens of the messages received for it. */
  lemma BracketCarries(setup: Setup, states: seq<System>, actions: seq<Action>, ds: seq<Delivery>, n: int, b: nat,
                       j: nat, k: nat)
    requires DeliveryRun(setup, states, actions, ds) && KeepsPaths(states, actions) && b <= j < k < |actions|
    requires EndsAt(states, actions, n, b, j, k)
    ensures ds[k].open.Tokens? && ds[k].open.tokens == TokensFor(actions, n, b, j)
    ensures states[k].queue != [] && states[k].queue[0].DeltaEnd? && states[k].queue[0].ndx == n
  {
    EndQueued(setup, states, actions, ds, n, b, j);
    EndTaken(setup, states, actions, ds, j + 1, k, |states[j + 1].queue| - 1, n, TokensFor(actions, n, b, j));
  }

  lemma EndQueued(setup: Setup, states: seq<System>, actions: seq<Action>, ds: seq<Delivery>, n: int, b: nat, j: nat)
    requires DeliveryRun(setup, states, actions, ds) && KeepsPaths(states, actions) && b <= j < |actions|
    requires StreamsFrom(states, n, b, j) && DeltaAllowed(states[j].session, n)
    requires actions[j].Receive? && actions[j].msg.EndOfFile? && actions[j].msg.ndx == n
    ensures
      var queue := states[j + 1].queue;
      queue != [] && EndWaits(states[j + 1], ds[j + 1], |queue| - 1, n, TokensFor(actions, n, b, j))
  {
    assert StepAt(setup, states, actions, j) && RecordedAt(setup, states, actions, ds, j);
    OpenAlways(setup, states, actions, ds, j);
    if b < j {
      assert Streaming(states[j], n);
      StreamHolds(setup, states, actions, ds, n, b, j, j);
    }
    EndArrives(states[j], ds[j], setup, n, actions[j].msg.sourceHash, TokensFor(actions, n, b, j));
  }

  /** The tokens are the sender's delta of the source against the signatures of the basis that was found, if any. */
  ghost predicate DeltaFor(h: StrongHash, open: Carried, src: Bytes, tokens: seq<DeltaToken>)
  {
    open.Tokens? ==>
      var basis, bs := BasisBytes(open.basis), open.blockSize;
      && tokens == DeltaAgainst(h, Signatures(SignWith(h), basis, bs), bs, src)
      && NoCollision(h, src, basis, bs) && |Signatures(SignWith(h), basis, bs)| <= U32_SIZE
  }

  lemma MeansSource(h: StrongHash, open: Carried, src: Bytes)
    requires open.Tokens? && DeltaFor(h, open, src, open.tokens)
    ensures Meant(open) == src
  {
    RoundTrip(h, BasisBytes(open.basis), open.blockSize, src);
  }

  /** Whatever the step publishes is this file with this content. */
  predicate Publishes(sys: System, setup: Setup, w: World, n: int, src: Bytes)
  {
    sys.queue != [] &&
    var e := Dispatch(sys.committer, setup.check, sys.queue[0], w);
    e.published.Some? ==> e.published.value.ndx == n && Content(e.published.value.sent) == src
  }

  lemma SoundPublishes(sys: System, d: Delivery, setup: Setup, a: Action, digest: Bytes -> string, n: int)
    requires sys.queue != [] && a.Consume? && sys.queue[0].DeltaEnd? && sys.queue[0].ndx == n
    requires Sound(sys, d, setup, a, digest)
    ensures Publishes(sys, setup, a.w, n, Meant(d.open))
  {
  }

  /**
   * End to end, over messages: if the tokens received for an index from its begin to its end are the sender's delta of
   * a source against the signatures of the basis that the committer found, then what the committer publishes when it
   * takes that end is the source, under that index.
   */
  lemma SourceArrives(setup: Setup, states: seq<System>, actions: seq<Action>, ds: seq<Delivery>, n: int, b: nat,
                      j: nat, k: nat, digest: Bytes -> string, h: StrongHash, src: Bytes)
    requires DeliveryRun(setup, states, actions, ds) && KeepsPaths(states, actions) && b <= j < k < |actions|
    requires EndsAt(states, actions, n, b, j, k) && TruthfulWriter(states[k], setup, actions[k], digest)
    requires DeltaFor(h, ds[k].open, src, TokensFor(actions, n, b, j))
    ensures Publishes(states[k], setup, actions[k].w, n, src)
  {
    BracketCarries(setup, states, actions, ds, n, b, j, k);
    PublishedAsMeant(setup, states, actions, ds, k, digest);
    MeansSource(h, ds[k].open, src);
    SoundPublishes(states[k], ds[k], setup, actions[k], digest, n);
  }
}
