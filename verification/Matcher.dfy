/** The streaming matcher: a signature table, a carry buffer and a rolling window. */
module Matcher {
  import opened Bytes
  import opened Rolling
  import opened Signature
  import opened Delta
  import opened Scan

  // ---------------------------------------------------------------- choosing a block

  /** The least index at or after `from` that carries the signature. */
  function FirstIndex(signatures: seq<BlockSignature>, sig: BlockSignature, from: nat): (r: Option<nat>)
    requires from <= |signatures|
    ensures r.Some? ==> from <= r.value < |signatures| && signatures[r.value] == sig
    ensures r.Some? ==> forall j :: from <= j < r.value ==> signatures[j] != sig
    ensures r.None? ==> forall j :: from <= j < |signatures| ==> signatures[j] != sig
    decreases |signatures| - from
  {
    if from == |signatures| then None
    else if signatures[from] == sig then Some(from)
    else FirstIndex(signatures, sig, from + 1)
  }

  /** An index squeezed into 32 bits. */
  function Truncate32(i: nat): (r: nat)
    ensures i < U32_SIZE ==> r == i
  {
    i % U32_SIZE
  }

  /** The block at the window's own position, when the window starts a block with this signature. */
  function SamePosition(signatures: seq<BlockSignature>, bs: nat, sig: BlockSignature, position: nat): (r: Option<nat>)
    requires bs > 0
    ensures r.Some? ==> r.value < |signatures| && signatures[r.value] == sig
  {
    if position % bs != 0 then None
    else
      var index := position / bs;
      if index < U32_SIZE && index < |signatures| && signatures[index] == sig then Some(index) else None
  }

  /** The block a signature at a position refers to: its own block if it can, else the first that fits. */
  function Select(signatures: seq<BlockSignature>, bs: nat, sig: BlockSignature, position: nat): (r: Option<nat>)
    ensures r.Some? && |signatures| <= U32_SIZE ==> r.value < |signatures| && signatures[r.value] == sig
    ensures r.None? && bs > 0 ==> forall j :: 0 <= j < |signatures| ==> signatures[j] != sig
  {
    if bs == 0 then None
    else
      var preferred := SamePosition(signatures, bs, sig, position);
      if preferred.Some? then preferred
      else match FirstIndex(signatures, sig, 0)
           case None => None
           case Some(i) => Some(Truncate32(i))
  }

  function ChooseWith(signatures: seq<BlockSignature>, bs: nat, sign: Signer): (r: Chooser)
  {
    (w: Bytes, p: nat) => Select(signatures, bs, sign(w), p)
  }

  // ---------------------------------------------------------------- the signature table

  type SigTable = map<int, seq<(nat, BlockSignature)>>

  /** The blocks among the first n with a given rolling checksum, in order. */
  function Candidates(signatures: seq<BlockSignature>, rolling: int, n: nat): (r: seq<(nat, BlockSignature)>)
    requires n <= |signatures|
  {
    if n == 0 then []
    else
      var before := Candidates(signatures, rolling, n - 1);
      if signatures[n - 1].rolling == rolling then before + [(Truncate32(n - 1), signatures[n - 1])] else before
  }

  ghost predicate Indexes(table: SigTable, signatures: seq<BlockSignature>, n: nat)
    requires n <= |signatures|
  {
    forall rolling: int :: Candidates(signatures, rolling, n) == if rolling in table then table[rolling] else []
  }

  method BuildSigTable(signatures: seq<BlockSignature>) returns (table: SigTable)
    ensures Indexes(table, signatures, |signatures|)
  {
    table := map[];
    for idx := 0 to |signatures|
      invariant Indexes(table, signatures, idx)
    {
      var sig := signatures[idx];
      var bucket := if sig.rolling in table then table[sig.rolling] else [];
      table := table[sig.rolling := bucket + [(Truncate32(idx), sig)]];
    }
  }

  /** The first candidate with the strong hash. */
  function FindStrong(candidates: seq<(nat, BlockSignature)>, strong: Strong): (r: Option<nat>)
  {
    if candidates == [] then None
    else if candidates[0].1.strong == strong then Some(candidates[0].0)
    else FindStrong(candidates[1..], strong)
  }

  lemma {:induction false} FindStrongSnoc(cs: seq<(nat, BlockSignature)>, c: (nat, BlockSignature), strong: Strong)
    ensures FindStrong(cs + [c], strong) ==
            if FindStrong(cs, strong).Some? then FindStrong(cs, strong)
            else if c.1.strong == strong then Some(c.0) else None
  {
    if cs != [] {
      assert (cs + [c])[1..] == cs[1..] + [c];
      FindStrongSnoc(cs[1..], c, strong);
    }
  }

  /** Searching one bucket by strong hash finds the first block with the whole signature. */
  lemma {:induction false} BucketSearch(signatures: seq<BlockSignature>, sig: BlockSignature, n: nat)
    requires n <= |signatures|
    ensures FindStrong(Candidates(signatures, sig.rolling, n), sig.strong) ==
            match FirstIndex(signatures[..n], sig, 0) { case None => None case Some(i) => Some(Truncate32(i)) }
  {
    if n > 0 {
      BucketSearch(signatures, sig, n - 1);
      FindStrongSnoc(Candidates(signatures, sig.rolling, n - 1), (Truncate32(n - 1), signatures[n - 1]), sig.strong);
      var before, now := FirstIndex(signatures[..n - 1], sig, 0), FirstIndex(signatures[..n], sig, 0);
      assert forall j :: 0 <= j < n - 1 ==> signatures[..n - 1][j] == signatures[..n][j];
      if before.Some? {
        assert signatures[..n][before.value] == sig;
        assert now == before;
      } else if signatures[n - 1] == sig {
        assert signatures[..n][n - 1] == sig;
        assert now == Some(n - 1);
      }
    }
  }

  // ---------------------------------------------------------------- the matcher

  // Marks the windows at which the chooser is actually consulted.
  ghost predicate Queried(w: Bytes, p: nat) { true }

  ghost predicate Agrees(choose: Chooser, signatures: seq<BlockSignature>, bs: nat, sign: Signer)
  {
    forall w, p {:trigger Queried(w, p)} :: Queried(w, p) ==> choose(w, p) == Select(signatures, bs, sign(w), p)
  }

  /** A point on the way of the scan of everything fed so far. */
  ghost predicate OnTheWay(choose: Chooser, bs: nat, fed: Bytes, at: Progress)
  {
    bs > 0 && at.pos <= |fed| && ScanAll(choose, bs, fed, START) == ScanAll(choose, bs, fed, at)
  }

  /** Where the scan has stopped it goes on when more is fed. */
  lemma WayExtends(choose: Chooser, bs: nat, fed: Bytes, more: Bytes, at: Progress)
    requires OnTheWay(choose, bs, fed, at) && at.pos + bs > |fed|
    ensures OnTheWay(choose, bs, fed + more, at)
  {
    ScanExtend(choose, bs, fed, more, START);
    assert ScanAll(choose, bs, fed, at) == at;
  }

  lemma WaySteps(choose: Chooser, bs: nat, fed: Bytes, at: Progress)
    requires OnTheWay(choose, bs, fed, at) && at.pos + bs <= |fed|
    ensures OnTheWay(choose, bs, fed, Step(choose, bs, fed, at))
  {
  }

  class DeltaMatcher {
    const sigTable: SigTable
    const bs: nat
    const signatures: seq<BlockSignature>
    const h: StrongHash
    var consumed: nat
    var carry: Bytes
    var pos: nat
    var rc: RollingChecksum
    var windowInit: bool
    var literalBuf: Bytes
    ghost const choose: Chooser
    ghost var fed: Bytes
    ghost var emitted: seq<DeltaToken>

    ghost predicate Configured()
    {
      && bs < U32_SIZE
      && Indexes(sigTable, signatures, |signatures|)
      && Agrees(choose, signatures, bs, SignWith(h))
    }

    ghost function At(): Progress
      reads this
    {
      Progress(emitted, consumed + pos, literalBuf)
    }

    /** The carry buffer is the unprocessed end of what was fed, and the checksum fits the window. */
    ghost predicate Buffers()
      reads this, rc
    {
      && pos <= |carry| && consumed <= |fed| && carry == fed[consumed..]
      && |literalBuf| < LITERAL_LIMIT
      && (windowInit ==> pos + bs <= |carry| && rc.Stands(carry[pos..pos + bs]))
    }

    /** The fields are a point on the way of the scan of everything fed so far. */
    ghost predicate Working()
      reads this, rc
    {
      Buffers() && OnTheWay(choose, bs, fed, At())
    }

    /** Between calls the scan has gone as far as it can and the processed prefix is gone. */
    ghost predicate Valid()
      reads this, rc
    {
      && Configured()
      && if bs == 0 then
           carry == [] && pos == 0 && literalBuf == fed && emitted == []
         else
           Working() && pos == 0 && |carry| < bs
    }

    constructor (signatures: seq<BlockSignature>, blockSize: nat, h: StrongHash)
      requires blockSize < U32_SIZE
      ensures Valid() && fresh(rc) && fed == [] && emitted == []
      ensures bs == blockSize && choose == ChooseWith(signatures, blockSize, SignWith(h))
    {
      var table := BuildSigTable(signatures);
      sigTable, bs, this.signatures, this.h := table, blockSize, signatures, h;
      choose := ChooseWith(signatures, blockSize, SignWith(h));
      consumed, carry, pos, windowInit, literalBuf := 0, [], 0, false, [];
      rc := new RollingChecksum();
      fed, emitted := [], [];
    }

    method Push(bytes: Bytes) returns (tokens: seq<DeltaToken>)
      requires Valid()
      modifies this, rc
      ensures Valid() && (rc == old(rc) || fresh(rc))
      ensures fed == old(fed) + bytes && emitted == old(emitted) + tokens
      ensures bs > 0 ==> |carry| < bs && |literalBuf| < LITERAL_LIMIT
    {
      if bs == 0 {
        literalBuf := literalBuf + bytes;
        fed := fed + bytes;
        return [];
      }
      Feed(bytes);
      tokens := Process();
      Compact();
    }

    /** Appends to the carry buffer; the scan so far is unaffected. */
    method Feed(bytes: Bytes)
      requires Working() && pos == 0 && |carry| < bs
      modifies this`carry, this`fed
      ensures Working() && fed == old(fed) + bytes
    {
      WayExtends(choose, bs, fed, bytes, At());
      assert (fed + bytes)[consumed..] == carry + bytes;
      carry := carry + bytes;
      fed := fed + bytes;
      assert At() == old(At());
    }

    method Compact()
      requires Working() && pos + bs > |carry|
      modifies this`consumed, this`carry, this`pos
      ensures Working() && pos == 0 && |carry| < bs && At() == old(At())
    {
      if pos > 0 {
        consumed := consumed + pos;
        carry := carry[pos..];
        pos := 0;
      }
    }

    method Process() returns (tokens: seq<DeltaToken>)
      requires Configured() && Working()
      modifies this, rc
      ensures Working() && (rc == old(rc) || fresh(rc))
      ensures pos + bs > |carry|
      ensures fed == old(fed) && emitted == old(emitted) + tokens
    {
      tokens := [];
      while pos + bs <= |carry|
        invariant Working() && (rc == old(rc) || fresh(rc))
        invariant fed == old(fed) && emitted == old(emitted) + tokens
        decreases |carry| - pos
      {
        var more := Advance();
        Associate(old(emitted), tokens, more);
        tokens := tokens + more;
      }
    }

    /** One turn of the loop: look the window up, then jump a block or take one literal byte. */
    method Advance() returns (tokens: seq<DeltaToken>)
      requires Configured() && Working() && pos + bs <= |carry|
      modifies this, rc
      ensures Working() && (rc == old(rc) || fresh(rc))
      ensures carry == old(carry) && pos > old(pos)
      ensures fed == old(fed) && emitted == old(emitted) + tokens
    {
      InitWindow();
      var selected := Find();
      tokens := Apply(selected);
    }

    /** Looks up the current window at its absolute position. */
    method Find() returns (selected: Option<nat>)
      requires Configured() && Working() && pos + bs <= |carry| && windowInit
      ensures selected == choose(fed[At().pos..At().pos + bs], At().pos)
    {
      var window := carry[pos..pos + bs];
      assert window == fed[At().pos..At().pos + bs];
      var rolling := rc.GetDigest(window);
      selected := Lookup(rolling, window, consumed + pos);
    }

    method InitWindow()
      requires Buffers() && pos + bs <= |carry|
      modifies this`rc, this`windowInit
      ensures Buffers() && windowInit && (rc == old(rc) || fresh(rc)) && At() == old(At())
    {
      if !windowInit {
        rc := new RollingChecksum();
        rc.Init(carry[pos..pos + bs]);
        windowInit := true;
      }
    }

    /** What a lookup result does to the fields. */
    method Apply(selected: Option<nat>) returns (tokens: seq<DeltaToken>)
      requires bs < U32_SIZE && Working() && pos + bs <= |carry| && windowInit
      requires selected == choose(fed[At().pos..At().pos + bs], At().pos)
      modifies this, rc
      ensures Working() && rc == old(rc)
      ensures carry == old(carry) && pos > old(pos)
      ensures fed == old(fed) && emitted == old(emitted) + tokens
    {
      WaySteps(choose, bs, fed, At());
      if selected.Some? {
        tokens := TakeBlock(selected.value);
      } else {
        tokens := TakeLiteral();
      }
    }

    /** A reference to the block, behind the pending literal; the window starts afresh behind it. */
    method TakeBlock(index: nat) returns (tokens: seq<DeltaToken>)
      requires bs > 0 && Buffers() && pos + bs <= |carry|
      requires choose(fed[At().pos..At().pos + bs], At().pos) == Some(index)
      modifies this
      ensures Buffers() && rc == old(rc) && At() == old(Step(choose, bs, fed, At()))
      ensures carry == old(carry) && pos > old(pos)
      ensures fed == old(fed) && emitted == old(emitted) + tokens
    {
      tokens := Flush(literalBuf) + [Match(index)];
      Associate(emitted, Flush(literalBuf), [Match(index)]);
      literalBuf := [];
      pos := pos + bs;
      windowInit := false;
      emitted := emitted + tokens;
    }

    /** One more literal byte; a full literal buffer becomes a token. */
    method TakeLiteral() returns (tokens: seq<DeltaToken>)
      requires 0 < bs < U32_SIZE && Buffers() && pos + bs <= |carry| && windowInit
      requires choose(fed[At().pos..At().pos + bs], At().pos).None?
      modifies this, rc
      ensures Buffers() && rc == old(rc) && At() == old(Step(choose, bs, fed, At()))
      ensures carry == old(carry) && pos > old(pos)
      ensures fed == old(fed) && emitted == old(emitted) + tokens
    {
      assert carry[pos] == fed[At().pos];
      tokens := TakeByte();
      Slide();
      assert emitted + [] == emitted;
      emitted := emitted + tokens;
    }

    method TakeByte() returns (tokens: seq<DeltaToken>)
      requires pos < |carry| && |literalBuf| < LITERAL_LIMIT
      modifies this`literalBuf
      ensures |literalBuf| < LITERAL_LIMIT
      ensures
        var lit := old(literalBuf) + [carry[pos]];
        if |lit| >= LITERAL_LIMIT then tokens == [Data(lit)] && literalBuf == [] else tokens == [] && literalBuf == lit
    {
      tokens := [];
      literalBuf := literalBuf + [carry[pos]];
      if |literalBuf| >= LITERAL_LIMIT {
        tokens := [Data(literalBuf)];
        literalBuf := [];
      }
    }

    /** Moves the window by one byte, incrementally when the next byte is already there. */
    method Slide()
      requires pos + bs <= |carry| && 0 < bs < U32_SIZE
      requires windowInit && rc.Stands(carry[pos..pos + bs])
      modifies this`pos, this`windowInit, rc
      ensures pos == old(pos) + 1
      ensures windowInit ==> pos + bs <= |carry| && rc.Stands(carry[pos..pos + bs])
    {
      pos := pos + 1;
      if pos + bs <= |carry| {
        ghost var window := carry[pos - 1..pos - 1 + bs];
        assert window[1..] + [carry[pos + bs - 1]] == carry[pos..pos + bs];
        rc.Update(carry[pos - 1], carry[pos + bs - 1], bs as u32, window);
      } else {
        windowInit := false;
      }
    }

    /** Rolling checksum first, strong hash only when a bucket exists; the own position is preferred. */
    method Lookup(rolling: int, window: Bytes, position: nat) returns (r: Option<nat>)
      requires Configured() && bs > 0 && rolling == Checksum(window)
      ensures r == choose(window, position)
    {
      ghost var sig := SignWith(h)(window);
      BucketSearch(signatures, sig, |signatures|);
      assert signatures[..|signatures|] == signatures;
      assert Queried(window, position);
      r := None;
      if rolling in sigTable {
        var strong := h(window);
        r := SamePosition(signatures, bs, BlockSignature(rolling, strong), position);
        if r.None? {
          r := FindStrong(sigTable[rolling], strong);
        }
      } else {
        assert Candidates(signatures, rolling, |signatures|) == [];
      }
    }

    method Finish() returns (tokens: seq<DeltaToken>)
      requires Valid()
      modifies this, rc
      ensures old(emitted) + tokens == DeltaOf(choose, bs, fed)
      ensures fed == old(fed)
      ensures carry == [] && pos == 0 && literalBuf == []
    {
      tokens := [];
      if bs != 0 {
        tokens := Process();
        assert carry[pos..] == fed[At().pos..];
      }
      var rest := literalBuf + carry[pos..];
      carry, pos, literalBuf := [], 0, [];
      var tail := ChopLoop(rest);
      if bs == 0 {
        assert rest == fed;
      }
      Associate(old(emitted), tokens, tail);
      tokens := tokens + tail;
    }
  }

  /** Cuts leftover bytes at every mebibyte. */
  method ChopLoop(data: Bytes) returns (tokens: seq<DeltaToken>)
    ensures tokens == Chop(data)
  {
    tokens := [];
    var start := 0;
    while start < |data|
      invariant 0 <= start
      invariant tokens + Chop(data[if start < |data| then start else |data|..]) == Chop(data)
      decreases |data| - start
    {
      var end := if start + LITERAL_LIMIT < |data| then start + LITERAL_LIMIT else |data|;
      var rest := data[start..];
      if |rest| > LITERAL_LIMIT {
        assert rest[..LITERAL_LIMIT] == data[start..end] && rest[LITERAL_LIMIT..] == data[end..];
      } else {
        assert rest == data[start..end];
      }
      Associate(tokens, [Data(data[start..end])], Chop(data[end..]));
      tokens := tokens + [Data(data[start..end])];
      start := start + LITERAL_LIMIT;
    }
  }
}
