/** Rebuilding a file from a basis and delta tokens, and the codec laws. */
module Reconstruct {
  import opened Bytes
  import opened Signature
  import opened Delta
  import opened Scan
  import opened Matcher

  /** What a token asks of the caller: write bytes at hand, or read a range of the basis. */
  datatype ReconstructStep = Ready(bytes: Bytes) | NeedBasis(offset: nat, len: nat)

  datatype Reconstructor = Reconstructor(blockSize: nat, basisSize: nat) {
    function Push(token: DeltaToken): (r: ReconstructStep)
      ensures r.NeedBasis? ==> r.offset < basisSize && r.offset + r.len <= basisSize && r.len <= blockSize
    {
      match token
      case Data(bytes) => Ready(bytes)
      case Match(i) =>
        var offset := i * blockSize;
        if offset >= basisSize then Ready([])
        else
          var end := if offset + blockSize < basisSize then offset + blockSize else basisSize;
          NeedBasis(offset, end - offset)
    }
  }

  function Resolve(basis: Bytes, step: ReconstructStep): (r: Bytes)
    requires step.NeedBasis? ==> step.offset + step.len <= |basis|
  {
    match step
    case Ready(bytes) => bytes
    case NeedBasis(offset, len) => basis[offset..offset + len]
  }

  /** The clamped range of a step is the block the token names. */
  lemma PushResolves(basis: Bytes, bs: nat, token: DeltaToken)
    ensures Resolve(basis, Reconstructor(bs, |basis|).Push(token)) == Segment(basis, bs, token)
  {
  }

  method Reconstruct(basis: Bytes, tokens: seq<DeltaToken>, bs: nat) returns (result: Bytes)
    ensures result == Rebuild(basis, bs, tokens)
  {
    var reconstructor := Reconstructor(bs, |basis|);
    result := [];
    for i := 0 to |tokens|
      invariant result == Rebuild(basis, bs, tokens[..i])
    {
      PushResolves(basis, bs, tokens[i]);
      assert tokens[..i + 1] == tokens[..i] + [tokens[i]];
      RebuildSnoc(basis, bs, tokens[..i], tokens[i]);
      result := result + Resolve(basis, reconstructor.Push(tokens[i]));
    }
    assert tokens[..|tokens|] == tokens;
  }

  // ---------------------------------------------------------------- streaming equals whole

  /** The delta of a source against given signatures. */
  function DeltaAgainst(h: StrongHash, signatures: seq<BlockSignature>, bs: nat, src: Bytes): (r: seq<DeltaToken>)
  {
    DeltaOf(ChooseWith(signatures, bs, SignWith(h)), bs, src)
  }

  /** However the source is cut into pushes, the tokens are those of the whole source. */
  method StreamMatch(pieces: seq<Bytes>, signatures: seq<BlockSignature>, bs: nat, h: StrongHash)
    returns (tokens: seq<DeltaToken>)
    requires bs < U32_SIZE
    ensures tokens == DeltaAgainst(h, signatures, bs, Flatten(pieces))
  {
    var matcher := new DeltaMatcher(signatures, bs, h);
    tokens := PushAll(matcher, pieces);
    assert matcher.fed == Flatten(pieces) && matcher.emitted == tokens;
    var last := matcher.Finish();
    tokens := tokens + last;
  }

  /** Feeds the pieces to a matcher. */
  method PushAll(matcher: DeltaMatcher, pieces: seq<Bytes>) returns (tokens: seq<DeltaToken>)
    requires matcher.Valid()
    modifies matcher, matcher.rc
    ensures matcher.Valid() && (matcher.rc == old(matcher.rc) || fresh(matcher.rc))
    ensures matcher.fed == old(matcher.fed) + Flatten(pieces) && matcher.emitted == old(matcher.emitted) + tokens
  {
    tokens := [];
    for i := 0 to |pieces|
      invariant matcher.Valid() && (matcher.rc == old(matcher.rc) || fresh(matcher.rc))
      invariant matcher.fed == old(matcher.fed) + Flatten(pieces[..i])
      invariant matcher.emitted == old(matcher.emitted) + tokens
    {
      FlattenNext(pieces, i);
      Associate(old(matcher.fed), Flatten(pieces[..i]), pieces[i]);
      var more := matcher.Push(pieces[i]);
      Associate(old(matcher.emitted), tokens, more);
      tokens := tokens + more;
    }
    assert pieces[..|pieces|] == pieces;
  }

  /** One push and a finish. */
  method DeltaMatch(src: Bytes, signatures: seq<BlockSignature>, bs: nat, h: StrongHash)
    returns (tokens: seq<DeltaToken>)
    requires bs < U32_SIZE
    ensures tokens == DeltaAgainst(h, signatures, bs, src)
  {
    var matcher := new DeltaMatcher(signatures, bs, h);
    tokens := matcher.Push(src);
    assert matcher.fed == src && matcher.emitted == tokens;
    var last := matcher.Finish();
    tokens := tokens + last;
  }

  // ---------------------------------------------------------------- round trip

  /** No full window of the source has the signature of a different basis block. */
  ghost predicate NoCollision(h: StrongHash, src: Bytes, basis: Bytes, bs: nat)
  {
    forall q: nat, i: nat {:trigger Window(src, bs, q), Block(basis, bs, i)} ::
      q + bs <= |src| && Block(basis, bs, i) != []
      && SignWith(h)(Window(src, bs, q)) == SignWith(h)(Block(basis, bs, i))
      ==> Window(src, bs, q) == Block(basis, bs, i)
  }

  lemma SelectionIsFaithful(h: StrongHash, basis: Bytes, bs: nat, src: Bytes, q: nat)
    requires bs > 0 && q + bs <= |src|
    requires NoCollision(h, src, basis, bs) && |Signatures(SignWith(h), basis, bs)| <= U32_SIZE
    ensures
      var choice := Select(Signatures(SignWith(h), basis, bs), bs, SignWith(h)(Window(src, bs, q)), q);
      choice.Some? ==> Window(src, bs, q) == Block(basis, bs, choice.value)
  {
    var sign := SignWith(h);
    var choice := Select(Signatures(sign, basis, bs), bs, sign(Window(src, bs, q)), q);
    if choice.Some? {
      SignatureAt(sign, basis, bs, choice.value);
    }
  }

  lemma ChoicesAreFaithful(h: StrongHash, basis: Bytes, bs: nat, src: Bytes)
    requires NoCollision(h, src, basis, bs) && |Signatures(SignWith(h), basis, bs)| <= U32_SIZE
    ensures Faithful(ChooseWith(Signatures(SignWith(h), basis, bs), bs, SignWith(h)), basis, bs, src)
  {
    var choose := ChooseWith(Signatures(SignWith(h), basis, bs), bs, SignWith(h));
    forall q: nat | ChoiceAt(choose, bs, src, q).Some?
      ensures src[q..q + bs] == Block(basis, bs, ChoiceAt(choose, bs, src, q).value)
    {
      SelectionIsFaithful(h, basis, bs, src, q);
    }
  }

  /** Decoding inverts encoding, for every basis, source and block size. */
  lemma RoundTrip(h: StrongHash, basis: Bytes, bs: nat, src: Bytes)
    requires NoCollision(h, src, basis, bs) && |Signatures(SignWith(h), basis, bs)| <= U32_SIZE
    ensures Rebuild(basis, bs, DeltaAgainst(h, Signatures(SignWith(h), basis, bs), bs, src)) == src
  {
    var choose := ChooseWith(Signatures(SignWith(h), basis, bs), bs, SignWith(h));
    ChoicesAreFaithful(h, basis, bs, src);
    DeltaIsTheParse(choose, bs, src, DeltaOf(choose, bs, src));
    ParseRebuilds(choose, basis, bs, src, 0, DeltaOf(choose, bs, src));
    assert src[0..] == src;
  }

  /** The whole path with every stage streamed: signatures, matching, rebuilding. */
  method Transfer(basis: seq<Bytes>, source: seq<Bytes>, bs: nat, h: StrongHash) returns (result: Bytes)
    requires bs < U32_SIZE
    requires NoCollision(h, Flatten(source), Flatten(basis), bs)
    requires |Signatures(SignWith(h), Flatten(basis), bs)| <= U32_SIZE
    ensures result == Flatten(source)
  {
    var signatures := SignStream(h, basis, bs);
    var tokens := StreamMatch(source, signatures, bs, h);
    result := Reconstruct(Flatten(basis), tokens, bs);
    RoundTrip(h, Flatten(basis), bs, Flatten(source));
  }

  // ---------------------------------------------------------------- size laws

  /** Data tokens hold 1 to 1 MiB bytes, and literals plus referenced blocks add up to the source. */
  lemma DeltaConserves(h: StrongHash, signatures: seq<BlockSignature>, bs: nat, src: Bytes)
    ensures
      var tokens := DeltaAgainst(h, signatures, bs, src);
      && LiteralBytes(tokens) + bs * Matches(tokens) == |src|
      && forall k :: 0 <= k < |tokens| && tokens[k].Data? ==> 1 <= |tokens[k].bytes| <= LITERAL_LIMIT
  {
    var choose := ChooseWith(signatures, bs, SignWith(h));
    DeltaIsTheParse(choose, bs, src, DeltaOf(choose, bs, src));
    ParseConserves(choose, bs, src, 0, DeltaOf(choose, bs, src));
  }

  // ---------------------------------------------------------------- a file against itself

  /** References to `count` consecutive blocks. */
  function References(from: nat, count: nat): (r: seq<DeltaToken>)
    ensures |r| == count
    decreases count
  {
    if count == 0 then [] else [Match(from)] + References(from + 1, count - 1)
  }

  lemma {:induction false} MulGap(a: nat, b: nat, bs: nat)
    requires a < b
    ensures a * bs + bs <= b * bs
    decreases b
  {
    assert b * bs == (b - 1) * bs + bs;
    if a < b - 1 { MulGap(a, b - 1, bs); }
  }

  lemma QuotientUnique(x: nat, q: nat, r: nat, bs: nat)
    requires x == q * bs + r && r < bs
    ensures x / bs == q && x % bs == r
  {
    var q' := x / bs;
    assert x == q' * bs + x % bs;
    if q' < q {
      MulGap(q', q, bs);
    } else if q < q' {
      MulGap(q, q', bs);
    }
  }

  /** How many whole blocks fit in n bytes, and what is left over. */
  function FullBlocks(n: nat, bs: nat): (r: nat)
    requires bs > 0
  {
    if n < bs then 0 else 1 + FullBlocks(n - bs, bs)
  }

  function Leftover(n: nat, bs: nat): (r: nat)
    requires bs > 0
    ensures r <= n && r < bs
  {
    if n < bs then n else Leftover(n - bs, bs)
  }

  lemma {:induction false} BlocksAndLeftover(n: nat, bs: nat)
    requires bs > 0
    ensures n == FullBlocks(n, bs) * bs + Leftover(n, bs)
  {
    if n >= bs {
      BlocksAndLeftover(n - bs, bs);
      var k := FullBlocks(n - bs, bs);
      assert (1 + k) * bs == k * bs + bs;
    }
  }

  lemma EnoughSignatures(sign: Signer, data: Bytes, bs: nat, k: nat)
    requires bs > 0 && k * bs + bs <= |data|
    ensures k < |Signatures(sign, data, bs)|
  {
    var n := |Signatures(sign, data, bs)|;
    SignatureCount(sign, data, bs);
    if n < k { MulGap(n, k, bs); }
  }

  /** A file finds its own block at each block boundary, even if the block occurs elsewhere too. */
  lemma OwnBlock(sign: Signer, data: Bytes, bs: nat, k: nat, p: nat)
    requires bs > 0 && k < U32_SIZE && p == k * bs && p + bs <= |data|
    ensures Select(Signatures(sign, data, bs), bs, sign(data[p..p + bs]), p) == Some(k)
  {
    var sigs := Signatures(sign, data, bs);
    QuotientUnique(p, k, 0, bs);
    EnoughSignatures(sign, data, bs, k);
    SignatureAt(sign, data, bs, k);
    assert Block(data, bs, k) == data[p..p + bs] by {
      if p + bs == |data| { assert data[p..] == data[p..p + bs]; }
    }
    assert SamePosition(sigs, bs, sign(data[p..p + bs]), p) == Some(k);
  }

  /** From position p on, every whole block is chosen as block k, k + 1, and so on. */
  ghost predicate InOrder(choose: Chooser, bs: nat, data: Bytes, k: nat, p: nat)
    requires bs > 0 && p <= |data|
    decreases |data| - p
  {
    |data| - p < bs || (choose(data[p..p + bs], p) == Some(k) && InOrder(choose, bs, data, k + 1, p + bs))
  }

  /** Block references in order from block k at position p, then the leftover bytes as literals. */
  function OrderedTokens(bs: nat, data: Bytes, k: nat, p: nat): (r: seq<DeltaToken>)
    requires bs > 0 && p <= |data|
  {
    References(k, FullBlocks(|data| - p, bs)) + Chop(data[|data| - Leftover(|data| - p, bs)..])
  }

  lemma OrderedUncons(bs: nat, data: Bytes, k: nat, p: nat)
    requires bs > 0 && p + bs <= |data|
    ensures OrderedTokens(bs, data, k, p) == [Match(k)] + OrderedTokens(bs, data, k + 1, p + bs)
  {
    var n := |data| - p;
    var tail := Chop(data[|data| - Leftover(n, bs)..]);
    assert Leftover(n - bs, bs) == Leftover(n, bs);
    Associate([Match(k)], References(k + 1, FullBlocks(n - bs, bs)), tail);
  }

  lemma {:induction false} InOrderParses(choose: Chooser, bs: nat, data: Bytes, k: nat, p: nat)
    requires bs > 0 && p <= |data| && InOrder(choose, bs, data, k, p)
    ensures Parses(choose, bs, data, p, OrderedTokens(bs, data, k, p))
    decreases |data| - p
  {
    if |data| - p < bs {
      assert OrderedTokens(bs, data, k, p) == Chop(data[p..]);
      ChopParses(choose, bs, data, p);
    } else {
      InOrderParses(choose, bs, data, k + 1, p + bs);
      OrderedUncons(bs, data, k, p);
      MatchInFront(choose, bs, data, p, k, OrderedTokens(bs, data, k + 1, p + bs));
    }
  }

  lemma {:induction false} OwnBlocksInOrder(sign: Signer, data: Bytes, bs: nat, k: nat, p: nat)
    requires bs > 0 && p == k * bs && p <= |data|
    requires k + FullBlocks(|data| - p, bs) <= U32_SIZE
    ensures InOrder(ChooseWith(Signatures(sign, data, bs), bs, sign), bs, data, k, p)
    decreases |data| - p
  {
    if |data| - p >= bs {
      assert (k + 1) * bs == p + bs;
      OwnBlocksInOrder(sign, data, bs, k + 1, p + bs);
      OwnBlock(sign, data, bs, k, p);
    }
  }

  lemma OrderedSizes(data: Bytes, bs: nat)
    requires bs > 0
    ensures
      var n, tail := FullBlocks(|data|, bs), Leftover(|data|, bs);
      && OrderedTokens(bs, data, 0, 0) == References(0, n) + Chop(data[|data| - tail..])
      && |References(0, n)| * bs + tail == |data| && tail < bs
  {
    BlocksAndLeftover(|data|, bs);
    assert |data| - 0 == |data|;
  }

  lemma OwnTokens(h: StrongHash, data: Bytes, bs: nat)
    requires bs > 0 && FullBlocks(|data|, bs) <= U32_SIZE
    ensures DeltaAgainst(h, Signatures(SignWith(h), data, bs), bs, data) == OrderedTokens(bs, data, 0, 0)
  {
    var choose := ChooseWith(Signatures(SignWith(h), data, bs), bs, SignWith(h));
    OwnBlocksInOrder(SignWith(h), data, bs, 0, 0);
    InOrderParses(choose, bs, data, 0, 0);
    DeltaIsTheParse(choose, bs, data, OrderedTokens(bs, data, 0, 0));
  }

  /**
   * Against its own signatures a file is its block references in order, then only the short
   * tail; repeated blocks and hash collisions change nothing. The referenced blocks and the tail
   * are all of the file, and the tail is shorter than a block.
   */
  lemma SelfMatch(h: StrongHash, data: Bytes, bs: nat)
    requires bs > 0 && FullBlocks(|data|, bs) <= U32_SIZE
    ensures DeltaAgainst(h, Signatures(SignWith(h), data, bs), bs, data) == OrderedTokens(bs, data, 0, 0)
    ensures
      var n, tail := FullBlocks(|data|, bs), Leftover(|data|, bs);
      && OrderedTokens(bs, data, 0, 0) == References(0, n) + Chop(data[|data| - tail..])
      && |References(0, n)| * bs + tail == |data| && tail < bs
  {
    OrderedSizes(data, bs);
    OwnTokens(h, data, bs);
  }
}
