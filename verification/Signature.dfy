/** Block signatures of a basis file, whole or fed in pieces. */
module Signature {
  import opened Bytes
  import opened Rolling

  type Strong = Bytes
  // The truncated BLAKE3 digest, taken as a parameter.
  type StrongHash = Bytes -> Strong

  datatype BlockSignature = BlockSignature(rolling: int, strong: Strong)

  // How a block is turned into its signature.
  type Signer = Bytes -> BlockSignature

  function SignWith(h: StrongHash): (r: Signer)
    ensures forall block :: r(block) == BlockSignature(Checksum(block), h(block))
  {
    (block: Bytes) => BlockSignature(Checksum(block), h(block))
  }

  /** Block i of the data: bs bytes, cut short at the end of the data, empty past it. */
  function Block(data: Bytes, bs: nat, i: nat): (r: Bytes)
  {
    var offset := i * bs;
    if offset >= |data| then []
    else if offset + bs < |data| then data[offset..offset + bs]
    else data[offset..]
  }

  /** The full-size window of the data that starts at q. */
  function Window(data: Bytes, bs: nat, q: nat): (r: Bytes)
    requires q + bs <= |data|
  {
    data[q..q + bs]
  }

  /** One signature per block, the last block possibly short; none for block size 0. */
  function Signatures(sign: Signer, data: Bytes, bs: nat): (r: seq<BlockSignature>)
    decreases |data|
  {
    if bs == 0 || data == [] then []
    else if |data| <= bs then [sign(data)]
    else [sign(data[..bs])] + Signatures(sign, data[bs..], bs)
  }

  lemma BlockShift(data: Bytes, bs: nat, i: nat)
    requires 0 < bs < |data| && i > 0
    ensures Block(data, bs, i) == Block(data[bs..], bs, i - 1)
  {
    assert (i - 1) * bs == i * bs - bs;
    assert i * bs >= bs;
  }

  /** Signature i is the signature of block i. */
  lemma {:induction false} SignatureAt(sign: Signer, data: Bytes, bs: nat, i: nat)
    requires bs > 0 && i < |Signatures(sign, data, bs)|
    ensures Signatures(sign, data, bs)[i] == sign(Block(data, bs, i)) && Block(data, bs, i) != []
    decreases i
  {
    if i > 0 {
      SignatureAt(sign, data[bs..], bs, i - 1);
      BlockShift(data, bs, i);
    }
  }

  /** There are just enough signatures to cover the data. */
  lemma {:induction false} SignatureCount(sign: Signer, data: Bytes, bs: nat)
    requires bs > 0
    ensures |data| <= |Signatures(sign, data, bs)| * bs < |data| + bs
    decreases |data|
  {
    if |data| > bs {
      SignatureCount(sign, data[bs..], bs);
      var n := |Signatures(sign, data[bs..], bs)|;
      assert (n + 1) * bs == n * bs + bs;
    }
  }

  /** n bytes make up whole blocks. */
  ghost predicate Aligned(n: nat, bs: nat)
    requires bs > 0
  {
    n == 0 || (n >= bs && Aligned(n - bs, bs))
  }

  /** Whole blocks in front do not disturb the signatures that follow. */
  lemma {:induction false} SignaturesAppend(sign: Signer, front: Bytes, back: Bytes, bs: nat)
    requires bs > 0 && Aligned(|front|, bs)
    ensures Signatures(sign, front + back, bs) == Signatures(sign, front, bs) + Signatures(sign, back, bs)
    decreases |front|
  {
    var all := front + back;
    if front == [] {
      assert all == back;
    } else {
      assert all[..bs] == front[..bs] && all[bs..] == front[bs..] + back;
      SignaturesAppend(sign, front[bs..], back, bs);
      if |front| == bs {
        assert front[..bs] == front && all[bs..] == back;
        if back == [] { assert all == front; }
      }
    }
  }

  /** Only the unfinished block is buffered; everything before it is already signed. */
  ghost predicate Buffered(sign: Signer, bs: nat, fed: Bytes, buffer: Bytes, signatures: seq<BlockSignature>)
    requires bs > 0
  {
    && |buffer| < bs
    && |buffer| <= |fed|
    && buffer == fed[|fed| - |buffer|..]
    && Aligned(|fed| - |buffer|, bs)
    && signatures == Signatures(sign, fed[..|fed| - |buffer|], bs)
  }

  lemma BufferGrows(sign: Signer, bs: nat, fed: Bytes, buffer: Bytes, signatures: seq<BlockSignature>, part: Bytes)
    requires bs > 0 && Buffered(sign, bs, fed, buffer, signatures) && |buffer| + |part| < bs
    ensures Buffered(sign, bs, fed + part, buffer + part, signatures)
  {
    assert (fed + part)[..|fed| - |buffer|] == fed[..|fed| - |buffer|];
  }

  lemma BufferFills(sign: Signer, bs: nat, fed: Bytes, buffer: Bytes, signatures: seq<BlockSignature>, part: Bytes)
    requires bs > 0 && Buffered(sign, bs, fed, buffer, signatures) && |buffer| + |part| == bs
    ensures Buffered(sign, bs, fed + part, [], signatures + [sign(buffer + part)])
  {
    var done := fed[..|fed| - |buffer|];
    assert fed + part == done + (buffer + part);
    SignaturesAppend(sign, done, buffer + part, bs);
    assert (fed + part)[..|fed + part|] == fed + part;
  }

  class SignatureCalculator {
    const blockSize: nat
    const h: StrongHash
    var buffer: Bytes
    var signatures: seq<BlockSignature>
    ghost var fed: Bytes

    ghost predicate Valid()
      reads this
    {
      if blockSize == 0 then buffer == [] && signatures == []
      else Buffered(SignWith(h), blockSize, fed, buffer, signatures)
    }

    constructor (h: StrongHash, blockSize: nat)
      ensures Valid() && fed == [] && this.h == h && this.blockSize == blockSize
    {
      this.h, this.blockSize := h, blockSize;
      buffer, signatures, fed := [], [], [];
    }

    method Push(bytes: Bytes)
      requires Valid()
      modifies this
      ensures Valid() && fed == old(fed) + bytes
    {
      if blockSize == 0 {
        fed := fed + bytes;
        return;
      }
      var rest := bytes;
      while rest != []
        invariant Valid()
        invariant fed + rest == old(fed) + bytes
        decreases |rest|
      {
        var need := blockSize - |buffer|;
        var take := if need < |rest| then need else |rest|;
        assert rest == rest[..take] + rest[take..];
        Fill(rest[..take]);
        rest := rest[take..];
      }
    }

    /** Appends bytes that fit the unfinished block and signs the block once it is full. */
    method Fill(part: Bytes)
      requires Valid() && blockSize > 0 && |buffer| + |part| <= blockSize
      modifies this
      ensures Valid() && fed == old(fed) + part
    {
      if |buffer| + |part| == blockSize {
        BufferFills(SignWith(h), blockSize, fed, buffer, signatures, part);
      } else {
        BufferGrows(SignWith(h), blockSize, fed, buffer, signatures, part);
      }
      buffer := buffer + part;
      fed := fed + part;
      if |buffer| == blockSize { FlushBlock(); }
    }

    method Finish() returns (r: seq<BlockSignature>)
      requires Valid()
      modifies this
      ensures r == Signatures(SignWith(h), fed, blockSize)
      ensures buffer == [] && signatures == [] && fed == old(fed)
    {
      if buffer != [] {
        SignaturesAppend(SignWith(h), fed[..|fed| - |buffer|], buffer, blockSize);
        assert fed == fed[..|fed| - |buffer|] + buffer;
        FlushBlock();
      } else {
        assert fed[..|fed|] == fed;
      }
      r := signatures;
      signatures := [];
    }

    method FlushBlock()
      modifies this`buffer, this`signatures
      ensures buffer == [] && signatures == old(signatures) + [SignWith(h)(old(buffer))]
    {
      var a, b := Sums(buffer);
      signatures := signatures + [BlockSignature(Digest(a as int, b as int), h(buffer))];
      buffer := [];
    }
  }

  /** However the basis is cut into pieces, its signatures are those of the whole. */
  method SignStream(h: StrongHash, pieces: seq<Bytes>, bs: nat) returns (r: seq<BlockSignature>)
    ensures r == Signatures(SignWith(h), Flatten(pieces), bs)
  {
    var signer := new SignatureCalculator(h, bs);
    PushAll(signer, pieces);
    r := signer.Finish();
  }

  method PushAll(signer: SignatureCalculator, pieces: seq<Bytes>)
    requires signer.Valid() && signer.fed == []
    modifies signer
    ensures signer.Valid() && signer.fed == Flatten(pieces)
  {
    for i := 0 to |pieces|
      invariant signer.Valid() && signer.fed == Flatten(pieces[..i])
    {
      signer.Push(pieces[i]);
      FlattenNext(pieces, i);
    }
    assert pieces[..|pieces|] == pieces;
  }
}
