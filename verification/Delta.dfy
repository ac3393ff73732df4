/** Delta tokens, what they rebuild, and what a greedy parse of a source is. */
module Delta {
  import opened Bytes
  import opened Signature

  // Literal runs are cut every mebibyte.
  const LITERAL_LIMIT: int := 1024 * 1024

  datatype DeltaToken = Match(blockIndex: nat) | Data(bytes: Bytes)

  // ---------------------------------------------------------------- rebuilding

  /** The bytes one token stands for; a block past the end of the basis is empty. */
  function Segment(basis: Bytes, bs: nat, token: DeltaToken): (r: Bytes)
  {
    match token
    case Data(bytes) => bytes
    case Match(i) => Block(basis, bs, i)
  }

  function Rebuild(basis: Bytes, bs: nat, tokens: seq<DeltaToken>): (r: Bytes)
  {
    if tokens == [] then [] else Segment(basis, bs, tokens[0]) + Rebuild(basis, bs, tokens[1..])
  }

  lemma {:induction false} RebuildAppend(basis: Bytes, bs: nat, a: seq<DeltaToken>, b: seq<DeltaToken>)
    ensures Rebuild(basis, bs, a + b) == Rebuild(basis, bs, a) + Rebuild(basis, bs, b)
  {
    if a == [] {
      assert a + b == b;
    } else {
      assert (a + b)[0] == a[0] && (a + b)[1..] == a[1..] + b;
      RebuildAppend(basis, bs, a[1..], b);
      Associate(Segment(basis, bs, a[0]), Rebuild(basis, bs, a[1..]), Rebuild(basis, bs, b));
    }
  }

  lemma RebuildSnoc(basis: Bytes, bs: nat, a: seq<DeltaToken>, token: DeltaToken)
    ensures Rebuild(basis, bs, a + [token]) == Rebuild(basis, bs, a) + Segment(basis, bs, token)
  {
    RebuildAppend(basis, bs, a, [token]);
    assert Rebuild(basis, bs, [token]) == Segment(basis, bs, token) + Rebuild(basis, bs, []);
  }

  // ---------------------------------------------------------------- block choice

  // Which block, if any, a full-size window at an absolute position refers to.
  type Chooser = (Bytes, nat) -> Option<nat>

  /** The choice at position q of the whole source; none where no full window fits. */
  function ChoiceAt(choose: Chooser, bs: nat, src: Bytes, q: nat): (r: Option<nat>)
  {
    if bs == 0 || q + bs > |src| then None else choose(src[q..q + bs], q)
  }

  // ---------------------------------------------------------------- greedy parse

  /** No window starting in [from, to) is found in the basis. */
  ghost predicate Unmatched(choose: Chooser, bs: nat, src: Bytes, from: nat, to: nat)
  {
    forall q :: from <= q < to ==> ChoiceAt(choose, bs, src, q).None?
  }

  /**
   * The tokens cover src[p..] from left to right: a block is referenced wherever a window is
   * found, every other byte is literal, and a literal stops only at a reference, at the end
   * or when it is exactly one mebibyte long.
   */
  ghost predicate Parses(choose: Chooser, bs: nat, src: Bytes, p: nat, tokens: seq<DeltaToken>)
    decreases |tokens|
  {
    if tokens == [] then p == |src|
    else match tokens[0]
      case Match(i) =>
        ChoiceAt(choose, bs, src, p) == Some(i) && Parses(choose, bs, src, p + bs, tokens[1..])
      case Data(bytes) =>
        && 0 < |bytes| <= LITERAL_LIMIT
        && p + |bytes| <= |src| && bytes == src[p..p + |bytes|]
        && Unmatched(choose, bs, src, p, p + |bytes|)
        && (|bytes| == LITERAL_LIMIT || tokens[1..] == [] || tokens[1].Match?)
        && Parses(choose, bs, src, p + |bytes|, tokens[1..])
  }

  /** A literal below the limit ends where the source ends or where a window is found. */
  lemma LiteralEnds(choose: Chooser, bs: nat, src: Bytes, p: nat, a: seq<DeltaToken>)
    requires Parses(choose, bs, src, p, a) && a != [] && a[0].Data? && |a[0].bytes| < LITERAL_LIMIT
    ensures p + |a[0].bytes| == |src| || ChoiceAt(choose, bs, src, p + |a[0].bytes|).Some?
  {
    assert Parses(choose, bs, src, p + |a[0].bytes|, a[1..]);
  }

  /** How much of the source a token covers. */
  function Span(bs: nat, token: DeltaToken): (r: nat)
  {
    match token
    case Match(_) => bs
    case Data(bytes) => |bytes|
  }

  /** A source has exactly one greedy parse. */
  lemma {:induction false} ParseUnique(choose: Chooser, bs: nat, src: Bytes, p: nat, a: seq<DeltaToken>,
                                       b: seq<DeltaToken>)
    requires Parses(choose, bs, src, p, a) && Parses(choose, bs, src, p, b)
    ensures a == b
    decreases |a|
  {
    if a != [] && b != [] {
      if a[0].Data? && b[0].Data? {
        if |a[0].bytes| < LITERAL_LIMIT { LiteralEnds(choose, bs, src, p, a); }
        if |b[0].bytes| < LITERAL_LIMIT { LiteralEnds(choose, bs, src, p, b); }
      }
      ParseUnique(choose, bs, src, p + Span(bs, a[0]), a[1..], b[1..]);
      assert a == [a[0]] + a[1..] && b == [b[0]] + b[1..];
    }
  }

  // ---------------------------------------------------------------- consequences of a parse

  /** Every chosen block holds the bytes of its window. */
  ghost predicate Faithful(choose: Chooser, basis: Bytes, bs: nat, src: Bytes)
  {
    forall q: nat :: ChoiceAt(choose, bs, src, q).Some? ==>
      src[q..q + bs] == Block(basis, bs, ChoiceAt(choose, bs, src, q).value)
  }

  /** A parse with faithful choices rebuilds the source. */
  lemma {:induction false} ParseRebuilds(choose: Chooser, basis: Bytes, bs: nat, src: Bytes, p: nat,
                                         tokens: seq<DeltaToken>)
    requires Faithful(choose, basis, bs, src) && p <= |src|
    requires Parses(choose, bs, src, p, tokens)
    ensures Rebuild(basis, bs, tokens) == src[p..]
    decreases |tokens|
  {
    if tokens != [] {
      var next := p + Span(bs, tokens[0]);
      ParseRebuilds(choose, basis, bs, src, next, tokens[1..]);
      FirstSegment(choose, basis, bs, src, p, tokens);
      CutAt(src, p, next);
    }
  }

  lemma CutAt(src: Bytes, p: nat, q: nat)
    requires p <= q <= |src|
    ensures src[p..] == src[p..q] + src[q..]
  {
  }

  lemma FirstSegment(choose: Chooser, basis: Bytes, bs: nat, src: Bytes, p: nat, tokens: seq<DeltaToken>)
    requires Faithful(choose, basis, bs, src) && Parses(choose, bs, src, p, tokens) && tokens != []
    ensures
      var next := p + Span(bs, tokens[0]);
      next <= |src| && Segment(basis, bs, tokens[0]) == src[p..next]
  {
  }

  function LiteralBytes(tokens: seq<DeltaToken>): (r: nat)
  {
    if tokens == [] then 0
    else (if tokens[0].Data? then |tokens[0].bytes| else 0) + LiteralBytes(tokens[1..])
  }

  function Matches(tokens: seq<DeltaToken>): (r: nat)
  {
    if tokens == [] then 0 else (if tokens[0].Match? then 1 else 0) + Matches(tokens[1..])
  }

  /** How much of the source the tokens cover. */
  function Covered(bs: nat, tokens: seq<DeltaToken>): (r: nat)
  {
    if tokens == [] then 0 else Span(bs, tokens[0]) + Covered(bs, tokens[1..])
  }

  lemma {:induction false} CoveredSplits(bs: nat, tokens: seq<DeltaToken>)
    ensures Covered(bs, tokens) == LiteralBytes(tokens) + bs * Matches(tokens)
  {
    if tokens != [] {
      CoveredSplits(bs, tokens[1..]);
      var m := Matches(tokens[1..]);
      assert bs * (m + 1) == bs * m + bs;
    }
  }

  lemma {:induction false} ParseCovers(choose: Chooser, bs: nat, src: Bytes, p: nat, tokens: seq<DeltaToken>)
    requires Parses(choose, bs, src, p, tokens)
    ensures Covered(bs, tokens) == |src| - p
    ensures forall k :: 0 <= k < |tokens| && tokens[k].Data? ==> 1 <= |tokens[k].bytes| <= LITERAL_LIMIT
    decreases |tokens|
  {
    if tokens != [] {
      ParseCovers(choose, bs, src, p + Span(bs, tokens[0]), tokens[1..]);
    }
  }

  /** Literals and references together account for every source byte, once. */
  lemma ParseConserves(choose: Chooser, bs: nat, src: Bytes, p: nat, tokens: seq<DeltaToken>)
    requires Parses(choose, bs, src, p, tokens)
    ensures LiteralBytes(tokens) + bs * Matches(tokens) == |src| - p
    ensures forall k :: 0 <= k < |tokens| && tokens[k].Data? ==> 1 <= |tokens[k].bytes| <= LITERAL_LIMIT
  {
    ParseCovers(choose, bs, src, p, tokens);
    CoveredSplits(bs, tokens);
  }
}
