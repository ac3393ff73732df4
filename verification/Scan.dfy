/** The sliding-window scan of a whole source, as a function, and why it is the greedy parse. */
module Scan {
  import opened Bytes
  import opened Delta

  /** Tokens produced so far, the position reached and the literal bytes not yet in a token. */
  datatype Progress = Progress(tokens: seq<DeltaToken>, pos: nat, lit: Bytes)

  const START := Progress([], 0, [])

  function Flush(lit: Bytes): (r: seq<DeltaToken>)
  {
    if lit == [] then [] else [Data(lit)]
  }

  /** One window: a reference and a jump of one block, or one more literal byte. */
  function Step(choose: Chooser, bs: nat, src: Bytes, s: Progress): (r: Progress)
    requires bs > 0 && s.pos + bs <= |src|
    ensures s.pos < r.pos <= |src|
  {
    match choose(src[s.pos..s.pos + bs], s.pos)
    case Some(i) => Progress(s.tokens + Flush(s.lit) + [Match(i)], s.pos + bs, [])
    case None =>
      var lit := s.lit + [src[s.pos]];
      if |lit| >= LITERAL_LIMIT then Progress(s.tokens + [Data(lit)], s.pos + 1, [])
      else Progress(s.tokens, s.pos + 1, lit)
  }

  /** Steps until less than a full window is left. */
  function ScanAll(choose: Chooser, bs: nat, src: Bytes, s: Progress): (r: Progress)
    requires bs > 0 && s.pos <= |src|
    ensures s.pos <= r.pos <= |src| < r.pos + bs
    decreases |src| - s.pos
  {
    if s.pos + bs <= |src| then ScanAll(choose, bs, src, Step(choose, bs, src, s)) else s
  }

  /** Leftover bytes in tokens of at most one mebibyte. */
  function Chop(data: Bytes): (r: seq<DeltaToken>)
    decreases |data|
  {
    if data == [] then []
    else if |data| <= LITERAL_LIMIT then [Data(data)]
    else [Data(data[..LITERAL_LIMIT])] + Chop(data[LITERAL_LIMIT..])
  }

  function Finished(src: Bytes, s: Progress): (r: seq<DeltaToken>)
    requires s.pos <= |src|
  {
    s.tokens + Chop(s.lit + src[s.pos..])
  }

  /** The delta of a whole source. */
  function DeltaOf(choose: Chooser, bs: nat, src: Bytes): (r: seq<DeltaToken>)
  {
    if bs == 0 then Chop(src) else Finished(src, ScanAll(choose, bs, src, START))
  }

  // ---------------------------------------------------------------- streaming

  lemma StepExtend(choose: Chooser, bs: nat, src: Bytes, more: Bytes, s: Progress)
    requires bs > 0 && s.pos + bs <= |src|
    ensures Step(choose, bs, src + more, s) == Step(choose, bs, src, s)
  {
    assert (src + more)[s.pos..s.pos + bs] == src[s.pos..s.pos + bs];
  }

  /** What was scanned before more bytes arrive never has to be revised. */
  lemma {:induction false} ScanExtend(choose: Chooser, bs: nat, src: Bytes, more: Bytes, s: Progress)
    requires bs > 0 && s.pos <= |src|
    ensures ScanAll(choose, bs, src + more, s) == ScanAll(choose, bs, src + more, ScanAll(choose, bs, src, s))
    decreases |src| - s.pos
  {
    if s.pos + bs <= |src| {
      StepExtend(choose, bs, src, more, s);
      ScanExtend(choose, bs, src, more, Step(choose, bs, src, s));
    }
  }

  // ---------------------------------------------------------------- the scan is the greedy parse

  /** The pending literal is the unmatched source text just before the position reached. */
  ghost predicate Pending(choose: Chooser, bs: nat, src: Bytes, s: Progress)
  {
    && |s.lit| <= s.pos <= |src| && |s.lit| < LITERAL_LIMIT
    && s.lit == src[s.pos - |s.lit|..s.pos]
    && Unmatched(choose, bs, src, s.pos - |s.lit|, s.pos)
  }

  lemma {:induction false} ChopParses(choose: Chooser, bs: nat, src: Bytes, p: nat)
    requires p <= |src| && Unmatched(choose, bs, src, p, |src|)
    ensures Parses(choose, bs, src, p, Chop(src[p..]))
    decreases |src| - p
  {
    var data := src[p..];
    if |data| > LITERAL_LIMIT {
      ChopParses(choose, bs, src, p + LITERAL_LIMIT);
      assert data[LITERAL_LIMIT..] == src[p + LITERAL_LIMIT..];
      assert data[..LITERAL_LIMIT] == src[p..p + LITERAL_LIMIT];
    } else if data != [] {
      assert Chop(data)[1..] == [];
    }
  }

  lemma StepPending(choose: Chooser, bs: nat, src: Bytes, s: Progress)
    requires bs > 0 && s.pos + bs <= |src| && Pending(choose, bs, src, s)
    ensures Pending(choose, bs, src, Step(choose, bs, src, s))
  {
    if choose(src[s.pos..s.pos + bs], s.pos).None? {
      SliceSnoc(src, s.pos - |s.lit|, s.pos);
    }
  }

  lemma SliceSnoc(src: Bytes, from: nat, to: nat)
    requires from <= to < |src|
    ensures src[from..to + 1] == src[from..to] + [src[to]]
  {
  }

  lemma DataInFront(choose: Chooser, bs: nat, src: Bytes, p: nat, lit: Bytes, rest: seq<DeltaToken>)
    requires 0 < |lit| <= LITERAL_LIMIT && p + |lit| <= |src| && lit == src[p..p + |lit|]
    requires Unmatched(choose, bs, src, p, p + |lit|) && Parses(choose, bs, src, p + |lit|, rest)
    requires |lit| == LITERAL_LIMIT || (rest != [] && rest[0].Match?)
    ensures Parses(choose, bs, src, p, [Data(lit)] + rest)
  {
    assert ([Data(lit)] + rest)[1..] == rest;
  }

  lemma MatchInFront(choose: Chooser, bs: nat, src: Bytes, p: nat, i: nat, rest: seq<DeltaToken>)
    requires ChoiceAt(choose, bs, src, p) == Some(i) && Parses(choose, bs, src, p + bs, rest)
    ensures Parses(choose, bs, src, p, [Match(i)] + rest)
  {
    assert ([Match(i)] + rest)[1..] == rest;
  }

  /** A step that finds a block: its tokens, put in front of a parse of the rest, parse from where the literal began. */
  lemma MatchStepParses(choose: Chooser, bs: nat, src: Bytes, s: Progress, i: nat, rest: seq<DeltaToken>)
    requires bs > 0 && s.pos + bs <= |src| && Pending(choose, bs, src, s)
    requires choose(src[s.pos..s.pos + bs], s.pos) == Some(i)
    requires Parses(choose, bs, src, s.pos + bs, rest)
    ensures Parses(choose, bs, src, s.pos - |s.lit|, Flush(s.lit) + ([Match(i)] + rest))
  {
    MatchInFront(choose, bs, src, s.pos, i, rest);
    if s.lit != [] {
      DataInFront(choose, bs, src, s.pos - |s.lit|, s.lit, [Match(i)] + rest);
    } else {
      assert Flush(s.lit) + ([Match(i)] + rest) == [Match(i)] + rest;
    }
  }

  /** A step that fills the literal buffer. */
  lemma FullLiteralParses(choose: Chooser, bs: nat, src: Bytes, s: Progress, rest: seq<DeltaToken>)
    requires bs > 0 && s.pos + bs <= |src| && Pending(choose, bs, src, s)
    requires choose(src[s.pos..s.pos + bs], s.pos).None? && |s.lit| + 1 == LITERAL_LIMIT
    requires Parses(choose, bs, src, s.pos + 1, rest)
    ensures Parses(choose, bs, src, s.pos - |s.lit|, [Data(s.lit + [src[s.pos]])] + rest)
  {
    var p, lit := s.pos - |s.lit|, s.lit + [src[s.pos]];
    assert lit == src[p..p + |lit|];
    DataInFront(choose, bs, src, p, lit, rest);
  }

  /** What one step adds in front of a parse of the rest. */
  lemma StepParses(choose: Chooser, bs: nat, src: Bytes, s: Progress, s': Progress, rest: seq<DeltaToken>)
    returns (t: seq<DeltaToken>)
    requires bs > 0 && s.pos + bs <= |src| && Pending(choose, bs, src, s)
    requires s' == Step(choose, bs, src, s) && |s'.lit| <= s'.pos
    requires Parses(choose, bs, src, s'.pos - |s'.lit|, rest)
    ensures s'.tokens + rest == s.tokens + t
    ensures Parses(choose, bs, src, s.pos - |s.lit|, t)
  {
    match choose(src[s.pos..s.pos + bs], s.pos)
    case Some(i) =>
      t := MatchAdds(choose, bs, src, s, i, rest);
    case None =>
      if |s.lit| + 1 == LITERAL_LIMIT {
        var lit := s.lit + [src[s.pos]];
        assert s' == Progress(s.tokens + [Data(lit)], s.pos + 1, []);
        FullLiteralParses(choose, bs, src, s, rest);
        Associate(s.tokens, [Data(lit)], rest);
        t := [Data(lit)] + rest;
      } else {
        assert s' == Progress(s.tokens, s.pos + 1, s.lit + [src[s.pos]]);
        t := rest;
      }
  }

  lemma MatchAdds(choose: Chooser, bs: nat, src: Bytes, s: Progress, i: nat, rest: seq<DeltaToken>)
    returns (t: seq<DeltaToken>)
    requires bs > 0 && s.pos + bs <= |src| && Pending(choose, bs, src, s)
    requires choose(src[s.pos..s.pos + bs], s.pos) == Some(i) && Parses(choose, bs, src, s.pos + bs, rest)
    ensures s.tokens + Flush(s.lit) + [Match(i)] + rest == s.tokens + t
    ensures Parses(choose, bs, src, s.pos - |s.lit|, t)
  {
    MatchStepParses(choose, bs, src, s, i, rest);
    t := Flush(s.lit) + ([Match(i)] + rest);
    Associate(s.tokens + Flush(s.lit), [Match(i)], rest);
    Associate(s.tokens, Flush(s.lit), [Match(i)] + rest);
  }

  lemma LastParses(choose: Chooser, bs: nat, src: Bytes, s: Progress)
    requires Pending(choose, bs, src, s) && s.pos + bs > |src|
    ensures Parses(choose, bs, src, s.pos - |s.lit|, Chop(s.lit + src[s.pos..]))
  {
    var p := s.pos - |s.lit|;
    assert src[p..] == s.lit + src[s.pos..];
    ChopParses(choose, bs, src, p);
  }

  lemma {:induction false} ScanParses(choose: Chooser, bs: nat, src: Bytes, s: Progress)
    returns (t: seq<DeltaToken>)
    requires bs > 0 && Pending(choose, bs, src, s)
    ensures Finished(src, ScanAll(choose, bs, src, s)) == s.tokens + t
    ensures Parses(choose, bs, src, s.pos - |s.lit|, t)
    decreases |src| - s.pos
  {
    if s.pos + bs <= |src| {
      var s' := Step(choose, bs, src, s);
      StepPending(choose, bs, src, s);
      var rest := ScanParses(choose, bs, src, s');
      t := StepParses(choose, bs, src, s, s', rest);
    } else {
      LastParses(choose, bs, src, s);
      t := Chop(s.lit + src[s.pos..]);
    }
  }

  lemma DeltaParses(choose: Chooser, bs: nat, src: Bytes)
    ensures Parses(choose, bs, src, 0, DeltaOf(choose, bs, src))
  {
    if bs == 0 {
      assert src[0..] == src;
      ChopParses(choose, bs, src, 0);
    } else {
      var t := ScanParses(choose, bs, src, START);
      assert START.tokens + t == t;
    }
  }

  /** The delta of a source is its one greedy parse, for every source and block size. */
  lemma DeltaIsTheParse(choose: Chooser, bs: nat, src: Bytes, tokens: seq<DeltaToken>)
    ensures Parses(choose, bs, src, 0, tokens) <==> tokens == DeltaOf(choose, bs, src)
  {
    DeltaParses(choose, bs, src);
    if Parses(choose, bs, src, 0, tokens) {
      ParseUnique(choose, bs, src, 0, tokens, DeltaOf(choose, bs, src));
    }
  }
}
