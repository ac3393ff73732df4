/** The rolling checksum: two sums modulo 65521, recomputed in batches or slid by one byte. */
module Rolling {
  import opened Bytes

  const MODULUS: int := 65521
  // Longest run of bytes that can be summed before `b` must be reduced.
  const BATCH: int := 5552

  /** The plain sum of the bytes. */
  function SumA(w: Bytes): (r: nat)
  {
    if w == [] then 0 else SumA(w[..|w| - 1]) + w[|w| - 1]
  }

  /** The sum of all prefix sums: byte i is weighted by |w| - i. */
  function SumB(w: Bytes): (r: nat)
  {
    if w == [] then 0 else SumB(w[..|w| - 1]) + SumA(w)
  }

  function Digest(a: int, b: int): (r: int)
  {
    b * 0x1_0000 + a
  }

  /** The checksum of a block, as the plain sums define it. */
  function Checksum(w: Bytes): (r: int)
  {
    Digest(SumA(w) % MODULUS, SumB(w) % MODULUS)
  }

  lemma SumsSnoc(w: Bytes, x: byte)
    ensures SumA(w + [x]) == SumA(w) + x
    ensures SumB(w + [x]) == SumB(w) + SumA(w) + x
  {
    assert (w + [x])[..|w|] == w;
  }

  /** Taking the first byte off a window removes it once from `a` and |w| times from `b`. */
  lemma {:induction false} SumsUncons(w: Bytes)
    requires w != []
    ensures SumA(w) == w[0] + SumA(w[1..])
    ensures SumB(w) == |w| * w[0] + SumB(w[1..])
  {
    if |w| == 1 {
      SumsOne(w);
    } else {
      var body := w[..|w| - 1];
      SumsUncons(body);
      SumsLast(w);
      SumsLast(w[1..]);
      assert w[1..][..|w| - 2] == body[1..];
      AddOne(|body|, w[0]);
    }
  }

  lemma SumsOne(w: Bytes)
    requires |w| == 1
    ensures SumA(w) == w[0] && SumB(w) == w[0] && SumA(w[1..]) == 0 && SumB(w[1..]) == 0
  {
    assert w[..0] == [];
  }

  lemma SumsLast(w: Bytes)
    requires w != []
    ensures SumA(w) == SumA(w[..|w| - 1]) + w[|w| - 1]
    ensures SumB(w) == SumB(w[..|w| - 1]) + SumA(w)
  {
  }

  lemma AddOne(n: nat, x: nat)
    ensures (n + 1) * x == n * x + x
  {
  }

  lemma ModShift(x: int, k: int)
    ensures (x + k * MODULUS) % MODULUS == x % MODULUS
  {
  }

  /** A difference may be reduced operand by operand, with one modulus added to stay positive. */
  lemma ModSub(x: int, y: int, z: int)
    ensures (x % MODULUS + MODULUS + y - z) % MODULUS == (x + y - z) % MODULUS
  {
    ModShift(x + y - z, 1 - x / MODULUS);
  }

  lemma ModMul(n: nat, x: nat)
    ensures ((n % MODULUS) * (x % MODULUS)) % MODULUS == (n * x) % MODULUS
  {
    var p, q := n / MODULUS, x / MODULUS;
    var u, v := n % MODULUS, x % MODULUS;
    assert n == p * MODULUS + u && x == q * MODULUS + v;
    assert n * x == u * v + (p * q * MODULUS + p * v + q * u) * MODULUS by {
      assert n * x == (p * MODULUS + u) * (q * MODULUS + v);
      assert (p * MODULUS + u) * (q * MODULUS + v)
          == p * MODULUS * (q * MODULUS) + p * MODULUS * v + u * (q * MODULUS) + u * v;
      assert p * MODULUS * (q * MODULUS) == (p * q * MODULUS) * MODULUS;
    }
    ModShift(u * v, p * q * MODULUS + p * v + q * u);
  }

  /** A whole reduced operand may be replaced by the value it reduces. */
  lemma ModReplace(x: int, y: int, z: int)
    ensures (x % MODULUS + MODULUS + y % MODULUS - z % MODULUS) % MODULUS == (x + y - z) % MODULUS
  {
    ModShift(x + y - z, 1 - x / MODULUS - y / MODULUS + z / MODULUS);
  }

  /** The sliding identities of the two sums. */
  lemma SlideSums(w: Bytes, x: byte)
    requires w != []
    ensures SumA(w[1..] + [x]) == SumA(w) - w[0] + x
    ensures SumB(w[1..] + [x]) == SumB(w) - |w| * w[0] + SumA(w[1..] + [x])
  {
    SumsUncons(w);
    SumsSnoc(w[1..], x);
  }

  /** The two reduced sums after sliding out `o` from a window of n bytes and sliding in `x`. */
  function SlideA(a: int, o: byte, x: byte): (r: int)
  {
    (a + MODULUS + x - o) % MODULUS
  }

  function SlideB(b: int, aNew: int, n: nat, o: byte): (r: int)
  {
    var dropped := ((n % MODULUS) * (o % MODULUS)) % MODULUS;
    (b + MODULUS + aNew - dropped) % MODULUS
  }

  lemma SlideReduces(sumA: int, sumB: int, slidA: int, slidB: int, n: nat, o: byte, x: byte)
    requires slidA == sumA - o + x
    requires slidB == sumB - n * o + slidA
    ensures SlideA(sumA % MODULUS, o, x) == slidA % MODULUS
    ensures SlideB(sumB % MODULUS, slidA % MODULUS, n, o) == slidB % MODULUS
  {
    ModSub(sumA, x, o);
    ModMul(n, o);
    ModReplace(sumB, slidA, n * o);
  }

  /** The constant-time update computes the sums of the slid window. */
  lemma SlideLaw(w: Bytes, x: byte)
    requires w != []
    ensures
      var slid := w[1..] + [x];
      var aNew := SlideA(SumA(w) % MODULUS, w[0], x);
      && aNew == SumA(slid) % MODULUS
      && SlideB(SumB(w) % MODULUS, aNew, |w|, w[0]) == SumB(slid) % MODULUS
  {
    SlideSums(w, x);
    SlideReduces(SumA(w), SumB(w), SumA(w[1..] + [x]), SumB(w[1..] + [x]), |w|, w[0], x);
  }

  class RollingChecksum {
    var a: u32
    var b: u32

    /** The checksum currently stands for window `w`. */
    ghost predicate Stands(w: Bytes)
      reads this
    {
      a as int == SumA(w) % MODULUS && b as int == SumB(w) % MODULUS
    }

    constructor ()
      ensures Stands([])
    {
      a, b := 0, 0;
    }

    method Init(data: Bytes)
      modifies this
      ensures Stands(data)
    {
      a, b := Sums(data);
    }

    /** Slides the window by one byte; `window` is the window it stands for before the call. */
    method Update(oldByte: byte, newByte: byte, windowSize: u32, ghost window: Bytes)
      requires Stands(window) && window != []
      requires windowSize as int == |window| && oldByte == window[0]
      modifies this
      ensures Stands(window[1..] + [newByte])
    {
      SlideLaw(window, newByte);
      var aNew := SlideA64(a as u64, oldByte, newByte);
      var bNew := SlideB64(b as u64, aNew, windowSize as u64, oldByte);
      a, b := aNew as u32, bNew as u32;
    }

    method GetDigest(ghost window: Bytes) returns (r: int)
      requires Stands(window)
      ensures r == Checksum(window)
    {
      r := Digest(a as int, b as int);
    }
  }

  /** The same two steps in the 64-bit arithmetic of the source; nothing overflows. */
  function SlideA64(a: u64, o: byte, x: byte): (r: u64)
    requires a < 65521
    ensures r as int == SlideA(a as int, o, x) < MODULUS
  {
    (a + 65521 + x as u64 - o as u64) % 65521
  }

  function SlideB64(b: u64, aNew: u64, n: u64, o: byte): (r: u64)
    requires b < 65521 && aNew < 65521
    ensures r as int == SlideB(b as int, aNew as int, n as int, o) < MODULUS
  {
    var nm, om := n % 65521, o as u64 % 65521;
    ProductBound(nm as int, om as int);
    (b + 65521 + aNew - (nm * om) % 65521) % 65521
  }

  lemma ProductBound(x: nat, y: nat)
    requires x < MODULUS && y < MODULUS
    ensures 0 <= x * y < U32_SIZE
  {
    assert x * y <= MODULUS * y <= MODULUS * MODULUS;
  }

  // How far `a` and `b` can grow while k bytes are added to reduced sums.
  ghost function MaxA(k: nat): int { 65520 + 255 * k }
  ghost function MaxB(k: nat): int { if k == 0 then 65520 else MaxB(k - 1) + MaxA(k) }

  lemma {:induction false} MaxBClosed(k: nat)
    ensures 2 * MaxB(k) == 131040 + 131040 * k + 255 * (k * (k + 1))
  {
    if k > 0 {
      MaxBClosed(k - 1);
      assert k * (k + 1) == (k - 1) * k + 2 * k;
    }
  }

  lemma Square(k: nat, m: nat)
    requires k <= m
    ensures k * (k + 1) <= m * (m + 1)
  {
    assert k * (k + 1) <= m * (k + 1) <= m * (m + 1);
  }

  /** A batch never overflows 32 bits. */
  lemma BatchFits(k: nat)
    requires k <= BATCH
    ensures MaxA(k) < U32_SIZE && MaxB(k) < U32_SIZE
  {
    MaxBClosed(k);
    Square(k, BATCH);
  }

  lemma BatchGrows(k: nat)
    ensures MaxA(k + 1) == MaxA(k) + 255 && MaxB(k + 1) == MaxB(k) + MaxA(k + 1)
  {
  }

  lemma SumsNext(data: Bytes, i: nat)
    requires i < |data|
    ensures SumA(data[..i + 1]) == SumA(data[..i]) + data[i]
    ensures SumB(data[..i + 1]) == SumB(data[..i]) + SumA(data[..i]) + data[i]
  {
    assert data[..i + 1] == data[..i] + [data[i]];
    SumsSnoc(data[..i], data[i]);
  }

  lemma Reduced(x: int, k: int, sum: int)
    requires x + k * MODULUS == sum && 0 <= x < MODULUS
    ensures x == sum % MODULUS
  {
    ModShift(x, k);
  }

  /**
   * Batched summation. The sums are 32-bit, so every addition below is checked not to
   * overflow; they are reduced only once per batch. The ghost counters say how many
   * multiples of the modulus have been dropped from each sum.
   */
  method Sums(data: Bytes) returns (a: u32, b: u32)
    ensures a as int == SumA(data) % MODULUS
    ensures b as int == SumB(data) % MODULUS
  {
    a, b := 0, 0;
    ghost var ka, kb := 0, 0;
    var start := 0;
    while start < |data|
      invariant 0 <= start <= |data|
      invariant a as int + ka * MODULUS == SumA(data[..start]) && a as int < MODULUS
      invariant b as int + kb * MODULUS == SumB(data[..start]) && b as int < MODULUS
    {
      var end := if start + BATCH < |data| then start + BATCH else |data|;
      a, b, kb := AddBatch(data, start, end, a, b, ka, kb);
      ka, kb := ka + a as int / MODULUS, kb + b as int / MODULUS;
      a, b := a % 65521, b % 65521;
      start := end;
    }
    assert data[..|data|] == data;
    Reduced(a as int, ka, SumA(data));
    Reduced(b as int, kb, SumB(data));
  }

  method AddBatch(data: Bytes, start: nat, end: nat, a0: u32, b0: u32, ghost ka: int, ghost kb0: int)
    returns (a: u32, b: u32, ghost kb: int)
    requires start <= end <= |data| && end - start <= BATCH
    requires a0 as int + ka * MODULUS == SumA(data[..start]) && a0 as int < MODULUS
    requires b0 as int + kb0 * MODULUS == SumB(data[..start]) && b0 as int < MODULUS
    ensures a as int + ka * MODULUS == SumA(data[..end])
    ensures b as int + kb * MODULUS == SumB(data[..end])
  {
    a, b, kb := a0, b0, kb0;
    var i := start;
    while i < end
      invariant start <= i <= end
      invariant a as int + ka * MODULUS == SumA(data[..i])
      invariant b as int + kb * MODULUS == SumB(data[..i])
      invariant a as int <= MaxA(i - start) && b as int <= MaxB(i - start)
    {
      BatchGrows(i - start);
      BatchFits(i - start + 1);
      SumsNext(data, i);
      a := a + data[i] as u32;
      b := b + a;
      kb := kb + ka;
      i := i + 1;
    }
  }
}
