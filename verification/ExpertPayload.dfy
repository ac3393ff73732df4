/**
 * The payload phase of a remote expert transfer: the source cuts its chunks to the requested
 * ceiling, the destination accepts only a gapless tiling of what it asked for.
 */
module ExpertPayload {
  import opened Bytes

  datatype SourceEvent =
    | Payload(ndx: int, offset: nat, data: Bytes)
    | Completed(ndx: int, sourceSize: nat, digest: Bytes, identity: Bytes)
    | SourceFailed(ndx: int)
    | SourceCancelled(ndx: int)
    | OtherEvent

  datatype PayloadRequest = PayloadRequest(ndx: int, durablePrefix: nat, maximumChunk: nat)

  datatype Failure = Protocol | PeerFailure | PeerCancelled
  datatype Result<+T> = Ok(value: T) | Err(error: Failure)

  /** What the destination learns about the source when the payload is complete. */
  datatype Evidence = Evidence(sourceSize: nat, digest: Bytes, identity: Bytes)

  // ---------------------------------------------------------------- splitting

  /** Pieces of exactly `maximum` bytes, except a shorter last one. */
  ghost predicate CutTo(parts: seq<Bytes>, maximum: nat)
  {
    && (forall k :: 0 <= k < |parts| ==> 1 <= |parts[k]| <= maximum)
    && (forall k :: 0 <= k < |parts| - 1 ==> |parts[k]| == maximum)
  }

  ghost predicate AllFull(parts: seq<Bytes>, maximum: nat)
  {
    forall k :: 0 <= k < |parts| ==> |parts[k]| == maximum
  }

  lemma CutSnoc(parts: seq<Bytes>, part: Bytes, maximum: nat)
    requires CutTo(parts, maximum) && AllFull(parts, maximum) && 1 <= |part| <= maximum
    ensures CutTo(parts + [part], maximum) && (|part| == maximum ==> AllFull(parts + [part], maximum))
  {
  }

  method SplitBytes(bytes: Bytes, maximum: nat) returns (parts: seq<Bytes>)
    requires maximum > 0
    ensures Flatten(parts) == bytes && CutTo(parts, maximum)
  {
    parts := [];
    var start := 0;
    while start < |bytes|
      invariant 0 <= start <= |bytes|
      invariant Flatten(parts) == bytes[..start]
      invariant CutTo(parts, maximum) && (start < |bytes| ==> AllFull(parts, maximum))
    {
      var end := if start + maximum < |bytes| then start + maximum else |bytes|;
      var part := bytes[start..end];
      FlattenSnoc(parts, part);
      assert bytes[..end] == bytes[..start] + part;
      CutSnoc(parts, part, maximum);
      parts := parts + [part];
      start := end;
    }
    assert bytes[..start] == bytes;
  }

  // ---------------------------------------------------------------- tilings

  /** The payload bytes of the first n events. */
  function Carried(events: seq<SourceEvent>, n: nat): (r: Bytes)
    requires n <= |events|
  {
    if n == 0 then []
    else Carried(events, n - 1) + if events[n - 1].Payload? then events[n - 1].data else []
  }

  /** The first n events are non-empty payloads within the ceiling, each starting where the last one ended. */
  predicate Tiles(events: seq<SourceEvent>, n: nat, ndx: int, prefix: nat, maximum: nat)
    requires n <= |events|
  {
    n == 0 ||
    (var e := events[n - 1];
     && Tiles(events, n - 1, ndx, prefix, maximum)
     && e.Payload? && e.ndx == ndx && e.offset == prefix + |Carried(events, n - 1)| && 1 <= |e.data| <= maximum)
  }

  /** A tiling of exactly [prefix, size) followed by matching completion evidence. */
  predicate Acceptable(events: seq<SourceEvent>, n: nat, ndx: int, size: nat, prefix: nat, maximum: nat,
                       identity: Bytes)
  {
    && n < |events| && Tiles(events, n, ndx, prefix, maximum)
    && prefix + |Carried(events, n)| == size
    && events[n].Completed? && events[n].ndx == ndx && events[n].sourceSize == size && events[n].identity == identity
  }

  lemma {:induction false} CarriedGrows(events: seq<SourceEvent>, m: nat, n: nat)
    requires m <= n <= |events|
    ensures |Carried(events, m)| <= |Carried(events, n)|
    decreases n
  {
    if m < n { CarriedGrows(events, m, n - 1); }
  }

  /** Every event of a tiling is a payload of this index. */
  lemma {:induction false} TileAt(events: seq<SourceEvent>, k: nat, n: nat, ndx: int, prefix: nat, maximum: nat)
    requires k < n <= |events| && Tiles(events, n, ndx, prefix, maximum)
    ensures Tiles(events, k + 1, ndx, prefix, maximum)
    decreases n
  {
    if k < n - 1 { TileAt(events, k, n - 1, ndx, prefix, maximum); }
  }

  /** Later events do not matter. */
  lemma {:induction false} PrefixOnly(a: seq<SourceEvent>, b: seq<SourceEvent>, n: nat, ndx: int, prefix: nat,
                                      maximum: nat)
    requires n <= |a|
    ensures Carried(a + b, n) == Carried(a, n)
    ensures Tiles(a + b, n, ndx, prefix, maximum) == Tiles(a, n, ndx, prefix, maximum)
  {
    if n > 0 {
      PrefixOnly(a, b, n - 1, ndx, prefix, maximum);
      assert (a + b)[n - 1] == a[n - 1];
    }
  }

  // ---------------------------------------------------------------- the source

  /** One more payload at the current offset keeps the tiling. */
  lemma TileSnoc(events: seq<SourceEvent>, e: SourceEvent, ndx: int, prefix: nat, maximum: nat)
    requires Tiles(events, |events|, ndx, prefix, maximum)
    requires e.Payload? && e.ndx == ndx && e.offset == prefix + |Carried(events, |events|)| && 1 <= |e.data| <= maximum
    ensures Tiles(events + [e], |events| + 1, ndx, prefix, maximum)
    ensures Carried(events + [e], |events| + 1) == Carried(events, |events|) + e.data
  {
    PrefixOnly(events, [e], |events|, ndx, prefix, maximum);
    assert (events + [e])[|events|] == e;
  }

  /** Sends one chunk of the source stream in parts. */
  method SendChunk(chunk: Bytes, ndx: int, maximum: nat, offset: nat, before: seq<SourceEvent>, ghost prefix: nat)
    returns (events: seq<SourceEvent>, next: nat)
    requires maximum > 0 && Tiles(before, |before|, ndx, prefix, maximum)
    requires offset == prefix + |Carried(before, |before|)|
    ensures Tiles(events, |events|, ndx, prefix, maximum)
    ensures Carried(events, |events|) == Carried(before, |before|) + chunk && next == offset + |chunk|
  {
    var parts := SplitBytes(chunk, maximum);
    events, next := before, offset;
    for i := 0 to |parts|
      invariant Tiles(events, |events|, ndx, prefix, maximum)
      invariant Carried(events, |events|) == Carried(before, |before|) + Flatten(parts[..i])
      invariant next == prefix + |Carried(events, |events|)|
    {
      FlattenNext(parts, i);
      Associate(Carried(before, |before|), Flatten(parts[..i]), parts[i]);
      events, next := SendPart(parts[i], ndx, maximum, next, events, prefix);
    }
    assert parts[..|parts|] == parts;
  }

  method SendPart(part: Bytes, ndx: int, maximum: nat, offset: nat, before: seq<SourceEvent>, ghost prefix: nat)
    returns (events: seq<SourceEvent>, next: nat)
    requires Tiles(before, |before|, ndx, prefix, maximum) && 1 <= |part| <= maximum
    requires offset == prefix + |Carried(before, |before|)|
    ensures Tiles(events, |events|, ndx, prefix, maximum)
    ensures Carried(events, |events|) == Carried(before, |before|) + part && next == offset + |part|
  {
    TileSnoc(before, Payload(ndx, offset, part), ndx, prefix, maximum);
    events, next := before + [Payload(ndx, offset, part)], offset + |part|;
  }

  /** Serves the part of the source after the durable prefix, and then the completion evidence. */
  method ServePayload(ndx: int, source: Bytes, request: PayloadRequest, chunks: seq<Bytes>, digest: Bytes,
                      identity: Bytes)
    returns (r: Result<seq<SourceEvent>>)
    requires request.durablePrefix <= |source| ==> Flatten(chunks) == source[request.durablePrefix..]
    ensures r.Ok? <==> request.ndx == ndx && request.durablePrefix <= |source| && request.maximumChunk > 0
    ensures r.Ok? ==>
              && r.value != []
              && Acceptable(r.value, |r.value| - 1, ndx, |source|, request.durablePrefix, request.maximumChunk,
                            identity)
              && r.value[|r.value| - 1].digest == digest
              && Carried(r.value, |r.value| - 1) == source[request.durablePrefix..]
  {
    if request.ndx != ndx || request.durablePrefix > |source| || request.maximumChunk == 0 {
      return Err(Protocol);
    }
    var prefix, maximum := request.durablePrefix, request.maximumChunk;
    var events: seq<SourceEvent> := [];
    var offset := prefix;
    for i := 0 to |chunks|
      invariant Tiles(events, |events|, ndx, prefix, maximum)
      invariant Carried(events, |events|) == Flatten(chunks[..i]) && offset == prefix + |Flatten(chunks[..i])|
    {
      events, offset := SendChunk(chunks[i], ndx, maximum, offset, events, prefix);
      FlattenNext(chunks, i);
    }
    assert chunks[..|chunks|] == chunks;
    var last := Completed(ndx, |source|, digest, identity);
    PrefixOnly(events, [last], |events|, ndx, prefix, maximum);
    r := Ok(events + [last]);
  }

  // ---------------------------------------------------------------- the destination

  /**
   * Receives a payload. It succeeds exactly when the stream starts with an acceptable tiling
   * and the destination takes all of it. Whatever happens, what it has forwarded is the carried
   * bytes of a tiling that the stream starts with. `room` is how many chunks the writer takes.
   */
  method ReceivePayload(events: seq<SourceEvent>, ndx: int, size: nat, prefix: nat, maximum: nat, identity: Bytes,
                        room: nat)
    returns (r: Result<Evidence>, forwarded: seq<Bytes>)
    ensures |forwarded| <= |events| && |forwarded| <= room && Tiles(events, |forwarded|, ndx, prefix, maximum)
    ensures Flatten(forwarded) == Carried(events, |forwarded|)
    ensures r.Ok? <==> exists n: nat :: Acceptable(events, n, ndx, size, prefix, maximum, identity) && n <= room
    ensures r.Ok? ==>
              && prefix + |Flatten(forwarded)| == size
              && (forall k :: 0 <= k < |forwarded| ==> 1 <= |forwarded[k]| <= maximum)
              && Acceptable(events, |forwarded|, ndx, size, prefix, maximum, identity)
              && r.value == Evidence(size, events[|forwarded|].digest, identity)
  {
    var expected := prefix;
    forwarded := [];
    var i := 0;
    while i < |events|
      invariant 0 <= i <= |events| && |forwarded| == i <= room
      invariant Tiles(events, i, ndx, prefix, maximum)
      invariant expected == prefix + |Carried(events, i)| && Flatten(forwarded) == Carried(events, i)
      invariant forall k :: 0 <= k < i ==> 1 <= |forwarded[k]| <= maximum
      invariant forall n: nat :: Acceptable(events, n, ndx, size, prefix, maximum, identity) ==> i <= n
    {
      var e := events[i];
      forall n: nat | Acceptable(events, n, ndx, size, prefix, maximum, identity)
        ensures Fits(e, ndx, expected, size, maximum) <==> i < n
        ensures !e.Payload? ==> n == i
      {
        StepOfAcceptable(events, i, n, ndx, size, prefix, maximum, identity);
      }
      if !e.Payload? {
        r := Conclude(e, ndx, size, expected, identity);
        assert r.Ok? ==> Acceptable(events, i, ndx, size, prefix, maximum, identity);
        return r, forwarded;
      }
      if e.ndx != ndx || e.data == [] || |e.data| > maximum || e.offset != expected || e.offset + |e.data| > size {
        return Err(Protocol), forwarded;
      }
      if |forwarded| == room {
        return Err(Protocol), forwarded;
      }
      FlattenSnoc(forwarded, e.data);
      forwarded := forwarded + [e.data];
      expected := expected + |e.data|;
      i := i + 1;
    }
    return Err(Protocol), forwarded;
  }

  /** A payload the destination takes next. */
  predicate Fits(e: SourceEvent, ndx: int, expected: nat, size: nat, maximum: nat)
  {
    e.Payload? && e.ndx == ndx && 1 <= |e.data| <= maximum && e.offset == expected && e.offset + |e.data| <= size
  }

  /** Within an acceptable stream of length n, event i < n fits and event n does not. */
  lemma StepOfAcceptable(events: seq<SourceEvent>, i: nat, n: nat, ndx: int, size: nat, prefix: nat, maximum: nat,
                         identity: Bytes)
    requires Acceptable(events, n, ndx, size, prefix, maximum, identity) && i <= n
    ensures Fits(events[i], ndx, prefix + |Carried(events, i)|, size, maximum) <==> i < n
    ensures !events[i].Payload? ==> n == i
  {
    if i < n {
      TileAt(events, i, n, ndx, prefix, maximum);
      LastTile(events, i + 1, ndx, prefix, maximum);
      CarriedGrows(events, i + 1, n);
    }
  }

  lemma LastTile(events: seq<SourceEvent>, n: nat, ndx: int, prefix: nat, maximum: nat)
    requires 0 < n <= |events| && Tiles(events, n, ndx, prefix, maximum)
    ensures
      var e := events[n - 1];
      && e.Payload? && e.ndx == ndx && 1 <= |e.data| <= maximum && e.offset == prefix + |Carried(events, n - 1)|
      && |Carried(events, n)| == |Carried(events, n - 1)| + |e.data|
  {
  }

  /** What any message but a payload means. */
  method Conclude(e: SourceEvent, ndx: int, size: nat, expected: nat, identity: Bytes) returns (r: Result<Evidence>)
    requires !e.Payload?
    ensures r.Ok? <==>
              e.Completed? && e.ndx == ndx && e.sourceSize == size && e.identity == identity && expected == size
    ensures r.Ok? ==> r.value == Evidence(size, e.digest, identity)
    ensures e == SourceFailed(ndx) ==> r == Err(PeerFailure)
    ensures e == SourceCancelled(ndx) ==> r == Err(PeerCancelled)
  {
    match e {
      case Completed(received, completedSize, digest, completedIdentity) =>
        if received != ndx || completedSize != size || completedIdentity != identity || expected != size {
          return Err(Protocol);
        }
        return Ok(Evidence(size, digest, identity));
      case SourceFailed(received) => return Err(if received == ndx then PeerFailure else Protocol);
      case SourceCancelled(received) => return Err(if received == ndx then PeerCancelled else Protocol);
      case OtherEvent => return Err(Protocol);
    }
  }

  /** An honest source and a willing destination: the remaining source bytes arrive, in order, once. */
  method Exchange(ndx: int, source: Bytes, request: PayloadRequest, chunks: seq<Bytes>, digest: Bytes, identity: Bytes,
                  room: nat)
    returns (r: Result<Evidence>, forwarded: seq<Bytes>)
    requires request.ndx == ndx && request.durablePrefix <= |source| && request.maximumChunk > 0
    requires Flatten(chunks) == source[request.durablePrefix..] && |source| <= room
    ensures r == Ok(Evidence(|source|, digest, identity))
    ensures Flatten(forwarded) == source[request.durablePrefix..]
  {
    var served := ServePayload(ndx, source, request, chunks, digest, identity);
    var n, prefix, maximum := |served.value| - 1, request.durablePrefix, request.maximumChunk;
    TileCount(served.value, n, ndx, prefix, maximum);
    assert Acceptable(served.value, n, ndx, |source|, prefix, maximum, identity) && n <= room;
    r, forwarded := ReceivePayload(served.value, ndx, |source|, prefix, maximum, identity, room);
    AcceptableOnce(served.value, n, |forwarded|, ndx, |source|, prefix, maximum, identity);
  }

  /** A tiling has at most one chunk per byte. */
  lemma {:induction false} TileCount(events: seq<SourceEvent>, n: nat, ndx: int, prefix: nat, maximum: nat)
    requires n <= |events| && Tiles(events, n, ndx, prefix, maximum)
    ensures n <= |Carried(events, n)|
  {
    if n > 0 { TileCount(events, n - 1, ndx, prefix, maximum); }
  }

  /** A stream is acceptable at one length only. */
  lemma AcceptableOnce(events: seq<SourceEvent>, m: nat, n: nat, ndx: int, size: nat, prefix: nat, maximum: nat,
                       identity: Bytes)
    requires Acceptable(events, m, ndx, size, prefix, maximum, identity)
    requires Acceptable(events, n, ndx, size, prefix, maximum, identity)
    ensures m == n
  {
    if m < n {
      TileAt(events, m, n, ndx, prefix, maximum);
    } else if n < m {
      TileAt(events, n, m, ndx, prefix, maximum);
    }
  }
}
