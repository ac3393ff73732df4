/**
 * The paged file-list advertisement: a sender that numbers and pages observations, and a
 * receiver that accepts exactly the streams with dense numbering and matching counts.
 */
module Advertisement {
  import opened Bytes

  const U64_MAX: int := 0xFFFF_FFFF_FFFF_FFFF

  type Entry = string
  type Decoder = Bytes -> Option<Entry>
  type Encoder = Entry -> Bytes

  datatype Result<+T> = Ok(value: T) | Err(error: AdvertisementError)
  datatype AdvertisementError = Protocol | SnapshotDecode | CountMismatch | Cancelled | PeerFailed | Exhausted

  datatype Advertised = Advertised(ndx: nat, snapshot: Bytes)
  datatype Failure = Failure(entryScope: bool, diagnostic: string)

  datatype Terminal =
    | CompletedWith(entries: nat, failures: nat)
    | CancelledWith(entries: nat, failures: nat)
    | FailedWith(entries: nat, failures: nat, failure: Failure)

  datatype Event =
    | Page(sequence: nat, entries: seq<Advertised>)
    | EntryFailure(failure: Failure)
    | Last(terminal: Terminal)

  /** What both sides end up with. */
  datatype RemoteAdvertisement = RemoteAdvertisement(
    entries: map<nat, Entry>, failures: seq<Failure>, pageCount: nat, observedEntries: nat, entryFailures: nat)

  // ---------------------------------------------------------------- what a stream says

  function Pages(events: seq<Event>): (r: seq<Event>)
  {
    if events == [] then []
    else Pages(events[..|events| - 1]) + (if events[|events| - 1].Page? then [events[|events| - 1]] else [])
  }

  function Entries(events: seq<Event>): (r: seq<Advertised>)
  {
    if events == [] then []
    else Entries(events[..|events| - 1]) + (if events[|events| - 1].Page? then events[|events| - 1].entries else [])
  }

  function Failures(events: seq<Event>): (r: seq<Failure>)
  {
    if events == [] then []
    else Failures(events[..|events| - 1])
         + (if events[|events| - 1].EntryFailure? then [events[|events| - 1].failure] else [])
  }

  lemma Snoc(events: seq<Event>, e: Event)
    ensures Pages(events + [e]) == if e.Page? then Pages(events) + [e] else Pages(events)
    ensures Entries(events + [e]) == if e.Page? then Entries(events) + e.entries else Entries(events)
    ensures Failures(events + [e]) == if e.EntryFailure? then Failures(events) + [e.failure] else Failures(events)
  {
    assert (events + [e])[..|events|] == events;
  }

  /** Advertised entries number from `from` upward and decode. */
  predicate Dense(entries: seq<Advertised>, from: nat, decode: Decoder)
  {
    forall j {:trigger DenseAt(entries, from, decode, j)} :: 0 <= j < |entries| ==> DenseAt(entries, from, decode, j)
  }

  predicate DenseAt(entries: seq<Advertised>, from: nat, decode: Decoder, j: nat)
    requires j < |entries|
  {
    entries[j].ndx == from + j && decode(entries[j].snapshot).Some?
  }

  predicate NoTerminal(events: seq<Event>)
  {
    forall k {:trigger NoTerminalAt(events, k)} :: 0 <= k < |events| ==> NoTerminalAt(events, k)
  }

  predicate NoTerminalAt(events: seq<Event>, k: nat)
    requires k < |events|
  {
    !events[k].Last?
  }

  predicate Numbered(pages: seq<Event>, max: nat)
  {
    forall k {:trigger NumberedAt(pages, max, k)} :: 0 <= k < |pages| ==> NumberedAt(pages, max, k)
  }

  predicate NumberedAt(pages: seq<Event>, max: nat, k: nat)
    requires k < |pages|
  {
    pages[k].Page? && pages[k].sequence == k && 1 <= |pages[k].entries| <= max
  }

  predicate EntryScoped(failures: seq<Failure>)
  {
    forall k {:trigger ScopedAt(failures, k)} :: 0 <= k < |failures| ==> ScopedAt(failures, k)
  }

  predicate ScopedAt(failures: seq<Failure>, k: nat)
    requires k < |failures|
  {
    failures[k].entryScope
  }

  /**
   * A stream before its terminal: pages numbered 0, 1, 2, ... with 1 to max entries, indexes
   * dense from 0 across pages, decodable snapshots, failures of entry scope, counts in 64 bits.
   */
  ghost predicate LegalBody(events: seq<Event>, max: nat, decode: Decoder)
  {
    && NoTerminal(events)
    && Numbered(Pages(events), max) && |Pages(events)| <= U64_MAX
    && Dense(Entries(events), 0, decode) && |Entries(events)| <= U64_MAX
    && EntryScoped(Failures(events)) && |Failures(events)| <= U64_MAX
  }

  /** One terminal, in last place, that reports exactly what was sent. */
  ghost predicate Acceptable(events: seq<Event>, max: nat, decode: Decoder)
  {
    && events != []
    && LegalBody(events[..|events| - 1], max, decode)
    && events[|events| - 1]
       == Last(CompletedWith(|Entries(events[..|events| - 1])|, |Failures(events[..|events| - 1])|))
  }

  function EntryAt(entries: seq<Advertised>, from: nat, decode: Decoder, j: nat): (r: Entry)
    requires Dense(entries, from, decode) && j < |entries|
  {
    assert DenseAt(entries, from, decode, j);
    decode(entries[j].snapshot).value
  }

  function EntryMap(entries: seq<Advertised>, decode: Decoder): (r: map<nat, Entry>)
    requires Dense(entries, 0, decode)
  {
    map j: nat | j < |entries| :: EntryAt(entries, 0, decode, j)
  }

  /** The index-to-entry map, failures and counts that a legal body carries. */
  ghost function Carried(events: seq<Event>, decode: Decoder): (r: RemoteAdvertisement)
    requires Dense(Entries(events), 0, decode)
  {
    RemoteAdvertisement(EntryMap(Entries(events), decode), Failures(events), |Pages(events)|, |Entries(events)|,
                        |Failures(events)|)
  }

  // ---------------------------------------------------------------- one more event

  /** Whether an event may follow a legal body that carried these counts. */
  predicate MayFollow(pages: nat, entries: nat, failures: nat, e: Event, max: nat, decode: Decoder)
  {
    match e
    case Page(sequence, es) =>
      && sequence == pages && 1 <= |es| <= max && Dense(es, entries, decode)
      && entries + |es| <= U64_MAX && pages + 1 <= U64_MAX
    case EntryFailure(f) => f.entryScope && failures + 1 <= U64_MAX
    case Last(_) => false
  }

  lemma DenseAppend(a: seq<Advertised>, b: seq<Advertised>, decode: Decoder)
    ensures Dense(a + b, 0, decode) <==> Dense(a, 0, decode) && Dense(b, |a|, decode)
  {
    if Dense(a + b, 0, decode) {
      forall j | 0 <= j < |a| ensures DenseAt(a, 0, decode, j) {
        assert DenseAt(a + b, 0, decode, j);
      }
      forall j | 0 <= j < |b| ensures DenseAt(b, |a|, decode, j) {
        assert DenseAt(a + b, 0, decode, |a| + j);
      }
    }
    if Dense(a, 0, decode) && Dense(b, |a|, decode) {
      forall j | 0 <= j < |a + b| ensures DenseAt(a + b, 0, decode, j) {
        if j < |a| {
          assert DenseAt(a, 0, decode, j);
        } else {
          assert DenseAt(b, |a|, decode, j - |a|);
        }
      }
    }
  }

  lemma NoTerminalSnoc(events: seq<Event>, e: Event)
    ensures NoTerminal(events + [e]) <==> NoTerminal(events) && !e.Last?
  {
    if NoTerminal(events + [e]) {
      assert NoTerminalAt(events + [e], |events|);
      forall k | 0 <= k < |events| ensures NoTerminalAt(events, k) {
        assert NoTerminalAt(events + [e], k);
      }
    }
    if NoTerminal(events) && !e.Last? {
      forall k | 0 <= k < |events + [e]| ensures NoTerminalAt(events + [e], k) {
        if k < |events| { assert NoTerminalAt(events, k); }
      }
    }
  }

  lemma NumberedSnoc(pages: seq<Event>, e: Event, max: nat)
    requires e.Page?
    ensures Numbered(pages + [e], max)
       <==> Numbered(pages, max) && e.sequence == |pages| && 1 <= |e.entries| <= max
  {
    if Numbered(pages + [e], max) {
      assert NumberedAt(pages + [e], max, |pages|);
      forall k | 0 <= k < |pages| ensures NumberedAt(pages, max, k) {
        assert NumberedAt(pages + [e], max, k);
      }
    }
    if Numbered(pages, max) && e.sequence == |pages| && 1 <= |e.entries| <= max {
      forall k | 0 <= k < |pages + [e]| ensures NumberedAt(pages + [e], max, k) {
        if k < |pages| { assert NumberedAt(pages, max, k); }
      }
    }
  }

  lemma EntryScopedSnoc(failures: seq<Failure>, f: Failure)
    ensures EntryScoped(failures + [f]) <==> EntryScoped(failures) && f.entryScope
  {
    if EntryScoped(failures + [f]) {
      assert ScopedAt(failures + [f], |failures|);
      forall k | 0 <= k < |failures| ensures ScopedAt(failures, k) {
        assert ScopedAt(failures + [f], k);
      }
    }
    if EntryScoped(failures) && f.entryScope {
      forall k | 0 <= k < |failures + [f]| ensures ScopedAt(failures + [f], k) {
        if k < |failures| { assert ScopedAt(failures, k); }
      }
    }
  }

  /** Legality is decided event by event. */
  lemma LegalSnoc(events: seq<Event>, e: Event, max: nat, decode: Decoder)
    ensures LegalBody(events + [e], max, decode)
       <==> LegalBody(events, max, decode)
            && MayFollow(|Pages(events)|, |Entries(events)|, |Failures(events)|, e, max, decode)
  {
    Snoc(events, e);
    NoTerminalSnoc(events, e);
    match e {
      case Page(_, es) =>
        DenseAppend(Entries(events), es, decode);
        NumberedSnoc(Pages(events), e, max);
      case EntryFailure(f) =>
        EntryScopedSnoc(Failures(events), f);
      case Last(_) =>
    }
  }

  /** Anything short of legal stays short of legal. */
  lemma {:induction false} LegalPrefix(events: seq<Event>, n: nat, max: nat, decode: Decoder)
    requires n <= |events| && LegalBody(events, max, decode)
    ensures LegalBody(events[..n], max, decode)
    decreases |events| - n
  {
    if n == |events| {
      assert events[..n] == events;
    } else {
      LegalPrefix(events, n + 1, max, decode);
      assert events[..n + 1] == events[..n] + [events[n]];
      LegalSnoc(events[..n], events[n], max, decode);
    }
  }

  /** An acceptable stream lets every event but its last follow, and its last event is its only terminal. */
  lemma AcceptableAt(events: seq<Event>, n: nat, max: nat, decode: Decoder)
    requires Acceptable(events, max, decode) && n < |events|
    ensures LegalBody(events[..n], max, decode)
    ensures n < |events| - 1 ==>
              MayFollow(|Pages(events[..n])|, |Entries(events[..n])|, |Failures(events[..n])|, events[n], max, decode)
    ensures n == |events| - 1 <==> events[n].Last?
  {
    var body := events[..|events| - 1];
    LegalPrefix(body, n, max, decode);
    assert body[..n] == events[..n];
    if n < |events| - 1 {
      LegalPrefix(body, n + 1, max, decode);
      assert body[..n + 1] == events[..n] + [events[n]];
      LegalSnoc(events[..n], events[n], max, decode);
    }
  }

  // ---------------------------------------------------------------- the receiver

  datatype Receipt =
    | PageReceipt(entries: seq<(nat, Entry)>)
    | FailureReceipt(failure: Failure)
    | CompletedReceipt(pageCount: nat, observedEntries: nat, entryFailures: nat)

  /** The decoded entries of one page. */
  function Decoded(es: seq<Advertised>, from: nat, decode: Decoder): (r: seq<(nat, Entry)>)
    requires Dense(es, from, decode)
    ensures |r| == |es|
  {
    seq(|es|, j requires 0 <= j < |es| => (es[j].ndx, EntryAt(es, from, decode, j)))
  }

  lemma DecodedSnoc(es: seq<Advertised>, e: Advertised, from: nat, decode: Decoder)
    requires Dense(es, from, decode) && e.ndx == from + |es| && decode(e.snapshot).Some?
    ensures Dense(es + [e], from, decode)
    ensures Decoded(es + [e], from, decode) == Decoded(es, from, decode) + [(e.ndx, decode(e.snapshot).value)]
  {
    forall j | 0 <= j < |es + [e]| ensures DenseAt(es + [e], from, decode, j) {
      if j < |es| { assert DenseAt(es, from, decode, j); }
    }
  }

  class RemoteAdvertisementReceiver {
    const max: nat
    const decode: Decoder
    var expectedPage: nat
    var expectedNdx: nat
    var entryFailures: nat
    var terminated: bool

    constructor (max: nat, decode: Decoder)
      ensures this.max == max && this.decode == decode
      ensures expectedPage == expectedNdx == entryFailures == 0 && !terminated
    {
      this.max, this.decode := max, decode;
      expectedPage, expectedNdx, entryFailures, terminated := 0, 0, 0, false;
    }

    /** Consumes one event; a receipt means the event may follow what came before. */
    method Accept(event: Event) returns (r: Result<Receipt>)
      modifies this
      ensures old(terminated) ==> r == Err(Protocol)
      ensures !old(terminated) && !event.Last? ==>
                (r.Ok? <==> MayFollow(old(expectedPage), old(expectedNdx), old(entryFailures), event, max, decode))
      ensures !old(terminated) && r.Ok? ==>
                match event
                case Page(_, es) =>
                  && expectedPage == old(expectedPage) + 1 && expectedNdx == old(expectedNdx) + |es|
                  && entryFailures == old(entryFailures) && !terminated
                  && Dense(es, old(expectedNdx), decode)
                  && r.value == PageReceipt(Decoded(es, old(expectedNdx), decode))
                case EntryFailure(f) =>
                  && expectedPage == old(expectedPage) && expectedNdx == old(expectedNdx)
                  && entryFailures == old(entryFailures) + 1 && !terminated && r.value == FailureReceipt(f)
                case Last(t) =>
                  r.value == CompletedReceipt(old(expectedPage), old(expectedNdx), old(entryFailures))
      ensures !old(terminated) && event.Last? ==>
                && terminated && expectedPage == old(expectedPage) && expectedNdx == old(expectedNdx)
                && entryFailures == old(entryFailures)
                && (r.Ok? <==> event.terminal == CompletedWith(old(expectedNdx), old(entryFailures)))
    {
      if terminated {
        return Err(Protocol);
      }
      match event {
        case Page(sequence, es) =>
          r := AcceptPage(sequence, es);
        case EntryFailure(failure) =>
          if !failure.entryScope || entryFailures + 1 > U64_MAX {
            return Err(Protocol);
          }
          entryFailures := entryFailures + 1;
          r := Ok(FailureReceipt(failure));
        case Last(terminal) =>
          terminated := true;
          if terminal.entries != expectedNdx || terminal.failures != entryFailures {
            return Err(CountMismatch);
          }
          match terminal {
            case CompletedWith(_, _) => r := Ok(CompletedReceipt(expectedPage, expectedNdx, entryFailures));
            case CancelledWith(_, _) => r := Err(Cancelled);
            case FailedWith(_, _, _) => r := Err(PeerFailed);
          }
      }
    }

    method AcceptPage(sequence: nat, es: seq<Advertised>) returns (r: Result<Receipt>)
      modifies this`expectedPage, this`expectedNdx
      ensures r.Ok? <==>
                MayFollow(old(expectedPage), old(expectedNdx), entryFailures, Page(sequence, es), max, decode)
      ensures r.Ok? ==>
                && expectedPage == old(expectedPage) + 1 && expectedNdx == old(expectedNdx) + |es|
                && Dense(es, old(expectedNdx), decode)
                && r.value == PageReceipt(Decoded(es, old(expectedNdx), decode))
    {
      if sequence != expectedPage || es == [] || |es| > max {
        return Err(Protocol);
      }
      var entries := [];
      for j := 0 to |es|
        invariant expectedNdx == old(expectedNdx) + j && expectedPage == old(expectedPage)
        invariant expectedNdx <= U64_MAX || j == 0
        invariant Dense(es[..j], old(expectedNdx), decode)
        invariant entries == Decoded(es[..j], old(expectedNdx), decode)
      {
        assert Dense(es, old(expectedNdx), decode) ==> DenseAt(es, old(expectedNdx), decode, j);
        if es[j].ndx != expectedNdx {
          return Err(Protocol);
        }
        var entry := decode(es[j].snapshot);
        if entry.None? {
          return Err(SnapshotDecode);
        }
        entries := entries + [(es[j].ndx, entry.value)];
        if expectedNdx + 1 > U64_MAX {
          return Err(Protocol);
        }
        expectedNdx := expectedNdx + 1;
        DecodedSnoc(es[..j], es[j], old(expectedNdx), decode);
        assert es[..j + 1] == es[..j] + [es[j]];
      }
      assert es[..|es|] == es;
      if expectedPage + 1 > U64_MAX {
        return Err(Protocol);
      }
      expectedPage := expectedPage + 1;
      r := Ok(PageReceipt(entries));
    }
  }

  lemma EntryMapSnoc(a: seq<Advertised>, e: Advertised, decode: Decoder)
    requires Dense(a + [e], 0, decode)
    ensures Dense(a, 0, decode) && e.ndx == |a| && decode(e.snapshot).Some?
    ensures EntryMap(a + [e], decode) == EntryMap(a, decode)[|a| := decode(e.snapshot).value]
  {
    DenseAppend(a, [e], decode);
    assert DenseAt(a + [e], 0, decode, |a|);
    forall j: nat | j < |a| ensures EntryAt(a + [e], 0, decode, j) == EntryAt(a, 0, decode, j) {
    }
    assert EntryMap(a + [e], decode).Keys == EntryMap(a, decode).Keys + {|a|};
  }

  lemma DensePrefix(es: seq<Advertised>, from: nat, decode: Decoder, n: nat)
    requires Dense(es, from, decode) && n <= |es|
    ensures Dense(es[..n], from, decode)
  {
    forall j | 0 <= j < n ensures DenseAt(es[..n], from, decode, j) {
      assert DenseAt(es, from, decode, j);
    }
  }

  /** Adds the decoded entries of a page to the index map. */
  method Absorb(entries: map<nat, Entry>, decoded: seq<(nat, Entry)>, ghost a: seq<Advertised>,
                ghost b: seq<Advertised>, ghost decode: Decoder)
    returns (r: map<nat, Entry>)
    requires Dense(a, 0, decode) && Dense(b, |a|, decode) && entries == EntryMap(a, decode)
    requires decoded == Decoded(b, |a|, decode)
    ensures Dense(a + b, 0, decode) && r == EntryMap(a + b, decode)
  {
    r := entries;
    assert a + b[..0] == a;
    for j := 0 to |decoded|
      invariant Dense(a + b[..j], 0, decode) && r == EntryMap(a + b[..j], decode)
    {
      assert a + b[..j + 1] == (a + b[..j]) + [b[j]];
      DensePrefix(b, |a|, decode, j + 1);
      DenseAppend(a, b[..j + 1], decode);
      assert DenseAt(b, |a|, decode, j);
      EntryMapSnoc(a + b[..j], b[j], decode);
      r := r[decoded[j].0 := decoded[j].1];
    }
    assert b[..|b|] == b;
  }

  /** What has been received agrees with the events consumed so far. */
  ghost predicate Synced(receiver: RemoteAdvertisementReceiver, entries: map<nat, Entry>, failures: seq<Failure>,
                         before: seq<Event>)
    reads receiver
  {
    && LegalBody(before, receiver.max, receiver.decode) && !receiver.terminated
    && Carried(before, receiver.decode)
       == RemoteAdvertisement(entries, failures, receiver.expectedPage, receiver.expectedNdx, receiver.entryFailures)
  }

  /** One event of the receive loop: go on, end with a result, or reject. */
  method Consume(receiver: RemoteAdvertisementReceiver, entries: map<nat, Entry>, failures: seq<Failure>,
                 event: Event, ghost before: seq<Event>)
    returns (entries': map<nat, Entry>, failures': seq<Failure>, error: Option<AdvertisementError>)
    requires Synced(receiver, entries, failures, before)
    modifies receiver
    ensures !event.Last? ==> (error.None? <==> LegalBody(before + [event], receiver.max, receiver.decode))
    ensures !event.Last? && error.None? ==> Synced(receiver, entries', failures', before + [event])
    ensures event.Last? ==>
              && (error.None? <==> event == Last(CompletedWith(|Entries(before)|, |Failures(before)|)))
              && entries' == entries && failures' == failures
              && Carried(before, receiver.decode)
                 == RemoteAdvertisement(entries, failures, receiver.expectedPage, receiver.expectedNdx,
                                        receiver.entryFailures)
  {
    entries', failures', error := entries, failures, None;
    LegalSnoc(before, event, receiver.max, receiver.decode);
    Snoc(before, event);
    var receipt := receiver.Accept(event);
    if receipt.Err? {
      error := Some(receipt.error);
    } else if receipt.value.PageReceipt? {
      entries' := Absorb(entries, receipt.value.entries, Entries(before), event.entries, receiver.decode);
    } else if receipt.value.FailureReceipt? {
      failures' := failures + [receipt.value.failure];
    }
  }

  /**
   * Receives a whole stream: it succeeds exactly on the acceptable streams, and then holds what
   * they carry.
   */
  method Receive(events: seq<Event>, max: nat, decode: Decoder) returns (r: Result<RemoteAdvertisement>)
    ensures r.Ok? <==> Acceptable(events, max, decode)
    ensures r.Ok? ==> r.value == Carried(events[..|events| - 1], decode)
  {
    var receiver := new RemoteAdvertisementReceiver(max, decode);
    var entries: map<nat, Entry> := map[];
    var failures: seq<Failure> := [];
    var i := 0;
    while i < |events|
      invariant 0 <= i <= |events| && fresh(receiver) && receiver.max == max && receiver.decode == decode
      invariant Synced(receiver, entries, failures, events[..i])
    {
      assert events[..i + 1] == events[..i] + [events[i]];
      if Acceptable(events, max, decode) {
        AcceptableAt(events, i, max, decode);
        LegalSnoc(events[..i], events[i], max, decode);
      }
      var error;
      entries, failures, error := Consume(receiver, entries, failures, events[i], events[..i]);
      if error.Some? {
        return Err(error.value);
      }
      if events[i].Last? {
        if i + 1 < |events| {
          return Err(Protocol);
        }
        return Ok(RemoteAdvertisement(entries, failures, receiver.expectedPage, receiver.expectedNdx,
                                      receiver.entryFailures));
      }
      i := i + 1;
    }
    assert events[..i] == events;
    if events != [] { assert NoTerminalAt(events, |events| - 1); }
    return Err(Protocol);
  }

  // ---------------------------------------------------------------- the sender

  datatype TraversalItem = EntryItem(entry: Entry) | FailureItem(diagnostic: string) | Listed | Checkpoint | Unsupported
  datatype TraversalOutcome =
    | Finished(emitted: nat, failedChildren: nat, listingFailures: nat)
    | Interrupted
    | Aborted(diagnostic: string)

  lemma FailureEvent(sent: seq<Event>, failure: Failure, max: nat, decode: Decoder)
    requires LegalBody(sent, max, decode) && failure.entryScope && |Failures(sent)| < U64_MAX
    ensures LegalBody(sent + [EntryFailure(failure)], max, decode)
    ensures Entries(sent + [EntryFailure(failure)]) == Entries(sent)
    ensures Pages(sent + [EntryFailure(failure)]) == Pages(sent)
    ensures Failures(sent + [EntryFailure(failure)]) == Failures(sent) + [failure]
  {
    LegalSnoc(sent, EntryFailure(failure), max, decode);
    Snoc(sent, EntryFailure(failure));
  }

  class AdvertisementProjection {
    const pageSize: nat
    const encode: Encoder
    var nextPage: nat
    var pending: seq<Advertised>
    var entries: map<nat, Entry>
    var failures: seq<Failure>
    var observedEntries: nat
    var entryFailures: nat

    constructor (pageSize: nat, encode: Encoder)
      ensures this.pageSize == pageSize && this.encode == encode
      ensures nextPage == observedEntries == entryFailures == 0 && pending == [] && failures == [] && entries == map[]
    {
      this.pageSize, this.encode := pageSize, encode;
      nextPage, pending, entries, failures, observedEntries, entryFailures := 0, [], map[], [], 0, 0;
    }

    /** Events sent so far plus the pending page describe everything observed. */
    ghost predicate Projects(sent: seq<Event>, decode: Decoder)
      reads this
    {
      && LegalBody(sent, pageSize, decode)
      && |pending| <= pageSize && Dense(Entries(sent) + pending, 0, decode)
      && entries == EntryMap(Entries(sent) + pending, decode)
      && observedEntries == |Entries(sent)| + |pending| <= U64_MAX
      && nextPage == |Pages(sent)| <= |Entries(sent)|
      && failures == Failures(sent) && entryFailures == |failures|
    }

    method PushEntry(entry: Entry, ghost sent: seq<Event>, ghost decode: Decoder) returns (r: Result<Option<Event>>)
      requires Projects(sent, decode) && |pending| < pageSize && decode(encode(entry)) == Some(entry)
      modifies this
      ensures r.Ok? <==> old(observedEntries) < U64_MAX
      ensures r.Ok? ==>
                && Projects(if r.value.Some? then sent + [r.value.value] else sent, decode) && |pending| < pageSize
                && entries == old(entries)[old(observedEntries) := entry]
                && failures == old(failures) && observedEntries == old(observedEntries) + 1
                && (r.value.Some? <==> |old(pending)| + 1 == pageSize)
    {
      if observedEntries + 1 > U64_MAX {
        return Err(Exhausted);
      }
      Record(entry, sent, decode);
      if |pending| == pageSize {
        var page := BuildPage(sent, decode);
        return Ok(Some(page));
      }
      return Ok(None);
    }

    /** Numbers an observation and adds it to the pending page. */
    method Record(entry: Entry, ghost sent: seq<Event>, ghost decode: Decoder)
      requires Projects(sent, decode) && |pending| < pageSize && decode(encode(entry)) == Some(entry)
      requires observedEntries < U64_MAX
      modifies this`observedEntries, this`pending, this`entries
      ensures Projects(sent, decode) && |pending| == |old(pending)| + 1
      ensures entries == old(entries)[old(observedEntries) := entry] && observedEntries == old(observedEntries) + 1
    {
      var item := Advertised(observedEntries, encode(entry));
      ghost var all := Entries(sent) + pending;
      assert Entries(sent) + (pending + [item]) == all + [item];
      assert DenseAt([item], |all|, decode, 0);
      DenseAppend(all, [item], decode);
      EntryMapSnoc(all, item, decode);
      observedEntries := observedEntries + 1;
      pending := pending + [item];
      entries := entries[item.ndx := entry];
    }

    method TakePage(ghost sent: seq<Event>, ghost decode: Decoder) returns (page: Option<Event>)
      requires Projects(sent, decode)
      modifies this`pending, this`nextPage
      ensures pending == [] && Projects(if page.Some? then sent + [page.value] else sent, decode)
    {
      if pending == [] {
        return None;
      }
      var built := BuildPage(sent, decode);
      return Some(built);
    }

    method BuildPage(ghost sent: seq<Event>, ghost decode: Decoder) returns (page: Event)
      requires Projects(sent, decode) && pending != []
      modifies this`pending, this`nextPage
      ensures page == Page(old(nextPage), old(pending)) && pending == []
      ensures Projects(sent + [page], decode)
    {
      page := Page(nextPage, pending);
      DenseAppend(Entries(sent), pending, decode);
      LegalSnoc(sent, page, pageSize, decode);
      Snoc(sent, page);
      pending := [];
      nextPage := nextPage + 1;
      assert Entries(sent + [page]) + [] == Entries(sent) + old(pending);
    }

    /** An entry failure closes the pending page first, so the order on the wire is the order observed. */
    method PushFailure(failure: Failure, ghost sent: seq<Event>, ghost decode: Decoder)
      requires Projects(sent, decode) && pending == [] && failure.entryScope && entryFailures < U64_MAX
      modifies this`failures, this`entryFailures
      ensures Projects(sent + [EntryFailure(failure)], decode)
      ensures failures == old(failures) + [failure]
    {
      FailureEvent(sent, failure, pageSize, decode);
      entryFailures := entryFailures + 1;
      failures := failures + [failure];
    }
  }

  /** The entries and failures of a traversal, in order. */
  function Observed(items: seq<TraversalItem>): (r: seq<Entry>)
  {
    if items == [] then []
    else Observed(items[..|items| - 1]) + (if items[|items| - 1].EntryItem? then [items[|items| - 1].entry] else [])
  }

  function Failed(items: seq<TraversalItem>): (r: seq<Failure>)
  {
    if items == [] then []
    else Failed(items[..|items| - 1])
         + (if items[|items| - 1].FailureItem? then [Failure(true, items[|items| - 1].diagnostic)] else [])
  }

  function Numbering(entries: seq<Entry>): (r: map<nat, Entry>)
  {
    map j: nat | j < |entries| :: entries[j]
  }

  lemma ItemSnoc(items: seq<TraversalItem>, item: TraversalItem)
    ensures Observed(items + [item]) == if item.EntryItem? then Observed(items) + [item.entry] else Observed(items)
    ensures Failed(items + [item])
         == if item.FailureItem? then Failed(items) + [Failure(true, item.diagnostic)] else Failed(items)
    ensures |Observed(items)| + |Failed(items)| <= |items|
  {
    assert (items + [item])[..|items|] == items;
    ItemBound(items);
  }

  lemma {:induction false} ItemBound(items: seq<TraversalItem>)
    ensures |Observed(items)| + |Failed(items)| <= |items|
  {
    if items != [] { ItemBound(items[..|items| - 1]); }
  }

  ghost predicate Supported(items: seq<TraversalItem>)
  {
    forall k :: 0 <= k < |items| ==> !items[k].Unsupported?
  }

  /** A traversal that the sender can advertise to the end, with totals that agree with what it saw. */
  ghost predicate Advertisable(items: seq<TraversalItem>, outcome: TraversalOutcome)
  {
    && Supported(items)
    && outcome.Finished? && outcome.emitted == |Observed(items)|
    && outcome.failedChildren + outcome.listingFailures == |Failed(items)|
  }

  lemma NumberingSnoc(entries: seq<Entry>, entry: Entry)
    ensures Numbering(entries + [entry]) == Numbering(entries)[|entries| := entry]
  {
  }

  /** The projection has seen exactly these items. */
  ghost predicate Saw(projection: AdvertisementProjection, items: seq<TraversalItem>)
    reads projection
  {
    && projection.observedEntries == |Observed(items)|
    && projection.entries == Numbering(Observed(items)) && projection.failures == Failed(items)
  }

  /** Projects one traversal item; returns the events it sends. */
  method AdvertiseItem(projection: AdvertisementProjection, item: TraversalItem, ghost before: seq<TraversalItem>,
                       ghost sent: seq<Event>, ghost decode: Decoder)
    returns (more: seq<Event>)
    requires projection.Projects(sent, decode) && |projection.pending| < projection.pageSize
    requires Saw(projection, before) && |before| < U64_MAX && !item.Unsupported?
    requires forall e :: decode(projection.encode(e)) == Some(e)
    modifies projection
    ensures projection.Projects(sent + more, decode) && |projection.pending| < projection.pageSize
    ensures Saw(projection, before + [item])
  {
    ItemSnoc(before, item);
    more := [];
    assert sent + [] == sent;
    if item.EntryItem? {
      NumberingSnoc(Observed(before), item.entry);
      var page := projection.PushEntry(item.entry, sent, decode);
      if page.value.Some? { more := [page.value.value]; }
    } else if item.FailureItem? {
      more := AdvertiseFailure(projection, Failure(true, item.diagnostic), sent, decode);
    }
  }

  /** Sends the pending page, then the failure. */
  method AdvertiseFailure(projection: AdvertisementProjection, failure: Failure, ghost sent: seq<Event>,
                          ghost decode: Decoder)
    returns (more: seq<Event>)
    requires projection.Projects(sent, decode) && failure.entryScope && projection.entryFailures < U64_MAX
    modifies projection
    ensures projection.Projects(sent + more, decode) && projection.pending == []
    ensures projection.failures == old(projection.failures) + [failure]
    ensures projection.entries == old(projection.entries)
    ensures projection.observedEntries == old(projection.observedEntries)
  {
    more := [];
    assert sent + [] == sent;
    var page := projection.TakePage(sent, decode);
    if page.Some? { more := [page.value]; }
    projection.PushFailure(failure, sent + more, decode);
    Associate(sent, more, [EntryFailure(failure)]);
    more := more + [EntryFailure(failure)];
  }

  /** Projects items up to the first unsupported one. */
  method AdvertiseItems(projection: AdvertisementProjection, items: seq<TraversalItem>, ghost decode: Decoder)
    returns (sent: seq<Event>, supported: bool)
    requires projection.Projects([], decode) && projection.pageSize > 0 && projection.pending == []
    requires Saw(projection, []) && |items| <= U64_MAX && forall e :: decode(projection.encode(e)) == Some(e)
    modifies projection
    ensures supported <==> Supported(items)
    ensures supported ==> projection.Projects(sent, decode) && Saw(projection, items)
  {
    sent := [];
    for i := 0 to |items|
      invariant projection.Projects(sent, decode) && |projection.pending| < projection.pageSize
      invariant Saw(projection, items[..i])
      invariant Supported(items[..i])
    {
      assert items[..i + 1] == items[..i] + [items[i]];
      if items[i].Unsupported? {
        return sent, false;
      }
      var more := AdvertiseItem(projection, items[i], items[..i], sent, decode);
      sent := sent + more;
    }
    assert items[..|items|] == items;
    return sent, true;
  }

  /**
   * Advertises a traversal: it succeeds exactly on advertisable traversals; then the events are
   * acceptable to any receiver with at least this page limit and carry exactly what was observed.
   * A failed walk, too, ends with a terminal that reports what was observed.
   */
  method AdvertiseRemote(items: seq<TraversalItem>, outcome: TraversalOutcome, pageSize: nat, encode: Encoder,
                         ghost decode: Decoder)
    returns (sent: seq<Event>, r: Result<RemoteAdvertisement>)
    requires pageSize > 0 && |items| <= U64_MAX
    requires forall e :: decode(encode(e)) == Some(e)
    ensures r.Ok? <==> Advertisable(items, outcome)
    ensures r.Ok? ==> Acceptable(sent, pageSize, decode) && Carried(sent[..|sent| - 1], decode) == r.value
    ensures r.Ok? ==> r.value.entries == Numbering(Observed(items)) && r.value.failures == Failed(items)
    ensures Supported(items) ==>
              && sent != [] && LegalBody(sent[..|sent| - 1], pageSize, decode)
              && EndsWith(sent[|sent| - 1], |Observed(items)|, |Failed(items)|, r.Ok?)
  {
    var projection := new AdvertisementProjection(pageSize, encode);
    var supported;
    sent, supported := AdvertiseItems(projection, items, decode);
    if !supported {
      return sent, Err(Protocol);
    }
    sent, r := AdvertiseRest(projection, sent, items, outcome, decode);
  }

  /** Sends the last, possibly short page and the terminal. */
  method AdvertiseRest(projection: AdvertisementProjection, sent: seq<Event>, ghost items: seq<TraversalItem>,
                       outcome: TraversalOutcome, ghost decode: Decoder)
    returns (all: seq<Event>, r: Result<RemoteAdvertisement>)
    requires projection.Projects(sent, decode) && Saw(projection, items) && Supported(items)
    modifies projection
    ensures r.Ok? <==> Advertisable(items, outcome)
    ensures r.Ok? ==> Acceptable(all, projection.pageSize, decode) && Carried(all[..|all| - 1], decode) == r.value
    ensures r.Ok? ==> r.value.entries == Numbering(Observed(items)) && r.value.failures == Failed(items)
    ensures all != [] && LegalBody(all[..|all| - 1], projection.pageSize, decode)
    ensures EndsWith(all[|all| - 1], |Observed(items)|, |Failed(items)|, r.Ok?)
  {
    var page := projection.TakePage(sent, decode);
    all := if page.Some? then sent + [page.value] else sent;
    all, r := Conclude(projection, all, outcome, decode);
  }

  /** A terminal that reports what was observed, and a completion only for a success. */
  predicate EndsWith(e: Event, entries: nat, failures: nat, success: bool)
  {
    && e.Last? && e.terminal.entries == entries && e.terminal.failures == failures
    && (e.terminal.CompletedWith? <==> success)
  }

  /** Compares the totals and sends the one terminal. */
  method Conclude(projection: AdvertisementProjection, sent: seq<Event>, outcome: TraversalOutcome,
                  ghost decode: Decoder)
    returns (all: seq<Event>, r: Result<RemoteAdvertisement>)
    requires projection.Projects(sent, decode) && projection.pending == []
    ensures r.Ok? <==>
              outcome.Finished? && outcome.emitted == projection.observedEntries
              && outcome.failedChildren + outcome.listingFailures == projection.entryFailures
    ensures r.Ok? ==> Acceptable(all, projection.pageSize, decode) && Carried(all[..|all| - 1], decode) == r.value
    ensures r.Ok? ==> r.value.entries == projection.entries && r.value.failures == projection.failures
    ensures all != [] && all[..|all| - 1] == sent
    ensures EndsWith(all[|all| - 1], projection.observedEntries, projection.entryFailures, r.Ok?)
  {
    var n, f := projection.observedEntries, projection.entryFailures;
    assert Entries(sent) + projection.pending == Entries(sent);
    match outcome {
      case Finished(emitted, failedChildren, listingFailures) =>
        if n != emitted || f != failedChildren + listingFailures {
          all, r := sent + [Last(FailedWith(n, f, Failure(false, "count mismatch")))], Err(CountMismatch);
          return;
        }
        all := sent + [Last(CompletedWith(n, f))];
        assert all[..|all| - 1] == sent;
        r := Ok(RemoteAdvertisement(projection.entries, projection.failures, projection.nextPage, n, f));
      case Interrupted =>
        return sent + [Last(CancelledWith(n, f))], Err(Cancelled);
      case Aborted(diagnostic) =>
        return sent + [Last(FailedWith(n, f, Failure(false, diagnostic)))], Err(PeerFailed);
    }
  }

  /** The receiver's page limit may be larger than the sender's page size. */
  lemma LargerLimit(events: seq<Event>, pageSize: nat, max: nat, decode: Decoder)
    requires Acceptable(events, pageSize, decode) && pageSize <= max
    ensures Acceptable(events, max, decode)
  {
    var pages := Pages(events[..|events| - 1]);
    forall k | 0 <= k < |pages| ensures NumberedAt(pages, max, k) {
      assert NumberedAt(pages, pageSize, k);
    }
  }

  /** Round trip: both sides end with the same map, failures, counts and page count. */
  method RoundTrip(items: seq<TraversalItem>, outcome: TraversalOutcome, pageSize: nat, max: nat, encode: Encoder,
                   decode: Decoder)
    returns (sender: Result<RemoteAdvertisement>, receiver: Result<RemoteAdvertisement>)
    requires 0 < pageSize <= max && |items| <= U64_MAX && Advertisable(items, outcome)
    requires forall e :: decode(encode(e)) == Some(e)
    ensures sender.Ok? && receiver == sender
    ensures sender.value.entries == Numbering(Observed(items)) && sender.value.failures == Failed(items)
  {
    var events;
    events, sender := AdvertiseRemote(items, outcome, pageSize, encode, decode);
    LargerLimit(events, pageSize, max, decode);
    receiver := Receive(events, max, decode);
  }
}
