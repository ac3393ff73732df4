/** The pages of the directory walk, delivered to the receiver: what the receiver's laws ask of pages then holds. */
module ReceiverPages {
  import Inventory
  import opened FileCommit
  import opened Session
  import opened ReceiverSystem
  import opened ReceiverSafety
  import opened ReceiverCompletion

  type Pages = seq<Inventory.DirPage>

  // ---------------------------------------------------------------- the indexes of a page

  /** The indexes of the entries of a page: files, then subdirectories. The gap is no entry. */
  function EntryIndexes(p: Inventory.DirPage): (r: seq<int>)
  {
    Inventory.Indexes(p.files) + Inventory.Indexes(p.subdirs)
  }

  /** The message carries the entries of the page under their indexes. */
  predicate Shows(items: seq<PageItem>, p: Inventory.DirPage)
  {
    |items| == |EntryIndexes(p)| && forall k :: 0 <= k < |items| ==> items[k].ndx == EntryIndexes(p)[k]
  }

  /** The allocations that page number i takes. */
  predicate InPage(pages: Pages, i: nat, n: int)
    requires i < |pages|
  {
    Inventory.Used(pages[..i]) <= n < Inventory.Used(pages[..i + 1])
  }

  lemma {:induction false} UsedGrows(pages: Pages, i: nat, j: nat)
    requires i <= j <= |pages|
    ensures Inventory.Used(pages[..i]) <= Inventory.Used(pages[..j])
    decreases j
  {
    if i < j {
      UsedGrows(pages, i, j - 1);
      assert pages[..j][..j - 1] == pages[..j - 1];
    }
  }

  lemma PagesApart(pages: Pages, i: nat, j: nat, n: int)
    requires i < |pages| && j < |pages| && InPage(pages, i, n) && InPage(pages, j, n)
    ensures i == j
  {
    if i < j {
      UsedGrows(pages, i + 1, j);
    } else if j < i {
      UsedGrows(pages, j + 1, i);
    }
  }

  /** Up to 2^31 allocations, the entries of a page have consecutive indexes within the page's own range. */
  lemma {:induction false} PageRange(pages: Pages, ls: seq<Inventory.Listing>, i: nat, k: nat)
    requires Inventory.PagesOf(pages, ls) && Inventory.Used(pages) <= Inventory.I32_MAX + 1
    requires i < |pages| && k < |EntryIndexes(pages[i])|
    ensures EntryIndexes(pages[i])[k] == Inventory.Used(pages[..i]) + k && InPage(pages, i, EntryIndexes(pages[i])[k])
  {
    var p, from := pages[i], Inventory.Used(pages[..i]);
    assert pages[..i + 1][..i] == pages[..i] && pages[..|pages|] == pages;
    UsedGrows(pages, i + 1, |pages|);
    assert Inventory.PageAt(pages, ls, i);
    Inventory.PageIsRun(p, ls[i], from);
    assert (EntryIndexes(p) + [p.gap])[k] == Inventory.IndexAt(from + k);
  }

  // ---------------------------------------------------------------- what a page changes

  lemma {:induction false} IngestKeys(table: map<int, Entry>, items: seq<PageItem>, n: int)
    ensures n in Ingest(table, items) ==> n in table || exists k :: 0 <= k < |items| && items[k].ndx == n
    ensures (forall k :: 0 <= k < |items| ==> items[k].ndx != n) ==> PathAt(Ingest(table, items), n) == PathAt(table, n)
    decreases |items|
  {
    if items != [] {
      var rest := items[1..];
      IngestKeys(table[items[0].ndx := items[0].entry], rest, n);
      forall k | 0 <= k < |rest| && rest[k].ndx == n ensures exists j :: 0 <= j < |items| && items[j].ndx == n {
        assert items[k + 1].ndx == n;
      }
    }
  }

  lemma {:induction false} AskedKeys(items: seq<PageItem>, n: int)
    requires n in AskedSet(items)
    ensures exists k :: 0 <= k < |items| && items[k].ndx == n
  {
    if !(items[0].request && items[0].ndx == n) {
      AskedKeys(items[1..], n);
      var k :| 0 <= k < |items[1..]| && items[1..][k].ndx == n;
      assert items[k + 1].ndx == n;
    } else {
      assert items[0].ndx == n;
    }
  }

  lemma NotAsked(items: seq<PageItem>, n: int)
    requires forall k :: 0 <= k < |items| ==> items[k].ndx != n
    ensures n !in AskedSet(items)
  {
    if n in AskedSet(items) { AskedKeys(items, n); }
  }

  lemma {:induction false} DistinctAsked(items: seq<PageItem>)
    requires forall i, j :: 0 <= i < j < |items| ==> items[i].ndx != items[j].ndx
    ensures DistinctRequests(items)
  {
    if items != [] {
      DistinctAsked(items[1..]);
      NotAsked(items[1..], items[0].ndx);
    }
  }

  // ---------------------------------------------------------------- a run over the pages of a walk

  predicate BringsPage(a: Action)
  {
    a.Receive? && a.msg.FilePage?
  }

  /** Every page message of the run shows a page of the walk, `which` says which one, and no page comes twice. */
  ghost predicate Delivered(actions: seq<Action>, pages: Pages, which: seq<nat>)
  {
    && |which| == |actions|
    && (forall i {:trigger BringsPage(actions[i])} :: 0 <= i < |actions| && BringsPage(actions[i]) ==>
          which[i] < |pages| && Shows(actions[i].msg.items, pages[which[i]]))
    && (forall i, j {:trigger BringsPage(actions[i]), BringsPage(actions[j])} ::
          0 <= i < j < |actions| && BringsPage(actions[i]) && BringsPage(actions[j]) ==> which[i] != which[j])
  }

  /** The pages are those of a directory walk with at most 2^31 allocations. */
  ghost predicate Walk(pages: Pages, ls: seq<Inventory.Listing>)
  {
    Inventory.PagesOf(pages, ls) && Inventory.Used(pages) <= Inventory.I32_MAX + 1
  }

  predicate BroughtAt(actions: seq<Action>, pages: Pages, which: seq<nat>, i: nat, n: int)
    requires i < |actions| == |which|
  {
    BringsPage(actions[i]) && which[i] < |pages| && InPage(pages, which[i], n)
  }

  /** Index n was in a page that arrived before step k. */
  ghost predicate Brought(actions: seq<Action>, pages: Pages, which: seq<nat>, k: nat, n: int)
    requires k <= |actions| == |which|
  {
    exists i :: 0 <= i < k && BroughtAt(actions, pages, which, i, n)
  }

  /** What a page shows has not been shown before. */
  lemma Fresh(actions: seq<Action>, pages: Pages, ls: seq<Inventory.Listing>, which: seq<nat>, k: nat, j: nat)
    requires Walk(pages, ls) && Delivered(actions, pages, which) && k < |actions| && BringsPage(actions[k])
    requires j < |actions[k].msg.items|
    ensures BroughtAt(actions, pages, which, k, actions[k].msg.items[j].ndx)
    ensures !Brought(actions, pages, which, k, actions[k].msg.items[j].ndx)
  {
    var n := actions[k].msg.items[j].ndx;
    PageRange(pages, ls, which[k], j);
    if Brought(actions, pages, which, k, n) {
      var i :| 0 <= i < k && BroughtAt(actions, pages, which, i, n);
      assert BringsPage(actions[i]) && which[i] != which[k];
      PagesApart(pages, which[i], which[k], n);
    }
  }

  lemma TableStep(sys: System, setup: Setup, a: Action, n: int)
    requires Enabled(sys, a) && n in Next(sys, setup, a).session.table
    ensures n in sys.session.table || (BringsPage(a) && exists k :: 0 <= k < |a.msg.items| && a.msg.items[k].ndx == n)
  {
    match a
    case Receive(msg) =>
      if msg.FilePage? {
        IngestKeys(sys.session.table, msg.items, n);
      } else {
        TableKept(sys.session, msg, setup.blockSizeOf);
      }
    case Consume(_) =>
    case TakeAck => OutcomeKeepsActive(sys.session, sys.acks[0]);
    case Break =>
  }

  lemma TableKept(s: SessionState, msg: SenderMsg, blockSizeOf: nat -> nat)
    requires !msg.FilePage?
    ensures OnMessage(s, msg, blockSizeOf).s.table == s.table
    ensures ActiveKnown(s) ==> ActiveKnown(OnMessage(s, msg, blockSizeOf).s)
  {
  }

  /** The table knows only indexes that some page has brought. */
  lemma {:induction false} TableBrought(setup: Setup, states: seq<System>, actions: seq<Action>, pages: Pages,
                                        ls: seq<Inventory.Listing>, which: seq<nat>, k: nat, n: int)
    requires Run(setup, states, actions) && Walk(pages, ls) && Delivered(actions, pages, which)
    requires k <= |actions| && n in states[k].session.table
    ensures Brought(actions, pages, which, k, n)
  {
    assert k > 0;
    assert StepAt(setup, states, actions, k - 1);
    TableStep(states[k - 1], setup, actions[k - 1], n);
    if n in states[k - 1].session.table {
      TableBrought(setup, states, actions, pages, ls, which, k - 1, n);
    } else {
      var j :| 0 <= j < |actions[k - 1].msg.items| && actions[k - 1].msg.items[j].ndx == n;
      Fresh(actions, pages, ls, which, k - 1, j);
    }
  }

  /** The same for the indexes asked for. */
  lemma {:induction false} AskedBrought(actions: seq<Action>, xs: seq<Exchange>, pages: Pages,
                                        ls: seq<Inventory.Listing>, which: seq<nat>, k: nat, n: int)
    requires |xs| == |actions| + 1 && xs[0] == NOTHING
    requires forall i {:trigger ExchangedAt(actions, xs, i)} :: 0 <= i < |actions| ==> ExchangedAt(actions, xs, i)
    requires Walk(pages, ls) && Delivered(actions, pages, which) && k <= |actions| && n in xs[k].asked
    ensures Brought(actions, pages, which, k, n)
  {
    assert k > 0;
    assert ExchangedAt(actions, xs, k - 1);
    if n in xs[k - 1].asked {
      AskedBrought(actions, xs, pages, ls, which, k - 1, n);
    } else {
      AskedKeys(actions[k - 1].msg.items, n);
      var j :| 0 <= j < |actions[k - 1].msg.items| && actions[k - 1].msg.items[j].ndx == n;
      Fresh(actions, pages, ls, which, k - 1, j);
    }
  }

  lemma ActiveStaysKnown(sys: System, setup: Setup, a: Action)
    requires Enabled(sys, a) && ActiveKnown(sys.session)
    ensures ActiveKnown(Next(sys, setup, a).session)
  {
    match a
    case Receive(msg) =>
      if msg.FilePage? {
        IngestKeepsKeys(sys.session.table, msg.items);
      } else {
        TableKept(sys.session, msg, setup.blockSizeOf);
      }
    case Consume(_) =>
    case TakeAck => OutcomeKeepsActive(sys.session, sys.acks[0]);
    case Break =>
  }

  lemma {:induction false} ActiveAlwaysKnown(setup: Setup, states: seq<System>, actions: seq<Action>, k: nat)
    requires Run(setup, states, actions) && k < |states|
    ensures ActiveKnown(states[k].session)
  {
    if k > 0 {
      ActiveAlwaysKnown(setup, states, actions, k - 1);
      assert StepAt(setup, states, actions, k - 1);
      ActiveStaysKnown(states[k - 1], setup, actions[k - 1]);
    }
  }

  // ---------------------------------------------------------------- the joined laws

  /** An entry that some page has brought keeps its path. */
  lemma KnownPathKept(setup: Setup, states: seq<System>, actions: seq<Action>, pages: Pages,
                      ls: seq<Inventory.Listing>, which: seq<nat>, k: nat, n: int)
    requires Run(setup, states, actions) && Walk(pages, ls) && Delivered(actions, pages, which)
    requires k < |actions| && BringsPage(actions[k]) && n in states[k].session.table
    ensures PathAt(Ingest(states[k].session.table, actions[k].msg.items), n) == PathAt(states[k].session.table, n)
  {
    var items := actions[k].msg.items;
    TableBrought(setup, states, actions, pages, ls, which, k, n);
    forall j | 0 <= j < |items| ensures items[j].ndx != n {
      Fresh(actions, pages, ls, which, k, j);
    }
    IngestKeys(states[k].session.table, items, n);
  }

  /** No page of a walk changes the path of a known entry, so session and committer stay in lockstep. */
  lemma WalkKeepsLockstep(setup: Setup, states: seq<System>, actions: seq<Action>, pages: Pages,
                          ls: seq<Inventory.Listing>, which: seq<nat>)
    requires Run(setup, states, actions) && Walk(pages, ls) && Delivered(actions, pages, which)
    ensures KeepsPaths(states, actions) && forall k :: 0 <= k < |states| ==> Lockstep(states[k])
  {
    forall i | 0 <= i < |actions| ensures KeepsPath(states[i], actions[i]) {
      ActiveAlwaysKnown(setup, states, actions, i);
      var active := states[i].session.active;
      if BringsPage(actions[i]) && active != NoTransfer {
        KnownPathKept(setup, states, actions, pages, ls, which, i, active.ndx);
      }
    }
    forall k | 0 <= k < |states| ensures Lockstep(states[k]) {
      LockstepAlways(setup, states, actions, k);
    }
  }

  /** What remains of the sender's discipline when nothing is asked of its pages but that the list is not over. */
  predicate Polite(x: Exchange, a: Action)
  {
    if BringsPage(a) then !x.listed else Disciplined(x, a)
  }

  /** The requests for the pages of a walk are all different. */
  lemma WalkIsDisciplined(setup: Setup, states: seq<System>, actions: seq<Action>, xs: seq<Exchange>, pages: Pages,
                          ls: seq<Inventory.Listing>, which: seq<nat>)
    requires ExchangeRun(setup, states, actions, xs) && Walk(pages, ls) && Delivered(actions, pages, which)
    requires forall i {:trigger Polite(xs[i], actions[i])} :: 0 <= i < |actions| ==> Polite(xs[i], actions[i])
    ensures DisciplinedRun(setup, states, actions, xs)
  {
    forall i | 0 <= i < |actions| ensures Disciplined(xs[i], actions[i]) {
      assert Polite(xs[i], actions[i]);
      if BringsPage(actions[i]) { PageIsDisciplined(actions, xs, pages, ls, which, i); }
    }
  }

  lemma PageIsDisciplined(actions: seq<Action>, xs: seq<Exchange>, pages: Pages, ls: seq<Inventory.Listing>,
                          which: seq<nat>, k: nat)
    requires |xs| == |actions| + 1 && xs[0] == NOTHING
    requires forall i {:trigger ExchangedAt(actions, xs, i)} :: 0 <= i < |actions| ==> ExchangedAt(actions, xs, i)
    requires Walk(pages, ls) && Delivered(actions, pages, which) && k < |actions| && BringsPage(actions[k])
    ensures DistinctRequests(actions[k].msg.items) && AskedSet(actions[k].msg.items) !! xs[k].asked
  {
    var items := actions[k].msg.items;
    forall i, j | 0 <= i < j < |items| ensures items[i].ndx != items[j].ndx {
      PageRange(pages, ls, which[k], i);
      PageRange(pages, ls, which[k], j);
    }
    DistinctAsked(items);
    forall n | n in AskedSet(items) ensures n !in xs[k].asked {
      AskedKeys(items, n);
      var j :| 0 <= j < |items| && items[j].ndx == n;
      Fresh(actions, pages, ls, which, k, j);
      if n in xs[k].asked { AskedBrought(actions, xs, pages, ls, which, k, n); }
    }
  }
}
