/** Directory pages of the remote inventory: sorting, saturating index allocation and paging. */
module Inventory {
  const I32_MAX: int := 0x7FFF_FFFF

  datatype Observed = Observed(name: string, id: int)
  datatype NdxEntry = NdxEntry(ndx: int, entry: Observed)
  datatype DirPage = DirPage(path: string, start: int, files: seq<NdxEntry>, subdirs: seq<NdxEntry>, gap: int)

  /** What the native directory walk delivers. A versioned entry counts as one file per version. */
  datatype InventoryItem =
    | FileEntry(file: Observed)
    | DirEntry(dir: Observed)
    | Versioned(versions: seq<Observed>)
    | DirectoryListed(path: string)
    | Failed(path: string)
    | Other
    | Broken

  datatype NdxEvent = PageEvent(page: DirPage) | ErrorEvent(path: string) | DoneEvent

  // ---------------------------------------------------------------- stable sorting by name

  predicate Leq(a: string, b: string)
  {
    a == [] || (b != [] && (a[0] < b[0] || (a[0] == b[0] && Leq(a[1..], b[1..]))))
  }

  lemma {:induction false} LeqTotal(a: string, b: string)
    ensures Leq(a, b) || Leq(b, a)
  {
    if a != [] && b != [] { LeqTotal(a[1..], b[1..]); }
  }

  lemma {:induction false} LeqTransitive(a: string, b: string, c: string)
    requires Leq(a, b) && Leq(b, c)
    ensures Leq(a, c)
  {
    if a != [] && b != [] && c != [] && a[0] == b[0] == c[0] { LeqTransitive(a[1..], b[1..], c[1..]); }
  }

  ghost predicate SortedByName(s: seq<Observed>)
  {
    forall i, j :: 0 <= i < j < |s| ==> Leq(s[i].name, s[j].name)
  }

  /** Inserts behind every entry whose name is not greater. */
  function InsertByName(s: seq<Observed>, e: Observed): (r: seq<Observed>)
  {
    if s == [] || Leq(s[|s| - 1].name, e.name) then s + [e]
    else InsertByName(s[..|s| - 1], e) + [s[|s| - 1]]
  }

  function SortByName(s: seq<Observed>): (r: seq<Observed>)
  {
    if s == [] then [] else InsertByName(SortByName(s[..|s| - 1]), s[|s| - 1])
  }

  /** The entries of one name, in order. */
  function Named(s: seq<Observed>, name: string): (r: seq<Observed>)
  {
    if s == [] then []
    else Named(s[..|s| - 1], name) + if s[|s| - 1].name == name then [s[|s| - 1]] else []
  }

  lemma NamedSnoc(s: seq<Observed>, e: Observed, name: string)
    ensures Named(s + [e], name) == if e.name == name then Named(s, name) + [e] else Named(s, name)
  {
    assert (s + [e])[..|s|] == s;
  }

  lemma {:induction false} InsertKeepsOrder(s: seq<Observed>, e: Observed)
    requires SortedByName(s)
    ensures SortedByName(InsertByName(s, e))
  {
    if s == [] || Leq(s[|s| - 1].name, e.name) {
      forall i | 0 <= i < |s| ensures Leq(s[i].name, e.name) {
        if i < |s| - 1 { LeqTransitive(s[i].name, s[|s| - 1].name, e.name); }
      }
    } else {
      var front, last := s[..|s| - 1], s[|s| - 1];
      InsertKeepsOrder(front, e);
      InsertKeepsAll(front, e);
      LeqTotal(e.name, last.name);
      var r := InsertByName(front, e);
      forall i | 0 <= i < |r| ensures Leq(r[i].name, last.name) {
        assert r[i] in multiset(front) + multiset{e};
        if r[i] != e {
          var j :| 0 <= j < |front| && front[j] == r[i];
          assert s[j] == r[i];
        }
      }
    }
  }

  lemma {:induction false} InsertKeepsAll(s: seq<Observed>, e: Observed)
    ensures multiset(InsertByName(s, e)) == multiset(s) + multiset{e}
  {
    if s != [] && !Leq(s[|s| - 1].name, e.name) {
      InsertKeepsAll(s[..|s| - 1], e);
      assert s == s[..|s| - 1] + [s[|s| - 1]];
    }
  }

  lemma {:induction false} InsertKeepsNamed(s: seq<Observed>, e: Observed, name: string)
    ensures Named(InsertByName(s, e), name) == if e.name == name then Named(s, name) + [e] else Named(s, name)
  {
    if s == [] || Leq(s[|s| - 1].name, e.name) {
      NamedSnoc(s, e, name);
    } else {
      var front, last := s[..|s| - 1], s[|s| - 1];
      InsertKeepsNamed(front, e, name);
      NamedSnoc(InsertByName(front, e), last, name);
      LeqReflexive(e.name);
    }
  }

  lemma {:induction false} LeqReflexive(a: string)
    ensures Leq(a, a)
  {
    if a != [] { LeqReflexive(a[1..]); }
  }

  /** The sort orders by name, loses and invents nothing, and keeps equal names in arrival order. */
  lemma {:induction false} SortIsStable(s: seq<Observed>)
    ensures SortedByName(SortByName(s)) && multiset(SortByName(s)) == multiset(s)
    ensures forall name :: Named(SortByName(s), name) == Named(s, name)
  {
    if s != [] {
      var front, e := s[..|s| - 1], s[|s| - 1];
      SortIsStable(front);
      assert s == front + [e];
      InsertKeepsOrder(SortByName(front), e);
      InsertKeepsAll(SortByName(front), e);
      forall name ensures Named(SortByName(s), name) == Named(s, name) {
        InsertKeepsNamed(SortByName(front), e, name);
      }
    }
  }

  // ---------------------------------------------------------------- what the pages should carry

  function FilesOf(item: InventoryItem): (r: seq<Observed>)
  {
    match item
    case FileEntry(f) => [f]
    case Versioned(vs) => vs
    case _ => []
  }

  function DirsOf(item: InventoryItem): (r: seq<Observed>)
  {
    match item
    case DirEntry(d) => [d]
    case _ => []
  }

  /** Items observed since the last listed directory. */
  function PendingFiles(items: seq<InventoryItem>): (r: seq<Observed>)
  {
    if items == [] || items[|items| - 1].DirectoryListed? then []
    else PendingFiles(items[..|items| - 1]) + FilesOf(items[|items| - 1])
  }

  function PendingDirs(items: seq<InventoryItem>): (r: seq<Observed>)
  {
    if items == [] || items[|items| - 1].DirectoryListed? then []
    else PendingDirs(items[..|items| - 1]) + DirsOf(items[|items| - 1])
  }

  /** The paths at which the walk reported a failure. */
  function FailuresIn(items: seq<InventoryItem>): (r: seq<string>)
  {
    if items == [] then []
    else FailuresIn(items[..|items| - 1])
         + if items[|items| - 1].Failed? then [items[|items| - 1].path] else []
  }

  datatype Listing = Listing(path: string, files: seq<Observed>, subdirs: seq<Observed>)

  /** One sorted listing per listed directory, of everything observed since the previous one. */
  function Listings(items: seq<InventoryItem>): (r: seq<Listing>)
  {
    if items == [] then []
    else
      var before, last := items[..|items| - 1], items[|items| - 1];
      if last.DirectoryListed? then
        Listings(before) + [Listing(last.path, SortByName(PendingFiles(before)), SortByName(PendingDirs(before)))]
      else Listings(before)
  }

  function Everything(items: seq<InventoryItem>): (r: multiset<Observed>)
  {
    if items == [] then multiset{}
    else
      var last := items[|items| - 1];
      Everything(items[..|items| - 1]) + multiset(FilesOf(last)) + multiset(DirsOf(last))
  }

  function Listed(ls: seq<Listing>): (r: multiset<Observed>)
  {
    if ls == [] then multiset{}
    else
      var last := ls[|ls| - 1];
      Listed(ls[..|ls| - 1]) + multiset(last.files) + multiset(last.subdirs)
  }

  /** The listings carry exactly what was observed up to the last listed directory. */
  lemma {:induction false} ListingsConserve(items: seq<InventoryItem>)
    ensures Listed(Listings(items)) + multiset(PendingFiles(items)) + multiset(PendingDirs(items)) == Everything(items)
  {
    if items != [] {
      var before, last := items[..|items| - 1], items[|items| - 1];
      ListingsConserve(before);
      if last.DirectoryListed? {
        SortIsStable(PendingFiles(before));
        SortIsStable(PendingDirs(before));
        var l := Listing(last.path, SortByName(PendingFiles(before)), SortByName(PendingDirs(before)));
        assert (Listings(before) + [l])[..|Listings(before)|] == Listings(before);
      }
    }
  }

  // ---------------------------------------------------------------- index allocation

  function SaturatingNext(n: int): (r: int)
  {
    if n >= I32_MAX then I32_MAX else n + 1
  }

  /** The index that the j-th allocation yields: it stops growing at the largest 32-bit value. */
  function IndexAt(j: nat): (r: int)
  {
    if j < I32_MAX then j else I32_MAX
  }

  /** The entries get the indexes from allocation number `from` on. */
  ghost predicate Numbered(es: seq<NdxEntry>, observed: seq<Observed>, from: nat)
  {
    |es| == |observed| && forall k :: 0 <= k < |es| ==> es[k] == NdxEntry(IndexAt(from + k), observed[k])
  }

  method Indexed(entries: seq<Observed>, next: int, ghost from: nat) returns (es: seq<NdxEntry>, next': int)
    requires next == IndexAt(from)
    ensures Numbered(es, entries, from) && next' == IndexAt(from + |entries|)
  {
    es, next' := [], next;
    for k := 0 to |entries|
      invariant |es| == k && next' == IndexAt(from + k)
      invariant forall j :: 0 <= j < k ==> es[j] == NdxEntry(IndexAt(from + j), entries[j])
    {
      es := es + [NdxEntry(next', entries[k])];
      next' := SaturatingNext(next');
    }
  }

  function Size(p: DirPage): nat { |p.files| + |p.subdirs| + 1 }

  /** Allocations used by the pages: one per entry and one gap per page. */
  function Used(pages: seq<DirPage>): (r: nat)
  {
    if pages == [] then 0 else Used(pages[..|pages| - 1]) + Size(pages[|pages| - 1])
  }

  /** A page holds its listing, files first, then subdirectories, then the gap, numbered consecutively. */
  ghost predicate PageOf(p: DirPage, l: Listing, from: nat)
  {
    && p.path == l.path && p.start == IndexAt(from)
    && Numbered(p.files, l.files, from) && Numbered(p.subdirs, l.subdirs, from + |p.files|)
    && p.gap == IndexAt(from + |p.files| + |p.subdirs|)
  }

  ghost predicate PageAt(pages: seq<DirPage>, ls: seq<Listing>, k: nat)
    requires k < |pages| == |ls|
  {
    PageOf(pages[k], ls[k], Used(pages[..k]))
  }

  ghost predicate PagesOf(pages: seq<DirPage>, ls: seq<Listing>)
  {
    |pages| == |ls| && forall k {:trigger PageAt(pages, ls, k)} :: 0 <= k < |pages| ==> PageAt(pages, ls, k)
  }

  function PagesIn(events: seq<NdxEvent>): (r: seq<DirPage>)
  {
    if events == [] then []
    else PagesIn(events[..|events| - 1])
         + if events[|events| - 1].PageEvent? then [events[|events| - 1].page] else []
  }

  function ErrorsIn(events: seq<NdxEvent>): (r: seq<string>)
  {
    if events == [] then []
    else ErrorsIn(events[..|events| - 1])
         + if events[|events| - 1].ErrorEvent? then [events[|events| - 1].path] else []
  }

  lemma PagesInSnoc(events: seq<NdxEvent>, e: NdxEvent)
    ensures PagesIn(events + [e]) == if e.PageEvent? then PagesIn(events) + [e.page] else PagesIn(events)
    ensures ErrorsIn(events + [e]) == if e.ErrorEvent? then ErrorsIn(events) + [e.path] else ErrorsIn(events)
  {
    assert (events + [e])[..|events|] == events;
  }

  lemma PagesOfSnoc(pages: seq<DirPage>, ls: seq<Listing>, p: DirPage, l: Listing)
    requires PagesOf(pages, ls) && PageOf(p, l, Used(pages))
    ensures PagesOf(pages + [p], ls + [l]) && Used(pages + [p]) == Used(pages) + Size(p)
  {
    var all := pages + [p];
    assert all[..|pages|] == pages;
    forall k | 0 <= k < |all| ensures PageAt(all, ls + [l], k) {
      if k < |pages| { assert all[..k] == pages[..k] && PageAt(pages, ls, k); }
    }
  }

  /** Builds one page from the drained lists. */
  method BuildPage(path: string, files: seq<Observed>, subdirs: seq<Observed>, next: int, ghost from: nat)
    returns (page: DirPage, next': int)
    requires next == IndexAt(from)
    ensures PageOf(page, Listing(path, SortByName(files), SortByName(subdirs)), from)
    ensures next' == IndexAt(from + Size(page))
  {
    var sortedFiles, sortedDirs := SortByName(files), SortByName(subdirs);
    var start := next;
    var fileEntries, n1 := Indexed(sortedFiles, next, from);
    var dirEntries, n2 := Indexed(sortedDirs, n1, from + |sortedFiles|);
    page := DirPage(path, start, fileEntries, dirEntries, n2);
    next' := SaturatingNext(n2);
  }

  /** How far the walk goes: a broken walk ends it early. */
  function Walked(items: seq<InventoryItem>): (r: nat)
    ensures r <= |items|
  {
    if items == [] then 0
    else
      var before := Walked(items[..|items| - 1]);
      if before < |items| - 1 || items[|items| - 1].Broken? then before else |items|
  }

  /** The running variables of the paging loop after `items`. */
  ghost predicate Paging(events: seq<NdxEvent>, files: seq<Observed>, subdirs: seq<Observed>, next: int,
                         items: seq<InventoryItem>)
  {
    && files == PendingFiles(items) && subdirs == PendingDirs(items)
    && PagesOf(PagesIn(events), Listings(items)) && next == IndexAt(Used(PagesIn(events)))
    && ErrorsIn(events) == FailuresIn(items)
    && forall k {:trigger events[k]} :: 0 <= k < |events| ==> events[k] != DoneEvent
  }

  lemma PagingCollects(events: seq<NdxEvent>, files: seq<Observed>, subdirs: seq<Observed>, next: int,
                       items: seq<InventoryItem>, item: InventoryItem)
    requires Paging(events, files, subdirs, next, items) && !item.DirectoryListed? && !item.Failed?
    ensures Paging(events, files + FilesOf(item), subdirs + DirsOf(item), next, items + [item])
  {
    assert (items + [item])[..|items|] == items;
  }

  lemma PagingReports(events: seq<NdxEvent>, files: seq<Observed>, subdirs: seq<Observed>, next: int,
                      items: seq<InventoryItem>, path: string)
    requires Paging(events, files, subdirs, next, items)
    ensures Paging(events + [ErrorEvent(path)], files, subdirs, next, items + [Failed(path)])
  {
    FailureSnoc(items, path);
    PagesInSnoc(events, ErrorEvent(path));
  }

  lemma FailureSnoc(items: seq<InventoryItem>, path: string)
    ensures
      var all := items + [Failed(path)];
      && PendingFiles(all) == PendingFiles(items) && PendingDirs(all) == PendingDirs(items)
      && Listings(all) == Listings(items) && FailuresIn(all) == FailuresIn(items) + [path]
  {
    assert (items + [Failed(path)])[..|items|] == items;
  }

  lemma ListingsSnoc(items: seq<InventoryItem>, path: string)
    ensures Listings(items + [DirectoryListed(path)])
         == Listings(items) + [Listing(path, SortByName(PendingFiles(items)), SortByName(PendingDirs(items)))]
    ensures PendingFiles(items + [DirectoryListed(path)]) == [] == PendingDirs(items + [DirectoryListed(path)])
    ensures FailuresIn(items + [DirectoryListed(path)]) == FailuresIn(items)
  {
    assert (items + [DirectoryListed(path)])[..|items|] == items;
  }

  lemma PagingLists(events: seq<NdxEvent>, next: int, items: seq<InventoryItem>, path: string, page: DirPage)
    requires Paging(events, PendingFiles(items), PendingDirs(items), next, items)
    requires PageOf(page, Listing(path, SortByName(PendingFiles(items)), SortByName(PendingDirs(items))),
                    Used(PagesIn(events)))
    ensures Paging(events + [PageEvent(page)], [], [], IndexAt(Used(PagesIn(events)) + Size(page)),
                   items + [DirectoryListed(path)])
  {
    ListingsSnoc(items, path);
    PagesInSnoc(events, PageEvent(page));
    PagesOfSnoc(PagesIn(events), Listings(items), page,
                Listing(path, SortByName(PendingFiles(items)), SortByName(PendingDirs(items))));
  }

  /** Sends the page of a listed directory and drains both lists. */
  method ListDirectory(events: seq<NdxEvent>, files: seq<Observed>, subdirs: seq<Observed>, next: int, path: string,
                       ghost items: seq<InventoryItem>) returns (events': seq<NdxEvent>, next': int)
    requires Paging(events, files, subdirs, next, items)
    ensures Paging(events', [], [], next', items + [DirectoryListed(path)])
  {
    var page;
    page, next' := BuildPage(path, files, subdirs, next, Used(PagesIn(events)));
    PagingLists(events, next, items, path, page);
    events' := events + [PageEvent(page)];
  }

  /** One turn of the paging loop on an item that the walk delivered. */
  method TakeItem(events: seq<NdxEvent>, files: seq<Observed>, subdirs: seq<Observed>, next: int, item: InventoryItem,
                  ghost items: seq<InventoryItem>)
    returns (events': seq<NdxEvent>, files': seq<Observed>, subdirs': seq<Observed>, next': int)
    requires Paging(events, files, subdirs, next, items) && !item.Broken?
    ensures Paging(events', files', subdirs', next', items + [item])
  {
    events', files', subdirs', next' := events, files, subdirs, next;
    if !item.DirectoryListed? && !item.Failed? { PagingCollects(events, files, subdirs, next, items, item); }
    match item {
      case FileEntry(file) => files' := files + [file];
      case DirEntry(dir) => subdirs' := subdirs + [dir];
      case Versioned(versions) => files' := files + versions;
      case DirectoryListed(path) =>
        events', next' := ListDirectory(events, files, subdirs, next, path, items);
        files', subdirs' := [], [];
      case Failed(path) =>
        PagingReports(events, files, subdirs, next, items, path);
        events' := events + [ErrorEvent(path)];
      case Other =>
    }
    assert files + [] == files && subdirs + [] == subdirs;
  }

  /** Where the event stream of these items ends: with one more event that is not a page. */
  ghost predicate EndsWith(events: seq<NdxEvent>, last: NdxEvent, items: seq<InventoryItem>)
  {
    && events != [] && events[|events| - 1] == last
    && PagesOf(PagesIn(events), Listings(items))
    && ErrorsIn(events[..|events| - 1]) == FailuresIn(items)
    && forall k :: 0 <= k < |events| - 1 ==> events[k] != DoneEvent
  }

  lemma PagingEnds(events: seq<NdxEvent>, files: seq<Observed>, subdirs: seq<Observed>, next: int,
                   items: seq<InventoryItem>, last: NdxEvent)
    requires Paging(events, files, subdirs, next, items) && !last.PageEvent?
    ensures EndsWith(events + [last], last, items)
  {
    PagesInSnoc(events, last);
    assert (events + [last])[..|events|] == events;
  }

  /** The paging loop; `completed` says how the walk finished. Done ends exactly a completed, unbroken walk. */
  method DirectoryPages(items: seq<InventoryItem>, completed: bool) returns (events: seq<NdxEvent>)
    ensures EndsWith(events, if completed && Walked(items) == |items| then DoneEvent else ErrorEvent(""),
                     items[..Walked(items)])
  {
    events := [];
    var files, subdirs, next := [], [], 0;
    for i := 0 to |items|
      invariant Walked(items[..i]) == i
      invariant Paging(events, files, subdirs, next, items[..i])
    {
      assert items[..i + 1] == items[..i] + [items[i]];
      if items[i].Broken? {
        WalkedStops(items, i);
        PagingEnds(events, files, subdirs, next, items[..i], ErrorEvent(""));
        return events + [ErrorEvent("")];
      }
      WalkedOn(items[..i], items[i]);
      events, files, subdirs, next := TakeItem(events, files, subdirs, next, items[i], items[..i]);
    }
    assert items[..|items|] == items;
    var last := if completed then DoneEvent else ErrorEvent("");
    PagingEnds(events, files, subdirs, next, items, last);
    events := events + [last];
  }

  lemma WalkedOn(items: seq<InventoryItem>, item: InventoryItem)
    requires Walked(items) == |items| && !item.Broken?
    ensures Walked(items + [item]) == |items| + 1
  {
    assert (items + [item])[..|items|] == items;
  }

  lemma {:induction false} WalkedStops(items: seq<InventoryItem>, i: nat)
    requires i < |items| && items[i].Broken? && Walked(items[..i]) == i
    ensures Walked(items) == i
    decreases |items|
  {
    var front := items[..|items| - 1];
    if i == |items| - 1 {
      assert items[..i] == front;
    } else {
      assert front[..i] == items[..i];
      WalkedStops(front, i);
    }
  }

  // ---------------------------------------------------------------- unique indexes

  function Indexes(es: seq<NdxEntry>): (r: seq<int>)
    ensures |r| == |es| && forall k :: 0 <= k < |es| ==> r[k] == es[k].ndx
  {
    seq(|es|, k requires 0 <= k < |es| => es[k].ndx)
  }

  /** All indexes of the pages in order: files, subdirectories and the gap of each page. */
  function Issued(pages: seq<DirPage>): (r: seq<int>)
  {
    if pages == [] then []
    else
      var p := pages[|pages| - 1];
      Issued(pages[..|pages| - 1]) + (Indexes(p.files) + Indexes(p.subdirs) + [p.gap])
  }

  /** A run of indexes that starts at allocation number `from`. */
  ghost predicate RunFrom(s: seq<int>, from: nat)
  {
    forall j :: 0 <= j < |s| ==> s[j] == IndexAt(from + j)
  }

  lemma RunsJoin(s: seq<int>, t: seq<int>, from: nat)
    requires RunFrom(s, from) && RunFrom(t, from + |s|)
    ensures RunFrom(s + t, from)
  {
    forall j | 0 <= j < |s + t| ensures (s + t)[j] == IndexAt(from + j) {
      if j >= |s| { assert t[j - |s|] == IndexAt(from + |s| + (j - |s|)); }
    }
  }

  lemma PageIsRun(p: DirPage, l: Listing, from: nat)
    requires PageOf(p, l, from)
    ensures RunFrom(Indexes(p.files) + Indexes(p.subdirs) + [p.gap], from)
  {
    RunsJoin(Indexes(p.files), Indexes(p.subdirs), from);
    RunsJoin(Indexes(p.files) + Indexes(p.subdirs), [p.gap], from);
  }

  /** Allocation number j yields index min(j, i32::MAX), across all pages. */
  lemma {:induction false} IssuedInOrder(pages: seq<DirPage>, ls: seq<Listing>)
    requires PagesOf(pages, ls)
    ensures |Issued(pages)| == Used(pages) && RunFrom(Issued(pages), 0)
  {
    if pages != [] {
      var n := |pages| - 1;
      var p := pages[n];
      assert PagesOf(pages[..n], ls[..n]) by {
        forall k | 0 <= k < n ensures PageAt(pages[..n], ls[..n], k) {
          assert pages[..n][..k] == pages[..k] && PageAt(pages, ls, k);
        }
      }
      IssuedInOrder(pages[..n], ls[..n]);
      assert PageAt(pages, ls, n);
      PageIsRun(p, ls[n], Used(pages[..n]));
      RunsJoin(Issued(pages[..n]), Indexes(p.files) + Indexes(p.subdirs) + [p.gap], 0);
    }
  }

  /** No index is issued twice, exactly as long as at most 2^31 are used. */
  lemma UniqueIff(pages: seq<DirPage>, ls: seq<Listing>)
    requires PagesOf(pages, ls)
    ensures (forall i, j :: 0 <= i < j < |Issued(pages)| ==> Issued(pages)[i] != Issued(pages)[j])
       <==> Used(pages) <= I32_MAX + 1
  {
    IssuedInOrder(pages, ls);
    if Used(pages) > I32_MAX + 1 {
      assert Issued(pages)[I32_MAX] == Issued(pages)[I32_MAX + 1];
    }
  }
}
