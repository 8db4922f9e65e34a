/** `getPages`: the pages of a collection, renamed from the service's
    field names and put in page order. */
module Maktabah {
  import opened Seqs

  datatype RawPage = RawPage(body: string, id: int, pageNumber: int, partNumber: int, partPage: int)

  /** A page: `page` is the page number in the whole work, `volume` and
      `pp` the volume and the page within it. */
  datatype Page = Page(body: string, id: int, page: int, pp: int, volume: int)

  /** The renaming of one row. */
  function MapPage(p: RawPage): (r: Page)
    ensures r.body == p.body && r.id == p.id
    ensures r.page == p.pageNumber && r.pp == p.partPage && r.volume == p.partNumber
  {
    Page(p.body, p.id, p.pageNumber, p.partPage, p.partNumber)
  }

  function MapPages(data: seq<RawPage>): (r: seq<Page>)
    ensures |r| == |data|
    ensures forall i :: 0 <= i < |data| ==> r[i] == MapPage(data[i])
  {
    if data == [] then [] else [MapPage(data[0])] + MapPages(data[1..])
  }

  predicate SortedByPage(s: seq<Page>)
  {
    forall i, j :: 0 <= i < j < |s| ==> s[i].page <= s[j].page
  }

  /** Inserts `x` into a page-ordered list, before the first page numbered
      no lower than it. */
  function Insert(x: Page, s: seq<Page>): seq<Page>
  {
    if s == [] || x.page <= s[0].page then [x] + s
    else [s[0]] + Insert(x, s[1..])
  }

  /** `sort((a, b) => a.page - b.page)`, which is stable: pages with the
      same number keep their order. */
  function SortByPage(s: seq<Page>): seq<Page>
  {
    if s == [] then [] else Insert(s[0], SortByPage(s[1..]))
  }

  /** `getPages` on the rows the service returned. */
  function GetPages(data: seq<RawPage>): seq<Page>
  {
    SortByPage(MapPages(data))
  }

  lemma {:induction false} InsertPermutes(x: Page, s: seq<Page>)
    ensures multiset(Insert(x, s)) == multiset(s) + multiset{x}
    ensures |Insert(x, s)| == |s| + 1
  {
    if s != [] && x.page > s[0].page {
      InsertPermutes(x, s[1..]);
      assert s == [s[0]] + s[1..];
    }
  }

  predicate AtLeast(s: seq<Page>, b: int)
  {
    forall i :: 0 <= i < |s| ==> b <= s[i].page
  }

  lemma ConsSorted(h: Page, t: seq<Page>)
    requires SortedByPage(t) && AtLeast(t, h.page)
    ensures SortedByPage([h] + t)
  {
    var r := [h] + t;
    forall i, j | 0 <= i < j < |r| ensures r[i].page <= r[j].page {
      assert r[j] == t[j - 1];
      if i > 0 { assert r[i] == t[i - 1]; }
    }
  }

  lemma {:induction false} InsertAtLeast(x: Page, s: seq<Page>, b: int)
    requires AtLeast(s, b) && b <= x.page
    ensures AtLeast(Insert(x, s), b)
  {
    if s != [] && x.page > s[0].page {
      assert AtLeast(s[1..], b) by {
        forall i | 0 <= i < |s[1..]| ensures b <= s[1..][i].page { assert s[1..][i] == s[i + 1]; }
      }
      InsertAtLeast(x, s[1..], b);
      var t := Insert(x, s[1..]);
      assert Insert(x, s) == [s[0]] + t;
    } else {
      assert Insert(x, s) == [x] + s;
    }
  }

  lemma {:induction false} InsertSorted(x: Page, s: seq<Page>)
    requires SortedByPage(s)
    ensures SortedByPage(Insert(x, s))
  {
    if s == [] || x.page <= s[0].page {
      ConsSorted(x, s);
    } else {
      assert SortedByPage(s[1..]) by {
        forall i, j | 0 <= i < j < |s[1..]| ensures s[1..][i].page <= s[1..][j].page {
          assert s[1..][i] == s[i + 1] && s[1..][j] == s[j + 1];
        }
      }
      assert AtLeast(s[1..], s[0].page) by {
        forall i | 0 <= i < |s[1..]| ensures s[0].page <= s[1..][i].page { assert s[1..][i] == s[i + 1]; }
      }
      InsertSorted(x, s[1..]);
      InsertAtLeast(x, s[1..], s[0].page);
      ConsSorted(s[0], Insert(x, s[1..]));
    }
  }

  /** The pages come out in page order and are the same pages. */
  lemma {:induction false} SortByPageFacts(s: seq<Page>)
    ensures SortedByPage(SortByPage(s))
    ensures multiset(SortByPage(s)) == multiset(s)
    ensures |SortByPage(s)| == |s|
  {
    if s != [] {
      SortByPageFacts(s[1..]);
      InsertPermutes(s[0], SortByPage(s[1..]));
      InsertSorted(s[0], SortByPage(s[1..]));
      assert s == [s[0]] + s[1..];
    }
  }

  /** The pages numbered `v`, in their order. */
  function OnPage(s: seq<Page>, v: int): seq<Page>
  {
    Filter(s, (q: Page) => q.page == v)
  }

  lemma {:induction false} InsertOnPage(x: Page, s: seq<Page>, v: int)
    requires SortedByPage(s)
    ensures OnPage(Insert(x, s), v) == if x.page == v then [x] + OnPage(s, v) else OnPage(s, v)
  {
    if s != [] && x.page > s[0].page {
      InsertOnPage(x, s[1..], v);
      assert Insert(x, s)[1..] == Insert(x, s[1..]);
      if x.page == v {
        assert s[0].page != v;
      }
    }
  }

  /** The sort is stable: for every page number, the pages with that
      number appear in the sorted list in the order they had before. */
  lemma {:induction false} SortByPageStable(s: seq<Page>, v: int)
    ensures OnPage(SortByPage(s), v) == OnPage(s, v)
  {
    if s != [] {
      SortByPageStable(s[1..], v);
      SortByPageFacts(s[1..]);
      InsertOnPage(s[0], SortByPage(s[1..]), v);
    }
  }

  /** What `getPages` returns: the renamed rows, all of them, in page
      order, rows of the same page in the order the service sent them. */
  lemma GetPagesFacts(data: seq<RawPage>, v: int)
    ensures var r := GetPages(data);
      SortedByPage(r) && multiset(r) == multiset(MapPages(data)) && |r| == |data| &&
      OnPage(r, v) == OnPage(MapPages(data), v)
  {
    SortByPageFacts(MapPages(data));
    SortByPageStable(MapPages(data), v);
  }

  /** Rows already in page order come back in the same order. */
  lemma {:induction false} SortedUnchanged(s: seq<Page>)
    requires SortedByPage(s)
    ensures SortByPage(s) == s
  {
    if s != [] {
      assert SortedByPage(s[1..]);
      SortedUnchanged(s[1..]);
    }
  }
}
