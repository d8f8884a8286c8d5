/** The paged layout of the allowlist: how pages of at most 200 addresses, a reverse index and an
    append cursor stand for one plain list. */
module CompliancePages {
  import opened Soroban
  import opened Paging
  import opened Compliance

  type PageMap = map<nat, seq<Address>>

  function PageAt(pages: PageMap, p: nat): seq<Address> {
    Get(pages, p, [])
  }

  /** The first `n` pages, concatenated; absent pages count as empty. */
  function Flatten(pages: PageMap, n: nat): seq<Address> {
    if n == 0 then [] else Flatten(pages, n - 1) + PageAt(pages, n - 1)
  }

  /** The cursor is within a page; no page is over-full, beyond the cursor, or holds an address twice;
      the reverse index names, for exactly the addresses on pages, the page each is on. */
  ghost predicate Layout(cur: nat, len: nat, pages: PageMap, pageOf: map<Address, nat>) {
    && len <= PAGE_SIZE && (cur > 0 ==> len > 0)
    && (forall p :: p in pages ==> p <= cur && |pages[p]| <= PAGE_SIZE && NoRepeats(pages[p]))
    && |PageAt(pages, cur)| <= len
    && (forall p, a :: p in pages && a in pages[p] ==> a in pageOf && pageOf[a] == p)
    && (forall a :: a in pageOf ==> a in PageAt(pages, pageOf[a]))
  }

  lemma {:induction false} FlattenSame(pages: PageMap, pages': PageMap, n: nat)
    requires forall p :: 0 <= p < n ==> PageAt(pages', p) == PageAt(pages, p)
    ensures Flatten(pages', n) == Flatten(pages, n)
  {
    if n > 0 {
      FlattenSame(pages, pages', n - 1);
    }
  }

  lemma {:induction false} FlattenPrefix(pages: PageMap, m: nat, n: nat)
    requires m <= n
    ensures |Flatten(pages, m)| <= |Flatten(pages, n)| && Flatten(pages, n)[..|Flatten(pages, m)|] == Flatten(pages, m)
  {
    if m < n {
      FlattenPrefix(pages, m, n - 1);
      assert Flatten(pages, n)[..|Flatten(pages, m)|] == Flatten(pages, n - 1)[..|Flatten(pages, m)|];
    }
  }

  lemma {:induction false} FlattenMembers(cur: nat, len: nat, pages: PageMap, pageOf: map<Address, nat>, n: nat)
    requires Layout(cur, len, pages, pageOf)
    ensures forall a :: a in Flatten(pages, n) <==> a in pageOf && pageOf[a] < n
    ensures NoRepeats(Flatten(pages, n))
  {
    if n > 0 {
      FlattenMembers(cur, len, pages, pageOf, n - 1);
      var page, front := PageAt(pages, n - 1), Flatten(pages, n - 1);
      assert forall a :: a in page <==> a in pageOf && pageOf[a] == n - 1;
      assert forall i :: 0 <= i < |front| ==> front[i] in front;
      assert forall i :: 0 <= i < |page| ==> page[i] in page;
    }
  }

  /** The flattened list holds exactly the indexed addresses, each once, and no page more than 200. */
  lemma LayoutIsList(cur: nat, len: nat, pages: PageMap, pageOf: map<Address, nat>)
    requires Layout(cur, len, pages, pageOf)
    ensures NoRepeats(Flatten(pages, cur + 1))
    ensures forall a :: a in Flatten(pages, cur + 1) <==> a in pageOf
    ensures forall p :: p in pages ==> |pages[p]| <= 200
  {
    FlattenMembers(cur, len, pages, pageOf, cur + 1);
    forall a | a in pageOf ensures pageOf[a] <= cur {
      assert a in PageAt(pages, pageOf[a]);
    }
  }

  /** Appending on the cursor's page, or on a fresh page once that one has seen 200 appends, appends to
      the list. */
  lemma LayoutAppend(cur: nat, len: nat, pages: PageMap, pageOf: map<Address, nat>, a: Address)
    requires Layout(cur, len, pages, pageOf) && a !in pageOf
    ensures var p, l := if len >= PAGE_SIZE then cur + 1 else cur, if len >= PAGE_SIZE then 0 else len;
            var pages' := pages[p := PageAt(pages, p) + [a]];
            && Layout(p, l + 1, pages', pageOf[a := p])
            && Flatten(pages', p + 1) == Flatten(pages, cur + 1) + [a]
            && PAGE_SIZE * p + (l + 1) == PAGE_SIZE * cur + len + 1
  {
    var p, l := if len >= PAGE_SIZE then cur + 1 else cur, if len >= PAGE_SIZE then 0 else len;
    AppendToList(cur, len, pages, pageOf, p, a);
    hide Flatten, NoRepeats;
    AppendKeepsPages(cur, len, pages, pageOf, a, p, l);
    AppendKeepsIndex(cur, len, pages, pageOf, a, p);
  }

  lemma AppendKeepsPages(
    cur: nat, len: nat, pages: PageMap, pageOf: map<Address, nat>, a: Address, p: nat, l: nat)
    requires Layout(cur, len, pages, pageOf) && a !in pageOf
    requires p == if len >= PAGE_SIZE then cur + 1 else cur
    requires l == if len >= PAGE_SIZE then 0 else len
    ensures var pages' := pages[p := PageAt(pages, p) + [a]];
            && (forall q :: q in pages' ==> q <= p && |pages'[q]| <= PAGE_SIZE && NoRepeats(pages'[q]))
            && |PageAt(pages', p)| <= l + 1 <= PAGE_SIZE
  {
    PageOfAppend(cur, len, pages, pageOf, p, a);
    var page := PageAt(pages, p);
    assert NoRepeats(page + [a]);
    hide NoRepeats;
  }

  lemma AppendKeepsIndex(cur: nat, len: nat, pages: PageMap, pageOf: map<Address, nat>, a: Address, p: nat)
    requires Layout(cur, len, pages, pageOf) && a !in pageOf
    ensures var pages', pageOf' := pages[p := PageAt(pages, p) + [a]], pageOf[a := p];
            && (forall q, x :: q in pages' && x in pages'[q] ==> x in pageOf' && pageOf'[x] == q)
            && (forall x :: x in pageOf' ==> x in PageAt(pages', pageOf'[x]))
  {
    hide NoRepeats;
    var page := PageAt(pages, p);
    assert forall x :: x in page + [a] <==> x in page || x == a;
  }

  lemma AppendToList(cur: nat, len: nat, pages: PageMap, pageOf: map<Address, nat>, p: nat, a: Address)
    requires Layout(cur, len, pages, pageOf) && a !in pageOf && (p == cur || p == cur + 1)
    ensures Flatten(pages[p := PageAt(pages, p) + [a]], p + 1) == Flatten(pages, cur + 1) + [a]
    ensures NoRepeats(PageAt(pages, p)) && a !in PageAt(pages, p)
    ensures p > cur ==> PageAt(pages, p) == []
  {
    var pages' := pages[p := PageAt(pages, p) + [a]];
    PageOfAppend(cur, len, pages, pageOf, p, a);
    hide Layout, NoRepeats;
    FlattenSame(pages, pages', p);
    assert PageAt(pages', p) == PageAt(pages, p) + [a];
  }

  lemma PageOfAppend(cur: nat, len: nat, pages: PageMap, pageOf: map<Address, nat>, p: nat, a: Address)
    requires Layout(cur, len, pages, pageOf) && a !in pageOf && (p == cur || p == cur + 1)
    ensures NoRepeats(PageAt(pages, p)) && a !in PageAt(pages, p)
    ensures p > cur ==> PageAt(pages, p) == []
  {
  }

  /** `pages'` is `pages` with the addresses in `gone` taken off every page. */
  ghost predicate Dropped(pages: PageMap, pages': PageMap, gone: set<Address>) {
    pages'.Keys == pages.Keys && forall p :: p in pages ==> pages'[p] == FilterOut(pages[p], gone)
  }

  lemma {:induction false} FlattenDropped(pages: PageMap, pages': PageMap, gone: set<Address>, n: nat)
    requires Dropped(pages, pages', gone)
    ensures Flatten(pages', n) == FilterOut(Flatten(pages, n), gone)
  {
    if n > 0 {
      FlattenDropped(pages, pages', gone, n - 1);
      FilterOutConcat(Flatten(pages, n - 1), PageAt(pages, n - 1), gone);
    }
  }

  /** Taking addresses off their pages and out of the index keeps the layout and filters the list. */
  lemma LayoutDrop(cur: nat, len: nat, pages: PageMap, pageOf: map<Address, nat>, pages': PageMap, gone: set<Address>)
    requires Layout(cur, len, pages, pageOf) && Dropped(pages, pages', gone)
    ensures Layout(cur, len, pages', pageOf - gone)
    ensures Flatten(pages', cur + 1) == FilterOut(Flatten(pages, cur + 1), gone)
  {
    hide FilterOut, Flatten, NoRepeats, Dropped, IsNarrowed;
    FlattenDropped(pages, pages', gone, cur + 1);
    PagesNarrow(pages, pages', gone);
    IndexDrop(cur, len, pages, pageOf, pages', gone);
    NarrowKeepsBounds(cur, len, pages, pages');
  }

  /** Every page is still there, no longer than before, and without repeats if it had none. */
  ghost predicate IsNarrowed(pages: PageMap, pages': PageMap) {
    pages'.Keys == pages.Keys
    && forall p :: p in pages ==> |pages'[p]| <= |pages[p]| && (NoRepeats(pages[p]) ==> NoRepeats(pages'[p]))
  }

  lemma PagesNarrow(pages: PageMap, pages': PageMap, gone: set<Address>)
    requires Dropped(pages, pages', gone)
    ensures IsNarrowed(pages, pages')
  {
    hide FilterOut, NoRepeats;
    forall p | p in pages ensures |pages'[p]| <= |pages[p]| && (NoRepeats(pages[p]) ==> NoRepeats(pages'[p])) {
      FilterOutMembers(pages[p], gone);
      if NoRepeats(pages[p]) {
        FilterOutNoRepeats(pages[p], gone);
      }
    }
  }

  lemma NarrowKeepsBounds(cur: nat, len: nat, pages: PageMap, pages': PageMap)
    requires IsNarrowed(pages, pages') && |PageAt(pages, cur)| <= len
    requires forall p :: p in pages ==> p <= cur && |pages[p]| <= PAGE_SIZE && NoRepeats(pages[p])
    ensures |PageAt(pages', cur)| <= len
    ensures forall p :: p in pages' ==> p <= cur && |pages'[p]| <= PAGE_SIZE && NoRepeats(pages'[p])
  {
    hide NoRepeats;
  }

  lemma IndexDrop(cur: nat, len: nat, pages: PageMap, pageOf: map<Address, nat>, pages': PageMap, gone: set<Address>)
    requires Layout(cur, len, pages, pageOf) && Dropped(pages, pages', gone)
    ensures forall p, a :: p in pages' && a in pages'[p] ==> a in pageOf - gone && (pageOf - gone)[a] == p
    ensures forall a :: a in pageOf - gone ==> a in PageAt(pages', (pageOf - gone)[a])
  {
    hide FilterOut, NoRepeats;
    forall p, a | p in pages' && a in pages'[p] ensures a in pageOf - gone && (pageOf - gone)[a] == p {
      FilterOutMembers(pages[p], gone);
    }
    forall a | a in pageOf - gone ensures a in PageAt(pages', (pageOf - gone)[a]) {
      assert a in PageAt(pages, pageOf[a]);
      FilterOutMembers(pages[pageOf[a]], gone);
    }
  }

  /** Dropping more addresses, all from page `p`, only changes that page. */
  lemma DropFromPage(cur: nat, len: nat, pages: PageMap, pageOf: map<Address, nat>, pages': PageMap,
                     gone: set<Address>, p: nat, more: set<Address>, next: seq<Address>)
    requires Layout(cur, len, pages, pageOf) && Dropped(pages, pages', gone)
    requires p in pages && (forall a :: a in more ==> a in pages[p]) && (forall a :: a in pages[p] ==> a !in gone)
    requires next == FilterOut(pages[p], more)
    ensures Dropped(pages, pages'[p := next], gone + more)
  {
    forall q | q in pages ensures pages'[p := next][q] == FilterOut(pages[q], gone + more) {
      if q == p {
        FilterOutSame(pages[p], more, gone + more);
      } else {
        assert forall a :: a in pages[q] ==> pageOf[a] == q;
        FilterOutSame(pages[q], gone, gone + more);
      }
    }
  }

  lemma NothingDropped(pages: PageMap)
    ensures Dropped(pages, pages, {})
  {
    forall p | p in pages ensures pages[p] == FilterOut(pages[p], {}) {
      FilterOutNothing(pages[p], {});
    }
  }

  /** Taking one address off its page. */
  lemma DropOne(cur: nat, len: nat, pages: PageMap, pageOf: map<Address, nat>, a: Address, next: seq<Address>)
    requires Layout(cur, len, pages, pageOf) && a in pageOf && next == FilterOut(PageAt(pages, pageOf[a]), {a})
    ensures pageOf[a] in pages && Dropped(pages, pages[pageOf[a] := next], {a})
  {
    hide FilterOut, NoRepeats, Flatten;
    assert a in PageAt(pages, pageOf[a]);
    NothingDropped(pages);
    DropFromPage(cur, len, pages, pageOf, pages, {}, pageOf[a], {a}, next);
    assert {} + {a} == {a};
  }
}
