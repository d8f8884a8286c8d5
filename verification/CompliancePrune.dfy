/** Why the page-by-page prune is the prune of the plain list. */
module CompliancePrune {
  import opened Soroban
  import opened Paging
  import opened Compliance
  import opened CompliancePages

  lemma GoneSplits(records: map<Address, KycRecord>, now: U32, xs: seq<Address>, ys: seq<Address>)
    ensures Gone(records, now, xs + ys) == Gone(records, now, xs) + Gone(records, now, ys)
  {
  }

  lemma GoneNext(records: map<Address, KycRecord>, now: U32, xs: seq<Address>, a: Address)
    ensures Gone(records, now, xs + [a])
         == Gone(records, now, xs) + if a !in records || Expired(records[a], now) then {a} else {}
  {
  }

  /** What lapses among `xs` depends on the records of its members alone. */
  lemma GoneSame(records: map<Address, KycRecord>, records': map<Address, KycRecord>, now: U32, xs: seq<Address>)
    requires forall a :: a in xs ==> a in records && a in records' && records[a] == records'[a]
    ensures Gone(records, now, xs) == Gone(records', now, xs)
  {
  }

  lemma GoneMembers(records: map<Address, KycRecord>, now: U32, xs: seq<Address>)
    ensures forall a :: a in Gone(records, now, xs) ==> a in xs
  {
  }

  lemma {:induction false} ExpiriesConcat(
    records: map<Address, KycRecord>, now: U32, xs: seq<Address>, ys: seq<Address>)
    ensures Expiries(records, now, xs + ys) == Expiries(records, now, xs) + Expiries(records, now, ys)
  {
    if ys == [] {
      assert xs + ys == xs;
    } else {
      var last := |ys| - 1;
      assert (xs + ys)[..|xs| + last] == xs + ys[..last];
      ExpiriesConcat(records, now, xs, ys[..last]);
    }
  }

  lemma NoExpiries(records: map<Address, KycRecord>, now: U32)
    ensures Expiries(records, now, []) == []
  {
  }

  /** One more entry announces its own expiry, if it has expired. */
  lemma ExpiriesNext(records: map<Address, KycRecord>, now: U32, page: seq<Address>, i: nat)
    requires i < |page| && page[i] in records
    ensures Expiries(records, now, page[..i + 1])
         == if Expired(records[page[i]], now)
            then Expiries(records, now, page[..i]) + [RecordExpired(page[i], records[page[i]].expiresAt)]
            else Expiries(records, now, page[..i])
  {
    assert page[..i + 1][..i] == page[..i];
  }

  /** The expiries of a list depend on the records of its members alone. */
  lemma {:induction false} ExpiriesSame(
    records: map<Address, KycRecord>, records': map<Address, KycRecord>, now: U32, xs: seq<Address>)
    requires forall a :: a in xs ==> a in records && a in records' && records[a] == records'[a]
    ensures Expiries(records, now, xs) == Expiries(records', now, xs)
  {
    if xs != [] {
      ExpiriesSame(records, records', now, xs[..|xs| - 1]);
    }
  }

  /** Of the first `i` entries of a page the first `k` have been examined: what is kept, and what is
      left of the records and the index. */
  ghost predicate PartlyExamined(
    records0: map<Address, KycRecord>, pageOf0: map<Address, nat>, now: U32, page: seq<Address>, i: nat, k: nat,
    next: seq<Address>, records: map<Address, KycRecord>, pageOf: map<Address, nat>)
  {
    && k <= i <= |page| && NoRepeats(page)
    && var gone := Gone(records0, now, page[..k]);
       next == FilterOut(page[..i], gone) && records == records0 - gone && pageOf == pageOf0 - gone
  }

  lemma NothingExamined(records: map<Address, KycRecord>, pageOf: map<Address, nat>, now: U32, page: seq<Address>)
    requires NoRepeats(page)
    ensures PartlyExamined(records, pageOf, now, page, 0, 0, [], records, pageOf)
  {
    var gone := Gone(records, now, page[..0]);
    assert gone == {};
    assert records - gone == records && pageOf - gone == pageOf;
  }

  /** One more entry beyond the bound is kept unexamined. */
  lemma KeepUnexamined(
    records0: map<Address, KycRecord>, pageOf0: map<Address, nat>, now: U32, page: seq<Address>, i: nat, k: nat,
    next: seq<Address>, records: map<Address, KycRecord>, pageOf: map<Address, nat>)
    requires PartlyExamined(records0, pageOf0, now, page, i, k, next, records, pageOf) && i < |page|
    ensures PartlyExamined(records0, pageOf0, now, page, i + 1, k, next + [page[i]], records, pageOf)
    ensures page[..i + 1] == page[..i] + [page[i]]
  {
    var gone := Gone(records0, now, page[..k]);
    assert page[..i + 1][..i] == page[..i];
    assert page[i] !in page[..k];
  }

  /** One more entry within the bound: it stays, or goes with its record and index entry. */
  lemma ExamineNext(
    records0: map<Address, KycRecord>, pageOf0: map<Address, nat>, now: U32, page: seq<Address>, i: nat,
    next: seq<Address>, records: map<Address, KycRecord>, pageOf: map<Address, nat>)
    requires PartlyExamined(records0, pageOf0, now, page, i, i, next, records, pageOf) && i < |page|
    requires page[i] in records0
    ensures page[i] in records && records[page[i]] == records0[page[i]] && page[..i + 1] == page[..i] + [page[i]]
    ensures if Expired(records[page[i]], now)
            then PartlyExamined(records0, pageOf0, now, page, i + 1, i + 1, next,
                                records - {page[i]}, pageOf - {page[i]})
            else PartlyExamined(records0, pageOf0, now, page, i + 1, i + 1, next + [page[i]], records, pageOf)
  {
    var a, seen := page[i], page[..i];
    assert page[..i + 1] == seen + [a] && a !in seen;
    hide Expired, Gone, FilterOut, NoRepeats;
    var gone, gone' := Gone(records0, now, seen), Gone(records0, now, seen + [a]);
    GoneMembers(records0, now, seen);
    GoneNext(records0, now, seen, a);
    FilterOutSame(seen, gone, gone');
    FilterOutNext(seen, a, gone');
    MinusTwice(records0, gone, {a});
    MinusTwice(pageOf0, gone, {a});
    assert gone + {} == gone;
  }

  /** The addresses of a page are on no earlier page, so nothing dropped so far touches them. */
  lemma PageFresh(cur: nat, len: nat, pages: PageMap, pageOf: map<Address, nat>, p: nat)
    requires Layout(cur, len, pages, pageOf)
    ensures NoRepeats(PageAt(pages, p))
    ensures forall a :: a in PageAt(pages, p) ==> a !in Flatten(pages, p) && a in pageOf
  {
    FlattenMembers(cur, len, pages, pageOf, p);
  }

  /** Pages that agree from `m` on have equally long remainders. */
  lemma {:induction false} RemainderLength(pages: PageMap, pages': PageMap, m: nat, n: nat)
    requires m <= n && forall p :: m <= p < n ==> PageAt(pages, p) == PageAt(pages', p)
    ensures |Flatten(pages, n)| - |Flatten(pages, m)| == |Flatten(pages', n)| - |Flatten(pages', m)|
  {
    if m < n {
      RemainderLength(pages, pages', m, n - 1);
    }
  }

  /** The first pages and `k` entries of the next one are a prefix of the list. */
  lemma ListFront(pages: PageMap, p: nat, n: nat, k: nat)
    requires p < n && k <= |PageAt(pages, p)|
    ensures |Flatten(pages, p)| + k <= |Flatten(pages, n)|
    ensures Flatten(pages, n)[..|Flatten(pages, p)| + k] == Flatten(pages, p) + PageAt(pages, p)[..k]
  {
    FlattenPrefix(pages, p + 1, n);
    var front := Flatten(pages, p + 1);
    assert Flatten(pages, n)[..|Flatten(pages, p)| + k] == Flatten(pages, n)[..|front|][..|Flatten(pages, p)| + k];
  }

  /** What the contract stores about the allowlist, in step with itself. */
  datatype Store = Store(
    cur: nat, len: nat, pages: PageMap, pageOf: map<Address, nat>, records: map<Address, KycRecord>)
  {
    ghost predicate Valid() {
      Layout(cur, len, pages, pageOf) && records.Keys == pageOf.Keys && Canonical(records)
    }

    function List(): seq<Address> {
      Flatten(pages, cur + 1)
    }

    /** This store without the addresses in `gone`, its pages being `pages'`. */
    function Without(pages': PageMap, gone: set<Address>): Store {
      Store(cur, len, pages', pageOf - gone, records - gone)
    }
  }

  /** Recording an address that is on its page keeps a store valid. */
  lemma ValidWith(s: Store, t: Store, a: Address, r: KycRecord)
    requires s.Valid() && Layout(t.cur, t.len, t.pages, t.pageOf) && Normalize(r.jurisdiction) == Ok(r.jurisdiction)
    requires t.records == s.records[a := r] && t.pageOf.Keys == s.pageOf.Keys + {a}
    ensures t.Valid()
  {
    hide Layout, Normalize;
  }

  /** Taking an address off its page and dropping its record keeps a store valid. */
  lemma ValidWithout(s: Store, t: Store, a: Address)
    requires s.Valid() && Layout(t.cur, t.len, t.pages, t.pageOf)
    requires t.records == s.records - {a} && t.pageOf == s.pageOf - {a}
    ensures t.Valid()
  {
    hide Layout, Normalize;
  }

  /** A valid store lists exactly the addresses it records, each once. */
  lemma ValidLists(s: Store)
    requires s.Valid()
    ensures Layout(s.cur, s.len, s.pages, s.pageOf) && s.records.Keys == s.pageOf.Keys
    ensures NoRepeats(s.List()) && forall a :: a in s.List() <==> a in s.records
  {
    hide Flatten, Canonical;
    LayoutIsList(s.cur, s.len, s.pages, s.pageOf);
  }

  /** Taking lapsed addresses of the examined front off their pages leaves a valid store, whose list is
      that of the plain prune. */
  lemma PruneIsFilter(s: Store, pages': PageMap, now: U32, k: nat, gone: set<Address>)
    requires s.Valid() && k <= |s.List()| && gone == Gone(s.records, now, s.List()[..k])
    requires Dropped(s.pages, pages', gone)
    ensures s.Without(pages', gone).Valid()
    ensures s.Without(pages', gone).List() == FilterOut(s.List()[..k], gone) + s.List()[k..]
    ensures |s.Without(pages', gone).List()| <= |s.List()|
  {
    hide Normalize, Layout, Dropped, FilterOut, Flatten, NoRepeats;
    LayoutDrop(s.cur, s.len, s.pages, s.pageOf, pages', gone);
    LayoutIsList(s.cur, s.len, s.pages, s.pageOf);
    FilterFront(s.List(), k, gone);
    FilterOutMembers(s.List(), gone);
  }

  /** The pages before `p` have been examined entirely and no other: `t` is what became of `s`. */
  ghost predicate Front(s: Store, t: Store, now: U32, p: nat) {
    var gone := Gone(s.records, now, Flatten(s.pages, p));
    && s.Valid() && p <= s.cur + 1
    && t == s.Without(t.pages, gone)
    && Dropped(s.pages, t.pages, gone)
    && forall q :: q >= p ==> PageAt(t.pages, q) == PageAt(s.pages, q)
  }

  lemma FrontStart(s: Store, now: U32)
    requires s.Valid()
    ensures Front(s, s, now, 0)
  {
    hide Layout, NoRepeats, FilterOut, Canonical, Dropped;
    NothingDropped(s.pages);
    assert Gone(s.records, now, Flatten(s.pages, 0)) == {};
    assert s.pageOf - {} == s.pageOf && s.records - {} == s.records;
  }

  /** An empty page needs no examination. */
  lemma FrontSkip(s: Store, t: Store, now: U32, p: nat)
    requires Front(s, t, now, p) && p <= s.cur && PageAt(t.pages, p) == []
    ensures Front(s, t, now, p + 1) && Flatten(s.pages, p + 1) == Flatten(s.pages, p)
  {
    hide Layout, NoRepeats, FilterOut, Canonical, Dropped, Gone;
    assert PageAt(s.pages, p) == [];
    assert Flatten(s.pages, p + 1) == Flatten(s.pages, p);
  }

  /** The next page is as it was, and every address on it has its record. */
  lemma FrontPage(s: Store, t: Store, now: U32, p: nat)
    requires Front(s, t, now, p) && p in t.pages
    ensures p in s.pages && t.pages[p] == s.pages[p] && NoRepeats(t.pages[p])
    ensures forall a :: a in t.pages[p] ==> a in t.records && a !in Gone(s.records, now, Flatten(s.pages, p))
    ensures forall a :: a in t.pages[p] ==> a in s.records && t.records[a] == s.records[a]
  {
    hide NoRepeats, FilterOut;
    PageFresh(s.cur, s.len, s.pages, s.pageOf, p);
    assert t.pages[p] == PageAt(s.pages, p);
  }

  /** Examining the first `k` entries of page `p` on top of the pages before it. */
  lemma FrontExamine(s: Store, t: Store, now: U32, p: nat, k: nat, next: seq<Address>)
    requires Front(s, t, now, p) && p in t.pages && k <= |t.pages[p]|
    requires next == FilterOut(t.pages[p], Gone(t.records, now, t.pages[p][..k]))
    ensures p in s.pages && t.pages[p] == s.pages[p]
    ensures var gone := Gone(s.records, now, Flatten(s.pages, p) + s.pages[p][..k]);
            var more := Gone(t.records, now, t.pages[p][..k]);
            && Dropped(s.pages, t.pages[p := next], gone)
            && Store(t.cur, t.len, t.pages[p := next], t.pageOf - more, t.records - more)
               == s.Without(t.pages[p := next], gone)
  {
    hide NoRepeats, FilterOut, Flatten, Dropped, Gone, Layout, Store.Valid;
    FrontPage(s, t, now, p);
    var seen := s.pages[p][..k];
    var gone, more := Gone(s.records, now, Flatten(s.pages, p)), Gone(t.records, now, seen);
    GoneSame(s.records, t.records, now, seen);
    GoneSplits(s.records, now, Flatten(s.pages, p), seen);
    GoneMembers(t.records, now, seen);
    ValidLists(s);
    DropFromPage(s.cur, s.len, s.pages, s.pageOf, t.pages, gone, p, more, next);
    MinusTwice(s.pageOf, gone, more);
    MinusTwice(s.records, gone, more);
  }

  /** The expiries of the pages before `p` and of the first `k` entries of page `p` are those of the
      front of the list. */
  lemma FrontExpiries(s: Store, t: Store, now: U32, p: nat, k: nat)
    requires Front(s, t, now, p) && p in t.pages && p <= s.cur && k <= |t.pages[p]|
    ensures |Flatten(s.pages, p)| + k <= |s.List()|
    ensures Expiries(s.records, now, s.List()[..|Flatten(s.pages, p)|]) + Expiries(t.records, now, t.pages[p][..k])
         == Expiries(s.records, now, s.List()[..|Flatten(s.pages, p)| + k])
  {
    hide Front, NoRepeats, Flatten, Expiries, Gone, Expired;
    FrontPage(s, t, now, p);
    var seen := t.pages[p][..k];
    ListFront(s.pages, p, s.cur + 1, k);
    ListFront(s.pages, p, s.cur + 1, 0);
    assert s.pages[p][..0] == [] && Flatten(s.pages, p) + [] == Flatten(s.pages, p);
    ExpiriesSame(t.records, s.records, now, seen);
    ExpiriesConcat(s.records, now, Flatten(s.pages, p), seen);
  }

  /** A page examined to its end moves the front past it. */
  lemma FrontAdvance(s: Store, t: Store, now: U32, p: nat, next: seq<Address>, t': Store)
    requires Front(s, t, now, p) && p in t.pages && p <= s.cur
    requires var more := Gone(t.records, now, t.pages[p]);
             && next == FilterOut(t.pages[p], more)
             && t' == Store(t.cur, t.len, t.pages[p := next], t.pageOf - more, t.records - more)
    ensures Front(s, t', now, p + 1)
    ensures |Flatten(s.pages, p + 1)| == |Flatten(s.pages, p)| + |t.pages[p]|
  {
    hide NoRepeats, FilterOut, Dropped, Layout, Gone;
    var page := t.pages[p];
    assert page[..|page|] == page;
    FrontExamine(s, t, now, p, |page|, next);
    assert Flatten(s.pages, p + 1) == Flatten(s.pages, p) + page;
  }

  /** Stopping within page `p`, after `k` of its entries: the outcome is that of the plain prune, and
      the entries left unexamined are the rest of this page and all later ones. */
  lemma FrontStop(s: Store, t: Store, now: U32, p: nat, k: nat, next: seq<Address>, t': Store)
    requires Front(s, t, now, p) && p in t.pages && p <= s.cur && k <= |t.pages[p]|
    requires var more := Gone(t.records, now, t.pages[p][..k]);
             && next == FilterOut(t.pages[p], more)
             && t' == Store(t.cur, t.len, t.pages[p := next], t.pageOf - more, t.records - more)
    ensures var n := |Flatten(s.pages, p)| + k;
            && n <= |s.List()| && Pruned(s, t', now, n)
            && |t.pages[p]| - k + |t'.List()| - |Flatten(t'.pages, p + 1)| == |s.List()| - n
  {
    hide NoRepeats, FilterOut, Dropped, Layout, Gone, Canonical;
    hide Flatten, Front, Store.Valid;
    FrontIsValid(s, t, now, p);
    FrontExamine(s, t, now, p, k, next);
    ListFront(s.pages, p, s.cur + 1, k);
    var n := |Flatten(s.pages, p)| + k;
    PruneIsFilter(s, t'.pages, now, n, Gone(s.records, now, s.List()[..n]));
    RemainderLength(t'.pages, s.pages, p + 1, s.cur + 1);
    NextPage(s.pages, p);
  }

  lemma NextPage(pages: PageMap, p: nat)
    ensures Flatten(pages, p + 1) == Flatten(pages, p) + PageAt(pages, p)
  {
  }

  lemma FrontIsValid(s: Store, t: Store, now: U32, p: nat)
    requires Front(s, t, now, p)
    ensures s.Valid() && t.cur == s.cur && t.len == s.len
    ensures forall q :: q >= p ==> PageAt(t.pages, q) == PageAt(s.pages, q)
  {
  }

  /** Every page has been examined. */
  lemma FrontEnd(s: Store, t: Store, now: U32)
    requires Front(s, t, now, s.cur + 1)
    ensures Pruned(s, t, now, |s.List()|)
  {
    hide NoRepeats, FilterOut, Dropped, Layout, Gone;
    assert s.List()[..|s.List()|] == s.List();
    PruneIsFilter(s, t.pages, now, |s.List()|, Gone(s.records, now, s.List()));
  }

  /** `t` is `s` after a prune that examined the first `k` entries. */
  ghost predicate Pruned(s: Store, t: Store, now: U32, k: nat) {
    && t.Valid() && t.cur == s.cur && t.len == s.len && k <= |s.List()|
    && var gone := Gone(s.records, now, s.List()[..k]);
       && t.records == s.records - gone
       && t.List() == FilterOut(s.List()[..k], gone) + s.List()[k..]
       && |t.List()| <= |s.List()|
  }
}
