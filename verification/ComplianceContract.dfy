/** The compliance contract as it runs: pages, reverse index, cursor and counter rewritten in place. */
module ComplianceContract {
  import opened Soroban
  import opened Paging
  import opened Compliance
  import opened CompliancePages
  import opened CompliancePrune

  /** The loop that rebuilds a list without one value. */
  method Except<T(==)>(xs: seq<T>, x: T) returns (next: seq<T>)
    ensures next == FilterOut(xs, {x})
  {
    next := [];
    for i := 0 to |xs|
      invariant next == FilterOut(xs[..i], {x})
    {
      assert xs[..i + 1][..i] == xs[..i];
      if xs[i] != x {
        next := next + [xs[i]];
      }
    }
    assert xs[..|xs|] == xs;
  }

  class Contract {
    var roles: Roles
    var curPage: nat   // AllowlistMeta: the page the cursor is on ...
    var curLen: nat    // ... and how many addresses were ever appended to it
    var pages: PageMap
    var pageOf: map<Address, nat>
    var count: U32
    var records: map<Address, KycRecord>
    var blocked: map<Code, bool>
    var blockedList: seq<Code>
    var minHold: map<Address, U64>
    var firstAcquired: map<Address, U64>
    var events: seq<Event>

    /** The plain list that the pages stand for. */
    function List(): seq<Address>
      reads this`pages, this`curPage
    {
      Flatten(pages, curPage + 1)
    }

    /** How many addresses were ever appended. */
    function Appends(): nat
      reads this`curPage, this`curLen
    {
      PAGE_SIZE * curPage + curLen
    }

    function Now(): State
      reads this
    {
      State(roles, List(), Appends(), count, records, blocked, blockedList, minHold, firstAcquired, events)
    }

    ghost predicate Valid()
      reads this
    {
      && Stored().Valid()
      && curPage <= U32_MAX
      && |List()| <= count
    }

    function Stored(): Store
      reads this
    {
      Store(curPage, curLen, pages, pageOf, records)
    }

    constructor ()
      ensures Valid() && Now() == EMPTY
    {
      roles, curPage, curLen, pages, pageOf, count := Roles(None, None), 0, 0, map[], map[], 0;
      records, blocked, blockedList, minHold, firstAcquired, events := map[], map[], [], map[], map[], [];
      new;
      assert Flatten(pages, 0) == [] && PageAt(pages, 0) == [];
    }

    // ---- reading the list ----

    method GetAllowlist() returns (all: seq<Address>)
      ensures all == List()
    {
      all := [];
      for p := 0 to curPage + 1
        invariant all == Flatten(pages, p)
      {
        if p !in pages || pages[p] == [] {
          continue;
        }
        var page := pages[p];
        for i := 0 to |page|
          invariant all == Flatten(pages, p) + page[..i]
        {
          all := all + [page[i]];
        }
      }
    }

    /** The walk over one page: skip what is left of the offset, then take while there is room. */
    method TakeFromPage(ghost front: seq<Address>, page: seq<Address>, offset: nat, limit: nat,
                        skipped0: nat, result0: seq<Address>)
      returns (skipped: nat, result: seq<Address>)
      requires skipped0 == Min(offset, |front|) && result0 == Slice(front, offset, limit)
      ensures result == Slice(front + page, offset, limit)
      ensures skipped == Min(offset, |front + page|)
    {
      skipped, result := skipped0, result0;
      assert front + page[..0] == front;
      for i := 0 to |page|
        invariant skipped == Min(offset, |front| + i)
        invariant result == Slice(front + page[..i], offset, limit)
      {
        assert front + page[..i + 1] == (front + page[..i]) + [page[i]];
        SliceExtends(front + page[..i], page[i], offset, limit);
        if skipped < offset {
          skipped := skipped + 1;
          continue;
        }
        if |result| >= limit {
          FullSliceStays(front + page[..i], page[i..], offset, limit);
          assert (front + page[..i]) + page[i..] == front + page;
          return;
        }
        result := result + [page[i]];
      }
      assert page[..|page|] == page;
    }

    method GetAllowlistPage(offset: U32, limit: U32) returns (result: seq<Address>)
      ensures result == Slice(List(), offset, if limit == 0 || limit > 200 then 200 else limit)
    {
      var capped: nat := if limit == 0 || limit > PAGE_SIZE then PAGE_SIZE else limit;
      result := [];
      var skipped := 0;
      for p := 0 to curPage + 1
        invariant skipped == Min(offset, |Flatten(pages, p)|)
        invariant result == Slice(Flatten(pages, p), offset, capped)
      {
        ghost var front := Flatten(pages, p);
        if |result| >= capped {
          FlattenPrefix(pages, p, curPage + 1);
          FullSliceStays(front, List()[|front|..], offset, capped);
          assert front + List()[|front|..] == List();
          return;
        }
        if p !in pages || pages[p] == [] {
          continue;
        }
        skipped, result := TakeFromPage(front, pages[p], offset, capped, skipped, result);
      }
    }

    // ---- changing the list ----

    /** append_to_allowlist */
    method AppendToAllowlist(address: Address) returns (ok: bool)
      requires Layout(curPage, curLen, pages, pageOf) && curPage <= U32_MAX && address !in pageOf
      modifies this`curPage, this`curLen, this`pages, this`pageOf, this`count
      ensures ok == !CannotAppend(old(Appends()), old(count))
      ensures ok ==>
                && Layout(curPage, curLen, pages, pageOf) && curPage <= U32_MAX
                && pageOf.Keys == old(pageOf.Keys) + {address}
                && List() == old(List()) + [address] && Appends() == old(Appends()) + 1 && count == old(count) + 1
    {
      hide Layout, Flatten;
      LayoutAppend(curPage, curLen, pages, pageOf, address);
      ghost var list, appends := List(), Appends();
      var pageIdx, pageLen := curPage, curLen;
      if pageLen >= PAGE_SIZE {
        if pageIdx == U32_MAX {
          return false;  // page_idx + 1 panics
        }
        pageIdx, pageLen := pageIdx + 1, 0;
      }
      var page := if pageIdx in pages then pages[pageIdx] else [];
      page := page + [address];
      pages := pages[pageIdx := page];
      pageOf := pageOf[address := pageIdx];
      pageLen := pageLen + 1;
      curPage, curLen := pageIdx, pageLen;
      if count == U32_MAX {
        return false;  // count + 1 panics
      }
      assert List() == list + [address] && Appends() == appends + 1;
      count := count + 1;
      ok := true;
    }

    /** remove_from_allowlist */
    method RemoveFromAllowlist(address: Address)
      requires Layout(curPage, curLen, pages, pageOf)
      modifies this`pages, this`pageOf, this`count
      ensures Layout(curPage, curLen, pages, pageOf)
      ensures pageOf == old(pageOf) - {address}
      ensures List() == FilterOut(old(List()), {address})
      ensures count == if address in old(pageOf) && old(count) > 0 then old(count) - 1 else old(count)
    {
      hide Layout, FilterOut, NoRepeats, Dropped, Flatten;
      if address !in pageOf {
        LayoutIsList(curPage, curLen, pages, pageOf);
        FilterOutNothing(List(), {address});
        return;
      }
      var pageIdx := pageOf[address];
      var page := if pageIdx in pages then pages[pageIdx] else [];
      var next := Except(page, address);
      ghost var before := pages;
      pages := pages[pageIdx := next];
      pageOf := pageOf - {address};
      DropOne(curPage, curLen, before, old(pageOf), address, next);
      LayoutDrop(curPage, curLen, before, old(pageOf), pages, {address});
      count := if count == 0 then 0 else count - 1;
    }

    method Log(e: Event)
      modifies this`events
      ensures events == old(events) + [e]
    {
      events := events + [e];
    }

    /** Examine one entry: drop its record and index entry if it has lapsed. */
    method Examine(now: U32, address: Address) returns (keep: bool)
      requires address in records
      modifies this`records, this`pageOf, this`events
      ensures events == if keep then old(events)
                        else old(events) + [RecordExpired(address, old(records[address]).expiresAt)]
      ensures keep == !Expired(old(records[address]), now)
      ensures records == (if keep then old(records) else old(records) - {address})
      ensures pageOf == (if keep then old(pageOf) else old(pageOf) - {address})
    {
      keep := false;
      if address in records {
        if Expired(records[address], now) {
          var expiresAt := records[address].expiresAt;
          records := records - {address};
          pageOf := pageOf - {address};
          Log(RecordExpired(address, expiresAt));
        } else {
          keep := true;
        }
      }
    }

    /** One page of a prune: examine up to the bound, keep the rest. */
    method PrunePage(now: U32, max: U32, examined0: nat, page: seq<Address>)
      returns (next: seq<Address>, examined: nat, unexamined: nat, changed: bool)
      requires NoRepeats(page) && (forall a :: a in page ==> a in records) && (max != 0 ==> examined0 <= max)
      modifies this`records, this`pageOf, this`events
      ensures unexamined == |page| - (if max == 0 then |page| else Min(max - examined0, |page|))
      ensures events == old(events) + Expiries(old(records), now, page[..|page| - unexamined])
      ensures examined == examined0 + |page| - unexamined
      ensures var gone := Gone(old(records), now, page[..|page| - unexamined]);
              && next == FilterOut(page, gone)
              && (!changed ==> next == page)
              && records == old(records) - gone && pageOf == old(pageOf) - gone
    {
      hide Gone, FilterOut, NoRepeats, Expired, Expiries;
      next, examined, unexamined, changed := [], examined0, 0, false;
      NothingExamined(records, pageOf, now, page);
      NoExpiries(records, now);
      for i := 0 to |page|
        invariant unexamined == i - (if max == 0 then i else Min(max - examined0, i))
        invariant examined == examined0 + i - unexamined
        invariant PartlyExamined(old(records), old(pageOf), now, page, i, i - unexamined, next, records, pageOf)
        invariant !changed ==> next == page[..i]
        invariant events == old(events) + Expiries(old(records), now, page[..i - unexamined])
      {
        hide PartlyExamined;
        var address := page[i];
        if max != 0 && examined >= max {
          KeepUnexamined(old(records), old(pageOf), now, page, i, i - unexamined, next, records, pageOf);
          next := next + [address];
          unexamined := unexamined + 1;
          continue;
        }
        ExpiriesNext(old(records), now, page, i);
        ExamineNext(old(records), old(pageOf), now, page, i, next, records, pageOf);
        examined := examined + 1;
        var keep := Examine(now, address);
        if keep {
          next := next + [address];
        } else {
          changed := true;
        }
      }
      assert page[..|page|] == page;
    }

    method CountLater(from: nat) returns (total: nat)
      requires from <= curPage + 1
      ensures total == |List()| - |Flatten(pages, from)|
    {
      total := 0;
      for p := from to curPage + 1
        invariant total == |Flatten(pages, p)| - |Flatten(pages, from)|
      {
        if p in pages {
          total := total + |pages[p]|;
        }
      }
    }

    /** The body of the loop over pages, for a page that is not empty: with everything before it examined,
        either its end is reached too, or the bound is. */
    method PruneAt(ghost before: Store, ghost log: seq<Event>, now: U32, max: U32, p: nat, examined0: nat)
      returns (examined: nat, unexamined: nat)
      requires Front(before, Stored(), now, p) && p <= curPage && p in pages
      requires examined0 == |Flatten(before.pages, p)| <= |before.List()| && (max != 0 ==> examined0 <= max)
      requires events == log + Expiries(before.records, now, before.List()[..examined0])
      modifies this`records, this`pageOf, this`pages, this`events
      ensures examined <= |before.List()| && (max != 0 ==> examined <= max)
      ensures events == log + Expiries(before.records, now, before.List()[..examined])
      ensures if unexamined == 0
              then Front(before, Stored(), now, p + 1) && examined == |Flatten(before.pages, p + 1)|
              else Pruned(before, Stored(), now, examined) && examined == max > 0
                   && unexamined + |List()| - |Flatten(pages, p + 1)| == |before.List()| - examined
    {
      hide Front, Pruned, FilterOut, NoRepeats, Gone, Expiries, Flatten;
      var page := pages[p];
      ghost var current := Stored();
      FrontIsValid(before, current, now, p);
      FrontPage(before, current, now, p);
      var next, examined', unexamined', changed := PrunePage(now, max, examined0, page);
      FrontExpiries(before, current, now, p, |page| - unexamined');
      examined, unexamined := examined', unexamined';
      if changed {
        pages := pages[p := next];
      }
      assert pages == current.pages[p := next];
      if unexamined > 0 {
        FrontStop(before, current, now, p, |page| - unexamined, next, Stored());
      } else {
        assert page[..|page|] == page;
        FrontAdvance(before, current, now, p, next, Stored());
      }
    }

    /** The loops of prune_expired. */
    method PrunePages(now: U32, max: U32) returns (remaining: nat)
      requires Stored().Valid()
      modifies this`records, this`pageOf, this`pages, this`events
      ensures events == old(events) + Expiries(old(records), now, old(List())[..Examined(old(List()), max)])
      ensures remaining == |old(List())| - Examined(old(List()), max)
      ensures Pruned(old(Stored()), Stored(), now, Examined(old(List()), max))
    {
      hide Store.Valid, Front, Pruned, FilterOut, NoRepeats, Gone, Expiries;
      ghost var before, log := Stored(), events;
      var examined: nat := 0;
      FrontStart(before, now);
      NoExpiries(records, now);
      for p := 0 to curPage + 1
        invariant examined == |Flatten(before.pages, p)| && (max != 0 ==> examined <= max)
        invariant Front(before, Stored(), now, p)
        invariant examined <= |before.List()|
        invariant events == log + Expiries(before.records, now, before.List()[..examined])
      {
        if p !in pages || pages[p] == [] {
          FrontSkip(before, Stored(), now, p);
          continue;
        }
        var examined', unexamined := PruneAt(before, log, now, max, p, examined);
        examined := examined';
        if unexamined > 0 {
          var later := CountLater(p + 1);
          remaining := unexamined + later;
          return;
        }
      }
      FrontEnd(before, Stored(), now);
      remaining := 0;
    }

    /** prune_expired after the admin check: page by page it is the prune of the plain list. */
    method PruneExpired(now: U32, max: U32) returns (remaining: nat)
      requires Valid()
      modifies this`records, this`pageOf, this`pages, this`events
      ensures Valid()
      ensures PruneOnce(old(Now()), now, max) == Commit(Now(), remaining)
    {
      hide Layout, FilterOut, Canonical, Gone;
      remaining := PrunePages(now, max);
    }

    // ---- jurisdictions and the gate ----

    /** normalize_jurisdiction: one pass over the bytes into a buffer of two. */
    method NormalizeJurisdiction(raw: Code) returns (r: Result<Code>)
      ensures r == Normalize(raw)
    {
      var buf := new Byte[2](_ => 0);
      var outLen := 0;
      for i := 0 to |raw|
        invariant 0 <= outLen <= 2 && outLen == |StripSpaces(raw[..i])|
        invariant forall k :: 0 <= k < outLen ==>
                               IsAlpha(StripSpaces(raw[..i])[k]) && buf[k] == Upper(StripSpaces(raw[..i])[k])
      {
        StripPrefix(raw, i + 1);
        assert raw[..i + 1][..i] == raw[..i];
        var b := raw[i];
        if b == SPACE {
          continue;
        }
        if outLen >= 2 || !IsAlpha(b) {
          return Err(InvalidJurisdiction);
        }
        buf[outLen] := Upper(b);
        outLen := outLen + 1;
      }
      assert raw[..|raw|] == raw;
      if outLen != 2 {
        return Err(InvalidJurisdiction);
      }
      assert buf[..2] == [Upper(StripSpaces(raw)[0]), Upper(StripSpaces(raw)[1])];
      r := Ok(buf[..2]);
    }

    method IsJurisdictionBlocked(raw: Code) returns (r: Result<bool>)
      ensures r == match Normalize(raw) case Ok(code) => Ok(IsBlocked(Now(), code)) case Err(e) => Err(e)
    {
      var code := NormalizeJurisdiction(raw);
      if code.Err? {
        return Err(code.error);
      }
      r := Ok(if code.value in blocked then blocked[code.value] else false);
    }

    /** is_allowed: it never panics, answers by the gate's formula, and changes nothing but the log. */
    method CheckAllowed(now: U32, address: Address) returns (r: Result<bool>)
      requires Valid()
      modifies this`events
      ensures r == Ok(IsAllowed(old(Now()), now, address))
      ensures Now() == old(Now()).(events := old(events) + GateEvents(old(Now()), now, address))
    {
      hide Layout, Flatten, Normalize;
      if address !in records {
        return Ok(false);
      }
      var record := records[address];
      if record.status != Approved {
        return Ok(false);
      }
      if record.expiresAt != 0 && now >= record.expiresAt {
        Log(RecordExpired(address, record.expiresAt));
        return Ok(false);
      }
      var inBlocked := IsJurisdictionBlocked(record.jurisdiction);
      if inBlocked.Err? {
        return inBlocked;
      }
      if inBlocked.value {
        return Ok(false);
      }
      if address in minHold {
        var minLedgers := minHold[address];
        if minLedgers > 0 {
          if address in firstAcquired {
            var first := firstAcquired[address];
            var unlockAt := Min(first as int + minLedgers, U64_MAX);
            if now < unlockAt {
              Log(HoldFailed(address, first, minLedgers, now));
              return Ok(false);
            }
          }
        }
      }
      r := Ok(true);
    }

    // ---- calls ----

    /** Write a record, and append its address to the list if it had none before. */
    method WriteRecord(record: KycRecord) returns (ok: bool)
      requires Valid() && Normalize(record.jurisdiction) == Ok(record.jurisdiction)
      modifies this`records, this`curPage, this`curLen, this`pages, this`pageOf, this`count
      ensures ok == (record.address in old(records) || !CannotAppend(old(Appends()), old(count)))
      ensures ok ==> Valid() && records == old(records)[record.address := record]
      ensures ok ==> if record.address in old(records)
                     then List() == old(List()) && Appends() == old(Appends()) && count == old(count)
                     else List() == old(List()) + [record.address] && Appends() == old(Appends()) + 1
                          && count == old(count) + 1
    {
      hide Normalize, Flatten, Layout, Store.Valid, CannotAppend, Appends;
      ghost var before := Stored();
      ValidLists(before);
      var isNew := record.address !in records;
      records := records[record.address := record];
      ok := true;
      if isNew {
        ok := AppendToAllowlist(record.address);
      }
      if ok {
        ValidWith(before, Stored(), record.address, record);
      }
    }

    /** The validation, record and append that add_to_allowlist and its batch share. */
    method ApproveEntry(now: U32, entry: Entry) returns (r: Result<int>)
      requires Valid()
      modifies this
      ensures Agrees(r, Now(), Approve(old(Now()), now, entry)) && (r.Ok? ==> Valid())
    {
      hide Normalize, Flatten, Store.Valid, CannotAppend, Appends;
      if entry.expiresAt != 0 && entry.expiresAt <= now {
        return Err(InvalidExpiry);
      }
      var code := NormalizeJurisdiction(entry.jurisdiction);
      if code.Err? {
        return Err(code.error);
      }
      NormalizeIdempotent(entry.jurisdiction);
      var prev := if entry.address in records then records[entry.address]
                  else KycRecord(entry.address, Approved, code.value, 0, 0);
      var ok := WriteRecord(KycRecord(entry.address, Approved, code.value, now, entry.expiresAt));
      if !ok {
        return Err(HostTrap);
      }
      Log(ApprovalMade(entry.address, code.value, entry.expiresAt,
                       prev.jurisdiction, prev.expiresAt, prev.status == Suspended));
      r := Ok(0);
    }

    method AddToAllowlist(env: Env, admin: Address, entry: Entry) returns (r: Result<int>)
      requires Valid()
      modifies this
      ensures Agrees(r, Now(), CallOutcome(old(Now()), env, Add(admin, entry))) && (r.Ok? ==> Valid())
    {
      hide Approve;
      var refused := AdminError(roles, env.auth, admin);
      if refused.Some? {
        return Err(refused.value);
      }
      r := ApproveEntry(env.now, entry);
    }

    method AddToAllowlistBatch(env: Env, admin: Address, entries: seq<Entry>) returns (r: Result<int>)
      requires Valid()
      modifies this
      ensures Agrees(r, Now(), CallOutcome(old(Now()), env, AddBatch(admin, entries))) && (r.Ok? ==> Valid())
    {
      hide Approve, Valid;
      var refused := AdminError(roles, env.auth, admin);
      if refused.Some? {
        return Err(refused.value);
      }
      for i := 0 to |entries|
        invariant Valid()
        invariant ApproveAll(Now(), env.now, entries[i..]) == ApproveAll(old(Now()), env.now, entries)
      {
        assert entries[i..][0] == entries[i] && entries[i..][1..] == entries[i + 1..];
        var done := ApproveEntry(env.now, entries[i]);
        if done.Err? {
          return done;
        }
      }
      r := Ok(0);
    }

    method SuspendAddress(env: Env, admin: Address, address: Address) returns (r: Result<int>)
      requires Valid()
      modifies this`records, this`events
      ensures Agrees(r, Now(), CallOutcome(old(Now()), env, Suspend(admin, address))) && (r.Ok? ==> Valid())
    {
      hide Layout, Normalize, Flatten;
      var refused := AdminError(roles, env.auth, admin);
      if refused.Some? {
        return Err(refused.value);
      }
      if address !in records {
        return Err(RecordNotFound);
      }
      var record := records[address];
      record := record.(status := Suspended);
      records := records[address := record];
      Log(SuspensionMade(address));
      r := Ok(0);
    }

    method ReinstateAddress(env: Env, admin: Address, address: Address) returns (r: Result<int>)
      requires Valid()
      modifies this`records, this`events
      ensures Agrees(r, Now(), CallOutcome(old(Now()), env, Reinstate(admin, address))) && (r.Ok? ==> Valid())
    {
      hide Layout, Normalize, Flatten;
      var refused := AdminError(roles, env.auth, admin);
      if refused.Some? {
        return Err(refused.value);
      }
      if address !in records {
        return Err(RecordNotFound);
      }
      var record := records[address];
      if record.status != Suspended {
        return Err(NotSuspended);
      }
      record := record.(status := Approved);
      records := records[address := record];
      Log(ReinstatementMade(address));
      r := Ok(0);
    }

    method RemoveAddress(env: Env, admin: Address, address: Address) returns (r: Result<int>)
      requires Valid()
      modifies this
      ensures Agrees(r, Now(), CallOutcome(old(Now()), env, Remove(admin, address))) && (r.Ok? ==> Valid())
    {
      hide Layout, Normalize, Flatten, NoRepeats, FilterOut, Store.Valid;
      ghost var before := Stored();
      ValidLists(before);
      var refused := AdminError(roles, env.auth, admin);
      if refused.Some? {
        return Err(refused.value);
      }
      if address !in records {
        return Err(RecordNotFound);
      }
      FilterOutOne(List(), address);
      records := records - {address};
      RemoveFromAllowlist(address);
      ValidWithout(before, Stored(), address);
      Log(RemovalMade(address));
      r := Ok(0);
    }

    method PruneExpiredCall(env: Env, admin: Address, max: U32) returns (r: Result<int>)
      requires Valid()
      modifies this
      ensures Agrees(r, Now(), CallOutcome(old(Now()), env, Prune(admin, max))) && (r.Ok? ==> Valid())
    {
      hide Valid, PruneOnce;
      var refused := AdminError(roles, env.auth, admin);
      if refused.Some? {
        return Err(refused.value);
      }
      var remaining := PruneExpired(env.now, max);
      r := Ok(remaining);
    }

    method BlockJurisdiction(env: Env, admin: Address, raw: Code) returns (r: Result<int>)
      requires Valid()
      modifies this`blocked, this`blockedList, this`events
      ensures Agrees(r, Now(), CallOutcome(old(Now()), env, Block(admin, raw))) && Valid()
    {
      hide Store.Valid, Flatten, Normalize, FilterOut;
      var refused := AdminError(roles, env.auth, admin);
      if refused.Some? {
        return Err(refused.value);
      }
      var code := NormalizeJurisdiction(raw);
      if code.Err? {
        return Err(code.error);
      }
      var alreadyBlocked := if code.value in blocked then blocked[code.value] else false;
      blocked := blocked[code.value := true];
      if !alreadyBlocked {
        blockedList := blockedList + [code.value];
      }
      Log(JurisdictionBlocked(code.value));
      r := Ok(0);
    }

    method UnblockJurisdiction(env: Env, admin: Address, raw: Code) returns (r: Result<int>)
      requires Valid()
      modifies this`blocked, this`blockedList, this`events
      ensures Agrees(r, Now(), CallOutcome(old(Now()), env, Unblock(admin, raw))) && Valid()
    {
      hide Store.Valid, Flatten, Normalize, FilterOut;
      var refused := AdminError(roles, env.auth, admin);
      if refused.Some? {
        return Err(refused.value);
      }
      var code := NormalizeJurisdiction(raw);
      if code.Err? {
        return Err(code.error);
      }
      blocked := blocked - {code.value};
      blockedList := Except(blockedList, code.value);
      Log(JurisdictionUnblocked(code.value));
      r := Ok(0);
    }

    method SetMinHoldingPeriod(env: Env, admin: Address, holder: Address, ledgers: U64) returns (r: Result<int>)
      requires Valid()
      modifies this`minHold, this`events
      ensures Agrees(r, Now(), CallOutcome(old(Now()), env, SetMinHold(admin, holder, ledgers))) && Valid()
    {
      hide Store.Valid, Flatten;
      var refused := AdminError(roles, env.auth, admin);
      if refused.Some? {
        return Err(refused.value);
      }
      if ledgers == 0 {
        minHold := minHold - {holder};
      } else {
        minHold := minHold[holder := ledgers];
      }
      Log(MinHoldSet(holder, ledgers));
      r := Ok(0);
    }

    method RecordFirstAcquisition(env: Env, admin: Address, holder: Address) returns (r: Result<int>)
      requires Valid()
      modifies this`firstAcquired, this`events
      ensures Agrees(r, Now(), CallOutcome(old(Now()), env, RecordAcquisition(admin, holder))) && Valid()
    {
      hide Store.Valid, Flatten;
      var refused := AdminError(roles, env.auth, admin);
      if refused.Some? {
        return Err(refused.value);
      }
      if holder !in firstAcquired {
        firstAcquired := firstAcquired[holder := env.now];
        Log(AcquisitionRecorded(holder, env.now));
      }
      r := Ok(0);
    }

    /** initialize and the two-step admin handover. */
    method Administer(env: Env, call: RoleCall) returns (r: Result<int>)
      requires Valid()
      modifies this`roles, this`events
      ensures Agrees(r, Now(), CallOutcome(old(Now()), env, Role(call))) && Valid()
    {
      hide Store.Valid, Flatten;
      match RoleOutcome(roles, env.auth, call) {
        case Abort(e) => return Err(e);
        case Commit(next, e) =>
          roles := next;
          Log(Handover(e));
          r := Ok(0);
      }
    }

    method CheckCall(env: Env, address: Address) returns (r: Result<int>)
      requires Valid()
      modifies this`events
      ensures Agrees(r, Now(), CallOutcome(old(Now()), env, Check(address))) && Valid()
    {
      hide Store.Valid, Flatten, GateEvents, IsAllowed;
      var allowed := CheckAllowed(env.now, address);
      r := Ok(if allowed.value then 1 else 0);
    }

    /** The contract's entry points. */
    method Dispatch(tx: Tx) returns (r: Result<int>)
      requires Valid()
      modifies this
      ensures Agrees(r, Now(), CallOutcome(old(Now()), tx.env, tx.call)) && (r.Ok? ==> Valid())
    {
      hide CallOutcome, Valid, Now;
      var env := tx.env;
      match tx.call {
        case Role(role) => r := Administer(env, role);
        case Add(admin, entry) => r := AddToAllowlist(env, admin, entry);
        case AddBatch(admin, entries) => r := AddToAllowlistBatch(env, admin, entries);
        case Suspend(admin, a) => r := SuspendAddress(env, admin, a);
        case Reinstate(admin, a) => r := ReinstateAddress(env, admin, a);
        case Remove(admin, a) => r := RemoveAddress(env, admin, a);
        case Prune(admin, max) => r := PruneExpiredCall(env, admin, max);
        case Block(admin, raw) => r := BlockJurisdiction(env, admin, raw);
        case Unblock(admin, raw) => r := UnblockJurisdiction(env, admin, raw);
        case SetMinHold(admin, a, ledgers) => r := SetMinHoldingPeriod(env, admin, a, ledgers);
        case RecordAcquisition(admin, a) => r := RecordFirstAcquisition(env, admin, a);
        case Check(a) => r := CheckCall(env, a);
      }
    }

    /** Put back what was stored before a failed call. */
    method Rollback(before: Saved)
      modifies this
      ensures roles == before.roles && count == before.count && blocked == before.blocked
      ensures blockedList == before.blockedList && minHold == before.minHold && firstAcquired == before.firstAcquired
      ensures Stored() == before.store && events == before.events
    {
      roles, count, blocked := before.roles, before.count, before.blocked;
      blockedList, minHold, firstAcquired := before.blockedList, before.minHold, before.firstAcquired;
      curPage, curLen, pages := before.store.cur, before.store.len, before.store.pages;
      pageOf, records, events := before.store.pageOf, before.store.records, before.events;
    }

    /** The host's transaction: run the call, and undo its writes if it fails. */
    method Invoke(tx: Tx) returns (r: Result<int>)
      requires Valid()
      modifies this
      ensures Valid()
      ensures r == CallOutcome(old(Now()), tx.env, tx.call).Result()
      ensures Now() == Step(old(Now()), tx)
    {
      hide CallOutcome, Store.Valid, Flatten;
      var before := Saved(roles, Store(curPage, curLen, pages, pageOf, records), count, blocked, blockedList, minHold,
                          firstAcquired, events);
      r := Dispatch(tx);
      if r.Err? {
        Rollback(before);
      }
    }
  }

  /** Everything the contract stores. */
  datatype Saved = Saved(
    roles: Roles, store: Store, count: U32, blocked: map<Code, bool>, blockedList: seq<Code>,
    minHold: map<Address, U64>, firstAcquired: map<Address, U64>, events: seq<Event>)
}
