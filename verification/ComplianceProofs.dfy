/** What the compliance contract promises: the invariant of every run, the counter, the gate, and when
    repeated pruning ends. */
module ComplianceProofs {
  import opened Soroban
  import opened Paging
  import opened Compliance

  // ---- the invariant ----

  /** The list holds exactly the addresses with a record, each once; codes are canonical; the blocked
      flags and the blocked list denote the same codes, each listed once. */
  ghost predicate Inv(s: State) {
    && Listing(s) && Canonical(s.records) && Blocking(s)
  }

  ghost predicate Listing(s: State) {
    NoRepeats(s.list) && (forall a :: a in s.list <==> a in s.records) && |s.list| <= s.count
  }

  ghost predicate Blocking(s: State) {
    NoRepeats(s.blockedList) && forall code :: code in s.blockedList <==> IsBlocked(s, code)
  }

  /** `t` keeps the invariant, and its counter has moved with the list but for `n` entries pruned. */
  ghost predicate KeepsBooks(s: State, t: State, n: int) {
    Inv(t) && n >= 0 && t.count - |t.list| == s.count - |s.list| + n
  }

  lemma BlockingReads(s: State, t: State)
    requires Blocking(s) && t.blocked == s.blocked && t.blockedList == s.blockedList
    ensures Blocking(t)
  {
  }

  lemma ListingReads(s: State, t: State)
    requires Listing(s) && t.list == s.list && t.records.Keys == s.records.Keys && t.count == s.count
    ensures Listing(t)
  {
  }

  lemma ListingExtends(s: State, t: State, a: Address)
    requires Listing(s) && a !in s.records && t.list == s.list + [a]
    requires t.records.Keys == s.records.Keys + {a} && t.count == s.count + 1
    ensures Listing(t)
  {
    assert a !in s.list;
    assert forall x :: x in s.list + [a] <==> x in s.list || x == a;
  }

  lemma ApproveKeepsInv(s: State, now: U32, e: Entry)
    requires Inv(s)
    ensures var o := Approve(s, now, e);
            o.Commit? ==> KeepsBooks(s, o.state, 0)
  {
    hide ApprovalEvent, Listing, Blocking;
    if Approve(s, now, e).Commit? {
      NormalizeIdempotent(e.jurisdiction);
      hide Normalize;
      var t := Approve(s, now, e).state;
      BlockingReads(s, t);
      if e.address in s.records {
        ListingReads(s, t);
      } else {
        ListingExtends(s, t, e.address);
      }
    }
  }

  lemma {:induction false} ApproveAllKeepsInv(s: State, now: U32, entries: seq<Entry>)
    requires Inv(s)
    ensures var o := ApproveAll(s, now, entries);
            o.Commit? ==> KeepsBooks(s, o.state, 0)
    decreases |entries|
  {
    hide Inv, Approve;
    if entries != [] {
      ApproveKeepsInv(s, now, entries[0]);
      var o := Approve(s, now, entries[0]);
      if o.Commit? {
        ApproveAllKeepsInv(o.state, now, entries[1..]);
      }
    }
  }

  lemma CanonicalSubset(records: map<Address, KycRecord>, gone: set<Address>)
    requires Canonical(records)
    ensures Canonical(records - gone)
  {
    hide Normalize;
  }

  lemma RemoveKeepsInv(s: State, now: U32, admin: Address, a: Address)
    requires Inv(s)
    ensures var o := AdminCall(s, now, Remove(admin, a));
            o.Commit? ==> s.count > 0 && KeepsBooks(s, o.state, 0)
  {
    BlockingReads(s, AdminCall(s, now, Remove(admin, a)).After(s));
    if a in s.records {
      hide Canonical, Blocking, FilterOut, NoRepeats;
      CanonicalSubset(s.records, {a});
      FilterOutMembers(s.list, {a});
      FilterOutNoRepeats(s.list, {a});
      FilterOutOne(s.list, a);
    }
  }

  /** On a listing without repeats a prune filters the whole list. */
  lemma PruneFilters(s: State, now: U32, max: U32)
    requires Listing(s)
    ensures var k := Examined(s.list, max);
            var gone := Gone(s.records, now, s.list[..k]);
            PruneOnce(s, now, max).state
              == s.(list := FilterOut(s.list, gone), records := s.records - gone,
                    events := s.events + Expiries(s.records, now, s.list[..k]))
  {
    hide FilterOut, NoRepeats;
    var k := Examined(s.list, max);
    FilterFront(s.list, k, Gone(s.records, now, s.list[..k]));
  }

  lemma PruneKeepsInv(s: State, now: U32, max: U32)
    requires Inv(s)
    ensures var t := PruneOnce(s, now, max).state; KeepsBooks(s, t, |s.list| - |t.list|)
  {
    hide Normalize, FilterOut, PruneOnce;
    PruneFilters(s, now, max);
    var gone := Gone(s.records, now, s.list[..Examined(s.list, max)]);
    FilterOutMembers(s.list, gone);
    FilterOutNoRepeats(s.list, gone);
  }

  lemma BlockKeepsInv(s: State, now: U32, admin: Address, raw: Code)
    requires Inv(s)
    ensures var o := AdminCall(s, now, Block(admin, raw)); o.Commit? ==> KeepsBooks(s, o.state, 0)
  {
    hide Normalize, Canonical, Listing;
    if Normalize(raw).Ok? {
      var code := Normalize(raw).value;
      assert forall c :: c in s.blockedList + [code] <==> c in s.blockedList || c == code;
      ListingReads(s, AdminCall(s, now, Block(admin, raw)).state);
    }
  }

  lemma UnblockKeepsInv(s: State, now: U32, admin: Address, raw: Code)
    requires Inv(s)
    ensures var o := AdminCall(s, now, Unblock(admin, raw)); o.Commit? ==> KeepsBooks(s, o.state, 0)
  {
    hide Normalize, Canonical, Listing, FilterOut, NoRepeats;
    if Normalize(raw).Ok? {
      var code := Normalize(raw).value;
      FilterOutMembers(s.blockedList, {code});
      FilterOutNoRepeats(s.blockedList, {code});
      ListingReads(s, AdminCall(s, now, Unblock(admin, raw)).state);
    }
  }

  lemma StatusKeepsInv(s: State, a: Address, status: Status, e: Event)
    requires Inv(s) && a in s.records
    ensures KeepsBooks(s, Publish(SetStatus(s, a, status), e), 0)
  {
    hide Normalize;
  }

  /** How many entries a step prunes away. */
  function PrunedBy(s: State, tx: Tx): int {
    if tx.call.Prune? then |s.list| - |Step(s, tx).list| else 0
  }

  function PrunedIn(s: State, txs: seq<Tx>): int
    decreases |txs|
  {
    if txs == [] then 0 else PrunedBy(s, txs[0]) + PrunedIn(Step(s, txs[0]), txs[1..])
  }

  lemma QuietKeepsInv(s: State, t: State)
    requires Inv(s) && t.list == s.list && t.count == s.count && t.records == s.records
    requires t.blocked == s.blocked && t.blockedList == s.blockedList
    ensures KeepsBooks(s, t, 0)
  {
    hide Canonical, NoRepeats;
  }

  /** Every step keeps the invariant, and moves the counter with the list except for what it prunes. */
  lemma StepKeepsInv(s: State, tx: Tx)
    requires Inv(s)
    ensures KeepsBooks(s, Step(s, tx), PrunedBy(s, tx))
  {
    var o := CallOutcome(s, tx.env, tx.call);
    hide KeepsBooks, Inv, Approve, ApproveAll, PruneOnce, Normalize, FilterOut, SetStatus;
    QuietKeepsInv(s, s);
    if o.Commit? {
      match tx.call {
        case Add(_, e) => ApproveKeepsInv(s, tx.env.now, e);
        case AddBatch(_, entries) => ApproveAllKeepsInv(s, tx.env.now, entries);
        case Remove(admin, a) => RemoveKeepsInv(s, tx.env.now, admin, a);
        case Prune(_, max) => PruneKeepsInv(s, tx.env.now, max);
        case Block(admin, raw) => BlockKeepsInv(s, tx.env.now, admin, raw);
        case Unblock(admin, raw) => UnblockKeepsInv(s, tx.env.now, admin, raw);
        case Suspend(_, a) => StatusKeepsInv(s, a, Suspended, SuspensionMade(a));
        case Reinstate(_, a) => StatusKeepsInv(s, a, Approved, ReinstatementMade(a));
        case _ => QuietKeepsInv(s, o.state);
      }
    }
  }

  lemma {:induction false} RunKeepsInv(s: State, txs: seq<Tx>)
    requires Inv(s)
    ensures Inv(Run(s, txs)) && PrunedIn(s, txs) >= 0
    ensures Run(s, txs).count - |Run(s, txs).list| == s.count - |s.list| + PrunedIn(s, txs)
    decreases |txs|
  {
    hide PrunedBy, Step, Listing, Canonical, Blocking;
    if txs != [] {
      StepKeepsInv(s, txs[0]);
      RunKeepsInv(Step(s, txs[0]), txs[1..]);
    }
  }

  predicate Lapsed(s: State, now: U32, a: Address) {
    a !in s.records || Expired(s.records[a], now)
  }

  /** A prune by the admin that meets a lapsed entry among those it examines. */
  predicate MeetsLapsed(s: State, tx: Tx) {
    && tx.call.Prune? && AdminError(s.roles, tx.env.auth, tx.call.admin).None?
    && exists i :: 0 <= i < Examined(s.list, tx.call.max) && Lapsed(s, tx.env.now, s.list[i])
  }

  predicate NeverMeetsLapsed(s: State, txs: seq<Tx>)
    decreases |txs|
  {
    txs == [] || (!MeetsLapsed(s, txs[0]) && NeverMeetsLapsed(Step(s, txs[0]), txs[1..]))
  }

  lemma {:induction false} FilterOutDrops<T>(xs: seq<T>, gone: set<T>, i: nat)
    requires i < |xs| && xs[i] in gone
    ensures |FilterOut(xs, gone)| < |xs|
  {
    FilterOutMembers(xs[..|xs| - 1], gone);
    if i < |xs| - 1 {
      FilterOutDrops(xs[..|xs| - 1], gone, i);
    }
  }

  /** A prune shortens the list exactly if it meets a lapsed entry. */
  lemma PruneShortensIff(s: State, now: U32, max: U32)
    ensures |PruneOnce(s, now, max).state.list| <= |s.list|
    ensures |PruneOnce(s, now, max).state.list| < |s.list|
            <==> exists i :: 0 <= i < Examined(s.list, max) && Lapsed(s, now, s.list[i])
  {
    hide FilterOut, Expired;
    var k := Examined(s.list, max);
    var front, gone := s.list[..k], Gone(s.records, now, s.list[..k]);
    FilterOutMembers(front, gone);
    if i :| 0 <= i < k && Lapsed(s, now, s.list[i]) {
      assert front[i] == s.list[i];
      FilterOutDrops(front, gone, i);
    } else {
      forall a | a in front ensures a !in gone {
        var i :| 0 <= i < k && front[i] == a;
        assert !Lapsed(s, now, s.list[i]);
      }
      FilterOutNothing(front, gone);
    }
  }

  lemma PrunedByIff(s: State, tx: Tx)
    ensures PrunedBy(s, tx) >= 0 && (PrunedBy(s, tx) > 0 <==> MeetsLapsed(s, tx))
  {
    hide PruneOnce;
    if tx.call.Prune? {
      PruneShortensIff(s, tx.env.now, tx.call.max);
    }
  }

  lemma {:induction false} PrunedInIff(s: State, txs: seq<Tx>)
    ensures PrunedIn(s, txs) >= 0 && (PrunedIn(s, txs) == 0 <==> NeverMeetsLapsed(s, txs))
    decreases |txs|
  {
    hide PrunedBy, MeetsLapsed, Step;
    if txs != [] {
      PrunedByIff(s, txs[0]);
      PrunedInIff(Step(s, txs[0]), txs[1..]);
    }
  }

  /** In every reachable state the counter is the length of the list plus everything ever pruned: it is
      the documented length of the list exactly when no prune has met a lapsed entry. */
  lemma CounterCountsPruned(txs: seq<Tx>)
    ensures var s := Run(EMPTY, txs);
            && Inv(s)
            && s.count == |s.list| + PrunedIn(EMPTY, txs)
            && (s.count == |s.list| <==> NeverMeetsLapsed(EMPTY, txs))
  {
    RunKeepsInv(EMPTY, txs);
    PrunedInIff(EMPTY, txs);
  }

  /** An approval that expires at the next ledger, where a prune drops it. */
  function ExpiringRun(admin: Address, a: Address, code: Code, now: U32): seq<Tx>
    requires now < U32_MAX
  {
    var (here, next) := (Env(now, {admin}), Env(now + 1, {admin}));
    [Tx(here, Role(Initialize(admin))), Tx(here, Add(admin, Entry(a, code, now + 1))), Tx(next, Prune(admin, 0))]
  }

  /** After it the list is empty and the counter still one. */
  lemma PruneLeavesCounterBehind(admin: Address, a: Address, code: Code, now: U32)
    requires now < U32_MAX && Normalize(code).Ok?
    ensures var s := Run(EMPTY, ExpiringRun(admin, a, code, now));
            s.list == [] && s.count == 1 && PrunedIn(EMPTY, ExpiringRun(admin, a, code, now)) == 1
  {
    hide Normalize;
    var txs := ExpiringRun(admin, a, code, now);
    var s1 := Step(EMPTY, txs[0]);
    var s2 := Step(s1, txs[1]);
    var s3 := Step(s2, txs[2]);
    assert s2.list == [a] && [a][..0] == [] && [a][..1] == [a];
    assert s3.list == FilterOut([a], Gone(s2.records, now + 1, [a])) + [];
    assert txs[1..] == [txs[1], txs[2]] && [txs[1], txs[2]][1..] == [txs[2]] && [txs[2]][1..] == [];
    assert Run(s2, [txs[2]]) == Run(s3, []);
    RunKeepsInv(EMPTY, txs);
  }

  // ---- what a prune publishes ----

  lemma {:induction false} ExpiriesCount(
    records: map<Address, KycRecord>, now: U32, xs: seq<Address>, gone: set<Address>)
    requires forall a :: a in xs ==> a in records && (a in gone <==> Expired(records[a], now))
    ensures |Expiries(records, now, xs)| + |FilterOut(xs, gone)| == |xs|
  {
    if xs != [] {
      ExpiriesCount(records, now, xs[..|xs| - 1], gone);
    }
  }

  /** In a reachable state a prune publishes one event for each entry it drops. */
  lemma PruneAnnouncesEach(s: State, now: U32, max: U32)
    requires Inv(s)
    ensures var t := PruneOnce(s, now, max).state;
            |t.events| - |s.events| == |s.list| - |t.list|
  {
    hide FilterOut, Expiries, Canonical, Blocking, NoRepeats, Expired;
    var front := s.list[..Examined(s.list, max)];
    assert forall a :: a in front ==> a in s.list;
    ExpiriesCount(s.records, now, front, Gone(s.records, now, front));
  }

  /** Removing a listed address never saturates the counter. */
  lemma RemoveNeverSaturates(txs: seq<Tx>, env: Env, admin: Address, a: Address)
    ensures var s := Run(EMPTY, txs); CallOutcome(s, env, Remove(admin, a)).Commit? ==> s.count > 0
  {
    RunKeepsInv(EMPTY, txs);
    RemoveKeepsInv(Run(EMPTY, txs), env.now, admin, a);
  }

  // ---- the batch is a fold ----

  function AddEach(s: State, env: Env, admin: Address, entries: seq<Entry>): Outcome<State, int>
    decreases |entries|
  {
    if entries == [] then Commit(s, 0)
    else
      match CallOutcome(s, env, Add(admin, entries[0]))
      case Abort(e) => Abort(e)
      case Commit(t, _) => AddEach(t, env, admin, entries[1..])
  }

  lemma {:induction false} ApproveAllIsFold(s: State, env: Env, admin: Address, entries: seq<Entry>)
    requires AdminError(s.roles, env.auth, admin).None?
    ensures ApproveAll(s, env.now, entries) == AddEach(s, env, admin, entries)
    decreases |entries|
  {
    hide Normalize;
    if entries != [] {
      var o := Approve(s, env.now, entries[0]);
      if o.Commit? {
        ApproveAllIsFold(o.state, env, admin, entries[1..]);
      }
    }
  }

  /** A non-empty batch ends exactly as adding its entries one by one: the same state, or the same error. */
  lemma AddBatchIsFold(s: State, env: Env, admin: Address, entries: seq<Entry>)
    requires entries != []
    ensures CallOutcome(s, env, AddBatch(admin, entries)) == AddEach(s, env, admin, entries)
  {
    hide Approve;
    if AdminError(s.roles, env.auth, admin).None? {
      ApproveAllIsFold(s, env, admin, entries);
    }
  }

  // ---- the gate over time ----

  /** For a fixed stored state, the ledgers at which an address is allowed have no gap, and start and
      end exactly at its unlock and expiry ledgers. */
  lemma AllowedLedgersFormInterval(s: State, a: Address, from: U32, between: U32, to: U32)
    requires from <= between <= to && IsAllowed(s, from, a) && IsAllowed(s, to, a)
    ensures IsAllowed(s, between, a)
    ensures Unlock(s, a) <= from && (s.records[a].expiresAt != 0 ==> to < s.records[a].expiresAt)
    ensures Unlock(s, a) <= U32_MAX ==> IsAllowed(s, Unlock(s, a), a)
    ensures var expiry := s.records[a].expiresAt;
            expiry > 0 ==> IsAllowed(s, expiry - 1, a) && !IsAllowed(s, expiry, a)
  {
  }

  /** The calls that approve or reinstate `a` itself. */
  predicate Lifts(call: Call, a: Address) {
    || (call.Add? && call.entry.address == a)
    || (call.AddBatch? && exists i :: 0 <= i < |call.entries| && call.entries[i].address == a)
    || (call.Reinstate? && call.address == a)
  }

  lemma {:induction false} ApproveAllFrame(s: State, now: U32, entries: seq<Entry>, a: Address)
    requires forall i :: 0 <= i < |entries| ==> entries[i].address != a
    ensures var o := ApproveAll(s, now, entries);
            o.Commit? ==> && (a in o.state.records <==> a in s.records)
                          && (a in s.records ==> o.state.records[a] == s.records[a])
    decreases |entries|
  {
    hide Normalize;
    if entries != [] {
      var o := Approve(s, now, entries[0]);
      if o.Commit? {
        ApproveAllFrame(o.state, now, entries[1..], a);
      }
    }
  }

  // ---- what one call undoes of another ----

  /** An approval that commits lets its address pass at once, unless its jurisdiction is blocked or its
      holding period still runs; in the canonical form of the code it was given. */
  lemma ApprovalTakesEffect(s: State, now: U32, e: Entry)
    ensures var o := Approve(s, now, e);
            o.Commit? ==>
              && Normalize(e.jurisdiction).Ok?
              && (IsAllowed(o.state, now, e.address) <==>
                    !IsBlocked(s, Normalize(e.jurisdiction).value) && Unlock(s, e.address) <= now)
  {
    hide Normalize;
  }

  /** Suspending an approved address and reinstating it leaves nothing changed but the log. */
  lemma ReinstateUndoesSuspend(s: State, env: Env, admin: Address, a: Address)
    requires AdminError(s.roles, env.auth, admin).None? && a in s.records && s.records[a].status == Approved
    ensures var o := CallOutcome(s, env, Suspend(admin, a));
            o.Commit? && CallOutcome(o.state, env, Reinstate(admin, a))
                         == Commit(s.(events := s.events + [SuspensionMade(a), ReinstatementMade(a)]), 0)
  {
    assert s.events + [SuspensionMade(a)] + [ReinstatementMade(a)]
        == s.events + [SuspensionMade(a), ReinstatementMade(a)];
    assert s.records[a := s.records[a].(status := Suspended)][a := s.records[a]] == s.records;
  }

  /** Removing a newly approved address leaves nothing changed but the append cursor and the log. */
  lemma RemoveUndoesAdd(s: State, env: Env, admin: Address, e: Entry)
    requires Inv(s) && e.address !in s.records
    requires CallOutcome(s, env, Add(admin, e)).Commit?
    ensures CallOutcome(CallOutcome(s, env, Add(admin, e)).state, env, Remove(admin, e.address))
         == Commit(s.(appends := s.appends + 1,
                      events := s.events + [ApprovalEvent(s.records, e, Normalize(e.jurisdiction).value),
                                            RemovalMade(e.address)]), 0)
  {
    hide Normalize, NoRepeats, FilterOut, Canonical, Blocking;
    var a := e.address;
    var t := CallOutcome(s, env, Add(admin, e)).state;
    var announced := ApprovalEvent(s.records, e, Normalize(e.jurisdiction).value);
    assert s.events + [announced] + [RemovalMade(a)] == s.events + [announced, RemovalMade(a)];
    assert t.records - {a} == s.records;
    FilterOutAppended(s.list, a);
  }

  /** While a jurisdiction is blocked nobody recorded in it passes, and everybody else is judged as
      before. */
  lemma BlockShutsOutExactly(s: State, env: Env, admin: Address, raw: Code, a: Address, now: U32)
    requires CallOutcome(s, env, Block(admin, raw)).Commit?
    ensures Normalize(raw).Ok?
    ensures IsAllowed(CallOutcome(s, env, Block(admin, raw)).state, now, a) <==>
              IsAllowed(s, now, a) && s.records[a].jurisdiction != Normalize(raw).value
  {
    hide Normalize;
  }

  /** Blocking a jurisdiction that is not blocked, and unblocking it, leaves nothing changed but the log. */
  lemma UnblockUndoesBlock(s: State, env: Env, admin: Address, raw: Code)
    requires Inv(s) && CallOutcome(s, env, Block(admin, raw)).Commit?
    requires Normalize(raw).Ok? && Normalize(raw).value !in s.blocked
    ensures CallOutcome(CallOutcome(s, env, Block(admin, raw)).state, env, Unblock(admin, raw))
         == Commit(s.(events := s.events + [JurisdictionBlocked(Normalize(raw).value),
                                            JurisdictionUnblocked(Normalize(raw).value)]), 0)
  {
    hide Normalize, NoRepeats, FilterOut, Canonical, Listing;
    var code := Normalize(raw).value;
    assert s.blocked[code := true] - {code} == s.blocked;
    assert s.events + [JurisdictionBlocked(code)] + [JurisdictionUnblocked(code)]
        == s.events + [JurisdictionBlocked(code), JurisdictionUnblocked(code)];
    FilterOutAppended(s.blockedList, code);
  }

  // ---- when repeated pruning ends ----

  /** The entries that are not lapsed, in order. */
  function Live(s: State, now: U32): seq<Address> {
    FilterOut(s.list, Gone(s.records, now, s.list))
  }

  /** The state after `n` prunes with the same bound at the same ledger. */
  function PruneTimes(s: State, now: U32, max: U32, n: nat): State
    decreases n
  {
    if n == 0 then s else PruneTimes(PruneOnce(s, now, max).state, now, max, n - 1)
  }

  /** What the call after `n` earlier ones returns. */
  function Returns(s: State, now: U32, max: U32, n: nat): int {
    PruneOnce(PruneTimes(s, now, max, n), now, max).value
  }

  /** What a caller can check: fewer live entries than the bound, or as many and a live one last. */
  predicate Converges(s: State, now: U32, max: U32) {
    |Live(s, now)| < max || (|Live(s, now)| == max && s.list != [] && !Lapsed(s, now, s.list[|s.list| - 1]))
  }

  lemma {:induction false} FilterOutTwice<T>(xs: seq<T>, g: set<T>, h: set<T>)
    ensures FilterOut(FilterOut(xs, g), h) == FilterOut(xs, g + h)
  {
    if xs != [] {
      var init, x := xs[..|xs| - 1], xs[|xs| - 1];
      FilterOutTwice(init, g, h);
      var kept := FilterOut(init, g);
      if x in g {
        assert FilterOut(xs, g) == kept;
      } else {
        assert FilterOut(xs, g) == kept + [x] && (kept + [x])[..|kept|] == kept;
      }
    }
  }

  /** A prune drops lapsed entries only: those live at its ledger or any later one, and their order, stay. */
  lemma PruneKeepsLive(s: State, now: U32, max: U32, later: U32)
    requires Inv(s) && now <= later
    ensures var t := PruneOnce(s, now, max).state;
            && Inv(t) && Live(t, later) == Live(s, later)
            && forall a :: a in t.list ==> (Lapsed(t, later, a) <==> Lapsed(s, later, a))
  {
    hide PruneOnce, FilterOut, Inv;
    PruneKeepsInv(s, now, max);
    assert Listing(s) by { PruneNeedsListing(s); }
    PruneFilters(s, now, max);
    var t := PruneOnce(s, now, max).state;
    var gone, all := Gone(s.records, now, s.list[..Examined(s.list, max)]), Gone(s.records, later, s.list);
    FilterOutMembers(s.list, gone);
    FilterOutTwice(s.list, gone, Gone(t.records, later, t.list));
    FilterOutSame(s.list, gone + Gone(t.records, later, t.list), all);
  }

  lemma PruneNeedsListing(s: State)
    requires Inv(s)
    ensures Listing(s)
  {
  }

  lemma LiveLength(s: State, now: U32)
    requires Listing(s)
    ensures |Live(s, now)| <= |s.list|
    ensures (exists i :: 0 <= i < |s.list| && Lapsed(s, now, s.list[i])) ==> |Live(s, now)| < |s.list|
  {
    var all := Gone(s.records, now, s.list);
    FilterOutMembers(s.list, all);
    if i :| 0 <= i < |s.list| && Lapsed(s, now, s.list[i]) {
      FilterOutDrops(s.list, all, i);
    }
  }

  /** If the first `m` entries are all live, there are at least `m` live ones, and one more if a later
      entry is live. */
  lemma LiveFront(s: State, now: U32, m: nat)
    requires Listing(s) && m <= |s.list|
    requires forall i :: 0 <= i < m ==> !Lapsed(s, now, s.list[i])
    ensures |Live(s, now)| >= m
    ensures m < |s.list| && !Lapsed(s, now, s.list[|s.list| - 1]) ==> |Live(s, now)| > m
  {
    var all, n := Gone(s.records, now, s.list), |s.list|;
    FrontNotGone(s, now, m);
    hide FilterOut, NoRepeats, Gone;
    var front, back := s.list[..m], s.list[m..];
    assert s.list == front + back;
    FilterOutConcat(front, back, all);
    FilterOutNothing(front, all);
    if m < n && !Lapsed(s, now, s.list[n - 1]) {
      assert back[|back| - 1] == s.list[n - 1];
      FilterOutKeepsLast(back, all);
    }
  }

  lemma FrontNotGone(s: State, now: U32, m: nat)
    requires m <= |s.list| && forall i :: 0 <= i < m ==> !Lapsed(s, now, s.list[i])
    ensures forall a :: a in s.list[..m] ==> a !in Gone(s.records, now, s.list)
    ensures forall a :: Lapsed(s, now, a) || a !in Gone(s.records, now, s.list)
  {
    forall a | a in s.list[..m] ensures !Lapsed(s, now, a) {
      var i :| 0 <= i < m && s.list[..m][i] == a;
      assert s.list[i] == a;
    }
  }

  lemma FilterOutKeepsLast<T>(xs: seq<T>, gone: set<T>)
    requires xs != [] && xs[|xs| - 1] !in gone
    ensures |FilterOut(xs, gone)| > 0
  {
  }

  /** The last entry is beyond the bound and stays last. */
  lemma LastStays(s: State, now: U32, max: U32)
    requires 0 < max < |s.list|
    ensures var t := PruneOnce(s, now, max).state;
            && t.list != [] && t.list[|t.list| - 1] == s.list[|s.list| - 1]
            && t.list[|t.list| - 1] in t.list
  {
    hide FilterOut, Gone;
  }

  /** While more entries remain than the bound, a converging list gets shorter and still converges. */
  lemma ConvergingShrinks(s: State, now: U32, max: U32)
    requires Inv(s) && max > 0 && Converges(s, now, max) && |s.list| > max
    ensures var t := PruneOnce(s, now, max).state; Converges(t, now, max) && |t.list| < |s.list|
  {
    hide Live, Inv, FilterOut, NoRepeats, Gone, PruneOnce;
    PruneNeedsListing(s);
    if forall i :: 0 <= i < max ==> !Lapsed(s, now, s.list[i]) {
      LiveFront(s, now, max);
      assert false;
    }
    var i :| 0 <= i < max && Lapsed(s, now, s.list[i]);
    PruneKeepsLive(s, now, max, now);
    LastStays(s, now, max);
    PruneShortensIff(s, now, max);
  }

  /** A list that does not converge at some ledger keeps more entries than the bound, and prunes up to that
      ledger do not make it converge. */
  lemma NonConvergingStays(s: State, now: U32, max: U32, later: U32)
    requires Inv(s) && max > 0 && now <= later && !Converges(s, later, max)
    ensures |s.list| > max && !Converges(PruneOnce(s, now, max).state, later, max)
  {
    hide FilterOut, NoRepeats, Gone, Canonical, Blocking, PruneOnce, Expired;
    LiveLength(s, later);
    if |Live(s, later)| == max {
      assert s.list != [] && Lapsed(s, later, s.list[|s.list| - 1]);
    }
    PruneKeepsLive(s, now, max, later);
    LastStays(s, now, max);
    hide Live, Inv, PruneOnce;
  }

  /** A call that returns 0 has examined everything and leaves no lapsed entry. */
  lemma ZeroMeansClean(s: State, env: Env, admin: Address, max: U32)
    requires Inv(s) && CallOutcome(s, env, Prune(admin, max)).Result() == Ok(0)
    ensures var t := CallOutcome(s, env, Prune(admin, max)).state;
            forall a :: a in t.list ==> !Lapsed(t, env.now, a)
  {
    var now := env.now;
    assert CallOutcome(s, env, Prune(admin, max)) == PruneOnce(s, now, max);
    ZeroExaminesAll(s, now, max);
    hide FilterOut, NoRepeats, Canonical, Blocking, PruneOnce, CallOutcome;
    PruneFilters(s, now, max);
    PruneKeepsLive(s, now, max, now);
    FilterOutMembers(s.list, Gone(s.records, now, s.list));
  }

  lemma ZeroExaminesAll(s: State, now: U32, max: U32)
    requires PruneOnce(s, now, max).value == 0
    ensures s.list[..Examined(s.list, max)] == s.list
  {
  }

  lemma ReturnsSteps(s: State, now: U32, max: U32)
    requires max > 0
    ensures |s.list| <= max ==> Returns(s, now, max, 0) == 0
    ensures forall n: nat :: Returns(s, now, max, n + 1) == Returns(PruneOnce(s, now, max).state, now, max, n)
  {
  }

  lemma {:induction false} ConvergingEnds(s: State, now: U32, max: U32) returns (n: nat)
    requires Inv(s) && max > 0 && Converges(s, now, max)
    ensures Returns(s, now, max, n) == 0 && n <= |s.list| - |Live(s, now)|
    decreases |s.list|
  {
    hide Inv, Live, Converges, Gone, FilterOut, Returns, PruneOnce, NoRepeats;
    PruneNeedsListing(s);
    LiveLength(s, now);
    ReturnsSteps(s, now, max);
    if |s.list| <= max {
      n := 0;
    } else {
      ConvergingShrinks(s, now, max);
      PruneKeepsLive(s, now, max, now);
      var m := ConvergingEnds(PruneOnce(s, now, max).state, now, max);
      n := m + 1;
    }
  }

  lemma {:induction false} NonConvergingNeverEnds(s: State, now: U32, max: U32, n: nat)
    requires Inv(s) && max > 0 && !Converges(s, now, max)
    ensures Returns(s, now, max, n) > 0
    decreases n
  {
    hide Inv, Converges, FilterOut, Gone;
    NonConvergingStays(s, now, max, now);
    if n > 0 {
      PruneKeepsLive(s, now, max, now);
      NonConvergingNeverEnds(PruneOnce(s, now, max).state, now, max, n - 1);
    }
  }

  lemma PruningEndsIff(s: State, now: U32, max: U32)
    requires Inv(s) && max > 0
    ensures (exists n: nat :: Returns(s, now, max, n) == 0) <==> Converges(s, now, max)
    ensures Converges(s, now, max) ==>
              exists n: nat :: n <= |s.list| - |Live(s, now)| && Returns(s, now, max, n) == 0
  {
    hide Inv, Converges, Live, Returns;
    if Converges(s, now, max) {
      var n := ConvergingEnds(s, now, max);
    } else {
      forall n: nat ensures Returns(s, now, max, n) > 0 {
        NonConvergingNeverEnds(s, now, max, n);
      }
    }
  }

  // ---- in calls ----

  function Repeat(tx: Tx, n: nat): seq<Tx> {
    if n == 0 then [] else [tx] + Repeat(tx, n - 1)
  }

  /** What `prune_expired` returns when called after `n` earlier calls of it with the same bound at the same
      ledger. */
  function PruneReturn(s: State, env: Env, admin: Address, max: U32, n: nat): Result<int> {
    var tx := Tx(env, Prune(admin, max));
    CallOutcome(Run(s, Repeat(tx, n)), env, tx.call).Result()
  }

  lemma PruneCall(s: State, env: Env, admin: Address, max: U32)
    requires AdminError(s.roles, env.auth, admin).None?
    ensures CallOutcome(s, env, Prune(admin, max)) == PruneOnce(s, env.now, max)
    ensures PruneOnce(s, env.now, max).state.roles == s.roles
  {
    hide FilterOut, Gone, Expiries;
  }

  lemma {:induction false} PruneReturns(s: State, env: Env, admin: Address, max: U32, n: nat)
    requires AdminError(s.roles, env.auth, admin).None?
    ensures PruneReturn(s, env, admin, max, n) == Ok(Returns(s, env.now, max, n))
    decreases n
  {
    hide PruneOnce, CallOutcome;
    PruneCall(s, env, admin, max);
    if n > 0 {
      var tx := Tx(env, Prune(admin, max));
      assert Repeat(tx, n)[1..] == Repeat(tx, n - 1);
      PruneReturns(Step(s, tx), env, admin, max, n - 1);
    }
  }

  /** "Call again until it returns 0" ends exactly when fewer live entries than the bound are listed, or
      as many and a live one is last; it then takes at most one call per lapsed entry and one more. */
  lemma RepeatedPruningEndsIff(s: State, env: Env, admin: Address, max: U32)
    requires Inv(s) && max > 0 && AdminError(s.roles, env.auth, admin).None?
    ensures (exists n: nat :: PruneReturn(s, env, admin, max, n) == Ok(0)) <==> Converges(s, env.now, max)
    ensures Converges(s, env.now, max) ==>
              exists n: nat :: n <= |s.list| - |Live(s, env.now)| && PruneReturn(s, env, admin, max, n) == Ok(0)
  {
    hide Inv, Converges, Live, Returns, PruneReturn;
    PruningEndsIff(s, env.now, max);
    forall n: nat ensures PruneReturn(s, env, admin, max, n) == Ok(Returns(s, env.now, max, n)) {
      PruneReturns(s, env, admin, max, n);
    }
  }

  /** A contract initialized by `admin`, which then approves two addresses for good. */
  function TwoLiveRun(env: Env, admin: Address, a: Address, b: Address, code: Code): seq<Tx> {
    [Tx(env, Role(Initialize(admin))), Tx(env, Add(admin, Entry(a, code, 0))), Tx(env, Add(admin, Entry(b, code, 0)))]
  }

  lemma TwoLiveState(now: U32, admin: Address, a: Address, b: Address, code: Code)
    requires a != b && Normalize(code).Ok?
    ensures var env := Env(now, {admin});
            var s := Run(EMPTY, TwoLiveRun(env, admin, a, b, code));
            && s.roles.admin == Some(admin) && s.list == [a, b]
            && s.records.Keys == {a, b} && s.records[a].expiresAt == s.records[b].expiresAt == 0
  {
    hide Normalize;
    var env := Env(now, {admin});
    var txs := TwoLiveRun(env, admin, a, b, code);
    var s2 := Step(Step(EMPTY, txs[0]), txs[1]);
    assert s2.list == [a] && s2.records.Keys == {a};
    assert txs[1..] == [txs[1], txs[2]] && [txs[1], txs[2]][1..] == [txs[2]] && [txs[2]][1..] == [];
    assert Run(s2, [txs[2]]) == Run(Step(s2, txs[2]), []);
  }

  /** After it, pruning one entry at a time never returns 0, however often it is called. */
  lemma TwoLiveEntriesNeverEnd(now: U32, admin: Address, a: Address, b: Address, code: Code, n: nat)
    requires a != b && Normalize(code).Ok?
    ensures var env := Env(now, {admin});
            var s := Run(EMPTY, TwoLiveRun(env, admin, a, b, code));
            Inv(s) && PruneReturn(s, env, admin, 1, n).Ok? && PruneReturn(s, env, admin, 1, n).value > 0
  {
    hide TwoLiveRun, Inv, FilterOut, PruneReturn, Returns;
    var env := Env(now, {admin});
    var s := Run(EMPTY, TwoLiveRun(env, admin, a, b, code));
    TwoLiveState(now, admin, a, b, code);
    CounterCountsPruned(TwoLiveRun(env, admin, a, b, code));
    assert s.list[0] == a && s.list[1] == b;
    FilterOutNothing(s.list, Gone(s.records, now, s.list));
    NonConvergingNeverEnds(s, now, 1, n);
    PruneReturns(s, env, admin, 1, n);
  }
}
