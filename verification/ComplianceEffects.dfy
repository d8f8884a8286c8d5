/** What each call of the compliance contract does for its caller: when it is refused and with which error, and
    what a committed one leaves, in terms of its arguments and of what everybody can read. */
module ComplianceEffects {
  import opened Soroban
  import opened Paging
  import opened Compliance
  import opened ComplianceProofs

  predicate Malformed(raw: Code) {
    Normalize(raw).Err?
  }

  /** The record of `a` is `r`, and nobody else's has changed. */
  ghost predicate OnlyRecord(s: State, t: State, a: Address, r: KycRecord) {
    && t.records.Keys == s.records.Keys + {a} && t.records[a] == r
    && forall x :: x in s.records && x != a ==> t.records[x] == s.records[x]
  }

  /** Roles, jurisdictions and holding periods are as they were. */
  ghost predicate RestStays(s: State, t: State) {
    && t.roles == s.roles && t.blocked == s.blocked && t.blockedList == s.blockedList
    && t.minHold == s.minHold && t.firstAcquired == s.firstAcquired
  }

  // ---- jurisdiction codes ----

  /** What normalisation accepts and returns: spaces do not matter wherever they are ... */
  lemma {:induction false} SpacesDoNotMatter(front: Code, back: Code)
    ensures Normalize(front + [32] + back) == Normalize(front + back)
  {
    StripConcat(front + [32], back);
    StripConcat(front, [32]);
    StripConcat(front, back);
    assert [32][..0] == [] && StripSpaces([32]) == [];
  }

  lemma {:induction false} StripConcat(front: Code, back: Code)
    ensures StripSpaces(front + back) == StripSpaces(front) + StripSpaces(back)
  {
    if back == [] {
      assert front + back == front;
    } else {
      var last := |back| - 1;
      assert (front + back)[..|front| + last] == front + back[..last];
      StripConcat(front, back[..last]);
    }
  }

  lemma {:induction false} StripNothing(raw: Code)
    requires 32 !in raw
    ensures StripSpaces(raw) == raw
  {
    if raw != [] {
      assert raw[|raw| - 1] in raw;
      StripNothing(raw[..|raw| - 1]);
    }
  }

  predicate Letter(b: Byte) {
    LowerCase(b) || UpperCase(b)
  }

  predicate LowerCase(b: Byte) {
    'a' as int <= b <= 'z' as int
  }

  predicate UpperCase(b: Byte) {
    'A' as int <= b <= 'Z' as int
  }

  /** ... and without any it accepts exactly two letters and returns them in upper case. */
  lemma NormalizeExact(raw: Code)
    requires 32 !in raw
    ensures Malformed(raw) <==> !(|raw| == 2 && Letter(raw[0]) && Letter(raw[1]))
    ensures Malformed(raw) ==> Normalize(raw) == Err(InvalidJurisdiction)
    ensures !Malformed(raw) ==>
              && |Normalize(raw).value| == 2
              && forall i :: 0 <= i < 2 ==>
                   Normalize(raw).value[i] == if LowerCase(raw[i]) then raw[i] - 'a' as int + 'A' as int else raw[i]
  {
    StripNothing(raw);
    hide StripSpaces;
  }

  // ---- approvals and records ----

  /** An approval writes a whole new record, whatever was there, and lists its address if it had none. */
  lemma AddEffect(s: State, env: Env, admin: Address, a: Address, jurisdiction: Code, expiresAt: U32)
    ensures var o := CallOutcome(s, env, Add(admin, Entry(a, jurisdiction, expiresAt)));
            && Refuses(o, AdminRefusal(s.roles, env.auth, admin,
                 When(expiresAt != 0 && expiresAt <= env.now, InvalidExpiry,
                 When(Malformed(jurisdiction), InvalidJurisdiction,
                 When(a !in s.records && s.appends == 200 * 0x1_0000_0000, HostTrap,
                 When(a !in s.records && s.count == U32_MAX, HostTrap, None))))))
            && (o.Commit? ==>
                  var code := Normalize(jurisdiction).value;
                  && OnlyRecord(s, o.state, a, KycRecord(a, Status.Approved, code, env.now, expiresAt))
                  && RestStays(s, o.state)
                  && o.state.list == (if a in s.records then s.list else s.list + [a])
                  && o.state.count == s.count + (if a in s.records then 0 else 1)
                  && o.state.appends == s.appends + (if a in s.records then 0 else 1)
                  && |o.state.events| == |s.events| + 1 && o.state.events[..|s.events|] == s.events
                  && o.state.events[|s.events|] == (
                       if a in s.records
                       then ApprovalMade(a, code, expiresAt, s.records[a].jurisdiction, s.records[a].expiresAt,
                                         s.records[a].status == Suspended)
                       else ApprovalMade(a, code, expiresAt, code, 0, false)))
  {
    hide StripSpaces;
  }

  /** A batch without entries makes the admin's checks and changes nothing; any other is a sequence of additions. */
  lemma EmptyBatchEffect(s: State, env: Env, admin: Address)
    ensures var o := CallOutcome(s, env, AddBatch(admin, []));
            Refuses(o, AdminRefusal(s.roles, env.auth, admin, None)) && (o.Commit? ==> o.state == s)
  {
  }

  lemma HandoverEffect(s: State, env: Env, role: RoleCall)
    ensures match RoleOutcome(s.roles, env.auth, role)
            case Abort(e) => CallOutcome(s, env, Role(role)) == Abort(e)
            case Commit(roles, e) =>
              CallOutcome(s, env, Role(role)) == Commit(s.(roles := roles, events := s.events + [Handover(e)]), 0)
  {
  }

  lemma SuspendEffect(s: State, env: Env, admin: Address, a: Address)
    ensures var o := CallOutcome(s, env, Suspend(admin, a));
            && Refuses(o, AdminRefusal(s.roles, env.auth, admin, When(a !in s.records, RecordNotFound, None)))
            && (o.Commit? ==>
                  && OnlyRecord(s, o.state, a, s.records[a].(status := Suspended)) && RestStays(s, o.state)
                  && o.state.list == s.list && o.state.count == s.count
                  && o.state.events == s.events + [SuspensionMade(a)])
  {
  }

  lemma ReinstateEffect(s: State, env: Env, admin: Address, a: Address)
    ensures var o := CallOutcome(s, env, Reinstate(admin, a));
            && Refuses(o, AdminRefusal(s.roles, env.auth, admin,
                 When(a !in s.records, RecordNotFound,
                 When(a in s.records && s.records[a].status != Suspended, NotSuspended, None))))
            && (o.Commit? ==>
                  && OnlyRecord(s, o.state, a, s.records[a].(status := Status.Approved)) && RestStays(s, o.state)
                  && o.state.list == s.list && o.state.count == s.count
                  && o.state.events == s.events + [ReinstatementMade(a)])
  {
  }

  /** In every reachable state a removal takes out the record and its one place in the list, and lowers the counter. */
  lemma RemoveEffect(txs: seq<Tx>, env: Env, admin: Address, a: Address)
    ensures var s := Run(EMPTY, txs);
            var o := CallOutcome(s, env, Remove(admin, a));
            && Refuses(o, AdminRefusal(s.roles, env.auth, admin, When(a !in s.records, RecordNotFound, None)))
            && (o.Commit? ==>
                  && o.state.records == s.records - {a} && RestStays(s, o.state)
                  && TakenOut(s.list, o.state.list, a)
                  && o.state.count == s.count - 1 && o.state.events == s.events + [RemovalMade(a)])
  {
    RunKeepsInv(EMPTY, txs);
    hide Run, Canonical, Blocking, Listing, FilterOut, RestStays, TakenOut;
    var s := Run(EMPTY, txs);
    if a in s.records {
      ListedOnce(s, a);
    }
    RemovedRest(s, env, admin, a);
  }

  lemma RemovedRest(s: State, env: Env, admin: Address, a: Address)
    ensures var o := CallOutcome(s, env, Remove(admin, a)); o.Commit? ==> RestStays(s, o.state)
  {
    hide FilterOut;
  }

  /** `ys` is `xs` without `a` at one place where it was. */
  ghost predicate TakenOut(xs: seq<Address>, ys: seq<Address>, a: Address) {
    exists i :: 0 <= i < |xs| && xs[i] == a && ys == xs[..i] + xs[i + 1..]
  }

  lemma ListedOnce(s: State, a: Address)
    requires Listing(s) && a in s.records
    ensures 0 < s.count && TakenOut(s.list, FilterOut(s.list, {a}), a)
  {
    var i :| 0 <= i < |s.list| && s.list[i] == a;
    FilterOutAt(s.list, i);
  }

  lemma AloneInTheList<T>(xs: seq<T>, i: nat)
    requires NoRepeats(xs) && i < |xs|
    ensures xs[i] !in xs[..i] && xs[i] !in xs[i + 1..] && xs == xs[..i] + [xs[i]] + xs[i + 1..]
  {
  }

  /** Taking the member at `i` out of a list without repeats. */
  lemma FilterOutAt<T>(xs: seq<T>, i: nat)
    requires NoRepeats(xs) && i < |xs|
    ensures FilterOut(xs, {xs[i]}) == xs[..i] + xs[i + 1..]
  {
    hide FilterOut, NoRepeats;
    AloneInTheList(xs, i);
    var x, front, back := xs[i], xs[..i], xs[i + 1..];
    FilterOutConcat(front + [x], back, {x});
    FilterOutNext(front, x, {x});
    FilterOutNothing(front, {x});
    FilterOutNothing(back, {x});
    assert front + [] == front;
  }

  // ---- pruning ----

  /** In every reachable state a prune bounded by `max` (0 for no bound) drops exactly the expired among the first
      entries it examines, with their records, keeps the order of the rest, leaves the counter alone, and returns
      how many entries it did not examine. */
  lemma PruneEffect(txs: seq<Tx>, env: Env, admin: Address, max: U32)
    ensures var s := Run(EMPTY, txs);
            var o := CallOutcome(s, env, Prune(admin, max));
            var k := if max == 0 || |s.list| <= max then |s.list| else max;
            && Refuses(o, AdminRefusal(s.roles, env.auth, admin, None))
            && (o.Commit? ==>
                  && o.value == |s.list| - k && o.state.count == s.count && RestStays(s, o.state)
                  && (forall i :: 0 <= i < |s.list| ==>
                        && s.list[i] in s.records
                        && (s.list[i] in o.state.list <==> i >= k || !ExpiredAt(s.records[s.list[i]], env.now)))
                  && (exists picks :: Picks(s.list, o.state.list, picks))
                  && o.state.records.Keys == (set a | a in o.state.list)
                  && (forall a :: a in o.state.records ==> a in s.records && o.state.records[a] == s.records[a])
                  && o.state.events == s.events + Expiries(s.records, env.now, s.list[..k]))
  {
    RunKeepsInv(EMPTY, txs);
    var s := Run(EMPTY, txs);
    hide Run, Canonical, Blocking;
    var o := CallOutcome(s, env, Prune(admin, max));
    if o.Commit? {
      PruneCall(s, env, admin, max);
      PruneExact(s, env.now, max);
      PruneKeepsInv(s, env.now, max);
      ListedAreRecorded(o.state);
    }
    hide PruneOnce, Listing, Picks, ExpiredAt;
  }

  lemma ListedAreRecorded(s: State)
    requires Listing(s)
    ensures s.records.Keys == set a | a in s.list
  {
  }

  /** From `expiresAt` on, unless that is 0. */
  predicate ExpiredAt(r: KycRecord, now: U32) {
    r.expiresAt != 0 && r.expiresAt <= now
  }

  /** `ys` is `xs` at the ascending positions `picks`. */
  ghost predicate Picks<T(!new)>(xs: seq<T>, ys: seq<T>, picks: seq<nat>) {
    && |picks| == |ys|
    && (forall j :: 0 <= j < |ys| ==> picks[j] < |xs| && ys[j] == xs[picks[j]])
    && (forall j, k :: 0 <= j < k < |picks| ==> picks[j] < picks[k])
  }

  lemma PicksNext<T(!new)>(xs: seq<T>, x: T, ys: seq<T>, picks: seq<nat>)
    requires Picks(xs, ys, picks)
    ensures Picks(xs + [x], ys, picks) && Picks(xs + [x], ys + [x], picks + [|xs|])
  {
    assert forall j :: 0 <= j < |picks| ==> picks[j] < |xs|;
  }

  lemma PicksNothing<T(!new)>(gone: set<T>)
    ensures Picks<T>([], FilterOut([], gone), [])
  {
  }

  lemma {:induction false} FilterOutPicks<T(!new)>(xs: seq<T>, gone: set<T>) returns (picks: seq<nat>)
    ensures Picks(xs, FilterOut(xs, gone), picks)
  {
    PicksNothing<T>(gone);
    hide Picks, FilterOut;
    if xs == [] {
      picks := [];
    } else {
      var init, x := xs[..|xs| - 1], xs[|xs| - 1];
      assert xs == init + [x];
      picks := FilterOutPicks(init, gone);
      PicksNext(init, x, FilterOut(init, gone), picks);
      FilterOutNext(init, x, gone);
      if x in gone {
        assert FilterOut(init, gone) + [] == FilterOut(init, gone);
      } else {
        picks := picks + [|init|];
      }
    }
  }

  lemma PruneExact(s: State, now: U32, max: U32)
    requires Listing(s)
    ensures var k := if max == 0 || |s.list| <= max then |s.list| else max;
            var o := PruneOnce(s, now, max);
            && o.value == |s.list| - k && o.state.count == s.count && RestStays(s, o.state)
            && (forall i :: 0 <= i < |s.list| ==>
                  && s.list[i] in s.records
                  && (s.list[i] in o.state.list <==> i >= k || !ExpiredAt(s.records[s.list[i]], now)))
            && (exists picks :: Picks(s.list, o.state.list, picks))
            && (forall a :: a in o.state.records ==> a in s.records && o.state.records[a] == s.records[a])
            && o.state.events == s.events + Expiries(s.records, now, s.list[..k])
  {
    var k := if max == 0 || |s.list| <= max then |s.list| else max;
    assert k == Examined(s.list, max);
    var gone := Gone(s.records, now, s.list[..k]);
    var t := PruneOnce(s, now, max).state;
    PruneFilters(s, now, max);
    FilterOutMembers(s.list, gone);
    GoneExact(s, now, k);
    var picks := FilterOutPicks(s.list, gone);
    assert PruneOnce(s, now, max).value == |s.list| - k;
    hide FilterOut, NoRepeats, Gone, Picks, ExpiredAt, PruneOnce;
    assert Picks(s.list, t.list, picks);
    assert t.records == s.records - gone;
  }

  lemma GoneExact(s: State, now: U32, k: nat)
    requires Listing(s) && k <= |s.list|
    ensures forall i :: 0 <= i < |s.list| ==>
              && s.list[i] in s.records
              && (s.list[i] in Gone(s.records, now, s.list[..k]) <==> i < k && ExpiredAt(s.records[s.list[i]], now))
  {
    forall i | 0 <= i < |s.list|
      ensures s.list[i] in s.records
      ensures s.list[i] in Gone(s.records, now, s.list[..k]) <==> i < k && ExpiredAt(s.records[s.list[i]], now)
    {
      assert i < k ==> s.list[..k][i] == s.list[i];
      if s.list[i] in s.list[..k] {
        var j :| 0 <= j < k && s.list[..k][j] == s.list[i];
      }
    }
  }

  /** `log` tells of the expired among `xs`, at the ascending positions `picks`, each with its expiry. */
  ghost predicate Announces(
    records: map<Address, KycRecord>, now: U32, xs: seq<Address>, log: seq<Event>, picks: seq<nat>)
  {
    && (forall a :: a in xs ==> a in records) && |picks| == |log|
    && (forall j :: 0 <= j < |log| ==>
          picks[j] < |xs| && log[j] == RecordExpired(xs[picks[j]], records[xs[picks[j]]].expiresAt))
    && (forall j, k :: 0 <= j < k < |picks| ==> picks[j] < picks[k])
    && (forall i :: 0 <= i < |xs| ==> (i in picks <==> ExpiredAt(records[xs[i]], now)))
  }

  lemma AnnouncesNext(records: map<Address, KycRecord>, now: U32, xs: seq<Address>, x: Address,
                      log: seq<Event>, picks: seq<nat>)
    requires Announces(records, now, xs, log, picks) && x in records
    ensures if ExpiredAt(records[x], now)
            then Announces(records, now, xs + [x], log + [RecordExpired(x, records[x].expiresAt)], picks + [|xs|])
            else Announces(records, now, xs + [x], log, picks)
  {
    hide ExpiredAt;
    assert forall j :: 0 <= j < |picks| ==> picks[j] < |xs|;
    assert |xs| !in picks;
  }

  lemma AnnouncesNothing(records: map<Address, KycRecord>, now: U32)
    ensures Announces(records, now, [], Expiries(records, now, []), [])
  {
  }

  lemma ExpiriesUnfold(records: map<Address, KycRecord>, now: U32, xs: seq<Address>)
    requires xs != [] && xs[|xs| - 1] in records
    ensures var x := xs[|xs| - 1];
            Expiries(records, now, xs) ==
            if ExpiredAt(records[x], now)
            then Expiries(records, now, xs[..|xs| - 1]) + [RecordExpired(x, records[x].expiresAt)]
            else Expiries(records, now, xs[..|xs| - 1])
  {
  }

  /** The events of a prune: one for each expired entry met, with its expiry, in the order of the list. */
  lemma {:induction false} ExpiriesExact(records: map<Address, KycRecord>, now: U32, xs: seq<Address>)
    returns (picks: seq<nat>)
    requires forall a :: a in xs ==> a in records
    ensures Announces(records, now, xs, Expiries(records, now, xs), picks)
  {
    AnnouncesNothing(records, now);
    hide Announces, Expiries, ExpiredAt;
    if xs == [] {
      picks := [];
    } else {
      var init, x := xs[..|xs| - 1], xs[|xs| - 1];
      assert xs == init + [x];
      picks := ExpiriesExact(records, now, init);
      ExpiriesUnfold(records, now, xs);
      AnnouncesNext(records, now, init, x, Expiries(records, now, init), picks);
      if ExpiredAt(records[x], now) {
        picks := picks + [|init|];
      }
    }
  }

  // ---- jurisdictions ----

  lemma BlockEffect(txs: seq<Tx>, env: Env, admin: Address, raw: Code)
    ensures var s := Run(EMPTY, txs);
            var o := CallOutcome(s, env, Block(admin, raw));
            && Refuses(o, AdminRefusal(s.roles, env.auth, admin, When(Malformed(raw), InvalidJurisdiction, None)))
            && (o.Commit? ==>
                  var code := Normalize(raw).value;
                  && (forall c :: IsBlocked(o.state, c) <==> IsBlocked(s, c) || c == code)
                  && o.state.blockedList == (if code in s.blockedList then s.blockedList else s.blockedList + [code])
                  && o.state.records == s.records && o.state.list == s.list && o.state.count == s.count
                  && o.state.minHold == s.minHold && o.state.firstAcquired == s.firstAcquired
                  && o.state.events == s.events + [JurisdictionBlocked(code)])
  {
    RunKeepsInv(EMPTY, txs);
    hide Run, Canonical, Listing, StripSpaces;
  }

  lemma UnblockEffect(txs: seq<Tx>, env: Env, admin: Address, raw: Code)
    ensures var s := Run(EMPTY, txs);
            var o := CallOutcome(s, env, Unblock(admin, raw));
            && Refuses(o, AdminRefusal(s.roles, env.auth, admin, When(Malformed(raw), InvalidJurisdiction, None)))
            && (o.Commit? ==>
                  var code := Normalize(raw).value;
                  && (forall c :: IsBlocked(o.state, c) <==> IsBlocked(s, c) && c != code)
                  && (forall c :: c in o.state.blockedList <==> c in s.blockedList && c != code)
                  && (exists picks :: Picks(s.blockedList, o.state.blockedList, picks))
                  && o.state.records == s.records && o.state.list == s.list && o.state.count == s.count
                  && o.state.minHold == s.minHold && o.state.firstAcquired == s.firstAcquired
                  && o.state.events == s.events + [JurisdictionUnblocked(code)])
  {
    var s := Run(EMPTY, txs);
    if Normalize(raw).Ok? {
      FilterOutMembers(s.blockedList, {Normalize(raw).value});
      var picks := FilterOutPicks(s.blockedList, {Normalize(raw).value});
    }
    hide Run, FilterOut, StripSpaces, Picks;
  }

  // ---- the gate and the holding period ----

  /** Approved, not blocked and not expired. */
  predicate Cleared(s: State, now: U32, a: Address) {
    && a in s.records && s.records[a].status == Status.Approved
    && !IsBlocked(s, s.records[a].jurisdiction) && !ExpiredAt(s.records[a], now)
  }

  /** The minimum holding period of `a`, 0 for none. */
  function Period(s: State, a: Address): U64 {
    Get(s.minHold, a, 0)
  }

  /** A period is set, the acquisition is recorded, and the period, counted from there, is not over. */
  predicate HeldBack(s: State, now: U32, a: Address) {
    Period(s, a) > 0 && a in s.firstAcquired && now < s.firstAcquired[a] + Period(s, a) && now < U64_MAX
  }

  /** The gate answers 1 exactly for the cleared whose holding period does not hold them back; it publishes that
      alone, or the expiry of an approved record, and changes nothing else. */
  lemma CheckEffect(s: State, env: Env, a: Address)
    ensures var o := CallOutcome(s, env, Check(a));
            && o.Commit? && (o.value == 0 || o.value == 1)
            && (o.value == 1 <==> Cleared(s, env.now, a) && !HeldBack(s, env.now, a))
            && o.state == s.(events := o.state.events)
            && o.state.events == s.events + (
                 if Cleared(s, env.now, a) && HeldBack(s, env.now, a)
                 then [HoldFailed(a, s.firstAcquired[a], Period(s, a), env.now)]
                 else if a in s.records && s.records[a].status == Status.Approved && ExpiredAt(s.records[a], env.now)
                 then [RecordExpired(a, s.records[a].expiresAt)]
                 else [])
  {
  }

  lemma SetMinHoldEffect(s: State, env: Env, admin: Address, a: Address, n: U64)
    ensures var o := CallOutcome(s, env, SetMinHold(admin, a, n));
            && Refuses(o, AdminRefusal(s.roles, env.auth, admin, None))
            && (o.Commit? ==>
                  && (forall x :: Period(o.state, x) == if x == a then n else Period(s, x))
                  && o.state == s.(minHold := o.state.minHold, events := s.events + [MinHoldSet(a, n)]))
  {
  }

  /** The first acquisition is recorded at its ledger; a later one changes nothing. */
  lemma RecordAcquisitionEffect(s: State, env: Env, admin: Address, a: Address)
    ensures var o := CallOutcome(s, env, RecordAcquisition(admin, a));
            && Refuses(o, AdminRefusal(s.roles, env.auth, admin, None))
            && (o.Commit? && a in s.firstAcquired ==> o.state == s)
            && (o.Commit? && a !in s.firstAcquired ==>
                  && o.state.firstAcquired.Keys == s.firstAcquired.Keys + {a} && o.state.firstAcquired[a] == env.now
                  && (forall x :: x in s.firstAcquired ==> o.state.firstAcquired[x] == s.firstAcquired[x])
                  && o.state == s.(firstAcquired := o.state.firstAcquired,
                                   events := s.events + [AcquisitionRecorded(a, env.now)]))
  {
  }

  /** No committed call of the run sets the period of `a`. */
  predicate PeriodUntouched(s: State, txs: seq<Tx>, a: Address)
    decreases |txs|
  {
    txs == [] ||
    (&& !(txs[0].call.SetMinHold? && txs[0].call.holder == a && CallOutcome(s, txs[0].env, txs[0].call).Commit?)
     && PeriodUntouched(Step(s, txs[0]), txs[1..], a))
  }

  lemma {:induction false} ApproveAllKeepsHolding(s: State, now: U32, entries: seq<Entry>)
    ensures var o := ApproveAll(s, now, entries);
            o.Commit? ==> o.state.minHold == s.minHold && o.state.firstAcquired == s.firstAcquired
    decreases |entries|
  {
    hide Normalize;
    if entries != [] {
      var o := Approve(s, now, entries[0]);
      if o.Commit? {
        ApproveAllKeepsHolding(o.state, now, entries[1..]);
      }
    }
  }

  lemma StepKeepsHolding(s: State, tx: Tx, a: Address)
    ensures a in s.firstAcquired ==>
              a in Step(s, tx).firstAcquired && Step(s, tx).firstAcquired[a] == s.firstAcquired[a]
    ensures (tx.call.SetMinHold? && tx.call.holder == a && CallOutcome(s, tx.env, tx.call).Commit?)
            || Period(Step(s, tx), a) == Period(s, a)
  {
    hide Normalize, ApproveAll, GateEvents, IsAllowed, Expiries, FilterOut, ApprovalEvent;
    if tx.call.AddBatch? {
      ApproveAllKeepsHolding(s, tx.env.now, tx.call.entries);
    }
  }

  /** A recorded acquisition is never moved, and a period is changed by nothing but setting it. */
  lemma {:induction false} RunKeepsHolding(s: State, txs: seq<Tx>, a: Address)
    requires a in s.firstAcquired && PeriodUntouched(s, txs, a)
    ensures a in Run(s, txs).firstAcquired && Run(s, txs).firstAcquired[a] == s.firstAcquired[a]
    ensures Period(Run(s, txs), a) == Period(s, a)
    decreases |txs|
  {
    hide Step, Period;
    if txs != [] {
      StepKeepsHolding(s, txs[0], a);
      RunKeepsHolding(Step(s, txs[0]), txs[1..], a);
    }
  }

  /** After the period `n` has been set and a first acquisition recorded at ledger f, and whatever else is called:
      while cleared, the holder passes exactly from ledger f + n on, or u64::MAX if that is less. Before an
      acquisition is recorded, the period holds nobody back. */
  lemma HoldingPeriodExact(s: State, setting: Env, acquisition: Env, admin: Address, a: Address, n: U64,
                           txs: seq<Tx>, env: Env)
    requires AdminError(s.roles, setting.auth, admin).None? && AdminError(s.roles, acquisition.auth, admin).None?
    requires a !in s.firstAcquired
    ensures var s1 := Step(s, Tx(setting, SetMinHold(admin, a, n)));
            var s2 := Step(s1, Tx(acquisition, RecordAcquisition(admin, a)));
            var u := Run(s2, txs);
            && (Cleared(s1, env.now, a) ==> CallOutcome(s1, env, Check(a)).Result() == Ok(1))
            && (PeriodUntouched(s2, txs, a) && Cleared(u, env.now, a) ==>
                  (CallOutcome(u, env, Check(a)).Result() == Ok(1)
                   <==> env.now >= Min(acquisition.now as int + n, U64_MAX) || n == 0))
  {
    var s1 := Step(s, Tx(setting, SetMinHold(admin, a, n)));
    var s2 := Step(s1, Tx(acquisition, RecordAcquisition(admin, a)));
    var u := Run(s2, txs);
    SetMinHoldEffect(s, setting, admin, a, n);
    RecordAcquisitionEffect(s1, acquisition, admin, a);
    CheckEffect(s1, env, a);
    hide Run, Cleared, IsAllowed, GateEvents;
    assert s2.firstAcquired[a] == acquisition.now && Period(s2, a) == n;
    if PeriodUntouched(s2, txs, a) {
      RunKeepsHolding(s2, txs, a);
      CheckEffect(u, env, a);
    }
  }
}
