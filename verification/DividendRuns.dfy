/** Distributions over runs in which anything else may happen in between: each holder is paid its share once
    whatever the order, entitlement lasts, and what is stranded without a deadline is stranded for good. */
module DividendRuns {
  import opened Soroban
  import opened Dividend
  import opened DividendShares
  import opened DividendProofs
  import opened DividendEscrow
  import opened DividendDust

  // ---- what each holder was paid ----

  /** Paid to `a` out of distribution `id`. */
  function PaidTo(events: seq<Event>, id: nat, a: Address): int {
    if events == [] then 0
    else
      var e := events[|events| - 1];
      PaidTo(events[..|events| - 1], id, a) + if e.Claimed? && e.id == id && e.holder == a then e.amount else 0
  }

  lemma PaidToNext(events: seq<Event>, e: Event, id: nat, a: Address)
    ensures PaidTo(events + [e], id, a)
         == PaidTo(events, id, a) + if e.Claimed? && e.id == id && e.holder == a then e.amount else 0
  {
    assert (events + [e])[..|events|] == events;
  }

  lemma {:induction false} NobodyPaidYet(events: seq<Event>, id: nat, a: Address)
    requires forall i :: 0 <= i < |events| ==> About(events[i]) != Some(id)
    ensures PaidTo(events, id, a) == 0
  {
    if events != [] {
      NobodyPaidYet(events[..|events| - 1], id, a);
    }
  }

  /** Whoever has claimed was paid exactly its share, and nobody else was paid anything. */
  ghost predicate PaidRight(w: World)
    requires Inv(w)
  {
    forall id, a :: id in w.s.dists ==>
      PaidTo(w.s.events, id, a) == if (id, a) in w.s.claimed then ShareOf(w, id, a) else 0
  }

  /** What a step publishes: nothing, or one event; a claim's tells the share. */
  ghost predicate OneEvent(w: World, tx: Tx)
    requires Inv(w)
  {
    var t := Step(w.s, tx);
    if Claims(w.s, tx)
    then
      && tx.call.id in w.s.dists && (tx.call.id, tx.call.holder) !in w.s.claimed
      && t.claimed == w.s.claimed + {(tx.call.id, tx.call.holder)}
      && t.events == w.s.events + [Claimed(tx.call.holder, tx.call.id, ShareOf(w, tx.call.id, tx.call.holder))]
    else
      t.claimed == w.s.claimed && NoClaimLogged(w.s, t)
  }

  ghost predicate NoClaimLogged(s: State, t: State) {
    t.events == s.events || exists e: Event :: !e.Claimed? && t.events == s.events + [e]
  }

  lemma ClaimPublishesShare(w: World, tx: Tx)
    requires Inv(w) && Claims(w.s, tx)
    ensures OneEvent(w, tx)
  {
    hide Shape, Pay, Claimable, ClaimedSum, Paid, Returned;
    var id, a := tx.call.id, tx.call.holder;
    assert Account(w.s, id, w.frozen[id]);
    ClaimableIsShare(w.s, id, w.frozen[id], a);
  }

  lemma OthersPublishNoClaim(w: World, tx: Tx)
    requires Inv(w) && !Claims(w.s, tx)
    ensures OneEvent(w, tx)
  {
    StepFrame(w, tx);
    if tx.Invoke? && tx.call.Create? {
      CreateLog(w.s, tx.env, tx.call);
    } else if tx.Invoke? && tx.call.Reclaim? {
      ReclaimLog(w.s, tx.env, tx.call.admin, tx.call.id);
    } else if tx.Invoke? && tx.call.Cancel? {
      CancelLog(w.s, tx.env, tx.call.admin, tx.call.id);
    } else if tx.Outside? || tx.call.Role? {
      QuietLog(w.s, tx);
    }
    hide Inv, Pay, Frame, NoClaimLogged, CreateOutcome, ClaimOutcome, ReclaimOutcome, CancelOutcome, InitializedRoles;
    assert w.s.events == w.s.events;
    NothingLogged(w.s);
  }

  lemma NothingLogged(s: State)
    ensures NoClaimLogged(s, s)
  {
  }

  lemma CreateLog(s: State, env: Env, call: Call)
    requires call.Create?
    ensures NoClaimLogged(s, CallOutcome(s, env, call).After(s))
  {
    hide Validate, Pay;
    var t := CallOutcome(s, env, call).After(s);
    assert t.events == s.events || t.events == s.events + [Created(call.admin, s.counter + 1, call.totalAmount)];
  }

  lemma ReclaimLog(s: State, env: Env, admin: Address, id: nat)
    ensures NoClaimLogged(s, ReclaimOutcome(s, env, admin, id).After(s))
  {
    hide Pay;
    var o := ReclaimOutcome(s, env, admin, id);
    assert o.Commit? ==> o.state.events == s.events + [Reclaimed(admin, id, o.value)];
  }

  lemma CancelLog(s: State, env: Env, admin: Address, id: nat)
    ensures NoClaimLogged(s, CancelOutcome(s, env, admin, id).After(s))
  {
    hide Pay;
    var o := CancelOutcome(s, env, admin, id);
    assert o.Commit? ==> o.state.events == s.events + [Cancelled(admin, id)];
  }

  lemma QuietLog(s: State, tx: Tx)
    requires tx.Outside? || tx.call.Role?
    ensures NoClaimLogged(s, Step(s, tx))
  {
    hide Pay;
    if tx.Invoke? && RoleOutcome(s.roles, tx.env.auth, tx.call.role).Commit? {
      assert Step(s, tx).events == s.events + [Handover(RoleOutcome(s.roles, tx.env.auth, tx.call.role).value)];
    }
  }

  lemma StepPaysRight(w: World, tx: Tx)
    requires Inv(w) && PaidRight(w)
    ensures Inv(WorldStep(w, tx)) && PaidRight(WorldStep(w, tx))
  {
    StepKeepsInv(w, tx);
    if Claims(w.s, tx) {
      ClaimPublishesShare(w, tx);
    } else {
      OthersPublishNoClaim(w, tx);
    }
    StepIsWorldStep(w, tx);
    var w' := WorldStep(w, tx);
    forall id, a | id in w'.s.dists
      ensures PaidTo(w'.s.events, id, a) == if (id, a) in w'.s.claimed then ShareOf(w', id, a) else 0
    {
      if id in w.s.dists {
        PaidRightThere(w, tx, id, a);
      } else {
        NewIdUnpaid(w, tx, id, a);
      }
    }
  }

  lemma SameShare(w: World, tx: Tx, id: nat, a: Address)
    requires Inv(w) && Inv(WorldStep(w, tx)) && id in w.s.dists
    ensures id in WorldStep(w, tx).s.dists && ShareOf(WorldStep(w, tx), id, a) == ShareOf(w, id, a)
  {
    StepKeepsLists(w, tx);
    StepFrame(w, tx);
    StepIsWorldStep(w, tx);
    hide Due, IndexStep, WorldStep, Step;
  }

  lemma PaidRightThere(w: World, tx: Tx, id: nat, a: Address)
    requires Inv(w) && PaidRight(w) && Inv(WorldStep(w, tx)) && OneEvent(w, tx) && id in w.s.dists
    ensures var w' := WorldStep(w, tx);
            && id in w'.s.dists
            && PaidTo(w'.s.events, id, a) == if (id, a) in w'.s.claimed then ShareOf(w', id, a) else 0
  {
    hide Inv, ShareOf, Step, WorldStep, PaidTo, ClaimOutcome;
    SameShare(w, tx, id, a);
    StepIsWorldStep(w, tx);
    var t := Step(w.s, tx);
    if t.events != w.s.events {
      var e := t.events[|w.s.events|];
      assert t.events == w.s.events + [e];
      PaidToNext(w.s.events, e, id, a);
    }
  }

  lemma NewIdUnpaid(w: World, tx: Tx, id: nat, a: Address)
    requires Inv(w) && Inv(WorldStep(w, tx)) && OneEvent(w, tx) && id !in w.s.dists
    ensures PaidTo(WorldStep(w, tx).s.events, id, a) == 0 && (id, a) !in WorldStep(w, tx).s.claimed
  {
    StepIsWorldStep(w, tx);
    var t := Step(w.s, tx);
    NobodyPaidYet(w.s.events, id, a);
    assert (id, a) in w.s.claimed ==> (id, a).0 in w.s.dists;
    hide Inv, Step, WorldStep, PaidTo, ShareOf, Claims;
    if t.events != w.s.events {
      var e := t.events[|w.s.events|];
      assert t.events == w.s.events + [e];
      PaidToNext(w.s.events, e, id, a);
    }
  }

  lemma {:induction false} RunPaysRight(w: World, txs: seq<Tx>)
    requires Inv(w) && PaidRight(w)
    ensures Inv(WorldRun(w, txs)) && PaidRight(WorldRun(w, txs))
    decreases |txs|
  {
    hide Inv, PaidRight, WorldStep;
    if txs != [] {
      StepPaysRight(w, txs[0]);
      RunPaysRight(WorldStep(w, txs[0]), txs[1..]);
    }
  }

  /** In every reachable state each address has been paid exactly its share out of a distribution if it has claimed
      there, and nothing otherwise. */
  lemma EveryHolderPaidItsShareOnce(self: Address, payments: Payments, txs: seq<Tx>, id: nat, a: Address)
    ensures var w := WorldRun(World(Empty(self, payments), map[]), txs);
            && Inv(w)
            && (id in w.s.dists ==>
                  PaidTo(w.s.events, id, a) == if (id, a) in w.s.claimed then ShareOf(w, id, a) else 0)
  {
    RunPaysRight(World(Empty(self, payments), map[]), txs);
  }

  // ---- claims with anything in between ----

  /** Nothing of the distribution has been reclaimed or cancelled. */
  predicate NothingReturned(w: World, id: nat) {
    id in w.s.dists && Returned(w.s.events, id, w.s.dists[id].totalAmount) == 0
  }

  lemma {:induction false} SameClaimedSum(
    total: nat, supply: nat, list: seq<Holder>, claimed: set<(nat, Address)>, others: set<(nat, Address)>, id: nat)
    requires NonNegative(list) && forall a :: (id, a) in claimed <==> (id, a) in others
    ensures ClaimedSum(total, supply, list, claimed, id) == ClaimedSum(total, supply, list, others, id)
  {
    if list != [] {
      SameClaimedSum(total, supply, list[1..], claimed, others, id);
    }
  }

  /** Two accounts of one distribution with the same claimers, nothing returned in either, are the same. */
  lemma AccountsAgree(s: State, t: State, id: nat, list: seq<Holder>)
    requires Account(s, id, list) && Account(t, id, list) && Terms(s.dists[id]) == Terms(t.dists[id])
    requires forall a :: (id, a) in s.claimed <==> (id, a) in t.claimed
    requires Returned(s.events, id, s.dists[id].totalAmount) == 0 == Returned(t.events, id, t.dists[id].totalAmount)
    ensures s.dists[id] == t.dists[id]
    ensures (id in s.snapshot <==> id in t.snapshot) && (id in s.supply <==> id in t.supply)
    ensures id in s.snapshot ==> s.snapshot[id] == t.snapshot[id]
    ensures id in s.supply ==> s.supply[id] == t.supply[id]
  {
    hide Paid, Returned, ClaimedSum, Distinct, NonNegative, Supply;
    SameClaimedSum(s.dists[id].totalAmount, Supply(list), list, s.claimed, t.claimed, id);
  }

  lemma SameClaimersSameBooks(u: World, v: World, id: nat)
    requires Inv(u) && Inv(v) && PaidRight(u) && PaidRight(v) && NothingReturned(u, id) && NothingReturned(v, id)
    requires id in u.frozen && id in v.frozen && u.frozen[id] == v.frozen[id]
    requires Terms(u.s.dists[id]) == Terms(v.s.dists[id])
    requires forall a :: (id, a) in u.s.claimed <==> (id, a) in v.s.claimed
    ensures u.s.dists[id] == v.s.dists[id]
    ensures (id in u.s.snapshot <==> id in v.s.snapshot)
    ensures id in u.s.snapshot ==> u.s.snapshot[id] == v.s.snapshot[id]
    ensures forall a :: PaidTo(u.s.events, id, a) == PaidTo(v.s.events, id, a)
  {
    hide Due, Paid, Returned, PaidTo, Account, Shape;
    assert Account(u.s, id, u.frozen[id]) && Account(v.s, id, v.frozen[id]);
    AccountsAgree(u.s, v.s, id, u.frozen[id]);
    forall a ensures PaidTo(u.s.events, id, a) == PaidTo(v.s.events, id, a) {
      assert ShareOf(u, id, a) == ShareOf(v, id, a);
    }
  }

  /** From one reachable state, any two runs - with other claims, creations, deposits and failing calls anywhere in
      between - that end with the same claimers of a distribution and nothing of it returned: its record, its
      snapshot and what each holder was paid are the same. */
  lemma InterleavingIrrelevant(self: Address, payments: Payments, txs: seq<Tx>, one: seq<Tx>, other: seq<Tx>, id: nat)
    requires var w0 := WorldRun(World(Empty(self, payments), map[]), txs);
             var u, v := WorldRun(w0, one), WorldRun(w0, other);
             && id in w0.s.dists && NothingReturned(u, id) && NothingReturned(v, id)
             && forall a :: (id, a) in u.s.claimed <==> (id, a) in v.s.claimed
    ensures var w0 := WorldRun(World(Empty(self, payments), map[]), txs);
            var u, v := WorldRun(w0, one), WorldRun(w0, other);
            && u.s.dists[id] == v.s.dists[id]
            && (id in u.s.snapshot <==> id in v.s.snapshot)
            && (id in u.s.snapshot ==> u.s.snapshot[id] == v.s.snapshot[id])
            && forall a :: PaidTo(u.s.events, id, a) == PaidTo(v.s.events, id, a)
  {
    var start := World(Empty(self, payments), map[]);
    RunPaysRight(start, txs);
    hide WorldRun, Terms, ShareOf, Inv, PaidRight, PaidTo, Empty, NothingReturned;
    var w0 := WorldRun(start, txs);
    var u, v := WorldRun(w0, one), WorldRun(w0, other);
    RunPaysRight(w0, one);
    RunPaysRight(w0, other);
    RunKeepsTerms(w0, one, id);
    RunKeepsTerms(w0, other, id);
    SameClaimersSameBooks(u, v, id);
  }

  /** A holder that can be paid stays so: whatever happens in between, as long as it has not claimed, nothing is
      returned and the deadline lasts, its claim commits. */
  lemma EntitlementLasts(w: World, self: Address, payments: Payments, txs: seq<Tx>, more: seq<Tx>, id: nat,
                         a: Address, env: Env)
    requires Reachable(w, self, payments, txs) && forall i :: 0 <= i < |more| ==> ByOthers(more[i], self)
    requires Inv(w) && id in w.s.dists && ShareOf(w, id, a) > 0 && Product(w, id, a) <= I128_MAX
    requires NothingReturned(WorldRun(w, more), id) && (id, a) !in WorldRun(w, more).s.claimed
    requires a in env.auth && env.payable && (w.s.dists[id].deadline == 0 || env.now <= w.s.dists[id].deadline)
    ensures ClaimOutcome(WorldRun(w, more).s, env, id, a).Commit?
  {
    ReachableOn(w, self, payments, txs, more);
    RunKeepsTerms(w, more, id);
    var u := WorldRun(w, more);
    EscrowSolvent(u, self, payments, txs + more);
    hide WorldRun, Due, Reachable;
    assert ShareOf(u, id, a) == ShareOf(w, id, a) && Product(u, id, a) == Product(w, id, a);
    if u.s.dists[id].completed {
      ClosedByClaimsStripsNobody(u, id, a);
      assert false;
    }
    hide Inv, Surplus, ShareOf, Product;
    ClaimCommitsIff(u, env, id, a);
  }

  // ---- stranded for good ----

  lemma ClaimedBelowStranded(w: World, id: nat)
    requires Inv(w) && OnlyPayable(w) && id in w.s.dists
    ensures id in w.frozen && Fair(w.frozen[id]) && w.s.dists[id].totalAmount > 0
    ensures var d, list := w.s.dists[id], w.frozen[id];
            ClaimedSum(d.totalAmount, Supply(list), list, w.s.claimed, id)
            <= d.totalAmount - Stranded(w.s.self, d.totalAmount, list)
  {
    hide Shape, Paid, Returned, ClaimedSum;
    assert Account(w.s, id, w.frozen[id]);
    var self, total: nat, list := w.s.self, w.s.dists[id].totalAmount, w.frozen[id];
    forall i | 0 <= i < |list| && (id, list[i].address) in w.s.claimed ensures CanBePaid(self, total, list[i]) {
      BalanceInAt(list, i);
      assert Product(w, id, list[i].address) <= I128_MAX;
    }
    ClaimedAtMostPayable(self, total, Supply(list), list, w.s.claimed, id);
  }

  /** No deadline, and something that can never be paid. */
  ghost predicate Strands(w: World, id: nat) {
    && Open(w, id) && w.s.dists[id].deadline == 0
    && id in w.frozen && NonNegative(w.frozen[id]) && w.s.dists[id].totalAmount > 0
    && Stranded(w.s.self, w.s.dists[id].totalAmount, w.frozen[id]) > 0
  }

  /** The same, and a claim has been made. */
  ghost predicate Stuck(w: World, id: nat) {
    Strands(w, id) && w.s.dists[id].distributed > 0
  }

  /** Such a distribution is touched by nothing but claims on it. */
  lemma OnlyClaimsTouch(w: World, tx: Tx, id: nat)
    requires Shape(w) && Open(w, id) && w.s.dists[id].deadline == 0 && w.s.dists[id].distributed > 0
    ensures id in Step(w.s, tx).dists
    ensures (Claims(w.s, tx) && tx.call.id == id) || Step(w.s, tx).dists[id] == w.s.dists[id]
  {
    hide Pay, Validate, Claimable;
    assert w.s.counter + 1 !in w.s.dists;
  }

  /** A claim does not close it, so it is stuck from the first claim on. */
  lemma ClaimLeavesOpen(w: World, tx: Tx, id: nat)
    requires Inv(w) && OnlyPayable(w) && Strands(w, id) && ByOthers(tx, w.s.self)
    requires Claims(w.s, tx) && tx.call.id == id
    ensures Stuck(WorldStep(w, tx), id)
  {
    hide Shape, ClaimedSum, Paid, Returned, Step, WorldStep, Due, IndexStep, ClaimOutcome, Stranded, OnlyPayable;
    StepKeepsPayable(w, tx);
    var w' := WorldStep(w, tx);
    StepKeepsLists(w, tx);
    StepFrame(w, tx);
    ClaimPublishesShare(w, tx);
    ClaimedBelowStranded(w', id);
    StepIsWorldStep(w, tx);
    ClaimPositive(w, tx);
    assert Account(w.s, id, w.frozen[id]) && Account(w'.s, id, w'.frozen[id]);
    var total := w.s.dists[id].totalAmount;
    var e := Claimed(tx.call.holder, id, ShareOf(w, id, tx.call.holder));
    OneMoreEvent(w.s.events, e, id, total);
    PaidGrows(w.s.events, e, id, total);
  }

  lemma ClaimPositive(w: World, tx: Tx)
    requires Inv(w) && Claims(w.s, tx)
    ensures tx.call.id in w.s.dists && ShareOf(w, tx.call.id, tx.call.holder) > 0
  {
    var id, a := tx.call.id, tx.call.holder;
    hide Shape, Pay, Claimable, ClaimedSum, Paid, Returned;
    assert Account(w.s, id, w.frozen[id]);
    ClaimableIsShare(w.s, id, w.frozen[id], a);
  }

  lemma PaidGrows(events: seq<Event>, e: Event, id: nat, total: int)
    requires e.Claimed? && e.id == id && e.amount >= 0
    ensures Paid(events + [e], id) == Paid(events, id) + e.amount
    ensures Returned(events + [e], id, total) == Returned(events, id, total)
  {
    OneMoreEvent(events, e, id, total);
  }

  lemma StepKeepsStuck(w: World, tx: Tx, id: nat)
    requires Inv(w) && OnlyPayable(w) && Stuck(w, id) && ByOthers(tx, w.s.self)
    ensures var w' := WorldStep(w, tx);
            Inv(w') && OnlyPayable(w') && Stuck(w', id) && w'.s.self == w.s.self
  {
    hide Accounts, Shape, Step, WorldStep, Stranded, NonNegative, IndexStep, ClaimOutcome, ByOthers, OnlyPayable;
    StepKeepsPayable(w, tx);
    OnlyClaimsTouch(w, tx, id);
    StepKeepsLists(w, tx);
    StepFrame(w, tx);
    StepIsWorldStep(w, tx);
    if Claims(w.s, tx) && tx.call.id == id {
      ClaimLeavesOpen(w, tx, id);
    }
  }

  lemma {:induction false} RunKeepsStuck(w: World, txs: seq<Tx>, id: nat)
    requires Inv(w) && OnlyPayable(w) && Stuck(w, id) && forall i :: 0 <= i < |txs| ==> ByOthers(txs[i], w.s.self)
    ensures Inv(WorldRun(w, txs)) && Stuck(WorldRun(w, txs), id)
    decreases |txs|
  {
    hide Inv, OnlyPayable, Stuck, WorldStep, ByOthers;
    if txs != [] {
      StepKeepsStuck(w, txs[0], id);
      RunKeepsStuck(WorldStep(w, txs[0]), txs[1..], id);
    }
  }

  /** Without a deadline and with one claim made, what the arguments strand is never recovered: after every further
      run the distribution is still open, and at least that much of the payment token is still in the contract. */
  lemma StrandedForever(w: World, self: Address, payments: Payments, txs: seq<Tx>, id: nat, more: seq<Tx>)
    requires Reachable(w, self, payments, txs) && forall i :: 0 <= i < |more| ==> ByOthers(more[i], self)
    requires Stuck(w, id)
    ensures var d, list, w' := w.s.dists[id], w.frozen[id], WorldRun(w, more);
            && Open(w', id) && Terms(w'.s.dists[id]) == Terms(d)
            && w'.s.dists[id].totalAmount - w'.s.dists[id].distributed >= Stranded(self, d.totalAmount, list) > 0
            && Held(w'.s.payments, d.paymentToken, self) >= Stranded(self, d.totalAmount, list)
  {
    ReachablePayable(w, self, payments, txs);
    RunKeepsStuck(w, more, id);
    RunKeepsTerms(w, more, id);
    ReachableOn(w, self, payments, txs, more);
    var w' := WorldRun(w, more);
    EscrowSolvent(w', self, payments, txs + more);
    EscrowKeepsStranded(w', self, payments, txs + more, id);
    PotCovers(w', id);
  }

  /** With the contract itself and `b` listed with one unit each, `b` is due half. */
  lemma HalfIsDue(self: Address, b: Address)
    requires b != self
    ensures var list := [Holder(self, 1), Holder(b, 1)];
            && Fair(list) && BalanceIn(list, b) == 1 && Due(10, list, b) == 5
  {
    SelfListedFigures(self, b);
    assert [Holder(self, 1), Holder(b, 1)][1..] == [Holder(b, 1)];
  }

  /** The contract itself and `b` with one unit each, the total 10, and `b` claims: from then on five units are
      gone for good. */
  lemma SelfListedHalfIsGone(self: Address, now: U32, admin: Address, asset: Address, token: Address, b: Address,
                             more: seq<Tx>)
    requires admin != self && b != self && forall i :: 0 <= i < |more| ==> ByOthers(more[i], self)
    ensures var w1 := AfterCreation(self, now, admin, asset, token, 10, [Holder(self, 1), Holder(b, 1)]);
            var claim := Invoke(Env(now, {b}, None, true), Claim(1, b));
            var w := WorldRun(WorldStep(w1, claim), more);
            && Claims(w1.s, claim)
            && Open(w, 1) && 10 - w.s.dists[1].distributed >= 5 && Held(w.s.payments, token, self) >= 5
  {
    var list := [Holder(self, 1), Holder(b, 1)];
    var w1 := AfterCreation(self, now, admin, asset, token, 10, list);
    var claim := Invoke(Env(now, {b}, None, true), Claim(1, b));
    var payments: Payments := map[(token, admin) := 10];
    var txs := CreationRun(CreationEnv(now, admin), admin, asset, token, 10, list);
    SelfListedFigures(self, b);
    HalfIsDue(self, b);
    CreationSucceeds(self, now, admin, asset, token, 10, list);
    hide AfterCreation, CreationRun, Reachable, Due, Stranded, Dust, BalanceIn, WorldRun, WorldStep, Surplus, Accounts,
         Shape, ClaimOutcome;
    EscrowSolvent(w1, self, payments, txs);
    ReachablePayable(w1, self, payments, txs);
    ClaimCommitsIff(w1, claim.env, 1, b);
    ClaimLeavesOpen(w1, claim, 1);
    ReachableStep(w1, self, payments, txs, claim);
    StepKeepsFigures(w1, claim, 1);
    StrandedForever(WorldStep(w1, claim), self, payments, txs + [claim], 1, more);
  }

  lemma StepKeepsFigures(w: World, tx: Tx, id: nat)
    requires Inv(w) && id in w.s.dists
    ensures var w' := WorldStep(w, tx);
            && w'.s.self == w.s.self && id in w'.s.dists && Terms(w'.s.dists[id]) == Terms(w.s.dists[id])
            && id in w.frozen && id in w'.frozen && w'.frozen[id] == w.frozen[id]
  {
    StepKeepsLists(w, tx);
    StepFrame(w, tx);
    StepIsWorldStep(w, tx);
  }

  lemma ReachableStep(w: World, self: Address, payments: Payments, txs: seq<Tx>, tx: Tx)
    requires Reachable(w, self, payments, txs) && ByOthers(tx, self)
    ensures Reachable(WorldStep(w, tx), self, payments, txs + [tx])
  {
    ReachableOn(w, self, payments, txs, [tx]);
    assert [tx][1..] == [] && WorldRun(WorldStep(w, tx), []) == WorldStep(w, tx);
  }
}
