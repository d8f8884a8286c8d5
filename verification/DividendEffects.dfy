/** What each call of the dividend contract does for its caller: when it is refused and with which error, and what
    a committed one leaves - in the record, and in everybody's holdings of every payment token. */
module DividendEffects {
  import opened Soroban
  import opened Dividend
  import opened DividendContract
  import opened DividendShares
  import opened DividendProofs
  import opened DividendEscrow
  import opened DividendDust

  /** `amount` of `token` has gone from `from` to `to`, and no other holding of any token has changed. */
  ghost predicate PaidOver(p: Payments, q: Payments, token: Address, from: Address, to: Address, amount: int) {
    forall t, a :: Held(q, t, a) == Held(p, t, a) - (if t == token && a == from then amount else 0)
                                                  + (if t == token && a == to then amount else 0)
  }

  lemma PayExact(p: Payments, payable: bool, token: Address, from: Address, to: Address, amount: int)
    ensures Pay(p, payable, token, from, to, amount).Some? <==> payable && amount <= Held(p, token, from)
    ensures Pay(p, payable, token, from, to, amount).Some? ==>
              PaidOver(p, Pay(p, payable, token, from, to, amount).value, token, from, to, amount)
  {
  }

  /** Only the record of `id` differs, and it is `d`; nothing but it, the payments, the snapshots and the log is
      different at all. */
  ghost predicate OnlyRecord(s: State, t: State, id: nat, d: Distribution) {
    && t.dists.Keys == s.dists.Keys + {id} && t.dists[id] == d
    && (forall i :: i in s.dists && i != id ==> t.dists[i] == s.dists[i])
    && t.self == s.self && t.roles == s.roles
  }

  /** The snapshot of `id` is gone, and no other. */
  ghost predicate SnapshotDropped(s: State, t: State, id: nat) {
    t.snapshot == s.snapshot - {id} && t.supply == s.supply - {id}
  }

  ghost predicate SnapshotsKept(s: State, t: State) {
    t.snapshot == s.snapshot && t.supply == s.supply
  }

  // ---- creation ----

  function Addresses(list: seq<Holder>): set<Address> {
    set h | h in list :: h.address
  }

  /** The first entry that spoils the list, and how: its balance is negative, its address has been seen, or the sum
      leaves i128. */
  ghost predicate SpoiltAt(list: seq<Holder>, i: nat, e: Error) {
    && i < |list| && NonNegative(list[..i]) && Distinct(list[..i]) && BalanceSum(list[..i]) <= I128_MAX
    && if list[i].balance < 0 then e == InvalidAmount
       else if list[i].address in Addresses(list[..i]) then e == DuplicateHolder
       else BalanceSum(list[..i]) + list[i].balance > I128_MAX && e == ArithmeticOverflow
  }

  lemma {:induction false} BalanceSumNext(list: seq<Holder>, h: Holder)
    ensures BalanceSum(list + [h]) == BalanceSum(list) + h.balance
  {
    if list == [] {
      assert [h][1..] == [] && list + [h] == [h];
    } else {
      assert (list + [h])[1..] == list[1..] + [h];
      BalanceSumNext(list[1..], h);
    }
  }

  lemma GoodPrefixGrows(list: seq<Holder>, i: nat)
    requires i < |list| && NonNegative(list[..i]) && Distinct(list[..i])
    requires list[i].balance >= 0 && list[i].address !in Addresses(list[..i])
    ensures NonNegative(list[..i + 1]) && Distinct(list[..i + 1])
    ensures BalanceSum(list[..i + 1]) == BalanceSum(list[..i]) + list[i].balance
    ensures Addresses(list[..i + 1]) == Addresses(list[..i]) + {list[i].address}
  {
    BalanceSumNext(list[..i], list[i]);
    assert list[..i + 1] == list[..i] + [list[i]];
    forall j | 0 <= j < i ensures list[j].address != list[i].address {
      assert list[..i][j] in list[..i];
    }
    forall j, k | 0 <= j < k < i ensures list[j].address != list[k].address {
      assert list[..i][j].address != list[..i][k].address;
    }
    hide BalanceSum;
    forall a | a in Addresses(list[..i + 1]) ensures a in Addresses(list[..i]) + {list[i].address} {
      var h :| h in list[..i + 1] && h.address == a;
    }
  }

  lemma {:induction false} ValidateSpoiltAt(list: seq<Holder>, i: nat) returns (j: nat)
    requires i <= |list| && NonNegative(list[..i]) && Distinct(list[..i]) && 0 <= BalanceSum(list[..i]) <= I128_MAX
    requires Validate(list[i..], Addresses(list[..i]), BalanceSum(list[..i])).Err?
    ensures SpoiltAt(list, j, Validate(list[i..], Addresses(list[..i]), BalanceSum(list[..i])).error)
    decreases |list| - i
  {
    var seen, sum := Addresses(list[..i]), BalanceSum(list[..i]);
    var h := list[i..][0];
    assert h == list[i];
    if h.balance < 0 || h.address in seen || sum + h.balance > I128_MAX {
      j := i;
    } else {
      GoodPrefixGrows(list, i);
      assert list[i..][1..] == list[i + 1..];
      j := ValidateSpoiltAt(list, i + 1);
    }
  }

  /** A list is refused exactly if it is not fair, with the error of the first entry that spoils it. */
  lemma ValidateExact(list: seq<Holder>)
    requires list != []
    ensures Validate(list, {}, 0).Ok? <==> Fair(list)
    ensures Validate(list, {}, 0).Ok? ==> Validate(list, {}, 0).value == BalanceSum(list)
    ensures Validate(list, {}, 0).Err? ==> exists i :: SpoiltAt(list, i, Validate(list, {}, 0).error)
  {
    ValidateIff(list, {}, 0);
    if Validate(list, {}, 0).Err? {
      assert list[..0] == [] && list[0..] == list && Addresses([]) == {};
      var i := ValidateSpoiltAt(list, 0);
    }
  }

  /** The error that validation gives a list that is not fair. */
  function ListError(list: seq<Holder>): Error {
    match Validate(list, {}, 0)
    case Ok(_) => InvalidAmount
    case Err(e) => e
  }

  predicate AssetSupplyPositive(env: Env) {
    env.asset.Some? && env.asset.value.totalSupply > 0
  }

  predicate AssetAdminIs(env: Env, a: Address) {
    env.asset.Some? && env.asset.value.admin == a
  }

  /** Why a creation is refused, in the order of the checks. */
  ghost function CreationRefusal(s: State, env: Env, call: Call): Option<Error>
    requires call.Create?
  {
    When(s.roles.admin.None?, NotInitialized,
    When(call.admin !in env.auth, HostTrap,
    When(s.roles.admin != Some(call.admin) && env.asset.None?, HostTrap,
    When(s.roles.admin != Some(call.admin) && !AssetAdminIs(env, call.admin), Unauthorized,
    When(call.totalAmount <= 0, InvalidAmount,
    When(call.deadline != 0 && call.deadline < env.now, DeadlineInPast,
    When(env.asset.None?, HostTrap,
    When(!AssetSupplyPositive(env), ZeroSupply,
    When(call.eligible == [], InvalidAmount,
    When(!Fair(call.eligible), ListError(call.eligible),
    When(!env.payable || Held(s.payments, call.paymentToken, call.admin) < call.totalAmount, HostTrap,
    When(s.counter == U64_MAX, HostTrap, None))))))))))))
  }

  /** A new record under the next id with everything the call gave, the list frozen, and the amount in escrow. */
  ghost predicate CreationDone(s: State, env: Env, call: Call, t: State)
    requires call.Create?
  {
    var id := s.counter + 1;
    && t.counter == id && id !in s.dists
    && id in t.dists && OnlyRecord(s, t, id, t.dists[id])
    && t.dists[id].id == id && t.dists[id].assetToken == call.assetToken
    && t.dists[id].paymentToken == call.paymentToken && t.dists[id].totalAmount == call.totalAmount
    && t.dists[id].distributed == 0 && t.dists[id].createdAt == env.now
    && t.dists[id].deadline == call.deadline && !t.dists[id].completed && !t.dists[id].cancelled
    && t.snapshot == s.snapshot[id := call.eligible]
    && id in t.supply && t.supply[id] == BalanceSum(call.eligible) && t.supply == s.supply[id := t.supply[id]]
    && t.claimed == s.claimed
    && PaidOver(s.payments, t.payments, call.paymentToken, call.admin, s.self, call.totalAmount)
    && t.events == s.events + [Created(call.admin, id, call.totalAmount)]
  }

  lemma CreateRefusals(s: State, env: Env, call: Call)
    requires call.Create?
    ensures Refuses(CallOutcome(s, env, call), CreationRefusal(s, env, call))
  {
    if call.eligible != [] {
      ValidateExact(call.eligible);
    }
    PayExact(s.payments, env.payable, call.paymentToken, call.admin, s.self, call.totalAmount);
    hide Validate, Pay, Fair, PaidOver, BalanceSum;
  }

  lemma CreateWrites(s: State, env: Env, call: Call)
    requires call.Create? && s.counter + 1 !in s.dists && CallOutcome(s, env, call).Commit?
    ensures var o := CallOutcome(s, env, call);
            o.value == s.counter + 1 && CreationDone(s, env, call, o.state)
  {
    ValidateExact(call.eligible);
    PayExact(s.payments, env.payable, call.paymentToken, call.admin, s.self, call.totalAmount);
    hide Validate, Pay, Fair, PaidOver, BalanceSum, IssuerError;
  }

  /** A creation freezes exactly what it was given, and moves the whole amount into escrow. */
  lemma CreateEffect(self: Address, payments: Payments, txs: seq<Tx>, env: Env, call: Call)
    requires call.Create?
    ensures var s := Run(Empty(self, payments), txs);
            var o := CallOutcome(s, env, call);
            && s.self == self
            && Refuses(o, CreationRefusal(s, env, call))
            && (o.Commit? ==> o.value == s.counter + 1 && CreationDone(s, env, call, o.state))
  {
    var w := World(Empty(self, payments), map[]);
    RunKeepsInv(w, txs);
    RunKeepsSelf(w, txs);
    FreshId(WorldRun(w, txs));
    hide Run, Inv, Empty, CallOutcome, CreationRefusal, CreationDone;
    var s := Run(w.s, txs);
    CreateRefusals(s, env, call);
    if CallOutcome(s, env, call).Commit? {
      CreateWrites(s, env, call);
    }
  }

  lemma FreshId(w: World)
    requires Inv(w)
    ensures w.s.counter + 1 !in w.s.dists
  {
    hide Accounts;
  }

  lemma {:induction false} RunKeepsSelf(w: World, txs: seq<Tx>)
    requires Inv(w)
    ensures Run(w.s, txs).self == w.s.self
    decreases |txs|
  {
    hide Accounts, Shape, Step, IndexStep, Terms;
    if txs != [] {
      StepFrame(w, txs[0]);
      StepKeepsInv(w, txs[0]);
      StepIsWorldStep(w, txs[0]);
      RunKeepsSelf(WorldStep(w, txs[0]), txs[1..]);
    }
  }

  // ---- the deadline ----

  /** The deadline a creation was given governs the distribution for good, whatever is called in between: after it no
      claim commits, and exactly then can the admin reclaim; without one, nobody can. */
  lemma DeadlineGoverns(w: World, self: Address, payments: Payments, txs: seq<Tx>, env: Env, call: Call,
                        more: seq<Tx>, later: Env, a: Address, admin: Address)
    requires Reachable(w, self, payments, txs) && self !in env.auth
    requires call.Create? && CallOutcome(w.s, env, call).Commit?
    requires forall i :: 0 <= i < |more| ==> ByOthers(more[i], self)
    ensures var id := CallOutcome(w.s, env, call).value;
            var u := WorldRun(WorldStep(w, Invoke(env, call)), more);
            && id >= 0 && id in u.s.dists && u.s.dists[id].deadline == call.deadline
            && (call.deadline != 0 && later.now > call.deadline ==> !ClaimOutcome(u.s, later, id, a).Commit?)
            && (AdminError(u.s.roles, later.auth, admin).None? && Open(u, id) && later.payable ==>
                  (ReclaimOutcome(u.s, later, admin, id).Commit? <==> 0 < call.deadline < later.now))
  {
    var tx := Invoke(env, call);
    var w1 := WorldStep(w, tx);
    ReachableOn(w, self, payments, txs, [tx]);
    assert WorldRun(w, [tx]) == w1 by { assert [tx][1..] == []; }
    ReachableOn(w1, self, payments, txs + [tx], more);
    ReachablePayable(w1, self, payments, txs + [tx]);
    CreatedTerms(w, env, call);
    hide WorldRun, Reachable, WorldStep, CallOutcome;
    var id := w.s.counter + 1;
    RunKeepsTerms(w1, more, id);
    var u := WorldRun(w1, more);
    EscrowSolvent(u, self, payments, txs + [tx] + more);
    hide Inv, Surplus;
    ReclaimCommitsIff(u, later, admin, id);
  }

  lemma CreatedTerms(w: World, env: Env, call: Call)
    requires call.Create? && CallOutcome(w.s, env, call).Commit?
    ensures var id := w.s.counter + 1;
            && CallOutcome(w.s, env, call).value == id && id in WorldStep(w, Invoke(env, call)).s.dists
            && WorldStep(w, Invoke(env, call)).s.dists[id].deadline == call.deadline
  {
    hide Validate, Pay;
  }

  // ---- claims ----

  /** Why a claim is refused, in the order of the checks. */
  ghost function ClaimRefusal(w: World, env: Env, id: nat, a: Address): Option<Error>
    requires Inv(w)
  {
    var s, known := w.s, id in w.s.dists;
    When(a !in env.auth, HostTrap,
    When(!known, DistributionNotFound,
    When(known && s.dists[id].completed, NothingToClaim,
    When(known && s.dists[id].deadline != 0 && env.now > s.dists[id].deadline, DeadlinePassed,
    When((id, a) in s.claimed, AlreadyClaimed,
    When(known && Product(w, id, a) > I128_MAX, ArithmeticOverflow,
    When(known && ShareOf(w, id, a) == 0, NothingToClaim,
    When(!env.payable, HostTrap, None))))))))
  }

  /** The share has gone from the contract to `a`, who is flagged; the record has moved by it, and is closed with its
      snapshot dropped exactly if that was the last of the total. */
  ghost predicate ClaimDone(w: World, id: nat, a: Address, t: State)
    requires Inv(w) && id in w.s.dists
  {
    var s, d, share := w.s, w.s.dists[id], ShareOf(w, id, a);
    var last := d.distributed + share == d.totalAmount;
    && d.distributed + share <= d.totalAmount
    && OnlyRecord(s, t, id, d.(distributed := d.distributed + share, completed := last))
    && (if last then SnapshotDropped(s, t, id) else SnapshotsKept(s, t))
    && t.claimed == s.claimed + {(id, a)} && t.counter == s.counter && t.assetIds == s.assetIds
    && PaidOver(s.payments, t.payments, d.paymentToken, s.self, a, share)
    && t.events == s.events + [Claimed(a, id, share)]
  }

  /** A claim pays exactly the share, once. */
  lemma ClaimEffect(w: World, self: Address, payments: Payments, txs: seq<Tx>, env: Env, id: nat, a: Address)
    requires Reachable(w, self, payments, txs)
    ensures Inv(w)
    ensures var s := w.s;
            var o := CallOutcome(s, env, Claim(id, a));
            && Refuses(o, ClaimRefusal(w, env, id, a))
            && (o.Commit? ==> id in s.dists && ClaimDone(w, id, a, o.state))
  {
    EscrowSolvent(w, self, payments, txs);
    ReachablePayable(w, self, payments, txs);
    hide Reachable, Inv, Surplus, Refuses, CallOutcome, ClaimRefusal, ClaimDone;
    ClaimRefusals(w, env, id, a);
    if CallOutcome(w.s, env, Claim(id, a)).Commit? {
      ClaimWrites(w, env, id, a);
    }
  }

  lemma ClaimRefusals(w: World, env: Env, id: nat, a: Address)
    requires Sound(w)
    ensures Refuses(CallOutcome(w.s, env, Claim(id, a)), ClaimRefusal(w, env, id, a))
  {
    hide Inv, Surplus, Claimable, ShareOf, Product, Pay, PaidOver;
    if Open(w, id) && (id, a) !in w.s.claimed {
      ClaimFigures(w, id, a);
      ClaimExact(w, id, a);
      PayExact(w.s.payments, env.payable, w.s.dists[id].paymentToken, w.s.self, a, ShareOf(w, id, a));
    }
  }

  lemma ClaimWrites(w: World, env: Env, id: nat, a: Address)
    requires Sound(w) && CallOutcome(w.s, env, Claim(id, a)).Commit?
    ensures id in w.s.dists && ClaimDone(w, id, a, CallOutcome(w.s, env, Claim(id, a)).state)
  {
    hide Inv, Surplus, ShareOf, Product, Pay, PaidOver;
    ClaimCommitsIff(w, env, id, a);
    OpenFigures(w, id);
    PayExact(w.s.payments, true, w.s.dists[id].paymentToken, w.s.self, a, ShareOf(w, id, a));
    hide ClaimOutcome;
  }

  /** The contract's own figure in an open distribution, with its error. */
  lemma ClaimExact(w: World, id: nat, a: Address)
    requires Sound(w) && Open(w, id) && (id, a) !in w.s.claimed
    ensures Claimable(w.s, id, a)
         == if Product(w, id, a) > I128_MAX then Err(ArithmeticOverflow) else Ok(ShareOf(w, id, a))
  {
    hide Shape, Surplus, ClaimedSum, Claimable, Paid, Returned;
    var list := w.frozen[id];
    assert Account(w.s, id, list);
    ClaimableIsShare(w.s, id, list, a);
    if Supply(list) == 0 && BalanceIn(list, a) != 0 {
      var i := BalanceInListed(list, a);
      BalanceAtMostSum(list, i);
      assert false;
    }
  }

  /** What `claimable` answers in every reachable state: nothing to those who have claimed or once the distribution is
      closed, and the share to the others unless its product is out of range. */
  lemma ClaimableEffect(w: World, self: Address, payments: Payments, txs: seq<Tx>, id: nat, a: Address)
    requires Reachable(w, self, payments, txs)
    ensures Inv(w)
    ensures Claimable(w.s, id, a)
         == if id !in w.s.dists then Err(DistributionNotFound)
            else if (id, a) in w.s.claimed || w.s.dists[id].completed then Ok(0)
            else if Product(w, id, a) > I128_MAX then Err(ArithmeticOverflow)
            else Ok(ShareOf(w, id, a))
  {
    EscrowSolvent(w, self, payments, txs);
    hide Reachable, Surplus, Shape;
    if id in w.s.dists && !w.s.dists[id].completed && (id, a) !in w.s.claimed {
      ClaimExact(w, id, a);
      hide Claimable;
    } else if id in w.s.dists {
      hide ClaimedSum, Paid, Returned, ShareOf, Product;
      assert Account(w.s, id, w.frozen[id]);
    }
  }

  // ---- what goes back ----

  /** A reclaim returns to the admin who asks exactly what has not been claimed, and closes the record. */
  lemma ReclaimEffect(w: World, self: Address, payments: Payments, txs: seq<Tx>, env: Env, admin: Address, id: nat)
    requires Reachable(w, self, payments, txs)
    ensures var s, known := w.s, id in w.s.dists;
            var o := CallOutcome(s, env, Reclaim(admin, id));
            && Refuses(o, AdminRefusal(s.roles, env.auth, admin,
                 When(!known, DistributionNotFound,
                 When(known && s.dists[id].deadline == 0, NoDeadline,
                 When(known && env.now <= s.dists[id].deadline, DeadlineNotReached,
                 When(known && s.dists[id].completed, NothingToClaim,
                 When(!env.payable, HostTrap, None)))))))
            && (o.Commit? ==>
                  var t, d := o.state, s.dists[id];
                  && o.value == d.totalAmount - d.distributed
                  && PaidOver(s.payments, t.payments, d.paymentToken, self, admin, d.totalAmount - d.distributed)
                  && OnlyRecord(s, t, id, d.(distributed := d.totalAmount, completed := true))
                  && SnapshotDropped(s, t, id)
                  && t.claimed == s.claimed && t.counter == s.counter && t.assetIds == s.assetIds
                  && t.events == s.events + [Reclaimed(admin, id, d.totalAmount - d.distributed)])
  {
    hide Reachable, Inv, Surplus, Pay, PaidOver;
    EscrowSolvent(w, self, payments, txs);
    ReachablePayable(w, self, payments, txs);
    ReclaimCommitsIff(w, env, admin, id);
    if Open(w, id) {
      var d := w.s.dists[id];
      PotCovers(w, id);
      OpenFigures(w, id);
      PayExact(w.s.payments, env.payable, d.paymentToken, self, admin, d.totalAmount - d.distributed);
    }
  }

  lemma OpenFigures(w: World, id: nat)
    requires Inv(w) && Open(w, id)
    ensures 0 <= w.s.dists[id].distributed < w.s.dists[id].totalAmount && !w.s.dists[id].cancelled
  {
    hide Shape, ClaimedSum, Paid, Returned;
    assert Account(w.s, id, w.frozen[id]);
  }

  /** A cancellation returns the whole amount to the admin who asks, and closes the record as cancelled. */
  lemma CancelEffect(w: World, self: Address, payments: Payments, txs: seq<Tx>, env: Env, admin: Address, id: nat)
    requires Reachable(w, self, payments, txs)
    ensures var s, known := w.s, id in w.s.dists;
            var o := CallOutcome(s, env, Cancel(admin, id));
            && Refuses(o, AdminRefusal(s.roles, env.auth, admin,
                 When(!known, DistributionNotFound,
                 When(known && s.dists[id].distributed > 0, InvalidAmount,
                 When(known && s.dists[id].completed, NothingToClaim,
                 When(!env.payable, HostTrap, None))))))
            && (o.Commit? ==>
                  var t, d := o.state, s.dists[id];
                  && PaidOver(s.payments, t.payments, d.paymentToken, self, admin, d.totalAmount)
                  && OnlyRecord(s, t, id, d.(distributed := 0, completed := true, cancelled := true))
                  && SnapshotDropped(s, t, id)
                  && t.claimed == s.claimed && t.counter == s.counter && t.assetIds == s.assetIds
                  && t.events == s.events + [Cancelled(admin, id)])
  {
    hide Reachable, Inv, Surplus, Pay, PaidOver;
    EscrowSolvent(w, self, payments, txs);
    ReachablePayable(w, self, payments, txs);
    CancelCommitsIff(w, env, admin, id);
    if Open(w, id) {
      PotCovers(w, id);
      OpenFigures(w, id);
      PayExact(w.s.payments, env.payable, w.s.dists[id].paymentToken, self, admin, w.s.dists[id].totalAmount);
    }
  }

  /** A holding moved without the contract. */
  lemma OutsideEffect(s: State, token: Address, from: Address, to: Address, amount: nat)
    ensures var t := Step(s, Outside(token, from, to, amount));
            && t == s.(payments := t.payments)
            && if amount <= Held(s.payments, token, from)
               then PaidOver(s.payments, t.payments, token, from, to, amount)
               else t == s
  {
    PayExact(s.payments, true, token, from, to, amount);
  }

  lemma HandoverEffect(s: State, env: Env, role: RoleCall)
    ensures match RoleOutcome(s.roles, env.auth, role)
            case Abort(e) => CallOutcome(s, env, Role(role)) == Abort(e)
            case Commit(roles, e) =>
              var counter := if role.Initialize? then 0 else s.counter;
              CallOutcome(s, env, Role(role))
              == Commit(s.(roles := roles, counter := counter, events := s.events + [Handover(e)]), 0)
  {
  }

  // ---- the query by asset ----

  /** The records of ids that are all stored, in the order of the ids. */
  lemma {:induction false} ListedExact(dists: map<nat, Distribution>, ids: seq<nat>, k: nat)
    requires (forall i :: i in ids ==> i in dists) && k < |ids|
    ensures |Listed(dists, ids)| == |ids| && Listed(dists, ids)[k] == dists[ids[k]]
  {
    if |ids| == 1 {
      assert ids[1..] == [];
    } else {
      ListedExact(dists, ids[1..], if k == 0 then 0 else k - 1);
    }
  }
}
