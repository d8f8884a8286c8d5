/** The dividend contract as it runs: storage entries read, changed, written and removed in order. */
module DividendContract {
  import opened Soroban
  import opened Dividend

  class Contract {
    const self: Address
    var roles: Roles
    var counter: U64
    var dists: map<nat, Distribution>
    var claimed: set<(nat, Address)>
    var assetIds: map<Address, seq<nat>>
    var supply: map<nat, I128>
    var snapshot: map<nat, seq<Holder>>
    var payments: Payments
    var events: seq<Event>

    function Now(): State
      reads this
    {
      State(self, roles, counter, dists, claimed, assetIds, supply, snapshot, payments, events)
    }

    constructor (self: Address, payments: Payments)
      ensures Now() == Empty(self, payments)
    {
      this.self, this.payments := self, payments;
      roles, counter, dists, claimed, assetIds := Roles(None, None), 0, map[], {}, map[];
      supply, snapshot, events := map[], map[], [];
    }

    /** One call of the payment token's `transfer`; false if it traps. */
    method TransferPayment(payable: bool, token: Address, from: Address, to: Address, amount: int) returns (moved: bool)
      modifies this`payments
      ensures match Pay(old(payments), payable, token, from, to, amount)
              case Some(p) => moved && payments == p
              case None => !moved && payments == old(payments)
    {
      if !payable || Held(payments, token, from) < amount {
        return false;
      }
      payments := payments[(token, from) := Held(payments, token, from) - amount];
      payments := payments[(token, to) := Held(payments, token, to) + amount];
      moved := true;
    }

    /** The loop that validates the eligible list and totals its balances. */
    method TotalEligible(eligible: seq<Holder>) returns (r: Result<I128>)
      ensures r == Validate(eligible, {}, 0)
    {
      var snapshotSupply: I128 := 0;
      var seen: set<Address> := {};
      for i := 0 to |eligible|
        invariant Validate(eligible[i..], seen, snapshotSupply) == Validate(eligible, {}, 0)
      {
        var entry := eligible[i];
        assert eligible[i..][0] == entry && eligible[i..][1..] == eligible[i + 1..];
        if entry.balance < 0 {
          return Err(InvalidAmount);
        }
        if entry.address in seen {
          return Err(DuplicateHolder);
        }
        seen := seen + {entry.address};
        if snapshotSupply + entry.balance > I128_MAX {
          return Err(ArithmeticOverflow);
        }
        snapshotSupply := snapshotSupply + entry.balance;
      }
      r := Ok(snapshotSupply);
    }

    method CreateDistributionDeadline(env: Env, admin: Address, assetToken: Address, paymentToken: Address,
                                      totalAmount: I128, eligible: seq<Holder>, deadline: U32)
      returns (r: Result<nat>)
      modifies this
      ensures Agrees(r, Now(),
                     CreateOutcome(old(Now()), env, admin, assetToken, paymentToken, totalAmount, eligible, deadline))
    {
      hide Validate, Pay, IssuerError;
      var refused := IssuerError(roles, env, admin);
      if refused.Some? {
        return Err(refused.value);
      }
      if totalAmount <= 0 {
        return Err(InvalidAmount);
      }
      if deadline != 0 && deadline < env.now {
        return Err(DeadlineInPast);
      }
      if env.asset.None? {
        return Err(HostTrap);
      }
      if env.asset.value.totalSupply <= 0 {
        return Err(ZeroSupply);
      }
      if |eligible| == 0 {
        return Err(InvalidAmount);
      }
      var snapshotSupply := TotalEligible(eligible);
      if snapshotSupply.Err? {
        return Err(snapshotSupply.error);
      }
      var moved := TransferPayment(env.payable, paymentToken, admin, self, totalAmount);
      if !moved || counter == U64_MAX {
        return Err(HostTrap);
      }
      var id := counter + 1;
      snapshot := snapshot[id := eligible];
      supply := supply[id := snapshotSupply.value];
      var dist := Distribution(id, assetToken, paymentToken, totalAmount, 0, env.now, false, deadline, false);
      dists := dists[id := dist];
      var ids := if assetToken in assetIds then assetIds[assetToken] else [];
      ids := ids + [id];
      assetIds := assetIds[assetToken := ids];
      counter := id;
      events := events + [Created(admin, id, totalAmount)];
      r := Ok(id);
    }

    /** The linear scan for the first snapshot entry of `holder`. */
    method SnapshotBalance(id: nat, holder: Address) returns (r: Result<I128>)
      ensures r == if id in snapshot then Ok(BalanceIn(snapshot[id], holder)) else Err(DistributionNotFound)
    {
      if id !in snapshot {
        return Err(DistributionNotFound);
      }
      var snap := snapshot[id];
      for i := 0 to |snap|
        invariant BalanceIn(snap, holder) == BalanceIn(snap[i..], holder)
      {
        assert snap[i..][0] == snap[i] && snap[i..][1..] == snap[i + 1..];
        if snap[i].address == holder {
          return Ok(snap[i].balance);
        }
      }
      r := Ok(0);
    }

    method ReadClaimable(id: nat, holder: Address) returns (r: Result<I128>)
      ensures r == Claimable(Now(), id, holder)
    {
      if id !in dists {
        return Err(DistributionNotFound);
      }
      if (id, holder) in claimed {
        return Ok(0);
      }
      var total := if id in supply then supply[id] else 0;
      if total <= 0 {
        return Ok(0);
      }
      var basis := SnapshotBalance(id, holder);
      if basis.Err? {
        return Err(basis.error);
      }
      if basis.value <= 0 {
        return Ok(0);
      }
      var product := dists[id].totalAmount * basis.value;
      if !(-I128_MAX - 1 <= product <= I128_MAX) {
        return Err(ArithmeticOverflow);
      }
      r := Ok(Truncate(product, total));
    }

    method Claim(env: Env, id: nat, holder: Address) returns (r: Result<()>)
      modifies this
      ensures Agrees(r, Now(), ClaimOutcome(old(Now()), env, id, holder))
    {
      hide Claimable, Pay;
      if holder !in env.auth {
        return Err(HostTrap);
      }
      if id !in dists {
        return Err(DistributionNotFound);
      }
      var dist := dists[id];
      if dist.completed {
        return Err(NothingToClaim);
      }
      if dist.deadline != 0 && env.now > dist.deadline {
        return Err(DeadlinePassed);
      }
      if (id, holder) in claimed {
        return Err(AlreadyClaimed);
      }
      var share := ReadClaimable(id, holder);
      if share.Err? {
        return Err(share.error);
      }
      var amount := share.value;
      if amount <= 0 {
        return Err(NothingToClaim);
      }
      claimed := claimed + {(id, holder)};  // before the payment, which may still trap
      var moved := TransferPayment(env.payable, dist.paymentToken, self, holder, amount);
      if !moved {
        return Err(HostTrap);
      }
      if dist.distributed + amount > I128_MAX {
        return Err(ArithmeticOverflow);
      }
      dist := dist.(distributed := dist.distributed + amount);
      if dist.distributed > dist.totalAmount {
        return Err(OverDistributed);
      }
      if dist.distributed >= dist.totalAmount {
        dist := dist.(completed := true);
        snapshot := snapshot - {id};
        supply := supply - {id};
      }
      dists := dists[id := dist];
      events := events + [Claimed(holder, id, amount)];
      r := Ok(());
    }

    method ReclaimUnclaimed(env: Env, admin: Address, id: nat) returns (r: Result<I128>)
      modifies this
      ensures Agrees(r, Now(), ReclaimOutcome(old(Now()), env, admin, id))
    {
      var refused := AdminError(roles, env.auth, admin);
      if refused.Some? {
        return Err(refused.value);
      }
      if id !in dists {
        return Err(DistributionNotFound);
      }
      var dist := dists[id];
      if dist.deadline == 0 {
        return Err(NoDeadline);
      }
      if env.now <= dist.deadline {
        return Err(DeadlineNotReached);
      }
      if dist.completed {
        return Err(NothingToClaim);
      }
      var remaining := dist.totalAmount - dist.distributed;
      if !(-I128_MAX - 1 <= remaining <= I128_MAX) {
        return Err(HostTrap);
      }
      if remaining <= 0 {
        return Err(NothingToClaim);
      }
      var moved := TransferPayment(env.payable, dist.paymentToken, self, admin, remaining);
      if !moved {
        return Err(HostTrap);
      }
      dist := dist.(distributed := dist.totalAmount);
      dist := dist.(completed := true);
      snapshot := snapshot - {id};
      supply := supply - {id};
      dists := dists[id := dist];
      events := events + [Reclaimed(admin, id, remaining)];
      r := Ok(remaining);
    }

    method CancelDistribution(env: Env, admin: Address, id: nat) returns (r: Result<()>)
      modifies this
      ensures Agrees(r, Now(), CancelOutcome(old(Now()), env, admin, id))
    {
      var refused := AdminError(roles, env.auth, admin);
      if refused.Some? {
        return Err(refused.value);
      }
      if id !in dists {
        return Err(DistributionNotFound);
      }
      var dist := dists[id];
      if dist.distributed > 0 {
        return Err(InvalidAmount);
      }
      if dist.completed {
        return Err(NothingToClaim);
      }
      var moved := TransferPayment(env.payable, dist.paymentToken, self, admin, dist.totalAmount);
      if !moved {
        return Err(HostTrap);
      }
      dist := dist.(completed := true, cancelled := true);
      snapshot := snapshot - {id};
      supply := supply - {id};
      dists := dists[id := dist];
      events := events + [Cancelled(admin, id)];
      r := Ok(());
    }

    /** initialize and the two-step admin handover. */
    method Administer(env: Env, call: RoleCall) returns (r: Result<()>)
      modifies this
      ensures Agrees(r, Now(), InitializedRoles(old(Now()), env, call))
    {
      match RoleOutcome(roles, env.auth, call) {
        case Abort(e) => return Err(e);
        case Commit(next, e) =>
          roles := next;
          events := events + [Handover(e)];
          if call.Initialize? {
            counter := 0;
          }
          r := Ok(());
      }
    }

    /** The distributions of one asset token, through the per-asset id index. */
    method GetDistributionsForAsset(assetToken: Address) returns (out: seq<Distribution>)
      ensures out == Listed(dists, Get(assetIds, assetToken, []))
    {
      var ids := if assetToken in assetIds then assetIds[assetToken] else [];
      out := [];
      for i := 0 to |ids|
        invariant out + Listed(dists, ids[i..]) == Listed(dists, ids)
      {
        ghost var later := Listed(dists, ids[i + 1..]);
        assert ids[i..][0] == ids[i] && ids[i..][1..] == ids[i + 1..];
        if ids[i] in dists {
          assert out + ([dists[ids[i]]] + later) == (out + [dists[ids[i]]]) + later;
          out := out + [dists[ids[i]]];
        } else {
          assert [] + later == later;
        }
      }
    }

    /** The host's transaction: run the call, and undo its writes if it fails. */
    method Invoke(env: Env, call: Call) returns (r: Result<int>)
      modifies this
      ensures r == CallOutcome(old(Now()), env, call).Result()
      ensures Now() == Step(old(Now()), Tx.Invoke(env, call))
    {
      hide CreateOutcome, ClaimOutcome, ReclaimOutcome, CancelOutcome, InitializedRoles;
      var roles0, counter0, dists0, claimed0, assetIds0 := roles, counter, dists, claimed, assetIds;
      var supply0, snapshot0, payments0, events0 := supply, snapshot, payments, events;
      var done: Result<()> := Ok(());
      match call {
        case Create(admin, assetToken, paymentToken, total, eligible, deadline) =>
          var id := CreateDistributionDeadline(env, admin, assetToken, paymentToken, total, eligible, deadline);
          r := id;
        case Reclaim(admin, id) =>
          var remaining := ReclaimUnclaimed(env, admin, id);
          r := remaining;
        case Claim(id, holder) =>
          done := Claim(env, id, holder);
          r := if done.Ok? then Ok(0) else Err(done.error);
        case Cancel(admin, id) =>
          done := CancelDistribution(env, admin, id);
          r := if done.Ok? then Ok(0) else Err(done.error);
        case Role(role) =>
          done := Administer(env, role);
          r := if done.Ok? then Ok(0) else Err(done.error);
      }
      if r.Err? {
        roles, counter, dists, claimed, assetIds := roles0, counter0, dists0, claimed0, assetIds0;
        supply, snapshot, payments, events := supply0, snapshot0, payments0, events0;
      }
    }
  }

  function Listed(dists: map<nat, Distribution>, ids: seq<nat>): seq<Distribution> {
    if ids == [] then []
    else (if ids[0] in dists then [dists[ids[0]]] else []) + Listed(dists, ids[1..])
  }
}
