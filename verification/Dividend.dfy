/** The dividend escrow: what each call does to the distributions and to the payment tokens, and the
    runs of calls. */
module Dividend {
  import opened Arithmetic
  import opened Soroban

  datatype Holder = Holder(address: Address, balance: I128)

  datatype Distribution = Distribution(
    id: nat,
    assetToken: Address,
    paymentToken: Address,
    totalAmount: I128,
    distributed: I128,
    createdAt: U32,
    completed: bool,
    deadline: U32,
    cancelled: bool)

  datatype Event =
    | Handover(event: RoleEvent)
    | Created(admin: Address, id: nat, totalAmount: int)
    | Claimed(holder: Address, id: nat, amount: int)
    | Reclaimed(admin: Address, id: nat, remaining: int)
    | Cancelled(admin: Address, id: nat)

  /** Balances of every payment token: (token, owner) to amount. */
  type Payments = map<(Address, Address), int>

  datatype State = State(
    self: Address,
    roles: Roles,
    counter: U64,
    dists: map<nat, Distribution>,
    claimed: set<(nat, Address)>,
    assetIds: map<Address, seq<nat>>,
    supply: map<nat, I128>,
    snapshot: map<nat, seq<Holder>>,
    payments: Payments,
    events: seq<Event>)

  /** What the asset token answers when this contract calls it. */
  datatype AssetView = AssetView(totalSupply: I128, admin: Address)

  /** `asset` is None when the call into the asset token traps; `payable` is false when the payment
      token refuses the movement for reasons of its own. */
  datatype Env = Env(now: U32, auth: set<Address>, asset: Option<AssetView>, payable: bool)

  datatype Call =
    | Create(admin: Address, assetToken: Address, paymentToken: Address, totalAmount: I128,
             eligible: seq<Holder>, deadline: U32)
    | Claim(id: nat, holder: Address)
    | Reclaim(admin: Address, id: nat)
    | Cancel(admin: Address, id: nat)
    | Role(role: RoleCall)

  function Empty(self: Address, payments: Payments): State {
    State(self, Roles(None, None), 0, map[], {}, map[], map[], map[], payments, [])
  }

  function Held(p: Payments, token: Address, owner: Address): int {
    Get(p, (token, owner), 0)
  }

  /** A payment token moves exactly the amount, or it traps. */
  function Pay(p: Payments, payable: bool, token: Address, from: Address, to: Address, amount: int): Option<Payments> {
    if !payable || Held(p, token, from) < amount then None
    else
      var debited := p[(token, from) := Held(p, token, from) - amount];
      Some(debited[(token, to) := Held(debited, token, to) + amount])
  }

  /** The balance of the first entry for `a`, or 0. */
  function BalanceIn(list: seq<Holder>, a: Address): I128 {
    if list == [] then 0 else if list[0].address == a then list[0].balance else BalanceIn(list[1..], a)
  }

  /** Validation of the rest of an eligible list, given the addresses seen and the sum so far. */
  function Validate(list: seq<Holder>, seen: set<Address>, sum: I128): Result<I128> {
    if list == [] then Ok(sum)
    else if list[0].balance < 0 then Err(InvalidAmount)
    else if list[0].address in seen then Err(DuplicateHolder)
    else if sum + list[0].balance > I128_MAX then Err(ArithmeticOverflow)
    else Validate(list[1..], seen + {list[0].address}, sum + list[0].balance)
  }

  /** Who may create a distribution: the admin, or the admin of the asset token. */
  function IssuerError(roles: Roles, env: Env, admin: Address): Option<Error> {
    ManagerError(roles, env.auth, if env.asset.Some? then Some(env.asset.value.admin) else None, admin)
  }

  function CreateOutcome(s: State, env: Env, admin: Address, assetToken: Address, paymentToken: Address,
                         totalAmount: I128, eligible: seq<Holder>, deadline: U32): Outcome<State, nat>
  {
    var e := IssuerError(s.roles, env, admin);
    if e.Some? then Abort(e.value)
    else if totalAmount <= 0 then Abort(InvalidAmount)
    else if deadline != 0 && deadline < env.now then Abort(DeadlineInPast)
    else if env.asset.None? then Abort(HostTrap)
    else if env.asset.value.totalSupply <= 0 then Abort(ZeroSupply)
    else if eligible == [] then Abort(InvalidAmount)
    else
      var sum := Validate(eligible, {}, 0);
      var paid := Pay(s.payments, env.payable, paymentToken, admin, s.self, totalAmount);
      var id := s.counter + 1;
      if sum.Err? then Abort(sum.error)
      else if paid.None? || id > U64_MAX then Abort(HostTrap)
      else
        var d := Distribution(id, assetToken, paymentToken, totalAmount, 0, env.now, false, deadline, false);
        Commit(s.(counter := id,
                  dists := s.dists[id := d],
                  snapshot := s.snapshot[id := eligible],
                  supply := s.supply[id := sum.value],
                  assetIds := s.assetIds[assetToken := Get(s.assetIds, assetToken, []) + [id]],
                  payments := paid.value,
                  events := s.events + [Created(admin, id, totalAmount)]), id)
  }

  function Claimable(s: State, id: nat, holder: Address): Result<I128> {
    if id !in s.dists then Err(DistributionNotFound)
    else if (id, holder) in s.claimed then Ok(0)
    else if Get(s.supply, id, 0) <= 0 then Ok(0)
    else if id !in s.snapshot then Err(DistributionNotFound)
    else
      var basis := BalanceIn(s.snapshot[id], holder);
      var product := s.dists[id].totalAmount * basis;
      if basis <= 0 then Ok(0)
      else if !(-I128_MAX - 1 <= product <= I128_MAX) then Err(ArithmeticOverflow)
      else Ok(Truncate(product, s.supply[id]))
  }

  /** Rust's `/` on i128: it rounds towards zero. */
  function Truncate(a: I128, b: I128): (q: I128)
    requires b > 0
  {
    QuotientFits(if a >= 0 then a else -(a as int), b);
    if a >= 0 then a / b else -((-(a as int)) / b)
  }

  /** Drops the snapshot and its denominator. */
  function WithoutSnapshot(s: State, id: nat): State {
    s.(snapshot := s.snapshot - {id}, supply := s.supply - {id})
  }

  function ClaimOutcome(s: State, env: Env, id: nat, holder: Address): Outcome<State, ()> {
    if holder !in env.auth then Abort(HostTrap)
    else if id !in s.dists then Abort(DistributionNotFound)
    else
      var d := s.dists[id];
      if d.completed then Abort(NothingToClaim)
      else if d.deadline != 0 && env.now > d.deadline then Abort(DeadlinePassed)
      else if (id, holder) in s.claimed then Abort(AlreadyClaimed)
      else
        var amount := Claimable(s, id, holder);
        if amount.Err? then Abort(amount.error)
        else if amount.value <= 0 then Abort(NothingToClaim)
        else
          var paid := Pay(s.payments, env.payable, d.paymentToken, s.self, holder, amount.value);
          if paid.None? then Abort(HostTrap)
          else if d.distributed + amount.value > I128_MAX then Abort(ArithmeticOverflow)
          else if d.distributed + amount.value > d.totalAmount then Abort(OverDistributed)
          else
            var closes := d.distributed + amount.value >= d.totalAmount;
            var d' := d.(distributed := d.distributed + amount.value, completed := closes);
            var t := if closes then WithoutSnapshot(s, id) else s;
            Commit(t.(claimed := s.claimed + {(id, holder)},
                      dists := s.dists[id := d'],
                      payments := paid.value,
                      events := s.events + [Claimed(holder, id, amount.value)]), ())
  }

  function ReclaimOutcome(s: State, env: Env, admin: Address, id: nat): Outcome<State, I128> {
    var e := AdminError(s.roles, env.auth, admin);
    if e.Some? then Abort(e.value)
    else if id !in s.dists then Abort(DistributionNotFound)
    else
      var d := s.dists[id];
      var remaining := d.totalAmount - d.distributed;
      if d.deadline == 0 then Abort(NoDeadline)
      else if env.now <= d.deadline then Abort(DeadlineNotReached)
      else if d.completed then Abort(NothingToClaim)
      else if !(-I128_MAX - 1 <= remaining <= I128_MAX) then Abort(HostTrap)
      else if remaining <= 0 then Abort(NothingToClaim)
      else
        var paid := Pay(s.payments, env.payable, d.paymentToken, s.self, admin, remaining);
        if paid.None? then Abort(HostTrap)
        else
          Commit(WithoutSnapshot(s, id).(dists := s.dists[id := d.(distributed := d.totalAmount, completed := true)],
                                         payments := paid.value,
                                         events := s.events + [Reclaimed(admin, id, remaining)]), remaining)
  }

  function CancelOutcome(s: State, env: Env, admin: Address, id: nat): Outcome<State, ()> {
    var e := AdminError(s.roles, env.auth, admin);
    if e.Some? then Abort(e.value)
    else if id !in s.dists then Abort(DistributionNotFound)
    else
      var d := s.dists[id];
      if d.distributed > 0 then Abort(InvalidAmount)
      else if d.completed then Abort(NothingToClaim)
      else
        var paid := Pay(s.payments, env.payable, d.paymentToken, s.self, admin, d.totalAmount);
        if paid.None? then Abort(HostTrap)
        else
          Commit(WithoutSnapshot(s, id).(dists := s.dists[id := d.(completed := true, cancelled := true)],
                                         payments := paid.value,
                                         events := s.events + [Cancelled(admin, id)]), ())
  }

  function InitializedRoles(s: State, env: Env, call: RoleCall): Outcome<State, ()> {
    match RoleOutcome(s.roles, env.auth, call)
    case Abort(e) => Abort(e)
    case Commit(roles, e) =>
      var t := s.(roles := roles, events := s.events + [Handover(e)]);
      Commit(if call.Initialize? then t.(counter := 0) else t, ())
  }

  /** The value is the new distribution's id, the amount reclaimed, or 0. */
  function CallOutcome(s: State, env: Env, call: Call): Outcome<State, int> {
    match call
    case Create(admin, assetToken, paymentToken, total, eligible, deadline) =>
      CreateOutcome(s, env, admin, assetToken, paymentToken, total, eligible, deadline)
    case Claim(id, holder) => Silent(ClaimOutcome(s, env, id, holder))
    case Reclaim(admin, id) => ReclaimOutcome(s, env, admin, id)
    case Cancel(admin, id) => Silent(CancelOutcome(s, env, admin, id))
    case Role(role) => Silent(InitializedRoles(s, env, role))
  }

  function Silent(o: Outcome<State, ()>): Outcome<State, int> {
    match o
    case Commit(t, _) => Commit(t, 0)
    case Abort(e) => Abort(e)
  }

  /** A transaction calls the contract, or moves a payment token without it. */
  datatype Tx =
    | Invoke(env: Env, call: Call)
    | Outside(token: Address, from: Address, to: Address, amount: nat)

  function Step(s: State, tx: Tx): State {
    match tx
    case Invoke(env, call) => CallOutcome(s, env, call).After(s)
    case Outside(token, from, to, amount) =>
      var paid := Pay(s.payments, true, token, from, to, amount);
      if paid.Some? then s.(payments := paid.value) else s
  }

  function Run(s: State, txs: seq<Tx>): State
    decreases |txs|
  {
    if txs == [] then s else Run(Step(s, txs[0]), txs[1..])
  }
}
