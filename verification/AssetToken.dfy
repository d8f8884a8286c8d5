/** The asset token: what each call does to the ledger, and the runs of calls. */
module AssetToken {
  import opened Soroban

  /** What the token says about itself; it never changes after initialization. */
  datatype Particulars = Particulars(
    name: string, symbol: string, assetType: string, description: string, decimals: U32)

  datatype Metadata = Metadata(
    about: Particulars,
    totalSupply: I128,
    admin: Address,
    compliance: Address,
    valuation: I128,
    paused: bool,
    guardian: Option<Address>,
    pendingAdmin: Option<Address>)

  datatype Allowance = Allowance(amount: I128, expiration: U32)

  datatype Event =
    | Genesis(admin: Address, supply: I128)
    | Minted(to: Address, amount: I128)
    | Burned(from: Address, amount: I128)
    | Transferred(from: Address, to: Address, amount: I128, newFromBal: I128, newToBal: I128)
    | Approved(from: Address, spender: Address, amount: I128, expiration: U32)
    | PauseSet(caller: Address)
    | PauseLifted(caller: Address)
    | GuardianSet(guardian: Option<Address>)
    | Valued(oldValuation: I128, newValuation: I128)
    | ComplianceSet(previous: Address, next: Address)
    | Handover(event: RoleEvent)

  datatype Ledger = Ledger(
    meta: Option<Metadata>,
    balances: map<Address, I128>,
    allowances: map<(Address, Address), Allowance>,
    events: seq<Event>)

  /** One invocation's surroundings: the ledger number, who signed, and for each compliance
      contract the addresses it would answer `true` for. */
  datatype Env = Env(now: U32, auth: set<Address>, gate: set<(Address, Address)>)

  type Entry = (Address, I128)

  datatype Call =
    | Initialize(admin: Address, about: Particulars, totalSupply: I128, compliance: Address, valuation: I128)
    | Transfer(from: Address, to: Address, amount: I128)
    | TransferBatch(from: Address, transfers: seq<Entry>)
    | TransferFrom(spender: Address, from: Address, to: Address, amount: I128)
    | Approve(from: Address, spender: Address, amount: I128, expiration: U32)
    | Mint(admin: Address, to: Address, amount: I128)
    | MintBatch(admin: Address, recipients: seq<Entry>)
    | Burn(from: Address, amount: I128)
    | Pause(caller: Address)
    | Unpause(admin: Address)
    | SetGuardian(admin: Address, guardian: Option<Address>)
    | UpdateValuation(admin: Address, newValuation: I128)
    | SetCompliance(admin: Address, compliance: Address)
    | ProposeAdmin(admin: Address, newAdmin: Address)
    | CancelProposal(admin: Address)
    | AcceptAdmin(newAdmin: Address)

  const EMPTY: Ledger := Ledger(None, map[], map[], [])
  const MAX_VALUATION_CHANGE_BPS := 5_000
  const BPS_DENOMINATOR := 10_000
  const MAX_NAME_LEN := 64
  const MAX_SYMBOL_LEN := 16
  const MAX_ASSET_TYPE_LEN := 32
  const MAX_DESC_LEN := 256

  function Balance(s: Ledger, id: Address): I128 {
    Get(s.balances, id, 0)
  }

  function AllowanceOf(s: Ledger, from: Address, spender: Address): Allowance {
    Get(s.allowances, (from, spender), Allowance(0, 0))
  }

  /** What `spender` may still move at ledger `now`: an expired allowance reads as zero. */
  function Spendable(s: Ledger, now: U32, from: Address, spender: Address): I128 {
    var a := AllowanceOf(s, from, spender);
    if now <= a.expiration then a.amount else 0
  }

  function Log(s: Ledger, e: Event): Ledger {
    s.(events := s.events + [e])
  }

  /** The error `require_admin` raises, if any. */
  function AdminCheck(s: Ledger, env: Env, admin: Address): Option<Error> {
    if s.meta.None? then Some(NotInitialized)
    else if admin !in env.auth then Some(HostTrap)
    else if s.meta.value.admin != admin then Some(Unauthorized)
    else None
  }

  predicate ValidParticulars(p: Particulars) {
    && 1 <= |p.name| <= MAX_NAME_LEN && 1 <= |p.symbol| <= MAX_SYMBOL_LEN
    && 1 <= |p.assetType| <= MAX_ASSET_TYPE_LEN && 1 <= |p.description| <= MAX_DESC_LEN
  }

  function InitializeOutcome(s: Ledger, env: Env, call: Call): Outcome<Ledger, ()>
    requires call.Initialize?
  {
    var Initialize(admin, about, totalSupply, compliance, valuation) := call;
    if s.meta.Some? then Abort(AlreadyInitialized)
    else if admin !in env.auth then Abort(HostTrap)
    else if totalSupply < 0 || valuation < 0 then Abort(InvalidAmount)
    else if !ValidParticulars(about) then Abort(InvalidInput)
    else if (compliance, admin) !in env.gate then Abort(RecipientNotCompliant)
    else
      var m := Metadata(about, totalSupply, admin, compliance, valuation, false, None, None);
      Commit(s.(meta := Some(m), balances := s.balances[admin := totalSupply],
                events := s.events + [Genesis(admin, totalSupply), Minted(admin, totalSupply)]), ())
  }

  /** The sender-side checks that `transfer` makes on every call and `transfer_batch` makes once. */
  function SenderError(s: Ledger, env: Env, from: Address): Option<Error> {
    if s.meta.None? then Some(NotInitialized)
    else if s.meta.value.paused then Some(Paused)
    else if (s.meta.value.compliance, from) !in env.gate then Some(SenderNotCompliant)
    else None
  }

  /** The recipient-side check and the movement of one transfer. */
  function Deliver(s: Ledger, env: Env, from: Address, to: Address, amount: I128): Outcome<Ledger, ()>
    requires s.meta.Some? && amount > 0
  {
    var fromBal, toBal := Balance(s, from), Balance(s, to);
    if (s.meta.value.compliance, to) !in env.gate then Abort(RecipientNotCompliant)
    else if fromBal < amount then Abort(InsufficientBalance)
    else if from == to then Commit(Log(s, Transferred(from, to, amount, fromBal, fromBal)), ())
    else if toBal + amount > I128_MAX then Abort(Overflow)
    else
      Commit(Log(s.(balances := s.balances[from := fromBal - amount][to := toBal + amount]),
                 Transferred(from, to, amount, fromBal - amount, toBal + amount)), ())
  }

  function TransferOutcome(s: Ledger, env: Env, from: Address, to: Address, amount: I128): Outcome<Ledger, ()> {
    if from !in env.auth then Abort(HostTrap)
    else if amount <= 0 then Abort(InvalidAmount)
    else
      var e := SenderError(s, env, from);
      if e.Some? then Abort(e.value) else Deliver(s, env, from, to, amount)
  }

  function DeliverAll(s: Ledger, env: Env, from: Address, transfers: seq<Entry>): Outcome<Ledger, ()>
    requires s.meta.Some?
    decreases |transfers|
  {
    if transfers == [] then Commit(s, ())
    else if transfers[0].1 <= 0 then Abort(InvalidAmount)
    else
      match Deliver(s, env, from, transfers[0].0, transfers[0].1)
      case Abort(e) => Abort(e)
      case Commit(t, _) => DeliverAll(t, env, from, transfers[1..])
  }

  function TransferBatchOutcome(s: Ledger, env: Env, from: Address, transfers: seq<Entry>): Outcome<Ledger, ()> {
    if from !in env.auth then Abort(HostTrap)
    else
      var e := SenderError(s, env, from);
      if e.Some? then Abort(e.value) else DeliverAll(s, env, from, transfers)
  }

  /** `transfer_from` reads the recipient's balance after the sender's debit, so a self-transfer
      credits what it has just debited. */
  function TransferFromOutcome(s: Ledger, env: Env, spender: Address, from: Address, to: Address, amount: I128)
    : Outcome<Ledger, ()>
  {
    if spender !in env.auth then Abort(HostTrap)
    else if amount <= 0 then Abort(InvalidAmount)
    else
      var e := SenderError(s, env, from);
      if e.Some? then Abort(e.value)
      else if (s.meta.value.compliance, to) !in env.gate then Abort(RecipientNotCompliant)
      else
        var current := AllowanceOf(s, from, spender);
        var fromBal := Balance(s, from);
        if current.expiration < env.now || current.amount < amount then Abort(InsufficientAllowance)
        else if fromBal < amount then Abort(InsufficientBalance)
        else
          var debited := s.balances[from := fromBal - amount];
          var newToBal := Get(debited, to, 0) + amount;
          if newToBal > I128_MAX then Abort(Overflow)
          else
            Commit(Log(s.(balances := debited[to := newToBal],
                          allowances := s.allowances[(from, spender) := current.(amount := current.amount - amount)]),
                       Transferred(from, to, amount, fromBal - amount, newToBal)), ())
  }

  function ApproveOutcome(s: Ledger, env: Env, from: Address, spender: Address, amount: I128, expiration: U32)
    : Outcome<Ledger, ()>
  {
    if from !in env.auth then Abort(HostTrap)
    else if amount < 0 then Abort(InvalidAmount)
    else if s.meta.None? then Abort(NotInitialized)
    else if s.meta.value.paused then Abort(Paused)
    else if amount > 0 && expiration < env.now then Abort(InvalidInput)
    else
      Commit(Log(s.(allowances := s.allowances[(from, spender) := Allowance(amount, expiration)]),
                 Approved(from, spender, amount, expiration)), ())
  }

  /** One credit of new tokens on top of a running supply; the value is the new running supply. */
  function Credit(s: Ledger, env: Env, supply: I128, to: Address, amount: I128): Outcome<Ledger, I128>
    requires s.meta.Some? && amount > 0
  {
    var newToBal := Balance(s, to) + amount;
    if (s.meta.value.compliance, to) !in env.gate then Abort(RecipientNotCompliant)
    else if supply + amount > I128_MAX then Abort(Overflow)
    else if newToBal > I128_MAX then Abort(Overflow)
    else Commit(Log(s.(balances := s.balances[to := newToBal]), Minted(to, amount)), supply + amount)
  }

  function WithSupply(s: Ledger, supply: I128): Ledger
    requires s.meta.Some?
  {
    s.(meta := Some(s.meta.value.(totalSupply := supply)))
  }

  function MintOutcome(s: Ledger, env: Env, admin: Address, to: Address, amount: I128): Outcome<Ledger, ()> {
    var e := AdminCheck(s, env, admin);
    if e.Some? then Abort(e.value)
    else if amount <= 0 then Abort(InvalidAmount)
    else if s.meta.value.paused then Abort(Paused)
    else
      match Credit(s, env, s.meta.value.totalSupply, to, amount)
      case Abort(e) => Abort(e)
      case Commit(t, supply) => Commit(WithSupply(t, supply), ())
  }

  function CreditAll(s: Ledger, env: Env, supply: I128, recipients: seq<Entry>): (o: Outcome<Ledger, I128>)
    requires s.meta.Some?
    ensures o.Commit? ==> o.state.meta == s.meta
    decreases |recipients|
  {
    if recipients == [] then Commit(s, supply)
    else if recipients[0].1 <= 0 then Abort(InvalidAmount)
    else
      match Credit(s, env, supply, recipients[0].0, recipients[0].1)
      case Abort(e) => Abort(e)
      case Commit(t, running) => CreditAll(t, env, running, recipients[1..])
  }

  /** The batch writes the supply once, after the last entry. */
  function MintBatchOutcome(s: Ledger, env: Env, admin: Address, recipients: seq<Entry>): Outcome<Ledger, ()> {
    var e := AdminCheck(s, env, admin);
    if e.Some? then Abort(e.value)
    else if s.meta.value.paused then Abort(Paused)
    else
      match CreditAll(s, env, s.meta.value.totalSupply, recipients)
      case Abort(e) => Abort(e)
      case Commit(t, supply) => Commit(WithSupply(t, supply), ())
  }

  function BurnOutcome(s: Ledger, env: Env, from: Address, amount: I128): Outcome<Ledger, ()> {
    if from !in env.auth then Abort(HostTrap)
    else if amount <= 0 then Abort(InvalidAmount)
    else
      var e := SenderError(s, env, from);
      if e.Some? then Abort(e.value)
      else if Balance(s, from) < amount then Abort(InsufficientBalance)
      else if s.meta.value.totalSupply - amount < -I128_MAX - 1 then Abort(Overflow)
      else
        Commit(Log(WithSupply(s.(balances := s.balances[from := Balance(s, from) - amount]),
                              s.meta.value.totalSupply - amount),
                   Burned(from, amount)), ())
  }

  function WithMeta(s: Ledger, m: Metadata, e: Event): Outcome<Ledger, ()> {
    Commit(Log(s.(meta := Some(m)), e), ())
  }

  function PauseOutcome(s: Ledger, env: Env, caller: Address): Outcome<Ledger, ()> {
    if caller !in env.auth then Abort(HostTrap)
    else if s.meta.None? then Abort(NotInitialized)
    else if s.meta.value.admin != caller && s.meta.value.guardian != Some(caller) then Abort(Unauthorized)
    else WithMeta(s, s.meta.value.(paused := true), PauseSet(caller))
  }

  function UpdateValuationOutcome(s: Ledger, env: Env, admin: Address, newValuation: I128): Outcome<Ledger, ()> {
    var e := AdminCheck(s, env, admin);
    if e.Some? then Abort(e.value)
    else if newValuation < 0 then Abort(InvalidAmount)
    else
      var previous := s.meta.value.valuation;
      var diff := if newValuation < previous then previous - newValuation else newValuation - previous;
      if previous > 0 && previous * MAX_VALUATION_CHANGE_BPS > I128_MAX then Abort(Overflow)
      else if previous > 0 && diff > previous * MAX_VALUATION_CHANGE_BPS / BPS_DENOMINATOR
      then Abort(ValuationChangeTooLarge)
      else WithMeta(s, s.meta.value.(valuation := newValuation), Valued(previous, newValuation))
  }

  /** The calls that only an admin may make and that change nothing but the metadata. */
  function AdminOutcome(s: Ledger, env: Env, call: Call): Outcome<Ledger, ()>
    requires call.Unpause? || call.SetGuardian? || call.SetCompliance? || call.ProposeAdmin? || call.CancelProposal?
  {
    var e := AdminCheck(s, env, call.admin);
    if e.Some? then Abort(e.value)
    else
      var m := s.meta.value;
      match call
      case Unpause(admin) => WithMeta(s, m.(paused := false), PauseLifted(admin))
      case SetGuardian(admin, g) => WithMeta(s, m.(guardian := g), GuardianSet(g))
      case SetCompliance(admin, c) =>
        if (c, admin) !in env.gate then Abort(InvalidCompliance)
        else WithMeta(s, m.(compliance := c), ComplianceSet(m.compliance, c))
      case ProposeAdmin(admin, a) => WithMeta(s, m.(pendingAdmin := Some(a)), Handover(Proposed(admin, a)))
      case CancelProposal(admin) =>
        if m.pendingAdmin.None? then Abort(NoPendingAdmin)
        else WithMeta(s, m.(pendingAdmin := None), Handover(ProposalCancelled(admin)))
  }

  function AcceptAdminOutcome(s: Ledger, env: Env, newAdmin: Address): Outcome<Ledger, ()> {
    if newAdmin !in env.auth then Abort(HostTrap)
    else if s.meta.None? then Abort(NotInitialized)
    else if s.meta.value.pendingAdmin.None? then Abort(NoPendingAdmin)
    else if s.meta.value.pendingAdmin.value != newAdmin then Abort(Unauthorized)
    else
      var m := s.meta.value;
      WithMeta(s, m.(admin := newAdmin, pendingAdmin := None), Handover(AdminSet(m.admin, newAdmin)))
  }

  function CallOutcome(s: Ledger, env: Env, call: Call): Outcome<Ledger, ()> {
    match call
    case Initialize(_, _, _, _, _) => InitializeOutcome(s, env, call)
    case Transfer(from, to, amount) => TransferOutcome(s, env, from, to, amount)
    case TransferBatch(from, transfers) => TransferBatchOutcome(s, env, from, transfers)
    case TransferFrom(spender, from, to, amount) => TransferFromOutcome(s, env, spender, from, to, amount)
    case Approve(from, spender, amount, expiration) => ApproveOutcome(s, env, from, spender, amount, expiration)
    case Mint(admin, to, amount) => MintOutcome(s, env, admin, to, amount)
    case MintBatch(admin, recipients) => MintBatchOutcome(s, env, admin, recipients)
    case Burn(from, amount) => BurnOutcome(s, env, from, amount)
    case Pause(caller) => PauseOutcome(s, env, caller)
    case UpdateValuation(admin, v) => UpdateValuationOutcome(s, env, admin, v)
    case AcceptAdmin(newAdmin) => AcceptAdminOutcome(s, env, newAdmin)
    case _ => AdminOutcome(s, env, call)
  }

  /** One transaction: its writes are kept only if it commits. */
  function Step(s: Ledger, tx: Tx): Ledger {
    CallOutcome(s, tx.env, tx.call).After(s)
  }

  datatype Tx = Tx(env: Env, call: Call)

  function Run(s: Ledger, txs: seq<Tx>): Ledger
    decreases |txs|
  {
    if txs == [] then s else Run(Step(s, txs[0]), txs[1..])
  }
}
