/** What the four contracts share: addresses, integer widths, the outcome of an
    invocation and the two-step admin handover that three of them repeat. */
module Soroban {

  const I128_MAX: int := 0x7FFF_FFFF_FFFF_FFFF_FFFF_FFFF_FFFF_FFFF
  const U64_MAX: int := 0xFFFF_FFFF_FFFF_FFFF
  const U32_MAX: int := 0xFFFF_FFFF

  /** The host's fixed-width integers. */
  type I128 = x: int | -I128_MAX - 1 <= x <= I128_MAX
  type U64 = x: int | 0 <= x <= U64_MAX
  type U32 = x: int | 0 <= x <= U32_MAX

  datatype Address = Address(id: nat)

  datatype Option<+T> = None | Some(value: T)

  /** The contract errors of all four contracts. `HostTrap` stands for every
      failure the host raises itself: a missing signature, a checked-arithmetic
      panic, or a trap in a called contract. */
  datatype Error =
    | HostTrap | AlreadyInitialized | NotInitialized | Unauthorized | NoPendingAdmin
    | InvalidAmount | InvalidInput | Overflow
    // asset token
    | InsufficientBalance | InsufficientAllowance | Paused | SenderNotCompliant
    | RecipientNotCompliant | InvalidCompliance | ValuationChangeTooLarge
    // compliance
    | RecordNotFound | InvalidExpiry | InvalidJurisdiction | NotSuspended
    // dividend
    | DistributionNotFound | NothingToClaim | AlreadyClaimed | ZeroSupply | OverDistributed
    | ArithmeticOverflow | DuplicateHolder | DeadlinePassed | DeadlineNotReached | NoDeadline
    | DeadlineInPast
    // registry
    | AssetNotFound | InvalidValuation | DuplicateAsset

  datatype Result<+V> = Ok(value: V) | Err(error: Error)

  /** How an invocation ends: it commits a new state, or it aborts. */
  datatype Outcome<+S, +V> = Commit(state: S, value: V) | Abort(error: Error) {
    function Result(): Result<V> {
      match this
      case Commit(_, v) => Ok(v)
      case Abort(e) => Err(e)
    }

    /** The host keeps the writes of a committed invocation and discards those of an aborted one. */
    function After(before: S): S {
      match this
      case Commit(s, _) => s
      case Abort(_) => before
    }
  }

  /** A contract function that returned `r` and left `s` behind did what `o` says.
      Nothing is said of `s` after an error: the host is about to discard it. */
  ghost predicate Agrees<S, V>(r: Result<V>, s: S, o: Outcome<S, V>) {
    match o
    case Commit(t, v) => r == Ok(v) && s == t
    case Abort(e) => r == Err(e)
  }

  /** One line of a table of refusals: `e` if the check fails, and otherwise what the later lines say. */
  function When(fails: bool, e: Error, later: Option<Error>): Option<Error> {
    if fails then Some(e) else later
  }

  /** `o` refuses with exactly the error of the table, and commits exactly if the table has none. */
  ghost predicate Refuses<S, V>(o: Outcome<S, V>, table: Option<Error>) {
    (o.Commit? <==> table.None?) && (o.Abort? ==> table == Some(o.error))
  }

  function Get<K, V>(m: map<K, V>, k: K, default: V): V {
    if k in m then m[k] else default
  }

  function Min(a: int, b: int): int {
    if a < b then a else b
  }

  /** The admin role and the nomination in flight. */
  datatype Roles = Roles(admin: Option<Address>, pending: Option<Address>)

  datatype RoleCall =
    | Initialize(admin: Address)
    | Propose(admin: Address, newAdmin: Address)
    | CancelProposal(admin: Address)
    | Accept(newAdmin: Address)

  /** What the role calls publish. */
  datatype RoleEvent =
    | Initialized(admin: Address)
    | Proposed(admin: Address, newAdmin: Address)
    | ProposalCancelled(admin: Address)
    | AdminSet(previous: Address, next: Address)

  /** The error `require_admin` raises, if any. */
  function AdminError(roles: Roles, auth: set<Address>, admin: Address): Option<Error> {
    if roles.admin.None? then Some(NotInitialized)
    else if admin !in auth then Some(HostTrap)
    else if roles.admin.value != admin then Some(Unauthorized)
    else None
  }

  /** The error `require_admin_or_asset_admin` raises, if any; `assetAdmin` is the admin that the asset's
      token contract reports, None if the call into it traps. */
  function ManagerError(roles: Roles, auth: set<Address>, assetAdmin: Option<Address>, admin: Address): Option<Error> {
    if roles.admin.None? then Some(NotInitialized)
    else if admin !in auth then Some(HostTrap)
    else if roles.admin.value == admin then None
    else if assetAdmin.None? then Some(HostTrap)
    else if assetAdmin.value == admin then None
    else Some(Unauthorized)
  }

  /** The value is the event published. */
  function RoleOutcome(roles: Roles, auth: set<Address>, call: RoleCall): Outcome<Roles, RoleEvent> {
    match call
    case Initialize(admin) =>
      if roles.admin.Some? then Abort(AlreadyInitialized)
      else if admin !in auth then Abort(HostTrap)
      else Commit(roles.(admin := Some(admin)), Initialized(admin))
    case Propose(admin, newAdmin) =>
      var e := AdminError(roles, auth, admin);
      if e.Some? then Abort(e.value) else Commit(roles.(pending := Some(newAdmin)), Proposed(admin, newAdmin))
    case CancelProposal(admin) =>
      var e := AdminError(roles, auth, admin);
      if e.Some? then Abort(e.value)
      else if roles.pending.None? then Abort(NoPendingAdmin)
      else Commit(roles.(pending := None), ProposalCancelled(admin))
    case Accept(newAdmin) =>
      if newAdmin !in auth then Abort(HostTrap)
      else if roles.pending.None? then Abort(NoPendingAdmin)
      else if roles.pending.value != newAdmin then Abort(Unauthorized)
      else if roles.admin.None? then Abort(NotInitialized)
      else Commit(Roles(Some(newAdmin), None), AdminSet(roles.admin.value, newAdmin))
  }

  /** Only the admin nominates and withdraws, and the role moves only to the nominee, who signs. */
  lemma RoleEffect(roles: Roles, auth: set<Address>, admin: Address, a: Address)
    ensures var o := RoleOutcome(roles, auth, RoleCall.Initialize(admin));
            && Refuses(o, When(roles.admin.Some?, AlreadyInitialized, When(admin !in auth, HostTrap, None)))
            && (o.Commit? ==> o.state == Roles(Some(admin), roles.pending) && o.value == Initialized(admin))
    ensures var o := RoleOutcome(roles, auth, Propose(admin, a));
            && Refuses(o, AdminRefusal(roles, auth, admin, None))
            && (o.Commit? ==> o.state == Roles(roles.admin, Some(a)) && o.value == Proposed(admin, a))
    ensures var o := RoleOutcome(roles, auth, CancelProposal(admin));
            && Refuses(o, AdminRefusal(roles, auth, admin, When(roles.pending.None?, NoPendingAdmin, None)))
            && (o.Commit? ==> o.state == Roles(roles.admin, None) && o.value == ProposalCancelled(admin))
    ensures var o := RoleOutcome(roles, auth, Accept(a));
            && Refuses(o,
                 When(a !in auth, HostTrap,
                 When(roles.pending.None?, NoPendingAdmin,
                 When(roles.pending != Some(a), Unauthorized,
                 When(roles.admin.None?, NotInitialized, None)))))
            && (o.Commit? ==> o.state == Roles(Some(a), None) && o.value == AdminSet(roles.admin.value, a))
  {
  }

  /** The refusals of every call that is the admin's alone. */
  function AdminRefusal(roles: Roles, auth: set<Address>, admin: Address, later: Option<Error>): Option<Error> {
    When(roles.admin.None?, NotInitialized,
    When(admin !in auth, HostTrap,
    When(roles.admin != Some(admin), Unauthorized, later)))
  }
}
