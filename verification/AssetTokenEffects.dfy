/** What each call of the asset token does for its caller: when it is refused and with which error, and what a
    committed one leaves, in terms of its arguments and of what everybody can read. */
module AssetTokenEffects {
  import opened Soroban
  import opened AssetToken
  import opened AssetTokenProofs

  // ---- what everybody can read ----

  predicate Uninitialized(s: Ledger) {
    s.meta.None?
  }

  predicate Stopped(s: Ledger) {
    s.meta.Some? && s.meta.value.paused
  }

  predicate Allows(s: Ledger, env: Env, a: Address) {
    s.meta.Some? && (s.meta.value.compliance, a) in env.gate
  }

  predicate IsAdmin(s: Ledger, a: Address) {
    s.meta.Some? && s.meta.value.admin == a
  }

  predicate IsGuardian(s: Ledger, a: Address) {
    s.meta.Some? && s.meta.value.guardian == Some(a)
  }

  function Nominee(s: Ledger): Option<Address> {
    if s.meta.Some? then s.meta.value.pendingAdmin else None
  }

  /** `amount` has gone from `from` to `to`, nothing if they are the same, and nobody else has gained or lost. */
  ghost predicate Moved(s: Ledger, t: Ledger, from: Address, to: Address, amount: int) {
    forall a :: Balance(t, a) == Balance(s, a) - (if a == from then amount else 0) + (if a == to then amount else 0)
  }

  /** `a` has gained `amount`, and nobody else has gained or lost. */
  ghost predicate Gained(s: Ledger, t: Ledger, a: Address, amount: int) {
    forall x :: Balance(t, x) == Balance(s, x) + if x == a then amount else 0
  }

  ghost predicate SameAllowances(s: Ledger, t: Ledger) {
    forall from, spender :: AllowanceOf(t, from, spender) == AllowanceOf(s, from, spender)
  }

  /** Nothing is changed but one allowance. */
  ghost predicate OnlyAllowance(s: Ledger, t: Ledger, from: Address, spender: Address, to: Allowance) {
    forall f, p :: AllowanceOf(t, f, p) == if f == from && p == spender then to else AllowanceOf(s, f, p)
  }

  // ---- movements ----

  lemma TransferEffect(txs: seq<Tx>, env: Env, from: Address, to: Address, amount: I128)
    ensures var s := Run(EMPTY, txs);
            var o := CallOutcome(s, env, Transfer(from, to, amount));
            && Refuses(o,
                 When(from !in env.auth, HostTrap,
                 When(amount <= 0, InvalidAmount,
                 When(Uninitialized(s), NotInitialized,
                 When(Stopped(s), Paused,
                 When(!Allows(s, env, from), SenderNotCompliant,
                 When(!Allows(s, env, to), RecipientNotCompliant,
                 When(Balance(s, from) < amount, InsufficientBalance, None))))))))
            && (o.Commit? ==>
                  && Moved(s, o.state, from, to, amount) && o.state.meta == s.meta && SameAllowances(s, o.state)
                  && o.state.events
                     == s.events + [Transferred(from, to, amount, Balance(o.state, from), Balance(o.state, to))])
  {
    var s := Run(EMPTY, txs);
    SupplyConserved(txs);
    if s.meta.Some? && amount > 0 {
      DeliverKeepsInv(s, env, from, to, amount);
    }
    hide Run;
  }

  /** A batch without entries makes the sender's checks and moves nothing; any other is a sequence of transfers. */
  lemma EmptyBatchEffect(s: Ledger, env: Env, from: Address)
    ensures var o := CallOutcome(s, env, TransferBatch(from, []));
            && Refuses(o,
                 When(from !in env.auth, HostTrap,
                 When(Uninitialized(s), NotInitialized,
                 When(Stopped(s), Paused,
                 When(!Allows(s, env, from), SenderNotCompliant, None)))))
            && (o.Commit? ==> o.state == s)
  {
  }

  lemma TransferFromEffect(txs: seq<Tx>, env: Env, spender: Address, from: Address, to: Address, amount: I128)
    ensures var s := Run(EMPTY, txs);
            var o := CallOutcome(s, env, TransferFrom(spender, from, to, amount));
            var allowance := AllowanceOf(s, from, spender);
            && Refuses(o,
                 When(spender !in env.auth, HostTrap,
                 When(amount <= 0, InvalidAmount,
                 When(Uninitialized(s), NotInitialized,
                 When(Stopped(s), Paused,
                 When(!Allows(s, env, from), SenderNotCompliant,
                 When(!Allows(s, env, to), RecipientNotCompliant,
                 When(env.now > allowance.expiration || allowance.amount < amount, InsufficientAllowance,
                 When(Balance(s, from) < amount, InsufficientBalance, None)))))))))
            && (o.Commit? ==>
                  && Moved(s, o.state, from, to, amount) && o.state.meta == s.meta
                  && OnlyAllowance(s, o.state, from, spender, allowance.(amount := allowance.amount - amount))
                  && o.state.events
                     == s.events + [Transferred(from, to, amount, Balance(s, from) - amount, Balance(o.state, to))])
            && (amount > 0 ==> (env.now > allowance.expiration || allowance.amount < amount
                                <==> Spendable(s, env.now, from, spender) < amount))
  {
    SupplyConserved(txs);
    TransferFromKeepsInv(Run(EMPTY, txs), env, spender, from, to, amount);
    hide Run;
  }

  lemma ApproveEffect(s: Ledger, env: Env, from: Address, spender: Address, amount: I128, expiration: U32)
    ensures var o := CallOutcome(s, env, Approve(from, spender, amount, expiration));
            && Refuses(o,
                 When(from !in env.auth, HostTrap,
                 When(amount < 0, InvalidAmount,
                 When(Uninitialized(s), NotInitialized,
                 When(Stopped(s), Paused,
                 When(amount > 0 && expiration < env.now, InvalidInput, None))))))
            && (o.Commit? ==>
                  && OnlyAllowance(s, o.state, from, spender, Allowance(amount, expiration))
                  && o.state.balances == s.balances && o.state.meta == s.meta
                  && o.state.events == s.events + [Approved(from, spender, amount, expiration)])
  {
  }

  // ---- supply ----

  lemma MintEffect(txs: seq<Tx>, env: Env, admin: Address, to: Address, amount: I128)
    ensures var s := Run(EMPTY, txs);
            var o := CallOutcome(s, env, Mint(admin, to, amount));
            && Refuses(o,
                 When(Uninitialized(s), NotInitialized,
                 When(admin !in env.auth, HostTrap,
                 When(!IsAdmin(s, admin), Unauthorized,
                 When(amount <= 0, InvalidAmount,
                 When(Stopped(s), Paused,
                 When(!Allows(s, env, to), RecipientNotCompliant,
                 When(Supply(s) + amount > I128_MAX, Overflow, None))))))))
            && (o.Commit? ==>
                  && Gained(s, o.state, to, amount) && SameAllowances(s, o.state)
                  && o.state.meta == Some(s.meta.value.(totalSupply := s.meta.value.totalSupply + amount))
                  && o.state.events == s.events + [Minted(to, amount)])
  {
    SupplyConserved(txs);
    var s := Run(EMPTY, txs);
    if s.meta.Some? && amount > 0 && s.meta.value.totalSupply + amount <= I128_MAX {
      CreditKeepsSum(s.balances, s.meta.value.totalSupply, to, amount);
    }
    hide Run;
  }

  /** A batch without entries makes the admin's checks and mints nothing; any other is a sequence of mints. */
  lemma EmptyMintEffect(s: Ledger, env: Env, admin: Address)
    ensures var o := CallOutcome(s, env, MintBatch(admin, []));
            && Refuses(o,
                 When(Uninitialized(s), NotInitialized,
                 When(admin !in env.auth, HostTrap,
                 When(!IsAdmin(s, admin), Unauthorized,
                 When(Stopped(s), Paused, None)))))
            && (o.Commit? ==> o.state == s)
  {
  }

  /** Burning is gated by the holder's own compliance. */
  lemma BurnEffect(txs: seq<Tx>, env: Env, from: Address, amount: I128)
    ensures var s := Run(EMPTY, txs);
            var o := CallOutcome(s, env, Burn(from, amount));
            && Refuses(o,
                 When(from !in env.auth, HostTrap,
                 When(amount <= 0, InvalidAmount,
                 When(Uninitialized(s), NotInitialized,
                 When(Stopped(s), Paused,
                 When(!Allows(s, env, from), SenderNotCompliant,
                 When(Balance(s, from) < amount, InsufficientBalance, None)))))))
            && (o.Commit? ==>
                  && Gained(s, o.state, from, -(amount as int)) && SameAllowances(s, o.state)
                  && o.state.meta == Some(s.meta.value.(totalSupply := s.meta.value.totalSupply - amount))
                  && o.state.events == s.events + [Burned(from, amount)])
  {
    SupplyConserved(txs);
    BurnKeepsInv(Run(EMPTY, txs), env, from, amount);
    hide Run;
  }

  lemma InitializeEffect(s: Ledger, env: Env, admin: Address, about: Particulars, supply: I128, compliance: Address,
                         valuation: I128)
    ensures var o := CallOutcome(s, env, Call.Initialize(admin, about, supply, compliance, valuation));
            && Refuses(o,
                 When(!Uninitialized(s), AlreadyInitialized,
                 When(admin !in env.auth, HostTrap,
                 When(supply < 0 || valuation < 0, InvalidAmount,
                 When(!(1 <= |about.name| <= 64 && 1 <= |about.symbol| <= 16), InvalidInput,
                 When(!(1 <= |about.assetType| <= 32 && 1 <= |about.description| <= 256), InvalidInput,
                 When((compliance, admin) !in env.gate, RecipientNotCompliant, None)))))))
            && (o.Commit? ==>
                  && o.state.meta.Some? && o.state.meta.value.about == about && o.state.meta.value.totalSupply == supply
                  && IsAdmin(o.state, admin) && o.state.meta.value.compliance == compliance
                  && o.state.meta.value.valuation == valuation && !Stopped(o.state)
                  && o.state.meta.value.guardian.None? && Nominee(o.state).None?
                  && (forall a :: Balance(o.state, a) == if a == admin then supply else Balance(s, a))
                  && SameAllowances(s, o.state)
                  && o.state.events == s.events + [Genesis(admin, supply), Minted(admin, supply)])
  {
  }

  // ---- administration: nothing but the metadata changes ----

  ghost predicate OnlyMeta(s: Ledger, t: Ledger, m: Metadata, e: Event) {
    t == s.(meta := Some(m), events := s.events + [e])
  }

  /** The refusals of every call that is the admin's alone. */
  function MetaRefusal(s: Ledger, env: Env, admin: Address, later: Option<Error>): Option<Error> {
    When(Uninitialized(s), NotInitialized,
    When(admin !in env.auth, HostTrap,
    When(!IsAdmin(s, admin), Unauthorized, later)))
  }

  lemma UpdateValuationEffect(s: Ledger, env: Env, admin: Address, v: I128)
    ensures var o := CallOutcome(s, env, UpdateValuation(admin, v));
            var previous := if s.meta.Some? then s.meta.value.valuation as int else 0;
            && Refuses(o, MetaRefusal(s, env, admin,
                 When(v < 0, InvalidAmount,
                 When(previous * 5_000 > I128_MAX, Overflow,
                 When(previous > 0 && !(previous <= 2 * v <= 3 * previous), ValuationChangeTooLarge, None)))))
            && (o.Commit? ==> OnlyMeta(s, o.state, s.meta.value.(valuation := v), Valued(s.meta.value.valuation, v)))
  {
  }

  lemma PauseEffect(s: Ledger, env: Env, caller: Address)
    ensures var o := CallOutcome(s, env, Pause(caller));
            && Refuses(o,
                 When(caller !in env.auth, HostTrap,
                 When(Uninitialized(s), NotInitialized,
                 When(!IsAdmin(s, caller) && !IsGuardian(s, caller), Unauthorized, None))))
            && (o.Commit? ==> OnlyMeta(s, o.state, s.meta.value.(paused := true), PauseSet(caller)))
  {
  }

  lemma AdministrationEffect(s: Ledger, env: Env, admin: Address, guardian: Option<Address>, a: Address)
    ensures var o := CallOutcome(s, env, Unpause(admin));
            && Refuses(o, MetaRefusal(s, env, admin, None))
            && (o.Commit? ==> OnlyMeta(s, o.state, s.meta.value.(paused := false), PauseLifted(admin)))
    ensures var o := CallOutcome(s, env, SetGuardian(admin, guardian));
            && Refuses(o, MetaRefusal(s, env, admin, None))
            && (o.Commit? ==> OnlyMeta(s, o.state, s.meta.value.(guardian := guardian), GuardianSet(guardian)))
    ensures var o := CallOutcome(s, env, SetCompliance(admin, a));
            && Refuses(o, MetaRefusal(s, env, admin, When((a, admin) !in env.gate, InvalidCompliance, None)))
            && (o.Commit? ==>
                  OnlyMeta(s, o.state, s.meta.value.(compliance := a), ComplianceSet(s.meta.value.compliance, a)))
  {
  }

  /** The role moves only to the nominee, who signs; nominations are the admin's to make and to withdraw. */
  lemma HandoverEffect(s: Ledger, env: Env, admin: Address, a: Address)
    ensures var o := CallOutcome(s, env, ProposeAdmin(admin, a));
            && Refuses(o, MetaRefusal(s, env, admin, None))
            && (o.Commit? ==>
                  OnlyMeta(s, o.state, s.meta.value.(pendingAdmin := Some(a)), Handover(Proposed(admin, a))))
    ensures var o := CallOutcome(s, env, Call.CancelProposal(admin));
            && Refuses(o, MetaRefusal(s, env, admin, When(Nominee(s).None?, NoPendingAdmin, None)))
            && (o.Commit? ==>
                  OnlyMeta(s, o.state, s.meta.value.(pendingAdmin := None), Handover(ProposalCancelled(admin))))
    ensures var o := CallOutcome(s, env, AcceptAdmin(a));
            && Refuses(o,
                 When(a !in env.auth, HostTrap,
                 When(Uninitialized(s), NotInitialized,
                 When(Nominee(s).None?, NoPendingAdmin,
                 When(Nominee(s) != Some(a), Unauthorized, None)))))
            && (o.Commit? ==>
                  OnlyMeta(s, o.state, s.meta.value.(admin := a, pendingAdmin := None),
                           Handover(AdminSet(s.meta.value.admin, a))))
  {
  }
}
