/** The asset token as the contract runs: storage entries read, changed and written one by one. */
module AssetTokenContract {
  import opened Soroban
  import opened AssetToken

  class Contract {
    var meta: Option<Metadata>
    var balances: map<Address, I128>
    var allowances: map<(Address, Address), Allowance>
    var events: seq<Event>

    function State(): Ledger
      reads this
    {
      Ledger(meta, balances, allowances, events)
    }

    constructor ()
      ensures State() == EMPTY
    {
      meta, balances, allowances, events := None, map[], map[], [];
    }

    method ReadBalance(id: Address) returns (b: I128)
      ensures b == Balance(State(), id)
    {
      b := if id in balances then balances[id] else 0;
    }

    method ReadAllowance(env: Env, from: Address, spender: Address) returns (a: I128)
      ensures a == Spendable(State(), env.now, from, spender)
    {
      if (from, spender) in allowances {
        var v := allowances[(from, spender)];
        if v.expiration >= env.now {
          return v.amount;
        }
      }
      a := 0;
    }

    method RequireAdmin(env: Env, admin: Address) returns (r: Result<Metadata>)
      ensures match AdminCheck(State(), env, admin)
              case Some(e) => r == Err(e)
              case None => meta.Some? && r == Ok(meta.value)
    {
      if meta.None? {
        return Err(NotInitialized);
      }
      if admin !in env.auth {
        return Err(HostTrap);
      }
      if meta.value.admin != admin {
        return Err(Unauthorized);
      }
      r := Ok(meta.value);
    }

    method Publish(e: Event)
      modifies this`events
      ensures State() == Log(old(State()), e)
    {
      events := events + [e];
    }

    /** check_str */
    method CheckLength(s: string, min: nat, max: nat) returns (ok: bool)
      ensures ok == (min <= |s| <= max)
    {
      var len := |s|;
      ok := !(len < min || len > max);
    }

    method Initialize(env: Env, admin: Address, about: Particulars, totalSupply: I128, compliance: Address,
                      valuation: I128)
      returns (r: Result<()>)
      modifies this
      ensures var call := Call.Initialize(admin, about, totalSupply, compliance, valuation);
              Agrees(r, State(), InitializeOutcome(old(State()), env, call))
    {
      if meta.Some? {
        return Err(AlreadyInitialized);
      }
      if admin !in env.auth {
        return Err(HostTrap);
      }
      if totalSupply < 0 || valuation < 0 {
        return Err(InvalidAmount);
      }
      var nameOk := CheckLength(about.name, 1, MAX_NAME_LEN);
      if !nameOk {
        return Err(InvalidInput);
      }
      var symbolOk := CheckLength(about.symbol, 1, MAX_SYMBOL_LEN);
      if !symbolOk {
        return Err(InvalidInput);
      }
      var typeOk := CheckLength(about.assetType, 1, MAX_ASSET_TYPE_LEN);
      if !typeOk {
        return Err(InvalidInput);
      }
      var descriptionOk := CheckLength(about.description, 1, MAX_DESC_LEN);
      if !descriptionOk {
        return Err(InvalidInput);
      }
      if (compliance, admin) !in env.gate {
        return Err(RecipientNotCompliant);
      }
      meta := Some(Metadata(about, totalSupply, admin, compliance, valuation, false, None, None));
      balances := balances[admin := totalSupply];
      Publish(Genesis(admin, totalSupply));
      Publish(Minted(admin, totalSupply));
      r := Ok(());
    }

    method Transfer(env: Env, from: Address, to: Address, amount: I128) returns (r: Result<()>)
      modifies this
      ensures Agrees(r, State(), TransferOutcome(old(State()), env, from, to, amount))
    {
      if from !in env.auth {
        return Err(HostTrap);
      }
      if amount <= 0 {
        return Err(InvalidAmount);
      }
      if meta.None? {
        return Err(NotInitialized);
      }
      if meta.value.paused {
        return Err(Paused);
      }
      if (meta.value.compliance, from) !in env.gate {
        return Err(SenderNotCompliant);
      }
      if (meta.value.compliance, to) !in env.gate {
        return Err(RecipientNotCompliant);
      }
      var fromBal := ReadBalance(from);
      if fromBal < amount {
        return Err(InsufficientBalance);
      }
      if from == to {
        Publish(Transferred(from, to, amount, fromBal, fromBal));
        return Ok(());
      }
      var toBal := ReadBalance(to);
      var newFromBal := fromBal - amount;
      balances := balances[from := newFromBal];
      if toBal + amount > I128_MAX {
        return Err(Overflow);  // the debit is already written
      }
      var newToBal := toBal + amount;
      balances := balances[to := newToBal];
      Publish(Transferred(from, to, amount, newFromBal, newToBal));
      r := Ok(());
    }

    /** One entry of a batch. */
    method DeliverOne(env: Env, from: Address, to: Address, amount: I128) returns (r: Result<()>)
      requires meta.Some? && amount > 0
      modifies this`balances, this`events
      ensures Agrees(r, State(), Deliver(old(State()), env, from, to, amount))
    {
      if (meta.value.compliance, to) !in env.gate {
        return Err(RecipientNotCompliant);
      }
      var fromBal := ReadBalance(from);
      if fromBal < amount {
        return Err(InsufficientBalance);
      }
      if from == to {
        Publish(Transferred(from, to, amount, fromBal, fromBal));
        return Ok(());
      }
      var toBal := ReadBalance(to);
      var newFromBal := fromBal - amount;
      balances := balances[from := newFromBal];
      if toBal + amount > I128_MAX {
        return Err(Overflow);
      }
      var newToBal := toBal + amount;
      balances := balances[to := newToBal];
      Publish(Transferred(from, to, amount, newFromBal, newToBal));
      r := Ok(());
    }

    method TransferBatch(env: Env, from: Address, transfers: seq<Entry>) returns (r: Result<()>)
      modifies this
      ensures Agrees(r, State(), TransferBatchOutcome(old(State()), env, from, transfers))
    {
      if from !in env.auth {
        return Err(HostTrap);
      }
      if meta.None? {
        return Err(NotInitialized);
      }
      if meta.value.paused {
        return Err(Paused);
      }
      if (meta.value.compliance, from) !in env.gate {
        return Err(SenderNotCompliant);
      }
      hide Deliver;
      for i := 0 to |transfers|
        invariant meta == old(meta)
        invariant DeliverAll(State(), env, from, transfers[i..]) == DeliverAll(old(State()), env, from, transfers)
      {
        var (to, amount) := transfers[i];
        assert transfers[i..][0] == transfers[i] && transfers[i..][1..] == transfers[i + 1..];
        if amount <= 0 {
          return Err(InvalidAmount);
        }
        var done := DeliverOne(env, from, to, amount);
        if done.Err? {
          return done;
        }
      }
      r := Ok(());
    }

    method TransferFrom(env: Env, spender: Address, from: Address, to: Address, amount: I128) returns (r: Result<()>)
      modifies this
      ensures Agrees(r, State(), TransferFromOutcome(old(State()), env, spender, from, to, amount))
    {
      if spender !in env.auth {
        return Err(HostTrap);
      }
      if amount <= 0 {
        return Err(InvalidAmount);
      }
      if meta.None? {
        return Err(NotInitialized);
      }
      if meta.value.paused {
        return Err(Paused);
      }
      if (meta.value.compliance, from) !in env.gate {
        return Err(SenderNotCompliant);
      }
      if (meta.value.compliance, to) !in env.gate {
        return Err(RecipientNotCompliant);
      }
      var current := if (from, spender) in allowances then allowances[(from, spender)] else Allowance(0, 0);
      if current.expiration < env.now || current.amount < amount {
        return Err(InsufficientAllowance);
      }
      var fromBal := ReadBalance(from);
      if fromBal < amount {
        return Err(InsufficientBalance);
      }
      var newFromBal := fromBal - amount;
      balances := balances[from := newFromBal];
      var toBal := ReadBalance(to);
      if toBal + amount > I128_MAX {
        return Err(Overflow);
      }
      var newToBal := toBal + amount;
      balances := balances[to := newToBal];
      allowances := allowances[(from, spender) := Allowance(current.amount - amount, current.expiration)];
      Publish(Transferred(from, to, amount, newFromBal, newToBal));
      r := Ok(());
    }

    method Approve(env: Env, from: Address, spender: Address, amount: I128, expiration: U32) returns (r: Result<()>)
      modifies this
      ensures Agrees(r, State(), ApproveOutcome(old(State()), env, from, spender, amount, expiration))
    {
      if from !in env.auth {
        return Err(HostTrap);
      }
      if amount < 0 {
        return Err(InvalidAmount);
      }
      if meta.None? {
        return Err(NotInitialized);
      }
      if meta.value.paused {
        return Err(Paused);
      }
      if amount > 0 && expiration < env.now {
        return Err(InvalidInput);
      }
      allowances := allowances[(from, spender) := Allowance(amount, expiration)];
      Publish(Approved(from, spender, amount, expiration));
      r := Ok(());
    }

    method Mint(env: Env, admin: Address, to: Address, amount: I128) returns (r: Result<()>)
      modifies this
      ensures Agrees(r, State(), MintOutcome(old(State()), env, admin, to, amount))
    {
      var checked := RequireAdmin(env, admin);
      if checked.Err? {
        return Err(checked.error);
      }
      var m := checked.value;
      if amount <= 0 {
        return Err(InvalidAmount);
      }
      if m.paused {
        return Err(Paused);
      }
      if (m.compliance, to) !in env.gate {
        return Err(RecipientNotCompliant);
      }
      if m.totalSupply + amount > I128_MAX {
        return Err(Overflow);
      }
      var toBal := ReadBalance(to);
      if toBal + amount > I128_MAX {
        return Err(Overflow);
      }
      balances := balances[to := toBal + amount];
      meta := Some(m.(totalSupply := m.totalSupply + amount));
      Publish(Minted(to, amount));
      r := Ok(());
    }

    /** One entry of a mint batch, on top of a running supply. */
    method CreditOne(env: Env, supply: I128, to: Address, amount: I128) returns (r: Result<I128>)
      requires meta.Some? && amount > 0
      modifies this`balances, this`events
      ensures Agrees(r, State(), Credit(old(State()), env, supply, to, amount))
    {
      if (meta.value.compliance, to) !in env.gate {
        return Err(RecipientNotCompliant);
      }
      if supply + amount > I128_MAX {
        return Err(Overflow);
      }
      var newSupply := supply + amount;
      var toBal := ReadBalance(to);
      if toBal + amount > I128_MAX {
        return Err(Overflow);
      }
      balances := balances[to := toBal + amount];
      Publish(Minted(to, amount));
      r := Ok(newSupply);
    }

    method MintBatch(env: Env, admin: Address, recipients: seq<Entry>) returns (r: Result<()>)
      modifies this
      ensures Agrees(r, State(), MintBatchOutcome(old(State()), env, admin, recipients))
    {
      var checked := RequireAdmin(env, admin);
      if checked.Err? {
        return Err(checked.error);
      }
      var m := checked.value;
      if m.paused {
        return Err(Paused);
      }
      var newSupply: I128 := m.totalSupply;
      hide Credit;
      for i := 0 to |recipients|
        invariant meta == old(meta)
        invariant CreditAll(State(), env, newSupply, recipients[i..])
               == CreditAll(old(State()), env, m.totalSupply, recipients)
      {
        var (to, amount) := recipients[i];
        assert recipients[i..][0] == recipients[i] && recipients[i..][1..] == recipients[i + 1..];
        if amount <= 0 {
          return Err(InvalidAmount);
        }
        var done := CreditOne(env, newSupply, to, amount);
        if done.Err? {
          return Err(done.error);
        }
        newSupply := done.value;
      }
      meta := Some(m.(totalSupply := newSupply));
      r := Ok(());
    }

    method Burn(env: Env, from: Address, amount: I128) returns (r: Result<()>)
      modifies this
      ensures Agrees(r, State(), BurnOutcome(old(State()), env, from, amount))
    {
      if from !in env.auth {
        return Err(HostTrap);
      }
      if amount <= 0 {
        return Err(InvalidAmount);
      }
      if meta.None? {
        return Err(NotInitialized);
      }
      var m := meta.value;
      if m.paused {
        return Err(Paused);
      }
      if (m.compliance, from) !in env.gate {
        return Err(SenderNotCompliant);
      }
      var fromBal := ReadBalance(from);
      if fromBal < amount {
        return Err(InsufficientBalance);
      }
      balances := balances[from := fromBal - amount];
      if m.totalSupply - amount < -I128_MAX - 1 {
        return Err(Overflow);
      }
      meta := Some(m.(totalSupply := m.totalSupply - amount));
      Publish(Burned(from, amount));
      r := Ok(());
    }

    method Pause(env: Env, caller: Address) returns (r: Result<()>)
      modifies this
      ensures Agrees(r, State(), PauseOutcome(old(State()), env, caller))
    {
      if caller !in env.auth {
        return Err(HostTrap);
      }
      if meta.None? {
        return Err(NotInitialized);
      }
      var isGuardian := meta.value.guardian == Some(caller);
      if meta.value.admin != caller && !isGuardian {
        return Err(Unauthorized);
      }
      meta := Some(meta.value.(paused := true));
      Publish(PauseSet(caller));
      r := Ok(());
    }

    method UpdateValuation(env: Env, admin: Address, newValuation: I128) returns (r: Result<()>)
      modifies this
      ensures Agrees(r, State(), UpdateValuationOutcome(old(State()), env, admin, newValuation))
    {
      var checked := RequireAdmin(env, admin);
      if checked.Err? {
        return Err(checked.error);
      }
      var m := checked.value;
      if newValuation < 0 {
        return Err(InvalidAmount);
      }
      var oldValuation := m.valuation;
      if oldValuation > 0 {
        var diff := newValuation - oldValuation;
        diff := if diff < 0 then -diff else diff;
        if oldValuation * MAX_VALUATION_CHANGE_BPS > I128_MAX {
          return Err(Overflow);
        }
        var maxChange := oldValuation * MAX_VALUATION_CHANGE_BPS / BPS_DENOMINATOR;
        if diff > maxChange {
          return Err(ValuationChangeTooLarge);
        }
      }
      meta := Some(m.(valuation := newValuation));
      Publish(Valued(oldValuation, newValuation));
      r := Ok(());
    }

    /** unpause, set_guardian, set_compliance, propose_admin and cancel_admin_proposal. */
    method Administer(env: Env, call: Call) returns (r: Result<()>)
      requires call.Unpause? || call.SetGuardian? || call.SetCompliance? || call.ProposeAdmin? || call.CancelProposal?
      modifies this
      ensures Agrees(r, State(), AdminOutcome(old(State()), env, call))
    {
      var checked := RequireAdmin(env, call.admin);
      if checked.Err? {
        return Err(checked.error);
      }
      var m := checked.value;
      match call {
        case Unpause(admin) =>
          meta := Some(m.(paused := false));
          Publish(PauseLifted(admin));
        case SetGuardian(admin, guardian) =>
          meta := Some(m.(guardian := guardian));
          Publish(GuardianSet(guardian));
        case SetCompliance(admin, compliance) =>
          if (compliance, admin) !in env.gate {
            return Err(InvalidCompliance);
          }
          meta := Some(m.(compliance := compliance));
          Publish(ComplianceSet(m.compliance, compliance));
        case ProposeAdmin(admin, newAdmin) =>
          meta := Some(m.(pendingAdmin := Some(newAdmin)));
          Publish(Handover(Proposed(admin, newAdmin)));
        case CancelProposal(admin) =>
          if m.pendingAdmin.None? {
            return Err(NoPendingAdmin);
          }
          meta := Some(m.(pendingAdmin := None));
          Publish(Handover(ProposalCancelled(admin)));
      }
      r := Ok(());
    }

    method AcceptAdmin(env: Env, newAdmin: Address) returns (r: Result<()>)
      modifies this
      ensures Agrees(r, State(), AcceptAdminOutcome(old(State()), env, newAdmin))
    {
      if newAdmin !in env.auth {
        return Err(HostTrap);
      }
      if meta.None? {
        return Err(NotInitialized);
      }
      if meta.value.pendingAdmin.None? {
        return Err(NoPendingAdmin);
      }
      if meta.value.pendingAdmin.value != newAdmin {
        return Err(Unauthorized);
      }
      var oldAdmin := meta.value.admin;
      meta := Some(meta.value.(admin := newAdmin, pendingAdmin := None));
      Publish(Handover(AdminSet(oldAdmin, newAdmin)));
      r := Ok(());
    }

    /** The contract's entry points. */
    method Dispatch(tx: Tx) returns (r: Result<()>)
      modifies this
      ensures Agrees(r, State(), CallOutcome(old(State()), tx.env, tx.call))
    {
      hide InitializeOutcome, TransferOutcome, TransferBatchOutcome, TransferFromOutcome, ApproveOutcome, MintOutcome,
           MintBatchOutcome, BurnOutcome, PauseOutcome, UpdateValuationOutcome, AcceptAdminOutcome, AdminOutcome;
      var env := tx.env;
      match tx.call {
        case Initialize(admin, about, supply, compliance, valuation) =>
          r := Initialize(env, admin, about, supply, compliance, valuation);
        case Transfer(from, to, amount) => r := Transfer(env, from, to, amount);
        case TransferBatch(from, transfers) => r := TransferBatch(env, from, transfers);
        case TransferFrom(spender, from, to, amount) => r := TransferFrom(env, spender, from, to, amount);
        case Approve(from, spender, amount, expiration) => r := Approve(env, from, spender, amount, expiration);
        case Mint(admin, to, amount) => r := Mint(env, admin, to, amount);
        case MintBatch(admin, recipients) => r := MintBatch(env, admin, recipients);
        case Burn(from, amount) => r := Burn(env, from, amount);
        case Pause(caller) => r := Pause(env, caller);
        case UpdateValuation(admin, v) => r := UpdateValuation(env, admin, v);
        case AcceptAdmin(newAdmin) => r := AcceptAdmin(env, newAdmin);
        case _ => r := Administer(env, tx.call);
      }
    }

    /** The host's transaction: run the call, and undo its writes if it fails. */
    method Invoke(tx: Tx) returns (r: Result<()>)
      modifies this
      ensures r == CallOutcome(old(State()), tx.env, tx.call).Result()
      ensures State() == Step(old(State()), tx)
    {
      hide CallOutcome;
      var meta0, balances0, allowances0, events0 := meta, balances, allowances, events;
      r := Dispatch(tx);
      if r.Err? {
        meta, balances, allowances, events := meta0, balances0, allowances0, events0;
      }
    }
  }
}
