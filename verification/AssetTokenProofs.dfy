/** What the asset token promises, over one call and over every run of calls. */
module AssetTokenProofs {
  import opened Soroban
  import opened MapSums
  import opened AssetToken

  // ---- batches are folds of single calls ----

  function TransferEach(s: Ledger, env: Env, from: Address, transfers: seq<Entry>): Outcome<Ledger, ()>
    decreases |transfers|
  {
    if transfers == [] then Commit(s, ())
    else
      match TransferOutcome(s, env, from, transfers[0].0, transfers[0].1)
      case Abort(e) => Abort(e)
      case Commit(t, _) => TransferEach(t, env, from, transfers[1..])
  }

  function MintEach(s: Ledger, env: Env, admin: Address, recipients: seq<Entry>): Outcome<Ledger, ()>
    decreases |recipients|
  {
    if recipients == [] then Commit(s, ())
    else
      match MintOutcome(s, env, admin, recipients[0].0, recipients[0].1)
      case Abort(e) => Abort(e)
      case Commit(t, _) => MintEach(t, env, admin, recipients[1..])
  }

  lemma {:induction false} DeliverAllIsFold(s: Ledger, env: Env, from: Address, transfers: seq<Entry>)
    requires from in env.auth && SenderError(s, env, from).None?
    ensures DeliverAll(s, env, from, transfers) == TransferEach(s, env, from, transfers)
    decreases |transfers|
  {
    if transfers != [] && transfers[0].1 > 0 {
      var o := Deliver(s, env, from, transfers[0].0, transfers[0].1);
      if o.Commit? {
        DeliverAllIsFold(o.state, env, from, transfers[1..]);
      }
    }
  }

  /** A non-empty batch, repeated and self recipients included, commits exactly when the single
      transfers made one after the other would all commit, and then leaves the same balances and
      the same event log; past the checks made once for the sender even the errors agree. */
  lemma TransferBatchIsFold(s: Ledger, env: Env, from: Address, transfers: seq<Entry>)
    requires transfers != []
    ensures var batch, each := TransferBatchOutcome(s, env, from, transfers), TransferEach(s, env, from, transfers);
            && (batch.Commit? <==> each.Commit?)
            && (batch.Commit? || (from in env.auth && SenderError(s, env, from).None?) ==> batch == each)
  {
    if from in env.auth && SenderError(s, env, from).None? {
      DeliverAllIsFold(s, env, from, transfers);
    }
  }

  /** `s` is the ledger after the mints so far; the batch still holds a stale supply in `s0`. */
  lemma {:induction false} CreditAllIsFold(s0: Ledger, s: Ledger, env: Env, admin: Address, recipients: seq<Entry>)
    requires s.meta.Some? && AdminCheck(s, env, admin).None? && !s.meta.value.paused
    requires s0.meta.Some? && s0 == WithSupply(s, s0.meta.value.totalSupply)
    ensures match CreditAll(s0, env, s.meta.value.totalSupply, recipients)
            case Commit(t, supply) => MintEach(s, env, admin, recipients) == Commit(WithSupply(t, supply), ())
            case Abort(e) => MintEach(s, env, admin, recipients) == Abort(e)
    decreases |recipients|
  {
    if recipients == [] {
      assert s == WithSupply(s0, s.meta.value.totalSupply);
    } else if recipients[0].1 > 0 {
      var o := Credit(s0, env, s.meta.value.totalSupply, recipients[0].0, recipients[0].1);
      if o.Commit? {
        CreditAllIsFold(o.state, WithSupply(o.state, o.value), env, admin, recipients[1..]);
      }
    }
  }

  /** A non-empty mint batch is the fold of single mints, total supply included. */
  lemma MintBatchIsFold(s: Ledger, env: Env, admin: Address, recipients: seq<Entry>)
    requires recipients != []
    ensures var batch, each := MintBatchOutcome(s, env, admin, recipients), MintEach(s, env, admin, recipients);
            && (batch.Commit? <==> each.Commit?)
            && (batch.Commit? ==> batch == each)
  {
    if AdminCheck(s, env, admin).None? && !s.meta.value.paused {
      CreditAllIsFold(s, s, env, admin, recipients);
    }
  }

  // ---- supply conservation ----

  ghost predicate Solid(balances: map<Address, I128>, supply: int) {
    && (forall a :: a in balances ==> balances[a] >= 0)
    && Sum(balances) == supply
  }

  /** No balance is negative and the balances add up to the total supply. */
  ghost predicate Inv(s: Ledger) {
    && (match s.meta
        case None => s.balances == map[] && s.allowances == map[]
        case Some(m) => Solid(s.balances, m.totalSupply) && m.valuation >= 0)
    && (forall k :: k in s.allowances ==> s.allowances[k].amount >= 0)
  }

  /** Moving `amount` from one entry to another, read after the debit, keeps every sum and sign. */
  lemma MoveKeepsSum(b: map<Address, I128>, supply: I128, from: Address, to: Address, amount: I128)
    requires Solid(b, supply) && 0 < amount <= Get(b, from, 0)
    ensures var debited: map<Address, I128> := b[from := Get(b, from, 0) - amount];
            && Get(debited, to, 0) + amount <= I128_MAX
            && Solid(debited[to := Get(debited, to, 0) + amount], supply)
  {
    var debited: map<Address, I128> := b[from := Get(b, from, 0) - amount];
    SumUpdate(b, from, debited[from]);
    PartAtMostSum(debited, to);
    var credited: map<Address, I128> := debited[to := Get(debited, to, 0) + amount];
    SumUpdate(debited, to, credited[to]);
  }

  lemma CreditKeepsSum(b: map<Address, I128>, supply: int, to: Address, amount: I128)
    requires Solid(b, supply) && 0 < amount
    requires supply + amount <= I128_MAX
    ensures Get(b, to, 0) + amount <= I128_MAX
    ensures var credited: map<Address, I128> := b[to := Get(b, to, 0) + amount]; Solid(credited, supply + amount)
  {
    PartAtMostSum(b, to);
    var credited: map<Address, I128> := b[to := Get(b, to, 0) + amount];
    SumUpdate(b, to, credited[to]);
  }

  lemma DebitKeepsSum(b: map<Address, I128>, supply: int, from: Address, amount: I128)
    requires Solid(b, supply) && 0 < amount <= Get(b, from, 0)
    ensures amount <= supply
    ensures var debited: map<Address, I128> := b[from := Get(b, from, 0) - amount]; Solid(debited, supply - amount)
  {
    PartAtMostSum(b, from);
    var debited: map<Address, I128> := b[from := Get(b, from, 0) - amount];
    SumUpdate(b, from, debited[from]);
  }

  /** Conservation makes the recipient-overflow branch dead. */
  lemma DeliverKeepsInv(s: Ledger, env: Env, from: Address, to: Address, amount: I128)
    requires Inv(s) && s.meta.Some? && amount > 0
    ensures var o := Deliver(s, env, from, to, amount);
            o != Abort(Overflow) && (o.Commit? ==> Inv(o.state) && o.state.meta == s.meta)
  {
    if Balance(s, from) >= amount && from != to {
      MoveKeepsSum(s.balances, s.meta.value.totalSupply, from, to, amount);
    }
  }

  lemma {:induction false} DeliverAllKeepsInv(s: Ledger, env: Env, from: Address, transfers: seq<Entry>)
    requires Inv(s) && s.meta.Some?
    ensures var o := DeliverAll(s, env, from, transfers);
            o != Abort(Overflow) && (o.Commit? ==> Inv(o.state))
    decreases |transfers|
  {
    if transfers != [] && transfers[0].1 > 0 {
      DeliverKeepsInv(s, env, from, transfers[0].0, transfers[0].1);
      var o := Deliver(s, env, from, transfers[0].0, transfers[0].1);
      if o.Commit? {
        DeliverAllKeepsInv(o.state, env, from, transfers[1..]);
      }
    }
  }

  lemma TransferFromKeepsInv(s: Ledger, env: Env, spender: Address, from: Address, to: Address, amount: I128)
    requires Inv(s)
    ensures var o := TransferFromOutcome(s, env, spender, from, to, amount);
            o != Abort(Overflow) && (o.Commit? ==> Inv(o.state))
  {
    if s.meta.Some? && 0 < amount <= Balance(s, from) {
      MoveKeepsSum(s.balances, s.meta.value.totalSupply, from, to, amount);
    }
  }

  lemma {:induction false} CreditAllKeepsSum(s: Ledger, env: Env, supply: I128, recipients: seq<Entry>)
    requires s.meta.Some? && Solid(s.balances, supply)
    ensures var o := CreditAll(s, env, supply, recipients);
            o.Commit? ==> Solid(o.state.balances, o.value) && o.state.allowances == s.allowances
    decreases |recipients|
  {
    if recipients != [] && recipients[0].1 > 0 {
      var o := Credit(s, env, supply, recipients[0].0, recipients[0].1);
      if o.Commit? {
        CreditKeepsSum(s.balances, supply, recipients[0].0, recipients[0].1);
        CreditAllKeepsSum(o.state, env, o.value, recipients[1..]);
      }
    }
  }

  lemma MintKeepsInv(s: Ledger, env: Env, admin: Address, to: Address, amount: I128)
    requires Inv(s)
    ensures var o := MintOutcome(s, env, admin, to, amount); o.Commit? ==> Inv(o.state)
  {
    if MintOutcome(s, env, admin, to, amount).Commit? {
      CreditKeepsSum(s.balances, s.meta.value.totalSupply, to, amount);
    }
  }

  lemma BurnKeepsInv(s: Ledger, env: Env, from: Address, amount: I128)
    requires Inv(s)
    ensures var o := BurnOutcome(s, env, from, amount);
            o != Abort(Overflow) && (o.Commit? ==> Inv(o.state))
  {
    if s.meta.Some? && 0 < amount <= Balance(s, from) {
      DebitKeepsSum(s.balances, s.meta.value.totalSupply, from, amount);
    }
  }

  lemma InitializeKeepsInv(s: Ledger, env: Env, call: Call)
    requires Inv(s) && call.Initialize?
    ensures var o := InitializeOutcome(s, env, call); o.Commit? ==> Inv(o.state)
  {
    if InitializeOutcome(s, env, call).Commit? {
      SumUpdate(s.balances, call.admin, call.totalSupply);
    }
  }

  lemma StepKeepsInv(s: Ledger, tx: Tx)
    requires Inv(s)
    ensures Inv(Step(s, tx))
  {
    var env := tx.env;
    match tx.call {
      case Initialize(_, _, _, _, _) => InitializeKeepsInv(s, env, tx.call);
      case Transfer(from, to, amount) =>
        if TransferOutcome(s, env, from, to, amount).Commit? {
          DeliverKeepsInv(s, env, from, to, amount);
        }
      case TransferBatch(from, transfers) =>
        if s.meta.Some? {
          DeliverAllKeepsInv(s, env, from, transfers);
        }
      case TransferFrom(spender, from, to, amount) => TransferFromKeepsInv(s, env, spender, from, to, amount);
      case Mint(admin, to, amount) => MintKeepsInv(s, env, admin, to, amount);
      case MintBatch(admin, recipients) =>
        if s.meta.Some? {
          CreditAllKeepsSum(s, env, s.meta.value.totalSupply, recipients);
        }
      case Burn(from, amount) => BurnKeepsInv(s, env, from, amount);
      case _ =>
    }
  }

  lemma {:induction false} RunKeepsInv(s: Ledger, txs: seq<Tx>)
    requires Inv(s)
    ensures Inv(Run(s, txs))
    decreases |txs|
  {
    if txs != [] {
      StepKeepsInv(s, txs[0]);
      RunKeepsInv(Step(s, txs[0]), txs[1..]);
    }
  }

  /** In every reachable ledger the balances are non-negative and sum to the total supply. */
  lemma SupplyConserved(txs: seq<Tx>)
    ensures var s := Run(EMPTY, txs);
            && Inv(s)
            && (forall a :: 0 <= Balance(s, a))
            && Sum(s.balances) == Supply(s) <= I128_MAX
  {
    EmptyInv();
    RunKeepsInv(EMPTY, txs);
    assert Sum(EMPTY.balances) == 0;
  }

  lemma EmptyInv()
    ensures Inv(EMPTY)
  {
    assert EMPTY.balances == map[];
  }

  /** What a batch adds up to. */
  function Total(entries: seq<Entry>): int {
    if entries == [] then 0 else entries[0].1 + Total(entries[1..])
  }

  /** A batch overflows only where its running supply does, after some number of its entries. */
  lemma {:induction false} CreditAllOverflow(s: Ledger, env: Env, supply: I128, recipients: seq<Entry>)
    requires s.meta.Some? && Solid(s.balances, supply)
    requires CreditAll(s, env, supply, recipients) == Abort(Overflow)
    ensures exists k :: 0 < k <= |recipients| && supply + Total(recipients[..k]) > I128_MAX
    decreases |recipients|
  {
    var (to, amount) := recipients[0];
    var o := Credit(s, env, supply, to, amount);
    if supply + amount > I128_MAX {
      assert recipients[..1][1..] == [];
      assert supply + Total(recipients[..1]) > I128_MAX;
    } else {
      CreditKeepsSum(s.balances, supply, to, amount);
      CreditAllOverflow(o.state, env, o.value, recipients[1..]);
      var k :| 0 < k <= |recipients[1..]| && o.value + Total(recipients[1..][..k]) > I128_MAX;
      assert recipients[..k + 1][1..] == recipients[1..][..k];
      assert supply + Total(recipients[..k + 1]) > I128_MAX;
    }
  }

  /** In every reachable ledger no transfer and no burn can end in `Overflow`, and a mint or a mint batch
      does so only when the supply itself would leave i128: their check of the recipient never fires. */
  lemma OverflowOnlyFromSupply(txs: seq<Tx>, env: Env, call: Call)
    ensures var s := Run(EMPTY, txs);
            && (call.Transfer? || call.TransferBatch? || call.TransferFrom? || call.Burn?
                ==> CallOutcome(s, env, call) != Abort(Overflow))
            && (call.Mint? && CallOutcome(s, env, call) == Abort(Overflow)
                ==> s.meta.Some? && s.meta.value.totalSupply + call.amount > I128_MAX)
            && (call.MintBatch? && CallOutcome(s, env, call) == Abort(Overflow)
                ==> s.meta.Some? && exists k :: 0 < k <= |call.recipients|
                                                && s.meta.value.totalSupply + Total(call.recipients[..k]) > I128_MAX)
  {
    SupplyConserved(txs);
    var s := Run(EMPTY, txs);
    match call {
      case Transfer(from, to, amount) =>
        if s.meta.Some? && amount > 0 {
          DeliverKeepsInv(s, env, from, to, amount);
        }
      case TransferBatch(from, transfers) =>
        if s.meta.Some? {
          DeliverAllKeepsInv(s, env, from, transfers);
        }
      case TransferFrom(spender, from, to, amount) => TransferFromKeepsInv(s, env, spender, from, to, amount);
      case Burn(from, amount) => BurnKeepsInv(s, env, from, amount);
      case Mint(admin, to, amount) =>
        if s.meta.Some? && amount > 0 && s.meta.value.totalSupply + amount <= I128_MAX {
          CreditKeepsSum(s.balances, s.meta.value.totalSupply, to, amount);
        }
      case MintBatch(_, recipients) =>
        if CallOutcome(s, env, call) == Abort(Overflow) {
          CreditAllOverflow(s, env, s.meta.value.totalSupply, recipients);
        }
      case _ =>
    }
  }

  // ---- the event log is a journal of the ledger ----

  /** What one event adds to the balance of `a`. */
  function Effect(e: Event, a: Address): int {
    match e
    case Minted(to, amount) => if to == a then amount as int else 0
    case Burned(from, amount) => if from == a then -(amount as int) else 0
    case Transferred(from, to, amount, _, _) =>
      (if to == a then amount as int else 0) - (if from == a then amount as int else 0)
    case _ => 0
  }

  function Net(events: seq<Event>, a: Address): int {
    if events == [] then 0 else Net(events[..|events| - 1], a) + Effect(events[|events| - 1], a)
  }

  /** Supply as an indexer sums it: mints less burns. */
  function Issued(events: seq<Event>): int {
    if events == [] then 0 else Issued(events[..|events| - 1]) + Issue(events[|events| - 1])
  }

  function Issue(e: Event): int {
    match e
    case Minted(_, amount) => amount
    case Burned(_, amount) => -(amount as int)
    case _ => 0
  }

  /** The post-balances published with a transfer. For a self-transfer_from the sender's figure is
      the one between the debit and the credit: it falls short by exactly the amount. */
  ghost predicate PostBalances(e: Event, events: seq<Event>) {
    e.Transferred? ==> && e.newToBal == Net(events, e.to)
                       && (|| e.newFromBal == Net(events, e.from)
                           || (e.from == e.to && e.newFromBal == Net(events, e.from) - e.amount))
  }

  ghost predicate Journal(s: Ledger, supply: int) {
    && (forall a :: Balance(s, a) == Net(s.events, a))
    && Issued(s.events) == supply
    && (forall i :: 0 <= i < |s.events| ==> PostBalances(s.events[i], s.events[..i + 1]))
  }

  function Supply(s: Ledger): int {
    if s.meta.Some? then s.meta.value.totalSupply else 0
  }

  /** `t` is `s` after publishing `e`, which tells exactly how the balances changed. */
  ghost predicate Publishes(s: Ledger, t: Ledger, e: Event) {
    && t.events == s.events + [e]
    && (forall a :: Balance(t, a) == Balance(s, a) + Effect(e, a))
    && (e.Transferred? ==> e.newToBal == Balance(t, e.to))
    && (e.Transferred? ==> || e.newFromBal == Balance(t, e.from)
                           || (e.from == e.to && e.newFromBal == Balance(t, e.from) - e.amount))
  }

  /** Publishing such an event keeps the journal. */
  lemma JournalExtends(s: Ledger, supply: int, t: Ledger, e: Event)
    requires Journal(s, supply) && Publishes(s, t, e)
    ensures Journal(t, supply + Issue(e))
  {
    assert t.events[..|s.events|] == s.events;
    forall i | 0 <= i < |t.events| ensures PostBalances(t.events[i], t.events[..i + 1]) {
      if i < |s.events| {
        assert t.events[..i + 1] == s.events[..i + 1];
      } else {
        assert t.events[..i + 1] == t.events;
      }
    }
  }

  lemma {:induction false} DeliverAllJournal(s: Ledger, env: Env, from: Address, transfers: seq<Entry>, supply: int)
    requires s.meta.Some? && Journal(s, supply)
    ensures var o := DeliverAll(s, env, from, transfers);
            o.Commit? ==> Journal(o.state, supply) && o.state.meta == s.meta
    decreases |transfers|
  {
    if transfers != [] && transfers[0].1 > 0 {
      var o := Deliver(s, env, from, transfers[0].0, transfers[0].1);
      if o.Commit? {
        JournalExtends(s, supply, o.state, o.state.events[|s.events|]);
        DeliverAllJournal(o.state, env, from, transfers[1..], supply);
      }
    }
  }

  lemma {:induction false} CreditAllJournal(s: Ledger, env: Env, supply: I128, recipients: seq<Entry>)
    requires s.meta.Some? && Journal(s, supply)
    ensures var o := CreditAll(s, env, supply, recipients);
            o.Commit? ==> Journal(o.state, o.value) && Journal(WithSupply(o.state, o.value), o.value)
    decreases |recipients|
  {
    if recipients != [] && recipients[0].1 > 0 {
      var o := Credit(s, env, supply, recipients[0].0, recipients[0].1);
      if o.Commit? {
        JournalExtends(s, supply, o.state, o.state.events[|s.events|]);
        CreditAllJournal(o.state, env, o.value, recipients[1..]);
      }
    }
  }

  lemma InitializeJournal(s: Ledger, env: Env, call: Call)
    requires Inv(s) && Journal(s, 0) && call.Initialize?
    ensures var o := InitializeOutcome(s, env, call); o.Commit? ==> Journal(o.state, call.totalSupply)
  {
    var o := InitializeOutcome(s, env, call);
    if o.Commit? {
      var admin, supply := call.admin, call.totalSupply;
      var g := Log(s, Genesis(admin, supply));
      JournalExtends(s, 0, g, Genesis(admin, supply));
      assert o.state.events == g.events + [Minted(admin, supply)];
      JournalExtends(g, 0, o.state, Minted(admin, supply));
    }
  }

  /** `t` is `s` after publishing one event that also accounts for the supply. */
  ghost predicate PublishesOne(s: Ledger, t: Ledger) {
    |t.events| > 0 && var e := t.events[|t.events| - 1]; Publishes(s, t, e) && Supply(t) == Supply(s) + Issue(e)
  }

  lemma TransferPublishes(s: Ledger, env: Env, from: Address, to: Address, amount: I128)
    ensures var o := TransferOutcome(s, env, from, to, amount); o.Commit? ==> PublishesOne(s, o.state)
  {
  }

  lemma TransferFromPublishes(s: Ledger, env: Env, spender: Address, from: Address, to: Address, amount: I128)
    ensures var o := TransferFromOutcome(s, env, spender, from, to, amount); o.Commit? ==> PublishesOne(s, o.state)
  {
  }

  lemma IssuePublishes(s: Ledger, env: Env, call: Call)
    requires call.Mint? || call.Burn?
    ensures var o := CallOutcome(s, env, call); o.Commit? ==> PublishesOne(s, o.state)
  {
  }

  /** An event that tells of no movement, published when nothing moved. */
  lemma QuietPublishes(s: Ledger, t: Ledger, e: Event)
    requires t.events == s.events + [e] && t.balances == s.balances && Supply(t) == Supply(s)
    requires !e.Minted? && !e.Burned? && !e.Transferred?
    ensures PublishesOne(s, t)
  {
  }

  lemma AdministrationPublishes(s: Ledger, env: Env, call: Call)
    requires !call.Initialize? && !call.TransferBatch? && !call.MintBatch?
    requires !call.Transfer? && !call.TransferFrom? && !call.Mint? && !call.Burn?
    ensures var o := CallOutcome(s, env, call); o.Commit? ==> PublishesOne(s, o.state)
  {
    hide PublishesOne;
    var o := CallOutcome(s, env, call);
    if o.Commit? {
      QuietPublishes(s, o.state, o.state.events[|s.events|]);
    }
  }

  /** Every call but `initialize` and the batches publishes exactly one such event. */
  lemma SingleCallPublishes(s: Ledger, env: Env, call: Call)
    requires !call.Initialize? && !call.TransferBatch? && !call.MintBatch?
    ensures var o := CallOutcome(s, env, call); o.Commit? ==> PublishesOne(s, o.state)
  {
    hide TransferOutcome, TransferFromOutcome, MintOutcome, BurnOutcome, AdminOutcome, PublishesOne;
    if call.Transfer? {
      TransferPublishes(s, env, call.from, call.to, call.amount);
    } else if call.TransferFrom? {
      TransferFromPublishes(s, env, call.spender, call.from, call.to, call.amount);
    } else if call.Mint? || call.Burn? {
      IssuePublishes(s, env, call);
    } else {
      AdministrationPublishes(s, env, call);
    }
  }

  lemma StepKeepsJournal(s: Ledger, tx: Tx)
    requires Inv(s) && Journal(s, Supply(s))
    ensures Journal(Step(s, tx), Supply(Step(s, tx)))
  {
    hide Journal, Publishes, Solid, TransferOutcome, TransferFromOutcome, MintOutcome, BurnOutcome, ApproveOutcome,
         PauseOutcome, UpdateValuationOutcome, AcceptAdminOutcome, AdminOutcome, DeliverAll, CreditAll;
    match tx.call {
      case Initialize(_, _, _, _, _) =>
        if s.meta.None? {
          InitializeJournal(s, tx.env, tx.call);
        }
      case TransferBatch(from, transfers) =>
        if s.meta.Some? {
          DeliverAllJournal(s, tx.env, from, transfers, Supply(s));
        }
      case MintBatch(_, recipients) =>
        if s.meta.Some? {
          CreditAllJournal(s, tx.env, s.meta.value.totalSupply, recipients);
        }
      case _ =>
        var o := CallOutcome(s, tx.env, tx.call);
        if o.Commit? {
          SingleCallPublishes(s, tx.env, tx.call);
          JournalExtends(s, Supply(s), o.state, o.state.events[|o.state.events| - 1]);
        }
    }
  }

  lemma {:induction false} RunKeepsJournal(s: Ledger, txs: seq<Tx>)
    requires Inv(s) && Journal(s, Supply(s))
    ensures Journal(Run(s, txs), Supply(Run(s, txs)))
    decreases |txs|
  {
    if txs != [] {
      StepKeepsInv(s, txs[0]);
      StepKeepsJournal(s, txs[0]);
      RunKeepsJournal(Step(s, txs[0]), txs[1..]);
    }
  }

  /** In every reachable ledger an indexer that replays the events has every balance and the total
      supply, and the post-balances published with each transfer are those of the replay - but for the
      sender's in a transfer_from to oneself, which is short by the amount. */
  lemma EventsReplayTheLedger(txs: seq<Tx>)
    ensures var s := Run(EMPTY, txs);
            && (forall a :: Balance(s, a) == Net(s.events, a))
            && Issued(s.events) == Supply(s)
            && (forall i :: 0 <= i < |s.events| ==> PostBalances(s.events[i], s.events[..i + 1]))
  {
    assert Inv(EMPTY) by { EmptyInv(); }
    RunKeepsJournal(EMPTY, txs);
  }

  /** The sender's figure published by a committed transfer is its new balance always; that of a
      committed transfer_from exactly when it is not to oneself. */
  lemma SenderFigureRightIff(s: Ledger, env: Env, call: Call)
    requires (call.Transfer? || call.TransferFrom?) && CallOutcome(s, env, call).Commit?
    ensures var t := CallOutcome(s, env, call).state;
            && |t.events| == |s.events| + 1 && t.events[|s.events|].Transferred?
            && (t.events[|s.events|].newFromBal == Balance(t, call.from) <==> call.Transfer? || call.from != call.to)
  {
  }

  /** `a` holds 10 and lets `b` spend 4, which `b` sends from `a` to `a`. */
  function SelfTransferRun(now: U32, gate: Address, a: Address, b: Address): seq<Tx> {
    var env := Env(now, {a, b}, {(gate, a)});
    [Tx(env, Call.Initialize(a, Particulars("Token", "TKN", "bond", "A bond", 0), 10, gate, 0)),
     Tx(env, Approve(a, b, 4, now)),
     Tx(env, TransferFrom(b, a, a, 4))]
  }

  /** After it `a` still holds 10, and the new balance published for the sender is 6. */
  lemma SelfTransferPublishesSix(now: U32, gate: Address, a: Address, b: Address)
    ensures var s := Run(EMPTY, SelfTransferRun(now, gate, a, b));
            && Balance(s, a) == 10 && |s.events| > 0
            && s.events[|s.events| - 1] == Transferred(a, a, 4, 6, 10)
  {
    var txs := SelfTransferRun(now, gate, a, b);
    var s1 := Step(EMPTY, txs[0]);
    assert s1.meta.Some? && s1.balances == map[a := 10];
    var s2 := Step(s1, txs[1]);
    var s3 := Step(s2, txs[2]);
    assert txs[1..] == [txs[1], txs[2]] && [txs[1], txs[2]][1..] == [txs[2]] && [txs[2]][1..] == [];
    assert Run(s2, [txs[2]]) == Run(s3, []);
  }

  // ---- who can move what ----

  ghost predicate Denied(s: Ledger, env: Env, a: Address) {
    s.meta.Some? && (s.meta.value.compliance, a) !in env.gate
  }

  lemma {:induction false} DeliverAllFrame(s: Ledger, env: Env, from: Address, transfers: seq<Entry>, a: Address)
    requires s.meta.Some? && a != from
    ensures var o := DeliverAll(s, env, from, transfers);
            o.Commit? ==> && Balance(o.state, a) >= Balance(s, a)
                          && (Denied(s, env, a) ==> Balance(o.state, a) == Balance(s, a))
    decreases |transfers|
  {
    if transfers != [] && transfers[0].1 > 0 {
      var o := Deliver(s, env, from, transfers[0].0, transfers[0].1);
      if o.Commit? {
        DeliverAllFrame(o.state, env, from, transfers[1..], a);
      }
    }
  }

  lemma {:induction false} CreditAllFrame(s: Ledger, env: Env, supply: I128, recipients: seq<Entry>, a: Address)
    requires s.meta.Some?
    ensures var o := CreditAll(s, env, supply, recipients);
            o.Commit? ==> && Balance(o.state, a) >= Balance(s, a)
                          && (Denied(s, env, a) ==> Balance(o.state, a) == Balance(s, a))
    decreases |recipients|
  {
    if recipients != [] && recipients[0].1 > 0 {
      var o := Credit(s, env, supply, recipients[0].0, recipients[0].1);
      if o.Commit? {
        CreditAllFrame(o.state, env, o.value, recipients[1..], a);
      }
    }
  }

  /** No call whatsoever moves the balance of an address the current gate denies. */
  lemma StepFreezesDenied(s: Ledger, tx: Tx, a: Address)
    requires Denied(s, tx.env, a)
    ensures Balance(Step(s, tx), a) == Balance(s, a)
  {
    match tx.call {
      case TransferBatch(from, transfers) =>
        if a != from {
          DeliverAllFrame(s, tx.env, from, transfers, a);
        }
      case MintBatch(admin, recipients) => CreditAllFrame(s, tx.env, s.meta.value.totalSupply, recipients, a);
      case _ =>
    }
  }

  ghost predicate DeniedThroughout(s: Ledger, txs: seq<Tx>, a: Address)
    decreases |txs|
  {
    txs == [] || (Denied(s, txs[0].env, a) && DeniedThroughout(Step(s, txs[0]), txs[1..], a))
  }

  /** Over any run in which the gate in force denies an address, its balance is constant. */
  lemma {:induction false} FrozenHolder(s: Ledger, txs: seq<Tx>, a: Address)
    requires DeniedThroughout(s, txs, a)
    ensures Balance(Run(s, txs), a) == Balance(s, a)
    decreases |txs|
  {
    if txs != [] {
      StepFreezesDenied(s, txs[0], a);
      FrozenHolder(Step(s, txs[0]), txs[1..], a);
    }
  }

  /** A balance falls only if its owner signed, or signed for a live allowance that a signing
      spender now draws on. */
  lemma DebitNeedsAuthority(s: Ledger, tx: Tx, a: Address)
    requires Balance(Step(s, tx), a) < Balance(s, a)
    ensures a in tx.env.auth
         || (tx.call.TransferFrom? && tx.call.from == a && tx.call.spender in tx.env.auth
             && Balance(s, a) - Balance(Step(s, tx), a) == tx.call.amount <= AllowanceOf(s, a, tx.call.spender).amount
             && tx.env.now <= AllowanceOf(s, a, tx.call.spender).expiration)
  {
    match tx.call {
      case TransferBatch(from, transfers) =>
        if a != from && s.meta.Some? {
          DeliverAllFrame(s, tx.env, from, transfers, a);
        }
      case MintBatch(admin, recipients) =>
        if s.meta.Some? {
          CreditAllFrame(s, tx.env, s.meta.value.totalSupply, recipients, a);
        }
      case _ =>
    }
  }

  ghost predicate IsPaused(s: Ledger) {
    s.meta.Some? && s.meta.value.paused
  }

  /** The token is paused before every call of the run. */
  ghost predicate PausedThroughout(s: Ledger, txs: seq<Tx>)
    decreases |txs|
  {
    txs == [] || (IsPaused(s) && PausedThroughout(Step(s, txs[0]), txs[1..]))
  }

  predicate Unpauses(s: Ledger, tx: Tx) {
    tx.call.Unpause? && CallOutcome(s, tx.env, tx.call).Commit?
  }

  predicate NoUnpause(s: Ledger, txs: seq<Tx>)
    decreases |txs|
  {
    txs == [] || (!Unpauses(s, txs[0]) && NoUnpause(Step(s, txs[0]), txs[1..]))
  }

  lemma StepWhilePaused(s: Ledger, tx: Tx)
    requires IsPaused(s)
    ensures var t := Step(s, tx);
            && t.meta.Some? && t.meta.value.totalSupply == s.meta.value.totalSupply
            && t.balances == s.balances && t.allowances == s.allowances
            && (IsPaused(t) <==> !Unpauses(s, tx))
  {
    hide Deliver, DeliverAll, Credit, CreditAll, ValidParticulars;
  }

  /** Over any run before whose every call the token is paused, whatever is called and whoever signs,
      every balance, the supply and every stored allowance stay as they were. */
  lemma {:induction false} PauseFreezesEverything(s: Ledger, txs: seq<Tx>)
    requires s.meta.Some? && PausedThroughout(s, txs)
    ensures var t := Run(s, txs);
            && t.meta.Some? && t.meta.value.totalSupply == s.meta.value.totalSupply
            && t.balances == s.balances && t.allowances == s.allowances
    decreases |txs|
  {
    hide Step;
    if txs != [] {
      StepWhilePaused(s, txs[0]);
      PauseFreezesEverything(Step(s, txs[0]), txs[1..]);
    }
  }

  /** A paused token stays paused exactly until an `unpause` commits; one that fails changes nothing. */
  lemma {:induction false} PauseLastsUntilUnpaused(s: Ledger, txs: seq<Tx>)
    requires IsPaused(s)
    ensures NoUnpause(s, txs) <==> PausedThroughout(s, txs) && IsPaused(Run(s, txs))
    decreases |txs|
  {
    hide Step, Unpauses, IsPaused;
    if txs != [] {
      StepWhilePaused(s, txs[0]);
      var t := Step(s, txs[0]);
      if IsPaused(t) {
        PauseLastsUntilUnpaused(t, txs[1..]);
      } else if |txs| > 1 {
        assert !PausedThroughout(t, txs[1..]);
      }
    }
  }

  // ---- allowances ----

  predicate Spends(s: Ledger, tx: Tx, from: Address, spender: Address) {
    tx.call.TransferFrom? && tx.call.from == from && tx.call.spender == spender
    && CallOutcome(s, tx.env, tx.call).Commit?
  }

  predicate Approves(s: Ledger, tx: Tx, from: Address, spender: Address) {
    tx.call.Approve? && tx.call.from == from && tx.call.spender == spender
    && CallOutcome(s, tx.env, tx.call).Commit?
  }

  function Spent(s: Ledger, txs: seq<Tx>, from: Address, spender: Address): int
    decreases |txs|
  {
    if txs == [] then 0
    else
      (if Spends(s, txs[0], from, spender) then txs[0].call.amount as int else 0)
      + Spent(Step(s, txs[0]), txs[1..], from, spender)
  }

  predicate NoApproval(s: Ledger, txs: seq<Tx>, from: Address, spender: Address)
    decreases |txs|
  {
    txs == [] || (!Approves(s, txs[0], from, spender) && NoApproval(Step(s, txs[0]), txs[1..], from, spender))
  }

  lemma {:induction false} DeliverAllKeepsAllowances(s: Ledger, env: Env, from: Address, transfers: seq<Entry>)
    requires s.meta.Some?
    ensures var o := DeliverAll(s, env, from, transfers); o.Commit? ==> o.state.allowances == s.allowances
    decreases |transfers|
  {
    if transfers != [] && transfers[0].1 > 0 {
      var o := Deliver(s, env, from, transfers[0].0, transfers[0].1);
      if o.Commit? {
        DeliverAllKeepsAllowances(o.state, env, from, transfers[1..]);
      }
    }
  }

  lemma {:induction false} CreditAllKeepsAllowances(s: Ledger, env: Env, supply: I128, recipients: seq<Entry>)
    requires s.meta.Some?
    ensures var o := CreditAll(s, env, supply, recipients); o.Commit? ==> o.state.allowances == s.allowances
    decreases |recipients|
  {
    if recipients != [] && recipients[0].1 > 0 {
      var o := Credit(s, env, supply, recipients[0].0, recipients[0].1);
      if o.Commit? {
        CreditAllKeepsAllowances(o.state, env, o.value, recipients[1..]);
      }
    }
  }

  /** One transaction changes a pair's allowance only by approving it or by spending from it, and
      spends only up to its amount and not after its expiration ledger. */
  lemma StepAllowance(s: Ledger, tx: Tx, from: Address, spender: Address)
    requires !Approves(s, tx, from, spender)
    ensures var a, b := AllowanceOf(s, from, spender), AllowanceOf(Step(s, tx), from, spender);
            if Spends(s, tx, from, spender)
            then b == a.(amount := a.amount - tx.call.amount) && 0 < tx.call.amount <= a.amount
                 && tx.env.now <= a.expiration
            else b == a
  {
    match tx.call {
      case TransferBatch(f, transfers) =>
        if s.meta.Some? {
          DeliverAllKeepsAllowances(s, tx.env, f, transfers);
        }
      case MintBatch(admin, recipients) =>
        if s.meta.Some? {
          CreditAllKeepsAllowances(s, tx.env, s.meta.value.totalSupply, recipients);
        }
      case _ =>
    }
  }

  /** An approval that commits is what its spender may move from that ledger on, and a transfer_from
      never moves more than the spender may. */
  lemma ApprovalTakesEffect(s: Ledger, env: Env, from: Address, spender: Address, to: Address, amount: I128,
                            expiration: U32)
    ensures var o := ApproveOutcome(s, env, from, spender, amount, expiration);
            o.Commit? ==> Spendable(o.state, env.now, from, spender) == amount
    ensures TransferFromOutcome(s, env, spender, from, to, amount).Commit?
            ==> amount <= Spendable(s, env.now, from, spender)
  {
  }

  /** Between two approvals of a pair, what is left plus what was spent is what was approved;
      it never goes negative, and nothing is spent once the expiration ledger has passed. */
  lemma {:induction false} AllowanceAccounting(s: Ledger, txs: seq<Tx>, from: Address, spender: Address)
    requires NoApproval(s, txs, from, spender)
    requires AllowanceOf(s, from, spender).amount >= 0
    ensures var a, b := AllowanceOf(s, from, spender), AllowanceOf(Run(s, txs), from, spender);
            && b.amount + Spent(s, txs, from, spender) == a.amount
            && 0 <= b.amount && b.expiration == a.expiration
            && ((forall i :: 0 <= i < |txs| ==> txs[i].env.now > a.expiration) ==> Spent(s, txs, from, spender) == 0)
    decreases |txs|
  {
    if txs != [] {
      StepAllowance(s, txs[0], from, spender);
      AllowanceAccounting(Step(s, txs[0]), txs[1..], from, spender);
    }
  }

  /** A transfer_from to oneself uses up allowance and moves nothing. */
  lemma SelfTransferFromKeepsBalances(s: Ledger, env: Env, spender: Address, from: Address, amount: I128, a: Address)
    requires TransferFromOutcome(s, env, spender, from, from, amount).Commit?
    ensures var t := TransferFromOutcome(s, env, spender, from, from, amount).state;
            && Balance(t, a) == Balance(s, a)
            && AllowanceOf(t, from, spender).amount == AllowanceOf(s, from, spender).amount - amount
  {
  }

  // ---- the valuation guard ----

  function Pow(b: nat, n: nat): nat {
    if n == 0 then 1 else b * Pow(b, n - 1)
  }

  predicate Revalues(s: Ledger, tx: Tx) {
    tx.call.UpdateValuation? && CallOutcome(s, tx.env, tx.call).Commit?
  }

  /** How many valuation updates commit in a run. */
  function Updates(s: Ledger, txs: seq<Tx>): nat
    decreases |txs|
  {
    if txs == [] then 0
    else (if Revalues(s, txs[0]) then 1 else 0) + Updates(Step(s, txs[0]), txs[1..])
  }

  lemma {:induction false} DeliverAllKeepsMeta(s: Ledger, env: Env, from: Address, transfers: seq<Entry>)
    requires s.meta.Some?
    ensures var o := DeliverAll(s, env, from, transfers); o.Commit? ==> o.state.meta == s.meta
    decreases |transfers|
  {
    if transfers != [] && transfers[0].1 > 0 {
      var o := Deliver(s, env, from, transfers[0].0, transfers[0].1);
      if o.Commit? {
        DeliverAllKeepsMeta(o.state, env, from, transfers[1..]);
      }
    }
  }

  /** One step moves a positive valuation by at most half of it, and only by an update. */
  lemma StepValuation(s: Ledger, tx: Tx)
    requires s.meta.Some? && s.meta.value.valuation > 0
    ensures var t := Step(s, tx); t.meta.Some?
    ensures var v, w := s.meta.value.valuation, Step(s, tx).meta.value.valuation;
            if Revalues(s, tx) then 2 * w <= 3 * v && v <= 2 * w && v * 5_000 <= I128_MAX else w == v
  {
    if tx.call.TransferBatch? {
      DeliverAllKeepsMeta(s, tx.env, tx.call.from, tx.call.transfers);
    }
  }

  /** After n committed updates a positive valuation v has become w with 2^n w <= 3^n v and
      v <= 2^n w: it never reaches zero, 1 is absorbing, and above i128::MAX / 5000 it can never
      be updated again. */
  lemma {:induction false} ValuationCompounds(s: Ledger, txs: seq<Tx>)
    requires s.meta.Some? && s.meta.value.valuation > 0
    ensures Run(s, txs).meta.Some?
    ensures var v, w, n := s.meta.value.valuation as int, Run(s, txs).meta.value.valuation as int, Updates(s, txs);
            && Pow(2, n) * w <= Pow(3, n) * v
            && v <= Pow(2, n) * w
            && w > 0
            && (v == 1 ==> w == 1)
            && (v > I128_MAX / 5_000 ==> n == 0 && w == v)
    decreases |txs|
  {
    if txs != [] {
      StepValuation(s, txs[0]);
      var t := Step(s, txs[0]);
      ValuationCompounds(t, txs[1..]);
      var v, u, w, n := s.meta.value.valuation as int, t.meta.value.valuation as int,
                        Run(s, txs).meta.value.valuation as int, Updates(t, txs[1..]);
      if Revalues(s, txs[0]) {
        CompoundOnce(v, u, w, Pow(2, n), Pow(3, n));
      }
    }
  }

  /** A positive valuation can be moved by the admin exactly to within half of it, and only while five
      thousand times it fits i128: above that not even to itself. */
  lemma UpdateCommitsIff(s: Ledger, env: Env, admin: Address, v: I128)
    requires AdminCheck(s, env, admin).None? && s.meta.value.valuation > 0
    ensures var previous := s.meta.value.valuation as int;
            UpdateValuationOutcome(s, env, admin, v).Commit?
            <==> previous * 5_000 <= I128_MAX && previous <= 2 * v <= 3 * previous
  {
  }

  /** So some update commits exactly if five thousand times the valuation fits. */
  lemma SomeUpdateCommitsIff(s: Ledger, env: Env, admin: Address)
    requires AdminCheck(s, env, admin).None? && s.meta.value.valuation > 0
    ensures (exists v: I128 :: UpdateValuationOutcome(s, env, admin, v).Commit?)
            <==> s.meta.value.valuation * 5_000 <= I128_MAX
  {
    hide UpdateValuationOutcome;
    var previous := s.meta.value.valuation;
    UpdateCommitsIff(s, env, admin, previous);
    forall v: I128 ensures UpdateValuationOutcome(s, env, admin, v).Commit? ==> previous * 5_000 <= I128_MAX {
      UpdateCommitsIff(s, env, admin, v);
    }
  }

  lemma CompoundOnce(v: int, u: int, w: int, p2: nat, p3: nat)
    requires 2 * u <= 3 * v && v <= 2 * u
    requires p2 * w <= p3 * u && u <= p2 * w
    ensures 2 * p2 * w <= 3 * p3 * v && v <= 2 * p2 * w
  {
    assert p3 * (2 * u) <= p3 * (3 * v);
  }
}
