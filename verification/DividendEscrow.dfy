/** The shared pot: over every run it holds what the open distributions still owe, so no payment is
    ever short. */
module DividendEscrow {
  import opened Soroban
  import opened Dividend
  import opened DividendShares
  import opened DividendProofs

  /** What distribution `id` still owes in `token`. */
  function Outstanding(dists: map<nat, Distribution>, token: Address, id: nat): int {
    if id in dists && !dists[id].completed && dists[id].paymentToken == token
    then dists[id].totalAmount - dists[id].distributed
    else 0
  }

  /** What distributions 1..n together still owe in `token`. */
  function Owed(dists: map<nat, Distribution>, token: Address, n: nat): int {
    if n == 0 then 0 else Owed(dists, token, n - 1) + Outstanding(dists, token, n)
  }

  /** What the contract holds of `token` beyond what it owes. */
  function Surplus(s: State, token: Address): int {
    Held(s.payments, token, s.self) - Owed(s.dists, token, s.counter)
  }

  lemma {:induction false} OwedUpdate(dists: map<nat, Distribution>, token: Address, id: nat, d: Distribution, n: nat)
    requires id >= 1
    ensures Owed(dists[id := d], token, n) == Owed(dists, token, n) +
            if id <= n then Outstanding(dists[id := d], token, id) - Outstanding(dists, token, id) else 0
  {
    if n > 0 {
      OwedUpdate(dists, token, id, d, n - 1);
    }
  }

  lemma OutstandingNonNegative(w: World, token: Address, id: nat)
    requires Inv(w)
    ensures 0 <= Outstanding(w.s.dists, token, id)
  {
    hide Shape, Fair, Supply, ClaimedSum, Paid, Returned;
    assert id in w.s.dists ==> Account(w.s, id, w.frozen[id]);
  }

  lemma {:induction false} OutstandingAtMostOwed(w: World, token: Address, id: nat, n: nat)
    requires Inv(w)
    ensures 0 <= Outstanding(w.s.dists, token, id)
    ensures 0 <= Owed(w.s.dists, token, n)
    ensures 1 <= id <= n ==> Outstanding(w.s.dists, token, id) <= Owed(w.s.dists, token, n)
    decreases n
  {
    hide Inv, Outstanding;
    OutstandingNonNegative(w, token, id);
    if n > 0 {
      OutstandingNonNegative(w, token, n);
      OutstandingAtMostOwed(w, token, id, n - 1);
    }
  }

  /** The transaction is signed, or the tokens sent, by someone other than the contract. */
  predicate ByOthers(tx: Tx, self: Address) {
    match tx
    case Invoke(env, _) => self !in env.auth
    case Outside(_, from, _, _) => from != self
  }

  /** What a transaction pays into the contract without calling it. */
  function Deposit(s: State, tx: Tx, token: Address): nat {
    if tx.Outside? && tx.token == token && tx.to == s.self
       && Pay(s.payments, true, token, tx.from, tx.to, tx.amount).Some?
    then tx.amount else 0
  }

  function Deposits(s: State, txs: seq<Tx>, token: Address): nat
    decreases |txs|
  {
    if txs == [] then 0 else Deposit(s, txs[0], token) + Deposits(Step(s, txs[0]), txs[1..], token)
  }

  lemma CreateKeepsSurplus(w: World, env: Env, call: Call, token: Address)
    requires Inv(w) && call.Create? && w.s.self !in env.auth
    ensures var o := CallOutcome(w.s, env, call); o.Commit? ==> Surplus(o.state, token) == Surplus(w.s, token)
  {
    hide Accounts, Claimable, Validate;
    var o := CallOutcome(w.s, env, call);
    if o.Commit? {
      var id := w.s.counter + 1;
      OwedUpdate(w.s.dists, token, id, o.state.dists[id], w.s.counter);
    }
  }

  lemma ClaimKeepsSurplus(w: World, env: Env, id: nat, a: Address, token: Address)
    requires Inv(w) && w.s.self !in env.auth
    ensures var o := ClaimOutcome(w.s, env, id, a); o.Commit? ==> Surplus(o.state, token) == Surplus(w.s, token)
  {
    hide Accounts, Claimable, Validate;
    var o := ClaimOutcome(w.s, env, id, a);
    if o.Commit? {
      OwedUpdate(w.s.dists, token, id, o.state.dists[id], w.s.counter);
    }
  }

  lemma ReclaimKeepsSurplus(w: World, env: Env, admin: Address, id: nat, token: Address)
    requires Inv(w) && w.s.self !in env.auth
    ensures var o := ReclaimOutcome(w.s, env, admin, id); o.Commit? ==> Surplus(o.state, token) == Surplus(w.s, token)
  {
    hide Accounts, Claimable, Validate;
    var o := ReclaimOutcome(w.s, env, admin, id);
    if o.Commit? {
      OwedUpdate(w.s.dists, token, id, o.state.dists[id], w.s.counter);
    }
  }

  lemma CancelKeepsSurplus(w: World, env: Env, admin: Address, id: nat, token: Address)
    requires Inv(w) && w.s.self !in env.auth
    ensures var o := CancelOutcome(w.s, env, admin, id); o.Commit? ==> Surplus(o.state, token) == Surplus(w.s, token)
  {
    hide Validate;
    var o := CancelOutcome(w.s, env, admin, id);
    if o.Commit? {
      assert Account(w.s, id, w.frozen[id]);
      OwedUpdate(w.s.dists, token, id, o.state.dists[id], w.s.counter);
    }
  }

  lemma OutsideSurplus(s: State, tx: Tx, token: Address)
    requires tx.Outside? && tx.from != s.self
    ensures Surplus(Step(s, tx), token) == Surplus(s, token) + Deposit(s, tx, token)
  {
  }

  /** What a step does to the index: nothing, or a creation appends its id. */
  ghost predicate IndexStep(s: State, t: State) {
    || (t.assetIds == s.assetIds && t.counter == s.counter && t.dists.Keys == s.dists.Keys)
    || (exists d: Distribution ::
          && t.counter == s.counter + 1 && t.dists == s.dists[t.counter := d]
          && t.assetIds == s.assetIds[d.assetToken := Get(s.assetIds, d.assetToken, []) + [t.counter]])
  }

  /** What is agreed on at the creation of a distribution: all but how far it has come. */
  function Terms(d: Distribution): Distribution {
    d.(distributed := 0, completed := false, cancelled := false)
  }

  /** What no step changes: the contract's address, and the terms of the distributions there are. */
  ghost predicate Frame(s: State, t: State) {
    && t.self == s.self && IndexStep(s, t)
    && forall id :: id in s.dists ==>
         id in t.dists && Terms(t.dists[id]) == Terms(s.dists[id])
  }

  lemma CreateFrame(s: State, env: Env, call: Call)
    requires call.Create? && s.counter + 1 !in s.dists
    ensures var o := CallOutcome(s, env, call); o.Commit? ==> Frame(s, o.state) && o.state.claimed == s.claimed
  {
    hide Validate, Pay;
    var o := CallOutcome(s, env, call);
    if o.Commit? {
      assert o.state.dists == s.dists[o.state.counter := o.state.dists[o.state.counter]];
    }
  }

  lemma ClaimFrame(s: State, env: Env, id: nat, a: Address)
    ensures var o := ClaimOutcome(s, env, id, a);
            o.Commit? ==> Frame(s, o.state) && o.state.claimed == s.claimed + {(id, a)}
  {
    hide Claimable, Pay;
    var o := ClaimOutcome(s, env, id, a);
    if o.Commit? {
      assert o.state.dists.Keys == s.dists.Keys;
    }
  }

  lemma ReclaimFrame(s: State, env: Env, admin: Address, id: nat)
    ensures var o := ReclaimOutcome(s, env, admin, id); o.Commit? ==> Frame(s, o.state) && o.state.claimed == s.claimed
  {
    hide Pay;
    var o := ReclaimOutcome(s, env, admin, id);
    if o.Commit? {
      assert o.state.dists.Keys == s.dists.Keys;
    }
  }

  lemma CancelFrame(s: State, env: Env, admin: Address, id: nat)
    ensures var o := CancelOutcome(s, env, admin, id); o.Commit? ==> Frame(s, o.state) && o.state.claimed == s.claimed
  {
    hide Pay;
    var o := CancelOutcome(s, env, admin, id);
    if o.Commit? {
      assert o.state.dists.Keys == s.dists.Keys;
    }
  }

  /** A role call reads no distribution; before the first one there is none to keep. */
  lemma QuietFrame(w: World, tx: Tx)
    requires Shape(w) && (tx.Outside? || tx.call.Role?)
    ensures var t := Step(w.s, tx); Frame(w.s, t) && t.claimed == w.s.claimed
  {
    hide Pay;
  }

  ghost predicate Claims(s: State, tx: Tx) {
    tx.Invoke? && tx.call.Claim? && ClaimOutcome(s, tx.env, tx.call.id, tx.call.holder).Commit?
  }

  lemma StepFrame(w: World, tx: Tx)
    requires Shape(w)
    ensures Frame(w.s, Step(w.s, tx))
    ensures Claims(w.s, tx) || Step(w.s, tx).claimed == w.s.claimed
  {
    if tx.Outside? || tx.call.Role? {
      QuietFrame(w, tx);
    } else {
      assert w.s.counter + 1 !in w.s.dists;
      assert Frame(w.s, w.s);
      hide Shape, Frame, CreateOutcome, ClaimOutcome, ReclaimOutcome, CancelOutcome;
      match tx.call {
        case Create(_, _, _, _, _, _) => CreateFrame(w.s, tx.env, tx.call);
        case Claim(id, a) => ClaimFrame(w.s, tx.env, id, a);
        case Reclaim(admin, id) => ReclaimFrame(w.s, tx.env, admin, id);
        case Cancel(admin, id) => CancelFrame(w.s, tx.env, admin, id);
      }
    }
  }

  /** No call changes the surplus; only a payment made from outside adds to it. */
  lemma StepSurplus(w: World, tx: Tx, token: Address)
    requires Inv(w) && ByOthers(tx, w.s.self)
    ensures Surplus(Step(w.s, tx), token) == Surplus(w.s, token) + Deposit(w.s, tx, token)
  {
    if tx.Outside? {
      OutsideSurplus(w.s, tx, token);
    } else {
      hide Inv, Surplus, CreateOutcome, ClaimOutcome, ReclaimOutcome, CancelOutcome, InitializedRoles;
      match tx.call {
        case Create(_, _, _, _, _, _) => CreateKeepsSurplus(w, tx.env, tx.call, token);
        case Claim(id, a) => ClaimKeepsSurplus(w, tx.env, id, a, token);
        case Reclaim(admin, id) => ReclaimKeepsSurplus(w, tx.env, admin, id, token);
        case Cancel(admin, id) => CancelKeepsSurplus(w, tx.env, admin, id, token);
        case Role(role) => RoleKeepsSurplus(w, tx.env, role, token);
      }
    }
  }

  lemma RoleKeepsSurplus(w: World, env: Env, role: RoleCall, token: Address)
    requires Inv(w)
    ensures var o := InitializedRoles(w.s, env, role); o.Commit? ==> Surplus(o.state, token) == Surplus(w.s, token)
  {
  }

  lemma {:induction false} RunSurplus(w: World, txs: seq<Tx>, token: Address)
    requires Inv(w) && forall i :: 0 <= i < |txs| ==> ByOthers(txs[i], w.s.self)
    ensures Run(w.s, txs).self == w.s.self
    ensures Surplus(Run(w.s, txs), token) == Surplus(w.s, token) + Deposits(w.s, txs, token)
    decreases |txs|
  {
    hide Accounts, Shape, Surplus, Step, Deposit, IndexStep, ByOthers;
    if txs != [] {
      StepSurplus(w, txs[0], token);
      StepFrame(w, txs[0]);
      StepKeepsInv(w, txs[0]);
      RunSurplus(WorldStep(w, txs[0]), txs[1..], token);
    }
  }

  /** A reachable world: some run, signed by others, from a contract that owes nothing. */
  ghost predicate Reachable(w: World, self: Address, payments: Payments, txs: seq<Tx>) {
    && (forall i :: 0 <= i < |txs| ==> ByOthers(txs[i], self))
    && (forall token :: Held(payments, token, self) >= 0)
    && w == WorldRun(World(Empty(self, payments), map[]), txs)
  }

  ghost predicate Sound(w: World) {
    Inv(w) && forall token :: Surplus(w.s, token) >= 0
  }

  /** In every reachable state, and for each payment token, the contract holds exactly what its open
      distributions still owe, plus what it held at first and what others sent it outside its calls. */
  lemma EscrowSolvent(w: World, self: Address, payments: Payments, txs: seq<Tx>)
    requires Reachable(w, self, payments, txs)
    ensures Sound(w)
    ensures forall token ::
              Held(w.s.payments, token, self) ==
              Owed(w.s.dists, token, w.s.counter)
              + Held(payments, token, self) + Deposits(Empty(self, payments), txs, token)
  {
    var w0 := World(Empty(self, payments), map[]);
    RunKeepsInv(w0, txs);
    forall token
      ensures Surplus(w.s, token) == Held(payments, token, self) + Deposits(Empty(self, payments), txs, token)
      ensures w.s.self == self
    {
      RunSurplus(w0, txs, token);
    }
  }

  /** Every distribution of every reachable state: its total is what was paid to holders, what was
      returned to an admin and what is still in escrow; what was paid is the sum of the shares of exactly
      the holders that have claimed; and while it is open or closed by claims, `distributed` is that sum. */
  lemma EveryDistributionBalances(w: World, self: Address, payments: Payments, txs: seq<Tx>, id: nat)
    requires Reachable(w, self, payments, txs) && id in w.s.dists
    ensures id in w.frozen && Fair(w.frozen[id]) && w.s.dists[id].totalAmount > 0
    ensures var d, list := w.s.dists[id], w.frozen[id];
            var paid := ClaimedSum(d.totalAmount, Supply(list), list, w.s.claimed, id);
            && paid == Paid(w.s.events, id) <= d.totalAmount
            && d.totalAmount == paid + Returned(w.s.events, id, d.totalAmount)
                                + (if d.completed then 0 else d.totalAmount - d.distributed)
            && (Returned(w.s.events, id, d.totalAmount) == 0 ==> d.distributed == paid)
  {
    EscrowSolvent(w, self, payments, txs);
    assert Account(w.s, id, w.frozen[id]);
  }

  // ---- no payment is ever short ----

  lemma PotCovers(w: World, id: nat)
    requires Sound(w) && id in w.s.dists && !w.s.dists[id].completed
    ensures var d := w.s.dists[id]; 0 < d.totalAmount - d.distributed <= Held(w.s.payments, d.paymentToken, w.s.self)
  {
    assert Account(w.s, id, w.frozen[id]);
    assert Surplus(w.s, w.s.dists[id].paymentToken) >= 0;
    OutstandingAtMostOwed(w, w.s.dists[id].paymentToken, id, w.s.counter);
  }

  function ShareOf(w: World, id: nat, a: Address): nat
    requires Inv(w) && id in w.s.dists
  {
    assert Account(w.s, id, w.frozen[id]);
    Due(w.s.dists[id].totalAmount, w.frozen[id], a)
  }

  /** The product that `claimable` guards. */
  function Product(w: World, id: nat, a: Address): int
    requires Inv(w) && id in w.s.dists
  {
    w.s.dists[id].totalAmount * BalanceIn(w.frozen[id], a)
  }

  predicate Open(w: World, id: nat) {
    id in w.s.dists && !w.s.dists[id].completed
  }

  predicate ClaimOpen(w: World, env: Env, id: nat) {
    && Open(w, id) && env.payable
    && (w.s.dists[id].deadline == 0 || env.now <= w.s.dists[id].deadline)
  }

  predicate Entitled(w: World, env: Env, id: nat, a: Address)
    requires Inv(w)
  {
    && a in env.auth && ClaimOpen(w, env, id) && (id, a) !in w.s.claimed
    && ShareOf(w, id, a) > 0 && Product(w, id, a) <= I128_MAX
  }

  /** The state a claim leaves when the distribution has paid out `paid` in all. */
  function Settled(s: State, id: nat, paid: I128): State
    requires id in s.dists
  {
    var d := s.dists[id];
    var t := if paid >= d.totalAmount then WithoutSnapshot(s, id) else s;
    t.(dists := s.dists[id := d.(distributed := paid, completed := paid >= d.totalAmount)])
  }

  /** In an open distribution the contract's figure for a holder that has not claimed is its share, unless
      the product is out of range; and neither the total nor the pot falls short of it. */
  lemma ClaimFigures(w: World, id: nat, a: Address)
    requires Sound(w) && Open(w, id) && (id, a) !in w.s.claimed
    ensures Claimable(w.s, id, a).Ok? ==> Claimable(w.s, id, a).value == ShareOf(w, id, a)
    ensures ShareOf(w, id, a) > 0 ==> (Claimable(w.s, id, a).Ok? <==> Product(w, id, a) <= I128_MAX)
    ensures var d := w.s.dists[id];
            && d.distributed + ShareOf(w, id, a) <= d.totalAmount
            && ShareOf(w, id, a) <= Held(w.s.payments, d.paymentToken, w.s.self)
  {
    hide Shape, Surplus, ClaimedSum, Claimable, Paid, Returned;
    var s, list := w.s, w.frozen[id];
    assert Account(s, id, list);
    var total: nat, supply := s.dists[id].totalAmount, Supply(list);
    ClaimableIsShare(s, id, list, a);
    ClaimAddsShare(total, supply, list, s.claimed, id, a);
    ClaimedAtMostAll(total, supply, list, s.claimed + {(id, a)}, id);
    ShareSumAtMostTotal(total, list);
    PotCovers(w, id);
  }

  /** A claim succeeds exactly when the holder signed, the distribution is open and within its
      deadline, the holder has not claimed, and the share is positive and computable; it then pays
      exactly that share. */
  lemma ClaimCommitsIff(w: World, env: Env, id: nat, a: Address)
    requires Sound(w)
    ensures ClaimOutcome(w.s, env, id, a).Commit? <==> Entitled(w, env, id, a)
    ensures Entitled(w, env, id, a) ==>
              var s, d, share := w.s, w.s.dists[id], ShareOf(w, id, a);
              && d.distributed + share <= d.totalAmount
              && Pay(s.payments, true, d.paymentToken, s.self, a, share).Some?
              && ClaimOutcome(s, env, id, a) == Commit(
                   Settled(s, id, d.distributed + share).(
                     claimed := s.claimed + {(id, a)},
                     payments := Pay(s.payments, true, d.paymentToken, s.self, a, share).value,
                     events := s.events + [Claimed(a, id, share)]), ())
  {
    hide Inv, Surplus, Claimable, ShareOf, Product;
    if Open(w, id) && (id, a) !in w.s.claimed {
      ClaimFigures(w, id, a);
    }
  }

  lemma ClaimKeepsSound(w: World, env: Env, id: nat, a: Address)
    requires Sound(w) && w.s.self !in env.auth
    ensures var o := ClaimOutcome(w.s, env, id, a); o.Commit? ==> Sound(World(o.state, w.frozen))
  {
    hide Shape, Accounts, Surplus, ClaimOutcome;
    ClaimKeepsInv(w, env, id, a);
    if ClaimOutcome(w.s, env, id, a).Commit? {
      forall token ensures Surplus(ClaimOutcome(w.s, env, id, a).state, token) >= 0 {
        ClaimKeepsSurplus(w, env, id, a, token);
      }
    }
  }

  /** Reclaiming succeeds exactly for the admin, after a set deadline, while anything is open. */
  lemma ReclaimCommitsIff(w: World, env: Env, admin: Address, id: nat)
    requires Sound(w)
    ensures ReclaimOutcome(w.s, env, admin, id).Commit? <==>
              && AdminError(w.s.roles, env.auth, admin).None?
              && id in w.s.dists && !w.s.dists[id].completed
              && 0 < w.s.dists[id].deadline < env.now && env.payable
  {
    if id in w.s.dists && !w.s.dists[id].completed {
      assert Account(w.s, id, w.frozen[id]);
      PotCovers(w, id);
    }
  }

  /** Cancelling succeeds exactly for the admin, while open and before the first claim. */
  lemma CancelCommitsIff(w: World, env: Env, admin: Address, id: nat)
    requires Sound(w)
    ensures CancelOutcome(w.s, env, admin, id).Commit? <==>
              && AdminError(w.s.roles, env.auth, admin).None?
              && id in w.s.dists && !w.s.dists[id].completed
              && w.s.dists[id].distributed == 0 && env.payable
  {
    if id in w.s.dists && !w.s.dists[id].completed {
      assert Account(w.s, id, w.frozen[id]);
      PotCovers(w, id);
    }
  }

  /** As long as its deadline lasts, every listed holder with a positive, computable share can claim from a
      new distribution: nobody has claimed yet and the escrow is there. */
  lemma NewDistributionIsClaimable(w: World, env: Env, call: Call, later: Env, a: Address)
    requires Sound(w) && call.Create? && w.s.self !in env.auth && CallOutcome(w.s, env, call).Commit?
    requires (call.deadline == 0 || later.now <= call.deadline) && later.payable && a in later.auth
    ensures var w', id := WorldStep(w, Invoke(env, call)), w.s.counter + 1;
            && Sound(w') && ClaimOpen(w', later, id)
            && (ShareOf(w', id, a) > 0 && Product(w', id, a) <= I128_MAX ==> ClaimOutcome(w'.s, later, id, a).Commit?)
  {
    hide Shape, Accounts, Surplus, ClaimOutcome, Validate, Pay;
    var w', id := WorldStep(w, Invoke(env, call)), w.s.counter + 1;
    CreateKeepsInv(w, env, call);
    forall token ensures Surplus(w'.s, token) >= 0 {
      CreateKeepsSurplus(w, env, call, token);
    }
    FreshIdUnclaimed(w, a);
    ClaimCommitsIff(w', later, id, a);
  }

  lemma FreshIdUnclaimed(w: World, a: Address)
    requires Shape(w)
    ensures (w.s.counter + 1, a) !in w.s.claimed
  {
    assert (w.s.counter + 1, a).0 !in w.s.dists;
  }

  /** A distribution that closed by claims alone leaves no share unpaid to anyone. */
  lemma ClosedByClaimsStripsNobody(w: World, id: nat, a: Address)
    requires Inv(w) && id in w.s.dists && w.s.dists[id].completed && (id, a) !in w.s.claimed
    requires Returned(w.s.events, id, w.s.dists[id].totalAmount) == 0
    ensures ShareOf(w, id, a) == 0
  {
    var list := w.frozen[id];
    assert Account(w.s, id, list);
    var total: nat := w.s.dists[id].totalAmount;
    ClaimedAtMostAll(total, Supply(list), list, w.s.claimed, id);
    ShareSumAtMostTotal(total, list);
    AllClaimedLeavesNothing(total, Supply(list), list, w.s.claimed, id, a);
  }

  // ---- a snapshot without a single unit ----

  /** Creation checks the asset token's supply, not the snapshot's: a list of one holder with balance
      zero is accepted. */
  lemma EmptySnapshotIsAccepted(s: State, env: Env, admin: Address, assetToken: Address, paymentToken: Address,
                                total: I128, a: Address)
    requires IssuerError(s.roles, env, admin).None? && env.asset.Some? && env.asset.value.totalSupply > 0
    requires 0 < total <= Held(s.payments, paymentToken, admin) && env.payable && s.counter < U64_MAX
    ensures CreateOutcome(s, env, admin, assetToken, paymentToken, total, [Holder(a, 0)], 0).Commit?
  {
    ValidateIff([Holder(a, 0)], {}, 0);
  }

  /** No claim on such a distribution ever succeeds: everything stays in escrow until it is cancelled
      or reclaimed. */
  lemma EmptySnapshotPaysNobody(w: World, env: Env, id: nat, a: Address)
    requires Sound(w) && id in w.frozen && NonNegative(w.frozen[id]) && Supply(w.frozen[id]) == 0
    ensures !ClaimOutcome(w.s, env, id, a).Commit?
  {
    ClaimCommitsIff(w, env, id, a);
  }

  // ---- the per-asset index ----

  /** The distributions of one asset token among 1..n, in order of creation. */
  function IdsFor(dists: map<nat, Distribution>, assetToken: Address, n: nat): seq<nat> {
    if n == 0 then []
    else IdsFor(dists, assetToken, n - 1) + if n in dists && dists[n].assetToken == assetToken then [n] else []
  }

  ghost predicate Indexed(s: State) {
    forall a :: Get(s.assetIds, a, []) == IdsFor(s.dists, a, s.counter)
  }

  lemma {:induction false} SameIds(dists: map<nat, Distribution>, dists': map<nat, Distribution>, a: Address, n: nat)
    requires forall id :: 1 <= id <= n ==> (id in dists <==> id in dists')
    requires forall id :: 1 <= id <= n && id in dists ==> dists'[id].assetToken == dists[id].assetToken
    ensures IdsFor(dists', a, n) == IdsFor(dists, a, n)
  {
    if n > 0 {
      SameIds(dists, dists', a, n - 1);
    }
  }

  lemma IdsForNext(dists: map<nat, Distribution>, a: Address, n: nat)
    ensures IdsFor(dists, a, n + 1)
         == IdsFor(dists, a, n) + if n + 1 in dists && dists[n + 1].assetToken == a then [n + 1] else []
  {
  }

  lemma IndexStepKeepsOne(s: State, t: State, a: Address)
    requires IndexStep(s, t) && Get(s.assetIds, a, []) == IdsFor(s.dists, a, s.counter)
    requires forall id :: id in s.dists <==> 1 <= id <= s.counter
    requires forall id :: id in s.dists ==> id in t.dists && t.dists[id].assetToken == s.dists[id].assetToken
    ensures Get(t.assetIds, a, []) == IdsFor(t.dists, a, t.counter)
  {
    hide IdsFor;
    SameIds(s.dists, t.dists, a, s.counter);
    IdsForNext(t.dists, a, s.counter);
    assert IdsFor(t.dists, a, s.counter) + [] == IdsFor(t.dists, a, s.counter);
  }

  lemma SameTokens(s: State, t: State)
    requires Frame(s, t)
    ensures forall id :: id in s.dists ==> id in t.dists && t.dists[id].assetToken == s.dists[id].assetToken
  {
    hide IndexStep;
  }

  lemma StepKeepsIndex(w: World, tx: Tx)
    requires Inv(w) && Indexed(w.s)
    ensures Indexed(Step(w.s, tx))
  {
    hide Accounts, Step, IndexStep, IdsFor, Terms;
    var s, t := w.s, Step(w.s, tx);
    StepFrame(w, tx);
    SameTokens(s, t);
    forall a ensures Get(t.assetIds, a, []) == IdsFor(t.dists, a, t.counter) {
      IndexStepKeepsOne(s, t, a);
    }
  }

  lemma {:induction false} RunKeepsIndex(w: World, txs: seq<Tx>)
    requires Inv(w) && Indexed(w.s)
    ensures Indexed(Run(w.s, txs))
    decreases |txs|
  {
    if txs != [] {
      StepKeepsIndex(w, txs[0]);
      StepKeepsInv(w, txs[0]);
      RunKeepsIndex(WorldStep(w, txs[0]), txs[1..]);
    }
  }

  /** The index lists exactly the ids of the asset's distributions, each once and in ascending order. */
  lemma {:induction false} IdsForExact(dists: map<nat, Distribution>, assetToken: Address, n: nat)
    ensures forall i :: i in IdsFor(dists, assetToken, n)
                        <==> 1 <= i <= n && i in dists && dists[i].assetToken == assetToken
    ensures forall j, k :: 0 <= j < k < |IdsFor(dists, assetToken, n)| ==>
                             IdsFor(dists, assetToken, n)[j] < IdsFor(dists, assetToken, n)[k]
  {
    if n > 0 {
      IdsForExact(dists, assetToken, n - 1);
      var ids := IdsFor(dists, assetToken, n - 1);
      assert forall j :: 0 <= j < |ids| ==> ids[j] in ids;
    }
  }

  /** In every reachable state the index of an asset token lists exactly its distributions, each once
      and in ascending order of id. */
  lemma IndexListsDistributions(self: Address, payments: Payments, txs: seq<Tx>, assetToken: Address)
    ensures var s := Run(Empty(self, payments), txs);
            var ids := Get(s.assetIds, assetToken, []);
            && (forall id :: id in ids <==> id in s.dists && s.dists[id].assetToken == assetToken)
            && (forall j, k :: 0 <= j < k < |ids| ==> ids[j] < ids[k])
  {
    var w := World(Empty(self, payments), map[]);
    RunKeepsIndex(w, txs);
    RunKeepsInv(w, txs);
    var s := Run(w.s, txs);
    IdsForExact(s.dists, assetToken, s.counter);
  }
}
