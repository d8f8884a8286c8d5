/** What stays in escrow once nobody can claim any more: the rounding dust, the shares that the contract
    cannot compute, and a share of its own, which it never signs for. */
module DividendDust {
  import opened Soroban
  import opened Dividend
  import opened DividendShares
  import opened DividendProofs
  import opened DividendEscrow

  // ---- on the arguments of a creation ----

  /** The product that `claimable` forms is within i128. */
  predicate Fits(total: nat, balance: int) {
    total * balance <= I128_MAX
  }

  /** The listed holder is not the escrow contract `self`, and its share can be computed. */
  predicate CanBePaid(self: Address, total: nat, h: Holder) {
    h.address != self && Fits(total, h.balance)
  }

  /** Everybody with a positive share can be paid it. */
  ghost predicate AllCanBePaid(self: Address, total: nat, supply: nat, list: seq<Holder>)
    requires NonNegative(list)
  {
    forall i :: 0 <= i < |list| && Share(total, supply, list[i].balance) > 0 ==> CanBePaid(self, total, list[i])
  }

  /** What a listed holder can ever be paid. */
  function Payable(self: Address, total: nat, supply: nat, h: Holder): nat
    requires h.balance >= 0
  {
    if CanBePaid(self, total, h) then Share(total, supply, h.balance) else 0
  }

  function PayableSum(self: Address, total: nat, supply: nat, list: seq<Holder>): nat
    requires NonNegative(list)
  {
    if list == [] then 0 else Payable(self, total, supply, list[0]) + PayableSum(self, total, supply, list[1..])
  }

  /** The shares that can never be paid. */
  function UnpayableSum(self: Address, total: nat, supply: nat, list: seq<Holder>): nat
    requires NonNegative(list)
  {
    if list == [] then 0
    else
      (if CanBePaid(self, total, list[0]) then 0 else Share(total, supply, list[0].balance))
      + UnpayableSum(self, total, supply, list[1..])
  }

  /** What a creation with these arguments leaves in escrow however many claims are made. */
  function Stranded(self: Address, total: nat, list: seq<Holder>): int
    requires NonNegative(list)
  {
    total - PayableSum(self, total, Supply(list), list)
  }

  /** The documented dust: the total less the floors of all shares. */
  function Dust(total: nat, list: seq<Holder>): int
    requires NonNegative(list)
  {
    total - ShareSum(total, Supply(list), list)
  }

  lemma {:induction false} SharesSplit(self: Address, total: nat, supply: nat, list: seq<Holder>)
    requires NonNegative(list)
    ensures ShareSum(total, supply, list)
         == PayableSum(self, total, supply, list) + UnpayableSum(self, total, supply, list)
  {
    if list != [] {
      hide CanBePaid, Share;
      SharesSplit(self, total, supply, list[1..]);
    }
  }

  lemma {:induction false} UnpayableSumIff(self: Address, total: nat, supply: nat, list: seq<Holder>)
    requires NonNegative(list)
    ensures UnpayableSum(self, total, supply, list) == 0 <==> AllCanBePaid(self, total, supply, list)
  {
    if list != [] {
      hide CanBePaid, Share;
      var rest := list[1..];
      assert forall i :: 0 <= i < |rest| ==> rest[i] == list[i + 1];
      UnpayableSumIff(self, total, supply, rest);
      if AllCanBePaid(self, total, supply, rest)
         && (Share(total, supply, list[0].balance) > 0 ==> CanBePaid(self, total, list[0])) {
        forall i | 0 <= i < |list| && Share(total, supply, list[i].balance) > 0
          ensures CanBePaid(self, total, list[i])
        {
          assert i > 0 ==> list[i] == rest[i - 1];
        }
      }
    }
  }

  /** Only the documented dust is stranded exactly if everybody with a positive share can be paid. */
  lemma StrandedIsDustIff(self: Address, total: nat, list: seq<Holder>)
    requires Fair(list)
    ensures Stranded(self, total, list) >= Dust(total, list) >= 0
    ensures Stranded(self, total, list) == Dust(total, list) <==> AllCanBePaid(self, total, Supply(list), list)
  {
    ShareSumAtMostTotal(total, list);
    SharesSplit(self, total, Supply(list), list);
    UnpayableSumIff(self, total, Supply(list), list);
  }

  /** A product beyond i128 is a share of at least one unit, since no snapshot sum is beyond it. */
  lemma UnfitShareIsPositive(total: nat, supply: nat, balance: nat)
    requires 0 < supply <= I128_MAX && !Fits(total, balance)
    ensures Share(total, supply, balance) > 0
  {
    ShareBounds(total, supply, balance);
    assert supply * 0 == 0;
  }

  lemma {:induction false} BalanceAtMostSum(list: seq<Holder>, i: nat)
    requires NonNegative(list) && i < |list|
    ensures 0 <= list[i].balance <= BalanceSum(list)
  {
    BalanceSumNonNegative(list[1..]);
    if i > 0 {
      BalanceAtMostSum(list[1..], i - 1);
    }
  }

  /** What a creator has to check: that every product fits i128, and that the contract itself is due nothing. */
  lemma AllCanBePaidIff(self: Address, total: nat, list: seq<Holder>)
    requires Fair(list)
    ensures AllCanBePaid(self, total, Supply(list), list) <==>
              (forall i :: 0 <= i < |list| ==> Fits(total, list[i].balance)) && Due(total, list, self) == 0
  {
    var supply := Supply(list);
    assert Share(total, supply, 0) == 0;
    forall i | 0 <= i < |list| ensures Fits(total, list[i].balance) || Share(total, supply, list[i].balance) > 0 {
      BalanceAtMostSum(list, i);
      if !Fits(total, list[i].balance) {
        UnfitShareIsPositive(total, supply, list[i].balance);
      }
    }
    forall i | 0 <= i < |list| ensures list[i].address == self ==> BalanceIn(list, self) == list[i].balance {
      BalanceInAt(list, i);
    }
    if BalanceIn(list, self) != 0 {
      var i := BalanceInListed(list, self);
    }
    hide Fits, Share;
  }

  lemma SumsUnfold(self: Address, total: nat, supply: nat, list: seq<Holder>)
    requires NonNegative(list)
    ensures list == [] ==> BalanceSum(list) == 0 && PayableSum(self, total, supply, list) == 0
                           && ShareSum(total, supply, list) == 0
    ensures list != [] ==>
              && NonNegative(list[1..]) && BalanceSum(list) == list[0].balance + BalanceSum(list[1..])
              && PayableSum(self, total, supply, list)
                 == Payable(self, total, supply, list[0]) + PayableSum(self, total, supply, list[1..])
              && ShareSum(total, supply, list)
                 == Share(total, supply, list[0].balance) + ShareSum(total, supply, list[1..])
  {
  }

  /** A share that cannot be paid may be so small that the documented bound of N - 1 survives it. */
  lemma SmallUnfitShareWithinBound(self: Address, a: Address, b: Address, c: Address)
    requires a != b && b != c && a != c && self !in {a, b, c}
    ensures var list := [Holder(a, I128_MAX / 2 + 1), Holder(b, 1), Holder(c, 1)];
            Fair(list) && !AllCanBePaid(self, 2, Supply(list), list) && Stranded(self, 2, list) == |list| - 1
  {
    var list := [Holder(a, I128_MAX / 2 + 1), Holder(b, 1), Holder(c, 1)];
    var supply := I128_MAX / 2 + 3;
    assert forall i :: 0 <= i < 3 ==> Payable(self, 2, supply, list[i]) == 0;
    assert Share(2, supply, list[0].balance) == 1 && !CanBePaid(self, 2, list[0]);
    hide BalanceSum, PayableSum, ShareSum, Payable, CanBePaid, Share;
    assert list[1..][1..] == [list[2]] && list[1..][1..][1..] == [];
    SumsUnfold(self, 2, supply, list);
    SumsUnfold(self, 2, supply, list[1..]);
    SumsUnfold(self, 2, supply, list[1..][1..]);
    SumsUnfold(self, 2, supply, []);
  }

  /** A holder's exact share, as a multiple of the snapshot sum, less what it can ever be paid. */
  function Loss(self: Address, total: nat, list: seq<Holder>, h: Holder): int
    requires NonNegative(list) && h.balance >= 0
  {
    total * h.balance - Supply(list) * Payable(self, total, Supply(list), h)
  }

  /** Less than one unit is stranded for each holder exactly if everybody with a positive share can be paid. */
  lemma LessThanOneUnitEachIff(self: Address, total: nat, list: seq<Holder>)
    requires Fair(list) && Supply(list) > 0
    ensures (forall i :: 0 <= i < |list| ==> 0 <= Loss(self, total, list, list[i]) < Supply(list))
            <==> AllCanBePaid(self, total, Supply(list), list)
  {
    var supply := Supply(list);
    forall i | 0 <= i < |list|
      ensures 0 <= Loss(self, total, list, list[i]) < supply
              <==> Share(total, supply, list[i].balance) > 0 ==> CanBePaid(self, total, list[i])
    {
      LossBelowOneIff(self, total, list, list[i]);
    }
    hide Loss, Share, CanBePaid;
  }

  lemma LossBelowOneIff(self: Address, total: nat, list: seq<Holder>, h: Holder)
    requires NonNegative(list) && Supply(list) > 0 && h.balance >= 0
    ensures 0 <= Loss(self, total, list, h) < Supply(list)
            <==> (Share(total, Supply(list), h.balance) > 0 ==> CanBePaid(self, total, h))
  {
    var supply, share := Supply(list), Share(total, Supply(list), h.balance);
    ShareBounds(total, supply, h.balance);
    assert supply * 0 == 0;
    if share > 0 {
      MulAtLeast(supply, share);
    }
  }

  lemma MulAtLeast(a: nat, b: nat)
    requires b > 0
    ensures a * b >= a
  {
  }

  // ---- who can still be paid ----

  lemma {:induction false} BalanceInAt(list: seq<Holder>, i: nat)
    requires Distinct(list) && i < |list|
    ensures BalanceIn(list, list[i].address) == list[i].balance
  {
    if i > 0 {
      assert list[1..][i - 1] == list[i];
      SplitDistinct(list);
      BalanceInAt(list[1..], i - 1);
    }
  }

  /** A balance that is not zero is that of a listed holder. */
  lemma {:induction false} BalanceInListed(list: seq<Holder>, a: Address) returns (i: nat)
    requires BalanceIn(list, a) != 0
    ensures i < |list| && list[i].address == a && list[i].balance == BalanceIn(list, a)
  {
    if list[0].address == a {
      i := 0;
    } else {
      var j := BalanceInListed(list[1..], a);
      i := j + 1;
    }
  }

  ghost predicate PaidCanBePaid(
    self: Address, total: nat, list: seq<Holder>, claimed: set<(nat, Address)>, id: nat)
  {
    forall i :: 0 <= i < |list| && (id, list[i].address) in claimed ==> CanBePaid(self, total, list[i])
  }

  /** The listed holder has claimed, or can never be paid anything. */
  predicate Done(self: Address, total: nat, supply: nat, h: Holder, claimed: set<(nat, Address)>, id: nat)
    requires h.balance >= 0
  {
    (id, h.address) in claimed || Payable(self, total, supply, h) == 0
  }

  ghost predicate AllDone(
    self: Address, total: nat, supply: nat, list: seq<Holder>, claimed: set<(nat, Address)>, id: nat)
    requires NonNegative(list)
  {
    forall i :: 0 <= i < |list| ==> Done(self, total, supply, list[i], claimed, id)
  }

  /** The claimed shares fall short of what can be paid until nobody can be paid any more. */
  lemma {:induction false} ClaimedAtMostPayable(
    self: Address, total: nat, supply: nat, list: seq<Holder>, claimed: set<(nat, Address)>, id: nat)
    requires NonNegative(list) && PaidCanBePaid(self, total, list, claimed, id)
    ensures ClaimedSum(total, supply, list, claimed, id) <= PayableSum(self, total, supply, list)
    ensures ClaimedSum(total, supply, list, claimed, id) == PayableSum(self, total, supply, list)
            <==> AllDone(self, total, supply, list, claimed, id)
  {
    if list != [] {
      hide CanBePaid, Share;
      var rest := list[1..];
      assert forall i :: 0 <= i < |rest| ==> rest[i] == list[i + 1];
      ClaimedAtMostPayable(self, total, supply, rest, claimed, id);
      AllDoneSplits(self, total, supply, list, claimed, id);
    }
  }

  lemma AllDoneSplits(
    self: Address, total: nat, supply: nat, list: seq<Holder>, claimed: set<(nat, Address)>, id: nat)
    requires NonNegative(list) && list != []
    ensures NonNegative(list[1..])
    ensures AllDone(self, total, supply, list, claimed, id) <==>
              Done(self, total, supply, list[0], claimed, id) && AllDone(self, total, supply, list[1..], claimed, id)
  {
    hide Done;
    var rest := list[1..];
    assert forall i :: 0 <= i < |rest| ==> rest[i] == list[i + 1];
    if Done(self, total, supply, list[0], claimed, id) && AllDone(self, total, supply, rest, claimed, id) {
      forall i | 0 <= i < |list| ensures Done(self, total, supply, list[i], claimed, id) {
        assert i > 0 ==> list[i] == rest[i - 1];
      }
    }
  }

  // ---- in reachable worlds ----

  /** Nobody has claimed but holders other than the contract, with a product that fits. */
  ghost predicate OnlyPayable(w: World)
    requires Inv(w)
  {
    forall id, a :: id in w.s.dists && (id, a) in w.s.claimed ==> a != w.s.self && Product(w, id, a) <= I128_MAX
  }

  /** The list of a distribution stays as it was frozen. */
  lemma StepKeepsLists(w: World, tx: Tx)
    requires Inv(w)
    ensures forall id :: id in w.s.dists ==> id in w.frozen && id in WorldStep(w, tx).frozen
                                             && WorldStep(w, tx).frozen[id] == w.frozen[id]
  {
    if tx.Invoke? && tx.call.Create? {
      hide Accounts, Validate, Pay;
      assert w.s.counter + 1 !in w.s.dists;
    }
  }

  lemma ClaimFits(w: World, env: Env, id: nat, a: Address)
    requires Inv(w) && ClaimOutcome(w.s, env, id, a).Commit?
    ensures a in env.auth && id in w.s.dists && Product(w, id, a) <= I128_MAX
  {
    hide Shape, Pay;
    assert Account(w.s, id, w.frozen[id]);
  }

  lemma StepKeepsPayable(w: World, tx: Tx)
    requires Inv(w) && OnlyPayable(w) && ByOthers(tx, w.s.self)
    ensures Inv(WorldStep(w, tx)) && OnlyPayable(WorldStep(w, tx)) && WorldStep(w, tx).s.self == w.s.self
  {
    hide Accounts, CreateOutcome, ClaimOutcome, ReclaimOutcome, CancelOutcome, InitializedRoles;
    StepKeepsInv(w, tx);
    StepKeepsLists(w, tx);
    StepFrame(w, tx);
    if Claims(w.s, tx) {
      ClaimFits(w, tx.env, tx.call.id, tx.call.holder);
      ClaimFrame(w.s, tx.env, tx.call.id, tx.call.holder);
    }
  }

  lemma {:induction false} RunKeepsPayable(w: World, txs: seq<Tx>)
    requires Inv(w) && OnlyPayable(w) && forall i :: 0 <= i < |txs| ==> ByOthers(txs[i], w.s.self)
    ensures Inv(WorldRun(w, txs)) && OnlyPayable(WorldRun(w, txs)) && WorldRun(w, txs).s.self == w.s.self
    decreases |txs|
  {
    hide Inv, WorldStep, ByOthers;
    if txs != [] {
      StepKeepsPayable(w, txs[0]);
      RunKeepsPayable(WorldStep(w, txs[0]), txs[1..]);
    }
  }

  /** No claim on the distribution can succeed, whoever else than the contract signs and at whatever ledger. */
  ghost predicate Exhausted(w: World, id: nat) {
    forall env: Env, a :: w.s.self !in env.auth ==> !ClaimOutcome(w.s, env, id, a).Commit?
  }

  lemma ExhaustedIff(w: World, id: nat)
    requires Sound(w) && Open(w, id)
    ensures id in w.frozen && Fair(w.frozen[id]) && w.s.dists[id].totalAmount > 0
    ensures Exhausted(w, id) <==>
            AllDone(w.s.self, w.s.dists[id].totalAmount, Supply(w.frozen[id]), w.frozen[id], w.s.claimed, id)
  {
    assert Account(w.s, id, w.frozen[id]);
    var self, total: nat, list := w.s.self, w.s.dists[id].totalAmount, w.frozen[id];
    var supply := Supply(list);
    if AllDone(self, total, supply, list, w.s.claimed, id) {
      forall env: Env, a | self !in env.auth ensures !ClaimOutcome(w.s, env, id, a).Commit? {
        ClaimCommitsIff(w, env, id, a);
        if Entitled(w, env, id, a) {
          var i := EntitledIsListed(w, env, id, a);
          assert false;
        }
      }
    }
    if Exhausted(w, id) {
      forall i | 0 <= i < |list| ensures Done(self, total, supply, list[i], w.s.claimed, id) {
        UnpaidCanClaim(w, id, i);
      }
    }
  }

  lemma EntitledIsListed(w: World, env: Env, id: nat, a: Address) returns (i: nat)
    requires Inv(w) && Entitled(w, env, id, a) && w.s.self !in env.auth
    ensures id in w.frozen && i < |w.frozen[id]| && w.frozen[id][i].address == a && Fair(w.frozen[id])
    ensures w.s.dists[id].totalAmount > 0
    ensures !Done(w.s.self, w.s.dists[id].totalAmount, Supply(w.frozen[id]), w.frozen[id][i], w.s.claimed, id)
  {
    assert Account(w.s, id, w.frozen[id]);
    assert Share(w.s.dists[id].totalAmount, Supply(w.frozen[id]), 0) == 0;
    i := BalanceInListed(w.frozen[id], a);
  }

  /** A listed holder that has not claimed and can be paid something can claim, at the first ledger. */
  lemma UnpaidCanClaim(w: World, id: nat, i: nat)
    requires Sound(w) && Open(w, id) && id in w.frozen && i < |w.frozen[id]| && Fair(w.frozen[id])
    requires w.s.dists[id].totalAmount > 0
    ensures var h, env := w.frozen[id][i], Env(0, {w.frozen[id][i].address}, None, true);
            || Done(w.s.self, w.s.dists[id].totalAmount, Supply(w.frozen[id]), h, w.s.claimed, id)
            || (w.s.self !in env.auth && ClaimOutcome(w.s, env, id, h.address).Commit?)
  {
    var a := w.frozen[id][i].address;
    BalanceInAt(w.frozen[id], i);
    ClaimCommitsIff(w, Env(0, {a}, None, true), id, a);
  }

  /** What an open distribution keeps, in a state with its books in order. */
  lemma KeepsStranded(w: World, id: nat)
    requires Sound(w) && OnlyPayable(w) && Open(w, id)
    ensures id in w.frozen && Fair(w.frozen[id]) && w.s.dists[id].totalAmount > 0
    ensures var d, list := w.s.dists[id], w.frozen[id];
            && d.totalAmount - d.distributed >= Stranded(w.s.self, d.totalAmount, list)
            && (d.totalAmount - d.distributed == Stranded(w.s.self, d.totalAmount, list) <==> Exhausted(w, id))
  {
    assert Account(w.s, id, w.frozen[id]);
    ExhaustedIff(w, id);
    var self, total: nat, list := w.s.self, w.s.dists[id].totalAmount, w.frozen[id];
    forall i | 0 <= i < |list| && (id, list[i].address) in w.s.claimed ensures CanBePaid(self, total, list[i]) {
      BalanceInAt(list, i);
      assert Product(w, id, list[i].address) <= I128_MAX;
    }
    ClaimedAtMostPayable(self, total, Supply(list), list, w.s.claimed, id);
  }

  /** In every reachable state an open distribution keeps in escrow at least what its arguments strand,
      and exactly that once no further claim can succeed. */
  lemma EscrowKeepsStranded(w: World, self: Address, payments: Payments, txs: seq<Tx>, id: nat)
    requires Reachable(w, self, payments, txs) && Open(w, id)
    ensures id in w.frozen && Fair(w.frozen[id]) && w.s.dists[id].totalAmount > 0
    ensures var d, list := w.s.dists[id], w.frozen[id];
            && d.totalAmount - d.distributed >= Stranded(self, d.totalAmount, list)
            && (d.totalAmount - d.distributed == Stranded(self, d.totalAmount, list) <==> Exhausted(w, id))
  {
    EscrowSolvent(w, self, payments, txs);
    ReachablePayable(w, self, payments, txs);
    KeepsStranded(w, id);
  }

  lemma ReachablePayable(w: World, self: Address, payments: Payments, txs: seq<Tx>)
    requires Reachable(w, self, payments, txs)
    ensures Inv(w) && OnlyPayable(w) && w.s.self == self
  {
    RunKeepsPayable(World(Empty(self, payments), map[]), txs);
  }

  /** Once nobody can claim any more, an open distribution keeps the documented dust exactly if everybody with a
      positive share could be paid; with a positive snapshot sum that is less than one unit per holder with a
      positive balance. */
  lemma DocumentedDustStaysIff(w: World, self: Address, payments: Payments, txs: seq<Tx>, id: nat)
    requires Reachable(w, self, payments, txs) && Open(w, id) && Exhausted(w, id)
    ensures id in w.frozen && Fair(w.frozen[id]) && w.s.dists[id].totalAmount > 0
    ensures var d, list := w.s.dists[id], w.frozen[id];
            && (d.totalAmount - d.distributed == Dust(d.totalAmount, list)
                <==> AllCanBePaid(self, d.totalAmount, Supply(list), list))
            && (AllCanBePaid(self, d.totalAmount, Supply(list), list) && Supply(list) > 0 ==>
                  0 < d.totalAmount - d.distributed <= Holding(list) - 1 <= |list| - 1)
  {
    EscrowSolvent(w, self, payments, txs);
    PotCovers(w, id);
    EscrowKeepsStranded(w, self, payments, txs, id);
    StrandedIsDustIff(self, w.s.dists[id].totalAmount, w.frozen[id]);
    if Supply(w.frozen[id]) > 0 {
      DustBound(w.s.dists[id].totalAmount, w.frozen[id]);
    }
  }

  /** Once nobody can claim any more, the documented bound itself - at most N - 1 units among N holders - holds
      exactly if the dust and the shares that cannot be paid come to no more than that. */
  lemma DocumentedBoundStaysIff(w: World, self: Address, payments: Payments, txs: seq<Tx>, id: nat)
    requires Reachable(w, self, payments, txs) && Open(w, id) && Exhausted(w, id)
    ensures id in w.frozen && Fair(w.frozen[id]) && w.s.dists[id].totalAmount > 0
    ensures var d, list := w.s.dists[id], w.frozen[id];
            d.totalAmount - d.distributed <= |list| - 1
            <==> Dust(d.totalAmount, list) + UnpayableSum(self, d.totalAmount, Supply(list), list) <= |list| - 1
  {
    EscrowKeepsStranded(w, self, payments, txs, id);
    SharesSplit(self, w.s.dists[id].totalAmount, Supply(w.frozen[id]), w.frozen[id]);
  }

  lemma {:induction false} AllPositiveClaimed(
    total: nat, supply: nat, list: seq<Holder>, claimed: set<(nat, Address)>, id: nat)
    requires NonNegative(list)
    requires forall i :: 0 <= i < |list| && Share(total, supply, list[i].balance) > 0 ==>
                           (id, list[i].address) in claimed
    ensures ClaimedSum(total, supply, list, claimed, id) == ShareSum(total, supply, list)
  {
    if list != [] {
      var rest := list[1..];
      assert forall i :: 0 <= i < |rest| ==> rest[i] == list[i + 1];
      AllPositiveClaimed(total, supply, rest, claimed, id);
    }
  }

  /** Once every listed holder with a positive share has claimed, what is left is the documented dust. */
  lemma AllClaimedLeavesDust(w: World, id: nat)
    requires Sound(w) && Open(w, id) && id in w.frozen && Fair(w.frozen[id])
    requires w.s.dists[id].totalAmount > 0 && Supply(w.frozen[id]) > 0
    requires forall i :: 0 <= i < |w.frozen[id]| && ShareOf(w, id, w.frozen[id][i].address) > 0 ==>
                           (id, w.frozen[id][i].address) in w.s.claimed
    ensures var d, list := w.s.dists[id], w.frozen[id];
            && d.totalAmount - d.distributed == Dust(d.totalAmount, list)
            && 0 < d.totalAmount - d.distributed <= Holding(list) - 1
  {
    var total: nat, list := w.s.dists[id].totalAmount, w.frozen[id];
    assert Account(w.s, id, list);
    forall i | 0 <= i < |list| && Share(total, Supply(list), list[i].balance) > 0
      ensures (id, list[i].address) in w.s.claimed
    {
      BalanceInAt(list, i);
      assert ShareOf(w, id, list[i].address) > 0;
    }
    AllPositiveClaimed(total, Supply(list), list, w.s.claimed, id);
    DustBound(total, list);
  }

  // ---- holders the contract can never pay ----

  /** A contract initialized by `admin`, which then escrows `total` for the listed holders, with no deadline. */
  function CreationRun(env: Env, admin: Address, asset: Address, token: Address, total: I128, list: seq<Holder>)
    : seq<Tx>
  {
    [Invoke(env, Role(Initialize(admin))), Invoke(env, Create(admin, asset, token, total, list, 0))]
  }

  function CreationEnv(now: U32, admin: Address): Env {
    Env(now, {admin}, Some(AssetView(1, admin)), true)
  }

  /** Where that leads if `admin` holds exactly `total` at first. */
  function AfterCreation(self: Address, now: U32, admin: Address, asset: Address, token: Address, total: I128,
                   list: seq<Holder>): World
  {
    WorldRun(World(Empty(self, map[(token, admin) := total]), map[]),
             CreationRun(CreationEnv(now, admin), admin, asset, token, total, list))
  }

  /** Every fair list and positive total is accepted by such a run. */
  lemma CreationSucceeds(self: Address, now: U32, admin: Address, asset: Address, token: Address, total: I128,
                         list: seq<Holder>)
    requires admin != self && total > 0 && Fair(list)
    ensures var w := AfterCreation(self, now, admin, asset, token, total, list);
            && Reachable(w, self, map[(token, admin) := total],
                         CreationRun(CreationEnv(now, admin), admin, asset, token, total, list))
            && Open(w, 1) && 1 in w.frozen && w.frozen[1] == list && w.s.self == self && w.s.claimed == {}
            && w.s.dists[1] == Distribution(1, asset, token, total, 0, now, false, 0, false)
  {
    var env := CreationEnv(now, admin);
    var txs := CreationRun(env, admin, asset, token, total, list);
    var w1 := WorldStep(World(Empty(self, map[(token, admin) := total]), map[]), txs[0]);
    assert w1.s.roles.admin == Some(admin) && w1.s.counter == 0 && w1.s.claimed == {};
    assert Held(w1.s.payments, token, admin) == total;
    ValidateIff(list, {}, 0);
    hide Validate, Fair;
    assert CallOutcome(w1.s, env, txs[1].call).Commit?;
    assert WorldRun(WorldStep(w1, txs[1]), []) == WorldStep(w1, txs[1]);
    assert txs[1..][0] == txs[1] && txs[1..][1..] == [];
    assert WorldRun(w1, txs[1..]) == WorldStep(w1, txs[1]);
  }

  /** One holder of two units and the total i128::MAX: the documented dust is nothing, but no claim ever
      succeeds and the whole amount stays in escrow. */
  lemma OverflowingHolderStrandsAll(self: Address, now: U32, admin: Address, asset: Address, token: Address, a: Address)
    requires admin != self
    ensures var list := [Holder(a, 2)];
            var w := AfterCreation(self, now, admin, asset, token, I128_MAX, list);
            && Open(w, 1) && Exhausted(w, 1)
            && w.s.dists[1].totalAmount - w.s.dists[1].distributed == I128_MAX
            && Fair(list) && Supply(list) > 0 && Dust(I128_MAX, list) == 0
  {
    hide WorldRun, Empty, CreationRun, Exhausted;
    var list := [Holder(a, 2)];
    assert list[1..] == [] && BalanceSum(list) == 2;
    assert ShareSum(I128_MAX, 2, list) == Share(I128_MAX, 2, 2) == I128_MAX;
    assert PayableSum(self, I128_MAX, 2, list) == Payable(self, I128_MAX, 2, list[0]) == 0;
    CreationSucceeds(self, now, admin, asset, token, I128_MAX, list);
    EscrowKeepsStranded(AfterCreation(self, now, admin, asset, token, I128_MAX, list), self,
                        map[(token, admin) := I128_MAX],
                        CreationRun(CreationEnv(now, admin), admin, asset, token, I128_MAX, list), 1);
  }

  lemma SelfListedFigures(self: Address, b: Address)
    requires b != self
    ensures var list := [Holder(self, 1), Holder(b, 1)];
            && Fair(list) && Supply(list) == 2
            && (forall i :: 0 <= i < |list| ==> Fits(10, list[i].balance))
            && Dust(10, list) == 0 && Stranded(self, 10, list) == 5
  {
    var list := [Holder(self, 1), Holder(b, 1)];
    assert Payable(self, 10, 2, list[0]) == 0 && Payable(self, 10, 2, list[1]) == 5 == Share(10, 2, 1);
    hide BalanceSum, PayableSum, ShareSum, Payable, Share;
    assert list[1..] == [list[1]] && list[1..][1..] == [];
    SumsUnfold(self, 10, 2, list);
    SumsUnfold(self, 10, 2, list[1..]);
    SumsUnfold(self, 10, 2, []);
  }

  /** The contract itself and `b` with one unit each and the total 10: every product fits and the documented dust
      is nothing, but however the run goes on, as long as the distribution is open 5 units stay. */
  lemma SelfListedStrandsHalf(self: Address, now: U32, admin: Address, asset: Address, token: Address, b: Address,
                              more: seq<Tx>)
    requires admin != self && b != self && forall i :: 0 <= i < |more| ==> ByOthers(more[i], self)
    ensures var list := [Holder(self, 1), Holder(b, 1)];
            var w := WorldRun(AfterCreation(self, now, admin, asset, token, 10, list), more);
            && Fair(list) && Supply(list) > 0 && Dust(10, list) == 0
            && (forall i :: 0 <= i < |list| ==> Fits(10, list[i].balance))
            && 1 in w.s.dists && w.s.dists[1].totalAmount == 10
            && (Open(w, 1) ==> 10 - w.s.dists[1].distributed >= 5 > |list| - 1)
            && (Open(w, 1) && (1, b) in w.s.claimed ==> 10 - w.s.dists[1].distributed == 5 && Exhausted(w, 1))
  {
    var list := [Holder(self, 1), Holder(b, 1)];
    var w0 := AfterCreation(self, now, admin, asset, token, 10, list);
    SelfListedFigures(self, b);
    CreationSucceeds(self, now, admin, asset, token, 10, list);
    hide WorldRun, AfterCreation, CreationRun, Exhausted;
    var payments: Payments := map[(token, admin) := 10];
    var txs := CreationRun(CreationEnv(now, admin), admin, asset, token, 10, list);
    ReachablePayable(w0, self, payments, txs);
    ReachableOn(w0, self, payments, txs, more);
    RunKeepsTerms(w0, more, 1);
    var w := WorldRun(w0, more);
    if Open(w, 1) {
      EscrowKeepsStranded(w, self, payments, txs + more, 1);
      if (1, b) in w.s.claimed {
        ReachablePayable(w, self, payments, txs + more);
        EscrowSolvent(w, self, payments, txs + more);
        ExhaustedIff(w, 1);
        assert Done(self, 10, 2, list[0], w.s.claimed, 1) && Done(self, 10, 2, list[1], w.s.claimed, 1);
      }
    }
  }

  // ---- longer runs ----

  lemma {:induction false} WorldRunOn(w: World, txs: seq<Tx>, more: seq<Tx>)
    ensures WorldRun(w, txs + more) == WorldRun(WorldRun(w, txs), more)
    decreases |txs|
  {
    hide WorldStep;
    if txs == [] {
      assert txs + more == more;
    } else {
      assert (txs + more)[1..] == txs[1..] + more;
      WorldRunOn(WorldStep(w, txs[0]), txs[1..], more);
    }
  }

  lemma ReachableOn(w: World, self: Address, payments: Payments, txs: seq<Tx>, more: seq<Tx>)
    requires Reachable(w, self, payments, txs) && forall i :: 0 <= i < |more| ==> ByOthers(more[i], self)
    ensures Reachable(WorldRun(w, more), self, payments, txs + more)
  {
    WorldRunOn(World(Empty(self, payments), map[]), txs, more);
  }

  /** A distribution's terms never change. */
  lemma {:induction false} RunKeepsTerms(w: World, txs: seq<Tx>, id: nat)
    requires Inv(w) && id in w.s.dists
    ensures var w' := WorldRun(w, txs);
            && Inv(w') && w'.s.self == w.s.self && id in w'.s.dists && id in w.frozen && id in w'.frozen
            && w'.frozen[id] == w.frozen[id] && Terms(w'.s.dists[id]) == Terms(w.s.dists[id])
    decreases |txs|
  {
    assert id in w.frozen;
    hide Accounts, Shape, WorldStep, Terms;
    if txs != [] {
      StepKeepsInv(w, txs[0]);
      StepKeepsLists(w, txs[0]);
      StepFrame(w, txs[0]);
      StepIsWorldStep(w, txs[0]);
      RunKeepsTerms(WorldStep(w, txs[0]), txs[1..], id);
    }
  }

  lemma StepIsWorldStep(w: World, tx: Tx)
    ensures WorldStep(w, tx).s == Step(w.s, tx)
  {
  }
}
