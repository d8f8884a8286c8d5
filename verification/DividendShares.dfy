/** The arithmetic of proportional shares: floors, dust, and the sum over those who claimed. */
module DividendShares {
  import opened Soroban
  import opened Arithmetic
  import opened Dividend

  /** The share the contract computes for a balance; nothing when the snapshot is empty of units. */
  function Share(total: nat, supply: nat, balance: nat): nat {
    if supply == 0 then 0 else total * balance / supply
  }

  function BalanceSum(list: seq<Holder>): int {
    if list == [] then 0 else list[0].balance + BalanceSum(list[1..])
  }

  /** How many holders have a positive balance. */
  function Holding(list: seq<Holder>): nat {
    if list == [] then 0 else (if list[0].balance > 0 then 1 else 0) + Holding(list[1..])
  }

  ghost predicate Distinct(list: seq<Holder>) {
    forall i, j :: 0 <= i < j < |list| ==> list[i].address != list[j].address
  }

  ghost predicate NonNegative(list: seq<Holder>) {
    forall i :: 0 <= i < |list| ==> list[i].balance >= 0
  }

  /** The eligible lists that creation accepts. */
  ghost predicate Fair(list: seq<Holder>) {
    list != [] && Distinct(list) && NonNegative(list) && BalanceSum(list) <= I128_MAX
  }

  function ShareSum(total: nat, supply: nat, list: seq<Holder>): nat
    requires NonNegative(list)
  {
    if list == [] then 0 else Share(total, supply, list[0].balance) + ShareSum(total, supply, list[1..])
  }

  /** The shares of exactly the holders that have claimed. */
  function ClaimedSum(total: nat, supply: nat, list: seq<Holder>, claimed: set<(nat, Address)>, id: nat): nat
    requires NonNegative(list)
  {
    if list == [] then 0
    else
      (if (id, list[0].address) in claimed then Share(total, supply, list[0].balance) else 0)
      + ClaimedSum(total, supply, list[1..], claimed, id)
  }

  // ---- validation ----

  lemma {:induction false} BalanceSumNonNegative(list: seq<Holder>)
    requires NonNegative(list)
    ensures 0 <= BalanceSum(list)
  {
    if list != [] {
      BalanceSumNonNegative(list[1..]);
    }
  }

  /** Validation succeeds exactly when no balance is negative, no address is repeated or seen, and the
      grand total fits i128; it then returns that total. */
  lemma {:induction false} ValidateIff(list: seq<Holder>, seen: set<Address>, sum: I128)
    ensures Validate(list, seen, sum).Ok? <==>
              NonNegative(list) && Distinct(list) && (forall i :: 0 <= i < |list| ==> list[i].address !in seen)
              && (sum + BalanceSum(list) <= I128_MAX)
    ensures Validate(list, seen, sum).Ok? ==> Validate(list, seen, sum).value == sum + BalanceSum(list)
  {
    if list != [] {
      var h, rest := list[0], list[1..];
      assert forall i :: 0 <= i < |rest| ==> rest[i] == list[i + 1];
      if NonNegative(list) {
        BalanceSumNonNegative(rest);
      }
      if h.balance >= 0 && sum + h.balance <= I128_MAX {
        ValidateIff(rest, seen + {h.address}, sum + h.balance);
        SplitDistinct(list);
      }
    }
  }

  lemma SplitDistinct(list: seq<Holder>)
    requires list != []
    ensures Distinct(list) <==>
              Distinct(list[1..]) && forall i :: 0 <= i < |list[1..]| ==> list[1..][i].address != list[0].address
  {
    if Distinct(list[1..]) && (forall i :: 0 <= i < |list[1..]| ==> list[1..][i].address != list[0].address) {
      forall i, j | 0 <= i < j < |list| ensures list[i].address != list[j].address {
        assert list[j] == list[1..][j - 1];
        if i > 0 {
          assert list[i] == list[1..][i - 1];
        }
      }
    }
  }

  // ---- floors and dust ----

  lemma ShareBounds(total: nat, supply: nat, balance: nat)
    requires supply > 0
    ensures var loss := total * balance - supply * Share(total, supply, balance);
            0 <= loss <= supply - 1 && (balance == 0 ==> loss == 0)
  {
    var p := total * balance;
    assert p == supply * (p / supply) + p % supply;
  }

  lemma {:induction false} ShareSumBounds(total: nat, supply: nat, list: seq<Holder>)
    requires supply > 0 && NonNegative(list)
    ensures 0 <= total * BalanceSum(list) - supply * ShareSum(total, supply, list) <= (supply - 1) * Holding(list)
  {
    if list != [] {
      var b, rest: int := list[0].balance, BalanceSum(list[1..]);
      var s, sum := Share(total, supply, b), ShareSum(total, supply, list[1..]);
      ShareBounds(total, supply, b);
      ShareSumBounds(total, supply, list[1..]);
      Distribute(total, b, rest);
      Distribute(supply, s, sum);
      Distribute(supply - 1, if b > 0 then 1 else 0, Holding(list[1..]));
    }
  }

  lemma Distribute(a: int, x: int, y: int)
    ensures a * (x + y) == a * x + a * y
  {
  }

  lemma {:induction false} HoldingBounds(list: seq<Holder>)
    requires NonNegative(list)
    ensures Holding(list) <= |list|
    ensures BalanceSum(list) > 0 ==> Holding(list) > 0
  {
    if list != [] {
      HoldingBounds(list[1..]);
    }
  }

  /** With a positive snapshot supply the shares of all holders never exceed the total, and what they
      leave over is less than one unit per holder with a positive balance. */
  lemma DustBound(total: nat, list: seq<Holder>)
    requires Fair(list) && BalanceSum(list) > 0
    ensures 0 <= total - ShareSum(total, BalanceSum(list), list) <= Holding(list) - 1 <= |list| - 1
  {
    var supply := BalanceSum(list);
    var sum: int, n := ShareSum(total, supply, list), Holding(list);
    ShareSumBounds(total, supply, list);
    HoldingBounds(list);
    hide ShareSum, Holding, Distinct, NonNegative, BalanceSum;
    LossBelowCount(supply, total, sum, n);
  }

  lemma LossBelowCount(supply: nat, total: int, sum: int, n: nat)
    requires supply > 0 && n > 0
    requires 0 <= total * supply - supply * sum <= (supply - 1) * n
    ensures 0 <= total - sum <= n - 1
  {
    var dust := total - sum;
    assert total * supply - supply * sum == supply * dust;
    MulCancels(supply, 0, dust);
    Distribute(n, supply, -1);
    if dust >= n {
      MulMonotone(supply, n, dust);
    }
  }

  lemma {:induction false} NoSupplyNoShares(total: nat, list: seq<Holder>)
    requires NonNegative(list)
    ensures ShareSum(total, 0, list) == 0
  {
    if list != [] {
      NoSupplyNoShares(total, list[1..]);
    }
  }

  /** The documented bound, at most N - 1 units of dust among N holders, holds exactly when some
      holder has a positive balance or the whole amount is itself that small. */
  lemma DustBoundIff(total: nat, list: seq<Holder>)
    requires Fair(list)
    ensures 0 <= total - ShareSum(total, Supply(list), list) <= |list| - 1
            <==> Supply(list) > 0 || total <= |list| - 1
  {
    if Supply(list) > 0 {
      DustBound(total, list);
    } else {
      NoSupplyNoShares(total, list);
    }
  }

  function Supply(list: seq<Holder>): nat
    requires NonNegative(list)
  {
    BalanceSumNonNegative(list);
    BalanceSum(list)
  }

  lemma ShareSumAtMostTotal(total: nat, list: seq<Holder>)
    requires Fair(list)
    ensures ShareSum(total, Supply(list), list) <= total
  {
    if Supply(list) > 0 {
      DustBound(total, list);
    } else {
      NoSupplyNoShares(total, list);
    }
  }

  // ---- claimed shares ----

  lemma {:induction false} ClaimedAtMostAll(
    total: nat, supply: nat, list: seq<Holder>, claimed: set<(nat, Address)>, id: nat)
    requires NonNegative(list)
    ensures ClaimedSum(total, supply, list, claimed, id) <= ShareSum(total, supply, list)
  {
    if list != [] {
      ClaimedAtMostAll(total, supply, list[1..], claimed, id);
    }
  }

  /** If the claimed shares make up all the shares, whoever has not claimed has none. */
  lemma {:induction false} AllClaimedLeavesNothing(
    total: nat, supply: nat, list: seq<Holder>, claimed: set<(nat, Address)>, id: nat, a: Address)
    requires NonNegative(list) && (id, a) !in claimed
    requires ClaimedSum(total, supply, list, claimed, id) == ShareSum(total, supply, list)
    ensures 0 <= BalanceIn(list, a) && Share(total, supply, BalanceIn(list, a)) == 0
  {
    if list == [] {
      assert Share(total, supply, 0) == 0;
    } else {
      ClaimedAtMostAll(total, supply, list[1..], claimed, id);
      AllClaimedLeavesNothing(total, supply, list[1..], claimed, id, a);
    }
  }

  lemma {:induction false} ClaimElsewhere(
    total: nat, supply: nat, list: seq<Holder>, claimed: set<(nat, Address)>, id: nat, j: nat, a: Address)
    requires NonNegative(list)
    requires j != id || forall i :: 0 <= i < |list| ==> list[i].address != a
    ensures ClaimedSum(total, supply, list, claimed + {(j, a)}, id) == ClaimedSum(total, supply, list, claimed, id)
  {
    if list != [] {
      ClaimElsewhere(total, supply, list[1..], claimed, id, j, a);
    }
  }

  /** One more claim adds exactly the claimer's share. */
  lemma {:induction false} ClaimAddsShare(
    total: nat, supply: nat, list: seq<Holder>, claimed: set<(nat, Address)>, id: nat, a: Address)
    requires NonNegative(list) && Distinct(list) && (id, a) !in claimed
    ensures BalanceIn(list, a) >= 0
    ensures ClaimedSum(total, supply, list, claimed + {(id, a)}, id)
         == ClaimedSum(total, supply, list, claimed, id) + Share(total, supply, BalanceIn(list, a))
  {
    if list == [] {
      assert Share(total, supply, 0) == 0;
    } else {
      SplitDistinct(list);
      if list[0].address == a {
        ClaimElsewhere(total, supply, list[1..], claimed, id, id, a);
      } else {
        ClaimAddsShare(total, supply, list[1..], claimed, id, a);
      }
    }
  }

  lemma {:induction false} NobodyClaimed(
    total: nat, supply: nat, list: seq<Holder>, claimed: set<(nat, Address)>, id: nat)
    requires NonNegative(list) && forall a :: (id, a) !in claimed
    ensures ClaimedSum(total, supply, list, claimed, id) == 0
  {
    if list != [] {
      NobodyClaimed(total, supply, list[1..], claimed, id);
    }
  }

  lemma {:induction false} BalanceInNonNegative(list: seq<Holder>, a: Address)
    requires NonNegative(list)
    ensures BalanceIn(list, a) >= 0
  {
    if list != [] && list[0].address != a {
      BalanceInNonNegative(list[1..], a);
    }
  }

  /** What holder `a` may claim out of `total`. */
  function Due(total: nat, list: seq<Holder>, a: Address): nat
    requires NonNegative(list)
  {
    BalanceInNonNegative(list, a);
    Share(total, Supply(list), BalanceIn(list, a))
  }
}
