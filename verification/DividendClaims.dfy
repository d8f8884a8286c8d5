/** The order in which holders claim does not matter. */
module DividendClaims {
  import opened Soroban
  import opened Dividend
  import opened DividendShares
  import opened DividendProofs
  import opened DividendEscrow

  /** One claim: who claims, in a transaction of its own, at its own ledger. */
  datatype ClaimTx = ClaimTx(env: Env, holder: Address)

  /** Claims on one distribution, one after the other. */
  function ClaimAll(s: State, id: nat, claims: seq<ClaimTx>): Outcome<State, ()>
    decreases |claims|
  {
    if claims == [] then Commit(s, ())
    else
      match ClaimOutcome(s, claims[0].env, id, claims[0].holder)
      case Abort(e) => Abort(e)
      case Commit(t, _) => ClaimAll(t, id, claims[1..])
  }

  ghost function Holders(claims: seq<ClaimTx>): set<Address> {
    set c | c in claims :: c.holder
  }

  /** The claim flags once everybody in `who` has claimed. */
  ghost function Flags(claimed: set<(nat, Address)>, id: nat, who: set<Address>): set<(nat, Address)> {
    claimed + set a | a in who :: (id, a)
  }

  /** The payment token's balances once everybody in `who` has been paid, `out` in all. */
  ghost function PaymentsOnce(p: Payments, token: Address, self: Address, total: nat, list: seq<Holder>,
                              who: set<Address>, out: int): Payments
    requires NonNegative(list)
  {
    map k | k in p.Keys + {(token, self)} + (set a | a in who :: (token, a)) ::
      Held(p, k.0, k.1)
      + (if k.0 == token && k.1 in who then Due(total, list, k.1) else 0)
      - (if k == (token, self) then out else 0)
  }

  /** The events of the claims, each for the holder's own share. */
  function ClaimEvents(total: nat, list: seq<Holder>, id: nat, claims: seq<ClaimTx>): seq<Event>
    requires NonNegative(list)
  {
    if claims == [] then []
    else
      [Claimed(claims[0].holder, id, Due(total, list, claims[0].holder))] + ClaimEvents(total, list, id, claims[1..])
  }

  ghost predicate Known(s: State, id: nat, list: seq<Holder>) {
    id in s.dists && s.dists[id].totalAmount > 0 && Fair(list)
  }

  /** `t` is `s` after everybody in `who` has claimed: all but the event log is determined by who
      claimed, and not by the order. */
  ghost predicate ClaimsDone(s: State, id: nat, list: seq<Holder>, who: set<Address>, t: State)
    requires Known(s, id, list)
  {
    var d, flags := s.dists[id], Flags(s.claimed, id, who);
    var paid := ClaimedSum(d.totalAmount, Supply(list), list, flags, id);
    && paid <= d.totalAmount
    && t == Settled(s, id, paid).(
              claimed := flags,
              payments := PaymentsOnce(s.payments, d.paymentToken, s.self, d.totalAmount, list, who,
                                       paid - d.distributed),
              events := t.events)
  }

  /** `t` is `s` after `a` alone has claimed. */
  ghost predicate OneClaim(s: State, id: nat, list: seq<Holder>, a: Address, t: State)
    requires Known(s, id, list)
  {
    var d := s.dists[id];
    var due := Due(d.totalAmount, list, a);
    && d.distributed + due <= d.totalAmount && (id, a) !in s.claimed
    && d.distributed == ClaimedSum(d.totalAmount, Supply(list), list, s.claimed, id)
    && Pay(s.payments, true, d.paymentToken, s.self, a, due).Some?
    && t == Settled(s, id, d.distributed + due).(
              claimed := s.claimed + {(id, a)},
              payments := Pay(s.payments, true, d.paymentToken, s.self, a, due).value,
              events := s.events + [Claimed(a, id, due)])
  }

  lemma PaymentsOfOne(p: Payments, token: Address, self: Address, total: nat, list: seq<Holder>, a: Address)
    requires NonNegative(list) && a != self && Pay(p, true, token, self, a, Due(total, list, a)).Some?
    ensures Pay(p, true, token, self, a, Due(total, list, a)).value
         == PaymentsOnce(p, token, self, total, list, {a}, Due(total, list, a))
  {
  }

  lemma PaymentsCompose(p: Payments, token: Address, self: Address, total: nat, list: seq<Holder>,
                        a: Address, rest: set<Address>, out: int, more: int)
    requires NonNegative(list) && a !in rest && self !in rest
    ensures PaymentsOnce(PaymentsOnce(p, token, self, total, list, {a}, out), token, self, total, list, rest, more)
         == PaymentsOnce(p, token, self, total, list, rest + {a}, out + more)
  {
    hide Due, NonNegative;
  }

  /** A claim by `a` alone is a case of `ClaimsDone`. */
  lemma ClaimAlone(s: State, id: nat, list: seq<Holder>, a: Address, t: State)
    requires Known(s, id, list) && OneClaim(s, id, list, a, t) && a != s.self
    ensures ClaimsDone(s, id, list, {a}, t)
  {
    var d := s.dists[id];
    ClaimAddsShare(d.totalAmount, Supply(list), list, s.claimed, id, a);
    PaymentsOfOne(s.payments, d.paymentToken, s.self, d.totalAmount, list, a);
    assert Flags(s.claimed, id, {a}) == s.claimed + {(id, a)};
  }

  /** With nobody claiming, nothing changes. */
  lemma NoClaims(s: State, id: nat, list: seq<Holder>)
    requires Known(s, id, list) && !s.dists[id].completed && s.dists[id].distributed < s.dists[id].totalAmount
    requires s.dists[id].distributed == ClaimedSum(s.dists[id].totalAmount, Supply(list), list, s.claimed, id)
    requires (s.dists[id].paymentToken, s.self) in s.payments
    ensures ClaimsDone(s, id, list, {}, s)
  {
    var d := s.dists[id];
    assert Flags(s.claimed, id, {}) == s.claimed;
    assert PaymentsOnce(s.payments, d.paymentToken, s.self, d.totalAmount, list, {}, 0) == s.payments;
    assert s.dists[id := d] == s.dists;
  }

  lemma SettledTwice(s: State, id: nat, first: I128, paid: I128, u: State)
    requires id in s.dists && first < s.dists[id].totalAmount && !s.dists[id].completed
    requires u == Settled(s, id, first).(claimed := u.claimed, payments := u.payments, events := u.events)
    ensures id in u.dists && u.dists[id].totalAmount == s.dists[id].totalAmount
    ensures u.dists[id].distributed == first && u.dists[id].paymentToken == s.dists[id].paymentToken
    ensures u.self == s.self
    ensures Settled(u, id, paid)
         == Settled(s, id, paid).(claimed := u.claimed, payments := u.payments, events := u.events)
  {
    var d := s.dists[id];
    var last := d.(distributed := paid, completed := paid >= d.totalAmount);
    assert s.dists[id := d.(distributed := first)][id := last] == s.dists[id := last];
  }

  /** A claim by `a` that leaves the distribution open, followed by claims of everybody in `rest`,
      amounts to claims of all of them. */
  lemma ClaimThenRest(s: State, id: nat, list: seq<Holder>, a: Address, s1: State, rest: set<Address>, t: State)
    requires Known(s, id, list) && OneClaim(s, id, list, a, s1) && !s.dists[id].completed
    requires s.dists[id].distributed + Due(s.dists[id].totalAmount, list, a) < s.dists[id].totalAmount
    requires a !in rest && s.self !in rest + {a}
    requires Known(s1, id, list) && ClaimsDone(s1, id, list, rest, t)
    ensures ClaimsDone(s, id, list, rest + {a}, t)
  {
    hide Share, ClaimedSum, PaymentsOnce, Pay, Distinct, NonNegative, Supply, Settled, Due;
    OneClaimKeepsTotal(s, id, list, a, s1);
    var d := s.dists[id];
    var due, flags := Due(d.totalAmount, list, a), Flags(s.claimed, id, rest + {a});
    assert Flags(s1.claimed, id, rest) == flags;
    var paid := ClaimedSum(d.totalAmount, Supply(list), list, flags, id);
    PaymentsOfOne(s.payments, d.paymentToken, s.self, d.totalAmount, list, a);
    PaymentsCompose(s.payments, d.paymentToken, s.self, d.totalAmount, list, a, rest, due, paid - d.distributed - due);
    SettledTwice(s, id, d.distributed + due, paid, s1);
  }

  // ---- in reachable worlds ----

  /** While `b` has an unclaimed share, a claim by `a` does not exhaust the total. */
  lemma ShareLeft(total: nat, list: seq<Holder>, claimed: set<(nat, Address)>, id: nat, a: Address, b: Address)
    requires Fair(list) && a != b && (id, a) !in claimed && (id, b) !in claimed && Due(total, list, b) > 0
    ensures ClaimedSum(total, Supply(list), list, claimed, id) + Due(total, list, a) < total
  {
    var supply, flags := Supply(list), claimed + {(id, a)};
    ClaimAddsShare(total, supply, list, claimed, id, a);
    ClaimAddsShare(total, supply, list, flags, id, b);
    ClaimedAtMostAll(total, supply, list, flags + {(id, b)}, id);
    ShareSumAtMostTotal(total, list);
  }

  lemma OpenHasPaidClaims(w: World, id: nat)
    requires Inv(w) && Open(w, id)
    ensures id in w.frozen && Known(w.s, id, w.frozen[id])
    ensures var d := w.s.dists[id];
            d.distributed == ClaimedSum(d.totalAmount, Supply(w.frozen[id]), w.frozen[id], w.s.claimed, id)
  {
    hide Shape, ClaimedSum, Paid, Returned;
    assert Account(w.s, id, w.frozen[id]);
  }

  /** An entitled holder's claim, and what it keeps. */
  lemma EntitledClaim(w: World, env: Env, id: nat, a: Address) returns (w': World)
    requires Sound(w) && w.s.self !in env.auth && Entitled(w, env, id, a)
    ensures ClaimOutcome(w.s, env, id, a) == Commit(w'.s, ())
    ensures Sound(w') && w'.frozen == w.frozen && w'.s.self == w.s.self
    ensures Known(w.s, id, w.frozen[id]) && OneClaim(w.s, id, w.frozen[id], a, w'.s) && a != w.s.self
    ensures Known(w'.s, id, w.frozen[id])
  {
    hide Share, ClaimedSum, Supply, Distinct, NonNegative, Pay, Account, Shape, Surplus, ClaimOutcome, Settled,
         BalanceIn;
    OpenHasPaidClaims(w, id);
    ClaimCommitsIff(w, env, id, a);
    ClaimKeepsSound(w, env, id, a);
    ClaimFrame(w.s, env, id, a);
    w' := World(ClaimOutcome(w.s, env, id, a).state, w.frozen);
  }

  /** The other entitled holders stay entitled. */
  lemma OthersStayEntitled(w: World, env: Env, id: nat, a: Address, w': World, b: Address)
    requires Inv(w) && Inv(w') && w'.frozen == w.frozen && a != b
    requires Entitled(w, env, id, b) && (id, a) !in w.s.claimed
    requires Known(w.s, id, w.frozen[id]) && OneClaim(w.s, id, w.frozen[id], a, w'.s)
    ensures w.s.dists[id].distributed + ShareOf(w, id, a) < w.s.dists[id].totalAmount
    ensures Entitled(w', env, id, b)
  {
    hide Share, ClaimedSum, Supply, Distinct, NonNegative, Pay, Paid, Returned, Shape;
    ShareLeft(w.s.dists[id].totalAmount, w.frozen[id], w.s.claimed, id, a, b);
  }

  lemma OpenIsKnown(w: World, id: nat)
    requires Sound(w) && Open(w, id)
    ensures id in w.frozen && Known(w.s, id, w.frozen[id]) && ClaimsDone(w.s, id, w.frozen[id], {}, w.s)
  {
    assert Account(w.s, id, w.frozen[id]);
    PotCovers(w, id);
    NoClaims(w.s, id, w.frozen[id]);
  }

  /** Each claim is made by an entitled holder at its own ledger, signed without the contract; no holder
      claims twice. */
  ghost predicate Claimants(w: World, id: nat, claims: seq<ClaimTx>)
    requires Inv(w)
  {
    && (forall i :: 0 <= i < |claims| ==>
          w.s.self !in claims[i].env.auth && Entitled(w, claims[i].env, id, claims[i].holder))
    && (forall i, j :: 0 <= i < j < |claims| ==> claims[i].holder != claims[j].holder)
  }

  lemma EntitledIsOpen(w: World, env: Env, id: nat, a: Address)
    requires Inv(w) && Entitled(w, env, id, a)
    ensures Open(w, id) && (id, a) !in w.s.claimed
  {
  }

  /** After the first of several claimants has claimed, the rest are claimants still. */
  lemma FirstOfMany(w: World, id: nat, claims: seq<ClaimTx>, w': World)
    requires Inv(w) && Inv(w') && w'.frozen == w.frozen && w'.s.self == w.s.self
    requires |claims| > 1 && Claimants(w, id, claims) && id in w.frozen && Known(w.s, id, w.frozen[id])
    requires OneClaim(w.s, id, w.frozen[id], claims[0].holder, w'.s)
    ensures Claimants(w', id, claims[1..]) && Open(w', id) && Open(w, id)
    ensures var d := w.s.dists[id]; d.distributed + Due(d.totalAmount, w.frozen[id], claims[0].holder) < d.totalAmount
  {
    hide Inv, Known, OneClaim, Entitled;
    var a, rest := claims[0].holder, claims[1..];
    EntitledIsOpen(w, claims[0].env, id, a);
    forall i | 0 <= i < |rest|
      ensures Entitled(w', rest[i].env, id, rest[i].holder) && w'.s.self !in rest[i].env.auth
    {
      assert rest[i] == claims[i + 1];
      OthersStayEntitled(w, rest[i].env, id, a, w', rest[i].holder);
    }
    assert rest[0] == claims[1];
    EntitledIsOpen(w', rest[0].env, id, rest[0].holder);
    OthersStayEntitled(w, rest[0].env, id, a, w', rest[0].holder);
  }

  /** Claims by entitled holders in any order, each in its own transaction, all commit; where they lead
      depends on who claimed and not on the order or the ledgers, and each event pays its holder the same
      share as a claim made alone. */
  lemma {:induction false} EntitledClaimsAllCommit(w: World, id: nat, claims: seq<ClaimTx>)
    requires Sound(w) && Open(w, id) && Claimants(w, id, claims)
    ensures id in w.frozen && Known(w.s, id, w.frozen[id])
    ensures var o := ClaimAll(w.s, id, claims);
            && o.Commit?
            && ClaimsDone(w.s, id, w.frozen[id], Holders(claims), o.state)
            && o.state.events == w.s.events + ClaimEvents(w.s.dists[id].totalAmount, w.frozen[id], id, claims)
    decreases |claims|
  {
    hide Accounts, Shape, ClaimsDone, ClaimOutcome, Surplus, Entitled, Due, Distinct, NonNegative, OneClaim;
    OpenIsKnown(w, id);
    var list := w.frozen[id];
    if claims == [] {
      assert Holders(claims) == {};
    } else {
      var a, rest := claims[0].holder, claims[1..];
      assert claims == [claims[0]] + rest;
      assert Holders(claims) == Holders(rest) + {a};
      var w' := EntitledClaim(w, claims[0].env, id, a);
      if rest == [] {
        assert Holders(claims) == {a};
        ClaimAlone(w.s, id, list, a, w'.s);
        LogThenRest(w.s, id, list, claims, w'.s, w'.s);
      } else {
        FirstOfMany(w, id, claims, w');
        EntitledClaimsAllCommit(w', id, rest);
        OneClaimKeepsTotal(w.s, id, list, a, w'.s);
        SelfNotClaimant(w, id, claims);
        var t := ClaimAll(w'.s, id, rest).state;
        ClaimThenRest(w.s, id, list, a, w'.s, Holders(rest), t);
        LogThenRest(w.s, id, list, claims, w'.s, t);
      }
    }
  }

  lemma OneClaimKeepsTotal(s: State, id: nat, list: seq<Holder>, a: Address, t: State)
    requires Known(s, id, list) && OneClaim(s, id, list, a, t)
    ensures id in t.dists && t.dists[id].totalAmount == s.dists[id].totalAmount
  {
  }

  lemma {:induction false} LogThenRest(s: State, id: nat, list: seq<Holder>, claims: seq<ClaimTx>, s1: State, t: State)
    requires claims != [] && Known(s, id, list) && OneClaim(s, id, list, claims[0].holder, s1)
    requires t.events == s1.events + ClaimEvents(s.dists[id].totalAmount, list, id, claims[1..])
    ensures t.events == s.events + ClaimEvents(s.dists[id].totalAmount, list, id, claims)
  {
    hide Due, NonNegative, Distinct, Settled, Pay, ClaimedSum;
  }

  lemma SelfNotClaimant(w: World, id: nat, claims: seq<ClaimTx>)
    requires Inv(w) && Claimants(w, id, claims) && claims != []
    ensures w.s.self !in Holders(claims)
    ensures claims[0].holder !in Holders(claims[1..])
  {
    hide Accounts, Shape, ShareOf, Product;
    forall c | c in claims ensures c.holder != w.s.self {
      var i :| 0 <= i < |claims| && claims[i] == c;
      assert Entitled(w, claims[i].env, id, claims[i].holder);
    }
  }

  lemma DoneIsUnique(s: State, id: nat, list: seq<Holder>, who: set<Address>, t: State, u: State)
    requires Known(s, id, list) && ClaimsDone(s, id, list, who, t) && ClaimsDone(s, id, list, who, u)
    ensures t.(events := []) == u.(events := [])
  {
  }

  /** Any two orders in which the same entitled holders claim, at whatever ledgers: every claim commits in
      both, and the two final states agree on everything but the order of the claim events. */
  lemma ClaimOrderIrrelevant(w: World, id: nat, claims: seq<ClaimTx>, others: seq<ClaimTx>)
    requires Sound(w) && Open(w, id) && Claimants(w, id, claims) && Claimants(w, id, others)
    requires Holders(claims) == Holders(others)
    ensures var o, p := ClaimAll(w.s, id, claims), ClaimAll(w.s, id, others);
            o.Commit? && p.Commit? && o.state.(events := []) == p.state.(events := [])
  {
    hide Accounts, Shape, ClaimsDone, Entitled, ClaimAll, Claimants;
    EntitledClaimsAllCommit(w, id, claims);
    EntitledClaimsAllCommit(w, id, others);
    DoneIsUnique(w.s, id, w.frozen[id], Holders(claims),
                 ClaimAll(w.s, id, claims).state, ClaimAll(w.s, id, others).state);
  }
}
