/** What the escrow promises over every run: each distribution's account, and the shared pot. */
module DividendProofs {
  import opened Soroban
  import opened Arithmetic
  import opened Dividend
  import opened DividendShares

  // ---- what a run has done, read off its events ----

  /** Paid to holders out of distribution `id`. */
  function Paid(events: seq<Event>, id: nat): int {
    if events == [] then 0
    else
      var e := events[|events| - 1];
      Paid(events[..|events| - 1], id) + if e.Claimed? && e.id == id then e.amount else 0
  }

  /** Returned to an admin out of distribution `id`, whose escrow was `total`. */
  function Returned(events: seq<Event>, id: nat, total: int): int {
    if events == [] then 0
    else
      var e := events[|events| - 1];
      Returned(events[..|events| - 1], id, total) +
      if e.Reclaimed? && e.id == id then e.remaining
      else if e.Cancelled? && e.id == id then total
      else 0
  }

  /** The state of the contract, together with the eligible list each accepted creation was given. */
  datatype World = World(s: State, frozen: map<nat, seq<Holder>>)

  function WorldStep(w: World, tx: Tx): World {
    var t := Step(w.s, tx);
    if tx.Invoke? && tx.call.Create? && CallOutcome(w.s, tx.env, tx.call).Commit?
    then World(t, w.frozen[t.counter := tx.call.eligible])
    else World(t, w.frozen)
  }

  function WorldRun(w: World, txs: seq<Tx>): World
    decreases |txs|
  {
    if txs == [] then w else WorldRun(WorldStep(w, txs[0]), txs[1..])
  }

  // ---- the account of one distribution ----

  /** The account of distribution `id`: what was paid is the sum of the shares of exactly those who
      claimed, and total = paid + returned + still escrowed. */
  ghost predicate Account(s: State, id: nat, list: seq<Holder>) {
    && id in s.dists && Fair(list)
    && var d := s.dists[id];
       && d.id == id && d.totalAmount > 0
       && var total: nat, supply := d.totalAmount, Supply(list);
          var paid := ClaimedSum(total, supply, list, s.claimed, id);
          && Paid(s.events, id) == paid <= total
          && (!d.completed ==>
                && id in s.snapshot && s.snapshot[id] == list
                && id in s.supply && s.supply[id] == supply
                && !d.cancelled && d.distributed == paid < total
                && Returned(s.events, id, total) == 0)
          && (d.completed ==>
                && id !in s.snapshot && id !in s.supply
                && d.distributed == (if d.cancelled then 0 else total)
                && Returned(s.events, id, total) == total - paid
                && (d.cancelled ==> paid == 0))
  }

  /** The bookkeeping around the accounts. */
  ghost predicate Shape(w: World) {
    var s := w.s;
    && (s.roles.admin.None? ==> s.counter == 0)
    && (forall id :: id in s.dists <==> 1 <= id <= s.counter)
    && w.frozen.Keys == s.dists.Keys
    && s.snapshot.Keys <= s.dists.Keys && s.supply.Keys <= s.dists.Keys
    && (forall c :: c in s.claimed ==> c.0 in s.dists)
    && (forall i :: 0 <= i < |s.events| && About(s.events[i]).Some? ==> About(s.events[i]).value in s.dists)
  }

  /** The distribution whose account an event concerns. */
  function About(e: Event): Option<nat> {
    match e
    case Handover(_) => None
    case Created(_, _, _) => None
    case Claimed(_, id, _) => Some(id)
    case Reclaimed(_, id, _) => Some(id)
    case Cancelled(_, id) => Some(id)
  }

  ghost predicate Accounts(w: World) {
    w.frozen.Keys == w.s.dists.Keys && forall id :: id in w.s.dists ==> Account(w.s, id, w.frozen[id])
  }

  ghost predicate Inv(w: World) {
    Shape(w) && Accounts(w)
  }

  /** `t` is `s` after one event about distribution `id`, with every other distribution untouched. */
  ghost predicate OnlyTouches(s: State, t: State, id: nat, e: Event) {
    && t.events == s.events + [e] && (About(e).None? || About(e) == Some(id))
    && (t.claimed == s.claimed || exists a :: t.claimed == s.claimed + {(id, a)})
    && (forall j :: j != id ==>
          && (j in t.dists <==> j in s.dists)
          && (j in t.snapshot <==> j in s.snapshot)
          && (j in t.supply <==> j in s.supply))
    && (forall j :: j != id && j in s.dists ==> t.dists[j] == s.dists[j])
    && (forall j :: j != id && j in s.snapshot ==> t.snapshot[j] == s.snapshot[j])
    && (forall j :: j != id && j in s.supply ==> t.supply[j] == s.supply[j])
  }

  lemma AccountElsewhere(s: State, t: State, id: nat, e: Event, j: nat, list: seq<Holder>)
    requires OnlyTouches(s, t, id, e) && j != id && Account(s, j, list)
    ensures Account(t, j, list)
  {
    var total: nat := s.dists[j].totalAmount;
    if t.claimed != s.claimed {
      var a :| t.claimed == s.claimed + {(id, a)};
      ClaimElsewhere(total, Supply(list), list, s.claimed, j, id, a);
    }
    assert t.events[..|s.events|] == s.events;
  }

  lemma AccountsAfter(w: World, w': World, id: nat, e: Event)
    requires Accounts(w) && OnlyTouches(w.s, w'.s, id, e)
    requires w'.frozen.Keys == w'.s.dists.Keys
    requires forall j :: j in w'.frozen && j != id ==> j in w.frozen && w'.frozen[j] == w.frozen[j]
    requires id in w'.frozen && Account(w'.s, id, w'.frozen[id])
    ensures Accounts(w')
  {
    forall j | j in w'.s.dists ensures Account(w'.s, j, w'.frozen[j]) {
      if j != id {
        AccountElsewhere(w.s, w'.s, id, e, j, w.frozen[j]);
      }
    }
  }

  // ---- each call keeps the account it touches ----

  /** In an open distribution the contract's own figure is the share: it fails only when the product
      leaves i128, and otherwise is the floor of total * balance / supply. */
  lemma ClaimableIsShare(s: State, id: nat, list: seq<Holder>, a: Address)
    requires Account(s, id, list) && !s.dists[id].completed && (id, a) !in s.claimed
    ensures BalanceIn(list, a) >= 0
    ensures Claimable(s, id, a) ==
            if Supply(list) > 0 && s.dists[id].totalAmount * BalanceIn(list, a) > I128_MAX then Err(ArithmeticOverflow)
            else Ok(Share(s.dists[id].totalAmount, Supply(list), BalanceIn(list, a)))
  {
    var total, supply, basis := s.dists[id].totalAmount, Supply(list), BalanceIn(list, a);
    BalanceInNonNegative(list, a);
    MulMonotone(total, 0, basis);
    if basis == 0 {
      assert total * basis == 0;
    }
  }

  /** A claim never over-distributes and its running total never overflows; it keeps the account: it adds
      exactly the share, and closes the distribution exactly when the claimed shares make up the total. */
  lemma ClaimKeepsAccount(s: State, env: Env, id: nat, list: seq<Holder>, a: Address)
    requires Account(s, id, list)
    ensures var o := ClaimOutcome(s, env, id, a);
            && o != Abort(OverDistributed)
            && (o == Abort(ArithmeticOverflow) ==> Claimable(s, id, a) == Err(ArithmeticOverflow))
            && (o.Commit? ==> Account(o.state, id, list)
                              && OnlyTouches(s, o.state, id, o.state.events[|s.events|]))
  {
    if !s.dists[id].completed && (id, a) !in s.claimed {
      var total: nat, supply := s.dists[id].totalAmount, Supply(list);
      ClaimableIsShare(s, id, list, a);
      ClaimAddsShare(total, supply, list, s.claimed, id, a);
      ClaimedAtMostAll(total, supply, list, s.claimed + {(id, a)}, id);
      ShareSumAtMostTotal(total, list);
      var o := ClaimOutcome(s, env, id, a);
      if o.Commit? {
        assert o.state.events[..|s.events|] == s.events;
      }
    }
  }

  /** What one more event adds to what was paid and returned. */
  lemma OneMoreEvent(events: seq<Event>, e: Event, id: nat, total: int)
    ensures Paid(events + [e], id) == Paid(events, id) + if e.Claimed? && e.id == id then e.amount else 0
    ensures Returned(events + [e], id, total) ==
            Returned(events, id, total)
            + if e.Reclaimed? && e.id == id then e.remaining else if e.Cancelled? && e.id == id then total else 0
  {
    assert (events + [e])[..|events|] == events;
  }

  lemma ReclaimKeepsAccount(s: State, env: Env, admin: Address, id: nat, list: seq<Holder>)
    requires Account(s, id, list)
    ensures var o := ReclaimOutcome(s, env, admin, id);
            o.Commit? ==> Account(o.state, id, list) && OnlyTouches(s, o.state, id, o.state.events[|s.events|])
  {
    hide ClaimedSum, Paid, Returned, Pay, Fair, Supply;
    var o := ReclaimOutcome(s, env, admin, id);
    if o.Commit? {
      OneMoreEvent(s.events, o.state.events[|s.events|], id, s.dists[id].totalAmount);
    }
  }

  lemma CancelKeepsAccount(s: State, env: Env, admin: Address, id: nat, list: seq<Holder>)
    requires Account(s, id, list)
    ensures var o := CancelOutcome(s, env, admin, id);
            o.Commit? ==> Account(o.state, id, list) && OnlyTouches(s, o.state, id, o.state.events[|s.events|])
  {
    hide ClaimedSum, Paid, Returned, Pay, Fair, Supply;
    var o := CancelOutcome(s, env, admin, id);
    if o.Commit? {
      OneMoreEvent(s.events, o.state.events[|s.events|], id, s.dists[id].totalAmount);
    }
  }

  lemma {:induction false} NothingYet(events: seq<Event>, id: nat, total: int)
    requires forall i :: 0 <= i < |events| ==> About(events[i]) != Some(id)
    ensures Paid(events, id) == 0 && Returned(events, id, total) == 0
  {
    if events != [] {
      NothingYet(events[..|events| - 1], id, total);
    }
  }

  lemma CreateOpensAccount(w: World, env: Env, call: Call)
    requires Shape(w) && call.Create?
    ensures var o := CallOutcome(w.s, env, call);
            o.Commit? ==> && o.value == w.s.counter + 1 && o.state.counter == o.value
                          && Account(o.state, o.value, call.eligible)
                          && OnlyTouches(w.s, o.state, o.value, o.state.events[|w.s.events|])
  {
    var s, list := w.s, call.eligible;
    var o := CallOutcome(s, env, call);
    if o.Commit? {
      var id := s.counter + 1;
      ValidateIff(list, {}, 0);
      assert o.state.events[..|s.events|] == s.events;
      NothingYet(s.events, id, call.totalAmount);
      NobodyClaimed(call.totalAmount, Supply(list), list, s.claimed, id);
    }
  }

  /** A call that touches one existing distribution, and keeps its account, keeps the invariant. */
  lemma TouchKeepsInv(w: World, t: State, id: nat, e: Event)
    requires Inv(w) && OnlyTouches(w.s, t, id, e) && id in w.s.dists && id in t.dists
    requires t.roles == w.s.roles && t.counter == w.s.counter
    requires Account(t, id, w.frozen[id])
    ensures Inv(World(t, w.frozen))
  {
    hide Account;
    assert t.dists.Keys == w.s.dists.Keys;
    AccountsAfter(w, World(t, w.frozen), id, e);
  }

  lemma CreateKeepsInv(w: World, env: Env, call: Call)
    requires Inv(w) && call.Create?
    ensures Inv(WorldStep(w, Invoke(env, call)))
  {
    var w' := WorldStep(w, Invoke(env, call));
    if CallOutcome(w.s, env, call).Commit? {
      CreateOpensAccount(w, env, call);
      CreateKeepsShape(w, env, call);
      hide Account, OnlyTouches, CreateOutcome;
      AccountsAfter(w, w', w'.s.counter, w'.s.events[|w.s.events|]);
    }
  }

  lemma CreateKeepsShape(w: World, env: Env, call: Call)
    requires Shape(w) && call.Create? && CallOutcome(w.s, env, call).Commit?
    ensures Shape(WorldStep(w, Invoke(env, call)))
    ensures w.s.counter + 1 !in w.frozen && CallOutcome(w.s, env, call).state.counter == w.s.counter + 1
  {
    hide Pay, Validate;
  }

  lemma ClaimKeepsInv(w: World, env: Env, id: nat, a: Address)
    requires Inv(w)
    ensures var o := ClaimOutcome(w.s, env, id, a); o.Commit? ==> Inv(World(o.state, w.frozen))
  {
    hide Account, OnlyTouches, Shape, Claimable, Pay;
    var o := ClaimOutcome(w.s, env, id, a);
    if o.Commit? {
      ClaimKeepsAccount(w.s, env, id, w.frozen[id], a);
      TouchKeepsInv(w, o.state, id, o.state.events[|w.s.events|]);
    }
  }

  lemma ReclaimKeepsInv(w: World, env: Env, admin: Address, id: nat)
    requires Inv(w)
    ensures var o := ReclaimOutcome(w.s, env, admin, id); o.Commit? ==> Inv(World(o.state, w.frozen))
  {
    hide Account, OnlyTouches, Shape, Pay;
    var o := ReclaimOutcome(w.s, env, admin, id);
    if o.Commit? {
      ReclaimKeepsAccount(w.s, env, admin, id, w.frozen[id]);
      TouchKeepsInv(w, o.state, id, o.state.events[|w.s.events|]);
    }
  }

  lemma CancelKeepsInv(w: World, env: Env, admin: Address, id: nat)
    requires Inv(w)
    ensures var o := CancelOutcome(w.s, env, admin, id); o.Commit? ==> Inv(World(o.state, w.frozen))
  {
    hide Account, OnlyTouches, Shape, Pay;
    var o := CancelOutcome(w.s, env, admin, id);
    if o.Commit? {
      CancelKeepsAccount(w.s, env, admin, id, w.frozen[id]);
      TouchKeepsInv(w, o.state, id, o.state.events[|w.s.events|]);
    }
  }

  lemma StepKeepsInv(w: World, tx: Tx)
    requires Inv(w)
    ensures Inv(WorldStep(w, tx))
  {
    hide Inv, CreateOutcome, ClaimOutcome, ReclaimOutcome, CancelOutcome, InitializedRoles;
    if tx.Outside? || tx.call.Role? {
      QuietStepKeepsInv(w, tx);
    } else if CallOutcome(w.s, tx.env, tx.call).Commit? {
      match tx.call {
        case Create(_, _, _, _, _, _) => CreateKeepsInv(w, tx.env, tx.call);
        case Claim(id, a) => ClaimKeepsInv(w, tx.env, id, a);
        case Reclaim(admin, id) => ReclaimKeepsInv(w, tx.env, admin, id);
        case Cancel(admin, id) => CancelKeepsInv(w, tx.env, admin, id);
      }
    }
  }

  /** An account depends on nothing but the distributions, their snapshots, the claims and the events
      about it. */
  lemma AccountReads(s: State, t: State, id: nat, list: seq<Holder>)
    requires Account(s, id, list)
    requires t.dists == s.dists && t.snapshot == s.snapshot && t.supply == s.supply
    requires t.claimed == s.claimed
    requires t.events == s.events || exists e :: About(e).None? && t.events == s.events + [e]
    ensures Account(t, id, list)
  {
    assert t.events != s.events ==> t.events[..|s.events|] == s.events;
  }

  /** Payments made without the contract and role changes leave every account as it is. */
  lemma QuietStepKeepsInv(w: World, tx: Tx)
    requires Inv(w) && (tx.Outside? || tx.call.Role?)
    ensures Inv(WorldStep(w, tx))
  {
    hide Account, Pay;
    var t := Step(w.s, tx);
    forall id | id in t.dists ensures Account(t, id, w.frozen[id]) {
      AccountReads(w.s, t, id, w.frozen[id]);
    }
  }

  lemma {:induction false} RunKeepsInv(w: World, txs: seq<Tx>)
    requires Inv(w)
    ensures Inv(WorldRun(w, txs)) && WorldRun(w, txs).s == Run(w.s, txs)
    decreases |txs|
  {
    if txs != [] {
      StepKeepsInv(w, txs[0]);
      RunKeepsInv(WorldStep(w, txs[0]), txs[1..]);
    }
  }
}
