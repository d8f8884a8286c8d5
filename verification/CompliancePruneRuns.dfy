/** Repeated pruning when the calls come at different ledgers. */
module CompliancePruneRuns {
  import opened Soroban
  import opened Paging
  import opened Compliance
  import opened ComplianceProofs

  /** Prunes with one bound, each at its own ledger. */
  function PrunesAt(admin: Address, max: U32, envs: seq<Env>): seq<Tx> {
    if envs == [] then [] else [Tx(envs[0], Prune(admin, max))] + PrunesAt(admin, max, envs[1..])
  }

  /** What `prune_expired` returns at `env` after earlier calls at `envs`. */
  function ReturnAfter(s: State, admin: Address, max: U32, envs: seq<Env>, env: Env): Result<int> {
    CallOutcome(Run(s, PrunesAt(admin, max, envs)), env, Prune(admin, max)).Result()
  }

  ghost predicate Authorised(s: State, admin: Address, envs: seq<Env>) {
    forall i :: 0 <= i < |envs| ==> AdminError(s.roles, envs[i].auth, admin).None?
  }

  /** Ledger numbers never go back. */
  ghost predicate Ascending(envs: seq<Env>) {
    forall i, j :: 0 <= i <= j < |envs| ==> envs[i].now <= envs[j].now
  }

  lemma ReturnNow(s: State, admin: Address, max: U32, env: Env)
    requires AdminError(s.roles, env.auth, admin).None? && max > 0
    ensures ReturnAfter(s, admin, max, [], env) == Ok(if |s.list| <= max then 0 else |s.list| - max)
  {
    PruneCall(s, env, admin, max);
  }

  /** The first call taken, the rest follow on its state. */
  lemma ReturnLater(s: State, admin: Address, max: U32, envs: seq<Env>, env: Env)
    requires envs != [] && AdminError(s.roles, envs[0].auth, admin).None?
    ensures var t := PruneOnce(s, envs[0].now, max).state;
            && t.roles == s.roles
            && ReturnAfter(s, admin, max, envs, env) == ReturnAfter(t, admin, max, envs[1..], env)
  {
    hide PruneOnce, CallOutcome;
    PruneCall(s, envs[0], admin, max);
    assert PrunesAt(admin, max, envs)[1..] == PrunesAt(admin, max, envs[1..]);
  }

  // ---- entries that never expire ----

  /** The listed addresses whose record may go some day. */
  function Mortal(s: State): set<Address> {
    set a | a in s.list && (a !in s.records || s.records[a].expiresAt != 0)
  }

  /** The entries that never expire, in order. */
  function Permanent(s: State): seq<Address> {
    FilterOut(s.list, Mortal(s))
  }

  lemma PruneKeepsPermanent(s: State, now: U32, max: U32)
    requires Inv(s)
    ensures var t := PruneOnce(s, now, max).state; Inv(t) && Permanent(t) == Permanent(s)
  {
    hide PruneOnce, FilterOut, Inv;
    PruneKeepsInv(s, now, max);
    assert Listing(s) by { PruneNeedsListing(s); }
    PruneFilters(s, now, max);
    var t := PruneOnce(s, now, max).state;
    var gone := Gone(s.records, now, s.list[..Examined(s.list, max)]);
    FilterOutMembers(s.list, gone);
    FilterOutTwice(s.list, gone, Mortal(t));
    FilterOutSame(s.list, gone + Mortal(t), Mortal(s));
  }

  /** With more entries than the bound that never expire, no sequence of prunes at any ledgers, in whatever order,
      ends in a call that returns 0. */
  lemma {:induction false} PermanentNeverEnds(s: State, admin: Address, max: U32, envs: seq<Env>, env: Env)
    requires Inv(s) && 0 < max < |Permanent(s)| && Authorised(s, admin, envs + [env])
    ensures ReturnAfter(s, admin, max, envs, env).Ok? && ReturnAfter(s, admin, max, envs, env).value > 0
    decreases |envs|
  {
    hide Inv, FilterOut, Mortal, ReturnAfter;
    if envs == [] {
      FilterOutMembers(s.list, Mortal(s));
      assert ([] + [env])[0] == env;
      ReturnNow(s, admin, max, env);
    } else {
      assert (envs + [env])[0] == envs[0] && (envs + [env])[1..] == envs[1..] + [env];
      ReturnLater(s, admin, max, envs, env);
      PruneKeepsPermanent(s, envs[0].now, max);
      PermanentNeverEnds(PruneOnce(s, envs[0].now, max).state, admin, max, envs[1..], env);
    }
  }

  // ---- ledgers that never go back ----

  /** What is live later is what is left of what is live now. */
  lemma LiveLater(s: State, now: U32, later: U32)
    requires Listing(s) && now <= later
    ensures Live(s, later) == FilterOut(Live(s, now), Gone(s.records, later, s.list))
    ensures |Live(s, later)| <= |Live(s, now)|
  {
    hide FilterOut, NoRepeats;
    var first, all := Gone(s.records, now, s.list), Gone(s.records, later, s.list);
    FilterOutTwice(s.list, first, all);
    FilterOutSame(s.list, first + all, all);
    FilterOutMembers(Live(s, now), all);
  }

  /** A list that converges at some ledger converges at every later one. */
  lemma ConvergesLater(s: State, now: U32, max: U32, later: U32)
    requires Inv(s) && now <= later && Converges(s, now, max)
    ensures Converges(s, later, max)
  {
    PruneNeedsListing(s);
    hide Inv, Listing, FilterOut;
    LiveLater(s, now, later);
    if |Live(s, later)| == max && Lapsed(s, later, s.list[|s.list| - 1]) {
      var last := s.list[|s.list| - 1];
      FilterOutMembers(s.list, Gone(s.records, now, s.list));
      assert last in Live(s, now);
      var i :| 0 <= i < |Live(s, now)| && Live(s, now)[i] == last;
      FilterOutDrops(Live(s, now), Gone(s.records, later, s.list), i);
    }
  }

  /** A call returns 0 only if the original list converges at the ledger of that call. */
  lemma {:induction false} ZeroOnlyIfConverges(s: State, admin: Address, max: U32, envs: seq<Env>, env: Env)
    requires Inv(s) && max > 0 && Authorised(s, admin, envs + [env]) && Ascending(envs + [env])
    requires ReturnAfter(s, admin, max, envs, env) == Ok(0)
    ensures Converges(s, env.now, max)
    decreases |envs|
  {
    hide Inv, Converges, ReturnAfter;
    var all := envs + [env];
    if !Converges(s, env.now, max) {
      assert all[0].now <= all[|envs|].now;
      NonConvergingStays(s, all[0].now, max, env.now);
      if envs == [] {
        ReturnNow(s, admin, max, env);
      } else {
        ReturnLater(s, admin, max, envs, env);
        PruneKeepsLive(s, envs[0].now, max, envs[0].now);
        assert all[1..] == envs[1..] + [env];
        ZeroOnlyIfConverges(PruneOnce(s, envs[0].now, max).state, admin, max, envs[1..], env);
      }
    }
  }

  /** While more entries remain than the bound, a list that will converge at some ledger still will after a prune
      before it. */
  lemma ConvergingStays(s: State, now: U32, max: U32, later: U32)
    requires Inv(s) && 0 < max < |s.list| && now <= later && Converges(s, later, max)
    ensures var t := PruneOnce(s, now, max).state; Inv(t) && Converges(t, later, max) && |t.list| <= |s.list|
  {
    hide Live, Inv, PruneOnce, Lapsed;
    PruneKeepsLive(s, now, max, later);
    LastStays(s, now, max);
    PruneShortensIff(s, now, max);
  }

  /** Once the list converges, at call `k`, one of the next calls returns 0: after one for each entry beyond the
      bound, at most. */
  lemma {:induction false} ConvergingEndsInTime(s: State, admin: Address, max: U32, envs: seq<Env>, k: nat)
    returns (n: nat)
    requires Inv(s) && max > 0 && Authorised(s, admin, envs) && Ascending(envs)
    requires k < |envs| && |envs| - k > |s.list| - max && Converges(s, envs[k].now, max)
    ensures n < |envs| && ReturnAfter(s, admin, max, envs[..n], envs[n]) == Ok(0)
    decreases |envs|
  {
    hide Inv, Converges, ReturnAfter, PruneOnce;
    if |s.list| <= max {
      n := 0;
      ReturnNow(s, admin, max, envs[0]);
      assert envs[..0] == [];
    } else {
      var t, rest := PruneOnce(s, envs[0].now, max).state, envs[1..];
      assert forall i :: 0 <= i < |rest| ==> rest[i] == envs[i + 1];
      ConvergingStays(s, envs[0].now, max, envs[k].now);
      ReturnLater(s, admin, max, envs[..1], envs[0]);
      if k == 0 {
        ConvergingShrinks(s, envs[0].now, max);
        ConvergesLater(t, envs[0].now, max, rest[0].now);
      }
      var m := ConvergingEndsInTime(t, admin, max, rest, if k == 0 then 0 else k - 1);
      n := m + 1;
      assert envs[..n][1..] == rest[..m];
      ReturnLater(s, admin, max, envs[..n], envs[n]);
    }
  }

  /** At ledgers that never go back, "call again until it returns 0" ends exactly if the list that was there at
      first converges at the ledger of some call and enough calls follow: a call that returns 0 is made at such a
      ledger, and from such a call on one of the next does, after one for each entry beyond the bound at most. */
  lemma PruningOverTime(s: State, admin: Address, max: U32, envs: seq<Env>, k: nat)
    requires Inv(s) && max > 0 && Authorised(s, admin, envs) && Ascending(envs) && k < |envs|
    ensures ReturnAfter(s, admin, max, envs[..k], envs[k]) == Ok(0) ==> Converges(s, envs[k].now, max)
    ensures Converges(s, envs[k].now, max) && |envs| - k > |s.list| - max ==>
              exists n :: 0 <= n < |envs| && ReturnAfter(s, admin, max, envs[..n], envs[n]) == Ok(0)
  {
    hide Inv, Converges, ReturnAfter;
    if ReturnAfter(s, admin, max, envs[..k], envs[k]) == Ok(0) {
      assert envs[..k] + [envs[k]] == envs[..k + 1];
      ZeroOnlyIfConverges(s, admin, max, envs[..k], envs[k]);
    }
    if Converges(s, envs[k].now, max) && |envs| - k > |s.list| - max {
      var n := ConvergingEndsInTime(s, admin, max, envs, k);
    }
  }
}
