/** What each call of the registry does for its caller: when it is refused and with which error, and what a
    committed one leaves, in terms of its arguments; and what the queries' lists contain. */
module RegistryEffects {
  import opened Soroban
  import opened Paging
  import opened Registry
  import opened RegistryContract
  import opened RegistryProofs

  predicate Uninitialized(s: State) {
    s.roles.admin.None?
  }

  predicate IsRegistered(s: State, token: Address) {
    exists id :: id in s.assets && s.assets[id].tokenContract == token
  }

  /** `id` is the one entry that differs, and everything but entries, aggregates and the log is as it was. */
  ghost predicate OnlyEntry(s: State, t: State, id: nat) {
    && t.assets.Keys == s.assets.Keys && (forall i :: i in s.assets && i != id ==> t.assets[i] == s.assets[i])
    && t.roles == s.roles && t.counter == s.counter && t.index == s.index && t.tokenIndex == s.tokenIndex
  }

  lemma RegisterEffect(txs: seq<Tx>, env: Env, issuer: Address, token: Address, name: string, assetType: string,
                       valuation: I128)
    ensures var s := Run(EMPTY, txs);
            var o := CallOutcome(s, env, Register(issuer, token, name, assetType, valuation));
            && Refuses(o,
                 When(Uninitialized(s), NotInitialized,
                 When(issuer !in env.auth, HostTrap,
                 When(valuation < 0, InvalidValuation,
                 When(!(1 <= |name| <= 64), InvalidInput,
                 When(assetType !in ["real_estate", "invoice", "commodity", "bond", "equity", "fund"], InvalidInput,
                 When(IsRegistered(s, token), DuplicateAsset,
                 When(s.counter == U64_MAX, HostTrap,
                 When(s.totalValuation + valuation > I128_MAX, Overflow, None)))))))))
            && (o.Commit? ==>
                  var t, id := o.state, s.counter + 1;
                  && o.value == id == t.counter && id !in s.assets && t.assets.Keys == s.assets.Keys + {id}
                  && (forall i :: i in s.assets ==> t.assets[i] == s.assets[i])
                  && t.assets[id].id == id && t.assets[id].tokenContract == token && t.assets[id].issuer == issuer
                  && t.assets[id].name == name && t.assets[id].assetType == assetType
                  && t.assets[id].valuation == valuation && t.assets[id].active && t.assets[id].createdAt == env.now
                  && t.totalValuation == s.totalValuation + valuation && t.activeCount == s.activeCount + 1
                  && t.roles == s.roles && t.events == s.events + [Registered(issuer, id)])
  {
    var s := Run(EMPTY, txs);
    RegistryIsConsistent(txs, ByIssuer(issuer));
    hide Run, IndexesOk, AggregatesOk, Push;
    assert IsRegistered(s, token) <==> token in s.tokenIndex by {
      if token in s.tokenIndex {
        assert s.assets[s.tokenIndex[token]].tokenContract == token;
      }
    }
    hide IsRegistered, TokensOk;
  }

  /** The refusals shared by deactivation and reactivation: the registry's admin or the token's may ask. */
  function ManagerRefusal(s: State, env: Env, admin: Address, id: nat, later: Option<Error>): Option<Error> {
    When(id !in s.assets, AssetNotFound,
    When(Uninitialized(s), NotInitialized,
    When(admin !in env.auth, HostTrap,
    When(s.roles.admin != Some(admin) && env.tokenAdmin.None?, HostTrap,
    When(s.roles.admin != Some(admin) && env.tokenAdmin != Some(admin), Unauthorized, later)))))
  }

  predicate IsActive(s: State, id: nat) {
    id in s.assets && s.assets[id].active
  }

  function Valuation(s: State, id: nat): int {
    if id in s.assets then s.assets[id].valuation else 0
  }

  lemma DeactivateEffect(txs: seq<Tx>, env: Env, admin: Address, id: nat)
    ensures var s := Run(EMPTY, txs);
            var o := CallOutcome(s, env, Deactivate(admin, id));
            && Refuses(o, ManagerRefusal(s, env, admin, id, None))
            && (o.Commit? && !IsActive(s, id) ==> o.state == s)
            && (o.Commit? && IsActive(s, id) ==>
                  && OnlyEntry(s, o.state, id) && o.state.assets[id] == s.assets[id].(active := false)
                  && o.state.totalValuation == s.totalValuation - Valuation(s, id)
                  && o.state.activeCount == s.activeCount - 1 && o.state.events == s.events + [Deactivated(id)])
  {
    RegistryIsConsistent(txs, ByType(""));
    DeactivateKeepsInv(Run(EMPTY, txs), env, admin, id);
    hide Run, Inv;
  }

  lemma ReactivateEffect(txs: seq<Tx>, env: Env, admin: Address, id: nat)
    ensures var s := Run(EMPTY, txs);
            var o := CallOutcome(s, env, Reactivate(admin, id));
            && Refuses(o, ManagerRefusal(s, env, admin, id,
                 When(!IsActive(s, id) && s.totalValuation + Valuation(s, id) > I128_MAX, Overflow, None)))
            && (o.Commit? && IsActive(s, id) ==> o.state == s)
            && (o.Commit? && !IsActive(s, id) ==>
                  && OnlyEntry(s, o.state, id) && o.state.assets[id] == s.assets[id].(active := true)
                  && o.state.totalValuation == s.totalValuation + Valuation(s, id)
                  && o.state.activeCount == s.activeCount + 1 && o.state.events == s.events + [Reactivated(id)])
  {
    var s := Run(EMPTY, txs);
    RegistryIsConsistent(txs, ByType(""));
    AggregatesContain(s.assets, s.counter, id);
    hide Run, IndexesOk, TokensOk;
  }

  lemma UpdateValuationEffect(txs: seq<Tx>, env: Env, admin: Address, id: nat, v: I128)
    ensures var s := Run(EMPTY, txs);
            var o := CallOutcome(s, env, UpdateValuation(admin, id, v));
            var moved := if IsActive(s, id) then v - Valuation(s, id) else 0;
            && Refuses(o,
                 When(Uninitialized(s), NotInitialized,
                 When(admin !in env.auth, HostTrap,
                 When(s.roles.admin != Some(admin), Unauthorized,
                 When(v < 0, InvalidValuation,
                 When(id !in s.assets, AssetNotFound,
                 When(s.totalValuation + moved > I128_MAX, Overflow, None)))))))
            && (o.Commit? ==>
                  && OnlyEntry(s, o.state, id) && o.state.assets[id] == s.assets[id].(valuation := v)
                  && o.state.totalValuation == s.totalValuation + moved && o.state.activeCount == s.activeCount
                  && o.state.events == s.events + [Valued(id, Valuation(s, id), v)])
  {
    var s := Run(EMPTY, txs);
    RegistryIsConsistent(txs, ByType(""));
    AggregatesContain(s.assets, s.counter, id);
    hide Run, IndexesOk, TokensOk;
  }

  lemma RoleEffect(s: State, env: Env, admin: Address, a: Address)
    ensures var o := CallOutcome(s, env, Role(Initialize(admin)));
            && Refuses(o, When(!Uninitialized(s), AlreadyInitialized, When(admin !in env.auth, HostTrap, None)))
            && (o.Commit? ==>
                  o.state == s.(roles := s.roles.(admin := Some(admin)), counter := 0, activeCount := 0,
                                totalValuation := 0,
                                events := s.events + [Handover(Initialized(admin))]))
    ensures forall role: RoleCall :: !role.Initialize? ==>
              match RoleOutcome(s.roles, env.auth, role)
              case Abort(e) => CallOutcome(s, env, Role(role)) == Abort(e)
              case Commit(roles, e) =>
                CallOutcome(s, env, Role(role)) == Commit(s.(roles := roles, events := s.events + [Handover(e)]), 0)
  {
  }

  // ---- what the lists behind the queries contain ----

  /** The entries of an activity: all of them, each once, in ascending order of id. */
  lemma {:induction false} EntriesByActivityExact(assets: map<nat, AssetEntry>, active: bool, n: nat)
    requires forall id :: id in assets ==> assets[id].id == id
    ensures var list := EntriesByActivity(assets, active, n);
            && (forall e :: e in list <==> 1 <= e.id <= n && e.id in assets && e == assets[e.id] && e.active == active)
            && (forall j, k :: 0 <= j < k < |list| ==> list[j].id < list[k].id)
  {
    if n > 0 {
      EntriesByActivityExact(assets, active, n - 1);
      var list := EntriesByActivity(assets, active, n - 1);
      assert forall j :: 0 <= j < |list| ==> list[j] in list;
    }
  }

  /** The list of all entries: position k holds id k + 1. */
  lemma EntriesExact(assets: map<nat, AssetEntry>, n: nat, k: nat)
    requires Numbered(assets, n) && k < n
    ensures |Entries(assets, 0, n)| == n && Entries(assets, 0, n)[k] == assets[k + 1]
  {
    AllEntries(assets, n, k + 1);
  }

  /** The entries of ids that are all stored, in the order of the ids. */
  lemma {:induction false} ResolveExact(assets: map<nat, AssetEntry>, ids: seq<nat>, k: nat)
    requires (forall i :: i in ids ==> i in assets) && k < |ids|
    ensures |Resolve(assets, ids)| == |ids| && Resolve(assets, ids)[k] == assets[ids[k]]
  {
    var last := |ids| - 1;
    ResolveAll(assets, ids);
    ResolveAll(assets, ids[..last]);
    if k < last {
      ResolveExact(assets, ids[..last], k);
    }
  }
}
