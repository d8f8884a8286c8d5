/** What the registry promises: aggregates and indexes always equal a recomputation from the entries,
    and the pages of an index tile it. */
module RegistryProofs {
  import opened Soroban
  import opened Paging
  import opened Registry

  ghost predicate EntriesOk(s: State) {
    && (s.roles.admin.None? ==> s.counter == 0)
    && Numbered(s.assets, s.counter)
    && forall id :: id in s.assets ==> s.assets[id].id == id && s.assets[id].valuation >= 0
  }

  /** The incremental aggregates equal their recomputation. */
  ghost predicate AggregatesOk(s: State) {
    s.totalValuation == ActiveValue(s.assets, s.counter) && s.activeCount == ActiveTotal(s.assets, s.counter)
  }

  /** Every index lists exactly the ascending ids of the entries with its key. */
  ghost predicate IndexesOk(s: State) {
    forall key :: Get(s.index, key, []) == IdsWith(s.assets, key, s.counter)
  }

  /** The token index inverts the entries' token contracts. */
  ghost predicate TokensOk(s: State) {
    && (forall id :: id in s.assets ==> s.assets[id].tokenContract in s.tokenIndex
                                        && s.tokenIndex[s.assets[id].tokenContract] == id)
    && (forall t :: t in s.tokenIndex ==> s.tokenIndex[t] in s.assets && s.assets[s.tokenIndex[t]].tokenContract == t)
  }

  ghost predicate Inv(s: State) {
    EntriesOk(s) && AggregatesOk(s) && IndexesOk(s) && TokensOk(s)
  }

  // ---- recomputation ----

  lemma {:induction false} AggregatesUpdate(assets: map<nat, AssetEntry>, id: nat, e: AssetEntry, n: nat)
    requires id >= 1
    ensures ActiveValue(assets[id := e], n) ==
            ActiveValue(assets, n) + if id <= n then ValueOf(assets[id := e], id) - ValueOf(assets, id) else 0
    ensures ActiveTotal(assets[id := e], n) ==
            ActiveTotal(assets, n) + if id <= n then Active(assets[id := e], id) - Active(assets, id) else 0
  {
    if n > 0 {
      AggregatesUpdate(assets, id, e, n - 1);
    }
  }

  function Active(assets: map<nat, AssetEntry>, id: nat): int {
    if id in assets && assets[id].active then 1 else 0
  }

  /** Aggregates are non-negative, and contain each active entry. */
  lemma {:induction false} AggregatesContain(assets: map<nat, AssetEntry>, n: nat, id: nat)
    requires forall i :: i in assets ==> assets[i].valuation >= 0
    ensures 0 <= ActiveValue(assets, n) && 0 <= ActiveTotal(assets, n) <= n
    ensures 1 <= id <= n ==>
              ValueOf(assets, id) <= ActiveValue(assets, n) && Active(assets, id) <= ActiveTotal(assets, n)
    ensures 1 <= id <= n && Active(assets, id) == 0 ==> ActiveTotal(assets, n) < n
    decreases n
  {
    if n > 0 {
      AggregatesContain(assets, n - 1, id);
    }
  }

  lemma {:induction false} IdsUpdate(assets: map<nat, AssetEntry>, id: nat, e: AssetEntry, key: Key, n: nat)
    requires id in assets ==> e.issuer == assets[id].issuer && e.assetType == assets[id].assetType
    requires id !in assets ==> id > n
    ensures IdsWith(assets[id := e], key, n) == IdsWith(assets, key, n)
  {
    if n > 0 {
      IdsUpdate(assets, id, e, key, n - 1);
    }
  }

  /** The recomputed index holds exactly the matching ids, each once and in ascending order. */
  lemma {:induction false} IdsWithExact(assets: map<nat, AssetEntry>, key: Key, n: nat)
    ensures forall i :: i in IdsWith(assets, key, n) <==> 1 <= i <= n && i in assets && HasKey(assets[i], key)
    ensures forall j, k :: 0 <= j < k < |IdsWith(assets, key, n)| ==>
                             IdsWith(assets, key, n)[j] < IdsWith(assets, key, n)[k]
  {
    if n > 0 {
      IdsWithExact(assets, key, n - 1);
      var ids := IdsWith(assets, key, n - 1);
      assert forall j :: 0 <= j < |ids| ==> ids[j] in ids;
    }
  }

  // ---- each call ----

  /** Rewriting one entry, its key fields and token unchanged, keeps everything but the aggregates. */
  lemma RewriteKeeps(s: State, t: State, id: nat, e: AssetEntry)
    requires Inv(s) && id in s.assets && e.id == id && e.valuation >= 0
    requires e.issuer == s.assets[id].issuer && e.assetType == s.assets[id].assetType
    requires e.tokenContract == s.assets[id].tokenContract
    requires t == s.(assets := s.assets[id := e], activeCount := t.activeCount, totalValuation := t.totalValuation,
                     events := t.events)
    ensures EntriesOk(t) && IndexesOk(t) && TokensOk(t)
    ensures ActiveValue(t.assets, t.counter) == s.totalValuation + ValueOf(t.assets, id) - ValueOf(s.assets, id)
    ensures ActiveTotal(t.assets, t.counter) == s.activeCount + Active(t.assets, id) - Active(s.assets, id)
  {
    AggregatesUpdate(s.assets, id, e, s.counter);
    forall key ensures Get(t.index, key, []) == IdsWith(t.assets, key, t.counter) {
      IdsUpdate(s.assets, id, e, key, s.counter);
    }
  }

  lemma RegisterKeepsInv(s: State, env: Env, call: Call)
    requires Inv(s) && call.Register?
    ensures var o := RegisterOutcome(s, env, call); o.Commit? ==> Inv(o.state)
  {
    var o := RegisterOutcome(s, env, call);
    if o.Commit? {
      var t, id := o.state, s.counter + 1;
      IndexesExtend(s, t, id);
      TokensExtend(s, t, id);
      hide IndexesOk, TokensOk, ValidAssetType, Push, ActiveValue, ActiveTotal;
      AggregatesExtend(s, t, id);
    }
  }

  lemma AggregatesExtend(s: State, t: State, id: nat)
    requires AggregatesOk(s) && id == s.counter + 1 == t.counter && id !in s.assets
    requires id in t.assets && t.assets[id].active && t.assets == s.assets[id := t.assets[id]]
    requires t.activeCount == s.activeCount + 1 && t.totalValuation == s.totalValuation + t.assets[id].valuation
    ensures AggregatesOk(t)
  {
    AggregatesUpdate(s.assets, id, t.assets[id], s.counter);
  }

  lemma IndexesExtend(s: State, t: State, id: nat)
    requires IndexesOk(s) && id == s.counter + 1 == t.counter && id !in s.assets
    requires id in t.assets && t.assets == s.assets[id := t.assets[id]]
    requires t.index == Push(Push(s.index, ByIssuer(t.assets[id].issuer), id), ByType(t.assets[id].assetType), id)
    ensures IndexesOk(t)
  {
    var e := t.assets[id];
    forall key ensures Get(t.index, key, []) == IdsWith(t.assets, key, t.counter) {
      IdsUpdate(s.assets, id, e, key, s.counter);
      assert HasKey(e, key) <==> key == ByIssuer(e.issuer) || key == ByType(e.assetType);
    }
  }

  lemma TokensExtend(s: State, t: State, id: nat)
    requires TokensOk(s) && id !in s.assets && id in t.assets && t.assets == s.assets[id := t.assets[id]]
    requires t.assets[id].tokenContract !in s.tokenIndex
    requires t.tokenIndex == s.tokenIndex[t.assets[id].tokenContract := id]
    ensures TokensOk(t)
  {
  }

  /** The checked and saturating subtractions of a deactivation never fire. */
  lemma DeactivateKeepsInv(s: State, env: Env, admin: Address, id: nat)
    requires Inv(s)
    ensures var o := DeactivateOutcome(s, env, admin, id);
            && o != Abort(Overflow)
            && (o.Commit? && s.assets[id].active ==> s.activeCount >= 1 && o.state.activeCount == s.activeCount - 1)
            && (o.Commit? ==> Inv(o.state))
  {
    if id in s.assets {
      AggregatesContain(s.assets, s.counter, id);
      var o := DeactivateOutcome(s, env, admin, id);
      if o.Commit? && s.assets[id].active {
        RewriteKeeps(s, o.state, id, s.assets[id].(active := false));
      }
    }
  }

  /** The count cannot be full while an entry is inactive. */
  lemma ReactivateKeepsInv(s: State, env: Env, admin: Address, id: nat)
    requires Inv(s)
    ensures var o := ReactivateOutcome(s, env, admin, id);
            && (o.Commit? ==> Inv(o.state))
            && (o == Abort(HostTrap) ==> ManagerError(s.roles, env.auth, env.tokenAdmin, admin) == Some(HostTrap))
  {
    if id in s.assets {
      AggregatesContain(s.assets, s.counter, id);
      var o := ReactivateOutcome(s, env, admin, id);
      if o.Commit? && !s.assets[id].active {
        RewriteKeeps(s, o.state, id, s.assets[id].(active := true));
      }
    }
  }

  lemma UpdateKeepsInv(s: State, env: Env, admin: Address, id: nat, v: I128)
    requires Inv(s)
    ensures var o := UpdateValuationOutcome(s, env, admin, id, v); o.Commit? ==> Inv(o.state)
  {
    var o := UpdateValuationOutcome(s, env, admin, id, v);
    if o.Commit? {
      RewriteKeeps(s, o.state, id, s.assets[id].(valuation := v));
    }
  }

  lemma RoleKeepsInv(s: State, env: Env, role: RoleCall)
    requires Inv(s)
    ensures Inv(Step(s, Tx(env, Role(role))))
  {
  }

  lemma StepKeepsInv(s: State, tx: Tx)
    requires Inv(s)
    ensures Inv(Step(s, tx))
  {
    hide Inv, RegisterOutcome, DeactivateOutcome, ReactivateOutcome, UpdateValuationOutcome;
    match tx.call {
      case Role(role) => RoleKeepsInv(s, tx.env, role);
      case Register(_, _, _, _, _) => RegisterKeepsInv(s, tx.env, tx.call);
      case Deactivate(admin, id) => DeactivateKeepsInv(s, tx.env, admin, id);
      case Reactivate(admin, id) => ReactivateKeepsInv(s, tx.env, admin, id);
      case UpdateValuation(admin, id, v) => UpdateKeepsInv(s, tx.env, admin, id, v);
    }
  }

  lemma {:induction false} RunKeepsInv(s: State, txs: seq<Tx>)
    requires Inv(s)
    ensures Inv(Run(s, txs))
    decreases |txs|
  {
    hide Inv, Step;
    if txs != [] {
      StepKeepsInv(s, txs[0]);
      RunKeepsInv(Step(s, txs[0]), txs[1..]);
    }
  }

  /** In every reachable state the total value locked and the active count equal their recomputation and
      are not negative, every index lists exactly the ids with its key, each once and in ascending order, and
      no token contract is registered twice. */
  lemma RegistryIsConsistent(txs: seq<Tx>, key: Key)
    ensures var s := Run(EMPTY, txs);
            && Inv(s)
            && s.totalValuation == ActiveValue(s.assets, s.counter) >= 0
            && s.activeCount == ActiveTotal(s.assets, s.counter) <= s.counter
            && var ids := Get(s.index, key, []);
               && (forall id :: id in ids <==> id in s.assets && HasKey(s.assets[id], key))
               && (forall j, k :: 0 <= j < k < |ids| ==> ids[j] < ids[k])
  {
    assert Inv(EMPTY);
    RunKeepsInv(EMPTY, txs);
    var s := Run(EMPTY, txs);
    AggregatesContain(s.assets, s.counter, 0);
    IdsWithExact(s.assets, key, s.counter);
  }

  /** Reactivating a deactivated asset restores the registry exactly; both calls are on the log. */
  lemma ReactivateUndoesDeactivate(s: State, env: Env, admin: Address, id: nat)
    requires Inv(s) && id in s.assets && s.assets[id].active
    requires DeactivateOutcome(s, env, admin, id).Commit?
    ensures ReactivateOutcome(DeactivateOutcome(s, env, admin, id).state, env, admin, id)
         == Commit(s.(events := s.events + [Deactivated(id), Reactivated(id)]), 0)
  {
    DeactivateKeepsInv(s, env, admin, id);
    assert s.assets[id := s.assets[id].(active := false)][id := s.assets[id]] == s.assets;
    assert s.events + [Deactivated(id)] + [Reactivated(id)] == s.events + [Deactivated(id), Reactivated(id)];
  }

  /** One token contract, one id. */
  lemma TokenContractInjective(s: State, i: nat, j: nat)
    requires Inv(s) && i in s.assets && j in s.assets && s.assets[i].tokenContract == s.assets[j].tokenContract
    ensures i == j
  {
  }

  // ---- pages of an index ----

  /** The pages 0..n-1 of the given size that a by-key query returns, one after the other. */
  function KeyPages(assets: map<nat, AssetEntry>, ids: seq<nat>, size: nat, n: nat): seq<AssetEntry> {
    if n == 0 then [] else KeyPages(assets, ids, size, n - 1) + Resolve(assets, Slice(ids, Start(n - 1, size), size))
  }

  lemma {:induction false} ResolveConcat(assets: map<nat, AssetEntry>, xs: seq<nat>, ys: seq<nat>)
    ensures Resolve(assets, xs + ys) == Resolve(assets, xs) + Resolve(assets, ys)
  {
    if ys == [] {
      assert xs + ys == xs;
    } else {
      var last := |ys| - 1;
      assert (xs + ys)[..|xs| + last] == xs + ys[..last];
      ResolveConcat(assets, xs, ys[..last]);
    }
  }

  lemma KeyPagesUnfold(assets: map<nat, AssetEntry>, ids: seq<nat>, size: nat, n: nat)
    ensures n == 0 ==> KeyPages(assets, ids, size, n) == Resolve(assets, Pages(ids, size, n)) == []
    ensures n > 0 ==> var page := Slice(ids, Start(n - 1, size), size);
                      && KeyPages(assets, ids, size, n) == KeyPages(assets, ids, size, n - 1) + Resolve(assets, page)
                      && Pages(ids, size, n) == Pages(ids, size, n - 1) + page
  {
  }

  lemma {:induction false} KeyPagesArePages(assets: map<nat, AssetEntry>, ids: seq<nat>, size: nat, n: nat)
    ensures KeyPages(assets, ids, size, n) == Resolve(assets, Pages(ids, size, n))
  {
    hide Resolve, Slice, Start, Pages, KeyPages;
    KeyPagesUnfold(assets, ids, size, n);
    if n > 0 {
      KeyPagesArePages(assets, ids, size, n - 1);
      ResolveConcat(assets, Pages(ids, size, n - 1), Slice(ids, Start(n - 1, size), size));
    }
  }

  /** In a reachable state the pages of an index, for any positive size, concatenate to the entries with
      the key: once enough pages are read they are all there, in order, none twice. */
  lemma KeyPagesTile(s: State, key: Key, size: nat, n: nat)
    requires Inv(s)
    ensures var ids := IdsWith(s.assets, key, s.counter);
            var pages := KeyPages(s.assets, Get(s.index, key, []), size, n);
            && pages == Resolve(s.assets, ids[..Min(Start(n, size), |ids|)])
            && (Start(n, size) >= |ids| ==> pages == Resolve(s.assets, ids))
  {
    hide Resolve, Slice, Start, IdsWith, EntriesOk, AggregatesOk, TokensOk;
    var ids := IdsWith(s.assets, key, s.counter);
    KeyPagesArePages(s.assets, ids, size, n);
    PagesTile(ids, size, n);
    assert ids[..|ids|] == ids;
  }

  lemma {:induction false} ResolveAll(assets: map<nat, AssetEntry>, ids: seq<nat>)
    requires forall i :: i in ids ==> i in assets
    ensures |Resolve(assets, ids)| == |ids|
  {
    if ids != [] {
      ResolveAll(assets, ids[..|ids| - 1]);
    }
  }

  /** Registrations of `n` different tokens by one issuer. */
  function RegisterEach(env: Env, issuer: Address, n: nat): seq<Tx> {
    if n == 0 then []
    else RegisterEach(env, issuer, n - 1) + [Tx(env, Register(issuer, Address(n), "Bond", "bond", 0))]
  }

  lemma {:induction false} RunOn(s: State, txs: seq<Tx>, more: seq<Tx>)
    ensures Run(s, txs + more) == Run(Run(s, txs), more)
    decreases |txs|
  {
    hide Step;
    if txs == [] {
      assert txs + more == more;
    } else {
      assert (txs + more)[1..] == txs[1..] + more;
      RunOn(Step(s, txs[0]), txs[1..], more);
    }
  }

  /** A registry after `n` such registrations. */
  ghost predicate HasRegistered(s: State, issuer: Address, n: nat) {
    && s.roles.admin.Some? && s.counter == s.activeCount == n && s.totalValuation == 0
    && (forall t :: t in s.tokenIndex ==> 1 <= t.id <= n)
    && |Get(s.index, ByIssuer(issuer), [])| == n
  }

  lemma {:induction false} EachRegisters(s: State, env: Env, issuer: Address, n: nat)
    requires HasRegistered(s, issuer, 0) && issuer in env.auth && n < U64_MAX
    ensures HasRegistered(Run(s, RegisterEach(env, issuer, n)), issuer, n)
  {
    if n > 0 {
      EachRegisters(s, env, issuer, n - 1);
      var t := Run(s, RegisterEach(env, issuer, n - 1));
      var tx := Tx(env, Register(issuer, Address(n), "Bond", "bond", 0));
      RunOn(s, RegisterEach(env, issuer, n - 1), [tx]);
      assert [tx][1..] == [] && Run(t, [tx]) == Run(Step(t, tx), []);
      assert Address(n) !in t.tokenIndex;
    }
  }

  /** An initialized registry in which one issuer has registered 101 tokens: the unpaged query leaves one out. */
  lemma HundredAndOneAreCut(env: Env, admin: Address, issuer: Address)
    requires admin in env.auth && issuer in env.auth
    ensures var s := Run(EMPTY, [Tx(env, Role(Initialize(admin)))] + RegisterEach(env, issuer, 101));
            var ids := Get(s.index, ByIssuer(issuer), []);
            && |ids| == 101 && |Resolve(s.assets, ids)| == 101
            && |Resolve(s.assets, Slice(ids, 0, MAX_PAGE_SIZE))| == 100
  {
    var init := Tx(env, Role(Initialize(admin)));
    var txs := [init] + RegisterEach(env, issuer, 101);
    RunOn(EMPTY, [init], RegisterEach(env, issuer, 101));
    assert [init][1..] == [] && Run(EMPTY, [init]) == Run(Step(EMPTY, init), []);
    hide RegisterEach;
    EachRegisters(Run(EMPTY, [init]), env, issuer, 101);
    var s := Run(EMPTY, txs);
    RegistryIsConsistent(txs, ByIssuer(issuer));
    hide Run, Resolve;
    ResolveAll(s.assets, Get(s.index, ByIssuer(issuer), []));
    ResolveAll(s.assets, Slice(Get(s.index, ByIssuer(issuer), []), 0, MAX_PAGE_SIZE));
  }

  /** The unpaged by-key queries return all entries with the key exactly when there are at most 100. */
  lemma FirstPageIsAllIff(s: State, key: Key)
    requires Inv(s)
    ensures var ids := Get(s.index, key, []);
            Resolve(s.assets, Slice(ids, 0, 100)) == Resolve(s.assets, ids) <==> |ids| <= 100
  {
    var ids := IdsWith(s.assets, key, s.counter);
    IdsWithExact(s.assets, key, s.counter);
    ResolveAll(s.assets, ids);
    ResolveAll(s.assets, Slice(ids, 0, MAX_PAGE_SIZE));
    if |ids| <= MAX_PAGE_SIZE {
      assert Slice(ids, 0, MAX_PAGE_SIZE) == ids;
    }
  }
}
