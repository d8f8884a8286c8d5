/** The registry as it runs: entries, counters and index vectors updated in storage, and the page
    queries as the loops they are. */
module RegistryContract {
  import opened Soroban
  import opened Paging
  import opened Registry

  class Contract {
    var roles: Roles
    var counter: U64
    var assets: map<nat, AssetEntry>
    var activeCount: U64
    var index: map<Key, seq<nat>>
    var totalValuation: I128
    var tokenIndex: map<Address, nat>
    var events: seq<Event>

    function Now(): State
      reads this
    {
      State(roles, counter, assets, activeCount, index, totalValuation, tokenIndex, events)
    }

    constructor ()
      ensures Now() == EMPTY
    {
      roles, counter, assets, activeCount := Roles(None, None), 0, map[], 0;
      index, totalValuation, tokenIndex, events := map[], 0, map[], [];
    }

    method PushIndex(key: Key, id: nat)
      modifies this`index
      ensures index == Push(old(index), key, id)
    {
      var ids := if key in index then index[key] else [];
      ids := ids + [id];
      index := index[key := ids];
    }

    method RegisterAsset(env: Env, issuer: Address, tokenContract: Address, name: string, assetType: string,
                         valuation: I128)
      returns (r: Result<int>)
      modifies this
      ensures var call := Register(issuer, tokenContract, name, assetType, valuation);
              Agrees(r, Now(), RegisterOutcome(old(Now()), env, call))
    {
      if roles.admin.None? {
        return Err(NotInitialized);
      }
      if issuer !in env.auth {
        return Err(HostTrap);
      }
      if valuation < 0 {
        return Err(InvalidValuation);
      }
      if |name| == 0 {
        return Err(InvalidInput);
      }
      if |name| > MAX_NAME_LEN {
        return Err(InvalidInput);
      }
      if !ValidAssetType(assetType) {
        return Err(InvalidInput);
      }
      if tokenContract in tokenIndex {
        return Err(DuplicateAsset);
      }
      if counter == U64_MAX {
        return Err(HostTrap);
      }
      var id := counter + 1;
      assets := assets[id := AssetEntry(id, tokenContract, issuer, name, assetType, valuation, env.now, true)];
      tokenIndex := tokenIndex[tokenContract := id];
      counter := id;
      if activeCount == U64_MAX {
        return Err(HostTrap);
      }
      activeCount := activeCount + 1;
      PushIndex(ByIssuer(issuer), id);
      PushIndex(ByType(assetType), id);
      if totalValuation + valuation > I128_MAX {
        return Err(Overflow);  // everything above is already written
      }
      totalValuation := totalValuation + valuation;
      events := events + [Registered(issuer, id)];
      r := Ok(id);
    }

    method DeactivateAsset(env: Env, admin: Address, id: nat) returns (r: Result<int>)
      modifies this
      ensures Agrees(r, Now(), DeactivateOutcome(old(Now()), env, admin, id))
    {
      if id !in assets {
        return Err(AssetNotFound);
      }
      var entry := assets[id];
      var refused := ManagerError(roles, env.auth, env.tokenAdmin, admin);
      if refused.Some? {
        return Err(refused.value);
      }
      if !entry.active {
        return Ok(0);
      }
      entry := entry.(active := false);
      assets := assets[id := entry];
      activeCount := if activeCount == 0 then 0 else activeCount - 1;
      if !FitsI128(totalValuation - entry.valuation) {
        return Err(Overflow);
      }
      totalValuation := totalValuation - entry.valuation;
      events := events + [Deactivated(id)];
      r := Ok(0);
    }

    method ReactivateAsset(env: Env, admin: Address, id: nat) returns (r: Result<int>)
      modifies this
      ensures Agrees(r, Now(), ReactivateOutcome(old(Now()), env, admin, id))
    {
      if id !in assets {
        return Err(AssetNotFound);
      }
      var entry := assets[id];
      var refused := ManagerError(roles, env.auth, env.tokenAdmin, admin);
      if refused.Some? {
        return Err(refused.value);
      }
      if entry.active {
        return Ok(0);
      }
      entry := entry.(active := true);
      assets := assets[id := entry];
      if activeCount == U64_MAX {
        return Err(HostTrap);
      }
      activeCount := activeCount + 1;
      if !FitsI128(totalValuation + entry.valuation) {
        return Err(Overflow);
      }
      totalValuation := totalValuation + entry.valuation;
      events := events + [Reactivated(id)];
      r := Ok(0);
    }

    method UpdateAssetValuation(env: Env, admin: Address, id: nat, newValuation: I128) returns (r: Result<int>)
      modifies this
      ensures Agrees(r, Now(), UpdateValuationOutcome(old(Now()), env, admin, id, newValuation))
    {
      var refused := AdminError(roles, env.auth, admin);
      if refused.Some? {
        return Err(refused.value);
      }
      if newValuation < 0 {
        return Err(InvalidValuation);
      }
      if id !in assets {
        return Err(AssetNotFound);
      }
      var entry := assets[id];
      var oldValuation := entry.valuation;
      entry := entry.(valuation := newValuation);
      assets := assets[id := entry];
      if entry.active {
        var without := totalValuation - oldValuation;
        if !FitsI128(without) || !FitsI128(without + newValuation) {
          return Err(Overflow);
        }
        totalValuation := without + newValuation;
      }
      events := events + [Valued(id, oldValuation, newValuation)];
      r := Ok(0);
    }

    /** initialize and the two-step admin handover. */
    method Administer(env: Env, call: RoleCall) returns (r: Result<int>)
      modifies this
      ensures Agrees(r, Now(), CallOutcome(old(Now()), env, Role(call)))
    {
      match RoleOutcome(roles, env.auth, call) {
        case Abort(e) => return Err(e);
        case Commit(next, e) =>
          roles := next;
          events := events + [Handover(e)];
          if call.Initialize? {
            counter, activeCount, totalValuation := 0, 0, 0;
          }
          r := Ok(0);
      }
    }

    /** The host's transaction: run the call, and undo its writes if it fails. */
    method Invoke(tx: Tx) returns (r: Result<int>)
      modifies this
      ensures r == CallOutcome(old(Now()), tx.env, tx.call).Result()
      ensures Now() == Step(old(Now()), tx)
    {
      hide RegisterOutcome, DeactivateOutcome, ReactivateOutcome, UpdateValuationOutcome;
      var roles0, counter0, assets0, activeCount0 := roles, counter, assets, activeCount;
      var index0, totalValuation0, tokenIndex0, events0 := index, totalValuation, tokenIndex, events;
      match tx.call {
        case Role(role) => r := Administer(tx.env, role);
        case Register(issuer, token, name, assetType, v) =>
          r := RegisterAsset(tx.env, issuer, token, name, assetType, v);
        case Deactivate(admin, id) => r := DeactivateAsset(tx.env, admin, id);
        case Reactivate(admin, id) => r := ReactivateAsset(tx.env, admin, id);
        case UpdateValuation(admin, id, v) => r := UpdateAssetValuation(tx.env, admin, id, v);
      }
      if r.Err? {
        roles, counter, assets, activeCount := roles0, counter0, assets0, activeCount0;
        index, totalValuation, tokenIndex, events := index0, totalValuation0, tokenIndex0, events0;
      }
    }

    // ---- page queries ----

    /** The loop over ids that `get_all_assets` and `get_assets_page` share. */
    method CollectIds(start: nat, end: nat) returns (out: seq<AssetEntry>)
      requires 1 <= start
      ensures out == if start < end then Entries(assets, start - 1, end - 1) else []
    {
      out := [];
      var id := start;
      while id < end
        invariant start <= id && (start < end ==> id <= end) && (end <= start ==> id == start)
        invariant out == Entries(assets, start - 1, id - 1)
      {
        if id in assets {
          out := out + [assets[id]];
        }
        id := id + 1;
      }
    }

    /** get_all_assets: at most 100 entries, from id `startId` on. The sum counter + 1 traps at the end
        of u64. */
    method GetAllAssets(startId: U64, limit: U32) returns (r: Result<seq<AssetEntry>>)
      requires Numbered(assets, counter)
      ensures r == if counter == U64_MAX then Err(HostTrap)
                   else
                     var offset := if startId < 1 then 0 else startId - 1;
                     Ok(Slice(Entries(assets, 0, counter), offset, Min(limit, 100)))
    {
      var start: nat := if startId < 1 then 1 else startId;
      var capped := Min(limit, MAX_PAGE_SIZE);
      if counter == U64_MAX {
        return Err(HostTrap);
      }
      var end := Min(Min(start + capped, U64_MAX), counter as int + 1);
      EntriesSlice(assets, counter, start - 1, end - 1);
      var out := CollectIds(start, end);
      r := Ok(out);
    }

    /** get_assets_page: a zero-based position in the list of all entries. */
    method GetAssetsPage(startIndex: U32, pageSize: U32) returns (out: seq<AssetEntry>)
      requires Numbered(assets, counter)
      ensures out == Slice(Entries(assets, 0, counter), startIndex,
                           if pageSize == 0 then 100 else Min(pageSize, 100))
    {
      var capped: nat := if pageSize == 0 || pageSize > MAX_PAGE_SIZE then MAX_PAGE_SIZE else pageSize;
      var startId: nat := startIndex as int + 1;
      EntriesSlice(assets, counter, startId - 1, Min(startId - 1 + capped, counter));
      if counter == 0 {
        return [];
      }
      if startId > counter {
        return [];
      }
      var end := Min(Min(startId + capped, U64_MAX), Min(counter as int + 1, U64_MAX));
      out := CollectIds(startId, end);
    }

    /** get_active_assets_page: positions count in the filtered list. */
    method GetActiveAssetsPage(startIndex: U32, pageSize: U32, activeOnly: bool) returns (out: seq<AssetEntry>)
      ensures out == Slice(EntriesByActivity(assets, activeOnly, counter), startIndex,
                           if pageSize == 0 then 100 else Min(pageSize, 100))
    {
      if counter == 0 {
        return [];
      }
      var capped: nat := if pageSize == 0 || pageSize > MAX_PAGE_SIZE then MAX_PAGE_SIZE else pageSize;
      var skipped := 0;
      out := [];
      var id: nat := 1;
      SliceOfNothing<AssetEntry>(startIndex, capped);
      assert EntriesByActivity(assets, activeOnly, 0) == [];
      hide Slice, EntriesByActivity;
      while id <= counter && |out| < capped
        invariant 1 <= id <= counter + 1
        invariant skipped == Min(startIndex, |EntriesByActivity(assets, activeOnly, id - 1)|)
        invariant out == Slice(EntriesByActivity(assets, activeOnly, id - 1), startIndex, capped)
      {
        ghost var seen := EntriesByActivity(assets, activeOnly, id - 1);
        ActivityNext(assets, activeOnly, id);
        if id in assets {
          var entry := assets[id];
          if entry.active == activeOnly {
            SliceExtends(seen, entry, startIndex, capped);
            if skipped < startIndex {
              skipped := skipped + 1;
            } else {
              out := out + [entry];
            }
          }
        }
        id := id + 1;
      }
      ActivityPrefix(assets, activeOnly, id - 1, counter);
      if |out| >= capped {
        ghost var seen := EntriesByActivity(assets, activeOnly, id - 1);
        ghost var all := EntriesByActivity(assets, activeOnly, counter);
        FullSliceStays(seen, all[|seen|..], startIndex, capped);
        assert seen + all[|seen|..] == all;
      }
    }

    /** fetch_assets_page, whose offset and end saturate at u32. */
    method FetchAssetsPage(ids: seq<nat>, offset: U32, limit: U32) returns (out: seq<AssetEntry>)
      requires |ids| <= U32_MAX
      ensures out == Resolve(assets, Slice(ids, offset, limit))
    {
      out := [];
      var total := |ids|;
      if offset >= total || limit == 0 {
        assert Slice(ids, offset, limit) == [];
        return;
      }
      var end := Min(total, Min(offset as int + limit, U32_MAX));
      var idx: nat := offset;
      while idx < end
        invariant offset <= idx <= end
        invariant out == Resolve(assets, ids[offset..idx])
      {
        var id := ids[idx];
        assert ids[offset..idx + 1][..idx - offset] == ids[offset..idx];
        if id in assets {
          out := out + [assets[id]];
        }
        idx := idx + 1;
      }
    }

    /** get_assets_by_issuer_page and get_assets_by_type_page: page * size saturates at u32. */
    method GetPageByKey(key: Key, page: U32, pageSize: U32) returns (out: seq<AssetEntry>)
      requires forall k :: k in index ==> |index[k]| <= U32_MAX
      ensures var size: nat := Min(pageSize, 100);
              out == Resolve(assets, Slice(Get(index, key, []), Start(page, size), size))
    {
      var ids := if key in index then index[key] else [];
      var capped := Min(pageSize, MAX_PAGE_SIZE);
      var offset := Min(page as nat * capped, U32_MAX);
      out := FetchAssetsPage(ids, offset, capped);
    }

    /** get_assets_by_issuer and get_assets_by_type: the first page of the index. */
    method GetByKey(key: Key) returns (out: seq<AssetEntry>)
      requires forall k :: k in index ==> |index[k]| <= U32_MAX
      ensures out == Resolve(assets, Slice(Get(index, key, []), 0, 100))
    {
      var ids := if key in index then index[key] else [];
      out := FetchAssetsPage(ids, 0, MAX_PAGE_SIZE);
    }
  }

  /** With ids 1..n stored, the entries with ids lo+1..hi are a slice of the list of all. */
  lemma {:induction false} EntriesSlice(assets: map<nat, AssetEntry>, n: nat, lo: nat, hi: int)
    requires Numbered(assets, n) && hi <= n
    ensures |Entries(assets, 0, n)| == n
    ensures 0 <= lo <= hi ==> Entries(assets, lo, hi) == Entries(assets, 0, n)[lo..hi]
  {
    AllEntries(assets, n, n);
    if lo < hi {
      EntriesSlice(assets, n, lo, hi - 1);
      AllEntries(assets, n, hi);
    }
  }

  lemma {:induction false} AllEntries(assets: map<nat, AssetEntry>, n: nat, m: nat)
    requires Numbered(assets, n) && m <= n
    ensures |Entries(assets, 0, n)| == n && (m > 0 ==> Entries(assets, 0, n)[m - 1] == assets[m])
    decreases n
  {
    if n > 0 {
      var less := assets - {n};
      EntriesAgree(assets, less, n - 1);
      AllEntries(less, n - 1, if m < n then m else 0);
    }
  }

  lemma {:induction false} EntriesAgree(assets: map<nat, AssetEntry>, less: map<nat, AssetEntry>, n: nat)
    requires forall id :: 1 <= id <= n ==> (id in assets <==> id in less) && (id in assets ==> assets[id] == less[id])
    ensures Entries(assets, 0, n) == Entries(less, 0, n)
  {
    if n > 0 {
      EntriesAgree(assets, less, n - 1);
    }
  }

  lemma SliceOfNothing<T>(offset: nat, limit: nat)
    ensures Slice<T>([], offset, limit) == []
  {
  }

  lemma ActivityNext(assets: map<nat, AssetEntry>, active: bool, id: nat)
    requires id > 0
    ensures EntriesByActivity(assets, active, id)
         == if id in assets && assets[id].active == active
            then EntriesByActivity(assets, active, id - 1) + [assets[id]]
            else EntriesByActivity(assets, active, id - 1)
  {
  }

  lemma {:induction false} ActivityPrefix(assets: map<nat, AssetEntry>, active: bool, m: nat, n: nat)
    requires m <= n
    ensures |EntriesByActivity(assets, active, m)| <= |EntriesByActivity(assets, active, n)|
    ensures EntriesByActivity(assets, active, n)[..|EntriesByActivity(assets, active, m)|]
         == EntriesByActivity(assets, active, m)
  {
    if m < n {
      ActivityPrefix(assets, active, m, n - 1);
      assert EntriesByActivity(assets, active, n)[..|EntriesByActivity(assets, active, m)|]
          == EntriesByActivity(assets, active, n - 1)[..|EntriesByActivity(assets, active, m)|];
    }
  }
}
