/** The asset registry: what each call does to the entries, the aggregates and the indexes, and the runs
    of calls. */
module Registry {
  import opened Soroban

  datatype AssetEntry = AssetEntry(
    id: nat,
    tokenContract: Address,
    issuer: Address,
    name: string,
    assetType: string,
    valuation: I128,
    createdAt: U32,
    active: bool)

  /** The secondary indexes: by issuer and by asset type. */
  datatype Key = ByIssuer(issuer: Address) | ByType(assetType: string)

  datatype Event =
    | Handover(event: RoleEvent)
    | Registered(issuer: Address, id: nat)
    | Deactivated(id: nat)
    | Reactivated(id: nat)
    | Valued(id: nat, oldValuation: I128, newValuation: I128)

  datatype State = State(
    roles: Roles,
    counter: U64,
    assets: map<nat, AssetEntry>,
    activeCount: U64,
    index: map<Key, seq<nat>>,
    totalValuation: I128,
    tokenIndex: map<Address, nat>,
    events: seq<Event>)

  /** `tokenAdmin` is the admin that the asset's token contract reports, None if that call traps. */
  datatype Env = Env(now: U32, auth: set<Address>, tokenAdmin: Option<Address>)

  datatype Call =
    | Role(role: RoleCall)
    | Register(issuer: Address, tokenContract: Address, name: string, assetType: string, valuation: I128)
    | Deactivate(admin: Address, id: nat)
    | Reactivate(admin: Address, id: nat)
    | UpdateValuation(admin: Address, id: nat, newValuation: I128)

  const EMPTY: State := State(Roles(None, None), 0, map[], 0, map[], 0, map[], [])
  const MAX_PAGE_SIZE: nat := 100
  const MAX_NAME_LEN: nat := 64

  predicate ValidAssetType(t: string) {
    t in {"real_estate", "invoice", "commodity", "bond", "equity", "fund"}
  }

  predicate FitsI128(x: int) {
    -I128_MAX - 1 <= x <= I128_MAX
  }

  function Push(index: map<Key, seq<nat>>, key: Key, id: nat): map<Key, seq<nat>> {
    index[key := Get(index, key, []) + [id]]
  }

  function RegisterOutcome(s: State, env: Env, call: Call): Outcome<State, int>
    requires call.Register?
  {
    var Register(issuer, token, name, assetType, valuation) := call;
    if s.roles.admin.None? then Abort(NotInitialized)
    else if issuer !in env.auth then Abort(HostTrap)
    else if valuation < 0 then Abort(InvalidValuation)
    else if |name| == 0 || |name| > MAX_NAME_LEN || !ValidAssetType(assetType) then Abort(InvalidInput)
    else if token in s.tokenIndex then Abort(DuplicateAsset)
    else if s.counter == U64_MAX || s.activeCount == U64_MAX then Abort(HostTrap)
    else if s.totalValuation + valuation > I128_MAX then Abort(Overflow)
    else
      var id := s.counter + 1;
      Commit(s.(counter := id,
                assets := s.assets[id := AssetEntry(id, token, issuer, name, assetType, valuation, env.now, true)],
                activeCount := s.activeCount + 1,
                index := Push(Push(s.index, ByIssuer(issuer), id), ByType(assetType), id),
                totalValuation := s.totalValuation + valuation,
                tokenIndex := s.tokenIndex[token := id],
                events := s.events + [Registered(issuer, id)]), id)
  }

  function DeactivateOutcome(s: State, env: Env, admin: Address, id: nat): Outcome<State, int> {
    if id !in s.assets then Abort(AssetNotFound)
    else
      var e := ManagerError(s.roles, env.auth, env.tokenAdmin, admin);
      var entry := s.assets[id];
      if e.Some? then Abort(e.value)
      else if !entry.active then Commit(s, 0)
      else if !FitsI128(s.totalValuation - entry.valuation) then Abort(Overflow)
      else
        Commit(s.(assets := s.assets[id := entry.(active := false)],
                  activeCount := if s.activeCount == 0 then 0 else s.activeCount - 1,
                  totalValuation := s.totalValuation - entry.valuation,
                  events := s.events + [Deactivated(id)]), 0)
  }

  function ReactivateOutcome(s: State, env: Env, admin: Address, id: nat): Outcome<State, int> {
    if id !in s.assets then Abort(AssetNotFound)
    else
      var e := ManagerError(s.roles, env.auth, env.tokenAdmin, admin);
      var entry := s.assets[id];
      if e.Some? then Abort(e.value)
      else if entry.active then Commit(s, 0)
      else if s.activeCount == U64_MAX then Abort(HostTrap)
      else if !FitsI128(s.totalValuation + entry.valuation) then Abort(Overflow)
      else
        Commit(s.(assets := s.assets[id := entry.(active := true)],
                  activeCount := s.activeCount + 1,
                  totalValuation := s.totalValuation + entry.valuation,
                  events := s.events + [Reactivated(id)]), 0)
  }

  function UpdateValuationOutcome(s: State, env: Env, admin: Address, id: nat, newValuation: I128)
    : Outcome<State, int>
  {
    var e := AdminError(s.roles, env.auth, admin);
    if e.Some? then Abort(e.value)
    else if newValuation < 0 then Abort(InvalidValuation)
    else if id !in s.assets then Abort(AssetNotFound)
    else
      var entry := s.assets[id];
      var t := s.(assets := s.assets[id := entry.(valuation := newValuation)],
                  events := s.events + [Valued(id, entry.valuation, newValuation)]);
      if !entry.active then Commit(t, 0)
      else if !FitsI128(s.totalValuation - entry.valuation)
              || !FitsI128(s.totalValuation - entry.valuation + newValuation)
      then Abort(Overflow)
      else Commit(t.(totalValuation := s.totalValuation - entry.valuation + newValuation), 0)
  }

  function CallOutcome(s: State, env: Env, call: Call): Outcome<State, int> {
    match call
    case Role(role) =>
      (match RoleOutcome(s.roles, env.auth, role)
       case Abort(e) => Abort(e)
       case Commit(roles, e) =>
         var t := s.(roles := roles, events := s.events + [Handover(e)]);
         Commit(if role.Initialize? then t.(counter := 0, activeCount := 0, totalValuation := 0) else t, 0))
    case Register(_, _, _, _, _) => RegisterOutcome(s, env, call)
    case Deactivate(admin, id) => DeactivateOutcome(s, env, admin, id)
    case Reactivate(admin, id) => ReactivateOutcome(s, env, admin, id)
    case UpdateValuation(admin, id, v) => UpdateValuationOutcome(s, env, admin, id, v)
  }

  datatype Tx = Tx(env: Env, call: Call)

  function Step(s: State, tx: Tx): State {
    CallOutcome(s, tx.env, tx.call).After(s)
  }

  function Run(s: State, txs: seq<Tx>): State
    decreases |txs|
  {
    if txs == [] then s else Run(Step(s, txs[0]), txs[1..])
  }

  /** The stored ids are exactly 1..n. */
  ghost predicate Numbered(assets: map<nat, AssetEntry>, n: nat) {
    forall id :: id in assets <==> 1 <= id <= n
  }

  // ---- recomputation from the entries ----

  /** Total valuation of the active entries among ids 1..n. */
  function ActiveValue(assets: map<nat, AssetEntry>, n: nat): int {
    if n == 0 then 0 else ActiveValue(assets, n - 1) + ValueOf(assets, n)
  }

  function ValueOf(assets: map<nat, AssetEntry>, id: nat): int {
    if id in assets && assets[id].active then assets[id].valuation else 0
  }

  /** Number of active entries among ids 1..n. */
  function ActiveTotal(assets: map<nat, AssetEntry>, n: nat): int {
    if n == 0 then 0 else ActiveTotal(assets, n - 1) + if n in assets && assets[n].active then 1 else 0
  }

  predicate HasKey(e: AssetEntry, key: Key) {
    match key
    case ByIssuer(issuer) => e.issuer == issuer
    case ByType(assetType) => e.assetType == assetType
  }

  /** The ids among 1..n whose entry has the key, in ascending order. */
  function IdsWith(assets: map<nat, AssetEntry>, key: Key, n: nat): seq<nat> {
    if n == 0 then [] else IdsWith(assets, key, n - 1) + if n in assets && HasKey(assets[n], key) then [n] else []
  }

  /** The entries with ids m+1..n, in order. */
  function Entries(assets: map<nat, AssetEntry>, m: nat, n: nat): seq<AssetEntry> {
    if n <= m then [] else Entries(assets, m, n - 1) + if n in assets then [assets[n]] else []
  }

  /** The entries with ids 1..n that are active, or those that are not. */
  function EntriesByActivity(assets: map<nat, AssetEntry>, active: bool, n: nat): seq<AssetEntry> {
    if n == 0 then []
    else
      EntriesByActivity(assets, active, n - 1)
      + if n in assets && assets[n].active == active then [assets[n]] else []
  }

  /** The entries of a list of ids, in order. */
  function Resolve(assets: map<nat, AssetEntry>, ids: seq<nat>): seq<AssetEntry> {
    if ids == [] then []
    else Resolve(assets, ids[..|ids| - 1]) + if ids[|ids| - 1] in assets then [assets[ids[|ids| - 1]]] else []
  }
}
