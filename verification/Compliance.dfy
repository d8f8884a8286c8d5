/** The compliance contract with its allowlist as a plain list: what each call does, the gate, and the
    runs of calls. */
module Compliance {
  import opened Soroban
  import opened Paging

  type Byte = x: int | 0 <= x < 256

  /** A jurisdiction code, as bytes. */
  type Code = seq<Byte>

  datatype Status = Approved | Pending | Rejected | Suspended

  datatype KycRecord = KycRecord(address: Address, status: Status, jurisdiction: Code, verifiedAt: U32, expiresAt: U32)

  datatype Entry = Entry(address: Address, jurisdiction: Code, expiresAt: U32)

  /** What the contract publishes. An approval tells what it replaced; `RecordExpired` is published both
      by a prune that drops the record and by a gate check that merely meets it. */
  datatype Event =
    | Handover(event: RoleEvent)
    | ApprovalMade(address: Address, jurisdiction: Code, expiresAt: U32,
                   previousJurisdiction: Code, previousExpiry: U32, wasSuspended: bool)
    | SuspensionMade(address: Address)
    | ReinstatementMade(address: Address)
    | RemovalMade(address: Address)
    | RecordExpired(address: Address, expiresAt: U32)
    | HoldFailed(address: Address, firstAcquired: U64, minLedgers: U64, now: U32)
    | JurisdictionBlocked(jurisdiction: Code)
    | JurisdictionUnblocked(jurisdiction: Code)
    | MinHoldSet(holder: Address, ledgers: U64)
    | AcquisitionRecorded(holder: Address, ledger: U32)

  /** `list` is the allowlist in order; `appends` counts every address ever appended to it. */
  datatype State = State(
    roles: Roles,
    list: seq<Address>,
    appends: nat,
    count: U32,
    records: map<Address, KycRecord>,
    blocked: map<Code, bool>,
    blockedList: seq<Code>,
    minHold: map<Address, U64>,
    firstAcquired: map<Address, U64>,
    events: seq<Event>)

  datatype Env = Env(now: U32, auth: set<Address>)

  datatype Call =
    | Role(role: RoleCall)
    | Add(admin: Address, entry: Entry)
    | AddBatch(admin: Address, entries: seq<Entry>)
    | Suspend(admin: Address, address: Address)
    | Reinstate(admin: Address, address: Address)
    | Remove(admin: Address, address: Address)
    | Prune(admin: Address, max: U32)
    | Block(admin: Address, jurisdiction: Code)
    | Unblock(admin: Address, jurisdiction: Code)
    | SetMinHold(admin: Address, holder: Address, ledgers: U64)
    | RecordAcquisition(admin: Address, holder: Address)
    | Check(address: Address)

  const EMPTY: State := State(Roles(None, None), [], 0, 0, map[], map[], [], map[], map[], [])
  const PAGE_SIZE: nat := 200

  // ---- jurisdiction codes ----

  const SPACE: Byte := 32

  predicate IsAlpha(b: Byte) {
    65 <= b <= 90 || 97 <= b <= 122
  }

  function Upper(b: Byte): Byte {
    if 97 <= b <= 122 then b - 32 else b
  }

  function StripSpaces(raw: Code): Code {
    if raw == [] then []
    else StripSpaces(raw[..|raw| - 1]) + if raw[|raw| - 1] == SPACE then [] else [raw[|raw| - 1]]
  }

  /** Two letters once the spaces are gone, in upper case. */
  function Normalize(raw: Code): Result<Code> {
    var s := StripSpaces(raw);
    if |s| == 2 && IsAlpha(s[0]) && IsAlpha(s[1]) then Ok([Upper(s[0]), Upper(s[1])]) else Err(InvalidJurisdiction)
  }

  /** The bytes of a prefix come first among the bytes that are not spaces. */
  lemma {:induction false} StripPrefix(raw: Code, i: nat)
    requires i <= |raw|
    ensures |StripSpaces(raw[..i])| <= |StripSpaces(raw)|
    ensures StripSpaces(raw)[..|StripSpaces(raw[..i])|] == StripSpaces(raw[..i])
  {
    if i == |raw| {
      assert raw[..i] == raw;
    } else {
      var init := raw[..|raw| - 1];
      StripPrefix(init, i);
      assert init[..i] == raw[..i];
      assert StripSpaces(raw)[..|StripSpaces(raw[..i])|] == StripSpaces(init)[..|StripSpaces(raw[..i])|];
    }
  }

  /** What normalisation returns normalises to itself. */
  lemma NormalizeIdempotent(raw: Code)
    requires Normalize(raw).Ok?
    ensures Normalize(Normalize(raw).value) == Normalize(raw)
  {
    var code := Normalize(raw).value;
    assert code[..1][..0] == [] && code[..2] == code;
    assert StripSpaces(code[..1]) == [code[0]];
    assert StripSpaces(code) == [code[0], code[1]];
  }

  /** Every stored code is its own normal form. */
  ghost predicate Canonical(records: map<Address, KycRecord>) {
    forall a :: a in records ==> Normalize(records[a].jurisdiction) == Ok(records[a].jurisdiction)
  }

  // ---- the gate ----

  predicate Expired(r: KycRecord, now: U32) {
    r.expiresAt != 0 && now >= r.expiresAt
  }

  predicate IsBlocked(s: State, code: Code) {
    Get(s.blocked, code, false)
  }

  /** The first ledger at which the minimum holding period of `a` is over. */
  function Unlock(s: State, a: Address): U64 {
    if a in s.minHold && a in s.firstAcquired && s.minHold[a] > 0
    then Min(s.firstAcquired[a] as int + s.minHold[a], U64_MAX)
    else 0
  }

  /** Approved, not in a blocked jurisdiction, and at a ledger from `Unlock` up to but excluding the
      expiry. */
  predicate IsAllowed(s: State, now: U32, a: Address) {
    && a in s.records
    && var r := s.records[a];
       && r.status == Approved
       && !IsBlocked(s, r.jurisdiction)
       && Unlock(s, a) <= now && (r.expiresAt == 0 || now < r.expiresAt)
  }

  /** What a check of `a` publishes: that its record has expired, or that it is still held. */
  function GateEvents(s: State, now: U32, a: Address): seq<Event> {
    if a !in s.records || s.records[a].status != Approved then []
    else if Expired(s.records[a], now) then [RecordExpired(a, s.records[a].expiresAt)]
    else if !IsBlocked(s, s.records[a].jurisdiction) && now < Unlock(s, a)
    then [HoldFailed(a, s.firstAcquired[a], s.minHold[a], now)]
    else []
  }

  // ---- calls ----

  function Publish(s: State, e: Event): State {
    s.(events := s.events + [e])
  }

  /** An approval's event; a new address counts as one that had the same code, no expiry and no
      suspension. */
  function ApprovalEvent(records: map<Address, KycRecord>, e: Entry, code: Code): Event {
    if e.address in records
    then
      var previous := records[e.address];
      ApprovalMade(e.address, code, e.expiresAt,
                   previous.jurisdiction, previous.expiresAt, previous.status == Suspended)
    else ApprovalMade(e.address, code, e.expiresAt, code, 0, false)
  }

  /** The append cursor is at the end of the last page a u32 can number, or the counter is full. */
  predicate CannotAppend(appends: nat, count: U32) {
    appends == PAGE_SIZE * (U32_MAX + 1) || count == U32_MAX
  }

  function Approve(s: State, now: U32, e: Entry): Outcome<State, int> {
    if e.expiresAt != 0 && e.expiresAt <= now then Abort(InvalidExpiry)
    else
      var code := Normalize(e.jurisdiction);
      if code.Err? then Abort(code.error)
      else
        var t := Publish(s, ApprovalEvent(s.records, e, code.value))
                 .(records := s.records[e.address := KycRecord(e.address, Approved, code.value, now, e.expiresAt)]);
        if e.address in s.records then Commit(t, 0)
        else if CannotAppend(s.appends, s.count) then Abort(HostTrap)
        else Commit(t.(list := s.list + [e.address], appends := s.appends + 1, count := s.count + 1), 0)
  }

  function ApproveAll(s: State, now: U32, entries: seq<Entry>): Outcome<State, int>
    decreases |entries|
  {
    if entries == [] then Commit(s, 0)
    else
      match Approve(s, now, entries[0])
      case Abort(e) => Abort(e)
      case Commit(t, _) => ApproveAll(t, now, entries[1..])
  }

  function SetStatus(s: State, a: Address, status: Status): State
    requires a in s.records
  {
    s.(records := s.records[a := s.records[a].(status := status)])
  }

  /** The examined addresses that a prune drops: those without a record or with an expired one. */
  function Gone(records: map<Address, KycRecord>, now: U32, xs: seq<Address>): set<Address> {
    set a | a in xs && (a !in records || Expired(records[a], now))
  }

  /** The events of examining `xs`: one for each expired record, in order. */
  function Expiries(records: map<Address, KycRecord>, now: U32, xs: seq<Address>): seq<Event> {
    if xs == [] then []
    else
      var a := xs[|xs| - 1];
      Expiries(records, now, xs[..|xs| - 1])
      + if a in records && Expired(records[a], now) then [RecordExpired(a, records[a].expiresAt)] else []
  }

  /** How many entries a prune bounded by `max` examines; zero means no bound. */
  function Examined(list: seq<Address>, max: U32): nat {
    if max == 0 then |list| else Min(max, |list|)
  }

  /** Prunes the examined front of the list and leaves the rest; the value is the number of entries
      left unexamined. The counter is not touched. */
  function PruneOnce(s: State, now: U32, max: U32): (o: Outcome<State, int>)
    ensures o.Commit?
  {
    var k := Examined(s.list, max);
    var gone := Gone(s.records, now, s.list[..k]);
    Commit(s.(list := FilterOut(s.list[..k], gone) + s.list[k..], records := s.records - gone,
              events := s.events + Expiries(s.records, now, s.list[..k])), |s.list| - k)
  }

  function CallOutcome(s: State, env: Env, call: Call): Outcome<State, int> {
    match call
    case Role(role) =>
      (match RoleOutcome(s.roles, env.auth, role)
       case Abort(e) => Abort(e)
       case Commit(roles, e) => Commit(Publish(s, Handover(e)).(roles := roles), 0))
    case Check(a) =>
      Commit(s.(events := s.events + GateEvents(s, env.now, a)), if IsAllowed(s, env.now, a) then 1 else 0)
    case _ =>
      var e := AdminError(s.roles, env.auth, call.admin);
      if e.Some? then Abort(e.value) else AdminCall(s, env.now, call)
  }

  function AdminCall(s: State, now: U32, call: Call): Outcome<State, int>
    requires !call.Role? && !call.Check?
  {
    match call
    case Add(_, entry) => Approve(s, now, entry)
    case AddBatch(_, entries) => ApproveAll(s, now, entries)
    case Suspend(_, a) =>
      if a !in s.records then Abort(RecordNotFound)
      else Commit(Publish(SetStatus(s, a, Suspended), SuspensionMade(a)), 0)
    case Reinstate(_, a) =>
      if a !in s.records then Abort(RecordNotFound)
      else if s.records[a].status != Suspended then Abort(NotSuspended)
      else Commit(Publish(SetStatus(s, a, Approved), ReinstatementMade(a)), 0)
    case Remove(_, a) =>
      if a !in s.records then Abort(RecordNotFound)
      else
        Commit(Publish(s, RemovalMade(a)).(
                  records := s.records - {a}, list := FilterOut(s.list, {a}),
                  count := if s.count == 0 then 0 else s.count - 1), 0)
    case Prune(_, max) => PruneOnce(s, now, max)
    case Block(_, raw) =>
      var code := Normalize(raw);
      if code.Err? then Abort(code.error)
      else
        Commit(Publish(s, JurisdictionBlocked(code.value)).(
                  blocked := s.blocked[code.value := true],
                  blockedList := if IsBlocked(s, code.value) then s.blockedList else s.blockedList + [code.value]), 0)
    case Unblock(_, raw) =>
      var code := Normalize(raw);
      if code.Err? then Abort(code.error)
      else
        Commit(Publish(s, JurisdictionUnblocked(code.value)).(
                  blocked := s.blocked - {code.value}, blockedList := FilterOut(s.blockedList, {code.value})), 0)
    case SetMinHold(_, a, ledgers) =>
      Commit(Publish(s, MinHoldSet(a, ledgers)).(
                minHold := if ledgers == 0 then s.minHold - {a} else s.minHold[a := ledgers]), 0)
    case RecordAcquisition(_, a) =>
      Commit(if a in s.firstAcquired then s
             else Publish(s, AcquisitionRecorded(a, now)).(firstAcquired := s.firstAcquired[a := now]), 0)
  }

  datatype Tx = Tx(env: Env, call: Call)

  function Step(s: State, tx: Tx): State {
    CallOutcome(s, tx.env, tx.call).After(s)
  }

  function Run(s: State, txs: seq<Tx>): State
    decreases |txs|
  {
    if txs == [] then s else Run(Step(s, txs[0]), txs[1..])
  }
}
