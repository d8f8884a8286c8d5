/** The asset token and the compliance contracts together: every movement asks the gate that the token
    currently points at, at the current ledger. */
module System {
  import opened Soroban
  import Token = AssetToken
  import TokenProofs = AssetTokenProofs
  import TokenEffects = AssetTokenEffects
  import Compliance
  import ComplianceProofs

  datatype World = World(token: Token.Ledger, gates: map<Address, Compliance.State>, now: U32)

  datatype Action =
    | CallToken(auth: set<Address>, call: Token.Call)
    | CallCompliance(at: Address, auth: set<Address>, complianceCall: Compliance.Call)
    | LedgersPass(count: nat)

  /** Which addresses each compliance contract allows now. */
  function Gate(w: World): set<(Address, Address)> {
    set c, a | c in w.gates && a in w.gates[c].records && Compliance.IsAllowed(w.gates[c], w.now, a) :: (c, a)
  }

  function Step(w: World, action: Action): World {
    match action
    case CallToken(auth, call) => w.(token := Token.Step(w.token, Token.Tx(Token.Env(w.now, auth, Gate(w)), call)))
    case CallCompliance(at, auth, call) =>
      if at in w.gates
      then w.(gates := w.gates[at := Compliance.Step(w.gates[at], Compliance.Tx(Compliance.Env(w.now, auth), call))])
      else w
    case LedgersPass(n) => w.(now := Min(w.now as int + n, U32_MAX))
  }

  function Run(w: World, actions: seq<Action>): World
    decreases |actions|
  {
    if actions == [] then w else Run(Step(w, actions[0]), actions[1..])
  }

  /** The token's current gate denies `a`. */
  ghost predicate Denied(w: World, a: Address) {
    && w.token.meta.Some?
    && var c := w.token.meta.value.compliance;
       c in w.gates ==> !Compliance.IsAllowed(w.gates[c], w.now, a)
  }

  ghost predicate DeniedThroughout(w: World, actions: seq<Action>, a: Address)
    decreases |actions|
  {
    actions == [] || (Denied(w, a) && DeniedThroughout(Step(w, actions[0]), actions[1..], a))
  }

  lemma StepFreezesDenied(w: World, action: Action, a: Address)
    requires Denied(w, a)
    ensures Token.Balance(Step(w, action).token, a) == Token.Balance(w.token, a)
  {
    if action.CallToken? {
      hide Token.Step, Compliance.IsAllowed;
      var tx := Token.Tx(Token.Env(w.now, action.auth, Gate(w)), action.call);
      assert TokenProofs.Denied(w.token, tx.env, a);
      TokenProofs.StepFreezesDenied(w.token, tx, a);
    }
  }

  /** Over any run in which the gate the token points at denies an address, its balance is constant. */
  lemma {:induction false} DeniedHolderIsFrozen(w: World, actions: seq<Action>, a: Address)
    requires DeniedThroughout(w, actions, a)
    ensures Token.Balance(Run(w, actions).token, a) == Token.Balance(w.token, a)
    decreases |actions|
  {
    hide Step, Denied;
    if actions != [] {
      StepFreezesDenied(w, actions[0], a);
      DeniedHolderIsFrozen(Step(w, actions[0]), actions[1..], a);
    }
  }

  // ---- from a suspension, removal or expiry until it is lifted ----

  /** `a` has no record, one that is not approved, or one that has expired. */
  ghost predicate ShutOut(s: Compliance.State, now: U32, a: Address) {
    a !in s.records || s.records[a].status != Compliance.Approved || Compliance.Expired(s.records[a], now)
  }

  /** The actions that let `a` move again: a committed approval or reinstatement of it at the token's
      gate `c`, or a committed change of the token's gate. */
  predicate Lifts(w: World, action: Action, c: Address, a: Address) {
    match action
    case CallToken(auth, call) =>
      call.SetCompliance? && Token.CallOutcome(w.token, Token.Env(w.now, auth, Gate(w)), call).Commit?
    case CallCompliance(at, auth, call) =>
      && at == c && at in w.gates && ComplianceProofs.Lifts(call, a)
      && Compliance.CallOutcome(w.gates[at], Compliance.Env(w.now, auth), call).Commit?
    case LedgersPass(_) => false
  }

  /** No action of the run lifts the denial; attempts that fail are allowed. */
  predicate NeverLifted(w: World, actions: seq<Action>, c: Address, a: Address)
    decreases |actions|
  {
    actions == [] || (!Lifts(w, actions[0], c, a) && NeverLifted(Step(w, actions[0]), actions[1..], c, a))
  }

  /** No other compliance call, and no passing of time, lets `a` back in. */
  lemma ComplianceKeepsShutOut(s: Compliance.State, tx: Compliance.Tx, now: U32, a: Address)
    requires ShutOut(s, now, a)
    requires ComplianceProofs.Lifts(tx.call, a) ==> Compliance.CallOutcome(s, tx.env, tx.call).Abort?
    ensures ShutOut(Compliance.Step(s, tx), now, a)
  {
    hide Compliance.Normalize, Compliance.ApproveAll, Compliance.GateEvents, Compliance.IsAllowed, Compliance.Expiries,
         Compliance.ApprovalEvent;
    if tx.call.AddBatch? && !ComplianceProofs.Lifts(tx.call, a) {
      ComplianceProofs.ApproveAllFrame(s, tx.env.now, tx.call.entries, a);
    }
  }

  lemma TokenKeepsGate(s: Token.Ledger, tx: Token.Tx)
    requires s.meta.Some?
    requires tx.call.SetCompliance? ==> Token.CallOutcome(s, tx.env, tx.call).Abort?
    ensures var t := Token.Step(s, tx); t.meta.Some? && t.meta.value.compliance == s.meta.value.compliance
  {
    if tx.call.TransferBatch? {
      TokenProofs.DeliverAllKeepsMeta(s, tx.env, tx.call.from, tx.call.transfers);
    }
  }

  ghost predicate ShutOutHere(w: World, c: Address, a: Address) {
    w.token.meta.Some? && w.token.meta.value.compliance == c && c in w.gates && ShutOut(w.gates[c], w.now, a)
  }

  lemma StepKeepsShutOut(w: World, action: Action, c: Address, a: Address)
    requires ShutOutHere(w, c, a) && !Lifts(w, action, c, a)
    ensures ShutOutHere(Step(w, action), c, a)
  {
    hide Token.Step, Compliance.Step;
    match action {
      case CallToken(auth, call) => TokenKeepsGate(w.token, Token.Tx(Token.Env(w.now, auth, Gate(w)), call));
      case CallCompliance(at, auth, call) =>
        if at == c {
          ComplianceKeepsShutOut(w.gates[c], Compliance.Tx(Compliance.Env(w.now, auth), call), w.now, a);
        }
      case LedgersPass(_) =>
    }
  }

  /** From the moment a holder is suspended, removed or expired at the token's compliance contract until
      an approval or reinstatement of that holder or a change of gate commits, no sequence of calls to
      either contract, whoever signs them, moves its balance, and it stays shut out. */
  lemma {:induction false} ShutOutHolderIsFrozen(w: World, actions: seq<Action>, c: Address, a: Address)
    requires ShutOutHere(w, c, a)
    requires NeverLifted(w, actions, c, a)
    ensures ShutOutHere(Run(w, actions), c, a)
    ensures Token.Balance(Run(w, actions).token, a) == Token.Balance(w.token, a)
    decreases |actions|
  {
    hide Step, Lifts;
    if actions != [] {
      assert Denied(w, a);
      StepFreezesDenied(w, actions[0], a);
      StepKeepsShutOut(w, actions[0], c, a);
      ShutOutHolderIsFrozen(Step(w, actions[0]), actions[1..], c, a);
    }
  }

  /** Suspending or removing a holder shuts it out at once. */
  lemma SuspensionShutsOut(s: Compliance.State, env: Compliance.Env, admin: Address, a: Address, now: U32)
    ensures var o := Compliance.CallOutcome(s, env, Compliance.Suspend(admin, a));
            o.Commit? ==> ShutOut(o.state, now, a)
    ensures var o := Compliance.CallOutcome(s, env, Compliance.Remove(admin, a));
            o.Commit? ==> ShutOut(o.state, now, a)
  {
  }

  // ---- what the gate lets through ----

  /** The token is allowed what a check at that compliance contract would answer now, and nothing else. */
  lemma GateIsCheck(w: World, c: Address, a: Address, auth: set<Address>)
    ensures (c, a) in Gate(w) <==>
              && c in w.gates
              && Compliance.CallOutcome(w.gates[c], Compliance.Env(w.now, auth), Compliance.Check(a)).Result() == Ok(1)
  {
    hide Compliance.GateEvents, Compliance.Unlock, Compliance.IsBlocked;
  }

  /** A check of `a` at the token's current gate would answer 1. */
  ghost predicate Passes(w: World, a: Address) {
    && w.token.meta.Some? && w.token.meta.value.compliance in w.gates
    && var gate := w.gates[w.token.meta.value.compliance];
       Compliance.CallOutcome(gate, Compliance.Env(w.now, {}), Compliance.Check(a)).Result() == Ok(1)
  }

  /** With the token in any reachable state, a transfer commits exactly if the sender signed, the token is not
      paused, the gate it points at passes both sides, and the sender has the amount; it then moves the amount. */
  lemma TransferThroughGate(w: World, txs: seq<Token.Tx>, auth: set<Address>, from: Address, to: Address, amount: I128)
    requires w.token == Token.Run(Token.EMPTY, txs)
    ensures var t := Step(w, CallToken(auth, Token.Transfer(from, to, amount))).token;
            var goes := from in auth && !TokenEffects.Stopped(w.token) && Passes(w, from) && Passes(w, to)
                        && 0 < amount <= Token.Balance(w.token, from);
            if goes then TokenEffects.Moved(w.token, t, from, to, amount) && |t.events| == |w.token.events| + 1
            else t == w.token
  {
    hide Token.Run, Compliance.CallOutcome, TokenEffects.Moved, Gate, Token.CallOutcome;
    TokenEffects.TransferEffect(txs, Token.Env(w.now, auth, Gate(w)), from, to, amount);
    if w.token.meta.Some? {
      GateIsCheck(w, w.token.meta.value.compliance, from, {});
      GateIsCheck(w, w.token.meta.value.compliance, to, {});
    }
  }

  /** Ledgers pass up to the last a u32 can number, and change nothing; a call changes its own contract alone. */
  lemma StepEffect(w: World, action: Action)
    ensures var t := Step(w, action);
            match action
            case LedgersPass(n) => t == w.(now := if w.now + n <= U32_MAX then w.now + n else U32_MAX)
            case CallToken(auth, call) => t.gates == w.gates && t.now == w.now
            case CallCompliance(at, auth, call) =>
              && t.token == w.token && t.now == w.now && t.gates.Keys == w.gates.Keys
              && forall c :: c in w.gates ==>
                   var tx := Compliance.Tx(Compliance.Env(w.now, auth), call);
                   t.gates[c] == if c == at then Compliance.Step(w.gates[c], tx) else w.gates[c]
  {
    hide Token.Step, Compliance.Step, Gate;
  }

  /** When the ledger of its expiry has come, a record shuts its holder out. */
  lemma ExpiryShutsOut(w: World, c: Address, a: Address, n: nat)
    requires c in w.gates && a in w.gates[c].records
    requires 0 < w.gates[c].records[a].expiresAt <= w.now + n
    ensures var t := Step(w, LedgersPass(n)); c in t.gates && ShutOut(t.gates[c], t.now, a)
  {
  }
}
