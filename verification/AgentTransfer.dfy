/** The two-party transfer protocol: `buildOutgoingTransfer`, `validateIncomingTransfer` and
    `acceptIncomingTransfer` of `packages/stackflow-agent/src/agent-service.js`. */
module AgentTransfer {
  import opened Wrappers
  import opened Octets
  import opened Principals
  import opened NodeTypes
  import opened AgentTypes

  // ---------- Building ----------

  datatype TransferArgs = TransferArgs(
    amount: nat, actor: Option<Principal>, action: nat, secret: Option<Bytes>, validAfter: Option<nat>,
    beneficialOnly: bool, baseMyBalance: Option<nat>, baseTheirBalance: Option<nat>, baseNonce: Option<nat>)

  /** An outgoing transfer is a state that nobody has signed yet. */
  function BuildOutgoingTransfer(tracked: TrackedPipes, states: AgentStates, pipeId: PipeRef, args: TransferArgs)
    : Result<AgentState, string>
  {
    if pipeId !in tracked then Err("pipe is not tracked")
    else
      var t := tracked[pipeId];
      var ref := StateRef(pipeId, t.localPrincipal);
      var (currentMy, currentTheir, currentNonce) :=
        if ref in states then (states[ref].myBalance, states[ref].theirBalance, states[ref].nonce)
        else (args.baseMyBalance.GetOr(0), args.baseTheirBalance.GetOr(0), args.baseNonce.GetOr(0));
      if args.amount == 0 then Err("amount must be > 0")
      else if currentMy < args.amount then Err("insufficient local balance for transfer")
      else if args.actor.GetOr(t.localPrincipal) != t.localPrincipal then
          Err("actor must match tracked local principal")
      else Ok(AgentState(
                t.contractId, t.pipeKey, t.localPrincipal, t.counterpartyPrincipal, t.token,
                currentMy - args.amount, currentTheir + args.amount, currentNonce + 1, args.action, t.localPrincipal,
                [], [], args.secret, args.validAfter, args.beneficialOnly, 0))
  }

  // ---------- Validating ----------

  /** What arrives; absent fields are `None`. */
  datatype Payload = Payload(
    contractId: Option<ContractId>, pipeId: Option<PipeRef>, pipeKey: Option<PipeKey>,
    forPrincipal: Principal, withPrincipal: Principal, token: Option<Principal>, theirSignature: Option<Bytes>,
    nonce: Option<nat>, action: Option<nat>, myBalance: Option<nat>, theirBalance: Option<nat>, actor: Principal,
    secret: Option<Bytes>, validAfter: Option<nat>, beneficialOnly: bool)

  datatype Reason =
    | PipeNotTracked | ContractMismatch | PipeIdMismatch | PipeKeyMismatch | ForPrincipalMismatch
    | WithPrincipalMismatch | TokenMismatch | MissingTheirSignature | InvalidPayload | ActorMissing | ActorMismatch
    | NonceTooLow | NonceNotSequential | BalanceSumMismatch | BalanceDirectionInvalid

  /** Comparison with the latest stored state of the receiver. */
  function AgainstLatest(latest: AgentState, nonce: nat, myBalance: nat, theirBalance: nat): Option<Reason> {
    if nonce <= latest.nonce then Some(NonceTooLow)
    else if nonce != latest.nonce + 1 then Some(NonceNotSequential)
    else if myBalance + theirBalance != latest.myBalance + latest.theirBalance then Some(BalanceSumMismatch)
    else if myBalance < latest.myBalance || theirBalance > latest.theirBalance then Some(BalanceDirectionInvalid)
    else None
  }

  /** The state to countersign, or why there is none. */
  function ValidateIncomingTransfer(tracked: TrackedPipes, states: AgentStates, pipeId: PipeRef, data: Payload)
    : Result<AgentState, Reason>
  {
    if pipeId !in tracked then Err(PipeNotTracked)
    else
      var t := tracked[pipeId];
      var contractId := data.contractId.GetOr(t.contractId);
      var ref := StateRef(pipeId, t.localPrincipal);
      if contractId != t.contractId then Err(ContractMismatch)
      else if data.pipeId.Some? && data.pipeId.value != pipeId then Err(PipeIdMismatch)
      else if data.pipeKey.Some? && BuildPipeId(contractId, data.pipeKey.value) != pipeId then Err(PipeKeyMismatch)
      else if data.forPrincipal != t.localPrincipal then Err(ForPrincipalMismatch)
      else if data.withPrincipal != t.counterpartyPrincipal then Err(WithPrincipalMismatch)
      else if data.token.Some? && data.token != t.token then Err(TokenMismatch)
      else if data.theirSignature.None? then Err(MissingTheirSignature)
      else if data.nonce.None? || data.myBalance.None? || data.theirBalance.None? then Err(InvalidPayload)
      else if data.actor == "" then Err(ActorMissing)
      else if data.actor != t.counterpartyPrincipal then Err(ActorMismatch)
      else
        var problem := if ref in states
                       then AgainstLatest(states[ref], data.nonce.value, data.myBalance.value, data.theirBalance.value)
                       else None;
        if problem.Some? then Err(problem.value)
        else Ok(AgentState(
                  contractId, t.pipeKey, data.forPrincipal, data.withPrincipal, t.token,
                  data.myBalance.value, data.theirBalance.value, data.nonce.value, data.action.GetOr(ACTION_TRANSFER),
                  data.actor, [], data.theirSignature.value, data.secret, data.validAfter, data.beneficialOnly, 0))
  }

  // ---------- The signed message ----------

  datatype Message = Message(
    principal1: Principal, principal2: Principal, token: Option<Principal>, balance1: nat, balance2: nat,
    nonce: nat, action: nat, actor: Principal, hashedSecret: Option<Bytes>, validAfter: Option<nat>)

  /** balance-1 belongs to principal-1 of the pipe key, whichever side signs. */
  function MessageOf(s: AgentState): Message {
    var localFirst := s.pipeKey.principal1 == s.forPrincipal;
    Message(
      s.pipeKey.principal1, s.pipeKey.principal2, s.pipeKey.token,
      if localFirst then s.myBalance else s.theirBalance,
      if localFirst then s.theirBalance else s.myBalance,
      s.nonce, s.action, s.actor, s.secret, s.validAfter)
  }

  // ---------- One transfer ----------

  datatype Agent = Agent(tracked: TrackedPipes, states: AgentStates)

  function Latest(a: Agent, pipeId: PipeRef): AgentState
    requires HasState(a, pipeId)
  {
    a.states[StateRef(pipeId, a.tracked[pipeId].localPrincipal)]
  }

  predicate HasState(a: Agent, pipeId: PipeRef) {
    pipeId in a.tracked && StateRef(pipeId, a.tracked[pipeId].localPrincipal) in a.states
  }

  /** The outgoing transfer with the sender's signature, as the receiver is told about it. */
  function Delivered(out: AgentState, signature: Bytes): Payload {
    Payload(
      Some(out.contractId), Some(BuildPipeId(out.contractId, out.pipeKey)), Some(out.pipeKey),
      out.withPrincipal, out.forPrincipal, out.token, Some(signature),
      Some(out.nonce), Some(out.action), Some(out.theirBalance), Some(out.myBalance), out.actor,
      out.secret, out.validAfter, out.beneficialOnly)
  }

  /** `acceptIncomingTransfer`: validate, countersign, store. */
  function Accept(a: Agent, pipeId: PipeRef, data: Payload, mySignature: Bytes, now: int): (Agent, Option<AgentState>) {
    match ValidateIncomingTransfer(a.tracked, a.states, pipeId, data)
    case Err(_) => (a, None)
    case Ok(s) =>
      var signed := s.(mySignature := mySignature, updatedAt := now);
      (a.(states := UpsertAgentState(a.states, signed).0), Some(signed))
  }

  /** The sender records its transfer once it has the countersignature. */
  function Record(a: Agent, out: AgentState, mySignature: Bytes, theirSignature: Bytes, now: int): Agent {
    a.(states := UpsertAgentState(
         a.states, out.(mySignature := mySignature, theirSignature := theirSignature, updatedAt := now)).0)
  }

  /** The two agents track one pipe from its two ends. */
  ghost predicate Facing(a: Agent, b: Agent, pipeId: PipeRef) {
    && pipeId in a.tracked && pipeId in b.tracked
    && var s, t := a.tracked[pipeId], b.tracked[pipeId];
    && pipeId == BuildPipeId(s.contractId, s.pipeKey) && pipeId == BuildPipeId(t.contractId, t.pipeKey)
    && s.localPrincipal == t.counterpartyPrincipal && s.counterpartyPrincipal == t.localPrincipal
    && s.localPrincipal != t.localPrincipal && s.localPrincipal != "" && t.localPrincipal != ""
    && {s.pipeKey.principal1, s.pipeKey.principal2} == {s.localPrincipal, t.localPrincipal}
    && s.token == t.token
  }

  /** They do, and their latest states are mirror images. */
  ghost predicate Mirrored(a: Agent, b: Agent, pipeId: PipeRef) {
    && HasState(a, pipeId) && HasState(b, pipeId) && Facing(a, b, pipeId)
    && Latest(a, pipeId).myBalance == Latest(b, pipeId).theirBalance
    && Latest(a, pipeId).theirBalance == Latest(b, pipeId).myBalance
    && Latest(a, pipeId).nonce == Latest(b, pipeId).nonce
  }

  datatype TransferSignatures = TransferSignatures(sender: Bytes, receiver: Bytes)

  /** `s` is the transfer that `sender` was asked for: its action, lock, valid-after height and policy. */
  predicate Carries(s: AgentState, args: TransferArgs, sender: Principal) {
    && s.action == args.action && s.secret == args.secret && s.validAfter == args.validAfter
    && s.beneficialOnly == args.beneficialOnly && s.actor == sender
  }

  /** `s` is about the tracked pipe, from the side of its local principal. */
  predicate IsAbout(s: AgentState, t: TrackedPipe) {
    && s.contractId == t.contractId && s.pipeKey == t.pipeKey && s.token == t.token
    && s.forPrincipal == t.localPrincipal && s.withPrincipal == t.counterpartyPrincipal
  }

  predicate SaysSo(m: Message, args: TransferArgs, sender: Principal) {
    m.action == args.action && m.hashedSecret == args.secret && m.validAfter == args.validAfter && m.actor == sender
  }

  /** Every transfer that the sender can build is accepted, both sides sign the same message, and the
      stores are mirror images again, one nonce later, with the amount moved and the total unchanged. */
  lemma BuiltTransferIsAccepted(
    a: Agent, b: Agent, pipeId: PipeRef, args: TransferArgs, signatures: TransferSignatures, now: int)
    requires Mirrored(a, b, pipeId)
    requires BuildOutgoingTransfer(a.tracked, a.states, pipeId, args).Ok?
    ensures var out := BuildOutgoingTransfer(a.tracked, a.states, pipeId, args).value;
            var (b', accepted) := Accept(b, pipeId, Delivered(out, signatures.sender), signatures.receiver, now);
            var a' := Record(a, out, signatures.sender, signatures.receiver, now);
            var sender := a.tracked[pipeId].localPrincipal;
            && accepted.Some? && MessageOf(accepted.value) == MessageOf(out) && SaysSo(MessageOf(out), args, sender)
            && IsAbout(out, a.tracked[pipeId]) && IsAbout(accepted.value, b.tracked[pipeId])
            && Mirrored(a', b', pipeId)
            && Carries(Latest(a', pipeId), args, sender) && Carries(Latest(b', pipeId), args, sender)
            && Latest(a', pipeId).myBalance == Latest(a, pipeId).myBalance - args.amount
            && Latest(b', pipeId).myBalance == Latest(b, pipeId).myBalance + args.amount
            && Latest(a', pipeId).nonce == Latest(a, pipeId).nonce + 1
            && Latest(a', pipeId).mySignature == Latest(b', pipeId).theirSignature == signatures.sender
            && Latest(a', pipeId).theirSignature == Latest(b', pipeId).mySignature == signatures.receiver
  {
  }

  /** The first transfer of a pipe without states is accepted too, and starts the mirror at the base
      balances that the sender was given. */
  lemma FirstTransferStartsTheMirror(
    a: Agent, b: Agent, pipeId: PipeRef, args: TransferArgs, signatures: TransferSignatures, now: int)
    requires Facing(a, b, pipeId) && !HasState(a, pipeId) && !HasState(b, pipeId)
    requires BuildOutgoingTransfer(a.tracked, a.states, pipeId, args).Ok?
    ensures var out := BuildOutgoingTransfer(a.tracked, a.states, pipeId, args).value;
            var (b', accepted) := Accept(b, pipeId, Delivered(out, signatures.sender), signatures.receiver, now);
            var a' := Record(a, out, signatures.sender, signatures.receiver, now);
            var sender := a.tracked[pipeId].localPrincipal;
            && accepted.Some? && MessageOf(accepted.value) == MessageOf(out) && SaysSo(MessageOf(out), args, sender)
            && IsAbout(out, a.tracked[pipeId]) && IsAbout(accepted.value, b.tracked[pipeId])
            && Mirrored(a', b', pipeId)
            && Carries(Latest(a', pipeId), args, sender) && Carries(Latest(b', pipeId), args, sender)
            && Latest(a', pipeId).myBalance + args.amount == args.baseMyBalance.GetOr(0)
            && Latest(b', pipeId).myBalance == args.baseTheirBalance.GetOr(0) + args.amount
            && Latest(a', pipeId).nonce == args.baseNonce.GetOr(0) + 1
  {
  }

  /** A positive amount within the balance, stored or else given, in the agent's own name. */
  predicate Affordable(a: Agent, pipeId: PipeRef, args: TransferArgs) {
    && pipeId in a.tracked
    && 0 < args.amount <= (if HasState(a, pipeId) then Latest(a, pipeId).myBalance else args.baseMyBalance.GetOr(0))
    && args.actor in {None, Some(a.tracked[pipeId].localPrincipal)}
  }

  lemma BuildSucceedsIff(a: Agent, pipeId: PipeRef, args: TransferArgs)
    ensures BuildOutgoingTransfer(a.tracked, a.states, pipeId, args).Ok? <==> Affordable(a, pipeId, args)
  {
  }

  /** `data` is about the tracked pipe and comes from its counterparty; what may be omitted is absent or right. */
  predicate Addressed(data: Payload, pipeId: PipeRef, t: TrackedPipe) {
    && data.forPrincipal == t.localPrincipal && data.withPrincipal == t.counterpartyPrincipal
    && data.actor == t.counterpartyPrincipal && data.actor != "" && data.theirSignature.Some?
    && data.contractId in {None, Some(t.contractId)} && data.pipeId in {None, Some(pipeId)}
    && data.pipeKey in {None, Some(t.pipeKey)} && data.token in {None, t.token}
  }

  /** It tells about a transfer of `amount` that follows `latest`. */
  predicate Tells(data: Payload, latest: AgentState, amount: nat) {
    && amount <= latest.theirBalance && data.nonce == Some(latest.nonce + 1)
    && data.myBalance == Some(latest.myBalance + amount) && data.theirBalance == Some(latest.theirBalance - amount)
  }

  /** With a stored state, exactly the transfers that the counterparty can afford are accepted, a transfer of
      nothing included; without one, any complete payload. The accepted state is what the counterparty
      would have delivered, seen from this side. */
  lemma AcceptedIff(a: Agent, pipeId: PipeRef, data: Payload)
    requires pipeId in a.tracked ==> pipeId == BuildPipeId(a.tracked[pipeId].contractId, a.tracked[pipeId].pipeKey)
    ensures var v := ValidateIncomingTransfer(a.tracked, a.states, pipeId, data);
            v.Ok? <==>
            && pipeId in a.tracked && Addressed(data, pipeId, a.tracked[pipeId])
            && if HasState(a, pipeId) then exists amount :: Tells(data, Latest(a, pipeId), amount)
               else data.nonce.Some? && data.myBalance.Some? && data.theirBalance.Some?
    ensures var v := ValidateIncomingTransfer(a.tracked, a.states, pipeId, data);
            v.Ok? ==>
            var t, back := a.tracked[pipeId], Delivered(Turned(v.value), v.value.theirSignature);
            && v.value.contractId == t.contractId && v.value.pipeKey == t.pipeKey && v.value.token == t.token
            && Addressed(back, pipeId, t) && back.nonce == data.nonce
            && back.myBalance == data.myBalance && back.theirBalance == data.theirBalance
            && back.action == Some(data.action.GetOr(ACTION_TRANSFER)) && back.actor == data.actor
            && back.secret == data.secret && back.validAfter == data.validAfter
            && back.beneficialOnly == data.beneficialOnly && back.theirSignature == data.theirSignature
  {
    var v := ValidateIncomingTransfer(a.tracked, a.states, pipeId, data);
    if v.Ok? && HasState(a, pipeId) {
      assert Tells(data, Latest(a, pipeId), v.value.myBalance - Latest(a, pipeId).myBalance);
    }
  }

  /** A state seen from the other side. */
  function Turned(s: AgentState): AgentState {
    s.(forPrincipal := s.withPrincipal, withPrincipal := s.forPrincipal,
    myBalance := s.theirBalance, theirBalance := s.myBalance)
  }

  // ---------- Agent and node sign the same tuple ----------

  /** The state as a signing request of its owner. */
  function ViewOf(s: AgentState): View {
    View(s.token, s.forPrincipal, s.withPrincipal, s.myBalance, s.theirBalance, s.nonce, s.action, s.actor, s.secret,
        s.validAfter)
  }

  function AsTuple(m: Message): SignedTuple {
    SignedTuple(m.token, m.principal1, m.principal2, m.balance1, m.balance2, m.nonce, m.action, m.actor,
        m.hashedSecret, m.validAfter)
  }

  /** For a canonical pipe key the agent shows its wallet exactly the tuple that the node signs for the same
      state, unless the token is an empty text, which the agent takes for a token and the node for none. */
  lemma MessageIsTheSignedTupleIff(ser: Principal -> Bytes, s: AgentState)
    requires CanonicalPipeKey(ser, s.token, s.forPrincipal, s.withPrincipal) == Ok(s.pipeKey)
    ensures BuildSignedTuple(ser, ViewOf(s)) == Ok(AsTuple(MessageOf(s))) <==> s.token != Some("")
  {
  }

  // ---------- Runs ----------

  datatype Turn = Turn(fromA: bool, args: TransferArgs, signatures: TransferSignatures, now: int)

  datatype Pair = Pair(a: Agent, b: Agent, transfers: nat)

  /** One side builds and, if that works, the other accepts and the first records. */
  function Exchange(p: Pair, pipeId: PipeRef, t: Turn): Pair {
    var (sender, receiver) := if t.fromA then (p.a, p.b) else (p.b, p.a);
    match BuildOutgoingTransfer(sender.tracked, sender.states, pipeId, t.args)
    case Err(_) => p
    case Ok(out) =>
      var (receiver', accepted) := Accept(receiver, pipeId, Delivered(out, t.signatures.sender), t.signatures.receiver,
          t.now);
      if accepted.None? then p
      else
        var sender' := Record(sender, out, t.signatures.sender, t.signatures.receiver, t.now);
        if t.fromA then Pair(sender', receiver', p.transfers + 1) else Pair(receiver', sender', p.transfers + 1)
  }

  function ExchangeAll(p: Pair, pipeId: PipeRef, turns: seq<Turn>): Pair {
    if turns == [] then p else Exchange(ExchangeAll(p, pipeId, turns[..|turns| - 1]), pipeId, turns[|turns| - 1])
  }

  function TotalOf(a: Agent, pipeId: PipeRef): nat
    requires HasState(a, pipeId)
  {
    Latest(a, pipeId).myBalance + Latest(a, pipeId).theirBalance
  }

  lemma TurnKeepsMirror(p: Pair, pipeId: PipeRef, t: Turn)
    requires Mirrored(p.a, p.b, pipeId)
    ensures var q := Exchange(p, pipeId, t);
            && Mirrored(q.a, q.b, pipeId)
            && TotalOf(q.a, pipeId) == TotalOf(p.a, pipeId)
            && Latest(q.a, pipeId).nonce == Latest(p.a, pipeId).nonce + (q.transfers - p.transfers)
            && q.transfers == p.transfers + if Affordable(if t.fromA then p.a else p.b, pipeId, t.args) then 1 else 0
  {
    var (sender, receiver) := if t.fromA then (p.a, p.b) else (p.b, p.a);
    BuildSucceedsIff(sender, pipeId, t.args);
    if BuildOutgoingTransfer(sender.tracked, sender.states, pipeId, t.args).Ok? {
      BuiltTransferIsAccepted(sender, receiver, pipeId, t.args, t.signatures, t.now);
    }
  }

  /** In every run of alternating or repeated transfers the stores stay mirror images, the total is
      constant, and the nonce counts the transfers. */
  lemma {:induction false} RunsStayMirrored(p: Pair, pipeId: PipeRef, turns: seq<Turn>)
    requires Mirrored(p.a, p.b, pipeId)
    ensures var q := ExchangeAll(p, pipeId, turns);
            && Mirrored(q.a, q.b, pipeId)
            && TotalOf(q.a, pipeId) == TotalOf(p.a, pipeId)
            && p.transfers <= q.transfers <= p.transfers + |turns|
            && Latest(q.a, pipeId).nonce == Latest(p.a, pipeId).nonce + (q.transfers - p.transfers)
  {
    if turns != [] {
      RunsStayMirrored(p, pipeId, turns[..|turns| - 1]);
      TurnKeepsMirror(ExchangeAll(p, pipeId, turns[..|turns| - 1]), pipeId, turns[|turns| - 1]);
    }
  }

  function Sender(p: Pair, t: Turn): Agent {
    if t.fromA then p.a else p.b
  }

  function Receiver(p: Pair, t: Turn): Agent {
    if t.fromA then p.b else p.a
  }

  /** Turn `i` went through. */
  predicate GoesThrough(p: Pair, pipeId: PipeRef, turns: seq<Turn>, i: nat)
    requires i < |turns|
  {
    Affordable(Sender(ExchangeAll(p, pipeId, turns[..i]), turns[i]), pipeId, turns[i].args)
  }

  /** Both stores hold what turn `t` of `sender` asked for, signed by both. */
  predicate Holds(q: Pair, pipeId: PipeRef, t: Turn, sender: Principal) {
    && HasState(q.a, pipeId) && HasState(q.b, pipeId)
    && var mine, theirs := Latest(Sender(q, t), pipeId), Latest(Receiver(q, t), pipeId);
    && Carries(mine, t.args, sender) && Carries(theirs, t.args, sender)
    && mine.mySignature == theirs.theirSignature == t.signatures.sender
    && mine.theirSignature == theirs.mySignature == t.signatures.receiver
    && mine.updatedAt == theirs.updatedAt == t.now
  }

  lemma OneTurn(p: Pair, pipeId: PipeRef, t: Turn)
    requires Mirrored(p.a, p.b, pipeId)
    ensures var q := Exchange(p, pipeId, t);
            if Affordable(Sender(p, t), pipeId, t.args)
            then Holds(q, pipeId, t, Sender(p, t).tracked[pipeId].localPrincipal)
            else q == p
  {
    BuildSucceedsIff(Sender(p, t), pipeId, t.args);
    if BuildOutgoingTransfer(Sender(p, t).tracked, Sender(p, t).states, pipeId, t.args).Ok? {
      BuiltTransferIsAccepted(Sender(p, t), Receiver(p, t), pipeId, t.args, t.signatures, t.now);
    }
  }

  /** Whatever two agents hold, a turn goes through on both sides or leaves both as they were. */
  lemma TurnIsAllOrNothing(p: Pair, pipeId: PipeRef, t: Turn)
    requires forall a :: a in {p.a, p.b} && pipeId in a.tracked ==>
               pipeId == BuildPipeId(a.tracked[pipeId].contractId, a.tracked[pipeId].pipeKey)
    ensures var q, sender := Exchange(p, pipeId, t), Sender(p, t);
            q == p || (pipeId in sender.tracked && Holds(q, pipeId, t, sender.tracked[pipeId].localPrincipal))
  {
  }

  lemma {:induction false} IdleTurns(p: Pair, pipeId: PipeRef, turns: seq<Turn>, i: nat)
    requires Mirrored(p.a, p.b, pipeId) && i <= |turns|
    requires forall j :: i <= j < |turns| ==> !GoesThrough(p, pipeId, turns, j)
    ensures ExchangeAll(p, pipeId, turns) == ExchangeAll(p, pipeId, turns[..i])
    decreases |turns|
  {
    if i == |turns| {
      assert turns[..i] == turns;
    } else {
      var n := |turns| - 1;
      forall j | i <= j < n ensures !GoesThrough(p, pipeId, turns[..n], j) {
        assert turns[..n][..j] == turns[..j] && !GoesThrough(p, pipeId, turns, j);
      }
      IdleTurns(p, pipeId, turns[..n], i);
      assert turns[..n][..i] == turns[..i] && !GoesThrough(p, pipeId, turns, n);
      RunsStayMirrored(p, pipeId, turns[..n]);
      OneTurn(ExchangeAll(p, pipeId, turns[..n]), pipeId, turns[n]);
    }
  }

  /** After a run both stores hold the last transfer that went through, as it was asked for. */
  lemma LastTransferIsStored(p: Pair, pipeId: PipeRef, turns: seq<Turn>, i: nat)
    requires Mirrored(p.a, p.b, pipeId) && i < |turns| && GoesThrough(p, pipeId, turns, i)
    requires forall j :: i < j < |turns| ==> !GoesThrough(p, pipeId, turns, j)
    ensures Holds(ExchangeAll(p, pipeId, turns), pipeId, turns[i], Sender(p, turns[i]).tracked[pipeId].localPrincipal)
  {
    IdleTurns(p, pipeId, turns, i + 1);
    assert turns[..i + 1][..i] == turns[..i];
    RunsStayMirrored(p, pipeId, turns[..i]);
    OneTurn(ExchangeAll(p, pipeId, turns[..i]), pipeId, turns[i]);
    RunsKeepTracked(p, pipeId, turns[..i]);
  }

  lemma {:induction false} RunsKeepTracked(p: Pair, pipeId: PipeRef, turns: seq<Turn>)
    ensures var q := ExchangeAll(p, pipeId, turns); q.a.tracked == p.a.tracked && q.b.tracked == p.b.tracked
  {
    if turns != [] {
      RunsKeepTracked(p, pipeId, turns[..|turns| - 1]);
    }
  }

  // ---------- Arbitrary payloads ----------

  /** Whatever the counterparty sends, and in whatever order, an agent that only accepts never loses:
      each accepted payload moves its nonce by one, keeps the total and does not lower its balance. */
  lemma {:induction false} AcceptingNeverLoses(
    a: Agent, pipeId: PipeRef, payloads: seq<Payload>, mySignatures: seq<Bytes>, now: int) returns (accepted: nat)
    requires HasState(a, pipeId) && pipeId == BuildPipeId(a.tracked[pipeId].contractId, a.tracked[pipeId].pipeKey)
    requires |mySignatures| == |payloads|
    ensures var b := AcceptAll(a, pipeId, payloads, mySignatures, now);
            && b.tracked == a.tracked && HasState(b, pipeId) && accepted <= |payloads|
            && Latest(b, pipeId).nonce == Latest(a, pipeId).nonce + accepted
            && TotalOf(b, pipeId) == TotalOf(a, pipeId)
            && Latest(b, pipeId).myBalance >= Latest(a, pipeId).myBalance
    decreases |payloads|
  {
    accepted := 0;
    if payloads != [] {
      var n := |payloads| - 1;
      accepted := AcceptingNeverLoses(a, pipeId, payloads[..n], mySignatures[..n], now);
      var before := AcceptAll(a, pipeId, payloads[..n], mySignatures[..n], now);
      if Accept(before, pipeId, payloads[n], mySignatures[n], now).1.Some? {
        accepted := accepted + 1;
      }
    }
  }

  function AcceptAll(a: Agent, pipeId: PipeRef, payloads: seq<Payload>, mySignatures: seq<Bytes>, now: int): Agent
    requires |mySignatures| == |payloads|
  {
    if payloads == [] then a
    else
      var n := |payloads| - 1;
      Accept(AcceptAll(a, pipeId, payloads[..n], mySignatures[..n], now), pipeId, payloads[n], mySignatures[n], now).0
  }

  // ---------- Overlapping acceptances ----------

  /** `acceptIncomingTransfer` awaits the wallet between validating and storing, so acceptances overlap:
      `held` maps each acceptance in progress to the state that it will store. */
  datatype Accepting = Accepting(agent: Agent, held: map<nat, AgentState>)

  datatype Move = Begin(call: nat, data: Payload) | Finish(call: nat, mySignature: Bytes, now: int)

  function Moved(w: Accepting, pipeId: PipeRef, m: Move): Accepting {
    match m
    case Begin(call, data) =>
      var v := ValidateIncomingTransfer(w.agent.tracked, w.agent.states, pipeId, data);
      if call in w.held || v.Err? then w else w.(held := w.held[call := v.value])
    case Finish(call, mySignature, now) =>
      if call !in w.held then w
      else
        var signed := w.held[call].(mySignature := mySignature, updatedAt := now);
        Accepting(w.agent.(states := UpsertAgentState(w.agent.states, signed).0), w.held - {call})
  }

  function MovedAll(w: Accepting, pipeId: PipeRef, moves: seq<Move>): Accepting {
    if moves == [] then w else Moved(MovedAll(w, pipeId, moves[..|moves| - 1]), pipeId, moves[|moves| - 1])
  }

  /** `s` has the total of `start`, and is no worse for the agent. */
  predicate NoWorse(start: AgentState, s: AgentState) {
    && s.myBalance + s.theirBalance == start.myBalance + start.theirBalance
    && s.myBalance >= start.myBalance && s.nonce >= start.nonce
  }

  /** The stored state and all held ones are no worse than `start` and belong to the tracked pipe. */
  ghost predicate NothingWorse(w: Accepting, pipeId: PipeRef, tracked: TrackedPipes, start: AgentState) {
    && w.agent.tracked == tracked && HasState(w.agent, pipeId) && NoWorse(start, Latest(w.agent, pipeId))
    && forall c :: c in w.held ==>
         AgentRefOf(w.held[c]) == StateRef(pipeId, tracked[pipeId].localPrincipal) && NoWorse(start, w.held[c])
  }

  lemma MoveKeepsNothingWorse(w: Accepting, pipeId: PipeRef, m: Move, start: AgentState)
    requires pipeId in w.agent.tracked
    requires pipeId == BuildPipeId(w.agent.tracked[pipeId].contractId, w.agent.tracked[pipeId].pipeKey)
    requires NothingWorse(w, pipeId, w.agent.tracked, start)
    ensures NothingWorse(Moved(w, pipeId, m), pipeId, w.agent.tracked, start)
    ensures Latest(w.agent, pipeId).nonce <= Latest(Moved(w, pipeId, m).agent, pipeId).nonce
  {
  }

  /** Even when acceptances overlap, the stored balance of an agent that only accepts never falls below
      where it started, the total is constant and the stored nonce never falls. */
  lemma {:induction false} OverlappingAcceptsNeverLose(w: Accepting, pipeId: PipeRef, moves: seq<Move>)
    requires HasState(w.agent, pipeId) && w.held == map[]
    requires pipeId == BuildPipeId(w.agent.tracked[pipeId].contractId, w.agent.tracked[pipeId].pipeKey)
    ensures NothingWorse(MovedAll(w, pipeId, moves), pipeId, w.agent.tracked, Latest(w.agent, pipeId))
    ensures moves != [] ==>
      && HasState(MovedAll(w, pipeId, moves[..|moves| - 1]).agent, pipeId)
      && Latest(MovedAll(w, pipeId, moves[..|moves| - 1]).agent, pipeId).nonce
         <= Latest(MovedAll(w, pipeId, moves).agent, pipeId).nonce
  {
    if moves != [] {
      OverlappingAcceptsNeverLose(w, pipeId, moves[..|moves| - 1]);
      MoveKeepsNothingWorse(MovedAll(w, pipeId, moves[..|moves| - 1]), pipeId, moves[|moves| - 1],
          Latest(w.agent, pipeId));
    }
  }

  /** The agent after the first `n` moves. */
  function After(w: Accepting, pipeId: PipeRef, moves: seq<Move>, n: nat): Accepting
    requires n <= |moves|
  {
    MovedAll(w, pipeId, moves[..n])
  }

  lemma AfterNext(w: Accepting, pipeId: PipeRef, moves: seq<Move>, n: nat)
    requires n < |moves|
    ensures After(w, pipeId, moves, n + 1) == Moved(After(w, pipeId, moves, n), pipeId, moves[n])
  {
    assert moves[..n + 1][..n] == moves[..n];
  }

  /** From one acceptance to one begun after it was finished the nonce rises: to countersign one nonce twice,
      acceptances have to overlap. */
  lemma LaterAcceptanceHasHigherNonce(w: Accepting, pipeId: PipeRef, moves: seq<Move>, i: nat, j: nat)
    requires HasState(w.agent, pipeId) && w.held == map[] && i < j < |moves|
    requires pipeId == BuildPipeId(w.agent.tracked[pipeId].contractId, w.agent.tracked[pipeId].pipeKey)
    requires moves[i].Finish? && moves[i].call in After(w, pipeId, moves, i).held
    requires Begins(w, pipeId, moves, j)
    ensures After(w, pipeId, moves, i).held[moves[i].call].nonce <
            After(w, pipeId, moves, j + 1).held[moves[j].call].nonce
  {
    AfterNext(w, pipeId, moves, i);
    AfterNext(w, pipeId, moves, j);
    OverlappingAcceptsNeverLose(w, pipeId, moves[..i]);
    NonceNeverFalls(w, pipeId, moves, i + 1, j);
    FinishStores(After(w, pipeId, moves, i), pipeId, moves[i], w.agent.tracked, Latest(w.agent, pipeId));
    BeginIsNext(After(w, pipeId, moves, j), pipeId, moves[j]);
  }

  /** The exact condition: two acceptances countersign one nonce if and only if the stored nonce was the same
      when they began, that is, nothing newer was stored in between. */
  lemma SameNonceIff(w: Accepting, pipeId: PipeRef, moves: seq<Move>, i: nat, j: nat)
    requires HasState(w.agent, pipeId) && w.held == map[] && i < j < |moves|
    requires pipeId == BuildPipeId(w.agent.tracked[pipeId].contractId, w.agent.tracked[pipeId].pipeKey)
    requires Begins(w, pipeId, moves, i) && Begins(w, pipeId, moves, j)
    ensures var a, b := After(w, pipeId, moves, i).agent, After(w, pipeId, moves, j).agent;
            && HasState(a, pipeId) && HasState(b, pipeId)
            && (After(w, pipeId, moves, i + 1).held[moves[i].call].nonce
                == After(w, pipeId, moves, j + 1).held[moves[j].call].nonce
                <==> Latest(a, pipeId).nonce == Latest(b, pipeId).nonce)
            && After(w, pipeId, moves, i + 1).held[moves[i].call].nonce
               <= After(w, pipeId, moves, j + 1).held[moves[j].call].nonce
  {
    AfterNext(w, pipeId, moves, i);
    AfterNext(w, pipeId, moves, j);
    NonceNeverFalls(w, pipeId, moves, i, j);
    BeginIsNext(After(w, pipeId, moves, i), pipeId, moves[i]);
    BeginIsNext(After(w, pipeId, moves, j), pipeId, moves[j]);
  }

  /** Move `i` begins an acceptance whose payload is valid. */
  predicate Begins(w: Accepting, pipeId: PipeRef, moves: seq<Move>, i: nat)
    requires i < |moves|
  {
    moves[i].Begin? && moves[i].call !in After(w, pipeId, moves, i).held
    && moves[i].call in After(w, pipeId, moves, i + 1).held
  }

  /** The countersignature is handed out in any case, but the state is stored if and only if its nonce is not
      below the stored one. */
  lemma FinishStoresIff(w: Accepting, pipeId: PipeRef, m: Move, tracked: TrackedPipes, start: AgentState)
    requires NothingWorse(w, pipeId, tracked, start) && m.Finish? && m.call in w.held
    ensures var after, held, stored := Moved(w, pipeId, m).agent, w.held[m.call], Latest(w.agent, pipeId);
            && HasState(after, pipeId)
            && (stored.nonce <= held.nonce ==>
                  Latest(after, pipeId).nonce == held.nonce && Latest(after, pipeId).myBalance == held.myBalance
                  && Latest(after, pipeId).theirBalance == held.theirBalance
                  && Latest(after, pipeId).mySignature == m.mySignature)
            && (held.nonce < stored.nonce ==> after == w.agent)
  {
  }

  lemma FinishStores(w: Accepting, pipeId: PipeRef, m: Move, tracked: TrackedPipes, start: AgentState)
    requires NothingWorse(w, pipeId, tracked, start) && m.Finish? && m.call in w.held
    ensures HasState(Moved(w, pipeId, m).agent, pipeId)
    ensures w.held[m.call].nonce <= Latest(Moved(w, pipeId, m).agent, pipeId).nonce
  {
  }

  lemma BeginIsNext(w: Accepting, pipeId: PipeRef, m: Move)
    requires HasState(w.agent, pipeId) && m.Begin? && m.call !in w.held && m.call in Moved(w, pipeId, m).held
    ensures Moved(w, pipeId, m).held[m.call].nonce == Latest(w.agent, pipeId).nonce + 1
  {
  }

  lemma {:induction false} NonceNeverFalls(w: Accepting, pipeId: PipeRef, moves: seq<Move>, i: nat, j: nat)
    requires HasState(w.agent, pipeId) && w.held == map[] && i <= j <= |moves|
    requires pipeId == BuildPipeId(w.agent.tracked[pipeId].contractId, w.agent.tracked[pipeId].pipeKey)
    ensures var before, after := After(w, pipeId, moves, i).agent, After(w, pipeId, moves, j).agent;
            HasState(before, pipeId) && HasState(after, pipeId)
            && Latest(before, pipeId).nonce <= Latest(after, pipeId).nonce
    decreases j
  {
    OverlappingAcceptsNeverLose(w, pipeId, moves[..j]);
    if i < j {
      NonceNeverFalls(w, pipeId, moves, i, j - 1);
      assert moves[..j][..j - 1] == moves[..j - 1];
    }
  }

  /** And overlapping ones can: two payloads with one nonce are both countersigned and stored, the second one
      lowering the balance that the first one gave. */
  lemma OneNonceAcceptedTwice(a: Agent, pipeId: PipeRef)
      returns (better: AgentState, worse: AgentState, moves: seq<Move>)
    requires HasState(a, pipeId) && Latest(a, pipeId).theirBalance >= 2 && a.tracked[pipeId].counterpartyPrincipal != ""
    requires pipeId == BuildPipeId(a.tracked[pipeId].contractId, a.tracked[pipeId].pipeKey)
    ensures |moves| == 4 && moves[2..] == [Finish(1, [1], 1), Finish(2, [2], 2)] && better.nonce == worse.nonce
    ensures var w := Accepting(a, map[]);
            var third, fourth := MovedAll(w, pipeId, moves[..3]), MovedAll(w, pipeId, moves);
            && MovedAll(w, pipeId, moves[..2]).held == map[1 := better, 2 := worse]
            && HasState(third.agent, pipeId) && HasState(fourth.agent, pipeId)
            && Latest(third.agent, pipeId).myBalance == Latest(a, pipeId).myBalance + 2
            && Latest(fourth.agent, pipeId).myBalance == Latest(a, pipeId).myBalance + 1
  {
    var t, s := a.tracked[pipeId], Latest(a, pipeId);
    var two := Payload(
      None, None, None, t.localPrincipal, t.counterpartyPrincipal, None, Some([]), Some(s.nonce + 1), None,
      Some(s.myBalance + 2), Some(s.theirBalance - 2), t.counterpartyPrincipal, None, None, false);
    var one := two.(myBalance := Some(s.myBalance + 1), theirBalance := Some(s.theirBalance - 1));
    better := ValidateIncomingTransfer(a.tracked, a.states, pipeId, two).value;
    worse := ValidateIncomingTransfer(a.tracked, a.states, pipeId, one).value;
    moves := [Begin(1, two), Begin(2, one), Finish(1, [1], 1), Finish(2, [2], 2)];
    var w := Accepting(a, map[]);
    assert moves[..3][..2] == moves[..2] && moves[..2][..1] == moves[..1] && moves[..1][..0] == [] &&
           moves[..4] == moves;
    assert MovedAll(w, pipeId, moves[..1]) == Accepting(a, map[1 := better]);
    assert MovedAll(w, pipeId, moves[..2]) == Accepting(a, map[1 := better, 2 := worse]);
    var better' := better.(mySignature := [1], updatedAt := 1);
    assert MovedAll(w, pipeId, moves[..3]).agent == a.(states := UpsertAgentState(a.states, better').0);
  }

  /** So a countersignature can be handed out for a state that is not stored: two acceptances begin at one
      nonce, one of them finishes, a further transfer is accepted, and then the other one finishes. */
  lemma CountersignedButNotStored(a: Agent, pipeId: PipeRef) returns (moves: seq<Move>, last: Move)
    requires HasState(a, pipeId) && a.tracked[pipeId].counterpartyPrincipal != ""
    requires pipeId == BuildPipeId(a.tracked[pipeId].contractId, a.tracked[pipeId].pipeKey)
    ensures var w := MovedAll(Accepting(a, map[]), pipeId, moves);
            && last.Finish? && last.call in w.held && HasState(w.agent, pipeId)
            && w.held[last.call].nonce < Latest(w.agent, pipeId).nonce
            && Moved(w, pipeId, last).agent == w.agent
  {
    var t, s := a.tracked[pipeId], Latest(a, pipeId);
    var one := Payload(
      None, None, None, t.localPrincipal, t.counterpartyPrincipal, None, Some([]), Some(s.nonce + 1), None,
      Some(s.myBalance), Some(s.theirBalance), t.counterpartyPrincipal, None, None, false);
    var two := one.(nonce := Some(s.nonce + 2));
    var first := ValidateIncomingTransfer(a.tracked, a.states, pipeId, one).value;
    var w := Accepting(a, map[]);
    var begun := [Begin(1, one), Begin(2, one)];
    assert begun[..1][..0] == [] && begun[..2] == begun;
    assert MovedAll(w, pipeId, begun[..1]) == Accepting(a, map[1 := first]);
    assert MovedAll(w, pipeId, begun) == Accepting(a, map[1 := first, 2 := first]);
    var w1 := Moved(MovedAll(w, pipeId, begun), pipeId, Finish(1, [], 1));
    assert Latest(w1.agent, pipeId).nonce == s.nonce + 1 && w1.held == map[2 := first];
    var w2 := Moved(w1, pipeId, Begin(3, two));
    var w3 := Moved(w2, pipeId, Finish(3, [], 2));
    moves, last := begun + [Finish(1, [], 1)] + [Begin(3, two)] + [Finish(3, [], 2)], Finish(2, [], 3);
    MovedMore(w, pipeId, begun, Finish(1, [], 1));
    MovedMore(w, pipeId, begun + [Finish(1, [], 1)], Begin(3, two));
    MovedMore(w, pipeId, begun + [Finish(1, [], 1)] + [Begin(3, two)], Finish(3, [], 2));
  }

  lemma MovedMore(w: Accepting, pipeId: PipeRef, moves: seq<Move>, m: Move)
    ensures MovedAll(w, pipeId, moves + [m]) == Moved(MovedAll(w, pipeId, moves), pipeId, m)
  {
    assert (moves + [m])[..|moves|] == moves;
  }

  // ---------- Crossing transfers ----------

  /** Two transfers built at the same time are both accepted, at the same nonce, and leave the stores
      different: each side ends with its own transfer. The protocol needs its turns. */
  lemma CrossingTransfersDiverge(
    a: Agent, b: Agent, pipeId: PipeRef, fromA: TransferArgs, fromB: TransferArgs,
    sigA: TransferSignatures, sigB: TransferSignatures, now: int)
    requires Mirrored(a, b, pipeId)
    requires BuildOutgoingTransfer(a.tracked, a.states, pipeId, fromA).Ok?
    requires BuildOutgoingTransfer(b.tracked, b.states, pipeId, fromB).Ok?
    ensures var outA := BuildOutgoingTransfer(a.tracked, a.states, pipeId, fromA).value;
            var outB := BuildOutgoingTransfer(b.tracked, b.states, pipeId, fromB).value;
            var (a1, acceptedByA) := Accept(a, pipeId, Delivered(outB, sigB.sender), sigB.receiver, now);
            var (b1, acceptedByB) := Accept(b, pipeId, Delivered(outA, sigA.sender), sigA.receiver, now);
            var a2 := Record(a1, outA, sigA.sender, sigA.receiver, now);
            var b2 := Record(b1, outB, sigB.sender, sigB.receiver, now);
            && acceptedByA.Some? && acceptedByB.Some?
            && HasState(a2, pipeId) && HasState(b2, pipeId)
            && Latest(a2, pipeId).nonce == Latest(b2, pipeId).nonce
            && Latest(a2, pipeId).myBalance + Latest(b2, pipeId).myBalance
               == TotalOf(a, pipeId) - fromA.amount - fromB.amount
            && !Mirrored(a2, b2, pipeId)
  {
  }
}
