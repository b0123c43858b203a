/** The node and the counterparty service as objects over one store: `server/src/stackflow-node.ts` and
    `signState` of `server/src/counterparty-service.ts`. Answers of verifiers, signers and the dispute
    executor are parameters. Each method is proved against the transition that `NodeRuns` interleaves. */
module StackflowNode {
  import opened Wrappers
  import opened Octets
  import opened Principals
  import opened NodeTypes
  import opened Settlement
  import opened Observer
  import opened Signing
  import opened Forwarding
  import opened Dispute
  import opened MergedPipes
  import opened StateStore
  import opened NodeRuns
  import RevealRuns

  class StackflowNode {
    const stateStore: SqliteStateStore
    const signing: Config
    const dispute: DisputeConfig

    constructor (stateStore: SqliteStateStore, signing: Config, dispute: DisputeConfig)
      ensures this.stateStore == stateStore && this.signing == signing && this.dispute == dispute
    {
      this.stateStore, this.signing, this.dispute := stateStore, signing, dispute;
    }

    ghost function Watched(): Watch
      reads stateStore
    {
      Watch(stateStore.observedPipes, stateStore.closures)
    }

    /** `verified` is the verifier's answer, and true when verification is skipped. */
    method UpsertSignatureState(input: SignatureInput, verified: bool, now: int) returns (result: Upsert)
      requires stateStore.Valid()
      modifies stateStore`signatureStates
      ensures stateStore.Valid()
      ensures (stateStore.signatureStates, result)
           == UpsertState(signing, old(stateStore.signatureStates), input, verified, now)
    {
      if !IsWatchedPrincipal(signing.watched, input.forPrincipal) {
        return PrincipalNotWatched;
      }
      if !verified {
        return SignatureInvalid;
      }
      var pipeKey := CanonicalPipeKey(signing.ser, input.token, input.forPrincipal, input.withPrincipal);
      if pipeKey.Err? {
        return PrincipalsEqual;
      }
      var nextState := SignatureState(pipeKey.value, input, now);
      var rows := stateStore.GetSignatureStates();
      var i := 0;
      while i < |rows| && RefOf(rows[i]) != RefOf(nextState)
        invariant 0 <= i <= |rows|
        invariant forall j :: 0 <= j < i ==> RefOf(rows[j]) != RefOf(nextState)
      {
        i := i + 1;
      }
      if i < |rows| {
        assert rows[i] in rows;
        if input.nonce <= rows[i].input.nonce {
          return NonceTooLow(rows[i]);
        }
        stateStore.SetSignatureState(nextState);
        return Stored(true, nextState);
      }
      assert RefOf(nextState) !in stateStore.signatureStates;
      stateStore.SetSignatureState(nextState);
      return Stored(false, nextState);
    }

    /** Settles every observed pipe, and counts the pipes that moved. */
    method IngestBurnBlock(height: nat, now: int) returns (processedPipes: nat, settledPipes: nat)
      requires stateStore.Valid()
      modifies stateStore`observedPipes
      ensures stateStore.Valid()
      ensures stateStore.observedPipes == SettleAll(old(stateStore.observedPipes), height, now)
      ensures settledPipes == |Moving(old(stateStore.observedPipes), old(stateStore.observedPipes.Keys), height)|
      ensures processedPipes == |old(stateStore.observedPipes)|
    {
      ghost var before := stateStore.observedPipes;
      var rows := stateStore.ListObservedPipes();
      ListedRowsSettleTheTable(before, rows, height, now);
      settledPipes := SettleEach(rows, height, now);
      processedPipes := |rows|;
    }

    /** The loop: each row that moved is written back. */
    method SettleEach(rows: seq<ObservedPipe>, height: nat, now: int) returns (settledPipes: nat)
      requires stateStore.Valid()
      modifies stateStore`observedPipes
      ensures stateStore.Valid()
      ensures (stateStore.observedPipes, settledPipes) == SettleRows(old(stateStore.observedPipes), rows, height, now)
    {
      settledPipes := 0;
      for i := 0 to |rows|
        invariant stateStore.Valid()
        invariant (stateStore.observedPipes, settledPipes)
               == SettleRows(old(stateStore.observedPipes), rows[..i], height, now)
      {
        assert rows[..i + 1][..i] == rows[..i];
        var nextPipe, changed := SettlePipe(rows[i], height, now);
        if changed {
          settledPipes := settledPipes + 1;
          stateStore.SetObservedPipe(nextPipe);
        }
      }
      assert rows[..|rows|] == rows;
    }

    /** The preimage that a dispute of `state` hands over. */
    method ResolveSecret(state: SignatureState) returns (resolved: Option<Bytes>)
      ensures ResolvedFits(stateStore.ForwardingTables(), state, resolved)
    {
      if !LocksSecret(state) {
        return state.input.secret;
      }
      var revealed := stateStore.GetRevealedSecretByHash(LockOf(state));
      return if revealed.Some? then revealed else state.input.secret;
    }

    method LookUpSecret(state: SignatureState) returns (view: SecretView)
      ensures view == SecretViewOf(stateStore.ForwardingTables(), state)
    {
      if state.input.secret.None? {
        return SecretView(false, false);
      }
      var known := stateStore.HasForwardingPaymentHash(LockOf(state));
      var revealed := stateStore.GetRevealedSecretByHash(LockOf(state));
      return SecretView(known, revealed.Some?);
    }

    /** Sort the states of the pipe, drop the closer's, and take the first that passes. */
    method ChooseState(e: PrintEvent, pipe: PipeRef, closureNonce: nat, closer: Principal)
      returns (choice: Option<SignatureState>)
      requires stateStore.Valid()
      ensures IsChoice(dispute.onlyBeneficial, stateStore.signatureStates, stateStore.ForwardingTables(), e,
                       pipe, closureNonce, closer, choice)
    {
      var rows := stateStore.GetSignatureStatesForPipe(pipe);
      var sorted := SortSignatureStates(rows);
      SortKeepsTheRows(rows);
      var i := 0;
      while i < |sorted|
        invariant 0 <= i <= |sorted|
        invariant forall j :: 0 <= j < i ==>
                    !Wins(dispute.onlyBeneficial, stateStore.signatureStates, stateStore.ForwardingTables(), e,
                          pipe, closureNonce, closer, sorted[j])
      {
        assert sorted[i] in rows;
        if sorted[i].input.forPrincipal != closer {
          var view := LookUpSecret(sorted[i]);
          if IsEligible(dispute.onlyBeneficial, view, e, closureNonce, sorted[i]) {
            break;
          }
        }
        i := i + 1;
      }
      SortThenFindIsBest(dispute.onlyBeneficial, stateStore.signatureStates, stateStore.ForwardingTables(), e,
                         pipe, closureNonce, closer, rows, i);
      return if i < |sorted| then Some(sorted[i]) else None;
    }

    method TryDisputeClosure(e: PrintEvent, closure: Closure, reply: DisputeReply, now: int) returns (answer: Answer)
      requires stateStore.Valid()
      modifies stateStore`disputeAttempts
      ensures AnswerFits(dispute, stateStore.signatureStates, stateStore.ForwardingTables(), e, closure, answer)
      ensures stateStore.disputeAttempts
           == TryDispute(dispute, old(stateStore.disputeAttempts), stateStore.ForwardingTables(), e, closure, answer).0
      ensures stateStore.Valid() && answer.reply == reply && answer.now == now
    {
      answer := Answer(None, None, reply, now);
      if !dispute.enabled || closure.nonce.None? || closure.closer.None? {
        return;
      }
      var eligible := ChooseState(e, PipeRef(closure.contractId, closure.pipeId), closure.nonce.value,
          closure.closer.value);
      if eligible.None? {
        return;
      }
      var s := eligible.value;
      var resolved := ResolveSecret(s);
      answer := Answer(eligible, resolved, reply, now);
      var id := AttemptIdOf(e, closure, closure.nonce.value, s.input.forPrincipal);
      if id in stateStore.disputeAttempts && stateStore.disputeAttempts[id].success {
        return;
      }
      match reply {
        case Submitted(txid) =>
          stateStore.SetDisputeAttempt(
            id, DisputeAttempt(closure.contractId, closure.pipeId, s.input.forPrincipal, e.txid, true, Some(txid),
                now));
        case Refused =>
          stateStore.SetDisputeAttempt(
            id, DisputeAttempt(closure.contractId, closure.pipeId, s.input.forPrincipal, e.txid, false, None, now));
      }
    }

    method HandleEvent(e: PrintEvent, reply: DisputeReply, now: int) returns (answer: Option<Answer>)
      requires stateStore.Valid()
      modifies stateStore`observedPipes, stateStore`closures, stateStore`disputeAttempts
      ensures stateStore.Valid() && Watched() == Observer.HandleEvent(old(Watched()), e, now)
      ensures answer.Some? <==> e.pipeKey.Some? && e.eventName.Some? && Opening(e.eventName.value)
      ensures SuccessesStay(old(stateStore.disputeAttempts), stateStore.disputeAttempts)
      ensures answer.None? ==> stateStore.disputeAttempts == old(stateStore.disputeAttempts)
      ensures answer.Some? ==>
        && AnswerFits(dispute, stateStore.signatureStates, stateStore.ForwardingTables(), e, OpenedClosure(e, now),
             answer.value)
        && stateStore.disputeAttempts
           == TryDispute(dispute, old(stateStore.disputeAttempts), stateStore.ForwardingTables(), e,
                OpenedClosure(e, now), answer.value).0
    {
      answer := None;
      if e.pipeKey.None? || e.eventName.None? {
        return;
      }
      if e.pipe.Some? && !Terminal(e.eventName.value) {
        stateStore.SetObservedPipe(SnapshotRecord(e, now));
      }
      if Opening(e.eventName.value) {
        var closure := OpenedClosure(e, now);
        stateStore.SetClosure(closure);
        var given := TryDisputeClosure(e, closure, reply, now);
        return Some(given);
      }
      if Terminal(e.eventName.value) {
        stateStore.SetObservedPipe(SettledRecord(e, now));
        stateStore.DeleteClosure(e.pipeKey.value);
      }
    }

    ghost function AsNode(): Node
      reads stateStore
    {
      Node(stateStore.signatureStates, Watched(), stateStore.disputeAttempts,
           RevealRuns.World(stateStore.ForwardingTables(), map[]), map[], [], [])
    }

    /** An ignored event has no answer; any one stands for it. */
    static function AnswerOr(answer: Option<Answer>, reply: DisputeReply, now: int): Answer {
      answer.GetOr(Answer(None, None, reply, now))
    }

    /** One event of a payload, which is ignored unless its pipe is watched. */
    method Observe(e: PrintEvent, reply: DisputeReply, now: int, ghost env: RevealRuns.Env)
      returns (watched: bool, ghost answer: Answer)
      requires stateStore.Valid()
      modifies stateStore`observedPipes, stateStore`closures, stateStore`disputeAttempts
      ensures stateStore.Valid() && (watched <==> IsWatchedPipe(signing.watched, e.pipeKey))
      ensures AsNode() == EventHandled(NodeConfig(signing, dispute, env), old(AsNode()), e, answer,
              now).(submissions := [])
    {
      watched, answer := IsWatchedPipe(signing.watched, e.pipeKey), AnswerOr(None, reply, now);
      if watched {
        var given := HandleEvent(e, reply, now);
        answer := AnswerOr(given, reply, now);
      }
    }

    /** `ingest`: the events of one payload, in order, as the same number of chain steps of `NodeRuns`. */
    method Ingest(events: seq<PrintEvent>, replies: seq<DisputeReply>, now: int, ghost env: RevealRuns.Env)
      returns (observedEvents: nat, ghost answers: seq<Answer>)
      requires stateStore.Valid() && |replies| == |events|
      modifies stateStore`observedPipes, stateStore`closures, stateStore`disputeAttempts
      ensures stateStore.Valid() && observedEvents == CountWatched(signing.watched, events)
      ensures Ingested(NodeConfig(signing, dispute, env), old(AsNode()), events, answers, now, AsNode())
    {
      observedEvents, answers := 0, [];
      ghost var cfg := NodeConfig(signing, dispute, env);
      for i := 0 to |events|
        invariant stateStore.Valid() && observedEvents == CountWatched(signing.watched, events[..i])
        invariant Ingested(cfg, old(AsNode()), events[..i], answers, now, AsNode())
      {
        assert events[..i + 1][..i] == events[..i] && events[..i + 1] == events[..i] + [events[i]];
        ghost var before := AsNode();
        var watched;
        ghost var answer;
        watched, answer := Observe(events[i], replies[i], now, env);
        OneMoreEvent(cfg, old(AsNode()), events[..i], answers, now, before, events[i], answer, AsNode());
        answers := answers + [answer];
        if watched {
          observedEvents := observedEvents + 1;
        }
      }
      assert events[..|events|] == events;
    }
  }

  datatype SignOutcome = RefusedByPolicy(refusal: Refusal) | CounterpartySignatureInvalid
      | CommitAnswered(upsert: Upsert)

  class CounterpartyService {
    const stackflowNode: StackflowNode

    constructor (stackflowNode: StackflowNode)
      ensures this.stackflowNode == stackflowNode
    {
      this.stackflowNode := stackflowNode;
    }

    /** `enforceSigningPolicy`, reading the node's status. */
    method CheckPolicy(request: SignatureInput) returns (refusal: Option<Refusal>)
      requires stackflowNode.stateStore.Valid()
      ensures refusal == Check(stackflowNode.signing, stackflowNode.stateStore.observedPipes,
                               stackflowNode.stateStore.signatureStates, request)
    {
      var pipeKey := CanonicalPipeKey(stackflowNode.signing.ser, request.token, request.forPrincipal,
          request.withPrincipal);
      if pipeKey.Err? {
        return Some(SamePrincipals);
      }
      var observedPipes := stackflowNode.stateStore.ListObservedPipes();
      var signatureStates := stackflowNode.stateStore.GetSignatureStates();
      var baseline := ResolveCurrentBaseline(
        observedPipes, signatureStates, StateRef(PipeRef(request.contractId, pipeKey.value), request.forPrincipal),
        stackflowNode.stateStore.observedPipes, stackflowNode.stateStore.signatureStates);
      return EnforceSigningPolicy(baseline, request);
    }

    /** `signState` with nothing interleaved. */
    method SignState(job: Job) returns (outcome: SignOutcome)
      requires stackflowNode.stateStore.Valid()
      modifies stackflowNode.stateStore`signatureStates
      ensures stackflowNode.stateStore.Valid()
      ensures (stackflowNode.stateStore.signatureStates, outcome.CommitAnswered? && outcome.upsert.Stored?)
           == Sign(stackflowNode.signing, stackflowNode.stateStore.observedPipes,
                old(stackflowNode.stateStore.signatureStates), job)
      ensures var refusal := Check(stackflowNode.signing, stackflowNode.stateStore.observedPipes,
                                   old(stackflowNode.stateStore.signatureStates), job.request);
              outcome == if refusal.Some? then RefusedByPolicy(refusal.value)
                         else if !job.verified then CounterpartySignatureInvalid
                         else CommitAnswered(UpsertState(stackflowNode.signing,
                             old(stackflowNode.stateStore.signatureStates),
                                                         SignedInput(job), true, job.now).1)
    {
      var refusal := CheckPolicy(job.request);
      if refusal.Some? {
        return RefusedByPolicy(refusal.value);
      }
      if !job.verified {
        return CounterpartySignatureInvalid;
      }
      var upsert := stackflowNode.UpsertSignatureState(SignedInput(job), true, job.now);
      return CommitAnswered(upsert);
    }
  }
}
