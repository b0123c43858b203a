/** What the node knows after a log of chain events, said with the fields of the events themselves: through
    `handleEvent` and `ingestBurnBlock` of `server/src/stackflow-node.ts` into the signing policy and the
    disputes. */
module ChainKnowledge {
  import opened Wrappers
  import opened Octets
  import opened Principals
  import opened NodeTypes
  import opened Settlement
  import opened Observer
  import opened Signing
  import opened Forwarding
  import opened Dispute
  import RevealRuns
  import opened NodeRuns

  // ---------- The observed pipe ----------

  /** The event names a pipe with a watched side, or nobody in particular is watched. */
  predicate Watches(watched: set<Principal>, e: PrintEvent) {
    || watched == {}
    || (e.pipeKey.Some? && (e.pipeKey.value.principal1 in watched || e.pipeKey.value.principal2 in watched))
  }

  predicate OpensClosure(e: PrintEvent) { e.eventName in {Some(ForceCancel), Some(ForceClose)} }
  predicate EndsPipe(e: PrintEvent) { e.eventName in {Some(ClosePipe), Some(DisputeClosure), Some(Finalize)} }

  /** A watched event that says what the pipe holds: with a snapshot, or by ending it. */
  predicate TellsOf(watched: set<Principal>, s: ChainStep, ref: PipeRef) {
    && s.Event? && s.event.pipeKey == Some(ref.pipeId) && s.event.contractId == ref.contractId
    && Watches(watched, s.event) && s.event.eventName.Some? && (s.event.pipe.Some? || EndsPipe(s.event))
  }

  /** A watched event that opens or ends a closure of the pipe, on whatever contract. */
  predicate Settles(watched: set<Principal>, s: ChainStep, key: PipeKey) {
    && s.Event? && s.event.pipeKey == Some(key) && Watches(watched, s.event)
    && (OpensClosure(s.event) || EndsPipe(s.event))
  }

  /** Step `i` of the log is the last one that tells what pipe `ref` holds. */
  ghost predicate LastReport(watched: set<Principal>, log: seq<ChainStep>, i: nat, ref: PipeRef) {
    i < |log| && TellsOf(watched, log[i], ref) && forall j :: i < j < |log| ==> !TellsOf(watched, log[j], ref)
  }

  lemma TellsOfIff(watched: set<Principal>, log: seq<ChainStep>, ref: PipeRef, key: PipeKey)
    ensures forall j :: 0 <= j < |log| ==> (TellsOf(watched, log[j], ref) <==> Reports(watched, log[j], ref))
    ensures forall j :: 0 <= j < |log| ==> (Settles(watched, log[j], key) <==> Decides(watched, log[j], key))
  {
  }

  /** Nothing else touches the row of a pipe but the burn blocks. */
  lemma {:induction false} UntoldPipeOnlySettles(watched: set<Principal>, w: Watch, log: seq<ChainStep>, ref: PipeRef)
    requires forall j :: 0 <= j < |log| ==> !TellsOf(watched, log[j], ref)
    ensures var observed := Fold(watched, w, log).observed;
            && (ref in observed <==> ref in w.observed)
            && (ref in observed ==> observed[ref] == SettleRun(w.observed[ref], Blocks(log)))
  {
    if log != [] {
      UntoldPipeOnlySettles(watched, w, log[..|log| - 1], ref);
      var blocks := Blocks(log);
      if log[|log| - 1].Burn? {
        assert blocks[..|blocks| - 1] == Blocks(log[..|log| - 1]);
      }
    }
  }

  /** Burn blocks touch balances, pending deposits and the time stamp only. */
  lemma {:induction false} BlocksKeepTheRest(p: ObservedPipe, blocks: seq<BurnBlock>)
    ensures var q := SettleRun(p, blocks);
            && q.contractId == p.contractId && q.pipeKey == p.pipeKey && q.nonce == p.nonce
            && q.expiresAt == p.expiresAt && q.closer == p.closer && q.event == p.event
            && q.txid == p.txid && q.blockHeight == p.blockHeight
  {
    if blocks != [] {
      BlocksKeepTheRest(p, blocks[..|blocks| - 1]);
    }
  }

  function Given(pending: Option<Pending>): Pending { pending.GetOr(NOTHING_PENDING) }

  /** A side of a pipe after some burn blocks: its balance as reported, with the reported deposit added once a
      block has reached its height. */
  function SideAfter(balance: nat, pending: Pending, blocks: seq<BurnBlock>): nat {
    balance + if blocks != [] && Complete(pending) && pending.burnHeight.value <= MaxHeight(blocks)
              then pending.amount.value else 0
  }

  /** The row of a pipe carries the fields of its last report: those of the snapshot, or zero balances without
      a closer for a terminal event. Balances follow the burn blocks since, everything else stays. */
  lemma ObservedCarriesLastReport(watched: set<Principal>, w: Watch, log: seq<ChainStep>, i: nat, ref: PipeRef)
    requires LastReport(watched, log, i, ref)
    ensures ref in Fold(watched, w, log).observed
    ensures var o, e := Fold(watched, w, log).observed[ref], log[i].event;
            && o.contractId == e.contractId && Some(o.pipeKey) == e.pipeKey && Some(o.event) == e.eventName
            && o.txid == e.txid && o.blockHeight == e.blockHeight
            && o.nonce == (if e.pipe.Some? then e.pipe.value.nonce else None)
            && o.expiresAt == (if e.pipe.Some? then e.pipe.value.expiresAt else None)
            && if EndsPipe(e)
               then o.closer == None && (o.balance1, o.balance2) == (Some(0), Some(0))
               else o.closer == e.pipe.value.closer
    ensures var o, e, blocks := Fold(watched, w, log).observed[ref], log[i].event, Blocks(log[i + 1..]);
            !EndsPipe(e) && e.pipe.value.balance1.Some? && e.pipe.value.balance2.Some? ==>
              && o.balance1 == Some(SideAfter(e.pipe.value.balance1.value, Given(e.pipe.value.pending1), blocks))
              && o.balance2 == Some(SideAfter(e.pipe.value.balance2.value, Given(e.pipe.value.pending2), blocks))
  {
    TellsOfIff(watched, log, ref, ref.pipeId);
    ObservedIsLastReportSettled(watched, w, log, i, ref);
    BlocksKeepTheRest(Reported(log[i]), Blocks(log[i + 1..]));
    if EndsPipe(log[i].event) {
      EmptyStaysEmpty(Reported(log[i]), Blocks(log[i + 1..]));
    } else if log[i].event.pipe.value.balance1.Some? && log[i].event.pipe.value.balance2.Some? {
      SidesAfterBlocks(Reported(log[i]), Blocks(log[i + 1..]));
    }
  }

  lemma SidesAfterBlocks(p: ObservedPipe, blocks: seq<BurnBlock>)
    requires p.balance1.Some? && p.balance2.Some?
    ensures SettleRun(p, blocks).balance1 == Some(SideAfter(p.balance1.value, p.pending1, blocks))
    ensures SettleRun(p, blocks).balance2 == Some(SideAfter(p.balance2.value, p.pending2, blocks))
  {
    if blocks != [] {
      PendingCreditedOnce(p, blocks);
    }
  }

  /** What an ingest reports as observed are the events of its payload that are watched. */
  lemma {:induction false} WatchedEventsAreCounted(watched: set<Principal>, events: seq<PrintEvent>)
    ensures CountWatched(watched, events) == |set i | 0 <= i < |events| && Watches(watched, events[i])|
  {
    var indices := set i | 0 <= i < |events| && Watches(watched, events[i]);
    if events == [] {
      assert indices == {};
    } else {
      var n := |events| - 1;
      var earlier := set i | 0 <= i < |events[..n]| && Watches(watched, events[..n][i]);
      WatchedEventsAreCounted(watched, events[..n]);
      assert indices == if Watches(watched, events[n]) then earlier + {n} else earlier;
    }
  }

  // ---------- The policy ----------

  /** When the last report of a pipe gives a nonce and both balances, or is terminal and gives a nonce, the
      policy knows that nonce for either principal and refuses every request up to it, whatever is stored
      and through any burn blocks. */
  lemma PolicyKnowsTheReportedNonce(
    cfg: Config, w: Watch, log: seq<ChainStep>, i: nat, ref: StateRef, signatures: Signatures, r: SignatureInput)
    requires LastReport(cfg.watched, log, i, ref.pipe) && StateRefOf(cfg, r) == Ok(ref)
    requires var e := log[i].event;
             && e.pipe.Some? && e.pipe.value.nonce.Some?
             && (EndsPipe(e) || (e.pipe.value.balance1.Some? && e.pipe.value.balance2.Some?))
    ensures var observed, nonce := Fold(cfg.watched, w, log).observed, log[i].event.pipe.value.nonce.value;
            && ObservedCandidate(observed, ref).Some? && ObservedCandidate(observed, ref).value.nonce == nonce
            && (r.nonce <= nonce ==> Check(cfg, observed, signatures, r) == Some(RequestNonceTooLow))
  {
    ObservedCarriesLastReport(cfg.watched, w, log, i, ref.pipe);
    BaselineIsBest(Fold(cfg.watched, w, log).observed, signatures, ref);
  }

  /** And it knows the reported balances, each for the principal whose side it is. */
  lemma PolicyKnowsTheReportedBalances(
    cfg: Config, w: Watch, log: seq<ChainStep>, i: nat, ref: StateRef)
    requires LastReport(cfg.watched, log, i, ref.pipe) && !EndsPipe(log[i].event)
    requires var s := log[i].event.pipe.value; s.nonce.Some? && s.balance1.Some? && s.balance2.Some?
    requires ref.owner in {ref.pipe.pipeId.principal1, ref.pipe.pipeId.principal2}
    ensures var s, blocks := log[i].event.pipe.value, Blocks(log[i + 1..]);
            var side1 := SideAfter(s.balance1.value, Given(s.pending1), blocks);
            var side2 := SideAfter(s.balance2.value, Given(s.pending2), blocks);
            var known := ObservedCandidate(Fold(cfg.watched, w, log).observed, ref);
            && known.Some?
            && (known.value.myBalance, known.value.theirBalance)
               == if ref.owner == ref.pipe.pipeId.principal1 then (side1, side2) else (side2, side1)
  {
    ObservedCarriesLastReport(cfg.watched, w, log, i, ref.pipe);
  }

  // ---------- Closures and disputes ----------

  /** Who closes: the closer that the event gives, else its sender. */
  function CloserOf(e: PrintEvent): Option<Principal> {
    if e.pipe.Some? && e.pipe.value.closer.Some? then e.pipe.value.closer else e.sender
  }

  function NonceOf(e: PrintEvent): Option<nat> { if e.pipe.Some? then e.pipe.value.nonce else None }

  /** A pipe is closing when the event that settled this last opens a closure, and then the closure carries the
      fields of that event. */
  lemma ClosureCarriesLastDecision(
    watched: set<Principal>, w: Watch, log: seq<ChainStep>, i: nat, key: PipeKey)
    requires i < |log| && Settles(watched, log[i], key)
    requires forall j :: i < j < |log| ==> !Settles(watched, log[j], key)
    ensures key in Fold(watched, w, log).closures <==> OpensClosure(log[i].event)
    ensures var closures, e := Fold(watched, w, log).closures, log[i].event;
            key in closures ==>
            && closures[key].pipeId == key && closures[key].contractId == e.contractId
            && closures[key].closer == CloserOf(e) && closures[key].nonce == NonceOf(e)
            && closures[key].expiresAt == (if e.pipe.Some? then e.pipe.value.expiresAt else None)
            && Some(closures[key].event) == e.eventName && closures[key].txid == e.txid
            && closures[key].blockHeight == e.blockHeight
  {
    TellsOfIff(watched, log, PipeRef("", key), key);
    ClosureIsLastDecision(watched, w, log, i, key);
  }

  /** The hash is stored with a revealed secret or with a payment. */
  ghost predicate HashStored(fwd: ForwardTables, hash: Bytes) {
    || Canonical(hash) in fwd.revealed
    || exists id :: id in fwd.payments && fwd.payments[id].hashedSecret == Some(Canonical(hash))
  }

  /** A secret is stored for the hash. */
  ghost predicate HashRevealed(fwd: ForwardTables, hash: Bytes) {
    || Canonical(hash) in fwd.revealed
    || exists id :: id in fwd.payments && fwd.payments[id].hashedSecret == Some(Canonical(hash))
                    && fwd.payments[id].revealedSecret.Some?
  }

  /** The event gives the owner of `s` less than `s` does. */
  predicate GivesLess(e: PrintEvent, s: SignatureState) {
    && e.pipeKey.Some? && e.pipe.Some?
    && var closing := if s.input.forPrincipal == e.pipeKey.value.principal1 then e.pipe.value.balance1
                      else e.pipe.value.balance2;
    && s.input.forPrincipal in {e.pipeKey.value.principal1, e.pipeKey.value.principal2}
    && closing.Some? && closing.value < s.input.myBalance
  }

  /** `s` answers the closure that `e` opens: a stored state of the pipe whose owner does not close, newer than
      the closure, past its valid-after height, with its secret at hand when it is a transfer locked with a
      stored hash, and worth more than the closure where the policy or the state asks for that. */
  ghost predicate Answers(cfg: NodeConfig, m: Node, e: PrintEvent, s: SignatureState) {
    && RefOf(s) in m.signatures && m.signatures[RefOf(s)] == s
    && e.pipeKey.Some? && RefOf(s).pipe == PipeRef(e.contractId, e.pipeKey.value)
    && CloserOf(e).Some? && s.input.forPrincipal != CloserOf(e).value
    && NonceOf(e).Some? && NonceOf(e).value < s.input.nonce
    && (s.input.validAfter.Some? && e.blockHeight.Some? ==> s.input.validAfter.value <= e.blockHeight.value)
    && (s.input.action == ACTION_TRANSFER && s.input.secret.Some?
        && HashStored(m.forwarding.tables, s.input.secret.value)
        ==> HashRevealed(m.forwarding.tables, s.input.secret.value))
    && (cfg.dispute.onlyBeneficial || s.input.beneficialOnly ==> GivesLess(e, s))
  }

  lemma WinsIff(cfg: NodeConfig, m: Node, e: PrintEvent, s: SignatureState)
    requires e.pipeKey.Some? && NonceOf(e).Some? && CloserOf(e).Some?
    ensures Wins(cfg.dispute.onlyBeneficial, m.signatures, m.forwarding.tables, e,
                 PipeRef(e.contractId, e.pipeKey.value), NonceOf(e).value, CloserOf(e).value, s)
       <==> Answers(cfg, m, e, s)
  {
    EligibleMeans(cfg.dispute.onlyBeneficial, SecretViewOf(m.forwarding.tables, s), e, NonceOf(e).value, s);
    if s.input.secret.Some? {
      HashViewIs(m.forwarding.tables, s);
    }
  }

  lemma HashViewIs(fwd: ForwardTables, s: SignatureState)
    requires s.input.secret.Some?
    ensures SecretViewOf(fwd, s).known <==> HashStored(fwd, s.input.secret.value)
    ensures SecretViewOf(fwd, s).revealed <==> HashRevealed(fwd, s.input.secret.value)
  {
    var key := Canonical(s.input.secret.value);
    forall id ensures RowReveals(fwd, key, id) <==>
      id in fwd.payments && fwd.payments[id].hashedSecret == Some(key) && fwd.payments[id].revealedSecret.Some?
    {
    }
  }

  /** In every interleaved run, what an event makes the node submit answers it, and no other stored state that
      answers it has a higher nonce, or the same nonce and a later time. A transfer state locked with a stored
      hash goes with a preimage of it; any other state goes with the secret it has, if any. */
  lemma DisputeAnswersTheEvent(cfg: NodeConfig, n: Node, steps: seq<NodeStep>, e: PrintEvent, a: Answer, now: int)
    requires RevealRuns.WorldSound(cfg.env, n.forwarding) && n.submissions == []
    requires |Step(cfg, Run(cfg, n, steps), Chain(e, a, now)).submissions| > |Run(cfg, n, steps).submissions|
    ensures var m := Run(cfg, n, steps);
            var made := Step(cfg, m, Chain(e, a, now)).submissions[|m.submissions|];
            var s := made.state;
            && OpensClosure(e) && Watches(cfg.signing.watched, e) && Answers(cfg, m, e, s)
            && (forall other :: Answers(cfg, m, e, other) ==>
                  || other.input.nonce < s.input.nonce
                  || (other.input.nonce == s.input.nonce && other.updatedAt <= s.updatedAt))
            && (if s.input.action == ACTION_TRANSFER && s.input.secret.Some?
                   && HashStored(m.forwarding.tables, s.input.secret.value)
                then made.resolved.Some? && cfg.env.sha256(made.resolved.value) == s.input.secret.value
                else made.resolved == s.input.secret)
  {
    var m := Run(cfg, n, steps);
    var closure := DisputedClosure(cfg, e, now).value;
    SubmissionIsBestStoredState(cfg.dispute, m.signatures, m.attempts, m.forwarding.tables, e, closure, a);
    DisputesCarryPreimages(cfg, n, steps);
    SubmissionIsGenuine(cfg, m, e, closure, a);
    forall other ensures Wins(cfg.dispute.onlyBeneficial, m.signatures, m.forwarding.tables, e,
                              PipeRef(e.contractId, e.pipeKey.value), NonceOf(e).value, CloserOf(e).value, other)
                    <==> Answers(cfg, m, e, other)
    {
      WinsIff(cfg, m, e, other);
    }
  }
}
