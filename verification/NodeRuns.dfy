/** Runs of the whole node. A signing request awaits its verifier and its signer between check and
    commit, so requests are interleaved with each other, with posted states, chain events, burn blocks,
    disputes and forwarding writes. An event is handled to the end before the next one (the ingests of
    one observer are sequential), everything else in any order. */
module NodeRuns {
  import opened Wrappers
  import opened Octets
  import opened Principals
  import opened NodeTypes
  import opened Settlement
  import opened Observer
  import opened Signing
  import opened Forwarding
  import opened RevealRuns
  import opened Dispute

  datatype NodeConfig = NodeConfig(signing: Config, dispute: DisputeConfig, env: Env)

  /** Which handler waits for the signature: a counterparty endpoint answers 200 or 409 by the commit;
      the forwarding endpoint passes the signature on with a `stored` flag. */
  datatype Endpoint = CounterpartyEndpoint | ForwardingEndpoint

  datatype Phase = Checked | Verified | HasSignature(signature: Bytes)

  datatype InFlight = InFlight(endpoint: Endpoint, request: SignatureInput, phase: Phase)

  /** A 200 response that is not an idempotent replay. */
  datatype FreshOk = FreshOk(ref: StateRef, request: SignatureInput)

  datatype Node = Node(
    signatures: Signatures, watch: Watch, attempts: Attempts, forwarding: RevealRuns.World,
    inFlight: map<nat, InFlight>, released: seq<FreshOk>, submissions: seq<Submission>)

  datatype NodeStep =
    | Arrive(id: nat, endpoint: Endpoint, request: SignatureInput)
    | Verify(id: nat, valid: bool)
    | SignMine(id: nat, signature: Bytes)
    | Commit(id: nat, now: int)
    | Post(input: SignatureInput, verified: bool, now: int)
    | Chain(event: PrintEvent, answer: Answer, now: int)
    | BurnBlockSeen(block: BurnBlock)
    | Forward(step: RevealRuns.Step)

  /** HTTP status by which a counterparty endpoint answers a commit. */
  function ResponseStatus(u: Upsert): nat {
    match u
    case PrincipalNotWatched => 403
    case SignatureInvalid => 401
    case PrincipalsEqual => 500
    case NonceTooLow(_) => 409
    case Stored(_, _) => 200
  }

  function CommitInput(f: InFlight): SignatureInput
    requires f.phase.HasSignature?
  {
    f.request.(mySignature := f.phase.signature)
  }

  function Committed(cfg: NodeConfig, n: Node, id: nat, now: int): Node {
    if id !in n.inFlight || !n.inFlight[id].phase.HasSignature? then n
    else
      var f := n.inFlight[id];
      var (signatures, u) := UpsertState(cfg.signing, n.signatures, CommitInput(f), true, now);
      var done := n.(signatures := signatures, inFlight := n.inFlight - {id});
      if f.endpoint.CounterpartyEndpoint? && ResponseStatus(u) == 200
      then done.(released := n.released + [FreshOk(RefOf(u.state), u.state.input)]) else done
  }

  /** The closure that an event opens and the node then tries to dispute. */
  function DisputedClosure(cfg: NodeConfig, e: PrintEvent, now: int): Option<Closure> {
    if IsWatchedPipe(cfg.signing.watched, e.pipeKey) && e.pipeKey.Some? && e.eventName.Some? &&
        Opening(e.eventName.value)
    then Some(OpenedClosure(e, now)) else None
  }

  ghost function EventHandled(cfg: NodeConfig, n: Node, e: PrintEvent, a: Answer, now: int): Node {
    var watch := Advance(cfg.signing.watched, n.watch, Event(e, now));
    var closure := DisputedClosure(cfg, e, now);
    if closure.None? then n.(watch := watch)
    else if !AnswerFits(cfg.dispute, n.signatures, n.forwarding.tables, e, closure.value, a) then n
    else
      var (attempts, submission) := TryDispute(cfg.dispute, n.attempts, n.forwarding.tables, e, closure.value, a);
      n.(watch := watch, attempts := attempts,
      submissions := if submission.Some? then n.submissions + [submission.value] else n.submissions)
  }

  /** Labels that the code could not have produced leave the node unchanged. */
  ghost function Step(cfg: NodeConfig, n: Node, s: NodeStep): Node {
    match s
    case Arrive(id, endpoint, request) =>
      if id !in n.inFlight && Check(cfg.signing, n.watch.observed, n.signatures, request).None?
      then n.(inFlight := n.inFlight[id := InFlight(endpoint, request, Checked)]) else n
    case Verify(id, valid) =>
      if id !in n.inFlight || !n.inFlight[id].phase.Checked? then n
      else if valid then n.(inFlight := n.inFlight[id := n.inFlight[id].(phase := Verified)])
      else n.(inFlight := n.inFlight - {id})
    case SignMine(id, signature) =>
      if id in n.inFlight && n.inFlight[id].phase.Verified?
      then n.(inFlight := n.inFlight[id := n.inFlight[id].(phase := HasSignature(signature))]) else n
    case Commit(id, now) => Committed(cfg, n, id, now)
    case Post(input, verified, now) =>
      n.(signatures := UpsertState(cfg.signing, n.signatures, input, verified, now).0)
    case Chain(event, answer, now) => EventHandled(cfg, n, event, answer, now)
    case BurnBlockSeen(block) => n.(watch := Advance(cfg.signing.watched, n.watch, Burn(block)))
    case Forward(step) => n.(forwarding := RevealRuns.Next(cfg.env, n.forwarding, step))
  }

  ghost function Run(cfg: NodeConfig, n: Node, steps: seq<NodeStep>): Node {
    if steps == [] then n else Step(cfg, Run(cfg, n, steps[..|steps| - 1]), steps[|steps| - 1])
  }

  /** The steps of one payload of events. */
  function ChainSteps(events: seq<PrintEvent>, answers: seq<Answer>, now: int): (steps: seq<NodeStep>)
    requires |answers| == |events|
    ensures |steps| == |events| && forall i :: 0 <= i < |events| ==> steps[i] == Chain(events[i], answers[i], now)
  {
    if events == [] then []
    else
      var n := |events| - 1;
      ChainSteps(events[..n], answers[..n], now) + [Chain(events[n], answers[n], now)]
  }

  /** `m` is what a payload leaves of `n`, apart from the submissions made. */
  ghost predicate Ingested(cfg: NodeConfig, n: Node, events: seq<PrintEvent>, answers: seq<Answer>, now: int, m: Node) {
    |answers| == |events| && m == Run(cfg, n, ChainSteps(events, answers, now)).(submissions := [])
  }

  lemma OneMoreEvent(
    cfg: NodeConfig, n: Node, events: seq<PrintEvent>, answers: seq<Answer>, now: int, m: Node,
    e: PrintEvent, a: Answer, after: Node)
    requires Ingested(cfg, n, events, answers, now, m)
    requires after == EventHandled(cfg, m, e, a, now).(submissions := [])
    ensures Ingested(cfg, n, events + [e], answers + [a], now, after)
  {
  }

  function CountWatched(watched: set<Principal>, events: seq<PrintEvent>): nat {
    if events == [] then 0
    else CountWatched(watched, events[..|events| - 1])
         + if IsWatchedPipe(watched, events[|events| - 1].pipeKey) then 1 else 0
  }

  // ---------- Stored nonces only rise ----------

  /** Rows never disappear, and a row that changes gets a higher nonce. */
  ghost predicate Rises(before: Signatures, after: Signatures) {
    forall ref :: ref in before ==>
      ref in after && (after[ref] == before[ref] || before[ref].input.nonce < after[ref].input.nonce)
  }

  lemma UpsertRises(cfg: Config, signatures: Signatures, input: SignatureInput, verified: bool, now: int)
    requires SignaturesKeyed(signatures)
    ensures var after := UpsertState(cfg, signatures, input, verified, now).0;
            SignaturesKeyed(after) && Rises(signatures, after)
  {
    UpsertRaisesNonce(cfg, signatures, input, verified, now);
  }

  lemma StepRaisesNonces(cfg: NodeConfig, n: Node, s: NodeStep)
    requires SignaturesKeyed(n.signatures)
    ensures SignaturesKeyed(Step(cfg, n, s).signatures) && Rises(n.signatures, Step(cfg, n, s).signatures)
  {
    match s
    case Commit(id, now) =>
      if id in n.inFlight && n.inFlight[id].phase.HasSignature? {
        UpsertRises(cfg.signing, n.signatures, CommitInput(n.inFlight[id]), true, now);
      }
    case Post(input, verified, now) => UpsertRises(cfg.signing, n.signatures, input, verified, now);
    case _ => assert Step(cfg, n, s).signatures == n.signatures;
  }

  lemma {:induction false} RunsRaiseNonces(cfg: NodeConfig, n: Node, steps: seq<NodeStep>)
    requires SignaturesKeyed(n.signatures)
    ensures SignaturesKeyed(Run(cfg, n, steps).signatures)
    ensures Rises(n.signatures, Run(cfg, n, steps).signatures)
  {
    if steps != [] {
      RunsRaiseNonces(cfg, n, steps[..|steps| - 1]);
      StepRaisesNonces(cfg, Run(cfg, n, steps[..|steps| - 1]), steps[|steps| - 1]);
    }
  }

  /** Stored states lie on the canonical pipe of their own principals, one of which is the owner. */
  ghost predicate CanonicalStates(cfg: Config, signatures: Signatures) {
    forall ref :: ref in signatures ==>
      && StateRefOf(cfg, signatures[ref].input) == Ok(ref)
      && ref.owner in {ref.pipe.pipeId.principal1, ref.pipe.pipeId.principal2}
  }

  lemma UpsertKeepsCanonical(cfg: Config, signatures: Signatures, input: SignatureInput, verified: bool, now: int)
    requires CanonicalStates(cfg, signatures)
    ensures CanonicalStates(cfg, UpsertState(cfg, signatures, input, verified, now).0)
  {
  }

  lemma StepKeepsCanonical(cfg: NodeConfig, n: Node, s: NodeStep)
    requires CanonicalStates(cfg.signing, n.signatures)
    ensures CanonicalStates(cfg.signing, Step(cfg, n, s).signatures)
  {
    if s.Commit? && s.id in n.inFlight && n.inFlight[s.id].phase.HasSignature? {
      UpsertKeepsCanonical(cfg.signing, n.signatures, CommitInput(n.inFlight[s.id]), true, s.now);
    } else if s.Post? {
      UpsertKeepsCanonical(cfg.signing, n.signatures, s.input, s.verified, s.now);
    } else {
      assert Step(cfg, n, s).signatures == n.signatures;
    }
  }

  /** In every run each stored state is keyed by the canonical pipe of its principals. */
  lemma {:induction false} RunsKeepCanonicalStates(cfg: NodeConfig, n: Node, steps: seq<NodeStep>)
    requires CanonicalStates(cfg.signing, n.signatures)
    ensures CanonicalStates(cfg.signing, Run(cfg, n, steps).signatures)
  {
    if steps != [] {
      RunsKeepCanonicalStates(cfg, n, steps[..|steps| - 1]);
      StepKeepsCanonical(cfg, Run(cfg, n, steps[..|steps| - 1]), steps[|steps| - 1]);
    }
  }

  /** A request whose four steps follow each other is one atomic signing. */
  lemma UninterruptedRequestIsAtomic(cfg: NodeConfig, n: Node, id: nat, endpoint: Endpoint, job: Job)
    requires id !in n.inFlight
    ensures var after := FourSteps(cfg, n, id, endpoint, job);
            && after.signatures == Sign(cfg.signing, n.watch.observed, n.signatures, job).0
            && (endpoint.CounterpartyEndpoint? ==>
                  |after.released|
                  == |n.released| + if Sign(cfg.signing, n.watch.observed, n.signatures, job).1 then 1 else 0)
  {
    var n1 := Step(cfg, n, Arrive(id, endpoint, job.request));
    var n2 := Step(cfg, n1, Verify(id, job.verified));
    var n3 := Step(cfg, n2, SignMine(id, job.mySignature));
    if Check(cfg.signing, n.watch.observed, n.signatures, job.request).Some? {
      assert n1 == n && n2 == n && n3 == n;
    } else if !job.verified {
      assert id !in n2.inFlight && n3 == n2;
    } else {
      assert n2.inFlight[id] == InFlight(endpoint, job.request, Verified);
      assert n3 == n.(inFlight := n3.inFlight)
             && n3.inFlight[id] == InFlight(endpoint, job.request, HasSignature(job.mySignature));
    }
  }

  ghost function FourSteps(cfg: NodeConfig, n: Node, id: nat, endpoint: Endpoint, job: Job): Node {
    var n1 := Step(cfg, n, Arrive(id, endpoint, job.request));
    var n2 := Step(cfg, n1, Verify(id, job.verified));
    var n3 := Step(cfg, n2, SignMine(id, job.mySignature));
    Step(cfg, n3, Commit(id, job.now))
  }

  /** In every run, a request that passes the policy for a watched counterparty and is not interrupted is
      stored, with a nonce above the stored one and above a completely observed one. */
  lemma PassingRequestIsStoredInEveryRun(cfg: NodeConfig, n: Node, steps: seq<NodeStep>, job: Job)
    requires SignaturesKeyed(n.signatures)
    requires var m := Run(cfg, n, steps);
             && Check(cfg.signing, m.watch.observed, m.signatures, job.request).None?
             && IsWatchedPrincipal(cfg.signing.watched, job.request.forPrincipal) && job.verified
    ensures StateRefOf(cfg.signing, job.request).Ok?
    ensures var m, ref := Run(cfg, n, steps), StateRefOf(cfg.signing, job.request).value;
            && Sign(cfg.signing, m.watch.observed, m.signatures, job).1
            && (ref in n.signatures ==> n.signatures[ref].input.nonce < job.request.nonce)
            && (ref in m.signatures ==> m.signatures[ref].input.nonce < job.request.nonce)
            && (ObservedCandidate(m.watch.observed, ref).Some? ==>
                 m.watch.observed[ref.pipe].nonce.value < job.request.nonce)
  {
    RunsRaiseNonces(cfg, n, steps);
    var m := Run(cfg, n, steps);
    PassingThePolicyMeansStored(cfg.signing, m.watch.observed, m.signatures, job);
  }

  // ---------- No nonce is released twice ----------

  /** The fresh 200 responses for one state have rising nonces, none above the stored one. */
  ghost predicate FreshRise(signatures: Signatures, released: seq<FreshOk>) {
    && (forall i :: 0 <= i < |released| ==>
          released[i].ref in signatures && released[i].request.nonce <= signatures[released[i].ref].input.nonce)
    && (forall i, j :: 0 <= i < j < |released| && released[i].ref == released[j].ref
          ==> released[i].request.nonce < released[j].request.nonce)
  }

  lemma OneMoreRelease(signatures: Signatures, released: seq<FreshOk>, s: SignatureState)
    requires FreshRise(signatures, released)
    requires RefOf(s) in signatures ==> signatures[RefOf(s)].input.nonce < s.input.nonce
    ensures FreshRise(signatures[RefOf(s) := s], released + [FreshOk(RefOf(s), s.input)])
  {
  }

  lemma StaysRisen(before: Signatures, after: Signatures, released: seq<FreshOk>)
    requires FreshRise(before, released)
    requires forall ref :: ref in before ==> ref in after && before[ref].input.nonce <= after[ref].input.nonce
    ensures FreshRise(after, released)
  {
  }

  lemma StepKeepsFreshRise(cfg: NodeConfig, n: Node, s: NodeStep)
    requires SignaturesKeyed(n.signatures) && FreshRise(n.signatures, n.released)
    ensures FreshRise(Step(cfg, n, s).signatures, Step(cfg, n, s).released)
  {
    if s.Commit? && s.id in n.inFlight && n.inFlight[s.id].phase.HasSignature? {
      CommitKeepsFreshRise(cfg, n, s.id, s.now);
    } else {
      assert Step(cfg, n, s).released == n.released;
      StepRaisesNonces(cfg, n, s);
      StaysRisen(n.signatures, Step(cfg, n, s).signatures, n.released);
    }
  }

  lemma CommitKeepsFreshRise(cfg: NodeConfig, n: Node, id: nat, now: int)
    requires SignaturesKeyed(n.signatures) && FreshRise(n.signatures, n.released)
    requires id in n.inFlight && n.inFlight[id].phase.HasSignature?
    ensures FreshRise(Step(cfg, n, Commit(id, now)).signatures, Step(cfg, n, Commit(id, now)).released)
  {
    var input := CommitInput(n.inFlight[id]);
    UpsertRaisesNonce(cfg.signing, n.signatures, input, true, now);
    var u := UpsertState(cfg.signing, n.signatures, input, true, now).1;
    if u.Stored? {
      OneMoreRelease(n.signatures, n.released, u.state);
    }
  }

  lemma {:induction false} FreshResponsesRise(cfg: NodeConfig, n: Node, steps: seq<NodeStep>)
    requires SignaturesKeyed(n.signatures) && FreshRise(n.signatures, n.released)
    ensures SignaturesKeyed(Run(cfg, n, steps).signatures)
    ensures FreshRise(Run(cfg, n, steps).signatures, Run(cfg, n, steps).released)
  {
    if steps != [] {
      var before := Run(cfg, n, steps[..|steps| - 1]);
      FreshResponsesRise(cfg, n, steps[..|steps| - 1]);
      StepRaisesNonces(cfg, before, steps[|steps| - 1]);
      StepKeepsFreshRise(cfg, before, steps[|steps| - 1]);
    }
  }

  /** However requests interleave, the counterparty endpoints never answer two fresh requests for one
      contract, pipe and principal with 200 and the same nonce. */
  lemma NoNonceReleasedTwice(cfg: NodeConfig, n: Node, steps: seq<NodeStep>, i: nat, j: nat)
    requires SignaturesKeyed(n.signatures) && n.released == []
    requires i < j < |Run(cfg, n, steps).released|
    ensures var released := Run(cfg, n, steps).released;
            released[i].ref == released[j].ref ==> released[i].request.nonce != released[j].request.nonce
  {
    FreshResponsesRise(cfg, n, steps);
  }

  // ---------- Disputes succeed once ----------

  /** A success record is for good. */
  ghost predicate SuccessesStay(before: Attempts, after: Attempts) {
    forall id :: id in before && before[id].success ==> id in after && after[id] == before[id]
  }

  /** The successful submissions of a run are exactly the success records made during it, each once. */
  ghost predicate SuccessesOnce(start: Attempts, attempts: Attempts, made: seq<Submission>) {
    && (forall i :: 0 <= i < |made| && made[i].success ==>
          AlreadySubmitted(attempts, made[i].id) && !AlreadySubmitted(start, made[i].id))
    && (forall i, j :: 0 <= i < j < |made| && made[i].success && made[j].success ==> made[i].id != made[j].id)
    && (forall id :: AlreadySubmitted(attempts, id) ==>
          AlreadySubmitted(start, id) || exists i :: 0 <= i < |made| && made[i].success && made[i].id == id)
  }

  /** One more attempt under an id that has not succeeded yet. */
  lemma AttemptKeepsSuccesses(start: Attempts, attempts: Attempts, made: seq<Submission>, s: Submission,
      attempt: DisputeAttempt)
    requires SuccessesOnce(start, attempts, made) && SuccessesStay(start, attempts)
    requires !AlreadySubmitted(attempts, s.id) && attempt.success == s.success
    ensures SuccessesOnce(start, attempts[s.id := attempt], made + [s])
    ensures SuccessesStay(start, attempts[s.id := attempt]) && SuccessesStay(attempts, attempts[s.id := attempt])
  {
    var all, after := made + [s], attempts[s.id := attempt];
    assert forall i :: 0 <= i < |made| ==> all[i] == made[i];
    forall id | AlreadySubmitted(after, id) && !AlreadySubmitted(start, id)
      ensures exists i :: 0 <= i < |all| && all[i].success && all[i].id == id
    {
      if id == s.id {
        assert all[|made|].success;
      } else {
        assert AlreadySubmitted(attempts, id);
        var i :| 0 <= i < |made| && made[i].success && made[i].id == id;
        assert all[i].success;
      }
    }
  }

  lemma StepKeepsSuccesses(cfg: NodeConfig, start: Attempts, n: Node, s: NodeStep)
    requires SuccessesOnce(start, n.attempts, n.submissions) && SuccessesStay(start, n.attempts)
    ensures var after := Step(cfg, n, s);
            && SuccessesOnce(start, after.attempts, after.submissions) && SuccessesStay(start, after.attempts)
            && SuccessesStay(n.attempts, after.attempts)
  {
    if s.Chain? {
      var closure := DisputedClosure(cfg, s.event, s.now);
      if closure.Some? {
        var (attempts, made) := TryDispute(cfg.dispute, n.attempts, n.forwarding.tables, s.event, closure.value,
            s.answer);
        if made.Some? {
          AttemptKeepsSuccesses(start, n.attempts, n.submissions, made.value, attempts[made.value.id]);
        }
      }
    }
  }

  /** Each attempt id succeeds at most once over a run, and its record is never overwritten. */
  lemma {:induction false} DisputesSucceedOnce(cfg: NodeConfig, n: Node, steps: seq<NodeStep>)
    requires n.submissions == []
    ensures var after := Run(cfg, n, steps);
            SuccessesOnce(n.attempts, after.attempts, after.submissions) && SuccessesStay(n.attempts, after.attempts)
  {
    if steps != [] {
      DisputesSucceedOnce(cfg, n, steps[..|steps| - 1]);
      StepKeepsSuccesses(cfg, n.attempts, Run(cfg, n, steps[..|steps| - 1]), steps[|steps| - 1]);
    }
  }

  // ---------- Disputes carry genuine preimages ----------

  ghost predicate GenuinePreimage(cfg: NodeConfig, s: Submission) {
    LocksSecret(s.state) && s.hashKnown ==>
      s.resolved.Some? && cfg.env.sha256(s.resolved.value) == s.state.input.secret.value
  }

  ghost predicate PreimagesGenuine(cfg: NodeConfig, n: Node) {
    && WorldSound(cfg.env, n.forwarding)
    && forall i :: 0 <= i < |n.submissions| ==> GenuinePreimage(cfg, n.submissions[i])
  }

  lemma SubmissionIsGenuine(cfg: NodeConfig, n: Node, e: PrintEvent, closure: Closure, a: Answer)
    requires SecretsSound(cfg.env, n.forwarding.tables)
    requires AnswerFits(cfg.dispute, n.signatures, n.forwarding.tables, e, closure, a)
    requires TryDispute(cfg.dispute, n.attempts, n.forwarding.tables, e, closure, a).1.Some?
    ensures GenuinePreimage(cfg, TryDispute(cfg.dispute, n.attempts, n.forwarding.tables, e, closure, a).1.value)
  {
  }

  lemma StepKeepsPreimagesGenuine(cfg: NodeConfig, n: Node, s: NodeStep)
    requires PreimagesGenuine(cfg, n)
    ensures PreimagesGenuine(cfg, Step(cfg, n, s))
  {
    if s.Forward? {
      NextKeepsSecrets(cfg.env, n.forwarding, s.step);
    } else if s.Chain? {
      var closure := DisputedClosure(cfg, s.event, s.now);
      if closure.Some? && AnswerFits(cfg.dispute, n.signatures, n.forwarding.tables, s.event, closure.value, s.answer)
         && TryDispute(cfg.dispute, n.attempts, n.forwarding.tables, s.event, closure.value, s.answer).1.Some? {
        SubmissionIsGenuine(cfg, n, s.event, closure.value, s.answer);
      }
    }
  }

  /** Every dispute on a hash-locked transfer whose hash forwarding knows at that moment carries a
      preimage of the hash, whatever was pruned and however the forwarding handlers interleave. */
  lemma {:induction false} DisputesCarryPreimages(cfg: NodeConfig, n: Node, steps: seq<NodeStep>)
    requires WorldSound(cfg.env, n.forwarding) && n.submissions == []
    ensures PreimagesGenuine(cfg, Run(cfg, n, steps))
  {
    if steps != [] {
      DisputesCarryPreimages(cfg, n, steps[..|steps| - 1]);
      StepKeepsPreimagesGenuine(cfg, Run(cfg, n, steps[..|steps| - 1]), steps[|steps| - 1]);
    }
  }

  // ---------- The stretch property reaches the dispute ----------

  /** After any stretch of atomic signing, a dispute submitted for the counterparty carries the stored
      state, whose balance and nonce are the largest the counterparty signed in the stretch. */
  lemma DisputeAfterStretchUsesBestState(
    cfg: NodeConfig, observed: ObservedPipes, signatures: Signatures, jobs: seq<Job>, i: nat, ref: StateRef,
    attempts: Attempts, fwd: ForwardTables, e: PrintEvent, closure: Closure, a: Answer)
    requires SignedFor(cfg.signing, observed, signatures, jobs, i, ref)
    requires ref.pipe == PipeRef(closure.contractId, closure.pipeId)
    requires var after := SignAll(cfg.signing, observed, signatures, jobs);
             && AnswerFits(cfg.dispute, after, fwd, e, closure, a)
             && TryDispute(cfg.dispute, attempts, fwd, e, closure, a).1.Some?
    requires a.choice.value.input.forPrincipal == ref.owner
    ensures var s := TryDispute(cfg.dispute, attempts, fwd, e, closure, a).1.value.state;
            jobs[i].request.myBalance <= s.input.myBalance && jobs[i].request.nonce <= s.input.nonce
  {
    StoredStateIsBestSigned(cfg.signing, observed, signatures, jobs, i, ref);
    SubmissionIsBestStoredState(cfg.dispute, SignAll(cfg.signing, observed, signatures, jobs), attempts, fwd, e,
        closure, a);
  }

  // ---------- Disputes and released signatures ----------

  /** In every interleaved run a dispute submitted for an owner carries at least the nonce of every fresh 200
      response given for that state so far. */
  lemma DisputeIsNotBelowReleased(cfg: NodeConfig, n: Node, steps: seq<NodeStep>, e: PrintEvent, a: Answer, now: int,
      i: nat)
    requires SignaturesKeyed(n.signatures) && n.released == [] && i < |Run(cfg, n, steps).released|
    requires |Step(cfg, Run(cfg, n, steps), Chain(e, a, now)).submissions| > |Run(cfg, n, steps).submissions|
    ensures var m := Run(cfg, n, steps);
            var s := Step(cfg, m, Chain(e, a, now)).submissions[|m.submissions|].state;
            m.released[i].ref == RefOf(s) ==> m.released[i].request.nonce <= s.input.nonce
  {
    FreshResponsesRise(cfg, n, steps);
    var m := Run(cfg, n, steps);
    var closure := DisputedClosure(cfg, e, now).value;
    SubmissionIsBestStoredState(cfg.dispute, m.signatures, m.attempts, m.forwarding.tables, e, closure, a);
  }

  // ---------- One orientation of the balances ----------

  /** The balance that a snapshot gives a principal is the same for the signing baseline that it leaves and
      for the dispute that compares against the closure. */
  lemma SnapshotBaselineIsClosureBalance(e: PrintEvent, now: int, owner: Principal)
    requires e.pipeKey.Some? && e.eventName.Some? && e.pipe.Some? && e.pipe.value.nonce.Some?
    requires owner in {e.pipeKey.value.principal1, e.pipeKey.value.principal2}
    requires e.pipeKey.value.principal1 != e.pipeKey.value.principal2
    ensures var b := ObservedBaseline(SnapshotRecord(e, now), owner);
            && (b.Some? ==> ClosureSideBalance(e, owner) == Some(b.value.myBalance))
            && (b.Some? ==> forall other ::
                  other in {e.pipeKey.value.principal1, e.pipeKey.value.principal2} && other != owner
                  ==> ClosureSideBalance(e, other) == Some(b.value.theirBalance))
  {
  }

  function SidePending(e: PrintEvent, owner: Principal): Pending
    requires e.pipeKey.Some? && e.pipe.Some?
  {
    (if e.pipeKey.value.principal1 == owner then e.pipe.value.pending1
        else e.pipe.value.pending2).GetOr(NOTHING_PENDING)
  }

  /** A deposit reported for a principal reaches that principal's balance in the signing baseline, at the
      first burn block of its height and no earlier. */
  lemma SettledDepositIsTheOwners(e: PrintEvent, now: int, block: BurnBlock, owner: Principal)
    requires e.pipeKey.Some? && e.eventName.Some? && e.pipe.Some? && e.pipe.value.nonce.Some?
    requires e.pipe.value.balance1.Some? && e.pipe.value.balance2.Some?
    requires owner in {e.pipeKey.value.principal1, e.pipeKey.value.principal2}
    ensures var b := ObservedBaseline(Settle(SnapshotRecord(e, now), block.height, block.now), owner);
            var pending := SidePending(e, owner);
            b.Some? && b.value.myBalance == ClosureSideBalance(e, owner).value
                                            + if Complete(pending) && pending.burnHeight.value <= block.height
                                              then pending.amount.value else 0
  {
  }
}
