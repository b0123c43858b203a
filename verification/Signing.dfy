/** Which states the counterparty signs and which ones the node stores:
    `server/src/counterparty-service.ts` (baseline and policy) and `upsertSignatureState` of
    `server/src/stackflow-node.ts`. */
module Signing {
  import opened Wrappers
  import opened Octets
  import opened Principals
  import opened NodeTypes
  import opened Observer

  /** The parts of the node's configuration that decide: the watch list and the serialization of
      principals. */
  datatype Config = Config(watched: set<Principal>, ser: Principal -> Bytes)

  // ---------- The baseline ----------

  datatype Source = OnChain | FromState

  datatype Baseline = Baseline(source: Source, nonce: nat, myBalance: nat, theirBalance: nat, updatedAt: int)

  predicate ShouldReplaceBaseline(existing: Baseline, incoming: Baseline) {
    if incoming.nonce != existing.nonce then incoming.nonce > existing.nonce
    else if incoming.updatedAt != existing.updatedAt then incoming.updatedAt > existing.updatedAt
    else existing.source != incoming.source && incoming.source == OnChain
  }

  /** An observed pipe counts only when its nonce and both balances are known. */
  function ObservedBaseline(o: ObservedPipe, owner: Principal): Option<Baseline> {
    var (mine, theirs) := if o.pipeKey.principal1 == owner then (o.balance1, o.balance2) else (o.balance2, o.balance1);
    if o.nonce.None? || mine.None? || theirs.None? then None
    else Some(Baseline(OnChain, o.nonce.value, mine.value, theirs.value, o.updatedAt))
  }

  function StateBaseline(s: SignatureState): Baseline {
    Baseline(FromState, s.input.nonce, s.input.myBalance, s.input.theirBalance, s.updatedAt)
  }

  function Consider(best: Option<Baseline>, candidate: Option<Baseline>): Option<Baseline> {
    if candidate.None? then best
    else if best.None? || ShouldReplaceBaseline(best.value, candidate.value) then candidate
    else best
  }

  function ObservedCandidate(observed: ObservedPipes, ref: StateRef): Option<Baseline> {
    if ref.pipe in observed then ObservedBaseline(observed[ref.pipe], ref.owner) else None
  }

  function StateCandidate(signatures: Signatures, ref: StateRef): Option<Baseline> {
    if ref in signatures then Some(StateBaseline(signatures[ref])) else None
  }

  /** The better of the observed pipe and the stored state. */
  function BaselineOf(observed: ObservedPipes, signatures: Signatures, ref: StateRef): Option<Baseline> {
    Consider(ObservedCandidate(observed, ref), StateCandidate(signatures, ref))
  }

  /** A list of all rows of a table, whose rows carry their own keys. */
  ghost predicate ListsObserved(s: seq<ObservedPipe>, t: ObservedPipes) {
    && ObservedKeyed(t)
    && (forall k :: k in t ==> t[k] in s)
    && (forall o :: o in s ==> RefOfObserved(o) in t && t[RefOfObserved(o)] == o)
  }

  ghost predicate ListsStates(s: seq<SignatureState>, t: Signatures) {
    && SignaturesKeyed(t)
    && (forall k :: k in t ==> t[k] in s)
    && (forall r :: r in s ==> RefOf(r) in t && t[RefOf(r)] == r)
  }

  /** `resolveCurrentBaseline` over the two lists of the node's status, in whatever order they come. */
  method ResolveCurrentBaseline(
    observedPipes: seq<ObservedPipe>, signatureStates: seq<SignatureState>, ref: StateRef,
    ghost observed: ObservedPipes, ghost signatures: Signatures)
    returns (best: Option<Baseline>)
    requires ListsObserved(observedPipes, observed) && ListsStates(signatureStates, signatures)
    ensures best == BaselineOf(observed, signatures, ref)
  {
    best := None;
    for i := 0 to |observedPipes|
      invariant best == None || best == ObservedCandidate(observed, ref)
      invariant ref.pipe in observed && observed[ref.pipe] in observedPipes[..i] ==>
                best == ObservedCandidate(observed, ref)
    {
      var o := observedPipes[i];
      assert o in observedPipes && observedPipes[..i + 1] == observedPipes[..i] + [o];
      if o.contractId == ref.pipe.contractId && o.pipeKey == ref.pipe.pipeId {
        best := Consider(best, ObservedBaseline(o, ref.owner));
      }
    }
    assert observedPipes[..|observedPipes|] == observedPipes;
    assert best == ObservedCandidate(observed, ref);
    ghost var chain := best;
    for i := 0 to |signatureStates|
      invariant best == chain || best == Consider(chain, StateCandidate(signatures, ref))
      invariant ref in signatures && signatures[ref] in signatureStates[..i]
                ==> best == Consider(chain, StateCandidate(signatures, ref))
    {
      var s := signatureStates[i];
      assert s in signatureStates && signatureStates[..i + 1] == signatureStates[..i] + [s];
      assert RefOf(s) == ref <==> s.input.contractId == ref.pipe.contractId && s.pipeId == ref.pipe.pipeId
                                  && s.input.forPrincipal == ref.owner;
      if s.input.contractId == ref.pipe.contractId && s.pipeId == ref.pipe.pipeId && s.input.forPrincipal == ref.owner {
        best := Consider(best, Some(StateBaseline(s)));
      }
    }
    assert signatureStates[..|signatureStates|] == signatureStates;
  }

  /** The baseline is one of its two candidates, no candidate beats it, and none exists only if both are absent. */
  lemma BaselineIsBest(observed: ObservedPipes, signatures: Signatures, ref: StateRef)
    ensures var best := BaselineOf(observed, signatures, ref);
            var candidates := {ObservedCandidate(observed, ref), StateCandidate(signatures, ref)};
            && best in candidates
            && (forall c :: c in candidates && c.Some? ==>
                  best.Some? && c.value.nonce <= best.value.nonce && !ShouldReplaceBaseline(best.value, c.value))
  {
  }

  // ---------- The policy ----------

  datatype Refusal =
    | SamePrincipals | UnknownPipeState | RequestNonceTooLow
    | BalanceDecrease | InvalidTransferTotal | TransferNotBeneficial

  function EnforceSigningPolicy(baseline: Option<Baseline>, r: SignatureInput): Option<Refusal> {
    if baseline.None? then Some(UnknownPipeState)
    else
      var b := baseline.value;
      if r.nonce <= b.nonce then Some(RequestNonceTooLow)
      else if r.myBalance < b.myBalance then Some(BalanceDecrease)
      else if r.action == ACTION_TRANSFER && r.myBalance + r.theirBalance != b.myBalance + b.theirBalance
      then Some(InvalidTransferTotal)
      else if r.action == ACTION_TRANSFER && r.myBalance <= b.myBalance then Some(TransferNotBeneficial)
      else None
  }

  function StateRefOf(cfg: Config, r: SignatureInput): Result<StateRef, string> {
    match CanonicalPipeKey(cfg.ser, r.token, r.forPrincipal, r.withPrincipal)
    case Ok(key) => Ok(StateRef(PipeRef(r.contractId, key), r.forPrincipal))
    case Err(e) => Err(e)
  }

  /** The check step of `signState`. */
  function Check(cfg: Config, observed: ObservedPipes, signatures: Signatures, r: SignatureInput): Option<Refusal> {
    match StateRefOf(cfg, r)
    case Err(_) => Some(SamePrincipals)
    case Ok(ref) => EnforceSigningPolicy(BaselineOf(observed, signatures, ref), r)
  }

  /** The check passes exactly when something is known of the pipe, the nonce is above everything known, and
      the balances do right by the counterparty compared with the best candidate. */
  lemma PolicyAcceptsIff(cfg: Config, observed: ObservedPipes, signatures: Signatures, r: SignatureInput)
    requires r.forPrincipal != r.withPrincipal
    ensures StateRefOf(cfg, r).Ok?
    ensures var ref := StateRefOf(cfg, r).value;
            var candidates := {ObservedCandidate(observed, ref), StateCandidate(signatures, ref)};
            Check(cfg, observed, signatures, r).None? <==>
              && (forall c :: c in candidates && c.Some? ==> c.value.nonce < r.nonce)
              && exists best :: best in candidates && best.Some?
                   && (forall c :: c in candidates && c.Some? ==> !ShouldReplaceBaseline(best.value, c.value))
                   && best.value.myBalance <= r.myBalance
                   && (r.action == ACTION_TRANSFER ==>
                         best.value.myBalance < r.myBalance
                         && best.value.myBalance + best.value.theirBalance == r.myBalance + r.theirBalance)
  {
    var ref := StateRefOf(cfg, r).value;
    var o, t := ObservedCandidate(observed, ref), StateCandidate(signatures, ref);
    var candidates, best := {o, t}, BaselineOf(observed, signatures, ref);
    BaselineIsBest(observed, signatures, ref);
    if o.Some? && t.Some? {
      assert o.value.source != t.value.source;
      assert ShouldReplaceBaseline(o.value, t.value) || ShouldReplaceBaseline(t.value, o.value);
    }
    assert forall c :: c in candidates ==> c == o || c == t;
    assert o in candidates && t in candidates;
  }

  // ---------- The store ----------

  datatype Upsert =
    | PrincipalNotWatched
    | SignatureInvalid
    | PrincipalsEqual
    | NonceTooLow(existing: SignatureState)
    | Stored(replaced: bool, state: SignatureState)

  /** `upsertSignatureState`; `verified` is the verifier's answer, and true when verification is skipped. */
  function UpsertState(cfg: Config, signatures: Signatures, input: SignatureInput, verified: bool, now: int)
    : (Signatures, Upsert)
  {
    if !IsWatchedPrincipal(cfg.watched, input.forPrincipal) then (signatures, PrincipalNotWatched)
    else if !verified then (signatures, SignatureInvalid)
    else match StateRefOf(cfg, input)
      case Err(_) => (signatures, PrincipalsEqual)
      case Ok(ref) =>
        var next := SignatureState(ref.pipe.pipeId, input, now);
        if ref in signatures then
          if input.nonce <= signatures[ref].input.nonce then (signatures, NonceTooLow(signatures[ref]))
          else (signatures[ref := next], Stored(true, next))
        else (signatures[ref := next], Stored(false, next))
  }

  /** An upsert touches at most the row of its own state, only to raise the nonce of that row, and
      reports `Stored` exactly when it did. */
  lemma UpsertRaisesNonce(cfg: Config, signatures: Signatures, input: SignatureInput, verified: bool, now: int)
    requires SignaturesKeyed(signatures)
    ensures var (after, u) := UpsertState(cfg, signatures, input, verified, now);
            && SignaturesKeyed(after)
            && (u.Stored? <==> after != signatures)
            && (u.Stored? ==> after == signatures[RefOf(u.state) := u.state] && u.state.input == input)
            && (u.Stored? && RefOf(u.state) in signatures ==> signatures[RefOf(u.state)].input.nonce < input.nonce)
            && (u.NonceTooLow? ==> RefOf(u.existing) in signatures && input.nonce <= u.existing.input.nonce)
  {
  }

  // ---------- Atomic signing ----------

  /** One signing request without interleaving: what arrives, and what the signers answer. */
  datatype Job = Job(request: SignatureInput, verified: bool, mySignature: Bytes, now: int)

  function SignedInput(job: Job): SignatureInput { job.request.(mySignature := job.mySignature) }

  function Sign(cfg: Config, observed: ObservedPipes, signatures: Signatures, job: Job): (Signatures, bool) {
    if Check(cfg, observed, signatures, job.request).Some? || !job.verified then (signatures, false)
    else
      var (after, u) := UpsertState(cfg, signatures, SignedInput(job), true, job.now);
      (after, u.Stored?)
  }

  /** A request that passes the policy for a watched counterparty is stored, and its nonce is above the
      stored nonce and above the nonce of a complete observed pipe. */
  lemma PassingThePolicyMeansStored(cfg: Config, observed: ObservedPipes, signatures: Signatures, job: Job)
    requires SignaturesKeyed(signatures)
    requires Check(cfg, observed, signatures, job.request).None?
    requires IsWatchedPrincipal(cfg.watched, job.request.forPrincipal)
    ensures StateRefOf(cfg, job.request).Ok?
    ensures var ref := StateRefOf(cfg, job.request).value;
            && UpsertState(cfg, signatures, SignedInput(job), true, job.now).1.Stored?
            && (ref in signatures ==> signatures[ref].input.nonce < job.request.nonce)
            && (ObservedCandidate(observed, ref).Some? ==> observed[ref.pipe].nonce.value < job.request.nonce)
  {
  }

  // ---------- A stretch of signing with nothing else going on ----------

  function SignAll(cfg: Config, observed: ObservedPipes, signatures: Signatures, jobs: seq<Job>): Signatures {
    if jobs == [] then signatures
    else Sign(cfg, observed, SignAll(cfg, observed, signatures, jobs[..|jobs| - 1]), jobs[|jobs| - 1]).0
  }

  /** Job `i` of the stretch was signed and stored for `ref`. */
  predicate SignedFor(cfg: Config, observed: ObservedPipes, signatures: Signatures, jobs: seq<Job>, i: nat,
                      ref: StateRef)
  {
    && i < |jobs| && StateRefOf(cfg, jobs[i].request) == Ok(ref)
    && Sign(cfg, observed, SignAll(cfg, observed, signatures, jobs[..i]), jobs[i]).1
  }

  /** Signing in a prefix is signing in the whole stretch. */
  lemma PrefixSignsTheSame(
    cfg: Config, observed: ObservedPipes, signatures: Signatures, jobs: seq<Job>, n: nat, ref: StateRef)
    requires n <= |jobs|
    ensures forall i :: 0 <= i < n ==>
              (SignedFor(cfg, observed, signatures, jobs[..n], i, ref) <==>
                  SignedFor(cfg, observed, signatures, jobs, i, ref))
  {
    assert forall i :: 0 <= i < n ==> jobs[..n][..i] == jobs[..i];
  }

  ghost predicate HoldsSigned(observed: ObservedPipes, signatures: Signatures, job: Job, ref: StateRef) {
    && ref in signatures && RefOf(signatures[ref]) == ref && signatures[ref].input == SignedInput(job)
    && BaselineOf(observed, signatures, ref) == StateCandidate(signatures, ref)
  }

  /** The stored row is the last state signed, and it is ahead of the observed pipe. */
  lemma {:induction false} RowIsLastSigned(
    cfg: Config, observed: ObservedPipes, signatures: Signatures, jobs: seq<Job>, i: nat, ref: StateRef)
    requires SignedFor(cfg, observed, signatures, jobs, i, ref)
    requires forall j :: i < j < |jobs| ==> !SignedFor(cfg, observed, signatures, jobs, j, ref)
    ensures HoldsSigned(observed, SignAll(cfg, observed, signatures, jobs), jobs[i], ref)
    decreases |jobs|
  {
    var n := |jobs| - 1;
    var before := SignAll(cfg, observed, signatures, jobs[..n]);
    if i < n {
      PrefixSignsTheSame(cfg, observed, signatures, jobs, n, ref);
      RowIsLastSigned(cfg, observed, signatures, jobs[..n], i, ref);
      assert !SignedFor(cfg, observed, signatures, jobs, n, ref);
      OtherSigningsKeepTheRow(cfg, observed, before, jobs[n], ref);
    } else {
      SigningWritesTheRow(cfg, observed, before, jobs[n], ref);
    }
  }

  lemma SigningWritesTheRow(cfg: Config, observed: ObservedPipes, signatures: Signatures, job: Job, ref: StateRef)
    requires StateRefOf(cfg, job.request) == Ok(ref) && Sign(cfg, observed, signatures, job).1
    ensures var after := Sign(cfg, observed, signatures, job).0;
            HoldsSigned(observed, after, job, ref)
  {
  }

  lemma OtherSigningsKeepTheRow(cfg: Config, observed: ObservedPipes, signatures: Signatures, job: Job, ref: StateRef)
    requires StateRefOf(cfg, job.request) == Ok(ref) ==> !Sign(cfg, observed, signatures, job).1
    requires ref in signatures
    ensures forall signed :: HoldsSigned(observed, signatures, signed, ref)
              ==> HoldsSigned(observed, Sign(cfg, observed, signatures, job).0, signed, ref)
  {
  }

  /** Two consecutive signings of one state: the second was checked against the first. */
  lemma ConsecutiveSignings(
    cfg: Config, observed: ObservedPipes, signatures: Signatures, jobs: seq<Job>, i: nat, j: nat, ref: StateRef)
    requires i < j && SignedFor(cfg, observed, signatures, jobs, i, ref) &&
             SignedFor(cfg, observed, signatures, jobs, j, ref)
    requires forall k :: i < k < j ==> !SignedFor(cfg, observed, signatures, jobs, k, ref)
    ensures Progress(jobs[i].request, jobs[j].request)
    ensures jobs[j].request.action == ACTION_TRANSFER ==> Total(jobs[j].request) == Total(jobs[i].request)
  {
    var upTo := jobs[..j];
    PrefixSignsTheSame(cfg, observed, signatures, jobs, j, ref);
    RowIsLastSigned(cfg, observed, signatures, upTo, i, ref);
  }

  function Total(r: SignatureInput): nat { r.myBalance + r.theirBalance }

  /** The counterparty never loses, and every transfer pays it. */
  predicate Progress(earlier: SignatureInput, later: SignatureInput) {
    && earlier.nonce < later.nonce && earlier.myBalance <= later.myBalance
    && (later.action == ACTION_TRANSFER ==> earlier.myBalance < later.myBalance)
  }

  /** Over the whole stretch: later signings are above earlier ones, and transfers keep the total. */
  lemma {:induction false} StretchOnlyPaysTheCounterparty(
    cfg: Config, observed: ObservedPipes, signatures: Signatures, jobs: seq<Job>, i: nat, j: nat, ref: StateRef)
    requires i < j && SignedFor(cfg, observed, signatures, jobs, i, ref) &&
             SignedFor(cfg, observed, signatures, jobs, j, ref)
    ensures Progress(jobs[i].request, jobs[j].request)
    ensures (forall k :: i < k <= j && SignedFor(cfg, observed, signatures, jobs, k, ref)
                         ==> jobs[k].request.action == ACTION_TRANSFER)
            ==> Total(jobs[j].request) == Total(jobs[i].request)
    decreases j - i
  {
    if k :| i < k < j && SignedFor(cfg, observed, signatures, jobs, k, ref) {
      StretchOnlyPaysTheCounterparty(cfg, observed, signatures, jobs, i, k, ref);
      StretchOnlyPaysTheCounterparty(cfg, observed, signatures, jobs, k, j, ref);
    } else {
      ConsecutiveSignings(cfg, observed, signatures, jobs, i, j, ref);
    }
  }

  /** One atomic signing for `ref`, and any other one, seen from the baseline of `ref`. */
  lemma SigningMovesBaseline(cfg: Config, observed: ObservedPipes, signatures: Signatures, job: Job, ref: StateRef)
    ensures var (after, signed) := Sign(cfg, observed, signatures, job);
            var b, c := BaselineOf(observed, signatures, ref), BaselineOf(observed, after, ref);
            if signed && StateRefOf(cfg, job.request) == Ok(ref) then MovedBy(job.request, b, c) else c == b
  {
    BaselineIsBest(observed, signatures, ref);
  }

  /** `r` moved the baseline from `b` to `c`: higher nonce and no less for the counterparty; a transfer gives it
      more and keeps the total. */
  predicate MovedBy(r: SignatureInput, b: Option<Baseline>, c: Option<Baseline>) {
    && b.Some? && c.Some? && c.value.nonce == r.nonce && c.value.myBalance == r.myBalance
    && b.value.nonce < r.nonce && b.value.myBalance <= r.myBalance
    && (r.action == ACTION_TRANSFER ==>
          b.value.myBalance < r.myBalance && BaselineTotal(c.value) == BaselineTotal(b.value))
  }

  function BaselineTotal(b: Baseline): nat { b.myBalance + b.theirBalance }

  /** The baseline after the first `n` jobs of a stretch. */
  function BaselineAfter(
    cfg: Config, observed: ObservedPipes, signatures: Signatures, jobs: seq<Job>, n: nat, ref: StateRef)
    : Option<Baseline>
    requires n <= |jobs|
  {
    BaselineOf(observed, SignAll(cfg, observed, signatures, jobs[..n]), ref)
  }

  predicate NoWorseBaseline(b: Option<Baseline>, c: Option<Baseline>) {
    if b.None? then c.None?
    else c.Some? && b.value.nonce <= c.value.nonce && b.value.myBalance <= c.value.myBalance
  }

  lemma OneJobMovesBaseline(
    cfg: Config, observed: ObservedPipes, signatures: Signatures, jobs: seq<Job>, i: nat, ref: StateRef)
    requires i < |jobs|
    ensures var b, c := BaselineAfter(cfg, observed, signatures, jobs, i, ref),
                        BaselineAfter(cfg, observed, signatures, jobs, i + 1, ref);
            if SignedFor(cfg, observed, signatures, jobs, i, ref) then MovedBy(jobs[i].request, b, c) else c == b
  {
    assert jobs[..i + 1][..i] == jobs[..i];
    SigningMovesBaseline(cfg, observed, SignAll(cfg, observed, signatures, jobs[..i]), jobs[i], ref);
  }

  /** Between any two points of a stretch the baseline does not get worse. */
  lemma {:induction false} BaselineNeverFalls(
    cfg: Config, observed: ObservedPipes, signatures: Signatures, jobs: seq<Job>, i: nat, j: nat, ref: StateRef)
    requires i <= j <= |jobs|
    ensures NoWorseBaseline(BaselineAfter(cfg, observed, signatures, jobs, i, ref),
                            BaselineAfter(cfg, observed, signatures, jobs, j, ref))
    decreases j
  {
    if i < j {
      BaselineNeverFalls(cfg, observed, signatures, jobs, i, j - 1, ref);
      OneJobMovesBaseline(cfg, observed, signatures, jobs, j - 1, ref);
    }
  }

  /** While only transfers are signed the total is constant, and without a signing nothing changes. */
  lemma {:induction false} TransfersKeepBaselineTotal(
    cfg: Config, observed: ObservedPipes, signatures: Signatures, jobs: seq<Job>, j: nat, ref: StateRef)
    requires j <= |jobs|
    requires forall k :: 0 <= k < j && SignedFor(cfg, observed, signatures, jobs, k, ref) ==>
               jobs[k].request.action == ACTION_TRANSFER
    ensures var b, c := BaselineAfter(cfg, observed, signatures, jobs, 0, ref),
                        BaselineAfter(cfg, observed, signatures, jobs, j, ref);
            && (b.Some? <==> c.Some?)
            && (b.Some? ==> BaselineTotal(c.value) == BaselineTotal(b.value))
            && (c == b || exists k :: 0 <= k < j && SignedFor(cfg, observed, signatures, jobs, k, ref))
    decreases j
  {
    if j > 0 {
      TransfersKeepBaselineTotal(cfg, observed, signatures, jobs, j - 1, ref);
      OneJobMovesBaseline(cfg, observed, signatures, jobs, j - 1, ref);
    }
  }

  /** Over a whole stretch of atomic signing, from the state at its start on: what the policy knows of the
      counterparty's nonce and balance does not fall, and job `i`, when signed for `ref`, asked for more than
      was known at the start, no more than is known at the end, and strictly raised the nonce, and the
      balance if it was a transfer. */
  lemma StretchImprovesBaseline(
    cfg: Config, observed: ObservedPipes, signatures: Signatures, jobs: seq<Job>, i: nat, ref: StateRef)
    requires SignedFor(cfg, observed, signatures, jobs, i, ref)
    ensures var b, c := BaselineAfter(cfg, observed, signatures, jobs, 0, ref),
                        BaselineAfter(cfg, observed, signatures, jobs, |jobs|, ref);
            var r := jobs[i].request;
            && b.Some? && c.Some?
            && b.value.nonce < r.nonce <= c.value.nonce && b.value.myBalance <= r.myBalance <= c.value.myBalance
            && (r.action == ACTION_TRANSFER ==> b.value.myBalance < r.myBalance)
  {
    BaselineNeverFalls(cfg, observed, signatures, jobs, 0, i, ref);
    OneJobMovesBaseline(cfg, observed, signatures, jobs, i, ref);
    BaselineNeverFalls(cfg, observed, signatures, jobs, i + 1, |jobs|, ref);
  }

  /** At the end of the stretch the stored state has the largest balance and nonce signed in it. */
  lemma StoredStateIsBestSigned(
    cfg: Config, observed: ObservedPipes, signatures: Signatures, jobs: seq<Job>, i: nat, ref: StateRef)
    requires SignedFor(cfg, observed, signatures, jobs, i, ref)
    ensures var after := SignAll(cfg, observed, signatures, jobs);
            && ref in after && RefOf(after[ref]) == ref
            && jobs[i].request.myBalance <= after[ref].input.myBalance
            && jobs[i].request.nonce <= after[ref].input.nonce
            && exists k :: i <= k < |jobs| && SignedFor(cfg, observed, signatures, jobs, k, ref)
                           && after[ref].input == SignedInput(jobs[k])
  {
    var k := LastSigned(cfg, observed, signatures, jobs, i, ref);
    RowIsLastSigned(cfg, observed, signatures, jobs, k, ref);
    if i < k {
      StretchOnlyPaysTheCounterparty(cfg, observed, signatures, jobs, i, k, ref);
    }
  }

  lemma {:induction false} LastSigned(
    cfg: Config, observed: ObservedPipes, signatures: Signatures, jobs: seq<Job>, i: nat, ref: StateRef)
        returns (k: nat)
    requires SignedFor(cfg, observed, signatures, jobs, i, ref)
    ensures i <= k && SignedFor(cfg, observed, signatures, jobs, k, ref)
    ensures forall j :: k < j < |jobs| ==> !SignedFor(cfg, observed, signatures, jobs, j, ref)
    decreases |jobs| - i
  {
    if j :| i < j < |jobs| && SignedFor(cfg, observed, signatures, jobs, j, ref) {
      k := LastSigned(cfg, observed, signatures, jobs, j, ref);
    } else {
      k := i;
    }
  }

  // ---------- Why the stretch has to be atomic ----------

  /** A request checked against one table and committed to another lowers the stored balance exactly when the
      policy, asked again at the commit about the stored state alone (no observed pipe), would refuse it for
      that; and then the stored state is not what it was checked against. */
  lemma CommitLowersBalanceIff(
    cfg: Config, observed: ObservedPipes, atCheck: Signatures, atCommit: Signatures, job: Job, ref: StateRef)
    requires StateRefOf(cfg, job.request) == Ok(ref) && Check(cfg, observed, atCheck, job.request).None?
    requires IsWatchedPrincipal(cfg.watched, job.request.forPrincipal) && SignaturesKeyed(atCommit)
    ensures var after := UpsertState(cfg, atCommit, SignedInput(job), true, job.now).0;
            var lowered := ref in atCommit && after[ref].input.myBalance < atCommit[ref].input.myBalance;
            && (lowered <==> Check(cfg, map[], atCommit, job.request) == Some(BalanceDecrease))
            && (lowered ==> BaselineOf(observed, atCheck, ref) != StateCandidate(atCommit, ref))
  {
  }

  /** The stored balance itself can fall without any interleaving: some request would be signed that lowers it
      exactly when the chain is the baseline and knows less for the counterparty than what is stored. */
  lemma AtomicSigningLowersStoredIff(
    cfg: Config, observed: ObservedPipes, signatures: Signatures, template: SignatureInput, ref: StateRef)
    requires StateRefOf(cfg, template) == Ok(ref) && IsWatchedPrincipal(cfg.watched, ref.owner) && ref in signatures
    ensures (exists job :: LowersStored(cfg, observed, signatures, job, ref))
       <==> var o := ObservedCandidate(observed, ref);
            BaselineOf(observed, signatures, ref) == o && o.value.myBalance < signatures[ref].input.myBalance
  {
    var o := ObservedCandidate(observed, ref);
    if BaselineOf(observed, signatures, ref) == o && o.value.myBalance < signatures[ref].input.myBalance {
      BaselineIsBest(observed, signatures, ref);
      var request := template.(action := ACTION_CLOSE, nonce := o.value.nonce + 1, myBalance := o.value.myBalance);
      assert LowersStored(cfg, observed, signatures, Job(request, true, [], 0), ref);
    }
  }

  /** `job` is signed for `ref`, and the balance stored for `ref` falls. */
  predicate LowersStored(cfg: Config, observed: ObservedPipes, signatures: Signatures, job: Job, ref: StateRef)
    requires ref in signatures
  {
    var (after, signed) := Sign(cfg, observed, signatures, job);
    signed && StateRefOf(cfg, job.request) == Ok(ref) && ref in after
    && after[ref].input.myBalance < signatures[ref].input.myBalance
  }

  /** Two requests checked against the same baseline can both be committed, and the second may leave the
      counterparty with less than the first one gave it. */
  lemma StaleCheckCanLowerTheBalance(cfg: Config, a: Principal, b: Principal)
    returns (observed: ObservedPipes, first: SignatureInput, second: SignatureInput)
    requires a != b && IsWatchedPrincipal(cfg.watched, a)
    ensures Check(cfg, observed, map[], first).None? && Check(cfg, observed, map[], second).None?
    ensures var (one, u) := UpsertState(cfg, map[], first, true, 1);
            var (two, v) := UpsertState(cfg, one, second, true, 2);
            && u.Stored? && v.Stored? && RefOf(u.state) == RefOf(v.state)
            && two[RefOf(v.state)].input.myBalance < one[RefOf(u.state)].input.myBalance
  {
    var key := CanonicalPipeKey(cfg.ser, None, a, b).value;
    observed := map[PipeRef("c", key) := ObservedPipe(
      "c", key, Some(10), Some(10), NOTHING_PENDING, NOTHING_PENDING, None, Some(0), None, OtherEvent("fund-pipe"),
          None, None, 0)];
    first := SignatureInput("c", a, b, None, 0, 15, 5, [], [], 1, ACTION_TRANSFER, b, None, None, false);
    second := first.(myBalance := 12, theirBalance := 8, nonce := 2);
  }
}
