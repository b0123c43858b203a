/** Which stored state answers a force-close or force-cancel: `tryDisputeClosure` and the sort helper of
    `server/src/stackflow-node.ts`. */
module Dispute {
  import opened Wrappers
  import opened Octets
  import opened Principals
  import opened NodeTypes
  import opened Observer
  import opened Forwarding

  // ---------- Sorting ----------

  /** `a` may stand before `b`: higher nonce first, then the younger state. */
  predicate ComesFirst(a: SignatureState, b: SignatureState) {
    a.input.nonce > b.input.nonce || (a.input.nonce == b.input.nonce && a.updatedAt >= b.updatedAt)
  }

  ghost predicate Sorted(s: seq<SignatureState>) {
    forall i, j :: 0 <= i < j < |s| ==> ComesFirst(s[i], s[j])
  }

  function Insert(x: SignatureState, s: seq<SignatureState>): seq<SignatureState> {
    if s == [] || ComesFirst(x, s[0]) then [x] + s else [s[0]] + Insert(x, s[1..])
  }

  /** A stable sort. */
  function SortSignatureStates(s: seq<SignatureState>): seq<SignatureState> {
    if s == [] then [] else Insert(s[0], SortSignatureStates(s[1..]))
  }

  lemma {:induction false} InsertMeaning(x: SignatureState, s: seq<SignatureState>)
    requires Sorted(s)
    ensures multiset(Insert(x, s)) == multiset(s) + multiset{x}
    ensures Sorted(Insert(x, s))
  {
    if s != [] && !ComesFirst(x, s[0]) {
      InsertMeaning(x, s[1..]);
      assert s == [s[0]] + s[1..];
      forall y | y in Insert(x, s[1..]) ensures ComesFirst(s[0], y) {
        assert y in multiset(Insert(x, s[1..]));
      }
    }
  }

  lemma {:induction false} SortMeaning(s: seq<SignatureState>)
    ensures multiset(SortSignatureStates(s)) == multiset(s)
    ensures Sorted(SortSignatureStates(s))
  {
    if s != [] {
      SortMeaning(s[1..]);
      InsertMeaning(s[0], SortSignatureStates(s[1..]));
      assert s == [s[0]] + s[1..];
    }
  }

  lemma SortKeepsTheRows(s: seq<SignatureState>)
    ensures |SortSignatureStates(s)| == |s|
    ensures forall j :: 0 <= j < |s| ==> SortSignatureStates(s)[j] in s
  {
    var sorted := SortSignatureStates(s);
    SortMeaning(s);
    assert |sorted| == |multiset(sorted)| == |multiset(s)| == |s|;
    forall j | 0 <= j < |s| ensures sorted[j] in s {
      assert sorted[j] in multiset(sorted);
    }
  }

  // ---------- Eligibility ----------

  /** The balance that the closure gives `owner`, if the event says so. */
  function ClosureSideBalance(e: PrintEvent, owner: Principal): Option<nat> {
    if e.pipeKey.None? || e.pipe.None? then None
    else if e.pipeKey.value.principal1 == owner then e.pipe.value.balance1
    else if e.pipeKey.value.principal2 == owner then e.pipe.value.balance2
    else None
  }

  predicate LocksSecret(s: SignatureState) { s.input.action == ACTION_TRANSFER && s.input.secret.Some? }

  /** The hash that a transfer state is locked with, as the forwarding tables spell it. */
  function LockOf(s: SignatureState): HashText
    requires s.input.secret.Some?
  {
    Canonical(s.input.secret.value)
  }

  /** What forwarding knows about the hash of one state. */
  datatype SecretView = SecretView(known: bool, revealed: bool)

  ghost function SecretViewOf(t: ForwardTables, s: SignatureState): SecretView {
    if s.input.secret.None? then SecretView(false, false)
    else SecretView(KnowsHash(t, LockOf(s)), Resolvable(t, LockOf(s)))
  }

  /** The test that `find` applies to one candidate, branch by branch. */
  predicate IsEligible(onlyBeneficial: bool, v: SecretView, e: PrintEvent, closureNonce: nat, s: SignatureState) {
    if s.input.nonce <= closureNonce then false
    else if s.input.validAfter.Some? && e.blockHeight.Some? && s.input.validAfter.value > e.blockHeight.value then false
    else if !(onlyBeneficial || s.input.beneficialOnly) then
      if LocksSecret(s) && v.known then v.revealed else true
    else if ClosureSideBalance(e, s.input.forPrincipal).None? then false
    else if LocksSecret(s) && v.known && !v.revealed then false
    else s.input.myBalance > ClosureSideBalance(e, s.input.forPrincipal).value
  }

  /** The same test as four independent requirements. */
  lemma EligibleMeans(onlyBeneficial: bool, v: SecretView, e: PrintEvent, closureNonce: nat, s: SignatureState)
    ensures IsEligible(onlyBeneficial, v, e, closureNonce, s) <==>
      && closureNonce < s.input.nonce
      && (s.input.validAfter.Some? && e.blockHeight.Some? ==> s.input.validAfter.value <= e.blockHeight.value)
      && (LocksSecret(s) && v.known ==> v.revealed)
      && (onlyBeneficial || s.input.beneficialOnly ==>
            var closing := ClosureSideBalance(e, s.input.forPrincipal);
            closing.Some? && closing.value < s.input.myBalance)
  {
  }

  /** A stored state of the closing pipe whose owner is not the closer. */
  predicate IsCandidate(signatures: Signatures, pipe: PipeRef, closer: Principal, s: SignatureState) {
    RefOf(s) in signatures && signatures[RefOf(s)] == s && RefOf(s).pipe == pipe && s.input.forPrincipal != closer
  }

  ghost predicate Wins(onlyBeneficial: bool, signatures: Signatures, fwd: ForwardTables, e: PrintEvent,
                       pipe: PipeRef, closureNonce: nat, closer: Principal, s: SignatureState)
  {
    IsCandidate(signatures, pipe, closer, s) && IsEligible(onlyBeneficial, SecretViewOf(fwd, s), e, closureNonce, s)
  }

  /** `choice` is a best eligible candidate, or there is none. */
  ghost predicate IsChoice(onlyBeneficial: bool, signatures: Signatures, fwd: ForwardTables, e: PrintEvent,
                           pipe: PipeRef, closureNonce: nat, closer: Principal, choice: Option<SignatureState>)
  {
    match choice
    case None => forall s :: !Wins(onlyBeneficial, signatures, fwd, e, pipe, closureNonce, closer, s)
    case Some(s) =>
      && Wins(onlyBeneficial, signatures, fwd, e, pipe, closureNonce, closer, s)
      && forall other :: Wins(onlyBeneficial, signatures, fwd, e, pipe, closureNonce, closer, other) ==>
           ComesFirst(s, other)
  }

  /** All rows of one pipe, in any order. */
  ghost predicate ListsPipe(rows: seq<SignatureState>, signatures: Signatures, pipe: PipeRef) {
    forall s :: s in rows <==> RefOf(s) in signatures && signatures[RefOf(s)] == s && RefOf(s).pipe == pipe
  }

  /** Sorting and then taking the first candidate that passes gives a best eligible candidate. */
  lemma SortThenFindIsBest(
    onlyBeneficial: bool, signatures: Signatures, fwd: ForwardTables, e: PrintEvent, pipe: PipeRef,
    closureNonce: nat, closer: Principal, rows: seq<SignatureState>, i: nat)
    requires ListsPipe(rows, signatures, pipe)
    requires i <= |rows| && |SortSignatureStates(rows)| == |rows|
    requires forall j :: 0 <= j < i ==>
               !Wins(onlyBeneficial, signatures, fwd, e, pipe, closureNonce, closer, SortSignatureStates(rows)[j])
    requires i < |rows| ==>
               Wins(onlyBeneficial, signatures, fwd, e, pipe, closureNonce, closer, SortSignatureStates(rows)[i])
    ensures IsChoice(onlyBeneficial, signatures, fwd, e, pipe, closureNonce, closer,
                     if i < |rows| then Some(SortSignatureStates(rows)[i]) else None)
  {
    var sorted := SortSignatureStates(rows);
    SortMeaning(rows);
    forall other | Wins(onlyBeneficial, signatures, fwd, e, pipe, closureNonce, closer, other)
      ensures i < |rows| && ComesFirst(sorted[i], other)
    {
      assert other in multiset(rows);
      assert other in multiset(sorted);
      var k :| 0 <= k < |sorted| && sorted[k] == other;
      assert i <= k;
    }
  }

  // ---------- The attempt ----------

  datatype DisputeReply = Submitted(txid: Txid) | Refused

  /** How one opening event is answered: the state chosen, the preimage handed over, the reply. */
  datatype Answer = Answer(choice: Option<SignatureState>, resolved: Option<Bytes>, reply: DisputeReply, now: int)

  datatype Submission = Submission(
    id: AttemptId, state: SignatureState, resolved: Option<Bytes>, hashKnown: bool, success: bool)

  datatype DisputeConfig = DisputeConfig(enabled: bool, onlyBeneficial: bool)

  function AttemptIdOf(e: PrintEvent, closure: Closure, closureNonce: nat, owner: Principal): AttemptId {
    if e.txid.Some? then ByTxid(e.txid.value, owner)
    else ByClosure(closure.contractId, closure.pipeId, closureNonce, owner)
  }

  /** The preimage handed over: a revealed one for a transfer state, else the state's own secret. */
  ghost predicate ResolvedFits(fwd: ForwardTables, s: SignatureState, resolved: Option<Bytes>) {
    if !LocksSecret(s) then resolved == s.input.secret
    else exists r :: RevealAnswer(fwd, LockOf(s), r) && resolved == if r.Some? then r else s.input.secret
  }

  predicate Answerable(cfg: DisputeConfig, closure: Closure) {
    cfg.enabled && closure.nonce.Some? && closure.closer.Some?
  }

  ghost predicate AnswerFits(
    cfg: DisputeConfig, signatures: Signatures, fwd: ForwardTables, e: PrintEvent, closure: Closure, a: Answer)
  {
    Answerable(cfg, closure) ==>
      && IsChoice(cfg.onlyBeneficial, signatures, fwd, e, PipeRef(closure.contractId, closure.pipeId),
                  closure.nonce.value, closure.closer.value, a.choice)
      && (a.choice.Some? ==> ResolvedFits(fwd, a.choice.value, a.resolved))
  }

  predicate AlreadySubmitted(attempts: Attempts, id: AttemptId) { id in attempts && attempts[id].success }

  /** `tryDisputeClosure`: the attempts table afterwards, and the submission made, if any. */
  ghost function TryDispute(
    cfg: DisputeConfig, attempts: Attempts, fwd: ForwardTables, e: PrintEvent, closure: Closure, a: Answer)
    : (Attempts, Option<Submission>)
  {
    if !Answerable(cfg, closure) || a.choice.None? then (attempts, None)
    else
      var s := a.choice.value;
      var id := AttemptIdOf(e, closure, closure.nonce.value, s.input.forPrincipal);
      if AlreadySubmitted(attempts, id) then (attempts, None)
      else
        var attempt := DisputeAttempt(
          closure.contractId, closure.pipeId, s.input.forPrincipal, e.txid,
          a.reply.Submitted?, if a.reply.Submitted? then Some(a.reply.txid) else None, a.now);
        (attempts[id := attempt],
        Some(Submission(id, s, a.resolved, SecretViewOf(fwd, s).known, a.reply.Submitted?)))
  }

  /** Nothing is submitted exactly when the node may not dispute, no candidate is eligible, or the attempt
      for the chosen owner has already succeeded. */
  lemma NothingSubmittedIff(
    cfg: DisputeConfig, signatures: Signatures, attempts: Attempts, fwd: ForwardTables, e: PrintEvent,
    closure: Closure, a: Answer)
    requires AnswerFits(cfg, signatures, fwd, e, closure, a)
    ensures TryDispute(cfg, attempts, fwd, e, closure, a).1.None? <==>
      || !Answerable(cfg, closure)
      || (forall s :: !Wins(cfg.onlyBeneficial, signatures, fwd, e, PipeRef(closure.contractId, closure.pipeId),
                            closure.nonce.value, closure.closer.value, s))
      || (a.choice.Some? && AlreadySubmitted(
            attempts, AttemptIdOf(e, closure, closure.nonce.value, a.choice.value.input.forPrincipal)))
  {
  }

  /** What is submitted is the stored row of its owner, newer than the closure, past its valid-after height,
      with its secret revealed when forwarding knows the hash, better than the closure where that is asked
      for, and no other eligible row of the pipe has a higher nonce. */
  lemma SubmissionIsBestStoredState(
    cfg: DisputeConfig, signatures: Signatures, attempts: Attempts, fwd: ForwardTables, e: PrintEvent,
    closure: Closure, a: Answer)
    requires AnswerFits(cfg, signatures, fwd, e, closure, a)
    requires TryDispute(cfg, attempts, fwd, e, closure, a).1.Some?
    ensures var pipe := PipeRef(closure.contractId, closure.pipeId);
            var s := TryDispute(cfg, attempts, fwd, e, closure, a).1.value.state;
            && StateRef(pipe, s.input.forPrincipal) in signatures
            && signatures[StateRef(pipe, s.input.forPrincipal)] == s
            && closure.nonce.value < s.input.nonce && s.input.forPrincipal != closure.closer.value
            && (s.input.validAfter.Some? && e.blockHeight.Some? ==> s.input.validAfter.value <= e.blockHeight.value)
            && (LocksSecret(s) && KnowsHash(fwd, LockOf(s)) ==> Resolvable(fwd, LockOf(s)))
            && (cfg.onlyBeneficial || s.input.beneficialOnly ==>
                  var closing := ClosureSideBalance(e, s.input.forPrincipal);
                  closing.Some? && closing.value < s.input.myBalance)
            && forall other ::
                 Wins(cfg.onlyBeneficial, signatures, fwd, e, pipe, closure.nonce.value, closure.closer.value, other)
                 ==> other.input.nonce <= s.input.nonce
  {
    var s := a.choice.value;
    EligibleMeans(cfg.onlyBeneficial, SecretViewOf(fwd, s), e, closure.nonce.value, s);
  }
}
