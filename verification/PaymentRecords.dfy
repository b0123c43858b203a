/** What the row of a forwarding payment says, in every interleaved run: `/forwarding/reveal` and
    `propagateRevealForPayment` of `server/src/index.ts`, said with the fields of the row. */
module PaymentRecords {
  import opened Wrappers
  import opened Octets
  import opened NodeTypes
  import opened Forwarding
  import opened RevealRuns
  import opened PropagationRuns

  // ---------- What a reveal needs and leaves ----------

  predicate IsTextOf(t: HashText, octets: Bytes) { t == Canonical(octets) || t == Bare(octets) }

  /** The text is that of `preimage`, which the payment is locked with and has not been revealed otherwise. */
  predicate Unlocks(sha256: Bytes -> Bytes, p: Payment, text: HashText, preimage: Bytes) {
    && IsTextOf(text, preimage) && p.hashedSecret.Some? && IsTextOf(p.hashedSecret.value, sha256(preimage))
    && (p.revealedSecret.Some? ==> p.revealedSecret.value == preimage)
  }

  /** A reveal is taken if and only if the payment is stored and locked with a hash, the text is that of a
      preimage, and the payment has not been revealed with another one. */
  lemma RevealIsTakenIff(sha256: Bytes -> Bytes, payments: Payments, id: PaymentId, secret: HashText, now: int)
    ensures RevealedRecord(sha256, payments, id, secret, now).Some? <==>
            id in payments && exists s :: Unlocks(sha256, payments[id], secret, s)
  {
    if id in payments && payments[id].hashedSecret.Some? {
      var verified := VerifyRevealSecret(sha256, payments[id].hashedSecret.value, secret);
      if s: Bytes :| Unlocks(sha256, payments[id], secret, s) {
        assert verified == Ok(s);
      }
      if verified.Ok? {
        assert IsTextOf(secret, verified.value);
        assert IsTextOf(payments[id].hashedSecret.value, sha256(verified.value));
        assert Unlocks(sha256, payments[id], secret, verified.value)
          || (payments[id].revealedSecret.Some? && payments[id].revealedSecret.value != verified.value);
      }
    }
  }

  /** From then on the hash resolves to this preimage, and to no other; the row, if it is kept, has it and is
      otherwise the same. */
  lemma RevealTakesEffect(env: Env, w: World, s: Step, preimage: Bytes)
    requires PaymentsKeyed(w.tables.payments) && s.Reveal? && Writes(env, w, s) && IsTextOf(s.secret, preimage)
    ensures var before, after := w.tables.payments[s.id], Next(env, w, s).tables;
            && before.hashedSecret.Some? && IsTextOf(before.hashedSecret.value, env.sha256(preimage))
            && (forall r :: RevealAnswer(after, before.hashedSecret.value, r) <==> r == Some(preimage))
            && (s.id in after.payments ==>
                  && SameTerms(after.payments[s.id], before)
                  && after.payments[s.id].revealedSecret == Some(preimage)
                  && after.payments[s.id].revealedAt == Some(s.now))
  {
  }

  /** A hash resolves to its revealed secret, else to that of a payment that carries both, the youngest of these,
      and to nothing only if there is neither. */
  lemma HashResolvesIff(t: ForwardTables, key: HashText, r: Option<Bytes>)
    requires RevealAnswer(t, key, r)
    ensures key in t.revealed ==> r == Some(t.revealed[key])
    ensures r.None? <==>
            && key !in t.revealed
            && forall id :: id in t.payments && t.payments[id].hashedSecret == Some(key) ==>
                 t.payments[id].revealedSecret.None?
    ensures key !in t.revealed && r.Some? ==>
            exists id :: id in t.payments && t.payments[id].hashedSecret == Some(key)
                         && t.payments[id].revealedSecret == r
                         && forall other :: other in t.payments && t.payments[other].hashedSecret == Some(key)
                                            && t.payments[other].revealedSecret.Some?
                                            ==> t.payments[other].updatedAt <= t.payments[id].updatedAt
  {
    forall id | id in t.payments && t.payments[id].hashedSecret == Some(key)
      ensures RowReveals(t, key, id) <==> t.payments[id].revealedSecret.Some?
    {
    }
    if key !in t.revealed && r.Some? {
      var id :| RowReveals(t, key, id) && t.payments[id].revealedSecret == r
                && forall other :: RowReveals(t, key, other) ==>
                     t.payments[other].updatedAt <= t.payments[id].updatedAt;
      assert id in t.payments && t.payments[id].hashedSecret == Some(key) && t.payments[id].revealedSecret == r;
    }
  }

  // ---------- What an answer from upstream leaves ----------

  /** A call that holds `snapshot` leaves a propagated payment alone, finds one without a route not applicable,
      and otherwise counts one more attempt: propagated when the upstream node accepts, and when it rejects
      either failed, at the limit, or due again one interval later. */
  lemma AnswerIsRecorded(env: Env, w: World, s: Step)
    requires s.WriteBack? && s.call in w.held && w.held[s.call].revealedSecret.Some?
    requires Written(env, w, s).Some? ==> Writes(env, w, s)
    ensures var p := w.held[s.call];
            var routed := p.upstreamBaseUrl.Some? && p.upstreamPaymentId.Some?;
            && s.call !in Next(env, w, s).held
            && (Written(env, w, s).None? <==> routed && p.revealStatus == Propagated)
            && (!routed ==> Written(env, w, s).value.revealStatus == NotApplicable
                            && Written(env, w, s).value.attempts == p.attempts)
            && (routed && p.revealStatus != Propagated ==>
                  var rec, attempts := Written(env, w, s).value, p.attempts + 1;
                  && rec.attempts == attempts
                  && if s.reply.Accepted? then rec.revealStatus == Propagated && rec.propagatedAt == Some(s.now)
                     else
                       && rec.lastError == Some(s.reply.error)
                       && if attempts < env.policy.maxAttempts
                          then rec.revealStatus == PendingReveal
                               && rec.nextRetryAt == Some(s.now + env.policy.retryIntervalMs)
                          else rec.revealStatus == FailedReveal && rec.nextRetryAt.None?)
  {
  }

  /** A pass takes up a payment if and only if it is pending with a retry that has fallen due. */
  lemma PickIsTakenIff(env: Env, w: World, call: nat, id: PaymentId, now: int)
    requires call !in w.held
    ensures var after, p := Next(env, w, Pick(call, id, now)), w.tables.payments;
            && after.tables == w.tables
            && after.held == if id in p && p[id].revealStatus == PendingReveal
                                && p[id].nextRetryAt.Some? && p[id].nextRetryAt.value <= now
                             then w.held[call := p[id]] else w.held
  {
  }

  // ---------- What stays ----------

  /** The same payment, however far its reveal has come. */
  predicate SameTerms(p: Payment, q: Payment) {
    && p.paymentId == q.paymentId && p.contractId == q.contractId && p.pipeId == q.pipeId
    && p.pipeNonce == q.pipeNonce && p.status == q.status && p.hashedSecret == q.hashedSecret
    && p.upstreamBaseUrl == q.upstreamBaseUrl && p.upstreamPaymentId == q.upstreamPaymentId
  }

  /** Row and outstanding snapshots of the payment have its terms and, when given, its preimage. */
  ghost predicate AllAre(w: World, p: Payment, preimage: Option<Bytes>) {
    && PaymentsKeyed(w.tables.payments)
    && (p.paymentId in w.tables.payments ==> Is(w.tables.payments[p.paymentId], p, preimage))
    && forall c :: c in w.held && w.held[c].paymentId == p.paymentId ==> Is(w.held[c], p, preimage)
  }

  predicate Is(q: Payment, p: Payment, preimage: Option<Bytes>) {
    SameTerms(q, p) && (preimage.Some? ==> q.revealedSecret == preimage)
  }

  lemma WrittenKeepsTerms(env: Env, w: World, s: Step, p: Payment, preimage: Option<Bytes>)
    requires AllAre(w, p, preimage) && (s.Transfer? ==> s.rec.paymentId != p.paymentId)
    requires Written(env, w, s).Some? && Written(env, w, s).value.paymentId == p.paymentId
    ensures Is(Written(env, w, s).value, p, preimage)
  {
    if s.WriteBack? {
      var rec := Answered(env, w.held[s.call], s.reply, s.now).0;
      assert SameTerms(rec, w.held[s.call]) && rec.revealedSecret == w.held[s.call].revealedSecret;
    }
  }

  lemma WriteKeepsTerms(
    w: World, rec: Payment, pruning: Pruning, held: map<nat, Payment>, p: Payment, preimage: Option<Bytes>)
    requires AllAre(w, p, preimage) && (rec.paymentId == p.paymentId ==> Is(rec, p, preimage))
    requires forall c :: c in held ==> held[c] == rec || (c in w.held && held[c] == w.held[c])
    ensures AllAre(World(Write(w.tables, rec, pruning), held), p, preimage)
  {
  }

  lemma StepKeepsTerms(env: Env, w: World, s: Step, p: Payment, preimage: Option<Bytes>)
    requires AllAre(w, p, preimage) && NotCreatedAgain([s], p.paymentId)
    ensures AllAre(Next(env, w, s), p, preimage)
  {
    assert s in [s];
    if Writes(env, w, s) {
      var rec := Written(env, w, s).value;
      if rec.paymentId == p.paymentId {
        WrittenKeepsTerms(env, w, s, p, preimage);
      }
      WriteKeepsTerms(w, rec, s.pruning, HeldAfter(env, w, s), p, preimage);
    }
  }

  /** Whatever handlers and retry passes do to a payment, and however they interleave, it keeps its pipe,
      nonce, lock and route until a payment of its name is created; and once its row and all outstanding
      snapshots carry a preimage, it is never shown with another or with none. */
  lemma {:induction false} TermsAndPreimageAreFinal(
    env: Env, w: World, steps: seq<Step>, p: Payment, preimage: Option<Bytes>)
    requires AllAre(w, p, preimage) && NotCreatedAgain(steps, p.paymentId)
    ensures AllAre(Execute(env, w, steps), p, preimage)
  {
    if steps != [] {
      var earlier, s := steps[..|steps| - 1], steps[|steps| - 1];
      TermsAndPreimageAreFinal(env, w, earlier, p, preimage);
      StepKeepsTerms(env, Execute(env, w, earlier), s, p, preimage);
    }
  }

  /** With fresh payment ids, once a pipe has a row with a nonce it always has one, and never with a lower nonce. */
  lemma NonceOfAPipeNeverFalls(env: Env, w: World, steps: seq<Step>, pipe: PipeRef, id: PaymentId)
    requires HomesAgree(w) && OneRowPerPipe(w.tables.payments) && IdsAreFresh(env, w, steps)
    requires id in w.tables.payments && OnPipe(w.tables.payments[id], pipe) && w.tables.payments[id].pipeNonce.Some?
    ensures var after := Execute(env, w, steps).tables.payments;
            && (exists later :: later in after && OnPipe(after[later], pipe))
            && forall later :: later in after && OnPipe(after[later], pipe) ==>
                 && after[later].pipeNonce.Some?
                 && w.tables.payments[id].pipeNonce.value <= after[later].pipeNonce.value
  {
    var after := Execute(env, w, steps).tables.payments;
    KeptNonceNeverFalls(env, w, steps, pipe);
    RunsKeepOneRowPerPipe(env, w, steps);
    KeptRankIs(w.tables.payments, id, pipe);
    forall later | later in after && OnPipe(after[later], pipe) ensures KeptRank(after, pipe) == Rank(after[later]) {
      KeptRankIs(after, later, pipe);
    }
  }

  /** A write for a pipe keeps one row of it, the new one or one that was there: none of these has a higher nonce,
      or the same nonce and a later time. */
  lemma WriteKeepsTheLatestRow(t: ForwardTables, rec: Payment, pruning: Pruning, pipe: PipeRef)
    requires OnPipe(rec, pipe) && WriteFits(t, rec, pruning)
    ensures var rows, after := t.payments[rec.paymentId := rec], Write(t, rec, pruning).payments;
            exists kept :: kept in after && kept in rows && after[kept] == rows[kept] && OnPipe(rows[kept], pipe)
              && (forall id :: id in rows && OnPipe(rows[id], pipe) ==> (id in after <==> id == kept))
              && (forall id :: id in rows && OnPipe(rows[id], pipe) && rows[id].pipeNonce.Some? ==>
                    && rows[kept].pipeNonce.Some? && rows[id].pipeNonce.value <= rows[kept].pipeNonce.value
                    && (rows[id].pipeNonce == rows[kept].pipeNonce ==> rows[id].updatedAt <= rows[kept].updatedAt))
              && (forall id :: id in rows && !OnPipe(rows[id], pipe) ==> id in after && after[id] == rows[id])
  {
    assert pruning.Keep? && pruning.keep in Write(t, rec, pruning).payments;
  }

  /** Not tied to a pipe and nonce, and not waiting for the upstream node. */
  predicate IsOrphan(p: Payment) {
    (p.contractId.None? || p.pipeId.None? || p.pipeNonce.None?) && p.revealStatus != PendingReveal
  }

  /** A restart leaves one row per pipe, and none older than the cutoff of those without a pipe and nonce that are
      not waiting; no row changes, no secret is forgotten, and no call is outstanding. */
  lemma RestartPrunes(env: Env, w: World, s: Step)
    requires s.Restart? && DropFits(w.tables.payments, s.dropped, s.cutoff)
    requires KeepsFit(w.tables.payments - s.dropped, s.keeps)
    ensures var after := Next(env, w, s);
            && after.held == map[] && after.tables.revealed == w.tables.revealed
            && (forall id :: id in after.tables.payments ==>
                  id in w.tables.payments && after.tables.payments[id] == w.tables.payments[id])
            && (forall id :: id in after.tables.payments && IsOrphan(after.tables.payments[id]) ==>
                  s.cutoff <= after.tables.payments[id].updatedAt)
            && OneRowPerPipe(after.tables.payments)
  {
  }

  // ---------- What the reveal columns mean ----------

  /** Status, attempts, error and times tell one story. */
  predicate Consistent(policy: RetryPolicy, p: Payment) {
    && (p.revealStatus == NotApplicable <==> p.upstreamBaseUrl.None? || p.upstreamPaymentId.None?)
    && (p.revealStatus == Propagated <==> p.propagatedAt.Some?)
    && (p.nextRetryAt.Some? <==> p.revealStatus == PendingReveal && p.attempts > 0)
    && (p.lastError.Some? <==> p.revealStatus in {PendingReveal, FailedReveal} && p.attempts > 0)
    && (p.revealStatus == PendingReveal ==> p.attempts == 0 || p.attempts < policy.maxAttempts)
    && (p.revealStatus == FailedReveal ==> p.attempts > 0 && p.attempts >= policy.maxAttempts)
    && (p.revealStatus == Propagated ==> p.attempts > 0)
    && (p.revealStatus == NotApplicable ==> p.attempts == 0)
    && (p.attempts > 0 ==> p.revealedSecret.Some?)
    && (p.revealedSecret.Some? <==> p.revealedAt.Some?)
  }

  ghost predicate AllConsistent(env: Env, w: World) {
    && (forall id :: id in w.tables.payments ==> Consistent(env.policy, w.tables.payments[id]))
    && (forall c :: c in w.held ==> Consistent(env.policy, w.held[c]) && w.held[c].revealedSecret.Some?)
  }

  lemma StepKeepsConsistent(env: Env, w: World, s: Step)
    requires AllConsistent(env, w)
    ensures AllConsistent(env, Next(env, w, s))
  {
    if Writes(env, w, s) {
      assert Consistent(env.policy, Written(env, w, s).value);
    }
  }

  /** In every run: a payment is not applicable exactly when it has no route upstream, propagated exactly when
      it says when, pending with its next retry exactly after a rejection below the limit, and failed only at
      the limit; an error stands exactly while the last attempt was rejected, and no attempt was made
      without the preimage. */
  lemma {:induction false} RecordsAreConsistent(env: Env, steps: seq<Step>)
    ensures AllConsistent(env, Execute(env, EMPTY, steps))
  {
    if steps != [] {
      RecordsAreConsistent(env, steps[..|steps| - 1]);
      StepKeepsConsistent(env, Execute(env, EMPTY, steps[..|steps| - 1]), steps[|steps| - 1]);
    }
  }
}
