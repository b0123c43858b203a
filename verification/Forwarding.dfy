/** Hash-locked payments and revealed preimages: the forwarding tables of `server/src/state-store.ts`,
    the gate `verifyRevealSecret` of `server/src/forwarding-service.ts`, and the handlers of
    `server/src/index.ts` that write the tables. sha256 is a parameter. */
module Forwarding {
  import opened Wrappers
  import opened Octets
  import opened Principals
  import opened NodeTypes

  // ---------- Hashes and secrets ----------

  /** The text of a hash, trimmed and in lower case as every writer of the table leaves it: canonical with its
      0x prefix, 64 digits without it, or anything else. Failed payments store what the client sent, up to
      blanks and case, so all three occur in the table. */
  datatype HashText = Canonical(hash: Bytes) | Bare(hash: Bytes) | Malformed(text: string)

  function NormalizeHash(t: HashText): Result<Bytes, string> {
    match t
    case Canonical(h) => Ok(h)
    case Bare(h) => Ok(h)
    case Malformed(_) => Err("hashedSecret must be 32-byte hex")
  }

  function VerifyRevealSecret(sha256: Bytes -> Bytes, hashedSecret: HashText, secret: HashText): Result<Bytes, string> {
    match NormalizeHash(hashedSecret)
    case Err(e) => Err(e)
    case Ok(expected) =>
      match NormalizeHash(secret)
      case Err(e) => Err(e)
      case Ok(s) => if sha256(s) != expected then Err("secret does not match hashedSecret") else Ok(s)
  }

  /** `secret` opens `key`. */
  predicate Opens(sha256: Bytes -> Bytes, key: HashText, secret: Bytes) {
    NormalizeHash(key) == Ok(sha256(secret))
  }

  // ---------- Tables ----------

  datatype PaymentStatus = Completed | FailedPayment
  datatype RevealStatus = NotApplicable | PendingReveal | Propagated | FailedReveal

  datatype Payment = Payment(
    paymentId: PaymentId, contractId: Option<ContractId>, pipeId: Option<PipeKey>, pipeNonce: Option<nat>,
    status: PaymentStatus, hashedSecret: Option<HashText>, revealedSecret: Option<Bytes>, revealedAt: Option<int>,
    upstreamBaseUrl: Option<string>, upstreamPaymentId: Option<string>,
    revealStatus: RevealStatus, attempts: nat, lastError: Option<string>,
    nextRetryAt: Option<int>, propagatedAt: Option<int>, updatedAt: int)

  type Payments = map<PaymentId, Payment>

  datatype ForwardTables = ForwardTables(payments: Payments, revealed: map<HashText, Bytes>)

  ghost predicate PaymentsKeyed(p: Payments) { forall id :: id in p ==> p[id].paymentId == id }

  predicate OnPipe(p: Payment, pipe: PipeRef) {
    p.contractId == Some(pipe.contractId) && p.pipeId == Some(pipe.pipeId)
  }

  predicate HasPipe(p: Payment) { p.contractId.Some? && p.pipeId.Some? }

  function PipeOf(p: Payment): PipeRef
    requires HasPipe(p)
  {
    PipeRef(p.contractId.value, p.pipeId.value)
  }

  /** An absent nonce is lower than every nonce. */
  function Rank(p: Payment): int { if p.pipeNonce.Some? then p.pipeNonce.value else -1 }

  predicate Outranks(a: Payment, b: Payment) {
    Rank(a) > Rank(b) || (Rank(a) == Rank(b) && a.updatedAt > b.updatedAt)
  }

  /** `keep` is a maximal row of the pipe. */
  ghost predicate IsLatest(p: Payments, pipe: PipeRef, keep: PaymentId) {
    && keep in p && OnPipe(p[keep], pipe)
    && forall id :: id in p && OnPipe(p[id], pipe) ==> !Outranks(p[id], p[keep])
  }

  function PruneTo(p: Payments, pipe: PipeRef, keep: PaymentId): Payments {
    map id | id in p && (OnPipe(p[id], pipe) ==> id == keep) :: p[id]
  }

  const FORWARDING_ORPHAN_MAX_ROWS: nat := 5_000

  /** Rows that age out: not tied to a pipe and nonce, and not waiting for propagation. */
  predicate Prunable(p: Payment) {
    (p.contractId.None? || p.pipeId.None? || p.pipeNonce.None?) && p.revealStatus != PendingReveal
  }

  /** The prunable rows that survive are the youngest 5000 of those not older than `cutoff`. */
  ghost predicate DropFits(p: Payments, dropped: set<PaymentId>, cutoff: int) {
    var kept := set id | id in p && Prunable(p[id]) && id !in dropped;
    && (forall id :: id in dropped ==> id in p && Prunable(p[id]))
    && (forall id :: id in kept ==> p[id].updatedAt >= cutoff)
    && |kept| <= FORWARDING_ORPHAN_MAX_ROWS
    && (forall id :: id in dropped && p[id].updatedAt >= cutoff ==>
          |kept| == FORWARDING_ORPHAN_MAX_ROWS && forall k :: k in kept ==> p[k].updatedAt >= p[id].updatedAt)
  }

  /** What a write prunes; ties leave a choice. */
  datatype Pruning = Keep(keep: PaymentId) | Drop(dropped: set<PaymentId>, cutoff: int)

  ghost predicate PruningFits(p: Payments, rec: Payment, pruning: Pruning) {
    if HasPipe(rec) then pruning.Keep? && IsLatest(p, PipeOf(rec), pruning.keep)
    else pruning.Drop? && DropFits(p, pruning.dropped, pruning.cutoff)
  }

  function Synced(revealed: map<HashText, Bytes>, rec: Payment): map<HashText, Bytes> {
    if rec.hashedSecret.Some? && rec.revealedSecret.Some?
    then revealed[rec.hashedSecret.value := rec.revealedSecret.value]
    else revealed
  }

  /** `setForwardingPayment`: upsert, sync, prune. */
  function Write(t: ForwardTables, rec: Payment, pruning: Pruning): ForwardTables {
    var payments := t.payments[rec.paymentId := rec];
    ForwardTables(
      match pruning
      case Keep(keep) => if HasPipe(rec) then PruneTo(payments, PipeOf(rec), keep) else payments
      case Drop(dropped, _) => payments - dropped,
      Synced(t.revealed, rec))
  }

  ghost predicate WriteFits(t: ForwardTables, rec: Payment, pruning: Pruning) {
    PruningFits(t.payments[rec.paymentId := rec], rec, pruning)
  }

  /** `hasForwardingPaymentHash`. */
  predicate KnowsHash(t: ForwardTables, key: HashText) {
    key in t.revealed || exists id :: id in t.payments && t.payments[id].hashedSecret == Some(key)
  }

  /** A payment row that could answer for `key` when no revealed secret is stored. */
  predicate RowReveals(t: ForwardTables, key: HashText, id: PaymentId) {
    id in t.payments && t.payments[id].hashedSecret == Some(key) && t.payments[id].revealedSecret.Some?
  }

  /** `r` is an answer of `getRevealedSecretByHash`: the stored secret, else that of a youngest row. */
  ghost predicate RevealAnswer(t: ForwardTables, key: HashText, r: Option<Bytes>) {
    if key in t.revealed then r == Some(t.revealed[key])
    else if r.None? then forall id :: !RowReveals(t, key, id)
    else exists id :: RowReveals(t, key, id) && t.payments[id].revealedSecret == r
                      && forall other :: RowReveals(t, key, other) ==>
                           t.payments[other].updatedAt <= t.payments[id].updatedAt
  }

  ghost predicate Resolvable(t: ForwardTables, key: HashText) {
    key in t.revealed || exists id :: RowReveals(t, key, id)
  }

  // ---------- Propagation upstream ----------

  /** Limits of the retry loop. */
  datatype RetryPolicy = RetryPolicy(retryIntervalMs: nat, maxAttempts: int)

  datatype Reply = Accepted | Rejected(error: string)

  predicate ShouldPropagate(p: Payment) { p.upstreamBaseUrl.Some? && p.upstreamPaymentId.Some? }

  /** `propagateRevealForPayment`: the record it leaves, and whether it writes it. */
  function Propagate(policy: RetryPolicy, p: Payment, reply: Reply, now: int): (Payment, bool) {
    if !ShouldPropagate(p) then
      (p.(revealStatus := NotApplicable, lastError := None, nextRetryAt := None, propagatedAt := None,
          updatedAt := now), true)
    else if p.revealStatus == Propagated then (p, false)
    else
      var attempt := p.attempts + 1;
      match reply
      case Accepted =>
        (p.(revealStatus := Propagated, attempts := attempt, lastError := None, nextRetryAt := None,
            propagatedAt := Some(now), updatedAt := now), true)
      case Rejected(error) =>
        var reachedLimit := attempt >= policy.maxAttempts;
        (p.(revealStatus := if reachedLimit then FailedReveal else PendingReveal, attempts := attempt,
            lastError := Some(error), nextRetryAt := if reachedLimit then None else Some(now + policy.retryIntervalMs),
            propagatedAt := None, updatedAt := now), true)
  }

  /** The retry pass fails a payment that has no secret to propagate. */
  function MissingSecret(p: Payment, now: int): Payment {
    p.(revealStatus := FailedReveal, attempts := p.attempts + 1, lastError := Some("missing revealed secret"),
    nextRetryAt := None, propagatedAt := None, updatedAt := now)
  }

  /** Selected by `listForwardingRevealRetriesDue` at some time. */
  predicate Retryable(p: Payment) { p.revealStatus == PendingReveal && p.nextRetryAt.Some? }
  predicate DueAt(p: Payment, now: int) { Retryable(p) && p.nextRetryAt.value <= now }

  /** A row as `/forwarding/transfer` writes it, for a completed or a failed payment. */
  predicate FreshPayment(p: Payment) {
    && p.revealedSecret.None? && p.revealedAt.None?
    && p.attempts == 0 && p.lastError.None? && p.nextRetryAt.None? && p.propagatedAt.None?
    && p.revealStatus == if ShouldPropagate(p) then PendingReveal else NotApplicable
  }

  function WithSecret(p: Payment, secret: Bytes, now: int): Payment {
    p.(revealedSecret := Some(secret), revealedAt := Some(now), updatedAt := now)
  }

  /** `/forwarding/reveal` before its first await: which record it writes, if any. */
  function RevealedRecord(sha256: Bytes -> Bytes, payments: Payments, id: PaymentId, secret: HashText, now: int)
    : Option<Payment>
  {
    if id !in payments || payments[id].hashedSecret.None? then None
    else match VerifyRevealSecret(sha256, payments[id].hashedSecret.value, secret)
      case Err(_) => None
      case Ok(s) =>
        if payments[id].revealedSecret.Some? && payments[id].revealedSecret.value != s then None
        else Some(WithSecret(payments[id], s, now))
  }
}
