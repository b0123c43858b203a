/** The tables of `server/src/state-store.ts` and the statements that change them. A SELECT without an
    ORDER BY returns its rows in an arbitrary order. */
module StateStore {
  import opened Wrappers
  import opened Octets
  import opened Principals
  import opened NodeTypes
  import opened Signing
  import opened Forwarding
  import opened RevealRuns
  import opened Dispute
  import opened MergedPipes

  // ---------- Row order ----------

  /** The elements of a set, in some order. */
  method InSomeOrder<K(==)>(s: set<K>) returns (order: seq<K>)
    ensures forall k :: k in order <==> k in s
    ensures forall i, j :: 0 <= i < j < |order| ==> order[i] != order[j]
  {
    order := [];
    var todo := s;
    while todo != {}
      invariant todo <= s && forall k :: k in order <==> k in s - todo
      invariant forall i, j :: 0 <= i < j < |order| ==> order[i] != order[j]
      decreases |todo|
    {
      var k :| k in todo;
      order := order + [k];
      todo := todo - {k};
    }
  }

  /** All rows of a table, in some order; `keys` are their keys. */
  method SelectAll<K(==), V>(t: map<K, V>) returns (rows: seq<V>, ghost keys: seq<K>)
    ensures |rows| == |keys| && forall i :: 0 <= i < |keys| ==> keys[i] in t && rows[i] == t[keys[i]]
    ensures forall k :: k in t <==> k in keys
    ensures forall i, j :: 0 <= i < j < |keys| ==> keys[i] != keys[j]
    ensures forall k :: k in t ==> t[k] in rows
    ensures forall v :: v in rows ==> exists k :: k in t && t[k] == v
  {
    var order := InSomeOrder(t.Keys);
    keys := order;
    rows := [];
    for i := 0 to |order|
      invariant |rows| == i && forall j :: 0 <= j < i ==> rows[j] == t[order[j]]
    {
      rows := rows + [t[order[i]]];
    }
    forall k | k in t ensures t[k] in rows {
      var i :| 0 <= i < |order| && order[i] == k;
      assert rows[i] == t[k];
    }
  }

  /** An element that comes first under ORDER BY major, minor. */
  method First<K(==)>(s: set<K>, major: K -> int, minor: K -> int) returns (first: K)
    requires s != {}
    ensures first in s
    ensures forall k :: k in s ==> major(first) < major(k) || (major(first) == major(k) && minor(first) <= minor(k))
  {
    first :| first in s;
    var todo := s - {first};
    while todo != {}
      invariant todo <= s && first in s
      invariant forall k :: k in s - todo ==>
                  major(first) < major(k) || (major(first) == major(k) && minor(first) <= minor(k))
      decreases |todo|
    {
      var k :| k in todo;
      if major(k) < major(first) || (major(k) == major(first) && minor(k) < minor(first)) {
        first := k;
      }
      todo := todo - {k};
    }
  }

  /** `selectLatestForwardingPaymentId`: nonces first, an absent one lowest, then the younger row. */
  method SelectLatestForwardingPaymentId(rows: seq<Payment>) returns (id: Option<PaymentId>)
    ensures id.None? <==> rows == []
    ensures id.Some? ==> exists i :: 0 <= i < |rows| && rows[i].paymentId == id.value
                                     && forall j :: 0 <= j < |rows| ==> !Outranks(rows[j], rows[i])
  {
    var keep: Option<Payment> := None;
    ghost var at := 0;
    for n := 0 to |rows|
      invariant keep.None? <==> n == 0
      invariant keep.Some? ==> 0 <= at < n && rows[at] == keep.value
      invariant keep.Some? ==> forall j :: 0 <= j < n ==> !Outranks(rows[j], keep.value)
    {
      var candidate := rows[n];
      if keep.None? {
        keep, at := Some(candidate), n;
      } else if candidate.pipeNonce.Some? && keep.value.pipeNonce.None? {
        keep, at := Some(candidate), n;
      } else if candidate.pipeNonce.None? && keep.value.pipeNonce.Some? {
      } else if candidate.pipeNonce.Some? && candidate.pipeNonce.value > keep.value.pipeNonce.value {
        keep, at := Some(candidate), n;
      } else if candidate.pipeNonce.Some? && candidate.pipeNonce.value < keep.value.pipeNonce.value {
      } else if candidate.updatedAt > keep.value.updatedAt {
        keep, at := Some(candidate), n;
      }
    }
    return if keep.Some? then Some(keep.value.paymentId) else None;
  }

  class SqliteStateStore {
    var signatureStates: Signatures
    var observedPipes: ObservedPipes
    var closures: Closures
    var disputeAttempts: Attempts
    var forwardingPayments: Payments
    var revealedSecrets: map<HashText, Bytes>

    ghost predicate Valid()
      reads this
    {
      SignaturesKeyed(signatureStates) && ObservedKeyed(observedPipes) && PaymentsKeyed(forwardingPayments)
    }

    ghost function ForwardingTables(): ForwardTables
      reads this
    {
      ForwardTables(forwardingPayments, revealedSecrets)
    }

    constructor ()
      ensures Valid()
      ensures signatureStates == map[] && observedPipes == map[] && closures == map[] && disputeAttempts == map[]
      ensures ForwardingTables() == EMPTY.tables
    {
      signatureStates, observedPipes, closures, disputeAttempts := map[], map[], map[], map[];
      forwardingPayments, revealedSecrets := map[], map[];
    }

    // ---------- Signature states, observed pipes, closures, attempts ----------

    method SetSignatureState(state: SignatureState)
      requires Valid()
      modifies this`signatureStates
      ensures Valid() && signatureStates == old(signatureStates)[RefOf(state) := state]
    {
      signatureStates := signatureStates[RefOf(state) := state];
    }

    method GetSignatureStates() returns (rows: seq<SignatureState>)
      requires Valid()
      ensures ListsStates(rows, signatureStates)
    {
      ghost var keys;
      rows, keys := SelectAll(signatureStates);
    }

    method GetSignatureStatesForPipe(pipe: PipeRef) returns (rows: seq<SignatureState>)
      requires Valid()
      ensures ListsPipe(rows, signatureStates, pipe)
    {
      var all := GetSignatureStates();
      rows := [];
      for i := 0 to |all|
        invariant forall s :: s in rows <==> s in all[..i] && RefOf(s).pipe == pipe
      {
        assert all[..i + 1] == all[..i] + [all[i]];
        if all[i].input.contractId == pipe.contractId && all[i].pipeId == pipe.pipeId {
          rows := rows + [all[i]];
        }
      }
      assert all[..|all|] == all;
    }

    method SetObservedPipe(state: ObservedPipe)
      requires Valid()
      modifies this`observedPipes
      ensures Valid() && observedPipes == old(observedPipes)[RefOfObserved(state) := state]
    {
      observedPipes := observedPipes[RefOfObserved(state) := state];
    }

    method ListObservedPipes() returns (rows: seq<ObservedPipe>)
      requires Valid()
      ensures ListsObserved(rows, observedPipes) && OnePerPipe(rows)
    {
      ghost var keys;
      rows, keys := SelectAll(observedPipes);
    }

    method SetClosure(closure: Closure)
      modifies this`closures
      ensures closures == old(closures)[closure.pipeId := closure]
    {
      closures := closures[closure.pipeId := closure];
    }

    method DeleteClosure(pipeId: PipeKey)
      modifies this`closures
      ensures closures == old(closures) - {pipeId}
    {
      closures := closures - {pipeId};
    }

    method SetDisputeAttempt(id: AttemptId, attempt: DisputeAttempt)
      modifies this`disputeAttempts
      ensures disputeAttempts == old(disputeAttempts)[id := attempt]
    {
      disputeAttempts := disputeAttempts[id := attempt];
    }

    // ---------- Revealed secrets ----------

    method HasForwardingPaymentHash(key: HashText) returns (present: bool)
      ensures present == KnowsHash(ForwardingTables(), key)
    {
      if key in revealedSecrets {
        return true;
      }
      present := exists id :: id in forwardingPayments && forwardingPayments[id].hashedSecret == Some(key);
    }

    method GetRevealedSecretByHash(key: HashText) returns (secret: Option<Bytes>)
      ensures RevealAnswer(ForwardingTables(), key, secret)
      ensures secret.Some? <==> Resolvable(ForwardingTables(), key)
    {
      if key in revealedSecrets {
        return Some(revealedSecrets[key]);
      }
      var payments := forwardingPayments;
      var ids := set id | id in payments && payments[id].hashedSecret == Some(key) && payments[id].revealedSecret.Some?;
      if ids == {} {
        assert forall id :: RowReveals(ForwardingTables(), key, id) ==> id in ids;
        return None;
      }
      var youngest := First(ids, id => if id in payments then -payments[id].updatedAt else 0, _ => 0);
      assert RowReveals(ForwardingTables(), key, youngest);
      assert forall id :: RowReveals(ForwardingTables(), key, id) ==> id in ids;
      return payments[youngest].revealedSecret;
    }

    method SyncRevealedSecret(record: Payment)
      modifies this`revealedSecrets
      ensures revealedSecrets == Synced(old(revealedSecrets), record)
    {
      if record.hashedSecret.None? || record.revealedSecret.None? {
        return;
      }
      revealedSecrets := revealedSecrets[record.hashedSecret.value := record.revealedSecret.value];
    }

    // ---------- Forwarding payments ----------

    method GetForwardingPayment(id: PaymentId) returns (payment: Option<Payment>)
      ensures payment == if id in forwardingPayments then Some(forwardingPayments[id]) else None
    {
      return if id in forwardingPayments then Some(forwardingPayments[id]) else None;
    }

    /** The row of a pipe to keep, and how many rows the pipe has. */
    static method LatestOnPipe(payments: Payments, pipe: PipeRef) returns (latest: Option<PaymentId>, rowCount: nat)
      requires PaymentsKeyed(payments)
      ensures latest.None? ==> forall id :: id in payments ==> !OnPipe(payments[id], pipe)
      ensures latest.Some? ==> IsLatest(payments, pipe, latest.value)
      ensures rowCount <= 1 && latest.Some? ==> forall id :: id in payments && OnPipe(payments[id], pipe) ==>
              id == latest.value
    {
      var onPipe := map id | id in payments && OnPipe(payments[id], pipe) :: payments[id];
      var rows, keys := SelectAll(onPipe);
      latest := SelectLatestForwardingPaymentId(rows);
      rowCount := |rows|;
      forall id | id in payments && OnPipe(payments[id], pipe)
        ensures id in onPipe && onPipe[id] in rows && id in keys
      {
      }
    }

    /** Keeps one maximal row of the pipe, if it has any. */
    method PruneForwardingPaymentsForPipe(pipe: PipeRef) returns (ghost keep: Option<PaymentId>)
      requires Valid()
      modifies this`forwardingPayments
      ensures Valid()
      ensures keep.None? ==> forwardingPayments == old(forwardingPayments)
                             && forall id :: id in forwardingPayments ==> !OnPipe(forwardingPayments[id], pipe)
      ensures keep.Some? ==> IsLatest(old(forwardingPayments), pipe, keep.value)
                             && forwardingPayments == PruneTo(old(forwardingPayments), pipe, keep.value)
    {
      var latest, rowCount := LatestOnPipe(forwardingPayments, pipe);
      keep := latest;
      if rowCount <= 1 || latest.None? {
        return;
      }
      var payments := forwardingPayments;
      forwardingPayments := map id | id in payments &&
          (OnPipe(payments[id], pipe) ==> id == latest.value) :: payments[id];
    }

    static ghost function Aged(p: Payments, cutoff: int): set<PaymentId> {
      set id | id in p && Prunable(p[id]) && p[id].updatedAt < cutoff
    }

    static ghost function Young(p: Payments, cutoff: int): set<PaymentId> {
      set id | id in p && Prunable(p[id]) && p[id].updatedAt >= cutoff
    }

    /** The youngest 5000 of `candidates`. */
    static method Youngest(payments: Payments, candidates: set<PaymentId>) returns (kept: set<PaymentId>)
      requires candidates <= payments.Keys
      ensures kept <= candidates && |kept| <= FORWARDING_ORPHAN_MAX_ROWS
      ensures kept != candidates ==> |kept| == FORWARDING_ORPHAN_MAX_ROWS
      ensures forall e, k :: e in candidates && e !in kept && k in kept ==>
              payments[e].updatedAt <= payments[k].updatedAt
    {
      kept := candidates;
      while |kept| > FORWARDING_ORPHAN_MAX_ROWS
        invariant kept <= candidates
        invariant kept != candidates ==> |kept| >= FORWARDING_ORPHAN_MAX_ROWS
        invariant forall e, k :: e in candidates && e !in kept && k in kept ==>
                  payments[e].updatedAt <= payments[k].updatedAt
        decreases |kept|
      {
        var oldest := First(kept, id => if id in payments then payments[id].updatedAt else 0, _ => 0);
        assert |kept - {oldest}| == |kept| - 1;
        kept := kept - {oldest};
      }
    }

    static lemma DropFitsWhen(p: Payments, kept: set<PaymentId>, cutoff: int)
      requires kept <= Young(p, cutoff) && |kept| <= FORWARDING_ORPHAN_MAX_ROWS
      requires kept != Young(p, cutoff) ==> |kept| == FORWARDING_ORPHAN_MAX_ROWS
      requires forall e, k :: e in Young(p, cutoff) && e !in kept && k in kept ==> p[e].updatedAt <= p[k].updatedAt
      ensures DropFits(p, Aged(p, cutoff) + (Young(p, cutoff) - kept), cutoff)
    {
      var dropped := Aged(p, cutoff) + (Young(p, cutoff) - kept);
      assert kept == set id | id in p && Prunable(p[id]) && id !in dropped;
    }

    method PruneForwardingPaymentOrphans(cutoff: int) returns (ghost dropped: set<PaymentId>)
      requires Valid()
      modifies this`forwardingPayments
      ensures Valid() && DropFits(old(forwardingPayments), dropped, cutoff)
      ensures forwardingPayments == old(forwardingPayments) - dropped
    {
      var payments := forwardingPayments;
      var aged := set id | id in payments && Prunable(payments[id]) && payments[id].updatedAt < cutoff;
      var young := set id | id in payments && Prunable(payments[id]) && payments[id].updatedAt >= cutoff;
      var kept := Youngest(payments, young);
      forwardingPayments := payments - (aged + (young - kept));
      dropped := aged + (young - kept);
      DropFitsWhen(payments, kept, cutoff);
    }

    /** `setForwardingPayment`; `cutoff` is the age limit of orphans at the time of the write. */
    method SetForwardingPayment(record: Payment, cutoff: int) returns (ghost pruning: Pruning)
      requires Valid()
      modifies this`forwardingPayments, this`revealedSecrets
      ensures Valid() && WriteFits(old(ForwardingTables()), record, pruning)
      ensures ForwardingTables() == Write(old(ForwardingTables()), record, pruning)
    {
      forwardingPayments := forwardingPayments[record.paymentId := record];
      SyncRevealedSecret(record);
      assert forwardingPayments[record.paymentId] == record;
      if record.contractId.Some? && record.pipeId.Some? {
        assert OnPipe(record, PipeOf(record));
        ghost var keep := PruneForwardingPaymentsForPipe(PipeRef(record.contractId.value, record.pipeId.value));
        pruning := Keep(keep.value);
      } else {
        ghost var dropped := PruneForwardingPaymentOrphans(cutoff);
        pruning := Drop(dropped, cutoff);
      }
    }

    /** One latest row for every pipe, at startup. */
    method PruneForwardingPaymentsLatestPerPipe() returns (ghost keeps: map<PipeRef, PaymentId>)
      requires Valid()
      modifies this`forwardingPayments
      ensures Valid() && KeepsFit(old(forwardingPayments), keeps)
      ensures forwardingPayments == KeepOnly(old(forwardingPayments), keeps)
    {
      var payments := forwardingPayments;
      var pipes := InSomeOrder(set id | id in payments && HasPipe(payments[id]) :: PipeOf(payments[id]));
      keeps := map[];
      for i := 0 to |pipes|
        invariant Valid() && forwardingPayments == KeepOnly(payments, keeps)
        invariant forall pipe :: pipe in keeps <==> pipe in pipes[..i]
        invariant forall pipe :: pipe in keeps ==> IsLatest(payments, pipe, keeps[pipe])
      {
        assert pipes[..i + 1] == pipes[..i] + [pipes[i]];
        assert pipes[i] in pipes && pipes[i] !in keeps;
        ghost var id :| id in payments && HasPipe(payments[id]) && PipeOf(payments[id]) == pipes[i];
        assert OnPipe(payments[id], pipes[i]);
        ghost var keep := PruneForwardingPaymentsForPipe(pipes[i]);
        OnePipeMore(payments, keeps, pipes[i], keep);
        keeps := keeps[pipes[i] := keep.value];
      }
      assert forall id :: id in payments && HasPipe(payments[id]) ==> PipeOf(payments[id]) in pipes;
    }

    static lemma OnePipeMore(p: Payments, keeps: map<PipeRef, PaymentId>, pipe: PipeRef, keep: Option<PaymentId>)
      requires pipe !in keeps && exists id :: id in p && OnPipe(p[id], pipe)
      requires keep.None? ==> forall id :: id in KeepOnly(p, keeps) ==> !OnPipe(p[id], pipe)
      requires keep.Some? ==> IsLatest(KeepOnly(p, keeps), pipe, keep.value)
      ensures keep.Some? && IsLatest(p, pipe, keep.value)
      ensures PruneTo(KeepOnly(p, keeps), pipe, keep.value) == KeepOnly(p, keeps[pipe := keep.value])
    {
      assert forall id :: id in p && OnPipe(p[id], pipe) ==> id in KeepOnly(p, keeps);
    }

    /** The pruning that `load` does on an existing file. */
    method PruneAtStartup(cutoff: int) returns (ghost dropped: set<PaymentId>, ghost keeps: map<PipeRef, PaymentId>)
      requires Valid()
      modifies this`forwardingPayments
      ensures Valid() && OneRowPerPipe(forwardingPayments)
      ensures forall env, held :: RevealRuns.World(ForwardingTables(), map[])
                == Next(env, RevealRuns.World(old(ForwardingTables()), held), Restart(dropped, cutoff, keeps))
    {
      dropped := PruneForwardingPaymentOrphans(cutoff);
      keeps := PruneForwardingPaymentsLatestPerPipe();
    }

    /** The payments due for a retry, earliest first, at most `limit` of them (between 1 and 500). */
    method ListForwardingRevealRetriesDue(now: int, limit: int) returns (due: seq<Payment>)
      requires Valid()
      ensures ListsDue(forwardingPayments, due, now, limit)
    {
      var payments := forwardingPayments;
      var todo := set id | id in payments && DueAt(payments[id], now);
      due := [];
      while todo != {} && |due| < NormalizedLimit(limit)
        invariant ListedSoFar(payments, now, due, todo)
        invariant |due| <= NormalizedLimit(limit)
        decreases |todo|
      {
        var next := First(todo, id => if id in payments then payments[id].nextRetryAt.GetOr(0) else 0,
                          id => if id in payments then payments[id].updatedAt else 0);
        OneMoreListed(payments, now, due, todo, next);
        due := due + [payments[next]];
        todo := todo - {next};
      }
    }

    /** `due` holds the earliest due payments in order, `todo` the ids of the others. */
    static ghost predicate ListedSoFar(payments: Payments, now: int, due: seq<Payment>, todo: set<PaymentId>) {
      && (forall id :: id in todo ==> id in payments && DueAt(payments[id], now) && payments[id] !in due)
      && (forall p :: p in due ==> p.paymentId in payments && payments[p.paymentId] == p && DueAt(p, now))
      && (forall id :: id in payments && DueAt(payments[id], now) ==> id in todo || payments[id] in due)
      && (forall p, id :: p in due && id in todo ==> RetryBefore(p, payments[id]))
      && (forall i, j :: 0 <= i < j < |due| ==> due[i].paymentId != due[j].paymentId && RetryBefore(due[i], due[j]))
    }

    static lemma OneMoreListed(payments: Payments, now: int, due: seq<Payment>, todo: set<PaymentId>, next: PaymentId)
      requires PaymentsKeyed(payments) && ListedSoFar(payments, now, due, todo)
      requires next in todo && forall id :: id in todo ==> RetryBefore(payments[next], payments[id])
      ensures ListedSoFar(payments, now, due + [payments[next]], todo - {next})
    {
    }
  }

  function NormalizedLimit(limit: int): nat { if limit < 1 then 1 else if limit > 500 then 500 else limit }

  /** ORDER BY reveal_next_retry_at, updated_at. */
  predicate RetryBefore(a: Payment, b: Payment) {
    var x, y := a.nextRetryAt.GetOr(0), b.nextRetryAt.GetOr(0);
    x < y || (x == y && a.updatedAt <= b.updatedAt)
  }

  /** Rows that are due, each once and earliest first; a due row is missing only when earlier ones have used
      up the limit. */
  ghost predicate ListsDue(payments: Payments, due: seq<Payment>, now: int, limit: int) {
    && (forall i :: 0 <= i < |due| ==>
          due[i].paymentId in payments && payments[due[i].paymentId] == due[i] && DueAt(due[i], now))
    && (forall i, j :: 0 <= i < j < |due| ==> due[i].paymentId != due[j].paymentId && RetryBefore(due[i], due[j]))
    && |due| <= NormalizedLimit(limit)
    && (forall id :: id in payments && DueAt(payments[id], now) && payments[id] !in due ==>
          |due| == NormalizedLimit(limit) && forall i :: 0 <= i < |due| ==> RetryBefore(due[i], payments[id]))
  }

  /** By fields: what is listed is pending and due, in the order of due time and then of last change; at most 500
      rows and at most `limit` of them, but at least one when anything is due; and a due row that is left out
      comes after all that are listed, which are as many as allowed. */
  lemma DueRowsAreListed(payments: Payments, due: seq<Payment>, now: int, limit: int)
    requires ListsDue(payments, due, now, limit)
    ensures forall p :: p in due ==>
              p.revealStatus == PendingReveal && p.nextRetryAt.Some? && p.nextRetryAt.value <= now
    ensures forall i, j :: 0 <= i < j < |due| ==>
              due[i].nextRetryAt.value < due[j].nextRetryAt.value
              || (due[i].nextRetryAt == due[j].nextRetryAt && due[i].updatedAt <= due[j].updatedAt)
    ensures |due| <= 500 && (1 <= limit ==> |due| <= limit)
    ensures forall id :: id in payments && payments[id] !in due && payments[id].revealStatus == PendingReveal
                         && payments[id].nextRetryAt.Some? && payments[id].nextRetryAt.value <= now ==>
              && due != [] && (|due| == limit || |due| == 500 || limit < 1)
              && forall i :: 0 <= i < |due| ==>
                   due[i].nextRetryAt.value < payments[id].nextRetryAt.value
                   || (due[i].nextRetryAt == payments[id].nextRetryAt && due[i].updatedAt <= payments[id].updatedAt)
  {
  }
}
