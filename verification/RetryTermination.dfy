/** Retries run out: while nobody reveals, every retry written back uses up attempts of the table, however
    retry passes interleave with new payments, prunings and restarts. The retry loop and
    `propagateRevealForPayment` are in `server/src/index.ts`. */
module RetryTermination {
  import opened Wrappers
  import opened Octets
  import opened Principals
  import opened NodeTypes
  import opened Forwarding
  import opened RevealRuns

  // ---------- Attempts left ----------

  /** Attempts that a payment still has, when it will be retried. */
  function AttemptsLeft(policy: RetryPolicy, p: Payment): nat {
    if Retryable(p) && p.attempts < policy.maxAttempts then policy.maxAttempts - p.attempts else 0
  }

  ghost function TotalLeft(policy: RetryPolicy, p: Payments): nat {
    if p == map[] then 0
    else
      var id :| id in p;
      AttemptsLeft(policy, p[id]) + TotalLeft(policy, p - {id})
  }

  lemma {:induction false} TotalLeftSplits(policy: RetryPolicy, p: Payments, id: PaymentId)
    requires id in p
    ensures TotalLeft(policy, p) == AttemptsLeft(policy, p[id]) + TotalLeft(policy, p - {id})
    decreases |p|
  {
    var first :| first in p && TotalLeft(policy, p) == AttemptsLeft(policy, p[first]) + TotalLeft(policy, p - {first});
    if first != id {
      TotalLeftSplits(policy, p - {first}, id);
      TotalLeftSplits(policy, p - {id}, first);
      assert p - {first} - {id} == p - {id} - {first};
    }
  }

  lemma {:induction false} PruningOnlyLowersTotal(policy: RetryPolicy, p: Payments, q: Payments)
    requires forall id :: id in q ==> id in p && q[id] == p[id]
    ensures TotalLeft(policy, q) <= TotalLeft(policy, p)
    decreases |p|
  {
    if id :| id in p {
      TotalLeftSplits(policy, p, id);
      if id in q {
        TotalLeftSplits(policy, q, id);
      }
      PruningOnlyLowersTotal(policy, p - {id}, q - {id});
      assert id !in q ==> q - {id} == q;
    } else {
      assert q == map[];
    }
  }

  // ---------- Runs without reveals ----------

  ghost predicate Outstanding(w: World, id: PaymentId) { exists c :: c in w.held && w.held[c].paymentId == id }

  /** No reveal is in progress: what is outstanding was listed by a retry pass, each payment once. */
  ghost predicate OnlyRetries(w: World) {
    && (forall c :: c in w.held ==> Retryable(w.held[c]))
    && (forall c, d :: c in w.held && d in w.held && w.held[c].paymentId == w.held[d].paymentId ==> c == d)
  }

  /** Nobody reveals, a pass lists no payment that is still outstanding (`retryPassRunning` sees to it), and
      the id of an outstanding payment is not used again. */
  ghost predicate RetryStep(w: World, s: Step) {
    match s
    case Reveal(_, _, _, _, _) => false
    case Pick(_, id, _) => !Outstanding(w, id)
    case Transfer(rec, _) => !Outstanding(w, rec.paymentId)
    case _ => true
  }

  ghost predicate NobodyReveals(env: Env, w: World, steps: seq<Step>) {
    steps == [] ||
    (NobodyReveals(env, w, steps[..|steps| - 1])
     && RetryStep(Execute(env, w, steps[..|steps| - 1]), steps[|steps| - 1]))
  }

  /** Retries that the run writes back. */
  ghost function RetriesIn(env: Env, w: World, steps: seq<Step>): nat {
    if steps == [] then 0
    else
      var earlier, last := steps[..|steps| - 1], steps[|steps| - 1];
      RetriesIn(env, w, earlier) + if last.WriteBack? && Writes(env, Execute(env, w, earlier), last) then 1 else 0
  }

  lemma {:induction false} QuietRunsCompose(env: Env, w: World, a: seq<Step>, b: seq<Step>)
    requires NobodyReveals(env, w, a) && NobodyReveals(env, Execute(env, w, a), b)
    ensures NobodyReveals(env, w, a + b)
    ensures RetriesIn(env, w, a + b) == RetriesIn(env, w, a) + RetriesIn(env, Execute(env, w, a), b)
  {
    if b == [] {
      assert a + b == a;
    } else {
      QuietRunsCompose(env, w, a, b[..|b| - 1]);
      RunsCompose(env, w, a, b[..|b| - 1]);
      assert (a + b)[..|a + b| - 1] == a + b[..|b| - 1];
    }
  }

  ghost predicate Sound(env: Env, w: World) {
    && PaymentsKeyed(w.tables.payments) && AllRetrySound(env.policy, w.tables.payments)
    && HeldSound(env.policy, w) && OnlyRetries(w)
  }

  /** `live` has every row, and every outstanding snapshot: the two agree wherever both exist. */
  ghost predicate Covers(live: Payments, w: World) {
    && (forall id :: id in w.tables.payments ==> id in live && live[id] == w.tables.payments[id])
    && (forall c :: c in w.held ==> w.held[c].paymentId in live && live[w.held[c].paymentId] == w.held[c])
  }

  lemma StepKeepsSound(env: Env, w: World, s: Step)
    requires Sound(env, w) && RetryStep(w, s)
    ensures Sound(env, Next(env, w, s))
  {
    StepKeepsRetries(env, w, s);
  }

  /** `live` with the record that a step writes. */
  ghost function Overlaid(env: Env, w: World, live: Payments, s: Step): Payments {
    if Writes(env, w, s) then live[Written(env, w, s).value.paymentId := Written(env, w, s).value] else live
  }

  lemma WriteKeepsCover(t: ForwardTables, held: map<nat, Payment>, live: Payments, rec: Payment, pruning: Pruning)
    requires Covers(live, World(t, held)) && !Outstanding(World(t, held), rec.paymentId)
    ensures Covers(live[rec.paymentId := rec], World(Write(t, rec, pruning), held))
  {
  }

  lemma StepKeepsCover(env: Env, w: World, live: Payments, s: Step)
    requires Sound(env, w) && Covers(live, w) && RetryStep(w, s)
    ensures Covers(Overlaid(env, w, live, s), Next(env, w, s))
  {
    if Writes(env, w, s) {
      if s.WriteBack? {
        AnswersKeepHome(env, w.held[s.call], s.reply, s.now);
      }
      WriteKeepsCover(w.tables, HeldAfter(env, w, s), live, Written(env, w, s).value, s.pruning);
    }
  }

  /** A retry written back uses up at least one attempt, and nothing else adds any. */
  lemma RetryLowersTotal(env: Env, w: World, live: Payments, s: Step) returns (left: Payments)
    requires Sound(env, w) && Covers(live, w) && RetryStep(w, s)
    ensures Sound(env, Next(env, w, s)) && Covers(left, Next(env, w, s))
    ensures TotalLeft(env.policy, left) + (if s.WriteBack? && Writes(env, w, s) then 1 else 0) <=
            TotalLeft(env.policy, live)
  {
    StepKeepsSound(env, w, s);
    StepKeepsCover(env, w, live, s);
    left := live;
    if Writes(env, w, s) {
      var rec := Written(env, w, s).value;
      left := live[rec.paymentId := rec];
      WrittenHasFewerLeft(env, w, live, s);
      TotalLeftSplits(env.policy, left, rec.paymentId);
      assert left - {rec.paymentId} == live - {rec.paymentId};
      if rec.paymentId in live {
        TotalLeftSplits(env.policy, live, rec.paymentId);
      } else {
        assert live - {rec.paymentId} == live;
      }
    }
  }

  lemma WrittenHasFewerLeft(env: Env, w: World, live: Payments, s: Step)
    requires Sound(env, w) && Covers(live, w) && RetryStep(w, s) && Writes(env, w, s)
    ensures var rec := Written(env, w, s).value;
            && (s.Transfer? ==> AttemptsLeft(env.policy, rec) == 0)
            && (s.WriteBack? ==> rec.paymentId in live
                                 && AttemptsLeft(env.policy, rec) < AttemptsLeft(env.policy, live[rec.paymentId]))
  {
  }

  /** Writing back one retry leaves the rows of the other waiting payments alone: the listed snapshots of a
      pass that nobody disturbs stay current. */
  lemma RetryLeavesOtherDuePayments(env: Env, w: World, s: Step, other: Payment)
    requires OneRowPerPipe(w.tables.payments) && HomesAgree(w) && s.WriteBack? && Writes(env, w, s)
    requires w.held[s.call].paymentId in w.tables.payments && w.held[s.call].paymentId != other.paymentId
    requires other.paymentId in w.tables.payments && w.tables.payments[other.paymentId] == other && Retryable(other)
    ensures var after := Next(env, w, s).tables.payments; other.paymentId in after && after[other.paymentId] == other
  {
    AnswersKeepHome(env, w.held[s.call], s.reply, s.now);
  }

  /** Where a payment that is being retried can be: still retried, final, or pruned. */
  predicate OnItsWay(t: ForwardTables, id: PaymentId) {
    id in t.payments ==> Retryable(t.payments[id]) || t.payments[id].revealStatus in {Propagated, FailedReveal}
  }

  lemma StepKeepsOnItsWay(env: Env, w: World, s: Step, id: PaymentId)
    requires Sound(env, w) && RetryStep(w, s) && OnItsWay(w.tables, id)
    requires s.Transfer? ==> s.rec.paymentId != id
    ensures OnItsWay(Next(env, w, s).tables, id)
  {
  }

  /** While nobody reveals, at most as many retries are written back as the live payments have attempts left,
      and every payment on its way stays on its way. */
  lemma {:induction false} RetriesAreBounded(env: Env, w: World, live: Payments, steps: seq<Step>)
      returns (left: Payments)
    requires Sound(env, w) && Covers(live, w) && NobodyReveals(env, w, steps)
    ensures Sound(env, Execute(env, w, steps)) && Covers(left, Execute(env, w, steps))
    ensures TotalLeft(env.policy, left) + RetriesIn(env, w, steps) <= TotalLeft(env.policy, live)
    ensures forall id :: OnItsWay(w.tables, id) && (forall s :: s in steps && s.Transfer? ==> s.rec.paymentId != id)
              ==> OnItsWay(Execute(env, w, steps).tables, id)
  {
    left := live;
    if steps != [] {
      var earlier, last := steps[..|steps| - 1], steps[|steps| - 1];
      var before := Execute(env, w, earlier);
      left := RetriesAreBounded(env, w, live, earlier);
      forall id | OnItsWay(before.tables, id) && (last.Transfer? ==> last.rec.paymentId != id)
        ensures OnItsWay(Next(env, before, last).tables, id)
      {
        StepKeepsOnItsWay(env, before, last, id);
      }
      left := RetryLowersTotal(env, before, left, last);
    }
  }

  /** From a moment without outstanding calls on: the attempts left in the table fall by at least one with
      every retry, new payments or not. */
  lemma RetriesRunOut(env: Env, w: World, steps: seq<Step>)
    requires Sound(env, w) && w.held == map[] && NobodyReveals(env, w, steps)
    ensures TotalLeft(env.policy, Execute(env, w, steps).tables.payments) + RetriesIn(env, w, steps)
         <= TotalLeft(env.policy, w.tables.payments)
  {
    var left := RetriesAreBounded(env, w, w.tables.payments, steps);
    PruningOnlyLowersTotal(env.policy, left, Execute(env, w, steps).tables.payments);
  }

  /** So every payment that was being retried ends up propagated, failed or pruned, or there are attempts
      left for it: once the total is used up, all of them have ended. */
  lemma RetriesEndPropagatedOrFailed(env: Env, w: World, steps: seq<Step>, id: PaymentId)
    requires Sound(env, w) && w.held == map[] && NobodyReveals(env, w, steps)
    requires id in w.tables.payments && Retryable(w.tables.payments[id])
    requires forall s :: s in steps && s.Transfer? ==> s.rec.paymentId != id
    ensures var after := Execute(env, w, steps).tables.payments;
            id in after ==>
              || after[id].revealStatus in {Propagated, FailedReveal}
              || (Retryable(after[id]) && 0 < AttemptsLeft(env.policy, after[id]) <= TotalLeft(env.policy, after))
  {
    var left := RetriesAreBounded(env, w, w.tables.payments, steps);
    var after := Execute(env, w, steps).tables.payments;
    assert OnItsWay(w.tables, id);
    if id in after {
      assert RetrySound(env.policy, after[id]);
      TotalLeftSplits(env.policy, after, id);
    }
  }

  // ---------- How many attempts are made ----------

  /** A payment that upstream rejects at each of `times`. */
  function RejectedAt(policy: RetryPolicy, p: Payment, times: seq<int>, error: string): Payment {
    if times == [] then p
    else Propagate(policy, RejectedAt(policy, p, times[..|times| - 1], error), Rejected(error), times[|times| - 1]).0
  }

  /** A new payment that upstream keeps rejecting stays pending, due one interval after each rejection,
      for exactly the first maxAttempts - 1 rejections, and has failed from then on. */
  lemma {:induction false} FailsExactlyAtTheLimit(policy: RetryPolicy, p: Payment, times: seq<int>, error: string)
    requires FreshPayment(p) && ShouldPropagate(p)
    ensures var q := RejectedAt(policy, p, times, error);
            && q.attempts == |times| && ShouldPropagate(q)
            && (q.revealStatus == FailedReveal <==> times != [] && |times| >= policy.maxAttempts)
            && (q.revealStatus != FailedReveal ==>
                  q.revealStatus == PendingReveal
                  && q.nextRetryAt == if times == [] then None else Some(times[|times| - 1] + policy.retryIntervalMs))
  {
    if times != [] {
      FailsExactlyAtTheLimit(policy, p, times[..|times| - 1], error);
    }
  }
}
