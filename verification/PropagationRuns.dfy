/** When `propagated` is final. The reveal handler and the retry pass of `server/src/index.ts` write back
    snapshots that they took before an await, and a pass works through a whole list of them, so a
    propagated payment can become pending again. It stays propagated, in every continuation of every run,
    exactly when no outstanding snapshot of it is older than its propagation. */
module PropagationRuns {
  import opened Wrappers
  import opened Octets
  import opened Principals
  import opened NodeTypes
  import opened Forwarding
  import opened RevealRuns

  // ---------- Worlds that runs reach ----------

  /** What every run with fresh payment ids keeps. */
  ghost predicate Reached(env: Env, w: World) {
    && HomesAgree(w) && OneRowPerPipe(w.tables.payments)
    && AllRetrySound(env.policy, w.tables.payments) && HeldSound(env.policy, w)
  }

  lemma {:induction false} RunsAreReached(env: Env, w: World, steps: seq<Step>)
    requires Reached(env, w) && IdsAreFresh(env, w, steps)
    ensures Reached(env, Execute(env, w, steps))
  {
    if steps != [] {
      var earlier, last := steps[..|steps| - 1], steps[|steps| - 1];
      assert forall i :: 0 <= i < |earlier| ==> earlier[..i] == steps[..i];
      RunsAreReached(env, w, earlier);
      assert FreshStep(Execute(env, w, earlier), last);
      StepKeepsHomes(env, Execute(env, w, earlier), last);
      RunsKeepOneRowPerPipe(env, w, steps);
      StepKeepsRetries(env, Execute(env, w, earlier), last);
    }
  }

  // ---------- Nothing undoes a propagation ----------

  /** Gone, or propagated. */
  predicate PropagatedOrGone(t: ForwardTables, id: PaymentId) {
    id in t.payments ==> t.payments[id].revealStatus == Propagated
  }

  ghost predicate SnapshotsPropagated(held: map<nat, Payment>, id: PaymentId) {
    forall c :: c in held && held[c].paymentId == id ==> held[c].revealStatus == Propagated
  }

  /** No step creates the payment anew. */
  ghost predicate NotCreatedAgain(steps: seq<Step>, id: PaymentId) {
    forall s :: s in steps && s.Transfer? ==> s.rec.paymentId != id
  }

  lemma StepKeepsPropagated(env: Env, w: World, s: Step, id: PaymentId)
    requires AllRetrySound(env.policy, w.tables.payments) && HeldSound(env.policy, w)
    requires PaymentsKeyed(w.tables.payments)
    requires PropagatedOrGone(w.tables, id) && SnapshotsPropagated(w.held, id)
    requires s.Transfer? ==> s.rec.paymentId != id
    ensures PropagatedOrGone(Next(env, w, s).tables, id) && SnapshotsPropagated(Next(env, w, s).held, id)
    ensures PaymentsKeyed(Next(env, w, s).tables.payments)
  {
    if Writes(env, w, s) {
      WrittenStaysPropagated(env, w, s, id);
    }
  }

  lemma WrittenStaysPropagated(env: Env, w: World, s: Step, id: PaymentId)
    requires PaymentsKeyed(w.tables.payments) && HeldSound(env.policy, w) && Writes(env, w, s)
    requires PropagatedOrGone(w.tables, id) && SnapshotsPropagated(w.held, id)
    requires s.Transfer? ==> s.rec.paymentId != id
    ensures Written(env, w, s).value.paymentId == id ==> Written(env, w, s).value.revealStatus == Propagated
  {
  }

  /** With no older snapshot outstanding, a propagated payment stays propagated while its row exists, under
      every interleaving. */
  lemma {:induction false} PropagatedIsFinal(env: Env, w: World, steps: seq<Step>, id: PaymentId)
    requires PaymentsKeyed(w.tables.payments)
    requires AllRetrySound(env.policy, w.tables.payments) && HeldSound(env.policy, w)
    requires PropagatedOrGone(w.tables, id) && SnapshotsPropagated(w.held, id) && NotCreatedAgain(steps, id)
    ensures var after := Execute(env, w, steps);
            && PaymentsKeyed(after.tables.payments)
            && AllRetrySound(env.policy, after.tables.payments) && HeldSound(env.policy, after)
            && PropagatedOrGone(after.tables, id) && SnapshotsPropagated(after.held, id)
  {
    if steps != [] {
      var earlier, last := steps[..|steps| - 1], steps[|steps| - 1];
      PropagatedIsFinal(env, w, earlier, id);
      StepKeepsPropagated(env, Execute(env, w, earlier), last, id);
      StepKeepsRetries(env, Execute(env, w, earlier), last);
    }
  }

  // ---------- An older snapshot undoes it ----------

  const FORWARDING_ORPHAN_MAX_AGE_MS: int := 7 * 24 * 60 * 60 * 1000

  lemma {:induction false} LatestUpdate(p: Payments) returns (top: int)
    ensures forall id :: id in p ==> p[id].updatedAt <= top
    decreases |p|
  {
    top := 0;
    if id :| id in p {
      var rest := LatestUpdate(p - {id});
      top := if p[id].updatedAt > rest then p[id].updatedAt else rest;
      assert forall k :: k in p && k != id ==> k in p - {id};
    }
  }

  /** Long after every other row was written, pruning orphans can only spare the row just written. */
  lemma OnlyTheNewRowIsYoung(p: Payments, id: PaymentId, cutoff: int)
    requires id in p && cutoff <= p[id].updatedAt && forall k :: k in p && k != id ==> p[k].updatedAt < cutoff
    ensures var dropped := set k | k in p && Prunable(p[k]) && k != id; DropFits(p, dropped, cutoff)
  {
    var dropped := set k | k in p && Prunable(p[k]) && k != id;
    var kept := set k | k in p && Prunable(p[k]) && k !in dropped;
    assert kept <= {id};
    assert |kept| <= |{id}| by {
      SubsetIsNoLarger(kept, {id});
    }
  }

  lemma {:induction false} SubsetIsNoLarger<T>(a: set<T>, b: set<T>)
    requires a <= b
    ensures |a| <= |b|
  {
    if x :| x in a {
      SubsetIsNoLarger(a - {x}, b - {x});
    }
  }

  /** The step by which an outstanding older snapshot undoes a propagation: upstream rejects it. */
  lemma OlderSnapshotUndoes(env: Env, w: World, id: PaymentId, call: nat) returns (s: Step)
    requires Reached(env, w) && id in w.tables.payments && w.tables.payments[id].revealStatus == Propagated
    requires call in w.held && w.held[call].paymentId == id && w.held[call].revealStatus != Propagated
    ensures s.WriteBack? && s.call == call && s.reply.Rejected?
    ensures !PropagatedOrGone(Next(env, w, s).tables, id)
  {
    var p := w.held[call];
    var top := LatestUpdate(w.tables.payments);
    var cutoff := top + 1;
    var now := cutoff + FORWARDING_ORPHAN_MAX_AGE_MS;
    var rec := Answered(env, p, Rejected("down"), now).0;
    var written := w.tables.payments[id := rec];
    assert ShouldPropagate(w.tables.payments[id]) && SameHome(p, w.tables.payments[id]);
    if HasPipe(p) {
      s := WriteBack(call, Rejected("down"), now, Keep(id));
      assert IsLatest(written, PipeOf(rec), id);
    } else {
      var dropped := set k | k in written && Prunable(written[k]) && k != id;
      OnlyTheNewRowIsYoung(written, id, cutoff);
      s := WriteBack(call, Rejected("down"), now, Drop(dropped, cutoff));
    }
    assert Writes(env, w, s);
  }

  /** At any point of any run with fresh payment ids: a propagated payment stays propagated for as long as
      its row exists, whatever happens next, if and only if every outstanding snapshot of it was taken
      after its propagation. */
  lemma PropagatedIsFinalIff(env: Env, before: seq<Step>, id: PaymentId)
    requires IdsAreFresh(env, EMPTY, before)
    requires var payments := Execute(env, EMPTY, before).tables.payments;
             id in payments && payments[id].revealStatus == Propagated
    ensures var w := Execute(env, EMPTY, before);
            (forall steps :: NotCreatedAgain(steps, id) ==> PropagatedOrGone(Execute(env, w, steps).tables, id))
            <==> SnapshotsPropagated(w.held, id)
  {
    var w := Execute(env, EMPTY, before);
    RunsAreReached(env, EMPTY, before);
    if SnapshotsPropagated(w.held, id) {
      forall steps | NotCreatedAgain(steps, id) ensures PropagatedOrGone(Execute(env, w, steps).tables, id) {
        PropagatedIsFinal(env, w, steps, id);
      }
    } else {
      var c :| c in w.held && w.held[c].paymentId == id && w.held[c].revealStatus != Propagated;
      var s := OlderSnapshotUndoes(env, w, id, c);
      assert [s][..0] == [] && Execute(env, w, [s]) == Next(env, w, s);
      assert NotCreatedAgain([s], id);
    }
  }

  // ---------- Two runs that reach such a snapshot ----------

  /** Two reveal calls of one payment overlap, and the slower one is rejected. */
  lemma OverlappingRevealUndoesPropagation(env: Env, secret: Bytes) returns (steps: seq<Step>, last: Step)
    requires env.policy.maxAttempts > 1
    ensures StatusAfter(env, steps, "p") == Some(Propagated)
    ensures StatusAfter(env, steps + [last], "p") == Some(PendingReveal)
  {
    var p0 := RoutedPayment(env, secret, "p", "b");
    var p1 := WithSecret(p0, secret, 1);
    var p2 := WithSecret(p1, secret, 2);
    var p3 := Propagate(env.policy, p1, Accepted, 3).0;
    var p4 := Propagate(env.policy, p2, Rejected("down"), 4).0;
    var keep := Keep("p");
    steps := FirstReveal(env, [], p0, secret);
    steps := WriteRow(env, steps, Reveal(2, "p", Canonical(secret), 2, keep), p2);
    steps := WriteRow(env, steps, WriteBack(1, Accepted, 3, keep), p3);
    last := WriteBack(2, Rejected("down"), 4, keep);
    var all := WriteRow(env, steps, last, p4);
  }

  /** The six steps after two payments have become due: a retry pass lists "q" and "p" and starts with "q";
      while it awaits the answer for "q", a reveal call propagates "p" from start to end; then "q" is answered,
      and the pass comes to "p" as it was listed. */
  function ListedSnapshotRun(secret: Bytes, now: int): seq<Step> {
    [Pick(1, "q", now), Pick(2, "p", now),
     Reveal(3, "p", Canonical(secret), now, Keep("p")), WriteBack(3, Accepted, now, Keep("p")),
     WriteBack(1, Accepted, now, Keep("q")),
     WriteBack(2, Rejected("down"), now, Keep("p"))]
  }

  /** No two propagate calls of one payment overlap in this run: the call for "q" is outstanding before,
      during and after the whole reveal of "p", and the pass turns to "p" only afterwards. */
  lemma ListedSnapshotUndoesPropagation(env: Env, secret: Bytes) returns (before: seq<Step>, run: seq<Step>)
    requires env.policy.maxAttempts > 1
    ensures run == ListedSnapshotRun(secret, 3 + env.policy.retryIntervalMs)
    ensures Execute(env, EMPTY, before).held == map[]
    ensures var now, p, q := 3 + env.policy.retryIntervalMs, DueP(env, secret), DueQ(env, secret);
            var again := WithSecret(p, secret, now);
            && At(env, before + run[..2], p, q, map[1 := q, 2 := p])
            && At(env, before + run[..3], again, q, map[1 := q, 2 := p, 3 := again])
            && At(env, before + run[..4], Propagate(env.policy, again, Accepted, now).0, q, map[1 := q, 2 := p])
    ensures StatusAfter(env, before + run[..5], "p") == Some(Propagated)
    ensures StatusAfter(env, before + run, "p") ==
            Some(if env.policy.maxAttempts > 2 then PendingReveal else FailedReveal)
  {
    var now := 3 + env.policy.retryIntervalMs;
    run := ListedSnapshotRun(secret, now);
    before := BothDue(env, secret);
    BothListed(env, secret, before, run);
    RevealBegins(env, secret, before, run);
    RevealEnds(env, secret, before, run);
    PassGoesOn(env, secret, before, run);
    assert before + run[..6] == before + run;
  }

  function DueP(env: Env, secret: Bytes): Payment { RejectedOnce(env, RoutedPayment(env, secret, "p", "b"), secret) }
  function DueQ(env: Env, secret: Bytes): Payment { RejectedOnce(env, RoutedPayment(env, secret, "q", "c"), secret) }

  /** The rows are `p` and `q`, and these calls are outstanding. */
  ghost predicate At(env: Env, steps: seq<Step>, p: Payment, q: Payment, held: map<nat, Payment>) {
    Execute(env, EMPTY, steps).tables.payments == map["p" := p, "q" := q] && Execute(env, EMPTY, steps).held == held
  }

  lemma BothDue(env: Env, secret: Bytes) returns (before: seq<Step>)
    ensures At(env, before, DueP(env, secret), DueQ(env, secret), map[])
  {
    before := BecomesDue(env, [], RoutedPayment(env, secret, "p", "b"), secret);
    before := BecomesDue(env, before, RoutedPayment(env, secret, "q", "c"), secret);
  }

  lemma BothListed(env: Env, secret: Bytes, before: seq<Step>, run: seq<Step>)
    requires env.policy.maxAttempts > 1 && run == ListedSnapshotRun(secret, 3 + env.policy.retryIntervalMs)
    requires var p, q := DueP(env, secret), DueQ(env, secret); At(env, before, p, q, map[])
    ensures var p, q := DueP(env, secret), DueQ(env, secret); At(env, before + run[..2], p, q, map[1 := q, 2 := p])
  {
    var now := 3 + env.policy.retryIntervalMs;
    var steps := PickRow(env, before, 1, now, DueQ(env, secret));
    steps := PickRow(env, steps, 2, now, DueP(env, secret));
    assert steps == before + run[..2];
  }

  lemma RevealBegins(env: Env, secret: Bytes, before: seq<Step>, run: seq<Step>)
    requires run == ListedSnapshotRun(secret, 3 + env.policy.retryIntervalMs)
    requires var p, q := DueP(env, secret), DueQ(env, secret); At(env, before + run[..2], p, q, map[1 := q, 2 := p])
    ensures var p, q := DueP(env, secret), DueQ(env, secret);
            var again := WithSecret(p, secret, 3 + env.policy.retryIntervalMs);
            At(env, before + run[..3], again, q, map[1 := q, 2 := p, 3 := again])
  {
    var steps := WriteRow(env, before + run[..2], run[2],
                          WithSecret(DueP(env, secret), secret, 3 + env.policy.retryIntervalMs));
    assert steps == before + run[..3];
  }

  lemma RevealEnds(env: Env, secret: Bytes, before: seq<Step>, run: seq<Step>)
    requires run == ListedSnapshotRun(secret, 3 + env.policy.retryIntervalMs)
    requires var p, q := DueP(env, secret), DueQ(env, secret);
             var again := WithSecret(p, secret, 3 + env.policy.retryIntervalMs);
             At(env, before + run[..3], again, q, map[1 := q, 2 := p, 3 := again])
    ensures var now, p, q := 3 + env.policy.retryIntervalMs, DueP(env, secret), DueQ(env, secret);
            At(env, before + run[..4], Propagate(env.policy, WithSecret(p, secret, now), Accepted, now).0, q,
               map[1 := q, 2 := p])
  {
    var now := 3 + env.policy.retryIntervalMs;
    var again := WithSecret(DueP(env, secret), secret, now);
    var steps := WriteRow(env, before + run[..3], run[3], Propagate(env.policy, again, Accepted, now).0);
    assert steps == before + run[..4];
  }

  lemma PassGoesOn(env: Env, secret: Bytes, before: seq<Step>, run: seq<Step>)
    requires run == ListedSnapshotRun(secret, 3 + env.policy.retryIntervalMs)
    requires var now, p, q := 3 + env.policy.retryIntervalMs, DueP(env, secret), DueQ(env, secret);
             var done := Propagate(env.policy, WithSecret(p, secret, now), Accepted, now).0;
             At(env, before + run[..4], done, q, map[1 := q, 2 := p])
    ensures var now, p, q := 3 + env.policy.retryIntervalMs, DueP(env, secret), DueQ(env, secret);
            var done := Propagate(env.policy, WithSecret(p, secret, now), Accepted, now).0;
            && At(env, before + run[..5], done, Propagate(env.policy, q, Accepted, now).0, map[2 := p])
            && At(env, before + run[..6], Propagate(env.policy, p, Rejected("down"), now).0,
                  Propagate(env.policy, q, Accepted, now).0, map[])
  {
    var now := 3 + env.policy.retryIntervalMs;
    var steps := WriteRow(env, before + run[..4], run[4], Propagate(env.policy, DueQ(env, secret), Accepted, now).0);
    assert steps == before + run[..5];
    steps := WriteRow(env, steps, run[5], Propagate(env.policy, DueP(env, secret), Rejected("down"), now).0);
    assert steps == before + run[..6];
  }

  ghost function StatusAfter(env: Env, steps: seq<Step>, id: PaymentId): Option<RevealStatus> {
    var payments := Execute(env, EMPTY, steps).tables.payments;
    if id in payments then Some(payments[id].revealStatus) else None
  }

  /** A payment with a route upstream, on the pipe of "a" and `peer`. */
  function RoutedPayment(env: Env, secret: Bytes, id: PaymentId, peer: Principal): Payment {
    Payment(
      id, Some("c"), Some(PipeKey(None, "a", peer)), Some(1), Completed, Some(Canonical(env.sha256(secret))),
      None, None, Some("u"), Some("q"), PendingReveal, 0, None, None, None, 0)
  }

  function RejectedOnce(env: Env, p: Payment, secret: Bytes): Payment {
    Propagate(env.policy, WithSecret(p, secret, 1), Rejected("down"), 2).0
  }

  /** `rec` would be the only row of its pipe. */
  ghost predicate AloneOnPipe(payments: Payments, rec: Payment) {
    HasPipe(rec) && forall id :: id in payments && OnPipe(payments[id], PipeOf(rec)) ==> id == rec.paymentId
  }

  /** A payment is forwarded, and its secret comes in: call 1 awaits the upstream node. */
  lemma FirstReveal(env: Env, steps: seq<Step>, p: Payment, secret: Bytes) returns (longer: seq<Step>)
    requires FreshPayment(p) && p.hashedSecret == Some(Canonical(env.sha256(secret)))
    requires AloneOnPipe(Execute(env, EMPTY, steps).tables.payments, p) && Execute(env, EMPTY, steps).held == map[]
    ensures Execute(env, EMPTY, longer).tables.payments
         == Execute(env, EMPTY, steps).tables.payments[p.paymentId := WithSecret(p, secret, 1)]
    ensures Execute(env, EMPTY, longer).held == map[1 := WithSecret(p, secret, 1)]
  {
    var keep := Keep(p.paymentId);
    longer := WriteRow(env, steps, Transfer(p, keep), p);
    longer := WriteRow(env, longer, Reveal(1, p.paymentId, Canonical(secret), 1, keep), WithSecret(p, secret, 1));
  }

  /** And the upstream node rejects it once. */
  lemma BecomesDue(env: Env, steps: seq<Step>, p: Payment, secret: Bytes) returns (longer: seq<Step>)
    requires FreshPayment(p) && ShouldPropagate(p) && p.hashedSecret == Some(Canonical(env.sha256(secret)))
    requires AloneOnPipe(Execute(env, EMPTY, steps).tables.payments, p) && Execute(env, EMPTY, steps).held == map[]
    ensures Execute(env, EMPTY, longer).tables.payments
         == Execute(env, EMPTY, steps).tables.payments[p.paymentId := RejectedOnce(env, p, secret)]
    ensures Execute(env, EMPTY, longer).held == map[]
  {
    longer := FirstReveal(env, steps, p, secret);
    longer := WriteRow(env, longer, WriteBack(1, Rejected("down"), 2, Keep(p.paymentId)), RejectedOnce(env, p, secret));
  }

  /** A step that writes a row which is alone on its pipe. */
  lemma WriteRow(env: Env, steps: seq<Step>, s: Step, rec: Payment) returns (longer: seq<Step>)
    requires AloneOnPipe(Execute(env, EMPTY, steps).tables.payments, rec)
    requires Written(env, Execute(env, EMPTY, steps), s) == Some(rec) && s.pruning == Keep(rec.paymentId)
    ensures longer == steps + [s]
    ensures Execute(env, EMPTY, longer).tables.payments
         == Execute(env, EMPTY, steps).tables.payments[rec.paymentId := rec]
    ensures var held := Execute(env, EMPTY, steps).held;
            Execute(env, EMPTY, longer).held
            == if s.Reveal? then held[s.call := rec] else if s.WriteBack? then held - {s.call} else held
  {
    longer := steps + [s];
    OneMoreStep(env, EMPTY, steps, s);
    var w := Execute(env, EMPTY, steps);
    WritingAlone(w.tables, rec);
    assert Writes(env, w, s);
  }

  lemma WritingAlone(t: ForwardTables, rec: Payment)
    requires AloneOnPipe(t.payments, rec)
    ensures WriteFits(t, rec, Keep(rec.paymentId))
    ensures Write(t, rec, Keep(rec.paymentId)).payments == t.payments[rec.paymentId := rec]
  {
    assert OnPipe(rec, PipeOf(rec));
  }

  /** A retry pass lists a row. */
  lemma PickRow(env: Env, steps: seq<Step>, call: nat, now: int, p: Payment) returns (longer: seq<Step>)
    requires p.paymentId in Execute(env, EMPTY, steps).tables.payments
    requires Execute(env, EMPTY, steps).tables.payments[p.paymentId] == p && DueAt(p, now)
    requires call !in Execute(env, EMPTY, steps).held
    ensures longer == steps + [Pick(call, p.paymentId, now)]
    ensures Execute(env, EMPTY, longer).tables == Execute(env, EMPTY, steps).tables
    ensures Execute(env, EMPTY, longer).held == Execute(env, EMPTY, steps).held[call := p]
  {
    longer := steps + [Pick(call, p.paymentId, now)];
    OneMoreStep(env, EMPTY, steps, Pick(call, p.paymentId, now));
  }
}
