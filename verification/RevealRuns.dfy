/** Runs of the forwarding tables. Handlers and retry passes keep a snapshot of a payment across an
    await and write it back later, so a run interleaves their steps freely: `held` maps each call that
    awaits something to the snapshot it will write back, and any of them may continue next. */
module RevealRuns {
  import opened Wrappers
  import opened Octets
  import opened NodeTypes
  import opened Forwarding

  datatype Env = Env(sha256: Bytes -> Bytes, policy: RetryPolicy)

  datatype World = World(tables: ForwardTables, held: map<nat, Payment>)

  datatype Step =
    | Transfer(rec: Payment, pruning: Pruning)
    | Reveal(call: nat, id: PaymentId, secret: HashText, now: int, pruning: Pruning)
    | Pick(call: nat, id: PaymentId, now: int)
    | WriteBack(call: nat, reply: Reply, now: int, pruning: Pruning)
    | Restart(dropped: set<PaymentId>, cutoff: int, keeps: map<PipeRef, PaymentId>)

  /** What a retry pass, or the reveal handler after its await, writes for a snapshot. */
  function Answered(env: Env, snapshot: Payment, reply: Reply, now: int): (Payment, bool) {
    if snapshot.revealedSecret.None? then (MissingSecret(snapshot, now), true)
    else Propagate(env.policy, snapshot, reply, now)
  }

  function KeepOnly(p: Payments, keeps: map<PipeRef, PaymentId>): Payments {
    map id | id in p && (HasPipe(p[id]) && PipeOf(p[id]) in keeps ==> keeps[PipeOf(p[id])] == id) :: p[id]
  }

  /** Startup pruning keeps a latest row of every pipe. */
  ghost predicate KeepsFit(p: Payments, keeps: map<PipeRef, PaymentId>) {
    && (forall id :: id in p && HasPipe(p[id]) ==> PipeOf(p[id]) in keeps)
    && (forall pipe :: pipe in keeps ==> IsLatest(p, pipe, keeps[pipe]))
  }

  /** The record a step writes. */
  ghost function Written(env: Env, w: World, s: Step): Option<Payment> {
    match s
    case Transfer(rec, _) => if FreshPayment(rec) then Some(rec) else None
    case Reveal(call, id, secret, now, _) =>
      if call in w.held then None else RevealedRecord(env.sha256, w.tables.payments, id, secret, now)
    case WriteBack(call, reply, now, _) =>
      if call !in w.held then None
      else
        var (rec, writes) := Answered(env, w.held[call], reply, now);
        if writes then Some(rec) else None
    case Pick(_, _, _) => None
    case Restart(_, _, _) => None
  }

  ghost predicate Writes(env: Env, w: World, s: Step) {
    && Written(env, w, s).Some?
    && WriteFits(w.tables, Written(env, w, s).value, s.pruning)
  }

  /** The outstanding snapshots after a step: a reveal and a pick take one, a write-back uses one up,
      whether it has something to write or not. */
  ghost function HeldAfter(env: Env, w: World, s: Step): map<nat, Payment> {
    match s
    case Reveal(call, _, _, _, _) => if Writes(env, w, s) then w.held[call := Written(env, w, s).value] else w.held
    case Pick(call, id, now) =>
      if call !in w.held && id in w.tables.payments && DueAt(w.tables.payments[id], now)
      then w.held[call := w.tables.payments[id]] else w.held
    case WriteBack(call, _, _, _) =>
      if call in w.held && (Written(env, w, s).None? || Writes(env, w, s)) then w.held - {call} else w.held
    case _ => w.held
  }

  /** Labels that the code could not have produced leave the world unchanged. */
  ghost function Next(env: Env, w: World, s: Step): World {
    if s.Restart? then
      var rest := w.tables.payments - s.dropped;
      if DropFits(w.tables.payments, s.dropped, s.cutoff) && KeepsFit(rest, s.keeps)
      then World(w.tables.(payments := KeepOnly(rest, s.keeps)), map[]) else w
    else
      World(if Writes(env, w, s) then Write(w.tables, Written(env, w, s).value, s.pruning) else w.tables,
            HeldAfter(env, w, s))
  }

  ghost function Execute(env: Env, w: World, steps: seq<Step>): World {
    if steps == [] then w else Next(env, Execute(env, w, steps[..|steps| - 1]), steps[|steps| - 1])
  }

  lemma {:induction false} RunsCompose(env: Env, w: World, a: seq<Step>, b: seq<Step>)
    ensures Execute(env, w, a + b) == Execute(env, Execute(env, w, a), b)
  {
    if b == [] {
      assert a + b == a;
    } else {
      RunsCompose(env, w, a, b[..|b| - 1]);
      assert (a + b)[..|a + b| - 1] == a + b[..|b| - 1];
    }
  }

  lemma OneMoreStep(env: Env, w: World, steps: seq<Step>, s: Step)
    ensures Execute(env, w, steps + [s]) == Next(env, Execute(env, w, steps), s)
  {
    assert (steps + [s])[..|steps|] == steps;
  }

  const EMPTY := World(ForwardTables(map[], map[]), map[])

  // ---------- Secrets ----------

  ghost predicate SoundPayment(env: Env, p: Payment) {
    p.revealedSecret.Some? ==> p.hashedSecret.Some? && Opens(env.sha256, p.hashedSecret.value, p.revealedSecret.value)
  }

  /** Every stored preimage is genuine, and the rows that carry one have it in the secrets table. */
  ghost predicate SecretsSound(env: Env, t: ForwardTables) {
    && PaymentsKeyed(t.payments)
    && (forall key :: key in t.revealed ==> Opens(env.sha256, key, t.revealed[key]))
    && (forall id :: id in t.payments ==> SoundPayment(env, t.payments[id]))
    && (forall id :: id in t.payments && t.payments[id].revealedSecret.Some?
                     ==> t.payments[id].hashedSecret.value in t.revealed)
  }

  ghost predicate WorldSound(env: Env, w: World) {
    && SecretsSound(env, w.tables)
    && forall c :: c in w.held ==> SoundPayment(env, w.held[c])
  }

  lemma WriteKeepsSecrets(env: Env, t: ForwardTables, rec: Payment, pruning: Pruning)
    requires SecretsSound(env, t) && SoundPayment(env, rec)
    ensures SecretsSound(env, Write(t, rec, pruning))
    ensures t.revealed.Keys <= Write(t, rec, pruning).revealed.Keys
  {
  }

  lemma WrittenIsSound(env: Env, w: World, s: Step)
    requires WorldSound(env, w)
    ensures Written(env, w, s).Some? ==> SoundPayment(env, Written(env, w, s).value)
    ensures forall c :: c in HeldAfter(env, w, s) ==> SoundPayment(env, HeldAfter(env, w, s)[c])
  {
  }

  lemma NextKeepsSecrets(env: Env, w: World, s: Step)
    requires WorldSound(env, w)
    ensures WorldSound(env, Next(env, w, s))
    ensures w.tables.revealed.Keys <= Next(env, w, s).tables.revealed.Keys
  {
    WrittenIsSound(env, w, s);
    if Writes(env, w, s) {
      WriteKeepsSecrets(env, w.tables, Written(env, w, s).value, s.pruning);
    }
  }

  lemma {:induction false} RunsKeepSecrets(env: Env, w: World, steps: seq<Step>)
    requires WorldSound(env, w)
    ensures WorldSound(env, Execute(env, w, steps))
    ensures w.tables.revealed.Keys <= Execute(env, w, steps).tables.revealed.Keys
  {
    if steps != [] {
      RunsKeepSecrets(env, w, steps[..|steps| - 1]);
      NextKeepsSecrets(env, Execute(env, w, steps[..|steps| - 1]), steps[|steps| - 1]);
    }
  }

  /** A hash that resolves at some point of a run resolves ever after, to a genuine preimage, whatever
      rows are pruned meanwhile and however the handlers interleave. */
  lemma RevealedForever(env: Env, before: seq<Step>, after: seq<Step>, key: HashText, r: Option<Bytes>)
    requires Resolvable(Execute(env, EMPTY, before).tables, key)
    requires RevealAnswer(Execute(env, Execute(env, EMPTY, before), after).tables, key, r)
    ensures r.Some? && Opens(env.sha256, key, r.value)
  {
    RunsKeepSecrets(env, EMPTY, before);
    RunsKeepSecrets(env, Execute(env, EMPTY, before), after);
  }

  // ---------- One row per pipe ----------

  ghost predicate OneRowPerPipe(p: Payments) {
    forall a, b :: a in p && b in p && HasPipe(p[a]) && HasPipe(p[b]) && PipeOf(p[a]) == PipeOf(p[b]) ==> a == b
  }

  lemma WriteKeepsOneRow(t: ForwardTables, rec: Payment, pruning: Pruning)
    requires OneRowPerPipe(t.payments) && WriteFits(t, rec, pruning)
    ensures OneRowPerPipe(Write(t, rec, pruning).payments)
  {
  }

  lemma {:induction false} RunsKeepOneRowPerPipe(env: Env, w: World, steps: seq<Step>)
    requires OneRowPerPipe(w.tables.payments)
    ensures OneRowPerPipe(Execute(env, w, steps).tables.payments)
  {
    if steps != [] {
      var v, s := Execute(env, w, steps[..|steps| - 1]), steps[|steps| - 1];
      RunsKeepOneRowPerPipe(env, w, steps[..|steps| - 1]);
      if Writes(env, v, s) {
        WriteKeepsOneRow(v.tables, Written(env, v, s).value, s.pruning);
      }
    }
  }

  /** The nonce kept for a pipe with at most one row, or -1. */
  ghost function KeptRank(p: Payments, pipe: PipeRef): int {
    if exists id :: id in p && OnPipe(p[id], pipe)
    then var id :| id in p && OnPipe(p[id], pipe); Rank(p[id])
    else -1
  }

  lemma KeptRankIs(p: Payments, id: PaymentId, pipe: PipeRef)
    requires OneRowPerPipe(p) && id in p && OnPipe(p[id], pipe)
    ensures KeptRank(p, pipe) == Rank(p[id])
  {
  }

  /** What a record would contribute to a pipe. */
  function RankOn(p: Payment, pipe: PipeRef): int { if OnPipe(p, pipe) then Rank(p) else -1 }

  /** A write lowers the kept nonce of a pipe exactly when it overwrites the kept row itself with a lower
      nonce or moves it to another pipe: reusing the payment id is the only way. */
  lemma KeptNonceFallsIff(t: ForwardTables, rec: Payment, pruning: Pruning, pipe: PipeRef)
    requires OneRowPerPipe(t.payments) && PaymentsKeyed(t.payments) && WriteFits(t, rec, pruning)
    ensures KeptRank(Write(t, rec, pruning).payments, pipe) < KeptRank(t.payments, pipe)
       <==> rec.paymentId in t.payments && RankOn(rec, pipe) < RankOn(t.payments[rec.paymentId], pipe)
  {
    var id := rec.paymentId;
    var written, after := t.payments[id := rec], Write(t, rec, pruning).payments;
    WriteKeepsOneRow(t, rec, pruning);
    if row :| row in t.payments && OnPipe(t.payments[row], pipe) {
      KeptRankIs(t.payments, row, pipe);
      if row != id && row in after {
        KeptRankIs(after, row, pipe);
      }
    }
    if id in after && OnPipe(rec, pipe) {
      KeptRankIs(after, id, pipe);
    }
    if HasPipe(rec) && PipeOf(rec) == pipe {
      KeptRankIs(after, pruning.keep, pipe);
    }
  }

  /** Same pipe and nonce, and same route upstream. */
  predicate SameHome(p: Payment, q: Payment) {
    && p.contractId == q.contractId && p.pipeId == q.pipeId && p.pipeNonce == q.pipeNonce
    && p.upstreamBaseUrl == q.upstreamBaseUrl && p.upstreamPaymentId == q.upstreamPaymentId
  }

  /** All records of one payment id, stored or held, have the same home. */
  ghost predicate HomesAgree(w: World) {
    && PaymentsKeyed(w.tables.payments)
    && (forall c :: c in w.held && w.held[c].paymentId in w.tables.payments
                    ==> SameHome(w.held[c], w.tables.payments[w.held[c].paymentId]))
    && (forall c, d :: c in w.held && d in w.held && w.held[c].paymentId == w.held[d].paymentId
                       ==> SameHome(w.held[c], w.held[d]))
  }

  /** New payments use ids that are neither stored nor held. */
  ghost predicate FreshStep(w: World, s: Step) {
    s.Transfer? ==>
      && s.rec.paymentId !in w.tables.payments
      && forall c :: c in w.held ==> w.held[c].paymentId != s.rec.paymentId
  }

  ghost predicate IdsAreFresh(env: Env, w: World, steps: seq<Step>) {
    forall i :: 0 <= i < |steps| ==> FreshStep(Execute(env, w, steps[..i]), steps[i])
  }

  lemma AnswersKeepHome(env: Env, p: Payment, reply: Reply, now: int)
    ensures var rec := Answered(env, p, reply, now).0; SameHome(rec, p) && rec.paymentId == p.paymentId
  {
  }

  /** Every written record comes from the home its id already has. */
  lemma WrittenComesFromHome(env: Env, w: World, s: Step)
    requires HomesAgree(w) && FreshStep(w, s) && Writes(env, w, s)
    ensures HomeOf(w, Written(env, w, s).value)
  {
    if s.WriteBack? {
      AnswersKeepHome(env, w.held[s.call], s.reply, s.now);
    } else if s.Reveal? {
      var rec := Written(env, w, s).value;
      assert rec == WithSecret(w.tables.payments[s.id], rec.revealedSecret.value, s.now);
    }
  }

  /** All records of the id of `rec` have the home of `rec`. */
  ghost predicate HomeOf(w: World, rec: Payment) {
    && (rec.paymentId in w.tables.payments ==> SameHome(rec, w.tables.payments[rec.paymentId]))
    && (forall c :: c in w.held && w.held[c].paymentId == rec.paymentId ==> SameHome(w.held[c], rec))
  }

  lemma WriteKeepsHomes(w: World, rec: Payment, pruning: Pruning, held: map<nat, Payment>)
    requires HomesAgree(w) && HomeOf(w, rec)
    requires forall c :: c in held ==> held[c] == rec || (c in w.held && held[c] == w.held[c])
    ensures HomesAgree(World(Write(w.tables, rec, pruning), held))
  {
  }

  lemma StepKeepsHomes(env: Env, w: World, s: Step)
    requires HomesAgree(w) && FreshStep(w, s)
    ensures HomesAgree(Next(env, w, s))
  {
    if Writes(env, w, s) {
      WrittenComesFromHome(env, w, s);
      WriteKeepsHomes(w, Written(env, w, s).value, s.pruning, HeldAfter(env, w, s));
    }
  }

  lemma StepKeepsNonce(env: Env, w: World, s: Step, pipe: PipeRef)
    requires HomesAgree(w) && OneRowPerPipe(w.tables.payments) && FreshStep(w, s)
    ensures KeptRank(w.tables.payments, pipe) <= KeptRank(Next(env, w, s).tables.payments, pipe)
  {
    if Writes(env, w, s) {
      WrittenComesFromHome(env, w, s);
      KeptNonceFallsIff(w.tables, Written(env, w, s).value, s.pruning, pipe);
    } else if s.Restart? {
      var after := Next(env, w, s).tables.payments;
      if id :| id in w.tables.payments && OnPipe(w.tables.payments[id], pipe) {
        KeptRankIs(w.tables.payments, id, pipe);
        if id in after {
          KeptRankIs(after, id, pipe);
        }
      }
    }
  }

  /** The nonce kept for a pipe never falls while payment ids are fresh, under every interleaving. */
  lemma {:induction false} KeptNonceNeverFalls(env: Env, w: World, steps: seq<Step>, pipe: PipeRef)
    requires HomesAgree(w) && OneRowPerPipe(w.tables.payments) && IdsAreFresh(env, w, steps)
    ensures HomesAgree(Execute(env, w, steps))
    ensures KeptRank(w.tables.payments, pipe) <= KeptRank(Execute(env, w, steps).tables.payments, pipe)
  {
    if steps != [] {
      var earlier := steps[..|steps| - 1];
      assert forall i :: 0 <= i < |earlier| ==> earlier[..i] == steps[..i];
      assert FreshStep(Execute(env, w, earlier), steps[|steps| - 1]);
      KeptNonceNeverFalls(env, w, earlier, pipe);
      RunsKeepOneRowPerPipe(env, w, earlier);
      StepKeepsHomes(env, Execute(env, w, earlier), steps[|steps| - 1]);
      StepKeepsNonce(env, Execute(env, w, earlier), steps[|steps| - 1], pipe);
    }
  }

  // ---------- Retries ----------

  /** A payment that will be retried has a secret, a route and an attempt left; one that was propagated has a route. */
  predicate RetrySound(policy: RetryPolicy, p: Payment) {
    && (Retryable(p) ==> p.revealedSecret.Some? && ShouldPropagate(p) && p.attempts < policy.maxAttempts)
    && (p.revealStatus == Propagated ==> ShouldPropagate(p))
  }

  ghost predicate AllRetrySound(policy: RetryPolicy, payments: Payments) {
    forall id :: id in payments ==> RetrySound(policy, payments[id])
  }

  /** Every outstanding snapshot carries its secret and is as sound as a row. */
  ghost predicate HeldSound(policy: RetryPolicy, w: World) {
    forall c :: c in w.held ==> w.held[c].revealedSecret.Some? && RetrySound(policy, w.held[c])
  }

  lemma StepKeepsRetries(env: Env, w: World, s: Step)
    requires AllRetrySound(env.policy, w.tables.payments) && HeldSound(env.policy, w)
    ensures AllRetrySound(env.policy, Next(env, w, s).tables.payments) && HeldSound(env.policy, Next(env, w, s))
  {
    if Writes(env, w, s) {
      assert RetrySound(env.policy, Written(env, w, s).value);
    }
  }

  /** Under every interleaving a due payment has its secret and an attempt left, and so does every
      snapshot a pass works on: the "missing revealed secret" branch is unreachable. */
  lemma {:induction false} DuePaymentsAreSound(env: Env, steps: seq<Step>)
    ensures var w := Execute(env, EMPTY, steps);
            AllRetrySound(env.policy, w.tables.payments) && HeldSound(env.policy, w)
  {
    if steps != [] {
      DuePaymentsAreSound(env, steps[..|steps| - 1]);
      StepKeepsRetries(env, Execute(env, EMPTY, steps[..|steps| - 1]), steps[|steps| - 1]);
    }
  }
}
