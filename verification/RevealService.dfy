/** The reveal endpoint and the retry pass of `server/src/index.ts` as methods over the store. Both await the
    upstream node; what other handlers do meanwhile is a parameter. Each method is proved to be a run of
    `RevealRuns`, whose results therefore hold of it. */
module RevealService {
  import opened Wrappers
  import opened Octets
  import opened NodeTypes
  import opened Forwarding
  import opened RevealRuns
  import opened RetryTermination
  import opened StateStore

  const FORWARDING_REVEAL_RETRY_BATCH_SIZE: int := 25

  /** What another handler does: forward a payment, take in a secret, or come back from the upstream node. */
  datatype Action =
    | NewPayment(rec: Payment)
    | BeginReveal(call: nat, id: PaymentId, secret: HashText, now: int)
    | EndCall(call: nat, reply: Reply, now: int)

  /** The upstream answer to one propagation, and what happens until it arrives. */
  datatype Upstream = Upstream(reply: Reply, now: int, meanwhile: seq<Action>)

  /** The actions of other handlers belong to calls numbered below `limit`. */
  predicate ActBelow(actions: seq<Action>, limit: nat) {
    forall i :: 0 <= i < |actions| && !actions[i].NewPayment? ==> actions[i].call < limit
  }

  ghost predicate IsActionStep(s: Step, a: Action) {
    match a
    case NewPayment(rec) => s.Transfer? && s.rec == rec
    case BeginReveal(call, id, secret, now) => s.Reveal? && s == Reveal(call, id, secret, now, s.pruning)
    case EndCall(call, reply, now) => s.WriteBack? && s == WriteBack(call, reply, now, s.pruning)
  }

  ghost predicate AreActionSteps(steps: seq<Step>, actions: seq<Action>) {
    |steps| == |actions| && forall i :: 0 <= i < |steps| ==> IsActionStep(steps[i], actions[i])
  }

  /** The steps of one propagation: perhaps what others did meanwhile, then the write-back. */
  ghost predicate IsPropagation(steps: seq<Step>, call: nat, u: Upstream) {
    && steps != []
    && var last := steps[|steps| - 1];
    && last.WriteBack? && last == WriteBack(call, u.reply, u.now, last.pruning)
    && (|steps| == 1 || AreActionSteps(steps[..|steps| - 1], u.meanwhile))
  }

  /** Only new payments are forwarded, none of them under the id of an outstanding one. */
  ghost predicate Quiet(actions: seq<Action>, w: World) {
    forall i :: 0 <= i < |actions| ==> actions[i].NewPayment? && !Outstanding(w, actions[i].rec.paymentId)
  }

  predicate QuietFor(actions: seq<Action>, due: seq<Payment>) {
    forall i, j :: 0 <= i < |actions| && 0 <= j < |due| ==>
      actions[i].NewPayment? && actions[i].rec.paymentId != due[j].paymentId
  }

  // ---------- The listing of a pass ----------

  function Picks(due: seq<Payment>, first: nat, now: int): seq<Step> {
    if due == [] then []
    else
      var n := |due| - 1;
      Picks(due[..n], first, now) + [Pick(first + n, due[n].paymentId, now)]
  }

  /** `held` with the snapshots of a listing, numbered from `first` on. */
  function Listed(held: map<nat, Payment>, due: seq<Payment>, first: nat): map<nat, Payment> {
    if due == [] then held
    else Listed(held, due[..|due| - 1], first)[first + |due| - 1 := due[|due| - 1]]
  }

  lemma {:induction false} ListedAt(held: map<nat, Payment>, due: seq<Payment>, first: nat, c: nat)
    ensures c in Listed(held, due, first) <==> c in held || first <= c < first + |due|
    ensures first <= c < first + |due| ==> Listed(held, due, first)[c] == due[c - first]
  {
    if due != [] {
      ListedAt(held, due[..|due| - 1], first, c);
    }
  }

  ghost predicate AllDue(t: ForwardTables, due: seq<Payment>, now: int) {
    && (forall i :: 0 <= i < |due| ==>
          due[i].paymentId in t.payments && t.payments[due[i].paymentId] == due[i] && DueAt(due[i], now))
    && (forall i, j :: 0 <= i < j < |due| ==> due[i].paymentId != due[j].paymentId)
  }

  lemma PickTakesSnapshot(env: Env, w: World, call: nat, id: PaymentId, now: int)
    requires call !in w.held && id in w.tables.payments && DueAt(w.tables.payments[id], now)
    ensures Next(env, w, Pick(call, id, now)) == World(w.tables, w.held[call := w.tables.payments[id]])
  {
  }

  /** Listing the due rows takes a snapshot of each of them at once. */
  lemma {:induction false} PicksTakeSnapshots(env: Env, w: World, due: seq<Payment>, first: nat, now: int)
    requires AllDue(w.tables, due, now) && forall c :: c in w.held ==> c < first
    ensures Execute(env, w, Picks(due, first, now)) == World(w.tables, Listed(w.held, due, first))
  {
    if due != [] {
      var n := |due| - 1;
      var earlier, pick := Picks(due[..n], first, now), Pick(first + n, due[n].paymentId, now);
      PicksTakeSnapshots(env, w, due[..n], first, now);
      OneMoreStep(env, w, earlier, pick);
      ListedAt(w.held, due[..n], first, first + n);
      PickTakesSnapshot(env, World(w.tables, Listed(w.held, due[..n], first)), first + n, due[n].paymentId, now);
    }
  }

  lemma {:induction false} PicksAreQuiet(env: Env, w: World, due: seq<Payment>, first: nat, now: int)
    requires AllDue(w.tables, due, now) && w.held == map[]
    ensures IsQuiet(env, w, Picks(due, first, now), 0)
  {
    if due != [] {
      var n := |due| - 1;
      var earlier, pick := Picks(due[..n], first, now), Pick(first + n, due[n].paymentId, now);
      PicksAreQuiet(env, w, due[..n], first, now);
      PicksTakeSnapshots(env, w, due[..n], first, now);
      forall c | c in Listed(map[], due[..n], first)
        ensures Listed(map[], due[..n], first)[c].paymentId != due[n].paymentId
      {
        ListedAt(map[], due[..n], first, c);
      }
      assert (earlier + [pick])[..|earlier|] == earlier;
    }
  }

  // ---------- The rounds of a pass ----------

  function Joined(rounds: seq<seq<Step>>): seq<Step> {
    if rounds == [] then [] else Joined(rounds[..|rounds| - 1]) + rounds[|rounds| - 1]
  }

  /** A run in which nobody reveals and `n` retries are written back. */
  ghost predicate IsQuiet(env: Env, w: World, steps: seq<Step>, n: nat) {
    NobodyReveals(env, w, steps) && RetriesIn(env, w, steps) == n
  }

  /** A pass that began in `start`: what was listed, and what others do while it works. */
  datatype RetryPass = RetryPass(start: World, due: seq<Payment>, first: nat, now: int, upstream: nat -> Upstream)

  ghost function PassSteps(p: RetryPass, rounds: seq<seq<Step>>): seq<Step> {
    Picks(p.due, p.first, p.now) + Joined(rounds)
  }

  lemma OneMoreRound(p: RetryPass, rounds: seq<seq<Step>>, round: seq<Step>)
    ensures PassSteps(p, rounds + [round]) == PassSteps(p, rounds) + round
  {
    assert (rounds + [round])[..|rounds|] == rounds;
  }

  /** From a moment without outstanding calls on, nobody reveals while the pass works. */
  ghost predicate Undisturbed(env: Env, p: RetryPass) {
    Sound(env, p.start) && p.start.held == map[] && forall i :: 0 <= i < |p.due| ==>
        QuietFor(p.upstream(i).meanwhile, p.due)
  }

  /** The calls of the payments that a pass has still to propagate are outstanding. */
  ghost predicate StillListed(held: map<nat, Payment>, due: seq<Payment>, first: nat, done: nat) {
    && (forall c :: first + done <= c ==> (c in held <==> c < first + |due|))
    && (forall c :: first + done <= c < first + |due| ==> c in held && held[c] == due[c - first])
  }

  /** Where a pass stands after some rounds: its steps so far are a run, each round one propagation. */
  ghost predicate Progress(env: Env, p: RetryPass, rounds: seq<seq<Step>>, w: World) {
    && |rounds| <= |p.due| && StillListed(w.held, p.due, p.first, |rounds|)
    && (forall i :: 0 <= i < |rounds| ==> IsPropagation(rounds[i], p.first + i, p.upstream(i)))
    && w == Execute(env, p.start, PassSteps(p, rounds))
  }

  /** Nobody has revealed so far, and all that is outstanding belongs to the pass. */
  ghost predicate QuietSoFar(env: Env, p: RetryPass, rounds: seq<seq<Step>>, w: World) {
    IsQuiet(env, p.start, PassSteps(p, rounds), |rounds|) && AllFrom(w.held, p.first + |rounds|)
  }

  ghost predicate AllFrom(held: map<nat, Payment>, first: nat) { forall c :: c in held ==> first <= c }

  lemma ListingStartsProgress(env: Env, p: RetryPass)
    requires AllDue(p.start.tables, p.due, p.now) && forall c :: c in p.start.held ==> c < p.first
    ensures var w := World(p.start.tables, Listed(p.start.held, p.due, p.first));
            Stands(env, p, [], w)
  {
    PicksTakeSnapshots(env, p.start, p.due, p.first, p.now);
    assert PassSteps(p, []) == Picks(p.due, p.first, p.now);
    if Undisturbed(env, p) {
      PicksAreQuiet(env, p.start, p.due, p.first, p.now);
    }
    ListedIsStillListed(p.start.held, p.due, p.first);
  }

  lemma ListedIsStillListed(held: map<nat, Payment>, due: seq<Payment>, first: nat)
    requires forall c :: c in held ==> c < first
    ensures StillListed(Listed(held, due, first), due, first, 0)
    ensures held == map[] ==> AllFrom(Listed(held, due, first), first)
  {
    forall c: nat
      ensures c in Listed(held, due, first) <==> c in held || first <= c < first + |due|
      ensures first <= c < first + |due| ==> Listed(held, due, first)[c] == due[c - first]
    {
      ListedAt(held, due, first, c);
    }
  }

  lemma StaysQuiet(env: Env, p: RetryPass, rounds: seq<seq<Step>>, w: World)
    requires Progress(env, p, rounds, w) && QuietSoFar(env, p, rounds, w) && Undisturbed(env, p) && |rounds| < |p.due|
    ensures Sound(env, w) && Quiet(p.upstream(|rounds|).meanwhile, w)
  {
    var left := RetriesAreBounded(env, p.start, p.start.tables.payments, PassSteps(p, rounds));
    var actions := p.upstream(|rounds|).meanwhile;
    forall k | 0 <= k < |actions| ensures actions[k].NewPayment? && !Outstanding(w, actions[k].rec.paymentId) {
      assert actions[k].NewPayment? && actions[k].rec.paymentId != p.due[0].paymentId;
      forall c | c in w.held ensures w.held[c].paymentId != actions[k].rec.paymentId {
        assert c < p.first + |p.due| && w.held[c] == p.due[c - p.first];
      }
    }
  }

  /** Calls above `call` are as they were. */
  ghost predicate SameAbove(before: map<nat, Payment>, after: map<nat, Payment>, call: nat) {
    && (forall c :: call < c ==> (c in after <==> c in before))
    && (forall c :: call < c && c in after ==> after[c] == before[c])
  }

  /** One propagation, from before its await to after its write-back. */
  ghost predicate Propagates(env: Env, w: World, steps: seq<Step>, after: World, call: nat, u: Upstream) {
    && IsPropagation(steps, call, u) && after == Execute(env, w, steps)
    && call !in after.held && SameAbove(w.held, after.held, call)
    && (Sound(env, w) && Quiet(u.meanwhile, w) ==> IsQuiet(env, w, steps, 1) && after.held == w.held - {call})
  }

  lemma OneLessListed(held: map<nat, Payment>, after: map<nat, Payment>, due: seq<Payment>, first: nat, done: nat)
    requires StillListed(held, due, first, done) && done < |due| && SameAbove(held, after, first + done)
    ensures StillListed(after, due, first, done + 1)
  {
  }

  lemma RoundsGrow(p: RetryPass, rounds: seq<seq<Step>>, round: seq<Step>)
    requires forall i :: 0 <= i < |rounds| ==> IsPropagation(rounds[i], p.first + i, p.upstream(i))
    requires IsPropagation(round, p.first + |rounds|, p.upstream(|rounds|))
    ensures var all := rounds + [round];
            forall i :: 0 <= i < |all| ==> IsPropagation(all[i], p.first + i, p.upstream(i))
  {
  }

  lemma ProgressAdvances(env: Env, p: RetryPass, rounds: seq<seq<Step>>, w: World, round: seq<Step>, after: World)
    requires Progress(env, p, rounds, w) && |rounds| < |p.due|
    requires Propagates(env, w, round, after, p.first + |rounds|, p.upstream(|rounds|))
    ensures Progress(env, p, rounds + [round], after)
  {
    OneMoreRound(p, rounds, round);
    RunsCompose(env, p.start, PassSteps(p, rounds), round);
    OneLessListed(w.held, after.held, p.due, p.first, |rounds|);
    RoundsGrow(p, rounds, round);
  }

  lemma QuietAdvances(env: Env, p: RetryPass, rounds: seq<seq<Step>>, w: World, round: seq<Step>, after: World)
    requires w == Execute(env, p.start, PassSteps(p, rounds)) && QuietSoFar(env, p, rounds, w)
    requires IsQuiet(env, w, round, 1) && after.held == w.held - {p.first + |rounds|}
    ensures QuietSoFar(env, p, rounds + [round], after)
  {
    OneMoreRound(p, rounds, round);
    QuietRunsCompose(env, p.start, PassSteps(p, rounds), round);
    OneFewerFrom(w.held, p.first + |rounds|);
  }

  ghost predicate Stands(env: Env, p: RetryPass, rounds: seq<seq<Step>>, w: World) {
    Progress(env, p, rounds, w) && (Undisturbed(env, p) ==> QuietSoFar(env, p, rounds, w))
  }

  lemma RoundDone(env: Env, p: RetryPass, rounds: seq<seq<Step>>, w: World, round: seq<Step>, after: World)
    requires Stands(env, p, rounds, w) && |rounds| < |p.due|
    requires Propagates(env, w, round, after, p.first + |rounds|, p.upstream(|rounds|))
    ensures Stands(env, p, rounds + [round], after)
  {
    ProgressAdvances(env, p, rounds, w, round, after);
    if Undisturbed(env, p) {
      StaysQuiet(env, p, rounds, w);
      QuietAdvances(env, p, rounds, w, round, after);
    }
  }

  lemma NextIsListed(env: Env, p: RetryPass, rounds: seq<seq<Step>>, w: World)
    requires Stands(env, p, rounds, w) && |rounds| < |p.due|
    ensures p.first + |rounds| in w.held
  {
  }

  lemma OneFewerFrom(held: map<nat, Payment>, first: nat)
    requires AllFrom(held, first)
    ensures AllFrom(held - {first}, first + 1)
  {
  }

  lemma UndisturbedPassLowersTotal(env: Env, p: RetryPass, rounds: seq<seq<Step>>, w: World)
    requires Progress(env, p, rounds, w) && QuietSoFar(env, p, rounds, w) && Undisturbed(env, p)
    ensures TotalLeft(env.policy, w.tables.payments) + |rounds| <= TotalLeft(env.policy, p.start.tables.payments)
  {
    RetriesRunOut(env, p.start, PassSteps(p, rounds));
  }

  class RevealService {
    const stateStore: SqliteStateStore
    const env: Env
    var retryPassRunning: bool
    var awaiting: map<nat, Payment>

    constructor (stateStore: SqliteStateStore, env: Env)
      ensures this.stateStore == stateStore && this.env == env && !retryPassRunning && awaiting == map[]
    {
      this.stateStore, this.env, this.retryPassRunning, this.awaiting := stateStore, env, false, map[];
    }

    ghost function AsWorld(): World
      reads this, stateStore
    {
      World(stateStore.ForwardingTables(), awaiting)
    }

    /** The synchronous end of `propagateRevealForPayment` and of the missing-secret branch of the pass. */
    method WriteAnswer(call: nat, reply: Reply, now: int, cutoff: int) returns (updated: Payment, ghost step: Step)
      requires stateStore.Valid() && call in awaiting
      modifies this`awaiting, stateStore`forwardingPayments, stateStore`revealedSecrets
      ensures stateStore.Valid() && updated == Answered(env, old(awaiting)[call], reply, now).0
      ensures step.WriteBack? && step == WriteBack(call, reply, now, step.pruning)
      ensures AsWorld() == Next(env, old(AsWorld()), step) && awaiting == old(awaiting) - {call}
      ensures Answered(env, old(awaiting)[call], reply, now).1 ==> Writes(env, old(AsWorld()), step)
    {
      var payment := awaiting[call];
      ghost var pruning := Keep("");
      if payment.revealedSecret.None? {
        updated := payment.(revealStatus := FailedReveal, attempts := payment.attempts + 1,
                            lastError := Some("missing revealed secret"), nextRetryAt := None, propagatedAt := None,
                            updatedAt := now);
        pruning := stateStore.SetForwardingPayment(updated, cutoff);
      } else if payment.upstreamBaseUrl.None? || payment.upstreamPaymentId.None? {
        updated := payment.(revealStatus := NotApplicable, lastError := None, nextRetryAt := None,
                            propagatedAt := None, updatedAt := now);
        pruning := stateStore.SetForwardingPayment(updated, cutoff);
      } else if payment.revealStatus == Propagated {
        updated := payment;
      } else {
        var attempt := payment.attempts + 1;
        match reply {
          case Accepted =>
            updated := payment.(revealStatus := Propagated, attempts := attempt, lastError := None,
                                nextRetryAt := None, propagatedAt := Some(now), updatedAt := now);
          case Rejected(error) =>
            var reachedLimit := attempt >= env.policy.maxAttempts;
            updated := payment.(
              revealStatus := if reachedLimit then FailedReveal else PendingReveal, attempts := attempt,
              lastError := Some(error),
              nextRetryAt := if reachedLimit then None else Some(now + env.policy.retryIntervalMs),
              propagatedAt := None, updatedAt := now);
        }
        pruning := stateStore.SetForwardingPayment(updated, cutoff);
      }
      awaiting := awaiting - {call};
      step := WriteBack(call, reply, now, pruning);
    }

    /** `/forwarding/reveal` up to its await: verify, and store the secret. */
    method BeginRevealCall(call: nat, id: PaymentId, secret: HashText, now: int, cutoff: int)
      returns (begun: bool, ghost step: Step)
      requires stateStore.Valid()
      modifies this`awaiting, stateStore`forwardingPayments, stateStore`revealedSecrets
      ensures stateStore.Valid()
      ensures step.Reveal? && step == Reveal(call, id, secret, now, step.pruning)
      ensures AsWorld() == Next(env, old(AsWorld()), step)
      ensures begun <==> Writes(env, old(AsWorld()), step)
      ensures begun <==> call !in old(awaiting)
                         && RevealedRecord(env.sha256, old(stateStore.forwardingPayments), id, secret, now).Some?
      ensures !begun ==> AsWorld() == old(AsWorld())
      ensures begun ==> awaiting
                        == old(awaiting)[call := RevealedRecord(env.sha256, old(stateStore.forwardingPayments), id,
                             secret, now).value]
    {
      begun, step := false, Reveal(call, id, secret, now, Keep(""));
      if call in awaiting {
        return;
      }
      var existing := stateStore.GetForwardingPayment(id);
      if existing.None? || existing.value.hashedSecret.None? {
        return;
      }
      var verified := VerifyRevealSecret(env.sha256, existing.value.hashedSecret.value, secret);
      if verified.Err? {
        return;
      }
      if existing.value.revealedSecret.Some? && existing.value.revealedSecret.value != verified.value {
        return;
      }
      var revealed := WithSecret(existing.value, verified.value, now);
      ghost var pruning := stateStore.SetForwardingPayment(revealed, cutoff);
      awaiting := awaiting[call := revealed];
      return true, Reveal(call, id, secret, now, pruning);
    }

    /** One action of another handler. */
    method Act(a: Action, cutoff: int) returns (ghost step: Step)
      requires stateStore.Valid()
      modifies this`awaiting, stateStore`forwardingPayments, stateStore`revealedSecrets
      ensures stateStore.Valid() && IsActionStep(step, a)
      ensures AsWorld() == Next(env, old(AsWorld()), step)
      ensures a.NewPayment? ==> awaiting == old(awaiting)
      ensures !a.NewPayment? ==> awaiting - {a.call} == old(awaiting) - {a.call}
    {
      match a {
        case NewPayment(rec) =>
          step := Transfer(rec, Keep(""));
          if FreshPayment(rec) {
            ghost var pruning := stateStore.SetForwardingPayment(rec, cutoff);
            step := Transfer(rec, pruning);
          }
        case BeginReveal(call, id, secret, now) =>
          var begun;
          begun, step := BeginRevealCall(call, id, secret, now, cutoff);
        case EndCall(call, reply, now) =>
          step := WriteBack(call, reply, now, Keep(""));
          if call in awaiting {
            var updated;
            updated, step := WriteAnswer(call, reply, now, cutoff);
          }
      }
    }

    /** What happens during an await; calls numbered from `limit` on are left alone. */
    method Await(actions: seq<Action>, cutoff: int, limit: nat) returns (ghost steps: seq<Step>)
      requires stateStore.Valid() && ActBelow(actions, limit)
      modifies this`awaiting, stateStore`forwardingPayments, stateStore`revealedSecrets
      ensures stateStore.Valid() && AreActionSteps(steps, actions)
      ensures AsWorld() == Execute(env, old(AsWorld()), steps)
      ensures forall c :: limit <= c ==> (c in awaiting <==> c in old(awaiting))
      ensures forall c :: limit <= c && c in awaiting ==> awaiting[c] == old(awaiting)[c]
      ensures Quiet(actions, old(AsWorld())) ==> IsQuiet(env, old(AsWorld()), steps, 0) && awaiting == old(awaiting)
    {
      steps := [];
      for i := 0 to |actions|
        invariant stateStore.Valid() && AreActionSteps(steps, actions[..i])
        invariant AsWorld() == Execute(env, old(AsWorld()), steps)
        invariant forall c :: limit <= c ==> (c in awaiting <==> c in old(awaiting))
        invariant forall c :: limit <= c && c in awaiting ==> awaiting[c] == old(awaiting)[c]
        invariant Quiet(actions, old(AsWorld())) ==> IsQuiet(env, old(AsWorld()), steps, 0) && awaiting == old(awaiting)
      {
        ghost var before := awaiting;
        ghost var step := Act(actions[i], cutoff);
        OneMoreStep(env, old(AsWorld()), steps, step);
        assert (steps + [step])[..|steps|] == steps;
        steps := steps + [step];
        assert !actions[i].NewPayment? ==> forall c :: limit <= c ==>
               (c in awaiting - {actions[i].call} <==> c in awaiting);
      }
    }

    /** `propagateRevealForPayment` for an outstanding call, with its await when the upstream node is asked. */
    method PropagateRevealForPayment(call: nat, u: Upstream, cutoff: int)
        returns (updated: Payment, ghost steps: seq<Step>)
      requires stateStore.Valid() && call in awaiting && ActBelow(u.meanwhile, call)
      modifies this`awaiting, stateStore`forwardingPayments, stateStore`revealedSecrets
      ensures stateStore.Valid() && updated == Answered(env, old(awaiting)[call], u.reply, u.now).0
      ensures Propagates(env, old(AsWorld()), steps, AsWorld(), call, u)
    {
      var payment := awaiting[call];
      steps := [];
      if payment.revealedSecret.Some? && ShouldPropagate(payment) && payment.revealStatus != Propagated {
        steps := Await(u.meanwhile, cutoff, call);
      }
      ghost var others := steps;
      ghost var step;
      updated, step := WriteAnswer(call, u.reply, u.now, cutoff);
      OneMoreStep(env, old(AsWorld()), steps, step);
      steps := steps + [step];
      assert steps[..|steps| - 1] == others;
    }

    /** `/forwarding/reveal`: verify, store, propagate; nothing at all when the secret does not fit. */
    method RevealSecret(call: nat, id: PaymentId, secret: HashText, now: int, u: Upstream, cutoff: int)
      returns (result: Option<Payment>, ghost steps: seq<Step>)
      requires stateStore.Valid() && call !in awaiting && ActBelow(u.meanwhile, call)
      modifies this`awaiting, stateStore`forwardingPayments, stateStore`revealedSecrets
      ensures stateStore.Valid() && AsWorld() == Execute(env, old(AsWorld()), steps)
      ensures var revealed := RevealedRecord(env.sha256, old(stateStore.forwardingPayments), id, secret, now);
              match result
              case None => revealed.None? && AsWorld() == old(AsWorld())
              case Some(updated) =>
                && revealed.Some? && updated == Answered(env, revealed.value, u.reply, u.now).0
                && steps != [] && steps[0].Reveal? && steps[0] == Reveal(call, id, secret, now, steps[0].pruning)
                && IsPropagation(steps[1..], call, u)
    {
      var begun;
      ghost var step;
      begun, step := BeginRevealCall(call, id, secret, now, cutoff);
      if !begun {
        return None, [];
      }
      var updated;
      ghost var rest;
      updated, rest := PropagateRevealForPayment(call, u, cutoff);
      steps := [step] + rest;
      RunsCompose(env, old(AsWorld()), [step], rest);
      OneMoreStep(env, old(AsWorld()), [], step);
      assert [] + [step] == [step] && steps[1..] == rest;
      return Some(updated), steps;
    }

    /** The rows due now, of each of which a snapshot is taken. */
    method ListDue(first: nat, now: int) returns (due: seq<Payment>)
      requires stateStore.Valid() && forall c :: c in awaiting ==> c < first
      modifies this`awaiting
      ensures ListsDue(stateStore.forwardingPayments, due, now, FORWARDING_REVEAL_RETRY_BATCH_SIZE)
      ensures AsWorld() == World(old(AsWorld()).tables, Listed(old(awaiting), due, first))
    {
      due := stateStore.ListForwardingRevealRetriesDue(now, FORWARDING_REVEAL_RETRY_BATCH_SIZE);
      awaiting := Listed(awaiting, due, first);
    }

    /** One round of a pass. */
    method PropagateNext(call: nat, u: Upstream, cutoff: int, ghost p: RetryPass, ghost rounds: seq<seq<Step>>)
      returns (ghost round: seq<Step>)
      requires stateStore.Valid() && Stands(env, p, rounds, AsWorld()) && |rounds| < |p.due|
      requires call == p.first + |rounds| && u == p.upstream(|rounds|) && ActBelow(u.meanwhile, call)
      modifies this`awaiting, stateStore`forwardingPayments, stateStore`revealedSecrets
      ensures stateStore.Valid() && Stands(env, p, rounds + [round], AsWorld())
    {
      ghost var w := AsWorld();
      NextIsListed(env, p, rounds, w);
      var updated;
      updated, round := PropagateRevealForPayment(call, u, cutoff);
      RoundDone(env, p, rounds, w, round, AsWorld());
    }

    /** The loop of a pass over what was listed. */
    method PropagateListed(due: seq<Payment>, first: nat, upstream: nat -> Upstream, cutoff: int, ghost p: RetryPass)
      returns (ghost rounds: seq<seq<Step>>)
      requires stateStore.Valid() && Stands(env, p, [], AsWorld())
      requires p.due == due && p.first == first && p.upstream == upstream
      requires forall i: nat :: ActBelow(upstream(i).meanwhile, first)
      modifies this`awaiting, stateStore`forwardingPayments, stateStore`revealedSecrets
      ensures stateStore.Valid() && |rounds| == |due| && Stands(env, p, rounds, AsWorld())
    {
      rounds := [];
      for i := 0 to |due|
        invariant stateStore.Valid() && |rounds| == i && Stands(env, p, rounds, AsWorld())
      {
        ghost var round := PropagateNext(first + i, upstream(i), cutoff, p, rounds);
        rounds := rounds + [round];
      }
    }

    /** `runRevealRetryPass`. A pass that finds another one running does nothing. Otherwise it lists the due
        payments once and propagates each of them as it was listed, whatever has happened since; its calls are
        numbered from `first` on. While nobody reveals, each retry uses up an attempt of the table. */
    method RunRevealRetryPass(first: nat, upstream: nat -> Upstream, now: int, cutoff: int)
      returns (ghost due: seq<Payment>, ghost rounds: seq<seq<Step>>)
      requires stateStore.Valid() && forall c :: c in awaiting ==> c < first
      requires forall i: nat :: ActBelow(upstream(i).meanwhile, first)
      modifies this`retryPassRunning, this`awaiting, stateStore`forwardingPayments, stateStore`revealedSecrets
      ensures stateStore.Valid() && retryPassRunning == old(retryPassRunning)
      ensures old(retryPassRunning) ==> due == [] && AsWorld() == old(AsWorld())
      ensures !old(retryPassRunning) ==>
                ListsDue(old(stateStore.forwardingPayments), due, now, FORWARDING_REVEAL_RETRY_BATCH_SIZE)
      ensures var p := RetryPass(old(AsWorld()), due, first, now, upstream);
              && |rounds| == |due| && Progress(env, p, rounds, AsWorld())
              && (Undisturbed(env, p) ==>
                    TotalLeft(env.policy, stateStore.forwardingPayments) + |due|
                    <= TotalLeft(env.policy, old(stateStore.forwardingPayments)))
    {
      due, rounds := [], [];
      ghost var start := AsWorld();
      if retryPassRunning {
        ListingStartsProgress(env, RetryPass(start, [], first, now, upstream));
        return;
      }
      retryPassRunning := true;
      var listed := ListDue(first, now);
      due := listed;
      ghost var p := RetryPass(start, due, first, now, upstream);
      ListingStartsProgress(env, p);
      rounds := PropagateListed(listed, first, upstream, cutoff, p);
      retryPassRunning := false;
      if Undisturbed(env, p) {
        UndisturbedPassLowersTotal(env, p, rounds, AsWorld());
      }
    }
  }
}
