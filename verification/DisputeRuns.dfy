/** Which opening events of a run are answered by a dispute, said with the events: `tryDisputeClosure` of
    `server/src/stackflow-node.ts`. */
module DisputeRuns {
  import opened Wrappers
  import opened Octets
  import opened Principals
  import opened NodeTypes
  import opened Observer
  import opened Forwarding
  import opened Dispute
  import opened NodeRuns
  import opened ChainKnowledge

  // ---------- Attempt ids ----------

  /** Two events are the same trigger: the same transaction, or, when neither names one, the same contract,
      pipe and closure nonce. */
  predicate SameTrigger(e: PrintEvent, f: PrintEvent) {
    if e.txid.Some? || f.txid.Some? then e.txid == f.txid
    else e.contractId == f.contractId && e.pipeKey == f.pipeKey && NonceOf(e) == NonceOf(f)
  }

  /** Attempt ids coincide exactly when trigger and owner do. */
  lemma AttemptIdsCoincideIff(e: PrintEvent, f: PrintEvent, now: int, later: int, o: Principal, p: Principal)
    requires e.pipeKey.Some? && e.eventName.Some? && NonceOf(e).Some?
    requires f.pipeKey.Some? && f.eventName.Some? && NonceOf(f).Some?
    ensures AttemptIdOf(e, OpenedClosure(e, now), NonceOf(e).value, o)
         == AttemptIdOf(f, OpenedClosure(f, later), NonceOf(f).value, p)
       <==> SameTrigger(e, f) && o == p
  {
  }

  // ---------- Submissions of a run ----------

  /** What a step submits, if anything. */
  ghost function Made(cfg: NodeConfig, m: Node, s: NodeStep): Option<Submission> {
    var after := Step(cfg, m, s).submissions;
    if |after| > |m.submissions| then Some(after[|m.submissions|]) else None
  }

  ghost function MadeAt(cfg: NodeConfig, n: Node, steps: seq<NodeStep>, i: nat): Option<Submission>
    requires i < |steps|
  {
    Made(cfg, Run(cfg, n, steps[..i]), steps[i])
  }

  /** The attempt of an event for an owner. */
  function EventAttemptId(e: PrintEvent, owner: Principal): AttemptId
    requires e.pipeKey.Some? && e.eventName.Some? && NonceOf(e).Some?
  {
    AttemptIdOf(e, OpenedClosure(e, 0), NonceOf(e).value, owner)
  }

  /** Only events submit, each at most once and under its own attempt id; and the attempts that have succeeded
      after a step are those that had, and the one it submitted with success. */
  lemma OneStepSubmits(cfg: NodeConfig, m: Node, s: NodeStep)
    ensures var made, after := Made(cfg, m, s), Step(cfg, m, s);
            && after.submissions == m.submissions + (if made.Some? then [made.value] else [])
            && (made.Some? ==>
                  && s.Chain? && s.event.pipeKey.Some? && s.event.eventName.Some? && NonceOf(s.event).Some?
                  && made.value.id == EventAttemptId(s.event, made.value.state.input.forPrincipal))
            && (forall id :: AlreadySubmitted(after.attempts, id) <==>
                  AlreadySubmitted(m.attempts, id) || (made.Some? && made.value.success && made.value.id == id))
  {
    if s.Chain? && DisputedClosure(cfg, s.event, s.now).Some? {
      var e, closure := s.event, DisputedClosure(cfg, s.event, s.now).value;
      var made := TryDispute(cfg.dispute, m.attempts, m.forwarding.tables, e, closure, s.answer).1;
      if made.Some? {
        AttemptIdsCoincideIff(e, e, s.now, 0, made.value.state.input.forPrincipal, made.value.state.input.forPrincipal);
      }
    } else {
      assert Step(cfg, m, s).attempts == m.attempts && Step(cfg, m, s).submissions == m.submissions;
    }
  }

  ghost predicate SucceedsAt(cfg: NodeConfig, n: Node, steps: seq<NodeStep>, id: AttemptId, i: nat) {
    i < |steps| && var made := MadeAt(cfg, n, steps, i); made.Some? && made.value.success && made.value.id == id
  }

  lemma SucceedsInPrefix(cfg: NodeConfig, n: Node, earlier: seq<NodeStep>, s: NodeStep, id: AttemptId, i: nat)
    requires i < |earlier|
    ensures SucceedsAt(cfg, n, earlier + [s], id, i) <==> SucceedsAt(cfg, n, earlier, id, i)
  {
    assert (earlier + [s])[..i] == earlier[..i];
  }

  lemma {:induction false} SucceededIff(cfg: NodeConfig, n: Node, steps: seq<NodeStep>, id: AttemptId)
    requires forall a :: a in n.attempts ==> !n.attempts[a].success
    ensures AlreadySubmitted(Run(cfg, n, steps).attempts, id) <==> exists i: nat :: SucceedsAt(cfg, n, steps, id, i)
  {
    if steps != [] {
      var earlier, s := steps[..|steps| - 1], steps[|steps| - 1];
      assert steps == earlier + [s];
      SucceededIff(cfg, n, earlier, id);
      OneStepSubmits(cfg, Run(cfg, n, earlier), s);
      LastOrBefore(cfg, n, earlier, s, id);
    }
  }

  lemma LastOrBefore(cfg: NodeConfig, n: Node, earlier: seq<NodeStep>, s: NodeStep, id: AttemptId)
    ensures var made := Made(cfg, Run(cfg, n, earlier), s);
            (exists i: nat :: SucceedsAt(cfg, n, earlier + [s], id, i)) <==>
              || (exists i: nat :: SucceedsAt(cfg, n, earlier, id, i))
              || (made.Some? && made.value.success && made.value.id == id)
  {
    assert (earlier + [s])[..|earlier|] == earlier;
    if i: nat :| SucceedsAt(cfg, n, earlier + [s], id, i) && i < |earlier| {
      SucceedsInPrefix(cfg, n, earlier, s, id, i);
    }
    if i: nat :| SucceedsAt(cfg, n, earlier, id, i) {
      SucceedsInPrefix(cfg, n, earlier, s, id, i);
    }
    var made := Made(cfg, Run(cfg, n, earlier), s);
    if made.Some? && made.value.success && made.value.id == id {
      assert SucceedsAt(cfg, n, earlier + [s], id, |earlier|);
    }
  }

  // ---------- Events that are answered ----------

  /** Step `i` submitted successfully for `owner`, on the same trigger as `e`. */
  ghost predicate AnsweredBefore(
    cfg: NodeConfig, n: Node, steps: seq<NodeStep>, e: PrintEvent, owner: Principal, i: nat)
  {
    && i < |steps| && steps[i].Chain? && SameTrigger(steps[i].event, e)
    && var made := MadeAt(cfg, n, steps, i);
    made.Some? && made.value.success && made.value.state.input.forPrincipal == owner
  }

  lemma AnsweredIsSucceeded(cfg: NodeConfig, n: Node, steps: seq<NodeStep>, e: PrintEvent, owner: Principal, i: nat)
    requires e.pipeKey.Some? && e.eventName.Some? && NonceOf(e).Some?
    ensures AnsweredBefore(cfg, n, steps, e, owner, i) <==> SucceedsAt(cfg, n, steps, EventAttemptId(e, owner), i)
  {
    if i < |steps| && MadeAt(cfg, n, steps, i).Some? {
      OneStepSubmits(cfg, Run(cfg, n, steps[..i]), steps[i]);
      AttemptIdsCoincideIff(steps[i].event, e, 0, 0, MadeAt(cfg, n, steps, i).value.state.input.forPrincipal, owner);
    }
  }

  /** What is kept of a submission: whom it was for, what triggered it, and what came back. */
  function Recorded(e: PrintEvent, owner: Principal, a: Answer): DisputeAttempt
    requires e.pipeKey.Some?
  {
    var txid := if a.reply.Submitted? then Some(a.reply.txid) else None;
    DisputeAttempt(e.contractId, e.pipeKey.value, owner, e.txid, txid.Some?, txid, a.now)
  }

  /** An opening event that finds something to submit is answered by one submission of what it found, unless,
      and only unless, an earlier step of the run submitted successfully for that owner on the same trigger:
      the same transaction, or, for events without one, the same contract, pipe and closure nonce. */
  lemma OpeningEventIsAnsweredIff(cfg: NodeConfig, n: Node, steps: seq<NodeStep>, e: PrintEvent, a: Answer, now: int)
    requires forall id :: id in n.attempts ==> !n.attempts[id].success
    requires e.pipeKey.Some? && Watches(cfg.signing.watched, e) && OpensClosure(e)
    requires cfg.dispute.enabled && NonceOf(e).Some? && CloserOf(e).Some?
    requires var m := Run(cfg, n, steps);
             && AnswerFits(cfg.dispute, m.signatures, m.forwarding.tables, e, OpenedClosure(e, now), a)
             && exists s :: Answers(cfg, m, e, s)
    ensures a.choice.Some?
    ensures var m, owner := Run(cfg, n, steps), a.choice.value.input.forPrincipal;
            var made := Made(cfg, m, Chain(e, a, now));
            && (made.None? <==> exists i: nat :: AnsweredBefore(cfg, n, steps, e, owner, i))
            && (made.Some? ==> made.value.state == a.choice.value && made.value.resolved == a.resolved
                               && made.value.success == a.reply.Submitted?)
            && Step(cfg, m, Chain(e, a, now)).attempts
               == if made.None? then m.attempts else m.attempts[made.value.id := Recorded(e, owner, a)]
  {
    var m := Run(cfg, n, steps);
    var s :| Answers(cfg, m, e, s);
    WinsIff(cfg, m, e, s);
    var owner := a.choice.value.input.forPrincipal;
    var id := EventAttemptId(e, owner);
    SucceededIff(cfg, n, steps, id);
    forall i: nat ensures AnsweredBefore(cfg, n, steps, e, owner, i) <==> SucceedsAt(cfg, n, steps, id, i) {
      AnsweredIsSucceeded(cfg, n, steps, e, owner, i);
    }
    AttemptIdsCoincideIff(e, e, now, 0, owner, owner);
    MadeUnlessSubmitted(cfg, m, e, a, now);
  }

  lemma MadeUnlessSubmitted(cfg: NodeConfig, m: Node, e: PrintEvent, a: Answer, now: int)
    requires DisputedClosure(cfg, e, now).Some? && cfg.dispute.enabled && NonceOf(e).Some? && CloserOf(e).Some?
    requires AnswerFits(cfg.dispute, m.signatures, m.forwarding.tables, e, OpenedClosure(e, now), a) && a.choice.Some?
    ensures var made, owner := Made(cfg, m, Chain(e, a, now)), a.choice.value.input.forPrincipal;
            && (made.None? <==>
                  AlreadySubmitted(m.attempts, AttemptIdOf(e, OpenedClosure(e, now), NonceOf(e).value, owner)))
            && (made.Some? ==> made.value.state == a.choice.value && made.value.resolved == a.resolved
                               && made.value.success == a.reply.Submitted?)
            && Step(cfg, m, Chain(e, a, now)).attempts
               == if made.None? then m.attempts else m.attempts[made.value.id := Recorded(e, owner, a)]
  {
  }
}
