/** The agent as objects: the store of `packages/stackflow-agent/src/db.js`, the service of
    `agent-service.js` and the watcher of `watcher.js`. Answers of the wallet and of the chain are
    parameters. Each method is proved against `AgentTransfer` or `ClosureWatch`. */
module AgentService {
  import opened Wrappers
  import opened Octets
  import opened Principals
  import opened NodeTypes
  import opened AgentTypes
  import opened AgentTransfer
  import opened ClosureWatch

  class AgentStateStore {
    var tracked: TrackedPipes
    var states: AgentStates
    var closures: ClosureRows
    var cursor: nat

    constructor ()
      ensures tracked == map[] && states == map[] && closures == map[] && cursor == 0
    {
      tracked, states, closures, cursor := map[], map[], map[], 0;
    }

    method UpsertTrackedPipe(pipe: TrackedPipe) returns (pipeId: PipeRef)
      modifies this`tracked
      ensures pipeId == BuildPipeId(pipe.contractId, pipe.pipeKey) && tracked == old(tracked)[pipeId := pipe]
    {
      pipeId := BuildPipeId(pipe.contractId, pipe.pipeKey);
      tracked := tracked[pipeId := pipe];
    }

    /** All rows, in some order. */
    method ListTrackedPipes() returns (pipes: seq<TrackedPipe>, ghost keys: seq<PipeRef>)
      ensures ListsTracked(pipes, keys, tracked)
      ensures forall p :: p in pipes <==> exists k :: k in tracked && tracked[k] == p
    {
      pipes, keys := [], [];
      var todo := tracked.Keys;
      while todo != {}
        invariant todo <= tracked.Keys && |pipes| == |keys|
        invariant forall k :: k in keys <==> k in tracked.Keys - todo
        invariant forall i :: 0 <= i < |keys| ==> keys[i] in tracked && pipes[i] == tracked[keys[i]]
        invariant forall i, j :: 0 <= i < j < |keys| ==> keys[i] != keys[j]
        decreases |todo|
      {
        var k :| k in todo;
        assert k !in keys;
        pipes, keys := pipes + [tracked[k]], keys + [k];
        todo := todo - {k};
      }
      forall k | k in tracked ensures tracked[k] in pipes {
        assert k in keys;
        var i :| 0 <= i < |keys| && keys[i] == k;
        assert pipes[i] == tracked[k];
      }
    }

    method UpsertSignatureState(state: AgentState) returns (stored: bool)
      modifies this`states
      ensures (states, stored) == UpsertAgentState(old(states), state)
    {
      var ref := AgentRefOf(state);
      if ref in states && state.nonce < states[ref].nonce {
        return false;
      }
      if ref in states {
        states := states[ref := states[ref].(
          myBalance := state.myBalance, theirBalance := state.theirBalance, nonce := state.nonce,
          action := state.action, actor := state.actor, mySignature := state.mySignature,
          theirSignature := state.theirSignature, secret := state.secret, validAfter := state.validAfter,
          beneficialOnly := state.beneficialOnly, updatedAt := state.updatedAt)];
      } else {
        states := states[ref := state];
      }
      return true;
    }

    method RecordClosure(c: ClosureEvent)
      modifies this`closures
      ensures closures == Recorded(old(closures), c)
    {
      if c.txid in closures {
        var row := closures[c.txid];
        closures := closures[c.txid := row.(event := row.event.(closureMyBalance := c.closureMyBalance))];
      } else {
        closures := closures[c.txid := ClosureRow(c, None, false)];
      }
    }

    method MarkClosureDisputed(txid: Txid, disputeTxid: Txid)
      modifies this`closures
      ensures closures == MarkedDisputed(old(closures), txid, disputeTxid)
    {
      if txid in closures {
        closures := closures[txid := closures[txid].(disputed := true, disputeTxid := Some(disputeTxid))];
      }
    }

    method SetWatcherCursor(blockHeight: nat)
      modifies this`cursor
      ensures cursor == blockHeight
    {
      cursor := blockHeight;
    }
  }

  class StackflowAgentService {
    const stateStore: AgentStateStore
    const disputeOnlyBeneficial: bool

    constructor (stateStore: AgentStateStore, disputeOnlyBeneficial: bool)
      ensures this.stateStore == stateStore && this.disputeOnlyBeneficial == disputeOnlyBeneficial
    {
      this.stateStore, this.disputeOnlyBeneficial := stateStore, disputeOnlyBeneficial;
    }

    ghost function View(): Agent
      reads stateStore
    {
      Agent(stateStore.tracked, stateStore.states)
    }

    /** `acceptIncomingTransfer`, with the wallet's signature over the message it is shown. */
    method AcceptIncomingTransfer(pipeId: PipeRef, payload: Payload, mySignature: Bytes, now: int)
      returns (accepted: Option<AgentState>, message: Option<Message>)
      modifies stateStore`states
      ensures (View(), accepted) == Accept(old(View()), pipeId, payload, mySignature, now)
      ensures message == if accepted.Some? then Some(MessageOf(accepted.value)) else None
    {
      var validation := ValidateIncomingTransfer(stateStore.tracked, stateStore.states, pipeId, payload);
      if validation.Err? {
        return None, None;
      }
      var state := validation.value;
      message := Some(MessageOf(state));
      var signed := state.(mySignature := mySignature, updatedAt := now);
      var stored := stateStore.UpsertSignatureState(signed);
      accepted := Some(signed);
    }

    /** `disputeClosure` for a closure that is already recorded. */
    method DisputeClosure(c: ClosureEvent, reply: WalletReply) returns (outcome: Outcome)
      modifies stateStore`closures
      ensures stateStore.closures
           == if outcome.Submission? && outcome.disputeTxid.Some?
              then MarkedDisputed(old(stateStore.closures), c.txid, outcome.disputeTxid.value)
                  else old(stateStore.closures)
      ensures outcome == if !ShouldDispute(stateStore.tracked, stateStore.states, disputeOnlyBeneficial, c)
                         then NotSubmitted
                         else match reply
                           case Throws => DisputeError
                           case WithoutTxid => Submission(c.txid, None)
                           case WithTxid(d) => Submission(c.txid, Some(d))
    {
      if !ShouldDispute(stateStore.tracked, stateStore.states, disputeOnlyBeneficial, c) {
        return NotSubmitted;
      }
      match reply {
        case Throws => return DisputeError;
        case WithoutTxid => return Submission(c.txid, None);
        case WithTxid(d) =>
          stateStore.MarkClosureDisputed(c.txid, d);
          return Submission(c.txid, Some(d));
      }
    }
  }

  /** What a call of the watcher reports. */
  datatype PassResult = Skipped | ListError | Done(outcomes: seq<Outcome>, from: nat, to: nat)

  class HourlyClosureWatcher {
    const agentService: StackflowAgentService
    const naming: Naming
    var running: bool

    constructor (agentService: StackflowAgentService, naming: Naming)
      ensures this.agentService == agentService && this.naming == naming && !running
    {
      this.agentService, this.naming, this.running := agentService, naming, false;
    }

    ghost function View(outcomes: seq<Outcome>): Watcher
      reads agentService.stateStore
    {
      Watcher(agentService.stateStore.closures, agentService.stateStore.cursor, outcomes)
    }

    /** While a pass awaits something, other handlers change the signature tables, and the timer may fire
        `overlapping` further calls, which all find the watcher running. */
    method Await(m: Moment, overlapping: nat)
      requires running
      modifies this, agentService.stateStore
      ensures running && agentService.stateStore.closures == old(agentService.stateStore.closures)
      ensures agentService.stateStore.cursor == old(agentService.stateStore.cursor)
      ensures agentService.stateStore.tracked == m.tracked && agentService.stateStore.states == m.states
      decreases 1
    {
      for k := 0 to overlapping
        invariant running && agentService.stateStore.closures == old(agentService.stateStore.closures)
        invariant agentService.stateStore.cursor == old(agentService.stateStore.cursor)
      {
        var r := RunOnceByEvents(None, 0);
        var scanned;
        ghost var keys;
        r, scanned, keys := RunOnceByReadonlyPipe(_ => PipeAnswer(None, m), 0);
      }
      agentService.stateStore.tracked, agentService.stateStore.states := m.tracked, m.states;
    }

    /** One closure of a pass. */
    method Watch(item: Item, overlapping: nat) returns (outcome: Outcome)
      requires running
      modifies this, agentService.stateStore
      ensures running && agentService.stateStore.cursor == old(agentService.stateStore.cursor)
      ensures (agentService.stateStore.closures, outcome)
           == HandleClosure(agentService.disputeOnlyBeneficial, old(agentService.stateStore.closures), item.raw,
                item.moment)
      decreases 2
    {
      Await(item.moment, overlapping);
      var closure := NormalizeClosureEvent(item.raw);
      if closure.None? {
        return Invalid;
      }
      var c := closure.value;
      var alreadyDisputed := c.txid in agentService.stateStore.closures &&
          agentService.stateStore.closures[c.txid].disputed;
      agentService.stateStore.RecordClosure(c);
      if alreadyDisputed {
        return AlreadyDisputed;
      }
      outcome := agentService.DisputeClosure(c, item.moment.reply);
    }

    /** `runOnceByEvents`: `listing` is what the event source returns, or `None` if it fails. */
    method RunOnceByEvents(listing: Option<seq<Item>>, overlapping: nat) returns (result: PassResult)
      modifies this, agentService.stateStore
      ensures running == old(running)
      ensures old(running) ==> result.Skipped? && View([]) == old(View([]))
      ensures !old(running) ==>
        View(if result.Done? then result.outcomes else [])
        == RunPass(agentService.disputeOnlyBeneficial, old(View([])), if listing.None? then ListingFailed
             else EventsPass(listing.value))
      decreases if running then 0 else 4
    {
      if running {
        return Skipped;
      }
      running := true;
      var from := agentService.stateStore.cursor;
      if listing.None? {
        running := false;
        return ListError;
      }
      var items := listing.value;
      var highestBlock := from;
      var hasDisputeErrors := false;
      var outcomes := [];
      for i := 0 to |items|
        invariant running && agentService.stateStore.cursor == from
        invariant (agentService.stateStore.closures, outcomes)
               == HandleAll(agentService.disputeOnlyBeneficial, old(agentService.stateStore.closures), items[..i])
        invariant hasDisputeErrors <==> DisputeError in outcomes
        invariant highestBlock == HighestBlock(from, items[..i])
      {
        assert items[..i + 1][..i] == items[..i];
        var outcome := Watch(items[i], overlapping);
        var closure := NormalizeClosureEvent(items[i].raw);
        if closure.Some? && closure.value.blockHeight > highestBlock {
          highestBlock := closure.value.blockHeight;
        }
        hasDisputeErrors := hasDisputeErrors || outcome.DisputeError?;
        outcomes := outcomes + [outcome];
      }
      assert items[..|items|] == items;
      var to := if hasDisputeErrors then from else highestBlock;
      if !hasDisputeErrors {
        agentService.stateStore.SetWatcherCursor(to);
      }
      running := false;
      return Done(outcomes, from, to);
    }

    /** One tracked pipe of a pass. */
    method WatchPipe(pipe: TrackedPipe, answer: PipeAnswer, overlapping: nat) returns (outcome: Option<Outcome>)
      requires running
      modifies this, agentService.stateStore
      ensures running && agentService.stateStore.cursor == old(agentService.stateStore.cursor)
      ensures match Found(naming, PipeRead(pipe, answer.state, answer.moment))
              case None => outcome.None? && agentService.stateStore.closures == old(agentService.stateStore.closures)
              case Some(item) =>
                outcome.Some?
                && (agentService.stateStore.closures, outcome.value)
                   == HandleClosure(agentService.disputeOnlyBeneficial, old(agentService.stateStore.closures),
                                    item.raw, item.moment)
      decreases 3
    {
      if answer.state.None? {
        return None;
      }
      var rawClosure := ToClosure(naming, pipe, answer.state.value);
      if rawClosure.None? {
        return None;
      }
      var decided := Watch(Item(rawClosure.value, answer.moment), overlapping);
      return Some(decided);
    }

    /** `runOnceByReadonlyPipe`: every tracked pipe is read once, and `answers` is what the chain says. */
    method RunOnceByReadonlyPipe(answers: nat -> PipeAnswer, overlapping: nat)
      returns (result: PassResult, scanned: seq<TrackedPipe>, ghost keys: seq<PipeRef>)
      modifies this, agentService.stateStore
      ensures running == old(running)
      ensures old(running) ==> result.Skipped? && View([]) == old(View([]))
      ensures !old(running) ==> result.Done? && ListsTracked(scanned, keys, old(agentService.stateStore.tracked))
      ensures !old(running) ==>
        View(result.outcomes)
        == RunPass(agentService.disputeOnlyBeneficial, old(View([])),
             PipesPass(FoundItems(naming, ReadPipes(scanned, answers))))
      decreases if running then 0 else 4
    {
      scanned, keys := [], [];
      if running {
        return Skipped, scanned, keys;
      }
      running := true;
      scanned, keys := agentService.stateStore.ListTrackedPipes();
      ghost var reading := ReadPipes(scanned, answers);
      var outcomes := [];
      for i := 0 to |scanned|
        invariant running && agentService.stateStore.cursor == old(agentService.stateStore.cursor)
        invariant (agentService.stateStore.closures, outcomes)
               == HandleAll(agentService.disputeOnlyBeneficial, old(agentService.stateStore.closures),
                            FoundItems(naming, reading[..i]))
      {
        ghost var read := PipeRead(scanned[i], answers(i).state, answers(i).moment);
        assert reading[..i + 1] == reading[..i] + [read];
        OneMorePipe(agentService.disputeOnlyBeneficial, naming, old(agentService.stateStore.closures),
                    reading[..i], read);
        var outcome := WatchPipe(scanned[i], answers(i), overlapping);
        if outcome.Some? {
          outcomes := outcomes + [outcome.value];
        }
      }
      assert reading[..|scanned|] == reading;
      running := false;
      result := Done(outcomes, agentService.stateStore.cursor, agentService.stateStore.cursor);
    }
  }
}
