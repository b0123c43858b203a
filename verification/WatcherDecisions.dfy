/** What the closure watcher decides, said with the fields of the listed events and of the stored states:
    `normalizeClosureEvent`, `isDisputeBeneficial`, `evaluateClosureForDispute` and `disputeClosure` of
    `packages/stackflow-agent/src/`, seen through the passes of `watcher.js`. */
module WatcherDecisions {
  import opened Wrappers
  import opened Octets
  import opened Principals
  import opened NodeTypes
  import opened AgentTypes
  import opened ClosureWatch

  // ---------- One event ----------

  /** Every field is there, and the event is a force-close or a force-cancel. */
  predicate WellFormed(r: RawClosure) {
    && r.eventName.Some? && (r.eventName.value.ForceClose? || r.eventName.value.ForceCancel?)
    && r.contractId.Some? && r.pipeKey.Some? && r.closer.Some? && r.txid.Some?
    && r.blockHeight.Some? && r.expiresAt.Some?
  }

  /** The nonce of an event: its own, else that of its pipe, else zero. */
  function ClosureNonce(r: RawClosure): nat {
    match r.nonce
    case Some(n) => n
    case None => if r.pipeNonce.Some? then r.pipeNonce.value else 0
  }

  /** A well-formed event is taken as it is listed, and no other event is taken. */
  lemma NormalizingKeepsFields(r: RawClosure)
    ensures NormalizeClosureEvent(r).Some? <==> WellFormed(r)
    ensures var c := NormalizeClosureEvent(r);
            c.Some? ==>
              && Some(c.value.contractId) == r.contractId && Some(c.value.pipeKey) == r.pipeKey
              && Some(c.value.eventName) == r.eventName && c.value.nonce == ClosureNonce(r)
              && Some(c.value.closer) == r.closer && Some(c.value.txid) == r.txid
              && Some(c.value.blockHeight) == r.blockHeight && Some(c.value.expiresAt) == r.expiresAt
              && c.value.closureMyBalance == r.closureMyBalance
  {
  }

  /** The stored state that would answer a well-formed event, if its pipe is tracked. */
  function AnsweringState(r: RawClosure, m: Moment): Option<AgentState>
    requires WellFormed(r)
  {
    var pipe := PipeRef(r.contractId.value, r.pipeKey.value);
    if pipe !in m.tracked then None
    else
      var ref := StateRef(pipe, m.tracked[pipe].localPrincipal);
      if ref in m.states then Some(m.states[ref]) else None
  }

  /** The state is newer than the closure; and where the policy or the state asks for a benefit, its owner does
      not close and gets more from it: more than nothing after a force-cancel, else more than the closure
      gives, when that is known. */
  predicate Worthwhile(onlyBeneficial: bool, r: RawClosure, s: AgentState)
    requires WellFormed(r)
  {
    && ClosureNonce(r) < s.nonce
    && (onlyBeneficial || s.beneficialOnly ==>
          && r.closer != Some(s.forPrincipal)
          && (r.eventName == Some(ForceCancel) ==> 0 < s.myBalance)
          && (r.eventName == Some(ForceClose) && r.closureMyBalance.Some? ==> r.closureMyBalance.value < s.myBalance))
  }

  /** What happens to one listed event. */
  lemma OutcomeMeans(onlyBeneficial: bool, rows: ClosureRows, r: RawClosure, m: Moment)
    ensures var (after, o) := HandleClosure(onlyBeneficial, rows, r, m);
            && (o.Invalid? <==> !WellFormed(r))
            && (WellFormed(r) ==>
                  var s, txid := AnsweringState(r, m), r.txid.value;
                  var worth := s.Some? && Worthwhile(onlyBeneficial, r, s.value);
                  && (o.AlreadyDisputed? <==> Disputed(rows, txid))
                  && (o.NotSubmitted? <==> !Disputed(rows, txid) && !worth)
                  && (o.DisputeError? ==> m.reply.Throws?)
                  && (o.Submission? ==> o.txid == txid && !m.reply.Throws?
                                        && o.disputeTxid == (if m.reply.WithTxid? then Some(m.reply.txid) else None))
                  && txid in after
                  && (Disputed(after, txid) <==> Disputed(rows, txid) || Successful(o))
                  && (Successful(o) ==> after[txid].disputeTxid == o.disputeTxid))
            && (forall t :: t != r.txid.GetOr(t) || !WellFormed(r) ==> (t in after <==> t in rows))
            && (forall t :: (t != r.txid.GetOr(t) || !WellFormed(r)) && t in rows ==> after[t] == rows[t])
  {
    NormalizingKeepsFields(r);
  }

  /** The row of a closure is the event as first listed, except that its balance follows every listing. */
  lemma RowMeans(onlyBeneficial: bool, rows: ClosureRows, r: RawClosure, m: Moment)
    requires WellFormed(r)
    ensures var after, txid := HandleClosure(onlyBeneficial, rows, r, m).0, r.txid.value;
            && txid in after && after[txid].event.closureMyBalance == r.closureMyBalance
            && after[txid].event == (if txid in rows then rows[txid].event else NormalizeClosureEvent(r).value)
                                    .(closureMyBalance := r.closureMyBalance)
  {
    NormalizingKeepsFields(r);
  }

  // ---------- Every item of every pass ----------

  /** The closure table just before item `j` of pass `k`. */
  function RowsBefore(onlyBeneficial: bool, w: Watcher, passes: seq<Pass>, k: nat, j: nat): ClosureRows
    requires k < |passes| && !passes[k].ListingFailed? && j <= |passes[k].items|
  {
    HandleAll(onlyBeneficial, RunPasses(onlyBeneficial, w, passes[..k]).rows, passes[k].items[..j]).0
  }

  function OutcomesOf(onlyBeneficial: bool, w: Watcher, passes: seq<Pass>, k: nat): seq<Outcome>
    requires k < |passes| && !passes[k].ListingFailed?
  {
    HandleAll(onlyBeneficial, RunPasses(onlyBeneficial, w, passes[..k]).rows, passes[k].items).1
  }

  lemma {:induction false} ItemsInOrder(onlyBeneficial: bool, rows: ClosureRows, items: seq<Item>, j: nat)
    requires j < |items|
    ensures |HandleAll(onlyBeneficial, rows, items).1| == |items|
    ensures var before := HandleAll(onlyBeneficial, rows, items[..j]).0;
            HandleAll(onlyBeneficial, rows, items).1[j]
            == HandleClosure(onlyBeneficial, before, items[j].raw, items[j].moment).1
  {
    var n := |items| - 1;
    PassRecordsAndDecides(onlyBeneficial, rows, items);
    PassRecordsAndDecides(onlyBeneficial, rows, items[..n]);
    if j < n {
      ItemsInOrder(onlyBeneficial, rows, items[..n], j);
      assert items[..n][..j] == items[..j];
    }
  }

  /** Over any passes: an item is submitted, or fails to be, if and only if it is well formed, not disputed yet,
      and at its moment its pipe is tracked with a stored state that is worth it; a well-formed, undisputed
      item ends as not submitted exactly otherwise. */
  lemma PassesDecideByTheFields(onlyBeneficial: bool, w: Watcher, passes: seq<Pass>, k: nat, j: nat)
    requires k < |passes| && !passes[k].ListingFailed? && j < |passes[k].items|
    ensures |OutcomesOf(onlyBeneficial, w, passes, k)| == |passes[k].items|
    ensures RunPasses(onlyBeneficial, w, passes[..k + 1]).outcomes
         == RunPasses(onlyBeneficial, w, passes[..k]).outcomes + OutcomesOf(onlyBeneficial, w, passes, k)
    ensures var o, item := OutcomesOf(onlyBeneficial, w, passes, k)[j], passes[k].items[j];
            var undisputed := WellFormed(item.raw)
                              && !Disputed(RowsBefore(onlyBeneficial, w, passes, k, j), item.raw.txid.value);
            var worth := WellFormed(item.raw) && AnsweringState(item.raw, item.moment).Some?
                         && Worthwhile(onlyBeneficial, item.raw, AnsweringState(item.raw, item.moment).value);
            && (o.Submission? || o.DisputeError? <==> undisputed && worth)
            && (o.NotSubmitted? <==> undisputed && !worth)
            && (o.DisputeError? <==> undisputed && worth && item.moment.reply.Throws?)
            && (o.Submission? ==> o.txid == item.raw.txid.value)
  {
    var item := passes[k].items[j];
    assert passes[..k + 1][..k] == passes[..k];
    ItemsInOrder(onlyBeneficial, RunPasses(onlyBeneficial, w, passes[..k]).rows, passes[k].items, j);
    OutcomeMeans(onlyBeneficial, RowsBefore(onlyBeneficial, w, passes, k, j), item.raw, item.moment);
  }

  /** A closure is disputed exactly when it was at the start or a submission for it returned a txid. */
  lemma {:induction false} DisputedIff(onlyBeneficial: bool, rows: ClosureRows, items: seq<Item>, txid: Txid)
    ensures var (after, outcomes) := HandleAll(onlyBeneficial, rows, items);
            Disputed(after, txid) <==>
            || Disputed(rows, txid)
            || exists i :: 0 <= i < |outcomes| && Successful(outcomes[i]) && outcomes[i].txid == txid
  {
    if items != [] {
      var last := items[|items| - 1];
      var (before, outcomes) := HandleAll(onlyBeneficial, rows, items[..|items| - 1]);
      var (after, o) := HandleClosure(onlyBeneficial, before, last.raw, last.moment);
      DisputedIff(onlyBeneficial, rows, items[..|items| - 1], txid);
      OutcomeMeans(onlyBeneficial, before, last.raw, last.moment);
      assert forall i :: 0 <= i < |outcomes| ==> (outcomes + [o])[i] == outcomes[i];
      assert (outcomes + [o])[|outcomes|] == o;
    }
  }

  // ---------- Reading the pipes ----------

  /** The pipe could be read and is being closed. */
  predicate Closing(read: PipeRead) {
    read.state.Some? && var p := read.state.value;
    p.closer.Some? && p.nonce.Some? && p.expiresAt.Some? && p.balance1.Some? && p.balance2.Some?
  }

  function Closings(pipes: seq<PipeRead>): nat {
    if pipes == [] then 0 else Closings(pipes[..|pipes| - 1]) + if Closing(pipes[|pipes| - 1]) then 1 else 0
  }

  /** The event is what the chain says about the tracked pipe, from the side of its local principal. */
  predicate IsReadOf(naming: Naming, r: RawClosure, t: TrackedPipe, p: PipeState)
    requires p.nonce.Some? && p.closer.Some?
  {
    && WellFormed(r) && r.contractId.value == t.contractId && r.pipeKey.value == t.pipeKey
    && (r.eventName.value == ForceCancel <==> p.event == Some(ForceCancel))
    && ClosureNonce(r) == p.nonce.value && r.closer == p.closer && r.expiresAt == p.expiresAt
    && r.txid.value == p.txid.GetOr(naming(PipeRef(t.contractId, t.pipeKey), p.nonce.value, p.closer.value))
    && r.blockHeight.value == p.blockHeight.GetOr(0)
    && r.closureMyBalance == if t.localPrincipal == t.pipeKey.principal1 then p.balance1 else p.balance2
  }

  /** A pass over the tracked pipes handles every pipe that is being closed, and nothing else, in order. */
  lemma {:induction false} ClosingPipesAreHandled(naming: Naming, pipes: seq<PipeRead>, i: nat)
    requires i < |pipes|
    ensures |FoundItems(naming, pipes)| == Closings(pipes)
    ensures Closing(pipes[i]) ==>
              && Closings(pipes[..i]) < |FoundItems(naming, pipes)|
              && var item := FoundItems(naming, pipes)[Closings(pipes[..i])];
              && item.moment == pipes[i].moment
              && IsReadOf(naming, item.raw, pipes[i].tracked, pipes[i].state.value)
  {
    var n := |pipes| - 1;
    if n > 0 {
      ClosingPipesAreHandled(naming, pipes[..n], if i < n then i else 0);
    }
    if i < n {
      assert pipes[..n][..i] == pipes[..i];
    }
  }

  // ---------- The cursor ----------

  /** A pass moves the cursor if and only if it lists events, none of its disputes fails, and some well-formed
      event lies above the cursor; and then it moves to the highest of them. */
  lemma CursorMovesIff(onlyBeneficial: bool, w: Watcher, p: Pass)
    ensures var after := RunPass(onlyBeneficial, w, p);
            && (after.cursor != w.cursor <==>
                  p.EventsPass? && DisputeError !in HandleAll(onlyBeneficial, w.rows, p.items).1
                  && exists i :: 0 <= i < |p.items| && WellFormed(p.items[i].raw)
                                 && w.cursor < p.items[i].raw.blockHeight.value)
            && (after.cursor != w.cursor ==>
                  && (forall i :: 0 <= i < |p.items| && WellFormed(p.items[i].raw) ==>
                        p.items[i].raw.blockHeight.value <= after.cursor)
                  && exists i :: 0 <= i < |p.items| && WellFormed(p.items[i].raw)
                                 && p.items[i].raw.blockHeight.value == after.cursor)
  {
    if p.EventsPass? {
      HighestBlockBounds(w.cursor, p.items);
      forall i | 0 <= i < |p.items|
        ensures NormalizeClosureEvent(p.items[i].raw).Some? <==> WellFormed(p.items[i].raw)
        ensures WellFormed(p.items[i].raw) ==>
                NormalizeClosureEvent(p.items[i].raw).value.blockHeight == p.items[i].raw.blockHeight.value
      {
        NormalizingKeepsFields(p.items[i].raw);
      }
    }
  }
}
