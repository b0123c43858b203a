/** Crediting pending deposits at burn blocks: `ingestBurnBlock` of `server/src/stackflow-node.ts`. */
module Settlement {
  import opened Wrappers
  import opened NodeTypes

  // ---------- One side of a pipe ----------

  predicate Due(balance: Option<nat>, pending: Pending, height: nat) {
    pending.amount.Some? && pending.burnHeight.Some? && height >= pending.burnHeight.value && balance.Some?
  }

  predicate Moves(p: ObservedPipe, height: nat) {
    Due(p.balance1, p.pending1, height) || Due(p.balance2, p.pending2, height)
  }

  function Settle(p: ObservedPipe, height: nat, now: int): ObservedPipe {
    var due1, due2 := Due(p.balance1, p.pending1, height), Due(p.balance2, p.pending2, height);
    if !due1 && !due2 then p
    else p.(
      balance1 := Some(p.balance1.GetOr(0) + if due1 then p.pending1.amount.value else 0),
      balance2 := Some(p.balance2.GetOr(0) + if due2 then p.pending2.amount.value else 0),
      pending1 := if due1 then NOTHING_PENDING else p.pending1,
      pending2 := if due2 then NOTHING_PENDING else p.pending2,
      updatedAt := now)
  }

  function SettleAll(t: ObservedPipes, height: nat, now: int): ObservedPipes {
    map k | k in t :: Settle(t[k], height, now)
  }

  /** The table when exactly the pipes of `done` have been settled. */
  ghost function SettleSome(t: ObservedPipes, done: set<PipeRef>, height: nat, now: int): ObservedPipes {
    map k | k in t :: if k in done then Settle(t[k], height, now) else t[k]
  }

  ghost function Moving(t: ObservedPipes, done: set<PipeRef>, height: nat): set<PipeRef> {
    set k | k in t && k in done && Moves(t[k], height)
  }

  lemma OneMoreSettled(t: ObservedPipes, done: set<PipeRef>, k: PipeRef, height: nat, now: int)
    requires k in t && k !in done
    ensures SettleSome(t, done + {k}, height, now) == SettleSome(t, done, height, now)[k := Settle(t[k], height, now)]
    ensures |Moving(t, done + {k}, height)| == |Moving(t, done, height)| + if Moves(t[k], height) then 1 else 0
  {
    assert Moving(t, done + {k}, height) == Moving(t, done, height) + if Moves(t[k], height) then {k} else {};
  }

  /** The table and the count after the loop has been through `rows`. */
  ghost function SettleRows(t: ObservedPipes, rows: seq<ObservedPipe>, height: nat, now: int): (ObservedPipes, nat) {
    if rows == [] then (t, 0)
    else
      var n := |rows| - 1;
      var (table, count) := SettleRows(t, rows[..n], height, now);
      if Moves(rows[n], height) then (table[RefOfObserved(rows[n]) := Settle(rows[n], height, now)], count + 1)
      else (table, count)
  }

  ghost function Refs(rows: seq<ObservedPipe>): set<PipeRef> {
    if rows == [] then {} else Refs(rows[..|rows| - 1]) + {RefOfObserved(rows[|rows| - 1])}
  }

  lemma {:induction false} RefsAre(rows: seq<ObservedPipe>, k: PipeRef)
    ensures k in Refs(rows) <==> exists j :: 0 <= j < |rows| && RefOfObserved(rows[j]) == k
  {
    if rows != [] {
      RefsAre(rows[..|rows| - 1], k);
      assert RefOfObserved(rows[|rows| - 1]) == k ||
             !(exists j :: |rows| - 1 <= j < |rows| && RefOfObserved(rows[j]) == k);
    }
  }

  /** Writing back the changed rows one by one settles exactly the listed pipes, each once. */
  lemma {:induction false} RowsSettleTheirPipes(t: ObservedPipes, rows: seq<ObservedPipe>, height: nat, now: int)
    requires forall j :: 0 <= j < |rows| ==> RefOfObserved(rows[j]) in t && t[RefOfObserved(rows[j])] == rows[j]
    requires forall i, j :: 0 <= i < j < |rows| ==> RefOfObserved(rows[i]) != RefOfObserved(rows[j])
    ensures SettleRows(t, rows, height, now)
         == (SettleSome(t, Refs(rows), height, now), |Moving(t, Refs(rows), height)|)
    ensures |Refs(rows)| == |rows|
  {
    if rows == [] {
      AllSettled(t, {}, height, now);
    } else {
      var n := |rows| - 1;
      var rest, k := rows[..n], RefOfObserved(rows[n]);
      RowsSettleTheirPipes(t, rest, height, now);
      RefsAre(rest, k);
      OneMoreSettled(t, Refs(rest), k, height, now);
      var table := SettleSome(t, Refs(rest), height, now);
      assert table[k := table[k]] == table;
    }
  }

  lemma AllSettled(t: ObservedPipes, done: set<PipeRef>, height: nat, now: int)
    ensures done == {} ==> SettleSome(t, done, height, now) == t && Moving(t, done, height) == {}
    ensures done == t.Keys ==> SettleSome(t, done, height, now) == SettleAll(t, height, now)
  {
  }

  lemma ListedRowsSettleTheTable(t: ObservedPipes, rows: seq<ObservedPipe>, height: nat, now: int)
    requires forall j :: 0 <= j < |rows| ==> RefOfObserved(rows[j]) in t && t[RefOfObserved(rows[j])] == rows[j]
    requires forall i, j :: 0 <= i < j < |rows| ==> RefOfObserved(rows[i]) != RefOfObserved(rows[j])
    requires forall k :: k in t ==> t[k] in rows && RefOfObserved(t[k]) == k
    ensures SettleRows(t, rows, height, now) == (SettleAll(t, height, now), |Moving(t, t.Keys, height)|)
    ensures |rows| == |t|
  {
    forall k ensures k in Refs(rows) <==> k in t {
      RefsAre(rows, k);
    }
    assert Refs(rows) == t.Keys;
    RowsSettleTheirPipes(t, rows, height, now);
    AllSettled(t, t.Keys, height, now);
  }

  /** The loop body, as the source computes it: four `next` variables and a `changed` flag. */
  method SettlePipe(observedPipe: ObservedPipe, burnBlockHeight: nat, now: int)
    returns (nextPipe: ObservedPipe, changed: bool)
    ensures nextPipe == Settle(observedPipe, burnBlockHeight, now)
    ensures changed <==> Moves(observedPipe, burnBlockHeight)
    ensures !changed ==> nextPipe == observedPipe
  {
    var nextBalance1, nextBalance2 := observedPipe.balance1, observedPipe.balance2;
    var nextPending1, nextPending2 := observedPipe.pending1, observedPipe.pending2;
    changed := false;
    if observedPipe.pending1.amount.Some? && observedPipe.pending1.burnHeight.Some?
       && burnBlockHeight >= observedPipe.pending1.burnHeight.value && nextBalance1.Some? {
      nextBalance1 := Some(nextBalance1.value + observedPipe.pending1.amount.value);
      nextPending1 := Pending(None, None);
      changed := true;
    }
    if observedPipe.pending2.amount.Some? && observedPipe.pending2.burnHeight.Some?
       && burnBlockHeight >= observedPipe.pending2.burnHeight.value && nextBalance2.Some? {
      nextBalance2 := Some(nextBalance2.value + observedPipe.pending2.amount.value);
      nextPending2 := Pending(None, None);
      changed := true;
    }
    if !changed {
      return observedPipe, false;
    }
    nextPipe := observedPipe.(
      balance1 := Some(nextBalance1.GetOr(0)), balance2 := Some(nextBalance2.GetOr(0)),
      pending1 := nextPending1, pending2 := nextPending2, updatedAt := now);
  }

  // ---------- Runs of burn blocks ----------

  datatype BurnBlock = BurnBlock(height: nat, now: int)

  function SettleRun(p: ObservedPipe, blocks: seq<BurnBlock>): ObservedPipe {
    if blocks == [] then p
    else
      var last := blocks[|blocks| - 1];
      Settle(SettleRun(p, blocks[..|blocks| - 1]), last.height, last.now)
  }

  function MaxHeight(blocks: seq<BurnBlock>): nat
    requires blocks != []
  {
    var last := blocks[|blocks| - 1].height;
    if |blocks| == 1 then last
    else
      var rest := MaxHeight(blocks[..|blocks| - 1]);
      if last > rest then last else rest
  }

  /** Equal up to the time stamp. */
  predicate SameAmounts(p: ObservedPipe, q: ObservedPipe) { p.(updatedAt := 0) == q.(updatedAt := 0) }

  /** What a side owns or is owed. */
  function Owned(balance: Option<nat>, pending: Pending): nat {
    balance.GetOr(0) + if pending.burnHeight.Some? then pending.amount.GetOr(0) else 0
  }

  /** No settlement creates or destroys tokens on either side, whatever is missing from the record. */
  lemma {:induction false} SettlementConserves(p: ObservedPipe, blocks: seq<BurnBlock>)
    ensures var q := SettleRun(p, blocks);
            && Owned(q.balance1, q.pending1) == Owned(p.balance1, p.pending1)
            && Owned(q.balance2, q.pending2) == Owned(p.balance2, p.pending2)
  {
    if blocks != [] {
      SettlementConserves(p, blocks[..|blocks| - 1]);
    }
  }

  /** A complete pending deposit on a side whose balance is unknown, beside a side that can settle: the
      first settlement turns the unknown balance into zero, and a later one credits the deposit. */
  predicate HalfKnown(p: ObservedPipe) {
    || (p.balance1.None? && Complete(p.pending1) && p.balance2.Some? && Complete(p.pending2))
    || (p.balance2.None? && Complete(p.pending2) && p.balance1.Some? && Complete(p.pending1))
  }

  predicate Complete(pending: Pending) { pending.amount.Some? && pending.burnHeight.Some? }

  lemma {:induction false} OnlyTheHighestBlockMatters(p: ObservedPipe, blocks: seq<BurnBlock>, now: int)
    requires !HalfKnown(p) && blocks != []
    ensures SameAmounts(SettleRun(p, blocks), Settle(p, MaxHeight(blocks), now))
  {
    var last := blocks[|blocks| - 1];
    if |blocks| == 1 {
      assert SettleRun(p, blocks[..0]) == p;
    } else {
      var earlier := blocks[..|blocks| - 1];
      OnlyTheHighestBlockMatters(p, earlier, now);
      TwoBlocksAreOne(p, SettleRun(p, earlier), MaxHeight(earlier), last.height, now, last.now);
    }
  }

  lemma TwoBlocksAreOne(p: ObservedPipe, q: ObservedPipe, first: nat, second: nat, now: int, later: int)
    requires !HalfKnown(p) && SameAmounts(q, Settle(p, first, now))
    ensures SameAmounts(Settle(q, second, later), Settle(p, if second > first then second else first, now))
  {
  }

  /** The order and repetition of burn blocks is irrelevant exactly for the records that are not
      half-known; in particular for every record with both balances. */
  lemma SettlementIsConfluentIff(p: ObservedPipe)
    ensures !HalfKnown(p)
       <==> forall blocks: seq<BurnBlock>, now: int :: blocks != []
              ==> SameAmounts(SettleRun(p, blocks), Settle(p, MaxHeight(blocks), now))
    ensures p.balance1.Some? && p.balance2.Some? ==> !HalfKnown(p)
  {
    if HalfKnown(p) {
      var h1, h2 := p.pending1.burnHeight.value, p.pending2.burnHeight.value;
      var b := BurnBlock(if h1 > h2 then h1 else h2, 0);
      assert [b, b][..1] == [b] && [b][..0] == [];
      assert SettleRun(p, [b]) == Settle(p, b.height, 0);
      assert SettleRun(p, [b, b]) == Settle(Settle(p, b.height, 0), b.height, 0);
      assert MaxHeight([b, b]) == b.height;
      assert !SameAmounts(SettleRun(p, [b, b]), Settle(p, MaxHeight([b, b]), 0));
    } else {
      forall blocks: seq<BurnBlock>, now: int | blocks != []
        ensures SameAmounts(SettleRun(p, blocks), Settle(p, MaxHeight(blocks), now))
      {
        OnlyTheHighestBlockMatters(p, blocks, now);
      }
    }
  }

  /** Each complete pending amount of a known side is credited once: at the first block that reaches its
      height, and by its exact amount; before that nothing moves. */
  lemma {:induction false} PendingCreditedOnce(p: ObservedPipe, blocks: seq<BurnBlock>)
    requires p.balance1.Some? && p.balance2.Some? && blocks != []
    ensures var q, top := SettleRun(p, blocks), MaxHeight(blocks);
            && (q.balance1, q.pending1) == Credited(p.balance1.value, p.pending1, top)
            && (q.balance2, q.pending2) == Credited(p.balance2.value, p.pending2, top)
  {
    OnlyTheHighestBlockMatters(p, blocks, 0);
  }

  function Credited(balance: nat, pending: Pending, height: nat): (Option<nat>, Pending) {
    if Complete(pending) && pending.burnHeight.value <= height
    then (Some(balance + pending.amount.value), NOTHING_PENDING)
    else (Some(balance), pending)
  }
}
