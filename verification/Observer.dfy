/** What chain events do to the observed pipes and the open closures: `ingest` and `handleEvent` of
    `server/src/stackflow-node.ts`, without the dispute that an opening event may trigger. */
module Observer {
  import opened Wrappers
  import opened Principals
  import opened NodeTypes
  import opened Settlement

  datatype Watch = Watch(observed: ObservedPipes, closures: Closures)

  /** An empty watch list watches everything. */
  predicate IsWatchedPrincipal(watched: set<Principal>, p: Principal) { watched == {} || p in watched }

  predicate IsWatchedPipe(watched: set<Principal>, key: Option<PipeKey>) {
    watched == {} || (key.Some? && (key.value.principal1 in watched || key.value.principal2 in watched))
  }

  function SnapshotRecord(e: PrintEvent, now: int): ObservedPipe
    requires e.pipeKey.Some? && e.eventName.Some? && e.pipe.Some?
  {
    var s := e.pipe.value;
    ObservedPipe(
      e.contractId, e.pipeKey.value, s.balance1, s.balance2,
      s.pending1.GetOr(NOTHING_PENDING), s.pending2.GetOr(NOTHING_PENDING),
      s.expiresAt, s.nonce, s.closer, e.eventName.value, e.txid, e.blockHeight, now)
  }

  function SettledRecord(e: PrintEvent, now: int): ObservedPipe
    requires e.pipeKey.Some? && e.eventName.Some?
  {
    ObservedPipe(
      e.contractId, e.pipeKey.value, Some(0), Some(0), NOTHING_PENDING, NOTHING_PENDING,
      if e.pipe.Some? then e.pipe.value.expiresAt else None,
      if e.pipe.Some? then e.pipe.value.nonce else None,
      None, e.eventName.value, e.txid, e.blockHeight, now)
  }

  function OpenedClosure(e: PrintEvent, now: int): Closure
    requires e.pipeKey.Some? && e.eventName.Some?
  {
    var closer := if e.pipe.Some? && e.pipe.value.closer.Some? then e.pipe.value.closer else e.sender;
    Closure(
      e.pipeKey.value, e.contractId, closer,
      if e.pipe.Some? then e.pipe.value.expiresAt else None,
      if e.pipe.Some? then e.pipe.value.nonce else None,
      e.eventName.value, e.txid, e.blockHeight, now)
  }

  function HandleEvent(w: Watch, e: PrintEvent, now: int): Watch {
    if e.pipeKey.None? || e.eventName.None? then w
    else
      var key, name := e.pipeKey.value, e.eventName.value;
      var ref := PipeRef(e.contractId, key);
      var observed :=
        if Terminal(name) then w.observed[ref := SettledRecord(e, now)]
        else if e.pipe.Some? then w.observed[ref := SnapshotRecord(e, now)]
        else w.observed;
      var closures :=
        if Opening(name) then w.closures[key := OpenedClosure(e, now)]
        else if Terminal(name) then w.closures - {key}
        else w.closures;
      Watch(observed, closures)
  }

  // ---------- Logs of events and burn blocks ----------

  datatype ChainStep = Event(event: PrintEvent, now: int) | Burn(block: BurnBlock)

  function Advance(watched: set<Principal>, w: Watch, s: ChainStep): Watch {
    match s
    case Event(e, now) => if IsWatchedPipe(watched, e.pipeKey) then HandleEvent(w, e, now) else w
    case Burn(b) => w.(observed := SettleAll(w.observed, b.height, b.now))
  }

  function Fold(watched: set<Principal>, w: Watch, log: seq<ChainStep>): Watch {
    if log == [] then w else Advance(watched, Fold(watched, w, log[..|log| - 1]), log[|log| - 1])
  }

  /** A watched event that opens or ends a closure of pipe id `key`, on whatever contract. */
  predicate Decides(watched: set<Principal>, s: ChainStep, key: PipeKey) {
    && s.Event? && s.event.pipeKey == Some(key) && IsWatchedPipe(watched, s.event.pipeKey)
    && s.event.eventName.Some? && (Opening(s.event.eventName.value) || Terminal(s.event.eventName.value))
  }

  /** A watched event that says what the pipe holds. */
  predicate Reports(watched: set<Principal>, s: ChainStep, ref: PipeRef) {
    && s.Event? && s.event.pipeKey == Some(ref.pipeId) && s.event.contractId == ref.contractId
    && IsWatchedPipe(watched, s.event.pipeKey)
    && s.event.eventName.Some? && (s.event.pipe.Some? || Terminal(s.event.eventName.value))
  }

  /** The closure row of a pipe id is the one opened by its last deciding event, and there is none if
      that event was terminal. */
  lemma {:induction false} ClosureIsLastDecision(
    watched: set<Principal>, w: Watch, log: seq<ChainStep>, i: nat, key: PipeKey)
    requires i < |log| && Decides(watched, log[i], key)
    requires forall j :: i < j < |log| ==> !Decides(watched, log[j], key)
    ensures var closures, e := Fold(watched, w, log).closures, log[i].event;
            if Opening(e.eventName.value) then key in closures && closures[key] == OpenedClosure(e, log[i].now)
            else key !in closures
    decreases |log|
  {
    if i < |log| - 1 {
      ClosureIsLastDecision(watched, w, log[..|log| - 1], i, key);
    }
  }

  lemma {:induction false} UndecidedClosureStays(watched: set<Principal>, w: Watch, log: seq<ChainStep>, key: PipeKey)
    requires forall j :: 0 <= j < |log| ==> !Decides(watched, log[j], key)
    ensures key in Fold(watched, w, log).closures <==> key in w.closures
    ensures key in w.closures ==> Fold(watched, w, log).closures[key] == w.closures[key]
  {
    if log != [] {
      UndecidedClosureStays(watched, w, log[..|log| - 1], key);
    }
  }

  /** A closure row exists exactly when some opening event is followed by no deciding event. */
  lemma {:induction false} ClosureExistsIff(watched: set<Principal>, log: seq<ChainStep>, key: PipeKey)
    ensures key in Fold(watched, Watch(map[], map[]), log).closures
       <==> exists i :: 0 <= i < |log| && Decides(watched, log[i], key) && Opening(log[i].event.eventName.value)
                        && forall j :: i < j < |log| ==> !Decides(watched, log[j], key)
  {
    if i :| LastIs(watched, log, i, key) {
      ClosureIsLastDecision(watched, Watch(map[], map[]), log, i, key);
      assert forall k :: 0 <= k < |log| && k != i && Decides(watched, log[k], key) ==> k < i;
    } else {
      NoLastMeansNone(watched, log, |log|, key);
      UndecidedClosureStays(watched, Watch(map[], map[]), log, key);
    }
  }

  ghost predicate LastIs(watched: set<Principal>, log: seq<ChainStep>, i: int, key: PipeKey) {
    0 <= i < |log| && Decides(watched, log[i], key) && forall j :: i < j < |log| ==> !Decides(watched, log[j], key)
  }

  lemma {:induction false} NoLastMeansNone(watched: set<Principal>, log: seq<ChainStep>, n: nat, key: PipeKey)
    requires n <= |log| && !exists i :: LastIs(watched, log, i, key)
    requires forall j :: n <= j < |log| ==> !Decides(watched, log[j], key)
    ensures forall j :: 0 <= j < |log| ==> !Decides(watched, log[j], key)
    decreases n
  {
    if n > 0 {
      assert !LastIs(watched, log, n - 1, key);
      NoLastMeansNone(watched, log, n - 1, key);
    }
  }

  /** The burn blocks of a log, in order. */
  function Blocks(log: seq<ChainStep>): seq<BurnBlock> {
    if log == [] then []
    else
      var earlier, last := Blocks(log[..|log| - 1]), log[|log| - 1];
      if last.Burn? then earlier + [last.block] else earlier
  }

  function Reported(s: ChainStep): ObservedPipe
    requires s.Event? && s.event.pipeKey.Some? && s.event.eventName.Some?
    requires s.event.pipe.Some? || Terminal(s.event.eventName.value)
  {
    if Terminal(s.event.eventName.value) then SettledRecord(s.event, s.now) else SnapshotRecord(s.event, s.now)
  }

  /** An observed pipe is its last report, settled by exactly the burn blocks that came after it. */
  lemma {:induction false} ObservedIsLastReportSettled(
    watched: set<Principal>, w: Watch, log: seq<ChainStep>, i: nat, ref: PipeRef)
    requires i < |log| && Reports(watched, log[i], ref)
    requires forall j :: i < j < |log| ==> !Reports(watched, log[j], ref)
    ensures var observed := Fold(watched, w, log).observed;
            ref in observed && observed[ref] == SettleRun(Reported(log[i]), Blocks(log[i + 1..]))
    decreases |log|
  {
    if i == |log| - 1 {
      assert log[i + 1..] == [];
    } else {
      var earlier := log[..|log| - 1];
      ObservedIsLastReportSettled(watched, w, earlier, i, ref);
      var since := log[i + 1..];
      assert since[..|since| - 1] == earlier[i + 1..];
      if log[|log| - 1].Burn? {
        var blocks := Blocks(since);
        assert blocks[..|blocks| - 1] == Blocks(earlier[i + 1..]);
      }
    }
  }

  /** After a terminal event a pipe stays empty through any further burn blocks, until its next report. */
  lemma {:induction false} TerminalPipeStaysEmpty(watched: set<Principal>, w: Watch, log: seq<ChainStep>, i: nat,
      ref: PipeRef)
    requires i < |log| && Reports(watched, log[i], ref) && Terminal(log[i].event.eventName.value)
    requires forall j :: i < j < |log| ==> !Reports(watched, log[j], ref)
    ensures var observed := Fold(watched, w, log).observed;
            && ref in observed && observed[ref].balance1 == Some(0) && observed[ref].balance2 == Some(0)
            && observed[ref].pending1 == NOTHING_PENDING && observed[ref].pending2 == NOTHING_PENDING
  {
    ObservedIsLastReportSettled(watched, w, log, i, ref);
    EmptyStaysEmpty(Reported(log[i]), Blocks(log[i + 1..]));
  }

  lemma {:induction false} EmptyStaysEmpty(p: ObservedPipe, blocks: seq<BurnBlock>)
    requires p.pending1 == NOTHING_PENDING && p.pending2 == NOTHING_PENDING
    ensures SettleRun(p, blocks) == p
  {
    if blocks != [] {
      EmptyStaysEmpty(p, blocks[..|blocks| - 1]);
    }
  }
}
