/** What one closure event does to the agent's tables, and what passes over many events keep:
    `packages/stackflow-agent/src/utils.js`, the closure table of `db.js`, `evaluateClosureForDispute` and
    `disputeClosure` of `agent-service.js`, and the loops of `watcher.js`. */
module ClosureWatch {
  import opened Wrappers
  import opened Octets
  import opened Principals
  import opened NodeTypes
  import opened AgentTypes
  import opened AgentTransfer

  // ---------- Events ----------

  /** An event as it is listed; absent or malformed fields are `None`. */
  datatype RawClosure = RawClosure(
    eventName: Option<EventName>, contractId: Option<ContractId>, pipeKey: Option<PipeKey>,
    nonce: Option<nat>, pipeNonce: Option<nat>, closer: Option<Principal>, txid: Option<Txid>,
    blockHeight: Option<nat>, expiresAt: Option<nat>, closureMyBalance: Option<nat>)

  datatype ClosureEvent = ClosureEvent(
    contractId: ContractId, pipeKey: PipeKey, eventName: EventName, nonce: nat, closer: Principal, txid: Txid,
    blockHeight: nat, expiresAt: nat, closureMyBalance: Option<nat>)

  /** `normalizeClosureEvent`; `None` where it throws. */
  function NormalizeClosureEvent(r: RawClosure): Option<ClosureEvent> {
    if r.eventName.None? || !Opening(r.eventName.value) || r.contractId.None? || r.pipeKey.None? || r.closer.None?
       || r.txid.None? || r.blockHeight.None? || r.expiresAt.None? then None
    else
      var nonce := if r.nonce.Some? then r.nonce.value else r.pipeNonce.GetOr(0);
      Some(ClosureEvent(r.contractId.value, r.pipeKey.value, r.eventName.value, nonce, r.closer.value,
                        r.txid.value, r.blockHeight.value, r.expiresAt.value, r.closureMyBalance))
  }

  /** What the chain says about a tracked pipe when it is read directly. */
  datatype PipeState = PipeState(
    closer: Option<Principal>, nonce: Option<nat>, expiresAt: Option<nat>, balance1: Option<nat>, balance2: Option<nat>,
    event: Option<EventName>, blockHeight: Option<nat>, txid: Option<Txid>)

  /** The id made up for a state without a txid: it spells pipe, nonce and closer. */
  type Naming = (PipeRef, nat, Principal) -> Txid

  /** `toClosureFromPipeState`. */
  function ToClosure(naming: Naming, t: TrackedPipe, p: PipeState): Option<RawClosure> {
    if p.closer.None? || p.nonce.None? || p.expiresAt.None? || p.balance1.None? || p.balance2.None? then None
    else Some(RawClosure(
                Some(if p.event.Some? && Opening(p.event.value) then p.event.value else ForceClose),
                Some(t.contractId), Some(t.pipeKey), p.nonce, None, p.closer,
                Some(if p.txid.Some? then p.txid.value
                     else naming(BuildPipeId(t.contractId, t.pipeKey), p.nonce.value, p.closer.value)),
                Some(p.blockHeight.GetOr(0)), p.expiresAt,
                if t.pipeKey.principal1 == t.localPrincipal then p.balance1 else p.balance2))
  }

  /** A closure read from the chain is always well formed, about the tracked pipe, and carries the balance
      that the state gives the local principal. */
  lemma ReadClosureIsWellFormed(naming: Naming, t: TrackedPipe, p: PipeState)
    requires ToClosure(naming, t, p).Some?
    ensures var c := NormalizeClosureEvent(ToClosure(naming, t, p).value);
            && c.Some? && BuildPipeId(c.value.contractId, c.value.pipeKey) == BuildPipeId(t.contractId, t.pipeKey)
            && c.value.closer == p.closer.value && c.value.nonce == p.nonce.value
            && c.value.closureMyBalance == if t.localPrincipal == t.pipeKey.principal1 then p.balance1 else p.balance2
  {
  }

  // ---------- Whether to dispute ----------

  function IsDisputeBeneficial(c: ClosureEvent, s: AgentState, onlyBeneficial: bool): bool {
    if s.nonce <= c.nonce then false
    else if !onlyBeneficial && !s.beneficialOnly then true
    else if c.closer == s.forPrincipal then false
    else if c.eventName.ForceCancel? then s.myBalance > 0
    else if c.closureMyBalance.None? then true
    else s.myBalance > c.closureMyBalance.value
  }

  /** `evaluateClosureForDispute`. */
  function ShouldDispute(tracked: TrackedPipes, states: AgentStates, onlyBeneficial: bool, c: ClosureEvent): bool {
    var pipeId := BuildPipeId(c.contractId, c.pipeKey);
    && pipeId in tracked
    && var ref := StateRef(pipeId, tracked[pipeId].localPrincipal);
    && ref in states
    && IsDisputeBeneficial(c, states[ref], onlyBeneficial)
  }

  /** A worthwhile dispute stays worthwhile while the agent accepts further transfers, whatever payloads
      arrive, unless one of them asks for the beneficial policy that did not apply before. */
  lemma WorthwhileDisputesStay(
    a: Agent, onlyBeneficial: bool, c: ClosureEvent, payloads: seq<Payload>, mySignatures: seq<Bytes>, now: int)
    requires |mySignatures| == |payloads|
    requires ShouldDispute(a.tracked, a.states, onlyBeneficial, c)
    ensures var b, pipeId := AcceptAll(a, BuildPipeId(c.contractId, c.pipeKey), payloads, mySignatures, now),
                             BuildPipeId(c.contractId, c.pipeKey);
            && pipeId == BuildPipeId(a.tracked[pipeId].contractId, a.tracked[pipeId].pipeKey) ==>
                 && HasState(b, pipeId)
                 && (onlyBeneficial || Latest(a, pipeId).beneficialOnly || !Latest(b, pipeId).beneficialOnly
                     ==> ShouldDispute(b.tracked, b.states, onlyBeneficial, c))
  {
    var pipeId := BuildPipeId(c.contractId, c.pipeKey);
    if pipeId == BuildPipeId(a.tracked[pipeId].contractId, a.tracked[pipeId].pipeKey) {
      var accepted := AcceptingNeverLoses(a, pipeId, payloads, mySignatures, now);
      AcceptingKeepsOwner(a, pipeId, payloads, mySignatures, now);
    }
  }

  lemma {:induction false} AcceptingKeepsOwner(
    a: Agent, pipeId: PipeRef, payloads: seq<Payload>, mySignatures: seq<Bytes>, now: int)
    requires HasState(a, pipeId) && |mySignatures| == |payloads|
    requires pipeId == BuildPipeId(a.tracked[pipeId].contractId, a.tracked[pipeId].pipeKey)
    ensures var b := AcceptAll(a, pipeId, payloads, mySignatures, now);
            b.tracked == a.tracked && HasState(b, pipeId)
            && Latest(b, pipeId).forPrincipal == Latest(a, pipeId).forPrincipal
  {
    if payloads != [] {
      AcceptingKeepsOwner(a, pipeId, payloads[..|payloads| - 1], mySignatures[..|payloads| - 1], now);
    }
  }

  // ---------- One event ----------

  datatype ClosureRow = ClosureRow(event: ClosureEvent, disputeTxid: Option<Txid>, disputed: bool)
  type ClosureRows = map<Txid, ClosureRow>

  /** `recordClosure`: a known txid only gets its balance refreshed. */
  function Recorded(rows: ClosureRows, c: ClosureEvent): ClosureRows {
    if c.txid in rows
    then rows[c.txid := rows[c.txid].(event := rows[c.txid].event.(closureMyBalance := c.closureMyBalance))]
    else rows[c.txid := ClosureRow(c, None, false)]
  }

  function MarkedDisputed(rows: ClosureRows, txid: Txid, disputeTxid: Txid): ClosureRows {
    if txid in rows then rows[txid := rows[txid].(disputed := true, disputeTxid := Some(disputeTxid))] else rows
  }

  /** The wallet's answer to a submission: a txid, no txid, or an exception. */
  datatype WalletReply = WithTxid(txid: Txid) | WithoutTxid | Throws

  /** The tracked pipes and states at the moment an event is decided (other handlers may have changed them
      during the awaits of the pass), and the wallet's answer if it is asked. */
  datatype Moment = Moment(tracked: TrackedPipes, states: AgentStates, reply: WalletReply)

  datatype Outcome = Invalid | AlreadyDisputed | NotSubmitted | Submission(txid: Txid, disputeTxid: Option<Txid>)
      | DisputeError

  function HandleClosure(onlyBeneficial: bool, rows: ClosureRows, raw: RawClosure, m: Moment): (ClosureRows, Outcome) {
    match NormalizeClosureEvent(raw)
    case None => (rows, Invalid)
    case Some(c) =>
      var recorded := Recorded(rows, c);
      if c.txid in rows && rows[c.txid].disputed then (recorded, AlreadyDisputed)
      else if !ShouldDispute(m.tracked, m.states, onlyBeneficial, c) then (recorded, NotSubmitted)
      else match m.reply
        case Throws => (recorded, DisputeError)
        case WithoutTxid => (recorded, Submission(c.txid, None))
        case WithTxid(d) => (MarkedDisputed(recorded, c.txid, d), Submission(c.txid, Some(d)))
  }

  // ---------- Passes ----------

  datatype Item = Item(raw: RawClosure, moment: Moment)

  /** A pass over listed events moves the cursor; a pass over the tracked pipes does not. */
  datatype Pass = EventsPass(items: seq<Item>) | PipesPass(items: seq<Item>) | ListingFailed

  datatype Watcher = Watcher(rows: ClosureRows, cursor: nat, outcomes: seq<Outcome>)

  /** What reading one tracked pipe gave; a failed read gives no state. */
  datatype PipeRead = PipeRead(tracked: TrackedPipe, state: Option<PipeState>, moment: Moment)

  /** What the chain says about a pipe, and the moment at which a closure found there is decided. */
  datatype PipeAnswer = PipeAnswer(state: Option<PipeState>, moment: Moment)

  function ReadPipes(pipes: seq<TrackedPipe>, answers: nat -> PipeAnswer): seq<PipeRead> {
    seq(|pipes|, i requires 0 <= i < |pipes| => PipeRead(pipes[i], answers(i).state, answers(i).moment))
  }

  /** All tracked pipes, each once: row `i` is stored under key `i`. */
  ghost predicate ListsTracked(pipes: seq<TrackedPipe>, keys: seq<PipeRef>, tracked: TrackedPipes) {
    && |pipes| == |keys| && (forall k :: k in keys <==> k in tracked)
    && (forall i :: 0 <= i < |keys| ==> keys[i] in tracked && pipes[i] == tracked[keys[i]])
    && (forall i, j :: 0 <= i < j < |keys| ==> keys[i] != keys[j])
  }

  /** The closure found in one pipe, if it is closing and could be read. */
  function Found(naming: Naming, read: PipeRead): Option<Item> {
    if read.state.None? then None
    else
      var raw := ToClosure(naming, read.tracked, read.state.value);
      if raw.None? then None else Some(Item(raw.value, read.moment))
  }

  /** The closures that a pass over the tracked pipes finds, in order. */
  function FoundItems(naming: Naming, answers: seq<PipeRead>): seq<Item> {
    if answers == [] then []
    else
      var earlier, found := FoundItems(naming, answers[..|answers| - 1]), Found(naming, answers[|answers| - 1]);
      if found.Some? then earlier + [found.value] else earlier
  }

  function HandleAll(onlyBeneficial: bool, rows: ClosureRows, items: seq<Item>): (ClosureRows, seq<Outcome>) {
    if items == [] then (rows, [])
    else
      var (before, outcomes) := HandleAll(onlyBeneficial, rows, items[..|items| - 1]);
      var (after, outcome) := HandleClosure(onlyBeneficial, before, items[|items| - 1].raw, items[|items| - 1].moment);
      (after, outcomes + [outcome])
  }

  /** One more pipe of a pass. */
  lemma OneMorePipe(onlyBeneficial: bool, naming: Naming, rows: ClosureRows, answers: seq<PipeRead>, read: PipeRead)
    ensures var (before, outcomes) := HandleAll(onlyBeneficial, rows, FoundItems(naming, answers));
            HandleAll(onlyBeneficial, rows, FoundItems(naming, answers + [read]))
            == match Found(naming, read)
               case None => (before, outcomes)
               case Some(item) =>
                 var (after, outcome) := HandleClosure(onlyBeneficial, before, item.raw, item.moment);
                 (after, outcomes + [outcome])
  {
    assert (answers + [read])[..|answers|] == answers;
    var items, found := FoundItems(naming, answers), Found(naming, read);
    if found.Some? {
      assert (items + [found.value])[..|items|] == items;
    }
  }

  /** The highest block of the well-formed events, starting from the cursor. */
  function HighestBlock(cursor: nat, items: seq<Item>): nat {
    if items == [] then cursor
    else
      var rest, c := HighestBlock(cursor, items[..|items| - 1]), NormalizeClosureEvent(items[|items| - 1].raw);
      if c.Some? && c.value.blockHeight > rest then c.value.blockHeight else rest
  }

  function RunPass(onlyBeneficial: bool, w: Watcher, p: Pass): Watcher {
    match p
    case ListingFailed => w
    case PipesPass(items) =>
      var (rows, outcomes) := HandleAll(onlyBeneficial, w.rows, items);
      w.(rows := rows, outcomes := w.outcomes + outcomes)
    case EventsPass(items) =>
      var (rows, outcomes) := HandleAll(onlyBeneficial, w.rows, items);
      Watcher(rows, if DisputeError in outcomes then w.cursor else HighestBlock(w.cursor, items), w.outcomes + outcomes)
  }

  function RunPasses(onlyBeneficial: bool, w: Watcher, passes: seq<Pass>): Watcher {
    if passes == [] then w
    else RunPass(onlyBeneficial, RunPasses(onlyBeneficial, w, passes[..|passes| - 1]), passes[|passes| - 1])
  }

  // ---------- At most one dispute per closure ----------

  predicate Disputed(rows: ClosureRows, txid: Txid) { txid in rows && rows[txid].disputed }

  /** Rows stay, and a disputed mark never clears. */
  ghost predicate MarksStay(before: ClosureRows, after: ClosureRows) {
    forall t :: t in before ==>
      t in after && (before[t].disputed ==> after[t].disputed && after[t].disputeTxid == before[t].disputeTxid)
  }

  predicate Successful(o: Outcome) { o.Submission? && o.disputeTxid.Some? }

  /** Successful submissions are for closures that were not disputed at the start, are disputed now, and
      no two of them are for the same closure. */
  ghost predicate OncePerClosure(start: ClosureRows, rows: ClosureRows, outcomes: seq<Outcome>) {
    && MarksStay(start, rows)
    && (forall i :: 0 <= i < |outcomes| && Successful(outcomes[i]) ==>
          Disputed(rows, outcomes[i].txid) && !Disputed(start, outcomes[i].txid))
    && (forall i, j :: 0 <= i < j < |outcomes| && Successful(outcomes[i]) && Successful(outcomes[j]) ==>
          outcomes[i].txid != outcomes[j].txid)
  }

  lemma OneMoreClosure(onlyBeneficial: bool, start: ClosureRows, rows: ClosureRows, outcomes: seq<Outcome>, item: Item)
    requires OncePerClosure(start, rows, outcomes)
    ensures var (after, outcome) := HandleClosure(onlyBeneficial, rows, item.raw, item.moment);
            OncePerClosure(start, after, outcomes + [outcome]) && MarksStay(rows, after)
  {
  }

  lemma {:induction false} OncePerClosureInPass(
    onlyBeneficial: bool, start: ClosureRows, rows: ClosureRows, outcomes: seq<Outcome>, items: seq<Item>)
    requires OncePerClosure(start, rows, outcomes)
    ensures var (after, more) := HandleAll(onlyBeneficial, rows, items);
            OncePerClosure(start, after, outcomes + more) && MarksStay(rows, after)
  {
    if items == [] {
      assert outcomes + [] == outcomes;
    } else {
      var (before, some) := HandleAll(onlyBeneficial, rows, items[..|items| - 1]);
      OncePerClosureInPass(onlyBeneficial, start, rows, outcomes, items[..|items| - 1]);
      OneMoreClosure(onlyBeneficial, start, before, outcomes + some, items[|items| - 1]);
      var (_, last) := HandleClosure(onlyBeneficial, before, items[|items| - 1].raw, items[|items| - 1].moment);
      assert outcomes + (some + [last]) == outcomes + some + [last];
    }
  }

  /** Over any sequence of passes each closure gets at most one submission that returned a txid, and
      disputed marks never clear. */
  lemma {:induction false} DisputedAtMostOnce(onlyBeneficial: bool, w: Watcher, passes: seq<Pass>)
    requires w.outcomes == []
    ensures var after := RunPasses(onlyBeneficial, w, passes); OncePerClosure(w.rows, after.rows, after.outcomes)
  {
    if passes != [] {
      var before, p := RunPasses(onlyBeneficial, w, passes[..|passes| - 1]), passes[|passes| - 1];
      DisputedAtMostOnce(onlyBeneficial, w, passes[..|passes| - 1]);
      if !p.ListingFailed? {
        OncePerClosureInPass(onlyBeneficial, w.rows, before.rows, before.outcomes, p.items);
      }
    }
  }

  /** The made-up text tells pipes, nonces and closers apart. */
  ghost predicate Injective(naming: Naming) {
    forall p, n, c, q, m, d :: naming(p, n, c) == naming(q, m, d) ==> p == q && n == m && c == d
  }

  /** A made-up id outlives its closure. Once a closure without a txid has been disputed, a later one without
      a txid is skipped, however worthwhile a dispute is, when it has the same pipe, nonce and closer; on
      tables with no other disputed closure, only then. */
  lemma LaterClosureIsSkippedIff(
    onlyBeneficial: bool, naming: Naming, rows: ClosureRows, t: TrackedPipe, first: PipeState,
    u: TrackedPipe, later: PipeState, m: Moment, n: Moment)
    requires ToClosure(naming, t, first).Some? && ToClosure(naming, u, later).Some?
    requires first.txid.None? && later.txid.None?
    requires Successful(HandleClosure(onlyBeneficial, rows, ToClosure(naming, t, first).value, m).1)
    ensures var after := HandleClosure(onlyBeneficial, rows, ToClosure(naming, t, first).value, m).0;
            var skipped := HandleClosure(onlyBeneficial, after, ToClosure(naming, u, later).value, n).1 ==
                AlreadyDisputed;
            var same := BuildPipeId(u.contractId, u.pipeKey) == BuildPipeId(t.contractId, t.pipeKey)
                        && later.nonce == first.nonce && later.closer == first.closer;
            && (same ==> skipped)
            && (Injective(naming) && (forall x :: x in rows ==> !rows[x].disputed) ==> (skipped <==> same))
  {
  }

  // ---------- The cursor ----------

  /** Recorded, and decided without error: disputed, submitted, or found not worth a dispute. */
  predicate DecidedWithoutError(rows: ClosureRows, raw: RawClosure, o: Outcome) {
    NormalizeClosureEvent(raw).Some? ==>
      NormalizeClosureEvent(raw).value.txid in rows && (o.AlreadyDisputed? || o.NotSubmitted? || o.Submission?)
  }

  ghost predicate AllDecided(rows: ClosureRows, items: seq<Item>, outcomes: seq<Outcome>) {
    |outcomes| == |items| && forall i :: 0 <= i < |items| ==> DecidedWithoutError(rows, items[i].raw, outcomes[i])
  }

  lemma {:induction false} PassRecordsAndDecides(onlyBeneficial: bool, rows: ClosureRows, items: seq<Item>)
    ensures var (after, outcomes) := HandleAll(onlyBeneficial, rows, items);
            && |outcomes| == |items|
            && (forall t :: t in rows ==> t in after)
            && (DisputeError !in outcomes ==> AllDecided(after, items, outcomes))
  {
    if items != [] {
      PassRecordsAndDecides(onlyBeneficial, rows, items[..|items| - 1]);
      var (before, some) := HandleAll(onlyBeneficial, rows, items[..|items| - 1]);
      var (_, last) := HandleClosure(onlyBeneficial, before, items[|items| - 1].raw, items[|items| - 1].moment);
      assert forall o :: o in some + [last] <==> o in some || o == last;
    }
  }

  lemma {:induction false} HighestBlockBounds(cursor: nat, items: seq<Item>)
    ensures cursor <= HighestBlock(cursor, items)
    ensures forall i :: 0 <= i < |items| && NormalizeClosureEvent(items[i].raw).Some? ==>
              NormalizeClosureEvent(items[i].raw).value.blockHeight <= HighestBlock(cursor, items)
    ensures HighestBlock(cursor, items) == cursor
            || exists i :: 0 <= i < |items| && NormalizeClosureEvent(items[i].raw).Some?
                           && NormalizeClosureEvent(items[i].raw).value.blockHeight == HighestBlock(cursor, items)
  {
    if items != [] {
      HighestBlockBounds(cursor, items[..|items| - 1]);
    }
  }

  /** A pass never moves the cursor back, moves it only when every well-formed listed event was recorded
      and decided without error, and then exactly to the highest block of a listed event. */
  lemma CursorMovesOnlyAfterDeciding(onlyBeneficial: bool, w: Watcher, p: Pass)
    ensures var after := RunPass(onlyBeneficial, w, p);
            && w.cursor <= after.cursor
            && (after.cursor != w.cursor ==>
                  && p.EventsPass?
                  && AllDecided(after.rows, p.items, HandleAll(onlyBeneficial, w.rows, p.items).1)
                  && exists i :: 0 <= i < |p.items| && NormalizeClosureEvent(p.items[i].raw).Some?
                                 && NormalizeClosureEvent(p.items[i].raw).value.blockHeight == after.cursor)
  {
    if p.EventsPass? {
      HighestBlockBounds(w.cursor, p.items);
    }
    if !p.ListingFailed? {
      PassRecordsAndDecides(onlyBeneficial, w.rows, p.items);
    }
  }

  lemma {:induction false} CursorNeverMovesBack(onlyBeneficial: bool, w: Watcher, passes: seq<Pass>)
    ensures w.cursor <= RunPasses(onlyBeneficial, w, passes).cursor
  {
    if passes != [] {
      CursorNeverMovesBack(onlyBeneficial, w, passes[..|passes| - 1]);
      CursorMovesOnlyAfterDeciding(onlyBeneficial, RunPasses(onlyBeneficial, w, passes[..|passes| - 1]),
          passes[|passes| - 1]);
    }
  }
}
