/** The authoritative pipe list: `mergeAuthoritativePipes` and its helpers in `server/src/index.ts`, and
    its agreement with the baseline of the signing policy. */
module MergedPipes {
  import opened Wrappers
  import opened Octets
  import opened Principals
  import opened NodeTypes
  import opened Signing

  /** A record of the list has the fields of an observed pipe and says where it comes from. */
  datatype MergedPipe = MergedPipe(record: ObservedPipe, source: Source)

  function RefOfMerged(m: MergedPipe): PipeRef { PipeRef(m.record.contractId, m.record.pipeKey) }

  function NonceValue(nonce: Option<nat>): int { if nonce.Some? then nonce.value else -1 }

  predicate ShouldReplacePipe(existing: MergedPipe, incoming: MergedPipe) {
    var e, i := NonceValue(existing.record.nonce), NonceValue(incoming.record.nonce);
    if i != e then i > e
    else if incoming.record.updatedAt != existing.record.updatedAt then
        incoming.record.updatedAt > existing.record.updatedAt
    else existing.source != incoming.source && incoming.source == OnChain
  }

  predicate Concerns(principal: Option<Principal>, key: PipeKey) {
    principal.None? || key.principal1 == principal.value || key.principal2 == principal.value
  }

  function FromObserved(o: ObservedPipe): MergedPipe { MergedPipe(o, OnChain) }

  /** A signature state as a pipe record: its balances laid out by the canonical key. */
  function FromSignature(s: SignatureState): MergedPipe {
    var signerFirst := s.pipeId.principal1 == s.input.forPrincipal;
    MergedPipe(
      ObservedPipe(
        s.input.contractId, s.pipeId,
        Some(if signerFirst then s.input.myBalance else s.input.theirBalance),
        Some(if signerFirst then s.input.theirBalance else s.input.myBalance),
        NOTHING_PENDING, NOTHING_PENDING, None, Some(s.input.nonce), None, OtherEvent("signature-state"),
        None, None, s.updatedAt),
      FromState)
  }

  // ---------- Candidates ----------

  /** What the rows of the two lists say about the pipes that concern `principal`. */
  ghost function Candidates(observed: seq<ObservedPipe>, states: seq<SignatureState>, principal: Option<Principal>)
    : set<MergedPipe>
  {
    (set o | o in observed && Concerns(principal, o.pipeKey) :: FromObserved(o))
    + (set s | s in states && Concerns(principal, s.pipeId) :: FromSignature(s))
  }

  /** A row is a candidate exactly for the principals on either side of its pipe, and when none is asked for. */
  lemma PrincipalsSeeTheirPipes(observed: seq<ObservedPipe>, states: seq<SignatureState>, principal: Option<Principal>)
    ensures forall o :: o in observed ==>
              (FromObserved(o) in Candidates(observed, states, principal)
               <==> principal in {None, Some(o.pipeKey.principal1), Some(o.pipeKey.principal2)})
    ensures forall s :: s in states ==>
              (FromSignature(s) in Candidates(observed, states, principal)
               <==> principal in {None, Some(s.pipeId.principal1), Some(s.pipeId.principal2)})
    ensures forall c :: c in Candidates(observed, states, principal) ==>
              (c.source == OnChain && c.record in observed) || (exists s :: s in states && c == FromSignature(s))
  {
  }

  /** The view that the owner of a stored state has of it. */
  function ViewOfState(s: SignatureState): View {
    var i := s.input;
    View(i.token, i.forPrincipal, i.withPrincipal, i.myBalance, i.theirBalance, i.nonce, i.action, i.actor, i.secret,
        i.validAfter)
  }

  /** One layout everywhere: the tuple that is signed for a stored state, the record that it becomes in the
      list, and the baseline read back from that record give each principal the same balance. */
  lemma OneLayoutOfBalances(ser: Principal -> Bytes, s: SignatureState)
    requires CanonicalPipeKey(ser, s.input.token, s.input.forPrincipal, s.input.withPrincipal) == Ok(s.pipeId)
    ensures var tuple, record := BuildSignedTuple(ser, ViewOfState(s)), FromSignature(s).record;
            && tuple.Ok?
            && tuple.value.principal1 == s.pipeId.principal1 && tuple.value.principal2 == s.pipeId.principal2
            && record.balance1 == Some(tuple.value.balance1) && record.balance2 == Some(tuple.value.balance2)
            && record.nonce == Some(tuple.value.nonce)
            && (s.input.forPrincipal == tuple.value.principal1 ==> tuple.value.balance1 == s.input.myBalance)
            && (s.input.forPrincipal == tuple.value.principal2 ==> tuple.value.balance2 == s.input.myBalance)
            && ObservedBaseline(record, s.input.forPrincipal).Some?
            && ObservedBaseline(record, s.input.forPrincipal).value.myBalance == s.input.myBalance
            && ObservedBaseline(record, s.input.forPrincipal).value.theirBalance == s.input.theirBalance
  {
  }

  /** No two observed rows describe the same pipe. */
  ghost predicate OnePerPipe(observed: seq<ObservedPipe>) {
    forall i, j :: 0 <= i < j < |observed| ==>
      RefOfObserved(observed[i]) != RefOfObserved(observed[j])
  }

  /** One best candidate for every pipe that has any. */
  ghost predicate BestRecords(records: map<PipeRef, MergedPipe>, candidates: set<MergedPipe>) {
    && (forall ref :: ref in records ==> RefOfMerged(records[ref]) == ref && records[ref] in candidates)
    && (forall c :: c in candidates ==> RefOfMerged(c) in records && !ShouldReplacePipe(records[RefOfMerged(c)], c))
  }

  function WithCandidate(records: map<PipeRef, MergedPipe>, c: MergedPipe): map<PipeRef, MergedPipe> {
    if RefOfMerged(c) !in records || ShouldReplacePipe(records[RefOfMerged(c)], c)
    then records[RefOfMerged(c) := c] else records
  }

  lemma CandidateAdded(records: map<PipeRef, MergedPipe>, candidates: set<MergedPipe>, c: MergedPipe)
    requires BestRecords(records, candidates)
    ensures BestRecords(WithCandidate(records, c), candidates + {c})
  {
  }

  lemma MoreCandidates(observed: seq<ObservedPipe>, states: seq<SignatureState>, principal: Option<Principal>)
    ensures forall o :: Candidates(observed + [o], states, principal)
              == Candidates(observed, states, principal)
                 + if Concerns(principal, o.pipeKey) then {FromObserved(o)} else {}
    ensures forall s :: Candidates(observed, states + [s], principal)
              == Candidates(observed, states, principal)
                 + if Concerns(principal, s.pipeId) then {FromSignature(s)} else {}
  {
  }

  /** A pipe observed for the first time has no record yet. */
  lemma NotRecordedYet(
    records: map<PipeRef, MergedPipe>, observed: seq<ObservedPipe>, i: nat, principal: Option<Principal>)
    requires OnePerPipe(observed) && i < |observed|
    requires BestRecords(records, Candidates(observed[..i], [], principal))
    ensures RefOfMerged(FromObserved(observed[i])) !in records
  {
  }

  // ---------- The sorted list ----------

  /** Collation weights of state ids, as the locale comparison orders them. */
  type Collation = PipeRef -> int

  predicate StandsBefore(collate: Collation, a: MergedPipe, b: MergedPipe) {
    var m, n := NonceValue(a.record.nonce), NonceValue(b.record.nonce);
    m > n || (m == n && (a.record.updatedAt > b.record.updatedAt
                         || (a.record.updatedAt == b.record.updatedAt &&
                              collate(RefOfMerged(a)) <= collate(RefOfMerged(b)))))
  }

  ghost predicate Ordered(collate: Collation, s: seq<MergedPipe>) {
    forall i, j :: 0 <= i < j < |s| ==> StandsBefore(collate, s[i], s[j])
  }

  ghost predicate DistinctPipes(s: seq<MergedPipe>) {
    forall i, j :: 0 <= i < j < |s| ==> RefOfMerged(s[i]) != RefOfMerged(s[j])
  }

  lemma StandsBeforeIsTotal(collate: Collation, a: MergedPipe, b: MergedPipe, c: MergedPipe)
    ensures StandsBefore(collate, a, b) || StandsBefore(collate, b, a)
    ensures StandsBefore(collate, a, b) && StandsBefore(collate, b, c) ==> StandsBefore(collate, a, c)
  {
  }

  lemma InsertionIsOrdered(collate: Collation, m: MergedPipe, s: seq<MergedPipe>, i: nat)
    requires Ordered(collate, s) && i <= |s|
    requires forall j :: 0 <= j < i ==> StandsBefore(collate, s[j], m)
    requires i < |s| ==> !StandsBefore(collate, s[i], m)
    ensures Ordered(collate, s[..i] + [m] + s[i..])
  {
    forall k | i <= k < |s| ensures StandsBefore(collate, m, s[k]) {
      StandsBeforeIsTotal(collate, m, s[i], s[k]);
    }
  }

  /** `m` put at its place in a sorted list that has no record of its pipe. */
  method InsertMerged(collate: Collation, m: MergedPipe, s: seq<MergedPipe>) returns (r: seq<MergedPipe>)
    requires Ordered(collate, s) && DistinctPipes(s)
    requires forall x :: x in s ==> RefOfMerged(x) != RefOfMerged(m)
    ensures Ordered(collate, r) && DistinctPipes(r)
    ensures forall x :: x in r <==> x in s || x == m
  {
    var i := 0;
    while i < |s| && StandsBefore(collate, s[i], m)
      invariant 0 <= i <= |s|
      invariant forall j :: 0 <= j < i ==> StandsBefore(collate, s[j], m)
    {
      i := i + 1;
    }
    InsertionIsOrdered(collate, m, s, i);
    r := s[..i] + [m] + s[i..];
    assert s == s[..i] + s[i..];
  }

  method SortRecords(collate: Collation, records: map<PipeRef, MergedPipe>) returns (sorted: seq<MergedPipe>)
    requires forall ref :: ref in records ==> RefOfMerged(records[ref]) == ref
    ensures Ordered(collate, sorted) && DistinctPipes(sorted)
    ensures forall m :: m in sorted <==> RefOfMerged(m) in records && records[RefOfMerged(m)] == m
  {
    sorted := [];
    var todo := records.Keys;
    while todo != {}
      invariant todo <= records.Keys && Ordered(collate, sorted) && DistinctPipes(sorted)
      invariant forall m :: m in sorted <==> RefOfMerged(m) in records.Keys - todo && records[RefOfMerged(m)] == m
      decreases |todo|
    {
      var ref :| ref in todo;
      sorted := InsertMerged(collate, records[ref], sorted);
      todo := todo - {ref};
    }
  }

  /** `m` is a best candidate of its pipe. */
  ghost predicate IsBest(candidates: set<MergedPipe>, m: MergedPipe) {
    m in candidates && forall c :: c in candidates && RefOfMerged(c) == RefOfMerged(m) ==> !ShouldReplacePipe(m, c)
  }

  /** The list holds exactly one record per state id, each of them a best candidate, in order. */
  method MergeAuthoritativePipes(
    observed: seq<ObservedPipe>, states: seq<SignatureState>, principal: Option<Principal>, collate: Collation)
    returns (merged: seq<MergedPipe>)
    requires OnePerPipe(observed)
    ensures Ordered(collate, merged) && DistinctPipes(merged)
    ensures forall m :: m in merged ==> IsBest(Candidates(observed, states, principal), m)
    ensures forall c :: c in Candidates(observed, states, principal) ==>
              exists m :: m in merged && RefOfMerged(m) == RefOfMerged(c)
  {
    var records: map<PipeRef, MergedPipe> := map[];
    for i := 0 to |observed|
      invariant BestRecords(records, Candidates(observed[..i], [], principal))
    {
      var o := observed[i];
      assert observed[..i + 1] == observed[..i] + [o];
      MoreCandidates(observed[..i], [], principal);
      if Concerns(principal, o.pipeKey) {
        NotRecordedYet(records, observed, i, principal);
        CandidateAdded(records, Candidates(observed[..i], [], principal), FromObserved(o));
        records := records[RefOfMerged(FromObserved(o)) := FromObserved(o)];
      }
    }
    assert observed[..|observed|] == observed;
    for i := 0 to |states|
      invariant BestRecords(records, Candidates(observed, states[..i], principal))
    {
      var candidate := FromSignature(states[i]);
      assert states[..i + 1] == states[..i] + [states[i]];
      MoreCandidates(observed, states[..i], principal);
      if Concerns(principal, candidate.record.pipeKey) {
        CandidateAdded(records, Candidates(observed, states[..i], principal), candidate);
        var ref := RefOfMerged(candidate);
        if ref !in records || ShouldReplacePipe(records[ref], candidate) {
          records := records[ref := candidate];
        }
      }
    }
    assert states[..|states|] == states;
    merged := SortRecords(collate, records);
    assert forall ref :: ref in records ==> records[ref] in merged;
  }

  // ---------- Agreement with the signing policy ----------

  predicate CompletelyObserved(o: ObservedPipe) { o.nonce.Some? && o.balance1.Some? && o.balance2.Some? }

  /** When what is observed of a pipe is complete and its only stored states belong to `owner`, the merged
      record of the pipe has the nonce and the balances of the baseline that the signing policy uses. */
  lemma MergedRecordIsTheBaseline(
    observed: ObservedPipes, signatures: Signatures, observedPipes: seq<ObservedPipe>, states: seq<SignatureState>,
    principal: Option<Principal>, ref: StateRef, m: MergedPipe)
    requires ListsObserved(observedPipes, observed) && ListsStates(states, signatures)
    requires ref.owner in {ref.pipe.pipeId.principal1, ref.pipe.pipeId.principal2}
    requires ref.pipe in observed ==> CompletelyObserved(observed[ref.pipe])
    requires forall s :: s in states && RefOf(s).pipe == ref.pipe ==> RefOf(s) == ref
    requires IsBest(Candidates(observedPipes, states, principal), m) && RefOfMerged(m) == ref.pipe
    ensures RecordIsBaseline(m, ref, BaselineOf(observed, signatures, ref))
  {
    CandidatesOfOnePipe(observed, signatures, observedPipes, states, principal, ref, m);
    BestOfTwoIsTheBaseline(observed, signatures, ref, m);
  }

  lemma BestOfTwoIsTheBaseline(observed: ObservedPipes, signatures: Signatures, ref: StateRef, m: MergedPipe)
    requires ObservedKeyed(observed) && SignaturesKeyed(signatures)
    requires ref.owner in {ref.pipe.pipeId.principal1, ref.pipe.pipeId.principal2}
    requires ref.pipe in observed ==>
               CompletelyObserved(observed[ref.pipe]) && !ShouldReplacePipe(m, FromObserved(observed[ref.pipe]))
    requires ref in signatures ==> !ShouldReplacePipe(m, FromSignature(signatures[ref]))
    requires (ref.pipe in observed && m == FromObserved(observed[ref.pipe]))
             || (ref in signatures && m == FromSignature(signatures[ref]))
    ensures RecordIsBaseline(m, ref, BaselineOf(observed, signatures, ref))
  {
  }

  predicate RecordIsBaseline(m: MergedPipe, ref: StateRef, baseline: Option<Baseline>) {
    && baseline.Some? && m.record.nonce == Some(baseline.value.nonce) && m.source == baseline.value.source
    && (if ref.pipe.pipeId.principal1 == ref.owner then (m.record.balance1, m.record.balance2)
        else (m.record.balance2, m.record.balance1))
       == (Some(baseline.value.myBalance), Some(baseline.value.theirBalance))
  }

  /** A pipe with one stored owner has at most two candidates. */
  lemma CandidatesOfOnePipe(
    observed: ObservedPipes, signatures: Signatures, observedPipes: seq<ObservedPipe>, states: seq<SignatureState>,
    principal: Option<Principal>, ref: StateRef, m: MergedPipe)
    requires ListsObserved(observedPipes, observed) && ListsStates(states, signatures)
    requires forall s :: s in states && RefOf(s).pipe == ref.pipe ==> RefOf(s) == ref
    requires Concerns(principal, ref.pipe.pipeId) && RefOfMerged(m) == ref.pipe
    ensures m in Candidates(observedPipes, states, principal) <==>
      || (ref.pipe in observed && m == FromObserved(observed[ref.pipe]))
      || (ref in signatures && m == FromSignature(signatures[ref]))
    ensures ref.pipe in observed ==> RefOfMerged(FromObserved(observed[ref.pipe])) == ref.pipe
                                     && FromObserved(observed[ref.pipe]) in Candidates(observedPipes, states, principal)
    ensures ref in signatures ==> RefOfMerged(FromSignature(signatures[ref])) == ref.pipe
                                  && FromSignature(signatures[ref]) in Candidates(observedPipes, states, principal)
  {
  }
}
