/** Where stored signature states come from. In every interleaved run of the node a row is a row of the start,
    or was posted and verified, or was requested, checked, verified, signed and committed in that order. */
module Provenance {
  import opened Wrappers
  import opened Octets
  import opened Principals
  import opened NodeTypes
  import opened Observer
  import opened Signing
  import opened NodeRuns

  // ---------- Requests in flight ----------

  /** Step `i` is the arrival of `request`, which passed the policy at that moment. */
  ghost predicate ArrivedAt(cfg: NodeConfig, n: Node, steps: seq<NodeStep>, id: nat, request: SignatureInput, i: nat) {
    && i < |steps| && steps[i].Arrive? && steps[i].id == id && steps[i].request == request
    && var m := Run(cfg, n, steps[..i]);
    Check(cfg.signing, m.watch.observed, m.signatures, request).None?
  }

  /** After its arrival the verifier called the request `id` valid. */
  ghost predicate VerifiedAt(
    cfg: NodeConfig, n: Node, steps: seq<NodeStep>, id: nat, request: SignatureInput, i: nat, j: nat)
  {
    ArrivedAt(cfg, n, steps, id, request, i) && i < j < |steps| && steps[j] == Verify(id, true)
  }

  /** And then the signer signed it. */
  ghost predicate SignedAt(
    cfg: NodeConfig, n: Node, steps: seq<NodeStep>, id: nat, request: SignatureInput, signature: Bytes,
    i: nat, j: nat, k: nat)
  {
    VerifiedAt(cfg, n, steps, id, request, i, j) && j < k < |steps| && steps[k] == SignMine(id, signature)
  }

  ghost predicate Traced(cfg: NodeConfig, n: Node, steps: seq<NodeStep>, id: nat, f: InFlight) {
    match f.phase
    case Checked => exists i :: ArrivedAt(cfg, n, steps, id, f.request, i)
    case Verified => exists i, j :: VerifiedAt(cfg, n, steps, id, f.request, i, j)
    case HasSignature(s) => exists i, j, k :: SignedAt(cfg, n, steps, id, f.request, s, i, j, k)
  }

  lemma ArrivalLasts(
    cfg: NodeConfig, n: Node, earlier: seq<NodeStep>, s: NodeStep, id: nat, request: SignatureInput, i: nat)
    requires ArrivedAt(cfg, n, earlier, id, request, i)
    ensures ArrivedAt(cfg, n, earlier + [s], id, request, i)
  {
    assert (earlier + [s])[..i] == earlier[..i];
  }

  lemma VerificationLasts(
    cfg: NodeConfig, n: Node, earlier: seq<NodeStep>, s: NodeStep, id: nat, request: SignatureInput, i: nat, j: nat)
    requires VerifiedAt(cfg, n, earlier, id, request, i, j)
    ensures VerifiedAt(cfg, n, earlier + [s], id, request, i, j)
  {
    ArrivalLasts(cfg, n, earlier, s, id, request, i);
  }

  lemma SigningLasts(
    cfg: NodeConfig, n: Node, earlier: seq<NodeStep>, s: NodeStep, id: nat, request: SignatureInput,
    signature: Bytes, i: nat, j: nat, k: nat)
    requires SignedAt(cfg, n, earlier, id, request, signature, i, j, k)
    ensures SignedAt(cfg, n, earlier + [s], id, request, signature, i, j, k)
  {
    VerificationLasts(cfg, n, earlier, s, id, request, i, j);
  }

  lemma TracesLast(cfg: NodeConfig, n: Node, earlier: seq<NodeStep>, s: NodeStep, id: nat, f: InFlight)
    requires Traced(cfg, n, earlier, id, f)
    ensures Traced(cfg, n, earlier + [s], id, f)
  {
    match f.phase
    case Checked =>
      var i: nat :| ArrivedAt(cfg, n, earlier, id, f.request, i);
      ArrivalLasts(cfg, n, earlier, s, id, f.request, i);
    case Verified =>
      var i: nat, j: nat :| VerifiedAt(cfg, n, earlier, id, f.request, i, j);
      VerificationLasts(cfg, n, earlier, s, id, f.request, i, j);
    case HasSignature(x) =>
      var i: nat, j: nat, k: nat :| SignedAt(cfg, n, earlier, id, f.request, x, i, j, k);
      SigningLasts(cfg, n, earlier, s, id, f.request, x, i, j, k);
  }

  /** How a request in flight after a step came about: it was in flight before, has just arrived and passed the
      policy, or moved on by one phase. */
  ghost predicate FlightMoves(cfg: NodeConfig, m: Node, s: NodeStep, id: nat, f: InFlight) {
    || (id in m.inFlight && m.inFlight[id] == f)
    || (s == Arrive(id, f.endpoint, f.request) && f.phase.Checked?
        && Check(cfg.signing, m.watch.observed, m.signatures, f.request).None?)
    || (id in m.inFlight && m.inFlight[id].request == f.request
        && match f.phase
           case Checked => false
           case Verified => m.inFlight[id].phase.Checked? && s == Verify(id, true)
           case HasSignature(x) => m.inFlight[id].phase.Verified? && s == SignMine(id, x))
  }

  lemma FlightAfterStep(cfg: NodeConfig, m: Node, s: NodeStep, id: nat)
    requires id in Step(cfg, m, s).inFlight
    ensures FlightMoves(cfg, m, s, id, Step(cfg, m, s).inFlight[id])
  {
  }

  lemma FlightStaysTraced(cfg: NodeConfig, n: Node, earlier: seq<NodeStep>, s: NodeStep, id: nat, f: InFlight)
    requires FlightMoves(cfg, Run(cfg, n, earlier), s, id, f)
    requires var m := Run(cfg, n, earlier); id in m.inFlight ==> Traced(cfg, n, earlier, id, m.inFlight[id])
    ensures Traced(cfg, n, earlier + [s], id, f)
  {
    var m, at := Run(cfg, n, earlier), |earlier|;
    if id in m.inFlight && m.inFlight[id] == f {
      TracesLast(cfg, n, earlier, s, id, f);
    } else {
      match f.phase
      case Checked =>
        assert (earlier + [s])[..at] == earlier;
        assert ArrivedAt(cfg, n, earlier + [s], id, f.request, at);
      case Verified =>
        var i: nat :| ArrivedAt(cfg, n, earlier, id, f.request, i);
        ArrivalLasts(cfg, n, earlier, s, id, f.request, i);
        assert VerifiedAt(cfg, n, earlier + [s], id, f.request, i, at);
      case HasSignature(x) =>
        var i: nat, j: nat :| VerifiedAt(cfg, n, earlier, id, f.request, i, j);
        VerificationLasts(cfg, n, earlier, s, id, f.request, i, j);
        assert SignedAt(cfg, n, earlier + [s], id, f.request, x, i, j, at);
    }
  }

  // ---------- Rows ----------

  /** Step `i` posted the row, and the verifier's answer was positive. */
  predicate PostedAt(steps: seq<NodeStep>, row: SignatureState, i: nat) {
    i < |steps| && steps[i] == Post(row.input, true, row.updatedAt)
  }

  /** Step `l` committed the row for a request that arrived, was verified and was signed before. */
  ghost predicate CommittedAt(
    cfg: NodeConfig, n: Node, steps: seq<NodeStep>, row: SignatureState, id: nat, request: SignatureInput,
    i: nat, j: nat, k: nat, l: nat)
  {
    && SignedAt(cfg, n, steps, id, request, row.input.mySignature, i, j, k)
    && row.input == request.(mySignature := row.input.mySignature)
    && k < l < |steps| && steps[l] == Commit(id, row.updatedAt)
  }

  ghost predicate Committed(cfg: NodeConfig, n: Node, steps: seq<NodeStep>, row: SignatureState) {
    exists id, request, i, j, k, l :: CommittedAt(cfg, n, steps, row, id, request, i, j, k, l)
  }

  ghost predicate Explained(cfg: NodeConfig, n: Node, steps: seq<NodeStep>, ref: StateRef, row: SignatureState) {
    || (ref in n.signatures && row == n.signatures[ref])
    || ((cfg.signing.watched == {} || ref.owner in cfg.signing.watched) && ref.owner == row.input.forPrincipal
        && ref.pipe.contractId == row.input.contractId
        && CanonicalPipeKey(cfg.signing.ser, row.input.token, row.input.forPrincipal, row.input.withPrincipal)
           == Ok(ref.pipe.pipeId)
        && ((exists i :: PostedAt(steps, row, i)) || Committed(cfg, n, steps, row)))
  }

  lemma StaysExplained(
    cfg: NodeConfig, n: Node, earlier: seq<NodeStep>, s: NodeStep, ref: StateRef, row: SignatureState)
    requires Explained(cfg, n, earlier, ref, row)
    ensures Explained(cfg, n, earlier + [s], ref, row)
  {
    if i: nat :| PostedAt(earlier, row, i) {
      assert PostedAt(earlier + [s], row, i);
    }
    if id: nat, request, i: nat, j: nat, k: nat, l: nat :| CommittedAt(cfg, n, earlier, row, id, request, i, j, k, l) {
      SigningLasts(cfg, n, earlier, s, id, request, row.input.mySignature, i, j, k);
      assert CommittedAt(cfg, n, earlier + [s], row, id, request, i, j, k, l);
    }
  }

  /** An upsert stores nothing but its own input, for a watched owner, under the canonical key, and only when
      the verifier agreed. */
  lemma UpsertStoresItsInput(
    cfg: Config, signatures: Signatures, input: SignatureInput, verified: bool, now: int, ref: StateRef)
    requires ref in UpsertState(cfg, signatures, input, verified, now).0
    ensures var row := UpsertState(cfg, signatures, input, verified, now).0[ref];
            || (ref in signatures && row == signatures[ref])
            || (verified && IsWatchedPrincipal(cfg.watched, input.forPrincipal) && ref.owner == input.forPrincipal
                && StateRefOf(cfg, input) == Ok(ref) && row == SignatureState(ref.pipe.pipeId, input, now))
  {
  }

  /** How a row after a step came about: it was there before, or the step is a verified post or a commit of
      exactly this row. */
  ghost predicate RowMoves(cfg: NodeConfig, m: Node, s: NodeStep, ref: StateRef, row: SignatureState) {
    || (ref in m.signatures && row == m.signatures[ref])
    || (IsWatchedPrincipal(cfg.signing.watched, ref.owner) && StateRefOf(cfg.signing, row.input) == Ok(ref)
        && (s == Post(row.input, true, row.updatedAt)
            || (s.Commit? && s.now == row.updatedAt && s.id in m.inFlight && m.inFlight[s.id].phase.HasSignature?
                && row.input == CommitInput(m.inFlight[s.id]))))
  }

  lemma RowAfterStep(cfg: NodeConfig, m: Node, s: NodeStep, ref: StateRef)
    requires ref in Step(cfg, m, s).signatures
    ensures RowMoves(cfg, m, s, ref, Step(cfg, m, s).signatures[ref])
  {
    if s.Post? {
      UpsertStoresItsInput(cfg.signing, m.signatures, s.input, s.verified, s.now, ref);
    } else if s.Commit? && s.id in m.inFlight && m.inFlight[s.id].phase.HasSignature? {
      UpsertStoresItsInput(cfg.signing, m.signatures, CommitInput(m.inFlight[s.id]), true, s.now, ref);
    } else {
      assert Step(cfg, m, s).signatures == m.signatures;
    }
  }

  lemma CommitIsTraced(cfg: NodeConfig, n: Node, earlier: seq<NodeStep>, row: SignatureState, id: nat, f: InFlight)
    requires f.phase.HasSignature? && Traced(cfg, n, earlier, id, f) && row.input == CommitInput(f)
    ensures Committed(cfg, n, earlier + [Commit(id, row.updatedAt)], row)
  {
    var s := Commit(id, row.updatedAt);
    var i: nat, j: nat, k: nat :| SignedAt(cfg, n, earlier, id, f.request, f.phase.signature, i, j, k);
    SigningLasts(cfg, n, earlier, s, id, f.request, f.phase.signature, i, j, k);
    assert CommittedAt(cfg, n, earlier + [s], row, id, f.request, i, j, k, |earlier|);
  }

  lemma NewRowIsExplained(
    cfg: NodeConfig, n: Node, earlier: seq<NodeStep>, s: NodeStep, ref: StateRef, row: SignatureState)
    requires RowMoves(cfg, Run(cfg, n, earlier), s, ref, row)
    requires var m := Run(cfg, n, earlier);
             && (s.Commit? && s.id in m.inFlight ==> Traced(cfg, n, earlier, s.id, m.inFlight[s.id]))
             && (ref in m.signatures ==> Explained(cfg, n, earlier, ref, m.signatures[ref]))
    ensures Explained(cfg, n, earlier + [s], ref, row)
  {
    var m := Run(cfg, n, earlier);
    if ref in m.signatures && row == m.signatures[ref] {
      StaysExplained(cfg, n, earlier, s, ref, row);
    } else if s.Post? {
      assert PostedAt(earlier + [s], row, |earlier|);
    } else {
      CommitIsTraced(cfg, n, earlier, row, s.id, m.inFlight[s.id]);
    }
  }

  /** After any run that starts with no request in flight, every stored row was there at the start, or belongs
      to a watched owner under its canonical key and was posted with a positive answer of the verifier, or
      was committed for a request that passed the policy, was then found valid, and was then signed. */
  lemma {:induction false} RowsHaveProvenance(cfg: NodeConfig, n: Node, steps: seq<NodeStep>)
    requires n.inFlight == map[]
    ensures var m := Run(cfg, n, steps);
            && (forall ref :: ref in m.signatures ==> Explained(cfg, n, steps, ref, m.signatures[ref]))
            && (forall id :: id in m.inFlight ==> Traced(cfg, n, steps, id, m.inFlight[id]))
  {
    if steps != [] {
      var earlier, s := steps[..|steps| - 1], steps[|steps| - 1];
      RowsHaveProvenance(cfg, n, earlier);
      assert steps == earlier + [s];
      var before, m := Run(cfg, n, earlier), Run(cfg, n, steps);
      forall ref | ref in m.signatures ensures Explained(cfg, n, steps, ref, m.signatures[ref]) {
        RowAfterStep(cfg, before, s, ref);
        NewRowIsExplained(cfg, n, earlier, s, ref, m.signatures[ref]);
      }
      forall id | id in m.inFlight ensures Traced(cfg, n, steps, id, m.inFlight[id]) {
        FlightAfterStep(cfg, before, s, id);
        FlightStaysTraced(cfg, n, earlier, s, id, m.inFlight[id]);
      }
    }
  }

  /** A verified post of a watched owner becomes the row of its state, and nothing else changes, unless and only
      unless that row has the same nonce or a higher one already. */
  lemma PostIsStoredUnlessOld(cfg: NodeConfig, n: Node, input: SignatureInput, now: int, key: PipeKey)
    requires CanonicalPipeKey(cfg.signing.ser, input.token, input.forPrincipal, input.withPrincipal) == Ok(key)
    requires cfg.signing.watched == {} || input.forPrincipal in cfg.signing.watched
    ensures var ref := StateRef(PipeRef(input.contractId, key), input.forPrincipal);
            Step(cfg, n, Post(input, true, now))
            == if ref in n.signatures && n.signatures[ref].input.nonce >= input.nonce then n
               else n.(signatures := n.signatures[ref := SignatureState(key, input, now)])
  {
  }

  /** A post that the verifier rejects, and a post for an owner who is not watched, change nothing at all. */
  lemma RejectedPostChangesNothing(cfg: NodeConfig, n: Node, input: SignatureInput, verified: bool, now: int)
    requires !verified || (cfg.signing.watched != {} && input.forPrincipal !in cfg.signing.watched)
    ensures Step(cfg, n, Post(input, verified, now)) == n
    ensures UpsertState(cfg.signing, n.signatures, input, verified, now).1
         == if cfg.signing.watched == {} || input.forPrincipal in cfg.signing.watched then SignatureInvalid
            else PrincipalNotWatched
  {
  }
}
