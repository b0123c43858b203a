/** The records that the node keeps and the events it receives (`server/src/types.ts`).
    Amounts, nonces and heights are natural numbers, timestamps are integers, and a pipe id is the
    pipe key itself (`Principals.StateIdsCoincideIff` says when the textual ids agree with this). */
module NodeTypes {
  import opened Wrappers
  import opened Octets
  import opened Principals

  type ContractId = string
  type Txid = string
  type PaymentId = string

  const ACTION_CLOSE: nat := 0
  const ACTION_TRANSFER: nat := 1
  const ACTION_DEPOSIT: nat := 2
  const ACTION_WITHDRAWAL: nat := 3

  // ---------- Observed chain state ----------

  datatype EventName = ForceCancel | ForceClose | ClosePipe | DisputeClosure | Finalize | OtherEvent(name: string)

  predicate Opening(e: EventName) { e.ForceCancel? || e.ForceClose? }
  predicate Terminal(e: EventName) { e.ClosePipe? || e.DisputeClosure? || e.Finalize? }

  datatype Pending = Pending(amount: Option<nat>, burnHeight: Option<nat>)

  const NOTHING_PENDING := Pending(None, None)

  datatype PipeSnapshot = PipeSnapshot(
    balance1: Option<nat>, balance2: Option<nat>, pending1: Option<Pending>, pending2: Option<Pending>,
    expiresAt: Option<nat>, nonce: Option<nat>, closer: Option<Principal>)

  datatype PrintEvent = PrintEvent(
    contractId: ContractId, txid: Option<Txid>, blockHeight: Option<nat>, eventName: Option<EventName>,
    sender: Option<Principal>, pipeKey: Option<PipeKey>, pipe: Option<PipeSnapshot>)

  datatype ObservedPipe = ObservedPipe(
    contractId: ContractId, pipeKey: PipeKey, balance1: Option<nat>, balance2: Option<nat>,
    pending1: Pending, pending2: Pending, expiresAt: Option<nat>, nonce: Option<nat>,
    closer: Option<Principal>, event: EventName, txid: Option<Txid>, blockHeight: Option<nat>, updatedAt: int)

  datatype Closure = Closure(
    pipeId: PipeKey, contractId: ContractId, closer: Option<Principal>, expiresAt: Option<nat>,
    nonce: Option<nat>, event: EventName, txid: Option<Txid>, blockHeight: Option<nat>, updatedAt: int)

  // ---------- Signed states ----------

  datatype SignatureInput = SignatureInput(
    contractId: ContractId, forPrincipal: Principal, withPrincipal: Principal, token: Option<Principal>,
    amount: nat, myBalance: nat, theirBalance: nat, mySignature: Bytes, theirSignature: Bytes,
    nonce: nat, action: nat, actor: Principal, secret: Option<Bytes>, validAfter: Option<nat>,
    beneficialOnly: bool)

  datatype SignatureState = SignatureState(pipeId: PipeKey, input: SignatureInput, updatedAt: int)

  datatype AttemptId =
    | ByTxid(txid: Txid, owner: Principal)
    | ByClosure(contractId: ContractId, pipeId: PipeKey, nonce: nat, owner: Principal)

  datatype DisputeAttempt = DisputeAttempt(
    contractId: ContractId, pipeId: PipeKey, forPrincipal: Principal, triggerTxid: Option<Txid>,
    success: bool, disputeTxid: Option<Txid>, createdAt: int)

  // ---------- Table keys ----------

  datatype PipeRef = PipeRef(contractId: ContractId, pipeId: PipeKey)
  datatype StateRef = StateRef(pipe: PipeRef, owner: Principal)

  function RefOf(s: SignatureState): StateRef {
    StateRef(PipeRef(s.input.contractId, s.pipeId), s.input.forPrincipal)
  }

  function RefOfObserved(o: ObservedPipe): PipeRef { PipeRef(o.contractId, o.pipeKey) }

  type Signatures = map<StateRef, SignatureState>
  type ObservedPipes = map<PipeRef, ObservedPipe>
  type Closures = map<PipeKey, Closure>
  type Attempts = map<AttemptId, DisputeAttempt>

  /** Rows are stored under the key they carry. */
  ghost predicate SignaturesKeyed(t: Signatures) { forall k :: k in t ==> RefOf(t[k]) == k }
  ghost predicate ObservedKeyed(t: ObservedPipes) { forall k :: k in t ==> RefOfObserved(t[k]) == k }
}
