/** Records of the two-party agent and the tables of `packages/stackflow-agent/src/db.js`. */
module AgentTypes {
  import opened Wrappers
  import opened Octets
  import opened Principals
  import opened NodeTypes

  datatype TrackedPipe = TrackedPipe(
    contractId: ContractId, pipeKey: PipeKey, localPrincipal: Principal, counterpartyPrincipal: Principal,
    token: Option<Principal>)

  datatype AgentState = AgentState(
    contractId: ContractId, pipeKey: PipeKey, forPrincipal: Principal, withPrincipal: Principal,
    token: Option<Principal>, myBalance: nat, theirBalance: nat, nonce: nat, action: nat, actor: Principal,
    mySignature: Bytes, theirSignature: Bytes, secret: Option<Bytes>, validAfter: Option<nat>,
    beneficialOnly: bool, updatedAt: int)

  /** `buildPipeId`. */
  function BuildPipeId(contractId: ContractId, pipeKey: PipeKey): PipeRef { PipeRef(contractId, pipeKey) }

  type TrackedPipes = map<PipeRef, TrackedPipe>
  type AgentStates = map<StateRef, AgentState>

  function AgentRefOf(s: AgentState): StateRef { StateRef(BuildPipeId(s.contractId, s.pipeKey), s.forPrincipal) }

  /** The columns that an existing row keeps on conflict are those that identify the pipe and its parties. */
  function Merged(existing: AgentState, s: AgentState): AgentState {
    s.(contractId := existing.contractId, pipeKey := existing.pipeKey, forPrincipal := existing.forPrincipal,
    withPrincipal := existing.withPrincipal, token := existing.token)
  }

  /** `upsertSignatureState`: an equal nonce overwrites, a lower one is ignored. */
  function UpsertAgentState(states: AgentStates, s: AgentState): (AgentStates, bool) {
    var ref := AgentRefOf(s);
    if ref in states then
      if s.nonce < states[ref].nonce then (states, false)
      else (states[ref := Merged(states[ref], s)], true)
    else (states[ref := s], true)
  }
}
