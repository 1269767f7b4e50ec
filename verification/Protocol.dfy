/** The messages the two processes exchange. */
module Protocol {
  import opened Wrappers
  import opened Numbers

  /** The protocol version both processes are built with; its value is not part of this model. */
  const CORE_PROTOCOL_VERSION: nat

  datatype Header = Header(
    protocolVersion: nat, client: U64, session: U64, epoch: U64, sequence: U64, revision: U64, deployment: U64)

  datatype CommitToken = CommitToken(session: U64, epoch: U64, actionId: U64)

  datatype ActionKind = Commit(text: string) | SetPreedit(text: string, cursor: nat) | CancelComposition

  datatype PlatformAction = PlatformAction(id: U64, epoch: U64, revision: U64, kind: ActionKind)

  datatype Candidate = Candidate(id: U64, text: string, annotation: Option<string>)

  datatype Snapshot = Snapshot(preedit: string, candidates: seq<Candidate>, highlighted: Option<U64>)

  datatype EngineMessage =
    | SessionOpened(header: Header)
    | CandidateSnapshot(header: Header, snapshot: Snapshot)
    | ActionRequest(header: Header, action: PlatformAction)
    | SessionClosed(header: Header)
    | ProtocolRejected

  /** What a frontend message carries besides its header; key events, commands and results are kept
      as numbers, since the session never looks inside them. */
  datatype Body =
    | OpenSession
    | CloseSession
    | KeyCommand(event: nat)
    | UiCommand(command: nat)
    | ActionResult(result: nat)
    | RollbackLearning(token: CommitToken)

  datatype FrontendMessage = FrontendMessage(header: Header, body: Body)
}
