/** The values the directory works on: messages, the per-line record and the
    "extra" record a line carries while a transaction on it is outstanding. */
module DirTypes {
  import opened Common

  type Node = nat
  type Tag = nat

  /** The transaction types the directory receives, sends or tests for. */
  datatype ReqType =
    | ReadSh | ReadOwn | Upgrade | RWrite
    | ReplySh | ReplyExcl | ReplyUpgrade
    | Copyback | CopybackInvl | CopybackShdy | Invl
    | Wrb | Repl

  /** `s.type` of a message. */
  datatype MsgType = Request | Reply | Cohe | CoheReply

  /** `s.reply` of a message. */
  datatype Ack = NoAck | Positive | Rar | Nack | NackPend

  /** The identity of a message object, which the source compares as a
      pointer: a request object keeps its own through every change of type
      (forward, refusal, retry); invalidations, acknowledgments and
      write-backs are objects allocated on the way. */
  datatype Id = Txn(n: nat) | Allocated(n: nat)

  /** A message. */
  datatype Req = Req(
    id: Id,
    tag: Tag,
    reqType: ReqType,
    src: Node,
    dest: Node,
    forwardTo: Option<Node>,
    msgType: MsgType,
    reply: Ack,
    preprocessed: bool)

  datatype DirState = Uncached | DirShared | DirPrivate

  /** What to do once every coherence reply is in.  `RetUnset` is the content
      of a record whose field was never written. */
  datatype RetSt = RetOther | RetDirReply | RetSpecialReply | RetAckReply

  /** Whether a NACK is an acceptable coherence reply. */
  datatype NackSt = NackOk | NackNok

  datatype Extra = Extra(
    pendReq: Req,
    counter: int,
    numLeft: int,
    retSt: RetSt,
    nackSt: NackSt,
    waiting: bool,
    waitingFor: Option<Node>,
    wasHere: Option<Node>,
    nodeAry: seq<Node>,
    nextReqType: ReqType)

  /** A directory line.  The sharer bit vector appears as the set it denotes;
      SharerVector relates the two. */
  datatype Line = Line(
    state: DirState,
    sharers: set<Node>,
    pend: bool,
    extra: Option<Extra>)

  const FRESH_LINE := Line(Uncached, {}, false, None)

  /** What a record taken from the pool still holds from its last use. */
  datatype Stale = Stale(numLeft: int, retSt: RetSt, nackSt: NackSt, nodeAry: seq<Node>, nextReqType: ReqType)

  /** Configuration: node count, the directory's own node, MSI or MESI, and the
      contents, whatever they are, of the record a request is given. */
  datatype Params = Params(numNodes: nat, home: Node, msi: bool, stale: Req -> Stale)

  /** The sites at which the source calls its fatal error routine, or reads
      through a null or never-written record. */
  datatype Error =
    | InvalidNode
    | PrivateFindNotOne
    | SharedFindZero
    | UncachedWriteback
    | WaitingForOtherMessage
    | CounterNotOne
    | RemoteWrite
    | UnknownRequestType
    | UnexpectedCoheReply
    | NackWithoutExtra
    | UninitialisedExtra
    | NackNotPendReq
    | NackWithoutForward
    | UnknownForwardType
    | NackPendOnNackOk
    | UnknownReplyType
    | ForwardNotAckReply
    | ForwardNeitherSatisfiedNorNacked
    | UnknownReturnState
    | WritebackIsPendReq
    | NoCoheLeft
    | BufferFull
    | PreprocessedWasPending

  predicate IsWriteback(req: Req) {
    req.reqType == Wrb || req.reqType == Repl
  }
}
