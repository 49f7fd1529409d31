/** One line and the caches around it: the directory's handling of the line,
    the messages in flight for it, and who may hold a copy. */
module LineProtocol {
  import opened Common
  import opened DirTypes
  import opened LineSpec
  import opened LineShape

  /** `queued`: coherence messages still at the directory for want of port
      room; `cohes`, `replies`, `wbs`: coherence messages, coherence replies
      and write-backs in flight.  `excl` and `shrd` are the nodes granted the
      line exclusively or shared and not revoked since, whether or not the
      grant has reached them. */
  datatype LineSys = LineSys(
    line: Line,
    queued: multiset<Req>,
    cohes: multiset<Req>,
    replies: multiset<Req>,
    wbs: multiset<Req>,
    excl: set<Node>,
    shrd: set<Node>)

  const QUIET := LineSys(FRESH_LINE, multiset{}, multiset{}, multiset{}, multiset{}, {}, {})

  datatype Event =
    // the directory
    | Ask(req: Req)
    | SendInvl(id: Id)
    | Dispatch(m: Req)
    | TakeReply(m: Req)
    | TakeWriteback(m: Req)
    // the caches
    | AnswerInvl(m: Req, ack: Ack)
    | Transfer(m: Req, ackId: Id)
    | Refuse(m: Req)
    | Postpone(m: Req)
    | Evict(wb: Req)
    | Drop(n: Node)

  predicate IsForwardType(t: ReqType) {
    t == Copyback || t == CopybackInvl
  }

  predicate IsAccess(t: ReqType) {
    t == ReadSh || t == ReadOwn || t == Upgrade
  }

  /** The line collects acknowledgments of invalidations. */
  predicate Rounding(line: Line) {
    line.extra.Some? && !line.extra.value.waiting && line.extra.value.nackSt == NackOk
  }

  /** When an event can happen.  The directory's events need only the message
      they consume; the rest are the rules for the caches:
      a request is a READ_SH, READ_OWN or UPGRADE of any node at any time;
      each coherence message gets exactly one reply; an INVL is answered
      either way and revokes the copy; a forward is satisfied only by the
      exclusive holder, refused with NACK only by a node without a copy, and
      postponed with NACK_PEND at will; only the exclusive holder writes back,
      and loses the line by doing so; shared copies may vanish silently. */
  predicate Enabled(s: LineSys, e: Event, p: Params) {
    match e
    case Ask(req) =>
      IsAccess(req.reqType) && req.src < p.numNodes && req.forwardTo.None? && req.id.Txn?
    case SendInvl(id) =>
      id.Allocated? && Rounding(s.line) && s.line.extra.value.numLeft > 0
    case Dispatch(m) => m in s.queued
    case TakeReply(m) => m in s.replies
    case TakeWriteback(m) => m in s.wbs
    case AnswerInvl(m, ack) => m in s.cohes && m.reqType == Invl && (ack == Positive || ack == Nack)
    case Transfer(m, ackId) =>
      m in s.cohes && IsForwardType(m.reqType) && m.forwardTo.Some? && m.dest in s.excl && ackId.Allocated?
    case Refuse(m) => m in s.cohes && IsForwardType(m.reqType) && m.dest !in s.excl && m.dest !in s.shrd
    case Postpone(m) => m in s.cohes && IsForwardType(m.reqType)
    case Evict(wb) => wb.src in s.excl && IsWriteback(wb) && wb.id.Allocated?
    case Drop(n) => n in s.shrd
  }

  datatype Outcome = Reached(sys: LineSys) | Broken(error: Error)

  /** An answer makes its addressee a holder. */
  function Grant(s: LineSys, answer: Req): LineSys {
    if answer.reqType == ReplySh then s.(shrd := s.shrd + {answer.src})
    else s.(excl := s.excl + {answer.src}, shrd := s.shrd - {answer.src})
  }

  /** The reply a cache makes out of a coherence message. */
  function ReplyTo(m: Req, ack: Ack): Req {
    m.(msgType := CoheReply, reply := ack, src := m.dest, dest := m.src)
  }

  function StepAsk(s: LineSys, req: Req, p: Params): Outcome {
    Asked(s, OnRequest(s.line, req, p))
  }

  function Asked(s: LineSys, r: ReqStep): Outcome {
    match r.eff
    case ReqFailed(e) => Broken(e)
    case AnswerNow(a) => Reached(Grant(s.(line := r.line), a))
    case StartForward(m) => Reached(s.(line := r.line, queued := s.queued + multiset{m}))
    case _ => Reached(s.(line := r.line))
  }

  function StepReply(s: LineSys, m: Req, p: Params): Outcome {
    var r := OnCoheReply(s.line, m, p);
    var s' := s.(line := r.line, replies := s.replies - multiset{m});
    match r.eff
    case ReplyFailed(e) => Broken(e)
    case Finish(a) => Reached(Grant(s', a))
    case Resend(c) => Reached(s'.(queued := s.queued + multiset{c}))
    case _ => Reached(s')
  }

  function AfterAnswer(s: LineSys, m: Req, ack: Ack): LineSys {
    s.(cohes := s.cohes - multiset{m}, replies := s.replies + multiset{ReplyTo(m, ack)},
       excl := s.excl - {m.dest}, shrd := s.shrd - {m.dest})
  }

  /** The owner serves a forward: it acknowledges to the directory and passes
      the line, shared or exclusively, to the node in forwardTo. */
  function AfterTransfer(s: LineSys, m: Req, ackId: Id, b: Node): LineSys {
    var s' := s.(cohes := s.cohes - multiset{m},
                 replies := s.replies + multiset{ReplyTo(m, Positive).(id := ackId)},
                 excl := s.excl - {m.dest});
    if m.reqType == Copyback then s'.(shrd := s.shrd + {m.dest, b})
    else s'.(excl := s'.excl + {b}, shrd := s.shrd - {b})
  }

  function AfterDecline(s: LineSys, m: Req, ack: Ack): LineSys {
    s.(cohes := s.cohes - multiset{m}, replies := s.replies + multiset{ReplyTo(m, ack)})
  }

  function StepSendInvl(s: LineSys, id: Id, p: Params): Outcome
    requires s.line.extra.Some?
  {
    match OnSendInvl(s.line, s.line.extra.value.pendReq, p, id)
    case CannotSend(e) => Broken(e)
    case Sends(line, m) => Reached(s.(line := line, cohes := s.cohes + multiset{m}))
  }

  function StepWriteback(s: LineSys, m: Req, p: Params): Outcome {
    var r := OnWriteback(s.line, m, p);
    if r.eff.WbFailed? then Broken(r.eff.error)
    else Reached(s.(line := r.line, wbs := s.wbs - multiset{m}))
  }

  function Step(s: LineSys, e: Event, p: Params): Outcome
    requires Enabled(s, e, p)
  {
    match e
    case Ask(req) => StepAsk(s, req, p)
    case SendInvl(id) => StepSendInvl(s, id, p)
    case Dispatch(m) => Reached(s.(queued := s.queued - multiset{m}, cohes := s.cohes + multiset{m}))
    case TakeReply(m) => StepReply(s, m, p)
    case TakeWriteback(m) => StepWriteback(s, m, p)
    case AnswerInvl(m, ack) => Reached(AfterAnswer(s, m, ack))
    case Transfer(m, ackId) => Reached(AfterTransfer(s, m, ackId, m.forwardTo.value))
    case Refuse(m) => Reached(AfterDecline(s, m, Nack))
    case Postpone(m) => Reached(AfterDecline(s, m, NackPend))
    case Evict(wb) => Reached(s.(excl := s.excl - {wb.src}, wbs := s.wbs + multiset{wb}))
    case Drop(n) => Reached(s.(shrd := s.shrd - {n}))
  }

  /** Any sequence of events from the fresh line; an event that cannot happen
      where it stands changes nothing. */
  function Run(events: seq<Event>, p: Params): Outcome {
    if events == [] then Reached(QUIET) else
    match Run(events[..|events| - 1], p)
    case Broken(e) => Broken(e)
    case Reached(s) =>
      var e := events[|events| - 1];
      if Enabled(s, e, p) then Step(s, e, p) else Reached(s)
  }

  // ---------- the invariant ----------

  ghost predicate NoTraffic(s: LineSys) {
    s.queued == multiset{} && s.cohes == multiset{} && s.replies == multiset{}
  }

  ghost predicate Unowned(s: LineSys) {
    s.excl == {} && s.wbs == multiset{}
  }

  /** Exactly one token of ownership: `a` holds the line exclusively, or gave
      it up in a write-back still on its way.  Nobody else has a copy. */
  ghost predicate OwnedBy(s: LineSys, a: Node) {
    && s.shrd == {}
    && |s.wbs| <= 1
    && s.excl == (if |s.wbs| == 0 then {a} else {})
    && forall m :: m in s.wbs ==> m.src == a && IsWriteback(m) && m.id.Allocated?
  }

  ghost predicate Deserted(s: LineSys) {
    Unowned(s) && s.shrd == {}
  }

  ghost predicate IdleInv(s: LineSys) {
    && NoTraffic(s)
    && match s.line.state
       case Uncached => Deserted(s)
       case DirShared => Unowned(s) && s.shrd <= s.line.sharers
       case DirPrivate => forall a :: a in s.line.sharers ==> OwnedBy(s, a)
  }

  ghost predicate WaitingInv(s: LineSys, x: Extra) {
    && NoTraffic(s)
    && x.waitingFor.Some? && OwnedBy(s, x.waitingFor.value)
    && x.pendReq.src == x.waitingFor.value && x.pendReq.forwardTo.None? && x.pendReq.id.Txn?
    && IsAccess(x.pendReq.reqType)
  }

  ghost predicate InvlMsg(m: Req) {
    m.reqType == Invl && m.forwardTo.None?
  }

  /** Every node that may still hold a copy is the requester, or has yet to be
      sent its invalidation, or has one on the way. */
  ghost predicate Covered(s: LineSys, x: Extra, n: Node)
    requires 0 <= x.numLeft <= |x.nodeAry|
  {
    n == x.pendReq.src || n in x.nodeAry[..x.numLeft] || exists m :: m in s.cohes && m.dest == n
  }

  ghost predicate InvalidatingInv(s: LineSys, x: Extra) {
    && s.queued == multiset{} && Unowned(s)
    && s.line.state == DirPrivate && s.line.sharers == {x.pendReq.src}
    && (x.retSt == RetDirReply || x.retSt == RetSpecialReply) && x.nextReqType == Invl
    && (x.pendReq.reqType == ReplyExcl || x.pendReq.reqType == ReplyUpgrade) && x.pendReq.id.Txn?
    && 0 <= x.numLeft <= |x.nodeAry|
    && x.counter == x.numLeft + |s.cohes| + |s.replies| && x.counter > 0
    && (forall m :: m in s.cohes ==> InvlMsg(m))
    && (forall m :: m in s.replies ==> InvlMsg(m) && (m.reply == Positive || m.reply == Nack))
    && (forall n :: n in s.shrd ==> Covered(s, x, n))
  }

  /** A forward of owner `a`'s copy to requester `b` as it left the
      directory. */
  ghost predicate ForwardMsg(m: Req, a: Node, b: Node) {
    IsForwardType(m.reqType) && m.dest == a && m.forwardTo == Some(b) && m.id.Txn?
  }

  /** The line while the forward is neither satisfied nor resolved: as the
      directory expects it to end, or UNCACHED once `a` has written back. */
  ghost predicate Outstanding(s: LineSys, x: Extra, a: Node, b: Node) {
    match x.wasHere
    case None =>
      && OwnedBy(s, a)
      && (if x.pendReq.reqType == Copyback
          then s.line.state == DirShared && s.line.sharers == {a, b}
          else s.line.state == DirPrivate && s.line.sharers == {b})
    case Some(n) => n == a && s.line.state == Uncached && Deserted(s)
  }

  /** The line once the owner has passed its copy on. */
  ghost predicate Satisfied(s: LineSys, x: Extra, a: Node, b: Node) {
    if x.pendReq.reqType == Copyback
    then x.wasHere.None? && s.line.state == DirShared && s.line.sharers == {a, b} && Unowned(s) && s.shrd <= {a, b}
    else
      match x.wasHere
      case None => s.line.state == DirPrivate && s.line.sharers == {b} && OwnedBy(s, b)
      case Some(n) => n == b && s.line.state == Uncached && Deserted(s)
  }

  /** The coherence message a refusal or postponement answers. */
  function AsSent(m: Req): Req {
    m.(msgType := Cohe, reply := NoAck, src := m.dest, dest := m.src)
  }

  ghost predicate ReplyInv(s: LineSys, x: Extra, m: Req, a: Node, b: Node) {
    && m.src == a
    && m.forwardTo == Some(b) && m.reqType == x.pendReq.reqType
    && (match m.reply
        case Positive => m.id.Allocated? && Satisfied(s, x, a, b)
        case Nack => Outstanding(s, x, a, b) && s.excl == {}
        case NackPend => Outstanding(s, x, a, b)
        case _ => false)
    && (m.reply != Positive ==> AsSent(m) == x.pendReq)
  }

  ghost predicate ForwardingInv(s: LineSys, x: Extra, p: Params) {
    && x.counter == 1 && x.retSt == RetAckReply && x.nackSt == NackNok
    && x.pendReq.forwardTo.Some?
    && var a, b := x.pendReq.dest, x.pendReq.forwardTo.value;
    && a != b && a < p.numNodes && b < p.numNodes
    && ForwardMsg(x.pendReq, a, b) && x.pendReq.msgType == Cohe && x.pendReq.reply == NoAck
    && |s.queued| + |s.cohes| + |s.replies| == 1
    && (forall m :: m in s.queued || m in s.cohes ==>
          m.(reply := NoAck) == x.pendReq)
    && (|s.replies| == 0 ==> Outstanding(s, x, a, b))
    && (forall m :: m in s.replies ==> ReplyInv(s, x, m, a, b))
  }

  ghost predicate Inv(s: LineSys, p: Params) {
    && Shape(s.line, p)
    && match s.line.extra
       case None => IdleInv(s)
       case Some(x) =>
         if x.waiting then WaitingInv(s, x)
         else if x.nackSt == NackOk then InvalidatingInv(s, x)
         else ForwardingInv(s, x, p)
  }
}
