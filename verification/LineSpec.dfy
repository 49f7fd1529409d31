/** What each directory action does to one line: the coherence decision
    (Dir_Cohe) and the line-level part of every DirSim case. */
module LineSpec {
  import opened Common
  import opened DirTypes

  /** The nodes below `n` in `s`, other than `me`, in ascending order: what
      DirFind_FM writes to its node array. */
  function OthersBelow(s: set<Node>, me: Node, n: nat): seq<Node> {
    if n == 0 then []
    else OthersBelow(s, me, n - 1) + (if n - 1 in s && n - 1 != me then [n - 1] else [])
  }

  // ---------- Dir_Cohe ----------

  datatype CoheOut =
    | VisitMem | DirReplyNow | WaitForWrb | WaitPend | WaitCnt | ForwardRequest
    | Failed(error: Error)

  /** `woken` is the request moved to ReadyReqs by an awaited write-back. */
  datatype CoheResult = CoheResult(line: Line, req: Req, extra: Option<Extra>, woken: Option<Req>, out: CoheOut)

  /** A record from the pool: what is not initialised keeps what it held. */
  function PoolExtra(req: Req, p: Params): Extra {
    var was := p.stale(req);
    Extra(req, 0, was.numLeft, was.retSt, was.nackSt, false, None, None, was.nodeAry, was.nextReqType)
  }

  function Fail(line: Line, req: Req, e: Error): CoheResult {
    CoheResult(line, req, None, None, Failed(e))
  }

  /** Every change of the sharer set checks its node index first. */
  function Indexed(line: Line, req: Req, p: Params, r: CoheResult): CoheResult {
    if req.src >= p.numNodes then Fail(line, req, InvalidNode) else r
  }

  /** A request meeting its own node's private copy waits for the write-back
      it overtook. */
  function AwaitWriteback(line: Line, req: Req, p: Params): CoheResult {
    var x := PoolExtra(req, p).(counter := 1, waiting := true, waitingFor := Some(req.src));
    CoheResult(line.(pend := true, extra := Some(x)), req, Some(x), None, WaitForWrb)
  }

  function CoheReadSh(line: Line, req: Req, p: Params): CoheResult {
    match line.state
    case Uncached =>
      var only := line.(sharers := line.sharers + {req.src});
      Indexed(line, req, p,
              if p.msi
              then CoheResult(only.(state := DirShared), req.(reqType := ReplySh), None, None, VisitMem)
              else CoheResult(only.(state := DirPrivate), req.(reqType := ReplyExcl), None, None, VisitMem))
    case DirShared =>
      var oursAlone := line.sharers == {req.src};
      var shared := line.(sharers := line.sharers + {req.src});
      Indexed(line, req, p,
              if oursAlone && !p.msi
              then CoheResult(shared.(state := DirPrivate), req.(reqType := ReplyExcl), None, None, VisitMem)
              else CoheResult(shared, req.(reqType := ReplySh), None, None, VisitMem))
    case DirPrivate =>
      if |line.sharers| != 1 then Fail(line, req, PrivateFindNotOne)
      else if req.src in line.sharers then AwaitWriteback(line, req, p)
      else
        var x := PoolExtra(req, p).(counter := 1, nodeAry := OthersBelow(line.sharers, req.src, p.numNodes),
                                  nextReqType := Copyback, nackSt := NackNok, retSt := RetAckReply);
        Indexed(line, req, p,
                CoheResult(line.(sharers := line.sharers + {req.src}, state := DirShared), req, Some(x), None,
                           ForwardRequest))
  }

  /** The invalidating answer to a write on a shared line. */
  function InvalidateOthers(line: Line, req: Req, answer: ReqType, ret: RetSt, p: Params): CoheResult {
    var others := OthersBelow(line.sharers, req.src, p.numNodes);
    var line' := line.(sharers := {req.src}, state := DirPrivate);
    var req' := req.(reqType := answer);
    var find := |line.sharers|;
    var counter := if req.src in line.sharers then find - 1 else find;
    var x := PoolExtra(req', p).(counter := counter, nodeAry := others, nextReqType := Invl, nackSt := NackOk,
                                 retSt := ret);
    Indexed(line, req, p,
            if counter != 0
            then CoheResult(line', req', Some(x), None, WaitCnt)
            else CoheResult(line', req', None, None, if answer == ReplyUpgrade then DirReplyNow else VisitMem))
  }

  function CoheReadOwn(line: Line, req: Req, p: Params): CoheResult {
    match line.state
    case Uncached =>
      Indexed(line, req, p,
              CoheResult(line.(sharers := line.sharers + {req.src}, state := DirPrivate), req.(reqType := ReplyExcl),
                         None, None, VisitMem))
    case DirShared =>
      if line.sharers == {} then Fail(line, req, SharedFindZero)
      else InvalidateOthers(line, req, ReplyExcl, RetSpecialReply, p)
    case DirPrivate =>
      if |line.sharers| != 1 then Fail(line, req, PrivateFindNotOne)
      else if req.src in line.sharers then AwaitWriteback(line, req, p)
      else
        var x := PoolExtra(req, p).(counter := 1, nodeAry := OthersBelow(line.sharers, req.src, p.numNodes),
                                  nextReqType := CopybackInvl, nackSt := NackNok, retSt := RetAckReply);
        Indexed(line, req, p, CoheResult(line.(sharers := {req.src}), req, Some(x), None, ForwardRequest))
  }

  /** An UPGRADE from a node the directory does not list is served as a
      READ_OWN. */
  function CoheUpgrade(line: Line, req: Req, p: Params): CoheResult {
    if line.state == DirShared && line.sharers == {} then Fail(line, req, SharedFindZero)
    else if line.state == DirShared && req.src in line.sharers
    then InvalidateOthers(line, req, ReplyUpgrade, RetDirReply, p)
    else CoheReadOwn(line, req.(reqType := ReadOwn), p)
  }

  function CoheWriteback(line: Line, req: Req, p: Params, woken: Option<Req>): CoheResult {
    match line.state
    case Uncached => Fail(line, req, UncachedWriteback)
    case DirPrivate =>
      if |line.sharers| != 1 then Fail(line, req, PrivateFindNotOne)
      else Indexed(line, req, p, CoheResult(line.(sharers := {}, state := Uncached), req, None, woken, VisitMem))
    case DirShared => Indexed(line, req, p,
                              CoheResult(line.(sharers := {}, state := Uncached), req, None, woken, VisitMem))
  }

  /** The request an awaited write-back revives. */
  function Revived(req: Req): Req {
    match req.forwardTo
    case None => req
    case Some(n) => req.(src := n, reply := NoAck, msgType := Request)
  }

  function DirCohe(line: Line, req: Req, p: Params): CoheResult {
    if line.pend && !(line.extra.Some? && IsWriteback(req)) then
      CoheResult(line, req, None, None, WaitPend)
    else if line.pend then
      var x := line.extra.value;
      if !x.waiting then CoheWriteback(line.(extra := Some(x.(wasHere := Some(req.src)))), req, p, None)
      else if x.waitingFor != Some(req.src) then Fail(line, req, WaitingForOtherMessage)
      else if x.counter != 1 then Fail(line, req, CounterNotOne)
      else CoheWriteback(line.(extra := Some(x.(waitingFor := None, counter := 0))), req, p, Some(Revived(x.pendReq)))
    else
      match req.reqType
      case ReadSh => CoheReadSh(line, req, p)
      case Upgrade => CoheUpgrade(line, req, p)
      case ReadOwn => CoheReadOwn(line, req, p)
      case Wrb => CoheWriteback(line, req, p, None)
      case Repl => CoheWriteback(line, req, p, None)
      case RWrite => Fail(line, req, RemoteWrite)
      case _ => Fail(line, req, UnknownRequestType)
  }

  // ---------- the line's part of DIRREQ ----------

  datatype ReqEffect =
    | AnswerNow(answer: Req)
    | IntoBuffer
    | HeldForWriteback
    | StartInvalidating(pendReq: Req)
    | StartForward(cohe: Req)
    | ReqFailed(error: Error)

  datatype ReqStep = ReqStep(line: Line, eff: ReqEffect)

  /** The forwarded request: a COHE from the directory to the owner that
      remembers in forwardTo who asked. */
  function ForwardOf(req: Req, x: Extra, p: Params): Req
    requires |x.nodeAry| > 0
  {
    req.(forwardTo := Some(req.src), src := p.home, dest := x.nodeAry[0], reqType := x.nextReqType, reply := NoAck,
         msgType := Cohe)
  }

  function OnRequest(line: Line, req: Req, p: Params): ReqStep {
    CarryOut(DirCohe(line, req, p), p)
  }

  function CarryOut(r: CoheResult, p: Params): ReqStep {
    match r.out
    case Failed(e) => ReqStep(r.line, ReqFailed(e))
    case WaitPend => ReqStep(r.line, IntoBuffer)
    case WaitForWrb => ReqStep(r.line, HeldForWriteback)
    case WaitCnt =>
      if r.extra.None? then ReqStep(r.line, ReqFailed(UninitialisedExtra)) else
      var x := r.extra.value.(pendReq := r.req, numLeft := r.extra.value.counter);
      ReqStep(r.line.(pend := true, extra := Some(x)), StartInvalidating(r.req))
    case ForwardRequest =>
      if r.extra.None? || r.extra.value.nodeAry == [] then ReqStep(r.line, ReqFailed(UninitialisedExtra)) else
      var m := ForwardOf(r.req, r.extra.value, p);
      var x := r.extra.value.(pendReq := m, numLeft := r.extra.value.counter);
      ReqStep(r.line.(pend := true, extra := Some(x)), StartForward(m))
    case _ =>
      ReqStep(r.line.(extra := None), AnswerNow(r.req.(reply := Positive, msgType := Reply)))
  }

  // ---------- the line's part of DIRSENDCOHE for an invalidation ----------

  datatype SendStep = Sends(line: Line, cohe: Req) | CannotSend(error: Error)

  function OnSendInvl(line: Line, req: Req, p: Params, id: Id): SendStep {
    if line.extra.None? || !(0 < line.extra.value.numLeft <= |line.extra.value.nodeAry|) then CannotSend(NoCoheLeft)
    else
      var x := line.extra.value;
      var k := x.numLeft - 1;
      Sends(line.(extra := Some(x.(numLeft := k))),
            Req(id, req.tag, x.nextReqType, p.home, x.nodeAry[k], None, Cohe, NoAck, false))
  }

  // ---------- the line's part of DIRCOHEREP ----------

  datatype ReplyEffect =
    | Retry(rar: Req)
    | Requeue(req: Req)
    | Resend(cohe: Req)
    | Collected
    | Finish(answer: Req)
    | TransferAcked
    | ReplyFailed(error: Error)

  datatype ReplyStep = ReplyStep(line: Line, eff: ReplyEffect)

  /** FixForwardRARs together with the reset of forward_to. */
  function Unforward(req: Req): Option<Req> {
    if req.forwardTo.None? then None else
    var back := req.(src := req.forwardTo.value, forwardTo := None);
    match req.reqType
    case Copyback => Some(back.(reqType := ReadSh))
    case CopybackShdy => Some(back.(reqType := ReadSh))
    case CopybackInvl => Some(back.(reqType := ReadOwn))
    case _ => None
  }

  function Unpended(line: Line): Line {
    line.(pend := false, extra := None)
  }

  /** A forward that failed after the owner's write-back: start it over. */
  function StartOver(line: Line, req: Req): ReplyStep {
    if req.forwardTo.None? then ReplyStep(line, ReplyFailed(NackWithoutForward)) else
    match Unforward(req)
    case None => ReplyStep(line, ReplyFailed(UnknownForwardType))
    case Some(r) => ReplyStep(Unpended(line), Requeue(r.(reply := NoAck, msgType := Request)))
  }

  /** A forward that failed with no write-back seen: restore the owner and
      have the requester retry. */
  function ForceRetry(line: Line, x: Extra, req: Req, p: Params): ReplyStep {
    if req.id != x.pendReq.id then ReplyStep(line, ReplyFailed(NackNotPendReq))
    else if req.src >= p.numNodes then ReplyStep(line, ReplyFailed(InvalidNode))
    else
      var line' := Line(DirPrivate, {req.src}, false, None);
      var rar := req.(reply := Rar, msgType := Reply);
      if req.forwardTo.None? then ReplyStep(line', Retry(rar)) else
      match Unforward(rar)
      case None => ReplyStep(line, ReplyFailed(UnknownForwardType))
      case Some(r) => ReplyStep(line', Retry(r))
  }

  /** One more acceptable reply. */
  function Collect(line: Line, x: Extra, req: Req): ReplyStep {
    if req.forwardTo.Some? && x.retSt != RetAckReply then ReplyStep(line, ReplyFailed(ForwardNotAckReply))
    else if x.counter - 1 != 0 then ReplyStep(line.(extra := Some(x.(counter := x.counter - 1))), Collected)
    else
      match x.retSt
      case RetOther => ReplyStep(line, ReplyFailed(UnknownReturnState))
      case RetAckReply =>
        if req.id == x.pendReq.id then ReplyStep(line, ReplyFailed(ForwardNeitherSatisfiedNorNacked))
        else ReplyStep(Unpended(line), TransferAcked)
      case _ => ReplyStep(Unpended(line), Finish(x.pendReq.(reply := Positive, msgType := Reply)))
  }

  function OnCoheReply(line: Line, req: Req, p: Params): ReplyStep {
    if line.extra.None? then
      ReplyStep(line, ReplyFailed(if req.reply == Nack then NackWithoutExtra else UnexpectedCoheReply)) else
    var x := line.extra.value;
    if x.counter == 0 && req.reply != Nack then ReplyStep(line, ReplyFailed(UnexpectedCoheReply)) else
    match req.reply
    case Positive => Collect(line, x, req)
    case Nack =>
      if x.nackSt == NackOk then Collect(line, x, req)
      else if x.wasHere == Some(req.src) then StartOver(line.(extra := Some(x.(wasHere := None))), req)
      else ForceRetry(line, x, req, p)
    case NackPend =>
      if x.nackSt != NackNok then ReplyStep(line, ReplyFailed(NackPendOnNackOk))
      else if x.wasHere == Some(req.src) then StartOver(line.(extra := Some(x.(wasHere := None))), req)
      else ReplyStep(line, Resend(req.(msgType := Cohe, src := req.dest, dest := req.src)))
    case _ => ReplyStep(line, ReplyFailed(UnknownReplyType))
  }

  // ---------- the line's part of DIRWRB ----------

  datatype WbEffect = Woke(req: Req) | Noted | Cleared | WbFailed(error: Error)

  datatype WbStep = WbStep(line: Line, eff: WbEffect)

  function OnWriteback(line: Line, req: Req, p: Params): WbStep {
    WbDecision(DirCohe(line, req, p), req)
  }

  function WbDecision(r: CoheResult, req: Req): WbStep {
    if r.out.Failed? then WbStep(r.line, WbFailed(r.out.error))
    else if r.line.extra.None? then WbStep(r.line.(pend := false), Cleared)
    else if r.line.extra.value.pendReq.id == req.id then WbStep(r.line, WbFailed(WritebackIsPendReq))
    else if !r.line.extra.value.waiting then WbStep(r.line, Noted)
    else if r.woken.None? then WbStep(Unpended(r.line), Cleared)
    else WbStep(Unpended(r.line), Woke(r.woken.value))
  }
}
