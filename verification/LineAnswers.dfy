/** Which answer a request gets: decided by the line it finds, and kept until
    the answer leaves. */
module LineAnswers {
  import opened Common
  import opened DirTypes
  import opened LineSpec
  import opened LineShape
  import opened LineProtocol
  import opened LineSafety
  import opened LineTheorems

  // ---------- one request ----------

  /** At rest, and no node owns the line. */
  predicate Settled(line: Line) {
    !line.pend && line.state != DirPrivate
  }

  predicate IsWrite(t: ReqType) {
    t == ReadOwn || t == Upgrade
  }

  /** The answer a settled line gives. A read gets the line exclusively under
      MESI if no other node is listed, and shared otherwise. A write gets it
      exclusively; only an UPGRADE of a node still listed is told that it has
      the data. */
  function AnswerType(line: Line, req: Req, p: Params): ReqType {
    if req.reqType == ReadSh then (if !p.msi && line.sharers <= {req.src} then ReplyExcl else ReplySh)
    else if req.reqType == Upgrade && req.src in line.sharers then ReplyUpgrade
    else ReplyExcl
  }

  function AsAnswer(req: Req, t: ReqType): Req {
    req.(reqType := t, reply := Positive, msgType := Reply)
  }

  /** A read of a settled line is answered at once, and its node listed. */
  lemma ReadIsAnswered(line: Line, req: Req, p: Params)
    requires Shape(line, p) && Settled(line) && req.reqType == ReadSh && req.src < p.numNodes
    ensures var t := AnswerType(line, req, p);
            OnRequest(line, req, p)
            == ReqStep(Line(if t == ReplyExcl then DirPrivate else DirShared, line.sharers + {req.src}, false, None),
                       AnswerNow(AsAnswer(req, t)))
  {
    if line.state == DirShared && line.sharers <= {req.src} { assert line.sharers == {req.src}; }
  }

  /** A write to a settled line leaves it private to its node. It is answered at
      once if no other node is listed; otherwise its answer waits for the others
      to be invalidated. */
  lemma WriteIsAnswered(line: Line, req: Req, p: Params)
    requires Shape(line, p) && Settled(line) && IsWrite(req.reqType) && req.src < p.numNodes
    ensures var r, t := OnRequest(line, req, p), AnswerType(line, req, p);
            && r.line.state == DirPrivate && r.line.sharers == {req.src}
            && if line.sharers <= {req.src}
               then !r.line.pend && r.line.extra.None? && r.eff == AnswerNow(AsAnswer(req, t))
               else
                 && r.eff == StartInvalidating(req.(reqType := t)) && r.line.pend && r.line.extra.Some?
                 && r.line.extra.value.pendReq == req.(reqType := t)
                 && r.line.extra.value.retSt == if t == ReplyUpgrade then RetDirReply else RetSpecialReply
  {
    hide OthersBelow;
    if line.state == DirShared {
      if line.sharers <= {req.src} { assert line.sharers == {req.src}; }
      if line.sharers == {req.src} {} else { OthersRemain(line.sharers, req.src); }
    } else {
      assert line.sharers + {req.src} == {req.src};
    }
  }

  lemma OthersRemain(s: set<Node>, me: Node)
    requires !(s <= {me})
    ensures |s| > if me in s then 1 else 0
  {
    var n :| n in s && n != me;
    assert |s - {n}| == |s| - 1 && (me in s ==> me in s - {n});
  }

  /** An immediate answer takes the memory's time unless its node has the data. */
  lemma WithoutMemory(line: Line, req: Req, p: Params)
    requires Shape(line, p) && Settled(line) && IsAccess(req.reqType) && req.src < p.numNodes
    ensures var out := DirCohe(line, req, p).out;
            if IsWrite(req.reqType) && !(line.sharers <= {req.src}) then out == WaitCnt
            else out == if AnswerType(line, req, p) == ReplyUpgrade then DirReplyNow else VisitMem
  {
    hide OthersBelow;
    if IsWrite(req.reqType) && line.state == DirShared {
      if line.sharers <= {req.src} { assert line.sharers == {req.src}; } else { OthersRemain(line.sharers, req.src); }
    }
  }

  /** The one fatal outcome of a request, if any, on any line whatever that
      lists nodes which exist. */
  function RequestError(line: Line, req: Req, p: Params): Option<Error> {
    if line.pend then None
    else if req.reqType == RWrite then Some(RemoteWrite)
    else if !IsAccess(req.reqType) then Some(UnknownRequestType)
    else if line.state == DirPrivate && |line.sharers| != 1 then Some(PrivateFindNotOne)
    else if line.state == DirShared && line.sharers == {} && IsWrite(req.reqType) then Some(SharedFindZero)
    else if req.src >= p.numNodes then Some(InvalidNode)
    else None
  }

  lemma RequestFailsExactly(line: Line, req: Req, p: Params)
    requires Nodes(line.sharers, p) && (line.pend <==> line.extra.Some?) && !IsWriteback(req)
    ensures var eff := OnRequest(line, req, p).eff;
            match RequestError(line, req, p)
            case Some(e) => eff == ReqFailed(e)
            case None => !eff.ReqFailed? && (line.pend ==> eff == IntoBuffer)
  {
    hide CoheReadSh, CoheReadOwn, CoheUpgrade;
    if !line.pend && IsAccess(req.reqType) {
      match req.reqType
      case ReadSh => ReadFails(line, req, p);
      case ReadOwn => OwnFails(line, req, p);
      case Upgrade => OwnFails(line, req.(reqType := ReadOwn), p); UpgradeFails(line, req, p);
    }
  }

  lemma OneOwner(line: Line, req: Req, p: Params)
    requires Nodes(line.sharers, p) && |line.sharers| == 1 && req.src !in line.sharers
    ensures OthersBelow(line.sharers, req.src, p.numNodes) != []
  {
    NodeArray(line.sharers, req.src, p);
  }

  ghost predicate FailsWith(r: ReqStep, e: Option<Error>) {
    if e.Some? then r.eff == ReqFailed(e.value) else !r.eff.ReqFailed?
  }

  lemma ReadFails(line: Line, req: Req, p: Params)
    requires Nodes(line.sharers, p) && !line.pend && req.reqType == ReadSh
    ensures FailsWith(CarryOut(CoheReadSh(line, req, p), p), RequestError(line, req, p))
  {
    hide OthersBelow;
    if line.state == DirPrivate && |line.sharers| == 1 && req.src !in line.sharers { OneOwner(line, req, p); }
  }

  lemma OwnFails(line: Line, req: Req, p: Params)
    requires Nodes(line.sharers, p) && !line.pend && req.reqType == ReadOwn
    ensures FailsWith(CarryOut(CoheReadOwn(line, req, p), p), RequestError(line, req, p))
  {
    hide OthersBelow;
    if line.state == DirPrivate && |line.sharers| == 1 && req.src !in line.sharers { OneOwner(line, req, p); }
  }

  lemma UpgradeFails(line: Line, req: Req, p: Params)
    requires Nodes(line.sharers, p) && !line.pend && req.reqType == Upgrade
    requires FailsWith(CarryOut(CoheReadOwn(line, req.(reqType := ReadOwn), p), p), RequestError(line, req, p))
    ensures FailsWith(CarryOut(CoheUpgrade(line, req, p), p), RequestError(line, req, p))
  {
    hide OthersBelow, CoheReadOwn;
  }

  lemma PrivateRequest(line: Line, req: Req, p: Params)
    requires Shape(line, p) && !line.pend && line.state == DirPrivate && IsAccess(req.reqType)
    ensures var eff := OnRequest(line, req, p).eff;
            if req.src >= p.numNodes then eff == ReqFailed(InvalidNode)
            else if req.src in line.sharers then eff == HeldForWriteback
            else eff.StartForward?
  {
    hide OthersBelow;
    OwnerAlone(line, req, p);
  }

  // ---------- write-backs ----------

  /** The one fatal outcome of a write-back, if any, on any line whatever. */
  function WritebackError(line: Line, wb: Req, p: Params): Option<Error> {
    if line.extra.Some? && line.extra.value.waiting && line.extra.value.waitingFor != Some(wb.src) then
      Some(WaitingForOtherMessage)
    else if line.extra.Some? && line.extra.value.waiting && line.extra.value.counter != 1 then Some(CounterNotOne)
    else if line.state == Uncached then Some(UncachedWriteback)
    else if line.state == DirPrivate && |line.sharers| != 1 then Some(PrivateFindNotOne)
    else if wb.src >= p.numNodes then Some(InvalidNode)
    else if line.extra.Some? && line.extra.value.pendReq.id == wb.id then Some(WritebackIsPendReq)
    else None
  }

  /** Every other write-back leaves the line uncached: at rest, with the request
      that waited for it handed back as it came, or pending still, with its
      sender noted. */
  lemma WritebackUncaches(line: Line, wb: Req, p: Params)
    requires (line.pend <==> line.extra.Some?) && IsWriteback(wb)
    ensures var r := OnWriteback(line, wb, p);
            match WritebackError(line, wb, p)
            case Some(e) => r.eff == WbFailed(e)
            case None =>
              if line.extra.None? then r == WbStep(FRESH_LINE, Cleared)
              else
                var x := line.extra.value;
                if !x.waiting then r == WbStep(Line(Uncached, {}, true, Some(x.(wasHere := Some(wb.src)))), Noted)
                else if x.pendReq.forwardTo.None? then r == WbStep(FRESH_LINE, Woke(x.pendReq))
                else
                  r == WbStep(FRESH_LINE,
                              Woke(x.pendReq.(src := x.pendReq.forwardTo.value, reply := NoAck, msgType := Request)))
  {}

  // ---------- coherence replies ----------

  predicate ForwardKind(t: ReqType) {
    t == Copyback || t == CopybackShdy || t == CopybackInvl
  }

  /** The one fatal outcome of a coherence reply, if any, on any line whatever:
      nobody waits for it; it cannot end what it would have to end; it refuses
      what cannot be refused; or what it refuses cannot be taken back. */
  function ReplyError(line: Line, m: Req, p: Params): Option<Error> {
    if line.extra.None? then Some(if m.reply == Nack then NackWithoutExtra else UnexpectedCoheReply)
    else
      var x := line.extra.value;
      var undone := m.forwardTo.Some? && !ForwardKind(m.reqType);
      if x.counter == 0 && m.reply != Nack then Some(UnexpectedCoheReply)
      else if m.reply == NoAck || m.reply == Rar then Some(UnknownReplyType)
      else if m.reply == Positive || (m.reply == Nack && x.nackSt == NackOk) then
        if m.forwardTo.Some? && x.retSt != RetAckReply then Some(ForwardNotAckReply)
        else if x.counter == 1 && x.retSt == RetOther then Some(UnknownReturnState)
        else if x.counter == 1 && x.retSt == RetAckReply && m.id == x.pendReq.id then
          Some(ForwardNeitherSatisfiedNorNacked)
        else None
      else if x.nackSt == NackOk then Some(NackPendOnNackOk)
      else if x.wasHere == Some(m.src) then
        if m.forwardTo.None? then Some(NackWithoutForward) else if undone then Some(UnknownForwardType) else None
      else if m.reply == NackPend then None
      else if m.id != x.pendReq.id then Some(NackNotPendReq)
      else if m.src >= p.numNodes then Some(InvalidNode)
      else if undone then Some(UnknownForwardType)
      else None
  }

  lemma ReplyFailsExactly(line: Line, m: Req, p: Params)
    ensures var eff := OnCoheReply(line, m, p).eff;
            match ReplyError(line, m, p)
            case Some(e) => eff == ReplyFailed(e)
            case None => !eff.ReplyFailed?
  {}

  /** A forward taken back is the request it came from, a downgrade that leaves
      the line shared and dirty included. */
  lemma ForwardIsTakenBack(f: Req, n: Node)
    requires f.forwardTo == Some(n) && ForwardKind(f.reqType)
    ensures var t := if f.reqType == CopybackInvl then ReadOwn else ReadSh;
            Unforward(f) == Some(f.(src := n, forwardTo := None, reqType := t))
  {}

  // ---------- in every run ----------

  /** Event i of the run is a write that found the line settled, with another
      node listed, and `answer` is what it is to be answered. */
  ghost predicate RoundFrom(events: seq<Event>, i: nat, answer: Req, p: Params) {
    && i < |events| && events[i].Ask?
    && Run(events[..i], p).Reached? && Enabled(Run(events[..i], p).sys, events[i], p)
    && var line, req := Run(events[..i], p).sys.line, events[i].req;
       Settled(line) && IsWrite(req.reqType) && answer == req.(reqType := AnswerType(line, req, p))
  }

  ghost predicate RoundStarts(line: Line, req: Req, line': Line, p: Params) {
    Rounding(line') ==>
      Settled(line) && IsWrite(req.reqType) && line'.extra.value.pendReq == req.(reqType := AnswerType(line, req, p))
  }

  lemma AskStartsRound(line: Line, req: Req, p: Params)
    requires Shape(line, p) && line.extra.None? && IsAccess(req.reqType) && req.src < p.numNodes
    ensures RoundStarts(line, req, OnRequest(line, req, p).line, p)
  {
    hide OnRequest;
    if line.state == DirPrivate {
      OwnedStartsNoRound(line, req, p);
    } else if req.reqType == ReadSh {
      ReadIsAnswered(line, req, p);
    } else {
      WriteIsAnswered(line, req, p);
    }
  }

  lemma OwnedStartsNoRound(line: Line, req: Req, p: Params)
    requires Shape(line, p) && line.extra.None? && line.state == DirPrivate && IsAccess(req.reqType)
    ensures !Rounding(OnRequest(line, req, p).line)
  {
    hide OthersBelow;
    OwnerAlone(line, req, p);
  }

  lemma ReplyRoundStays(line: Line, m: Req, p: Params)
    requires Rounding(OnCoheReply(line, m, p).line)
    ensures Rounding(line) && line.extra.value.pendReq == OnCoheReply(line, m, p).line.extra.value.pendReq
  {}

  lemma WritebackRoundStays(line: Line, wb: Req, p: Params)
    requires Shape(line, p) && IsWriteback(wb)
    requires !OnWriteback(line, wb, p).eff.WbFailed? && Rounding(OnWriteback(line, wb, p).line)
    ensures Rounding(line) && line.extra.value.pendReq == OnWriteback(line, wb, p).line.extra.value.pendReq
  {
    hide OnWriteback;
    WritebackUncaches(line, wb, p);
  }

  /** Nothing but such a write makes a record that of a round, and nothing
      changes the answer it keeps. */
  lemma RoundIsRemembered(s: LineSys, e: Event, p: Params)
    requires Inv(s, p) && Enabled(s, e, p) && Step(s, e, p).Reached? && Rounding(Step(s, e, p).sys.line)
    ensures (e.Ask? && s.line.extra.None? && Step(s, e, p).sys.line == OnRequest(s.line, e.req, p).line)
            || (Rounding(s.line) && s.line.extra.value.pendReq == Step(s, e, p).sys.line.extra.value.pendReq)
  {
    hide OnRequest, OnCoheReply, OnWriteback, IdleInv, WaitingInv, InvalidatingInv, ForwardingInv;
    match e
    case Ask(req) => if s.line.pend { PendingLineStays(s.line, req, p); }
    case TakeReply(m) => ReplyRoundStays(s.line, m, p);
    case TakeWriteback(m) => WritebacksAreWritebacks(s, m, p); WritebackRoundStays(s.line, m, p);
    case _ =>
  }

  /** Every round in hand was started by a write of the run. */
  lemma {:induction false} RoundHasRequest(events: seq<Event>, p: Params) returns (i: nat)
    requires Run(events, p).Reached? && Rounding(Run(events, p).sys.line)
    ensures RoundFrom(events, i, Run(events, p).sys.line.extra.value.pendReq, p)
  {
    var n := |events| - 1;
    var front, e := events[..n], events[n];
    RunKeepsInv(front, p);
    var s := Run(front, p).sys;
    if Enabled(s, e, p) { RoundIsRemembered(s, e, p); }
    if Enabled(s, e, p) && e.Ask? && s.line.extra.None? {
      AskStartsRound(s.line, e.req, p);
      i := n;
    } else {
      i := RoundHasRequest(front, p);
      assert front[..i] == events[..i];
    }
  }

  /** The answer an event gives, at once or at the end of a round. */
  function AnswerGiven(s: LineSys, e: Event, p: Params): Option<Req> {
    match e
    case Ask(req) =>
      var r := OnRequest(s.line, req, p);
      if r.eff.AnswerNow? then Some(r.eff.answer) else None
    case TakeReply(m) =>
      var r := OnCoheReply(s.line, m, p);
      if r.eff.Finish? then Some(r.eff.answer) else None
    case _ => None
  }

  /** Every answer given in any run is that of a request of the run, of the type
      determined by the settled line which that request found, however long ago:
      so only an UPGRADE of a node listed when it came is told that it has the
      data. */
  lemma {:induction false} EveryAnswerIsDue(events: seq<Event>, e: Event, p: Params) returns (i: nat)
    requires Run(events, p).Reached? && Enabled(Run(events, p).sys, e, p)
    requires AnswerGiven(Run(events, p).sys, e, p).Some?
    ensures var all := events + [e];
            && i < |all| && all[i].Ask? && Run(all[..i], p).Reached? && Enabled(Run(all[..i], p).sys, all[i], p)
            && var line, req := Run(all[..i], p).sys.line, all[i].req;
               Settled(line) && AnswerGiven(Run(events, p).sys, e, p) == Some(AsAnswer(req, AnswerType(line, req, p)))
  {
    hide Run, Inv, OnRequest, OnCoheReply, AnswerType;
    RunKeepsInv(events, p);
    var s, all := Run(events, p).sys, events + [e];
    if e.Ask? {
      i := |events|;
      assert all[..i] == events;
      AskedWhileSettled(s, e.req, p);
    } else {
      FinishEndsRound(s, e.m, p);
      i := RoundHasRequest(events, p);
      assert all[..i] == events[..i];
    }
  }

  lemma AskedWhileSettled(s: LineSys, req: Req, p: Params)
    requires Inv(s, p) && Enabled(s, Ask(req), p) && OnRequest(s.line, req, p).eff.AnswerNow?
    ensures Settled(s.line) && OnRequest(s.line, req, p).eff.answer == AsAnswer(req, AnswerType(s.line, req, p))
  {
    hide OnRequest, AnswerType;
    RequestFailsExactly(s.line, req, p);
    if s.line.pend { PendingLineStays(s.line, req, p); }
    if s.line.state == DirPrivate {
      if !s.line.pend { PrivateRequest(s.line, req, p); }
    } else if !s.line.pend {
      if req.reqType == ReadSh { ReadIsAnswered(s.line, req, p); } else { WriteIsAnswered(s.line, req, p); }
    }
  }

  lemma FinishEndsRound(s: LineSys, m: Req, p: Params)
    requires Inv(s, p) && m in s.replies && OnCoheReply(s.line, m, p).eff.Finish?
    ensures Rounding(s.line) && s.line.extra.Some?
    ensures OnCoheReply(s.line, m, p).eff.answer == s.line.extra.value.pendReq.(reply := Positive, msgType := Reply)
  {
    hide Inv, OnCoheReply;
    ReplyFinds(s, m, p);
    FinishMeans(s.line, m, p);
  }

  lemma ReplyFinds(s: LineSys, m: Req, p: Params)
    requires Inv(s, p) && m in s.replies
    ensures s.line.extra.Some? && !s.line.extra.value.waiting
    ensures s.line.extra.value.nackSt == NackNok ==> s.line.extra.value.retSt == RetAckReply
  {}

  lemma FinishMeans(line: Line, m: Req, p: Params)
    requires line.extra.Some? && OnCoheReply(line, m, p).eff.Finish?
    ensures line.extra.value.retSt != RetAckReply
    ensures OnCoheReply(line, m, p).eff.answer == line.extra.value.pendReq.(reply := Positive, msgType := Reply)
  {}
}
