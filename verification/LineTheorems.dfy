/** What the protocol of one line guarantees. */
module LineTheorems {
  import opened Common
  import opened DirTypes
  import opened LineSpec
  import opened LineShape
  import opened LineProtocol
  import opened LineSafety

  // ---------- single writer, listed holders ----------

  /** At most one node may hold the line exclusively, and then no other node
      holds it at all. */
  ghost predicate SingleWriter(s: LineSys) {
    s.excl == {} || (|s.excl| == 1 && s.shrd == {})
  }

  /** The sharer vector of a line at rest covers every node that may hold a
      copy. */
  ghost predicate HoldersListed(s: LineSys) {
    !s.line.pend ==> s.excl + s.shrd <= s.line.sharers
  }

  lemma OwnedIsSingle(s: LineSys, a: Node)
    requires OwnedBy(s, a)
    ensures SingleWriter(s) && s.excl <= {a}
  {}

  lemma InvIsCoherent(s: LineSys, p: Params)
    requires Inv(s, p)
    ensures SingleWriter(s) && HoldersListed(s)
  {
    if s.line.extra.None? {
      if s.line.state == DirPrivate {
        HasMember(s.line.sharers);
        var a :| s.line.sharers == {a};
        OwnedIsSingle(s, a);
      }
    } else if s.line.extra.value.waiting {
      OwnedIsSingle(s, s.line.extra.value.waitingFor.value);
    } else if Forwarding(s, p) {
      ForwardingIsSingle(s, s.line.extra.value, p);
    }
  }

  lemma ForwardingIsSingle(s: LineSys, x: Extra, p: Params)
    requires ForwardingInv(s, x, p)
    ensures SingleWriter(s)
  {
    var a, b := x.pendReq.dest, x.pendReq.forwardTo.value;
    if r :| r in s.replies { assert ReplyInv(s, x, r, a, b); }
  }

  /** Coherence: whatever the order of requests, answers, refusals,
      postponements and write-backs, the directory reaches no error site, and
      in every state it reaches there is a single writer or none, and every
      holder of a line at rest is in its sharer vector. */
  lemma {:induction false} Coherence(events: seq<Event>, p: Params)
    ensures Run(events, p).Reached?
    ensures SingleWriter(Run(events, p).sys) && HoldersListed(Run(events, p).sys)
    ensures Shape(Run(events, p).sys.line, p)
  {
    RunKeepsInv(events, p);
    InvIsCoherent(Run(events, p).sys, p);
  }

  // ---------- exclusive answers ----------

  /** The node an event makes an exclusive holder: by an immediate answer, by
      the answer that ends a round of invalidations, or by the owner serving a
      COPYBACK_INVL. */
  function ExclusiveAnswer(s: LineSys, e: Event, p: Params): Option<Node> {
    match e
    case Ask(req) =>
      var r := OnRequest(s.line, req, p);
      if r.eff.AnswerNow? && r.eff.answer.reqType != ReplySh then Some(r.eff.answer.src) else None
    case TakeReply(m) =>
      var r := OnCoheReply(s.line, m, p);
      if r.eff.Finish? && r.eff.answer.reqType != ReplySh then Some(r.eff.answer.src) else None
    case Transfer(m, _) => if m.reqType == CopybackInvl then m.forwardTo else None
    case _ => None
  }

  /** Only the former owner, which gives its copy up in the same step, may hold
      the line besides the node an exclusive answer goes to. */
  lemma {:induction false} ExclusiveAnswersAreSafe(events: seq<Event>, e: Event, p: Params)
    requires Run(events, p).Reached?
    requires Enabled(Run(events, p).sys, e, p)
    requires ExclusiveAnswer(Run(events, p).sys, e, p).Some?
    ensures var s, n := Run(events, p).sys, ExclusiveAnswer(Run(events, p).sys, e, p).value;
            && Step(s, e, p).Reached?
            && Step(s, e, p).sys.excl == {n} && Step(s, e, p).sys.shrd == {}
            && s.excl + s.shrd <= if e.Transfer? then {e.m.dest} else {n}
  {
    RunKeepsInv(events, p);
    var s := Run(events, p).sys;
    AnswerFindsNoOthers(s, e, p);
    StepKeepsInv(s, e, p);
    InvIsCoherent(Step(s, e, p).sys, p);
    AnswerMakesHolder(s, e, p);
    LoneElement(Step(s, e, p).sys.excl, ExclusiveAnswer(s, e, p).value);
  }

  lemma AnswerFindsNoOthers(s: LineSys, e: Event, p: Params)
    requires Inv(s, p) && Enabled(s, e, p) && ExclusiveAnswer(s, e, p).Some?
    ensures s.excl + s.shrd <= if e.Transfer? then {e.m.dest} else {ExclusiveAnswer(s, e, p).value}
  {
    match e
    case Ask(req) => AnsweredAlone(s, req, p);
    case TakeReply(m) => FinishedAlone(s, m, p);
    case Transfer(m, _) => InvIsCoherent(s, p); LoneElement(s.excl, m.dest);
  }

  lemma AnsweredAlone(s: LineSys, req: Req, p: Params)
    requires Inv(s, p) && Enabled(s, Ask(req), p) && OnRequest(s.line, req, p).eff.AnswerNow?
    requires OnRequest(s.line, req, p).eff.answer.reqType != ReplySh
    ensures s.excl + s.shrd <= {OnRequest(s.line, req, p).eff.answer.src}
  {
    InvIsCoherent(s, p);
    ImmediateAnswer(s.line, req, p);
    assert !s.line.pend;
  }

  lemma AnswerMakesHolder(s: LineSys, e: Event, p: Params)
    requires Enabled(s, e, p) && ExclusiveAnswer(s, e, p).Some? && Step(s, e, p).Reached?
    ensures ExclusiveAnswer(s, e, p).value in Step(s, e, p).sys.excl
  {}

  lemma LoneElement(s: set<Node>, n: Node)
    requires n in s && |s| == 1
    ensures s == {n}
  {
    HasMember(s);
  }

  /** What an immediate answer says of the line it was given on. */
  ghost predicate AnsweredAtOnce(line: Line, src: Node, r: ReqStep) {
    r.eff.AnswerNow? ==>
      && r.eff.answer.src == src && !r.line.pend && r.line.extra.None?
      && (r.eff.answer.reqType == ReplySh || r.eff.answer.reqType == ReplyExcl || r.eff.answer.reqType == ReplyUpgrade)
      && (r.eff.answer.reqType != ReplySh ==> line.sharers <= {src})
  }

  lemma WriteAnswered(line: Line, req: Req, answer: ReqType, ret: RetSt, p: Params)
    requires Shape(line, p) && !line.pend && line.state == DirShared && (answer == ReplyExcl || answer == ReplyUpgrade)
    ensures AnsweredAtOnce(line, req.src, CarryOut(InvalidateOthers(line, req, answer, ret, p), p))
  {
    if req.src in line.sharers && |line.sharers| == 1 { LoneElement(line.sharers, req.src); }
  }

  lemma ReadAnswered(line: Line, req: Req, p: Params)
    requires Shape(line, p) && !line.pend
    ensures AnsweredAtOnce(line, req.src, CarryOut(CoheReadSh(line, req, p), p))
  {}

  lemma OwnAnswered(line: Line, req: Req, p: Params)
    requires Shape(line, p) && !line.pend
    ensures AnsweredAtOnce(line, req.src, CarryOut(CoheReadOwn(line, req, p), p))
  {
    if line.state == DirShared { WriteAnswered(line, req, ReplyExcl, RetSpecialReply, p); }
  }

  lemma ImmediateAnswer(line: Line, req: Req, p: Params)
    requires Shape(line, p) && IsAccess(req.reqType)
    ensures AnsweredAtOnce(line, req.src, OnRequest(line, req, p))
  {
    if !line.pend {
      match req.reqType
      case ReadSh => ReadAnswered(line, req, p);
      case ReadOwn => OwnAnswered(line, req, p);
      case Upgrade =>
        OwnAnswered(line, req.(reqType := ReadOwn), p);
        if line.state == DirShared { WriteAnswered(line, req, ReplyUpgrade, RetDirReply, p); }
    }
  }

  lemma FinishedAlone(s: LineSys, m: Req, p: Params)
    requires Inv(s, p) && m in s.replies && OnCoheReply(s.line, m, p).eff.Finish?
    ensures s.excl + s.shrd <= {OnCoheReply(s.line, m, p).eff.answer.src}
  {
    if Invalidating(s, p) && s.line.extra.value.counter <= 1 { CollectLastInvl(s, m, p); }
  }

  // ---------- invalidation rounds ----------

  /** The counter of an invalidating transaction is what remains to be sent
      plus what is still in flight, so it reaches 0 exactly when every
      invalidation was sent and answered, and the record is kept for as long
      as invalidations remain to be sent. */
  lemma {:induction false} CounterBalances(events: seq<Event>, p: Params)
    requires Run(events, p).Reached? && Rounding(Run(events, p).sys.line)
    ensures var s := Run(events, p).sys;
            var x := s.line.extra.value;
            x.counter == x.numLeft + |s.cohes| + |s.replies| && 0 <= x.numLeft <= |x.nodeAry| && x.counter > 0
  {
    RunKeepsInv(events, p);
  }

  /** The line and record of a round of invalidations on behalf of `src`. */
  ghost predicate RoundStarted(line: Line, src: Node, r: ReqStep) {
    && r.line.sharers == {src} && r.line.state == DirPrivate
    && (r.eff.AnswerNow? <==> line.sharers <= {src})
    && (!r.eff.AnswerNow? ==>
          && r.eff.StartInvalidating? && r.line.extra.Some?
          && var x := r.line.extra.value;
          && (set n | n in x.nodeAry) == line.sharers - {src}
          && (forall i, j :: 0 <= i < j < |x.nodeAry| ==> x.nodeAry[i] < x.nodeAry[j])
          && x.counter == x.numLeft == |x.nodeAry| && x.nextReqType == Invl && x.nackSt == NackOk)
  }

  lemma InvalidateStarts(line: Line, req: Req, answer: ReqType, ret: RetSt, p: Params)
    requires Shape(line, p) && !line.pend && line.state == DirShared && req.src < p.numNodes
    ensures RoundStarted(line, req.src, CarryOut(InvalidateOthers(line, req, answer, ret, p), p))
  {
    hide OthersBelow;
    var others := OthersBelow(line.sharers, req.src, p.numNodes);
    NodeArray(line.sharers, req.src, p);
    OthersListed(line.sharers, req.src, p.numNodes);
    OthersAsSet(line.sharers, req.src, others);
  }

  lemma OthersAsSet(s: set<Node>, me: Node, others: seq<Node>)
    requires forall i :: 0 <= i < |others| ==> others[i] in s && others[i] != me
    requires forall k :: k in s && k != me ==> k in others
    ensures (set n | n in others) == s - {me}
    ensures others == [] <==> s <= {me}
  {
    assert others != [] ==> others[0] in s && others[0] != me;
  }

  /** A write to a shared line addresses an invalidation to every old sharer
      but the requester, once each and in ascending order, and leaves the
      requester alone in the vector; it is answered at once exactly when there
      is no other sharer. */
  lemma WriteInvalidatesOthers(line: Line, req: Req, p: Params)
    requires Shape(line, p) && !line.pend && line.state == DirShared && req.src < p.numNodes
    requires req.reqType == ReadOwn || req.reqType == Upgrade
    ensures RoundStarted(line, req.src, OnRequest(line, req, p))
  {
    if req.reqType == Upgrade && req.src in line.sharers {
      InvalidateStarts(line, req, ReplyUpgrade, RetDirReply, p);
    } else {
      InvalidateStarts(line, req.(reqType := ReadOwn), ReplyExcl, RetSpecialReply, p);
    }
  }

  function SendAll(line: Line, req: Req, p: Params, n: nat): (Line, seq<Req>)
    decreases n
  {
    if n == 0 then (line, [])
    else
      match OnSendInvl(line, req, p, Allocated(n))
      case CannotSend(_) => (line, [])
      case Sends(line', m) => var (l, ms) := SendAll(line', req, p, n - 1); (l, [m] + ms)
  }

  /** The invalidation for entry k of the node array. */
  function InvalidationOf(req: Req, x: Extra, k: nat, p: Params): Req
    requires k < |x.nodeAry|
  {
    Req(Allocated(k + 1), req.tag, x.nextReqType, p.home, x.nodeAry[k], None, Cohe, NoAck, false)
  }

  /** Sending until nothing is left sends exactly one invalidation to each
      entry of the node array, from the last to the first, and changes nothing
      else of the record. */
  lemma {:induction false} EveryInvalidationIsSent(line: Line, req: Req, p: Params)
    requires line.extra.Some? && 0 <= line.extra.value.numLeft <= |line.extra.value.nodeAry|
    ensures var x := line.extra.value;
            var (line', ms) := SendAll(line, req, p, x.numLeft);
            && line' == line.(extra := Some(x.(numLeft := 0)))
            && |ms| == x.numLeft
            && forall k :: 0 <= k < x.numLeft ==> ms[x.numLeft - 1 - k] == InvalidationOf(req, x, k, p)
    decreases line.extra.value.numLeft
  {
    var x := line.extra.value;
    if x.numLeft == 0 {
    } else {
      var s := OnSendInvl(line, req, p, Allocated(x.numLeft));
      EveryInvalidationIsSent(s.line, req, p);
      var (l, ms) := SendAll(s.line, req, p, x.numLeft - 1);
      var x' := s.line.extra.value;
      forall k | 0 <= k < x.numLeft
        ensures ([s.cohe] + ms)[x.numLeft - 1 - k] == InvalidationOf(req, x, k, p)
      {
        if k < x'.numLeft { assert ms[x'.numLeft - 1 - k] == InvalidationOf(req, x', k, p); }
      }
    }
  }

  // ---------- write-back races ----------

  /** A write-back never meets an uncached line, nor a line that waits for
      another node. */
  lemma {:induction false} WritebackMeetsOwner(events: seq<Event>, m: Req, p: Params)
    requires Run(events, p).Reached? && m in Run(events, p).sys.wbs
    ensures var line := Run(events, p).sys.line;
            line.state != Uncached
            && (line.extra.Some? && line.extra.value.waiting ==> line.extra.value.waitingFor == Some(m.src))
            && (!line.pend ==> line.sharers == {m.src})
  {
    hide Run, Inv;
    RunKeepsInv(events, p);
    WritebackFinds(Run(events, p).sys, m, p);
  }

  lemma WritebackFinds(s: LineSys, m: Req, p: Params)
    requires Inv(s, p) && m in s.wbs
    ensures s.line.state != Uncached
    ensures s.line.extra.Some? && s.line.extra.value.waiting ==> s.line.extra.value.waitingFor == Some(m.src)
    ensures !s.line.pend ==> s.line.sharers == {m.src}
  {
    if s.line.extra.None? {
      if s.line.state == DirPrivate { HasMember(s.line.sharers); }
    } else if !s.line.extra.value.waiting {
      SurpriseFinds(s, m, p);
    }
  }

  lemma SurpriseFinds(s: LineSys, m: Req, p: Params)
    requires Inv(s, p) && m in s.wbs && s.line.extra.Some? && !s.line.extra.value.waiting
    ensures s.line.state != Uncached && s.line.pend
  {
    hide Step, StepWriteback;
    SurpriseMeetsForward(s, m, p);
    var x := s.line.extra.value;
    if r :| r in s.replies { assert ReplyInv(s, x, r, x.pendReq.dest, x.pendReq.forwardTo.value); }
  }

  /** A request that overtook its own node's write-back: the line stays private
      to that node until the write-back comes; then it is uncached and at
      rest, and the very same request is handed back. */
  lemma OvertakenWriteback(line: Line, req: Req, wb: Req, p: Params)
    requires Shape(line, p) && !line.pend && line.state == DirPrivate && line.sharers == {req.src}
    requires IsAccess(req.reqType) && req.forwardTo.None?
    requires IsWriteback(wb) && wb.src == req.src && wb.id != req.id
    ensures var held := OnRequest(line, req, p);
            var kept := if req.reqType == Upgrade then req.(reqType := ReadOwn) else req;
            && held.eff == HeldForWriteback
            && held.line.state == DirPrivate && held.line.sharers == {req.src} && held.line.pend
            && held.line.extra.Some? && held.line.extra.value.pendReq == kept
            && OnWriteback(held.line, wb, p) == WbStep(FRESH_LINE, Woke(kept))
  {
    assert req.src in line.sharers && req.src < p.numNodes;
  }

  // ---------- failed forwards ----------

  /** A request on a line private to another node. */
  predicate ForwardCase(line: Line, req: Req, a: Node, p: Params) {
    && !line.pend && line.extra.None? && line.state == DirPrivate && line.sharers == {a}
    && a < p.numNodes && req.src < p.numNodes && req.src != a
    && IsAccess(req.reqType) && req.forwardTo.None? && req.msgType == Request && req.reply == NoAck
    && req.dest == p.home
  }

  /** The request as a retry or a second attempt carries it. */
  function AsRetried(req: Req): Req {
    if req.reqType == Upgrade then req.(reqType := ReadOwn) else req
  }

  lemma ForwardLeaves(line: Line, req: Req, a: Node, p: Params)
    requires ForwardCase(line, req, a, p)
    ensures var r := OnRequest(line, req, p);
            var kind := if req.reqType == ReadSh then Copyback else CopybackInvl;
            && r.eff.StartForward?
            && r.eff.cohe == req.(reqType := kind, src := p.home, dest := a, forwardTo := Some(req.src),
                                  msgType := Cohe)
            && r.line == line.(state := if kind == Copyback then DirShared else DirPrivate,
                               sharers := if kind == Copyback then {a, req.src} else {req.src},
                               pend := true, extra := r.line.extra)
            && r.line.extra.Some?
            && var x := r.line.extra.value;
               x.pendReq == r.eff.cohe && x.counter == x.numLeft == 1 && x.nackSt == NackNok && x.retSt == RetAckReply
               && x.wasHere.None? && !x.waiting
  {
    assert Nodes(line.sharers, p);
    OneOther(line.sharers, a, req.src, p);
    assert line.sharers + {req.src} == {a, req.src};
  }

  /** Refused with no write-back seen: the line is exactly what it was, and the
      requester is told to retry its own request. */
  lemma RefusalUndoesForward(line: Line, req: Req, a: Node, p: Params)
    requires ForwardCase(line, req, a, p)
    ensures var r := OnRequest(line, req, p);
            r.eff.StartForward?
            && OnCoheReply(r.line, ReplyTo(r.eff.cohe, Nack), p)
               == ReplyStep(line, Retry(AsRetried(req).(reply := Rar, msgType := Reply)))
  {
    ForwardLeaves(line, req, a, p);
  }

  /** Refused or postponed after the owner's write-back: the line is uncached
      and at rest, and the original request starts over. */
  lemma WritebackRestartsForward(line: Line, req: Req, a: Node, wb: Req, ack: Ack, p: Params)
    requires ForwardCase(line, req, a, p)
    requires IsWriteback(wb) && wb.src == a && wb.id != req.id && (ack == Nack || ack == NackPend)
    ensures var r := OnRequest(line, req, p);
            && r.eff.StartForward?
            && OnWriteback(r.line, wb, p).eff == Noted
            && OnCoheReply(OnWriteback(r.line, wb, p).line, ReplyTo(r.eff.cohe, ack), p)
               == ReplyStep(FRESH_LINE, Requeue(AsRetried(req)))
  {
    ForwardLeaves(line, req, a, p);
  }

  /** Postponed with no write-back seen: the same forward goes out again and
      the line is unchanged. */
  lemma PostponementResends(line: Line, req: Req, a: Node, p: Params)
    requires ForwardCase(line, req, a, p)
    ensures var r := OnRequest(line, req, p);
            && r.eff.StartForward?
            && OnCoheReply(r.line, ReplyTo(r.eff.cohe, NackPend), p)
               == ReplyStep(r.line, Resend(r.eff.cohe.(reply := NackPend)))
  {
    ForwardLeaves(line, req, a, p);
  }

  // ---------- failed forwards, in every run ----------

  /** The line's record belongs to a forward. */
  predicate Forwarded(line: Line) {
    line.extra.Some? && !line.extra.value.waiting && line.extra.value.nackSt == NackNok
  }

  /** The request as it leaves for the owner `a`. */
  function AsForward(req: Req, a: Node, p: Params): Req {
    var kind := if req.reqType == ReadSh then Copyback else CopybackInvl;
    req.(forwardTo := Some(req.src), src := p.home, dest := a, reqType := kind, reply := NoAck, msgType := Cohe)
  }

  /** Event i of the run is a request that found the line private to another
      node `a` and was forwarded to it as `f`. */
  ghost predicate StartedBy(events: seq<Event>, i: nat, a: Node, f: Req, p: Params) {
    && i < |events| && events[i].Ask?
    && Run(events[..i], p).Reached? && Enabled(Run(events[..i], p).sys, events[i], p)
    && Run(events[..i], p).sys.line == Line(DirPrivate, {a}, false, None)
    && events[i].req.src != a && f == AsForward(events[i].req, a, p)
  }

  ghost predicate ForwardStarts(line: Line, req: Req, line': Line, p: Params) {
    Forwarded(line') ==>
      var f := line'.extra.value.pendReq;
      line == Line(DirPrivate, {f.dest}, false, None) && req.src != f.dest && f == AsForward(req, f.dest, p)
  }

  lemma ReadStarts(line: Line, req: Req, p: Params)
    requires Shape(line, p) && line.extra.None? && req.reqType == ReadSh
    ensures ForwardStarts(line, req, CarryOut(CoheReadSh(line, req, p), p).line, p)
  {
    if line.state == DirPrivate { OwnerAlone(line, req, p); }
  }

  lemma WriteStarts(line: Line, req: Req, p: Params)
    requires Shape(line, p) && line.extra.None? && (req.reqType == ReadOwn || req.reqType == Upgrade)
    ensures ForwardStarts(line, req, CarryOut(CoheReadOwn(line, req.(reqType := ReadOwn), p), p).line, p)
  {
    if line.state == DirPrivate { OwnerAlone(line, req, p); }
  }

  lemma OwnerAlone(line: Line, req: Req, p: Params)
    requires Shape(line, p) && line.state == DirPrivate
    ensures |line.sharers| == 1
    ensures req.src !in line.sharers ==>
              exists a :: line.sharers == {a} && OthersBelow(line.sharers, req.src, p.numNodes) == [a]
  {
    HasMember(line.sharers);
    var a :| line.sharers == {a};
    assert Nodes(line.sharers, p);
    if req.src != a { OneOther(line.sharers, a, req.src, p); }
  }

  /** A request starts a forward only from a line private to another node. */
  lemma AskStartsForward(line: Line, req: Req, p: Params)
    requires Shape(line, p) && line.extra.None? && IsAccess(req.reqType)
    ensures ForwardStarts(line, req, OnRequest(line, req, p).line, p)
  {
    hide OthersBelow;
    match req.reqType
    case ReadSh => ReadStarts(line, req, p);
    case _ => WriteStarts(line, req, p);
  }

  lemma ReplyRemembers(line: Line, m: Req, p: Params)
    requires Forwarded(OnCoheReply(line, m, p).line)
    ensures Forwarded(line) && line.extra.value.pendReq == OnCoheReply(line, m, p).line.extra.value.pendReq
  {}

  lemma WritebackRemembers(line: Line, m: Req, p: Params)
    requires !OnWriteback(line, m, p).eff.WbFailed? && Forwarded(OnWriteback(line, m, p).line)
    requires line.pend <==> line.extra.Some?
    ensures Forwarded(line) && line.extra.value.pendReq == OnWriteback(line, m, p).line.extra.value.pendReq
  {}

  /** Nothing but such a request makes a line's record that of a forward, and
      nothing changes what the record remembers of it. */
  lemma ForwardIsRemembered(s: LineSys, e: Event, p: Params)
    requires Inv(s, p) && Enabled(s, e, p) && Step(s, e, p).Reached? && Forwarded(Step(s, e, p).sys.line)
    ensures (e.Ask? && s.line.extra.None? && Step(s, e, p).sys.line == OnRequest(s.line, e.req, p).line)
            || (Forwarded(s.line) && s.line.extra.value.pendReq == Step(s, e, p).sys.line.extra.value.pendReq)
  {
    hide OnRequest, OnCoheReply, OnWriteback, IdleInv, WaitingInv, InvalidatingInv, ForwardingInv;
    match e
    case Ask(req) => if s.line.pend { PendingLineStays(s.line, req, p); }
    case TakeReply(m) => ReplyRemembers(s.line, m, p);
    case TakeWriteback(m) => WritebackRemembers(s.line, m, p);
    case _ =>
  }

  lemma PendingLineStays(line: Line, req: Req, p: Params)
    requires line.pend && !IsWriteback(req)
    ensures OnRequest(line, req, p).line == line
  {}

  /** Every forward in hand was started by a request of the run. */
  lemma {:induction false} ForwardHasRequest(events: seq<Event>, p: Params) returns (i: nat)
    requires Run(events, p).Reached? && Forwarded(Run(events, p).sys.line)
    ensures var f := Run(events, p).sys.line.extra.value.pendReq; StartedBy(events, i, f.dest, f, p)
  {
    var n := |events| - 1;
    var front, e := events[..n], events[n];
    RunKeepsInv(front, p);
    var s := Run(front, p).sys;
    if Enabled(s, e, p) { ForwardIsRemembered(s, e, p); }
    if Enabled(s, e, p) && e.Ask? && s.line.extra.None? {
      AskStartsForward(s.line, e.req, p);
      i := n;
    } else {
      i := ForwardHasRequest(front, p);
      assert front[..i] == events[..i];
    }
  }

  /** A forward that fails is undone exactly, in any reachable state and after
      any number of postponements. With no write-back seen, a refusal puts the
      line back to what it was when the request came and tells the requester
      to retry that very request, and a postponement sends the forward again.
      After the owner's write-back either one leaves an uncached line at rest
      and serves that request from the start. */
  lemma {:induction false} FailedForwardIsUndone(events: seq<Event>, m: Req, p: Params) returns (i: nat)
    requires Run(events, p).Reached? && m in Run(events, p).sys.replies
    requires m.forwardTo.Some? && (m.reply == Nack || m.reply == NackPend)
    ensures var s := Run(events, p).sys;
            && Forwarded(s.line)
            && var x := s.line.extra.value;
            && StartedBy(events, i, x.pendReq.dest, x.pendReq, p)
            && var again := AsRetried(events[i].req).(dest := p.home);
            && OnCoheReply(s.line, m, p)
               == if x.wasHere.Some? then ReplyStep(FRESH_LINE, Requeue(again.(reply := NoAck, msgType := Request)))
                  else if m.reply == Nack then
                    ReplyStep(Run(events[..i], p).sys.line, Retry(again.(reply := Rar, msgType := Reply)))
                  else ReplyStep(s.line, Resend(x.pendReq.(reply := NackPend)))
  {
    RunKeepsInv(events, p);
    var s := Run(events, p).sys;
    ForwardReplies(s, m, p);
    i := ForwardHasRequest(events, p);
    FailureEnds(s, m, events[i].req, p);
  }

  /** A reply that says where a forward goes belongs to the line's forward. */
  lemma ForwardReplies(s: LineSys, m: Req, p: Params)
    requires Inv(s, p) && m in s.replies && m.forwardTo.Some?
    ensures Forwarded(s.line) && ForwardingInv(s, s.line.extra.value, p)
    ensures var f := s.line.extra.value.pendReq;
            f.forwardTo.Some? && ReplyInv(s, s.line.extra.value, m, f.dest, f.forwardTo.value)
  {}

  lemma FailureEnds(s: LineSys, m: Req, req: Req, p: Params)
    requires Forwarded(s.line) && ForwardingInv(s, s.line.extra.value, p) && Shape(s.line, p)
    requires var f := s.line.extra.value.pendReq;
             ReplyInv(s, s.line.extra.value, m, f.dest, f.forwardTo.value) && f == AsForward(req, f.dest, p)
    requires IsAccess(req.reqType) && req.forwardTo.None? && (m.reply == Nack || m.reply == NackPend)
    ensures var x := s.line.extra.value;
            var again := AsRetried(req).(dest := p.home);
            OnCoheReply(s.line, m, p)
            == if x.wasHere.Some? then ReplyStep(FRESH_LINE, Requeue(again.(reply := NoAck, msgType := Request)))
               else if m.reply == Nack then
                 ReplyStep(Line(DirPrivate, {x.pendReq.dest}, false, None),
                           Retry(again.(reply := Rar, msgType := Reply)))
               else ReplyStep(s.line, Resend(x.pendReq.(reply := NackPend)))
  {}

  // ---------- an immediate answer with no room to send it ----------

  /** DIRREQ's reaction to a full reply port after an immediate answer: the
      request goes back to being a REQUEST, with the type Dir_Cohe gave it. */
  function BackToRequest(answer: Req): Req {
    answer.(msgType := Request)
  }

  /** The second attempt of a request answered at once succeeds only if it was
      never needed: with the reply port full the first time, Dir_Cohe no longer
      recognises the request. */
  lemma RetriedAnswerIsFatal(line: Line, req: Req, p: Params)
    requires Shape(line, p) && !line.pend && IsAccess(req.reqType)
    requires OnRequest(line, req, p).eff.AnswerNow?
    ensures var r := OnRequest(line, req, p);
            OnRequest(r.line, BackToRequest(r.eff.answer), p).eff == ReqFailed(UnknownRequestType)
  {
    ImmediateAnswer(line, req, p);
    var r := OnRequest(line, req, p);
    assert DirCohe(r.line, BackToRequest(r.eff.answer), p).out == Failed(UnknownRequestType);
  }
}
