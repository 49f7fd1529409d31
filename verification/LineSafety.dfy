/** Coherence of one line in every run the cache rules allow. */
module LineSafety {
  import opened Common
  import opened DirTypes
  import opened LineSpec
  import opened LineShape
  import opened LineProtocol

  ghost predicate Good(o: Outcome, p: Params) {
    o.Reached? && Inv(o.sys, p)
  }

  // ---------- multisets with at most one message ----------

  lemma EmptyBag<T>(b: multiset<T>)
    requires |b| == 0
    ensures b == multiset{}
  {}

  lemma OnlyMessage<T>(b: multiset<T>, m: T)
    requires m in b && |b| <= 1
    ensures b == multiset{m} && b - multiset{m} == multiset{}
  {
    assert |b - multiset{m}| == 0;
    EmptyBag(b - multiset{m});
    assert b == (b - multiset{m}) + multiset{m};
  }

  // ---------- the list of other sharers ----------

  /** The node array lists, in ascending order, exactly the other sharers. */
  lemma {:induction false} OthersListed(s: set<Node>, me: Node, n: nat)
    ensures var r := OthersBelow(s, me, n);
            && (forall i :: 0 <= i < |r| ==> r[i] in s && r[i] != me && r[i] < n)
            && (forall i, j :: 0 <= i < j < |r| ==> r[i] < r[j])
            && (forall k :: k in s && k != me && k < n ==> k in r)
  {
    if n == 0 {
    } else {
      OthersListed(s, me, n - 1);
    }
  }

  lemma {:induction false} OthersCount(s: set<Node>, me: Node, n: nat)
    ensures |OthersBelow(s, me, n)| == |set k | k in s && k < n && k != me|
  {
    var below := set k | k in s && k < n && k != me;
    if n == 0 {
      assert below == {};
    } else {
      OthersCount(s, me, n - 1);
      var fewer := set k | k in s && k < n - 1 && k != me;
      assert below == if n - 1 in s && n - 1 != me then fewer + {n - 1} else fewer;
    }
  }

  lemma WithoutMe(s: set<Node>, me: Node, n: nat)
    requires forall k :: k in s ==> k < n
    ensures |set k | k in s && k < n && k != me| == (if me in s then |s| - 1 else |s|)
  {
    assert (set k | k in s && k < n && k != me) == s - {me};
    if me !in s { assert s - {me} == s; }
  }

  /** So it is as long as the counter of the transaction says. */
  lemma NodeArray(s: set<Node>, me: Node, p: Params)
    requires Nodes(s, p)
    ensures |OthersBelow(s, me, p.numNodes)| == (if me in s then |s| - 1 else |s|)
    ensures forall k :: k in s && k != me ==> k in OthersBelow(s, me, p.numNodes)
    ensures forall i :: 0 <= i < |OthersBelow(s, me, p.numNodes)| ==> OthersBelow(s, me, p.numNodes)[i] in s
  {
    OthersListed(s, me, p.numNodes);
    OthersCount(s, me, p.numNodes);
    WithoutMe(s, me, p.numNodes);
  }

  // ---------- requests ----------

  /** A step of the directory that leaves the line as `r` and answers, holds
      or starts a transaction as `r` says. */
  ghost predicate GoodStep(s: LineSys, r: ReqStep, p: Params) {
    Good(Asked(s, r), p)
  }

  ghost predicate Idle(s: LineSys, p: Params) {
    Inv(s, p) && !s.line.pend
  }

  lemma ReadShUncached(s: LineSys, req: Req, p: Params)
    requires Idle(s, p) && s.line.state == Uncached && req.src < p.numNodes
    ensures GoodStep(s, CarryOut(CoheReadSh(s.line, req, p), p), p)
  {
    assert s.line.sharers + {req.src} == {req.src};
  }

  lemma ReadShShared(s: LineSys, req: Req, p: Params)
    requires Idle(s, p) && s.line.state == DirShared && req.src < p.numNodes
    ensures GoodStep(s, CarryOut(CoheReadSh(s.line, req, p), p), p)
  {
    assert s.line.sharers == {req.src} ==> s.line.sharers + {req.src} == {req.src};
  }

  lemma OvertakenCopy(s: LineSys, req: Req, p: Params)
    requires Idle(s, p) && s.line.state == DirPrivate && req.src in s.line.sharers
    requires req.forwardTo.None? && req.id.Txn? && IsAccess(req.reqType)
    ensures GoodStep(s, CarryOut(AwaitWriteback(s.line, req, p), p), p)
  {
    HasMember(s.line.sharers);
  }

  /** A forward started for `b` on a line private to `a`. */
  lemma StartedForward(s: LineSys, r: CoheResult, a: Node, b: Node, p: Params)
    requires Idle(s, p) && s.line.state == DirPrivate && s.line.sharers == {a} && a != b && b < p.numNodes
    requires r.out == ForwardRequest && r.req.src == b && r.req.id.Txn? && r.extra.Some?
    requires var x := r.extra.value;
             x.nodeAry == [a] && x.counter == 1 && x.retSt == RetAckReply && x.nackSt == NackNok
             && IsForwardType(x.nextReqType) && !x.waiting && x.wasHere.None?
             && r.line == s.line.(state := if x.nextReqType == Copyback then DirShared else DirPrivate,
                                  sharers := if x.nextReqType == Copyback then {a, b} else {b})
    ensures GoodStep(s, CarryOut(r, p), p)
  {
    assert a in s.line.sharers && OwnedBy(s, a);
    var m := ForwardOf(r.req, r.extra.value, p);
    var st := CarryOut(r, p);
    assert st.eff == StartForward(m);
    var s' := s.(line := st.line, queued := s.queued + multiset{m});
    assert s'.queued == multiset{m};
    assert ForwardingInv(s', st.line.extra.value, p);
  }

  lemma OneOther(s: set<Node>, a: Node, b: Node, p: Params)
    requires Nodes(s, p) && s == {a} && a != b
    ensures OthersBelow(s, b, p.numNodes) == [a]
  {
    NodeArray(s, b, p);
  }

  lemma ReadShPrivate(s: LineSys, req: Req, p: Params)
    requires Idle(s, p) && s.line.state == DirPrivate && req.src < p.numNodes && req.src !in s.line.sharers
    requires req.forwardTo.None? && req.id.Txn?
    ensures GoodStep(s, CarryOut(CoheReadSh(s.line, req, p), p), p)
  {
    HasMember(s.line.sharers);
    var a :| s.line.sharers == {a};
    OneOther(s.line.sharers, a, req.src, p);
    assert s.line.sharers + {req.src} == {a, req.src};
    StartedForward(s, CoheReadSh(s.line, req, p), a, req.src, p);
  }

  lemma ReadOwnUncached(s: LineSys, req: Req, p: Params)
    requires Idle(s, p) && s.line.state == Uncached && req.src < p.numNodes
    ensures GoodStep(s, CarryOut(CoheReadOwn(s.line, req, p), p), p)
  {
    assert s.line.sharers + {req.src} == {req.src};
  }

  lemma ReadOwnPrivate(s: LineSys, req: Req, p: Params)
    requires Idle(s, p) && s.line.state == DirPrivate && req.src < p.numNodes && req.src !in s.line.sharers
    requires req.forwardTo.None? && req.id.Txn?
    ensures GoodStep(s, CarryOut(CoheReadOwn(s.line, req, p), p), p)
  {
    HasMember(s.line.sharers);
    var a :| s.line.sharers == {a};
    OneOther(s.line.sharers, a, req.src, p);
    StartedForward(s, CoheReadOwn(s.line, req, p), a, req.src, p);
  }

  ghost predicate WriteAnswer(answer: ReqType, ret: RetSt) {
    (answer == ReplyExcl && ret == RetSpecialReply) || (answer == ReplyUpgrade && ret == RetDirReply)
  }

  lemma WriteShared(s: LineSys, req: Req, answer: ReqType, ret: RetSt, p: Params)
    requires Idle(s, p) && s.line.state == DirShared && req.src < p.numNodes && req.id.Txn? && req.forwardTo.None?
    requires WriteAnswer(answer, ret)
    ensures GoodStep(s, CarryOut(InvalidateOthers(s.line, req, answer, ret, p), p), p)
  {
    NodeArray(s.line.sharers, req.src, p);
    if OthersBelow(s.line.sharers, req.src, p.numNodes) == [] {
      WriteAlone(s, req, answer, ret, p);
    } else {
      var r := InvalidateOthers(s.line, req, answer, ret, p);
      var x := r.extra.value.(numLeft := r.extra.value.counter);
      var s' := s.(line := r.line.(pend := true, extra := Some(x)));
      assert Asked(s, CarryOut(r, p)) == Reached(s');
      InvalidationsStarted(s, s', x, req.src);
    }
  }

  lemma WriteAlone(s: LineSys, req: Req, answer: ReqType, ret: RetSt, p: Params)
    requires Idle(s, p) && s.line.state == DirShared && req.src < p.numNodes
    requires WriteAnswer(answer, ret)
    requires |s.line.sharers| == (if req.src in s.line.sharers then 1 else 0)
    ensures GoodStep(s, CarryOut(InvalidateOthers(s.line, req, answer, ret, p), p), p)
  {
    if |s.line.sharers| == 1 { HasMember(s.line.sharers); }
  }

  lemma InvalidationsStarted(s: LineSys, s': LineSys, x: Extra, b: Node)
    requires IdleInv(s) && s.line.state == DirShared
    requires s' == s.(line := s.line.(state := DirPrivate, sharers := {b}, pend := true, extra := Some(x)))
    requires x.pendReq.src == b && x.pendReq.id.Txn? && WriteAnswer(x.pendReq.reqType, x.retSt)
    requires x.nextReqType == Invl && 0 < x.counter == x.numLeft == |x.nodeAry|
    requires forall k :: k in s.line.sharers && k != b ==> k in x.nodeAry
    ensures InvalidatingInv(s', x)
  {
    assert x.nodeAry[..x.numLeft] == x.nodeAry;
  }

  lemma ReadShKeepsInv(s: LineSys, req: Req, p: Params)
    requires Idle(s, p) && req.src < p.numNodes && req.forwardTo.None? && req.id.Txn? && IsAccess(req.reqType)
    ensures GoodStep(s, CarryOut(CoheReadSh(s.line, req, p), p), p)
  {
    match s.line.state
    case Uncached => ReadShUncached(s, req, p);
    case DirShared => ReadShShared(s, req, p);
    case DirPrivate =>
      if req.src in s.line.sharers { OvertakenCopy(s, req, p); } else { ReadShPrivate(s, req, p); }
  }

  lemma ReadOwnKeepsInv(s: LineSys, req: Req, p: Params)
    requires Idle(s, p) && req.src < p.numNodes && req.forwardTo.None? && req.id.Txn? && IsAccess(req.reqType)
    ensures GoodStep(s, CarryOut(CoheReadOwn(s.line, req, p), p), p)
  {
    match s.line.state
    case Uncached => ReadOwnUncached(s, req, p);
    case DirShared => WriteShared(s, req, ReplyExcl, RetSpecialReply, p);
    case DirPrivate =>
      if req.src in s.line.sharers { OvertakenCopy(s, req, p); } else { ReadOwnPrivate(s, req, p); }
  }

  lemma AskKeepsInv(s: LineSys, req: Req, p: Params)
    requires Inv(s, p) && Enabled(s, Ask(req), p)
    ensures Good(StepAsk(s, req, p), p)
  {
    if !s.line.pend {
      match req.reqType
      case ReadSh => ReadShKeepsInv(s, req, p);
      case ReadOwn => ReadOwnKeepsInv(s, req, p);
      case Upgrade =>
        if s.line.state == DirShared && req.src in s.line.sharers {
          WriteShared(s, req, ReplyUpgrade, RetDirReply, p);
        } else {
          ReadOwnKeepsInv(s, req.(reqType := ReadOwn), p);
        }
    }
  }

  // ---------- invalidations ----------

  ghost predicate Invalidating(s: LineSys, p: Params) {
    Shape(s.line, p) && s.line.extra.Some? && !s.line.extra.value.waiting && s.line.extra.value.nackSt == NackOk
    && InvalidatingInv(s, s.line.extra.value)
  }

  ghost predicate Forwarding(s: LineSys, p: Params) {
    Shape(s.line, p) && s.line.extra.Some? && !s.line.extra.value.waiting && s.line.extra.value.nackSt == NackNok
    && ForwardingInv(s, s.line.extra.value, p)
  }

  /** The kind of a coherence message tells which transaction it belongs to. */
  lemma CoheTells(s: LineSys, m: Req, p: Params)
    requires Inv(s, p) && m in s.cohes
    ensures m.reqType == Invl ==> Invalidating(s, p)
    ensures IsForwardType(m.reqType) ==> Forwarding(s, p)
  {}

  lemma SendInvlKeepsInv(s: LineSys, id: Id, p: Params)
    requires Inv(s, p) && Enabled(s, SendInvl(id), p)
    ensures Good(StepSendInvl(s, id, p), p)
  {
    var x := s.line.extra.value;
    var st := OnSendInvl(s.line, x.pendReq, p, id);
    var m, x' := st.cohe, st.line.extra.value;
    var s' := StepSendInvl(s, id, p).sys;
    forall n | n in s'.shrd ensures Covered(s', x', n) {
      assert Covered(s, x, n);
      if n in x.nodeAry[..x.numLeft] && n !in x.nodeAry[..x'.numLeft] {
        assert m.dest == n && m in s'.cohes;
      } else if exists k :: k in s.cohes && k.dest == n {
        var k :| k in s.cohes && k.dest == n;
        assert k in s'.cohes;
      }
    }
  }

  lemma AnswerInvlKeepsInv(s: LineSys, m: Req, ack: Ack, p: Params)
    requires Inv(s, p) && Enabled(s, AnswerInvl(m, ack), p)
    ensures Inv(AfterAnswer(s, m, ack), p)
  {
    CoheTells(s, m, p);
    StillCovered(s, s.line.extra.value, m, ack);
  }

  lemma StillCovered(s: LineSys, x: Extra, m: Req, ack: Ack)
    requires InvalidatingInv(s, x) && m in s.cohes && (ack == Positive || ack == Nack)
    ensures InvalidatingInv(AfterAnswer(s, m, ack), x)
  {
    var s' := AfterAnswer(s, m, ack);
    forall n | n in s'.shrd ensures Covered(s', x, n) {
      assert Covered(s, x, n);
      if k :| k in s.cohes && k.dest == n {
        assert k in s'.cohes;
      }
    }
  }

  lemma CollectInvlKeepsInv(s: LineSys, m: Req, p: Params)
    requires Invalidating(s, p) && m in s.replies
    ensures Good(StepReply(s, m, p), p)
  {
    ReplyKeepsShape(s.line, m, p);
    if s.line.extra.value.counter > 1 { CollectOneInvl(s, m, p); } else { CollectLastInvl(s, m, p); }
  }

  lemma CollectOneInvl(s: LineSys, m: Req, p: Params)
    requires Invalidating(s, p) && m in s.replies && s.line.extra.value.counter > 1
    ensures Good(StepReply(s, m, p), p)
  {
    var x := s.line.extra.value;
    var x' := x.(counter := x.counter - 1);
    var s' := s.(line := s.line.(extra := Some(x')), replies := s.replies - multiset{m});
    assert StepReply(s, m, p) == Reached(s');
    forall n | n in s'.shrd ensures Covered(s', x', n) {
      assert Covered(s, x, n);
    }
    assert InvalidatingInv(s', x');
  }

  /** With the last reply in, the requester is the only node that may hold a
      copy, and becomes the owner. */
  lemma CollectLastInvl(s: LineSys, m: Req, p: Params)
    requires Invalidating(s, p) && m in s.replies && s.line.extra.value.counter <= 1
    ensures Good(StepReply(s, m, p), p)
    ensures s.excl == {} && s.shrd <= {s.line.extra.value.pendReq.src}
  {
    var x := s.line.extra.value;
    OnlyMessage(s.replies, m);
    EmptyBag(s.cohes);
    forall n | n in s.shrd ensures n == x.pendReq.src {
      assert Covered(s, x, n);
    }
  }

  // ---------- forwards ----------

  /** The one message of a forward, taken out of the bag it is in. */
  lemma OneMessage(s: LineSys, x: Extra, p: Params)
    requires ForwardingInv(s, x, p)
    ensures forall m :: m in s.queued ==> s.queued == multiset{m} && s.cohes == multiset{} && s.replies == multiset{}
    ensures forall m :: m in s.cohes ==> s.queued == multiset{} && s.cohes == multiset{m} && s.replies == multiset{}
    ensures forall m :: m in s.replies ==> s.queued == multiset{} && s.cohes == multiset{} && s.replies == multiset{m}
  {
    forall m | m in s.queued ensures s.queued == multiset{m} && s.cohes == multiset{} && s.replies == multiset{} {
      OnlyMessage(s.queued, m); EmptyBag(s.cohes); EmptyBag(s.replies);
    }
    forall m | m in s.cohes ensures s.queued == multiset{} && s.cohes == multiset{m} && s.replies == multiset{} {
      OnlyMessage(s.cohes, m); EmptyBag(s.queued); EmptyBag(s.replies);
    }
    forall m | m in s.replies ensures s.queued == multiset{} && s.cohes == multiset{} && s.replies == multiset{m} {
      OnlyMessage(s.replies, m); EmptyBag(s.cohes); EmptyBag(s.queued);
    }
  }

  lemma DispatchKeepsInv(s: LineSys, m: Req, p: Params)
    requires Inv(s, p) && m in s.queued
    ensures Inv(s.(queued := s.queued - multiset{m}, cohes := s.cohes + multiset{m}), p)
  {
    OneMessage(s, s.line.extra.value, p);
  }

  /** The owner's answer leaves the line to both nodes, or to the requester
      alone, as the directory has it already. */
  lemma TransferKeepsInv(s: LineSys, m: Req, ackId: Id, p: Params)
    requires Inv(s, p) && Enabled(s, Transfer(m, ackId), p)
    ensures var s', a, b := AfterTransfer(s, m, ackId, m.forwardTo.value), m.dest, m.forwardTo.value;
            && Inv(s', p) && s'.wbs == multiset{}
            && if m.reqType == Copyback
               then s'.excl == {} && s'.shrd == {a, b} && s'.line.state == DirShared && s'.line.sharers == {a, b}
               else s'.excl == {b} && s'.shrd == {} && s'.line.state == DirPrivate && s'.line.sharers == {b}
  {
    CoheTells(s, m, p);
    TransferOwns(s, m, ackId, p);
    hide ForwardingInv;
    TransferForwards(s, s.line.extra.value, m, ackId, p);
  }

  lemma TransferOwns(s: LineSys, m: Req, ackId: Id, p: Params)
    requires Forwarding(s, p) && Enabled(s, Transfer(m, ackId), p)
    ensures var s', a, b := AfterTransfer(s, m, ackId, m.forwardTo.value), m.dest, m.forwardTo.value;
            && s'.wbs == multiset{}
            && if m.reqType == Copyback
               then s'.excl == {} && s'.shrd == {a, b} && s'.line.state == DirShared && s'.line.sharers == {a, b}
               else s'.excl == {b} && s'.shrd == {} && s'.line.state == DirPrivate && s'.line.sharers == {b}
  {
    var x := s.line.extra.value;
    OneMessage(s, x, p);
    EmptyBag(s.wbs);
    assert m.(reply := NoAck) == x.pendReq;
    assert Outstanding(s, x, m.dest, m.forwardTo.value);
  }

  lemma TransferForwards(s: LineSys, x: Extra, m: Req, ackId: Id, p: Params)
    requires ForwardingInv(s, x, p) && Enabled(s, Transfer(m, ackId), p)
    ensures ForwardingInv(AfterTransfer(s, m, ackId, m.forwardTo.value), x, p)
  {
    hide Satisfied, Outstanding;
    OneMessage(s, x, p);
    TransferSatisfies(s, x, m, ackId, p);
    var s' := AfterTransfer(s, m, ackId, m.forwardTo.value);
    assert s'.replies == multiset{ReplyTo(m, Positive).(id := ackId)};
  }

  /** The owner that serves the forward leaves the line as the directory
      expects it to end. */
  lemma TransferSatisfies(s: LineSys, x: Extra, m: Req, ackId: Id, p: Params)
    requires ForwardingInv(s, x, p) && m in s.cohes && m.dest in s.excl && IsForwardType(m.reqType) && |s.replies| == 0
    ensures m.forwardTo.Some? && Satisfied(AfterTransfer(s, m, ackId, m.forwardTo.value), x, m.dest, m.forwardTo.value)
  {
    EmptyBag(s.wbs);
    assert Outstanding(s, x, m.dest, m.forwardTo.value);
  }

  lemma DeclineKeepsInv(s: LineSys, m: Req, ack: Ack, p: Params)
    requires Inv(s, p) && m in s.cohes && IsForwardType(m.reqType)
    requires ack == NackPend || (ack == Nack && m.dest !in s.excl)
    ensures Inv(AfterDecline(s, m, ack), p)
  {
    CoheTells(s, m, p);
    var x := s.line.extra.value;
    OneMessage(s, x, p);
    var s' := AfterDecline(s, m, ack);
    assert s'.replies == multiset{ReplyTo(m, ack)};
    assert ReplyTo(m, ack).(dest := m.dest).dest == m.dest;
    assert ForwardingInv(s', x, p);
  }

  /** What a forward's reply finds and leaves. */
  lemma CollectForwardKeepsInv(s: LineSys, m: Req, p: Params)
    requires Forwarding(s, p) && m in s.replies
    ensures Good(StepReply(s, m, p), p)
  {
    OneMessage(s, s.line.extra.value, p);
    var x := s.line.extra.value;
    var a, b := x.pendReq.dest, x.pendReq.forwardTo.value;
    assert ReplyInv(s, x, m, a, b);
    match m.reply
    case Positive => TransferDone(s, m, a, b, p);
    case Nack => if x.wasHere.None? { ForwardRefused(s, m, a, b, p); } else { ForwardStartsOver(s, m, a, b, p); }
    case NackPend => if x.wasHere.None? { ForwardResent(s, m, a, b, p); } else { ForwardStartsOver(s, m, a, b, p); }
  }

  ghost predicate ReplyIn(s: LineSys, m: Req, a: Node, b: Node, p: Params) {
    && Forwarding(s, p) && a == s.line.extra.value.pendReq.dest && s.line.extra.value.pendReq.forwardTo == Some(b)
    && s.queued == multiset{} && s.cohes == multiset{} && s.replies == multiset{m}
    && ReplyInv(s, s.line.extra.value, m, a, b)
  }

  lemma TransferDone(s: LineSys, m: Req, a: Node, b: Node, p: Params)
    requires ReplyIn(s, m, a, b, p) && m.reply == Positive
    ensures StepReply(s, m, p) == Reached(s.(line := Unpended(s.line), replies := multiset{}))
    ensures Good(StepReply(s, m, p), p)
  {
    var s' := s.(line := Unpended(s.line), replies := multiset{});
    assert s.replies - multiset{m} == multiset{};
    assert StepReply(s, m, p) == Reached(s');
  }

  /** Refused with no write-back seen: the owner has the line back. */
  lemma ForwardRefused(s: LineSys, m: Req, a: Node, b: Node, p: Params)
    requires ReplyIn(s, m, a, b, p) && m.reply == Nack && s.line.extra.value.wasHere.None?
    ensures StepReply(s, m, p) == Reached(s.(line := Line(DirPrivate, {a}, false, None), replies := multiset{}))
    ensures Good(StepReply(s, m, p), p)
  {
    var s' := s.(line := Line(DirPrivate, {a}, false, None), replies := multiset{});
    assert s.replies - multiset{m} == multiset{};
    assert StepReply(s, m, p) == Reached(s');
  }

  /** Refused or postponed after the owner's write-back: nobody has the line. */
  lemma ForwardStartsOver(s: LineSys, m: Req, a: Node, b: Node, p: Params)
    requires ReplyIn(s, m, a, b, p) && m.reply != Positive && s.line.extra.value.wasHere.Some?
    ensures StepReply(s, m, p) == Reached(s.(line := FRESH_LINE, replies := multiset{}))
    ensures Good(StepReply(s, m, p), p)
  {
    var s' := s.(line := FRESH_LINE, replies := multiset{});
    assert s.replies - multiset{m} == multiset{};
    assert StepReply(s, m, p) == Reached(s');
  }

  lemma ForwardResent(s: LineSys, m: Req, a: Node, b: Node, p: Params)
    requires ReplyIn(s, m, a, b, p) && m.reply == NackPend && s.line.extra.value.wasHere.None?
    ensures StepReply(s, m, p) == Reached(s.(queued := multiset{AsSent(m).(reply := NackPend)}, replies := multiset{}))
    ensures Good(StepReply(s, m, p), p)
  {
    var c := m.(msgType := Cohe, src := m.dest, dest := m.src);
    var s' := s.(queued := multiset{c}, replies := multiset{});
    assert s.replies - multiset{m} == multiset{} && s.queued + multiset{c} == multiset{c};
    assert StepReply(s, m, p) == Reached(s');
    assert ForwardingInv(s', s.line.extra.value, p);
  }

  // ---------- write-backs ----------

  lemma WritebackKeepsInv(s: LineSys, m: Req, p: Params)
    requires Inv(s, p) && m in s.wbs
    ensures Good(StepWriteback(s, m, p), p)
  {
    if s.line.extra.None? { WritebackIdle(s, m, p); }
    else if s.line.extra.value.waiting { WritebackAwaited(s, m, p); }
    else { WritebackSurprises(s, m, p); }
  }

  lemma WritebackIdle(s: LineSys, m: Req, p: Params)
    requires Inv(s, p) && m in s.wbs && s.line.extra.None?
    ensures Good(StepWriteback(s, m, p), p)
  {
    if s.line.state == DirPrivate { HasMember(s.line.sharers); }
    OnlyMessage(s.wbs, m);
  }

  lemma WritebackAwaited(s: LineSys, m: Req, p: Params)
    requires Inv(s, p) && m in s.wbs && s.line.extra.Some? && s.line.extra.value.waiting
    ensures Good(StepWriteback(s, m, p), p)
  {
    OnlyMessage(s.wbs, m);
  }

  /** A write-back the directory did not wait for comes from the owner whose
      copy a forward is after, or from the requester the forward served. */
  lemma WritebackSurprises(s: LineSys, m: Req, p: Params)
    requires Inv(s, p) && m in s.wbs && s.line.extra.Some? && !s.line.extra.value.waiting
    ensures var f := s.line.extra.value.pendReq;
            Forwarding(s, p) && f.forwardTo.Some? && (m.src == f.dest || m.src == f.forwardTo.value)
    ensures var noted := s.line.extra.value.(wasHere := Some(m.src));
            StepWriteback(s, m, p) == Reached(s.(line := Line(Uncached, {}, true, Some(noted)), wbs := multiset{}))
    ensures Good(StepWriteback(s, m, p), p)
  {
    hide StepWriteback, ForwardingInv;
    SurpriseMeetsForward(s, m, p);
    var x := s.line.extra.value;
    var s' := s.(line := Line(Uncached, {}, true, Some(x.(wasHere := Some(m.src)))), wbs := multiset{});
    if |s.replies| == 0 {
      SurpriseBeforeReply(s, m, x, s', p);
    } else {
      var r :| r in s.replies;
      OneMessage(s, x, p);
      SurpriseAfterReply(s, m, x, r, s', p);
    }
    SurpriseStep(s, m, p);
  }

  lemma SurpriseMeetsForward(s: LineSys, m: Req, p: Params)
    requires Inv(s, p) && m in s.wbs && s.line.extra.Some? && !s.line.extra.value.waiting
    ensures Forwarding(s, p) && s.wbs == multiset{m}
  {
    assert Forwarding(s, p);
    var x := s.line.extra.value;
    if r :| r in s.replies { assert ReplyInv(s, x, r, x.pendReq.dest, x.pendReq.forwardTo.value); }
    OnlyMessage(s.wbs, m);
  }

  /** Whatever is in flight as a write-back is a WRB or REPL of a node that exists. */
  lemma WritebacksAreWritebacks(v: LineSys, m: Req, p: Params)
    requires Inv(v, p) && m in v.wbs
    ensures IsWriteback(m) && m.src < p.numNodes
  {
    if v.line.extra.Some? && !v.line.extra.value.waiting {
      SurpriseMeetsForward(v, m, p);
      var x := v.line.extra.value;
      if r :| r in v.replies { assert ReplyInv(v, x, r, x.pendReq.dest, x.pendReq.forwardTo.value); }
    } else if v.line.state == DirPrivate {
      HasMember(v.line.sharers);
    }
  }

  lemma SurpriseStep(s: LineSys, m: Req, p: Params)
    requires Forwarding(s, p) && s.wbs == multiset{m} && IsWriteback(m) && m.id.Allocated? && m.src < p.numNodes
    requires s.line.state != Uncached
    ensures StepWriteback(s, m, p)
            == Reached(s.(line := Line(Uncached, {}, true, Some(s.line.extra.value.(wasHere := Some(m.src)))),
                          wbs := multiset{}))
  {
    assert s.wbs - multiset{m} == multiset{};
  }

  lemma SurpriseBeforeReply(s: LineSys, m: Req, x: Extra, s': LineSys, p: Params)
    requires ForwardingInv(s, x, p) && s.wbs == multiset{m} && |s.replies| == 0
    requires s' == s.(line := Line(Uncached, {}, true, Some(x.(wasHere := Some(m.src)))), wbs := multiset{})
    ensures ForwardingInv(s', x.(wasHere := Some(m.src)), p)
    ensures m.src == x.pendReq.dest && IsWriteback(m) && m.id.Allocated? && s.line.state != Uncached
  {
    assert m in s.wbs;
    assert Outstanding(s, x, x.pendReq.dest, x.pendReq.forwardTo.value);
  }

  lemma SurpriseAfterReply(s: LineSys, m: Req, x: Extra, r: Req, s': LineSys, p: Params)
    requires ForwardingInv(s, x, p) && s.wbs == multiset{m} && s.replies == multiset{r}
    requires s' == s.(line := Line(Uncached, {}, true, Some(x.(wasHere := Some(m.src)))), wbs := multiset{})
    ensures ForwardingInv(s', x.(wasHere := Some(m.src)), p)
    ensures m.src == x.pendReq.dest || m.src == x.pendReq.forwardTo.value
    ensures IsWriteback(m) && m.id.Allocated? && s.line.state != Uncached
  {
    assert m in s.wbs && r in s.replies;
    var a, b := x.pendReq.dest, x.pendReq.forwardTo.value;
    assert ReplyInv(s, x, r, a, b);
    assert ReplyInv(s', x.(wasHere := Some(m.src)), r, a, b);
  }

  // ---------- the caches' own moves ----------

  lemma EvictKeepsInv(s: LineSys, wb: Req, p: Params)
    requires Inv(s, p) && Enabled(s, Evict(wb), p)
    ensures Inv(s.(excl := s.excl - {wb.src}, wbs := s.wbs + multiset{wb}), p)
  {
    var s' := s.(excl := s.excl - {wb.src}, wbs := s.wbs + multiset{wb});
    EvictOwned(s, wb);
    if Forwarding(s, p) {
      var x := s.line.extra.value;
      var a, b := x.pendReq.dest, x.pendReq.forwardTo.value;
      forall r | r in s'.replies ensures ReplyInv(s', x, r, a, b) {
        assert ReplyInv(s, x, r, a, b);
      }
    }
  }

  lemma EvictOwned(s: LineSys, wb: Req)
    requires IsWriteback(wb) && wb.id.Allocated?
    ensures forall a :: OwnedBy(s, a) && wb.src in s.excl ==>
            OwnedBy(s.(excl := s.excl - {wb.src}, wbs := s.wbs + multiset{wb}), a)
  {
    forall a | OwnedBy(s, a) && wb.src in s.excl
      ensures OwnedBy(s.(excl := s.excl - {wb.src}, wbs := s.wbs + multiset{wb}), a)
    {
      EmptyBag(s.wbs);
    }
  }

  lemma DropKeepsInv(s: LineSys, n: Node, p: Params)
    requires Inv(s, p) && n in s.shrd
    ensures Inv(s.(shrd := s.shrd - {n}), p)
  {
    var s' := s.(shrd := s.shrd - {n});
    if Invalidating(s, p) {
      forall k | k in s'.shrd ensures Covered(s', s.line.extra.value, k) {
        assert Covered(s, s.line.extra.value, k);
      }
    } else if Forwarding(s, p) {
      var x := s.line.extra.value;
      forall r | r in s'.replies ensures ReplyInv(s', x, r, x.pendReq.dest, x.pendReq.forwardTo.value) {
        assert ReplyInv(s, x, r, x.pendReq.dest, x.pendReq.forwardTo.value);
      }
    }
  }

  // ---------- every run ----------

  lemma TakeReplyKeepsInv(s: LineSys, m: Req, p: Params)
    requires Inv(s, p) && m in s.replies
    ensures Good(StepReply(s, m, p), p)
  {
    if s.line.extra.value.nackSt == NackOk { CollectInvlKeepsInv(s, m, p); } else { CollectForwardKeepsInv(s, m, p); }
  }

  lemma StepKeepsInv(s: LineSys, e: Event, p: Params)
    requires Inv(s, p) && Enabled(s, e, p)
    ensures Good(Step(s, e, p), p)
  {
    hide Inv, StepAsk, StepReply, StepWriteback, StepSendInvl, AfterTransfer, AfterAnswer, AfterDecline;
    match e
    case Ask(req) => AskKeepsInv(s, req, p);
    case SendInvl(id) => SendInvlKeepsInv(s, id, p);
    case Dispatch(m) => DispatchKeepsInv(s, m, p);
    case TakeReply(m) => TakeReplyKeepsInv(s, m, p);
    case TakeWriteback(m) => WritebackKeepsInv(s, m, p);
    case AnswerInvl(m, ack) => AnswerInvlKeepsInv(s, m, ack, p);
    case Transfer(m, ackId) => TransferKeepsInv(s, m, ackId, p);
    case Refuse(m) => DeclineKeepsInv(s, m, Nack, p);
    case Postpone(m) => DeclineKeepsInv(s, m, NackPend, p);
    case Evict(wb) => EvictKeepsInv(s, wb, p);
    case Drop(n) => DropKeepsInv(s, n, p);
  }

  /** No run the cache rules allow reaches an error site of the directory, and
      every state it reaches satisfies the invariant. */
  lemma {:induction false} RunKeepsInv(events: seq<Event>, p: Params)
    ensures Good(Run(events, p), p)
  {
    if events == [] {
    } else {
      RunKeepsInv(events[..|events| - 1], p);
      var s, e := Run(events[..|events| - 1], p).sys, events[|events| - 1];
      if Enabled(s, e, p) { StepKeepsInv(s, e, p); }
    }
  }
}
