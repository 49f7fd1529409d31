/** The directory's queues: what waits where, and for whom. */
module DirQueues {
  import opened Common
  import opened DirTypes
  import opened LineSpec
  import opened LineShape
  import opened LineProtocol
  import opened LineSafety
  import opened DirMachine
  import opened DirLedger
  import opened DirSystem
  import opened DirSafety
  import opened DirTags

  lemma {:induction false} FilterMembers(s: seq<Req>, tag: Tag)
    ensures forall r :: r in OfTag(s, tag) ==> r in s && r.tag == tag
    ensures forall r :: r in NotOfTag(s, tag) ==> r in s && r.tag != tag
  {
    if s == [] {
    } else {
      FilterMembers(s[..|s| - 1], tag);
    }
  }

  /** Releasing the requests behind a line leaves only requests parked behind
      other lines, so none is stranded when the line comes to rest. */
  lemma ReleaseKeepsQueues(d: Dir, d': Dir, tag: Tag, b: bool, p: Params)
    requires QueueInv(d, b, p)
    requires d'.pending == d.pending && (forall r :: r in d'.ready ==> IsQueued(r, b, p)) && d'.outbound == d.outbound
    requires forall t: Tag :: t != tag ==> LineOf(d'.lines, t) == LineOf(d.lines, t)
    requires d'.partial == d.partial
    requires d'.partial.Some? && d'.partial.value.msgType != Cohe ==> Sending(d', d'.partial.value)
    ensures QueueInv(Release(d', tag), b, p)
  {
    FilterMembers(d.pending, tag);
    forall r | r in Release(d', tag).pending ensures Parked(Release(d', tag), r, b, p) {
      assert Parked(d, r, b, p);
    }
    forall r | r in OfTag(d.pending, tag) ensures IsQueued(r, b, p) {
      assert Parked(d, r, b, p);
    }
  }

  lemma DeliverKeepsQueues(d: Dir, answer: Req, room: bool, b: bool, p: Params)
    requires QueueInv(d, b, p) && IsAnswer(answer)
    ensures QueueInv(Deliver(d, answer, room).dir, b, p)
  {
    var d' := Deliver(d, answer, room).dir;
    forall r | r in d'.pending ensures Parked(d', r, b, p) { assert Parked(d, r, b, p); }
    if d'.partial.Some? && d'.partial.value.msgType != Cohe { assert Sending(d', d'.partial.value); }
  }

  /** With the port full the request changed is the one at the head of its
      queue. */
  lemma ServedKeepsQueues(d: Dir, req: Req, wasPending: bool, room: bool, st: ReqStep, b: bool, p: Params)
    requires QueueInv(d, b, p) && d.partial.None? && (wasPending ==> d.ready != [])
    requires Accounted(LineOf(d.lines, req.tag), req, st) && IsQueued(req, b, p)
    requires st.eff.AnswerNow? && !room ==> b && Spoiled(st.eff.answer.(msgType := Request), p)
    requires RoundInv(d)
    ensures var o := Served(d, req, wasPending, room, st);
            o.Done? ==> QueueInv(o.dir, b, p) && RoundInv(o.dir)
  {
    var o := Served(d, req, wasPending, room, st);
    if o.Done? {
      ServedFields(d, req, wasPending, room, st);
      forall r | r in o.dir.pending ensures Parked(o.dir, r, b, p) {
        if r in d.pending { assert Parked(d, r, b, p); }
      }
      RoundStarts(d, o.dir, req.tag, st.line);
    }
  }

  lemma NoRounds(d: Dir)
    requires RoundInv(d) && d.partial.None?
    ensures forall t: Tag :: !Unfinished(LineOf(d.lines, t))
  {}

  /** Only the request served can start sending invalidations. */
  lemma RoundStarts(d: Dir, d': Dir, tag: Tag, line: Line)
    requires RoundInv(d) && d.partial.None? && d'.lines == d.lines[tag := line]
    requires Unfinished(line) ==> IsPartial(d', tag, line.extra.value.pendReq)
    ensures RoundInv(d')
  {
    NoRounds(d);
    assert forall t: Tag :: t != tag ==> LineOf(d'.lines, t) == LineOf(d.lines, t);
  }

  lemma QueuesAllowMore(d: Dir, b: bool, c: bool, p: Params)
    requires QueueInv(d, b, p) && (b ==> c)
    ensures QueueInv(d, c, p)
  {
    forall r | r in d.pending ensures Parked(d, r, c, p) { assert Parked(d, r, b, p); }
  }

  /** A line in the middle of its invalidations ignores everything but the
      replies it waits for, and keeps the partial request's record. */
  lemma ReplyKeepsSending(d: Dir, m: Req, line': Line, v: LineSys, q: Req, p: Params)
    requires Inv(v, p) && m in v.replies && q.tag == m.tag && v.line == LineOf(d.lines, m.tag)
    requires Sending(d, q) && line' == OnCoheReply(v.line, m, p).line
    ensures Sending(d.(lines := d.lines[m.tag := line']), q) && OnCoheReply(v.line, m, p).eff == Collected
  {
    assert InvalidatingInv(v, v.line.extra.value);
    assert |v.replies| >= 1;
  }

  /** What the line protocol knows of a reply's effect, as the queues need
      it. */
  ghost predicate SoundReply(r: ReplyStep, p: Params) {
    match r.eff
    case Retry(a) => IsAnswer(a)
    case Finish(a) => IsAnswer(a)
    case Requeue(q) => IsRequest(q, p)
    case Resend(c) => c.msgType == Cohe && r.line.pend
    case Collected => r.line.pend
    case _ => true
  }

  /** The partial request is untouched by what happens on a line. */
  ghost predicate PartialSafe(d: Dir, tag: Tag, line: Line) {
    d.partial.Some? && d.partial.value.msgType != Cohe ==> Sending(d.(lines := d.lines[tag := line]), d.partial.value)
  }

  lemma StayKeepsQueues(d: Dir, tag: Tag, line: Line, b: bool, p: Params)
    requires QueueInv(d, b, p) && line.pend && PartialSafe(d, tag, line)
    ensures QueueInv(d.(lines := d.lines[tag := line]), b, p)
  {
    var d' := d.(lines := d.lines[tag := line]);
    forall r | r in d'.pending ensures Parked(d', r, b, p) { assert Parked(d, r, b, p); }
  }

  lemma QueueForward(d: Dir, c: Req, b: bool, p: Params)
    requires QueueInv(d, b, p) && c.msgType == Cohe
    ensures QueueInv(d.(outbound := d.outbound + [c]), b, p)
  {
    var d' := d.(outbound := d.outbound + [c]);
    forall r | r in d'.pending ensures Parked(d', r, b, p) { assert Parked(d, r, b, p); }
    if d'.partial.Some? && d'.partial.value.msgType != Cohe { assert Sending(d, d'.partial.value); }
  }

  lemma AccountMoves(d: Dir, n: int, b: bool, p: Params)
    requires QueueInv(d, b, p)
    ensures QueueInv(d.(bufTot := n), b, p)
  {
    var d' := d.(bufTot := n);
    forall r | r in d'.pending ensures Parked(d', r, b, p) { assert Parked(d, r, b, p); }
    if d'.partial.Some? && d'.partial.value.msgType != Cohe { assert Sending(d, d'.partial.value); }
  }

  lemma AbsorbedKeepsQueues(d: Dir, tag: Tag, room: bool, r: ReplyStep, b: bool, p: Params)
    requires QueueInv(d, b, p) && SoundReply(r, p) && PartialSafe(d, tag, r.line)
    ensures Absorbed(d, tag, room, r).Done? ==> QueueInv(Absorbed(d, tag, room, r).dir, b, p)
  {
    var d' := d.(lines := d.lines[tag := r.line]);
    match r.eff
    case Retry(a) => ReleaseKeepsQueues(d, d', tag, b, p); DeliverKeepsQueues(Release(d', tag), a, room, b, p);
    case Finish(a) => ReleaseKeepsQueues(d, d', tag, b, p); DeliverKeepsQueues(Release(d', tag), a, room, b, p);
    case Requeue(q) => ReleaseKeepsQueues(d, d'.(ready := d.ready + [q]), tag, b, p);
    case Resend(c) => StayKeepsQueues(d, tag, r.line, b, p); QueueForward(d', c, b, p);
    case Collected => StayKeepsQueues(d, tag, r.line, b, p);
    case TransferAcked => ReleaseKeepsQueues(d, d', tag, b, p); AccountMoves(Release(d', tag), d.bufTot - 1, b, p);
    case _ =>
  }

  lemma ForwardReplyIsSound(line: Line, m: Req, p: Params)
    requires line.pend && line.extra.Some? && line.extra.value.retSt == RetAckReply
    requires line.extra.value.nackSt == NackNok
    requires line.extra.value.counter == 1 && !m.preprocessed && m.forwardTo.Some? && m.forwardTo.value < p.numNodes
    requires IsForwardType(m.reqType) && (m.reply != Positive ==> m.id.Txn?)
    ensures SoundReply(OnCoheReply(line, m, p), p)
  {}

  lemma InvlReplyIsSound(line: Line, m: Req, p: Params)
    requires line.pend && line.extra.Some? && line.extra.value.retSt != RetAckReply && line.extra.value.nackSt == NackOk
    requires m.reply == Positive || m.reply == Nack
    ensures SoundReply(OnCoheReply(line, m, p), p)
  {}

  lemma ReplyIsSound(v: LineSys, m: Req, tag: Tag, p: Params)
    requires Inv(v, p) && Tagged(v, tag) && m in v.replies
    ensures SoundReply(OnCoheReply(v.line, m, p), p)
    ensures OnCoheReply(v.line, m, p).eff.Requeue? ==> m.id == v.line.extra.value.pendReq.id
  {
    assert TaggedMsg(m, tag);
    var x := v.line.extra.value;
    if x.nackSt == NackOk {
      InvlReplyIsSound(v.line, m, p);
    } else {
      assert ReplyInv(v, x, m, x.pendReq.dest, x.pendReq.forwardTo.value);
      ForwardReplyIsSound(v.line, m, p);
    }
  }

  lemma ReplyKeepsQueues(s: Sys, m: Req, room: bool, b: bool, p: Params)
    requires QueueInv(s.dir, b, p) && LineInv(s, m.tag, p) && m in EnvOf(s.env, m.tag).replies
    ensures AbsorbReply(s.dir, m, room, p).Done? ==> QueueInv(AbsorbReply(s.dir, m, room, p).dir, b, p)
  {
    var d := s.dir;
    var v := View(d, s.env, m.tag);
    var r := OnCoheReply(v.line, m, p);
    ReplyIsSound(v, m, m.tag, p);
    if d.partial.Some? && d.partial.value.msgType != Cohe {
      assert Sending(d, d.partial.value);
      if d.partial.value.tag == m.tag { ReplyKeepsSending(d, m, r.line, v, d.partial.value, p); }
    }
    AbsorbedKeepsQueues(d, m.tag, room, r, b, p);
  }

  lemma WrittenBackKeepsQueues(d: Dir, tag: Tag, r: WbStep, b: bool, p: Params)
    requires QueueInv(d, b, p) && PartialSafe(d, tag, r.line)
    requires (r.eff.Woke? ==> IsRequest(r.eff.req, p)) && (r.eff.Noted? ==> r.line.pend)
    ensures WrittenBack(d, tag, r).Done? ==> QueueInv(WrittenBack(d, tag, r).dir, b, p)
  {
    var d' := d.(lines := d.lines[tag := r.line]);
    match r.eff
    case Woke(q) => ReleaseKeepsQueues(d, d'.(ready := d.ready + [q]), tag, b, p);
    case Cleared => ReleaseKeepsQueues(d, d', tag, b, p);
    case Noted => StayKeepsQueues(d, tag, r.line, b, p);
    case _ =>
  }

  lemma WritebackIsSound(v: LineSys, m: Req, tag: Tag, p: Params)
    requires Inv(v, p) && Tagged(v, tag) && m in v.wbs
    ensures var r := OnWriteback(v.line, m, p);
            && (r.eff.Woke? ==> IsRequest(r.eff.req, p))
            && (r.eff.Noted? ==> r.line.pend)
            && !Rounding(v.line)
  {
    WritebacksAreWritebacks(v, m, p);
  }

  lemma WritebackKeepsQueues(s: Sys, m: Req, b: bool, p: Params)
    requires QueueInv(s.dir, b, p) && LineInv(s, m.tag, p) && m in EnvOf(s.env, m.tag).wbs
    ensures AbsorbWriteback(s.dir, m, p).Done? ==> QueueInv(AbsorbWriteback(s.dir, m, p).dir, b, p)
  {
    var d := s.dir;
    var v := View(d, s.env, m.tag);
    WritebackIsSound(v, m, m.tag, p);
    if d.partial.Some? && d.partial.value.msgType != Cohe { assert Sending(d, d.partial.value); }
    WrittenBackKeepsQueues(d, m.tag, OnWriteback(v.line, m, p), b, p);
  }

  lemma SendKeepsQueues(d: Dir, room: bool, id: Id, b: bool, p: Params)
    requires QueueInv(d, b, p) && d.partial.Some?
    ensures SendPartial(d, room, id, p).Done? ==> QueueInv(SendPartial(d, room, id, p).dir, b, p)
  {
    var o := SendPartial(d, room, id, p);
    if o.Done? {
      forall r | r in o.dir.pending ensures Parked(o.dir, r, b, p) { assert Parked(d, r, b, p); }
      if d.partial.value.msgType != Cohe { assert Sending(d, d.partial.value); }
    }
  }

  lemma OutboundKeepsQueues(d: Dir, room: bool, b: bool, p: Params)
    requires QueueInv(d, b, p) && d.outbound != []
    ensures QueueInv(SendOutbound(d, room).dir, b, p)
  {
    var d' := SendOutbound(d, room).dir;
    forall r | r in d'.pending ensures Parked(d', r, b, p) { assert Parked(d, r, b, p); }
    if d'.partial.Some? && d'.partial.value.msgType != Cohe { assert Sending(d, d'.partial.value); }
  }

  // ---------- invalidations still to send ----------

  /** A line that comes out of a step with invalidations to send had the same
      ones to send for the same request before. */
  ghost predicate SameRound(line: Line, line': Line) {
    Unfinished(line') ==> Unfinished(line) && line'.extra.value.pendReq == line.extra.value.pendReq
  }

  lemma RoundsKept(d: Dir, d': Dir, tag: Tag)
    requires RoundInv(d) && d'.partial == d.partial
    requires forall t: Tag :: t != tag ==> LineOf(d'.lines, t) == LineOf(d.lines, t)
    requires SameRound(LineOf(d.lines, tag), LineOf(d'.lines, tag))
    ensures RoundInv(d')
  {
    forall t: Tag | Unfinished(LineOf(d'.lines, t))
      ensures IsPartial(d', t, LineOf(d'.lines, t).extra.value.pendReq)
    {
      assert Unfinished(LineOf(d.lines, t));
    }
  }

  lemma ReplyRounds(line: Line, m: Req, p: Params)
    requires !OnCoheReply(line, m, p).eff.ReplyFailed?
    ensures SameRound(line, OnCoheReply(line, m, p).line)
  {}

  lemma ReplyKeepsRounds(d: Dir, m: Req, room: bool, p: Params)
    requires RoundInv(d)
    ensures AbsorbReply(d, m, room, p).Done? ==> RoundInv(AbsorbReply(d, m, room, p).dir)
  {
    if AbsorbReply(d, m, room, p).Done? {
      ReplyFields(d, m, room, p);
      ReplyRounds(LineOf(d.lines, m.tag), m, p);
      RoundsKept(d, AbsorbReply(d, m, room, p).dir, m.tag);
    }
  }

  lemma WritebackRounds(line: Line, m: Req, p: Params)
    requires IsWriteback(m) && !OnWriteback(line, m, p).eff.WbFailed?
    ensures SameRound(line, OnWriteback(line, m, p).line)
  {}

  lemma WritebackKeepsRounds(d: Dir, m: Req, p: Params)
    requires RoundInv(d) && IsWriteback(m)
    ensures AbsorbWriteback(d, m, p).Done? ==> RoundInv(AbsorbWriteback(d, m, p).dir)
  {
    if AbsorbWriteback(d, m, p).Done? {
      WritebackRounds(LineOf(d.lines, m.tag), m, p);
      RoundsKept(d, AbsorbWriteback(d, m, p).dir, m.tag);
    }
  }

  lemma SendKeepsRounds(d: Dir, room: bool, id: Id, p: Params)
    requires RoundInv(d) && d.partial.Some?
    ensures SendPartial(d, room, id, p).Done? ==> RoundInv(SendPartial(d, room, id, p).dir)
  {
    var o := SendPartial(d, room, id, p);
    if o.Done? {
      forall t: Tag | Unfinished(LineOf(o.dir.lines, t))
        ensures IsPartial(o.dir, t, LineOf(o.dir.lines, t).extra.value.pendReq)
      {
        assert Unfinished(LineOf(d.lines, t));
      }
    }
  }
}
