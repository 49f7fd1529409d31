/** The system invariant over every run of the directory. */
module DirRuns {
  import opened Common
  import opened DirTypes
  import opened LineSpec
  import opened LineShape
  import opened LineProtocol
  import opened LineSafety
  import opened DirMachine
  import opened DirLedger
  import opened DirSystem
  import opened DirSafety
  import opened DirTags
  import opened DirQueues
  import opened DirOutputs

  // ---------- every step ----------

  /** A step `o` of the directory that is, for its line, the run `es` of the
      line protocol, keeps the queues in order, and puts on its ports what the
      line sends and grants. */
  ghost predicate SoundStep(s: Sys, tag: Tag, es: seq<Event>, o: DirStep, k: Marks, p: Params) {
    var v := View(s.dir, s.env, tag);
    var r := Steps(v, es, p);
    && o.Done? && r.Reached? && Tracks(s.dir, o.dir, tag, r.sys)
    && QueueInv(o.dir, s.spoilt || o.kept.Some?, p) && RoundInv(o.dir)
    && (forall e :: e in es ==> TaggedEvent(e, tag))
    && Emits(s.dir, o, tag, v.cohes, r.sys.cohes, k.taken, k.granted)
  }

  ghost predicate Ready(s: Sys, tag: Tag, p: Params) {
    LineInv(s, tag, p) && QueueInv(s.dir, s.spoilt, p) && RoundInv(s.dir)
  }

  lemma ReplyAbsorbed(s: Sys, m: Req, room: bool, p: Params)
    requires LineInv(s, m.tag, p) && m in EnvOf(s.env, m.tag).replies
    ensures AbsorbReply(s.dir, m, room, p).Done? && AbsorbReply(s.dir, m, room, p).kept.None?
    ensures StepReply(View(s.dir, s.env, m.tag), m, p).Reached? && LineOf(s.dir.lines, m.tag).extra.Some?
  {
    var v := View(s.dir, s.env, m.tag);
    TakeReplyKeepsInv(v, m, p);
    StepReplyParts(v, m, p);
    AbsorbedUnlessFailed(s.dir, m.tag, room, OnCoheReply(v.line, m, p));
  }

  lemma AbsorbedUnlessFailed(d: Dir, tag: Tag, room: bool, r: ReplyStep)
    requires !r.eff.ReplyFailed? && LineOf(d.lines, tag).extra.Some?
    ensures Absorbed(d, tag, room, r).Done? && Absorbed(d, tag, room, r).kept.None?
  {}

  lemma ReplySound(s: Sys, m: Req, room: bool, p: Params)
    requires Ready(s, m.tag, p) && m in EnvOf(s.env, m.tag).replies
    ensures AbsorbReply(s.dir, m, room, p).Done? && AbsorbReply(s.dir, m, room, p).kept.None?
    ensures SoundStep(s, m.tag, ReplyEvents(s.dir, m, room, p), AbsorbReply(s.dir, m, room, p),
                      Marks(false, AckOf(s.dir, m, p), ReplyGrant(s.dir, m, p), None), p)
  {
    hide AbsorbReply, Inv, QueueInv, RoundInv, Tracks, Tagged, Emits;
    ReplyAbsorbed(s, m, room, p);
    ReplyTracks(s, m, room, p);
    ReplyKeepsQueues(s, m, room, s.spoilt, p);
    ReplyKeepsRounds(s.dir, m, room, p);
    ReplyEmits(s, m, room, p);
  }

  lemma WritebackAbsorbed(s: Sys, m: Req, p: Params)
    requires StepWriteback(View(s.dir, s.env, m.tag), m, p).Reached?
    ensures AbsorbWriteback(s.dir, m, p).Done? && AbsorbWriteback(s.dir, m, p).kept.None?
  {}

  lemma WritebackSound(s: Sys, m: Req, p: Params)
    requires Ready(s, m.tag, p) && m in EnvOf(s.env, m.tag).wbs
    ensures AbsorbWriteback(s.dir, m, p).Done? && AbsorbWriteback(s.dir, m, p).kept.None?
    ensures SoundStep(s, m.tag, [TakeWriteback(m)], AbsorbWriteback(s.dir, m, p), Marks(false, None, None, None), p)
  {
    hide AbsorbWriteback, Inv, QueueInv, RoundInv, Tracks, Emits;
    WritebackKeepsInv(View(s.dir, s.env, m.tag), m, p);
    WritebackAbsorbed(s, m, p);
    WritebackTracks(s, m, p);
    WritebackKeepsQueues(s, m, s.spoilt, p);
    WritebacksAreWritebacks(View(s.dir, s.env, m.tag), m, p);
    WritebackKeepsRounds(s.dir, m, p);
    WritebackEmits(s, m, p);
  }

  lemma OutboundSound(s: Sys, room: bool, p: Params)
    requires QueueInv(s.dir, s.spoilt, p) && RoundInv(s.dir) && s.dir.outbound != []
    ensures SoundStep(s, s.dir.outbound[0].tag, OutboundEvents(s.dir, room), SendOutbound(s.dir, room),
                      Marks(false, None, None, None), p)
  {
    hide Tracks, Emits, SendOutbound, QueueInv, RoundInv;
    OutboundHeads(s, p);
    OutboundFields(s.dir, room);
    OutboundTracks(s, room, p);
    OutboundKeepsQueues(s.dir, room, s.spoilt, p);
    OutboundEmits(s, room, p);
    SameLinesSameRounds(s.dir, SendOutbound(s.dir, room).dir);
  }

  lemma OutboundHeads(s: Sys, p: Params)
    requires QueueInv(s.dir, s.spoilt, p) && s.dir.outbound != []
    ensures IsAnswer(s.dir.outbound[0]) || s.dir.outbound[0].msgType == Cohe
  {
    assert s.dir.outbound[0] in s.dir.outbound;
  }

  lemma OutboundFields(d: Dir, room: bool)
    requires d.outbound != []
    ensures var o := SendOutbound(d, room);
            o.Done? && o.kept.None? && o.dir.lines == d.lines && o.dir.partial == d.partial
  {}

  lemma SameLinesSameRounds(d: Dir, d': Dir)
    requires RoundInv(d) && d'.lines == d.lines && d'.partial == d.partial
    ensures RoundInv(d')
  {}

  lemma SendTracks(s: Sys, room: bool, id: Id, p: Params)
    requires s.dir.partial.Some? && id.Allocated?
    requires s.dir.partial.value.msgType != Cohe ==> Ready(s, s.dir.partial.value.tag, p)
    ensures var q := s.dir.partial.value;
            var o := Steps(View(s.dir, s.env, q.tag), SendEvents(s.dir, room, id), p);
            && o.Reached? && SendPartial(s.dir, room, id, p).Done? && SendPartial(s.dir, room, id, p).kept.None?
            && Tracks(s.dir, SendPartial(s.dir, room, id, p).dir, q.tag, o.sys)
  {
    hide Tracks, StepSendInvl;
    var q := s.dir.partial.value;
    var v := View(s.dir, s.env, q.tag);
    if q.msgType == Cohe {
      if room { SendForwardTracks(s, id, p); } else { OutboundUnnoticed(s, s.dir, q.tag, p); }
    } else {
      assert Sending(s.dir, q);
      SendInvlKeepsInv(v, id, p);
      if room { SendInvlTracks(s, id, p); } else { StaysSending(s, q, id, p); OutboundUnnoticed(s, s.dir, q.tag, p); }
    }
  }

  lemma StaysSending(s: Sys, q: Req, id: Id, p: Params)
    requires s.dir.partial == Some(q) && Sending(s.dir, q) && StepSendInvl(View(s.dir, s.env, q.tag), id, p).Reached?
    ensures SendPartial(s.dir, false, id, p) == Unchanged(s.dir)
  {}

  lemma SendSound(s: Sys, room: bool, id: Id, p: Params)
    requires s.dir.partial.Some? && Ready(s, s.dir.partial.value.tag, p) && id.Allocated?
    ensures SendPartial(s.dir, room, id, p).Done? && SendPartial(s.dir, room, id, p).kept.None?
    ensures SoundStep(s, s.dir.partial.value.tag, SendEvents(s.dir, room, id), SendPartial(s.dir, room, id, p),
                      Marks(false, None, None, None), p)
  {
    hide Tracks, Emits, SendPartial, Inv, Tagged, RoundInv;
    SendTracks(s, room, id, p);
    SendKeepsQueues(s.dir, room, id, s.spoilt, p);
    SendKeepsRounds(s.dir, room, id, p);
    SendEmits(s, room, id, p);
  }

  lemma MoveSound(s: Sys, tag: Tag, e: Event, p: Params)
    requires Ready(s, tag, p) && IsCacheEvent(e) && Enabled(View(s.dir, s.env, tag), e, p) && TaggedEvent(e, tag)
    ensures SoundStep(s, tag, [e], Unchanged(s.dir), Marks(false, None, None, TakenBy(e)), p)
  {
    hide Emits, Inv, Enabled, Step;
    var v := View(s.dir, s.env, tag);
    MoveEmits(s, tag, e, p);
    OneStep(v, e, p);
    MoveKeepsLine(v, e, p);
  }

  lemma MoveKeepsLine(v: LineSys, e: Event, p: Params)
    requires IsCacheEvent(e) && Enabled(v, e, p)
    ensures Step(v, e, p).Reached? && Step(v, e, p).sys.line == v.line && Step(v, e, p).sys.queued == v.queued
  {}

  // ---------- a request is served ----------

  /** The request an event serves. */
  function ServedBy(s: Sys, ev: SysEvent): Option<Req> {
    match ev
    case NewRequest(req, _) => Some(req)
    case Reprocess(_) => if s.dir.ready != [] then Some(s.dir.ready[0]) else None
    case _ => None
  }

  /** An answer that could be given at once finds its port full. */
  predicate FindsNoRoom(d: Dir, req: Req, wasPending: bool, room: bool, p: Params) {
    !room && ServeEvents(d, req, wasPending) != [] && OnRequest(LineOf(d.lines, req.tag), req, p).eff.AnswerNow?
  }

  /** A request under the type of an answer meets a line at rest. */
  predicate Unknown(d: Dir, req: Req, wasPending: bool) {
    !req.preprocessed && !IsAccess(req.reqType) && !Full(d, wasPending) && !LineOf(d.lines, req.tag).pend
  }

  /** A request as it can come up for service. */
  ghost predicate Servable(s: Sys, req: Req, wasPending: bool, p: Params) {
    && s.dir.partial.None? && s.dir.bufTot <= s.dir.bufMax
    && (req.preprocessed ==> !wasPending)
    && (!req.preprocessed ==> IsQueued(req, s.spoilt, p))
    && (wasPending ==> s.dir.ready != [] && s.dir.ready[0] == req)
  }

  lemma OutOfPlace(d: Dir, req: Req, wasPending: bool, room: bool, p: Params)
    requires Unknown(d, req, wasPending) && !IsWriteback(req) && req.reqType != RWrite
    ensures Serve(d, req, wasPending, room, p) == DirFatal(UnknownRequestType)
  {
    UnknownIsParked(LineOf(d.lines, req.tag), req, p);
  }

  lemma ServeSound(s: Sys, req: Req, wasPending: bool, room: bool, p: Params)
    requires Ready(s, req.tag, p) && Servable(s, req, wasPending, p) && !Unknown(s.dir, req, wasPending)
    ensures var o := Serve(s.dir, req, wasPending, room, p);
            && o.Done? && (o.kept.Some? <==> FindsNoRoom(s.dir, req, wasPending, room, p))
            && (o.kept.Some? ==> Spoiled(o.kept.value, p) && o.kept.value.id == req.id)
            && SoundStep(s, req.tag, ServeEvents(s.dir, req, wasPending), o,
                         Marks(!wasPending, None, ServeGrant(s.dir, req, wasPending, room, p), None), p)
  {
    hide Emits, Inv, QueueInv, RoundInv, Tracks, Tagged, OnRequest;
    var es := ServeEvents(s.dir, req, wasPending);
    if es == [] {
      IdleSound(s, req, wasPending, room, p);
    } else {
      AskSound(s, req, wasPending, room, p);
    }
    ServeEmits(s, req, wasPending, room, p);
  }

  /** Bounced, or parked under the type of an answer: its line is not
      consulted. */
  lemma IdleSound(s: Sys, req: Req, wasPending: bool, room: bool, p: Params)
    requires Ready(s, req.tag, p) && Servable(s, req, wasPending, p) && !Unknown(s.dir, req, wasPending)
    requires ServeEvents(s.dir, req, wasPending) == []
    ensures var o := Serve(s.dir, req, wasPending, room, p);
            && o.Done? && o.kept.None? && QueueInv(o.dir, s.spoilt, p) && RoundInv(o.dir)
            && Steps(View(s.dir, s.env, req.tag), [], p) == Reached(View(s.dir, s.env, req.tag))
            && Tracks(s.dir, o.dir, req.tag, View(s.dir, s.env, req.tag))
  {
    if req.preprocessed || Full(s.dir, wasPending) {
      assert !wasPending;
      assert Serve(s.dir, req, false, room, p).dir == s.dir;
    } else {
      ParkSound(s, req, wasPending, room, p);
    }
  }

  lemma ParkSound(s: Sys, req: Req, wasPending: bool, room: bool, p: Params)
    requires Ready(s, req.tag, p) && Servable(s, req, wasPending, p) && !req.preprocessed && !Full(s.dir, wasPending)
    requires !IsAccess(req.reqType) && LineOf(s.dir.lines, req.tag).pend
    ensures var o := Serve(s.dir, req, wasPending, room, p);
            && o.Done? && o.kept.None? && QueueInv(o.dir, s.spoilt, p) && RoundInv(o.dir)
            && Tracks(s.dir, o.dir, req.tag, View(s.dir, s.env, req.tag))
  {
    hide OnRequest, Inv, Tagged;
    var line := LineOf(s.dir.lines, req.tag);
    UnknownIsParked(line, req, p);
    ServedKeepsQueues(s.dir, req, wasPending, room, ReqStep(line, IntoBuffer), s.spoilt, p);
  }

  lemma AskReaches(v: LineSys, req: Req, p: Params)
    requires Inv(v, p) && IsRequest(req, p)
    ensures StepAsk(v, req, p).Reached? && Steps(v, [Ask(req)], p) == StepAsk(v, req, p)
  {
    AskKeepsInv(v, req, p);
    OneAsk(v, req, p);
  }

  lemma AskSound(s: Sys, req: Req, wasPending: bool, room: bool, p: Params)
    requires Ready(s, req.tag, p) && Servable(s, req, wasPending, p) && ServeEvents(s.dir, req, wasPending) != []
    ensures var o := Serve(s.dir, req, wasPending, room, p);
            var r := Steps(View(s.dir, s.env, req.tag), [Ask(req)], p);
            && o.Done? && r.Reached? && Tracks(s.dir, o.dir, req.tag, r.sys)
            && QueueInv(o.dir, s.spoilt || o.kept.Some?, p) && RoundInv(o.dir)
            && (o.kept.Some? <==> FindsNoRoom(s.dir, req, wasPending, room, p))
            && (o.kept.Some? ==> Spoiled(o.kept.value, p) && o.kept.value.id == req.id)
  {
    hide OnRequest, Inv, QueueInv, RoundInv, Tracks, Tagged;
    var v := View(s.dir, s.env, req.tag);
    AskReaches(v, req, p);
    LineAccounts(s, req, p);
    var r := OnRequest(v.line, req, p);
    if r.eff.AnswerNow? { AnswerAtOnce(v.line, req, p); }
    AskedSound(s, req, wasPending, room, r, p);
  }

  lemma LineAccounts(s: Sys, req: Req, p: Params)
    requires LineInv(s, req.tag, p) && !IsWriteback(req)
    ensures Accounted(LineOf(s.dir.lines, req.tag), req, OnRequest(LineOf(s.dir.lines, req.tag), req, p))
  {
    RequestAccounts(LineOf(s.dir.lines, req.tag), req, p);
  }

  lemma AskedSound(s: Sys, req: Req, wasPending: bool, room: bool, r: ReqStep, p: Params)
    requires QueueInv(s.dir, s.spoilt, p) && RoundInv(s.dir) && Servable(s, req, wasPending, p)
    requires IsRequest(req, p) && !Full(s.dir, wasPending)
    requires r.eff.AnswerNow? ==> Spoiled(r.eff.answer.(msgType := Request), p)
    requires Accounted(LineOf(s.dir.lines, req.tag), req, r) && Asked(View(s.dir, s.env, req.tag), r).Reached?
    ensures var o := Served(s.dir, req, wasPending, room, r);
            && o.Done? && Tracks(s.dir, o.dir, req.tag, Asked(View(s.dir, s.env, req.tag), r).sys)
            && QueueInv(o.dir, s.spoilt || o.kept.Some?, p) && RoundInv(o.dir)
            && (o.kept.Some? <==> !room && r.eff.AnswerNow?)
            && (o.kept.Some? ==> o.kept.value == r.eff.answer.(msgType := Request))
  {
    hide Accounted, QueueInv, RoundInv, Tracks, Asked;
    ServedUnlessFailed(s, req, wasPending, room, r, p);
    AccountedKinds(LineOf(s.dir.lines, req.tag), req, r);
    ServedTracks(s, req, wasPending, room, r);
    var b := s.spoilt || (!room && r.eff.AnswerNow?);
    QueuesAllowMore(s.dir, s.spoilt, b, p);
    ServedKeepsQueues(s.dir, req, wasPending, room, r, b, p);
  }

  lemma ServedUnlessFailed(s: Sys, req: Req, wasPending: bool, room: bool, r: ReqStep, p: Params)
    requires Servable(s, req, wasPending, p) && !Full(s.dir, wasPending)
    requires Asked(View(s.dir, s.env, req.tag), r).Reached?
    ensures var o := Served(s.dir, req, wasPending, room, r);
            && o.Done? && (o.kept.Some? <==> !room && r.eff.AnswerNow?)
            && (o.kept.Some? ==> o.kept.value == r.eff.answer.(msgType := Request))
  {}

  lemma AccountedKinds(line: Line, req: Req, r: ReqStep)
    requires Accounted(line, req, r) && req.msgType == Request
    ensures r.eff.StartForward? ==> r.eff.cohe.msgType == Cohe && r.eff.cohe.tag == req.tag
    ensures r.eff.StartInvalidating? ==> r.eff.pendReq.msgType == Request
  {}

  // ---------- the account over a step ----------

  ghost predicate BalancedStep(d: Dir, o: DirStep, incoming: Option<Id>, acked: Option<Id>) {
    && o.Done? && o.dir.bufMax == d.bufMax && o.dir.bufTot <= o.dir.bufMax
    && forall w: Weight :: Balanced(d, o, incoming, acked, w)
  }

  /** The transaction a step takes in: a new request, unless nothing was done
      or it was left behind. */
  function Incoming(s: Sys, o: DirStep, isNew: bool): Option<Id>
    requires o.Done?
  {
    if isNew && o != Unchanged(s.dir) && o.kept.None? then Some(Txn(s.issued)) else None
  }

  lemma UnchangedBalances(d: Dir)
    requires d.bufTot <= d.bufMax
    ensures BalancedStep(d, Unchanged(d), None, None)
  {}

  lemma {:induction false} AnswersConcat(a: seq<Req>, b: seq<Req>, w: Weight)
    ensures AnswerSum(a + b, w) == AnswerSum(a, w) + AnswerSum(b, w)
  {
    if b == [] {
      assert a + b == a;
    } else {
      var front, last := b[..|b| - 1], b[|b| - 1];
      AnswersConcat(a, front, w);
      assert a + b == (a + front) + [last];
      AnswerAppend(a + front, last, w);
    }
  }

  lemma CompletedAppend(acked: seq<Id>, id: Option<Id>, w: Weight)
    ensures Completed(acked + OptSeq(id), w) == Completed(acked, w) + OptSum(id, w)
  {
    if id.Some? { assert (acked + [id.value])[..|acked|] == acked; } else { assert acked + OptSeq(id) == acked; }
  }

  lemma LedgerKept(s: Sys, s': Sys, o: DirStep, isNew: bool, acked: Option<Id>)
    requires LedgerInv(s) && o.Done? && BalancedStep(s.dir, o, Incoming(s, o, isNew), acked)
    requires s'.dir == o.dir && s'.issued == (if Incoming(s, o, isNew).Some? then s.issued + 1 else s.issued)
    requires s'.trace.sent == s.trace.sent + o.sent && s'.trace.acked == s.trace.acked + OptSeq(acked)
    ensures LedgerInv(s')
  {
    hide Held, AnswerSum, Completed;
    var incoming := Incoming(s, o, isNew);
    assert Balanced(s.dir, o, incoming, acked, Each());
    forall w: Weight
      ensures Held(s'.dir, w) + AnswerSum(s'.trace.sent, w) + Completed(s'.trace.acked, w) == Issued(s'.issued, w)
    {
      assert Balanced(s.dir, o, incoming, acked, w);
      assert Held(s.dir, w) + AnswerSum(s.trace.sent, w) + Completed(s.trace.acked, w) == Issued(s.issued, w);
      AnswersConcat(s.trace.sent, o.sent, w);
      CompletedAppend(s.trace.acked, acked, w);
    }
  }

  // ---------- one step of the system ----------

  /** The system goes on with its invariant; `roomless`: an answer has found
      its port full. */
  ghost predicate Keeps(s: Sys, r: SysOutcome, roomless: bool, p: Params) {
    && r.Running? && SysInv(r.sys, p) && r.sys.dir.bufMax == s.dir.bufMax
    && (r.sys.spoilt <==> s.spoilt || roomless)
  }

  lemma AdvanceKeepsInv(s: Sys, tag: Tag, es: seq<Event>, o: DirStep, k: Marks, p: Params)
    requires SysInv(s, p) && SoundStep(s, tag, es, o, k, p)
    requires BalancedStep(s.dir, o, Incoming(s, o, k.isNew), k.acked)
    requires k.isNew && o.kept.Some? ==> Spoiled(o.kept.value, p) && o.kept.value.id == Txn(s.issued)
    ensures Keeps(s, Advance(s, tag, es, o, k, p), o.kept.Some?, p)
  {
    hide Inv, Tagged, Tracks, QueueInv, RoundInv, Emits, Steps, LedgerInv, TraceInv, Spoiled, BalancedStep;
    var v := View(s.dir, s.env, tag);
    assert LineInv(s, tag, p);
    StepsKeepInv(v, es, tag, p);
    var s' := Advance(s, tag, es, o, k, p).sys;
    var v' := Steps(v, es, p).sys;
    LinesKept(s, o.dir, tag, v', s', p);
    LedgerKept(s, s', o, k.isNew, k.acked);
    TraceKept(s, s', tag, o, v', k.taken, k.granted);
    assert s'.dir.bufMax == s.dir.bufMax by { Capacity(s.dir, o, Incoming(s, o, k.isNew), k.acked); }
  }

  lemma Capacity(d: Dir, o: DirStep, incoming: Option<Id>, acked: Option<Id>)
    requires BalancedStep(d, o, incoming, acked)
    ensures o.dir.bufMax == d.bufMax
  {}

  lemma ServedBalanced(d: Dir, req: Req, wasPending: bool, room: bool, r: ReqStep)
    requires Accounted(LineOf(d.lines, req.tag), req, r) && !Full(d, wasPending)
    requires wasPending ==> d.ready != [] && d.ready[0] == req
    requires Served(d, req, wasPending, room, r).Done?
    ensures var o := Served(d, req, wasPending, room, r);
            BalancedStep(d, o, if wasPending || o.kept.Some? then None else Some(req.id), None)
  {
    hide Accounted;
    var o := Served(d, req, wasPending, room, r);
    var incoming := if wasPending || o.kept.Some? then None else Some(req.id);
    forall w: Weight ensures Balanced(d, o, incoming, None, w) {
      hide Balanced, Served;
      ServedBalances(d, req, wasPending, room, r, w);
    }
    assert Balanced(d, o, incoming, None, Each());
  }

  lemma BounceBalanced(d: Dir, req: Req, room: bool, ack: Ack)
    requires d.bufTot <= d.bufMax && (ack == Positive || ack == Rar)
    ensures var o := Bounce(d, req, false, room, ack);
            BalancedStep(d, o, if o == Unchanged(d) then None else Some(req.id), None)
  {
    var o := Bounce(d, req, false, room, ack);
    var incoming := if o == Unchanged(d) then None else Some(req.id);
    forall w: Weight ensures Balanced(d, o, incoming, None, w) {
      if room {
        OneAnswer(o.sent[0], w);
        OneAnswer(o.sent[0], Each());
      }
    }
  }

  lemma ServeBalanced(s: Sys, req: Req, wasPending: bool, room: bool, p: Params)
    requires LineInv(s, req.tag, p) && Servable(s, req, wasPending, p) && Serve(s.dir, req, wasPending, room, p).Done?
    requires !wasPending ==> req.id == Txn(s.issued)
    ensures var o := Serve(s.dir, req, wasPending, room, p);
            BalancedStep(s.dir, o, Incoming(s, o, !wasPending), None)
  {
    hide BalancedStep, Inv, Tagged, OnRequest;
    var d := s.dir;
    if req.preprocessed {
      BounceBalanced(d, req, room, Positive);
    } else if Full(d, wasPending) {
      BounceBalanced(d, req, room, Rar);
    } else {
      var r := OnRequest(LineOf(d.lines, req.tag), req, p);
      LineAccounts(s, req, p);
      ServedBalanced(d, req, wasPending, room, r);
      if !wasPending { ServedChanges(d, req, room, r); }
    }
  }

  lemma ReplyBalanced(s: Sys, m: Req, room: bool, p: Params)
    requires SysInv(s, p) && m in EnvOf(s.env, m.tag).replies
    requires AbsorbReply(s.dir, m, room, p).Done? && LineOf(s.dir.lines, m.tag).extra.Some?
    ensures BalancedStep(s.dir, AbsorbReply(s.dir, m, room, p), None, AckOf(s.dir, m, p))
  {
    var o, acked := AbsorbReply(s.dir, m, room, p), AckOf(s.dir, m, p);
    assert LineInv(s, m.tag, p);
    ReplyIsSound(View(s.dir, s.env, m.tag), m, m.tag, p);
    forall w: Weight ensures Balanced(s.dir, o, None, acked, w) {
      hide AbsorbReply, Balanced, AckOf, Inv, Tagged;
      AbsorbReplyBalances(s.dir, m, room, p, w);
    }
    assert Balanced(s.dir, o, None, acked, Each());
  }

  lemma WritebackBalanced(s: Sys, m: Req, p: Params)
    requires SysInv(s, p) && m in EnvOf(s.env, m.tag).wbs && AbsorbWriteback(s.dir, m, p).Done?
    ensures BalancedStep(s.dir, AbsorbWriteback(s.dir, m, p), None, None)
  {
    var o := AbsorbWriteback(s.dir, m, p);
    assert LineInv(s, m.tag, p);
    WritebacksAreWritebacks(View(s.dir, s.env, m.tag), m, p);
    forall w: Weight ensures Balanced(s.dir, o, None, None, w) {
      AbsorbWritebackBalances(s.dir, m, p, w);
    }
    assert Balanced(s.dir, o, None, None, Each());
  }

  lemma OutboundBalanced(s: Sys, room: bool, p: Params)
    requires SysInv(s, p) && s.dir.outbound != []
    ensures BalancedStep(s.dir, SendOutbound(s.dir, room), None, None)
  {
    var o := SendOutbound(s.dir, room);
    forall w: Weight ensures Balanced(s.dir, o, None, None, w) {
      SendOutboundBalances(s.dir, room, w);
    }
    assert Balanced(s.dir, o, None, None, Each());
  }

  lemma SendBalanced(s: Sys, room: bool, id: Id, p: Params)
    requires SysInv(s, p) && s.dir.partial.Some? && SendPartial(s.dir, room, id, p).Done?
    ensures BalancedStep(s.dir, SendPartial(s.dir, room, id, p), None, None)
  {
    var o := SendPartial(s.dir, room, id, p);
    forall w: Weight ensures Balanced(s.dir, o, None, None, w) {
      SendPartialBalances(s.dir, room, id, p, w);
    }
    assert Balanced(s.dir, o, None, None, Each());
  }

  // ---------- every event ----------

  lemma ServeStepKeeps(s: Sys, req: Req, wasPending: bool, room: bool, p: Params)
    requires SysInv(s, p) && Servable(s, req, wasPending, p) && !Unknown(s.dir, req, wasPending)
    requires !wasPending ==> req.id == Txn(s.issued)
    ensures var o := Serve(s.dir, req, wasPending, room, p);
            var k := Marks(!wasPending, None, ServeGrant(s.dir, req, wasPending, room, p), None);
            var r := Advance(s, req.tag, ServeEvents(s.dir, req, wasPending), o, k, p);
            Keeps(s, r, FindsNoRoom(s.dir, req, wasPending, room, p), p)
  {
    hide SoundStep, BalancedStep, Serve, Servable, FindsNoRoom, Inv, Tagged, QueueInv, RoundInv, LedgerInv, TraceInv;
    var o := Serve(s.dir, req, wasPending, room, p);
    assert LineInv(s, req.tag, p);
    ServeSound(s, req, wasPending, room, p);
    ServeBalanced(s, req, wasPending, room, p);
    AdvanceKeepsInv(s, req.tag, ServeEvents(s.dir, req, wasPending), o,
                    Marks(!wasPending, None, ServeGrant(s.dir, req, wasPending, room, p), None), p);
  }

  predicate Serves(ev: SysEvent) {
    ev.NewRequest? || ev.Reprocess?
  }

  lemma ReplyStepKeeps(s: Sys, m: Req, room: bool, p: Params)
    requires SysInv(s, p) && SysEnabled(s, ReplyIn(m, room), p)
    ensures Keeps(s, SysStep(s, ReplyIn(m, room), p), false, p)
  {
    assert LineInv(s, m.tag, p);
    ReplySound(s, m, room, p);
    ReplyAbsorbed(s, m, room, p);
    ReplyBalanced(s, m, room, p);
    AdvanceKeepsInv(s, m.tag, ReplyEvents(s.dir, m, room, p), AbsorbReply(s.dir, m, room, p),
                    MarksOf(s, ReplyIn(m, room), p), p);
  }

  lemma WritebackStepKeeps(s: Sys, m: Req, p: Params)
    requires SysInv(s, p) && SysEnabled(s, WritebackIn(m), p)
    ensures Keeps(s, SysStep(s, WritebackIn(m), p), false, p)
  {
    hide SoundStep, BalancedStep, Keeps, Advance, AbsorbWriteback, Inv, Tagged, QueueInv, RoundInv, TraceInv, Steps;
    assert LineInv(s, m.tag, p);
    WritebackSound(s, m, p);
    WritebackBalanced(s, m, p);
    AdvanceKeepsInv(s, m.tag, [TakeWriteback(m)], AbsorbWriteback(s.dir, m, p), Marks(false, None, None, None), p);
  }

  lemma OutboundStepKeeps(s: Sys, room: bool, p: Params)
    requires SysInv(s, p) && SysEnabled(s, OutboundOut(room), p)
    ensures Keeps(s, SysStep(s, OutboundOut(room), p), false, p)
  {
    hide SoundStep, BalancedStep, Keeps, Advance, SendOutbound, QueueInv, RoundInv, TraceInv, Steps;
    OutboundFields(s.dir, room);
    OutboundSound(s, room, p);
    OutboundBalanced(s, room, p);
    AdvanceKeepsInv(s, s.dir.outbound[0].tag, OutboundEvents(s.dir, room), SendOutbound(s.dir, room),
                    Marks(false, None, None, None), p);
  }

  lemma SendStepKeeps(s: Sys, room: bool, id: Id, p: Params)
    requires SysInv(s, p) && SysEnabled(s, SendCohe(room, id), p)
    ensures Keeps(s, SysStep(s, SendCohe(room, id), p), false, p)
  {
    hide SoundStep, BalancedStep, Keeps, Advance, SendPartial;
    assert LineInv(s, s.dir.partial.value.tag, p);
    SendSound(s, room, id, p);
    SendBalanced(s, room, id, p);
    AdvanceKeepsInv(s, s.dir.partial.value.tag, SendEvents(s.dir, room, id), SendPartial(s.dir, room, id, p),
                    Marks(false, None, None, None), p);
  }

  lemma MoveStepKeeps(s: Sys, tag: Tag, e: Event, p: Params)
    requires SysInv(s, p) && SysEnabled(s, CacheMove(tag, e), p)
    ensures Keeps(s, SysStep(s, CacheMove(tag, e), p), false, p)
  {
    hide SoundStep, BalancedStep, Keeps, Advance, Enabled, Inv, Tagged, QueueInv, RoundInv, TraceInv, Steps;
    assert LineInv(s, tag, p);
    MoveSound(s, tag, e, p);
    UnchangedBalances(s.dir);
    AdvanceKeepsInv(s, tag, [e], Unchanged(s.dir), Marks(false, None, None, TakenBy(e)), p);
  }

  lemma OtherStepKeeps(s: Sys, ev: SysEvent, p: Params)
    requires SysInv(s, p) && SysEnabled(s, ev, p) && !Serves(ev)
    ensures Keeps(s, SysStep(s, ev, p), false, p)
  {
    hide SysInv, SysEnabled, SysStep, Keeps;
    match ev
    case ReplyIn(m, room) => ReplyStepKeeps(s, m, room, p);
    case SendCohe(room, id) => SendStepKeeps(s, room, id, p);
    case WritebackIn(m) => WritebackStepKeeps(s, m, p);
    case OutboundOut(room) => OutboundStepKeeps(s, room, p);
    case CacheMove(tag, e) => MoveStepKeeps(s, tag, e, p);
    case _ =>
  }

  // ---------- every run ----------

  /** The event gives an answer at once that finds its port full. */
  predicate Roomless(s: Sys, ev: SysEvent, p: Params) {
    match ev
    case NewRequest(req, room) => FindsNoRoom(s.dir, req, false, room, p)
    case Reprocess(room) => s.dir.ready != [] && FindsNoRoom(s.dir, s.dir.ready[0], true, room, p)
    case _ => false
  }

  /** The event serves a request that Dir_Cohe does not know. */
  predicate Unserved(s: Sys, ev: SysEvent) {
    match ev
    case NewRequest(req, _) => Unknown(s.dir, req, false)
    case Reprocess(_) => s.dir.ready != [] && Unknown(s.dir, s.dir.ready[0], true)
    case _ => false
  }

  lemma EventServable(s: Sys, ev: SysEvent, p: Params)
    requires SysInv(s, p) && SysEnabled(s, ev, p) && Serves(ev)
    ensures ev.NewRequest? ==> Servable(s, ev.req, false, p)
    ensures ev.Reprocess? ==> Servable(s, s.dir.ready[0], true, p)
    ensures Unserved(s, ev) ==> s.spoilt
  {
    if ev.Reprocess? { assert s.dir.ready[0] in s.dir.ready; }
  }

  /** An enabled event keeps the invariant, unless it serves a request left
      under the type of its answer to a line at rest: then, and only then, the
      directory halts. */
  lemma SysStepKeepsInv(s: Sys, ev: SysEvent, p: Params)
    requires SysInv(s, p) && SysEnabled(s, ev, p)
    ensures Unserved(s, ev) ==> SysStep(s, ev, p) == Halted(UnknownRequestType, true) && s.spoilt
    ensures !Unserved(s, ev) ==> Keeps(s, SysStep(s, ev, p), Roomless(s, ev, p), p)
  {
    hide SysInv, Keeps, Serve, Unknown, Servable, FindsNoRoom;
    if Serves(ev) {
      EventServable(s, ev, p);
      var req := if ev.NewRequest? then ev.req else s.dir.ready[0];
      if Unserved(s, ev) {
        NotWritebacks(s, req, ev.Reprocess?, p);
        OutOfPlace(s.dir, req, ev.Reprocess?, ev.room, p);
      } else {
        ServeStepKeeps(s, req, ev.Reprocess?, ev.room, p);
      }
    } else {
      OtherStepKeeps(s, ev, p);
    }
  }

  /** Every step that goes on is a step of the line protocol on one line. */
  lemma StepIsSound(s: Sys, ev: SysEvent, p: Params)
    requires SysInv(s, p) && SysEnabled(s, ev, p) && !Unserved(s, ev)
    ensures SoundStep(s, TagOf(s, ev, p), LineEvents(s, ev, p), DirPart(s, ev, p), MarksOf(s, ev, p), p)
  {
    hide SoundStep, Serve, AbsorbReply, AbsorbWriteback, SendPartial, SendOutbound, Enabled, Inv, Tagged, LedgerInv;
    hide QueueInv, RoundInv, TraceInv, Servable, Unknown;
    assert LineInv(s, TagOf(s, ev, p), p);
    match ev
    case NewRequest(req, room) => EventServable(s, ev, p); ServeSound(s, req, false, room, p);
    case Reprocess(room) => EventServable(s, ev, p); ServeSound(s, s.dir.ready[0], true, room, p);
    case SendCohe(room, id) => SendSound(s, room, id, p);
    case ReplyIn(m, room) => ReplySound(s, m, room, p);
    case WritebackIn(m) => WritebackSound(s, m, p);
    case OutboundOut(room) => OutboundSound(s, room, p);
    case CacheMove(tag, e) => MoveSound(s, tag, e, p);
  }

  /** On the event's line the step is the run of its line events, and nothing
      happens on any other line. */
  lemma StepProjects(s: Sys, ev: SysEvent, p: Params)
    requires SysInv(s, p) && SysEnabled(s, ev, p) && SysStep(s, ev, p).Running?
    ensures var s', tag := SysStep(s, ev, p).sys, TagOf(s, ev, p);
            && Steps(View(s.dir, s.env, tag), LineEvents(s, ev, p), p) == Reached(View(s'.dir, s'.env, tag))
            && DirPart(s, ev, p).Done? && s'.dir == DirPart(s, ev, p).dir
            && forall t: Tag :: t != tag ==> View(s'.dir, s'.env, t) == View(s.dir, s.env, t)
  {
    hide SysInv, SysEnabled, QueueInv, RoundInv, Emits, Steps, Tracks;
    SysStepKeepsInv(s, ev, p);
    StepIsSound(s, ev, p);
    var tag := TagOf(s, ev, p);
    var v' := Steps(View(s.dir, s.env, tag), LineEvents(s, ev, p), p).sys;
    ViewsKept(s.dir, DirPart(s, ev, p).dir, s.env, tag, v');
  }

  lemma NotWritebacks(s: Sys, req: Req, wasPending: bool, p: Params)
    requires Servable(s, req, wasPending, p) && Unknown(s.dir, req, wasPending)
    ensures !IsWriteback(req) && req.reqType != RWrite
  {}

  lemma StartsInvariant(bufMax: nat, p: Params)
    ensures SysInv(Fresh(bufMax), p)
  {
    var s := Fresh(bufMax);
    forall tag: Tag ensures LineInv(s, tag, p) {
      assert View(s.dir, s.env, tag) == QUIET;
    }
  }

  /** Every run of the directory keeps the invariant for as long as it goes on,
      and can halt in one place only, once an answer has found no room. */
  lemma {:induction false} SysRunKeepsInv(events: seq<SysEvent>, bufMax: nat, p: Params)
    ensures match SysRun(events, bufMax, p)
            case Running(s) => SysInv(s, p) && s.dir.bufMax == bufMax
            case Halted(e, spoilt) => e == UnknownRequestType && spoilt
  {
    hide SysInv, SysStep, SysEnabled;
    if events == [] {
      StartsInvariant(bufMax, p);
    } else {
      SysRunKeepsInv(events[..|events| - 1], bufMax, p);
      var o, ev := SysRun(events[..|events| - 1], bufMax, p), events[|events| - 1];
      if o.Running? && SysEnabled(o.sys, ev, p) { SysStepKeepsInv(o.sys, ev, p); }
    }
  }
}
