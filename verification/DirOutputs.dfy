/** What leaves the directory: the coherence messages put on its ports are
    those the caches get, and the answers it gives are those its lines grant. */
module DirOutputs {
  import opened Common
  import opened DirTypes
  import opened LineSpec
  import opened LineShape
  import opened LineProtocol
  import opened LineSafety
  import opened DirMachine
  import opened DirLedger
  import opened DirSystem
  import opened DirSafety

  // ---------- lists of messages ----------

  function Bag(o: Option<Req>): multiset<Req> {
    if o.Some? then multiset{o.value} else multiset{}
  }

  lemma SoleMessage(m: Req, tag: Tag)
    ensures OutCohes([m], tag) == CoheBag(m, tag) && Grants([m]) == GrantBag(m)
  {
    assert [m] == [] + [m];
    OutAppend([], m, tag);
    GrantAppend([], m);
  }

  lemma GrantAppend(out: seq<Req>, m: Req)
    ensures Grants(out + [m]) == Grants(out) + GrantBag(m)
  {
    assert (out + [m])[..|out|] == out;
  }

  lemma {:induction false} CohesConcat(a: seq<Req>, b: seq<Req>, tag: Tag)
    ensures OutCohes(a + b, tag) == OutCohes(a, tag) + OutCohes(b, tag)
  {
    hide CoheBag;
    if b == [] {
      assert a + b == a;
    } else {
      var front, last := b[..|b| - 1], b[|b| - 1];
      CohesConcat(a, front, tag);
      assert a + b == (a + front) + [last];
      OutAppend(a + front, last, tag);
    }
  }

  lemma {:induction false} GrantsConcat(a: seq<Req>, b: seq<Req>)
    ensures Grants(a + b) == Grants(a) + Grants(b)
  {
    hide GrantBag;
    if b == [] {
      assert a + b == a;
    } else {
      var front, last := b[..|b| - 1], b[|b| - 1];
      GrantsConcat(a, front);
      assert a + b == (a + front) + [last];
      GrantAppend(a + front, last);
    }
  }

  // ---------- one step ----------

  /** At most one message leaves in a step, a coherence message only for the
      line at hand. The line's coherence messages in flight grow by exactly
      the one sent, less the one a cache has taken. The answers that make a
      holder, sent or queued, grow by exactly the one granted. */
  ghost predicate Emits(d: Dir, o: DirStep, tag: Tag, cohes: multiset<Req>, cohes': multiset<Req>,
                        taken: Option<Req>, granted: Option<Req>)
  {
    && o.Done? && |o.sent| <= 1
    && (forall t: Tag :: t != tag ==> OutCohes(o.sent, t) == multiset{})
    && cohes' + Bag(taken) == cohes + OutCohes(o.sent, tag)
    && (taken.Some? ==> taken.value.tag == tag)
    && Grants(o.sent) + Grants(o.dir.outbound) == Grants(d.outbound) + Bag(granted)
  }

  /** A step that sends `m`, if anything, and leaves the outbound queue alone. */
  lemma SendsOnly(d: Dir, o: DirStep, tag: Tag, m: Option<Req>, cohes: multiset<Req>, cohes': multiset<Req>,
                  granted: Option<Req>)
    requires o.Done? && o.sent == OptSeq(m) && o.dir.outbound == d.outbound
    requires m.Some? && m.value.msgType == Cohe ==> m.value.tag == tag
    requires cohes' == cohes + OptBag(m, tag)
    requires Bag(granted) == if m.Some? then GrantBag(m.value) else multiset{}
    ensures Emits(d, o, tag, cohes, cohes', None, granted)
  {
    if m.Some? {
      forall t: Tag ensures OutCohes(o.sent, t) == CoheBag(m.value, t) && Grants(o.sent) == GrantBag(m.value) {
        SoleMessage(m.value, t);
      }
    }
  }

  /** A step that appends `m` to the outbound queue instead. */
  lemma QueuesOnly(d: Dir, o: DirStep, tag: Tag, m: Req, cohes: multiset<Req>, granted: Option<Req>)
    requires o.Done? && o.sent == [] && o.dir.outbound == d.outbound + [m] && Bag(granted) == GrantBag(m)
    ensures Emits(d, o, tag, cohes, cohes, None, granted)
  {
    GrantAppend(d.outbound, m);
  }

  // ---------- a request ----------

  /** An answer given at once is a grant to the node that asked; as a request
      again it has the type of an answer. */
  lemma AnswerAtOnce(line: Line, req: Req, p: Params)
    requires IsRequest(req, p) && OnRequest(line, req, p).eff.AnswerNow?
    ensures var a := OnRequest(line, req, p).eff.answer;
            a.tag == req.tag && a.id == req.id && IsGrant(a) && Spoiled(a.(msgType := Request), p)
  {
    hide OthersBelow;
  }

  /** What is no access is parked behind a pending line, and unknown to a line
      at rest. */
  lemma UnknownIsParked(line: Line, req: Req, p: Params)
    requires !IsAccess(req.reqType) && !IsWriteback(req) && req.reqType != RWrite
    ensures OnRequest(line, req, p)
            == ReqStep(line, if line.pend then IntoBuffer else ReqFailed(UnknownRequestType))
  {}

  lemma AskedEmits(d: Dir, req: Req, wasPending: bool, room: bool, r: ReqStep, v: LineSys)
    requires Served(d, req, wasPending, room, r).Done? && Asked(v, r).Reached?
    requires r.eff.AnswerNow? ==> IsGrant(r.eff.answer)
    ensures Emits(d, Served(d, req, wasPending, room, r), req.tag, v.cohes, Asked(v, r).sys.cohes, None,
                  if room && r.eff.AnswerNow? then Some(r.eff.answer) else None)
  {
    var o := Served(d, req, wasPending, room, r);
    SendsOnly(d, o, req.tag, if room && r.eff.AnswerNow? then Some(r.eff.answer) else None, v.cohes,
              Asked(v, r).sys.cohes,
              if room && r.eff.AnswerNow? then Some(r.eff.answer) else None);
  }

  lemma BounceEmits(d: Dir, req: Req, wasPending: bool, room: bool, ack: Ack, cohes: multiset<Req>)
    requires ack == Rar || req.preprocessed
    ensures Emits(d, Bounce(d, req, wasPending, room, ack), req.tag, cohes, cohes, None, None)
  {
    var m := if room then Some(req.(reply := ack, msgType := Reply)) else None;
    SendsOnly(d, Bounce(d, req, wasPending, room, ack), req.tag, m, cohes, cohes, None);
  }

  lemma ServeEmits(s: Sys, req: Req, wasPending: bool, room: bool, p: Params)
    requires req.preprocessed || IsQueued(req, s.spoilt, p)
    requires Serve(s.dir, req, wasPending, room, p).Done?
    requires Steps(View(s.dir, s.env, req.tag), ServeEvents(s.dir, req, wasPending), p).Reached?
    ensures var v := View(s.dir, s.env, req.tag);
            var v' := Steps(v, ServeEvents(s.dir, req, wasPending), p).sys;
            Emits(s.dir, Serve(s.dir, req, wasPending, room, p), req.tag, v.cohes, v'.cohes, None,
                  ServeGrant(s.dir, req, wasPending, room, p))
  {
    hide Emits, OnRequest, Served, Bounce;
    var v := View(s.dir, s.env, req.tag);
    if req.preprocessed {
      BounceEmits(s.dir, req, wasPending, room, Positive, v.cohes);
    } else if Full(s.dir, wasPending) {
      BounceEmits(s.dir, req, wasPending, room, Rar, v.cohes);
    } else {
      ServedEmits(s, req, wasPending, room, p);
    }
  }

  lemma ServedEmits(s: Sys, req: Req, wasPending: bool, room: bool, p: Params)
    requires IsQueued(req, s.spoilt, p) && !Full(s.dir, wasPending)
    requires Serve(s.dir, req, wasPending, room, p).Done?
    requires Steps(View(s.dir, s.env, req.tag), ServeEvents(s.dir, req, wasPending), p).Reached?
    ensures var v := View(s.dir, s.env, req.tag);
            var v' := Steps(v, ServeEvents(s.dir, req, wasPending), p).sys;
            Emits(s.dir, Serve(s.dir, req, wasPending, room, p), req.tag, v.cohes, v'.cohes, None,
                  ServeGrant(s.dir, req, wasPending, room, p))
  {
    hide Emits, OnRequest, Enabled, Step;
    var v := View(s.dir, s.env, req.tag);
    var r := OnRequest(v.line, req, p);
    if IsAccess(req.reqType) {
      OneAsk(v, req, p);
      if r.eff.AnswerNow? { AnswerAtOnce(v.line, req, p); }
      AskedEmits(s.dir, req, wasPending, room, r, v);
    } else {
      UnknownIsParked(v.line, req, p);
      SendsOnly(s.dir, Served(s.dir, req, wasPending, room, r), req.tag, None, v.cohes, v.cohes, None);
    }
  }

  lemma OneAsk(v: LineSys, req: Req, p: Params)
    requires IsRequest(req, p)
    ensures Steps(v, [Ask(req)], p) == StepAsk(v, req, p)
  {
    OneStep(v, Ask(req), p);
  }

  // ---------- a coherence reply or a write-back ----------

  /** The forward a reply puts back on its port at once. */
  function Resent(d: Dir, m: Req, room: bool, p: Params): Option<Req> {
    var r := OnCoheReply(LineOf(d.lines, m.tag), m, p);
    if r.eff.Resend? && room then Some(r.eff.cohe) else None
  }

  lemma TakenReplyCohes(v: LineSys, m: Req, p: Params)
    requires StepReply(v, m, p).Reached?
    ensures StepReply(v, m, p).sys.cohes == v.cohes
  {}

  lemma ReplyCohes(s: Sys, m: Req, room: bool, p: Params)
    requires m in EnvOf(s.env, m.tag).replies
    requires Steps(View(s.dir, s.env, m.tag), ReplyEvents(s.dir, m, room, p), p).Reached?
    ensures var v := View(s.dir, s.env, m.tag);
            Steps(v, ReplyEvents(s.dir, m, room, p), p).sys.cohes == v.cohes + Bag(Resent(s.dir, m, room, p))
  {
    hide StepReply, OnCoheReply;
    var v := View(s.dir, s.env, m.tag);
    var r := OnCoheReply(v.line, m, p);
    TakenReplyCohes(v, m, p);
    if r.eff.Resend? && room {
      TwoSteps(v, TakeReply(m), Dispatch(r.eff.cohe), p);
      OneStep(StepReply(v, m, p).sys, Dispatch(r.eff.cohe), p);
    } else {
      OneStep(v, TakeReply(m), p);
    }
  }

  /** The answer a reply completes is a grant; a demand to retry is not. */
  lemma ReplyAnswers(line: Line, m: Req, p: Params)
    requires line.extra.Some? && !line.extra.value.pendReq.preprocessed
    ensures var r := OnCoheReply(line, m, p);
            match r.eff
            case Finish(a) => IsGrant(a)
            case Retry(a) => a.msgType == Reply && !IsGrant(a)
            case Resend(c) => c.msgType == Cohe && c.tag == m.tag
            case _ => true
  {}

  lemma ReplyEmits(s: Sys, m: Req, room: bool, p: Params)
    requires m in EnvOf(s.env, m.tag).replies && Tagged(View(s.dir, s.env, m.tag), m.tag)
    requires LineOf(s.dir.lines, m.tag).extra.Some? && AbsorbReply(s.dir, m, room, p).Done?
    requires Steps(View(s.dir, s.env, m.tag), ReplyEvents(s.dir, m, room, p), p).Reached?
    ensures var v := View(s.dir, s.env, m.tag);
            var v' := Steps(v, ReplyEvents(s.dir, m, room, p), p).sys;
            Emits(s.dir, AbsorbReply(s.dir, m, room, p), m.tag, v.cohes, v'.cohes, None, ReplyGrant(s.dir, m, p))
  {
    hide Emits, OnCoheReply, Steps, Absorbed;
    var v := View(s.dir, s.env, m.tag);
    ReplyCohes(s, m, room, p);
    ReplyAnswers(v.line, m, p);
    var v' := Steps(v, ReplyEvents(s.dir, m, room, p), p).sys;
    AbsorbedEmits(s.dir, m.tag, room, OnCoheReply(v.line, m, p), v.cohes, v'.cohes);
  }

  lemma AbsorbedEmits(d: Dir, tag: Tag, room: bool, r: ReplyStep, cohes: multiset<Req>, cohes': multiset<Req>)
    requires Absorbed(d, tag, room, r).Done?
    requires r.eff.Finish? ==> IsGrant(r.eff.answer)
    requires r.eff.Retry? ==> r.eff.rar.msgType == Reply && !IsGrant(r.eff.rar)
    requires r.eff.Resend? ==> r.eff.cohe.msgType == Cohe && r.eff.cohe.tag == tag
    requires cohes' == cohes + Bag(if r.eff.Resend? && room then Some(r.eff.cohe) else None)
    ensures Emits(d, Absorbed(d, tag, room, r), tag, cohes, cohes', None,
                  if r.eff.Finish? then Some(r.eff.answer) else None)
  {
    hide Emits;
    var o := Absorbed(d, tag, room, r);
    assert !(r.eff.Resend? && room) ==> cohes' == cohes;
    match r.eff
    case Retry(a) => DeliveredEmits(d, o, tag, a, room, cohes, None);
    case Finish(a) => DeliveredEmits(d, o, tag, a, room, cohes, Some(a));
    case Resend(c) =>
      if room { SendsOnly(d, o, tag, Some(c), cohes, cohes', None); } else { QueuesOnly(d, o, tag, c, cohes, None); }
    case _ => SendsOnly(d, o, tag, None, cohes, cohes', None);
  }

  lemma DeliveredEmits(d: Dir, o: DirStep, tag: Tag, a: Req, room: bool, cohes: multiset<Req>, granted: Option<Req>)
    requires a.msgType == Reply && Bag(granted) == GrantBag(a) && o.Done?
    requires if room then o.sent == [a] && o.dir.outbound == d.outbound
             else o.sent == [] && o.dir.outbound == d.outbound + [a]
    ensures Emits(d, o, tag, cohes, cohes, None, granted)
  {
    if room { SendsOnly(d, o, tag, Some(a), cohes, cohes, granted); } else { QueuesOnly(d, o, tag, a, cohes, granted); }
  }

  lemma WritebackEmits(s: Sys, m: Req, p: Params)
    requires m in EnvOf(s.env, m.tag).wbs && AbsorbWriteback(s.dir, m, p).Done?
    requires Steps(View(s.dir, s.env, m.tag), [TakeWriteback(m)], p).Reached?
    ensures var v := View(s.dir, s.env, m.tag);
            var v' := Steps(v, [TakeWriteback(m)], p).sys;
            Emits(s.dir, AbsorbWriteback(s.dir, m, p), m.tag, v.cohes, v'.cohes, None, None)
  {
    hide Emits, AbsorbWriteback, Steps, StepWriteback;
    WritebackSendsNothing(s.dir, m, p);
    var v := View(s.dir, s.env, m.tag);
    OneStep(v, TakeWriteback(m), p);
    WritebackCohes(v, m, p);
    SendsOnly(s.dir, AbsorbWriteback(s.dir, m, p), m.tag, None, v.cohes, v.cohes, None);
  }

  lemma WritebackSendsNothing(d: Dir, m: Req, p: Params)
    ensures var o := AbsorbWriteback(d, m, p);
            o.Done? ==> o.sent == [] && o.dir.outbound == d.outbound
  {
    hide OnWriteback;
  }

  lemma WritebackCohes(v: LineSys, m: Req, p: Params)
    ensures StepWriteback(v, m, p).Reached? ==> StepWriteback(v, m, p).sys.cohes == v.cohes
  {}

  // ---------- coherence messages and the outbound queue ----------

  lemma SendEmits(s: Sys, room: bool, id: Id, p: Params)
    requires s.dir.partial.Some? && SendPartial(s.dir, room, id, p).Done?
    requires var q := s.dir.partial.value;
             Steps(View(s.dir, s.env, q.tag), SendEvents(s.dir, room, id), p).Reached?
             && (q.msgType != Cohe ==>
                   LineOf(s.dir.lines, q.tag).extra.Some? && LineOf(s.dir.lines, q.tag).extra.value.pendReq == q)
    ensures var q := s.dir.partial.value;
            var v := View(s.dir, s.env, q.tag);
            var v' := Steps(v, SendEvents(s.dir, room, id), p).sys;
            Emits(s.dir, SendPartial(s.dir, room, id, p), q.tag, v.cohes, v'.cohes, None, None)
  {
    hide Emits;
    var q := s.dir.partial.value;
    var v := View(s.dir, s.env, q.tag);
    var o := SendPartial(s.dir, room, id, p);
    if !room {
      SendsOnly(s.dir, o, q.tag, None, v.cohes, v.cohes, None);
    } else if q.msgType == Cohe {
      OneStep(v, Dispatch(q), p);
      SendsOnly(s.dir, o, q.tag, Some(q), v.cohes, v.cohes + multiset{q}, None);
    } else {
      OneStep(v, SendInvl(id), p);
      var m := OnSendInvl(v.line, q, p, id).cohe;
      SendsOnly(s.dir, o, q.tag, Some(m), v.cohes, v.cohes + multiset{m}, None);
    }
  }

  lemma GrantHead(out: seq<Req>)
    requires out != []
    ensures Grants(out) == GrantBag(out[0]) + Grants(out[1..])
  {
    assert out == [out[0]] + out[1..];
    GrantsConcat([out[0]], out[1..]);
    SoleMessage(out[0], 0);
  }

  lemma OutboundEmits(s: Sys, room: bool, p: Params)
    requires s.dir.outbound != []
    requires Steps(View(s.dir, s.env, s.dir.outbound[0].tag), OutboundEvents(s.dir, room), p).Reached?
    ensures var m := s.dir.outbound[0];
            var v := View(s.dir, s.env, m.tag);
            var v' := Steps(v, OutboundEvents(s.dir, room), p).sys;
            Emits(s.dir, SendOutbound(s.dir, room), m.tag, v.cohes, v'.cohes, None, None)
  {
    hide OutCohes, Grants, CoheBag, GrantBag;
    var m, rest := s.dir.outbound[0], s.dir.outbound[1..];
    var v := View(s.dir, s.env, m.tag);
    GrantHead(s.dir.outbound);
    GrantAppend(rest, m);
    if room {
      forall t: Tag ensures OutCohes([m], t) == CoheBag(m, t) && Grants([m]) == GrantBag(m) { SoleMessage(m, t); }
      HeadLeaves(v, m, p);
    } else {
      NothingSent();
    }
  }

  lemma NothingSent()
    ensures Grants([]) == multiset{} && forall t: Tag :: OutCohes([], t) == multiset{}
  {}

  lemma HeadLeaves(v: LineSys, m: Req, p: Params)
    requires m.msgType == Cohe ==> Steps(v, [Dispatch(m)], p).Reached?
    ensures m.msgType == Cohe ==> Steps(v, [Dispatch(m)], p).sys.cohes == v.cohes + CoheBag(m, m.tag)
    ensures m.msgType != Cohe ==> Steps(v, [], p).sys.cohes == v.cohes + CoheBag(m, m.tag)
    ensures forall t: Tag :: t != m.tag ==> CoheBag(m, t) == multiset{}
  {
    if m.msgType == Cohe { OneStep(v, Dispatch(m), p); }
  }

  lemma MoveEmits(s: Sys, tag: Tag, e: Event, p: Params)
    requires IsCacheEvent(e) && Enabled(View(s.dir, s.env, tag), e, p) && Tagged(View(s.dir, s.env, tag), tag)
    ensures var v := View(s.dir, s.env, tag);
            Steps(v, [e], p).Reached?
            && Emits(s.dir, Unchanged(s.dir), tag, v.cohes, Steps(v, [e], p).sys.cohes, TakenBy(e), None)
  {
    hide Enabled, Step, Steps;
    var v := View(s.dir, s.env, tag);
    OneStep(v, e, p);
    MoveTakes(v, e, p);
    NothingSent();
  }

  /** A reply takes its message off the network; nothing else does. */
  lemma MoveLeaves(v: LineSys, e: Event, p: Params)
    requires IsCacheEvent(e) && Enabled(v, e, p)
    ensures Step(v, e, p).Reached?
    ensures match TakenBy(e)
            case Some(m) => m in v.cohes && Step(v, e, p).sys.cohes == v.cohes - multiset{m}
            case None => Step(v, e, p).sys.cohes == v.cohes
  {
    hide StepAsk, StepReply, StepWriteback, StepSendInvl;
  }

  lemma MoveTakes(v: LineSys, e: Event, p: Params)
    requires IsCacheEvent(e) && Enabled(v, e, p)
    ensures Step(v, e, p).Reached? && Step(v, e, p).sys.cohes + Bag(TakenBy(e)) == v.cohes
    ensures TakenBy(e).Some? ==> TakenBy(e).value in v.cohes
  {
    hide Enabled, Step;
    MoveLeaves(v, e, p);
  }

  // ---------- the whole run ----------

  lemma TakenAppend(s: seq<Req>, o: Option<Req>, t: Tag)
    ensures multiset(OfTag(s + OptSeq(o), t))
            == multiset(OfTag(s, t)) + (if o.Some? && o.value.tag == t then Bag(o) else multiset{})
  {
    if o.Some? { assert (s + [o.value])[..|s|] == s; } else { assert s + OptSeq(o) == s; }
  }

  lemma Cancel(all: multiset<Req>, had: multiset<Req>, took: multiset<Req>, sent: multiset<Req>, has: multiset<Req>,
               b: multiset<Req>)
    requires all == had + took && has + b == had + sent
    ensures all + sent == has + (took + b)
  {
    forall x: Req ensures (all + sent)[x] == (has + (took + b))[x] {
      assert (had + took)[x] == all[x] && (has + b)[x] == (had + sent)[x];
    }
  }

  lemma GrantsMove(out: multiset<Req>, queue: multiset<Req>, sent: multiset<Req>, queue': multiset<Req>,
                   all: multiset<Req>,
                   b: multiset<Req>)
    requires out + queue == all && sent + queue' == queue + b
    ensures out + sent + queue' == all + b
  {
    forall x: Req ensures (out + sent + queue')[x] == (all + b)[x] {
      assert (out + queue)[x] == all[x] && (sent + queue')[x] == (queue + b)[x];
    }
  }

  lemma CohesKept(s: Sys, s': Sys, tag: Tag, o: DirStep, v': LineSys, taken: Option<Req>, granted: Option<Req>, t: Tag)
    requires OutCohes(s.trace.sent, t) == EnvOf(s.env, t).cohes + multiset(OfTag(s.trace.taken, t))
    requires Emits(s.dir, o, tag, EnvOf(s.env, tag).cohes, v'.cohes, taken, granted)
    requires s'.env == s.env[tag := EnvPart(v')]
    requires s'.trace.sent == s.trace.sent + o.sent && s'.trace.taken == s.trace.taken + OptSeq(taken)
    ensures OutCohes(s'.trace.sent, t) == EnvOf(s'.env, t).cohes + multiset(OfTag(s'.trace.taken, t))
  {
    hide OutCohes, Grants, OfTag;
    CohesConcat(s.trace.sent, o.sent, t);
    TakenAppend(s.trace.taken, taken, t);
    if t == tag {
      Cancel(OutCohes(s.trace.sent, t), EnvOf(s.env, t).cohes, multiset(OfTag(s.trace.taken, t)), OutCohes(o.sent, t),
             v'.cohes, Bag(taken));
    } else {
      assert OutCohes(o.sent, t) == multiset{};
    }
  }

  lemma TraceKept(s: Sys, s': Sys, tag: Tag, o: DirStep, v': LineSys, taken: Option<Req>, granted: Option<Req>)
    requires TraceInv(s) && Emits(s.dir, o, tag, EnvOf(s.env, tag).cohes, v'.cohes, taken, granted)
    requires s'.dir == o.dir && s'.env == s.env[tag := EnvPart(v')]
    requires s'.trace.sent == s.trace.sent + o.sent && s'.trace.taken == s.trace.taken + OptSeq(taken)
    requires s'.trace.granted == s.trace.granted + OptSeq(granted)
    ensures TraceInv(s')
  {
    hide OutCohes, Grants, OfTag;
    forall t: Tag
      ensures OutCohes(s'.trace.sent, t) == EnvOf(s'.env, t).cohes + multiset(OfTag(s'.trace.taken, t))
    {
      hide Emits;
      CohesKept(s, s', tag, o, v', taken, granted, t);
    }
    GrantsConcat(s.trace.sent, o.sent);
    assert multiset(s'.trace.granted) == multiset(s.trace.granted) + Bag(granted);
    GrantsMove(Grants(s.trace.sent), Grants(s.dir.outbound), Grants(o.sent), Grants(o.dir.outbound),
               multiset(s.trace.granted),
               Bag(granted));
  }
}
