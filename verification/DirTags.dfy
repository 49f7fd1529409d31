/** Everything in flight for a line, and the record the line keeps, carries the
    line's tag; and every line keeps its invariant. */
module DirTags {
  import opened Common
  import opened DirTypes
  import opened LineSpec
  import opened LineShape
  import opened LineProtocol
  import opened LineSafety
  import opened DirMachine
  import opened DirLedger
  import opened DirSystem
  import opened DirSafety

  // ---------- messages keep the tag of their line ----------

  ghost predicate TaggedEvent(e: Event, tag: Tag) {
    match e
    case Ask(req) => TaggedMsg(req, tag) && !IsWriteback(req) && req.msgType == Request
    case Evict(wb) => TaggedMsg(wb, tag)
    case _ => true
  }

  lemma AskKeepsTag(v: LineSys, req: Req, tag: Tag, p: Params)
    requires Tagged(v, tag) && TaggedMsg(req, tag) && !IsWriteback(req) && req.msgType == Request
    requires (v.line.pend <==> v.line.extra.Some?) && StepAsk(v, req, p).Reached?
    ensures Tagged(StepAsk(v, req, p).sys, tag)
  {
    RequestAccounts(v.line, req, p);
    AskedKeepsTag(v, req, OnRequest(v.line, req, p), tag);
  }

  lemma AskedKeepsTag(v: LineSys, req: Req, r: ReqStep, tag: Tag)
    requires Tagged(v, tag) && TaggedMsg(req, tag) && req.msgType == Request && Accounted(v.line, req, r)
    requires Asked(v, r).Reached?
    ensures Tagged(Asked(v, r).sys, tag)
  {}

  /** The record a line keeps is the record it had. */
  ghost predicate SameRecord(line: Line, line': Line)
    requires line'.extra.Some?
  {
    line.extra.Some? && line'.extra.value.pendReq == line.extra.value.pendReq
    && line'.extra.value.waiting == line.extra.value.waiting
  }

  lemma ReplyKeepsTag(v: LineSys, m: Req, tag: Tag, p: Params)
    requires Tagged(v, tag) && m in v.replies && StepReply(v, m, p).Reached?
    ensures Tagged(StepReply(v, m, p).sys, tag)
  {
    var r := OnCoheReply(v.line, m, p);
    assert TaggedMsg(m, tag);
    ReplyKeepsRecord(v.line, m, p);
    StepReplyParts(v, m, p);
  }

  lemma ReplyKeepsRecord(line: Line, m: Req, p: Params)
    ensures var r := OnCoheReply(line, m, p);
            && (!r.eff.ReplyFailed? && r.line.extra.Some? ==> SameRecord(line, r.line))
            && (r.eff.Resend? ==> r.eff.cohe.tag == m.tag && r.eff.cohe.preprocessed == m.preprocessed)
  {}

  lemma WritebackKeepsTag(v: LineSys, m: Req, tag: Tag, p: Params)
    requires Tagged(v, tag) && m in v.wbs && StepWriteback(v, m, p).Reached?
    requires IsWriteback(m)
    ensures Tagged(StepWriteback(v, m, p).sys, tag)
  {
    WritebackKeepsRecord(v.line, m, p);
  }

  lemma WritebackKeepsRecord(line: Line, m: Req, p: Params)
    requires IsWriteback(m)
    ensures var r := OnWriteback(line, m, p);
            !r.eff.WbFailed? && r.line.extra.Some? ==> SameRecord(line, r.line)
  {}

  lemma SendKeepsTag(v: LineSys, id: Id, tag: Tag, p: Params)
    requires Tagged(v, tag) && v.line.extra.Some? && StepSendInvl(v, id, p).Reached?
    ensures Tagged(StepSendInvl(v, id, p).sys, tag)
  {}

  /** A cache's reply has the tag of the message it answers. */
  lemma AnswerTagged(v: LineSys, v': LineSys, m: Req, r: Req, tag: Tag)
    requires Tagged(v, tag) && m in v.cohes && r.tag == m.tag && r.preprocessed == m.preprocessed
    requires v'.line == v.line && v'.queued == v.queued && v'.wbs == v.wbs
    requires v'.cohes == v.cohes - multiset{m} && v'.replies == v.replies + multiset{r}
    ensures Tagged(v', tag)
  {}

  lemma OtherMoveKeepsTag(v: LineSys, e: Event, tag: Tag, p: Params)
    requires Tagged(v, tag) && Enabled(v, e, p) && TaggedEvent(e, tag) && (e.Evict? || e.Drop? || e.Dispatch?)
    ensures Step(v, e, p).Reached? && Tagged(Step(v, e, p).sys, tag)
  {}

  lemma MoveKeepsTag(v: LineSys, e: Event, tag: Tag, p: Params)
    requires Tagged(v, tag) && Enabled(v, e, p) && TaggedEvent(e, tag) && (IsCacheEvent(e) || e.Dispatch?)
    ensures Step(v, e, p).Reached? && Tagged(Step(v, e, p).sys, tag)
  {
    hide Tagged, StepAsk, StepReply, StepWriteback, StepSendInvl;
    match e
    case Transfer(m, ackId) =>
      AnswerTagged(v, AfterTransfer(v, m, ackId, m.forwardTo.value), m, ReplyTo(m, Positive).(id := ackId), tag);
    case AnswerInvl(m, ack) => AnswerTagged(v, AfterAnswer(v, m, ack), m, ReplyTo(m, ack), tag);
    case Refuse(m) => AnswerTagged(v, AfterDecline(v, m, Nack), m, ReplyTo(m, Nack), tag);
    case Postpone(m) => AnswerTagged(v, AfterDecline(v, m, NackPend), m, ReplyTo(m, NackPend), tag);
    case _ => OtherMoveKeepsTag(v, e, tag, p);
  }

  lemma DirectoryKeepsTag(v: LineSys, e: Event, tag: Tag, p: Params)
    requires Tagged(v, tag) && Enabled(v, e, p) && TaggedEvent(e, tag) && Step(v, e, p).Reached?
    requires (v.line.pend <==> v.line.extra.Some?) && (e.TakeWriteback? ==> IsWriteback(e.m))
    requires e.Ask? || e.SendInvl? || e.TakeReply? || e.TakeWriteback?
    ensures Tagged(Step(v, e, p).sys, tag)
  {
    match e
    case Ask(req) => AskKeepsTag(v, req, tag, p);
    case SendInvl(id) => SendKeepsTag(v, id, tag, p);
    case TakeReply(m) => ReplyKeepsTag(v, m, tag, p);
    case TakeWriteback(m) => WritebackKeepsTag(v, m, tag, p);
  }

  lemma StepKeepsTag(v: LineSys, e: Event, tag: Tag, p: Params)
    requires Inv(v, p) && Tagged(v, tag) && Enabled(v, e, p) && TaggedEvent(e, tag) && Step(v, e, p).Reached?
    ensures Tagged(Step(v, e, p).sys, tag)
  {
    if e.TakeWriteback? { WritebacksAreWritebacks(v, e.m, p); }
    if IsCacheEvent(e) || e.Dispatch? { MoveKeepsTag(v, e, tag, p); } else { DirectoryKeepsTag(v, e, tag, p); }
  }

  lemma {:induction false} StepsKeepInv(v: LineSys, es: seq<Event>, tag: Tag, p: Params)
    requires Inv(v, p) && Tagged(v, tag) && Steps(v, es, p).Reached?
    requires forall e :: e in es ==> TaggedEvent(e, tag)
    ensures Inv(Steps(v, es, p).sys, p) && Tagged(Steps(v, es, p).sys, tag)
    decreases |es|
  {
    if es == [] {
    } else {
      StepKeepsInv(v, es[0], p);
      StepKeepsTag(v, es[0], tag, p);
      StepsKeepInv(Step(v, es[0], p).sys, es[1..], tag, p);
    }
  }

  // ---------- every line keeps its invariant ----------

  lemma ViewsKept(d: Dir, d': Dir, env: map<Tag, Env>, tag: Tag, v: LineSys)
    requires Tracks(d, d', tag, v)
    ensures View(d', env[tag := EnvPart(v)], tag) == v
    ensures forall t: Tag :: t != tag ==> View(d', env[tag := EnvPart(v)], t) == View(d, env, t)
  {}

  lemma LinesKept(s: Sys, d': Dir, tag: Tag, v: LineSys, s': Sys, p: Params)
    requires forall t: Tag :: LineInv(s, t, p)
    requires Tracks(s.dir, d', tag, v) && Inv(v, p) && Tagged(v, tag)
    requires s'.dir == d' && s'.env == s.env[tag := EnvPart(v)]
    ensures forall t: Tag :: LineInv(s', t, p)
  {
    hide Inv, Tagged;
    ViewsKept(s.dir, d', s.env, tag, v);
    forall t: Tag ensures LineInv(s', t, p) {
      assert LineInv(s, t, p);
    }
  }
}
