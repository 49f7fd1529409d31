/** Every run of the whole directory is, on each line, a run of the line
    protocol, and keeps its queues and its buffer account in order. */
module DirSafety {
  import opened Common
  import opened DirTypes
  import opened LineSpec
  import opened LineShape
  import opened LineProtocol
  import opened LineSafety
  import opened DirMachine
  import opened DirLedger
  import opened DirSystem

  // ---------- the queued coherence messages of a line ----------

  lemma OutAppend(out: seq<Req>, m: Req, tag: Tag)
    ensures OutCohes(out + [m], tag) == OutCohes(out, tag) + CoheBag(m, tag)
  {
    assert (out + [m])[..|out|] == out;
  }

  lemma {:induction false} OutHead(out: seq<Req>, tag: Tag)
    requires out != []
    ensures OutCohes(out, tag) == CoheBag(out[0], tag) + OutCohes(out[1..], tag)
  {
    hide CoheBag;
    var front, last := out[..|out| - 1], out[|out| - 1];
    if front == [] {
      assert out[1..] == [];
    } else {
      OutHead(front, tag);
      assert out[1..] == front[1..] + [last];
      OutAppend(front[1..], last, tag);
    }
  }

  lemma {:induction false} OutMember(out: seq<Req>, tag: Tag, m: Req)
    requires m in OutCohes(out, tag)
    ensures m in out && m.msgType == Cohe && m.tag == tag
  {
    var front, last := out[..|out| - 1], out[|out| - 1];
    if m in OutCohes(front, tag) { OutMember(front, tag, m); }
  }

  // ---------- the directory tracks the line protocol ----------

  /** After the step the line `tag` and its queued messages are those of `v`,
      and no other line is touched. */
  ghost predicate Tracks(d: Dir, d': Dir, tag: Tag, v: LineSys) {
    && LineOf(d'.lines, tag) == v.line && Queued(d', tag) == v.queued
    && forall t: Tag :: t != tag ==> LineOf(d'.lines, t) == LineOf(d.lines, t) && Queued(d', t) == Queued(d, t)
  }

  function OptBag(c: Option<Req>, tag: Tag): multiset<Req> {
    if c.Some? then CoheBag(c.value, tag) else multiset{}
  }

  /** A step that replaces the line `tag`, leaves the partial request alone,
      and adds `c` to the outbound coherence messages. */
  lemma TrackBy(d: Dir, d': Dir, tag: Tag, line: Line, c: Option<Req>, v: LineSys)
    requires d'.lines == d.lines[tag := line] && d'.partial == d.partial
    requires forall t: Tag :: OutCohes(d'.outbound, t) == OutCohes(d.outbound, t) + OptBag(c, t)
    requires c.Some? ==> c.value.tag == tag
    requires v.line == line && v.queued == Queued(d, tag) + OptBag(c, tag)
    ensures Tracks(d, d', tag, v)
  {
    hide OutCohes;
  }

  lemma OneStep(v: LineSys, e: Event, p: Params)
    ensures Enabled(v, e, p) ==> Steps(v, [e], p) == Step(v, e, p)
  {
    if Enabled(v, e, p) && Step(v, e, p).Reached? {
      assert [e][1..] == [];
      assert Steps(Step(v, e, p).sys, [e][1..], p) == Step(v, e, p);
    }
  }

  lemma TwoSteps(v: LineSys, e: Event, f: Event, p: Params)
    requires Enabled(v, e, p) && Step(v, e, p).Reached?
    ensures Steps(v, [e, f], p) == Steps(Step(v, e, p).sys, [f], p)
  {
    assert [e, f][1..] == [f];
  }

  /** What a served request leaves besides its line. */
  function PartialAfter(d: Dir, r: ReqStep): Option<Req> {
    match r.eff
    case StartInvalidating(q) => Some(q)
    case StartForward(m) => Some(m)
    case _ => d.partial
  }

  lemma ServedFields(d: Dir, req: Req, wasPending: bool, room: bool, r: ReqStep)
    ensures var o := Served(d, req, wasPending, room, r);
            o.Done? ==> && o.dir.lines == d.lines[req.tag := r.line] && o.dir.outbound == d.outbound
                        && o.dir.partial == PartialAfter(d, r)
  {}

  lemma ServedTracks(s: Sys, req: Req, wasPending: bool, room: bool, r: ReqStep)
    requires s.dir.partial.None?
    requires r.eff.StartForward? ==> r.eff.cohe.msgType == Cohe && r.eff.cohe.tag == req.tag
    requires r.eff.StartInvalidating? ==> r.eff.pendReq.msgType == Request
    requires Served(s.dir, req, wasPending, room, r).Done? && Asked(View(s.dir, s.env, req.tag), r).Reached?
    ensures Tracks(s.dir, Served(s.dir, req, wasPending, room, r).dir, req.tag,
            Asked(View(s.dir, s.env, req.tag), r).sys)
  {
    hide Asked, Tracks;
    ServedFields(s.dir, req, wasPending, room, r);
    hide Served;
    PartialTracks(s, Served(s.dir, req, wasPending, room, r).dir, req, r);
  }

  lemma PartialTracks(s: Sys, d': Dir, req: Req, r: ReqStep)
    requires s.dir.partial.None?
    requires r.eff.StartForward? ==> r.eff.cohe.msgType == Cohe && r.eff.cohe.tag == req.tag
    requires r.eff.StartInvalidating? ==> r.eff.pendReq.msgType == Request
    requires d'.lines == s.dir.lines[req.tag := r.line] && d'.outbound == s.dir.outbound
    requires d'.partial == PartialAfter(s.dir, r)
    requires Asked(View(s.dir, s.env, req.tag), r).Reached?
    ensures Tracks(s.dir, d', req.tag, Asked(View(s.dir, s.env, req.tag), r).sys)
  {
    hide OutCohes;
    var v := View(s.dir, s.env, req.tag);
    var v' := Asked(v, r).sys;
    assert v'.line == r.line;
    assert v'.queued == v.queued + PartialBag(d'.partial, req.tag);
    assert Queued(d', req.tag) == PartialBag(d'.partial, req.tag) + v.queued;
  }

  /** The forward an absorbed reply queues again. */
  function Requeued(d: Dir, m: Req, room: bool, p: Params): Option<Req> {
    var r := OnCoheReply(LineOf(d.lines, m.tag), m, p);
    if r.eff.Resend? && !room then Some(r.eff.cohe) else None
  }

  /** What an absorbed coherence reply leaves besides its line. */
  lemma ReplyFields(d: Dir, m: Req, room: bool, p: Params)
    requires AbsorbReply(d, m, room, p).Done?
    ensures var d', c := AbsorbReply(d, m, room, p).dir, Requeued(d, m, room, p);
            && d'.lines == d.lines[m.tag := OnCoheReply(LineOf(d.lines, m.tag), m, p).line] && d'.partial == d.partial
            && (c.Some? ==> c.value.tag == m.tag && c.value.msgType == Cohe)
            && forall t: Tag :: OutCohes(d'.outbound, t) == OutCohes(d.outbound, t) + OptBag(c, t)
  {
    var line := LineOf(d.lines, m.tag);
    if line.extra.Some? { ReplyAccounts(line, m, p); }
    forall t: Tag, x: Req ensures OutCohes(d.outbound + [x], t) == OutCohes(d.outbound, t) + CoheBag(x, t) {
      OutAppend(d.outbound, x, t);
    }
  }

  lemma StepReplyParts(v: LineSys, m: Req, p: Params)
    requires StepReply(v, m, p).Reached?
    ensures var r, v' := OnCoheReply(v.line, m, p), StepReply(v, m, p).sys;
            && v'.line == r.line && !r.eff.ReplyFailed?
            && v'.queued == v.queued + (if r.eff.Resend? then multiset{r.eff.cohe} else multiset{})
            && (r.eff.Resend? ==> r.eff.cohe.tag == m.tag && r.eff.cohe.msgType == Cohe)
  {}

  lemma ResentSteps(v: LineSys, v1: LineSys, m: Req, c: Req, p: Params)
    requires m in v.replies && StepReply(v, m, p) == Reached(v1)
    requires v1.queued == v.queued + multiset{c}
    ensures var o := Steps(v, [TakeReply(m), Dispatch(c)], p);
            o.Reached? && o.sys.line == v1.line && o.sys.queued == v.queued
  {
    TwoSteps(v, TakeReply(m), Dispatch(c), p);
    OneStep(v1, Dispatch(c), p);
    assert v1.queued - multiset{c} == v.queued;
  }

  /** The line protocol's account of an absorbed reply. */
  lemma ReplySteps(s: Sys, m: Req, room: bool, p: Params)
    requires m in EnvOf(s.env, m.tag).replies
    requires StepReply(View(s.dir, s.env, m.tag), m, p).Reached?
    ensures var v := View(s.dir, s.env, m.tag);
            var o := Steps(v, ReplyEvents(s.dir, m, room, p), p);
            o.Reached? && o.sys.line == OnCoheReply(v.line, m, p).line
            && o.sys.queued == v.queued + OptBag(Requeued(s.dir, m, room, p), m.tag)
  {
    var v := View(s.dir, s.env, m.tag);
    var r := OnCoheReply(v.line, m, p);
    var v1 := StepReply(v, m, p).sys;
    StepReplyParts(v, m, p);
    if r.eff.Resend? && room {
      ResentSteps(v, v1, m, r.eff.cohe, p);
    } else {
      OneStep(v, TakeReply(m), p);
    }
  }

  lemma ReplyTracks(s: Sys, m: Req, room: bool, p: Params)
    requires m in EnvOf(s.env, m.tag).replies && AbsorbReply(s.dir, m, room, p).Done?
    requires StepReply(View(s.dir, s.env, m.tag), m, p).Reached?
    ensures var o := Steps(View(s.dir, s.env, m.tag), ReplyEvents(s.dir, m, room, p), p);
            o.Reached? && Tracks(s.dir, AbsorbReply(s.dir, m, room, p).dir, m.tag, o.sys)
  {
    var v := View(s.dir, s.env, m.tag);
    ReplySteps(s, m, room, p);
    ReplyFields(s.dir, m, room, p);
    var v' := Steps(v, ReplyEvents(s.dir, m, room, p), p).sys;
    TrackBy(s.dir, AbsorbReply(s.dir, m, room, p).dir, m.tag, OnCoheReply(v.line, m, p).line,
            Requeued(s.dir, m, room, p), v');
  }

  // ---------- the other cases ----------

  lemma WritebackTracks(s: Sys, m: Req, p: Params)
    requires m in EnvOf(s.env, m.tag).wbs && AbsorbWriteback(s.dir, m, p).Done?
    requires StepWriteback(View(s.dir, s.env, m.tag), m, p).Reached?
    ensures var o := Steps(View(s.dir, s.env, m.tag), [TakeWriteback(m)], p);
            o.Reached? && Tracks(s.dir, AbsorbWriteback(s.dir, m, p).dir, m.tag, o.sys)
  {
    var v := View(s.dir, s.env, m.tag);
    OneStep(v, TakeWriteback(m), p);
    TrackBy(s.dir, AbsorbWriteback(s.dir, m, p).dir, m.tag, OnWriteback(v.line, m, p).line, None,
            StepWriteback(v, m, p).sys);
  }

  /** A coherence message leaves the directory for its cache. */
  lemma DispatchTracks(s: Sys, d': Dir, m: Req, p: Params)
    requires d'.lines == s.dir.lines && m.msgType == Cohe
    requires forall t: Tag :: Queued(s.dir, t) == Queued(d', t) + CoheBag(m, t)
    ensures var o := Steps(View(s.dir, s.env, m.tag), [Dispatch(m)], p);
            o.Reached? && Tracks(s.dir, d', m.tag, o.sys)
  {
    var v := View(s.dir, s.env, m.tag);
    assert v.queued == Queued(d', m.tag) + multiset{m};
    OneStep(v, Dispatch(m), p);
    assert v.queued - multiset{m} == Queued(d', m.tag);
  }

  /** An answer leaves, or the head of the queue goes to the back: no line
      notices. */
  lemma OutboundUnnoticed(s: Sys, d': Dir, tag: Tag, p: Params)
    requires d'.lines == s.dir.lines
    requires forall t: Tag :: Queued(s.dir, t) == Queued(d', t)
    ensures Steps(View(s.dir, s.env, tag), [], p) == Reached(View(s.dir, s.env, tag))
    ensures Tracks(s.dir, d', tag, View(s.dir, s.env, tag))
  {}

  lemma OutboundQueues(d: Dir, room: bool)
    requires d.outbound != [] && (IsAnswer(d.outbound[0]) || d.outbound[0].msgType == Cohe)
    ensures var d' := SendOutbound(d, room).dir;
            && d'.lines == d.lines
            && forall t: Tag :: Queued(d, t) == Queued(d', t) + (if room then CoheBag(d.outbound[0], t) else multiset{})
  {
    var m, rest := d.outbound[0], d.outbound[1..];
    forall t: Tag
      ensures OutCohes(d.outbound, t) == CoheBag(m, t) + OutCohes(rest, t)
      ensures OutCohes(rest + [m], t) == OutCohes(rest, t) + CoheBag(m, t)
    {
      OutHead(d.outbound, t);
      OutAppend(rest, m, t);
    }
  }

  lemma OutboundTracks(s: Sys, room: bool, p: Params)
    requires s.dir.outbound != [] && (IsAnswer(s.dir.outbound[0]) || s.dir.outbound[0].msgType == Cohe)
    ensures var tag := s.dir.outbound[0].tag;
            var o := Steps(View(s.dir, s.env, tag), OutboundEvents(s.dir, room), p);
            o.Reached? && Tracks(s.dir, SendOutbound(s.dir, room).dir, tag, o.sys)
  {
    var m := s.dir.outbound[0];
    OutboundQueues(s.dir, room);
    if room && m.msgType == Cohe {
      DispatchTracks(s, SendOutbound(s.dir, room).dir, m, p);
    } else {
      OutboundUnnoticed(s, SendOutbound(s.dir, room).dir, m.tag, p);
    }
  }

  lemma SendForwardTracks(s: Sys, id: Id, p: Params)
    requires s.dir.partial.Some? && s.dir.partial.value.msgType == Cohe
    ensures var q := s.dir.partial.value;
            var o := Steps(View(s.dir, s.env, q.tag), [Dispatch(q)], p);
            o.Reached? && Tracks(s.dir, SendPartial(s.dir, true, id, p).dir, q.tag, o.sys)
  {
    DispatchTracks(s, SendPartial(s.dir, true, id, p).dir, s.dir.partial.value, p);
  }

  lemma SendInvlTracks(s: Sys, id: Id, p: Params)
    requires s.dir.partial.Some? && s.dir.partial.value.msgType == Request
    requires var q := s.dir.partial.value;
             var v := View(s.dir, s.env, q.tag);
             Enabled(v, SendInvl(id), p) && v.line.extra.value.pendReq == q && StepSendInvl(v, id, p).Reached?
    ensures var q := s.dir.partial.value;
            var o := Steps(View(s.dir, s.env, q.tag), [SendInvl(id)], p);
            && o.Reached? && SendPartial(s.dir, true, id, p).Done?
            && Tracks(s.dir, SendPartial(s.dir, true, id, p).dir, q.tag, o.sys)
  {
    var q := s.dir.partial.value;
    var v := View(s.dir, s.env, q.tag);
    OneStep(v, SendInvl(id), p);
  }
}
