/** From every reachable state in which no answer has found its port full, the
    directory can complete every request it has taken in. */
module DirProgress {
  import opened Common
  import opened DirTypes
  import opened LineSpec
  import opened LineShape
  import opened LineProtocol
  import opened LineSafety
  import opened LineTheorems
  import opened DirMachine
  import opened DirLedger
  import opened DirSystem
  import opened DirSafety
  import opened DirTags
  import opened DirQueues
  import opened DirOutputs
  import opened DirRuns
  import opened DirTheorems
  import DirScan

  // ---------- what is left to do on one line ----------

  /** A node that holds the line exclusively can write it back, and a
      write-back can be taken. */
  function Tokens(v: LineSys): nat {
    2 * |v.excl| + |v.wbs|
  }

  /** A forward whose owner's write-back has been seen will start over. */
  function Doomed(v: LineSys): nat {
    if Forwarded(v.line) && v.line.extra.value.wasHere.Some? then 1 else 0
  }

  ghost predicate IsPostponed(v: LineSys) {
    exists m :: m in v.replies && m.reply == NackPend
  }

  ghost function Postponed(v: LineSys): nat {
    if IsPostponed(v) then 1 else 0
  }

  function Traffic(v: LineSys): nat {
    2 * |v.cohes| + |v.replies|
  }

  // ---------- sums over all lines ----------

  ghost function TagSum(g: Tag -> nat, ts: set<Tag>): nat
    decreases |ts|
  {
    if ts == {} then 0 else var t :| t in ts; g(t) + TagSum(g, ts - {t})
  }

  lemma {:induction false} TagPick(g: Tag -> nat, ts: set<Tag>, t: Tag)
    requires t in ts
    ensures TagSum(g, ts) == g(t) + TagSum(g, ts - {t})
    decreases |ts|
  {
    var u :| u in ts && TagSum(g, ts) == g(u) + TagSum(g, ts - {u});
    if u != t {
      TagPick(g, ts - {u}, t);
      TagPick(g, ts - {t}, u);
      assert ts - {u} - {t} == ts - {t} - {u};
    }
  }

  lemma {:induction false} TagFrame(g: Tag -> nat, h: Tag -> nat, ts: set<Tag>)
    requires forall t :: t in ts ==> g(t) == h(t)
    ensures TagSum(g, ts) == TagSum(h, ts)
    decreases |ts|
  {
    if ts == {} {
    } else {
      var t :| t in ts;
      TagPick(g, ts, t);
      TagPick(h, ts, t);
      TagFrame(g, h, ts - {t});
    }
  }

  lemma {:induction false} TagExtend(g: Tag -> nat, ts: set<Tag>, more: set<Tag>)
    requires forall t :: t in more && t !in ts ==> g(t) == 0
    ensures TagSum(g, ts + more) == TagSum(g, ts)
    decreases |more|
  {
    if more == {} {
      assert ts + more == ts;
    } else {
      var t :| t in more;
      TagExtend(g, ts, more - {t});
      if t in ts {
        assert ts + more == ts + (more - {t});
      } else {
        TagPick(g, ts + more, t);
        assert ts + more - {t} == ts + (more - {t});
      }
    }
  }

  /** A measure of a line that is 0 when nothing has ever happened to it. */
  ghost predicate Calm(f: LineSys -> nat) {
    forall v: LineSys :: v.line == FRESH_LINE && EnvPart(v) == NOTHING ==> f(v) == 0
  }

  function Touched(s: Sys): set<Tag> {
    s.env.Keys + s.dir.lines.Keys
  }

  ghost function OnLine(s: Sys, f: LineSys -> nat): Tag -> nat {
    t => f(View(s.dir, s.env, t))
  }

  ghost function Total(s: Sys, f: LineSys -> nat): nat {
    TagSum(OnLine(s, f), Touched(s))
  }

  lemma TotalOver(s: Sys, f: LineSys -> nat, ts: set<Tag>)
    requires Calm(f) && Touched(s) <= ts
    ensures Total(s, f) == TagSum(OnLine(s, f), ts)
  {
    forall t | t in ts && t !in Touched(s) ensures OnLine(s, f)(t) == 0 {
      assert View(s.dir, s.env, t).line == FRESH_LINE && EnvPart(View(s.dir, s.env, t)) == NOTHING;
    }
    TagExtend(OnLine(s, f), Touched(s), ts);
    assert Touched(s) + ts == ts;
  }

  /** A step on one line changes the total by what it changes there. */
  lemma TotalMoves(s: Sys, s': Sys, tag: Tag, f: LineSys -> nat)
    requires Calm(f) && forall t: Tag :: t != tag ==> View(s'.dir, s'.env, t) == View(s.dir, s.env, t)
    ensures Total(s', f) + f(View(s.dir, s.env, tag)) == Total(s, f) + f(View(s'.dir, s'.env, tag))
  {
    var ts := Touched(s) + Touched(s') + {tag};
    var g, h := OnLine(s, f), OnLine(s', f);
    TotalOver(s, f, ts);
    TotalOver(s', f, ts);
    TagPick(g, ts, tag);
    TagPick(h, ts, tag);
    TagFrame(g, h, ts - {tag});
  }

  // ---------- what is left to do altogether ----------

  /** In order of importance: requests in hand; write-backs still possible;
      forwards that will start over; requests on no line; requests to be served
      again; postponed forwards; messages still to travel. */
  datatype Left = Left(held: nat, tokens: nat, doomed: nat, waiting: nat, ready: nat, postponed: nat, traffic: nat)

  predicate Less(a: Left, b: Left) {
    a.held < b.held || (a.held == b.held &&
      (a.tokens < b.tokens || (a.tokens == b.tokens &&
        (a.doomed < b.doomed || (a.doomed == b.doomed &&
          (a.waiting < b.waiting || (a.waiting == b.waiting &&
            (a.ready < b.ready || (a.ready == b.ready &&
              (a.postponed < b.postponed || (a.postponed == b.postponed && a.traffic < b.traffic)))))))))))
  }

  function AtDirectory(d: Dir): nat {
    3 * DirScan.Unsent(d) + 3 * |d.outbound|
  }

  function InHand(d: Dir): nat {
    if d.bufTot < 0 then 0 else d.bufTot
  }

  /** What is left, as one line sees it. */
  ghost function LeftOn(d: Dir, v: LineSys): Left {
    Left(InHand(d), Tokens(v), Doomed(v), |d.pending| + |d.ready|, |d.ready|, Postponed(v), Traffic(v) + AtDirectory(d))
  }

  ghost function LeftOf(s: Sys): Left {
    Left(InHand(s.dir), Total(s, Tokens), Total(s, Doomed), |s.dir.pending| + |s.dir.ready|, |s.dir.ready|,
         Total(s, Postponed), Total(s, Traffic) + AtDirectory(s.dir))
  }

  lemma CalmMeasures()
    ensures Calm(Tokens) && Calm(Doomed) && Calm(Postponed) && Calm(Traffic)
  {}

  /** Less to do on the line of a step is less to do altogether. */
  lemma LessAltogether(s: Sys, s': Sys, tag: Tag)
    requires forall t: Tag :: t != tag ==> View(s'.dir, s'.env, t) == View(s.dir, s.env, t)
    requires Less(LeftOn(s'.dir, View(s'.dir, s'.env, tag)), LeftOn(s.dir, View(s.dir, s.env, tag)))
    ensures Less(LeftOf(s'), LeftOf(s))
  {
    hide View, Tokens, Doomed, Postponed, Traffic, Total, Calm;
    CalmMeasures();
    TotalMoves(s, s', tag, Tokens);
    TotalMoves(s, s', tag, Doomed);
    TotalMoves(s, s', tag, Postponed);
    TotalMoves(s, s', tag, Traffic);
  }

  // ---------- each kind of step leaves less to do ----------

  /** The step happens, leaves less to do on its line, and spoils nothing. */
  ghost predicate Advances(s: Sys, ev: SysEvent, p: Params) {
    && SysEnabled(s, ev, p) && SysStep(s, ev, p).Running?
    && var s' := SysStep(s, ev, p).sys;
       Less(LeftOf(s'), LeftOf(s)) && !s'.spoilt && SysInv(s', p) && s'.issued == s.issued
  }

  /** The step goes on, and what it does to its line and to the directory. */
  lemma GoesOn(s: Sys, ev: SysEvent, p: Params)
    requires SysInv(s, p) && !s.spoilt && SysEnabled(s, ev, p) && !ev.NewRequest? && !Roomless(s, ev, p)
    ensures SysStep(s, ev, p).Running? && DirPart(s, ev, p).Done?
    ensures var s', tag := SysStep(s, ev, p).sys, TagOf(s, ev, p);
            && Steps(View(s.dir, s.env, tag), LineEvents(s, ev, p), p) == Reached(View(s'.dir, s'.env, tag))
            && s'.dir == DirPart(s, ev, p).dir
            && (Less(LeftOn(s'.dir, View(s'.dir, s'.env, tag)), LeftOn(s.dir, View(s.dir, s.env, tag))) ==>
                Advances(s, ev, p))
  {
    hide SysInv, SysEnabled, LeftOn, LeftOf, Less, Roomless, View, Steps;
    SysStepKeepsInv(s, ev, p);
    NotSpoilt(s, ev, p);
    StepProjects(s, ev, p);
    var s', tag := SysStep(s, ev, p).sys, TagOf(s, ev, p);
    if Less(LeftOn(s'.dir, View(s'.dir, s'.env, tag)), LeftOn(s.dir, View(s.dir, s.env, tag))) {
      LessAltogether(s, s', tag);
    }
  }

  lemma NotSpoilt(s: Sys, ev: SysEvent, p: Params)
    requires SysInv(s, p) && !s.spoilt && SysEnabled(s, ev, p)
    ensures !Unserved(s, ev)
  {
    if Serves(ev) { EventServable(s, ev, p); }
  }

  // ---------- messages leave the directory ----------

  lemma SentIntoFlight(v: LineSys, m: Req, e: Event, p: Params)
    requires Enabled(v, e, p) && Step(v, e, p).Reached? && (e == Dispatch(m) || e.SendInvl?)
    ensures var v' := Step(v, e, p).sys;
            Tokens(v') == Tokens(v) && Doomed(v') == Doomed(v) && Postponed(v') == Postponed(v) && Traffic(v') ==
                Traffic(v) + 2
  {}

  lemma PartialLeaves(d: Dir, id: Id, p: Params)
    requires d.partial.Some? && SendPartial(d, true, id, p).Done?
    ensures var d' := SendPartial(d, true, id, p).dir;
            && InHand(d') == InHand(d) && d'.pending == d.pending && d'.ready == d.ready
            && AtDirectory(d') <= AtDirectory(d) - 3
  {
    DirScan.SendProgress(d, true, id, p);
  }

  lemma PartialAdvances(s: Sys, p: Params)
    requires SysInv(s, p) && !s.spoilt && s.dir.partial.Some?
    ensures Advances(s, SendCohe(true, Allocated(0)), p)
  {
    hide SysInv, SendPartial, Tokens, Doomed, Postponed, Traffic, AtDirectory, InHand, Advances, Enabled, Step;
    var ev := SendCohe(true, Allocated(0));
    GoesOn(s, ev, p);
    PartialLeaves(s.dir, Allocated(0), p);
    var v, q := View(s.dir, s.env, s.dir.partial.value.tag), s.dir.partial.value;
    var e := if q.msgType == Cohe then Dispatch(q) else SendInvl(Allocated(0));
    OneStep(v, e, p);
    SentIntoFlight(v, q, e, p);
  }

  lemma HeadLeavesQueue(d: Dir)
    requires d.outbound != [] && (IsAnswer(d.outbound[0]) ==> d.bufTot > 0)
    ensures var d', m := SendOutbound(d, true).dir, d.outbound[0];
            && d'.pending == d.pending && d'.ready == d.ready && AtDirectory(d') == AtDirectory(d) - 3
            && if IsAnswer(m) then InHand(d') < InHand(d) else InHand(d') == InHand(d)
  {}

  lemma OutboundAdvances(s: Sys, p: Params)
    requires SysInv(s, p) && !s.spoilt && s.dir.outbound != [] && s.dir.bufTot > 0
    ensures Advances(s, OutboundOut(true), p)
  {
    hide SysInv, SendOutbound, Tokens, Doomed, Postponed, Traffic, AtDirectory, InHand, Advances, Enabled, Step;
    GoesOn(s, OutboundOut(true), p);
    HeadLeavesQueue(s.dir);
    var m := s.dir.outbound[0];
    var v := View(s.dir, s.env, m.tag);
    if !IsAnswer(m) {
      AnswerOrCohe(s, p);
      OneStep(v, Dispatch(m), p);
      SentIntoFlight(v, m, Dispatch(m), p);
    }
  }

  lemma AnswerOrCohe(s: Sys, p: Params)
    requires SysInv(s, p) && s.dir.outbound != []
    ensures IsAnswer(s.dir.outbound[0]) || s.dir.outbound[0].msgType == Cohe
  {
    OutboundHeads(s, p);
  }

  // ---------- replies ----------

  /** How a reply, taken with room for what it sends, leaves less to do on the
      line and at the directory, unless it completes the request. */
  ghost predicate ReplyHelps(v: LineSys, m: Req, r: ReplyStep, v': LineSys) {
    match r.eff
    case Requeue(_) => Tokens(v') == Tokens(v) && Doomed(v') < Doomed(v)
    case Resend(_) =>
      r.line == v.line && Tokens(v') == Tokens(v) && Doomed(v') == Doomed(v) && Postponed(v') < Postponed(v)
    case Collected =>
      && Tokens(v') == Tokens(v) && Doomed(v') == Doomed(v)
      && Postponed(v') <= Postponed(v) && Traffic(v') == Traffic(v) - 1
      && v.line.extra.Some? && r.line.extra.Some? && r.line.extra.value.numLeft == v.line.extra.value.numLeft
    case _ => true
  }

  lemma ReplyMeans(line: Line, m: Req, p: Params)
    requires line.extra.Some? ==> !line.extra.value.waiting
    ensures var r := OnCoheReply(line, m, p);
            match r.eff
            case Requeue(_) => Forwarded(line) && line.extra.value.wasHere.Some? && r.line.extra.None?
            case Resend(_) =>
              r.line == line && m.reply == NackPend && line.extra.Some? && line.extra.value.nackSt == NackNok
            case Collected =>
              && line.extra.Some?
              && var x := line.extra.value; r.line == line.(extra := Some(x.(counter := x.counter - 1)))
            case _ => true
  {}

  /** The reply is gone; nobody's copy changes unless the request is answered. */
  lemma ReplyGone(v: LineSys, m: Req, p: Params)
    requires m in v.replies && StepReply(v, m, p).Reached? && !OnCoheReply(v.line, m, p).eff.Finish?
    ensures var r, v' := OnCoheReply(v.line, m, p), StepReply(v, m, p).sys;
            && v'.line == r.line && v'.excl == v.excl && v'.wbs == v.wbs && v'.cohes == v.cohes
            && v'.replies == v.replies - multiset{m}
  {}

  lemma RepliesMeetNoWait(v: LineSys, m: Req, p: Params)
    requires Inv(v, p) && m in v.replies
    ensures v.line.extra.Some? && !v.line.extra.value.waiting
    ensures v.line.extra.value.nackSt == NackNok ==> |v.replies| == 1
  {}

  lemma TakenReplyHelps(v: LineSys, m: Req, p: Params)
    requires Inv(v, p) && m in v.replies && StepReply(v, m, p).Reached? && !OnCoheReply(v.line, m, p).eff.Resend?
    ensures ReplyHelps(v, m, OnCoheReply(v.line, m, p), StepReply(v, m, p).sys)
  {
    hide Inv, OnCoheReply, StepReply;
    RepliesMeetNoWait(v, m, p);
    ReplyMeans(v.line, m, p);
    var r, v' := OnCoheReply(v.line, m, p), StepReply(v, m, p).sys;
    if r.eff.Requeue? || r.eff.Collected? {
      ReplyGone(v, m, p);
      assert IsPostponed(v') ==> IsPostponed(v);
    }
  }

  lemma ResentReplyHelps(v: LineSys, m: Req, p: Params)
    requires Inv(v, p) && m in v.replies && StepReply(v, m, p).Reached? && OnCoheReply(v.line, m, p).eff.Resend?
    ensures var r := OnCoheReply(v.line, m, p);
            var o := Steps(v, [TakeReply(m), Dispatch(r.eff.cohe)], p);
            o.Reached? ==> ReplyHelps(v, m, r, o.sys)
  {
    hide Inv, OnCoheReply, StepReply;
    var r, v1 := OnCoheReply(v.line, m, p), StepReply(v, m, p).sys;
    RepliesMeetNoWait(v, m, p);
    ReplyMeans(v.line, m, p);
    ReplyGone(v, m, p);
    TwoSteps(v, TakeReply(m), Dispatch(r.eff.cohe), p);
    OneStep(v1, Dispatch(r.eff.cohe), p);
    assert m in v.replies && m.reply == NackPend;
    assert |v.replies - multiset{m}| == 0;
    assert v.replies - multiset{m} == multiset{};
  }

  /** What the same reply does at the directory. */
  lemma ReplyAtDirectory(d: Dir, m: Req, p: Params)
    requires AbsorbReply(d, m, true, p).Done? && d.bufTot > 0
    requires LineOf(d.lines, m.tag).extra.Some? && !LineOf(d.lines, m.tag).extra.value.waiting
    ensures var r, d' := OnCoheReply(LineOf(d.lines, m.tag), m, p), AbsorbReply(d, m, true, p).dir;
            match r.eff
            case Requeue(_) => InHand(d') == InHand(d)
            case Resend(_) => InHand(d') == InHand(d) && d'.pending == d.pending && d'.ready == d.ready
            case Collected =>
              InHand(d') == InHand(d) && d'.pending == d.pending && d'.ready == d.ready && AtDirectory(d') ==
                  AtDirectory(d)
            case _ => InHand(d') < InHand(d)
  {
    hide OnCoheReply;
    ReplyMeans(LineOf(d.lines, m.tag), m, p);
  }

  lemma ReplyAdvances(s: Sys, m: Req, p: Params)
    requires SysInv(s, p) && !s.spoilt && m in EnvOf(s.env, m.tag).replies && s.dir.bufTot > 0
    ensures Advances(s, ReplyIn(m, true), p)
  {
    hide SysInv, AbsorbReply, OnCoheReply, Tokens, Doomed, Postponed, Traffic, AtDirectory, InHand, Advances, Inv,
        StepReply;
    var v := View(s.dir, s.env, m.tag);
    GoesOn(s, ReplyIn(m, true), p);
    LineHolds(s, m.tag, p);
    RepliesMeetNoWait(v, m, p);
    ReplyAtDirectory(s.dir, m, p);
    ReplyReaches(s, m, p);
    var r := OnCoheReply(v.line, m, p);
    if r.eff.Resend? {
      ResentReplyHelps(v, m, p);
    } else {
      TakenReplyHelps(v, m, p);
      OneStep(v, TakeReply(m), p);
    }
  }

  lemma ReplyReaches(s: Sys, m: Req, p: Params)
    requires LineInv(s, m.tag, p) && m in EnvOf(s.env, m.tag).replies
    ensures StepReply(View(s.dir, s.env, m.tag), m, p).Reached?
  {
    ReplyAbsorbed(s, m, true, p);
  }

  // ---------- the caches ----------

  lemma WritebackTaken(v: LineSys, m: Req, p: Params)
    requires m in v.wbs && StepWriteback(v, m, p).Reached?
    ensures Tokens(StepWriteback(v, m, p).sys) < Tokens(v)
  {
    assert |v.wbs - multiset{m}| == |v.wbs| - 1;
  }

  lemma WritebackKeepsAccount(d: Dir, m: Req, p: Params)
    ensures var o := AbsorbWriteback(d, m, p);
            o.Done? ==> InHand(o.dir) == InHand(d)
  {
    hide OnWriteback;
  }

  lemma WritebackAdvances(s: Sys, m: Req, p: Params)
    requires SysInv(s, p) && !s.spoilt && m in EnvOf(s.env, m.tag).wbs
    ensures Advances(s, WritebackIn(m), p)
  {
    hide SysInv, SysStep, AbsorbWriteback, Steps, Tokens, Doomed, Postponed, Traffic, AtDirectory, InHand, Advances,
         StepWriteback;
    var v := View(s.dir, s.env, m.tag);
    GoesOn(s, WritebackIn(m), p);
    OneStep(v, TakeWriteback(m), p);
    WritebackTaken(v, m, p);
    WritebackKeepsAccount(s.dir, m, p);
  }

  /** The answer a cache gives when it wants to be done. */
  function FinalAnswer(v: LineSys, m: Req): Event {
    if m.reqType == Invl then AnswerInvl(m, Positive)
    else if m.dest in v.excl then Transfer(m, Allocated(0))
    else Refuse(m)
  }

  lemma AnswerEnabled(v: LineSys, m: Req, p: Params)
    requires Inv(v, p) && m in v.cohes
    ensures Enabled(v, FinalAnswer(v, m), p)
  {
    assert v.line.extra.Some?;
    var x := v.line.extra.value;
    if x.nackSt == NackNok {
      OneMessage(v, x, p);
      assert m.(reply := NoAck) == x.pendReq;
    }
  }

  /** What any such answer does to the line. */
  lemma AnswerEffect(v: LineSys, m: Req, p: Params) returns (r: Req)
    requires Enabled(v, FinalAnswer(v, m), p) && m in v.cohes
    ensures var o := Step(v, FinalAnswer(v, m), p);
            && o.Reached? && o.sys.line == v.line && o.sys.wbs == v.wbs && r.reply != NackPend
            && o.sys.cohes == v.cohes - multiset{m} && o.sys.replies == v.replies + multiset{r}
            && (o.sys.excl == v.excl || o.sys.excl == v.excl - {m.dest}
                || (m.dest in v.excl && exists b: Node :: o.sys.excl == v.excl - {m.dest} + {b}))
  {
    match FinalAnswer(v, m)
    case AnswerInvl(_, ack) => r := ReplyTo(m, ack);
    case Transfer(_, id) => r := ReplyTo(m, Positive).(id := id);
    case _ => r := ReplyTo(m, Nack);
  }

  lemma AnswerHelps(v: LineSys, m: Req, p: Params)
    requires Enabled(v, FinalAnswer(v, m), p) && m in v.cohes
    ensures var o := Step(v, FinalAnswer(v, m), p);
            && o.Reached? && Tokens(o.sys) <= Tokens(v) && Doomed(o.sys) == Doomed(v)
            && Postponed(o.sys) == Postponed(v) && Traffic(o.sys) == Traffic(v) - 1
  {
    hide Enabled, Step, FinalAnswer;
    var r := AnswerEffect(v, m, p);
    var v' := Step(v, FinalAnswer(v, m), p).sys;
    assert |v'.cohes| == |v.cohes| - 1 && |v'.replies| == |v.replies| + 1;
    FewerHolders(v, v', m);
    assert IsPostponed(v) ==> IsPostponed(v') by {
      if r :| r in v.replies && r.reply == NackPend { assert r in v'.replies; }
    }
  }

  lemma FewerHolders(v: LineSys, v': LineSys, m: Req)
    requires v'.wbs == v.wbs
    requires v'.excl == v.excl || v'.excl == v.excl - {m.dest}
             || (m.dest in v.excl && exists b: Node :: v'.excl == v.excl - {m.dest} + {b})
    ensures Tokens(v') <= Tokens(v)
  {
    if v'.excl <= v.excl {
      SubsetSize(v'.excl, v.excl);
    } else {
      var b: Node :| v'.excl == v.excl - {m.dest} + {b};
      assert |v.excl - {m.dest}| == |v.excl| - 1;
      assert |v'.excl| <= |v.excl|;
    }
  }

  lemma AnswerAdvances(s: Sys, tag: Tag, m: Req, p: Params)
    requires SysInv(s, p) && !s.spoilt && m in EnvOf(s.env, tag).cohes
    ensures Advances(s, CacheMove(tag, FinalAnswer(View(s.dir, s.env, tag), m)), p)
  {
    hide SysInv, Tokens, Doomed, Postponed, Traffic, AtDirectory, InHand, Advances, Inv, Tagged, Enabled, Step;
    var v := View(s.dir, s.env, tag);
    var e := FinalAnswer(v, m);
    LineHolds(s, tag, p);
    AnswerEnabled(v, m, p);
    GoesOn(s, CacheMove(tag, e), p);
    OneStep(v, e, p);
    AnswerHelps(v, m, p);
  }

  lemma EvictHelps(v: LineSys, wb: Req, p: Params)
    requires Enabled(v, Evict(wb), p)
    ensures Step(v, Evict(wb), p).Reached? && Tokens(Step(v, Evict(wb), p).sys) < Tokens(v)
  {
    assert |v.excl - {wb.src}| == |v.excl| - 1;
  }

  function WritebackOf(a: Node, tag: Tag, p: Params): Req {
    Req(Allocated(0), tag, Wrb, a, p.home, None, Request, NoAck, false)
  }

  lemma EvictEnabled(s: Sys, tag: Tag, a: Node, p: Params)
    requires a in EnvOf(s.env, tag).excl
    ensures var e := Evict(WritebackOf(a, tag, p));
            && Enabled(View(s.dir, s.env, tag), e, p) && SysEnabled(s, CacheMove(tag, e), p)
            && !Roomless(s, CacheMove(tag, e), p)
  {}

  lemma EvictAdvances(s: Sys, tag: Tag, a: Node, p: Params)
    requires SysInv(s, p) && !s.spoilt && a in EnvOf(s.env, tag).excl
    ensures Advances(s, CacheMove(tag, Evict(WritebackOf(a, tag, p))), p)
  {
    hide SysInv, SysStep, Steps, Tokens, Doomed, Postponed, Traffic, AtDirectory, InHand, Advances, Step;
    var v := View(s.dir, s.env, tag);
    var e := Evict(WritebackOf(a, tag, p));
    EvictEnabled(s, tag, a, p);
    hide SysEnabled, Enabled, Roomless;
    GoesOn(s, CacheMove(tag, e), p);
    OneStep(v, e, p);
    EvictHelps(v, e.wb, p);
  }

  // ---------- a request served again ----------

  /** A record that a request gets has seen no write-back. */
  predicate SeenNothing(line: Line) {
    line.extra.Some? ==> line.extra.value.wasHere.None?
  }

  lemma NewReadRecord(line: Line, req: Req, p: Params)
    requires line.extra.None?
    ensures SeenNothing(CarryOut(CoheReadSh(line, req, p), p).line)
  {
    hide OthersBelow;
  }

  lemma NewOwnRecord(line: Line, req: Req, p: Params)
    requires line.extra.None?
    ensures SeenNothing(CarryOut(CoheReadOwn(line, req, p), p).line)
  {
    hide OthersBelow;
  }

  lemma NewRecord(line: Line, req: Req, p: Params)
    requires line.extra.None? && !line.pend && !IsWriteback(req)
    ensures SeenNothing(OnRequest(line, req, p).line)
  {
    hide OthersBelow, CoheReadSh, CoheReadOwn;
    match req.reqType
    case ReadSh => NewReadRecord(line, req, p);
    case ReadOwn => NewOwnRecord(line, req, p);
    case Upgrade => NewOwnRecord(line, req.(reqType := ReadOwn), p);
    case _ =>
  }

  /** Served with room, a ready request is answered, parked, or put aside by
      its line. */
  lemma ServedAtDirectory(d: Dir, req: Req, r: ReqStep)
    requires Served(d, req, true, true, r).Done? && d.ready != [] && d.bufTot > 0
    ensures var d' := Served(d, req, true, true, r).dir;
            match r.eff
            case AnswerNow(_) => InHand(d') < InHand(d)
            case IntoBuffer =>
              InHand(d') == InHand(d) && |d'.pending| == |d.pending| + 1 && |d'.ready| == |d.ready| - 1
            case _ => InHand(d') == InHand(d) && d'.pending == d.pending && |d'.ready| == |d.ready| - 1
  {}

  lemma AskedHelps(v: LineSys, req: Req, p: Params)
    requires Accounted(v.line, req, OnRequest(v.line, req, p)) && Asked(v, OnRequest(v.line, req, p)).Reached?
    requires !OnRequest(v.line, req, p).eff.AnswerNow? && !IsWriteback(req)
    ensures var v' := Asked(v, OnRequest(v.line, req, p)).sys;
            Tokens(v') == Tokens(v) && Doomed(v') == Doomed(v)
  {
    hide OnRequest;
    if v.line.extra.None? && !v.line.pend { NewRecord(v.line, req, p); }
  }

  lemma ReadyAdvances(s: Sys, p: Params)
    requires SysInv(s, p) && !s.spoilt && s.dir.partial.None? && s.dir.ready != [] && s.dir.bufTot > 0
    ensures Advances(s, Reprocess(true), p)
  {
    hide SysInv, OnRequest, Served, Asked, Tokens, Doomed, Postponed, Traffic, AtDirectory, InHand, Advances, Accounted;
    var req := s.dir.ready[0];
    var v := View(s.dir, s.env, req.tag);
    var r := OnRequest(v.line, req, p);
    GoesOn(s, Reprocess(true), p);
    ReadyIsRequest(s, p);
    LineHolds(s, req.tag, p);
    LineAccounts(s, req, p);
    OneAsk(v, req, p);
    ServedAtDirectory(s.dir, req, r);
    if !r.eff.AnswerNow? { AskedHelps(v, req, p); }
  }

  lemma ReadyIsRequest(s: Sys, p: Params)
    requires SysInv(s, p) && !s.spoilt && s.dir.ready != []
    ensures IsRequest(s.dir.ready[0], p) && !Full(s.dir, true)
  {
    assert s.dir.ready[0] in s.dir.ready;
  }

  // ---------- from any state to the end ----------

  /** With a request in hand some step leaves less to do. */
  lemma SomethingAdvances(s: Sys, p: Params) returns (ev: SysEvent)
    requires SysInv(s, p) && !s.spoilt && Held(s.dir, Each()) > 0
    ensures Advances(s, ev, p)
  {
    hide SysInv, Advances;
    AccountHolds(s, p);
    if s.dir.partial.Some? {
      PartialAdvances(s, p);
      ev := SendCohe(true, Allocated(0));
    } else if s.dir.outbound != [] {
      OutboundAdvances(s, p);
      ev := OutboundOut(true);
    } else if tag: Tag :| LineOf(s.dir.lines, tag).extra.Some? {
      ev := BusyLineAdvances(s, tag, p);
    } else {
      OnlyReady(s, p);
      ReadyAdvances(s, p);
      ev := Reprocess(true);
    }
  }

  lemma AccountHolds(s: Sys, p: Params)
    requires SysInv(s, p)
    ensures s.dir.bufTot == Held(s.dir, Each())
  {}

  /** With every line at rest and nothing outbound, what is in hand is ready. */
  lemma OnlyReady(s: Sys, p: Params)
    requires SysInv(s, p) && Held(s.dir, Each()) > 0 && s.dir.outbound == []
    requires forall tag: Tag :: LineOf(s.dir.lines, tag).extra.None?
    ensures s.dir.ready != []
  {
    AccountIs(s.dir);
    if s.dir.pending != [] { ParkedIsBusy(s, s.dir.pending[0], p); }
  }

  lemma ParkedIsBusy(s: Sys, r: Req, p: Params)
    requires SysInv(s, p) && r in s.dir.pending
    ensures LineOf(s.dir.lines, r.tag).extra.Some?
  {
    assert Parked(s.dir, r, s.spoilt, p) && LineInv(s, r.tag, p);
  }

  lemma BusyLineAdvances(s: Sys, tag: Tag, p: Params) returns (ev: SysEvent)
    requires SysInv(s, p) && !s.spoilt && LineOf(s.dir.lines, tag).extra.Some? && s.dir.bufTot > 0
    requires s.dir.partial.None? && s.dir.outbound == []
    ensures Advances(s, ev, p)
  {
    hide Inv, Advances, SysInv, LineInv;
    var v := View(s.dir, s.env, tag);
    LineHolds(s, tag, p);
    RoundsSent(s, tag, p);
    BusyLine(s, tag, p);
    if m :| m in v.replies {
      ReplyAdvances(s, m, p);
      ev := ReplyIn(m, true);
    } else if m :| m in v.wbs {
      WritebackAdvances(s, m, p);
      ev := WritebackIn(m);
    } else if m :| m in v.cohes {
      AnswerAdvances(s, tag, m, p);
      ev := CacheMove(tag, FinalAnswer(v, m));
    } else {
      var a :| a in v.excl;
      EvictAdvances(s, tag, a, p);
      ev := CacheMove(tag, Evict(WritebackOf(a, tag, p)));
    }
  }

  lemma {:induction false} NoAnswers(s: seq<Req>, w: Weight)
    requires CountAnswers(s) == 0
    ensures AnswerSum(s, w) == 0
  {
    if s == [] {
    } else {
      NoAnswers(s[..|s| - 1], w);
    }
  }

  lemma {:induction false} NoneOpen(lines: map<Tag, Line>, ts: set<Tag>, w: Weight)
    requires BusyIn(lines, ts) == {}
    ensures OpenSum(lines, ts, w) == 0
    decreases |ts|
  {
    if ts == {} {
    } else {
      var t :| t in ts;
      OpenPick(lines, ts, t, w);
      assert t !in BusyIn(lines, ts);
      assert BusyIn(lines, ts - {t}) <= BusyIn(lines, ts);
      NoneOpen(lines, ts - {t}, w);
    }
  }

  lemma NothingHeld(d: Dir, w: Weight)
    requires Held(d, Each()) == 0
    ensures Held(d, w) == 0
  {
    AccountIs(d);
    NoAnswers(d.outbound, w);
    NoneOpen(d.lines, d.lines.Keys, w);
  }

  /** Every request taken in has been answered by a message put on a port, or
      ended by the acknowledgment of its transfer, exactly once. */
  ghost predicate AllAnswered(s: Sys) {
    Held(s.dir, Each()) == 0
    && forall k: nat :: k < s.issued ==>
         AnswerSum(s.trace.sent, Only(Txn(k))) + Completed(s.trace.acked, Only(Txn(k))) == 1
  }

  lemma NothingLeft(s: Sys, p: Params)
    requires SysInv(s, p) && Held(s.dir, Each()) == 0
    ensures AllAnswered(s)
  {
    forall k: nat | k < s.issued
      ensures AnswerSum(s.trace.sent, Only(Txn(k))) + Completed(s.trace.acked, Only(Txn(k))) == 1
    {
      NothingHeld(s.dir, Only(Txn(k)));
      IssuedOnce(s.issued, k);
    }
  }

  ghost function LeftAfter(events: seq<SysEvent>, bufMax: nat, p: Params): Left {
    match SysRun(events, bufMax, p)
    case Running(s) => LeftOf(s)
    case Halted(_, _) => Left(0, 0, 0, 0, 0, 0, 0)
  }

  lemma RunOneMore(events: seq<SysEvent>, ev: SysEvent, bufMax: nat, p: Params)
    requires SysRun(events, bufMax, p).Running? && SysEnabled(SysRun(events, bufMax, p).sys, ev, p)
    ensures SysRun(events + [ev], bufMax, p) == SysStep(SysRun(events, bufMax, p).sys, ev, p)
  {
    assert (events + [ev])[..|events|] == events;
  }

  /** Every run in which no answer has found its port full can go on, with no
      new request, to a state in which every request has been answered. */
  lemma {:induction false} CanFinish(events: seq<SysEvent>, bufMax: nat, p: Params) returns (more: seq<SysEvent>)
    requires SysRun(events, bufMax, p).Running? && !SysRun(events, bufMax, p).sys.spoilt
    ensures SysRun(events + more, bufMax, p).Running? && AllAnswered(SysRun(events + more, bufMax, p).sys)
    ensures SysRun(events + more, bufMax, p).sys.issued == SysRun(events, bufMax, p).sys.issued
    decreases LeftAfter(events, bufMax, p).held, LeftAfter(events, bufMax, p).tokens,
              LeftAfter(events, bufMax, p).doomed, LeftAfter(events, bufMax, p).waiting,
              LeftAfter(events, bufMax, p).ready, LeftAfter(events, bufMax, p).postponed,
              LeftAfter(events, bufMax, p).traffic
  {
    hide SysInv, SysRun, AllAnswered, LeftOf;
    SysRunKeepsInv(events, bufMax, p);
    var s := SysRun(events, bufMax, p).sys;
    if Held(s.dir, Each()) == 0 {
      NothingLeft(s, p);
      more := [];
      assert events + more == events;
    } else {
      var ev := SomethingAdvances(s, p);
      RunOneMore(events, ev, bufMax, p);
      var rest := CanFinish(events + [ev], bufMax, p);
      more := [ev] + rest;
      assert events + more == events + [ev] + rest;
    }
  }
}
