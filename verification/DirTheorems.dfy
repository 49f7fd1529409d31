/** What the whole directory guarantees, in every run. */
module DirTheorems {
  import opened Common
  import opened DirTypes
  import opened LineSpec
  import opened LineShape
  import opened LineProtocol
  import opened LineSafety
  import opened LineTheorems
  import opened DirMachine
  import opened DirLedger
  import opened DirSystem
  import opened DirSafety
  import opened DirTags
  import opened DirQueues
  import opened DirOutputs
  import opened DirRuns

  // ---------- when a run halts ----------

  /** Event i of the run is one that can happen where it stands. */
  ghost predicate HappensAt(events: seq<SysEvent>, i: nat, bufMax: nat, p: Params) {
    && i < |events| && SysRun(events[..i], bufMax, p).Running?
    && SysEnabled(SysRun(events[..i], bufMax, p).sys, events[i], p)
  }

  /** In event i an answer that could be given at once finds its port full. */
  ghost predicate RoomlessAt(events: seq<SysEvent>, i: nat, bufMax: nat, p: Params) {
    HappensAt(events, i, bufMax, p) && Roomless(SysRun(events[..i], bufMax, p).sys, events[i], p)
  }

  /** Event i serves a request under the type of its answer to a line at
      rest. */
  ghost predicate UnservedAt(events: seq<SysEvent>, i: nat, bufMax: nat, p: Params) {
    HappensAt(events, i, bufMax, p) && Unserved(SysRun(events[..i], bufMax, p).sys, events[i])
  }

  predicate Spoilt(o: SysOutcome) {
    match o
    case Running(s) => s.spoilt
    case Halted(_, spoilt) => spoilt
  }

  /** A run halts if and only if it serves a request under the type of its
      answer to a line at rest. `spoilt` says exactly whether an answer given
      at once has found its port full; a run in which none has never halts. */
  lemma {:induction false} HaltsExactly(events: seq<SysEvent>, bufMax: nat, p: Params)
    ensures SysRun(events, bufMax, p).Halted? <==> exists i: nat :: UnservedAt(events, i, bufMax, p)
    ensures Spoilt(SysRun(events, bufMax, p)) <==> exists i: nat :: RoomlessAt(events, i, bufMax, p)
    ensures SysRun(events, bufMax, p).Halted? ==>
              SysRun(events, bufMax, p).error == UnknownRequestType && exists i: nat :: RoomlessAt(events, i, bufMax, p)
  {
    hide SysInv, SysEnabled, Roomless, Unserved, SysStep;
    SysRunKeepsInv(events, bufMax, p);
    if events == [] {
    } else {
      var n := |events| - 1;
      HaltsExactly(events[..n], bufMax, p);
      SysRunKeepsInv(events[..n], bufMax, p);
      EarlierEvents(events, bufMax, p);
      var o := SysRun(events[..n], bufMax, p);
      if HappensAt(events, n, bufMax, p) { SysStepKeepsInv(o.sys, events[n], p); }
      assert RoomlessAt(events, n, bufMax, p) <==>
               o.Running? && SysEnabled(o.sys, events[n], p) && Roomless(o.sys, events[n], p);
      assert UnservedAt(events, n, bufMax, p) <==>
               o.Running? && SysEnabled(o.sys, events[n], p) && Unserved(o.sys, events[n]);
    }
  }

  /** An event of the run is the last one or an event of the run before it. */
  lemma EarlierEvents(events: seq<SysEvent>, bufMax: nat, p: Params)
    requires events != []
    ensures var n := |events| - 1;
            && ((exists i: nat :: RoomlessAt(events, i, bufMax, p))
                <==> (exists i: nat :: RoomlessAt(events[..n], i, bufMax, p)) || RoomlessAt(events, n, bufMax, p))
            && ((exists i: nat :: UnservedAt(events, i, bufMax, p))
                <==> (exists i: nat :: UnservedAt(events[..n], i, bufMax, p)) || UnservedAt(events, n, bufMax, p))
  {
    hide SysRun, SysEnabled, Roomless, Unserved;
    var n := |events| - 1;
    forall i: nat
      ensures RoomlessAt(events, i, bufMax, p) <==>
              RoomlessAt(events[..n], i, bufMax, p) || (i == n && RoomlessAt(events, n, bufMax, p))
      ensures UnservedAt(events, i, bufMax, p) <==>
              UnservedAt(events[..n], i, bufMax, p) || (i == n && UnservedAt(events, n, bufMax, p))
    {
      if i < n { assert events[..n][..i] == events[..i]; }
    }
  }

  // ---------- coherence ----------

  /** In every run, for as long as it goes on, there is on every line at most
      one writer, no reader beside it, and, at rest, no holder outside the
      sharer vector. */
  lemma {:induction false} DirectoryCoherence(events: seq<SysEvent>, bufMax: nat, p: Params, tag: Tag)
    requires SysRun(events, bufMax, p).Running?
    ensures var s := SysRun(events, bufMax, p).sys;
            SingleWriter(View(s.dir, s.env, tag)) && HoldersListed(View(s.dir, s.env, tag))
                && Shape(LineOf(s.dir.lines, tag), p)
  {
    SysRunKeepsInv(events, bufMax, p);
    var s := SysRun(events, bufMax, p).sys;
    assert LineInv(s, tag, p);
    InvIsCoherent(View(s.dir, s.env, tag), p);
  }

  // ---------- what is sent is what is received ----------

  /** In every run the coherence messages the directory has put on its ports
      for a line are exactly those the caches still have to answer and those
      they have answered; and the answers it has put on its ports or queued
      are exactly those by which its lines have made a node a holder. */
  lemma {:induction false} NothingSentIsLost(events: seq<SysEvent>, bufMax: nat, p: Params, tag: Tag)
    requires SysRun(events, bufMax, p).Running?
    ensures var s := SysRun(events, bufMax, p).sys;
            && OutCohes(s.trace.sent, tag) == EnvOf(s.env, tag).cohes + multiset(OfTag(s.trace.taken, tag))
            && Grants(s.trace.sent) + Grants(s.dir.outbound) == multiset(s.trace.granted)
  {
    SysRunKeepsInv(events, bufMax, p);
  }

  // ---------- the buffer account ----------

  /** The lines with a transaction outstanding. */
  function Busy(lines: map<Tag, Line>): set<Tag> {
    BusyIn(lines, lines.Keys)
  }

  function BusyIn(lines: map<Tag, Line>, ts: set<Tag>): set<Tag> {
    set t | t in ts && LineOf(lines, t).extra.Some?
  }

  function CountAnswers(out: seq<Req>): nat {
    if out == [] then 0 else CountAnswers(out[..|out| - 1]) + (if IsAnswer(out[|out| - 1]) then 1 else 0)
  }

  lemma {:induction false} SumCounts(s: seq<Req>)
    ensures Sum(s, Each()) == |s|
  {
    if s == [] {
    } else {
      SumCounts(s[..|s| - 1]);
    }
  }

  lemma {:induction false} AnswersCount(s: seq<Req>)
    ensures AnswerSum(s, Each()) == CountAnswers(s)
  {
    if s == [] {
    } else {
      AnswersCount(s[..|s| - 1]);
    }
  }

  lemma {:induction false} OpenCounts(lines: map<Tag, Line>, ts: set<Tag>)
    ensures OpenSum(lines, ts, Each()) == |BusyIn(lines, ts)|
    decreases |ts|
  {
    if ts == {} {
      assert BusyIn(lines, ts) == {};
    } else {
      var t :| t in ts;
      OpenPick(lines, ts, t, Each());
      OpenCounts(lines, ts - {t});
      var fewer := BusyIn(lines, ts - {t});
      assert BusyIn(lines, ts) == if LineOf(lines, t).extra.Some? then fewer + {t} else fewer;
    }
  }

  /** The lines an outbound coherence message is for. */
  function CoheTags(out: seq<Req>): set<Tag> {
    set i | 0 <= i < |out| && out[i].msgType == Cohe :: out[i].tag
  }

  lemma OutCard(front: seq<Req>, last: Req, t: Tag)
    ensures |OutCohes(front + [last], t)| == |OutCohes(front, t)|
            + (if last.msgType == Cohe && last.tag == t then 1 else 0)
  {
    OutAppend(front, last, t);
  }

  lemma {:induction false} OutboundCount(out: seq<Req>)
    requires forall i :: 0 <= i < |out| ==> IsAnswer(out[i]) || out[i].msgType == Cohe
    requires forall t: Tag :: |OutCohes(out, t)| <= 1
    ensures |out| == CountAnswers(out) + |CoheTags(out)|
  {
    if out == [] {
      assert CoheTags(out) == {};
    } else {
      var front, last := out[..|out| - 1], out[|out| - 1];
      assert out == front + [last];
      forall t: Tag ensures |OutCohes(front, t)| <= 1 {
        OutCard(front, last, t);
      }
      OutboundCount(front);
      TagsAppend(front, last);
      OutCard(front, last, last.tag);
      if last.tag in CoheTags(front) { CoheListed(front, last.tag); }
    }
  }

  lemma TagsAppend(front: seq<Req>, last: Req)
    ensures CoheTags(front + [last]) == CoheTags(front) + (if last.msgType == Cohe then {last.tag} else {})
  {
    var out := front + [last];
    forall t | t in CoheTags(front) ensures t in CoheTags(out) {
      var i :| 0 <= i < |front| && front[i].msgType == Cohe && front[i].tag == t;
      assert out[i] == front[i];
    }
    assert out[|front|] == last;
  }

  lemma {:induction false} CoheListed(out: seq<Req>, tag: Tag)
    requires tag in CoheTags(out)
    ensures |OutCohes(out, tag)| > 0
  {
    var front, last := out[..|out| - 1], out[|out| - 1];
    if last.msgType == Cohe && last.tag == tag {
      assert last in OutCohes(out, tag);
    } else {
      TagsAppend(front, last);
      assert out == front + [last];
      CoheListed(front, tag);
      var m :| m in OutCohes(front, tag);
      assert m in OutCohes(out, tag);
    }
  }

  /** The buffer account is exactly the requests parked, made ready, held by
      a line, or queued with their answer; it never exceeds its size, and the
      outbound queue never needs more entries than there are buffers. */
  lemma {:induction false} BufferConservation(events: seq<SysEvent>, bufMax: nat, p: Params)
    requires SysRun(events, bufMax, p).Running?
    ensures var d := SysRun(events, bufMax, p).sys.dir;
            && d.bufTot == |d.pending| + |d.ready| + |Busy(d.lines)| + CountAnswers(d.outbound)
            && d.bufTot <= bufMax
            && |d.outbound| <= bufMax
  {
    SysRunKeepsInv(events, bufMax, p);
    var s := SysRun(events, bufMax, p).sys;
    AccountIs(s.dir);
    OutboundFits(s, p);
  }

  lemma AccountIs(d: Dir)
    ensures Held(d, Each()) == |d.pending| + |d.ready| + |Busy(d.lines)| + CountAnswers(d.outbound)
  {
    SumCounts(d.pending);
    SumCounts(d.ready);
    AnswersCount(d.outbound);
    OpenCounts(d.lines, d.lines.Keys);
  }

  lemma OutboundFits(s: Sys, p: Params)
    requires SysInv(s, p)
    ensures |s.dir.outbound| <= s.dir.bufTot
  {
    var d := s.dir;
    AccountIs(d);
    forall t: Tag ensures |OutCohes(d.outbound, t)| <= 1 && (|OutCohes(d.outbound, t)| > 0 ==> t in Busy(d.lines)) {
      assert LineInv(s, t, p);
      QueuedIsForward(View(d, s.env, t), p);
    }
    OutboundCount(d.outbound);
    forall t | t in CoheTags(d.outbound) ensures t in Busy(d.lines) { CoheListed(d.outbound, t); }
    SubsetSize(CoheTags(d.outbound), Busy(d.lines));
  }

  lemma QueuedIsForward(v: LineSys, p: Params)
    requires Inv(v, p)
    ensures |v.queued| <= 1 && (|v.queued| > 0 ==> v.line.extra.Some?)
  {}

  // ---------- no request lost, duplicated or stranded ----------

  lemma {:induction false} IssuedOnce(n: nat, k: nat)
    ensures Issued(n, Only(Txn(k))) == if k < n then 1 else 0
  {
    if n == 0 {
    } else {
      IssuedOnce(n - 1, k);
    }
  }

  /** Every request committed so far is, counted over all places together,
      exactly once in hand, or answered by a message put on a port, or ended by
      the acknowledgment of its transfer; no other request is in hand or
      answered at all. */
  lemma {:induction false} EveryRequestOnce(events: seq<SysEvent>, bufMax: nat, p: Params, k: nat)
    requires SysRun(events, bufMax, p).Running?
    ensures var s, w := SysRun(events, bufMax, p).sys, Only(Txn(k));
            Held(s.dir, w) + AnswerSum(s.trace.sent, w) + Completed(s.trace.acked, w) == if k < s.issued then 1 else 0
  {
    SysRunKeepsInv(events, bufMax, p);
    IssuedOnce(SysRun(events, bufMax, p).sys.issued, k);
  }

  /** A parked request is parked behind a line with a transaction outstanding,
      a request whose invalidations are still going out is the one its line
      has on record, and no other line has invalidations still to send. */
  lemma {:induction false} NoneStranded(events: seq<SysEvent>, bufMax: nat, p: Params)
    requires SysRun(events, bufMax, p).Running?
    ensures var d := SysRun(events, bufMax, p).sys.dir;
            && (forall r :: r in d.pending ==> LineOf(d.lines, r.tag).pend && LineOf(d.lines, r.tag).extra.Some?)
            && (d.partial.Some? && d.partial.value.msgType != Cohe ==>
                  LineOf(d.lines, d.partial.value.tag).extra.Some?
                  && LineOf(d.lines, d.partial.value.tag).extra.value.pendReq == d.partial.value
                  && LineOf(d.lines, d.partial.value.tag).extra.value.numLeft > 0)
            && forall t: Tag :: Unfinished(LineOf(d.lines, t)) ==> d.partial.Some? && d.partial.value.tag == t
  {
    SysRunKeepsInv(events, bufMax, p);
    var s := SysRun(events, bufMax, p).sys;
    forall r | r in s.dir.pending ensures LineOf(s.dir.lines, r.tag).pend && LineOf(s.dir.lines, r.tag).extra.Some? {
      assert Parked(s.dir, r, s.spoilt, p) && LineInv(s, r.tag, p);
    }
  }

  /** Coherence replies and write-backs are absorbed whatever the state of the
      output ports. */
  lemma {:induction false} RepliesAlwaysAbsorbed(events: seq<SysEvent>, bufMax: nat, p: Params, m: Req, room: bool)
    requires SysRun(events, bufMax, p).Running?
    ensures var s := SysRun(events, bufMax, p).sys;
            && (m in EnvOf(s.env, m.tag).replies ==> AbsorbReply(s.dir, m, room, p).Done?)
            && (m in EnvOf(s.env, m.tag).wbs ==> AbsorbWriteback(s.dir, m, p).Done?)
  {
    SysRunKeepsInv(events, bufMax, p);
    var s := SysRun(events, bufMax, p).sys;
    assert LineInv(s, m.tag, p);
    if m in EnvOf(s.env, m.tag).replies { ReplyAbsorbed(s, m, room, p); }
    if m in EnvOf(s.env, m.tag).wbs { WritebackSound(s, m, p); }
  }

  // ---------- no deadlock ----------

  /** The event can happen, and either changes the directory or what is in
      flight, or halts a directory in which an answer has found no room. */
  ghost predicate Moves(s: Sys, ev: SysEvent, p: Params) {
    SysEnabled(s, ev, p) &&
    match SysStep(s, ev, p)
    case Running(s') => s'.dir != s.dir || s'.env != s.env
    case Halted(_, spoilt) => spoilt
  }

  lemma StepMoves(s: Sys, ev: SysEvent, p: Params)
    requires SysInv(s, p) && SysEnabled(s, ev, p) && !Serves(ev)
    requires DirPart(s, ev, p).Done? && DirPart(s, ev, p).dir != s.dir
    ensures Moves(s, ev, p)
  {
    hide SysInv, SysEnabled, DirPart;
    OtherStepKeeps(s, ev, p);
  }

  lemma PartialMoves(s: Sys, p: Params)
    requires SysInv(s, p) && s.dir.partial.Some?
    ensures Moves(s, SendCohe(true, Allocated(0)), p)
  {
    hide Inv, Tagged, SendPartial, LedgerInv, TraceInv;
    var q := s.dir.partial.value;
    assert LineInv(s, q.tag, p);
    SendSound(s, true, Allocated(0), p);
    SendChanges(s.dir, Allocated(0), p);
    StepMoves(s, SendCohe(true, Allocated(0)), p);
  }

  lemma SendChanges(d: Dir, id: Id, p: Params)
    requires d.partial.Some? && SendPartial(d, true, id, p).Done?
    ensures SendPartial(d, true, id, p).dir != d
  {
    var d', q := SendPartial(d, true, id, p).dir, d.partial.value;
    if q.msgType != Cohe {
      assert LineOf(d'.lines, q.tag).extra.value.numLeft == LineOf(d.lines, q.tag).extra.value.numLeft - 1;
    }
  }

  lemma OutboundMoves(s: Sys, p: Params)
    requires SysInv(s, p) && s.dir.outbound != []
    ensures Moves(s, OutboundOut(true), p)
  {
    assert |SendOutbound(s.dir, true).dir.outbound| < |s.dir.outbound|;
    StepMoves(s, OutboundOut(true), p);
  }

  lemma ReadyMoves(s: Sys, p: Params)
    requires SysInv(s, p) && s.dir.partial.None? && s.dir.ready != []
    ensures Moves(s, Reprocess(true), p)
  {
    hide SysInv, Serve;
    SysStepKeepsInv(s, Reprocess(true), p);
    ReadyShortens(s, p);
  }

  lemma ReadyShortens(s: Sys, p: Params)
    requires SysInv(s, p) && s.dir.ready != []
    ensures var o := Serve(s.dir, s.dir.ready[0], true, true, p);
            o.Done? ==> o.dir != s.dir
  {
    hide OnRequest, Inv, Tagged, LineInv, RoundInv, LedgerInv, TraceInv;
    var o := Serve(s.dir, s.dir.ready[0], true, true, p);
    assert s.dir.ready[0] in s.dir.ready;
    assert s.dir.bufTot <= s.dir.bufMax by { AccountBounded(s, p); }
    assert o.Done? ==> |o.dir.ready| == |s.dir.ready| - 1;
  }

  lemma AccountBounded(s: Sys, p: Params)
    requires SysInv(s, p)
    ensures s.dir.bufTot <= s.dir.bufMax
  {}

  lemma BusyLineInFlight(v: LineSys, p: Params)
    requires Inv(v, p) && v.line.extra.Some? && v.queued == multiset{} && !Unfinished(v.line)
    ensures |v.replies| + |v.cohes| + |v.wbs| > 0 || (v.excl != {} && v.line.extra.value.waiting)
    ensures forall m :: m in v.cohes ==> m.reqType == Invl || IsForwardType(m.reqType)
  {
    var x := v.line.extra.value;
    if x.waiting {
      assert |v.wbs| == 0 ==> x.waitingFor.value in v.excl;
    } else if x.nackSt == NackNok && |v.cohes| == 1 {
      assert IsForwardType(x.pendReq.reqType);
      forall m | m in v.cohes ensures IsForwardType(m.reqType) {
        assert m.(reply := NoAck) == x.pendReq;
      }
    }
  }

  /** A step that changes what is in flight for its line changes the system. */
  lemma FlightChanges(s: Sys, tag: Tag, es: seq<Event>, o: DirStep, k: Marks, p: Params)
    requires Advance(s, tag, es, o, k, p).Running?
    ensures var v := View(s.dir, s.env, tag);
            Steps(v, es, p).Reached?
            && (EnvPart(Steps(v, es, p).sys) != EnvPart(v) ==> Advance(s, tag, es, o, k, p).sys.env != s.env)
  {
    hide Steps;
    var s' := Advance(s, tag, es, o, k, p).sys;
    assert EnvOf(s'.env, tag) == EnvPart(Steps(View(s.dir, s.env, tag), es, p).sys);
  }

  lemma CacheMoves(s: Sys, tag: Tag, e: Event, p: Params)
    requires SysInv(s, p) && SysEnabled(s, CacheMove(tag, e), p) && !e.Drop?
    ensures Moves(s, CacheMove(tag, e), p)
  {
    hide SysInv, Enabled, Step, Steps, Advance;
    var v := View(s.dir, s.env, tag);
    OtherStepKeeps(s, CacheMove(tag, e), p);
    CacheChanges(v, e, p);
    OneStep(v, e, p);
    FlightChanges(s, tag, [e], Unchanged(s.dir), MarksOf(s, CacheMove(tag, e), p), p);
  }

  lemma CacheChanges(v: LineSys, e: Event, p: Params)
    requires IsCacheEvent(e) && Enabled(v, e, p) && !e.Drop?
    ensures Step(v, e, p).Reached? && EnvPart(Step(v, e, p).sys) != EnvPart(v)
  {
    var v' := Step(v, e, p).sys;
    if e.Evict? { assert v'.wbs[e.wb] == v.wbs[e.wb] + 1; } else { assert v'.cohes[e.m] == v.cohes[e.m] - 1; }
  }

  lemma ReplyMoves(s: Sys, m: Req, p: Params)
    requires SysInv(s, p) && m in EnvOf(s.env, m.tag).replies
    ensures Moves(s, ReplyIn(m, false), p)
  {
    hide SysInv, AbsorbReply, StepReply, Steps, Advance;
    var v := View(s.dir, s.env, m.tag);
    OtherStepKeeps(s, ReplyIn(m, false), p);
    FlightChanges(s, m.tag, [TakeReply(m)], AbsorbReply(s.dir, m, false, p), MarksOf(s, ReplyIn(m, false), p), p);
    OneStep(v, TakeReply(m), p);
    RepliesShrink(v, m, p);
  }

  lemma RepliesShrink(v: LineSys, m: Req, p: Params)
    requires m in v.replies
    ensures StepReply(v, m, p).Reached? ==> StepReply(v, m, p).sys.replies[m] == v.replies[m] - 1
  {}

  lemma WritebackMoves(s: Sys, m: Req, p: Params)
    requires SysInv(s, p) && m in EnvOf(s.env, m.tag).wbs
    ensures Moves(s, WritebackIn(m), p)
  {
    hide SysInv, AbsorbWriteback, StepWriteback, Steps, Advance;
    var v := View(s.dir, s.env, m.tag);
    OtherStepKeeps(s, WritebackIn(m), p);
    FlightChanges(s, m.tag, [TakeWriteback(m)], AbsorbWriteback(s.dir, m, p), MarksOf(s, WritebackIn(m), p), p);
    OneStep(v, TakeWriteback(m), p);
    WritebacksShrink(v, m, p);
  }

  lemma WritebacksShrink(v: LineSys, m: Req, p: Params)
    requires m in v.wbs
    ensures StepWriteback(v, m, p).Reached? ==> StepWriteback(v, m, p).sys.wbs[m] == v.wbs[m] - 1
  {}

  lemma CohesMove(s: Sys, tag: Tag, m: Req, p: Params) returns (ev: SysEvent)
    requires SysInv(s, p) && m in EnvOf(s.env, tag).cohes && (m.reqType == Invl || IsForwardType(m.reqType))
    ensures Moves(s, ev, p)
  {
    hide SysInv, Moves;
    ev := CacheMove(tag, if m.reqType == Invl then AnswerInvl(m, Positive) else Postpone(m));
    CacheMoves(s, tag, ev.e, p);
  }

  lemma OwnerMoves(s: Sys, tag: Tag, a: Node, p: Params) returns (ev: SysEvent)
    requires SysInv(s, p) && a in EnvOf(s.env, tag).excl
    ensures Moves(s, ev, p)
  {
    hide SysInv, Moves;
    ev := CacheMove(tag, Evict(Req(Allocated(0), tag, Wrb, a, p.home, None, Request, NoAck, false)));
    CacheMoves(s, tag, ev.e, p);
  }

  /** A line with a transaction outstanding and nothing of it left at the
      directory has a message in flight, or an owner that can write back. */
  lemma BusyLineMoves(s: Sys, tag: Tag, p: Params) returns (ev: SysEvent)
    requires SysInv(s, p) && LineOf(s.dir.lines, tag).extra.Some?
    requires s.dir.partial.None? && s.dir.outbound == []
    ensures Moves(s, ev, p)
  {
    hide Inv, Moves, SysInv, LineInv;
    var v := View(s.dir, s.env, tag);
    LineHolds(s, tag, p);
    RoundsSent(s, tag, p);
    BusyLine(s, tag, p);
    if m :| m in v.replies {
      ReplyMoves(s, m, p);
      ev := ReplyIn(m, false);
    } else if m :| m in v.wbs {
      WritebackMoves(s, m, p);
      ev := WritebackIn(m);
    } else if m :| m in v.cohes {
      ev := CohesMove(s, tag, m, p);
    } else {
      var a :| a in v.excl;
      ev := OwnerMoves(s, tag, a, p);
    }
  }

  lemma LineHolds(s: Sys, tag: Tag, p: Params)
    requires SysInv(s, p)
    ensures LineInv(s, tag, p)
  {}

  lemma BusyLine(s: Sys, tag: Tag, p: Params)
    requires LineInv(s, tag, p) && LineOf(s.dir.lines, tag).extra.Some? && !Unfinished(LineOf(s.dir.lines, tag))
    requires s.dir.partial.None? && s.dir.outbound == []
    ensures var v := View(s.dir, s.env, tag);
            && (|v.replies| + |v.cohes| + |v.wbs| > 0 || v.excl != {})
            && (forall m :: m in v.replies || m in v.wbs ==> m.tag == tag)
            && (forall m :: m in v.cohes ==> m.reqType == Invl || IsForwardType(m.reqType))
  {
    hide Inv;
    BusyLineInFlight(View(s.dir, s.env, tag), p);
  }

  lemma RoundsSent(s: Sys, tag: Tag, p: Params)
    requires SysInv(s, p) && s.dir.partial.None?
    ensures !Unfinished(LineOf(s.dir.lines, tag))
  {
    NoRounds(s.dir);
  }

  /** While the directory holds any request, parked, ready, on a line or with
      its answer queued, some event can happen that changes something. */
  lemma {:induction false} NeverStuck(s: Sys, p: Params) returns (ev: SysEvent)
    requires SysInv(s, p) && Held(s.dir, Each()) > 0
    ensures Moves(s, ev, p)
  {
    AccountIs(s.dir);
    if s.dir.partial.Some? {
      PartialMoves(s, p);
      ev := SendCohe(true, Allocated(0));
    } else if s.dir.outbound != [] {
      OutboundMoves(s, p);
      ev := OutboundOut(true);
    } else if s.dir.ready != [] {
      ReadyMoves(s, p);
      ev := Reprocess(true);
    } else if s.dir.pending != [] {
      var r := s.dir.pending[0];
      assert Parked(s.dir, r, s.spoilt, p) && LineInv(s, r.tag, p);
      ev := BusyLineMoves(s, r.tag, p);
    } else {
      var t :| t in Busy(s.dir.lines);
      ev := BusyLineMoves(s, t, p);
    }
  }

  // ---------- requests turned away ----------

  /** A request that has been handled before bounces back as it is, answered;
      one for which there is no buffer is told to retry. Without room for that
      nothing happens; the lines are not consulted. */
  lemma TurnedAway(d: Dir, req: Req, wasPending: bool, room: bool, p: Params)
    requires req.preprocessed || Full(d, wasPending)
    ensures var o := Serve(d, req, wasPending, room, p);
            if req.preprocessed && wasPending then o == DirFatal(PreprocessedWasPending)
            else if !room then o == Unchanged(d)
            else
              && o.Done? && o.kept.None?
              && o.dir == d.(ready := if wasPending && d.ready != [] then d.ready[1..] else d.ready)
              && o.sent == [req.(reply := if req.preprocessed then Positive else Rar, msgType := Reply)]
  {}

  /** In every state of a run a new request is told to retry for want of a buffer
      exactly when as many requests are in hand as there are buffers, and a
      request made ready never is. */
  lemma {:induction false} BuffersDecide(events: seq<SysEvent>, bufMax: nat, p: Params)
    requires SysRun(events, bufMax, p).Running?
    ensures var d := SysRun(events, bufMax, p).sys.dir;
            && (Full(d, false) <==> |d.pending| + |d.ready| + |Busy(d.lines)| + CountAnswers(d.outbound) == bufMax)
            && !Full(d, true)
  {
    BufferConservation(events, bufMax, p);
    SysRunKeepsInv(events, bufMax, p);
  }

  /** Parking is fatal exactly when it would overfill the buffers. */
  lemma ParkingNeverOverfills(d: Dir, req: Req, wasPending: bool, room: bool, r: ReqStep)
    requires r.eff.IntoBuffer?
    ensures var o := Served(d, req, wasPending, room, r);
            var bufTot := d.bufTot + (if wasPending then 0 else 1);
            if bufTot > d.bufMax then o == DirFatal(BufferFull)
            else o.Done? && o.dir.bufTot == bufTot && o.dir.pending == d.pending + [req]
  {}

  // ---------- an immediate answer and a full reply port ----------

  /** A request that can be answered at once, new or served again, is answered
      if and only if the reply port has room: otherwise nothing leaves, and the
      request stays at the head of its queue under the type of its answer. */
  lemma AnsweredIffRoom(d: Dir, req: Req, wasPending: bool, room: bool, p: Params)
    requires IsRequest(req, p) && !Full(d, wasPending) && OnRequest(LineOf(d.lines, req.tag), req, p).eff.AnswerNow?
    requires wasPending ==> d.ready != [] && d.ready[0] == req
    ensures var o, a := Serve(d, req, wasPending, room, p), OnRequest(LineOf(d.lines, req.tag), req, p).eff.answer;
            && o.Done? && a.id == req.id && IsAnswer(a)
            && o.sent == (if room then [a] else [])
            && o.kept == (if room then None else Some(a.(msgType := Request)))
            && (!room ==> Spoiled(o.kept.value, p) && (wasPending ==> o.dir.ready == [o.kept.value] + d.ready[1..]))
  {
    hide OnRequest;
    AnswerAtOnce(LineOf(d.lines, req.tag), req, p);
  }

  /** From then on it can only be parked again: served in any directory with a
      buffer for it, whatever has happened since, it halts the directory if and
      only if its line is at rest, and no answer leaves. */
  lemma NeverAnsweredLater(d: Dir, q: Req, wasPending: bool, room: bool, p: Params)
    requires Spoiled(q, p) && !Full(d, wasPending)
    ensures var o := Serve(d, q, wasPending, room, p);
            if LineOf(d.lines, q.tag).pend then o.Done? && o.sent == [] && o.dir.pending == d.pending + [q]
            else o == DirFatal(UnknownRequestType)
  {
    hide OnRequest;
    UnknownIsParked(LineOf(d.lines, q.tag), q, p);
  }
}
