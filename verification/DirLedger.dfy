/** The directory's account of transactions: every buffer it has charged is
    held by exactly one request, wherever that request currently sits. */
module DirLedger {
  import opened Common
  import opened DirTypes
  import opened LineSpec
  import opened LineShape
  import opened LineProtocol
  import opened DirMachine

  // ---------- weighing the requests in hand ----------

  /** A weight per transaction.  Weighing every transaction 1 counts the
      requests in hand; weighing one transaction 1 and the others 0 counts how
      often it is in hand. */
  type Weight = Id -> nat

  function Each(): Weight { _ => 1 }

  function Only(id: Id): Weight { i => if i == id then 1 else 0 }

  function OptSum(o: Option<Id>, w: Weight): nat {
    match o
    case None => 0
    case Some(i) => w(i)
  }

  function Sum(s: seq<Req>, w: Weight): nat {
    if s == [] then 0 else Sum(s[..|s| - 1], w) + w(s[|s| - 1].id)
  }

  function AnswerOf(m: Req): Option<Id> {
    if IsAnswer(m) then Some(m.id) else None
  }

  /** Answers and retry demands waiting for a port; queued coherence messages
      belong to the transaction of their line. */
  function AnswerSum(s: seq<Req>, w: Weight): nat {
    if s == [] then 0 else AnswerSum(s[..|s| - 1], w) + OptSum(AnswerOf(s[|s| - 1]), w)
  }

  function PendOf(line: Line): Option<Id> {
    if line.extra.Some? then Some(line.extra.value.pendReq.id) else None
  }

  /** The requests of the lines in `ts` with a transaction outstanding. */
  ghost function OpenSum(lines: map<Tag, Line>, ts: set<Tag>, w: Weight): nat
    decreases |ts|
  {
    if ts == {} then 0
    else var t :| t in ts; OptSum(PendOf(LineOf(lines, t)), w) + OpenSum(lines, ts - {t}, w)
  }

  /** Every request the directory currently answers for: parked, ready, held by
      a line, or waiting for a port with its answer. */
  ghost function Held(d: Dir, w: Weight): nat {
    Sum(d.pending, w) + Sum(d.ready, w) + OpenSum(d.lines, d.lines.Keys, w) + AnswerSum(d.outbound, w)
  }

  // ---------- the line table ----------

  lemma {:induction false} OpenPick(lines: map<Tag, Line>, ts: set<Tag>, t: Tag, w: Weight)
    requires t in ts
    ensures OpenSum(lines, ts, w) == OptSum(PendOf(LineOf(lines, t)), w) + OpenSum(lines, ts - {t}, w)
    decreases |ts|
  {
    var u :| u in ts && OpenSum(lines, ts, w) == OptSum(PendOf(LineOf(lines, u)), w) + OpenSum(lines, ts - {u}, w);
    if u == t {
    } else {
      OpenPick(lines, ts - {u}, t, w);
      OpenPick(lines, ts - {t}, u, w);
      assert ts - {u} - {t} == ts - {t} - {u};
    }
  }

  lemma {:induction false} OpenFrame(lines: map<Tag, Line>, lines': map<Tag, Line>, ts: set<Tag>, w: Weight)
    requires forall t :: t in ts ==> LineOf(lines, t) == LineOf(lines', t)
    ensures OpenSum(lines, ts, w) == OpenSum(lines', ts, w)
    decreases |ts|
  {
    if ts == {} {
    } else {
      var t :| t in ts;
      OpenPick(lines, ts, t, w);
      OpenPick(lines', ts, t, w);
      OpenFrame(lines, lines', ts - {t}, w);
    }
  }

  /** Replacing one line replaces its contribution. */
  lemma OpenUpdate(lines: map<Tag, Line>, t: Tag, line: Line, w: Weight)
    ensures OpenSum(lines[t := line], lines[t := line].Keys, w) + OptSum(PendOf(LineOf(lines, t)), w)
            == OpenSum(lines, lines.Keys, w) + OptSum(PendOf(line), w)
  {
    var lines' := lines[t := line];
    var rest := lines.Keys - {t};
    assert lines'.Keys - {t} == rest;
    OpenPick(lines', lines'.Keys, t, w);
    OpenFrame(lines, lines', rest, w);
    if t in lines {
      OpenPick(lines, lines.Keys, t, w);
    } else {
      assert rest == lines.Keys;
    }
  }

  // ---------- the queues ----------

  lemma SumAppend(s: seq<Req>, r: Req, w: Weight)
    ensures Sum(s + [r], w) == Sum(s, w) + w(r.id)
  {
    assert (s + [r])[..|s|] == s;
  }

  lemma {:induction false} SumSplit(s: seq<Req>, tag: Tag, w: Weight)
    ensures Sum(OfTag(s, tag), w) + Sum(NotOfTag(s, tag), w) == Sum(s, w)
  {
    if s == [] {
    } else {
      var front, last := s[..|s| - 1], s[|s| - 1];
      SumSplit(front, tag, w);
      if last.tag == tag {
        SumAppend(OfTag(front, tag), last, w);
        assert NotOfTag(s, tag) == NotOfTag(front, tag);
      } else {
        SumAppend(NotOfTag(front, tag), last, w);
        assert OfTag(s, tag) == OfTag(front, tag);
      }
    }
  }

  lemma {:induction false} SumConcat(s: seq<Req>, u: seq<Req>, w: Weight)
    ensures Sum(s + u, w) == Sum(s, w) + Sum(u, w)
  {
    if u == [] {
      assert s + u == s;
    } else {
      var front, last := u[..|u| - 1], u[|u| - 1];
      SumConcat(s, front, w);
      assert s + u == (s + front) + [last];
      SumAppend(s + front, last, w);
    }
  }

  lemma SumHead(s: seq<Req>, w: Weight)
    requires s != []
    ensures Sum(s, w) == w(s[0].id) + Sum(s[1..], w)
  {
    assert s == [s[0]] + s[1..];
    SumConcat([s[0]], s[1..], w);
    SumAppend([], s[0], w);
    assert [] + [s[0]] == [s[0]];
  }

  lemma AnswerAppend(s: seq<Req>, m: Req, w: Weight)
    ensures AnswerSum(s + [m], w) == AnswerSum(s, w) + OptSum(AnswerOf(m), w)
  {
    assert (s + [m])[..|s|] == s;
  }

  lemma {:induction false} AnswerHead(s: seq<Req>, w: Weight)
    requires s != []
    ensures AnswerSum(s, w) == OptSum(AnswerOf(s[0]), w) + AnswerSum(s[1..], w)
  {
    var front, last := s[..|s| - 1], s[|s| - 1];
    if front == [] {
      assert s[1..] == [];
    } else {
      AnswerHead(front, w);
      assert s[1..] == front[1..] + [last];
      AnswerAppend(front[1..], last, w);
    }
  }

  lemma ReleaseHolds(d: Dir, tag: Tag, w: Weight)
    ensures Held(Release(d, tag), w) == Held(d, w)
  {
    SumSplit(d.pending, tag, w);
    SumConcat(d.ready, OfTag(d.pending, tag), w);
  }

  // ---------- one line's part of the account ----------

  /** The request a line has put aside: still the same transaction on the same
      line. */
  ghost predicate PutAside(line: Line, req: Req) {
    && line.pend && line.extra.Some?
    && line.extra.value.pendReq.id == req.id && line.extra.value.pendReq.tag == req.tag
    && line.extra.value.pendReq.preprocessed == req.preprocessed
    && (line.extra.value.waiting ==> line.extra.value.pendReq.msgType == req.msgType)
  }

  ghost predicate Accounted(line: Line, req: Req, r: ReqStep) {
    match r.eff
    case ReqFailed(_) => true
    case AnswerNow(a) =>
      a.id == req.id && IsAnswer(a) && line.extra.None? && r.line.extra.None? && !line.pend && !r.line.pend
    case IntoBuffer => r.line == line && line.pend
    case HeldForWriteback => line.extra.None? && !line.pend && PutAside(r.line, req) && !Rounding(r.line)
    case StartInvalidating(q) =>
      line.extra.None? && !line.pend && PutAside(r.line, req)
      && q == r.line.extra.value.pendReq && q.msgType == req.msgType
      && Rounding(r.line) && r.line.extra.value.numLeft > 0
    case StartForward(m) =>
      line.extra.None? && !line.pend && PutAside(r.line, req) && m == r.line.extra.value.pendReq && m.msgType == Cohe
      && !Rounding(r.line)
  }

  lemma ReadAccounts(line: Line, req: Req, p: Params)
    requires line.extra.None? && !line.pend
    ensures Accounted(line, req, CarryOut(CoheReadSh(line, req, p), p))
  {}

  lemma OwnAccounts(line: Line, req: Req, p: Params)
    requires line.extra.None? && !line.pend
    ensures Accounted(line, req, CarryOut(CoheReadOwn(line, req, p), p))
  {
    if line.state == DirShared { RoundAccounts(line, req, ReplyExcl, RetSpecialReply, p); }
  }

  lemma RoundAccounts(line: Line, req: Req, answer: ReqType, ret: RetSt, p: Params)
    requires line.extra.None? && !line.pend
    ensures Accounted(line, req, CarryOut(InvalidateOthers(line, req, answer, ret, p), p))
  {
    assert req.src in line.sharers ==> |line.sharers| >= 1;
  }

  /** What a line holds before and after a request. */
  lemma RequestAccounts(line: Line, req: Req, p: Params)
    requires line.pend <==> line.extra.Some?
    requires !IsWriteback(req)
    ensures Accounted(line, req, OnRequest(line, req, p))
  {
    if !line.pend {
      match req.reqType
      case ReadSh => ReadAccounts(line, req, p);
      case ReadOwn => OwnAccounts(line, req, p);
      case Upgrade =>
        if line.state == DirShared && line.sharers != {} && req.src in line.sharers {
          RoundAccounts(line, req, ReplyUpgrade, RetDirReply, p);
        } else {
          OwnAccounts(line, req.(reqType := ReadOwn), p);
        }
      case _ =>
    }
  }

  /** A coherence reply: the transaction goes on, ends, or is handed back. */
  lemma ReplyAccounts(line: Line, m: Req, p: Params)
    requires line.extra.Some?
    ensures var r := OnCoheReply(line, m, p);
            match r.eff
            case ReplyFailed(_) => true
            case Collected => PendOf(r.line) == PendOf(line)
            case Resend(c) => PendOf(r.line) == PendOf(line) && c.msgType == Cohe
            case TransferAcked => PendOf(r.line) == None
            case Finish(a) => PendOf(line) == Some(a.id) && PendOf(r.line) == None && IsAnswer(a)
            case Retry(a) => PendOf(line) == Some(a.id) && PendOf(r.line) == None && IsAnswer(a)
            case Requeue(q) => q.id == m.id && PendOf(r.line) == None
  {}

  lemma WritebackAccounts(line: Line, m: Req, p: Params)
    requires Shape(line, p) && IsWriteback(m)
    ensures var r := OnWriteback(line, m, p);
            match r.eff
            case WbFailed(_) => true
            case Woke(q) => PendOf(line) == Some(q.id) && PendOf(r.line) == None
            case Noted => PendOf(r.line) == PendOf(line)
            case Cleared => PendOf(line) == None && PendOf(r.line) == None
  {}

  // ---------- one step's part of the account ----------

  /** Every request in hand before the step, or taken in by it as `incoming`, is
      after it in hand, or leaves with its answer among the messages sent, or is
      the one whose transfer `acked` acknowledges; and a buffer is charged or
      freed accordingly. */
  ghost predicate Balanced(d: Dir, o: DirStep, incoming: Option<Id>, acked: Option<Id>, w: Weight)
    requires o.Done?
  {
    && Held(o.dir, w) + AnswerSum(o.sent, w) + OptSum(acked, w) == Held(d, w) + OptSum(incoming, w)
    && o.dir.bufTot + AnswerSum(o.sent, Each()) + OptSum(acked, Each()) == d.bufTot + OptSum(incoming, Each())
    && o.dir.bufMax == d.bufMax
  }

  lemma OneAnswer(m: Req, w: Weight)
    ensures AnswerSum([m], w) == OptSum(AnswerOf(m), w)
  {
    assert [m][..0] == [];
  }

  /** The transaction an acknowledged transfer ends. */
  function AckOf(d: Dir, m: Req, p: Params): Option<Id> {
    if OnCoheReply(LineOf(d.lines, m.tag), m, p).eff.TransferAcked? then PendOf(LineOf(d.lines, m.tag)) else None
  }

  lemma ServedBalances(d: Dir, req: Req, wasPending: bool, room: bool, st: ReqStep, w: Weight)
    requires Accounted(LineOf(d.lines, req.tag), req, st)
    requires wasPending ==> d.ready != [] && d.ready[0] == req
    ensures var o := Served(d, req, wasPending, room, st);
            o.Done? ==> Balanced(d, o, if wasPending || o.kept.Some? then None else Some(req.id), None, w)
  {
    hide Sum, OpenSum, Rounding, IsAnswer;
    OpenUpdate(d.lines, req.tag, st.line, w);
    if wasPending { SumHead(d.ready, w); }
    SumAppend(d.pending, req, w);
    if st.eff.AnswerNow? { ServedAnswer(d, st.eff.answer, wasPending, w); }
  }

  /** An answer sent at once, or a ready request that takes its answer's type. */
  lemma ServedAnswer(d: Dir, a: Req, wasPending: bool, w: Weight)
    requires wasPending ==> d.ready != [] && d.ready[0].id == a.id
    ensures AnswerSum([a], w) == OptSum(AnswerOf(a), w) && AnswerSum([a], Each()) == OptSum(AnswerOf(a), Each())
    ensures wasPending ==> Sum(d.ready[0 := a.(msgType := Request)], w) == Sum(d.ready, w)
  {
    OneAnswer(a, w);
    OneAnswer(a, Each());
    if wasPending {
      var q := a.(msgType := Request);
      SumHead(d.ready, w);
      SumHead(d.ready[0 := q], w);
      assert d.ready[0 := q][1..] == d.ready[1..];
    }
  }

  lemma SendPartialBalances(d: Dir, room: bool, id: Id, p: Params, w: Weight)
    requires d.partial.Some?
    ensures var o := SendPartial(d, room, id, p);
            o.Done? ==> Balanced(d, o, None, None, w)
  {
    var q := d.partial.value;
    var s := OnSendInvl(LineOf(d.lines, q.tag), q, p, id);
    if q.msgType == Cohe {
      OneAnswer(q, w);
      OneAnswer(q, Each());
    } else if s.Sends? {
      OneAnswer(s.cohe, w);
      OneAnswer(s.cohe, Each());
      OpenUpdate(d.lines, q.tag, s.line, w);
    }
  }

  lemma DeliverBalances(d: Dir, answer: Req, room: bool, w: Weight)
    requires IsAnswer(answer)
    ensures Deliver(d, answer, room).Done?
    ensures var o := Deliver(d, answer, room);
            && Held(o.dir, w) + AnswerSum(o.sent, w) == Held(d, w) + w(answer.id)
            && o.dir.bufTot + AnswerSum(o.sent, Each()) == d.bufTot
            && o.dir.bufMax == d.bufMax
  {
    OneAnswer(answer, w);
    OneAnswer(answer, Each());
    AnswerAppend(d.outbound, answer, w);
  }

  lemma AbsorbReplyBalances(d: Dir, m: Req, room: bool, p: Params, w: Weight)
    requires LineOf(d.lines, m.tag).extra.Some?
    requires OnCoheReply(LineOf(d.lines, m.tag), m, p).eff.Requeue? ==>
               m.id == LineOf(d.lines, m.tag).extra.value.pendReq.id
    ensures var o := AbsorbReply(d, m, room, p);
            o.Done? ==> Balanced(d, o, None, AckOf(d, m, p), w)
  {
    hide Sum, OpenSum;
    var line := LineOf(d.lines, m.tag);
    var st := OnCoheReply(line, m, p);
    ReplyAccounts(line, m, p);
    OpenUpdate(d.lines, m.tag, st.line, w);
    var d' := d.(lines := d.lines[m.tag := st.line]);
    match st.eff
    case Retry(a) => ReleaseHolds(d', m.tag, w); DeliverBalances(Release(d', m.tag), a, room, w);
    case Finish(a) => ReleaseHolds(d', m.tag, w); DeliverBalances(Release(d', m.tag), a, room, w);
    case Requeue(q) =>
      SumAppend(d.ready, q, w);
      ReleaseHolds(d'.(ready := d.ready + [q]), m.tag, w);
    case Resend(c) =>
      OneAnswer(c, w);
      OneAnswer(c, Each());
      AnswerAppend(d.outbound, c, w);
    case TransferAcked => ReleaseHolds(d', m.tag, w);
    case _ =>
  }

  lemma AbsorbWritebackBalances(d: Dir, m: Req, p: Params, w: Weight)
    requires Shape(LineOf(d.lines, m.tag), p) && IsWriteback(m)
    ensures var o := AbsorbWriteback(d, m, p);
            o.Done? ==> Balanced(d, o, None, None, w)
  {
    hide Sum, OpenSum;
    var line := LineOf(d.lines, m.tag);
    var st := OnWriteback(line, m, p);
    WritebackAccounts(line, m, p);
    OpenUpdate(d.lines, m.tag, st.line, w);
    var d' := d.(lines := d.lines[m.tag := st.line]);
    match st.eff
    case Woke(q) =>
      SumAppend(d.ready, q, w);
      ReleaseHolds(d'.(ready := d.ready + [q]), m.tag, w);
    case Cleared => ReleaseHolds(d', m.tag, w);
    case _ =>
  }

  lemma SendOutboundBalances(d: Dir, room: bool, w: Weight)
    requires d.outbound != []
    ensures var o := SendOutbound(d, room);
            o.Done? && Balanced(d, o, None, None, w)
  {
    OneAnswer(d.outbound[0], w);
    OneAnswer(d.outbound[0], Each());
    AnswerHead(d.outbound, w);
    AnswerAppend(d.outbound[1..], d.outbound[0], w);
  }
}
