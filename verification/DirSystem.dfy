/** The whole directory together with the caches: every line's copy of the
    protocol, tied together by the queues and the buffer account. */
module DirSystem {
  import opened Common
  import opened DirTypes
  import opened LineSpec
  import opened LineShape
  import opened LineProtocol
  import opened LineSafety
  import opened DirMachine
  import opened DirLedger

  /** The caches' side of one line. */
  datatype Env = Env(cohes: multiset<Req>, replies: multiset<Req>, wbs: multiset<Req>, excl: set<Node>, shrd: set<Node>)

  const NOTHING := Env(multiset{}, multiset{}, multiset{}, {}, {})

  /** What has happened so far: the messages the directory put on its output
      ports, the transactions ended by the acknowledgment of their transfer,
      the answers by which a line made a node a holder, and the coherence
      messages the caches have replied to. */
  datatype Trace = Trace(sent: seq<Req>, acked: seq<Id>, granted: seq<Req>, taken: seq<Req>)

  /** `issued` counts the requests committed so far: the n-th carries the
      transaction id n.  `retry` is a request left behind at the head of the
      request port under the type of its answer; `spoilt`: an answer given at
      once has found no room. */
  datatype Sys = Sys(dir: Dir, env: map<Tag, Env>, issued: nat, retry: Option<Req>, spoilt: bool, trace: Trace)

  function Fresh(bufMax: nat): Sys {
    Sys(EmptyDir(bufMax), map[], 0, None, false, Trace([], [], [], []))
  }

  function EnvOf(env: map<Tag, Env>, tag: Tag): Env {
    if tag in env then env[tag] else NOTHING
  }

  // ---------- one line's view of the system ----------

  /** The coherence messages for `tag` in the outbound queue. */
  function OutCohes(out: seq<Req>, tag: Tag): multiset<Req> {
    if out == [] then multiset{}
    else OutCohes(out[..|out| - 1], tag) + CoheBag(out[|out| - 1], tag)
  }

  function CoheBag(m: Req, tag: Tag): multiset<Req> {
    if m.msgType == Cohe && m.tag == tag then multiset{m} else multiset{}
  }

  function PartialBag(q: Option<Req>, tag: Tag): multiset<Req> {
    if q.Some? then CoheBag(q.value, tag) else multiset{}
  }

  function Queued(d: Dir, tag: Tag): multiset<Req> {
    PartialBag(d.partial, tag) + OutCohes(d.outbound, tag)
  }

  function View(d: Dir, env: map<Tag, Env>, tag: Tag): LineSys {
    var e := EnvOf(env, tag);
    LineSys(LineOf(d.lines, tag), Queued(d, tag), e.cohes, e.replies, e.wbs, e.excl, e.shrd)
  }

  function EnvPart(s: LineSys): Env {
    Env(s.cohes, s.replies, s.wbs, s.excl, s.shrd)
  }

  // ---------- what can happen ----------

  datatype SysEvent =
    | NewRequest(req: Req, room: bool)
    | Reprocess(room: bool)
    | SendCohe(room: bool, id: Id)
    | ReplyIn(m: Req, room: bool)
    | WritebackIn(m: Req)
    | OutboundOut(room: bool)
    | CacheMove(tag: Tag, e: Event)

  /** A request as the caches send it. */
  predicate IsRequest(req: Req, p: Params) {
    && IsAccess(req.reqType) && req.src < p.numNodes && req.forwardTo.None? && req.id.Txn?
    && !req.preprocessed && req.msgType == Request
  }

  /** A request answered at once for want of room goes back to being a request,
      under the type Dir_Cohe gave its answer. */
  predicate Spoiled(req: Req, p: Params) {
    && (req.reqType == ReplySh || req.reqType == ReplyExcl || req.reqType == ReplyUpgrade)
    && req.src < p.numNodes && req.forwardTo.None? && req.id.Txn? && !req.preprocessed && req.msgType == Request
  }

  /** What can wait for the request port's turn: `spoilt` says whether an
      answer given at once may have found no room. */
  predicate IsQueued(req: Req, spoilt: bool, p: Params) {
    IsRequest(req, p) || (spoilt && Spoiled(req, p))
  }

  predicate IsCacheEvent(e: Event) {
    e.AnswerInvl? || e.Transfer? || e.Refuse? || e.Postpone? || e.Evict? || e.Drop?
  }

  /** DIRSTART's choice: coherence replies and write-backs at any time; on the
      request port, the partial request first, then requests made ready, then
      new ones. */
  predicate SysEnabled(s: Sys, ev: SysEvent, p: Params) {
    match ev
    case NewRequest(req, room) =>
      && s.dir.partial.None? && s.dir.ready == []
      && req.id == Txn(s.issued)
      && (if s.retry.Some? then req == s.retry.value else req.preprocessed || IsRequest(req, p))
    case Reprocess(room) => s.dir.partial.None? && s.dir.ready != []
    case SendCohe(room, id) => s.dir.partial.Some? && id.Allocated?
    case ReplyIn(m, room) => m in EnvOf(s.env, m.tag).replies
    case WritebackIn(m) => m in EnvOf(s.env, m.tag).wbs
    case OutboundOut(room) => s.dir.outbound != []
    case CacheMove(tag, e) =>
      IsCacheEvent(e) && Enabled(View(s.dir, s.env, tag), e, p) && (e.Evict? ==> e.wb.tag == tag && !e.wb.preprocessed)
  }

  function DirPart(s: Sys, ev: SysEvent, p: Params): DirStep
    requires SysEnabled(s, ev, p)
  {
    match ev
    case NewRequest(req, room) => Serve(s.dir, req, false, room, p)
    case Reprocess(room) => Serve(s.dir, s.dir.ready[0], true, room, p)
    case SendCohe(room, id) => SendPartial(s.dir, room, id, p)
    case ReplyIn(m, room) => AbsorbReply(s.dir, m, room, p)
    case WritebackIn(m) => AbsorbWriteback(s.dir, m, p)
    case OutboundOut(room) => SendOutbound(s.dir, room)
    case CacheMove(_, _) => Unchanged(s.dir)
  }

  /** The line an event is about. */
  function TagOf(s: Sys, ev: SysEvent, p: Params): Tag
    requires SysEnabled(s, ev, p)
  {
    match ev
    case NewRequest(req, _) => req.tag
    case Reprocess(_) => s.dir.ready[0].tag
    case SendCohe(_, _) => s.dir.partial.value.tag
    case ReplyIn(m, _) => m.tag
    case WritebackIn(m) => m.tag
    case OutboundOut(_) => s.dir.outbound[0].tag
    case CacheMove(tag, _) => tag
  }

  function ServeEvents(d: Dir, req: Req, wasPending: bool): seq<Event> {
    if req.preprocessed || Full(d, wasPending) || !IsAccess(req.reqType) then [] else [Ask(req)]
  }

  /** No buffer is left for a request. */
  predicate Full(d: Dir, wasPending: bool) {
    !(d.bufTot < d.bufMax || (d.bufTot == d.bufMax && wasPending))
  }

  /** The answer by which serving a request makes a node a holder. */
  function ServeGrant(d: Dir, req: Req, wasPending: bool, room: bool, p: Params): Option<Req> {
    var r := OnRequest(LineOf(d.lines, req.tag), req, p);
    if ServeEvents(d, req, wasPending) != [] && room && r.eff.AnswerNow? then Some(r.eff.answer) else None
  }

  function ReplyGrant(d: Dir, m: Req, p: Params): Option<Req> {
    var r := OnCoheReply(LineOf(d.lines, m.tag), m, p);
    if r.eff.Finish? then Some(r.eff.answer) else None
  }

  /** The coherence message a cache replies to. */
  function TakenBy(e: Event): Option<Req> {
    match e
    case AnswerInvl(m, _) => Some(m)
    case Transfer(m, _) => Some(m)
    case Refuse(m) => Some(m)
    case Postpone(m) => Some(m)
    case _ => None
  }

  /** What an event adds to the trace, besides the messages sent. */
  datatype Marks = Marks(isNew: bool, acked: Option<Id>, granted: Option<Req>, taken: Option<Req>)

  function MarksOf(s: Sys, ev: SysEvent, p: Params): Marks
    requires SysEnabled(s, ev, p)
  {
    match ev
    case NewRequest(req, room) => Marks(true, None, ServeGrant(s.dir, req, false, room, p), None)
    case Reprocess(room) => Marks(false, None, ServeGrant(s.dir, s.dir.ready[0], true, room, p), None)
    case ReplyIn(m, _) => Marks(false, AckOf(s.dir, m, p), ReplyGrant(s.dir, m, p), None)
    case CacheMove(_, e) => Marks(false, None, None, TakenBy(e))
    case _ => Marks(false, None, None, None)
  }

  function OptSeq<T>(o: Option<T>): seq<T> {
    if o.Some? then [o.value] else []
  }

  function ReplyEvents(d: Dir, m: Req, room: bool, p: Params): seq<Event> {
    var r := OnCoheReply(LineOf(d.lines, m.tag), m, p);
    if r.eff.Resend? && room then [TakeReply(m), Dispatch(r.eff.cohe)] else [TakeReply(m)]
  }

  function SendEvents(d: Dir, room: bool, id: Id): seq<Event>
    requires d.partial.Some?
  {
    if !room then [] else if d.partial.value.msgType == Cohe then [Dispatch(d.partial.value)] else [SendInvl(id)]
  }

  function OutboundEvents(d: Dir, room: bool): seq<Event>
    requires d.outbound != []
  {
    if room && d.outbound[0].msgType == Cohe then [Dispatch(d.outbound[0])] else []
  }

  /** What the event is for that line: nothing, one protocol event, or two when
      a resent forward leaves at once. */
  function LineEvents(s: Sys, ev: SysEvent, p: Params): seq<Event>
    requires SysEnabled(s, ev, p)
  {
    match ev
    case NewRequest(req, room) => ServeEvents(s.dir, req, false)
    case Reprocess(room) => ServeEvents(s.dir, s.dir.ready[0], true)
    case SendCohe(room, id) => SendEvents(s.dir, room, id)
    case ReplyIn(m, room) => ReplyEvents(s.dir, m, room, p)
    case WritebackIn(m) => [TakeWriteback(m)]
    case OutboundOut(room) => OutboundEvents(s.dir, room)
    case CacheMove(_, e) => [e]
  }

  function Steps(s: LineSys, es: seq<Event>, p: Params): Outcome
    decreases |es|
  {
    if es == [] then Reached(s)
    else if !Enabled(s, es[0], p) then Broken(NoCoheLeft)
    else
      match Step(s, es[0], p)
      case Broken(e) => Broken(e)
      case Reached(s') => Steps(s', es[1..], p)
  }

  /** A run goes on or ends at an error site; `spoilt` as in the last state. */
  datatype SysOutcome = Running(sys: Sys) | Halted(error: Error, spoilt: bool)

  /** The step `o` of the directory, which is `es` for the line `tag`. A new
      request is committed unless nothing was done or it was left behind. */
  function Advance(s: Sys, tag: Tag, es: seq<Event>, o: DirStep, k: Marks, p: Params): SysOutcome {
    match o
    case DirFatal(e) => Halted(e, s.spoilt)
    case Done(d', sent, kept) =>
      match Steps(View(s.dir, s.env, tag), es, p)
      case Broken(e) => Halted(e, s.spoilt)
      case Reached(v) =>
        var served := k.isNew && o != Unchanged(s.dir);
        var t := s.trace;
        Running(Sys(d', s.env[tag := EnvPart(v)],
                    if served && kept.None? then s.issued + 1 else s.issued,
                    if served then kept else s.retry,
                    s.spoilt || kept.Some?,
                    Trace(t.sent + sent, t.acked + OptSeq(k.acked),
                          t.granted + OptSeq(k.granted), t.taken + OptSeq(k.taken))))
  }

  function SysStep(s: Sys, ev: SysEvent, p: Params): SysOutcome
    requires SysEnabled(s, ev, p)
  {
    Advance(s, TagOf(s, ev, p), LineEvents(s, ev, p), DirPart(s, ev, p), MarksOf(s, ev, p), p)
  }

  function SysRun(events: seq<SysEvent>, bufMax: nat, p: Params): SysOutcome {
    if events == [] then Running(Fresh(bufMax)) else
    match SysRun(events[..|events| - 1], bufMax, p)
    case Halted(e, spoilt) => Halted(e, spoilt)
    case Running(s) =>
      var ev := events[|events| - 1];
      if SysEnabled(s, ev, p) then SysStep(s, ev, p) else Running(s)
  }

  // ---------- the invariant ----------

  ghost predicate TaggedMsg(m: Req, tag: Tag) {
    m.tag == tag && !m.preprocessed
  }

  /** Everything in flight for a line carries its tag. */
  ghost predicate Tagged(v: LineSys, tag: Tag) {
    && (forall m :: m in v.queued || m in v.cohes || m in v.replies || m in v.wbs ==> TaggedMsg(m, tag))
    && (v.line.extra.Some? ==> TaggedMsg(v.line.extra.value.pendReq, tag))
    && (v.line.extra.Some? && v.line.extra.value.waiting ==> v.line.extra.value.pendReq.msgType == Request)
  }

  ghost predicate LineInv(s: Sys, tag: Tag, p: Params) {
    var v := View(s.dir, s.env, tag);
    Inv(v, p) && Tagged(v, tag)
  }

  /** The record whose invalidations are still going out is the partial
      request's. */
  ghost predicate Sending(d: Dir, q: Req) {
    var line := LineOf(d.lines, q.tag);
    q.msgType == Request && Unfinished(line) && line.extra.value.pendReq == q
  }

  /** The line has invalidations still to send. */
  ghost predicate Unfinished(line: Line) {
    Rounding(line) && line.extra.value.numLeft > 0
  }

  ghost predicate Parked(d: Dir, r: Req, spoilt: bool, p: Params) {
    IsQueued(r, spoilt, p) && LineOf(d.lines, r.tag).pend
  }

  ghost predicate QueueInv(d: Dir, spoilt: bool, p: Params) {
    && (forall r :: r in d.pending ==> Parked(d, r, spoilt, p))
    && (forall r :: r in d.ready ==> IsQueued(r, spoilt, p))
    && (forall m :: m in d.outbound ==> IsAnswer(m) || m.msgType == Cohe)
    && (d.partial.Some? ==> d.partial.value.msgType == Cohe || Sending(d, d.partial.value))
  }

  /** Only the partial request has invalidations still to send. */
  ghost predicate RoundInv(d: Dir) {
    forall t: Tag :: Unfinished(LineOf(d.lines, t)) ==> IsPartial(d, t, LineOf(d.lines, t).extra.value.pendReq)
  }

  ghost predicate IsPartial(d: Dir, t: Tag, q: Req) {
    d.partial == Some(q) && q.tag == t && q.msgType == Request
  }

  /** A request is left behind at the port under the type of its answer only
      once an answer has found no room. */
  ghost predicate RetryInv(s: Sys, p: Params) {
    s.retry.Some? ==> s.spoilt && Spoiled(s.retry.value, p) && s.retry.value.id == Txn(s.issued)
  }

  /** The total weight of a list of transactions. */
  function Completed(ids: seq<Id>, w: Weight): nat {
    if ids == [] then 0 else Completed(ids[..|ids| - 1], w) + w(ids[|ids| - 1])
  }

  /** The weight of the transactions 0 .. n-1. */
  function Issued(n: nat, w: Weight): nat {
    if n == 0 then 0 else Issued(n - 1, w) + w(Txn(n - 1))
  }

  ghost predicate LedgerInv(s: Sys) {
    && s.dir.bufTot == Held(s.dir, Each()) && s.dir.bufTot <= s.dir.bufMax
    && forall w: Weight ::
         Held(s.dir, w) + AnswerSum(s.trace.sent, w) + Completed(s.trace.acked, w) == Issued(s.issued, w)
  }

  /** An answer that makes its addressee a holder. */
  predicate IsGrant(m: Req) {
    m.msgType == Reply && m.reply == Positive && !m.preprocessed
  }

  function GrantBag(m: Req): multiset<Req> {
    if IsGrant(m) then multiset{m} else multiset{}
  }

  function Grants(out: seq<Req>): multiset<Req> {
    if out == [] then multiset{} else Grants(out[..|out| - 1]) + GrantBag(out[|out| - 1])
  }

  /** What the caches have of coherence messages, and had, is what was sent;
      what was sent of grants, or waits for its port, is what was granted. */
  ghost predicate TraceInv(s: Sys) {
    && (forall t: Tag :: OutCohes(s.trace.sent, t) == EnvOf(s.env, t).cohes + multiset(OfTag(s.trace.taken, t)))
    && Grants(s.trace.sent) + Grants(s.dir.outbound) == multiset(s.trace.granted)
  }

  ghost predicate SysInv(s: Sys, p: Params) {
    && (forall tag: Tag :: LineInv(s, tag, p))
    && QueueInv(s.dir, s.spoilt, p) && RoundInv(s.dir) && RetryInv(s, p)
    && LedgerInv(s) && TraceInv(s)
  }
}
