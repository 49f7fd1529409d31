/** The whole directory as a value: the line table, the queues and the buffer
    account, and what each DirSim case does to them. */
module DirMachine {
  import opened Common
  import opened DirTypes
  import opened LineSpec

  /** `pending`: requests parked behind a pending line; `ready`: parked
      requests free to be served again; `outbound`: messages that found their
      port full; `partial`: the request whose coherence messages are being
      sent; `bufTot` and `bufMax`: the buffer account and its size. */
  datatype Dir = Dir(
    lines: map<Tag, Line>,
    pending: seq<Req>,
    ready: seq<Req>,
    outbound: seq<Req>,
    partial: Option<Req>,
    bufTot: int,
    bufMax: int)

  function EmptyDir(bufMax: int): Dir {
    Dir(map[], [], [], [], None, 0, bufMax)
  }

  /** A lookup of an unknown tag finds a fresh line. */
  function LineOf(lines: map<Tag, Line>, tag: Tag): Line {
    if tag in lines then lines[tag] else FRESH_LINE
  }

  /** The result of one case: the directory, the messages put on the output
      ports, and, when the request at hand was not committed but changed, what
      it has become. */
  datatype DirStep =
    | Done(dir: Dir, sent: seq<Req>, kept: Option<Req>)
    | DirFatal(error: Error)

  function OfTag(s: seq<Req>, tag: Tag): seq<Req> {
    if s == [] then []
    else OfTag(s[..|s| - 1], tag) + (if s[|s| - 1].tag == tag then [s[|s| - 1]] else [])
  }

  function NotOfTag(s: seq<Req>, tag: Tag): seq<Req> {
    if s == [] then []
    else NotOfTag(s[..|s| - 1], tag) + (if s[|s| - 1].tag == tag then [] else [s[|s| - 1]])
  }

  /** DirCheckBuf: the requests parked behind `tag` become ready, in order. */
  function Release(d: Dir, tag: Tag): Dir {
    d.(pending := NotOfTag(d.pending, tag), ready := d.ready + OfTag(d.pending, tag))
  }

  /** dir_commit_req: a request served again leaves the ready queue. */
  function Commit(d: Dir, wasPending: bool): Dir {
    if wasPending && d.ready != [] then d.(ready := d.ready[1..]) else d
  }

  /** One buffer more, unless the request already had one. */
  function Charge(d: Dir, wasPending: bool): Dir {
    if wasPending then d else d.(bufTot := d.bufTot + 1)
  }

  function Unchanged(d: Dir): DirStep {
    Done(d, [], None)
  }

  /** Send an answer that holds a buffer, or queue it for lack of room. */
  function Deliver(d: Dir, answer: Req, room: bool): DirStep {
    if room then Done(d.(bufTot := d.bufTot - 1), [answer], None)
    else Done(d.(outbound := d.outbound + [answer]), [], None)
  }

  /** A REQUEST the directory cannot take into account bounces back. */
  function Bounce(d: Dir, req: Req, wasPending: bool, room: bool, ack: Ack): DirStep {
    if room
    then Done(Commit(d, wasPending), [req.(reply := ack, msgType := Reply)], None)
    else Unchanged(d)
  }

  /** DIRREQ. */
  function Serve(d: Dir, req: Req, wasPending: bool, room: bool, p: Params): DirStep {
    if req.preprocessed then
      if wasPending then DirFatal(PreprocessedWasPending) else Bounce(d, req, wasPending, room, Positive)
    else if !(d.bufTot < d.bufMax || (d.bufTot == d.bufMax && wasPending)) then
      Bounce(d, req, wasPending, room, Rar)
    else
      Served(d, req, wasPending, room, OnRequest(LineOf(d.lines, req.tag), req, p))
  }

  /** DIRREQ once the coherence decision `r` is made. */
  function Served(d: Dir, req: Req, wasPending: bool, room: bool, r: ReqStep): DirStep {
    var d' := d.(lines := d.lines[req.tag := r.line]);
    match r.eff
    case ReqFailed(e) => DirFatal(e)
    case AnswerNow(a) =>
      if room
      then Done(Commit(d', wasPending).(bufTot := if wasPending then d.bufTot - 1 else d.bufTot), [a], None)
      else
        var q := a.(msgType := Request);
        Done(if wasPending && d.ready != [] then d'.(ready := d.ready[0 := q]) else d', [], Some(q))
    case IntoBuffer =>
      if (d.bufTot == d.bufMax && !wasPending) || d.bufTot > d.bufMax then DirFatal(BufferFull)
      else Done(Charge(Commit(d', wasPending), wasPending).(pending := d.pending + [req]), [], None)
    case HeldForWriteback => Done(Charge(Commit(d', wasPending), wasPending), [], None)
    case StartInvalidating(q) => Done(Charge(Commit(d', wasPending), wasPending).(partial := Some(q)), [], None)
    case StartForward(m) => Done(Charge(Commit(d', wasPending), wasPending).(partial := Some(m)), [], None)
  }

  /** A new request that is served leaves a trace. */
  lemma ServedChanges(d: Dir, req: Req, room: bool, r: ReqStep)
    requires Served(d, req, false, room, r).Done?
    ensures Served(d, req, false, room, r) != Unchanged(d)
  {
    var o := Served(d, req, false, room, r);
    if o.dir.bufTot == d.bufTot { assert o.sent != [] || o.kept.Some?; }
  }

  /** DIRSENDCOHE: one coherence message of the partial request. */
  function SendPartial(d: Dir, room: bool, id: Id, p: Params): DirStep
    requires d.partial.Some?
  {
    var q := d.partial.value;
    if q.msgType == Cohe then
      if room then Done(d.(partial := None), [q], None) else Unchanged(d)
    else
      match OnSendInvl(LineOf(d.lines, q.tag), q, p, id)
      case CannotSend(e) => DirFatal(e)
      case Sends(line, m) =>
        if room
        then
          var more := line.extra.Some? && line.extra.value.numLeft != 0;
          Done(d.(lines := d.lines[q.tag := line], partial := if more then d.partial else None), [m], None)
        else Unchanged(d)
  }

  /** DIRCOHEREP. */
  function AbsorbReply(d: Dir, m: Req, room: bool, p: Params): DirStep {
    Absorbed(d, m.tag, room, OnCoheReply(LineOf(d.lines, m.tag), m, p))
  }

  function Absorbed(d: Dir, tag: Tag, room: bool, r: ReplyStep): DirStep {
    var line := LineOf(d.lines, tag);
    var d' := d.(lines := d.lines[tag := r.line]);
    match r.eff
    case ReplyFailed(e) => DirFatal(e)
    case Retry(rar) => Deliver(Release(d', tag), rar, room)
    case Requeue(q) => Done(Release(d'.(ready := d.ready + [q]), tag), [], None)
    case Resend(c) => if room then Done(d', [c], None) else Done(d'.(outbound := d.outbound + [c]), [], None)
    case Collected => Done(d', [], None)
    case Finish(a) => Deliver(Release(d', tag), a, room)
    case TransferAcked =>
      if line.extra.None? then DirFatal(UninitialisedExtra)
      else Done(Release(d', tag).(bufTot := d.bufTot - 1), [], None)
  }

  /** DIRWRB. */
  function AbsorbWriteback(d: Dir, m: Req, p: Params): DirStep {
    WrittenBack(d, m.tag, OnWriteback(LineOf(d.lines, m.tag), m, p))
  }

  function WrittenBack(d: Dir, tag: Tag, r: WbStep): DirStep {
    var d' := d.(lines := d.lines[tag := r.line]);
    match r.eff
    case WbFailed(e) => DirFatal(e)
    case Woke(q) => Done(Release(d'.(ready := d.ready + [q]), tag), [], None)
    case Noted => Done(d', [], None)
    case Cleared => Done(Release(d', tag), [], None)
  }

  predicate IsAnswer(m: Req) {
    m.msgType == Reply && (m.reply == Positive || m.reply == Rar)
  }

  /** DIROUTBOUND: the head of the outbound queue goes out, or to the back. */
  function SendOutbound(d: Dir, room: bool): DirStep
    requires d.outbound != []
  {
    var m, rest := d.outbound[0], d.outbound[1..];
    if !room then Unchanged(d.(outbound := rest + [m]))
    else if IsAnswer(m) then Done(d.(outbound := rest, bufTot := d.bufTot - 1), [m], None)
    else Done(d.(outbound := rest), [m], None)
  }
}
