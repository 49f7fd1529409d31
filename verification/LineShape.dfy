/** The shape every reachable line keeps, whatever messages arrive and in
    whatever order.  No rule about the caches is used here. */
module LineShape {
  import opened Common
  import opened DirTypes
  import opened LineSpec

  ghost predicate Nodes(s: set<Node>, p: Params) {
    forall n :: n in s ==> n < p.numNodes
  }

  /** The state agrees with the sharer vector. */
  ghost predicate VectorShape(line: Line, p: Params) {
    && Nodes(line.sharers, p)
    && (line.state == Uncached <==> line.sharers == {})
    && (line.state == DirPrivate ==> |line.sharers| == 1)
  }

  /** A line that waits for a write-back is still private to the node it
      waits for. */
  ghost predicate WaitShape(line: Line, x: Extra) {
    && line.state == DirPrivate
    && x.waitingFor.Some? && line.sharers == {x.waitingFor.value}
    && x.counter == 1
  }

  ghost predicate Shape(line: Line, p: Params) {
    && VectorShape(line, p)
    && (line.pend <==> line.extra.Some?)
    && (line.extra.Some? && line.extra.value.waiting ==> WaitShape(line, line.extra.value))
  }

  /** What can reach one line.  Anything a cache can put in a message is
      allowed; DIRSERV sends write-backs to the write-back case, so a message
      handled as a request carries no WRB or REPL. */
  datatype Input =
    | InRequest(req: Req, stale: Stale)
    | InSendInvl(req: Req, id: Id)
    | InCoheReply(req: Req)
    | InWriteback(req: Req)

  datatype Handled = Next(line: Line) | Fatal(error: Error)

  function Handle(line: Line, i: Input, p: Params): Handled {
    match i
    case InRequest(req, stale) =>
      var r := OnRequest(line, req, p.(stale := _ => stale));
      if r.eff.ReqFailed? then Fatal(r.eff.error) else Next(r.line)
    case InSendInvl(req, id) =>
      var r := OnSendInvl(line, req, p, id);
      if r.CannotSend? then Fatal(r.error) else Next(r.line)
    case InCoheReply(req) =>
      var r := OnCoheReply(line, req, p);
      if r.eff.ReplyFailed? then Fatal(r.eff.error) else Next(r.line)
    case InWriteback(req) =>
      var r := OnWriteback(line, req, p);
      if r.eff.WbFailed? then Fatal(r.eff.error) else Next(r.line)
  }

  ghost predicate Dispatched(i: Input) {
    match i
    case InRequest(req, _) => !IsWriteback(req)
    case InWriteback(req) => IsWriteback(req)
    case InCoheReply(req) => !IsWriteback(req)
    case _ => true
  }

  lemma HasMember(s: set<Node>)
    requires |s| == 1
    ensures exists n :: s == {n}
  {
    var n :| n in s;
    assert |s - {n}| == 0;
    assert s == {n};
  }

  /** The errors a line of the right shape never raises. */
  predicate ShapeError(e: Error) {
    e == PrivateFindNotOne || e == SharedFindZero
  }

  ghost predicate Decided(r: CoheResult, p: Params) {
    match r.out
    case Failed(e) => !ShapeError(e)
    case WaitForWrb => Shape(r.line, p)
    case WaitPend => Shape(r.line, p)
    case _ => VectorShape(r.line, p) && (r.extra.Some? ==> !r.extra.value.waiting) && r.line.extra.None?
  }

  lemma ReadShDecides(line: Line, req: Req, p: Params)
    requires VectorShape(line, p) && line.extra.None? && !line.pend
    ensures Decided(CoheReadSh(line, req, p), p)
  {
    if line.state == DirPrivate { HasMember(line.sharers); }
    assert line.sharers == {} ==> line.sharers + {req.src} == {req.src};
    assert line.sharers == {req.src} ==> line.sharers + {req.src} == {req.src};
  }

  lemma ReadOwnDecides(line: Line, req: Req, p: Params)
    requires VectorShape(line, p) && line.extra.None? && !line.pend
    ensures Decided(CoheReadOwn(line, req, p), p)
  {
    if line.state == DirPrivate { HasMember(line.sharers); }
    assert line.sharers == {} ==> line.sharers + {req.src} == {req.src};
  }

  lemma CoheDecides(line: Line, req: Req, p: Params)
    requires Shape(line, p) && !IsWriteback(req)
    ensures Decided(DirCohe(line, req, p), p)
  {
    if !line.pend && (req.reqType == ReadSh || req.reqType == ReadOwn || req.reqType == Upgrade) {
      hide Decided;
      ReadShDecides(line, req, p);
      ReadOwnDecides(line, req, p);
      ReadOwnDecides(line, req.(reqType := ReadOwn), p);
    }
  }

  lemma RequestKeepsShape(line: Line, req: Req, p: Params)
    requires Shape(line, p) && !IsWriteback(req)
    ensures var r := OnRequest(line, req, p);
            if r.eff.ReqFailed? then !ShapeError(r.eff.error) else Shape(r.line, p)
  {
    CoheDecides(line, req, p);
  }

  lemma ReplyKeepsShape(line: Line, req: Req, p: Params)
    requires Shape(line, p)
    ensures var r := OnCoheReply(line, req, p);
            if r.eff.ReplyFailed? then !ShapeError(r.eff.error) else Shape(r.line, p)
  {
  }

  lemma WritebackKeepsShape(line: Line, req: Req, p: Params)
    requires Shape(line, p) && IsWriteback(req)
    ensures var r := OnWriteback(line, req, p);
            if r.eff.WbFailed? then !ShapeError(r.eff.error) else Shape(r.line, p)
  {
  }

  function HandleAll(line: Line, inputs: seq<Input>, p: Params): Handled {
    if inputs == [] then Next(line) else
    match HandleAll(line, inputs[..|inputs| - 1], p)
    case Fatal(e) => Fatal(e)
    case Next(l) => Handle(l, inputs[|inputs| - 1], p)
  }

  /** Every reachable line has the shape, after any sequence of messages, and
      the "find must be 1" and "find must be at least 1" sites are never
      reached. */
  lemma {:induction false} ReachableShape(inputs: seq<Input>, p: Params)
    requires forall i :: i in inputs ==> Dispatched(i)
    ensures match HandleAll(FRESH_LINE, inputs, p)
            case Next(line) => Shape(line, p)
            case Fatal(e) => !ShapeError(e)
  {
    if inputs == [] {
    } else {
      var front, last := inputs[..|inputs| - 1], inputs[|inputs| - 1];
      assert last in inputs;
      ReachableShape(front, p);
      if HandleAll(FRESH_LINE, front, p).Next? {
        var line := HandleAll(FRESH_LINE, front, p).line;
        match last
        case InRequest(req, stale) => RequestKeepsShape(line, req, p.(stale := _ => stale));
        case InSendInvl(req, id) =>
        case InCoheReply(req) => ReplyKeepsShape(line, req, p);
        case InWriteback(req) => WritebackKeepsShape(line, req, p);
      }
    }
  }
}
