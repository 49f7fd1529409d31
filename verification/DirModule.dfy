/** The directory module as the simulator runs it: one object whose fields the
    cases of DirSim update in place, proved against DirMachine. */
module DirModule {
  import opened Common
  import opened DirTypes
  import opened LineSpec
  import opened DirMachine

  /** How a case of DirSim ends: with the message it put on an output port,
      with nothing to send, with the request at hand not taken, or not taken
      but changed, or at a fatal error. */
  datatype CaseResult =
    | Sent(msg: Req)
    | Nothing
    | NotTaken
    | LeftBehind(req: Req)
    | Stopped(error: Error)

  class Directory {
    const p: Params
    var lines: map<Tag, Line>
    var pending: seq<Req>
    var ready: seq<Req>
    var outbound: seq<Req>
    var reqPartial: Option<Req>
    var wasPending: bool
    var bufTot: int
    var bufMax: int
    var bufszRdy: int
    var outboundSz: int

    ghost predicate Valid()
      reads this
    {
      bufszRdy == |ready| && outboundSz == |outbound|
    }

    ghost function Value(): Dir
      reads this
    {
      Dir(lines, pending, ready, outbound, reqPartial, bufTot, bufMax)
    }

    /** The object and its answer are those of the step `o`. */
    ghost predicate Follows(o: DirStep, r: CaseResult)
      reads this
    {
      match o
      case DirFatal(e) => r == Stopped(e)
      case Done(d, sent, kept) =>
        && Valid() && Value() == d
        && (match r
            case Sent(m) => sent == [m] && kept.None?
            case Nothing => sent == [] && kept.None?
            case NotTaken => sent == [] && kept.None?
            case LeftBehind(q) => sent == [] && kept == Some(q)
            case Stopped(_) => false)
    }

    /** Unless the case stopped the simulator, the counters agree with the
        queues, and a request left behind is still one. */
    ghost predicate SafeEnd(r: CaseResult)
      reads this
    {
      (!r.Stopped? ==> Valid()) && (r.LeftBehind? ==> !IsWriteback(r.req))
    }

    constructor (p: Params, bufsz: int)
      ensures Valid() && this.p == p && Value() == EmptyDir(bufsz) && !wasPending
    {
      this.p := p;
      lines := map[];
      pending, ready, outbound := [], [], [];
      reqPartial, wasPending := None, false;
      bufTot, bufMax := 0, bufsz;
      bufszRdy, outboundSz := 0, 0;
    }

    /** DirHashLookup_FM: an unknown tag gets a fresh line. */
    method Lookup(tag: Tag) returns (line: Line)
      modifies this`lines
      ensures line == LineOf(old(lines), tag) && lines == old(lines)[tag := line]
    {
      if tag !in lines {
        lines := lines[tag := Line(Uncached, {}, false, None)];
      }
      line := lines[tag];
    }

    // ---------- the pending buffer and the ready queue ----------

    /** DirAddBuf; the caller has made sure of a buffer. */
    method AddBuf(req: Req) returns (ok: bool)
      modifies this`pending, this`bufTot
      ensures ok <==> !((old(bufTot) == bufMax && !wasPending) || old(bufTot) > bufMax)
      ensures ok ==> pending == old(pending) + [req] && bufTot == old(bufTot) + (if wasPending then 0 else 1)
    {
      if (bufTot == bufMax && !wasPending) || bufTot > bufMax {
        return false;
      }
      pending := pending + [req];
      if !wasPending {
        bufTot := bufTot + 1;
      }
      ok := true;
    }

    /** DirCheckBuf: step through the pending buffer and move every request for
        `tag` to the ready queue. */
    method CheckBuf(tag: Tag)
      requires Valid()
      modifies this`pending, this`ready, this`bufszRdy
      ensures Valid() && Value() == Release(old(Value()), tag)
    {
      var before := pending;
      var i := 0;
      pending := [];
      while i < |before|
        invariant 0 <= i <= |before| && Valid()
        invariant pending == NotOfTag(before[..i], tag)
        invariant ready == old(ready) + OfTag(before[..i], tag)
      {
        assert before[..i + 1][..i] == before[..i];
        if before[i].tag == tag {
          bufszRdy := bufszRdy + 1;
          ready := ready + [before[i]];
        } else {
          pending := pending + [before[i]];
        }
        i := i + 1;
      }
      assert before[..|before|] == before;
    }

    /** dir_commit_req: a request served from the ready queue leaves it. */
    method CommitReq()
      requires Valid() && (wasPending ==> ready != [])
      modifies this`ready, this`bufszRdy
      ensures Valid() && ready == if wasPending then old(ready)[1..] else old(ready)
    {
      if wasPending {
        bufszRdy := bufszRdy - 1;
        ready := ready[1..];
      }
    }

    // ---------- Dir_Cohe ----------

    /** DirFind_FM on the set the vector denotes: the other sharers, and whether
        `me` is one. */
    method Find(line: Line, me: Node) returns (find: nat, others: seq<Node>, nodeCopy: bool)
      ensures find == |line.sharers| && others == OthersBelow(line.sharers, me, p.numNodes)
      ensures nodeCopy == (me in line.sharers)
    {
      others := [];
      var k := 0;
      while k < p.numNodes
        invariant 0 <= k <= p.numNodes && others == OthersBelow(line.sharers, me, k)
      {
        if k in line.sharers && k != me {
          others := others + [k];
        }
        k := k + 1;
      }
      find, nodeCopy := |line.sharers|, me in line.sharers;
    }

    /** Dir_Cohe for a READ_SH on a line at rest. */
    method CoheRead(line0: Line, req0: Req) returns (r: CoheResult)
      requires req0.reqType == ReadSh
      ensures r == CoheReadSh(line0, req0, p)
    {
      var line, req := line0, req0;
      match line.state {
        case Uncached =>
          if req.src >= p.numNodes { return Fail(line0, req0, InvalidNode); }
          line := line.(sharers := line.sharers + {req.src});
          if !p.msi {
            line := line.(state := DirPrivate);
            req := req.(reqType := ReplyExcl);
          } else {
            line := line.(state := DirShared);
            req := req.(reqType := ReplySh);
          }
          return CoheResult(line, req, None, None, VisitMem);
        case DirShared =>
          if req.src >= p.numNodes { return Fail(line0, req0, InvalidNode); }
          var oursAlone := line.sharers == {req.src};
          line := line.(sharers := line.sharers + {req.src});
          if oursAlone && !p.msi {
            line := line.(state := DirPrivate);
            req := req.(reqType := ReplyExcl);
          } else {
            req := req.(reqType := ReplySh);
          }
          return CoheResult(line, req, None, None, VisitMem);
        case DirPrivate =>
          var find, others, nodeCopy := Find(line, req.src);
          if find != 1 { return Fail(line0, req0, PrivateFindNotOne); }
          var x := PoolExtra(req, p).(counter := 1);
          if nodeCopy {
            x := x.(waitingFor := Some(req.src), waiting := true);
            line := line.(pend := true, extra := Some(x));
            return CoheResult(line, req, Some(x), None, WaitForWrb);
          }
          if req.src >= p.numNodes { return Fail(line0, req0, InvalidNode); }
          line := line.(sharers := line.sharers + {req.src});
          line := line.(state := DirShared);
          x := x.(nodeAry := others, nextReqType := Copyback, nackSt := NackNok, retSt := RetAckReply);
          return CoheResult(line, req, Some(x), None, ForwardRequest);
      }
    }

    /** The invalidating branches of UPGRADE and READ_OWN, which differ in the
        answer they prepare. */
    method CoheInvalidate(line0: Line, req0: Req, answer: ReqType, ret: RetSt) returns (r: CoheResult)
      ensures r == InvalidateOthers(line0, req0, answer, ret, p)
    {
      var find, others, nodeCopy := Find(line0, req0.src);
      var counter := if nodeCopy then find - 1 else find;
      if req0.src >= p.numNodes { return Fail(line0, req0, InvalidNode); }
      var line := line0.(sharers := {req0.src}, state := DirPrivate);
      var req := req0.(reqType := answer);
      if counter != 0 {
        var x := PoolExtra(req, p).(counter := counter, nodeAry := others, nextReqType := Invl, nackSt := NackOk,
                                    retSt := ret);
        r := CoheResult(line, req, Some(x), None, WaitCnt);
      } else {
        r := CoheResult(line, req, None, None, if answer == ReplyUpgrade then DirReplyNow else VisitMem);
      }
    }

    /** Dir_Cohe for an UPGRADE or READ_OWN on a line at rest; an UPGRADE that
        cannot be one falls through to READ_OWN. */
    method CoheWrite(line0: Line, req0: Req) returns (r: CoheResult)
      requires req0.reqType == ReadOwn || req0.reqType == Upgrade
      ensures r == if req0.reqType == Upgrade then CoheUpgrade(line0, req0, p) else CoheReadOwn(line0, req0, p)
    {
      var line, req := line0, req0;
      if req.reqType == Upgrade {
        if line.state == DirShared {
          var find, others, nodeCopy := Find(line, req.src);
          assert find == 0 <==> line.sharers == {};
          if find == 0 { return Fail(line0, req0, SharedFindZero); }
          if nodeCopy {
            r := CoheInvalidate(line, req, ReplyUpgrade, RetDirReply);
            return;
          }
        }
        req := req.(reqType := ReadOwn);
      }
      var find, others, nodeCopy := Find(line, req.src);
      match line.state {
        case Uncached =>
          if req.src >= p.numNodes { return Fail(line, req, InvalidNode); }
          line := line.(sharers := line.sharers + {req.src});
          line := line.(state := DirPrivate);
          req := req.(reqType := ReplyExcl);
          return CoheResult(line, req, None, None, VisitMem);
        case DirShared =>
          assert find == 0 <==> line.sharers == {};
          if find == 0 { return Fail(line, req, SharedFindZero); }
          r := CoheInvalidate(line, req, ReplyExcl, RetSpecialReply);
        case DirPrivate =>
          if find != 1 { return Fail(line, req, PrivateFindNotOne); }
          var x := PoolExtra(req, p).(counter := 1);
          if nodeCopy {
            x := x.(waitingFor := Some(req.src), waiting := true);
            line := line.(pend := true, extra := Some(x));
            return CoheResult(line, req, Some(x), None, WaitForWrb);
          }
          if req.src >= p.numNodes { return Fail(line, req, InvalidNode); }
          line := line.(sharers := {req.src});
          x := x.(nodeAry := others, nextReqType := CopybackInvl, nackSt := NackNok, retSt := RetAckReply);
          return CoheResult(line, req, Some(x), None, ForwardRequest);
      }
    }

    /** Dir_Cohe for a WRB or REPL once a pending line has taken note of it. */
    method CoheWrb(line0: Line, req: Req, woken: Option<Req>) returns (r: CoheResult)
      ensures r == CoheWriteback(line0, req, p, woken)
    {
      var line := line0;
      match line.state {
        case Uncached => return Fail(line0, req, UncachedWriteback);
        case DirPrivate =>
          var find, others, nodeCopy := Find(line, req.src);
          if find != 1 { return Fail(line0, req, PrivateFindNotOne); }
        case DirShared =>
      }
      if req.src >= p.numNodes { return Fail(line0, req, InvalidNode); }
      line := line.(sharers := {});
      line := line.(state := Uncached);
      r := CoheResult(line, req, None, woken, VisitMem);
    }

    /** Dir_Cohe on a line at rest. */
    method CoheAtRest(line: Line, req: Req) returns (r: CoheResult)
      requires !line.pend
      ensures r == DirCohe(line, req, p) && r.woken.None?
    {
      match req.reqType {
        case ReadSh => r := CoheRead(line, req);
        case Upgrade => r := CoheWrite(line, req);
        case ReadOwn => r := CoheWrite(line, req);
        case Wrb => r := CoheWrb(line, req, None);
        case Repl => r := CoheWrb(line, req, None);
        case RWrite => r := Fail(line, req, RemoteWrite);
        case _ => r := Fail(line, req, UnknownRequestType);
      }
    }

    /** Dir_Cohe on a pending line: only a write-back gets past, and it may be
        the one a request waits for. */
    method CohePending(line: Line, req: Req) returns (r: CoheResult)
      requires line.pend
      ensures r == DirCohe(line, req, p) && r.out != WaitForWrb
    {
      if !(line.extra.Some? && (req.reqType == Wrb || req.reqType == Repl)) {
        return CoheResult(line, req, None, None, WaitPend);
      }
      var x := line.extra.value;
      if !x.waiting {
        r := CoheWrb(line.(extra := Some(x.(wasHere := Some(req.src)))), req, None);
        return;
      }
      if x.waitingFor != Some(req.src) { return Fail(line, req, WaitingForOtherMessage); }
      x := x.(waitingFor := None, counter := x.counter - 1);
      if x.counter != 0 { return Fail(line, req, CounterNotOne); }
      var tempreq := x.pendReq;
      if tempreq.forwardTo.Some? {
        tempreq := tempreq.(src := tempreq.forwardTo.value, reply := NoAck, msgType := Request);
      }
      r := CoheWrb(line.(extra := Some(x)), req, Some(tempreq));
    }

    /** Dir_Cohe.  The line is updated in the table; the woken request goes to
        the ready queue and the buffer of an awaited write-back is charged
        here, as in the source. */
    method CoheRtn(req: Req) returns (r: CoheResult)
      requires Valid()
      modifies this`lines, this`ready, this`bufszRdy, this`bufTot
      ensures Valid()
      ensures r == DirCohe(LineOf(old(lines), req.tag), req, p)
      ensures lines == old(lines)[req.tag := r.line]
      ensures ready == old(ready) + (if r.woken.Some? then [r.woken.value] else [])
      ensures bufTot == old(bufTot) + (if r.out == WaitForWrb && !wasPending then 1 else 0)
    {
      var line := Lookup(req.tag);
      if line.pend { r := CohePending(line, req); } else { r := CoheAtRest(line, req); }
      lines := lines[req.tag := r.line];
      if r.woken.Some? {
        bufszRdy := bufszRdy + 1;
        ready := ready + [r.woken.value];
      }
      if r.out == WaitForWrb && !wasPending {
        bufTot := bufTot + 1;
      }
    }

    // ---------- the cases of DirSim ----------

    /** DIRREQ for a preprocessed request, or for want of a buffer: bounce it
        back if the reply port has `room`, else leave it where it is. */
    method BounceBack(req: Req, room: bool, ack: Ack) returns (r: CaseResult)
      requires Valid() && (wasPending ==> ready != [])
      modifies this`ready, this`bufszRdy
      ensures Follows(Bounce(old(Value()), req, wasPending, room, ack), r)
      ensures r.NotTaken? <==> !room
    {
      if !room { return NotTaken; }
      CommitReq();
      r := Sent(req.(reply := ack, msgType := Reply));
    }

    /** The buffer of a request that now waits, unless it already has one. */
    method TakeBuffer()
      modifies this`bufTot
      ensures bufTot == old(bufTot) + (if wasPending then 0 else 1)
    {
      if !wasPending {
        bufTot := bufTot + 1;
      }
    }

    /** An answer that needs no coherence messages.  Without room the request
        stays where it was, already changed. */
    method AnswerAtOnce(req: Req, room: bool) returns (r: CaseResult)
      requires Valid() && (wasPending ==> ready != [])
      requires req.tag in lines
      modifies this`lines, this`ready, this`bufszRdy, this`bufTot
      ensures var d := old(Value());
              var line := d.lines[req.tag].(extra := None);
              var answer := req.(reply := Positive, msgType := Reply);
              Follows(Served(d, req, wasPending, room, ReqStep(line, AnswerNow(answer))), r)
      ensures !r.NotTaken?
    {
      lines := lines[req.tag := lines[req.tag].(extra := None)];
      var answer := req.(reply := Positive, msgType := Reply);
      if !room {
        answer := answer.(msgType := Request);
        if wasPending {
          ready := ready[0 := answer];
        }
        return LeftBehind(answer);
      }
      CommitReq();
      if wasPending {
        bufTot := bufTot - 1;
      }
      r := Sent(answer);
    }

    /** A round of invalidations begins: the line is pending on its record, and
        the request becomes the partial one. */
    method BeginRound(req: Req, extra: Extra)
      requires Valid() && (wasPending ==> ready != [])
      requires req.tag in lines
      modifies this`lines, this`ready, this`bufszRdy, this`bufTot, this`reqPartial
      ensures Valid() && reqPartial == Some(req)
      ensures lines == old(lines)[req.tag := old(lines)[req.tag].(pend := true,
              extra := Some(extra.(pendReq := req, numLeft := extra.counter)))]
      ensures ready == (if wasPending then old(ready)[1..] else old(ready))
      ensures bufTot == old(bufTot) + (if wasPending then 0 else 1)
    {
      CommitReq();
      TakeBuffer();
      var line := lines[req.tag];
      var x := extra.(pendReq := req);
      x := x.(numLeft := x.counter);
      lines := lines[req.tag := line.(pend := true, extra := Some(x))];
      reqPartial := Some(req);
    }

    /** A forward begins: the request itself becomes the COHE to the owner. */
    method BeginForward(req: Req, extra: Extra) returns (fwd: Req)
      requires Valid() && (wasPending ==> ready != [])
      requires req.tag in lines && extra.nodeAry != []
      modifies this`lines, this`ready, this`bufszRdy, this`bufTot, this`reqPartial
      ensures Valid() && fwd == ForwardOf(req, extra, p) && reqPartial == Some(fwd)
      ensures lines == old(lines)[req.tag := old(lines)[req.tag].(pend := true,
              extra := Some(extra.(pendReq := fwd, numLeft := extra.counter)))]
      ensures ready == (if wasPending then old(ready)[1..] else old(ready))
      ensures bufTot == old(bufTot) + (if wasPending then 0 else 1)
    {
      CommitReq();
      fwd := req.(forwardTo := Some(req.src));
      fwd := fwd.(src := p.home, dest := extra.nodeAry[0]);
      fwd := fwd.(reqType := extra.nextReqType);
      var x := extra.(numLeft := extra.counter);
      TakeBuffer();
      fwd := fwd.(reply := NoAck, msgType := Cohe);
      lines := lines[req.tag := lines[req.tag].(pend := true, extra := Some(x.(pendReq := fwd)))];
      reqPartial := Some(fwd);
    }

    /** DIRREQ.  `room`: whether the port of the reply, should there be one,
        has room. */
    method ServeRequest(req: Req, room: bool) returns (r: CaseResult)
      requires Valid() && !IsWriteback(req)
      requires wasPending ==> ready != [] && ready[0] == req
      modifies this
      ensures wasPending == old(wasPending)
      ensures Follows(Serve(old(Value()), req, wasPending, room, p), r)
      ensures SafeEnd(r)
      ensures !wasPending ==> (r.NotTaken? <==> Serve(old(Value()), req, false, room, p) == Unchanged(old(Value())))
    {
      ghost var before := Value();
      if req.preprocessed {
        if wasPending { return Stopped(PreprocessedWasPending); }
        r := BounceBack(req, room, Positive);
      } else if !(bufTot < bufMax || (bufTot == bufMax && wasPending)) {
        r := BounceBack(req, room, Rar);
      } else {
        r := ServeDecided(req, room);
        ghost var decision := OnRequest(LineOf(before.lines, req.tag), req, p);
        if !wasPending && !r.Stopped? { ServedChanges(before, req, room, decision); }
      }
    }

    /** DIRREQ from the coherence decision on. */
    method ServeDecided(req: Req, room: bool) returns (r: CaseResult)
      requires Valid() && !IsWriteback(req)
      requires wasPending ==> ready != [] && ready[0] == req
      modifies this
      ensures wasPending == old(wasPending)
      ensures Follows(Served(old(Value()), req, wasPending, room, OnRequest(LineOf(old(lines), req.tag), req, p)), r)
      ensures !r.NotTaken?
      ensures SafeEnd(r)
    {
      ghost var before := Value();
      var c := CoheRtn(req);
      DecisionKeepsTag(LineOf(before.lines, req.tag), req, p);
      r := CarryOutDecision(c, req, room, before);
    }

    /** What Dir_Cohe has already done to the object: replaced the line, and
        charged the buffer of a request that awaits a write-back. */
    ghost predicate Decided(c: CoheResult, req: Req, before: Dir)
      reads this
    {
      && Valid() && c.req.tag == req.tag && !IsWriteback(c.req) && (wasPending ==> ready != [])
      && Value() == before.(lines := before.lines[req.tag := c.line],
                            bufTot := before.bufTot + (if c.out == WaitForWrb && !wasPending then 1 else 0))
    }

    method CarryOutDecision(c: CoheResult, req: Req, room: bool, ghost before: Dir) returns (r: CaseResult)
      requires Decided(c, req, before)
      modifies this
      ensures wasPending == old(wasPending)
      ensures Follows(Served(before, req, wasPending, room, CarryOut(c, p)), r)
      ensures !r.NotTaken?
      ensures SafeEnd(r)
    {
      match c.out {
        case Failed(e) => return Stopped(e);
        case WaitPend => r := Park(c, req, room, before);
        case WaitForWrb =>
          CommitReq();
          r := Nothing;
        case WaitCnt => r := Round(c, req, room, before);
        case ForwardRequest => r := ForwardOn(c, req, room, before);
        case _ =>
          r := AnswerAtOnce(c.req, room);
          assert before.lines[req.tag := c.line][req.tag := c.line.(extra := None)] ==
                 before.lines[req.tag := c.line.(extra := None)];
      }
    }

    /** The line is pending: into the pending buffer. */
    method Park(c: CoheResult, req: Req, room: bool, ghost before: Dir) returns (r: CaseResult)
      requires Decided(c, req, before) && c.out == WaitPend
      modifies this`pending, this`ready, this`bufszRdy, this`bufTot
      ensures Follows(Served(before, req, wasPending, room, CarryOut(c, p)), r)
      ensures !r.NotTaken?
    {
      CommitReq();
      var ok := AddBuf(req);
      r := if ok then Nothing else Stopped(BufferFull);
    }

    method Round(c: CoheResult, req: Req, room: bool, ghost before: Dir) returns (r: CaseResult)
      requires Decided(c, req, before) && c.out == WaitCnt
      modifies this`lines, this`ready, this`bufszRdy, this`bufTot, this`reqPartial
      ensures Follows(Served(before, req, wasPending, room, CarryOut(c, p)), r)
      ensures !r.NotTaken?
    {
      if c.extra.None? { return Stopped(UninitialisedExtra); }
      BeginRound(c.req, c.extra.value);
      assert lines == before.lines[req.tag := lines[req.tag]];
      r := Nothing;
    }

    method ForwardOn(c: CoheResult, req: Req, room: bool, ghost before: Dir) returns (r: CaseResult)
      requires Decided(c, req, before) && c.out == ForwardRequest
      modifies this`lines, this`ready, this`bufszRdy, this`bufTot, this`reqPartial
      ensures Follows(Served(before, req, wasPending, room, CarryOut(c, p)), r)
      ensures !r.NotTaken?
    {
      if c.extra.None? || c.extra.value.nodeAry == [] { return Stopped(UninitialisedExtra); }
      var _ := BeginForward(c.req, c.extra.value);
      assert lines == before.lines[req.tag := lines[req.tag]];
      r := Nothing;
    }

    /** DIRSENDCOHE: send the forward, or the next invalidation of the partial
        request, if its port has `room`. */
    method SendCohe(room: bool, id: Id) returns (r: CaseResult)
      requires Valid() && reqPartial.Some?
      modifies this`lines, this`reqPartial
      ensures Follows(SendPartial(old(Value()), room, id, p), r)
    {
      var req := reqPartial.value;
      if req.msgType == MsgType.Cohe {
        if !room { return Nothing; }
        reqPartial := None;
        return Sent(req);
      }
      var line := if req.tag in lines then lines[req.tag] else FRESH_LINE;
      if line.extra.None? || !(0 < line.extra.value.numLeft <= |line.extra.value.nodeAry|) {
        return Stopped(NoCoheLeft);
      }
      var x := line.extra.value;
      x := x.(numLeft := x.numLeft - 1);
      var req1 := Req(id, req.tag, x.nextReqType, p.home, x.nodeAry[x.numLeft], None, MsgType.Cohe, NoAck, false);
      if !room { return Nothing; }
      lines := lines[req.tag := line.(extra := Some(x))];
      if x.numLeft == 0 {
        reqPartial := None;
      }
      r := Sent(req1);
    }

    /** Send an answer that holds a buffer and free the buffer, or queue it. */
    method SendOrQueue(answer: Req, room: bool) returns (r: CaseResult)
      requires Valid()
      modifies this`outbound, this`outboundSz, this`bufTot
      ensures Follows(Deliver(old(Value()), answer, room), r)
    {
      if !room {
        outboundSz := outboundSz + 1;
        outbound := outbound + [answer];
        return Nothing;
      }
      bufTot := bufTot - 1;
      r := Sent(answer);
    }

    /** DIRCOHEREP, an acceptable reply: count it, and finish the transaction
        with the last one. */
    method CountReply(req: Req, room: bool) returns (r: CaseResult)
      requires Valid() && req.tag in lines && lines[req.tag].extra.Some?
      modifies this`lines, this`pending, this`ready, this`outbound, this`bufTot, this`bufszRdy, this`outboundSz
      ensures Follows(Absorbed(old(Value()), req.tag, room,
              Collect(old(lines)[req.tag], old(lines)[req.tag].extra.value, req)), r)
    {
      var line := lines[req.tag];
      var x := line.extra.value;
      if req.forwardTo.Some? && x.retSt != RetAckReply { return Stopped(ForwardNotAckReply); }
      x := x.(counter := x.counter - 1);
      if x.counter != 0 {
        lines := lines[req.tag := line.(extra := Some(x))];
        return Nothing;
      }
      if x.retSt == RetOther { return Stopped(UnknownReturnState); }
      if x.retSt == RetAckReply && req.id == x.pendReq.id { return Stopped(ForwardNeitherSatisfiedNorNacked); }
      CheckBuf(req.tag);
      lines := lines[req.tag := line.(pend := false, extra := None)];
      if x.retSt == RetAckReply {
        bufTot := bufTot - 1;
        return Nothing;
      }
      r := SendOrQueue(x.pendReq.(reply := Positive, msgType := Reply), room);
    }

    /** DIRCOHEREP, a forward that failed after the owner's write-back: turn the
        message back into the request it was and serve it again. */
    method ProcessAgain(req0: Req, room: bool) returns (r: CaseResult)
      requires Valid() && req0.tag in lines && lines[req0.tag].extra.Some?
      modifies this`lines, this`pending, this`ready, this`outbound, this`bufTot, this`bufszRdy, this`outboundSz
      ensures var line := old(lines)[req0.tag];
              Follows(Absorbed(old(Value()), req0.tag, room,
                               StartOver(line.(extra := Some(line.extra.value.(wasHere := None))), req0)), r)
    {
      var req := req0;
      if req.forwardTo.None? { return Stopped(NackWithoutForward); }
      var fixedReq := FixForward(req);
      if fixedReq.None? { return Stopped(UnknownForwardType); }
      req := fixedReq.value.(reply := NoAck, msgType := Request);
      lines := lines[req0.tag := lines[req0.tag].(pend := false, extra := None)];
      bufszRdy := bufszRdy + 1;
      ready := ready + [req];
      CheckBuf(req0.tag);
      r := Nothing;
    }

    /** FixForwardRARs, with the source restored from forward_to. */
    method FixForward(req: Req) returns (r: Option<Req>)
      ensures r == Unforward(req)
    {
      if req.forwardTo.None? { return None; }
      var back := req.(src := req.forwardTo.value);
      back := back.(forwardTo := None);
      match req.reqType {
        case Copyback => back := back.(reqType := ReadSh);
        case CopybackShdy => back := back.(reqType := ReadSh);
        case CopybackInvl => back := back.(reqType := ReadOwn);
        case _ => return None;
      }
      r := Some(back);
    }

    /** DIRCOHEREP, a forward that failed with no write-back seen: restore the
        owner and have the requester retry. */
    method RetryForward(req0: Req, room: bool) returns (r: CaseResult)
      requires Valid() && req0.tag in lines && lines[req0.tag].extra.Some?
      modifies this`lines, this`pending, this`ready, this`outbound, this`bufTot, this`bufszRdy, this`outboundSz
      ensures var line := old(lines)[req0.tag];
              Follows(Absorbed(old(Value()), req0.tag, room, ForceRetry(line, line.extra.value, req0, p)), r)
    {
      var line := lines[req0.tag];
      if req0.id != line.extra.value.pendReq.id { return Stopped(NackNotPendReq); }
      var req := req0.(reply := Rar, msgType := Reply);
      if req0.src >= p.numNodes { return Stopped(InvalidNode); }
      line := line.(sharers := {req0.src});
      line := line.(state := DirPrivate);
      if req.forwardTo.Some? {
        var fixedReq := FixForward(req);
        if fixedReq.None? { return Stopped(UnknownForwardType); }
        req := fixedReq.value;
      }
      line := line.(pend := false);
      CheckBuf(req0.tag);
      lines := lines[req0.tag := line.(extra := None)];
      r := SendOrQueue(req, room);
    }

    /** DIRCOHEREP, a postponed forward: send it to the owner again. */
    method ResendForward(req: Req, room: bool) returns (r: CaseResult)
      requires Valid() && req.tag in lines
      modifies this`outbound, this`outboundSz
      ensures var cohe := req.(msgType := MsgType.Cohe, src := req.dest, dest := req.src);
              Follows(Absorbed(old(Value()), req.tag, room, ReplyStep(old(lines)[req.tag], Resend(cohe))), r)
    {
      var cohe := req.(msgType := MsgType.Cohe);
      var temp := cohe.src;
      cohe := cohe.(src := cohe.dest);
      cohe := cohe.(dest := temp);
      assert lines[req.tag := lines[req.tag]] == lines;
      if !room {
        outboundSz := outboundSz + 1;
        outbound := outbound + [cohe];
        return Nothing;
      }
      r := Sent(cohe);
    }

    /** DIRCOHEREP. */
    method TakeCoheReply(req: Req, room: bool) returns (r: CaseResult)
      requires Valid() && req.tag in lines
      modifies this`lines, this`pending, this`ready, this`outbound, this`bufTot, this`bufszRdy, this`outboundSz
      ensures Follows(AbsorbReply(old(Value()), req, room, p), r)
      ensures SafeEnd(r) && !r.LeftBehind?
    {
      var line := lines[req.tag];
      if line.extra.None? { return Stopped(if req.reply == Nack then NackWithoutExtra else UnexpectedCoheReply); }
      var x := line.extra.value;
      if x.counter == 0 && req.reply != Nack { return Stopped(UnexpectedCoheReply); }
      match req.reply {
        case Positive => r := CountReply(req, room);
        case Nack =>
          if x.nackSt == NackOk { r := CountReply(req, room); }
          else if x.wasHere == Some(req.src) { r := ProcessAgain(req, room); }
          else { r := RetryForward(req, room); }
        case NackPend =>
          if x.nackSt != NackNok { return Stopped(NackPendOnNackOk); }
          if x.wasHere == Some(req.src) { r := ProcessAgain(req, room); }
          else { r := ResendForward(req, room); }
        case _ => return Stopped(UnknownReplyType);
      }
    }

    /** DIRWRB. */
    method TakeWrb(req: Req) returns (r: CaseResult)
      requires Valid() && IsWriteback(req) && !wasPending
      modifies this`lines, this`pending, this`ready, this`outbound, this`bufTot, this`bufszRdy, this`outboundSz
      ensures Follows(AbsorbWriteback(old(Value()), req, p), r)
      ensures SafeEnd(r) && !r.LeftBehind?
    {
      ghost var before := Value();
      var c := CoheRtn(req);
      WritebackDecision(LineOf(before.lines, req.tag), req, p);
      r := WrbDecided(c, req, before);
    }

    /** DIRWRB once Dir_Cohe has taken note of the write-back. */
    method WrbDecided(c: CoheResult, req: Req, ghost before: Dir) returns (r: CaseResult)
      requires Valid() && c.out != WaitForWrb
      requires c.woken.Some? ==> c.line.extra.Some? && c.line.extra.value.waiting
      requires Value() == before.(lines := before.lines[req.tag := c.line],
                                  ready := before.ready + (if c.woken.Some? then [c.woken.value] else []))
      modifies this`lines, this`pending, this`ready, this`outbound, this`bufTot, this`bufszRdy, this`outboundSz
      ensures Follows(WrittenBack(before, req.tag, WbDecision(c, req)), r)
    {
      if c.out.Failed? { return Stopped(c.out.error); }
      var line := lines[req.tag];
      if line.extra.Some? {
        var x := line.extra.value;
        if x.pendReq.id == req.id { return Stopped(WritebackIsPendReq); }
        if x.waiting {
          lines := lines[req.tag := line.(pend := false, extra := None)];
          CheckBuf(req.tag);
        }
      } else {
        lines := lines[req.tag := line.(pend := false)];
        CheckBuf(req.tag);
      }
      r := Nothing;
    }

    /** DIRSTART and DIROUTBOUND: the head of the outbound queue goes out, or
        is recycled for lack of `room`. */
    method TrySendOutbound(room: bool) returns (r: CaseResult)
      requires Valid() && outbound != []
      modifies this`outbound, this`outboundSz, this`bufTot
      ensures Follows(SendOutbound(old(Value()), room), r)
    {
      var req := outbound[0];
      outbound := outbound[1..];
      if !room {
        outbound := outbound + [req];
        return Nothing;
      }
      outboundSz := outboundSz - 1;
      if req.msgType == Reply && (req.reply == Positive || req.reply == Rar) {
        bufTot := bufTot - 1;
      }
      r := Sent(req);
    }
  }

  lemma WritebackDecision(line: Line, req: Req, p: Params)
    requires IsWriteback(req)
    ensures var c := DirCohe(line, req, p);
            && c.out != WaitForWrb && OnWriteback(line, req, p) == WbDecision(c, req)
            && (c.woken.Some? ==> c.line.extra.Some? && c.line.extra.value.waiting)
  {}

  /** A request keeps its tag through the decision, and wakes nothing. */
  ghost predicate KeepsTag(req: Req, c: CoheResult) {
    c.req.tag == req.tag && c.woken.None? && !IsWriteback(c.req)
  }

  lemma ReadKeepsTag(line: Line, req: Req, p: Params)
    requires !IsWriteback(req)
    ensures KeepsTag(req, CoheReadSh(line, req, p))
  {
    hide OthersBelow;
  }

  lemma OwnKeepsTag(line: Line, req: Req, p: Params)
    requires !IsWriteback(req)
    ensures KeepsTag(req, CoheReadOwn(line, req, p)) && KeepsTag(req, CoheUpgrade(line, req, p))
  {
    hide OthersBelow;
  }

  lemma DecisionKeepsTag(line: Line, req: Req, p: Params)
    requires !IsWriteback(req)
    ensures KeepsTag(req, DirCohe(line, req, p))
  {
    hide CoheReadSh, CoheReadOwn, CoheUpgrade;
    ReadKeepsTag(line, req, p);
    OwnKeepsTag(line, req, p);
  }
}
