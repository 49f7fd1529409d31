/** The body of the directory's event as the simulator runs it: the loop of
    DirSim over its cases, proved against DirScan. */
module DirEvent {
  import opened Common
  import opened DirTypes
  import opened DirMachine
  import opened DirModule
  import opened DirScan

  class DirActivity {
    const dir: Directory
    var nextPort: nat
    var inPorts: seq<seq<Req>>

    ghost predicate Valid()
      reads this, dir
    {
      dir.Valid() && 2 <= |inPorts| && nextPort < |inPorts| && RequestsAtPortZero(inPorts)
    }

    ghost function State(): Activity
      reads this, dir
    {
      Activity(dir.Value(), inPorts, nextPort, dir.wasPending)
    }

    /** The object is in the state `r` an activation ends in; at a fatal error
        nothing is promised. */
    ghost predicate IsAt(r: Result)
      reads this, dir
    {
      !r.wake.Crashed? && r.wake != UnknownMessage ==>
        && Valid() && dir.Value() == r.d && inPorts == r.ports && nextPort == r.port
        && (r.wake == After(DirServ) ==> dir.wasPending == PicksReady(r))
    }

    constructor (dir: Directory, numPorts: nat)
      requires dir.Valid() && 2 <= numPorts
      ensures Valid() && this.dir == dir
      ensures nextPort == 0 && |inPorts| == numPorts && forall k :: 0 <= k < numPorts ==> inPorts[k] == []
    {
      this.dir := dir;
      nextPort := 0;
      inPorts := seq(numPorts, _ => []);
    }

    method NextPort()
      requires nextPort < |inPorts|
      modifies this`nextPort
      ensures nextPort == Next(old(nextPort), |inPorts|)
    {
      nextPort := nextPort + 1;
      if nextPort == |inPorts| {
        nextPort := 0;
      }
    }

    /** What DIRSTART finds for the port whose turn it is. */
    method Pick() returns (found: bool, partial: bool)
      requires Valid()
      modifies dir`wasPending
      ensures Valid() && dir.Value() == old(dir.Value())
      ensures partial == (nextPort == 0 && dir.reqPartial.Some?)
      ensures found <==> !partial && (inPorts[nextPort] != [] || (nextPort == 0 && dir.ready != []))
      ensures dir.wasPending == (found && nextPort == 0 && dir.ready != [])
    {
      dir.wasPending := false;
      found, partial := false, false;
      if nextPort != 0 {
        found := inPorts[nextPort] != [];
      } else if dir.reqPartial.Some? {
        partial := true;
      } else if dir.bufszRdy != 0 {
        found := true;
        dir.wasPending := true;
      } else {
        found := inPorts[nextPort] != [];
      }
    }

    /** How the activation goes to sleep. */
    method Sleep() returns (wake: Wake)
      requires dir.Valid()
      ensures wake == SleepOf(dir.Value())
    {
      if dir.bufszRdy != 0 { return After(DirStart); }
      if dir.reqPartial.Some? || dir.outboundSz != 0 { return OnQueueEvent; }
      wake := OnInput;
    }

    /** DIRSERV and the case it dispatches to; a message of no known type, or a
        coherence reply without its line, is fatal. */
    method Dispatch(req: Req, room: bool) returns (r: CaseResult, known: bool)
      requires Valid() && Picked(State()) && req == PickedReq(State())
      modifies dir
      ensures dir.wasPending == old(dir.wasPending)
      ensures var o := Service(old(State()), room, dir.p);
              && (known <==> o.Some?)
              && (known ==> dir.Follows(o.value, r) && dir.SafeEnd(r))
              && (known && req.msgType == Request && !dir.wasPending ==>
                  (r.NotTaken? <==> o.value == Unchanged(old(dir.Value()))))
              && (known && req.msgType != Request ==> !r.LeftBehind?)
    {
      if req.msgType == Request {
        r := dir.ServeRequest(req, room);
        known := true;
      } else if req.msgType == CoheReply && req.tag in dir.lines {
        if IsWriteback(req) { r := dir.TakeWrb(req); } else { r := dir.TakeCoheReply(req, room); }
        known := true;
      } else {
        return NotTaken, false;
      }
    }

    /** The message picked last time is served and leaves its port when it is
        taken. */
    method Serve(room: bool) returns (r: CaseResult, known: bool)
      requires Valid() && Picked(State())
      modifies this`inPorts, dir
      ensures var a := old(State());
              var o := Service(a, room, dir.p);
              && (known <==> o.Some?)
              && (known && o.value.DirFatal? ==> r == Stopped(o.value.error))
              && (known && o.value.Done? ==>
                    !r.Stopped? && Valid() && dir.Value() == o.value.dir && inPorts == PortsAfter(a, o.value))
    {
      var req := if dir.wasPending then dir.ready[0] else inPorts[nextPort][0];
      ghost var a := State();
      r, known := Dispatch(req, room);
      if known && !r.Stopped? && !dir.wasPending && !(req.msgType == Request && r.NotTaken?) {
        var rest := inPorts[nextPort][1..];
        inPorts := inPorts[nextPort := if r.LeftBehind? then [r.req] + rest else rest];
      }
    }

    /** One activation, with positive delays; `room` answers the tests of the
        output ports in turn. */
    method DirSim(entry: DirCase, room: nat -> bool, id: nat -> Id) returns (wake: Wake)
      requires Valid() && Enterable(entry, State())
      modifies this, dir
      ensures var r := Activation(entry, old(State()), Tests(room, id), dir.p);
              wake == r.wake && IsAt(r)
    {
      ghost var t := Tests(room, id);
      ghost var a := State();
      if entry == DirServ {
        var r, known := Serve(room(0));
        if !known { return UnknownMessage; }
        if r.Stopped? { return Crashed(r.error); }
        if nextPort == 0 && dir.reqPartial.Some? { return After(DirSendCohe); }
        NextPort();
        assert Look(DirStart, dir.Value(), nextPort, true, 0, 1) == AfterService(a, Service(a, room(0), dir.p).value);
        wake := Scan(DirStart, true, room, id);
      } else {
        wake := Scan(entry, entry != DirStart, room, id);
      }
    }

    /** The object is where the turn has led: to the values `s`, or, when the
        activation has ended in `done`, to the end of the turn. */
    ghost predicate Took(turn: Turn, s: Look, done: Option<Wake>)
      reads this, dir
    {
      match done
      case None => turn == Goes(s) && Valid() && dir.Value() == s.d && nextPort == s.port
      case Some(w) => turn.Ends? && w == turn.e.wake && IsAt(Result(w, turn.e.d, inPorts, turn.e.port))
    }

    /** DIRSENDCOHE. */
    method SendCase(tick: nat, room: nat -> bool, id: nat -> Id, ghost s: Look) returns (done: Option<Wake>)
      requires Valid() && Sane(s, |inPorts|) && s.c == DirSendCohe && s.d == dir.Value() && s.port == nextPort
      requires s.tick == tick
      modifies dir`lines, dir`reqPartial
      ensures var s' := s.(c := DirStartOver, d := dir.Value(), tick := s.tick + 1);
              Took(SendTurn(s, Tests(room, id), dir.p), s', done)
    {
      hide SendPartial;
      var r := dir.SendCohe(room(tick), id(tick));
      if r.Stopped? { return Some(Crashed(r.error)); }
      if r.Sent? && dir.reqPartial.Some? { return Some(After(DirSendCohe)); }
      done := None;
    }

    /** DIRSTART: one look at the outbound queue, then the port whose turn it
        is. */
    method StartCase(checked: bool, count: nat, tick: nat, room: nat -> bool, ghost t: Tests, ghost s: Look)
      returns (done: Option<Wake>, c: DirCase, checked': bool, count': nat, tick': nat)
      requires Valid() && Sane(s, |inPorts|) && s == Look(DirStart, dir.Value(), nextPort, checked, count, tick)
      requires t.room == room
      modifies this`nextPort, dir
      ensures Took(StartTurn(s, inPorts, t), Look(c, dir.Value(), nextPort, checked', count', tick'), done)
    {
      done, c, checked', count', tick' := None, DirStart, checked, count, tick;
      if dir.outboundSz != 0 && !checked {
        var _ := dir.TrySendOutbound(room(tick));
        checked', tick' := true, tick + 1;
        return;
      }
      var found, partial := Pick();
      if partial {
        c := DirSendCohe;
      } else if found {
        done := Some(After(DirServ));
      } else {
        NextPort();
        count' := count + 1;
        if count' == |inPorts| {
          var wake := Sleep();
          done := Some(wake);
        }
      }
    }

    /** The loop of DirSim from DIRSTART or DIRSENDCOHE on. */
    method Scan(entry: DirCase, checked: bool, room: nat -> bool, id: nat -> Id) returns (wake: Wake)
      requires Valid() && Sane(Look(entry, dir.Value(), nextPort, checked, 0, 1), |inPorts|)
      modifies this`nextPort, dir
      ensures var s := Look(entry, old(dir.Value()), old(nextPort), checked, 0, 1);
              var r := ScanFrom(s, inPorts, Tests(room, id), dir.p);
              wake == r.wake && IsAt(r)
    {
      hide StartTurn, SendTurn, Unsent, Rank;
      ghost var t := Tests(room, id);
      var caseNum, checkedOutbound := entry, checked;
      var loopCount, tick := 0, 1;
      ghost var s := Look(entry, dir.Value(), nextPort, checked, 0, 1);
      ghost var end := ScanEnd(s, inPorts, t, dir.p);
      while true
        invariant Valid() && s == Look(caseNum, dir.Value(), nextPort, checkedOutbound, loopCount, tick)
        invariant Sane(s, |inPorts|) && ScanEnd(s, inPorts, t, dir.p) == end
        decreases Unsent(s.d), !s.checked, |inPorts| - s.count, Rank(s)
      {
        ghost var turn := TurnOf(s, inPorts, t, dir.p);
        if turn.Goes? { TurnShrinks(s, inPorts, t, dir.p); }
        var done: Option<Wake> := None;
        if caseNum == DirStartOver {
          NextPort();
          caseNum := DirStart;
        } else if caseNum == DirSendCohe {
          done := SendCase(tick, room, id, s);
          caseNum, tick := DirStartOver, tick + 1;
        } else {
          done, caseNum, checkedOutbound, loopCount, tick := StartCase(checkedOutbound, loopCount, tick, room, t, s);
        }
        if done.Some? { return done.value; }
        s := turn.s;
      }
    }
  }
}
