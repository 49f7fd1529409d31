/** The activations of the directory's event are runs of the system: what the
    loop does at the output ports and with the message it serves are events
    that can happen, in the order in which the ports are asked. */
module DirPaths {
  import opened Common
  import opened DirTypes
  import opened LineSpec
  import opened LineProtocol
  import opened DirMachine
  import opened DirSystem
  import opened DirTags
  import opened DirRuns
  import opened DirScan

  /** The events `evs` happen one after the other and lead from s to s'. */
  ghost predicate IsPath(s: Sys, evs: seq<SysEvent>, s': Sys, p: Params)
    decreases |evs|
  {
    if evs == [] then s' == s
    else
      && SysEnabled(s, evs[0], p) && SysStep(s, evs[0], p).Running?
      && IsPath(SysStep(s, evs[0], p).sys, evs[1..], s', p)
  }

  lemma FirstStep(s: Sys, ev: SysEvent, rest: seq<SysEvent>, s': Sys, p: Params)
    requires SysEnabled(s, ev, p) && SysStep(s, ev, p).Running? && IsPath(SysStep(s, ev, p).sys, rest, s', p)
    ensures IsPath(s, [ev] + rest, s', p)
  {
    assert ([ev] + rest)[1..] == rest;
  }

  /** A look at the outbound queue first, if any, and then attempts to send for
      the partial request, with the answers of the ports in turn. */
  ghost predicate PortEvents(evs: seq<SysEvent>, checked: bool, tick: nat, t: Tests) {
    forall i :: 0 <= i < |evs| ==>
      if i == 0 && !checked && evs[0].OutboundOut? then evs[0].room == t.room(tick)
      else evs[i] == SendCohe(t.room(tick + i), t.id(tick + i))
  }

  lemma OneMore(ev: SysEvent, rest: seq<SysEvent>, checked: bool, tick: nat, t: Tests)
    requires PortEvents(rest, true, tick + 1, t)
    requires ev == SendCohe(t.room(tick), t.id(tick)) || (!checked && ev == OutboundOut(t.room(tick)))
    ensures PortEvents([ev] + rest, checked, tick, t)
  {}

  /** In a state the system can be in, the loop is a path of such events, and
      ends at no error site. */
  lemma {:induction false} ScanIsPath(k: Look, ports: Ports, t: Tests, s: Sys, p: Params)
    returns (evs: seq<SysEvent>, s': Sys)
    requires Sane(k, |ports|) && 2 <= |ports| && SysInv(s, p) && s.dir == k.d && forall i: nat :: t.id(i).Allocated?
    requires k.c == DirStart || k.checked || k.d.outbound == []
    ensures IsPath(s, evs, s', p) && SysInv(s', p) && s'.dir == ScanEnd(k, ports, t, p).d
    ensures PortEvents(evs, k.checked || k.d.outbound == [], k.tick, t) && !ScanEnd(k, ports, t, p).wake.Crashed?
    decreases Unsent(k.d), !k.checked, |ports| - k.count, Rank(k)
  {
    hide SysInv, SysEnabled, SysStep, SendOutbound, SendPartial, IsPath, PortEvents, Unsent, Rank;
    var r := TurnOf(k, ports, t, p);
    if r.Goes? { TurnShrinks(k, ports, t, p); }
    EmptyPath(s, k.tick, t, p);
    if k.c == DirSendCohe {
      var ev := SendCohe(t.room(k.tick), t.id(k.tick));
      SendHappens(s, k, t, p);
      evs, s' := [ev], SysStep(s, ev, p).sys;
      if r.Goes? {
        evs, s' := ScanIsPath(r.s, ports, t, s', p);
        FirstStep(s, ev, evs, s', p);
        OneMore(ev, evs, true, k.tick, t);
        evs := [ev] + evs;
      } else {
        EmptyPath(s', k.tick + 1, t, p);
        FirstStep(s, ev, [], s', p);
        OneMore(ev, [], true, k.tick, t);
        assert evs == [ev] + [];
      }
    } else if k.c == DirStart && k.d.outbound != [] && !k.checked {
      var ev := OutboundOut(t.room(k.tick));
      LookHappens(s, k, t, p);
      evs, s' := ScanIsPath(r.s, ports, t, SysStep(s, ev, p).sys, p);
      FirstStep(s, ev, evs, s', p);
      OneMore(ev, evs, false, k.tick, t);
      evs := [ev] + evs;
    } else if r.Goes? {
      evs, s' := ScanIsPath(r.s, ports, t, s, p);
    } else {
      evs, s' := [], s;
    }
  }

  lemma SendHappens(s: Sys, k: Look, t: Tests, p: Params)
    requires SysInv(s, p) && s.dir == k.d && k.d.partial.Some? && t.id(k.tick).Allocated?
    ensures var ev := SendCohe(t.room(k.tick), t.id(k.tick));
            && SysEnabled(s, ev, p) && SysStep(s, ev, p).Running? && SysInv(SysStep(s, ev, p).sys, p)
            && SendPartial(k.d, ev.room, ev.id, p).Done?
            && SysStep(s, ev, p).sys.dir == SendPartial(k.d, ev.room, ev.id, p).dir
            && SendPartial(k.d, ev.room, ev.id, p).dir.outbound == k.d.outbound
  {
    hide SysInv, SysStep, Steps, View, LineEvents;
    var ev := SendCohe(t.room(k.tick), t.id(k.tick));
    SysStepKeepsInv(s, ev, p);
    StepProjects(s, ev, p);
  }

  lemma LookHappens(s: Sys, k: Look, t: Tests, p: Params)
    requires SysInv(s, p) && s.dir == k.d && k.d.outbound != []
    ensures var ev := OutboundOut(t.room(k.tick));
            && SysEnabled(s, ev, p) && SysStep(s, ev, p).Running? && SysInv(SysStep(s, ev, p).sys, p)
            && SendOutbound(k.d, ev.room).Done? && SysStep(s, ev, p).sys.dir == SendOutbound(k.d, ev.room).dir
  {
    hide SysInv, SysStep, Steps, View, LineEvents;
    var ev := OutboundOut(t.room(k.tick));
    SysStepKeepsInv(s, ev, p);
    StepProjects(s, ev, p);
  }

  // ---------- the message served ----------

  /** What serving the message picked is for the system. */
  function ServiceEvent(a: Activity, room: bool): SysEvent
    requires Picked(a)
  {
    var m := PickedReq(a);
    if m.msgType == Request then (if a.wasPending then Reprocess(room) else NewRequest(m, room))
    else if IsWriteback(m) then WritebackIn(m)
    else ReplyIn(m, room)
  }

  /** The event can happen as far as the directory is concerned: a new request
      is picked only with nothing partial and nothing ready, a ready one only
      with nothing partial. */
  lemma PickIsAllowed(entry: DirCase, a: Activity, t: Tests, s: Sys, p: Params)
    requires Enterable(entry, a) && Activation(entry, a, t, p).wake == After(DirServ)
    requires s.dir == Activation(entry, a, t, p).d
    ensures var r := Activation(entry, a, t, p);
            if PicksReady(r) then SysEnabled(s, Reprocess(t.room(0)), p)
            else r.port < |r.ports| && r.ports[r.port] != []
                 && (r.port == 0 ==> s.dir.partial.None? && s.dir.ready == [])
  {
    hide Activation;
    ActivationEndsWell(entry, a, t, p);
  }

  lemma ServiceHappens(a: Activity, t: Tests, s: Sys, p: Params)
    requires SysInv(s, p) && s.dir == a.d && Picked(a) && Service(a, t.room(0), p).Some?
    requires SysEnabled(s, ServiceEvent(a, t.room(0)), p)
    ensures var ev, o := ServiceEvent(a, t.room(0)), Service(a, t.room(0), p).value;
            if Unserved(s, ev) then o == DirFatal(UnknownRequestType)
            else
              && o.Done? && SysStep(s, ev, p).Running? && SysInv(SysStep(s, ev, p).sys, p)
              && SysStep(s, ev, p).sys.dir == o.dir
  {
    hide SysInv, SysStep, SysEnabled, Unserved, Roomless, DirPart, Service, ServiceEvent, Steps, View, LineEvents;
    var ev := ServiceEvent(a, t.room(0));
    SysStepKeepsInv(s, ev, p);
    ServiceIsPart(a, t, s, p);
    if Unserved(s, ev) {
      UnservedFails(s, ev, p);
    } else {
      StepProjects(s, ev, p);
    }
  }

  lemma ServiceIsPart(a: Activity, t: Tests, s: Sys, p: Params)
    requires s.dir == a.d && Picked(a) && Service(a, t.room(0), p).Some?
    requires SysEnabled(s, ServiceEvent(a, t.room(0)), p)
    ensures DirPart(s, ServiceEvent(a, t.room(0)), p) == Service(a, t.room(0), p).value
  {
    hide Serve, AbsorbReply, AbsorbWriteback;
  }

  lemma UnservedFails(s: Sys, ev: SysEvent, p: Params)
    requires SysInv(s, p) && SysEnabled(s, ev, p) && Unserved(s, ev)
    ensures DirPart(s, ev, p) == DirFatal(UnknownRequestType)
  {
    hide SysInv, SysEnabled;
    EventServable(s, ev, p);
    var req := if ev.NewRequest? then ev.req else s.dir.ready[0];
    NotWritebacks(s, req, ev.Reprocess?, p);
    OutOfPlace(s.dir, req, ev.Reprocess?, ev.room, p);
  }

  /** Every activation that begins in a state the system can be in, with a
      message the system can deliver, is a path of the system to the state it
      ends in: the service first, if any, and then the events at the output
      ports. It fails only by serving a request left under the type of its
      answer to a line at rest. */
  lemma {:induction false} ActivationIsPath(entry: DirCase, a: Activity, t: Tests, s: Sys, p: Params)
    returns (evs: seq<SysEvent>, s': Sys)
    requires Enterable(entry, a) && SysInv(s, p) && s.dir == a.d && forall i: nat :: t.id(i).Allocated?
    requires entry == DirServ ==> Service(a, t.room(0), p).Some? && SysEnabled(s, ServiceEvent(a, t.room(0)), p)
    ensures var r := Activation(entry, a, t, p);
            if entry == DirServ && Unserved(s, ServiceEvent(a, t.room(0))) then r.wake == Crashed(UnknownRequestType)
            else
              && !r.wake.Crashed? && IsPath(s, evs, s', p) && SysInv(s', p) && s'.dir == r.d
              && if entry == DirServ
                 then evs != [] && evs[0] == ServiceEvent(a, t.room(0)) && PortEvents(evs[1..], true, 1, t)
                 else PortEvents(evs, entry != DirStart, 1, t)
  {
    hide SysInv, SysEnabled, SysStep, Serve, AbsorbReply, AbsorbWriteback, Unserved, PortEvents, IsPath;
    if entry != DirServ {
      evs, s' := ScanIsPath(Look(entry, a.d, a.port, entry != DirStart, 0, 1), a.ports, t, s, p);
      LessChecked(evs, a.d.outbound == [], entry != DirStart, 1, t);
    } else {
      var ev, o := ServiceEvent(a, t.room(0)), Service(a, t.room(0), p).value;
      ServiceHappens(a, t, s, p);
      evs, s' := [], s;
      if !Unserved(s, ev) {
        s' := SysStep(s, ev, p).sys;
        EmptyPath(s', 1, t, p);
        if !(a.port == 0 && o.dir.partial.Some?) {
          evs, s' := ScanIsPath(AfterService(a, o), PortsAfter(a, o), t, s', p);
        }
        FirstStep(s, ev, evs, s', p);
        assert ([ev] + evs)[1..] == evs;
        evs := [ev] + evs;
      }
    }
  }

  lemma EmptyPath(s: Sys, tick: nat, t: Tests, p: Params)
    ensures IsPath(s, [], s, p) && PortEvents([], true, tick, t) && PortEvents([], false, tick, t)
  {}

  lemma LessChecked(evs: seq<SysEvent>, nothing: bool, checked: bool, tick: nat, t: Tests)
    requires PortEvents(evs, checked || nothing, tick, t)
    ensures PortEvents(evs, checked, tick, t)
  {}
}
