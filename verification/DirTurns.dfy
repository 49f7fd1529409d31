/** The input ports have their turns: one activation after the other, whatever
    arrives in between. */
module DirTurns {
  import opened Common
  import opened DirTypes
  import opened LineSpec
  import opened DirMachine
  import opened DirScan

  // ---------- one activation ----------

  /** How far port k is from the turn at `port`, round the n ports. */
  function Gap(port: nat, k: nat, n: nat): nat
    requires port < n && k < n
  {
    if port <= k then k - port else k + n - port
  }

  /** What is served next is no further round than port k, which is not empty. */
  ghost predicate Reaches(e: End, k: nat, n: nat, gap: nat)
    requires k < n
  {
    match e.wake
    case Crashed(_) => true
    case After(DirSendCohe) => e.port == 0 && k <= gap
    case After(DirServ) => e.port < n && Gap(e.port, k, n) <= gap
    case _ => false
  }

  /** From the request port, with a partial request or without one. */
  lemma ReachesFromZero(s: Look, k: nat, ports: Ports, t: Tests, p: Params)
    requires 2 <= |ports| && Sane(s, |ports|) && (s.checked || s.d.outbound == []) && s.port == 0 && s.c != DirStartOver
    requires 1 <= k < |ports| && ports[k] != [] && s.count + k < |ports|
    ensures var e := ScanEnd(s, ports, t, p);
            Reaches(e, k, |ports|, k) && (s.d.partial.Some? && e.wake == After(DirServ) ==> 1 <= e.port <= k)
  {
    if s.d.partial.Some? {
      AttemptEnds(s, ports, t, p);
      var o := SendPartial(s.d, t.room(s.tick), t.id(s.tick), p);
      Attempted(s.d, t.room(s.tick), t.id(s.tick), p);
      if o.Done? && !(o.sent != [] && o.dir.partial.Some?) {
        WalkFull(s.(c := DirStart, d := o.dir, port := 1, tick := s.tick + 1), k, ports, t, p);
      }
    } else if ports[0] == [] && s.d.ready == [] {
      var s' := s.(port := 1, count := s.count + 1);
      assert TurnOf(s, ports, t, p) == Goes(s');
      WalkFull(s', k, ports, t, p);
    }
  }

  lemma ScanReaches(s: Look, k: nat, ports: Ports, t: Tests, p: Params)
    requires 2 <= |ports| && Sane(s, |ports|) && s.c != DirStartOver && s.count == 0
    requires s.c == DirSendCohe ==> s.checked || s.d.outbound == []
    requires 1 <= k < |ports| && ports[k] != []
    ensures Reaches(ScanEnd(s, ports, t, p), k, |ports|, Gap(s.port, k, |ports|))
    decreases !s.checked
  {
    if s.d.outbound != [] && !s.checked {
      LookFirst(s, ports, t, p);
      ScanReaches(Looked(s, t), k, ports, t, p);
    } else if s.port == 0 {
      ReachesFromZero(s, k, ports, t, p);
    } else if s.port <= k {
      WalkFull(s, k, ports, t, p);
    } else if i: nat :| s.port <= i < |ports| && ports[i] != [] {
      WalkFull(s, i, ports, t, p);
    } else {
      WalkEmpty(s, |ports|, ports, t, p);
      ReachesFromZero(s.(port := 0, count := |ports| - s.port), k, ports, t, p);
    }
  }

  /** How many more services there can be before port k is served, k not being
      the request port. */
  function Ahead(entry: DirCase, port: nat, k: nat, n: nat): nat
    requires port < n && 1 <= k < n
  {
    if entry == DirSendCohe then k - 1 else Gap(port, k, n)
  }

  lemma OtherPortsStay(a: Activity, o: DirStep, k: nat)
    requires Picked(a) && o.Done? && k < |a.ports| && (a.port != k || a.wasPending)
    ensures |PortsAfter(a, o)| == |a.ports| && PortsAfter(a, o)[k] == a.ports[k]
  {}

  /** A port is a queue: a service takes its head away, leaves it alone, or
      leaves it changed in its place. */
  lemma PortsAreQueues(a: Activity, o: DirStep, k: nat)
    requires Picked(a) && o.Done? && k < |a.ports|
    ensures |PortsAfter(a, o)| == |a.ports|
    ensures var q, q' := a.ports[k], PortsAfter(a, o)[k];
            if k != a.port || a.wasPending then q' == q
            else if o.kept.Some? then |q'| == |q| && q'[0] == o.kept.value && q'[1..] == q[1..]
            else q' == q[1..] || (q' == q && o == Unchanged(a.d) && q[0].msgType == Request)
  {}

  /** While port k waits, an activation does not sleep, leaves it as it is, and
      ends with fewer services ahead of it if it served another. */
  lemma TurnComesNearer(entry: DirCase, a: Activity, k: nat, t: Tests, p: Params)
    requires Enterable(entry, a) && 1 <= k < |a.ports| && a.ports[k] != [] && !(entry == DirServ && a.port == k)
    ensures var r := Activation(entry, a, t, p);
            r.wake.Crashed? || r.wake == UnknownMessage
            || (&& (r.wake == After(DirServ) || r.wake == After(DirSendCohe))
                && |r.ports| == |a.ports| && r.port < |a.ports| && r.ports[k] == a.ports[k]
                && Ahead(r.wake.c, r.port, k, |a.ports|) + (if entry == DirServ then 1 else 0)
                   <= Ahead(entry, a.port, k, |a.ports|))
  {
    hide ScanEnd, Serve, AbsorbReply, AbsorbWriteback, PortsAfter;
    var n := |a.ports|;
    if entry == DirSendCohe {
      var s := Look(entry, a.d, a.port, true, 0, 1);
      ReachesFromZero(s, k, a.ports, t, p);
    } else if entry == DirStart {
      ScanReaches(Look(entry, a.d, a.port, false, 0, 1), k, a.ports, t, p);
    } else {
      var o := Service(a, t.room(0), p);
      if o.Some? && o.value.Done? {
        OtherPortsStay(a, o.value, k);
        if !(a.port == 0 && o.value.dir.partial.Some?) {
          ScanReaches(AfterService(a, o.value), k, PortsAfter(a, o.value), t, p);
        }
      }
    }
  }

  /** Served once, a port does not have the next turn while another waits. */
  lemma TurnPassesOn(a: Activity, k: nat, t: Tests, p: Params)
    requires Enterable(DirServ, a) && 1 <= k < |a.ports| && a.ports[k] != [] && a.port != k
    ensures var r := Activation(DirServ, a, t, p);
            r.wake == After(DirServ) ==> r.port < |a.ports| && r.port != a.port
  {
    TurnComesNearer(DirServ, a, k, t, p);
  }

  /** The same for the request port, unless it is taken by a partial request. */
  lemma RequestPortHasItsTurn(a: Activity, t: Tests, p: Params)
    requires Enterable(DirServ, a) && a.port != 0 && Service(a, t.room(0), p).Some?
    requires Service(a, t.room(0), p).value.Done?
    requires var d := Service(a, t.room(0), p).value.dir; d.partial.None? && (a.ports[0] != [] || d.ready != [])
    ensures var r := Activation(DirServ, a, t, p);
            r.wake == After(DirServ) && (r.port == 0 || a.port < r.port < |a.ports|)
  {
    hide Serve, AbsorbReply, AbsorbWriteback, PortsAfter;
    var o := Service(a, t.room(0), p).value;
    var ports := PortsAfter(a, o);
    OtherPortsStay(a, o, 0);
    var s := AfterService(a, o);
    if s.port == 0 {
      assert TurnOf(s, ports, t, p).Ends?;
    } else if i: nat :| s.port <= i < |ports| && ports[i] != [] {
      WalkFull(s, i, ports, t, p);
    } else {
      WalkEmpty(s, |ports|, ports, t, p);
      assert TurnOf(s.(port := 0, count := |ports| - s.port), ports, t, p).Ends?;
    }
  }

  /** With two ports the request at the one is picked after a reply at the
      other, however many replies wait behind it. */
  lemma RequestAfterReply(a: Activity, r: Req, m: Req, rest: seq<Req>, t: Tests, p: Params)
    requires Enterable(DirServ, a) && a.ports == [[r], [m] + rest] && a.port == 1 && a.d.partial.None?
    requires m.msgType == CoheReply && m.tag in a.d.lines && Service(a, t.room(0), p).value.Done?
    ensures var e := Activation(DirServ, a, t, p);
            e.wake == After(DirServ) && e.port == 0 && e.ports == [[r], rest]
  {
    hide ScanEnd, OnCoheReply, OnWriteback;
    var o := Service(a, t.room(0), p).value;
    assert o.dir.partial == a.d.partial;
    RequestPortHasItsTurn(a, t, p);
    assert ([m] + rest)[1..] == rest && o.kept.None?;
  }

  // ---------- one activation after the other ----------

  /** The case an activation is resumed in, if the simulator goes on. */
  function ResumesIn(w: Wake): Option<DirCase> {
    match w
    case After(c) => Some(c)
    case OnInput => Some(DirStart)
    case OnQueueEvent => Some(DirStart)
    case _ => None
  }

  datatype Leg = Leg(entry: DirCase, a: Activity, t: Tests)

  /** The second activation begins where the first one ended, except that
      messages may have arrived at the ports. */
  ghost predicate Succeeds(l: Leg, next: Leg, p: Params)
    requires Enterable(l.entry, l.a)
  {
    var r := Activation(l.entry, l.a, l.t, p);
    && ResumesIn(r.wake) == Some(next.entry)
    && next.a.d == r.d && next.a.port == r.port && next.a.wasPending == PicksReady(r)
    && |next.a.ports| == |r.ports| && forall i :: 0 <= i < |r.ports| ==> r.ports[i] <= next.a.ports[i]
  }

  ghost predicate Chain(legs: seq<Leg>, p: Params) {
    && (forall i :: 0 <= i < |legs| ==> Enterable(legs[i].entry, legs[i].a))
    && (forall i :: 0 < i < |legs| ==> Succeeds(legs[i - 1], legs[i], p))
  }

  function Services(legs: seq<Leg>): nat {
    if legs == [] then 0 else (if legs[0].entry == DirServ then 1 else 0) + Services(legs[1..])
  }

  predicate Serves(l: Leg, k: nat) {
    l.entry == DirServ && l.a.port == k
  }

  /** As long as port k waits and is not served, the services so far and those
      still ahead of it are together no more than those ahead at first. */
  lemma {:induction false} WaitingIsBounded(legs: seq<Leg>, k: nat, p: Params)
    requires legs != [] && Chain(legs, p) && 1 <= k < |legs[0].a.ports| && legs[0].a.ports[k] != []
    requires forall i :: 0 <= i < |legs| ==> !Serves(legs[i], k)
    ensures Services(legs) <= Ahead(legs[0].entry, legs[0].a.port, k, |legs[0].a.ports|)
    decreases |legs|
  {
    hide Activation, Enterable;
    var l := legs[0];
    assert Enterable(l.entry, l.a) && !Serves(l, k);
    EntersInRange(l.entry, l.a);
    if |legs| == 1 {
      OwnServiceCounts(l, k);
    } else {
      var next := legs[1];
      assert Succeeds(legs[0], legs[1], p);
      TurnComesNearer(l.entry, l.a, k, l.t, p);
      var r := Activation(l.entry, l.a, l.t, p);
      assert r.ports[k] <= next.a.ports[k];
      assert forall i :: 0 <= i < |legs[1..]| ==> legs[1..][i] == legs[i + 1];
      assert Chain(legs[1..], p) by {
        assert forall i :: 0 < i < |legs[1..]| ==> Succeeds(legs[i], legs[i + 1], p);
      }
      WaitingIsBounded(legs[1..], k, p);
    }
  }

  lemma EntersInRange(entry: DirCase, a: Activity)
    requires Enterable(entry, a)
    ensures 2 <= |a.ports| && a.port < |a.ports|
  {}

  lemma OwnServiceCounts(l: Leg, k: nat)
    requires l.a.port < |l.a.ports| && 1 <= k < |l.a.ports| && !Serves(l, k)
    ensures Services([l]) <= Ahead(l.entry, l.a.port, k, |l.a.ports|)
  {
    assert [l][1..] == [];
  }

  /** A message at a port other than the request port is served within one
      round: while it waits at most n - 1 messages are served at the other
      ports, whatever arrives and whatever the output ports have room for. */
  lemma {:induction false} ServedWithinARound(legs: seq<Leg>, k: nat, p: Params)
    requires legs != [] && Chain(legs, p) && 1 <= k < |legs[0].a.ports| && legs[0].a.ports[k] != []
    requires Services(legs) >= |legs[0].a.ports|
    ensures exists i :: 0 <= i < |legs| && Serves(legs[i], k)
  {
    if forall i :: 0 <= i < |legs| ==> !Serves(legs[i], k) {
      assert Enterable(legs[0].entry, legs[0].a);
      WaitingIsBounded(legs, k, p);
    }
  }

  /** Between two services there are only finitely many activations that send:
      each leaves the partial request with fewer messages. */
  lemma SendingEnds(a: Activity, t: Tests, p: Params)
    requires Enterable(DirSendCohe, a)
    ensures var r := Activation(DirSendCohe, a, t, p);
            r.wake == After(DirSendCohe) ==> Unsent(r.d) < Unsent(a.d)
  {
    LaterSendsAreFewer(Look(DirSendCohe, a.d, 0, true, 0, 1), a.ports, t, p);
  }

  /** Whatever else the loop goes through, it never adds to what is unsent, and
      sends before it is resumed to send more. */
  lemma {:induction false} LaterSendsAreFewer(s: Look, ports: Ports, t: Tests, p: Params)
    requires Sane(s, |ports|) && 2 <= |ports|
    ensures ScanEnd(s, ports, t, p).wake == After(DirSendCohe) ==> Unsent(ScanEnd(s, ports, t, p).d) < Unsent(s.d)
    decreases Unsent(s.d), !s.checked, |ports| - s.count, Rank(s)
  {
    var r := TurnOf(s, ports, t, p);
    if s.c == DirSendCohe { SendProgress(s.d, t.room(s.tick), t.id(s.tick), p); }
    if r.Goes? {
      TurnShrinks(s, ports, t, p);
      LaterSendsAreFewer(r.s, ports, t, p);
    }
  }

  /** Every result that resumes is one an activation can begin with, if what is
      ready are requests. */
  lemma ResumesEnterable(entry: DirCase, a: Activity, t: Tests, p: Params)
    requires Enterable(entry, a)
    ensures var r := Activation(entry, a, t, p);
            ResumesIn(r.wake).Some? && RequestsAtPortZero(r.ports) && |r.ports| == |a.ports|
            && (forall q :: q in r.d.ready ==> q.msgType == Request && !IsWriteback(q)) && r.port < |r.ports|
            ==> Enterable(ResumesIn(r.wake).value, Activity(r.d, r.ports, r.port, PicksReady(r)))
  {
    hide Activation;
    ActivationEndsWell(entry, a, t, p);
  }
}
