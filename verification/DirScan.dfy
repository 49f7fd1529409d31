/** One activation of the directory's event, as a value: which cases it goes
    through, how it ends, and when it goes to sleep over a waiting request. */
module DirScan {
  import opened Common
  import opened DirTypes
  import opened LineSpec
  import opened DirMachine

  /** The cases an activation can be resumed in, and the one every message ends
      in. */
  datatype DirCase = DirStart | DirServ | DirSendCohe | DirStartOver

  /** How an activation ends: rescheduled after a delay in a given case, asleep
      until there is input, or until there is input or room, or at a fatal
      error. */
  datatype Wake = After(c: DirCase) | OnInput | OnQueueEvent | Crashed(error: Error) | UnknownMessage

  type Ports = seq<seq<Req>>

  /** What the tests of the output ports say, in turn, and the messages
      allocated for invalidations. */
  datatype Tests = Tests(room: nat -> bool, id: nat -> Id)

  /** Where the loop stands; `count`: empty ports so far; `tick`: tests of
      output ports so far. */
  datatype Look = Look(c: DirCase, d: Dir, port: nat, checked: bool, count: nat, tick: nat)

  datatype End = End(wake: Wake, d: Dir, port: nat)

  datatype Turn = Goes(s: Look) | Ends(e: End)

  function Next(port: nat, n: nat): nat {
    if port + 1 == n then 0 else port + 1
  }

  /** How the activation goes to sleep with every port examined. */
  function SleepOf(d: Dir): Wake {
    if d.ready != [] then After(DirStart) else if d.partial.Some? || d.outbound != [] then OnQueueEvent else OnInput
  }

  // ---------- one turn of the loop ----------

  /** DIRSTART: one look at the outbound queue, then the port whose turn it
      is. */
  function StartTurn(s: Look, ports: Ports, t: Tests): Turn
    requires s.port < |ports|
  {
    if s.d.outbound != [] && !s.checked then
      Goes(s.(d := SendOutbound(s.d, t.room(s.tick)).dir, checked := true, tick := s.tick + 1))
    else if s.port == 0 && s.d.partial.Some? then Goes(s.(c := DirSendCohe))
    else if ports[s.port] != [] || (s.port == 0 && s.d.ready != []) then Ends(End(After(DirServ), s.d, s.port))
    else if s.count + 1 == |ports| then Ends(End(SleepOf(s.d), s.d, Next(s.port, |ports|)))
    else Goes(s.(port := Next(s.port, |ports|), count := s.count + 1))
  }

  /** DIRSENDCOHE: back to the scan at the next port, unless there is more to
      send. */
  function SendTurn(s: Look, t: Tests, p: Params): Turn
    requires s.d.partial.Some?
  {
    match SendPartial(s.d, t.room(s.tick), t.id(s.tick), p)
    case DirFatal(e) => Ends(End(Crashed(e), s.d, s.port))
    case Done(d, sent, _) =>
      if sent != [] && d.partial.Some? then Ends(End(After(DirSendCohe), d, s.port))
      else Goes(s.(c := DirStartOver, d := d, tick := s.tick + 1))
  }

  predicate Sane(s: Look, n: nat) {
    && s.port < n && s.count < n && s.c != DirServ
    && (s.c != DirStart ==> s.port == 0)
    && (s.c == DirSendCohe ==> s.d.partial.Some?)
  }

  function TurnOf(s: Look, ports: Ports, t: Tests, p: Params): (r: Turn)
    requires Sane(s, |ports|)
    ensures r.Goes? ==> Sane(r.s, |ports|)
  {
    if s.c == DirStart then StartTurn(s, ports, t)
    else if s.c == DirSendCohe then SendTurn(s, t, p)
    else Goes(s.(c := DirStart, port := Next(s.port, |ports|)))
  }

  // ---------- the loop ends ----------

  /** The coherence messages the partial request has yet to send. */
  function Unsent(d: Dir): nat {
    if d.partial.None? then 0
    else
      var line := LineOf(d.lines, d.partial.value.tag);
      1 + if line.extra.Some? && line.extra.value.numLeft > 0 then line.extra.value.numLeft else 0
  }

  /** From the request port the turn passes on without being counted. */
  function Rank(s: Look): nat {
    match s.c
    case DirStart => if s.port == 0 then 3 else 0
    case DirSendCohe => 2
    case _ => 1
  }

  /** A message sent leaves fewer to send; nothing sent leaves all as it was. */
  lemma SendProgress(d: Dir, room: bool, id: Id, p: Params)
    requires d.partial.Some?
    ensures var o := SendPartial(d, room, id, p);
            o.Done? ==> if o.sent != [] then Unsent(o.dir) < Unsent(d) else o.dir == d
  {}

  lemma TurnShrinks(s: Look, ports: Ports, t: Tests, p: Params)
    requires Sane(s, |ports|) && 2 <= |ports| && TurnOf(s, ports, t, p).Goes?
    ensures var s' := TurnOf(s, ports, t, p).s;
            Unsent(s'.d) < Unsent(s.d)
            || (Unsent(s'.d) == Unsent(s.d)
                && ((s'.checked && !s.checked)
                    || (s'.checked == s.checked
                        && (s'.count > s.count || (s'.count == s.count && Rank(s') < Rank(s))))))
  {
    if s.c == DirSendCohe { SendProgress(s.d, t.room(s.tick), t.id(s.tick), p); }
  }

  /** The whole loop. With two ports or more it always ends, even when the
      partial request can never be sent. */
  function ScanEnd(s: Look, ports: Ports, t: Tests, p: Params): End
    requires Sane(s, |ports|) && 2 <= |ports|
    decreases Unsent(s.d), !s.checked, |ports| - s.count, Rank(s)
  {
    match TurnOf(s, ports, t, p)
    case Ends(e) => e
    case Goes(s') => TurnShrinks(s, ports, t, p); ScanEnd(s', ports, t, p)
  }

  /** k turns from `s`. */
  function Turns(s: Look, k: nat, ports: Ports, t: Tests, p: Params): (r: Turn)
    requires Sane(s, |ports|)
    ensures r.Goes? ==> Sane(r.s, |ports|)
  {
    if k == 0 then Goes(s) else
    match Turns(s, k - 1, ports, t, p)
    case Ends(e) => Ends(e)
    case Goes(s') => TurnOf(s', ports, t, p)
  }

  /** The state k turns after `s` when nothing can be sent. */
  function Stalled(s: Look, k: nat): Look {
    s.(c := if k % 3 == 0 then DirStart else if k % 3 == 1 then DirSendCohe else DirStartOver,
       tick := s.tick + (k + 1) / 3)
  }

  lemma StalledTurn(s: Look, k: nat, ports: Ports, t: Tests, p: Params)
    requires |ports| == 1 && Sane(s, 1) && s.c == DirStart && (s.d.outbound == [] || s.checked)
    requires HasMessage(s.d) && !t.room(s.tick + (k + 1) / 3)
    ensures Sane(Stalled(s, k), 1) && TurnOf(Stalled(s, k), ports, t, p) == Goes(Stalled(s, k + 1))
  {
    hide SendPartial;
    if k % 3 == 1 { Attempted(s.d, false, t.id(s.tick + (k + 1) / 3), p); }
  }

  /** With the request port alone it need not end: while the partial request
      has a message to send and its port stays full, the loop comes back to the
      same state every three turns. */
  lemma {:induction false} OnePortLoops(s: Look, k: nat, ports: Ports, t: Tests, p: Params)
    requires |ports| == 1 && Sane(s, 1) && s.c == DirStart && (s.d.outbound == [] || s.checked)
    requires HasMessage(s.d) && forall i: nat :: !t.room(i)
    ensures Turns(s, k, ports, t, p) == Goes(Stalled(s, k))
  {
    hide TurnOf, HasMessage;
    if k == 0 {
      assert Stalled(s, 0) == s;
    } else {
      OnePortLoops(s, k - 1, ports, t, p);
      StalledTurn(s, k - 1, ports, t, p);
    }
  }

  // ---------- attempts to send ----------

  /** The partial request can still send. */
  predicate HasMessage(d: Dir) {
    d.partial.Some? &&
    var q := d.partial.value;
    var line := LineOf(d.lines, q.tag);
    q.msgType == Cohe || (line.extra.Some? && 0 < line.extra.value.numLeft <= |line.extra.value.nodeAry|)
  }

  /** What it sends next is its last message. */
  predicate LastMessage(d: Dir) {
    && HasMessage(d)
    && (d.partial.value.msgType != Cohe ==> LineOf(d.lines, d.partial.value.tag).extra.value.numLeft == 1)
  }

  lemma Attempted(d: Dir, room: bool, id: Id, p: Params)
    requires d.partial.Some?
    ensures var o := SendPartial(d, room, id, p);
            && (o.Done? <==> HasMessage(d)) && (LastMessage(d) ==> HasMessage(d))
            && (o.Done? && !room ==> o == Unchanged(d))
            && (o.Done? && room ==> o.sent != [] && (o.dir.partial.None? <==> LastMessage(d)))
            && (o.Done? ==> o.dir.ready == d.ready && o.dir.outbound == d.outbound)
  {}

  /** The turns from the request port with a partial request, to port 1. */
  lemma AttemptEnds(s: Look, ports: Ports, t: Tests, p: Params)
    requires Sane(s, |ports|) && 2 <= |ports| && s.port == 0 && s.d.partial.Some?
    requires s.c == DirSendCohe || (s.c == DirStart && (s.checked || s.d.outbound == []))
    ensures var o := SendPartial(s.d, t.room(s.tick), t.id(s.tick), p);
            ScanEnd(s, ports, t, p)
            == if o.DirFatal? then End(Crashed(o.error), s.d, 0)
               else if o.sent != [] && o.dir.partial.Some? then End(After(DirSendCohe), o.dir, 0)
               else ScanEnd(s.(c := DirStart, d := o.dir, port := 1, tick := s.tick + 1), ports, t, p)
  {
    hide SendPartial;
    var o := SendPartial(s.d, t.room(s.tick), t.id(s.tick), p);
    var s1 := s.(c := DirSendCohe);
    assert ScanEnd(s, ports, t, p) == ScanEnd(s1, ports, t, p);
    if o.Done? && !(o.sent != [] && o.dir.partial.Some?) {
      var s2 := s1.(c := DirStartOver, d := o.dir, tick := s.tick + 1);
      assert TurnOf(s1, ports, t, p) == Goes(s2);
      assert ScanEnd(s1, ports, t, p) == ScanEnd(s2, ports, t, p);
      assert TurnOf(s2, ports, t, p) == Goes(s2.(c := DirStart, port := 1));
    }
  }

  // ---------- the walk over the other ports ----------

  /** Ready to look at the port whose turn it is. */
  predicate Looking(s: Look, n: nat) {
    Sane(s, n) && s.c == DirStart && (s.checked || s.d.outbound == [])
  }

  predicate EmptyFrom(ports: Ports, i: nat, k: nat) {
    forall j :: i <= j < k && j < |ports| ==> ports[j] == []
  }

  /** Empty ports are passed and counted. */
  lemma {:induction false} WalkEmpty(s: Look, k: nat, ports: Ports, t: Tests, p: Params)
    requires 2 <= |ports| && Looking(s, |ports|) && 1 <= s.port <= k <= |ports|
    requires EmptyFrom(ports, s.port, k) && s.count + (k - s.port) < |ports|
    ensures ScanEnd(s, ports, t, p)
            == ScanEnd(s.(port := if k == |ports| then 0 else k, count := s.count + (k - s.port)), ports, t, p)
    decreases k - s.port
  {
    if s.port >= k {
    } else {
      var s' := s.(port := Next(s.port, |ports|), count := s.count + 1);
      assert TurnOf(s, ports, t, p) == Goes(s');
      if s.port + 1 < |ports| { WalkEmpty(s', k, ports, t, p); }
    }
  }

  /** A port that is not empty is not passed: what is served next is at it or at
      one before it. */
  lemma {:induction false} WalkFull(s: Look, k: nat, ports: Ports, t: Tests, p: Params)
    requires 2 <= |ports| && Looking(s, |ports|) && 1 <= s.port <= k < |ports|
    requires ports[k] != [] && s.count + (k - s.port) < |ports|
    ensures ScanEnd(s, ports, t, p).wake == After(DirServ) && s.port <= ScanEnd(s, ports, t, p).port <= k
    decreases k - s.port
  {
    if ports[s.port] == [] {
      assert TurnOf(s, ports, t, p) == Goes(s.(port := s.port + 1, count := s.count + 1));
      WalkFull(s.(port := s.port + 1, count := s.count + 1), k, ports, t, p);
    }
  }

  /** The last port to be counted sends the activation to sleep. */
  lemma WalkSleeps(s: Look, ports: Ports, t: Tests, p: Params)
    requires 2 <= |ports| && Looking(s, |ports|) && 1 <= s.port <= s.count
    requires EmptyFrom(ports, s.port, s.port + (|ports| - s.count))
    ensures ScanEnd(s, ports, t, p).wake == SleepOf(s.d)
  {
    WalkEmpty(s, s.port + (|ports| - s.count) - 1, ports, t, p);
  }

  // ---------- how the loop ends ----------

  /** What every end of the loop guarantees. */
  predicate WellEnded(e: End, ports: Ports) {
    match e.wake
    case After(DirServ) =>
      && e.port < |ports| && (e.port == 0 ==> e.d.partial.None?)
      && (ports[e.port] != [] || (e.port == 0 && e.d.ready != []))
    case After(DirSendCohe) => e.port == 0 && e.d.partial.Some?
    case After(c) => c == DirStart && e.d.ready != []
    case OnQueueEvent => e.d.ready == [] && (e.d.partial.Some? || e.d.outbound != [])
    case OnInput => e.d.ready == [] && e.d.partial.None? && e.d.outbound == []
    case Crashed(_) => true
    case UnknownMessage => false
  }

  lemma {:induction false} ScanEndsWell(s: Look, ports: Ports, t: Tests, p: Params)
    requires Sane(s, |ports|) && 2 <= |ports|
    ensures WellEnded(ScanEnd(s, ports, t, p), ports)
    decreases Unsent(s.d), !s.checked, |ports| - s.count, Rank(s)
  {
    var r := TurnOf(s, ports, t, p);
    if r.Goes? {
      TurnShrinks(s, ports, t, p);
      ScanEndsWell(r.s, ports, t, p);
    }
  }

  predicate Asleep(w: Wake) {
    w == OnInput || w == OnQueueEvent || w == After(DirStart)
  }

  /** From the port after the request port on, with fewer than a full round
      counted, any port that is not empty is found. */
  lemma PortOneFinds(s: Look, k: nat, ports: Ports, t: Tests, p: Params)
    requires 2 <= |ports| && Looking(s, |ports|) && s.port == 1 <= k < |ports| && ports[k] != []
    requires s.count + k <= |ports|
    ensures !Asleep(ScanEnd(s, ports, t, p).wake)
  {
    WalkFull(s, k, ports, t, p);
  }

  /** The same from the request port itself. */
  lemma PortZeroFinds(s: Look, k: nat, ports: Ports, t: Tests, p: Params)
    requires 2 <= |ports| && Sane(s, |ports|) && (s.checked || s.d.outbound == []) && s.port == 0 && s.c != DirStartOver
    requires 1 <= k < |ports| && ports[k] != [] && s.count + k < |ports|
    ensures !Asleep(ScanEnd(s, ports, t, p).wake)
  {
    if s.d.partial.Some? {
      AttemptEnds(s, ports, t, p);
      var o := SendPartial(s.d, t.room(s.tick), t.id(s.tick), p);
      Attempted(s.d, t.room(s.tick), t.id(s.tick), p);
      if o.Done? && !(o.sent != [] && o.dir.partial.Some?) {
        PortOneFinds(s.(c := DirStart, d := o.dir, port := 1, tick := s.tick + 1), k, ports, t, p);
      }
    } else if ports[0] == [] && s.d.ready == [] {
      var s' := s.(port := 1, count := s.count + 1);
      assert TurnOf(s, ports, t, p) == Goes(s');
      PortOneFinds(s', k, ports, t, p);
    }
  }

  /** The activation sleeps only with every port but the request port empty. */
  lemma SleepFindsNothing(s: Look, k: nat, ports: Ports, t: Tests, p: Params)
    requires 2 <= |ports| && Sane(s, |ports|) && s.c != DirStartOver && s.count == 0
    requires s.c == DirSendCohe ==> s.checked || s.d.outbound == []
    requires 1 <= k < |ports| && ports[k] != []
    ensures !Asleep(ScanEnd(s, ports, t, p).wake)
    decreases !s.checked
  {
    if s.d.outbound != [] && !s.checked {
      LookFirst(s, ports, t, p);
      SleepFindsNothing(Looked(s, t), k, ports, t, p);
    } else if s.port == 0 {
      PortZeroFinds(s, k, ports, t, p);
    } else if s.port <= k {
      WalkFull(s, k, ports, t, p);
    } else if i: nat :| s.port <= i < |ports| && ports[i] != [] {
      WalkFull(s, i, ports, t, p);
    } else {
      WalkEmpty(s, |ports|, ports, t, p);
      PortZeroFinds(s.(port := 0, count := |ports| - s.port), k, ports, t, p);
    }
  }

  /** The state after the one look at the outbound queue. */
  function Looked(s: Look, t: Tests): Look {
    if s.c == DirStart && s.d.outbound != [] && !s.checked
    then s.(d := SendOutbound(s.d, t.room(s.tick)).dir, checked := true, tick := s.tick + 1)
    else s
  }

  lemma LookFirst(s: Look, ports: Ports, t: Tests, p: Params)
    requires 2 <= |ports| && Sane(s, |ports|)
    ensures Sane(Looked(s, t), |ports|) && ScanEnd(s, ports, t, p) == ScanEnd(Looked(s, t), ports, t, p)
    ensures Looked(s, t).d.ready == s.d.ready && Looked(s, t).d.partial == s.d.partial
    ensures Looked(s, t).d.outbound == []
            <==> s.d.outbound == [] || (s.c == DirStart && !s.checked && |s.d.outbound| == 1 && t.room(s.tick))
  {}

  // ---------- a request left waiting ----------

  /** The condition under which the loop, once it has looked at the outbound
      queue, goes to sleep for input over a request at its port: nothing else
      to do, and the last message of the partial request leaves on a visit to
      the request port made when another port has already been counted. */
  predicate Overlooks(s: Look, ports: Ports, t: Tests)
    requires 0 < |ports|
  {
    && ports[0] != [] && EmptyFrom(ports, 1, |ports|)
    && s.d.ready == [] && s.d.outbound == [] && LastMessage(s.d)
    && if s.port != 0 then t.room(s.tick) else !t.room(s.tick) && t.room(s.tick + 1)
  }

  /** At the request port with a request waiting and the other ports empty. */
  lemma RequestPort(s: Look, ports: Ports, t: Tests, p: Params)
    requires 2 <= |ports| && Sane(s, |ports|) && (s.checked || s.d.outbound == []) && s.port == 0 && s.c != DirStartOver
    requires ports[0] != [] && EmptyFrom(ports, 1, |ports|) && s.count > 0
    ensures ScanEnd(s, ports, t, p).wake == OnInput
            <==> s.d.ready == [] && s.d.outbound == [] && LastMessage(s.d) && t.room(s.tick)
  {
    hide SendPartial, HasMessage, LastMessage;
    if s.d.partial.Some? {
      AttemptEnds(s, ports, t, p);
      var o := SendPartial(s.d, t.room(s.tick), t.id(s.tick), p);
      Attempted(s.d, t.room(s.tick), t.id(s.tick), p);
      if o.Done? && !(o.sent != [] && o.dir.partial.Some?) {
        WalkSleeps(s.(c := DirStart, d := o.dir, port := 1, tick := s.tick + 1), ports, t, p);
      }
    } else {
      assert ScanEnd(s, ports, t, p).wake == After(DirServ);
      assert !LastMessage(s.d) by { NoMessage(s.d); }
    }
  }

  lemma NoMessage(d: Dir)
    requires d.partial.None?
    ensures !HasMessage(d) && !LastMessage(d)
  {}

  /** The first visit, with nothing counted: only a second one helps. */
  lemma FirstVisit(s: Look, ports: Ports, t: Tests, p: Params)
    requires 2 <= |ports| && Sane(s, |ports|) && (s.checked || s.d.outbound == []) && s.port == 0 && s.c != DirStartOver
    requires ports[0] != [] && EmptyFrom(ports, 1, |ports|) && s.count == 0
    ensures ScanEnd(s, ports, t, p).wake == OnInput
            <==> s.d.ready == [] && s.d.outbound == [] && LastMessage(s.d) && !t.room(s.tick) && t.room(s.tick + 1)
  {
    hide SendPartial, HasMessage, LastMessage;
    if s.d.partial.Some? {
      AttemptEnds(s, ports, t, p);
      var o := SendPartial(s.d, t.room(s.tick), t.id(s.tick), p);
      Attempted(s.d, t.room(s.tick), t.id(s.tick), p);
      if o.Done? && !(o.sent != [] && o.dir.partial.Some?) {
        var s' := s.(c := DirStart, d := o.dir, port := 1, tick := s.tick + 1);
        WalkEmpty(s', |ports|, ports, t, p);
        RequestPort(s'.(port := 0, count := |ports| - 1), ports, t, p);
        if t.room(s.tick) { NoMessage(o.dir); }
      }
    } else {
      assert ScanEnd(s, ports, t, p).wake == After(DirServ);
      assert !LastMessage(s.d) by { NoMessage(s.d); }
    }
  }

  lemma SettledOverlooks(s: Look, ports: Ports, t: Tests, p: Params)
    requires 2 <= |ports| && Sane(s, |ports|) && (s.checked || s.d.outbound == []) && s.c != DirStartOver
    requires s.count == 0
    ensures ScanEnd(s, ports, t, p).wake == OnInput && ports[0] != [] <==> Overlooks(s, ports, t)
  {
    hide LastMessage;
    if k: nat :| 1 <= k < |ports| && ports[k] != [] {
      SleepFindsNothing(s, k, ports, t, p);
    } else if ports[0] != [] {
      if s.port == 0 {
        FirstVisit(s, ports, t, p);
      } else {
        WalkEmpty(s, |ports|, ports, t, p);
        RequestPort(s.(port := 0, count := |ports| - s.port), ports, t, p);
      }
    }
  }

  /** The activation goes to sleep waiting for input over a request that waits
      at its port if and only if `Overlooks` holds after its first look at the
      outbound queue. */
  lemma SleepsOverRequest(s: Look, ports: Ports, t: Tests, p: Params)
    requires 2 <= |ports| && Sane(s, |ports|) && s.c != DirStartOver && s.count == 0
    requires s.c == DirSendCohe ==> s.checked
    ensures ScanEnd(s, ports, t, p).wake == OnInput && ports[0] != [] <==> Overlooks(Looked(s, t), ports, t)
  {
    LookFirst(s, ports, t, p);
    SettledOverlooks(Looked(s, t), ports, t, p);
  }

  // ---------- the whole activation ----------

  /** The activity between two activations. */
  datatype Activity = Activity(d: Dir, ports: Ports, port: nat, wasPending: bool)

  datatype Result = Result(wake: Wake, d: Dir, ports: Ports, port: nat)

  /** At the request port a ready request comes before a new one. */
  predicate PicksReady(r: Result) {
    r.wake == After(DirServ) && r.port == 0 && r.d.ready != []
  }

  /** Port 0 is the request port: requests arrive there and nowhere else. */
  predicate RequestsAtPortZero(ports: Ports) {
    forall k, i :: 0 <= k < |ports| && 0 <= i < |ports[k]| && ports[k][i].msgType == Request
                   ==> k == 0 && !IsWriteback(ports[k][i])
  }

  /** A message has been picked and its access delay is over. */
  predicate Picked(a: Activity) {
    && a.port < |a.ports| && (a.port == 0 ==> a.d.partial.None?)
    && if a.wasPending
       then a.port == 0 && a.d.ready != [] && a.d.ready[0].msgType == Request && !IsWriteback(a.d.ready[0])
       else a.ports[a.port] != []
  }

  predicate Enterable(entry: DirCase, a: Activity) {
    && 2 <= |a.ports| && a.port < |a.ports| && RequestsAtPortZero(a.ports)
    && match entry
       case DirStart => true
       case DirServ => Picked(a)
       case DirSendCohe => a.d.partial.Some? && a.port == 0
       case DirStartOver => false
  }

  function PickedReq(a: Activity): Req
    requires Picked(a)
  {
    if a.wasPending then a.d.ready[0] else a.ports[a.port][0]
  }

  /** DIRSERV and the case it dispatches to. */
  function Service(a: Activity, room: bool, p: Params): Option<DirStep>
    requires Picked(a)
  {
    var req := PickedReq(a);
    if req.msgType == Request then Some(Serve(a.d, req, a.wasPending, room, p))
    else if req.msgType == CoheReply && req.tag in a.d.lines then
      Some(if IsWriteback(req) then AbsorbWriteback(a.d, req, p) else AbsorbReply(a.d, req, room, p))
    else None
  }

  /** A new message leaves its port when it is taken; left behind, it may have
      changed. */
  function PortsAfter(a: Activity, o: DirStep): Ports
    requires Picked(a) && o.Done?
  {
    var here := a.ports[a.port];
    if a.wasPending || (PickedReq(a).msgType == Request && o == Unchanged(a.d)) then a.ports
    else a.ports[a.port := if o.kept.Some? then [o.kept.value] + here[1..] else here[1..]]
  }

  function ScanFrom(s: Look, ports: Ports, t: Tests, p: Params): Result
    requires Sane(s, |ports|) && 2 <= |ports|
  {
    var e := ScanEnd(s, ports, t, p);
    Result(e.wake, e.d, ports, e.port)
  }

  /** One activation, with positive delays. */
  function Activation(entry: DirCase, a: Activity, t: Tests, p: Params): Result
    requires Enterable(entry, a)
  {
    if entry != DirServ then ScanFrom(Look(entry, a.d, a.port, entry != DirStart, 0, 1), a.ports, t, p)
    else
      match Service(a, t.room(0), p)
      case None => Result(UnknownMessage, a.d, a.ports, a.port)
      case Some(o) =>
        if o.DirFatal? then Result(Crashed(o.error), a.d, a.ports, a.port)
        else if a.port == 0 && o.dir.partial.Some? then Result(After(DirSendCohe), o.dir, PortsAfter(a, o), 0)
        else ScanFrom(AfterService(a, o), PortsAfter(a, o), t, p)
  }

  function AfterService(a: Activity, o: DirStep): Look
    requires a.port < |a.ports| && o.Done?
  {
    Look(DirStart, o.dir, Next(a.port, |a.ports|), true, 0, 1)
  }

  /** The activation serves a reply or a write-back and goes on scanning. */
  predicate GoesOn(a: Activity, t: Tests, p: Params)
    requires Picked(a)
  {
    var o := Service(a, t.room(0), p);
    o.Some? && o.value.Done? && a.port != 0
  }

  /** When an activation sleeps over a waiting request, by the case it starts
      in. */
  predicate Oversleeps(entry: DirCase, a: Activity, t: Tests, p: Params)
    requires Enterable(entry, a)
  {
    if entry != DirServ then Overlooks(Looked(Look(entry, a.d, a.port, entry != DirStart, 0, 1), t), a.ports, t)
    else
      GoesOn(a, t, p) &&
      var o := Service(a, t.room(0), p).value;
      Overlooks(AfterService(a, o), PortsAfter(a, o), t)
  }

  /** An activation goes to sleep for input while a request waits at its port
      if and only if `Oversleeps` holds when it starts. */
  lemma OversleepsExactly(entry: DirCase, a: Activity, t: Tests, p: Params)
    requires Enterable(entry, a)
    ensures var r := Activation(entry, a, t, p);
            r.wake == OnInput && r.ports[0] != [] <==> Oversleeps(entry, a, t, p)
  {
    hide ScanEnd, Overlooks, Looked, Serve, AbsorbReply, AbsorbWriteback, LastMessage;
    if entry != DirServ {
      SleepsOverRequest(Look(entry, a.d, a.port, entry != DirStart, 0, 1), a.ports, t, p);
    } else {
      var o := Service(a, t.room(0), p);
      if o.Some? && o.value.Done? && !(a.port == 0 && o.value.dir.partial.Some?) {
        var s := AfterService(a, o.value);
        SleepsOverRequest(s, PortsAfter(a, o.value), t, p);
        assert Looked(s, t) == s by { LooksOnce(s, t); }
        if a.port == 0 { NothingOverlooked(s, PortsAfter(a, o.value), t); }
      }
    }
  }

  /** The same in full for an activation that starts from the beginning, where
      test 1 of a port is for the outbound queue if there is anything in it. */
  lemma OversleepsFromStart(a: Activity, t: Tests, p: Params)
    requires Enterable(DirStart, a)
    ensures Oversleeps(DirStart, a, t, p) <==>
              && a.ports[0] != [] && EmptyFrom(a.ports, 1, |a.ports|) && a.d.ready == [] && LastMessage(a.d)
              && (a.d.outbound == [] || (|a.d.outbound| == 1 && t.room(1)))
              && var k := if a.d.outbound == [] then 1 else 2;
                 if a.port != 0 then t.room(k) else !t.room(k) && t.room(k + 1)
  {}

  lemma LooksOnce(s: Look, t: Tests)
    requires s.checked
    ensures Looked(s, t) == s
  {}

  lemma NothingOverlooked(s: Look, ports: Ports, t: Tests)
    requires s.d.partial.None? && 0 < |ports|
    ensures !Overlooks(s, ports, t)
  {
    NoMessage(s.d);
  }

  /** It does happen: a request waits, a forward has been left over from an
      earlier full port, and the turn is at the other port. */
  lemma OversleepsAtTwoPorts(a: Activity, r: Req, f: Req, t: Tests, p: Params)
    requires a.ports == [[r], []] && a.port == 1 && !IsWriteback(r)
    requires a.d.ready == [] && a.d.outbound == [] && a.d.partial == Some(f) && f.msgType == Cohe && t.room(1)
    ensures Enterable(DirStart, a) && Oversleeps(DirStart, a, t, p)
    ensures Activation(DirStart, a, t, p) == Result(OnInput, a.d.(partial := None), [[r], []], 0)
  {
    var s := Look(DirStart, a.d, 1, false, 0, 1);
    OversleepsExactly(DirStart, a, t, p);
    var s1 := s.(port := 0, count := 1);
    assert TurnOf(s, a.ports, t, p) == Goes(s1);
    AttemptEnds(s1, a.ports, t, p);
  }

  /** How every activation ends: at a message to serve, with a message to send,
      or asleep with every port but the request port empty and, for input
      alone, nothing left to send or to serve again. */
  lemma ActivationEndsWell(entry: DirCase, a: Activity, t: Tests, p: Params)
    requires Enterable(entry, a)
    ensures var r := Activation(entry, a, t, p);
            && (r.wake == UnknownMessage || WellEnded(End(r.wake, r.d, r.port), r.ports))
            && (Asleep(r.wake) ==> EmptyFrom(r.ports, 1, |r.ports|))
  {
    hide ScanEnd, Serve, AbsorbReply, AbsorbWriteback;
    if entry != DirServ {
      LoopEndsWell(Look(entry, a.d, a.port, entry != DirStart, 0, 1), a.ports, t, p);
    } else {
      var o := Service(a, t.room(0), p);
      if o.Some? && o.value.Done? && !(a.port == 0 && o.value.dir.partial.Some?) {
        LoopEndsWell(AfterService(a, o.value), PortsAfter(a, o.value), t, p);
      }
    }
  }

  lemma LoopEndsWell(s: Look, ports: Ports, t: Tests, p: Params)
    requires 2 <= |ports| && Sane(s, |ports|) && s.c != DirStartOver && s.count == 0
    requires s.c == DirSendCohe ==> s.checked
    ensures var e := ScanEnd(s, ports, t, p);
            WellEnded(e, ports) && (Asleep(e.wake) ==> EmptyFrom(ports, 1, |ports|))
  {
    ScanEndsWell(s, ports, t, p);
    forall k: nat | 1 <= k < |ports| && ports[k] != [] ensures !Asleep(ScanEnd(s, ports, t, p).wake) {
      SleepFindsNothing(s, k, ports, t, p);
    }
  }
}
