/** The order in which the directory's queues are worked off. */
module DirOrder {
  import opened Common
  import opened DirTypes
  import opened LineSpec
  import opened LineShape
  import opened LineProtocol
  import opened LineSafety
  import opened LineTheorems
  import opened DirMachine
  import opened DirLedger
  import opened DirSystem
  import opened DirSafety
  import opened DirTags
  import opened DirQueues
  import opened DirOutputs
  import opened DirRuns

  // ---------- looks at the outbound queue ----------

  /** The directory after one look for each entry of `rooms`, which says what
      the port had to say, for as long as there is something to look at. */
  function Looks(d: Dir, rooms: seq<bool>): Dir {
    if rooms == [] then d else
    var d' := Looks(d, rooms[..|rooms| - 1]);
    if d'.outbound == [] then d' else SendOutbound(d', rooms[|rooms| - 1]).dir
  }

  /** The messages that leave in these looks. */
  function LooksSend(d: Dir, rooms: seq<bool>): seq<Req> {
    if rooms == [] then [] else
    var front := rooms[..|rooms| - 1];
    LooksSend(d, front)
    + if Looks(d, front).outbound == [] then [] else SendOutbound(Looks(d, front), rooms[|rooms| - 1]).sent
  }

  /** Of the first messages of q, those whose port had room, or had not. */
  function WithRoom(q: seq<Req>, rooms: seq<bool>, room: bool): seq<Req>
    requires |rooms| <= |q|
  {
    if rooms == [] then [] else
    var k := |rooms| - 1;
    WithRoom(q, rooms[..k], room) + if rooms[k] == room then [q[k]] else []
  }

  /** Each look takes the next message in turn: it leaves if its port has room,
      and otherwise goes to the back and holds up nothing behind it. */
  lemma {:induction false} LooksTakeTurns(d: Dir, rooms: seq<bool>)
    requires |rooms| <= |d.outbound|
    ensures Looks(d, rooms).outbound == d.outbound[|rooms|..] + WithRoom(d.outbound, rooms, false)
    ensures LooksSend(d, rooms) == WithRoom(d.outbound, rooms, true)
  {
    if rooms == [] {
    } else {
      hide SendOutbound;
      var k := |rooms| - 1;
      LooksTakeTurns(d, rooms[..k]);
      NextTurn(d.outbound, k, WithRoom(d.outbound, rooms[..k], false));
      OneLook(Looks(d, rooms[..k]), rooms[k]);
    }
  }

  lemma NextTurn(q: seq<Req>, k: nat, back: seq<Req>)
    requires k < |q|
    ensures q[k..] + back != [] && (q[k..] + back)[0] == q[k] && (q[k..] + back)[1..] == q[k + 1..] + back
  {}

  lemma OneLook(d: Dir, room: bool)
    requires d.outbound != []
    ensures var o := SendOutbound(d, room);
            && o.dir.outbound == d.outbound[1..] + (if room then [] else [d.outbound[0]])
            && o.sent == if room then [d.outbound[0]] else []
  {}

  /** With no room at all the queue goes round. */
  lemma {:induction false} BlockedLooksRotate(d: Dir, rooms: seq<bool>)
    requires |rooms| <= |d.outbound| && forall i :: 0 <= i < |rooms| ==> !rooms[i]
    ensures Looks(d, rooms) == d.(outbound := d.outbound[|rooms|..] + d.outbound[..|rooms|])
    ensures LooksSend(d, rooms) == []
  {
    if rooms == [] {
      assert d.outbound[..0] == [];
    } else {
      var k := |rooms| - 1;
      BlockedLooksRotate(d, rooms[..k]);
      var q := d.outbound[k..] + d.outbound[..k];
      assert q[0] == d.outbound[k] && q[1..] == d.outbound[k + 1..] + d.outbound[..k];
      assert d.outbound[..k] + [d.outbound[k]] == d.outbound[..k + 1];
    }
  }

  // ---------- one event ----------

  /** Only a look takes the head off the outbound queue; everything else can
      only append to it. */
  lemma OutboundStep(s: Sys, ev: SysEvent, p: Params)
    requires SysEnabled(s, ev, p) && DirPart(s, ev, p).Done?
    ensures var q, q' := s.dir.outbound, DirPart(s, ev, p).dir.outbound;
            if ev.OutboundOut? then q != [] && q' == q[1..] + (if ev.room then [] else [q[0]])
            else q <= q' && |q'| <= |q| + 1
  {
    hide OnRequest, OnCoheReply, OnWriteback, Enabled;
  }

  lemma MessageMoves(s: Sys, ev: SysEvent, k: nat, p: Params)
    requires SysInv(s, p) && SysEnabled(s, ev, p) && SysStep(s, ev, p).Running?
    requires k < |s.dir.outbound| && (ev.OutboundOut? ==> k > 0)
    ensures var q', k' := SysStep(s, ev, p).sys.dir.outbound, if ev.OutboundOut? then k - 1 else k;
            k' < |q'| && q'[k'] == s.dir.outbound[k]
  {
    hide SysInv, SysEnabled, SysStep, DirPart;
    StepOfDirectory(s, ev, p);
    OutboundStep(s, ev, p);
  }

  /** A ready request leaves its queue only from the head, when it is served;
      released ones are appended. With no room for its answer it stays there
      under another type. */
  lemma ReadyStep(s: Sys, ev: SysEvent, p: Params)
    requires SysInv(s, p) && SysEnabled(s, ev, p) && DirPart(s, ev, p).Done?
    ensures var q, q' := s.dir.ready, DirPart(s, ev, p).dir.ready;
            if !ev.Reprocess? then q <= q'
            else if Roomless(s, ev, p) then
              q != [] && |q'| == |q| && q'[1..] == q[1..] && q'[0].id == q[0].id && q'[0].tag == q[0].tag
            else q != [] && q' == q[1..]
  {
    hide OnCoheReply, OnWriteback, Enabled, Inv, Tagged, LedgerInv, TraceInv;
    if ev.Reprocess? { ReprocessPops(s, ev.room, p); }
  }

  lemma RequestMoves(s: Sys, ev: SysEvent, k: nat, p: Params)
    requires SysInv(s, p) && SysEnabled(s, ev, p) && SysStep(s, ev, p).Running? && k < |s.dir.ready|
    requires ev.Reprocess? && !Roomless(s, ev, p) ==> k > 0
    ensures var q', k' := SysStep(s, ev, p).sys.dir.ready, if ev.Reprocess? && !Roomless(s, ev, p) then k - 1 else k;
            k' < |q'| && q'[k'].id == s.dir.ready[k].id && q'[k'].tag == s.dir.ready[k].tag
  {
    hide SysInv, SysEnabled, SysStep, DirPart, Roomless;
    StepOfDirectory(s, ev, p);
    ReadyStep(s, ev, p);
    var q, q' := s.dir.ready, DirPart(s, ev, p).dir.ready;
    if ev.Reprocess? && Roomless(s, ev, p) && k > 0 { assert q'[1..][k - 1] == q[1..][k - 1]; }
  }

  lemma ReprocessPops(s: Sys, room: bool, p: Params)
    requires SysInv(s, p) && s.dir.partial.None? && s.dir.ready != []
    requires Serve(s.dir, s.dir.ready[0], true, room, p).Done?
    ensures var q, q' := s.dir.ready, Serve(s.dir, s.dir.ready[0], true, room, p).dir.ready;
            if FindsNoRoom(s.dir, q[0], true, room, p)
            then |q'| == |q| && q'[1..] == q[1..] && q'[0].id == q[0].id && q'[0].tag == q[0].tag
            else q' == q[1..]
  {
    hide OnRequest, Inv, Tagged, TraceInv;
    var req := s.dir.ready[0];
    assert req in s.dir.ready;
    assert !Full(s.dir, true);
    if IsAccess(req.reqType) {
      if OnRequest(LineOf(s.dir.lines, req.tag), req, p).eff.AnswerNow? {
        AnswerAtOnce(LineOf(s.dir.lines, req.tag), req, p);
      }
    } else {
      UnknownIsParked(LineOf(s.dir.lines, req.tag), req, p);
    }
  }

  /** The request a line hands back becomes ready behind those that are, and
      before all that waited behind it. */
  lemma HandedBackGoesFirst(d: Dir, m: Req, room: bool, p: Params)
    ensures var r, o := OnCoheReply(LineOf(d.lines, m.tag), m, p), AbsorbReply(d, m, room, p);
            r.eff.Requeue? ==> o.Done? && o.dir.ready == d.ready + [r.eff.req] + OfTag(d.pending, m.tag)
    ensures var r, o := OnWriteback(LineOf(d.lines, m.tag), m, p), AbsorbWriteback(d, m, p);
            r.eff.Woke? ==> o.Done? && o.dir.ready == d.ready + [r.eff.req] + OfTag(d.pending, m.tag)
  {
    hide OnCoheReply, OnWriteback;
  }

  /** Requests are parked at the end of the pending buffer and leave it only by
      a release. */
  lemma PendingStep(s: Sys, ev: SysEvent, p: Params)
    requires SysEnabled(s, ev, p) && DirPart(s, ev, p).Done?
    ensures var q, q' := s.dir.pending, DirPart(s, ev, p).dir.pending;
            if ev.NewRequest? || ev.Reprocess? then q <= q' && |q'| <= |q| + 1
            else q' == q || q' == NotOfTag(q, TagOf(s, ev, p))
  {
    hide OnRequest, OnCoheReply, OnWriteback, Enabled;
  }

  // ---------- every run ----------

  /** Whether the run goes on after `events` and the event can happen there. */
  predicate Happens(events: seq<SysEvent>, ev: SysEvent, bufMax: nat, p: Params) {
    var o := SysRun(events, bufMax, p);
    o.Running? && SysEnabled(o.sys, ev, p)
  }

  function OutboundAfter(events: seq<SysEvent>, bufMax: nat, p: Params): seq<Req> {
    match SysRun(events, bufMax, p)
    case Running(s) => s.dir.outbound
    case Halted(_, _) => []
  }

  function ReadyAfter(events: seq<SysEvent>, bufMax: nat, p: Params): seq<Req> {
    match SysRun(events, bufMax, p)
    case Running(s) => s.dir.ready
    case Halted(_, _) => []
  }

  /** The event takes a look at the outbound queue. */
  predicate IsLook(events: seq<SysEvent>, ev: SysEvent, bufMax: nat, p: Params) {
    Happens(events, ev, bufMax, p) && ev.OutboundOut?
  }

  /** The event serves a ready request: it is answered, put aside or parked
      again. */
  predicate IsService(events: seq<SysEvent>, ev: SysEvent, bufMax: nat, p: Params) {
    Happens(events, ev, bufMax, p) && ev.Reprocess? && !Roomless(SysRun(events, bufMax, p).sys, ev, p)
  }

  /** How many of the events `more`, after `events`, take a look. */
  function LooksIn(events: seq<SysEvent>, more: seq<SysEvent>, bufMax: nat, p: Params): nat {
    if more == [] then 0 else
    var front, ev := more[..|more| - 1], more[|more| - 1];
    LooksIn(events, front, bufMax, p) + if IsLook(events + front, ev, bufMax, p) then 1 else 0
  }

  function ServicesIn(events: seq<SysEvent>, more: seq<SysEvent>, bufMax: nat, p: Params): nat {
    if more == [] then 0 else
    var front, ev := more[..|more| - 1], more[|more| - 1];
    ServicesIn(events, front, bufMax, p) + if IsService(events + front, ev, bufMax, p) then 1 else 0
  }

  lemma StepOfDirectory(s: Sys, ev: SysEvent, p: Params)
    requires SysInv(s, p) && SysEnabled(s, ev, p) && SysStep(s, ev, p).Running?
    ensures DirPart(s, ev, p).Done? && SysStep(s, ev, p).sys.dir == DirPart(s, ev, p).dir
  {
    StepProjects(s, ev, p);
  }

  /** One event more moves every queued message forward if it is a look. */
  lemma OutboundAfterOne(events: seq<SysEvent>, ev: SysEvent, k: nat, bufMax: nat, p: Params)
    requires SysRun(events + [ev], bufMax, p).Running? && k < |OutboundAfter(events, bufMax, p)|
    requires IsLook(events, ev, bufMax, p) ==> k > 0
    ensures var q, q' := OutboundAfter(events, bufMax, p), OutboundAfter(events + [ev], bufMax, p);
            var k' := if IsLook(events, ev, bufMax, p) then k - 1 else k;
            k' < |q'| && q'[k'] == q[k]
  {
    hide SysInv, SysEnabled, SysStep;
    assert (events + [ev])[..|events|] == events;
    var s := SysRun(events, bufMax, p).sys;
    if SysEnabled(s, ev, p) {
      SysRunKeepsInv(events, bufMax, p);
      MessageMoves(s, ev, k, p);
    }
  }

  lemma ReadyAfterOne(events: seq<SysEvent>, ev: SysEvent, k: nat, bufMax: nat, p: Params)
    requires SysRun(events + [ev], bufMax, p).Running? && k < |ReadyAfter(events, bufMax, p)|
    requires IsService(events, ev, bufMax, p) ==> k > 0
    ensures var q, q' := ReadyAfter(events, bufMax, p), ReadyAfter(events + [ev], bufMax, p);
            var k' := if IsService(events, ev, bufMax, p) then k - 1 else k;
            k' < |q'| && q'[k'].id == q[k].id && q'[k'].tag == q[k].tag
  {
    hide SysInv, SysEnabled, SysStep, Roomless;
    assert (events + [ev])[..|events|] == events;
    var s := SysRun(events, bufMax, p).sys;
    if SysEnabled(s, ev, p) {
      SysRunKeepsInv(events, bufMax, p);
      RequestMoves(s, ev, k, p);
    }
  }

  lemma AppendLast(events: seq<SysEvent>, more: seq<SysEvent>)
    requires more != []
    ensures events + more == events + more[..|more| - 1] + [more[|more| - 1]]
  {}

  lemma LooksInSplits(events: seq<SysEvent>, more: seq<SysEvent>, bufMax: nat, p: Params)
    requires more != []
    ensures var front, ev := more[..|more| - 1], more[|more| - 1];
            LooksIn(events, more, bufMax, p)
            == LooksIn(events, front, bufMax, p) + if IsLook(events + front, ev, bufMax, p) then 1 else 0
  {}

  lemma ServicesInSplits(events: seq<SysEvent>, more: seq<SysEvent>, bufMax: nat, p: Params)
    requires more != []
    ensures var front, ev := more[..|more| - 1], more[|more| - 1];
            ServicesIn(events, more, bufMax, p)
            == ServicesIn(events, front, bufMax, p) + if IsService(events + front, ev, bufMax, p) then 1 else 0
  {}

  lemma RanBefore(events: seq<SysEvent>, ev: SysEvent, bufMax: nat, p: Params)
    requires SysRun(events + [ev], bufMax, p).Running?
    ensures SysRun(events, bufMax, p).Running?
  {
    assert (events + [ev])[..|events|] == events;
  }

  /** In every run, however the other events fall between, each look brings
      every message that is queued one place nearer to the head, so that the one
      at place i is looked at after i looks, whatever the ports say to those
      before it. */
  lemma {:induction false} EveryMessageHasItsTurn(events: seq<SysEvent>, more: seq<SysEvent>, i: nat, bufMax: nat,
                                                  p: Params)
    requires SysRun(events + more, bufMax, p).Running?
    requires i < |OutboundAfter(events, bufMax, p)| && LooksIn(events, more, bufMax, p) <= i
    ensures var q := OutboundAfter(events + more, bufMax, p);
            var k := i - LooksIn(events, more, bufMax, p);
            k < |q| && q[k] == OutboundAfter(events, bufMax, p)[i]
    decreases |more|
  {
    hide SysEnabled, SysStep, SysInv;
    if more == [] {
      assert events + more == events;
    } else {
      hide SysRun, IsLook, OutboundAfter, LooksIn;
      var front, ev := more[..|more| - 1], more[|more| - 1];
      AppendLast(events, more);
      LooksInSplits(events, more, bufMax, p);
      RanBefore(events + front, ev, bufMax, p);
      EveryMessageHasItsTurn(events, front, i, bufMax, p);
      OutboundAfterOne(events + front, ev, i - LooksIn(events, front, bufMax, p), bufMax, p);
    }
  }

  /** The same for the requests made ready: the one at place i is served after
      the i before it. */
  lemma {:induction false} EveryReadyRequestHasItsTurn(events: seq<SysEvent>, more: seq<SysEvent>, i: nat, bufMax: nat,
                                                       p: Params)
    requires SysRun(events + more, bufMax, p).Running?
    requires i < |ReadyAfter(events, bufMax, p)| && ServicesIn(events, more, bufMax, p) <= i
    ensures var q, r := ReadyAfter(events + more, bufMax, p), ReadyAfter(events, bufMax, p)[i];
            var k := i - ServicesIn(events, more, bufMax, p);
            k < |q| && q[k].id == r.id && q[k].tag == r.tag
    decreases |more|
  {
    hide SysEnabled, SysStep, SysInv;
    if more == [] {
      assert events + more == events;
    } else {
      hide SysRun, IsService, ReadyAfter, ServicesIn;
      var front, ev := more[..|more| - 1], more[|more| - 1];
      AppendLast(events, more);
      ServicesInSplits(events, more, bufMax, p);
      RanBefore(events + front, ev, bufMax, p);
      EveryReadyRequestHasItsTurn(events, front, i, bufMax, p);
      ReadyAfterOne(events + front, ev, i - ServicesIn(events, front, bufMax, p), bufMax, p);
    }
  }

  // ---------- requests released together ----------

  /** The requests of one tag in s are released in their order: the i-th of s
      comes after those of the tag before it, and no other. */
  lemma {:induction false} ReleasedInOrder(s: seq<Req>, tag: Tag, i: nat)
    requires i < |s|
    ensures |OfTag(s, tag)| + |NotOfTag(s, tag)| == |s|
    ensures var q, k := OfTag(s, tag), |OfTag(s[..i], tag)|; s[i].tag == tag ==> k < |q| && q[k] == s[i]
    ensures var q, k := NotOfTag(s, tag), |NotOfTag(s[..i], tag)|; s[i].tag != tag ==> k < |q| && q[k] == s[i]
  {
    var n := |s| - 1;
    if i == n {
      PartSizes(s, tag);
    } else {
      ReleasedInOrder(s[..n], tag, i);
      assert s[..n][..i] == s[..i];
    }
  }

  lemma {:induction false} PartSizes(s: seq<Req>, tag: Tag)
    ensures |OfTag(s, tag)| + |NotOfTag(s, tag)| == |s|
  {
    if s == [] {
    } else {
      PartSizes(s[..|s| - 1], tag);
    }
  }

  /** A request that finds its line pending once more, though it was ready
      first, is overtaken by one that was ready behind it. */
  lemma ParkedAgainIsOvertaken(d: Dir, b: Req, c: Req, room: bool, p: Params)
    requires d.ready == [b, c] && d.pending == [] && LineOf(d.lines, b.tag).pend && !Full(d, true)
    requires b.tag == c.tag && !b.preprocessed && !IsWriteback(b)
    ensures Serve(d, b, true, room, p).Done? && Release(Serve(d, b, true, room, p).dir, b.tag).ready == [c, b]
  {
    PendingLineStays(LineOf(d.lines, b.tag), b, p);
    assert DirCohe(LineOf(d.lines, b.tag), b, p).out == WaitPend;
    assert d.ready[1..] == [c] && d.pending + [b] == [b] && [b][..0] == [];
    assert OfTag([b], b.tag) == OfTag([], b.tag) + [b];
  }
}
