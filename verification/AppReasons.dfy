/**
 Reasons of 65536 bytes or more. They are encoded with a truncated length, so the peer
 cannot decode the message: exactly when a session sends one, and what it costs.
 */
module AppReasons {
  import opened Basics
  import opened AppLimits
  import opened AppMessages
  import opened AppStream
  import opened AppStreamProofs
  import opened AppSession
  import opened AppSessionProofs
  import opened AppPhase
  import opened AppSystem
  import opened AppProgress
  import opened AppTransport

  predicate FitWire(w: seq<AppMsg>) {
    forall i :: 0 <= i < |w| ==> Fits(w[i])
  }

  predicate FitWires(sys: System) {
    FitWire(sys.toGuest) && FitWire(sys.toHost)
  }

  // ---- Which calls send such a reason ----

  /** The call will send APP_RESET or APP_REJECT with a reason that does not fit its length field. */
  predicate Overlong(s: Session, c: Call) {
    && !s.closed && (c.ResetCall? || c.HandlerReject?) && |c.fault.message| >= Uint16Space && c.id in s.streams
    && (c.ResetCall? ==> s.streams[c.id].handle) && (c.HandlerReject? ==> s.streams[c.id].hs.handling)
  }

  lemma StreamCallFits(st: Stream, buffered: int, c: Call)
    requires Sane(st) && AboutStream(c)
    ensures FitWire(StreamCall(st, buffered, false, c).sent) <==>
            !(|| (c.ResetCall? && st.handle && |c.fault.message| >= Uint16Space)
              || (c.HandlerReject? && st.hs.handling && |c.fault.message| >= Uint16Space))
  {
    var sent := StreamCall(st, buffered, false, c).sent;
    if sent != [] {
      assert |sent| == 1;
      assert FitWire(sent) <==> Fits(sent[0]);
    }
  }

  lemma CallFits(s: Session, c: Call)
    requires SessionInv(s) && !c.Incoming?
    ensures FitWire(Next(s, c).sent) <==> !Overlong(s, c)
  {
    hide SessionInv, Sane, StreamCall, FitWire, Fail;
    if c.OpenCall? {
      OpenCallFits(s, c);
    } else if !c.ConnectionLost? && c.id in s.streams {
      OwnStream(s, c.id);
      StreamCallFits(s.streams[c.id], s.buffered, c);
      NothingFits();
    } else {
      NothingFits();
    }
  }

  lemma NothingFits()
    ensures FitWire([])
  {
  }

  lemma OpenCallFits(s: Session, c: Call)
    requires c.OpenCall?
    ensures FitWire(Next(s, c).sent)
  {
  }

  lemma ReceiveFits(st: Stream, buffered: int, m: AppMsg)
    ensures FitWire(Receive(st, buffered, m).sent)
  {
  }

  lemma MessageFits(s: Session, m: AppMsg)
    ensures FitWire(HandleMessage(s, m).sent)
  {
    hide Receive, Fail, ValidAppService, GuestID;
    if m.streamID in s.streams {
      ReceiveFits(s.streams[m.streamID], s.buffered, m);
    }
  }

  // ---- Runs ----

  predicate BriefEvent(sys: System, ev: Event) {
    ev.Local? ==> !Overlong(End(sys, ev.side), ev.c)
  }

  /** Along the run no call sends a reason that does not fit. */
  predicate BriefRun(sys: System, evs: seq<Event>)
    decreases |evs|
  {
    evs == [] || (BriefEvent(sys, evs[0]) && BriefRun(StepTo(sys, evs[0]), evs[1..]))
  }

  /** At every point of the run every message in flight fits. */
  predicate FitThroughout(sys: System, evs: seq<Event>)
    decreases |evs|
  {
    FitWires(sys) && (evs == [] || FitThroughout(StepTo(sys, evs[0]), evs[1..]))
  }

  lemma FitMore(w: seq<AppMsg>, more: seq<AppMsg>)
    requires FitWire(w)
    ensures FitWire(w + more) <==> FitWire(more)
  {
    forall i | 0 <= i < |more| && FitWire(w + more) ensures Fits(more[i]) {
      assert (w + more)[|w| + i] == more[i];
    }
  }

  lemma StepFits(sys: System, ev: Event)
    requires BothKept(sys) && FitWires(sys)
    ensures FitWires(StepTo(sys, ev)) <==> BriefEvent(sys, ev)
  {
    hide SessionInv, Next, Overlong;
    var s := End(sys, ev.side);
    match ev
    case Local(side, c) =>
      if !c.Incoming? {
        CallFits(s, c);
        FitMore(Sent(sys, side), Next(s, c).sent);
      } else {
        assert !Overlong(s, c) by {
          NotIncoming(s, c);
        }
      }
    case Arrive(side) =>
      if !s.closed && Sent(sys, !side) != [] {
        var m := Sent(sys, !side)[0];
        NextIncoming(s, m);
        MessageFits(s, m);
        FitMore(Sent(sys, side), Next(s, Incoming(m)).sent);
      }
  }

  lemma NotIncoming(s: Session, c: Call)
    requires c.Incoming?
    ensures !Overlong(s, c)
  {
  }

  lemma {:induction false} FitsFrom(sys: System, evs: seq<Event>)
    requires BothKept(sys) && FitWires(sys)
    ensures FitThroughout(sys, evs) <==> BriefRun(sys, evs)
    ensures BriefRun(sys, evs) ==> FitWires(Run(sys, evs))
    decreases |evs|
  {
    hide BothKept, FitWires, BriefEvent, StepTo;
    if evs != [] {
      StepFits(sys, evs[0]);
      AnyStepLocal(sys, evs[0]);
      if BriefEvent(sys, evs[0]) {
        FitsFrom(StepTo(sys, evs[0]), evs[1..]);
      } else {
        assert !FitThroughout(StepTo(sys, evs[0]), evs[1..]);
      }
    }
  }

  lemma StartKept()
    ensures BothKept(Start())
  {
    NewSessionInv(false);
    NewSessionInv(true);
  }

  /** In every run: what is in flight fits throughout exactly if no call sends a reason that does not. */
  lemma WiresFitIff(evs: seq<Event>)
    ensures FitThroughout(Start(), evs) <==> BriefRun(Start(), evs)
  {
    hide BothKept;
    StartKept();
    FitsFrom(Start(), evs);
  }

  // ---- Why sessions end ----

  /** The side loses its connection, or its read loop takes a message that does not decode. */
  predicate Ends(sys: System, ev: Event, side: bool) {
    && ev.side == side
    && if ev.Local? then ev.c.ConnectionLost? else Sent(sys, !side) != [] && !Fits(Sent(sys, !side)[0])
  }

  predicate EndedBy(sys: System, evs: seq<Event>, side: bool)
    decreases |evs|
  {
    evs != [] && (Ends(sys, evs[0], side) || EndedBy(StepTo(sys, evs[0]), evs[1..], side))
  }

  lemma NextClosed(s: Session, c: Call)
    ensures Next(s, c).s.closed <==> s.closed || c.ConnectionLost? || (c.Incoming? && !Fits(c.m))
  {
    hide StreamCall, Receive, ValidAppService, GuestID, Table;
  }

  lemma StepClosed(sys: System, ev: Event, side: bool)
    ensures End(StepTo(sys, ev), side).closed <==> End(sys, side).closed || Ends(sys, ev, side)
  {
    hide Next;
    if ev.side == side {
      match ev
      case Local(_, c) => NextClosed(End(sys, side), c);
      case Arrive(_) =>
        if Sent(sys, !side) != [] {
          NextClosed(End(sys, side), Incoming(Sent(sys, !side)[0]));
        }
    }
  }

  /** In every run a session has ended exactly if it lost its connection or took a message that does not decode. */
  lemma {:induction false} ClosedIff(sys: System, evs: seq<Event>, side: bool)
    ensures End(Run(sys, evs), side).closed <==> End(sys, side).closed || EndedBy(sys, evs, side)
    decreases |evs|
  {
    hide StepTo, Ends;
    if evs != [] {
      StepClosed(sys, evs[0], side);
      ClosedIff(StepTo(sys, evs[0]), evs[1..], side);
    }
  }

  lemma {:induction false} FitEnds(sys: System, evs: seq<Event>, side: bool)
    requires FitThroughout(sys, evs)
    ensures EndedBy(sys, evs, side) <==> Local(side, ConnectionLost) in evs
    decreases |evs|
  {
    hide StepTo, Fits;
    if evs != [] {
      FitEnds(StepTo(sys, evs[0]), evs[1..], side);
      assert evs == [evs[0]] + evs[1..];
    }
  }

  /**
   In every run in which no call sends an over-long reason, everything in flight fits, and a session
   has ended exactly if its own connection was lost.
   */
  lemma SessionsSurvive(evs: seq<Event>, side: bool)
    requires BriefRun(Start(), evs)
    ensures FitWires(Run(Start(), evs))
    ensures End(Run(Start(), evs), side).closed <==> Local(side, ConnectionLost) in evs
  {
    hide BothKept, Run;
    StartKept();
    FitsFrom(Start(), evs);
    ClosedIff(Start(), evs, side);
    FitEnds(Start(), evs, side);
  }

  /** The reasons the applications pass are shorter than 65536 bytes. */
  predicate BriefReasons(evs: seq<Event>) {
    forall i :: 0 <= i < |evs| && evs[i].Local? && (evs[i].c.ResetCall? || evs[i].c.HandlerReject?) ==>
      |evs[i].c.fault.message| < Uint16Space
  }

  /** It is enough that the applications pass short reasons. */
  lemma {:induction false} ShortReasons(sys: System, evs: seq<Event>)
    requires BriefReasons(evs)
    ensures BriefRun(sys, evs)
    decreases |evs|
  {
    hide StepTo;
    if evs != [] {
      assert BriefReasons(evs[1..]);
      ShortReasons(StepTo(sys, evs[0]), evs[1..]);
    }
  }

  lemma {:induction false} AllHeard(w: seq<AppMsg>)
    requires FitWire(w)
    ensures UntilUnfit(w) == w
  {
    hide Fits;
    if w != [] {
      AllHeard(w[1..]);
    }
  }

  /** Then the bytes in flight decode to exactly the messages in flight. */
  lemma BytesCarryAll(evs: seq<Event>)
    requires BriefRun(Start(), evs) && forall i :: 0 <= i < |evs| ==> EventTyped(evs[i])
    ensures var sys := Run(Start(), evs);
            Heard(Encoded(sys.toGuest)) == sys.toGuest && Heard(Encoded(sys.toHost)) == sys.toHost
  {
    hide BriefRun, Run, EventTyped, FitWire, Heard, Encoded;
    SessionsSurvive(evs, false);
    BytesCarryTheRun(evs);
    AllHeard(Run(Start(), evs).toGuest);
    AllHeard(Run(Start(), evs).toHost);
  }

  // ---- What an over-long reason costs ----

  function Deliveries(side: bool, n: nat): seq<Event> {
    if n == 0 then [] else [Arrive(side)] + Deliveries(side, n - 1)
  }

  /** A message that does not fit ends the session it is sent to, once it and what is ahead of it have arrived. */
  lemma {:induction false} UnfitEnds(sys: System, side: bool)
    requires !FitWire(Sent(sys, !side)) || End(sys, side).closed
    ensures End(Run(sys, Deliveries(side, |Sent(sys, !side)|)), side).closed
    decreases |Sent(sys, !side)|
  {
    hide Next, Fits;
    var w, evs := Sent(sys, !side), Deliveries(side, |Sent(sys, !side)|);
    if End(sys, side).closed {
      ClosedIff(sys, evs, side);
    } else {
      var after := StepTo(sys, Arrive(side));
      StepClosed(sys, Arrive(side), side);
      assert Sent(after, !side) == w[1..];
      assert evs[0] == Arrive(side) && evs[1..] == Deliveries(side, |w[1..]|);
      assert Fits(w[0]) ==> !FitWire(w[1..]);
      UnfitEnds(after, side);
    }
  }

  /** So a call with an over-long reason ends the peer's session and every stream on it, from any state. */
  lemma OverlongEnds(sys: System, side: bool, c: Call)
    requires BothKept(sys) && Overlong(End(sys, side), c)
    ensures var after := StepTo(sys, Local(side, c));
            var peer := End(Run(after, Deliveries(!side, |Sent(after, side)|)), !side);
            peer.closed && Table(peer) == {}
  {
    hide SessionInv, Overlong, Next, Run, Table;
    CallKind(End(sys, side), c);
    var sent := Next(End(sys, side), c).sent;
    CallFits(End(sys, side), c);
    assert !FitWire(Sent(sys, side) + sent) by {
      var i :| 0 <= i < |sent| && !Fits(sent[i]);
      assert (Sent(sys, side) + sent)[|Sent(sys, side)| + i] == sent[i];
    }
    var after := StepTo(sys, Local(side, c));
    UnfitEnds(after, !side);
    AnyStepLocal(sys, Local(side, c));
    AnyRunLocal(after, Deliveries(!side, |Sent(after, side)|));
    LedgerIsQueues(End(Run(after, Deliveries(!side, |Sent(after, side)|)), !side));
  }

  lemma CallKind(s: Session, c: Call)
    requires Overlong(s, c)
    ensures !c.Incoming?
  {
  }

  // ---- A run ----

  /** The host opens a stream, the guest's handler refuses it, and the refusal arrives. */
  function RefusedOpen(service: Bytes, meta: Bytes, fault: Fault): seq<Event> {
    [Local(false, OpenCall(service, meta)), Arrive(true), Local(true, HandlerReject(1, fault)), Arrive(false)]
  }

  /** The system just before the refusal arrives. */
  function Refusing(fault: Fault): System {
    System(Session(false, map[1 := NewStream(1, false)], 1, false, 0),
           Session(true, map[1 := AcceptFail(NewStream(1, true), 0, fault).st], 0, false, 0),
           [], [AppReject(1, fault.code, fault.message)])
  }

  lemma RefusedRun(service: Bytes, meta: Bytes, fault: Fault)
    requires ValidAppService(service) && |meta| <= AppMaxMetaBytes
    ensures Run(Start(), RefusedOpen(service, meta, fault)) == StepTo(Refusing(fault), Arrive(false))
  {
    hide StepTo;
    var sys1 := System(Session(false, map[1 := NewStream(1, false)], 1, false, 0), NewSession(true),
                       [AppOpen(1, service, meta)], []);
    var sys2 := sys1.(guest := Session(true, map[1 := NewStream(1, true)], 0, false, 0), toGuest := []);
    OpenSteps(sys1, sys2, service, meta);
    RefuseStep(sys2, fault);
    FourSteps(Start(), Local(false, OpenCall(service, meta)), Arrive(true), Local(true, HandlerReject(1, fault)),
              Arrive(false));
  }

  lemma FourSteps(sys: System, a: Event, b: Event, c: Event, d: Event)
    ensures Run(sys, [a, b, c, d]) == StepTo(StepTo(StepTo(StepTo(sys, a), b), c), d)
  {
    hide StepTo;
    assert [a, b, c, d][1..] == [b, c, d] && [b, c, d][1..] == [c, d] && [c, d][1..] == [d] && [d][1..] == [];
    var half := StepTo(StepTo(sys, a), b);
    assert Run(sys, [a, b, c, d]) == Run(half, [c, d]);
    assert Run(half, [c, d]) == Run(StepTo(StepTo(half, c), d), []);
  }

  lemma OpenSteps(sys1: System, sys2: System, service: Bytes, meta: Bytes)
    requires ValidAppService(service) && |meta| <= AppMaxMetaBytes
    requires sys1 == System(Session(false, map[1 := NewStream(1, false)], 1, false, 0), NewSession(true),
                            [AppOpen(1, service, meta)], [])
    requires sys2 == sys1.(guest := Session(true, map[1 := NewStream(1, true)], 0, false, 0), toGuest := [])
    ensures StepTo(Start(), Local(false, OpenCall(service, meta))) == sys1
    ensures StepTo(sys1, Arrive(true)) == sys2
  {
    assert |service| <= 31;
    hide ValidAppService, NewStream;
    assert Table(Start().host) == {} && Table(sys1.guest) == {};
  }

  lemma RefuseStep(sys: System, fault: Fault)
    requires sys == System(Session(false, map[1 := NewStream(1, false)], 1, false, 0),
                           Session(true, map[1 := NewStream(1, true)], 0, false, 0), [], [])
    ensures StepTo(sys, Local(true, HandlerReject(1, fault))) == Refusing(fault)
  {
  }

  /**
   A refusal reaches the opener as a refusal exactly if its reason fits. If it does not, the opener's
   session ends with ERROR(BAD_PAYLOAD) and its stream as if the connection had been lost.
   */
  lemma LongRefusal(service: Bytes, meta: Bytes, fault: Fault)
    requires ValidAppService(service) && |meta| <= AppMaxMetaBytes
    ensures var host := Run(Start(), RefusedOpen(service, meta, fault)).host;
            && 1 in host.streams
            && if |fault.message| < Uint16Space then !host.closed && host.streams[1].hs.openErr == Some(fault)
               else host.closed && host.streams[1].hs.openErr.None?
                    && host.streams[1].life.reset == Some(ConnectionClosed)
    ensures Next(Refusing(fault).host, Incoming(Refusing(fault).toHost[0])).errors
         == if |fault.message| < Uint16Space then [] else [BadPayload]
  {
    RefusedRun(service, meta, fault);
    assert 1 in Table(Refusing(fault).host);
  }
}
