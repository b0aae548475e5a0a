/**
 * The frame listener: the dispatcher that classifies each captured frame,
 * the handlers it calls, and the bookkeeping they do.
 *
 * The specification is a pure state machine over ListenerState: Dispatch
 * decides which handler calls a frame causes, Apply performs one call, Run
 * performs a list of them and Receive is the whole reaction to a frame. The
 * class Sniffer holds the same state in fields and has one method per
 * handler of the source; each method is proved to do what the pure
 * specification says.
 */
module Listener {
  import opened Wrappers
  import opened Dot11
  import opened Counter

  /** The configuration the listener runs with. */
  datatype Config = Config(mac: Mac, ssid: string, listenOnly: bool)

  /** A call the dispatcher makes to one of its handlers. */
  datatype Call =
    | RespondProbe(request: Frame)
    | RespondAuth(receiver: Mac)
    | RecordAssoc(frame: Frame)

  /**
   * The dispatcher's decision: the handler calls to make, in order, or a
   * fault when a probe request carries no information element at all (the
   * element lookup raises, and nothing is done).
   */
  datatype Decision = Calls(calls: seq<Call>) | NoElement

  /**
   * Classifies a captured frame by its subtype alone (its type is never
   * looked at), then by its receiver address, its first element and the
   * listen-only flag.
   */
  function Dispatch(cfg: Config, p: Frame): (d: Decision)
    ensures d.NoElement? <==> p.subtype == ProbeReqSubtype && |p.elements| == 0
    ensures d.Calls? ==> |d.calls| <= 2
    ensures d.Calls? ==> forall c :: c in d.calls ==>
      && (c.RespondAuth? ==> p.subtype == AuthSubtype && p.addr1 == cfg.mac && c.receiver == p.addr2 && d.calls == [c])
      && (c.RespondProbe? ==> p.subtype == ProbeReqSubtype && c.request == p && d.calls == [c])
      && (c.RecordAssoc? ==> (p.subtype == AssocReqSubtype || p.subtype == ReassocReqSubtype) && c.frame == p
                             && (p.addr1 == cfg.mac || cfg.listenOnly))
  {
    if p.subtype == AuthSubtype then
      Calls(if p.addr1 == cfg.mac then [RespondAuth(p.addr2)] else [])
    else if p.subtype == ProbeReqSubtype then
      if |p.elements| == 0 then NoElement
      else if p.elements[0].info == cfg.ssid || p.elements[0].len == 0 then Calls([RespondProbe(p)])
      else Calls([])
    else if p.subtype == AssocReqSubtype || p.subtype == ReassocReqSubtype then
      Calls((if p.addr1 == cfg.mac then [RecordAssoc(p)] else []) + (if cfg.listenOnly then [RecordAssoc(p)] else []))
    else
      Calls([])
  }

  /**
   * Everything the listener changes: the station table, the frames put on
   * the output queue, the frames handed to the radio, the two reply
   * templates (mutated in place), and the shared counter's value and number
   * of draws.
   */
  datatype ListenerState = ListenerState(
    stationTable: map<Mac, Frame>,
    queue: seq<Frame>,
    sent: seq<OutFrame>,
    probeFrame: OutFrame,
    authFrame: OutFrame,
    counter: int,
    draws: nat)

  /** The probe response to `request` when the counter yields `n`. */
  function ProbeReply(template: OutFrame, request: Frame, n: int): OutFrame
  {
    template.(seqNum := n, addr1 := request.addr2)
  }

  /** The authentication reply to `receiver` when the counter yields `n`: stamped `n - 1`, not reduced. */
  function AuthReply(template: OutFrame, receiver: Mac, n: int): OutFrame
  {
    template.(addr1 := receiver, seqNum := n - 1)
  }

  /** Performs one handler call. */
  function Apply(s: ListenerState, advance: int -> int, c: Call): (r: ListenerState)
    ensures c.RecordAssoc? ==>
      && r.stationTable.Keys == s.stationTable.Keys + {c.frame.addr2} && r.stationTable[c.frame.addr2] == c.frame
      && (forall m :: m in s.stationTable && m != c.frame.addr2 ==> r.stationTable[m] == s.stationTable[m])
      && r.queue == s.queue + [c.frame]
      && r.sent == s.sent && r.counter == s.counter && r.draws == s.draws
      && r.probeFrame == s.probeFrame && r.authFrame == s.authFrame
    ensures !c.RecordAssoc? ==>
      && r.counter == advance(s.counter) && r.draws == s.draws + 1
      && |r.sent| == |s.sent| + 1 && r.sent[..|s.sent|] == s.sent
      && r.stationTable == s.stationTable && r.queue == s.queue
    ensures c.RespondProbe? ==>
      && r.sent[|s.sent|] == r.probeFrame && Restamped(r.probeFrame, s.probeFrame)
      && r.probeFrame.addr1 == c.request.addr2 && r.probeFrame.seqNum == r.counter
      && r.authFrame == s.authFrame
    ensures c.RespondAuth? ==>
      && r.sent[|s.sent|] == r.authFrame && Restamped(r.authFrame, s.authFrame)
      && r.authFrame.addr1 == c.receiver && r.authFrame.seqNum == r.counter - 1
      && r.probeFrame == s.probeFrame
  {
    match c
    case RespondProbe(request) =>
      var n := advance(s.counter);
      var f := ProbeReply(s.probeFrame, request, n);
      s.(probeFrame := f, sent := s.sent + [f], counter := n, draws := s.draws + 1)
    case RespondAuth(receiver) =>
      var n := advance(s.counter);
      var f := AuthReply(s.authFrame, receiver, n);
      s.(authFrame := f, sent := s.sent + [f], counter := n, draws := s.draws + 1)
    case RecordAssoc(frame) =>
      s.(stationTable := s.stationTable[frame.addr2 := frame], queue := s.queue + [frame])
  }

  /** Performs handler calls in order. */
  function Run(s: ListenerState, advance: int -> int, calls: seq<Call>): ListenerState
    decreases |calls|
  {
    if calls == [] then s else Run(Apply(s, advance, calls[0]), advance, calls[1..])
  }

  /** Running a single call is applying it. */
  lemma RunSingle(s: ListenerState, advance: int -> int, c: Call)
    ensures Run(s, advance, [c]) == Apply(s, advance, c)
  {
    assert [c][1..] == [];
  }

  /** Recording requests never sends anything, never draws the counter and leaves the templates alone. */
  lemma {:induction false} RunRecordsOnly(s: ListenerState, advance: int -> int, calls: seq<Call>)
    requires forall c :: c in calls ==> c.RecordAssoc?
    ensures var s' := Run(s, advance, calls);
      && s'.sent == s.sent && s'.counter == s.counter && s'.draws == s.draws
      && s'.probeFrame == s.probeFrame && s'.authFrame == s.authFrame
      && |s'.queue| == |s.queue| + |calls|
    decreases |calls|
  {
    if calls != [] {
      assert calls[0] in calls;
      assert forall c :: c in calls[1..] ==> c in calls;
      RunRecordsOnly(Apply(s, advance, calls[0]), advance, calls[1..]);
    }
  }

  /**
   * The listener's whole reaction to a captured frame; None when handling it
   * faults, which only a probe request without elements does. Only
   * authentication and probe requests can make the listener send.
   */
  function Receive(cfg: Config, advance: int -> int, s: ListenerState, p: Frame): (r: Option<ListenerState>)
    ensures r.None? <==> p.subtype == ProbeReqSubtype && |p.elements| == 0
    ensures r.Some? && p.subtype != AuthSubtype && p.subtype != ProbeReqSubtype ==>
      && r.value.sent == s.sent && r.value.counter == s.counter && r.value.draws == s.draws
      && r.value.probeFrame == s.probeFrame && r.value.authFrame == s.authFrame
  {
    match Dispatch(cfg, p)
    case NoElement => None
    case Calls(calls) =>
      assert p.subtype != AuthSubtype && p.subtype != ProbeReqSubtype ==>
        var s' := Run(s, advance, calls);
        s'.sent == s.sent && s'.counter == s.counter && s'.draws == s.draws
        && s'.probeFrame == s.probeFrame && s'.authFrame == s.authFrame
      by {
        if p.subtype != AuthSubtype && p.subtype != ProbeReqSubtype {
          RunRecordsOnly(s, advance, calls);
        }
      }
      Some(Run(s, advance, calls))
  }

  // ---------------------------------------------------------------------
  // What the dispatcher promises

  /** Frames of any other subtype cause no send, no station-table change and no enqueue. */
  lemma OtherSubtypesIgnored(cfg: Config, advance: int -> int, s: ListenerState, p: Frame)
    requires p.subtype !in {AuthSubtype, ProbeReqSubtype, AssocReqSubtype, ReassocReqSubtype}
    ensures Receive(cfg, advance, s, p) == Some(s)
  {
  }

  /**
   * An authentication frame is answered with exactly one reply, sent to its
   * transmitter and stamped with the counter's new value minus one, if and
   * only if it is addressed to us; otherwise nothing changes.
   */
  lemma AuthAnsweredIffAddressedToUs(cfg: Config, advance: int -> int, s: ListenerState, p: Frame)
    requires p.subtype == AuthSubtype
    ensures Receive(cfg, advance, s, p).Some?
    ensures var s' := Receive(cfg, advance, s, p).value;
      && (|s'.sent| == |s.sent| + 1 <==> p.addr1 == cfg.mac)
      && (p.addr1 != cfg.mac ==> s' == s)
      && (p.addr1 == cfg.mac ==>
            var reply := AuthReply(s.authFrame, p.addr2, advance(s.counter));
            && s'.sent == s.sent + [reply]
            && reply.addr1 == p.addr2 && reply.seqNum == advance(s.counter) - 1
            && s' == s.(authFrame := reply, sent := s.sent + [reply], counter := advance(s.counter), draws := s.draws + 1))
  {
    if p.addr1 == cfg.mac {
      RunSingle(s, advance, RespondAuth(p.addr2));
    }
  }

  /**
   * A probe request that carries an element is answered with exactly one
   * probe response, sent to its transmitter and stamped with the counter's
   * new value, if and only if its first element's text equals our SSID or
   * that element's length field is 0; otherwise nothing changes.
   */
  lemma ProbeAnsweredIffOurSsidOrWildcard(cfg: Config, advance: int -> int, s: ListenerState, p: Frame)
    requires p.subtype == ProbeReqSubtype && |p.elements| > 0
    ensures Receive(cfg, advance, s, p).Some?
    ensures var s' := Receive(cfg, advance, s, p).value;
      var wanted := p.elements[0].info == cfg.ssid || p.elements[0].len == 0;
      && (|s'.sent| == |s.sent| + 1 <==> wanted)
      && (!wanted ==> s' == s)
      && (wanted ==>
            var reply := ProbeReply(s.probeFrame, p, advance(s.counter));
            && reply.addr1 == p.addr2 && reply.seqNum == advance(s.counter)
            && s' == s.(probeFrame := reply, sent := s.sent + [reply], counter := advance(s.counter), draws := s.draws + 1))
  {
    RunSingle(s, advance, RespondProbe(p));
  }

  /** A probe request without any element makes the handler fault before it changes anything. */
  lemma ProbeWithoutElementFaults(cfg: Config, advance: int -> int, s: ListenerState, p: Frame)
    requires p.subtype == ProbeReqSubtype && |p.elements| == 0
    ensures Receive(cfg, advance, s, p) == None
  {
  }

  /** Whether a probe request is answered does not depend on its receiver address. */
  lemma ProbeReceiverNotChecked(cfg: Config, advance: int -> int, s: ListenerState, p: Frame, other: Mac)
    requires p.subtype == ProbeReqSubtype
    ensures Receive(cfg, advance, s, p) == Receive(cfg, advance, s, p.(addr1 := other))
  {
    RunSingle(s, advance, RespondProbe(p));
    RunSingle(s, advance, RespondProbe(p.(addr1 := other)));
  }

  /**
   * Nor does the frame type matter: a frame that is not a management frame
   * but has the authentication subtype (a control frame of subtype 11, an
   * RTS) is answered like an authentication request.
   */
  lemma AuthFrameTypeNotChecked(cfg: Config, advance: int -> int, s: ListenerState, p: Frame, ftype: nat)
    requires p.subtype == AuthSubtype
    ensures Receive(cfg, advance, s, p) == Receive(cfg, advance, s, p.(ftype := ftype))
  {
  }

  /**
   * An association or reassociation request is recorded once when it is
   * addressed to us and once more when listen-only is set: the queue grows
   * by the frame that many times, the station table maps its transmitter to
   * it whenever it was recorded at all, and nothing is sent.
   */
  lemma AssocRecordedPerRule(cfg: Config, advance: int -> int, s: ListenerState, p: Frame)
    requires p.subtype == AssocReqSubtype || p.subtype == ReassocReqSubtype
    ensures Receive(cfg, advance, s, p).Some?
    ensures var s' := Receive(cfg, advance, s, p).value;
      var toUs := p.addr1 == cfg.mac;
      && s'.queue == s.queue + (if toUs then [p] else []) + (if cfg.listenOnly then [p] else [])
      && s'.stationTable == (if toUs || cfg.listenOnly then s.stationTable[p.addr2 := p] else s.stationTable)
      && s'.sent == s.sent && s'.counter == s.counter && s'.draws == s.draws
      && s'.probeFrame == s.probeFrame && s'.authFrame == s.authFrame
  {
    var toUs := p.addr1 == cfg.mac;
    var calls := Dispatch(cfg, p).calls;
    if toUs && cfg.listenOnly {
      assert calls[1..] == [RecordAssoc(p)];
      RunSingle(Apply(s, advance, RecordAssoc(p)), advance, RecordAssoc(p));
    } else if toUs || cfg.listenOnly {
      assert calls == [RecordAssoc(p)];
      RunSingle(s, advance, RecordAssoc(p));
    }
  }

  /** Addressed to us with listen-only set, an association request is put on the queue twice. */
  lemma AssocQueuedTwice(cfg: Config, advance: int -> int, s: ListenerState, p: Frame)
    requires p.subtype == AssocReqSubtype && p.addr1 == cfg.mac && cfg.listenOnly
    ensures Receive(cfg, advance, s, p).Some?
    ensures Receive(cfg, advance, s, p).value.queue == s.queue + [p, p]
  {
    AssocRecordedPerRule(cfg, advance, s, p);
  }

  // ---------------------------------------------------------------------
  // What the handlers keep

  /**
   * The reply templates may differ from the ones built at startup only in
   * their receiver address and sequence number, and every frame ever sent is
   * one of the two templates with only those two fields overwritten.
   */
  ghost predicate TemplatesIntact(s: ListenerState, mac: Mac, ies: seq<Element>)
  {
    && Restamped(s.probeFrame, ProbeResponseTemplate(mac, ies))
    && Restamped(s.authFrame, AuthTemplate(mac))
    && forall i :: 0 <= i < |s.sent| ==>
         Restamped(s.sent[i], ProbeResponseTemplate(mac, ies)) || Restamped(s.sent[i], AuthTemplate(mac))
  }

  /**
   * Over any run of handler calls: frames are only appended to what was
   * sent, the counter is drawn exactly once per frame sent, the templates
   * stay intact, and the station table only gains or overwrites entries.
   */
  lemma {:induction false} RunKeepsBookkeeping(s: ListenerState, advance: int -> int, calls: seq<Call>, mac: Mac, ies: seq<Element>)
    requires TemplatesIntact(s, mac, ies)
    ensures var s' := Run(s, advance, calls);
      && |s'.sent| >= |s.sent| && s'.sent[..|s.sent|] == s.sent
      && s'.draws == s.draws + (|s'.sent| - |s.sent|)
      && TemplatesIntact(s', mac, ies)
      && s.stationTable.Keys <= s'.stationTable.Keys
      && |s'.queue| >= |s.queue| && s'.queue[..|s.queue|] == s.queue
    decreases |calls|
  {
    if calls != [] {
      var t := Apply(s, advance, calls[0]);
      assert TemplatesIntact(t, mac, ies);
      RunKeepsBookkeeping(t, advance, calls[1..], mac, ies);
      var s' := Run(t, advance, calls[1..]);
      assert s'.sent[..|t.sent|][..|s.sent|] == s'.sent[..|s.sent|];
      assert s'.queue[..|t.queue|][..|s.queue|] == s'.queue[..|s.queue|];
    }
  }

  /** Handling a frame draws the counter exactly once per frame it sends, and keeps the templates intact. */
  lemma ReceiveDrawsOncePerSend(cfg: Config, advance: int -> int, s: ListenerState, p: Frame, ies: seq<Element>)
    requires TemplatesIntact(s, cfg.mac, ies)
    requires Receive(cfg, advance, s, p).Some?
    ensures var s' := Receive(cfg, advance, s, p).value;
      && s'.draws - s.draws == |s'.sent| - |s.sent| >= 0
      && TemplatesIntact(s', cfg.mac, ies)
  {
    RunKeepsBookkeeping(s, advance, Dispatch(cfg, p).calls, cfg.mac, ies);
  }

  // ---------------------------------------------------------------------
  // The listener

  class Sniffer {
    const cfg: Config
    /** The advertised information elements of the probe-response template. */
    const ies: seq<Element>
    /** The counter shared with the beacon worker. */
    const counter: SequenceCounter
    /** The most recent association request of each station. */
    var stationTable: map<Mac, Frame>
    /** Every frame put on the output queue, in order. */
    var queue: seq<Frame>
    /** Every frame handed to the radio, in order. */
    var sent: seq<OutFrame>
    var probeResponseFrame: OutFrame
    var authFrame: OutFrame

    /** The listener's state as the pure specification sees it. */
    ghost function State(): ListenerState
      reads this, counter
    {
      ListenerState(stationTable, queue, sent, probeResponseFrame, authFrame, counter.value, counter.draws)
    }

    ghost predicate Valid()
      reads this, counter
    {
      TemplatesIntact(State(), cfg.mac, ies)
    }

    constructor (cfg: Config, ies: seq<Element>, counter: SequenceCounter)
      ensures Valid()
      ensures this.cfg == cfg && this.ies == ies && this.counter == counter
      ensures stationTable == map[] && queue == [] && sent == []
      ensures probeResponseFrame == ProbeResponseTemplate(cfg.mac, ies) && authFrame == AuthTemplate(cfg.mac)
    {
      this.cfg := cfg;
      this.ies := ies;
      this.counter := counter;
      stationTable := map[];
      queue := [];
      sent := [];
      probeResponseFrame := ProbeResponseTemplate(cfg.mac, ies);
      authFrame := AuthTemplate(cfg.mac);
    }

    /** Reacts to one captured frame; `fault` is set when the frame makes the handler raise. */
    method ReceivedFrame(p: Frame) returns (fault: bool)
      requires Valid()
      modifies this, counter
      ensures Valid()
      ensures fault <==> Dispatch(cfg, p).NoElement?
      ensures Receive(cfg, counter.advance, old(State()), p) == if fault then None else Some(State())
      ensures fault ==> State() == old(State())
    {
      fault := false;
      if p.subtype == AuthSubtype {
        ghost var s0 := State();
        if p.addr1 == cfg.mac {
          Auth(p.addr2);
        }
        AuthAnsweredIffAddressedToUs(cfg, counter.advance, s0, p);
      } else if p.subtype == ProbeReqSubtype {
        if |p.elements| == 0 {
          fault := true;
          return;
        }
        ghost var s0 := State();
        var ssid := p.elements[0].info;
        if ssid == cfg.ssid || p.elements[0].len == 0 {
          ProbeResponse(p);
        }
        ProbeAnsweredIffOurSsidOrWildcard(cfg, counter.advance, s0, p);
      } else if p.subtype == AssocReqSubtype || p.subtype == ReassocReqSubtype {
        ghost var s0 := State();
        if p.addr1 == cfg.mac {
          AssocReq(p);
        }
        if cfg.listenOnly {
          AssocReq(p);
        }
        AssocRecordedPerRule(cfg, counter.advance, s0, p);
        ghost var r := Receive(cfg, counter.advance, s0, p).value;
        assert r.queue == queue && r.stationTable == stationTable;
      } else {
        OtherSubtypesIgnored(cfg, counter.advance, State(), p);
      }
    }

    /** Stamps the probe-response template with a fresh counter value, addresses it to the requester and sends it. */
    method ProbeResponse(request: Frame)
      requires Valid()
      modifies this, counter
      ensures Valid()
      ensures State() == Apply(old(State()), counter.advance, RespondProbe(request))
    {
      var n := counter.Next();
      probeResponseFrame := probeResponseFrame.(seqNum := n);
      probeResponseFrame := probeResponseFrame.(addr1 := request.addr2);
      sent := sent + [probeResponseFrame];
    }

    /** Records the request in the station table and puts it on the output queue. */
    method AssocReq(frame: Frame)
      requires Valid()
      modifies this
      ensures Valid()
      ensures State() == Apply(old(State()), counter.advance, RecordAssoc(frame))
    {
      stationTable := stationTable[frame.addr2 := frame];
      queue := queue + [frame];
    }

    /** Addresses the authentication template to `receiver`, stamps it with the counter's new value minus one and sends it. */
    method Auth(receiver: Mac)
      requires Valid()
      modifies this, counter
      ensures Valid()
      ensures State() == Apply(old(State()), counter.advance, RespondAuth(receiver))
    {
      authFrame := authFrame.(addr1 := receiver);
      var n := counter.Next();
      authFrame := authFrame.(seqNum := n - 1);
      sent := sent + [authFrame];
    }
  }
}
