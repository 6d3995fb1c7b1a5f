/** The capture engine of `capture/capture.go`.

    A capture session picks its packet source (a replay file, or the live
    wildcard device with fixed parameters), signals readiness once the source
    is open, and then routes every captured frame to two bounded queues: frames
    with an IPsec ESP layer to the ESP queue, frames with an ICMPv4 layer to the
    ICMP queue, a frame with both to both (ESP first). Delivery never blocks: a
    full queue drops the frame. A quit event ends the loop.

    The packet library is abstracted away: a frame is its two layer-presence
    flags, opening a source is a function from the chosen source to an optional
    error, and the `select` between "frame available" and "quit" is an event
    sequence fixing one interleaving. */
module Capture {
  import opened Wrappers
  import opened Config

  /** A captured frame, reduced to the two layers the engine looks for. */
  datatype Frame = Frame(hasESP: bool, hasICMPv4: bool)

  /** What the capture loop receives next: a frame, a nil packet (the packet
      channel yields nil once a source is exhausted), or the quit signal. */
  datatype Event = Packet(frame: Frame) | NilPacket | Quit

  /** A bounded Go channel seen from the sending side: what it holds and how
      much it can hold. */
  datatype Queue = Queue(items: seq<Frame>, capacity: nat)

  datatype QueueId = EspQueue | IcmpQueue

  /** The two delivery queues (`ipSecChannel` and `icmpChannel`). */
  datatype Queues = Queues(esp: Queue, icmp: Queue)

  /** Observable events of a session: the ready signal, and per offered frame
      whether it was delivered to or discarded from a queue. */
  datatype Obs = Ready | Delivered(queue: QueueId, frame: Frame) | Discarded(queue: QueueId, frame: Frame)

  /** The error `putChannel` returns for a full queue. */
  const ChannelFull := "Channel full, discarding packet."

  /** The queue after an offer and the error the offer returned. */
  datatype Put = Put(queue: Queue, err: Option<string>)

  /** Non-blocking send: append at the tail when there is room, otherwise leave
      the queue alone and return the channel-full error. */
  function PutChannel(f: Frame, q: Queue): (r: Put)
    ensures r.queue.capacity == q.capacity
    ensures r.err == None <==> |q.items| < q.capacity
    ensures r.err == None ==> r.queue.items == q.items + [f]
    ensures r.err != None ==> r.err == Some(ChannelFull) && r.queue == q
    ensures |q.items| <= q.capacity ==> |r.queue.items| <= r.queue.capacity
  {
    if |q.items| < q.capacity then Put(Queue(q.items + [f], q.capacity), None)
    else Put(q, Some(ChannelFull))
  }

  function QueueOf(qs: Queues, id: QueueId): Queue
  {
    match id
    case EspQueue => qs.esp
    case IcmpQueue => qs.icmp
  }

  function WithQueue(qs: Queues, id: QueueId, q: Queue): Queues
  {
    match id
    case EspQueue => qs.(esp := q)
    case IcmpQueue => qs.(icmp := q)
  }

  /** Whether a frame has the layer that queue `id` collects. */
  predicate Carries(f: Frame, id: QueueId)
  {
    match id
    case EspQueue => f.hasESP
    case IcmpQueue => f.hasICMPv4
  }

  /** What offering `f` to queue `q` is observed as. */
  function Verdict(id: QueueId, f: Frame, q: Queue): Obs
  {
    if PutChannel(f, q).err == None then Delivered(id, f) else Discarded(id, f)
  }

  /** The observations of a log that concern queue `id`, in order. */
  function LogOf(log: seq<Obs>, id: QueueId): seq<Obs>
  {
    if |log| == 0 then []
    else (if !log[0].Ready? && log[0].queue == id then [log[0]] else []) + LogOf(log[1..], id)
  }

  /** The queues after routing a frame, and what was observed on the way. */
  datatype Routed = Routed(queues: Queues, log: seq<Obs>)

  /** Offers `f` to queue `id`; the error `putChannel` returns is not acted on. */
  function Offer(f: Frame, id: QueueId, qs: Queues): Routed
  {
    Routed(WithQueue(qs, id, PutChannel(f, QueueOf(qs, id)).queue), [Verdict(id, f, QueueOf(qs, id))])
  }

  /** The body of the loop for one non-nil packet: the ESP queue is offered the
      frame when it has an ESP layer, then the ICMP queue when it has an ICMPv4
      layer; a queue whose layer is absent is left alone, and a drop on one
      queue does not keep the frame from the other. */
  function RouteFrame(f: Frame, qs: Queues): (r: Routed)
    ensures r.queues.esp == if f.hasESP then PutChannel(f, qs.esp).queue else qs.esp
    ensures r.queues.icmp == if f.hasICMPv4 then PutChannel(f, qs.icmp).queue else qs.icmp
    ensures r.log == (if f.hasESP then [Verdict(EspQueue, f, qs.esp)] else [])
                   + (if f.hasICMPv4 then [Verdict(IcmpQueue, f, qs.icmp)] else [])
  {
    var afterEsp := if f.hasESP then Offer(f, EspQueue, qs) else Routed(qs, []);
    var afterIcmp := if f.hasICMPv4 then Offer(f, IcmpQueue, afterEsp.queues) else Routed(afterEsp.queues, []);
    Routed(afterIcmp.queues, afterEsp.log + afterIcmp.log)
  }

  /** Routing a frame as seen from one queue: the queue is offered the frame
      exactly when the frame carries its layer, and the log holds exactly that
      one verdict about it. */
  lemma {:induction false} RouteFrameSeenFrom(f: Frame, qs: Queues, id: QueueId)
    ensures QueueOf(RouteFrame(f, qs).queues, id)
         == if Carries(f, id) then PutChannel(f, QueueOf(qs, id)).queue else QueueOf(qs, id)
    ensures LogOf(RouteFrame(f, qs).log, id)
         == if Carries(f, id) then [Verdict(id, f, QueueOf(qs, id))] else []
  {
    var log := RouteFrame(f, qs).log;
    var espPart := if f.hasESP then [Verdict(EspQueue, f, qs.esp)] else [];
    var icmpPart := if f.hasICMPv4 then [Verdict(IcmpQueue, f, qs.icmp)] else [];
    LogOfAppend(espPart, icmpPart, id);
    assert LogOf([], id) == [];
    if f.hasESP {
      assert espPart[1..] == [];
    }
    if f.hasICMPv4 {
      assert icmpPart[1..] == [];
    }
  }

  /** Where the capture loop stands after an event sequence. */
  datatype LoopRun = LoopRun(queues: Queues, log: seq<Obs>, quit: bool, consumed: nat)

  /** The `for { select { ... } }` loop of `capture` over a sequence of events. */
  function Loop(events: seq<Event>, qs: Queues): (r: LoopRun)
    ensures r.quit <==> Quit in events
    ensures r.consumed <= |events|
    ensures !r.quit ==> r.consumed == |events|
    ensures Ready !in r.log
    decreases |events|
  {
    if |events| == 0 then LoopRun(qs, [], false, 0)
    else
      match events[0]
      case Quit => LoopRun(qs, [], true, 1)
      case NilPacket =>
        var rest := Loop(events[1..], qs);
        rest.(consumed := rest.consumed + 1)
      case Packet(f) =>
        var step := RouteFrame(f, qs);
        var rest := Loop(events[1..], step.queues);
        LoopRun(rest.queues, step.log + rest.log, rest.quit, rest.consumed + 1)
  }

  /** A loop that quits stops at the first quit event: it has consumed that
      event and every event before it, and none of those was a quit. */
  lemma {:induction false} LoopStopsAtFirstQuit(events: seq<Event>, qs: Queues)
    requires Quit in events
    ensures var r := Loop(events, qs);
      && 0 < r.consumed <= |events| && events[r.consumed - 1] == Quit
      && Quit !in events[..r.consumed - 1]
    decreases |events|
  {
    if events[0] != Quit {
      assert events == [events[0]] + events[1..];
      var next := match events[0] case Packet(f) => RouteFrame(f, qs).queues case _ => qs;
      LoopStopsAtFirstQuit(events[1..], next);
      var c := Loop(events[1..], next).consumed;
      assert events[..c] == [events[0]] + events[1..][..c - 1];
    }
  }

  // ---------------------------------------------------------------------------
  // An independent description of one queue's fate
  // ---------------------------------------------------------------------------

  /** The events the loop gets to see: everything before the first quit. */
  function UntilQuit(events: seq<Event>): seq<Event>
  {
    if |events| == 0 || events[0] == Quit then [] else [events[0]] + UntilQuit(events[1..])
  }

  /** The frames among `events` that carry the layer of queue `id`, in order. */
  function Offered(events: seq<Event>, id: QueueId): seq<Frame>
  {
    if |events| == 0 then []
    else (if events[0].Packet? && Carries(events[0].frame, id) then [events[0].frame] else [])
         + Offered(events[1..], id)
  }

  /** Free slots of a queue. */
  function Room(q: Queue): nat
  {
    if |q.items| < q.capacity then q.capacity - |q.items| else 0
  }

  /** The first `n` frames of `frames` (all of them when there are fewer). */
  function Take(frames: seq<Frame>, n: nat): seq<Frame>
  {
    if n >= |frames| then frames else frames[..n]
  }

  /** The first `room` offered frames are delivered, every later one is discarded. */
  function Verdicts(id: QueueId, frames: seq<Frame>, room: nat): seq<Obs>
  {
    if |frames| == 0 then []
    else [if room > 0 then Delivered(id, frames[0]) else Discarded(id, frames[0])]
         + Verdicts(id, frames[1..], if room > 0 then room - 1 else 0)
  }

  lemma {:induction false} LogOfAppend(a: seq<Obs>, b: seq<Obs>, id: QueueId)
    ensures LogOf(a + b, id) == LogOf(a, id) + LogOf(b, id)
    decreases |a|
  {
    if |a| == 0 {
      assert a + b == b;
    } else {
      assert (a + b)[1..] == a[1..] + b;
      LogOfAppend(a[1..], b, id);
    }
  }

  lemma TakeCons(f: Frame, frames: seq<Frame>, n: nat)
    requires n > 0
    ensures Take([f] + frames, n) == [f] + Take(frames, n - 1)
  {
  }

  /** Each queue ends up holding its old contents followed by the first frames
      offered to it, as many as it had room for; the loop observes exactly
      those as delivered and every later frame offered to it as discarded.
      Nothing after the first quit is looked at, and nil packets change
      nothing. */
  lemma {:induction false} LoopPerQueue(events: seq<Event>, qs: Queues, id: QueueId)
    ensures var r := Loop(events, qs);
      var frames := Offered(UntilQuit(events), id);
      var q := QueueOf(qs, id);
      && QueueOf(r.queues, id) == Queue(q.items + Take(frames, Room(q)), q.capacity)
      && LogOf(r.log, id) == Verdicts(id, frames, Room(q))
    decreases |events|
  {
    var q := QueueOf(qs, id);
    if |events| == 0 || events[0] == Quit {
      var frames := Offered(UntilQuit(events), id);
      assert UntilQuit(events) == [];
      assert frames == [];
      assert Loop(events, qs).queues == qs && Loop(events, qs).log == [];
      assert Take(frames, Room(q)) == [] && Verdicts(id, frames, Room(q)) == [];
      assert q.items + [] == q.items;
      assert LogOf([], id) == [];
    } else {
      var rest := events[1..];
      var later := Offered(UntilQuit(rest), id);
      OfferedStep(events, id);
      match events[0]
      case NilPacket =>
        LoopPerQueue(rest, qs, id);
        assert Loop(events, qs).queues == Loop(rest, qs).queues;
        assert Loop(events, qs).log == Loop(rest, qs).log;
        assert Offered(UntilQuit(events), id) == later by {
          assert [] + later == later;
        }
      case Packet(f) =>
        var step := RouteFrame(f, qs);
        var q' := QueueOf(step.queues, id);
        var r' := Loop(rest, step.queues);
        var r := Loop(events, qs);
        var frames := Offered(UntilQuit(events), id);
        LoopPerQueue(rest, step.queues, id);
        PacketUnfold(events, qs, id);
        RouteFrameSeenFrom(f, qs, id);
        OfferThenReference(f, q, later, id);
        assert q' == (if Carries(f, id) then PutChannel(f, q).queue else q);
        assert LogOf(step.log, id) == (if Carries(f, id) then [Verdict(id, f, q)] else []);
        assert frames == (if Carries(f, id) then [f] else []) + later;
        calc {
          QueueOf(r.queues, id);
          QueueOf(r'.queues, id);
          Queue(q'.items + Take(later, Room(q')), q'.capacity);
          Queue(q.items + Take(frames, Room(q)), q.capacity);
        }
        calc {
          LogOf(r.log, id);
          LogOf(step.log, id) + LogOf(r'.log, id);
          (if Carries(f, id) then [Verdict(id, f, q)] else []) + Verdicts(id, later, Room(q'));
          Verdicts(id, frames, Room(q));
        }
    }
  }

  /** The frames offered to a queue by a non-quit event followed by `events[1..]`. */
  lemma OfferedStep(events: seq<Event>, id: QueueId)
    requires |events| > 0 && events[0] != Quit
    ensures Offered(UntilQuit(events), id)
         == (if events[0].Packet? && Carries(events[0].frame, id) then [events[0].frame] else [])
            + Offered(UntilQuit(events[1..]), id)
  {
    var u := UntilQuit(events);
    assert u == [events[0]] + UntilQuit(events[1..]);
    assert u[0] == events[0] && u[1..] == UntilQuit(events[1..]);
  }

  /** One loop step on a packet event, seen from queue `id`. */
  lemma {:induction false} PacketUnfold(events: seq<Event>, qs: Queues, id: QueueId)
    requires |events| > 0 && events[0].Packet?
    ensures var step := RouteFrame(events[0].frame, qs);
      var r' := Loop(events[1..], step.queues);
      && QueueOf(Loop(events, qs).queues, id) == QueueOf(r'.queues, id)
      && LogOf(Loop(events, qs).log, id) == LogOf(step.log, id) + LogOf(r'.log, id)
  {
    var step := RouteFrame(events[0].frame, qs);
    var r' := Loop(events[1..], step.queues);
    assert Loop(events, qs) == LoopRun(r'.queues, step.log + r'.log, r'.quit, r'.consumed + 1);
    LogOfAppend(step.log, r'.log, id);
  }

  /** Offering one frame and then following the reference for the later frames
      is the reference for all of them. */
  lemma {:induction false} OfferThenReference(f: Frame, q: Queue, later: seq<Frame>, id: QueueId)
    ensures var q' := if Carries(f, id) then PutChannel(f, q).queue else q;
      var frames := (if Carries(f, id) then [f] else []) + later;
      && Queue(q'.items + Take(later, Room(q')), q'.capacity) == Queue(q.items + Take(frames, Room(q)), q.capacity)
      && (if Carries(f, id) then [Verdict(id, f, q)] else []) + Verdicts(id, later, Room(q'))
         == Verdicts(id, frames, Room(q))
  {
    if !Carries(f, id) {
      assert [] + later == later;
    } else if Room(q) > 0 {
      TakeCons(f, later, Room(q));
      VerdictsCons(id, f, later, Room(q));
      assert (q.items + [f]) + Take(later, Room(q) - 1) == q.items + ([f] + Take(later, Room(q) - 1));
    } else {
      VerdictsCons(id, f, later, 0);
      assert Take([f] + later, 0) == [] && Take(later, 0) == [];
    }
  }

  lemma VerdictsCons(id: QueueId, f: Frame, later: seq<Frame>, room: nat)
    ensures Verdicts(id, [f] + later, room)
         == [if room > 0 then Delivered(id, f) else Discarded(id, f)]
            + Verdicts(id, later, if room > 0 then room - 1 else 0)
  {
    assert ([f] + later)[1..] == later;
  }


  lemma {:induction false} VerdictsWithoutRoom(id: QueueId, frames: seq<Frame>)
    ensures |Verdicts(id, frames, 0)| == |frames|
    ensures forall i :: 0 <= i < |frames| ==> Verdicts(id, frames, 0)[i] == Discarded(id, frames[i])
    decreases |frames|
  {
    if |frames| > 0 {
      VerdictsWithoutRoom(id, frames[1..]);
      forall i | 1 <= i < |frames|
        ensures Verdicts(id, frames, 0)[i] == Discarded(id, frames[i])
      {
        assert Verdicts(id, frames, 0)[i] == Verdicts(id, frames[1..], 0)[i - 1];
      }
    }
  }

  /** A full queue stays exactly as it is, and every frame offered to it is
      observed as discarded, however many there are; the loop goes on. */
  lemma {:induction false} FullQueueDropsEveryFrame(events: seq<Event>, qs: Queues, id: QueueId)
    requires |QueueOf(qs, id).items| >= QueueOf(qs, id).capacity
    ensures var r := Loop(events, qs);
      var frames := Offered(UntilQuit(events), id);
      && QueueOf(r.queues, id) == QueueOf(qs, id)
      && |LogOf(r.log, id)| == |frames|
      && forall i :: 0 <= i < |frames| ==> LogOf(r.log, id)[i] == Discarded(id, frames[i])
  {
    LoopPerQueue(events, qs, id);
    VerdictsWithoutRoom(id, Offered(UntilQuit(events), id));
  }

  /** What happens to one queue depends only on that queue and the events: a
      drop on the other queue changes nothing here. */
  lemma {:induction false} QueuesAreIndependent(events: seq<Event>, qs1: Queues, qs2: Queues, id: QueueId)
    requires QueueOf(qs1, id) == QueueOf(qs2, id)
    ensures QueueOf(Loop(events, qs1).queues, id) == QueueOf(Loop(events, qs2).queues, id)
    ensures LogOf(Loop(events, qs1).log, id) == LogOf(Loop(events, qs2).log, id)
  {
    LoopPerQueue(events, qs1, id);
    LoopPerQueue(events, qs2, id);
  }

  /** Once a quit has been received, later events are never processed. */
  lemma {:induction false} QuitEndsLoop(events: seq<Event>, later: seq<Event>, qs: Queues)
    requires Quit in events
    ensures Loop(events + later, qs) == Loop(events, qs)
    decreases |events|
  {
    assert (events + later)[0] == events[0];
    if events[0] != Quit {
      assert (events + later)[1..] == events[1..] + later;
      assert events == [events[0]] + events[1..];
      match events[0]
      case NilPacket =>
        QuitEndsLoop(events[1..], later, qs);
      case Packet(f) =>
        QuitEndsLoop(events[1..], later, RouteFrame(f, qs).queues);
    }
  }

  // ---------------------------------------------------------------------------
  // Source selection, the session and the ready handshake
  // ---------------------------------------------------------------------------

  /** Where frames come from. */
  datatype Source =
    | Offline(path: string)
    | Live(device: string, snapLen: int, promiscuous: bool, timeout: int)

  /** The source `capture` opens: the replay file when one is named, otherwise
      the wildcard device with a fixed snap length of 65000, promiscuous mode
      and a timeout argument of 100 (its unit is fixed by the capture library). */
  function SelectSource(pcapFile: string, snaplen: int): (s: Source)
    ensures pcapFile != "" ==> s == Offline(pcapFile)
    ensures pcapFile == "" ==> s == Live("any", 65000, true, 100)
  {
    if pcapFile != "" then Offline(pcapFile) else Live("any", 65000, true, 100)
  }

  /** The `snaplen` argument has no influence on the source opened. */
  lemma SnaplenIsIgnored(pcapFile: string, snaplen1: int, snaplen2: int)
    ensures SelectSource(pcapFile, snaplen1) == SelectSource(pcapFile, snaplen2)
  {
  }

  /** How a session ended: the source could not be opened (the error is
      returned), a quit was received (nil is returned), or it is still
      listening when the events run out. */
  datatype Status = OpenFailed(err: string) | Stopped | Listening

  datatype Session = Session(source: Source, log: seq<Obs>, queues: Queues, status: Status)

  /** The `capture` goroutine: open the selected source with `open` (which
      yields the error of a failed open), signal ready, run the loop. */
  function RunCapture(snaplen: int, pcapFile: string, open: Source -> Option<string>,
                      events: seq<Event>, qs: Queues): (c: Session)
    ensures c.source == SelectSource(pcapFile, snaplen)
    ensures open(c.source).Some? ==> c == Session(c.source, [], qs, OpenFailed(open(c.source).value))
    ensures open(c.source).None? ==> |c.log| > 0 && c.log[0] == Ready && Ready !in c.log[1..]
    ensures open(c.source).None? ==>
              c.queues == Loop(events, qs).queues && c.log == [Ready] + Loop(events, qs).log
    ensures c.status == Stopped <==> open(c.source).None? && Quit in events
    ensures c.status == Listening <==> open(c.source).None? && Quit !in events
  {
    var source := SelectSource(pcapFile, snaplen);
    match open(source)
    case Some(err) => Session(source, [], qs, OpenFailed(err))
    case None =>
      var run := Loop(events, qs);
      assert ([Ready] + run.log)[1..] == run.log;
      Session(source, [Ready] + run.log, run.queues, if run.quit then Stopped else Listening)
  }

  /** Whether `Start` returns its quit channel or never gets past `<-captureReady`. */
  datatype StartOutcome = QuitHandle | NeverReturns

  /** `Start` waits for the ready signal of the capture goroutine; a failed open
      never signals it, so `Start` then never returns. */
  function Start(c: Config, open: Source -> Option<string>, events: seq<Event>, qs: Queues): (s: StartOutcome)
    ensures s == QuitHandle <==> open(SelectSource(c.pcapFile, c.pcapSnapLen)).None?
  {
    if Ready in RunCapture(c.pcapSnapLen, c.pcapFile, open, events, qs).log then QuitHandle else NeverReturns
  }

  /** A replay holding one ESP frame and one ICMPv4 frame, with room for one
      frame in each queue, leaves exactly one frame in each queue. */
  lemma ReplayScenario(open: Source -> Option<string>)
    requires open(Offline("trace.pcap")) == None
    ensures var c := RunCapture(0, "trace.pcap", open, ReplayEvents(), Queues(Queue([], 1), Queue([], 1)));
      && c.status == Stopped
      && c.queues == Queues(Queue([EspFrame], 1), Queue([IcmpFrame], 1))
      && c.log == [Ready, Delivered(EspQueue, EspFrame), Delivered(IcmpQueue, IcmpFrame)]
  {
    var run := Loop(ReplayEvents(), Queues(Queue([], 1), Queue([], 1)));
    ReplayLoop();
    assert SelectSource("trace.pcap", 0) == Offline("trace.pcap");
    assert [Ready] + run.log == [Ready, Delivered(EspQueue, EspFrame), Delivered(IcmpQueue, IcmpFrame)];
  }

  const EspFrame := Frame(true, false)
  const IcmpFrame := Frame(false, true)

  /** The replay file: an ESP frame, an ICMPv4 frame, then the exhausted source's nil packet. */
  function ReplayEvents(): seq<Event>
  {
    [Packet(EspFrame), Packet(IcmpFrame), NilPacket, Quit]
  }

  lemma ReplayLoop()
    ensures Loop(ReplayEvents(), Queues(Queue([], 1), Queue([], 1)))
         == LoopRun(Queues(Queue([EspFrame], 1), Queue([IcmpFrame], 1)),
                    [Delivered(EspQueue, EspFrame), Delivered(IcmpQueue, IcmpFrame)], true, 4)
  {
    var events := ReplayEvents();
    var empty := Queues(Queue([], 1), Queue([], 1));
    var one := Queues(Queue([EspFrame], 1), Queue([], 1));
    var both := Queues(Queue([EspFrame], 1), Queue([IcmpFrame], 1));
    assert RouteFrame(EspFrame, empty) == Routed(one, [Delivered(EspQueue, EspFrame)]);
    assert RouteFrame(IcmpFrame, one) == Routed(both, [Delivered(IcmpQueue, IcmpFrame)]);
    assert events[1..] == [Packet(IcmpFrame), NilPacket, Quit];
    assert events[1..][1..] == [NilPacket, Quit];
    assert events[1..][1..][1..] == [Quit];
    assert Loop([Quit], both) == LoopRun(both, [], true, 1);
    assert Loop([NilPacket, Quit], both) == LoopRun(both, [], true, 2);
    assert Loop([Packet(IcmpFrame), NilPacket, Quit], one) == LoopRun(both, [Delivered(IcmpQueue, IcmpFrame)], true, 3);
  }
}
