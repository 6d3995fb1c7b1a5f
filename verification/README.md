# IPSecDiagTool: MTU search and capture routing, modelled in Dafny

IPSecDiagTool finds the usable path MTU across an IPsec link by sending probes
of growing size and watching whether an answer arrives before a timeout. Two
pieces of sequential decision logic sit inside its goroutine, channel and pcap
plumbing, and both are modelled here as pure functions over immutable data:

- **The MTU search** (`mtu.dfy`, module `Mtu`). One search pass (`FindMTU`) keeps
  `(goodMTU, nextMTU)`. It starts at `(0, startMTU)` and probes `startMTU`. On each
  success it sets `goodMTU := nextMTU` and `nextMTU += increment`. The first
  timeout returns `goodMTU`. The race between the success channel and the 10 s
  timer becomes an `Outcome` per probe. The outcomes come either from a script
  (`FindMTU`) or from a size oracle `passes: int -> bool` with a fuel bound
  (`FindMTUWith`), and a lemma shows that the two forms agree. `Analyze` runs
  `iterations` passes. The first pass starts at 500, each later pass starts
  from the previous result, and the increment is halved with Go's truncating
  division (`Half`).
- **The capture engine** (`capture.dfy`, module `Capture`). The engine chooses its
  source: the replay file, or the live device `any` with snap length 65000,
  promiscuous mode and a timeout argument of 100. It signals ready only when the open
  succeeds. It then routes every frame to two bounded queues without blocking.
  A frame with an ESP layer goes to the ESP queue and a frame with an ICMPv4
  layer goes to the ICMP queue, so a frame with both goes to both, ESP first.
  A full queue drops the frame, and a quit event ends the loop. A frame is its
  two layer flags. A queue is a `seq` with a capacity. The loop is a fold over
  `Packet | NilPacket | Quit` events, and it records a log of `Ready`,
  `Delivered` and `Discarded` observations.

`wrappers.dfy` holds `Option`. `config.dfy` holds the configuration record.
All four files are verified together.

Behaviour of the code that a reader might not expect, and that the model keeps:

- **Open failure.** `capture` returns the open error to no caller and never
  sends on `captureReady`, so `Start` never returns. It hangs while some other
  goroutine, timer or poller is alive; otherwise the Go runtime aborts the
  process with its all-goroutines-asleep deadlock error. `Capture.Start` returns
  `NeverReturns` exactly when the open fails.
- **Snap length.** `capture` ignores its `snaplen` argument. The live source is
  always opened with 65000 (`Capture.SelectSource`, `Capture.SnaplenIsIgnored`).
- **Drops.** `putChannel` returns an error for a full queue, but the loop
  ignores it. The debug log after the `return` can never run. A drop is modelled
  as a `Discarded` log entry and the error value.
- **Releasing the source.** The pcap handle is never closed, so the model has no
  release step.
- **Fan-out.** A frame with both an ESP and an ICMPv4 layer is sent to both
  queues, ESP first.

## Model

| member | source | states |
|---|---|---|
| Mtu.FindMTU | mtu/analyze.go:57-61 | A pass starts with goodMTU 0 and probes startMTU first. If that first probe times out, the pass returns 0, not startMTU. Before any outcome arrives, the pass is waiting with (0, startMTU). |
| Mtu.SuccessAdvancesByIncrement | mtu/analyze.go:74-76 | After k successes, one more success sets goodMTU to exactly the size that was in flight. It moves the next probe exactly `increment` further, and the state holds nothing else. |
| Mtu.FindMTUResult | mtu/analyze.go:57-84 | Let k be the number of leading successes. A timeout at probe k returns 0 when k = 0 and startMTU + (k-1)·increment otherwise. Without a timeout the pass is still waiting, with startMTU + k·increment in flight. |
| Mtu.ResultShape | mtu/analyze.go:58-82 | A returned value is either 0 or startMTU + k·increment for some k ≥ 0. |
| Mtu.ProbeSizes | mtu/analyze.go:61-78 | A pass sends one probe more than the successes it sees, and probe i has size startMTU + i·increment. |
| Mtu.ResultIsLastConfirmedSize | mtu/analyze.go:73-82 | A converged pass returns exactly the last probed size that got a success, or 0 when there was none. The probe after that one is the one that timed out. |
| Mtu.SearchInvariant | mtu/analyze.go:58-76 | With startMTU ≥ 0 and increment ≥ 0, goodMTU ≤ nextMTU holds at every iteration, and goodMTU never decreases within a pass. |
| Mtu.ExampleReturns1500 | mtu/analyze.go:57-84 | From 500 with increment 500, successes at 500, 1000 and 1500 and a timeout at 2000 return 1500. |
| Mtu.FindMTUWith | mtu/analyze.go:58-61 | Against a size oracle, a pass whose first probe fails returns 0. |
| Mtu.OracleAgreesWithScript | mtu/analyze.go:64-84 | The oracle-driven pass equals the script-driven pass fed with the oracle's verdict on each probe size startMTU + i·increment. |
| Mtu.ThresholdPass | mtu/analyze.go:64-84 | Take a path passing exactly the sizes ≤ T, a positive increment, and fuel that reaches past T. The pass then converges: to 0 if startMTU > T, and otherwise to the largest startMTU + k·increment that is ≤ T. |
| Mtu.ThresholdPassBounds | mtu/analyze.go:64-84 | On a threshold path, with any increment or fuel, a converged pass returned 0 because its start was too big. Otherwise it used a positive increment and returned a size between startMTU and T. |
| Mtu.ZeroIncrementNeverConverges | mtu/analyze.go:73-78 | With increment 0 and a passing first probe, the pass re-probes the same size and never returns, whatever the fuel. |
| Mtu.Half | mtu/analyze.go:49 | `incStep/2` truncates toward zero: the remainder is 0 or 1 for non-negative values and 0 or -1 for negative ones. |
| Mtu.Refine | mtu/analyze.go:40-50 | The refinement runs at most `remaining` passes, and the first one starts at the given start. It stops before `remaining` passes only right after a pass that did not converge. The result is reported exactly when all passes ran and the last one converged. The reported value is the last pass's result, or the start when there were no passes. |
| Mtu.RefineChain | mtu/analyze.go:42-50 | Pass i uses the i-th halving of the increment and is the search pass from its recorded start. Every pass but the last converged and handed its result to the next pass as that pass's start. |
| Mtu.Analyze | mtu/analyze.go:27-51 | With no iterations, 500 is reported. Otherwise it runs at most `iterations` passes, and the first pass starts at 500 with the configured increment. It stops before `iterations` passes only right after a pass that did not converge. The MTU is reported exactly when all `iterations` passes ran and the last converged, and the reported MTU is the last pass's result. |
| Mtu.AnalyzeChain | mtu/analyze.go:40-50 | Each later pass starts at the previous pass's result and uses Half of the previous increment. Each pass's result is the search pass from its start. |
| Mtu.ThresholdRefinementNeverDecreases | mtu/analyze.go:42-49 | On a fixed threshold path, a pass never returns less than the pass before it, because it re-probes the previous result first. |
| Capture.PutChannel | capture/capture.go:77-89 | With room, the frame is appended at the tail and no error is returned. When the queue is full, the queue is unchanged and the error is "Channel full, discarding packet.". The capacity is never exceeded. |
| Capture.RouteFrame | capture/capture.go:58-67 | The ESP queue is offered the frame iff it has an ESP layer, and the ICMP queue iff it has an ICMPv4 layer. The ESP verdict is logged before the ICMP verdict, and a queue whose layer is absent is untouched. |
| Capture.RouteFrameSeenFrom | capture/capture.go:61-67 | From one queue's point of view, routing is one offer to that queue when the frame carries its layer and nothing otherwise. The log holds exactly that verdict. |
| Capture.Loop | capture/capture.go:55-73 | The loop stops iff a quit arrives. Without a quit, every event is consumed. The loop never logs a ready signal. |
| Capture.LoopStopsAtFirstQuit | capture/capture.go:69-71 | A loop that quits has consumed exactly the events up to and including the first quit, and none before it was a quit. |
| Capture.LoopPerQueue | capture/capture.go:55-73 | Each queue ends up with its old contents followed by the first frames offered to it, as many as it had room for. The log shows exactly those frames as delivered and every later offered frame as discarded. Nil packets and events after the quit change nothing. |
| Capture.FullQueueDropsEveryFrame | capture/capture.go:61-86 | A full queue stays as it was. Every frame offered to it, however many, is logged as discarded, and the loop goes on. |
| Capture.QueuesAreIndependent | capture/capture.go:61-67 | What happens to one queue depends only on that queue and the events, so a drop on the other queue has no effect on it. |
| Capture.QuitEndsLoop | capture/capture.go:69-71 | Events after the first quit are never processed. |
| Capture.SelectSource | capture/capture.go:38-47 | A non-empty pcapFile opens that file offline. An empty one opens live device "any" with snap length 65000, promiscuous mode and a timeout argument of 100. |
| Capture.SnaplenIsIgnored | capture/capture.go:38-47 | The `snaplen` argument never changes the source that is opened. |
| Capture.RunCapture | capture/capture.go:38-75 | A failed open returns its error, never signals ready, and leaves the queues untouched. A successful open signals ready exactly once, before any frame is routed. After that, the session's queues and log are those of the capture loop over the events. The session stops with no error iff a quit arrives. |
| Capture.Start | capture/capture.go:18-28 | `Start` returns its quit channel iff the source opens, and otherwise it never returns: its wait for readiness has no sender left, so it hangs or the Go runtime aborts the process with a deadlock error. |
| Capture.ReplayScenario | capture/capture.go:42-73 | A replay of one ESP frame and one ICMPv4 frame, with room for one frame per queue, leaves exactly one frame in each queue. |

## Left out

- Goroutines, `select` races, unbuffered-channel blocking and timers: the 10 s probe timeout, the 1 s settle delay, the localhost sleep, and the timer goroutines that are never cancelled. Each probe's race is an `Outcome`, and the capture loop's `select` is an event sequence that fixes one interleaving.
- `sendPacket` and `startCapture` are not part of this model. A probe send is an entry of `Probes`, and a send error (which the code ignores) is not modelled.
- The correlation that would fire the success channel: nothing in these two files writes to `mtuOKchan`, so success is an input.
- The gopacket/pcap calls (`OpenLive`, `OpenOffline`, `NewPacketSource`, `Layer`, `LinkType`). Opening is an input function from the chosen `Source` to an optional error, and a frame is its two layer flags.
- `util.Run`, logging (including the debug log in `Start` and the unreachable one in `putChannel`), `net.ParseIP`, and the package-level globals. Queues, configuration and the iteration count are passed explicitly. `config.MTUIterations` is defined in a package that is not part of this model, so it is the parameter `iterations`.
- The consumers of the two queues. A queue only grows in the model, and `capacity` stands for the slots the receiving side accepts. For an unbuffered channel, that is whether a receiver is waiting.
- Mtu.FindMTUWith: a pass that never times out is cut off after `fuel` probe results and reported as `Waiting`, instead of running forever.
- Mtu.Analyze: each size gets the same outcome on every probe (the oracle does not change over time). The per-probe script form is available for a single pass (`FindMTU`).
- Aliased queues: `Start` accepts any two channels, but the model assumes the ESP and ICMP channels are distinct. If one channel were passed twice, a frame with both layers would be sent into it twice, ESP drops would depend on ICMP traffic, and `Capture.QueuesAreIndependent` would not hold.
- The unit of the live source's timeout argument is fixed by the pcap library's `OpenLive`, which is not part of this model. The model keeps the bare value 100.
- Integer width: Go's `int` is modelled as unbounded, because the sizes involved stay far below 2^63.
