# Fake access point of the Wi-Fi client profiler, in Dafny

The profiler pretends to be a minimal access point so that nearby client
stations start associating with it. The stations' association requests
carry their capabilities, and the requests are handed to a downstream
profiler. This project models the fake access point in
`profiler/fakeap.py`, which has two workers.

- **The beacon worker (`TxBeacons`).** It sends a beacon every 0.1024 s,
  which is 100 time units of 1024 µs. Drift is corrected by sleeping until
  the next point of a grid aligned to the start time. Every beacon is
  stamped with a value drawn from the shared sequence counter. A send error
  ends the worker only when its message says that the interface is gone, or
  when it has no message at all.
- **The listener (`Sniffer`).** It classifies each captured management frame
  by subtype, receiver address, first information element and the
  listen-only flag. It answers probe requests and authentication requests.
  It records association and reassociation requests in a station table and
  puts them on the output queue.

Frames are abstract records (`Dot11.Frame`, `Dot11.OutFrame`). The radio
is replaced by a log of the frames handed to it (`sent`). The output queue
is replaced by the list of frames put on it (`queue`). The shared counter
(`Counter.SequenceCounter`) advances by a step given as a parameter,
because the helper that advances it is not part of this model.

Layout:

- `dot11.dfy`: frame records, the subtype numbers of IEEE 802.11-2020
  Table 9-1, and the three frame templates.
- `counter.dfy`: the shared counter.
- `beacons.dfy`: the sleep arithmetic, the drift lemmas, the classification
  of send errors, and the `TxBeacons` class.
- `listener.dfy`: the dispatcher as a pure state machine, the lemmas about
  it, and the `Sniffer` class. The class has one method per handler, and
  each method is proved against the pure machine.

The model follows the code in these places, which a reader who knows
802.11 might not expect:

- The authentication reply is stamped with the counter's new value minus
  one, with no reduction modulo 4096. A counter value of 0 gives −1.
- The start time is read from the wall clock, not from a monotonic clock.
  So the drift lemmas state their assumptions about the clock readings
  outright (`KeepsPace`, `ClockKeepsUp`).
- A send error whose message is absent is not ignored. Testing for a
  substring of a missing message raises, and the worker dies
  (`Verdict` returns `Crash`).
- A probe request with no information element at all makes the listener
  raise before it changes anything (`Decision.NoElement`). No skip policy
  exists in the code.
- The dispatcher tests the subtype only, never the frame type. With the
  capture filter disabled, a control frame of subtype 11 (an RTS) addressed
  to the access point is therefore answered like an authentication request
  (`AuthFrameTypeNotChecked`).

## Model

| member | source | states |
|---|---|---|
| Counter.SequenceCounter.Next | profiler/fakeap.py:93-94 | one draw advances the shared counter by exactly one step and returns the new value; nothing about wrap-around is assumed |
| Beacons.SleepLength | profiler/fakeap.py:88 | the sleep `interval − ((now − start) mod interval)` is in (0, interval] and the wake-up lands on the start-aligned grid |
| Beacons.SleepIsMinimal | profiler/fakeap.py:88 | the wake-up is the first grid point strictly after `now`: no grid point lies between `now` and the wake-up |
| Beacons.SleepFromGridPoint | profiler/fakeap.py:85-88 | a tick that began on a grid point and took less than one interval sleeps until exactly the next grid point |
| Beacons.WakeTimes | profiler/fakeap.py:86-88 | each wake-up is strictly after its clock reading, at most one interval later, and on the grid |
| Beacons.NoDrift | profiler/fakeap.py:83-88 | while each tick's work fits in one interval, the k-th wake-up is exactly `start + (k+1)·interval`, however long each tick took |
| Beacons.NeverAhead | profiler/fakeap.py:83-88 | whatever ticks cost, wake-ups are at least one interval apart and the k-th is never before `start + (k+1)·interval`, so there is never more than one beacon per interval |
| Beacons.Contains | profiler/fakeap.py:119 | the substring test `event in strerror` is true exactly when the text occurs at some index of the message |
| Beacons.Verdict | profiler/fakeap.py:115-121 | a send error ends the worker with status SIGTERM iff its message contains "Network is down" or "No such device"; an error without a message crashes the worker; every other result continues |
| Beacons.TxBeacons.constructor | profiler/fakeap.py:64-77 | the beacon template is broadcast, from and for our MAC, with capabilities 0x1111 and the advertised elements; nothing has been sent |
| Beacons.TxBeacons.Beacon | profiler/fakeap.py:90-121 | one beacon draws the counter once, overwrites only the template's sequence number, hands the frame to the radio and returns the verdict on the send |
| Beacons.TxBeacons.Every | profiler/fakeap.py:83-94 | the loop sends one beacon per tick and wakes at `WakeTimes` of the clock readings; it stops at the first send whose verdict is not Continue; the counter is drawn once per beacon sent, the j-th new beacon carries the counter's value after j+1 steps, the counter ends at its value after one step per beacon, and the template keeps the last stamp |
| Beacons.TxBeacons.StartTransmissions | profiler/fakeap.py:81 | the worker runs the beacon loop at the 102400 µs beacon interval: each wake-up at most one interval after its reading and on the grid; the earlier log is kept, the j-th new beacon is the template stamped with the counter's value after j+1 steps, the counter is drawn once per beacon, and the template keeps the last stamp |
| Listener.Sniffer.constructor | profiler/fakeap.py:163-178 | the probe-response and authentication templates are from and for our MAC (authentication step 2); station table, queue and log start empty |
| Listener.Sniffer.ReceivedFrame | profiler/fakeap.py:187-204 | the new state is what the pure machine `Receive` gives for the frame; a probe request without an element faults and changes nothing |
| Listener.Sniffer.ProbeResponse | profiler/fakeap.py:206-212 | draws the counter once, stamps the template with the new value, addresses it to the requester's transmitter and sends it |
| Listener.Sniffer.AssocReq | profiler/fakeap.py:215-219 | sets the station table entry of the frame's transmitter to the frame, leaves other entries alone, appends the frame to the queue |
| Listener.Sniffer.Auth | profiler/fakeap.py:221-229 | addresses the template to the receiver, draws the counter once, stamps the new value minus one and sends it |
| Listener.Dispatch | profiler/fakeap.py:187-204 | only a probe request without elements faults; at most two handler calls; an authentication reply only for a frame of the authentication subtype addressed to us, to its transmitter and alone; a probe response only for a probe request, alone; a record only for an (re)association request addressed to us or under listen-only |
| Listener.Apply | profiler/fakeap.py:206-229 | recording sets the transmitter's table entry, keeps the other entries, appends to the queue and sends nothing; a reply draws the counter once, appends exactly one frame to the log and leaves table and queue alone; the probe response is its template with only addr1 := requester and seqNum := new value, the authentication reply with only addr1 := receiver and seqNum := new value − 1 |
| Listener.RunRecordsOnly | profiler/fakeap.py:215-219 | any run of recording calls sends nothing, does not draw the counter, leaves the templates alone and queues one frame per call |
| Listener.Receive | profiler/fakeap.py:187-204 | the reaction faults exactly for a probe request without elements; a frame that is neither an authentication nor a probe request never sends, never draws the counter and leaves the templates alone |
| Listener.OtherSubtypesIgnored | profiler/fakeap.py:189-204 | a frame of any subtype other than authentication, probe request, association or reassociation request changes nothing: no send, no table change, no enqueue |
| Listener.AuthAnsweredIffAddressedToUs | profiler/fakeap.py:189-191 | an authentication frame produces exactly one send iff its addr1 is our MAC; the reply goes to its addr2 and is stamped with the counter's new value minus one (−1 when that value is 0); otherwise nothing changes |
| Listener.ProbeAnsweredIffOurSsidOrWildcard | profiler/fakeap.py:192-196 | a probe request with an element produces exactly one probe response, to its addr2 and stamped with the new counter value, iff the first element's text equals our SSID or its length field is 0 |
| Listener.ProbeWithoutElementFaults | profiler/fakeap.py:193 | a probe request with no element makes the handler fault |
| Listener.ProbeReceiverNotChecked | profiler/fakeap.py:192-196 | the reaction to a probe request does not depend on its addr1 |
| Listener.AuthFrameTypeNotChecked | profiler/fakeap.py:189 | the reaction to a frame with the authentication subtype does not depend on its frame type |
| Listener.AssocRecordedPerRule | profiler/fakeap.py:197-204 | an (re)association request is queued once if addressed to us and once more if listen-only is set; the table maps its addr2 to it when it was recorded at all; nothing is sent and the counter is untouched |
| Listener.AssocQueuedTwice | profiler/fakeap.py:201-204 | addressed to us with listen-only set, the request is put on the queue twice |
| Listener.RunKeepsBookkeeping | profiler/fakeap.py:206-229 | over any sequence of handler calls, the sent log and the queue only grow at the end, the counter is drawn once per frame sent, table keys are never lost, and every sent frame is a template with only addr1 and the sequence number overwritten |
| Listener.ReceiveDrawsOncePerSend | profiler/fakeap.py:208-226 | handling any frame draws the counter exactly once per frame it sends and keeps the templates intact |

## Left out

- Frame construction and serialisation by the packet library are not modelled. Frames are records holding only the fields the code reads or overwrites. The advertised element set (`build_fake_frame_ies`) and the interface MAC (`get_mac`) are parameters. Fields the library fills with defaults are not modelled, except addr1 and the sequence number.
- Capturing (`sniff`), the link-layer socket and the BPF capture filter are not modelled. The dispatcher is given each captured frame directly.
- Worker processes, the startup lock, the counter's lock and the cross-process queue are not modelled. The model is sequential: a counter draw is one method call, and the queue is the list of frames put on it. The downstream consumer is not modelled.
- `next_sequence_number` (in `profiler/helpers.py`, not part of this model) is an abstract step function. Whether the counter wraps at 4096 is therefore not modelled, and neither is whether two frames can share a sequence number.
- Real time is replaced by integer microseconds. Floating-point arithmetic and `sleep` are not modelled. The endless loop in `every` runs over a finite list of ticks, each with the send result and the clock reading taken after the task. The loop's `task` is always `beacon`, its only use.
- Beacons.TxBeacons.Every requires a positive interval; the source always passes 0.1024 s.
- Decoding the SSID element's bytes as UTF-8 is not modelled. The element's text is given already decoded, so a decoding failure is not modelled.
- Send failures in the listener are not modelled. An error raised by the socket in `probe_response` or `auth` would end the listener. The model treats these sends as accepted.
- Errors other than operating-system errors from the beacon send are not modelled.
- Logging, the exit itself (modelled as the `Exit(15)` outcome), signal handling and the commented-out timestamp code are not modelled.
- The frame type and subtype numbers come from `profiler/constants.py`, which is not part of this model. They are taken to be the values of IEEE 802.11-2020, Table 9-1 (for example 11 for authentication).
- `boot_time`, `channel` and `interface` are not modelled, because the modelled logic never reads them.
