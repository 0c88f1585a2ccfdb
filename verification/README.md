# WiFiMic: verified model

WiFiMic streams a microphone over lossy UDP. A Linux server cuts what a capture
process writes into 480-byte frames and sends them; a Windows client orders
them in an adaptive jitter buffer and plays one slot every five milliseconds.
Two control planes, one on each side, establish sessions, keep them alive with
heartbeats and recover from losses. This project models that logic in Dafny and
proves what it promises. `dafny verify dfyconfig.toml` checks all of it.

## How the model is built

Every component comes in the form its Rust source has. What the source updates
in place is a class whose methods assign the same fields in the same order
(`JitterBuffers.JitterBuffer`, `ClientControl.ControlPlane`,
`ServerControl.ControlPlane`, `ServerControl.ServiceLoop`,
`Capture.CaptureHandle`, `RenderFifo.PcmFifo`, `SessionIds`,
`Calibration.CalibrationTracker`), or a loop over an array or a sequence. The
postcondition of each such method equates the whole new state with a transition
function of the old one. The theorems are about those functions, composed into
runs of any length.

- `Machine`, `Sequence`, `SessionIds`, `Wire`, `WireCodec`: u8 to u64 with their
  wrap-around and saturation written out, serial-number arithmetic (section 3.2
  of RFC 1982), session ids, and the three packet formats.
- `JitterModel`, `JitterBuffer`: the buffer. `JitterInvariant` has what every
  run keeps, `JitterIdeal` the refinement of an unbounded buffer,
  `JitterEviction` the run on which the two part, `JitterAdaptive`
  the closed forms of the delay controller, `JitterPacing` what they do to the
  playout deadline, and `JitterDelayLine` the loss-free behaviour.
- `ClientModel`, `ClientControl`, `ClientInvariant`, `ClientWakeup` and
  `ServerModel`, `ServerControl`, `ServerInvariant`, `Capture`: the two machines.
  `ClientAnswers`, `ServerAnswers` and `ServerRouting` say exactly, both ways,
  what each call answers, sends and changes, with the numbers written out.
- `System`: both machines and a network that may lose, duplicate, reorder and
  delay datagrams but never forge one. Messages cross it as encoded bytes.
  `SystemAgreement`, `SystemLease` and `SystemIntegrity` hold the theorems that
  span both machines; `SystemWitness` has a run that plays audio.
- `RenderFifo`, `RenderWorker`, `Calibration`, `Measurement`, `RetryBounded`,
  `LogRotation`: the render queue under concurrency, clock calibration,
  percentiles, the bounded retry loop and log retention.

Instants are natural numbers of nanoseconds on one clock. Whatever a call gets
from outside (clock readings, whether a send, a removal or a process operation
succeeds, how many bytes a read returns) is a parameter, and the theorems hold
for every value of it.

## Where the obvious claim is false

- **Frames behind the cursor.** The buffer stores a frame behind `next_sequence`
  when polling has overtaken it, so its residents need not fit the 41-slot
  window. `BehindExactlyWhenOvertaken` gives the exact guard and
  `WindowKeptExactly` says that it is exact for the window too;
  `OvertakenFrameIsStored` is a run that gets there.
- **Eviction.** An overtaken frame alone shows no difference from an unbounded
  buffer, but it takes up a place. `EvictionIsExact` gives the exact guard of the
  `pop_front` branch. On the run of `EvictionDiverges` that branch throws away the
  frame that is due next, and the buffer conceals a slot it could have played.
  In runs that never queue behind the cursor it does not fire at all
  (`NeverBehindNeverEvicts`).
- **Bulk registration.** `register_adverse(n)` equals n single registrations
  exactly when the counter does not saturate (`BulkEqualsSingles`). Lateness can
  make it saturate (`SaturationIsReached`).
- **Error bound.** `error_bound_us` is a floor, while the error can reach the
  ceiling of half the round trip. With a skew that the i64 clamp leaves room for,
  it fails in exactly one case: an odd round trip spent entirely on the way out,
  with an estimate that is not clamped (`PublishedBoundIsExactUnless`). The
  ceiling itself is a bound exactly when the skew is within that ceiling of the
  i64 range (`OffsetError`).
- **Conservative P95.** It covers the true P95 for all frames exactly when the
  skew exceeds the i64 range by no more than the margin (`ConservativeP95IsSound`).
- **Instability warning.** With a constant skew it can be false exactly when the
  two round trips exceed 10 ms together (`FalseWarningIffSumAbove10ms`).
- **Wakeup.** `next_wakeup` can point at a moment at which nothing is sent: when
  a Start is due and the id space is used up (`SomethingIsDueAt`), which a single
  clock reading can bring about (`IdsCanRunOut`).
- **Lease.** It is guaranteed in every state of every run exactly for delays
  below 20 s (`LeaseExactly`). At 20 s the server can time out at the very instant
  at which a heartbeat falls due, and at no other
  (`AckAtMaxDelayBreaksLease`, `LeaseBetweenBeatsExactly`). Beyond 20 s late
  duplicates of a single heartbeat Ack keep the client streaming past the
  server's timeout (`LateAcksBreakLease`).
- **Round trips.** Frames whose version is not the current one, and Acks for a
  kind that is not a control kind, encode but do not decode; the round-trip
  lemmas say exactly that.
- **Missing version byte.** A one-byte calibration packet is refused as having
  version 0, where the audio and control decoders call it truncated. The model
  follows the code.

## Model

| member | source | states |
|---|---|---|
| LeaseExactly | apps/wifimic_client/src/control_logic.rs:121-182 | in every state of every run in which datagrams reach the client within the given delay and due heartbeats are serviced before time goes on, a streaming client faces a non-idle server whose active session is its own: true if and only if the delay is less than 20 s |
| LeaseBetweenBeatsExactly | apps/wifimic_client/src/control_logic.rs:121-182 | the same in those states in which no heartbeat is due: true if and only if the delay is at most 20 s |
| LeaseBelowMaxDelay | apps/wifimic_server/src/control.rs:101-125 | the direction that users rely on: with delays below 20 s the 30 s server timeout never ends a session the client still believes in; with delays of 20 s, never while no heartbeat is due |
| AckAtMaxDelayBreaksLease | apps/wifimic_server/src/control.rs:101-125 | for every delay from 20 s on, a concrete run in which the server idles under a streaming client at 35 s |
| LateAcksBreakLease | apps/wifimic_client/src/control_logic.rs:165-182 | for every delay above 20 s, a concrete run in which duplicates of one heartbeat Ack outlive the server's session and no heartbeat is due |
| StepKeepsLease | apps/wifimic_server/src/control.rs:207-236 | every action of either machine or the network keeps the lease invariant: Acks in flight are backed by the server's heartbeat time, 30 s or a Stop, and the client's deadline by the Ack it holds |
| SessionAgreement | apps/wifimic_client/src/control_logic.rs:19-59 | in every run with loss, duplication and reordering, an accepted session is the last one issued and the server's active one, and no session gets two Start Acks |
| StepAgrees | apps/wifimic_server/src/control.rs:151-205 | the inductive step: every action keeps ids, requests and replies in flight, high-water marks and the Start Ack history consistent across both machines |
| RunAgrees | apps/wifimic_server/src/main.rs:174-238 | the agreement invariant holds in every reachable state of the system |
| ReplyDecodes | apps/wifimic_client/src/control.rs:264-279 | whatever the server can have sent reaches the handler for its kind with the contents it was sent with, through the real encodings |
| RenderedAudioIsCaptured | apps/wifimic_server/src/capture_reader.rs:35-48 | every audio frame rendered was sent under its session and sequence, and its payload is byte for byte one contiguous 480-byte block of one capture process's output |
| BlocksAndNumbersAreDistinct | apps/wifimic_server/src/main.rs:202-237 | successive frames come from disjoint, increasing blocks, and a (session, sequence) pair repeats only after 2^32 frames of that session |
| NumbersDoNotRepeat | apps/wifimic_server/src/main.rs:227-237 | the same on any log numbered by how many frames of its session went before |
| AnyBlockCanBePlayed | apps/wifimic_server/src/main.rs:202-237 | those two are not about empty logs: for every block of 480 bytes there is a legal run in which the server sends it once and the client renders exactly it |
| EverythingIsForTheClient | apps/wifimic_server/src/main.rs:182-237 | in every run of the system the server addresses the client only |
| RunIsSound | apps/wifimic_client/src/control_logic.rs:61-79 | in every reachable state all audio in flight, buffered or played is in the send log, the log is cut from the streams in order, and its numbering continues the server's counter |
| TracesAgree | apps/wifimic_client/src/jitter/buffer.rs:56-181 | for every run of pushes, polls and clears with indices within 2^31 of cursor, newest and anchor, frames that polling has overtaken included, that evicts nothing and leaves no stored frame more than 2^31 behind, the u32 buffer and a buffer keyed by unbounded integers return the same outcome for every push and the same item for every poll |
| NeverOvertakenTracesAgree | apps/wifimic_client/src/jitter/buffer.rs:56-181 | runs in which polling overtakes no frame still to come never evict, so that they agree without further condition |
| ObserveRefines | apps/wifimic_client/src/jitter/buffer.rs:56-181 | one event of any kind: same observation always, and the states stay related if and only if it neither evicts nor leaves a stored frame behind by more than 2^31 |
| FreshBufferRefinesIdeal | apps/wifimic_client/src/jitter/buffer.rs:38-52 | that agreement of whole traces, from a newly constructed buffer |
| PushRefines | apps/wifimic_client/src/jitter/buffer.rs:56-131 | one push of any in-range index: same outcome and same state but for the residents; the residents agree too if and only if no eviction is needed |
| OverflowIsEviction | apps/wifimic_client/src/jitter/adaptation.rs:36-54 | a push needs a forty-second ideal slot exactly when the u32 buffer evicts |
| PollRefines | apps/wifimic_client/src/jitter/buffer.rs:156-181 | one poll: same item; the states stay related if and only if no stored frame is left more than 2^31 behind the cursor |
| EvictionDiverges | apps/wifimic_client/src/jitter/adaptation.rs:36-54 | a run from the empty buffer, whenever its burst arrives: an overtaken frame takes the last place, the forty-first frame ahead evicts the one due next, and the traces differ |
| EvictionIsExact | apps/wifimic_client/src/jitter/adaptation.rs:36-54 | a push evicts, and then exactly the front, if and only if the frame is to be stored, the window stays, and 41 frames are resident |
| StoringIsExact | apps/wifimic_client/src/jitter/buffer.rs:84-131 | a frame is stored exactly when it is a new one of the session that is newer than the latest or still to be played, and among the residents exactly unless it restarts the window |
| PushKeepsValid | apps/wifimic_client/src/jitter/buffer.rs:56-131 | every push, whatever the frame and time, keeps strict order by wrapping distance, one session, at most 41 residents and the controller bounds; what it queues is new to the buffer and not beyond the window, which restarts if need be |
| PollKeepsValid | apps/wifimic_client/src/jitter/buffer.rs:156-181 | every poll keeps that invariant, hands out the slot at the cursor exactly when due, an audio item exactly when it is resident, and removes that frame only |
| PollScanHitsFront | apps/wifimic_client/src/jitter/buffer.rs:166-181 | the linear scan of `poll` can only hit index 0 |
| RunKeepsValid | apps/wifimic_client/src/jitter/adaptation.rs:36-63 | the invariant holds after every run: the target is a multiple of 5 within 40 and 200, the counters below 3 and 20 |
| PlayoutIsConsecutive | apps/wifimic_client/src/jitter/buffer.rs:156-181 | between resets the k-th item has sequence start + k modulo 2^32 and the stream's session, and the cursor advances once per item |
| EveryFrameIsAccountedFor | apps/wifimic_client/src/jitter/adaptation.rs:36-63 | over every run, frames taken in are the disjoint sum of resident, played, dropped by reset or clear, and evicted |
| NeverBehindNeverEvicts | apps/wifimic_client/src/jitter/adaptation.rs:26-54 | if no push queues behind the cursor, nothing is ever evicted and the residents always fit the window |
| FullWindowHasEverySlot | apps/wifimic_client/src/jitter/adaptation.rs:26-34 | pigeonhole: 41 residents within the window occupy every slot, so a new frame within it cannot find the buffer full |
| NoEvictionInWindow | apps/wifimic_client/src/jitter/adaptation.rs:36-54 | one push from a windowed buffer that does not queue behind the cursor keeps the window and evicts nothing |
| BehindExactlyWhenOvertaken | apps/wifimic_client/src/jitter/buffer.rs:84-101 | a push queues behind the cursor if and only if the frame is a new one of the session, advances `latest_received`, and lies at wrapping distance 2^31 or more from `next_sequence` |
| WindowKeptExactly | apps/wifimic_client/src/jitter/buffer.rs:84-131 | a push takes a windowed buffer out of its window if and only if it queues behind the cursor |
| OvertakenFrameIsStored | apps/wifimic_client/src/jitter/buffer.rs:84-101 | counterexample to the unconditional window claim: three deadlines pass with only frame 0 present, then frame 1 is stored behind the cursor and no next poll returns it |
| TransparentDelayLine | apps/wifimic_client/src/jitter/adaptation.rs:65-107 | a loss-free stream arriving within 5 ms of its schedule is played back frame for frame, with no gap, no window reset and the target still at 40 ms, in every time-ordered schedule that polls each deadline once |
| BulkEqualsSingles | apps/wifimic_client/src/jitter/adaptation.rs:83-94 | registering n adverse frames at once equals n single registrations, deadline extension included, if and only if the counter does not saturate |
| AdverseClosedForm | apps/wifimic_client/src/jitter/adaptation.rs:83-117 | registering any number of adverse frames, saturation included, in closed form: target, both counters, and the deadline pushed out to first arrival plus target |
| AdverseMovesDeadline | apps/wifimic_client/src/jitter/adaptation.rs:109-117 | the first arrival stays, and the next playout becomes the larger of what it was and min(first arrival + new target, 2^64 - 1) |
| PushPaces | apps/wifimic_client/src/jitter/buffer.rs:56-131 | the whole pacing after any push, by its outcome: which frames count as adverse or stable, and what a new stream or window restarts |
| PushSetsDeadline | apps/wifimic_client/src/jitter/adaptation.rs:109-117 | the same deadline law for every push that restarts nothing |
| PlayoutWaitsForTarget | apps/wifimic_client/src/jitter/buffer.rs:156-181 | in every run no slot is handed out before first arrival plus the target of that moment, so growing the target before playout delays it |
| LatenessIsWholeFrames | apps/wifimic_client/src/jitter/adaptation.rs:65-81 | lateness is the number of whole 5 ms frames behind schedule, none within the first 5 ms |
| SaturationIsReached | apps/wifimic_client/src/jitter/adaptation.rs:65-94 | a run from the empty buffer whose lateness saturates the counter, with a result other than that of single registrations |
| StableDecay | apps/wifimic_client/src/jitter/adaptation.rs:96-107 | k consecutive stable frames take the target to max(40, t - 5 * floor((s + k) / 20)), clear the adverse count, and leave both deadlines alone |
| RecoveryTakes640 | apps/wifimic_client/src/jitter/adaptation.rs:96-107 | 640 stable frames restore the floor from any state, and no smaller number does so from the ceiling |
| JitterBuffers.JitterBuffer.Push | apps/wifimic_client/src/jitter/buffer.rs:56-131 | the imperative push has exactly the effect and outcome of the transition function the lemmas are about |
| JitterBuffers.JitterBuffer.Poll | apps/wifimic_client/src/jitter/buffer.rs:156-181 | likewise for poll |
| JitterBuffers.JitterBuffer.Clear | apps/wifimic_client/src/jitter/buffer.rs:184-196 | clearing gives the freshly constructed buffer |
| JitterBuffers.JitterBuffer.Queue | apps/wifimic_client/src/jitter/adaptation.rs:36-54 | eviction of the front when full, then insertion at the first resident that is farther from the cursor |
| JitterBuffers.JitterBuffer.ResetWindow | apps/wifimic_client/src/jitter/adaptation.rs:56-63 | the window restarts at the frame and the deadline is recomputed from its arrival |
| ClassifyIsTrueOrder | crates/wifimic_protocol/src/sequence.rs:17-30 | on true indices at most 2^31 apart, the wrapped comparison recovers their order and the exact number of skipped frames; distance 2^31 is late |
| ClassifyIsAntisymmetric | crates/wifimic_protocol/src/sequence.rs:17-30 | exactly one of two distinct labels supersedes the other, except at distance 2^31 where neither does |
| ReachableClients | apps/wifimic_client/src/control.rs:202-332 | in every reachable client state: never both pending and accepted ids, Streaming has an accepted id, armed deadlines and at most one miss, and the jitter buffer is in use only then and for that session |
| OperationKeepsInv | apps/wifimic_client/src/control_logic.rs:121-224 | every operation keeps the client invariant, whatever arrives and whichever sends fail |
| SessionMismatchIsUnreachable | apps/wifimic_client/src/control_logic.rs:61-79 | queued audio always belongs to the accepted session; the buffer's mismatch outcome cannot occur |
| RenderedSlotIsAccepted | apps/wifimic_client/src/control.rs:292-312 | a slot is rendered only while Streaming, carries the accepted session and the cursor's sequence, and is a resident frame or silence |
| StoppedIsSilent | apps/wifimic_client/src/control.rs:213-237 | a stopped client sends and renders nothing and stays stopped under every operation but an explicit start |
| PacketsAreCurrent | apps/wifimic_client/src/control_logic.rs:197-206 | a Start carries a brand-new id that is now pending, a Heartbeat the session being streamed, a Stop the one being given up; a client never sends an Ack |
| StartIsFresh | apps/wifimic_client/src/control.rs:202-206 | an explicit start asks for the least new id and keeps of the old run only ids and calibration, even when the Start cannot be sent |
| StopSaysStop | apps/wifimic_client/src/control.rs:213-237 | an explicit stop attempts exactly one Stop, for the pending session or else the accepted one, and stops whether or not it is sent |
| TimersSend | apps/wifimic_client/src/control.rs:240-261 | exactly which packets one `advance` attempts, and when |
| TimersAnswer | apps/wifimic_client/src/control.rs:240-261 | exactly when it fails, and how |
| StartTimerEffect | apps/wifimic_client/src/control_logic.rs:197-224 | what an unanswered Start and a due retry do to the state, also with no id left |
| BeatTimerEffect | apps/wifimic_client/src/control_logic.rs:121-136 | a sent heartbeat counts a miss; the second in a row makes the client unreachable with its session kept; a failed send counts nothing |
| AckIsTakenExactly | apps/wifimic_client/src/control_logic.rs:19-59 | an Ack is taken if and only if it is a Start Ack for the pending id, or a heartbeat Ack for the accepted id while Streaming or Unreachable, with the whole new state; any other message changes nothing |
| UnreachableResumes | apps/wifimic_client/src/control_logic.rs:165-182 | an unreachable client that hears a heartbeat Ack for its session streams it again without a new id, and heartbeats for it next |
| FrameIsTakenExactly | apps/wifimic_client/src/control_logic.rs:61-79 | a frame is pushed with its arrival time if and only if it is of the accepted session while Streaming |
| ReplyIsTakenExactly | apps/wifimic_client/src/control_logic.rs:81-119 | a calibration reply is used if and only if it answers the outstanding probe within 20 ms, and once; offset, bound and warning are written out |
| MalformedChangesNothing | apps/wifimic_client/src/control.rs:264-279 | what does not decode changes nothing and is reported by its tag |
| RenderIsExact | apps/wifimic_client/src/control.rs:292-309 | exactly when a slot is rendered, as the resident frame of that number or as silence, and that it is consumed even when the renderer fails |
| SleepingMissesNothing | apps/wifimic_client/src/control.rs:240-332 | sleeping until `next_wakeup` ends in the same state with the same visible trace, instant by instant, as polling at every tick |
| NothingIsDueBefore | apps/wifimic_client/src/control.rs:314-332 | strictly before the wakeup, `advance` sends and changes nothing and no slot is ready |
| SomethingIsDueAt | apps/wifimic_client/src/control.rs:314-332 | at the wakeup a packet is attempted or a slot is ready, if and only if no Start is due with the id space used up |
| IdsCanRunOut | crates/wifimic_protocol/src/session.rs:38-51 | the exception is reachable: one clock reading of 2^64 - 1 uses the id space up, and the wakeup five seconds later sends nothing |
| PlayoutInstant | apps/wifimic_client/src/control_logic.rs:232-236 | the elapsed millisecond count reaches p exactly from origin + p ms on |
| ClientControl.ControlPlane.Start | apps/wifimic_client/src/control.rs:202-211 | new session: everything of the old run is cleared, the id is issued and the deadline armed even when the send fails |
| ClientControl.ControlPlane.Stop | apps/wifimic_client/src/control.rs:213-237 | all session state is cleared and a Stop for the current id, pending first, is attempted |
| ClientControl.ControlPlane.Advance | apps/wifimic_client/src/control.rs:240-261 | recalibration, then the timer of the current phase; a failed probe ends the call |
| ClientControl.ControlPlane.MaybeRecalibrate | apps/wifimic_client/src/control.rs:386-405 | a due probe is sent only while Streaming, and advances sequence and deadline only when sent |
| ClientControl.ControlPlane.AdvanceStreaming | apps/wifimic_client/src/control_logic.rs:121-136 | a due heartbeat counts a miss, and the second one makes the client unreachable |
| ClientControl.ControlPlane.IssueStart | apps/wifimic_client/src/control_logic.rs:197-206 | the new id is pending, no session accepted, five seconds to be acknowledged |
| ClientControl.ControlPlane.MarkUnreachable | apps/wifimic_client/src/control_logic.rs:208-224 | retry armed and buffer cleared, once |
| ClientControl.ControlPlane.ReceiveDatagram | apps/wifimic_client/src/control.rs:264-279 | dispatch by first byte to the three receivers, with the whole new state |
| ClientControl.ControlPlane.ReceiveControl | apps/wifimic_client/src/control_logic.rs:19-59 | only an Ack for the pending Start, or for the accepted session's Heartbeat, changes anything |
| ClientControl.ControlPlane.ReceiveAudio | apps/wifimic_client/src/control_logic.rs:61-79 | audio is pushed only while Streaming and for the accepted session |
| ClientControl.ControlPlane.ReceiveCalibration | apps/wifimic_client/src/control_logic.rs:81-119 | only the reply to the outstanding probe is used, and only once |
| ClientControl.ControlPlane.RenderReady | apps/wifimic_client/src/control.rs:292-312 | the due slot is rendered as a frame or as silence, and is consumed even when rendering fails |
| ReachableServers | apps/wifimic_server/src/control.rs:101-278 | in every reachable server state, also when capture fails to start, read or stop: Idle iff no heartbeat time, Starting iff a retry deadline, Idle owns no process, Streaming owns one; the session high-water mark never falls |
| ServeKeepsInv | apps/wifimic_server/src/main.rs:174-238 | one turn of the service loop keeps the server invariant and the high-water mark |
| DatagramKeepsInv | apps/wifimic_server/src/control.rs:72-99 | so does any datagram, well formed or not |
| AudioKeepsInv | apps/wifimic_server/src/control_support.rs:104-124 | so does reading a frame; a frame yielded belongs to the active session and carries the given sequence |
| AdvanceLeavesNothingOverdue | apps/wifimic_server/src/control.rs:101-125 | after a successful `advance` a non-idle server heard from its client less than 30 s ago and a starting one has its retry in the future |
| AdvanceFailsOnlyOnStop | apps/wifimic_server/src/control.rs:101-125 | `advance` fails exactly when an expired session's process cannot be stopped, and the server is idle even then |
| ReadTimeoutIsSafe | apps/wifimic_server/src/control.rs:127-149 | an idle server may block for ever because no timer can fire; a starting one wakes in time for its retry and at most one poll interval after it |
| AckMeans | apps/wifimic_server/src/control.rs:151-260 | an Ack answers a decodable request of the same kind and session, which is now the active one; for Start and Heartbeat its lease begins anew, after Stop the server is idle |
| StartIsAckedOnce | apps/wifimic_server/src/control.rs:166-205 | a Start is acknowledged exactly when newer than every session accepted before, and never again |
| AnsweredExactly | apps/wifimic_server/src/control.rs:72-99 | the answer to any datagram, both ways: which of Ack, nothing and each error it gets, and the Ack's session and kind |
| UnacknowledgedChangesNothing | apps/wifimic_server/src/control.rs:151-260 | whatever is not acknowledged, failed Stops aside, changes nothing beyond what the timers did |
| StopStops | apps/wifimic_server/src/control.rs:238-278 | a Stop for the active session always leaves the server idle with no process, lease or retry, whether or not the process could be stopped |
| HeartbeatRenews | apps/wifimic_server/src/control.rs:207-236 | a heartbeat renews the lease exactly when it is for the active session while Streaming, and changes nothing else |
| StartTakesOver | apps/wifimic_server/src/control.rs:166-205 | a newer Start is active with a fresh lease: capture goes on when Streaming, the retry moves when Starting, and capture is attempted at once when Idle |
| TimersTakeEffect | apps/wifimic_server/src/control.rs:101-125 | exactly what the 30 s timeout and a due retry do, and that nothing else happens |
| ReadTakesEffect | apps/wifimic_server/src/control_support.rs:104-149 | a read yields the frame read, labelled, or exactly when it fails a restart of capture in five seconds |
| PeerIsSubscriber | apps/wifimic_server/src/main.rs:202-216 | in every service run the peer is the source of the last acknowledged Start, or none if a Stop was acknowledged since or no Start was |
| EverythingIsRouted | apps/wifimic_server/src/main.rs:182-237 | in every run audio goes to that peer, and Acks and calibration replies go to the sender of the request |
| ProbeIsAnswered | apps/wifimic_server/src/main.rs:184-201 | a probe gets its own number and stamp back and touches nothing else |
| DatagramTurn | apps/wifimic_server/src/main.rs:202-221 | any other datagram: its answer, the restart of numbering on an acknowledged Start, and exactly when the loop leaves |
| TimersTurn | apps/wifimic_server/src/main.rs:227 | the timers send nothing and end the loop exactly when an expired process cannot be stopped |
| AudioTurnSendsExactly | apps/wifimic_server/src/main.rs:228-237 | an audio turn sends exactly one frame, numbered, if and only if there is a peer, the server streams, and the read succeeds |
| SuppliedFrameIsSent | apps/wifimic_server/src/main.rs:228-237 | which is the case whenever the process supplies 480 bytes |
| ServerControl.ControlPlane.Advance | apps/wifimic_server/src/control.rs:101-125 | timeout before retry, with the whole new state |
| ServerControl.ControlPlane.HandleStart | apps/wifimic_server/src/control.rs:166-205 | the three cases by phase of a newer Start; an older one changes nothing |
| ServerControl.ControlPlane.HandleHeartbeat | apps/wifimic_server/src/control.rs:207-236 | acknowledged only for the active session while Streaming |
| ServerControl.ControlPlane.HandleStop | apps/wifimic_server/src/control.rs:238-260 | acknowledged again when already idle; not when the process could not be stopped |
| ServerControl.ControlPlane.StopAndIdle | apps/wifimic_server/src/control.rs:262-278 | the control state is idle whether or not the process stopped |
| ServerControl.ControlPlane.TryStart | apps/wifimic_server/src/control_support.rs:126-135 | Streaming on success, otherwise a retry is scheduled |
| ServerControl.ControlPlane.ScheduleCaptureRetry | apps/wifimic_server/src/control_support.rs:137-149 | Starting, attempts counted up to the u32 maximum, next try in five seconds |
| ServerControl.ControlPlane.HandleDatagram | apps/wifimic_server/src/control.rs:72-99 | timers first, then decoding, then the handler |
| ServerControl.ControlPlane.NextAudioFrame | apps/wifimic_server/src/control_support.rs:104-124 | a frame only for an active streaming session; a failed read schedules a restart |
| ServerControl.ServiceLoop.Receive | apps/wifimic_server/src/main.rs:182-228 | probes are answered without touching the control plane; an acknowledged Start sets peer and restarts numbering, an acknowledged Stop forgets the peer |
| ServerControl.ServiceLoop.Pace | apps/wifimic_server/src/main.rs:229-238 | timers, then at most one frame to the peer, numbered consecutively |
| FrameIsNextBlock | apps/wifimic_server/src/capture_reader.rs:35-48 | whatever sizes the reads return, a frame is the next 480 bytes of the stream; on failure the bytes consumed are exactly those reported |
| ReadsExactlyWhenSupplied | apps/wifimic_server/src/capture_reader.rs:35-48 | a frame is read if and only if the reads supply 480 bytes in time; a read error after n bytes is reported if and only if a read fails after n bytes |
| ReadOutcomesAreExact | apps/wifimic_server/src/capture.rs:65-111 | what each outcome of a read leaves behind and reports, endpoint loss included |
| ReadOneFrameInto | apps/wifimic_server/src/capture_reader.rs:35-48 | the loop over the fixed buffer computes that frame |
| AcquisitionIsMonotonic | apps/wifimic_server/src/capture.rs:65-111 | acquisition times never run backwards even when the clock does |
| Capture.CaptureHandle.ReadFrame | apps/wifimic_server/src/capture.rs:65-111 | the process is given up at end of file and kept after a read error |
| Capture.CaptureHandle.Start | apps/wifimic_server/src/capture.rs:46-53 | starting twice keeps the running process |
| Capture.CaptureHandle.Stop | apps/wifimic_server/src/capture.rs:119-124 | afterwards there is no process, even when it could not be stopped |
| NextIsLeastNewer | crates/wifimic_protocol/src/session.rs:38-51 | the next id is the least one newer than the last and not behind the clock; none exists exactly when the space is used up |
| IssuedAreAllAccepted | crates/wifimic_protocol/src/session.rs:38-51 | whatever the clock does, issued ids increase strictly and an endpoint seeing them in order accepts every one |
| AcceptedIncrease | crates/wifimic_protocol/src/session.rs:20-25 | accepted ids increase strictly whatever arrives |
| SessionIds.SessionIdGenerator.NextId | crates/wifimic_protocol/src/session.rs:74-78 | the high-water mark moves to the id issued, and not at all on exhaustion |
| SessionIds.SessionOrder.Accept | crates/wifimic_protocol/src/session.rs:109-116 | accepts exactly newer ids and remembers them |
| NothingLostOrRepeated | apps/wifimic_client/src/render_windows_worker.rs:51-140 | for every interleaving of producer and worker: bytes written, then bytes queued with the chunk in flight counted once, are the stereo images of the accepted frames in order; the capacity holds; `drain` never exceeds the queue |
| RenderWorker.StepKeepsInv | apps/wifimic_client/src/render_windows_worker.rs:103-158 | every atomic step keeps this, including what the worker learned under an earlier lock |
| RefusalIsExact | apps/wifimic_client/src/render_windows.rs:85-101 | a frame is taken whole, or refused with nothing changed exactly after a failure or when it does not fit |
| PlanIsExact | apps/wifimic_client/src/render_fifo.rs:53-58 | the plan is limited by the device or by the queue and by nothing else |
| IterationMovesFront | apps/wifimic_client/src/render_windows_worker.rs:103-138 | an undisturbed iteration moves as many frames as the device has room for, or all there are, from the front of the queue to the device |
| WorkerEndsExactly | apps/wifimic_client/src/render_windows_worker.rs:51-158 | exactly when the worker fails and exactly when it leaves in good order |
| RenderFifo.PcmFifo.Push | apps/wifimic_client/src/render_fifo.rs:25-35 | appends the stereo image, or refuses exactly when it does not fit and leaves the queue as it was |
| RenderFifo.PcmFifo.QueuedDeviceFrames | apps/wifimic_client/src/render_fifo.rs:37-39 | the queue always holds whole device frames, and this is their number |
| RenderFifo.PcmFifo.CopyFront | apps/wifimic_client/src/render_fifo.rs:41-45 | the scratch buffer holds the oldest bytes and the queue keeps them |
| RenderFifo.PcmFifo.DiscardFront | apps/wifimic_client/src/render_fifo.rs:47-50 | removes exactly the bytes that a copy of the same length returns |
| StereoCarriesSaturatedGain | apps/wifimic_client/src/render.rs:125-151 | both channels of every sample carry four times the mono sample, saturated and never wrapped |
| SamplesAreLittleEndian | apps/wifimic_client/src/render.rs:125-138 | samples are little-endian two's complement |
| MonoToStereoBytes | apps/wifimic_client/src/render.rs:140-151 | the loop over the output array builds that image |
| OffsetError | crates/wifimic_protocol/src/latency/calibration.rs:157-181 | with constant skew, the offset errs by at most the ceiling of half the round trip (which is at most 10 ms) if and only if the skew lies within that ceiling of the i64 range |
| AcceptanceIsExact | crates/wifimic_protocol/src/latency/calibration.rs:157-181 | exactly which samples are refused, and why; the round trip and its floored half |
| PublishedBoundIsExactUnless | crates/wifimic_protocol/src/latency/calibration.rs:168-181 | the published floored bound is a true bound if and only if the skew lies within it of the i64 range and the case is not that of an odd round trip spent wholly on the way out with an unclamped estimate |
| UnrepresentableSkewIsMissed | crates/wifimic_protocol/src/latency/calibration.rs:168-181 | an instance of a skew beyond that range, with an error above 10 ms |
| FalseWarningIffSumAbove10ms | crates/wifimic_protocol/src/latency/calibration.rs:239-249 | with constant skew, two accepted exchanges with given round trips can raise a false instability warning if and only if the round trips exceed 10 ms together |
| OffsetsDiffer | crates/wifimic_protocol/src/latency/calibration.rs:157-181 | whatever the skew, two offsets differ by at most half the sum of their round trips, rounded up |
| OneWaysMislead | crates/wifimic_protocol/src/latency/calibration.rs:239-249 | for every pair of accepted round trips above 10 ms together and every skew not within 10 ms of the ends of the i64 range, exchanges that raise the false warning |
| Calibration.CalibrationTracker.Update | crates/wifimic_protocol/src/latency/calibration.rs:239-249 | the new offset is kept, and the warning raised exactly on a jump of more than 5 ms |
| PercentileIsNearestRank | crates/wifimic_protocol/src/latency/measurement.rs:27-48 | the value picked is a sample that at least p per cent of the samples do not exceed, and the least such |
| NearestRankIsUnique | crates/wifimic_protocol/src/latency/measurement.rs:27-48 | that definition singles out one value |
| PercentileIsStable | crates/wifimic_protocol/src/latency/measurement.rs:27-48 | sample errors of at most e move no percentile by more than e, either way |
| PercentileRisesAtMost | crates/wifimic_protocol/src/latency/measurement.rs:27-48 | samples that rise by at most e raise no percentile by more than e, however far others fall |
| ConservativeP95IsSound | crates/wifimic_protocol/src/latency/measurement.rs:27-60 | with constant skew and any accepted calibration, `conservative_p95_us` is at least the nearest-rank P95 of the times the frames truly took, by the client clock, for all measured frames, if and only if the skew exceeds the i64 range by no more than the 25 ms margin |
| TrueSkewGivesElapsed | crates/wifimic_protocol/src/latency/measurement.rs:52-60 | with the true skew the two stamps yield the true elapsed time |
| OffsetErrorCarriesOver | crates/wifimic_protocol/src/latency/measurement.rs:52-60 | with any other offset the result is off by at most the offset's error, and on its side |
| FromMicroseconds | crates/wifimic_protocol/src/latency/measurement.rs:27-48 | the three percentiles are the nearest-rank ones, all zero for no samples |
| Retry | apps/wifimic_client/src/main.rs:166-205 | the loop ends after at most max(1, ceil(budget / interval)) attempts, repeats only after failures with budget left, gives each attempt the remaining budget, and returns an error only once the budget has elapsed |
| AttemptsBounded | apps/wifimic_client/src/main.rs:166-205 | n continued attempts mean n full intervals strictly inside the budget, hence that bound |
| WaitsBounded | apps/wifimic_client/src/main.rs:166-205 | the waits requested never exceed the budget in total |
| BudgetsNeverIncrease | apps/wifimic_client/src/main.rs:166-205 | later attempts never get more time than earlier ones |
| SurvivorsAreNewestWithin | apps/wifimic_client/src/logging/rotation.rs:28-67 | when removals succeed, the survivors are the longest newest suffix of the sorted list within both limits |
| SecondPassRemovesNothing | apps/wifimic_client/src/logging/rotation.rs:28-67 | a second pass at the same time removes nothing, in whatever order the survivors are listed |
| ReportedBytesAreExact | apps/wifimic_client/src/logging/rotation.rs:28-67 | for every pattern of removal failures the reported bytes are exactly the survivors' total |
| RotateLogs | apps/wifimic_client/src/logging/rotation.rs:28-67 | examined = removed + survivors, for every pattern of removal failures |
| EnforceAge | apps/wifimic_client/src/logging/rotation.rs:28-67 | the age loop keeps exactly what is young or cannot be removed |
| EnforceSize | apps/wifimic_client/src/logging/rotation.rs:28-67 | the size loop removes from the oldest on while the retained total exceeds the limit |
| AgePassIsExact | apps/wifimic_client/src/logging/rotation.rs:28-67 | the age pass removes exactly the entries that are too old and can be removed, for every pattern of failures |
| SizePassIsExact | apps/wifimic_client/src/logging/rotation.rs:28-67 | the size pass tries the oldest entries, just as many as it takes: before each try the files left exceed the limit, afterwards they do not unless all were tried, for every pattern of failures |
| SurvivorsAreExact | apps/wifimic_client/src/logging/rotation.rs:28-67 | the two passes together, for every pattern of failures |
| SortSorts | apps/wifimic_client/src/logging/rotation.rs:157-163 | the result is in order of creation time, then path, and keeps every entry |
| BeforeIsTotal | apps/wifimic_client/src/logging/rotation.rs:157-163 | the comparator is total, and antisymmetric on creation time and path |
| ListingOrderIsIrrelevant | apps/wifimic_client/src/logging/rotation.rs:28-67 | with distinct paths the survivors do not depend on the order in which the directory lists its files |
| AudioRoundTrip | crates/wifimic_protocol/src/audio.rs:34-103 | decode after encode gives the frame back if and only if it has the current version |
| AudioCanonical | crates/wifimic_protocol/src/audio.rs:52-103 | the bytes that decode are exactly those of the right length, tag and version, and each is the encoding of its result |
| EncodeAudioFrame | crates/wifimic_protocol/src/audio.rs:34-49 | the slice copies into the fixed array lay out that encoding |
| AudioOnTheWire | crates/wifimic_protocol/src/audio.rs:34-49 | the length and the place of each field of an audio packet |
| AudioErrorsAreExact | crates/wifimic_protocol/src/audio.rs:52-103 | which error each malformed audio packet gets |
| DecodeAudioFrame | crates/wifimic_protocol/src/audio.rs:52-103 | the checks in source order give that parse, error by error |
| ControlRoundTrip | crates/wifimic_protocol/src/control.rs:41-121 | decode after encode gives the message back if and only if an Ack names a control kind |
| ControlCanonical | crates/wifimic_protocol/src/control.rs:63-121 | exactly the well-formed packets decode, and each is the encoding of its result |
| EncodeControl | crates/wifimic_protocol/src/control.rs:41-60 | the pushes into the vector give that encoding |
| ControlOnTheWire | crates/wifimic_protocol/src/control.rs:41-60 | the length, tag and place of each field of a control packet |
| ControlErrorsAreExact | crates/wifimic_protocol/src/control.rs:63-121 | which error each malformed control packet gets |
| CalibrationRoundTrip | crates/wifimic_protocol/src/latency/calibration.rs:54-139 | decode after encode gives every packet back |
| CalibrationCanonical | crates/wifimic_protocol/src/latency/calibration.rs:87-139 | exactly the well-formed packets decode, and each is the encoding of its result |
| EncodeCalibration | crates/wifimic_protocol/src/latency/calibration.rs:54-84 | the pushes into the vector give that encoding |
| CalibrationOnTheWire | crates/wifimic_protocol/src/latency/calibration.rs:54-84 | the length, tag and place of each field of a calibration packet |
| CalibrationErrorsAreExact | crates/wifimic_protocol/src/latency/calibration.rs:87-139 | which error each malformed calibration packet gets |
| Read32IsBigEndian | crates/wifimic_protocol/src/audio.rs:34-49 | integers of four bytes go most significant byte first |
| Read64IsBigEndian | crates/wifimic_protocol/src/audio.rs:34-49 | and so do those of eight |

## Left out

- Time in the system model: one global clock, and each call's `now` equals it. The client's main loop reads `now` before a receive that may block, so a real call can see a slightly older instant.
- LeaseExactly: the delay bound concerns only datagrams on their way to the client; the way to the server is unrestricted. Time does not pass a due heartbeat before the client has serviced it.
- TransparentDelayLine: assumes that all times of the stream stay below 2^64 ms.
- TracesAgree: after an eviction, or with a stored frame more than 2^31 slots behind the cursor, the u32 buffer no longer stands for the ideal one (ObserveRefines), so nothing is claimed for the rest of such a run; EvictionDiverges shows that the traces can then differ.
- Retry: assumes a positive interval, a monotonic clock and waits that last at least as long as requested. The u32 attempt counter is unbounded in the model.
- RotateLogs: the two loops of the source are the methods EnforceAge and EnforceSize. Scanning the directory and reading file headers are not modelled; the entries are the input and paths are their text.
- FromMicroseconds: the library sort is specified by insertion rather than modelled in place. LogRotation does the same for its sort.
- NothingLostOrRepeated: the event loop is a state machine whose steps are the source's critical sections, so that the producer can run between any two of them.
- Crash and restart of either process, socket errors, and the peer address filter. A packet whose send failed stays in the network set, and a server that would exit after a failed stop may go on: both only add behaviours, and the theorems hold for them too.
- Overflow of `Instant` and the fallback in `retry_deadline`: instants are unbounded.
- The capture process as an operating system object: its output stream, the chunk sizes and failures of its reads, and how it exits are parameters, and the handle holds it by value.
- Diagnostics events and counters inside the state machines, and the getters: no property depends on them.
- WASAPI, COM, tray, console and installer code, the updater, the command line, and the floating-point tone generator and onset detector.
